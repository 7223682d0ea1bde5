// packages/provider/src/registry-service.ts: the class ProviderRegistryService, one method for
// each stretch of code between two awaits, proved against module RegistryRefresh.

module RegistryService {
  import opened Wrappers
  import opened ProviderSources
  import opened Waiters
  import opened RegistryRefresh

  class ProviderRegistryService {
    var refreshWaiters: seq<nat>
    var snapshot: Option<RegistrySnapshot>
    var requestedGeneration: nat
    var completedGeneration: nat
    var refreshInFlight: Phase
    var disposed: bool
    var lastRead: Option<RegistrySnapshot>
    var failed: bool
    var log: seq<LogEntry>

    ghost function State(): (r: Registry)
      reads this
    {
      Registry(requestedGeneration, completedGeneration, refreshWaiters, snapshot, refreshInFlight, disposed,
               lastRead, failed, log)
    }

    // Every waiter's generation was handed out.
    ghost predicate Valid()
      reads this
    {
      forall w <- refreshWaiters :: w <= requestedGeneration
    }

    constructor ()
      ensures State() == Initial() && Valid()
    {
      refreshWaiters, snapshot, requestedGeneration, completedGeneration := [], None, 0, 0;
      refreshInFlight, disposed, lastRead, failed, log := Idle, false, None, false, [];
    }

    // refresh() throws after dispose; source events are dropped.
    method RequestRefresh() returns (accepted: bool)
      modifies this
      ensures State() == Request(old(State()))
      ensures accepted <==> !old(disposed)
    {
      if disposed {
        return false;
      }
      var generation := requestedGeneration + 1;
      requestedGeneration := generation;
      refreshWaiters := refreshWaiters + [generation];
      log := log + [Asked(generation)];
      EnsureRefreshLoop();
      return true;
    }

    method EnsureRefreshLoop()
      modifies this
      ensures State() == EnsureLoop(old(State()))
    {
      if refreshInFlight != Idle || disposed {
        return;
      }
      NextIteration();
    }

    method NextIteration()
      modifies this
      ensures State() == LoopHead(old(State()))
    {
      if completedGeneration < requestedGeneration {
        refreshInFlight := Reading(requestedGeneration);
        log := log + [Began(requestedGeneration)];
      } else {
        refreshInFlight := Ended(false);
      }
    }

    method ResumeWithError()
      requires refreshInFlight.Reading?
      modifies this
      ensures State() == ReadFailed(old(State()))
    {
      var generation := refreshInFlight.generation;
      if generation < requestedGeneration {
        NextIteration();
        return;
      }
      completedGeneration := generation;
      failed := true;
      RejectRefreshWaiters(generation);
      refreshInFlight := Ended(false);
    }

    method ResumeWithReads(config: ConfigSnapshot, account: AccountSnapshot, resolves: bool)
      requires refreshInFlight.Reading?
      modifies this
      ensures State() == ReadDone(old(State()), config, account, resolves)
    {
      var generation := refreshInFlight.generation;
      if generation < requestedGeneration {
        NextIteration();
        return;
      }
      if disposed {
        refreshInFlight := Ended(true);
        return;
      }
      var read := RegistrySnapshot(config, account);
      if account.basedOn != config.builtin.revision {
        completedGeneration, failed, lastRead := generation, false, Some(read);
        if snapshot.Some? {
          ResolveRefreshWaiters(generation, snapshot.value);
        }
        NextIteration();
        return;
      }
      if snapshot.Some? && SameRevision(snapshot.value.config, config) && snapshot.value.account == account {
        completedGeneration, failed, lastRead := generation, false, Some(read);
        ResolveRefreshWaiters(generation, snapshot.value);
        NextIteration();
        return;
      }
      if !resolves {
        completedGeneration, failed := generation, true;
        RejectRefreshWaiters(generation);
        refreshInFlight := Ended(false);
        return;
      }
      snapshot := Some(read);
      log := log + [Published(read)];
      completedGeneration, failed, lastRead := generation, false, Some(read);
      ResolveRefreshWaiters(generation, read);
      NextIteration();
    }

    method FinishRefresh()
      requires refreshInFlight.Ended?
      modifies this
      ensures State() == Finish(old(State()))
    {
      if refreshInFlight.thrown {
        RejectRefreshWaiters(requestedGeneration);
      }
      refreshInFlight := Idle;
      if completedGeneration < requestedGeneration {
        EnsureRefreshLoop();
      }
    }

    method DisposeService()
      requires Valid()
      modifies this
      ensures State() == Dispose(old(State()))
    {
      if disposed {
        return;
      }
      disposed := true;
      AllWaitersGo(refreshWaiters, requestedGeneration);
      RejectRefreshWaiters(requestedGeneration);
    }

    method ResolveRefreshWaiters(generation: nat, answer: RegistrySnapshot)
      modifies this
      ensures State() == Answer(old(State()), generation, answer)
    {
      hide After, Answers;
      var remaining: seq<nat> := [];
      ghost var all := refreshWaiters;
      var settled: seq<LogEntry> := [];
      for i := 0 to |refreshWaiters|
        invariant State() == old(State()) && refreshWaiters == all
        invariant remaining + After(all[i..], generation) == After(all, generation)
        invariant settled + Answers(all[i..], generation, answer) == Answers(all, generation, answer)
      {
        WaiterApart(all, i, generation);
        AnswerApart(all, i, generation, answer);
        Joined(remaining, if all[i] <= generation then [] else [all[i]], After(all[i + 1..], generation));
        Joined(settled, if all[i] <= generation then [Answered(all[i], answer)] else [],
               Answers(all[i + 1..], generation, answer));
        if refreshWaiters[i] <= generation {
          settled := settled + [Answered(refreshWaiters[i], answer)];
        } else {
          remaining := remaining + [refreshWaiters[i]];
        }
      }
      assert all[|all|..] == [];
      NobodyLeft<RegistrySnapshot>(generation);
      assert remaining + [] == remaining && settled + [] == settled;
      refreshWaiters := remaining;
      log := log + settled;
    }

    method RejectRefreshWaiters(generation: nat)
      modifies this
      ensures State() == Refuse(old(State()), generation)
    {
      hide After, Refusals;
      var remaining: seq<nat> := [];
      ghost var all := refreshWaiters;
      var settled: seq<LogEntry> := [];
      for i := 0 to |refreshWaiters|
        invariant State() == old(State()) && refreshWaiters == all
        invariant remaining + After(all[i..], generation) == After(all, generation)
        invariant settled + Refusals(all[i..], generation) == Refusals(all, generation)
      {
        WaiterApart(all, i, generation);
        RefusalApart<RegistrySnapshot>(all, i, generation);
        Joined(remaining, if all[i] <= generation then [] else [all[i]], After(all[i + 1..], generation));
        Joined(settled, if all[i] <= generation then [Refused(all[i])] else [], Refusals(all[i + 1..], generation));
        if refreshWaiters[i] <= generation {
          settled := settled + [Refused(refreshWaiters[i])];
        } else {
          remaining := remaining + [refreshWaiters[i]];
        }
      }
      assert all[|all|..] == [];
      NobodyLeft<RegistrySnapshot>(generation);
      assert remaining + [] == remaining && settled + [] == settled;
      refreshWaiters := remaining;
      log := log + settled;
    }
  }
}
