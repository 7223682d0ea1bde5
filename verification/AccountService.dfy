// packages/provider/src/account-provider-service.ts: the class AccountProviderService, one method
// for each stretch of code between two awaits, proved against module AccountRefresh.

module AccountService {
  import opened Wrappers
  import opened ProviderSources
  import opened Waiters
  import opened AccountRefresh

  class AccountProviderService {
    var pendingReasons: set<string>
    var snapshot: Option<AccountSnapshot>
    var refreshInFlight: Phase
    var requestedGeneration: nat
    var refreshWaiters: seq<nat>
    var started: bool
    var disposed: bool
    var failed: bool
    var log: seq<LogEntry>

    ghost function State(): (a: Account)
      reads this
    {
      Account(requestedGeneration, pendingReasons, refreshWaiters, snapshot, refreshInFlight, started, disposed,
              failed, log)
    }

    ghost predicate Valid()
      reads this
    {
      forall w <- refreshWaiters :: w <= requestedGeneration
    }

    constructor ()
      ensures State() == Initial() && Valid()
    {
      pendingReasons, snapshot, refreshInFlight, requestedGeneration := {}, None, Idle, 0;
      refreshWaiters, started, disposed, failed, log := [], false, false, false, [];
    }

    // refresh() throws after dispose; the subscription to the configuration is gone by then.
    method RequestRefresh(reason: string) returns (accepted: bool)
      modifies this
      ensures State() == Request(old(State()), reason)
      ensures accepted <==> !old(disposed)
    {
      if disposed {
        return false;
      }
      started := true;
      var generation := requestedGeneration + 1;
      requestedGeneration := generation;
      pendingReasons := pendingReasons + {reason};
      refreshWaiters := refreshWaiters + [generation];
      log := log + [Asked(generation)];
      if refreshInFlight == Idle {
        NextRound();
      }
      return true;
    }

    method NextRound()
      modifies this
      ensures State() == LoopHead(old(State()))
    {
      if pendingReasons != {} {
        refreshInFlight := ReadingConfig(requestedGeneration);
        pendingReasons := {};
        log := log + [Began(requestedGeneration)];
      } else {
        refreshInFlight := Ended;
      }
    }

    method ResumeWithConfig(config: ConfigSnapshot)
      requires refreshInFlight.ReadingConfig?
      modifies this
      ensures State() == ConfigRead(old(State()), config)
    {
      refreshInFlight := Resolving(refreshInFlight.generation, config);
    }

    method ResumeWithResolution(providers: Overlays, states: string)
      requires refreshInFlight.Resolving?
      modifies this
      ensures State() == Resolved(old(State()), providers, states)
    {
      if disposed {
        ResumeWithError();
        return;
      }
      refreshInFlight := ReadingAgain(refreshInFlight.generation, refreshInFlight.config, providers, states);
    }

    method ResumeWithCurrentConfig(current: ConfigSnapshot) returns (notified: bool)
      requires refreshInFlight.ReadingAgain?
      modifies this
      ensures Stepped(State(), notified) == ConfigReadAgain(old(State()), current)
    {
      if disposed {
        ResumeWithError();
        return false;
      }
      var generation, config := refreshInFlight.generation, refreshInFlight.config;
      if pendingReasons != {} || current.builtin.revision != config.builtin.revision {
        pendingReasons := pendingReasons + {"superseded-resolution"};
        NextRound();
        return false;
      }
      var next := AccountSnapshot(config.builtin.revision, refreshInFlight.providers, Some(refreshInFlight.states));
      failed := false;
      if snapshot == Some(next) {
        ResolveRefreshWaiters(generation, next);
        NextRound();
        return false;
      }
      notified := snapshot.Some?;
      snapshot := Some(next);
      log := log + [Published(next)];
      ResolveRefreshWaiters(generation, next);
      NextRound();
    }

    method ResumeWithError()
      requires refreshInFlight.ReadingConfig? || refreshInFlight.Resolving? || refreshInFlight.ReadingAgain?
      modifies this
      ensures State() == Fail(old(State()))
    {
      var generation := refreshInFlight.generation;
      if snapshot.None? && !refreshInFlight.ReadingConfig? {
        var closed := FailClosed(refreshInFlight.config);
        snapshot := Some(closed);
        log := log + [Published(closed)];
        failed := false;
        ResolveRefreshWaiters(generation, closed);
        NextRound();
        return;
      }
      RejectRefreshWaiters(generation);
      failed := true;
      refreshInFlight := Ended;
    }

    method FinishRefresh()
      requires refreshInFlight.Ended?
      modifies this
      ensures State() == Finish(old(State()))
    {
      refreshInFlight := Idle;
      if disposed || pendingReasons == {} {
        return;
      }
      NextRound();
    }

    method DisposeService()
      requires Valid()
      modifies this
      ensures State() == Dispose(old(State()))
    {
      if disposed {
        return;
      }
      disposed := true;
      AllWaitersGo(refreshWaiters, requestedGeneration);
      RejectRefreshWaiters(requestedGeneration);
    }

    method ResolveRefreshWaiters(generation: nat, answer: AccountSnapshot)
      modifies this
      ensures State() == Answer(old(State()), generation, answer)
    {
      hide After, Answers;
      var remaining: seq<nat> := [];
      ghost var all := refreshWaiters;
      var settled: seq<LogEntry> := [];
      for i := 0 to |refreshWaiters|
        invariant State() == old(State()) && refreshWaiters == all
        invariant remaining + After(all[i..], generation) == After(all, generation)
        invariant settled + Answers(all[i..], generation, answer) == Answers(all, generation, answer)
      {
        WaiterApart(all, i, generation);
        AnswerApart(all, i, generation, answer);
        Joined(remaining, if all[i] <= generation then [] else [all[i]], After(all[i + 1..], generation));
        Joined(settled, if all[i] <= generation then [Answered(all[i], answer)] else [],
               Answers(all[i + 1..], generation, answer));
        if refreshWaiters[i] <= generation {
          settled := settled + [Answered(refreshWaiters[i], answer)];
        } else {
          remaining := remaining + [refreshWaiters[i]];
        }
      }
      assert all[|all|..] == [];
      NobodyLeft<AccountSnapshot>(generation);
      assert remaining + [] == remaining && settled + [] == settled;
      refreshWaiters := remaining;
      log := log + settled;
    }

    method RejectRefreshWaiters(generation: nat)
      modifies this
      ensures State() == Refuse(old(State()), generation)
    {
      hide After, Refusals;
      var remaining: seq<nat> := [];
      ghost var all := refreshWaiters;
      var settled: seq<LogEntry> := [];
      for i := 0 to |refreshWaiters|
        invariant State() == old(State()) && refreshWaiters == all
        invariant remaining + After(all[i..], generation) == After(all, generation)
        invariant settled + Refusals(all[i..], generation) == Refusals(all, generation)
      {
        WaiterApart(all, i, generation);
        RefusalApart<AccountSnapshot>(all, i, generation);
        Joined(remaining, if all[i] <= generation then [] else [all[i]], After(all[i + 1..], generation));
        Joined(settled, if all[i] <= generation then [Refused(all[i])] else [], Refusals(all[i + 1..], generation));
        if refreshWaiters[i] <= generation {
          settled := settled + [Refused(refreshWaiters[i])];
        } else {
          remaining := remaining + [refreshWaiters[i]];
        }
      }
      assert all[|all|..] == [];
      NobodyLeft<AccountSnapshot>(generation);
      assert remaining + [] == remaining && settled + [] == settled;
      refreshWaiters := remaining;
      log := log + settled;
    }
  }
}
