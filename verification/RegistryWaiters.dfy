// What the registry owes its callers.

module RegistryWaiters {
  // Whatever its two sources deliver.

  import opened Wrappers
  import opened ProviderSources
  import opened RegistryRefresh
  import opened Waiters

  datatype Op =
    | DoRequest
    | DoReadFailed
    | DoReadDone(config: ConfigSnapshot, account: AccountSnapshot, resolves: bool)
    | DoFinish
    | DoDispose

  function Apply(r: Registry, op: Op): (r': Registry) {
    match op
    case DoRequest => Request(r)
    case DoReadFailed => if r.phase.Reading? then ReadFailed(r) else r
    case DoReadDone(config, account, resolves) => if r.phase.Reading? then ReadDone(r, config, account, resolves) else r
    case DoFinish => if r.phase.Ended? then Finish(r) else r
    case DoDispose => Dispose(r)
  }

  function Run(ops: seq<Op>): (r: Registry) {
    if ops == [] then Initial() else Apply(Run(ops[..|ops| - 1]), ops[|ops| - 1])
  }

  function Book(r: Registry): (b: Ledger<RegistrySnapshot>) {
    Ledger(r.requested, r.waiting, r.log)
  }

  ghost predicate Core(r: Registry) {
    Sound(Book(r)) && (r.disposed ==> r.waiting == [])
  }

  ghost predicate Invariant(r: Registry) {
    && Core(r)
    && (r.phase.Reading? ==> r.phase.generation <= r.requested && Covered(r.log, r.phase.generation))
  }

  // ---------------------------------------------------------------------------------------
  // Every step
  // ---------------------------------------------------------------------------------------

  lemma {:induction false} LoopHeadKeeps(r: Registry)
    requires Core(r)
    ensures Invariant(LoopHead(r))
  {
    BeginningKeeps(Book(r));
  }

  lemma {:induction false} EnsureLoopKeeps(r: Registry)
    requires Invariant(r)
    ensures Invariant(EnsureLoop(r))
  {
    LoopHeadKeeps(r);
  }

  lemma {:induction false} RequestKeeps(r: Registry)
    requires Invariant(r)
    ensures Invariant(Request(r))
  {
    hide Sound, Covered, EnsureLoop;
    if !r.disposed {
      var generation := r.requested + 1;
      var asked := r.(requested := generation, waiting := r.waiting + [generation], log := r.log + [Asked(generation)]);
      AskingKeeps(Book(r));
      if r.phase.Reading? {
        StaysCovered(r.log, Asked(generation), r.phase.generation);
      }
      EnsureLoopKeeps(asked);
    }
  }

  lemma {:induction false} AnswerKeeps(r: Registry, generation: nat, snapshot: RegistrySnapshot)
    requires Core(r) && Covered(r.log, generation)
    ensures Core(Answer(r, generation, snapshot))
  {
    AnsweringKeeps(Book(r), generation, snapshot);
  }

  lemma {:induction false} RefuseKeeps(r: Registry, generation: nat)
    requires Core(r)
    ensures Core(Refuse(r, generation))
  {
    RefusingKeeps(Book(r), generation);
  }

  lemma {:induction false} ReadDoneKeeps(r: Registry, config: ConfigSnapshot, account: AccountSnapshot, resolves: bool)
    requires Invariant(r) && r.phase.Reading?
    ensures Invariant(ReadDone(r, config, account, resolves))
  {
    var generation := r.phase.generation;
    if generation < r.requested {
      LoopHeadKeeps(r);
    } else if !r.disposed {
      var read := RegistrySnapshot(config, account);
      var done := r.(completed := generation, failed := false, lastRead := Some(read));
      if account.basedOn != config.builtin.revision {
        if r.snapshot.Some? {
          AnswerKeeps(done, generation, r.snapshot.value);
          LoopHeadKeeps(Answer(done, generation, r.snapshot.value));
        } else {
          LoopHeadKeeps(done);
        }
      } else if SameRevisions(r, config, account) {
        AnswerKeeps(done, generation, r.snapshot.value);
        LoopHeadKeeps(Answer(done, generation, r.snapshot.value));
      } else if resolves {
        PublishKeeps(done, read, generation);
      } else {
        RefuseKeeps(r.(completed := generation, failed := true), generation);
      }
    }
  }

  lemma {:induction false} PublishKeeps(done: Registry, read: RegistrySnapshot, generation: nat)
    requires Core(done) && Covered(done.log, generation)
    ensures var published := done.(snapshot := Some(read), log := done.log + [Published(read)]);
            Invariant(LoopHead(Answer(published, generation, read)))
  {
    NotingKeeps(Book(done), Published(read));
    var published := done.(snapshot := Some(read), log := done.log + [Published(read)]);
    StaysCovered(done.log, Published(read), generation);
    AnswerKeeps(published, generation, read);
    LoopHeadKeeps(Answer(published, generation, read));
  }

  lemma {:induction false} ReadFailedKeeps(r: Registry)
    requires Invariant(r) && r.phase.Reading?
    ensures Invariant(ReadFailed(r))
  {
    LoopHeadKeeps(r);
    RefuseKeeps(r.(completed := r.phase.generation, failed := true), r.phase.generation);
  }

  lemma {:induction false} FinishKeeps(r: Registry)
    requires Invariant(r) && r.phase.Ended?
    ensures Invariant(Finish(r))
  {
    RefuseKeeps(r, r.requested);
    LoopHeadKeeps((if r.phase.thrown then Refuse(r, r.requested) else r).(phase := Idle));
  }

  lemma {:induction false} DisposeKeeps(r: Registry)
    requires Invariant(r)
    ensures Invariant(Dispose(r))
  {
    if !r.disposed {
      RefuseKeeps(r, r.requested);
      AllWaitersGo(r.waiting, r.requested);
      if r.phase.Reading? {
        RefusalStaysCovered(Book(r), r.requested, r.phase.generation);
      }
    }
  }

  lemma {:induction false} ApplyKeeps(r: Registry, op: Op)
    requires Invariant(r)
    ensures Invariant(Apply(r, op))
  {
    hide Invariant, Request, ReadFailed, ReadDone, Finish, Dispose;
    match op
    case DoRequest => RequestKeeps(r);
    case DoReadFailed =>
      if r.phase.Reading? {
        ReadFailedKeeps(r);
      }
    case DoReadDone(config, account, resolves) =>
      if r.phase.Reading? {
        ReadDoneKeeps(r, config, account, resolves);
      }
    case DoFinish =>
      if r.phase.Ended? {
        FinishKeeps(r);
      }
    case DoDispose => DisposeKeeps(r);
  }

  // ---------------------------------------------------------------------------------------
  // The promises
  // ---------------------------------------------------------------------------------------

  // In every run: each request is settled at most once, and waits until then; an answer comes
  // from reads that began after the request; after dispose every request is settled.
  lemma {:induction false} EveryRequestIsServed(ops: seq<Op>)
    ensures var r := Run(ops); Serves(Book(r)) && (r.disposed ==> AllSettled(Book(r)))
  {
    EveryRunKeeps(ops);
  }

  lemma {:induction false} EveryRunKeeps(ops: seq<Op>)
    ensures Invariant(Run(ops))
  {
    if ops != [] {
      EveryRunKeeps(ops[..|ops| - 1]);
      ApplyKeeps(Run(ops[..|ops| - 1]), ops[|ops| - 1]);
    }
  }
}
