// What the account service owes its callers.

module AccountWaiters {
  // Whatever the configuration source and the resolver deliver.

  import opened Wrappers
  import opened ProviderSources
  import opened AccountRefresh
  import opened Waiters

  datatype Op =
    | DoRequest(reason: string)
    | DoConfigRead(config: ConfigSnapshot)
    | DoResolve(providers: Overlays, states: string)
    | DoConfigReadAgain(config: ConfigSnapshot)
    | DoFail
    | DoFinish
    | DoDispose

  predicate InRound(a: Account) {
    a.phase.ReadingConfig? || a.phase.Resolving? || a.phase.ReadingAgain?
  }

  function Apply(a: Account, op: Op): (a': Account) {
    match op
    case DoRequest(reason) => Request(a, reason)
    case DoConfigRead(config) => if a.phase.ReadingConfig? then ConfigRead(a, config) else a
    case DoResolve(providers, states) => if a.phase.Resolving? then Resolved(a, providers, states) else a
    case DoConfigReadAgain(config) => if a.phase.ReadingAgain? then ConfigReadAgain(a, config).state else a
    case DoFail => if InRound(a) then Fail(a) else a
    case DoFinish => if a.phase.Ended? then Finish(a) else a
    case DoDispose => Dispose(a)
  }

  function Run(ops: seq<Op>): (a: Account) {
    if ops == [] then Initial() else Apply(Run(ops[..|ops| - 1]), ops[|ops| - 1])
  }

  function Book(a: Account): (b: Ledger<AccountSnapshot>) {
    Ledger(a.requested, a.waiting, a.log)
  }

  ghost predicate Core(a: Account) {
    Sound(Book(a)) && (a.disposed ==> a.waiting == [])
  }

  ghost predicate Invariant(a: Account) {
    && Core(a)
    && (InRound(a) ==> a.phase.generation <= a.requested && Covered(a.log, a.phase.generation))
  }

  // ---------------------------------------------------------------------------------------
  // Every step
  // ---------------------------------------------------------------------------------------

  lemma {:induction false} LoopHeadKeeps(a: Account)
    requires Core(a)
    ensures Invariant(LoopHead(a))
  {
    BeginningKeeps(Book(a));
  }

  lemma {:induction false} RequestKeeps(a: Account, reason: string)
    requires Invariant(a)
    ensures Invariant(Request(a, reason))
  {
    hide Sound, Covered, LoopHead;
    if !a.disposed {
      var generation := a.requested + 1;
      var asked := a.(
        started := true,
        requested := generation,
        pending := a.pending + {reason},
        waiting := a.waiting + [generation],
        log := a.log + [Asked(generation)]);
      AskingKeeps(Book(a));
      assert Book(asked) == Ledger(generation, a.waiting + [generation], a.log + [Asked(generation)]);
      if InRound(a) {
        StaysCovered(a.log, Asked(generation), a.phase.generation);
      }
      LoopHeadKeeps(asked);
    }
  }

  lemma {:induction false} ConfigReadAgainKeeps(a: Account, current: ConfigSnapshot)
    requires Invariant(a) && a.phase.ReadingAgain?
    ensures Invariant(ConfigReadAgain(a, current).state)
  {
    hide Sound, Covered, LoopHead, Answers, After, Fail;
    var generation, config := a.phase.generation, a.phase.config;
    if a.disposed {
      FailKeeps(a);
    } else if a.pending != {} || current.builtin.revision != config.builtin.revision {
      LoopHeadKeeps(a.(pending := a.pending + {"superseded-resolution"}));
    } else {
      var next := AccountSnapshot(config.builtin.revision, a.phase.providers, Some(a.phase.states));
      var done := (if a.snapshot == Some(next) then a else Publish(a, next)).(failed := false);
      NotingKeeps(Book(a), Published(next));
      StaysCovered(a.log, Published(next), generation);
      AnsweringKeeps(Book(done), generation, next);
      LoopHeadKeeps(Answer(done, generation, next));
    }
  }

  lemma {:induction false} FailKeeps(a: Account)
    requires Invariant(a) && InRound(a)
    ensures Invariant(Fail(a))
  {
    hide Sound, Covered, LoopHead, Answers, Refusals;
    var generation := a.phase.generation;
    if a.snapshot.None? && !a.phase.ReadingConfig? {
      var closed := FailClosed(a.phase.config);
      var done := Publish(a, closed).(failed := false);
      NotingKeeps(Book(a), Published(closed));
      StaysCovered(a.log, Published(closed), generation);
      AnsweringKeeps(Book(done), generation, closed);
      LoopHeadKeeps(Answer(done, generation, closed));
    } else {
      RefusingKeeps(Book(a), generation);
    }
  }

  lemma {:induction false} DisposeKeeps(a: Account)
    requires Invariant(a)
    ensures Invariant(Dispose(a))
  {
    if !a.disposed {
      RefusingKeeps(Book(a), a.requested);
      AllWaitersGo(a.waiting, a.requested);
      if InRound(a) {
        RefusalStaysCovered(Book(a), a.requested, a.phase.generation);
      }
    }
  }

  lemma {:induction false} ApplyKeeps(a: Account, op: Op)
    requires Invariant(a)
    ensures Invariant(Apply(a, op))
  {
    hide Sound, Covered, Request, ConfigReadAgain, Fail, LoopHead, Dispose;
    match op
    case DoRequest(reason) => RequestKeeps(a, reason);
    case DoConfigRead(_) =>
    case DoResolve(_, _) =>
      if a.phase.Resolving? {
        FailKeeps(a);
      }
    case DoConfigReadAgain(config) =>
      if a.phase.ReadingAgain? {
        ConfigReadAgainKeeps(a, config);
      }
    case DoFail =>
      if InRound(a) {
        FailKeeps(a);
      }
    case DoFinish => LoopHeadKeeps(a.(phase := Idle));
    case DoDispose => DisposeKeeps(a);
  }

  lemma {:induction false} EveryRunKeeps(ops: seq<Op>)
    ensures Invariant(Run(ops))
  {
    if ops != [] {
      EveryRunKeeps(ops[..|ops| - 1]);
      ApplyKeeps(Run(ops[..|ops| - 1]), ops[|ops| - 1]);
    }
  }

  // ---------------------------------------------------------------------------------------
  // The promises
  // ---------------------------------------------------------------------------------------

  // In every run: each request is settled at most once, and waits until then; an answer comes
  // from a round that began after the request; after dispose every request is settled.
  lemma {:induction false} EveryRequestIsServed(ops: seq<Op>)
    ensures var a := Run(ops); Serves(Book(a)) && (a.disposed ==> AllSettled(Book(a)))
  {
    EveryRunKeeps(ops);
  }
}
