// What the account service answers.

module AccountAnswers {
  // How each round ends, said over the log, and which snapshot an answer is.

  import opened Wrappers
  import opened ProviderSources
  import opened AccountRefresh
  import opened AccountWaiters
  import opened Waiters

  ghost predicate Invariant(a: Account) {
    LastPublished(a.log) == a.snapshot && AnswersArePublished(a.log)
  }

  // ---------------------------------------------------------------------------------------
  // How a round ends
  // ---------------------------------------------------------------------------------------

  // The caller's request fails, what is published stays.
  ghost predicate Refuses(a: Account, a': Account, added: seq<LogEntry>)
    requires InRound(a)
  {
    && OnlyRefusals(added, a.waiting, a.phase.generation)
    && a'.snapshot == a.snapshot && a'.phase.Ended?
  }

  // The first snapshot of all: every account provider of the configuration, and none entitled.
  ghost predicate Closes(a: Account, a': Account, added: seq<LogEntry>, config: ConfigSnapshot)
    requires InRound(a)
  {
    && a'.snapshot.Some?
    && var closed := a'.snapshot.value;
       && closed.basedOn == config.builtin.revision
       && (forall p :: p in closed.providers <==>
             p in config.builtin.providers && config.builtin.providers[p].ByAccount?)
       && (forall p | p in closed.providers :: !closed.providers[p].entitled)
       && OnlyAnswers(added, a.waiting, a.phase.generation, closed)
  }

  // The round is thrown away: nobody is told, and another one begins.
  ghost predicate StartsOver(a: Account, a': Account, added: seq<LogEntry>) {
    && NobodySettled(added) && Began(a.requested) in added
    && a'.snapshot == a.snapshot && a'.waiting == a.waiting && a'.phase == ReadingConfig(a.requested)
  }

  // What was resolved is published, and told.
  ghost predicate Succeeds(a: Account, a': Account, added: seq<LogEntry>)
    requires a.phase.ReadingAgain?
  {
    var next := AccountSnapshot(a.phase.config.builtin.revision, a.phase.providers, Some(a.phase.states));
    && a'.snapshot == Some(next)
    && OnlyAnswers(added, a.waiting, a.phase.generation, next)
  }

  // Somebody asked meanwhile, or the Built-in has moved on since the round began.
  predicate Outdated(a: Account, current: ConfigSnapshot)
    requires a.phase.ReadingAgain?
  {
    a.pending != {} || current.builtin.revision != a.phase.config.builtin.revision
  }

  // Reads and resolutions fail, and after dispose whatever comes next.
  predicate FailsBy(a: Account, op: Op) {
    || op.DoFail?
    || (a.disposed && op.DoResolve? && a.phase.Resolving?)
    || (a.disposed && op.DoConfigReadAgain? && a.phase.ReadingAgain?)
  }

  ghost predicate RoundEnds(a: Account, op: Op, a': Account)
    requires InRound(a)
  {
    && a.log <= a'.log
    && var added := a'.log[|a.log|..];
       if FailsBy(a, op) then
         if a.snapshot.None? && !a.phase.ReadingConfig? then Closes(a, a', added, a.phase.config)
         else Refuses(a, a', added)
       else if op.DoConfigReadAgain? && a.phase.ReadingAgain? then
         if Outdated(a, op.config) then StartsOver(a, a', added)
         else Succeeds(a, a', added)
       else if op.DoConfigRead? && a.phase.ReadingConfig? then
         added == [] && a'.phase == Resolving(a.phase.generation, op.config)
       else if op.DoResolve? && a.phase.Resolving? then
         added == [] && a'.phase == ReadingAgain(a.phase.generation, a.phase.config, op.providers, op.states)
       else true
  }

  lemma {:induction false} Extended(log: seq<LogEntry>, added: seq<LogEntry>)
    ensures log <= log + added && (log + added)[|log|..] == added
  {
  }

  lemma {:induction false} FailingEnds(a: Account)
    requires InRound(a)
    ensures a.log <= Fail(a).log
    ensures var added := Fail(a).log[|a.log|..];
            if a.snapshot.None? && !a.phase.ReadingConfig? then Closes(a, Fail(a), added, a.phase.config)
            else Refuses(a, Fail(a), added)
  {
    hide LoopHead, OnlyAnswers, OnlyRefusals, Answers, Refusals, After;
    var g := a.phase.generation;
    if a.snapshot.None? && !a.phase.ReadingConfig? {
      var closed := FailClosed(a.phase.config);
      AnswersTell(a.waiting, g, closed);
      LoopHeadAdds(Answer(Publish(a, closed).(failed := false), g, closed));
      ThreeParts(a.log, Published(closed), Answers(a.waiting, g, closed), HeadEntries(a));
      AroundAnswers([Published(closed)], Answers(a.waiting, g, closed), HeadEntries(a), a.waiting, g, closed);
    } else {
      RefusalsTell<AccountSnapshot>(a.waiting, g);
      Extended(a.log, Refusals(a.waiting, g));
    }
  }

  // What the head of the loop notes.
  function HeadEntries(a: Account): (entries: seq<LogEntry>) {
    if a.pending != {} then [Began(a.requested)] else []
  }

  lemma {:induction false} LoopHeadAdds(a: Account)
    ensures LoopHead(a).log == a.log + HeadEntries(a)
    ensures LoopHead(a).snapshot == a.snapshot && LoopHead(a).waiting == a.waiting
  {
    assert a.log + [] == a.log;
  }

  lemma {:induction false} ThreeParts(log: seq<LogEntry>, e: LogEntry, answers: seq<LogEntry>, head: seq<LogEntry>)
    ensures var all := log + [e] + answers + head;
            log <= all && all[|log|..] == [e] + answers + head
    ensures var all := log + answers + head;
            log <= all && all[|log|..] == answers + head
  {
  }

  lemma {:induction false} SecondReadEnds(a: Account, current: ConfigSnapshot)
    requires a.phase.ReadingAgain? && !a.disposed
    ensures var a' := ConfigReadAgain(a, current).state;
            && a.log <= a'.log
            && var added := a'.log[|a.log|..];
               if Outdated(a, current) then StartsOver(a, a', added)
               else Succeeds(a, a', added)
  {
    hide OnlyAnswers, Answers, Refusals, After;
    var g, config := a.phase.generation, a.phase.config;
    var next := AccountSnapshot(config.builtin.revision, a.phase.providers, Some(a.phase.states));
    AnswersTell(a.waiting, g, next);
    ThreeParts(a.log, Published(next), Answers(a.waiting, g, next), HeadEntries(a));
    AroundAnswers([Published(next)], Answers(a.waiting, g, next), HeadEntries(a), a.waiting, g, next);
    AroundAnswers([], Answers(a.waiting, g, next), HeadEntries(a), a.waiting, g, next);
    assert [] + Answers(a.waiting, g, next) + HeadEntries(a) == Answers(a.waiting, g, next) + HeadEntries(a);
    Extended(a.log, [Began(a.requested)]);
    LoopHeadAdds(Answer((if a.snapshot == Some(next) then a else Publish(a, next)).(failed := false), g, next));
  }

  lemma {:induction false} EveryRoundEnds(a: Account, op: Op)
    requires InRound(a)
    ensures RoundEnds(a, op, Apply(a, op))
  {
    hide Refuses, Closes, StartsOver, Succeeds, Answers, Refusals, After, LoopHead;
    FailingEnds(a);
    if op.DoConfigReadAgain? && a.phase.ReadingAgain? && !a.disposed {
      SecondReadEnds(a, op.config);
    }
    Extended(a.log, []);
    assert a.log + [] == a.log;
    EntriesOnlyGrow(a, op);
  }

  lemma {:induction false} EntriesOnlyGrow(a: Account, op: Op)
    requires InRound(a)
    ensures a.log <= Apply(a, op).log
  {
    hide Answers, Refusals, After, Fail, ConfigReadAgain, Refuses, Closes, StartsOver, Succeeds;
    FailingEnds(a);
    if op.DoConfigReadAgain? && a.phase.ReadingAgain? {
      if a.disposed {
        SecondReadFails(a, op.config);
      } else {
        SecondReadEnds(a, op.config);
      }
    }
  }

  // ---------------------------------------------------------------------------------------
  // Which snapshot an answer is
  // ---------------------------------------------------------------------------------------

  lemma {:induction false} LoopHeadKeepsAnswers(a: Account)
    requires Invariant(a)
    ensures Invariant(LoopHead(a))
  {
    PublishedAfter(a.log, Began(a.requested));
  }

  lemma {:induction false} AnswerKeepsAnswers(a: Account, generation: nat)
    requires Invariant(a) && a.snapshot.Some?
    ensures Invariant(Answer(a, generation, a.snapshot.value))
  {
    AnswersTell(a.waiting, generation, a.snapshot.value);
    PublishedAfterAll(a.log, Answers(a.waiting, generation, a.snapshot.value));
  }

  lemma {:induction false} RefuseKeepsAnswers(a: Account, generation: nat)
    requires Invariant(a)
    ensures Invariant(Refuse(a, generation))
  {
    RefusalsTell<AccountSnapshot>(a.waiting, generation);
    PublishedAfterAll(a.log, Refusals(a.waiting, generation));
  }

  lemma {:induction false} PublishKeepsAnswers(a: Account, snapshot: AccountSnapshot)
    requires Invariant(a)
    ensures Invariant(Publish(a, snapshot))
  {
    PublishedAfter(a.log, Published(snapshot));
  }

  lemma {:induction false} FailKeepsAnswers(a: Account)
    requires Invariant(a) && InRound(a)
    ensures Invariant(Fail(a))
  {
    hide Answers, Refusals, After, LoopHead, LastPublished, AnswersArePublished;
    RefuseKeepsAnswers(a, a.phase.generation);
    if a.snapshot.None? && !a.phase.ReadingConfig? {
      var closed := FailClosed(a.phase.config);
      PublishKeepsAnswers(a, closed);
      var done := Publish(a, closed).(failed := false);
      AnswerKeepsAnswers(done, a.phase.generation);
      LoopHeadKeepsAnswers(Answer(done, a.phase.generation, closed));
    }
  }

  lemma {:induction false} SecondReadKeepsAnswers(a: Account, current: ConfigSnapshot)
    requires Invariant(a) && a.phase.ReadingAgain? && !a.disposed
    ensures Invariant(ConfigReadAgain(a, current).state)
  {
    hide Answers, Refusals, After, LoopHead, LastPublished, AnswersArePublished;
    var g, config := a.phase.generation, a.phase.config;
    var next := AccountSnapshot(config.builtin.revision, a.phase.providers, Some(a.phase.states));
    PublishKeepsAnswers(a, next);
    var done := (if a.snapshot == Some(next) then a else Publish(a, next)).(failed := false);
    AnswerKeepsAnswers(done, g);
    LoopHeadKeepsAnswers(Answer(done, g, next));
    LoopHeadKeepsAnswers(a.(pending := a.pending + {"superseded-resolution"}));
  }

  lemma {:induction false} RequestKeepsAnswers(a: Account, reason: string)
    requires Invariant(a)
    ensures Invariant(Request(a, reason))
  {
    hide LastPublished, AnswersArePublished, LoopHead;
    PublishedAfter(a.log, Asked(a.requested + 1));
    var asked := a.(started := true, requested := a.requested + 1, pending := a.pending + {reason},
                    waiting := a.waiting + [a.requested + 1], log := a.log + [Asked(a.requested + 1)]);
    LoopHeadKeepsAnswers(asked);
  }

  lemma {:induction false} ApplyKeepsAnswers(a: Account, op: Op)
    requires Invariant(a)
    ensures Invariant(Apply(a, op))
  {
    hide LastPublished, AnswersArePublished, LoopHead, Fail, ConfigReadAgain, Request, Answers, Refusals, After;
    match op
    case DoRequest(reason) => RequestKeepsAnswers(a, reason);
    case DoFinish => LoopHeadKeepsAnswers(a.(phase := Idle));
    case DoDispose => RefuseKeepsAnswers(a, a.requested);
    case DoConfigReadAgain(config) =>
      if a.phase.ReadingAgain? {
        if a.disposed {
          FailKeepsAnswers(a);
          SecondReadFails(a, config);
        } else {
          SecondReadKeepsAnswers(a, config);
        }
      }
    case DoConfigRead(config) =>
    case DoResolve(providers, states) =>
      if InRound(a) {
        FailKeepsAnswers(a);
      }
    case DoFail =>
      if InRound(a) {
        FailKeepsAnswers(a);
      }
  }

  lemma {:induction false} SecondReadFails(a: Account, current: ConfigSnapshot)
    requires a.phase.ReadingAgain? && a.disposed
    ensures ConfigReadAgain(a, current).state == Fail(a)
  {
  }

  lemma {:induction false} EveryRunKeepsAnswers(ops: seq<Op>)
    ensures Invariant(Run(ops))
  {
    if ops != [] {
      EveryRunKeepsAnswers(ops[..|ops| - 1]);
      ApplyKeepsAnswers(Run(ops[..|ops| - 1]), ops[|ops| - 1]);
    }
  }

  // In every run each answer is the snapshot published last before it, and what is stored is what
  // was published last.
  lemma {:induction false} AnswersAreTheLatest(ops: seq<Op>)
    ensures AnswersArePublished(Run(ops).log) && LastPublished(Run(ops).log) == Run(ops).snapshot
  {
    EveryRunKeepsAnswers(ops);
  }
}
