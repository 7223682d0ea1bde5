// What the registry answers.

module RegistryAnswers {
  // How each round of reads ends, said over the log, and which snapshot an answer is.

  import opened Wrappers
  import opened ProviderSources
  import opened RegistryRefresh
  import opened RegistryWaiters
  import opened Waiters

  ghost predicate Invariant(r: Registry) {
    && r.completed <= r.requested
    && (r.phase.Reading? ==> r.completed < r.phase.generation <= r.requested)
    && LastPublished(r.log) == r.snapshot
    && AnswersArePublished(r.log)
  }

  // ---------------------------------------------------------------------------------------
  // How a round ends
  // ---------------------------------------------------------------------------------------

  // The parts that were read are based on one Built-in revision.
  predicate BelongTogether(config: ConfigSnapshot, account: AccountSnapshot) {
    account.basedOn == config.builtin.revision
  }

  // What is published has the revisions that were read.
  predicate AlreadyPublished(r: Registry, config: ConfigSnapshot, account: AccountSnapshot) {
    && r.snapshot.Some?
    && r.snapshot.value.config.builtin.revision == config.builtin.revision
    && r.snapshot.value.config.personalRevision == config.personalRevision
    && r.snapshot.value.account == account
  }

  // The round is thrown away for a later request: nobody is told, and the next one begins.
  ghost predicate StartsOver(r: Registry, r': Registry, added: seq<LogEntry>) {
    && NobodySettled(added) && Began(r.requested) in added
    && r'.snapshot == r.snapshot && r'.waiting == r.waiting && r'.phase == Reading(r.requested)
  }

  ghost predicate Fails(r: Registry, r': Registry, added: seq<LogEntry>) {
    && OnlyRefusals(added, r.waiting, r.requested)
    && r'.snapshot == r.snapshot && r'.completed == r.requested && r'.phase.Ended?
  }

  // Reads that belong together are what is published afterwards, and what everybody is told.
  ghost predicate Succeeds(r: Registry, r': Registry, added: seq<LogEntry>, config: ConfigSnapshot,
                           account: AccountSnapshot)
  {
    && AlreadyPublished(r', config, account)
    && OnlyAnswers(added, r.waiting, r.requested, r'.snapshot.value)
    && (r'.snapshot != r.snapshot ==> Published(r'.snapshot.value) in added)
    && r'.completed == r.requested && r'.phase.Ended?
  }

  // Reads that do not belong together change nothing: callers are told what is published, or wait
  // for the first snapshot.
  ghost predicate StaysBehind(r: Registry, r': Registry, added: seq<LogEntry>) {
    && r'.snapshot == r.snapshot && r'.completed == r.requested && r'.phase.Ended?
    && if r.snapshot.Some? then OnlyAnswers(added, r.waiting, r.requested, r.snapshot.value)
       else NobodySettled(added) && r'.waiting == r.waiting
  }

  ghost predicate RoundEnds(r: Registry, op: Op, r': Registry)
    requires r.phase.Reading?
  {
    && r.log <= r'.log
    && var added := r'.log[|r.log|..];
       if r.phase.generation < r.requested then StartsOver(r, r', added)
       else
         match op
         case DoReadFailed => Fails(r, r', added)
         case DoReadDone(config, account, resolves) =>
           if r.disposed then NobodySettled(added) && r'.snapshot == r.snapshot && r'.phase.Ended?
           else if !BelongTogether(config, account) then StaysBehind(r, r', added)
           else if resolves || AlreadyPublished(r, config, account) then Succeeds(r, r', added, config, account)
           else Fails(r, r', added)
         case _ => true
  }

  lemma {:induction false} Extended(log: seq<LogEntry>, added: seq<LogEntry>)
    ensures log <= log + added && (log + added)[|log|..] == added
  {
  }

  lemma {:induction false} EveryRoundEnds(r: Registry, op: Op)
    requires Invariant(r) && r.phase.Reading? && (op.DoReadFailed? || op.DoReadDone?)
    ensures RoundEnds(r, op, Apply(r, op))
  {
    hide OnlyAnswers, OnlyRefusals, Answers, Refusals, After, LastPublished, AnswersArePublished;
    var g := r.phase.generation;
    RefusalsTell<RegistrySnapshot>(r.waiting, g);
    Extended(r.log, []);
    Extended(r.log, [Began(r.requested)]);
    Extended(r.log, Refusals(r.waiting, g));
    assert r.log + [] == r.log;
    if op.DoReadDone? {
      var read := RegistrySnapshot(op.config, op.account);
      var answers := Answers(r.waiting, g, read);
      AnswersTell(r.waiting, g, read);
      AroundAnswers([Published(read)], answers, [], r.waiting, g, read);
      Extended(r.log, [Published(read)] + answers);
      assert [Published(read)] + answers + [] == [Published(read)] + answers;
      assert r.log + [Published(read)] + answers == r.log + ([Published(read)] + answers);
      if r.snapshot.Some? {
        AnswersTell(r.waiting, g, r.snapshot.value);
        Extended(r.log, Answers(r.waiting, g, r.snapshot.value));
      }
    }
  }

  // ---------------------------------------------------------------------------------------
  // Which snapshot an answer is
  // ---------------------------------------------------------------------------------------

  lemma {:induction false} LoopHeadKeepsAnswers(r: Registry)
    requires AnswersArePublished(r.log) && LastPublished(r.log) == r.snapshot && r.completed <= r.requested
    ensures Invariant(LoopHead(r))
  {
    PublishedAfter(r.log, Began(r.requested));
  }

  lemma {:induction false} AnswerKeepsAnswers(r: Registry, generation: nat)
    requires AnswersArePublished(r.log) && LastPublished(r.log) == r.snapshot && r.snapshot.Some?
    ensures var r' := Answer(r, generation, r.snapshot.value);
            AnswersArePublished(r'.log) && LastPublished(r'.log) == r.snapshot
  {
    AnswersTell(r.waiting, generation, r.snapshot.value);
    PublishedAfterAll(r.log, Answers(r.waiting, generation, r.snapshot.value));
  }

  lemma {:induction false} RefuseKeepsAnswers(r: Registry, generation: nat)
    requires AnswersArePublished(r.log)
    ensures var r' := Refuse(r, generation);
            AnswersArePublished(r'.log) && LastPublished(r'.log) == LastPublished(r.log)
  {
    RefusalsTell<RegistrySnapshot>(r.waiting, generation);
    PublishedAfterAll(r.log, Refusals(r.waiting, generation));
  }

  lemma {:induction false} ReadDoneKeepsAnswers(r: Registry, config: ConfigSnapshot, account: AccountSnapshot,
                                                resolves: bool)
    requires Invariant(r) && r.phase.Reading?
    ensures Invariant(ReadDone(r, config, account, resolves))
  {
    hide Answer, Refusals, LoopHead, LastPublished, AnswersArePublished;
    var g, read := r.phase.generation, RegistrySnapshot(config, account);
    var done := r.(completed := g, failed := false, lastRead := Some(read));
    var published := done.(snapshot := Some(read), log := r.log + [Published(read)]);
    if g < r.requested {
      LoopHeadKeepsAnswers(r);
    } else if !r.disposed {
      RefuseKeepsAnswers(r.(completed := g, failed := true), g);
      LoopHeadKeepsAnswers(done);
      PublishedAfter(r.log, Published(read));
      AnsweredLoopHead(published, g);
      if r.snapshot.Some? {
        AnsweredLoopHead(done, g);
      }
    }
  }

  lemma {:induction false} AnsweredLoopHead(r: Registry, generation: nat)
    requires AnswersArePublished(r.log) && LastPublished(r.log) == r.snapshot && r.snapshot.Some?
    requires r.completed <= r.requested
    ensures Invariant(LoopHead(Answer(r, generation, r.snapshot.value)))
  {
    hide LoopHead, LastPublished, AnswersArePublished;
    AnswerKeepsAnswers(r, generation);
    LoopHeadKeepsAnswers(Answer(r, generation, r.snapshot.value));
  }

  lemma {:induction false} ApplyKeepsAnswers(r: Registry, op: Op)
    requires Invariant(r)
    ensures Invariant(Apply(r, op))
  {
    hide LastPublished, AnswersArePublished, ReadDone;
    match op
    case DoRequest =>
      PublishedAfter(r.log, Asked(r.requested + 1));
      LoopHeadKeepsAnswers(r.(requested := r.requested + 1, waiting := r.waiting + [r.requested + 1],
                              log := r.log + [Asked(r.requested + 1)]));
    case DoReadFailed =>
      LoopHeadKeepsAnswers(r);
      if r.phase.Reading? {
        RefuseKeepsAnswers(r.(completed := r.phase.generation, failed := true), r.phase.generation);
      }
    case DoReadDone(config, account, resolves) =>
      if r.phase.Reading? {
        ReadDoneKeepsAnswers(r, config, account, resolves);
      }
    case DoFinish =>
      RefuseKeepsAnswers(r, r.requested);
      LoopHeadKeepsAnswers(r.(phase := Idle));
      LoopHeadKeepsAnswers(Refuse(r, r.requested).(phase := Idle));
    case DoDispose => RefuseKeepsAnswers(r, r.requested);
  }

  lemma {:induction false} EveryRunKeepsAnswers(ops: seq<Op>)
    ensures Invariant(Run(ops))
  {
    if ops != [] {
      EveryRunKeepsAnswers(ops[..|ops| - 1]);
      ApplyKeepsAnswers(Run(ops[..|ops| - 1]), ops[|ops| - 1]);
    }
  }

  // In every run each answer is the snapshot published last before it, and what is stored is what
  // was published last.
  lemma {:induction false} AnswersAreTheLatest(ops: seq<Op>)
    ensures AnswersArePublished(Run(ops).log) && LastPublished(Run(ops).log) == Run(ops).snapshot
  {
    EveryRunKeepsAnswers(ops);
  }

  // In every run each round ends as it should, for every outcome of its reads.
  lemma {:induction false} RoundsEndAsTheyShould(ops: seq<Op>, op: Op)
    requires Run(ops).phase.Reading? && (op.DoReadFailed? || op.DoReadDone?)
    ensures RoundEnds(Run(ops), op, Apply(Run(ops), op))
  {
    EveryRunKeepsAnswers(ops);
    EveryRoundEnds(Run(ops), op);
  }
}
