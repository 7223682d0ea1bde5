// What the repository has heard of.

module PollingHistory {
  // The repository is a function of what happened to it and of what the file held: which polls
  // it makes, what it has observed, and whether listeners think that polling fails.

  import opened Wrappers
  import opened PersonalRepository
  import opened RepositoryHistory

  datatype History = History(
    enabled: bool,
    // Whether a call of read() or update() has ended.
    called: bool,
    disposed: bool,
    // Whether a poll is under way, whether this process wrote since it began, and what it read.
    polls: bool,
    wrote: bool,
    read: Option<Revision>,
    // Whether the last poll that counted failed.
    failing: bool,
    revision: Option<Revision>)

  function Nothing(enabled: bool): (h: History) {
    History(enabled, false, false, false, false, None, false, None)
  }

  // The next poll is due from the first call on, unless one is under way, until dispose.
  predicate PollDue(h: History) {
    h.enabled && h.called && !h.disposed && !h.polls
  }

  function Newest(s: System): (revision: Revision)
    requires s.commits != []
  {
    s.commits[|s.commits| - 1]
  }

  predicate ReadIsOver(s: System, id: nat) {
    id in s.readers && s.readers[id].Some?
  }

  predicate CanFail(lock: Lock) {
    lock.Free? || lock.call.Reading? || lock.stage == Clean || lock.stage == Counted(false)
  }

  // What a step adds, told from the file, its lock and the reads under way.
  function Told(s: System, act: Action, h: History): (h': History)
    requires s.commits != []
  {
    match act
    case ReadEnds(id) =>
      if !ReadIsOver(s, id) then h
      else h.(called := true, revision := if h.revision.Some? then h.revision else Some(s.readers[id].value.revision))
    case CountsWrite => if s.lock.Held? && s.lock.stage.Written? then h.(wrote := true) else h
    case Unlocks =>
      if s.lock == Held(Updating, Counted(true)) then h.(called := true, revision := Some(Newest(s))) else h
    case UpdateFails => if CanFail(s.lock) then h.(called := true) else h
    case PollStarts => if PollDue(h) then h.(polls := true, wrote := false, read := None) else h
    case PollSees => if h.polls && h.read.None? then h.(read := Some(Newest(s))) else h
    case PollCompletes =>
      if !h.polls || h.read.None? then h
      else if h.wrote then h.(polls := false)
      else h.(polls := false, failing := false, revision := if h.disposed then h.revision else h.read)
    case PollErrs =>
      if !h.polls then h else h.(polls := false, failing := h.failing || (!h.wrote && !h.disposed))
    case Disposes => h.(disposed := true)
    case _ => h
  }

  function Tell(s: System, acts: seq<Action>, h: History): (h': History)
    requires s.commits != []
    decreases |acts|
  {
    if acts == [] then h else Tell(Step(s, acts[0]), acts[1..], Told(s, acts[0], h))
  }

  function RevisionOf(seen: Option<Seen>): (revision: Option<Revision>) {
    if seen.Some? then Some(seen.value.revision) else None
  }

  ghost predicate Matches(l: Local, h: History) {
    && l.polling == h.enabled && l.disposed == h.disposed && l.failing == h.failing
    && l.timer == PollDue(h)
    && l.poll.Polling? == h.polls
    && (h.polls ==> RevisionOf(l.poll.read) == h.read)
    && (h.polls ==> (l.poll.generation < l.generation <==> h.wrote) && l.poll.generation <= l.generation)
    && (h.polls ==> h.called)
    && (h.revision.Some? ==> h.called)
    && RevisionOf(l.observed) == h.revision
  }

  lemma {:induction false} StepMatches(s: System, act: Action, h: History)
    requires s.commits != [] && Matches(s.local, h)
    ensures Matches(Step(s, act).local, Told(s, act, h))
  {
    hide Step, Told, Matches;
    if act.Disposes? {
      DisposeMatches(s, h);
    } else if act.PollCompletes? || act.PollErrs? {
      PollEndMatches(s, act, h);
    } else if OfPolls(act) {
      PollMatches(s, act, h);
    } else if act.ReadEnds? {
      ReadMatches(s, act, h);
    } else if act.Unlocks? || act.UpdateFails? {
      UpdateMatches(s, act, h);
    } else {
      OtherMatches(s, act, h);
    }
  }

  lemma {:induction false} PollMatches(s: System, act: Action, h: History)
    requires s.commits != [] && Matches(s.local, h) && (act.PollStarts? || act.PollSees?)
    ensures Matches(Step(s, act).local, Told(s, act, h))
  {
  }

  lemma {:induction false} DisposeMatches(s: System, h: History)
    requires s.commits != [] && Matches(s.local, h)
    ensures Matches(Step(s, Disposes).local, Told(s, Disposes, h))
  {
  }

  lemma {:induction false} PollEndMatches(s: System, act: Action, h: History)
    requires s.commits != [] && Matches(s.local, h) && (act.PollCompletes? || act.PollErrs?)
    ensures Matches(Step(s, act).local, Told(s, act, h))
  {
  }

  lemma {:induction false} ReadMatches(s: System, act: Action, h: History)
    requires s.commits != [] && Matches(s.local, h) && act.ReadEnds?
    ensures Matches(Step(s, act).local, Told(s, act, h))
  {
  }

  lemma {:induction false} UpdateMatches(s: System, act: Action, h: History)
    requires s.commits != [] && Matches(s.local, h) && (act.Unlocks? || act.UpdateFails?)
    ensures Matches(Step(s, act).local, Told(s, act, h))
  {
  }

  lemma {:induction false} OtherMatches(s: System, act: Action, h: History)
    requires s.commits != [] && Matches(s.local, h) && !OfPolls(act)
    requires !act.ReadEnds? && !act.Unlocks? && !act.UpdateFails?
    ensures Matches(Step(s, act).local, Told(s, act, h))
  {
  }

  lemma {:induction false} StepsMatch(s: System, acts: seq<Action>, h: History)
    requires s.commits != [] && Matches(s.local, h)
    ensures Matches(Steps(s, acts).local, Tell(s, acts, h))
    decreases |acts|
  {
    if acts != [] {
      StepMatches(s, acts[0], h);
      StepsMatch(Step(s, acts[0]), acts[1..], Told(s, acts[0], h));
    }
  }

  // In every run, what the repository holds is told by its history.
  lemma {:induction false} RepositoryIsItsHistory(first: Revision, enabled: bool, acts: seq<Action>)
    ensures Matches(Steps(Start(first, enabled), acts).local, Tell(Start(first, enabled), acts, Nothing(enabled)))
  {
    StepsMatch(Start(first, enabled), acts, Nothing(enabled));
  }

  // ---------------------------------------------------------------------------------------
  // Polling goes on
  // ---------------------------------------------------------------------------------------

  // A call of read() or update() ends with this step, well or badly.
  predicate EndsCall(s: System, act: Action) {
    || (act.ReadEnds? && ReadIsOver(s, act.id))
    || (act.Unlocks? && s.lock == Held(Updating, Counted(true)))
    || (act.UpdateFails? && CanFail(s.lock))
  }

  ghost predicate SomeCallEnds(s: System, acts: seq<Action>)
    requires s.commits != []
    decreases |acts|
  {
    acts != [] && (EndsCall(s, acts[0]) || SomeCallEnds(Step(s, acts[0]), acts[1..]))
  }

  lemma {:induction false} CallIsTold(s: System, act: Action, h: History)
    requires s.commits != []
    ensures var h' := Told(s, act, h);
            h'.enabled == h.enabled && (h'.called <==> h.called || EndsCall(s, act))
  {
  }

  lemma {:induction false} CallsAreTold(s: System, acts: seq<Action>, h: History)
    requires s.commits != []
    ensures var h' := Tell(s, acts, h);
            h'.enabled == h.enabled && (h'.called <==> h.called || SomeCallEnds(s, acts))
    decreases |acts|
  {
    hide Step, Told, EndsCall;
    if acts != [] {
      CallIsTold(s, acts[0], h);
      CallsAreTold(Step(s, acts[0]), acts[1..], Told(s, acts[0], h));
    }
  }

  // In every run that was not disposed of: a poll is under way, or the timer of the next one is
  // set, exactly if polling is enabled and a call has ended.
  lemma {:induction false} PollingGoesOn(first: Revision, enabled: bool, acts: seq<Action>)
    requires !Steps(Start(first, enabled), acts).local.disposed
    ensures var l := Steps(Start(first, enabled), acts).local;
            l.timer || l.poll.Polling? <==> enabled && SomeCallEnds(Start(first, enabled), acts)
  {
    RepositoryIsItsHistory(first, enabled, acts);
    CallsAreTold(Start(first, enabled), acts, Nothing(enabled));
    NoPollsWithoutPolling(Start(first, enabled), acts, Nothing(enabled));
  }

  lemma {:induction false} NoPollsWithoutPolling(s: System, acts: seq<Action>, h: History)
    requires s.commits != [] && (h.polls ==> h.enabled)
    ensures var h' := Tell(s, acts, h); h'.polls ==> h'.enabled
    decreases |acts|
  {
    hide Step;
    if acts != [] {
      NoPollsWithoutPolling(Step(s, acts[0]), acts[1..], Told(s, acts[0], h));
    }
  }

  // ---------------------------------------------------------------------------------------
  // Other processes are heard
  // ---------------------------------------------------------------------------------------

  // What is left of the poll under way.
  function RestOfPoll(l: Local): (acts: seq<Action>) {
    if l.poll.NoPoll? then [] else if l.poll.read.None? then [PollSees, PollCompletes] else [PollCompletes]
  }

  const WHOLE_POLL: seq<Action> := [PollStarts, PollSees, PollCompletes]

  lemma {:induction false} OneStep(s: System, act: Action, acts: seq<Action>)
    requires s.commits != []
    ensures Steps(s, [act] + acts) == Steps(Step(s, act), acts)
  {
    assert ([act] + acts)[1..] == acts;
  }

  lemma {:induction false} InOrder(s: System, before: seq<Action>, acts: seq<Action>)
    requires s.commits != []
    ensures Steps(s, before + acts) == Steps(Steps(s, before), acts)
    decreases |before|
  {
    if before == [] {
      assert before + acts == acts;
    } else {
      assert before + acts == [before[0]] + (before[1..] + acts);
      OneStep(s, before[0], before[1..] + acts);
      InOrder(Step(s, before[0]), before[1..], acts);
    }
  }

  lemma {:induction false} RestOfPollArms(s: System)
    requires s.commits != [] && s.local.polling && !s.local.disposed
    requires s.local.timer || s.local.poll.Polling?
    ensures var s' := Steps(s, RestOfPoll(s.local));
            && s'.commits == s.commits && s'.local.poll.NoPoll? && !s'.local.disposed && s'.local.timer
  {
    if s.local.poll.Polling? {
      if s.local.poll.read.None? {
        OneStep(s, PollSees, [PollCompletes]);
        assert [PollSees] + [PollCompletes] == [PollSees, PollCompletes];
      }
      var s1 := if s.local.poll.read.None? then Step(s, PollSees) else s;
      assert [PollCompletes] + [] == [PollCompletes];
      OneStep(s1, PollCompletes, []);
    }
  }

  lemma {:induction false} WholePollHears(s: System)
    requires s.commits != [] && s.local.timer && s.local.poll.NoPoll? && !s.local.disposed
    ensures RevisionOf(Steps(s, WHOLE_POLL).local.observed) == Some(Newest(s))
  {
    var s1 := Step(s, PollStarts);
    var s2 := Step(s1, PollSees);
    assert WHOLE_POLL == [PollStarts] + ([PollSees] + ([PollCompletes] + []));
    OneStep(s, PollStarts, [PollSees] + ([PollCompletes] + []));
    OneStep(s1, PollSees, [PollCompletes] + []);
    OneStep(s2, PollCompletes, []);
  }

  // Whenever a call has ended and nobody holds the lock: what another process commits is observed
  // when the poll under way, if there is one, and the next one have completed.
  lemma {:induction false} OthersAreHeard(first: Revision, before: seq<Action>, revision: Revision)
    requires SomeCallEnds(Start(first, true), before)
    requires var s := Steps(Start(first, true), before); !s.local.disposed && s.lock.Free?
    ensures var s := Steps(Start(first, true), before);
            var after := Steps(s, [OtherCommits(revision)] + RestOfPoll(s.local) + WHOLE_POLL);
            RevisionOf(after.local.observed) == Some(revision)
  {
    var s := Steps(Start(first, true), before);
    PollingGoesOn(first, true, before);
    RepositoryIsItsHistory(first, true, before);
    CallsAreTold(Start(first, true), before, Nothing(true));
    var s1 := Step(s, OtherCommits(revision));
    var s2 := Steps(s1, RestOfPoll(s.local));
    assert [OtherCommits(revision)] + RestOfPoll(s.local) + WHOLE_POLL
        == [OtherCommits(revision)] + (RestOfPoll(s.local) + WHOLE_POLL);
    OneStep(s, OtherCommits(revision), RestOfPoll(s.local) + WHOLE_POLL);
    InOrder(s1, RestOfPoll(s.local), WHOLE_POLL);
    RestOfPollArms(s1);
    WholePollHears(s2);
  }
}
