// Runs of the repository and of other processes.

module RepositoryHistory {
  // The repository, the file's lock and the other processes, in every interleaving: does the
  // observed revision ever move back in the history of the file?

  import opened Wrappers
  import opened PersonalRepository

  // The lock's own holder, and how far it has come: a commit is in the file before it is counted.
  // The final write of an update is its last; a file that is brought into shape or imported on
  // reading is not.
  datatype Call = Reading(id: nat) | Updating

  datatype Stage = Clean | Written(last: bool) | Counted(last: bool)

  datatype Lock = Free | Held(call: Call, stage: Stage)

  datatype System = System(
    commits: seq<Revision>,
    lock: Lock,
    local: Local,
    // The calls of read() under way, and what each has read.
    readers: map<nat, Option<Seen>>)

  datatype Action =
    | OtherCommits(revision: Revision)
    | ReadStarts(id: nat)
    | ReadSees(id: nat)
    | ReadLocks(id: nat)
    | ReadEnds(id: nat)
    | UpdateLocks
    | Writes(revision: Revision, last: bool)
    | CountsWrite
    | Unlocks
    | UpdateFails
    | PollStarts
    | PollSees
    | PollCompletes
    | PollErrs
    | Disposes

  function Latest(s: System): (seen: Seen)
    requires s.commits != []
  {
    Seen(|s.commits| - 1, s.commits[|s.commits| - 1])
  }

  // A step that is not possible changes nothing.
  function Step(s: System, act: Action): (s': System)
    requires s.commits != []
    ensures s'.commits != []
  {
    var l := s.local;
    match act
    case OtherCommits(revision) =>
      if s.lock.Free? then s.(commits := s.commits + [revision]) else s
    case ReadStarts(id) =>
      if l.disposed || id in s.readers then s else s.(readers := s.readers[id := None])
    case ReadSees(id) =>
      if id in s.readers && s.readers[id].None? && !(s.lock.Held? && s.lock.call == Reading(id))
      then s.(readers := s.readers[id := Some(Latest(s))]) else s
    case ReadLocks(id) =>
      if id in s.readers && s.readers[id].None? && s.lock.Free? then s.(lock := Held(Reading(id), Clean)) else s
    case ReadEnds(id) =>
      if id in s.readers && s.readers[id].Some?
      then s.(readers := s.readers - {id}, local := ReadDone(l, s.readers[id].value)) else s
    case UpdateLocks =>
      if s.lock.Free? then s.(lock := Held(Updating, Clean)) else s
    case Writes(revision, last) =>
      if s.lock.Held? && (s.lock.stage == Clean || s.lock.stage == Counted(false)) && (last ==> s.lock.call.Updating?)
      then s.(commits := s.commits + [revision], lock := Held(s.lock.call, Written(last))) else s
    case CountsWrite =>
      if s.lock.Held? && s.lock.stage.Written?
      then s.(local := WriteCounted(l), lock := Held(s.lock.call, Counted(s.lock.stage.last))) else s
    case Unlocks =>
      if !s.lock.Held? || s.lock.stage.Written? then s
      else if s.lock.call.Reading? then
        (if s.lock.call.id in s.readers
         then s.(lock := Free, readers := s.readers[s.lock.call.id := Some(Latest(s))]) else s.(lock := Free))
      else if s.lock.stage == Counted(true) then s.(lock := Free, local := UpdateDone(l, Some(Latest(s))))
      else s
    case UpdateFails =>
      // a call that never got the lock may fail at any time
      if !s.lock.Held? || s.lock.call.Reading? then s.(local := UpdateDone(l, None))
      else if s.lock.stage == Clean || s.lock.stage == Counted(false) then
        s.(lock := Free, local := UpdateDone(l, None))
      else s
    case PollStarts =>
      if l.timer && l.poll.NoPoll? then s.(local := PollBegins(l)) else s
    case PollSees =>
      if l.poll.Polling? && l.poll.read.None? then s.(local := PollReads(l, Latest(s))) else s
    case PollCompletes =>
      if l.poll.Polling? && l.poll.read.Some? then s.(local := PollEnds(l)) else s
    case PollErrs =>
      if l.poll.Polling? then s.(local := PollFails(l)) else s
    case Disposes =>
      s.(local := Dispose(l))
  }

  function Start(first: Revision, polling: bool): (s: System)
    ensures s.commits != []
  {
    System([first], Free, Initial(polling), map[])
  }

  function Steps(s: System, acts: seq<Action>): (s': System)
    requires s.commits != []
    ensures s'.commits != []
    decreases |acts|
  {
    if acts == [] then s else Steps(Step(s, acts[0]), acts[1..])
  }

  // ---------------------------------------------------------------------------------------
  // What holds in every reachable state
  // ---------------------------------------------------------------------------------------

  ghost predicate InFile(s: System, seen: Option<Seen>) {
    seen.Some? ==> seen.value.place < |s.commits| && s.commits[seen.value.place] == seen.value.revision
  }

  ghost predicate Sound(s: System) {
    && s.commits != []
    && InFile(s, s.local.observed)
    && (s.local.poll.Polling? ==> InFile(s, s.local.poll.read) && s.local.poll.generation <= s.local.generation)
    && (forall id <- s.readers :: InFile(s, s.readers[id]))
    && (s.lock.Held? && s.lock.call.Reading? ==>
          && s.lock.call.id in s.readers && s.readers[s.lock.call.id].None?
          && s.lock.stage != Written(true) && s.lock.stage != Counted(true))
    && (s.local.timer ==> s.local.polling && !s.local.disposed && s.local.poll.NoPoll?)
  }

  lemma {:induction false} StepIsSound(s: System, act: Action)
    requires Sound(s)
    ensures Sound(Step(s, act))
  {
    hide Sound, Step;
    match act
    case OtherCommits(_) => CommitIsSound(s, act);
    case ReadStarts(_) => ReadIsSound(s, act);
    case ReadSees(_) => ReadIsSound(s, act);
    case ReadLocks(_) => ReadIsSound(s, act);
    case ReadEnds(_) => ReadIsSound(s, act);
    case UpdateLocks => LockIsSound(s, act);
    case Writes(_, _) => CommitIsSound(s, act);
    case CountsWrite => LockIsSound(s, act);
    case Unlocks => UnlockIsSound(s);
    case UpdateFails => LockIsSound(s, act);
    case _ => PollIsSound(s, act);
  }

  lemma {:induction false} CommitIsSound(s: System, act: Action)
    requires Sound(s) && (act.OtherCommits? || act.Writes?)
    ensures Sound(Step(s, act))
  {
  }

  lemma {:induction false} ReadIsSound(s: System, act: Action)
    requires Sound(s) && (act.ReadStarts? || act.ReadSees? || act.ReadLocks? || act.ReadEnds?)
    ensures Sound(Step(s, act))
  {
  }

  lemma {:induction false} LockIsSound(s: System, act: Action)
    requires Sound(s) && (act.UpdateLocks? || act.CountsWrite? || act.UpdateFails?)
    ensures Sound(Step(s, act))
  {
  }

  lemma {:induction false} UnlockIsSound(s: System)
    requires Sound(s)
    ensures Sound(Step(s, Unlocks))
  {
  }

  predicate OfPolls(act: Action) {
    act.PollStarts? || act.PollSees? || act.PollCompletes? || act.PollErrs? || act.Disposes?
  }

  lemma {:induction false} PollIsSound(s: System, act: Action)
    requires Sound(s) && OfPolls(act)
    ensures Sound(Step(s, act))
  {
  }

  lemma {:induction false} StepsAreSound(s: System, acts: seq<Action>)
    requires Sound(s)
    ensures Sound(Steps(s, acts))
    decreases |acts|
  {
    if acts != [] {
      StepIsSound(s, acts[0]);
      StepsAreSound(Step(s, acts[0]), acts[1..]);
    }
  }

  // ---------------------------------------------------------------------------------------
  // Moving back
  // ---------------------------------------------------------------------------------------

  // What was observed never gives way to nothing, or to an earlier commit.
  ghost predicate Forward(s: System, s': System) {
    s.local.observed.Some? ==>
      s'.local.observed.Some? && s.local.observed.value.place <= s'.local.observed.value.place
  }

  ghost predicate NeverBack(s: System, acts: seq<Action>)
    requires s.commits != []
    decreases |acts|
  {
    acts != [] ==> Forward(s, Step(s, acts[0])) && NeverBack(Step(s, acts[0]), acts[1..])
  }

  // The final write of an own update is in the file, and its lock not yet given back.
  ghost predicate OwnUpdateWritten(s: System) {
    s.lock == Held(Updating, Written(true)) || s.lock == Held(Updating, Counted(true))
  }

  // Something is observed, or about to be.
  ghost predicate Anchored(s: System) {
    s.local.observed.Some? || OwnUpdateWritten(s)
  }

  // The poll under way, unless it will be discarded, cannot bring back an earlier commit.
  ghost predicate Harmless(s: System) {
    s.local.poll.Polling? && s.local.poll.generation == s.local.generation ==>
      && Anchored(s)
      && (s.local.poll.read.Some? ==>
            var place := s.local.poll.read.value.place;
            && (s.local.observed.Some? ==> s.local.observed.value.place <= place)
            && (s.local.observed.None? || (s.lock.Held? && s.lock.stage.Counted?) ==> place == |s.commits| - 1))
  }

  predicate PollBeginsBy(s: System, act: Action) {
    act.PollStarts? && s.local.timer && s.local.poll.NoPoll?
  }

  lemma {:induction false} HarmlessStep(s: System, act: Action)
    requires Sound(s) && Harmless(s)
    requires PollBeginsBy(s, act) ==> Anchored(s)
    ensures Harmless(Step(s, act)) && Forward(s, Step(s, act))
  {
    hide Sound, Step, Harmless, Forward, Anchored;
    if OfPolls(act) {
      HarmlessPoll(s, act);
    } else {
      HarmlessOther(s, act);
    }
  }

  lemma {:induction false} HarmlessPoll(s: System, act: Action)
    requires Sound(s) && Harmless(s) && OfPolls(act)
    requires PollBeginsBy(s, act) ==> Anchored(s)
    ensures Harmless(Step(s, act)) && Forward(s, Step(s, act))
  {
  }

  lemma {:induction false} HarmlessOther(s: System, act: Action)
    requires Sound(s) && Harmless(s) && !OfPolls(act)
    ensures Harmless(Step(s, act)) && Forward(s, Step(s, act))
  {
  }

  // Every poll of a run begins when something is observed, or an own update is as good as done.
  ghost predicate PollsAnchored(s: System, acts: seq<Action>)
    requires s.commits != []
    decreases |acts|
  {
    acts != [] ==> (PollBeginsBy(s, acts[0]) ==> Anchored(s)) && PollsAnchored(Step(s, acts[0]), acts[1..])
  }

  lemma {:induction false} HarmlessRunsNeverMoveBack(s: System, acts: seq<Action>)
    requires Sound(s) && Harmless(s) && PollsAnchored(s, acts)
    ensures NeverBack(s, acts)
    decreases |acts|
  {
    if acts != [] {
      HarmlessStep(s, acts[0]);
      StepIsSound(s, acts[0]);
      HarmlessRunsNeverMoveBack(Step(s, acts[0]), acts[1..]);
    }
  }

  // In every run whose polls begin anchored, the observed revision never moves back.
  lemma {:induction false} AnchoredRunsNeverMoveBack(first: Revision, polling: bool, acts: seq<Action>)
    requires PollsAnchored(Start(first, polling), acts)
    ensures NeverBack(Start(first, polling), acts)
  {
    HarmlessRunsNeverMoveBack(Start(first, polling), acts);
  }

  // ---------------------------------------------------------------------------------------
  // Exactly when a poll is harmless
  // ---------------------------------------------------------------------------------------

  lemma {:induction false} AnchoredStays(s: System, acts: seq<Action>)
    requires Sound(s) && Anchored(s)
    ensures PollsAnchored(s, acts)
    decreases |acts|
  {
    if acts != [] {
      StepIsSound(s, acts[0]);
      AnchorHolds(s, acts[0]);
      AnchoredStays(Step(s, acts[0]), acts[1..]);
    }
  }

  lemma {:induction false} AnchorHolds(s: System, act: Action)
    requires Sound(s) && Anchored(s)
    ensures Anchored(Step(s, act))
  {
  }

  lemma {:induction false} BackLater(s: System, act: Action, acts: seq<Action>)
    requires s.commits != [] && !NeverBack(Step(s, act), acts)
    ensures !NeverBack(s, [act] + acts)
  {
    assert ([act] + acts)[1..] == acts;
  }

  lemma {:induction false} FreshId(ids: set<nat>) returns (unused: nat)
    ensures forall id <- ids :: id < unused
    decreases ids
  {
    if ids == {} {
      unused := 0;
    } else {
      var id :| id in ids;
      var above := FreshId(ids - {id});
      unused := if id < above then above else id + 1;
      forall other <- ids ensures other < unused {
        assert other == id || other in ids - {id};
      }
    }
  }

  // A poll that will be used, while nothing is observed and nobody holds the lock.
  ghost predicate Loose(s: System) {
    && Sound(s) && s.local.observed.None? && !s.local.disposed && s.local.polling
    && s.local.poll == Polling(s.local.generation, None)
  }

  // The poll reads; another process commits; a read sees that and is the first to note it; the
  // poll completes.
  lemma {:induction false} FreeMovesBack(s: System) returns (acts: seq<Action>)
    requires Loose(s) && s.lock.Free?
    ensures !NeverBack(s, acts)
  {
    var id := FreshId(s.readers.Keys);
    var revision := Latest(s).revision + 1;
    var s1 := Step(s, PollSees);
    var s2 := Step(s1, OtherCommits(revision));
    var s3 := Step(s2, ReadStarts(id));
    var s4 := Step(s3, ReadSees(id));
    var s5 := Step(s4, ReadEnds(id));
    assert s5.local.observed == Some(Seen(|s.commits|, revision));
    assert s5.local.poll == Polling(s.local.generation, Some(Latest(s)));
    assert !Forward(s5, Step(s5, PollCompletes));
    assert !NeverBack(s5, [PollCompletes]);
    BackLater(s4, ReadEnds(id), [PollCompletes]);
    acts := [ReadEnds(id)] + [PollCompletes];
    BackLater(s3, ReadSees(id), acts);
    acts := [ReadSees(id)] + acts;
    BackLater(s2, ReadStarts(id), acts);
    acts := [ReadStarts(id)] + acts;
    BackLater(s1, OtherCommits(revision), acts);
    acts := [OtherCommits(revision)] + acts;
    BackLater(s, PollSees, acts);
    acts := [PollSees] + acts;
  }

  lemma {:induction false} HeldMovesBack(s: System) returns (acts: seq<Action>)
    requires Loose(s) && !OwnUpdateWritten(s) && !(s.lock.Held? && s.lock.stage.Written?)
    ensures !NeverBack(s, acts)
  {
    if s.lock.Free? {
      acts := FreeMovesBack(s);
    } else {
      var act := if s.lock.call.Updating? then UpdateFails else Unlocks;
      StepIsSound(s, act);
      acts := FreeMovesBack(Step(s, act));
      BackLater(s, act, acts);
      acts := [act] + acts;
    }
  }

  // A write that is not an update's last makes the poll stale, but the next one is no better.
  lemma {:induction false} UnanchoredMovesBack(s: System) returns (acts: seq<Action>)
    requires Sound(s) && s.local.timer && !Anchored(s)
    ensures !NeverBack(Step(s, PollStarts), acts)
  {
    var s0 := Step(s, PollStarts);
    StepIsSound(s, PollStarts);
    if s.lock.Held? && s.lock.stage.Written? {
      var s1 := Step(s0, CountsWrite);
      var s2 := Step(s1, PollSees);
      var s3 := Step(s2, PollCompletes);
      var s4 := Step(s3, PollStarts);
      StepIsSound(s0, CountsWrite);
      StepIsSound(s1, PollSees);
      StepIsSound(s2, PollCompletes);
      StepIsSound(s3, PollStarts);
      acts := HeldMovesBack(s4);
      BackLater(s3, PollStarts, acts);
      acts := [PollStarts] + acts;
      BackLater(s2, PollCompletes, acts);
      acts := [PollCompletes] + acts;
      BackLater(s1, PollSees, acts);
      acts := [PollSees] + acts;
      BackLater(s0, CountsWrite, acts);
      acts := [CountsWrite] + acts;
    } else {
      acts := HeldMovesBack(s0);
    }
  }

  // Whenever a poll is about to begin: whatever happens from there on, the observed revision
  // never moves back, exactly if the poll begins anchored.
  lemma {:induction false} PollIsHarmlessExactlyWhenAnchored(first: Revision, polling: bool, before: seq<Action>)
    requires Steps(Start(first, polling), before).local.timer
    ensures var s := Steps(Start(first, polling), before);
            (forall acts :: NeverBack(Step(s, PollStarts), acts)) <==> Anchored(s)
  {
    StepsAreSound(Start(first, polling), before);
    var s := Steps(Start(first, polling), before);
    StepIsSound(s, PollStarts);
    if Anchored(s) {
      AnchorHolds(s, PollStarts);
      forall acts ensures NeverBack(Step(s, PollStarts), acts) {
        AnchoredStays(Step(s, PollStarts), acts);
        HarmlessRunsNeverMoveBack(Step(s, PollStarts), acts);
      }
    } else {
      var acts := UnanchoredMovesBack(s);
    }
  }

  // An update that fails starts polling before anything is observed: from the start, the observed
  // revision can go from the second commit back to the first.
  lemma {:induction false} FailedUpdateLetsItMoveBack(first: Revision)
    ensures exists acts :: !NeverBack(Start(first, true), acts)
  {
    var s := Step(Start(first, true), UpdateFails);
    StepIsSound(Start(first, true), UpdateFails);
    var acts := UnanchoredMovesBack(s);
    BackLater(s, PollStarts, acts);
    BackLater(Start(first, true), UpdateFails, [PollStarts] + acts);
  }
}
