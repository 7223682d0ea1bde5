// Runs of processes that share the control record.

module LeaseHistory {
  // Any number of processes, taking and finishing leases.

  import opened Wrappers
  import opened Powers
  import opened RefreshLease

  datatype Action =
    | TryAcquire(endpoint: string, id: LeaseId, at: int, force: bool)
    | TryFinish(endpoint: string, id: LeaseId, outcome: Outcome, at: int)

  // What took effect.
  datatype Entry =
    | Taken(endpoint: string, id: LeaseId, at: int, forced: bool)
    | Done(endpoint: string, id: LeaseId, at: int, outcome: Outcome)

  datatype World = World(control: Control, log: seq<Entry>)

  function Step(o: Options, w: World, act: Action): (w': World) {
    match act
    case TryAcquire(endpoint, id, at, force) =>
      if Decide(w.control, endpoint, at, force).Granted?
      then World(Acquired(o, w.control, endpoint, id, at), w.log + [Taken(endpoint, id, at, force)])
      else w
    case TryFinish(endpoint, id, outcome, at) =>
      World(Finished(o, w.control, endpoint, id, outcome, at),
            if Holds(w.control, endpoint, id) then w.log + [Done(endpoint, id, at, outcome)] else w.log)
  }

  function Run(o: Options, acts: seq<Action>): (w: World) {
    if acts == [] then World(EmptyControl(), []) else Step(o, Run(o, acts[..|acts| - 1]), acts[|acts| - 1])
  }

  // The clock never runs back.
  ghost predicate ClockRuns(acts: seq<Action>) {
    forall i, j | 0 <= i < j < |acts| :: acts[i].at <= acts[j].at
  }

  // ---------------------------------------------------------------------------------------
  // The record as a function of what happened
  // ---------------------------------------------------------------------------------------

  function Endpoint(log: seq<Entry>): (endpoint: string) {
    if log == [] then "" else log[|log| - 1].endpoint
  }

  // Failures in a row, on the present endpoint; a cancellation neither counts nor interrupts.
  function Failures(log: seq<Entry>): (n: nat) {
    if log == [] then 0 else
    var before, last := log[..|log| - 1], log[|log| - 1];
    match last
    case Taken(endpoint, _, _, _) => if Endpoint(before) == endpoint then Failures(before) else 0
    case Done(_, _, _, Succeeded) => 0
    case Done(_, _, _, Failed) => Failures(before) + 1
    case Done(_, _, _, Cancelled) => Failures(before)
  }

  // How long to wait: not at all after a cancellation, and min(base * 2^(k - 1), max) after the k-th
  // failure in a row.
  function Wait(o: Options, outcome: Outcome, failures: nat): (wait: int)
    requires outcome.Failed? ==> failures > 0
  {
    match outcome
    case Cancelled => 0
    case Succeeded => o.successInterval
    case Failed => Min(TimesPow2(o.failureBaseDelay, failures - 1), o.failureMaxDelay)
  }

  lemma {:induction false} DelayIsWait(o: Options, outcome: Outcome, failures: nat)
    requires outcome.Failed? ==> failures > 0
    ensures Delay(o, outcome, failures) == Wait(o, outcome, failures)
  {
  }

  // The time before which nobody takes a lease unforced.
  function Due(o: Options, log: seq<Entry>): (at: int) {
    if log == [] then 0 else
    var before, last := log[..|log| - 1], log[|log| - 1];
    match last
    case Taken(endpoint, _, _, _) => if Endpoint(before) == endpoint then Due(o, before) else 0
    case Done(_, _, at, outcome) => at + Wait(o, outcome, Failures(log))
  }

  // The lease that is taken and not finished.
  function Current(log: seq<Entry>): (lease: Option<Entry>)
    ensures lease.Some? ==> lease.value.Taken? && log != [] && lease.value == log[|log| - 1]
  {
    if log != [] && log[|log| - 1].Taken? then Some(log[|log| - 1]) else None
  }

  function ControlOf(o: Options, log: seq<Entry>): (c: Control) {
    var current := Current(log);
    Control(Endpoint(log),
            if current.Some? then Some(current.value.id) else None,
            if current.Some? then current.value.at + o.leaseDuration else 0,
            Due(o, log), Failures(log))
  }

  // ---------------------------------------------------------------------------------------
  // What every entry rests on
  // ---------------------------------------------------------------------------------------

  ghost predicate EntryOk(o: Options, before: seq<Entry>, e: Entry) {
    match e
    case Taken(endpoint, _, at, forced) =>
      Endpoint(before) == endpoint ==>
        && (Current(before).Some? ==> Current(before).value.at + o.leaseDuration <= at)
        && (!forced ==> Due(o, before) <= at)
    case Done(endpoint, id, _, _) =>
      Current(before).Some? && Current(before).value.endpoint == endpoint && Current(before).value.id == id
  }

  ghost predicate LogOk(o: Options, log: seq<Entry>) {
    && (forall k | 0 <= k < |log| :: EntryOk(o, log[..k], log[k]))
    && (forall i, j | 0 <= i < j < |log| :: log[i].at <= log[j].at)
  }

  ghost predicate Before(log: seq<Entry>, at: int) {
    forall x <- log :: x.at <= at
  }

  lemma {:induction false} LogGrows(o: Options, log: seq<Entry>, e: Entry)
    requires LogOk(o, log) && EntryOk(o, log, e)
    requires Before(log, e.at)
    ensures LogOk(o, log + [e])
  {
    var log' := log + [e];
    assert log'[..|log|] == log;
    forall k | 0 <= k < |log'| ensures EntryOk(o, log'[..k], log'[k]) {
      if k < |log| {
        assert log'[..k] == log[..k];
      }
    }
  }

  lemma {:induction false} ControlGrows(o: Options, log: seq<Entry>, e: Entry)
    ensures var log' := log + [e];
            && Endpoint(log') == e.endpoint
            && Current(log') == (if e.Taken? then Some(e) else None)
            && Failures(log') == (match e
                                  case Taken(endpoint, _, _, _) =>
                                    if Endpoint(log) == endpoint then Failures(log) else 0
                                  case Done(_, _, _, outcome) => FailuresAfter(outcome, Failures(log)))
            && Due(o, log') == (match e
                                case Taken(endpoint, _, _, _) => if Endpoint(log) == endpoint then Due(o, log) else 0
                                case Done(_, _, at, outcome) =>
                                  at + Wait(o, outcome, FailuresAfter(outcome, Failures(log))))
  {
    assert (log + [e])[..|log|] == log;
  }

  // The record and the log agree, and the log is by the rules.
  ghost predicate Agrees(o: Options, w: World) {
    w.control == ControlOf(o, w.log) && LogOk(o, w.log)
  }

  lemma {:induction false} TakingAgrees(o: Options, w: World, endpoint: string, id: LeaseId, at: int, force: bool)
    requires Agrees(o, w) && Before(w.log, at)
    requires Decide(w.control, endpoint, at, force).Granted?
    ensures Agrees(o, World(Acquired(o, w.control, endpoint, id, at), w.log + [Taken(endpoint, id, at, force)]))
  {
    hide Due, Failures, LogOk;
    var e := Taken(endpoint, id, at, force);
    ControlGrows(o, w.log, e);
    LogGrows(o, w.log, e);
  }

  lemma {:induction false} FinishingAgrees(o: Options, w: World, endpoint: string, id: LeaseId, outcome: Outcome,
                                           at: int)
    requires Agrees(o, w) && Before(w.log, at) && Holds(w.control, endpoint, id)
    ensures Agrees(o, World(Finished(o, w.control, endpoint, id, outcome, at),
                            w.log + [Done(endpoint, id, at, outcome)]))
  {
    hide Due, Failures, Delay, Wait, LogOk;
    DelayIsWait(o, outcome, FailuresAfter(outcome, Failures(w.log)));
    var e := Done(endpoint, id, at, outcome);
    ControlGrows(o, w.log, e);
    LogGrows(o, w.log, e);
  }

  lemma {:induction false} StepKeeps(o: Options, w: World, act: Action)
    requires Agrees(o, w) && Before(w.log, act.at)
    ensures Agrees(o, Step(o, w, act))
  {
    hide Agrees, Acquired;
    match act
    case TryAcquire(endpoint, id, at, force) =>
      if Decide(w.control, endpoint, at, force).Granted? {
        TakingAgrees(o, w, endpoint, id, at, force);
      }
    case TryFinish(endpoint, id, outcome, at) =>
      if Holds(w.control, endpoint, id) {
        FinishingAgrees(o, w, endpoint, id, outcome, at);
      }
  }

  lemma {:induction false} StepIsNoLater(o: Options, w: World, act: Action)
    requires Before(w.log, act.at)
    ensures Before(Step(o, w, act).log, act.at)
  {
  }

  // In every run the record says exactly what happened, and nothing happened but by the rules.
  lemma {:induction false} RecordIsItsHistory(o: Options, acts: seq<Action>)
    requires ClockRuns(acts)
    ensures Agrees(o, Run(o, acts))
    ensures acts != [] ==> Before(Run(o, acts).log, acts[|acts| - 1].at)
  {
    if acts == [] {
      NothingHappened(o);
    } else {
      var n := |acts| - 1;
      hide Agrees, Step;
      RecordIsItsHistory(o, acts[..n]);
      assert n > 0 ==> acts[..n][n - 1].at <= acts[n].at;
      StepKeeps(o, Run(o, acts[..n]), acts[n]);
      StepIsNoLater(o, Run(o, acts[..n]), acts[n]);
    }
  }

  lemma {:induction false} NothingHappened(o: Options)
    ensures Agrees(o, World(EmptyControl(), []))
  {
  }

  // ---------------------------------------------------------------------------------------
  // The guarantees
  // ---------------------------------------------------------------------------------------

  // Nobody else's endpoint between two entries.
  ghost predicate SameEndpoint(log: seq<Entry>, i: nat, j: nat) {
    i <= j < |log| && forall k | i <= k <= j :: log[k].endpoint == log[i].endpoint
  }

  ghost predicate FinishedBetween(log: seq<Entry>, i: nat, j: nat)
    requires i < |log| && j <= |log|
  {
    exists k | i < k < j :: log[k].Done? && log[k].endpoint == log[i].endpoint && log[k].id == log[i].id
  }

  // Two leases on one endpoint are at least the lease duration apart, unless the first was
  // finished or another endpoint took over in between.
  lemma {:induction false} LeasesAreApart(o: Options, acts: seq<Action>, i: nat, j: nat)
    requires ClockRuns(acts)
    requires var log := Run(o, acts).log;
             i < j && SameEndpoint(log, i, j) && log[i].Taken? && log[j].Taken? && !FinishedBetween(log, i, j)
    ensures Run(o, acts).log[i].at + o.leaseDuration <= Run(o, acts).log[j].at
  {
    RecordIsItsHistory(o, acts);
    NextLeaseIsApart(o, Run(o, acts).log, i, j);
  }

  lemma {:induction false} NextLeaseIsApart(o: Options, log: seq<Entry>, i: nat, j: nat)
    requires LogOk(o, log)
    requires i < j && SameEndpoint(log, i, j) && log[i].Taken? && log[j].Taken? && !FinishedBetween(log, i, j)
    ensures log[i].at + o.leaseDuration <= log[j].at
  {
    hide Due, Failures;
    assert EntryOk(o, log[..i + 1], log[i + 1]);
    assert log[..i + 1][i] == log[i];
    assert Current(log[..i + 1]) == Some(log[i]);
    assert log[i + 1].Taken?;
  }

  // Finishing has an effect exactly if the lease is the latest one and not finished yet.
  lemma {:induction false} OnlyTheCurrentLeaseFinishes(o: Options, acts: seq<Action>, endpoint: string, id: LeaseId,
                                                       outcome: Outcome, at: int)
    requires ClockRuns(acts)
    ensures var w := Run(o, acts);
            var current := Current(w.log);
            var finishes := current.Some? && current.value.endpoint == endpoint && current.value.id == id;
            && (finishes ==>
                  Step(o, w, TryFinish(endpoint, id, outcome, at)).log == w.log + [Done(endpoint, id, at, outcome)])
            && (!finishes ==> Step(o, w, TryFinish(endpoint, id, outcome, at)) == w)
  {
    RecordIsItsHistory(o, acts);
  }

  ghost predicate FreshIds(acts: seq<Action>) {
    forall i, j | 0 <= i < j < |acts| && acts[i].TryAcquire? && acts[j].TryAcquire? :: acts[i].id != acts[j].id
  }

  ghost predicate DistinctLeases(log: seq<Entry>) {
    forall i, j | 0 <= i < j < |log| && log[i].Taken? && log[j].Taken? :: log[i].id != log[j].id
  }

  lemma {:induction false} LeasesAreDistinct(o: Options, acts: seq<Action>)
    requires FreshIds(acts)
    ensures DistinctLeases(Run(o, acts).log)
    ensures forall e <- Run(o, acts).log :: e.Taken? ==>
              exists k | 0 <= k < |acts| :: acts[k].TryAcquire? && acts[k].id == e.id
  {
    if acts != [] {
      var n := |acts| - 1;
      LeasesAreDistinct(o, acts[..n]);
      var before, after := Run(o, acts[..n]).log, Run(o, acts).log;
      forall e <- after | e.Taken? ensures exists k | 0 <= k < |acts| :: acts[k].TryAcquire? && acts[k].id == e.id {
        if e in before {
          var k :| 0 <= k < n && acts[..n][k].TryAcquire? && acts[..n][k].id == e.id;
          assert acts[k].TryAcquire? && acts[k].id == e.id;
        } else {
          assert acts[n].TryAcquire? && acts[n].id == e.id;
        }
      }
      if acts[n].TryAcquire? && after != before {
        forall e <- before | e.Taken? ensures e.id != acts[n].id {
          var k :| 0 <= k < n && acts[..n][k].TryAcquire? && acts[..n][k].id == e.id;
          assert acts[k].id != acts[n].id;
        }
      }
    }
  }

  // A lease that was finished or replaced never has an effect again.
  lemma {:induction false} EachLeaseFinishesOnceAtMost(o: Options, acts: seq<Action>, i: nat, j: nat)
    requires ClockRuns(acts) && FreshIds(acts)
    requires var log := Run(o, acts).log;
             i < |log| && j < |log| && log[i].Taken? && log[j].Done? && log[j].id == log[i].id
    ensures j == i + 1
  {
    RecordIsItsHistory(o, acts);
    LeasesAreDistinct(o, acts);
    var log := Run(o, acts).log;
    assert EntryOk(o, log[..j], log[j]);
    assert log[..j][j - 1] == log[j - 1];
  }

  lemma {:induction false} DueStays(o: Options, log: seq<Entry>, i: nat, j: nat)
    requires i < j <= |log| && SameEndpoint(log, i, j - 1)
    requires log[i].Done? && forall k | i < k < j :: log[k].Taken?
    ensures log[i].outcome.Failed? ==> Failures(log[..i + 1]) > 0
    ensures Due(o, log[..j]) == log[i].at + Wait(o, log[i].outcome, Failures(log[..i + 1]))
    ensures Endpoint(log[..j]) == log[i].endpoint
    decreases j
  {
    if j == i + 1 {
      assert log[..j][j - 1] == log[i];
    } else {
      DueStays(o, log, i, j - 1);
      assert log[..j][..j - 1] == log[..j - 1];
      assert log[..j][j - 1] == log[j - 1];
    }
  }

  // No lease is taken unforced before the time that the last finish has set: at once after a
  // cancellation, after the interval after a success, and after k failures in a row after
  // min(base * 2^(k - 1), max).
  lemma {:induction false} UnforcedLeasesWait(o: Options, acts: seq<Action>, i: nat, j: nat)
    requires ClockRuns(acts)
    requires var log := Run(o, acts).log;
             && i < j && SameEndpoint(log, i, j) && log[i].Done? && log[j].Taken? && !log[j].forced
             && forall k | i < k < j :: log[k].Taken?
    ensures var log := Run(o, acts).log;
            var k := Failures(log[..i + 1]);
            && (log[i].outcome.Failed? ==> k > 0)
            && log[i].at + Wait(o, log[i].outcome, k) <= log[j].at
  {
    hide Run, Wait, Failures, SameEndpoint, LogOk, ClockRuns;
    RecordIsItsHistory(o, acts);
    UnforcedLeaseWaits(o, Run(o, acts).log, i, j);
  }

  lemma {:induction false} UnforcedLeaseWaits(o: Options, log: seq<Entry>, i: nat, j: nat)
    requires LogOk(o, log)
    requires i < j && SameEndpoint(log, i, j) && log[i].Done? && log[j].Taken? && !log[j].forced
    requires forall k | i < k < j :: log[k].Taken?
    ensures log[i].outcome.Failed? ==> Failures(log[..i + 1]) > 0
    ensures log[i].at + Wait(o, log[i].outcome, Failures(log[..i + 1])) <= log[j].at
  {
    hide Wait, Due;
    DueStays(o, log, i, j);
    assert EntryOk(o, log[..j], log[j]);
    assert log[..i + 1][i] == log[i];
  }

  // And the other way round: a lease is refused only for these two reasons.
  lemma {:induction false} RefusedOnlyWhileHeldOrNotDue(o: Options, acts: seq<Action>, endpoint: string, at: int,
                                                        force: bool)
    requires ClockRuns(acts)
    ensures var w := Run(o, acts);
            var current := Current(w.log);
            var held := Endpoint(w.log) == endpoint && current.Some? && current.value.at + o.leaseDuration > at;
            var early := Endpoint(w.log) == endpoint && !force && Due(o, w.log) > at;
            at >= 0 ==> (Decide(w.control, endpoint, at, force).Granted? <==> !held && !early)
  {
    RecordIsItsHistory(o, acts);
  }
}
