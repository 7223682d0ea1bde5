// packages/provider-node/src/zcode-builtin-remote-synchronizer.ts: the control record that all
// processes share. Each of its two critical sections is one step here; the network request in
// between holds no lock.

module RefreshLease {
  import opened Wrappers
  import opened Powers

  type LeaseId = nat

  datatype Control = Control(
    endpointKey: string,
    leaseId: Option<LeaseId>,
    leaseUntil: int,
    nextEligibleAt: int,
    failureCount: nat)

  datatype Options = Options(successInterval: nat, leaseDuration: nat, failureBaseDelay: nat, failureMaxDelay: nat)

  datatype Outcome = Succeeded | Failed | Cancelled

  datatype Decision = LeaseHeld | NotDue | Granted

  // A missing or unreadable file.
  function EmptyControl(): (c: Control) {
    Control("", None, 0, 0, 0)
  }

  function Decide(c: Control, endpointKey: string, now: int, force: bool): (d: Decision) {
    var same := c.endpointKey == endpointKey;
    if same && c.leaseUntil > now then LeaseHeld
    else if !force && same && c.nextEligibleAt > now then NotDue
    else Granted
  }

  function Acquired(o: Options, c: Control, endpointKey: string, leaseId: LeaseId, now: int): (c': Control) {
    var same := c.endpointKey == endpointKey;
    Control(endpointKey, Some(leaseId), now + o.leaseDuration,
            if same then c.nextEligibleAt else 0, if same then c.failureCount else 0)
  }

  function Min(a: int, b: int): (m: int) {
    if a < b then a else b
  }

  function FailureDelay(o: Options, failures: nat): (delay: int) {
    Min(TimesPow2(o.failureBaseDelay, if failures == 0 then 0 else failures - 1), o.failureMaxDelay)
  }

  function Delay(o: Options, outcome: Outcome, failures: nat): (delay: int) {
    match outcome
    case Cancelled => 0
    case Succeeded => o.successInterval
    case Failed => FailureDelay(o, failures)
  }

  function FailuresAfter(outcome: Outcome, failures: nat): (failures': nat) {
    match outcome
    case Cancelled => failures
    case Succeeded => 0
    case Failed => failures + 1
  }

  predicate Holds(c: Control, endpointKey: string, leaseId: LeaseId) {
    c.endpointKey == endpointKey && c.leaseId == Some(leaseId)
  }

  function Finished(o: Options, c: Control, endpointKey: string, leaseId: LeaseId, outcome: Outcome,
                    now: int): (c': Control) {
    if !Holds(c, endpointKey, leaseId) then c else
    var failures := FailuresAfter(outcome, c.failureCount);
    Control(endpointKey, None, 0, now + Delay(o, outcome, failures), failures)
  }

  // The file behind its lock, as the critical sections read and rewrite it.
  class ControlFile {
    var control: Control

    constructor ()
      ensures control == EmptyControl()
    {
      control := EmptyControl();
    }

    method TryAcquire(o: Options, endpointKey: string, leaseId: LeaseId, now: int, force: bool) returns (d: Decision)
      modifies this
      ensures d == Decide(old(control), endpointKey, now, force)
      ensures control == if d.Granted? then Acquired(o, old(control), endpointKey, leaseId, now) else old(control)
    {
      var current := control;
      var sameEndpoint := current.endpointKey == endpointKey;
      if sameEndpoint && current.leaseUntil > now {
        return LeaseHeld;
      }
      if !force && sameEndpoint && current.nextEligibleAt > now {
        return NotDue;
      }
      var eligible, failures := 0, 0;
      if sameEndpoint {
        eligible, failures := current.nextEligibleAt, current.failureCount;
      }
      control := Control(endpointKey, Some(leaseId), now + o.leaseDuration, eligible, failures);
      return Granted;
    }

    method FinishLease(o: Options, endpointKey: string, leaseId: LeaseId, outcome: Outcome, now: int)
      modifies this
      ensures control == Finished(o, old(control), endpointKey, leaseId, outcome, now)
    {
      var current := control;
      if current.endpointKey != endpointKey || current.leaseId != Some(leaseId) {
        return;
      }
      var failureCount :=
        if outcome.Cancelled? then current.failureCount else if outcome.Succeeded? then 0 else current.failureCount + 1;
      var delay: int := 0;
      if outcome.Succeeded? {
        delay := o.successInterval;
      } else if outcome.Failed? {
        delay := FailureDelay(o, failureCount);
      }
      control := Control(endpointKey, None, 0, now + delay, failureCount);
    }
  }
}
