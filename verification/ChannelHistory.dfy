// Runs of the request table.

module ChannelHistory {
  // Every request of every run: what may happen to it, and in what order.

  import opened Wrappers
  import opened ChannelRequests

  datatype Op =
    | DoCall(cancelled: bool, serializable: bool)
    | DoRunQueued(id: nat)
    | DoListen
    | DoStopListening(id: nat)
    | DoRespond(response: Response)
    | DoCancel(id: nat)
    | DoDispose

  function Apply(c: Client, op: Op): (c': Client) {
    match op
    case DoCall(cancelled, serializable) => Call(c, cancelled, serializable)
    case DoRunQueued(id) => RunQueued(c, id)
    case DoListen => Listen(c)
    case DoStopListening(id) => StopListening(c, id)
    case DoRespond(response) => Respond(c, response)
    case DoCancel(id) => Cancel(c, id)
    case DoDispose => Dispose(c)
  }

  function Run(ops: seq<Op>): (c: Client) {
    if ops == [] then Initial() else Apply(Run(ops[..|ops| - 1]), ops[|ops| - 1])
  }

  // ---------------------------------------------------------------------------------------
  // The life of a request
  // ---------------------------------------------------------------------------------------

  // A request is issued, perhaps handled, and then settled, or lost on an unreadable error. One whose
  // call threw stays spoilt, whatever happens to it. Anything else that is noted about a request is
  // wrong, for good.
  datatype Fate = Unknown | Waiting(handled: bool) | Settled | Lost | Thrown | Wrong

  function Advance(f: Fate, e: Entry): (f': Fate) {
    if f.Thrown? then f else
    match e
    case Issued(_) => if f.Unknown? then Waiting(false) else Wrong
    case RequestSent(_) => if f == Waiting(false) then Waiting(true) else Wrong
    case Unsent(_) => if f == Waiting(false) then Waiting(true) else Wrong
    case Threw(_) => if f == Waiting(false) then Thrown else Wrong
    case CancelSent(_) => if f.Waiting? then f else Wrong
    case Resolved(_) => if f == Waiting(true) then Settled else Wrong
    case Rejected(_) => if f.Waiting? then Settled else Wrong
    case Swallowed(_) => if f == Waiting(true) then Lost else Wrong
  }

  function FateOf(log: seq<Entry>, id: nat): (f: Fate) {
    if log == [] then Unknown else
    var before, last := FateOf(log[..|log| - 1], id), log[|log| - 1];
    if last.id == id then Advance(before, last) else before
  }

  // ---------------------------------------------------------------------------------------
  // What every step keeps
  // ---------------------------------------------------------------------------------------

  ghost predicate RequestOk(c: Client, id: nat) {
    var f := FateOf(c.log, id);
    && f != Wrong
    && (f != Thrown ==> (id in c.pending <==> f.Waiting?))
    && (id in c.handlers && c.handlers[id] == ForPromise ==> f == Waiting(true) || f == Thrown)
    && (id in c.queued ==> f != Waiting(true) && f != Thrown)
    && (id in c.active ==> f != Thrown)
    && (f.Waiting? ==> id in c.active)
    && (id >= c.nextId ==> f == Unknown && id !in c.queued && id !in c.active && id !in c.pending)
  }

  ghost predicate Invariant(c: Client) {
    && (forall id :: RequestOk(c, id))
    && Distinct(c.pending)
    && (c.disposed ==> c.pending == [])
  }

  lemma {:induction false} FateAfter(log: seq<Entry>, e: Entry, id: nat)
    ensures FateOf(log + [e], id) == if e.id == id then Advance(FateOf(log, id), e) else FateOf(log, id)
  {
    assert (log + [e])[..|log|] == log;
  }

  lemma {:induction false} WithoutOne(ids: seq<nat>, id: nat)
    ensures forall x :: x in Without(ids, id) <==> x in ids && x != id
    ensures Distinct(ids) ==> Distinct(Without(ids, id))
  {
    if ids != [] {
      var rest := Without(ids[1..], id);
      WithoutOne(ids[1..], id);
      forall x ensures x in Without(ids, id) <==> x in ids && x != id {
        assert x in ids <==> x == ids[0] || x in ids[1..];
      }
      if Distinct(ids) {
        assert ids[0] !in ids[1..];
        assert ids[0] !in rest;
      }
    }
  }

  // A waiting request is handed to the transport, or should be.
  lemma {:induction false} HandlingKeeps(c: Client, id: nat, e: Entry)
    requires Invariant(c) && id !in c.queued && FateOf(c.log, id) == Waiting(false)
    requires e == RequestSent(id) || e == Unsent(id)
    ensures Invariant(Note(Handled(c, id), e))
  {
    assert RequestOk(c, id);
    forall any ensures RequestOk(Note(Handled(c, id), e), any) {
      assert RequestOk(c, any);
      FateAfter(c.log, e, any);
    }
  }

  function Waits(c: Client): (c': Client) {
    var id := c.nextId;
    Note(c.(nextId := id + 1, pending := c.pending + [id], active := c.active + {id}), Issued(id))
  }

  lemma {:induction false} IssueKeeps(c: Client)
    requires Invariant(c) && !c.disposed
    ensures Invariant(Waits(c))
    ensures FateOf(Waits(c).log, c.nextId) == Waiting(false)
    ensures c.nextId !in c.queued
  {
    var id := c.nextId;
    assert RequestOk(c, id);
    FateAfter(c.log, Issued(id), id);
    forall any ensures RequestOk(Waits(c), any) {
      assert RequestOk(c, any);
      FateAfter(c.log, Issued(id), any);
    }
  }

  lemma {:induction false} CallKeeps(c: Client, cancelled: bool, serializable: bool)
    requires Invariant(c)
    ensures Invariant(Call(c, cancelled, serializable))
  {
    if !c.disposed {
      var id := c.nextId;
      IssueKeeps(c);
      if cancelled {
        CancelledCallKeeps(c, serializable);
      } else if !c.idle {
        QueueingKeeps(Waits(c), id, serializable);
      } else if serializable {
        HandlingKeeps(Waits(c), id, RequestSent(id));
      } else {
        ThrowingCallKeeps(c);
      }
    }
  }

  lemma {:induction false} QueueingKeeps(c: Client, id: nat, serializable: bool)
    requires Invariant(c) && FateOf(c.log, id) == Waiting(false)
    ensures Invariant(c.(queued := c.queued[id := serializable]))
  {
    assert RequestOk(c, id);
    var c' := c.(queued := c.queued[id := serializable]);
    forall any ensures RequestOk(c', any) {
      assert RequestOk(c, any);
    }
  }

  lemma {:induction false} CancelledCallKeeps(c: Client, serializable: bool)
    requires Invariant(c) && !c.disposed
    ensures Invariant(Call(c, true, serializable))
  {
    var id := c.nextId;
    forall any ensures RequestOk(Call(c, true, serializable), any) {
      assert RequestOk(c, any);
      FateAfter(c.log, Issued(id), any);
      FateAfter(c.log + [Issued(id)], Rejected(id), any);
    }
  }

  lemma {:induction false} ThrowingCallKeeps(c: Client)
    requires Invariant(c) && !c.disposed && c.idle
    ensures Invariant(Call(c, false, false))
  {
    hide FateOf;
    var c' := Call(c, false, false);
    forall any ensures RequestOk(c', any) {
      assert RequestOk(c, any);
      ThrownFates(c.log, c.nextId, any);
    }
    assert RequestOk(c, c.nextId);
  }

  lemma {:induction false} ThrownFates(log: seq<Entry>, id: nat, any: nat)
    requires FateOf(log, any) == Unknown || any != id
    ensures FateOf(log + [Issued(id)] + [Threw(id)], any) == if any == id then Thrown else FateOf(log, any)
  {
    FateAfter(log, Issued(id), any);
    FateAfter(log + [Issued(id)], Threw(id), any);
  }

  // A waiting request is forgotten and given its end.
  lemma {:induction false} EndKeeps(c: Client, id: nat, e: Entry)
    requires Invariant(c) && e.id == id && (id in c.pending || FateOf(c.log, id) == Thrown)
    requires e.Rejected? || ((e.Resolved? || e.Swallowed?) && FateOf(c.log, id) in {Waiting(true), Thrown})
    ensures Invariant(Note(Forget(c, id), e))
  {
    var c' := Note(Forget(c, id), e);
    WithoutOne(c.pending, id);
    forall any ensures RequestOk(c', any) {
      assert RequestOk(c, any);
      FateAfter(c.log, e, any);
    }
  }

  lemma {:induction false} RespondKeeps(c: Client, r: Response)
    requires Invariant(c)
    ensures Invariant(Respond(c, r))
  {
    if !c.disposed && !r.Initialize? && r.id in c.handlers && c.handlers[r.id] == ForPromise {
      assert RequestOk(c, r.id);
      match r
      case Success(id) => EndKeeps(c, id, Resolved(id));
      case Error(id, body) => EndKeeps(c, id, if Unreadable(body) then Swallowed(id) else Rejected(id));
      case ErrorObject(id) => EndKeeps(c, id, Rejected(id));
      case EventFire(_) =>
    } else if !c.disposed && r.Initialize? {
      forall any ensures RequestOk(c.(idle := true), any) {
        assert RequestOk(c, any);
      }
    }
  }

  lemma {:induction false} CancelKeeps(c: Client, id: nat)
    requires Invariant(c)
    ensures Invariant(Cancel(c, id))
  {
    if id in c.active && id in c.pending {
      assert RequestOk(c, id);
      var sent := Note(c, CancelSent(id));
      forall any ensures RequestOk(sent, any) {
        assert RequestOk(c, any);
        FateAfter(c.log, CancelSent(id), any);
      }
      assert Invariant(sent);
      EndKeeps(sent, id, Rejected(id));
    }
  }

  lemma {:induction false} RejectAllKeeps(c: Client)
    requires Distinct(c.pending) && forall id :: RequestOk(c, id)
    ensures forall id :: RequestOk(RejectAll(c), id)
    ensures RejectAll(c).pending == []
    decreases |c.pending|
  {
    if c.pending != [] {
      var id := c.pending[0];
      var c' := Note(c.(handlers := c.handlers - {id}, pending := c.pending[1..]), Rejected(id));
      assert id !in c'.pending;
      forall any ensures RequestOk(c', any) {
        assert RequestOk(c, any);
        assert any in c.pending <==> any == id || any in c.pending[1..];
        FateAfter(c.log, Rejected(id), any);
      }
      RejectAllKeeps(c');
    }
  }

  lemma {:induction false} OthersKeep(c: Client, op: Op)
    requires Invariant(c) && (op.DoListen? || op.DoStopListening? || op.DoDispose?)
    ensures Invariant(Apply(c, op))
  {
    if op.DoDispose? {
      var c' := c.(disposed := true);
      forall any ensures RequestOk(c', any) {
        assert RequestOk(c, any);
      }
      RejectAllKeeps(c');
      var end := RejectAll(c');
      forall any ensures RequestOk(end.(active := {}), any) {
        assert RequestOk(end, any);
      }
    } else {
      assert RequestOk(c, c.nextId);
      forall any ensures RequestOk(Apply(c, op), any) {
        assert RequestOk(c, any);
      }
    }
  }

  lemma {:induction false} RunQueuedKeeps(c: Client, id: nat)
    requires Invariant(c)
    ensures Invariant(RunQueued(c, id))
  {
    if c.idle && id in c.queued {
      var turn := c.(queued := c.queued - {id});
      forall any ensures RequestOk(turn, any) {
        assert RequestOk(c, any);
      }
      assert RequestOk(c, id);
      if !Skipped(turn, id) {
        HandlingKeeps(turn, id, if c.queued[id] then RequestSent(id) else Unsent(id));
      }
    }
  }

  lemma {:induction false} EveryRunKeeps(ops: seq<Op>)
    ensures Invariant(Run(ops))
  {
    if ops != [] {
      var c, op := Run(ops[..|ops| - 1]), ops[|ops| - 1];
      EveryRunKeeps(ops[..|ops| - 1]);
      match op
      case DoCall(cancelled, serializable) => CallKeeps(c, cancelled, serializable);
      case DoRunQueued(id) => RunQueuedKeeps(c, id);
      case DoRespond(response) => RespondKeeps(c, response);
      case DoCancel(id) => CancelKeeps(c, id);
      case _ => OthersKeep(c, op);
    }
  }

  // ---------------------------------------------------------------------------------------
  // The promises
  // ---------------------------------------------------------------------------------------

  // A call that throws rejects its promise.
  predicate Settles(e: Entry, id: nat) {
    (e.Resolved? || e.Rejected? || e.Threw?) && e.id == id
  }

  lemma {:induction false} WrongBefore(log: seq<Entry>, id: nat)
    requires log != [] && FateOf(log, id) != Wrong
    ensures FateOf(log[..|log| - 1], id) != Wrong
    ensures FateOf(log, id) != Thrown ==> FateOf(log[..|log| - 1], id) != Thrown
  {
  }

  lemma {:induction false} OverIsOver(log: seq<Entry>, id: nat, i: nat)
    requires FateOf(log, id) != Wrong && FateOf(log, id) != Thrown
    requires i < |log| && Settles(log[i], id)
    ensures FateOf(log, id) == Settled
    ensures forall j | i < j < |log| :: log[j].id != id
  {
    var before := log[..|log| - 1];
    if i < |log| - 1 {
      WrongBefore(log, id);
      OverIsOver(before, id, i);
      forall j | i < j < |log| ensures log[j].id != id {
        assert j < |log| - 1 ==> before[j].id != id;
      }
    }
  }

  lemma {:induction false} FateSaysWhatHappened(log: seq<Entry>, id: nat)
    requires FateOf(log, id) != Wrong
    ensures FateOf(log, id) != Unknown <==> Issued(id) in log
    ensures FateOf(log, id) == Thrown <==> Threw(id) in log
    ensures FateOf(log, id) == Lost <==> Swallowed(id) in log && Threw(id) !in log
    ensures FateOf(log, id) in {Settled, Thrown} <==> exists e <- log :: Settles(e, id)
    ensures FateOf(log, id) == Unknown ==> forall e <- log :: e.id != id
  {
    if log != [] {
      var n := |log| - 1;
      WrongBefore(log, id);
      FateSaysWhatHappened(log[..n], id);
      assert log == log[..n] + [log[n]];
      assert log[n] in log;
      assert forall e <- log :: e in log[..n] || e == log[n];
      assert forall e <- log[..n] :: e in log;
    }
  }

  // A request is settled at most once, nothing is noted about it afterwards, and it is pending
  // exactly while it is issued and neither settled nor lost.
  ghost predicate Orderly(c: Client, id: nat) {
    && (forall i, j | 0 <= i < j < |c.log| && Settles(c.log[i], id) :: c.log[j].id != id)
    && (id in c.pending <==>
          Issued(id) in c.log && Swallowed(id) !in c.log && forall e <- c.log :: !Settles(e, id))
  }

  // In every run, against any server, every request is orderly whose call did not throw.
  lemma {:induction false} RequestsAreOrderly(ops: seq<Op>, id: nat)
    requires Threw(id) !in Run(ops).log
    ensures Orderly(Run(ops), id)
  {
    EveryRunKeeps(ops);
    var c := Run(ops);
    assert RequestOk(c, id);
    FateSaysWhatHappened(c.log, id);
    forall i, j | 0 <= i < j < |c.log| && Settles(c.log[i], id) ensures c.log[j].id != id {
      OverIsOver(c.log, id, i);
    }
  }

  // The call throws because of its argument.
  predicate Throws(c: Client, op: Op) {
    op.DoCall? && !op.cancelled && !op.serializable && c.idle && !c.disposed
  }

  ghost predicate Never(ops: seq<Op>, bad: (Client, Op) -> bool) {
    forall i | 0 <= i < |ops| :: !bad(Run(ops[..i]), ops[i])
  }

  lemma {:induction false} NeverSoFar(ops: seq<Op>, bad: (Client, Op) -> bool)
    requires ops != []
    ensures var n := |ops| - 1;
            Never(ops, bad) <==> Never(ops[..n], bad) && !bad(Run(ops[..n]), ops[n])
  {
    hide Run;
    var n := |ops| - 1;
    forall i | 0 <= i < n ensures ops[..n][..i] == ops[..i] && ops[..n][i] == ops[i] {
    }
    if Never(ops, bad) {
      forall i | 0 <= i < n ensures !bad(Run(ops[..n][..i]), ops[..n][i]) {
        assert !bad(Run(ops[..i]), ops[i]);
      }
    }
    if Never(ops[..n], bad) {
      forall i | 0 <= i < n ensures !bad(Run(ops[..i]), ops[i]) {
        assert !bad(Run(ops[..n][..i]), ops[..n][i]);
      }
    }
  }

  ghost predicate NothingThrew(log: seq<Entry>) {
    forall e <- log :: !e.Threw?
  }

  // What an operation adds to the log.
  function Added(c: Client, op: Op): (entries: seq<Entry>) {
    if c.disposed then RunAdded(c, op) else
    match op
    case DoCall(cancelled, serializable) =>
      var id := c.nextId;
      if cancelled then [Issued(id), Rejected(id)]
      else if !c.idle then [Issued(id)]
      else [Issued(id), if serializable then RequestSent(id) else Threw(id)]
    case DoRespond(r) =>
      if r.Initialize? || r.id !in c.handlers || c.handlers[r.id] == ForEvent || r.EventFire? then []
      else if r.Success? then [Resolved(r.id)]
      else [if r.Error? && Unreadable(r.body) then Swallowed(r.id) else Rejected(r.id)]
    case DoDispose => Rejections(c.pending)
    case _ => RunAdded(c, op)
  }

  // What is added whether or not the client was disposed.
  function RunAdded(c: Client, op: Op): (entries: seq<Entry>) {
    match op
    case DoRunQueued(id) =>
      if !c.idle || id !in c.queued || Skipped(c, id) then []
      else [if c.queued[id] then RequestSent(id) else Unsent(id)]
    case DoCancel(id) => if id in c.active && id in c.pending then [CancelSent(id), Rejected(id)] else []
    case _ => []
  }

  lemma {:induction false} Adds(c: Client, op: Op)
    ensures Apply(c, op).log == c.log + Added(c, op)
  {
    match op
    case DoCall(_, _) =>
    case DoRespond(_) =>
    case DoDispose => RejectAllAdds(c.(disposed := true));
    case DoRunQueued(_) =>
    case DoCancel(_) =>
    case DoListen =>
    case DoStopListening(_) =>
  }

  lemma {:induction false} AddedKinds(c: Client, op: Op)
    ensures Throws(c, op) ==> Added(c, op) == [Issued(c.nextId), Threw(c.nextId)]
    ensures !Throws(c, op) ==> NothingThrew(Added(c, op))
    ensures Swallows(c, op) ==> Added(c, op) == [Swallowed(op.response.id)]
    ensures !Swallows(c, op) ==> forall e <- Added(c, op) :: !e.Swallowed?
  {
  }

  function Rejections(ids: seq<nat>): (entries: seq<Entry>)
    ensures forall e <- entries :: e.Rejected?
  {
    if ids == [] then [] else [Rejected(ids[0])] + Rejections(ids[1..])
  }

  lemma {:induction false} RejectAllAdds(c: Client)
    ensures RejectAll(c).log == c.log + Rejections(c.pending)
    decreases |c.pending|
  {
    if c.pending != [] {
      var id := c.pending[0];
      var c' := Note(c.(handlers := c.handlers - {id}, pending := c.pending[1..]), Rejected(id));
      RejectAllAdds(c');
      var others := Rejections(c.pending[1..]);
      assert c.log + [Rejected(id)] + others == c.log + ([Rejected(id)] + others);
    }
  }

  lemma {:induction false} LogThrewExactlyWhenThrowing(ops: seq<Op>)
    ensures NothingThrew(Run(ops).log) <==> Never(ops, Throws)
  {
    hide Apply, Throws, Never, Added;
    if ops == [] {
      NeverAtFirst(Throws);
    } else {
      var n := |ops| - 1;
      LogThrewExactlyWhenThrowing(ops[..n]);
      NeverSoFar(ops, Throws);
      var c := Run(ops[..n]);
      var added := Added(c, ops[n]);
      Adds(c, ops[n]);
      AddedKinds(c, ops[n]);
      assert Threw(c.nextId) == (c.log + [Issued(c.nextId), Threw(c.nextId)])[|c.log| + 1];
      assert forall e :: e in c.log + added <==> e in c.log || e in added;
    }
  }

  lemma {:induction false} NeverAtFirst(bad: (Client, Op) -> bool)
    ensures Never([], bad)
  {
  }

  // Right after a call that throws, its request is rejected and pending all the same.
  lemma {:induction false} ThrowingSpoils(c: Client, op: Op)
    requires Invariant(c) && Throws(c, op)
    ensures !Orderly(Apply(c, op), c.nextId)
  {
    var id := c.nextId;
    ThrowingCallKeeps(c);
    var c' := Call(c, false, false);
    assert c'.log[|c'.log| - 1] == Threw(id) && Settles(Threw(id), id);
    assert c'.pending[|c'.pending| - 1] == id;
  }

  ghost predicate AlwaysOrderly(ops: seq<Op>) {
    forall n: nat, id: nat | n <= |ops| :: Orderly(Run(ops[..n]), id)
  }

  lemma {:induction false} WithoutThrowsOrderly(ops: seq<Op>, n: nat, id: nat)
    requires Never(ops, Throws) && n <= |ops|
    ensures Orderly(Run(ops[..n]), id)
  {
    hide Orderly, Throws, Run;
    forall i | 0 <= i < n ensures !Throws(Run(ops[..n][..i]), ops[..n][i]) {
      assert ops[..n][..i] == ops[..i];
    }
    LogThrewExactlyWhenThrowing(ops[..n]);
    RequestsAreOrderly(ops[..n], id);
  }

  lemma {:induction false} AfterThrowDisorderly(ops: seq<Op>, i: nat)
    requires i < |ops| && Throws(Run(ops[..i]), ops[i])
    ensures !AlwaysOrderly(ops)
  {
    hide Orderly, Throws, Apply;
    var c, n := Run(ops[..i]), i + 1;
    EveryRunKeeps(ops[..i]);
    ThrowingSpoils(c, ops[i]);
    assert ops[..n][..i] == ops[..i];
    assert !Orderly(Run(ops[..n]), c.nextId);
  }

  // In a run every request is orderly after every step, exactly if no call on an idle channel
  // carries an argument that cannot be serialized.
  lemma {:induction false} RequestsAreOrderlyExactlyWhenNoneThrows(ops: seq<Op>)
    ensures AlwaysOrderly(ops) <==> Never(ops, Throws)
  {
    hide Orderly, Throws, Run;
    if Never(ops, Throws) {
      forall n: nat, id: nat | n <= |ops| ensures Orderly(Run(ops[..n]), id) {
        WithoutThrowsOrderly(ops, n, id);
      }
    } else {
      var i :| 0 <= i < |ops| && Throws(Run(ops[..i]), ops[i]);
      AfterThrowDisorderly(ops, i);
    }
  }

  // The shortest such run: dispose rejects a second time what the call has already rejected.
  lemma {:induction false} UnserializableArgumentsAreSettledTwice()
    ensures Run([DoRespond(Initialize), DoCall(false, false), DoDispose]).log == [Issued(0), Threw(0), Rejected(0)]
  {
    var ops := [DoRespond(Initialize), DoCall(false, false), DoDispose];
    assert ops[..2] == [DoRespond(Initialize), DoCall(false, false)];
    assert ops[..2][..1] == [DoRespond(Initialize)];
    assert ops[..2][..1][..0] == [];
    assert Run(ops[..2][..1]) == Initial().(idle := true);
    var thrown := Run(ops[..2]);
    assert thrown.log == [Issued(0), Threw(0)] && thrown.pending == [0] && !thrown.disposed;
    RejectAllAdds(thrown.(disposed := true));
    assert Rejections([0]) == [Rejected(0)];
  }

  // ---------------------------------------------------------------------------------------
  // Dispose
  // ---------------------------------------------------------------------------------------

  ghost predicate AllSettled(log: seq<Entry>) {
    forall id | Issued(id) in log :: exists e <- log :: Settles(e, id)
  }

  // An error response with an unreadable body reaches the handler of a promise request.
  predicate Swallows(c: Client, op: Op) {
    && op.DoRespond? && op.response.Error? && Unreadable(op.response.body)
    && !c.disposed
    && op.response.id in c.handlers && c.handlers[op.response.id] == ForPromise
  }

  // And its promise was not rejected before, by a call that threw.
  predicate Loses(c: Client, op: Op) {
    Swallows(c, op) && op.response.id in c.active
  }

  ghost predicate NothingLost(log: seq<Entry>) {
    forall id | Swallowed(id) in log :: Threw(id) in log
  }

  lemma {:induction false} StepLoses(c: Client, op: Op)
    requires Invariant(c)
    ensures NothingLost(Apply(c, op).log) <==> NothingLost(c.log) && !Loses(c, op)
  {
    hide Apply, Throws, Invariant, Added;
    var added := Added(c, op);
    Adds(c, op);
    AddedKinds(c, op);
    var log := Apply(c, op).log;
    forall e ensures e in log <==> e in c.log || e in added {
    }
    if Swallows(c, op) {
      var id := op.response.id;
      InvariantFor(c, id);
      FateSaysWhatHappened(c.log, id);
      assert Swallowed(id) in log && (Threw(id) in log <==> Threw(id) in c.log);
    } else {
      InvariantFor(c, c.nextId);
      FateSaysWhatHappened(c.log, c.nextId);
    }
  }

  lemma {:induction false} InvariantFor(c: Client, id: nat)
    requires Invariant(c)
    ensures RequestOk(c, id)
  {
  }

  lemma {:induction false} NothingIsLostExactlyWhenNeverLosing(ops: seq<Op>)
    ensures NothingLost(Run(ops).log) <==> Never(ops, Loses)
  {
    hide NothingLost, Loses, Apply, Never;
    if ops == [] {
      NeverAtFirst(Loses);
      NothingLostAtFirst();
    } else {
      var n := |ops| - 1;
      EveryRunKeeps(ops[..n]);
      NothingIsLostExactlyWhenNeverLosing(ops[..n]);
      StepLoses(Run(ops[..n]), ops[n]);
      NeverSoFar(ops, Loses);
    }
  }

  lemma {:induction false} NothingLostAtFirst()
    ensures NothingLost(Initial().log)
  {
  }

  // After dispose every issued request is settled, exactly if no error response with an unreadable
  // body ever reached the handler of a request that was still unsettled.
  lemma {:induction false} DisposeSettlesExactlyWhenErrorsAreReadable(ops: seq<Op>)
    requires Run(ops).disposed
    ensures AllSettled(Run(ops).log) <==> Never(ops, Loses)
  {
    hide Run, Never;
    EveryRunKeeps(ops);
    NothingIsLostExactlyWhenNeverLosing(ops);
    var c := Run(ops);
    forall id ensures (Issued(id) in c.log ==> exists e <- c.log :: Settles(e, id))
                      <==> (Swallowed(id) in c.log ==> Threw(id) in c.log)
    {
      assert RequestOk(c, id);
      FateSaysWhatHappened(c.log, id);
    }
  }

  // One such response is enough to leave a caller waiting for ever: here the stack is a text.
  lemma {:induction false} TextStacksLoseRequests(message: string, stack: string)
    requires stack != ""
    ensures var body := Object(map["message" := Text(message), "stack" := Text(stack)]);
            var ops := [DoRespond(Initialize), DoCall(false, true), DoRespond(Error(0, body)), DoDispose];
            Run(ops).disposed && !AllSettled(Run(ops).log)
  {
    var body := Object(map["message" := Text(message), "stack" := Text(stack)]);
    var ops := [DoRespond(Initialize), DoCall(false, true), DoRespond(Error(0, body)), DoDispose];
    assert ops[..3] == [DoRespond(Initialize), DoCall(false, true), DoRespond(Error(0, body))];
    assert ops[..3][..2] == ops[..2] == [DoRespond(Initialize), DoCall(false, true)];
    assert ops[..2][..1] == [DoRespond(Initialize)];
    assert ops[..2][..1][..0] == [];
    assert Run(ops[..2][..1]) == Initial().(idle := true);
    var asked := Run(ops[..2]);
    assert asked.pending == [0] && asked.handlers == map[0 := ForPromise] && asked.active == {0};
    assert Field(body, "stack") == Text(stack) && Unreadable(body);
    assert Loses(Run(ops[..2]), ops[2]);
    assert Run(ops).disposed;
    DisposeSettlesExactlyWhenErrorsAreReadable(ops);
  }
}
