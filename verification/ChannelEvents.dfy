// Who an id belongs to.

module ChannelEvents {
  // Requests and events draw their ids from one sequence and share one table of handlers: what
  // each id is for in every run, and that neither kind ever touches the other.

  import opened Wrappers
  import opened ChannelRequests
  import opened ChannelHistory

  // An event is heard until its last listener goes.
  datatype Role = OfRequest | OfEvent(heard: bool)

  predicate Disposed(ops: seq<Op>) {
    exists op <- ops :: op.DoDispose?
  }

  // The ids that were given out, in their order.
  ghost function Roles(ops: seq<Op>): (roles: seq<Role>) {
    if ops == [] then []
    else
      var n := |ops| - 1;
      var roles := Roles(ops[..n]);
      match ops[n]
      case DoCall(_, _) => if Disposed(ops[..n]) then roles else roles + [OfRequest]
      case DoListen => if Disposed(ops[..n]) then roles else roles + [OfEvent(true)]
      case DoStopListening(id) => if id < |roles| && roles[id].OfEvent? then roles[id := OfEvent(false)] else roles
      case _ => roles
  }

  predicate IsRequest(roles: seq<Role>, id: nat) {
    id < |roles| && roles[id].OfRequest?
  }

  predicate IsHeard(roles: seq<Role>, id: nat) {
    id < |roles| && roles[id] == OfEvent(true)
  }

  ghost predicate Kept(c: Client, roles: seq<Role>) {
    && c.nextId == |roles|
    && (forall id: nat :: id in c.handlers && c.handlers[id].ForEvent? <==> IsHeard(roles, id))
    && (forall id <- c.handlers :: c.handlers[id].ForPromise? ==> IsRequest(roles, id))
    && (forall id <- c.pending :: IsRequest(roles, id))
    && (forall id <- c.queued :: IsRequest(roles, id))
    && (forall id <- c.active :: IsRequest(roles, id))
    && (forall e <- c.log :: IsRequest(roles, e.id))
  }

  lemma {:induction false} RejectingKeeps(c: Client, roles: seq<Role>)
    requires Kept(c, roles)
    ensures Kept(RejectAll(c), roles) && RejectAll(c).disposed == c.disposed
    decreases |c.pending|
  {
    if c.pending != [] {
      var id := c.pending[0];
      RejectingKeeps(Note(c.(handlers := c.handlers - {id}, pending := c.pending[1..]), Rejected(id)), roles);
    }
  }

  lemma {:induction false} OnlyFewer(ids: seq<nat>, id: nat)
    ensures forall other <- Without(ids, id) :: other in ids
  {
    if ids != [] {
      OnlyFewer(ids[1..], id);
    }
  }

  lemma {:induction false} OneMoreId(c: Client, roles: seq<Role>)
    requires Kept(c, roles)
    ensures Kept(c.(nextId := c.nextId + 1), roles + [OfRequest])
    ensures Kept(c.(nextId := c.nextId + 1, handlers := c.handlers[c.nextId := ForEvent]), roles + [OfEvent(true)])
    ensures IsRequest(roles + [OfRequest], c.nextId)
  {
    forall id: nat ensures IsHeard(roles + [OfRequest], id) <==> IsHeard(roles, id) {
    }
    forall id: nat ensures IsHeard(roles + [OfEvent(true)], id) <==> id == |roles| || IsHeard(roles, id) {
    }
    forall id: nat | IsRequest(roles, id)
      ensures IsRequest(roles + [OfRequest], id) && IsRequest(roles + [OfEvent(true)], id)
    {
    }
  }

  // Whatever a call does concerns its own id.
  lemma {:induction false} RequestKept(c: Client, roles: seq<Role>, id: nat, e: Entry, serializable: bool)
    requires Kept(c, roles) && IsRequest(roles, id) && e.id == id
    ensures Kept(Note(c, e), roles) && Kept(Handled(c, id), roles)
    ensures Kept(c.(pending := c.pending + [id]), roles) && Kept(c.(active := c.active + {id}), roles)
    ensures Kept(c.(queued := c.queued[id := serializable]), roles)
  {
  }

  lemma {:induction false} CallKept(c: Client, roles: seq<Role>, op: Op)
    requires Kept(c, roles) && op.DoCall?
    ensures Kept(Apply(c, op), if c.disposed then roles else roles + [OfRequest])
    ensures Apply(c, op).disposed == c.disposed
  {
    hide Kept, IsRequest;
    if !c.disposed {
      var id, roles', s := c.nextId, roles + [OfRequest], op.serializable;
      OneMoreId(c, roles);
      var c1 := c.(nextId := id + 1);
      var issued := Note(c1, Issued(id));
      var waiting := issued.(pending := issued.pending + [id]);
      var queued := waiting.(queued := waiting.queued[id := s]);
      var sent := Note(Handled(waiting, id), RequestSent(id));
      RequestKept(c1, roles', id, Issued(id), s);
      RequestKept(issued, roles', id, Rejected(id), s);
      RequestKept(waiting, roles', id, Issued(id), s);
      RequestKept(queued, roles', id, Issued(id), s);
      RequestKept(Handled(waiting, id), roles', id, RequestSent(id), s);
      RequestKept(Handled(waiting, id), roles', id, Threw(id), s);
      RequestKept(sent, roles', id, Issued(id), s);
    }
  }

  lemma {:induction false} ListenKept(c: Client, roles: seq<Role>)
    requires Kept(c, roles)
    ensures Kept(Apply(c, DoListen), if c.disposed then roles else roles + [OfEvent(true)])
    ensures Apply(c, DoListen).disposed == c.disposed
  {
    hide Kept;
    OneMoreId(c, roles);
  }

  lemma {:induction false} OtherKept(c: Client, roles: seq<Role>, op: Op)
    requires Kept(c, roles) && (op.DoRunQueued? || op.DoRespond? || op.DoCancel? || op.DoDispose?)
    ensures Kept(Apply(c, op), roles)
    ensures Apply(c, op).disposed == (c.disposed || op.DoDispose?)
  {
    hide RejectAll, Without;
    match op
    case DoRunQueued(_) =>
    case DoRespond(r) =>
      if !r.Initialize? {
        OnlyFewer(c.pending, r.id);
      }
    case DoCancel(id) => OnlyFewer(c.pending, id);
    case DoDispose => RejectingKeeps(c.(disposed := true), roles);
  }

  lemma {:induction false} StopKept(c: Client, roles: seq<Role>, id: nat)
    requires Kept(c, roles)
    ensures var roles' := if id < |roles| && roles[id].OfEvent? then roles[id := OfEvent(false)] else roles;
            Kept(StopListening(c, id), roles')
  {
    if id < |roles| && roles[id].OfEvent? {
      var roles' := roles[id := OfEvent(false)];
      forall other: nat ensures IsHeard(roles', other) <==> other != id && IsHeard(roles, other) {
      }
      assert forall other: nat :: IsRequest(roles', other) <==> IsRequest(roles, other);
    } else {
      assert !IsHeard(roles, id);
    }
  }

  lemma {:induction false} EveryRunIsKept(ops: seq<Op>)
    ensures Kept(Run(ops), Roles(ops)) && (Run(ops).disposed <==> Disposed(ops))
  {
    hide Kept, Apply;
    if ops == [] {
      NothingIsKept();
    } else {
      var n := |ops| - 1;
      var c, roles, op := Run(ops[..n]), Roles(ops[..n]), ops[n];
      EveryRunIsKept(ops[..n]);
      assert ops == ops[..n] + [op];
      match op
      case DoCall(_, _) => CallKept(c, roles, op);
      case DoListen => ListenKept(c, roles);
      case DoStopListening(id) =>
        StopKept(c, roles, id);
        StoppingApplies(c, id);
      case _ => OtherKept(c, roles, op);
    }
  }

  lemma {:induction false} NothingIsKept()
    ensures Kept(Initial(), []) && !Initial().disposed
  {
  }

  lemma {:induction false} StoppingApplies(c: Client, id: nat)
    ensures Apply(c, DoStopListening(id)) == StopListening(c, id) && StopListening(c, id).disposed == c.disposed
  {
  }

  // In every run: every call and every listening has an id of its own, numbered in their order. An
  // event has its handler exactly until its last listener goes, whatever happens to requests; and
  // whatever is noted, pending, queued or waiting for a cancellation is a request.
  lemma {:induction false} IdsKeepTheirRoles(ops: seq<Op>, id: nat)
    ensures var c, roles := Run(ops), Roles(ops);
            && c.nextId == |roles|
            && (id in c.handlers && c.handlers[id].ForEvent? <==> IsHeard(roles, id))
            && (id < |roles| && roles[id].OfEvent? ==>
                  && (forall e <- c.log :: e.id != id)
                  && id !in c.pending && id !in c.queued && id !in c.active)
  {
    EveryRunIsKept(ops);
  }

  // A response for an event changes nothing.
  lemma {:induction false} EventsPassRequestsBy(ops: seq<Op>, r: Response)
    requires !r.Initialize? && r.id < |Roles(ops)| && Roles(ops)[r.id].OfEvent?
    ensures Run(ops + [DoRespond(r)]) == Run(ops)
  {
    EveryRunIsKept(ops);
    assert (ops + [DoRespond(r)])[..|ops|] == ops;
  }
}
