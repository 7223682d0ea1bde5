// The session of two endpoints down to the bytes on its sockets.

module ByteSession {
  // Sockets carry bytes, which arrive in chunks of any size. An endpoint keeps the bytes of an
  // unfinished frame, and drops them with the socket they came from.

  import opened Buffers
  import opened Framing
  import opened Reliability
  import S = ReliableSession
  import SocketOrder

  datatype Peer = Peer(core: S.Peer, unread: seq<byte>)

  type Wires = map<nat, seq<byte>>

  datatype System = System(a: Peer, b: Peer, ab: Wires, ba: Wires)

  datatype Action =
    | Act(act: S.Action)
    | Arrive(side: S.Side, count: nat, now: int)

  // ---------------------------------------------------------------------------------------
  // Steps
  // ---------------------------------------------------------------------------------------

  function On(wires: Wires, socket: nat): (bytes: seq<byte>) {
    if socket in wires then wires[socket] else []
  }

  datatype Moved = Moved(peer: Peer, out: Wires, incoming: Wires)

  // What a step other than an arrival writes, as frames.
  function Output(o: Options, p: S.Peer, act: S.Action): (m: S.Moved) {
    S.Move(o, p, map[], map[], act)
  }

  function Move(o: Options, p: Peer, out: Wires, incoming: Wires, act: S.Action): (m: Moved) {
    var r := Output(o, p.core, act);
    var socket := r.peer.socket;
    Moved(
      Peer(r.peer, if socket == p.core.socket then p.unread else []),
      out[socket := On(out, socket) + EncodeAll(S.On(r.out, socket))],
      incoming)
  }

  function TakeAll(o: Options, p: S.Peer, frames: seq<Frame>, now: int): (p': S.Peer)
    decreases |frames|
  {
    if frames == [] then p else TakeAll(o, S.Take(o, p, frames[0], now), frames[1..], now)
  }

  function Arrival(o: Options, p: Peer, out: Wires, incoming: Wires, count: nat, now: int): (m: Moved) {
    var wire := On(incoming, p.core.socket);
    var n := if count < |wire| then count else |wire|;
    var scan := ScanFrames(p.unread + wire[..n]);
    Moved(Peer(TakeAll(o, p.core, scan.frames, now), scan.rest), out, incoming[p.core.socket := wire[n..]])
  }

  function MoveSide(o: Options, p: Peer, out: Wires, incoming: Wires, action: Action): (m: Moved) {
    match action
    case Act(act) => Move(o, p, out, incoming, act)
    case Arrive(_, count, now) => Arrival(o, p, out, incoming, count, now)
  }

  function SideOf(action: Action): (side: S.Side) {
    if action.Act? then action.act.side else action.side
  }

  function Step(o: Options, s: System, action: Action): (s': System) {
    if SideOf(action) == S.A then
      var m := MoveSide(o, s.a, s.ab, s.ba, action);
      System(m.peer, s.b, m.out, m.incoming)
    else
      var m := MoveSide(o, s.b, s.ba, s.ab, action);
      System(s.a, m.peer, m.incoming, m.out)
  }

  function Start(): (s: System) {
    System(Peer(S.Fresh(), []), Peer(S.Fresh(), []), map[], map[])
  }

  function Run(o: Options, actions: seq<Action>): (s: System) {
    if actions == [] then Start() else Step(o, Run(o, actions[..|actions| - 1]), actions[|actions| - 1])
  }

  // ---------------------------------------------------------------------------------------
  // Bytes that stand for frames
  // ---------------------------------------------------------------------------------------

  // As frames look when they have gone through 32-bit fields.
  ghost predicate WireForm(frames: seq<Frame>) {
    forall f <- frames :: Sendable(f) && Wire(f) == f
  }

  // On the reader's socket the bytes it has not used stand before those on the way. What is left
  // on sockets that the reader has given up does not matter.
  ghost predicate Carries(bytes: Wires, frames: S.Wires, reader: Peer) {
    && !Ready(reader.unread)
    && forall socket: nat | socket >= reader.core.socket ::
         && WireForm(S.On(frames, socket))
         && EncodeAll(S.On(frames, socket))
            == (if socket == reader.core.socket then reader.unread else []) + On(bytes, socket)
  }

  lemma {:induction false} EncodeAllConcat(a: seq<Frame>, b: seq<Frame>)
    ensures EncodeAll(a + b) == EncodeAll(a) + EncodeAll(b)
  {
    hide Encode;
    if a == [] {
      assert a + b == b;
    } else {
      assert (a + b)[1..] == a[1..] + b;
      EncodeAllConcat(a[1..], b);
      assert Encode(a[0]) + (EncodeAll(a[1..]) + EncodeAll(b)) == Encode(a[0]) + EncodeAll(a[1..]) + EncodeAll(b);
    }
  }

  lemma {:induction false} WireAllHasWireForm(frames: seq<Frame>)
    requires forall f <- frames :: Sendable(f)
    ensures WireForm(WireAll(frames))
  {
    if frames != [] {
      WireAllHasWireForm(frames[1..]);
      assert frames[0] in frames && Sendable(Wire(frames[0])) && Wire(Wire(frames[0])) == Wire(frames[0]);
    }
  }

  lemma {:induction false} WireFormIsWired(frames: seq<Frame>)
    requires WireForm(frames)
    ensures WireAll(frames) == frames
  {
    if frames != [] {
      assert frames[0] in frames;
      WireFormIsWired(frames[1..]);
    }
  }

  // Some of the bytes of a list of frames are read: whole frames at the front, and the rest stands
  // for the others.
  lemma {:induction false} ReadingSome(frames: seq<Frame>, some: seq<byte>, others: seq<byte>)
    requires WireForm(frames) && EncodeAll(frames) == some + others
    ensures var scan := ScanFrames(some);
            && !Ready(scan.rest)
            && scan.frames <= frames
            && EncodeAll(frames[|scan.frames|..]) == scan.rest + others
  {
    hide *;
    var scan := ScanFrames(some);
    WireFormIsWired(frames);
    NothingIsReady();
    AllAreSendable(frames);
    ScanOfEncoded(frames, []);
    assert EncodeAll(frames) + [] == EncodeAll(frames);
    ScanInPieces(some, others);
    ScanLosesNothing(some);
    var later := frames[|scan.frames|..];
    assert frames == scan.frames + later by {
      assert frames == scan.frames + ScanFrames(scan.rest + others).frames;
    }
    EncodeAllConcat(scan.frames, later);
    SameTail(EncodeAll(scan.frames), EncodeAll(later), scan.rest, others);
  }

  lemma {:induction false} AllAreSendable(frames: seq<Frame>)
    requires WireForm(frames)
    ensures forall f <- frames :: Sendable(f)
  {
  }

  lemma {:induction false} SameTail(a: seq<byte>, b: seq<byte>, c: seq<byte>, d: seq<byte>)
    requires a + b == a + c + d
    ensures b == c + d
  {
    assert b == (a + b)[|a|..];
    assert c + d == (a + c + d)[|a|..];
  }

  // ---------------------------------------------------------------------------------------
  // Each step of the bytes is some steps of the frames
  // ---------------------------------------------------------------------------------------

  lemma {:induction false} OutputIsAdded(o: Options, p: S.Peer, out: S.Wires, incoming: S.Wires, act: S.Action)
    requires !act.DeliverFrame?
    ensures var m, r := S.Move(o, p, out, incoming, act), Output(o, p, act);
            && m.peer == r.peer && m.incoming == incoming
            && forall socket ::
                 S.On(m.out, socket)
                 == if socket == r.peer.socket then S.On(out, socket) + S.On(r.out, socket) else S.On(out, socket)
  {
    hide Send, KeepAlive, AckCheck, WireAll;
  }

  lemma {:induction false} OutputHasWireForm(o: Options, p: S.Peer, act: S.Action)
    requires S.QueueOk(p) && forall data <- p.sent :: |data| < U32_LIMIT
    requires act.SendMessage? ==> |act.data| < U32_LIMIT
    ensures var r := Output(o, p, act); WireForm(S.On(r.out, r.peer.socket))
  {
    match act
    case SendMessage(_, data, now) => WireAllHasWireForm(Send(o, p.end, data, now).writes);
    case DeliverFrame(_, _) =>
    case ReplaceSocket(_, _) => WireAllHasWireForm(Messages(p.end.unack));
    case KeepAliveTimer(_) => WireAllHasWireForm(KeepAlive(p.end).writes);
    case AckCheckTimer(_, now) => WireAllHasWireForm(AckCheck(o, p.end, now).writes);
  }

  lemma {:induction false} SocketsOnlyGrow(o: Options, p: S.Peer, act: S.Action)
    ensures Output(o, p, act).peer.socket >= p.socket
    ensures act.DeliverFrame? ==> Output(o, p, act) == S.Moved(p, map[], map[])
  {
  }

  lemma {:induction false} MoveCarries(o: Options, p: Peer, q: Peer, out: Wires, incoming: Wires, fout: S.Wires,
                                       fin: S.Wires, act: S.Action)
    requires !act.DeliverFrame? && Carries(out, fout, q) && Carries(incoming, fin, p)
    requires var r := Output(o, p.core, act); WireForm(S.On(r.out, r.peer.socket))
    ensures var m, f := Move(o, p, out, incoming, act), S.Move(o, p.core, fout, fin, act);
            && m.peer.core == f.peer
            && Carries(m.out, f.out, q) && Carries(m.incoming, f.incoming, m.peer)
  {
    hide EncodeAll, S.Move, Ready, Carries, WireForm, Output;
    var m, f, r := Move(o, p, out, incoming, act), S.Move(o, p.core, fout, fin, act), Output(o, p.core, act);
    OutputIsAdded(o, p.core, fout, fin, act);
    SocketsOnlyGrow(o, p.core, act);
    WritingCarries(out, fout, q, r.peer.socket, S.On(r.out, r.peer.socket), f.out);
    MovingOnCarries(incoming, fin, p, m.peer);
  }

  lemma {:induction false} WritingCarries(bytes: Wires, frames: S.Wires, q: Peer, socket: nat, more: seq<Frame>,
                                          frames': S.Wires)
    requires Carries(bytes, frames, q) && WireForm(more)
    requires forall any :: S.On(frames', any) == if any == socket then S.On(frames, any) + more else S.On(frames, any)
    ensures Carries(bytes[socket := On(bytes, socket) + EncodeAll(more)], frames', q)
  {
    hide EncodeAll, Ready;
    EncodeAllConcat(S.On(frames, socket), more);
    var unread := if socket == q.core.socket then q.unread else [];
    assert unread + On(bytes, socket) + EncodeAll(more) == unread + (On(bytes, socket) + EncodeAll(more));
  }

  lemma {:induction false} MovingOnCarries(bytes: Wires, frames: S.Wires, p: Peer, p': Peer)
    requires Carries(bytes, frames, p) && p'.core.socket >= p.core.socket
    requires p'.unread == if p'.core.socket == p.core.socket then p.unread else []
    ensures Carries(bytes, frames, p')
  {
    hide EncodeAll, WireForm;
    NothingIsReady();
  }

  // So many frames are delivered.
  function Delivering(side: S.Side, now: int, n: nat): (acts: seq<S.Action>) {
    seq(n, i => S.DeliverFrame(side, now))
  }

  ghost predicate Starts(side: S.Side, s: S.System, frames: seq<Frame>) {
    frames <= if side == S.A then S.On(s.ba, s.a.socket) else S.On(s.ab, s.b.socket)
  }

  ghost predicate FramesDelivered(o: Options, side: S.Side, now: int, s: S.System, s': S.System, frames: seq<Frame>)
    requires Starts(side, s, frames)
  {
    if side == S.A then
      && s' == S.System(TakeAll(o, s.a, frames, now), s.b, s.ab, s'.ba)
      && S.On(s'.ba, s.a.socket) == S.On(s.ba, s.a.socket)[|frames|..]
      && forall other | other != s.a.socket :: S.On(s'.ba, other) == S.On(s.ba, other)
    else
      && s' == S.System(s.a, TakeAll(o, s.b, frames, now), s'.ab, s.ba)
      && S.On(s'.ab, s.b.socket) == S.On(s.ab, s.b.socket)[|frames|..]
      && forall other | other != s.b.socket :: S.On(s'.ab, other) == S.On(s.ab, other)
  }

  lemma {:induction false} DeliveringMany(o: Options, acts: seq<S.Action>, side: S.Side, now: int, frames: seq<Frame>)
    requires Starts(side, S.Run(o, acts), frames)
    ensures FramesDelivered(o, side, now, S.Run(o, acts), S.Run(o, acts + Delivering(side, now, |frames|)), frames)
    decreases |frames|
  {
    hide FramesDelivered, Starts, S.Step, TakeAll;
    var more := Delivering(side, now, |frames|);
    if frames == [] {
      assert acts + more == acts;
      NothingDelivered(o, S.Run(o, acts), side, now);
    } else {
      var act := S.DeliverFrame(side, now);
      var s, s1 := S.Run(o, acts), S.Run(o, acts + [act]);
      assert (acts + [act])[..|acts|] == acts;
      assert s1 == S.Step(o, s, act);
      FirstDelivered(o, s, side, now, frames);
      DeliveringMany(o, acts + [act], side, now, frames[1..]);
      assert acts + more == acts + [act] + Delivering(side, now, |frames| - 1);
      DeliveredTwice(o, side, now, s, s1, S.Run(o, acts + more), frames);
    }
  }

  lemma {:induction false} NothingDelivered(o: Options, s: S.System, side: S.Side, now: int)
    requires Starts(side, s, [])
    ensures FramesDelivered(o, side, now, s, s, [])
  {
    hide Receive;
  }

  lemma {:induction false} FirstDelivered(o: Options, s: S.System, side: S.Side, now: int, frames: seq<Frame>)
    requires frames != [] && Starts(side, s, frames)
    ensures var s1 := S.Step(o, s, S.DeliverFrame(side, now));
            && Starts(side, s, frames[..1]) && FramesDelivered(o, side, now, s, s1, frames[..1])
            && Starts(side, s1, frames[1..])
  {
    hide Receive;
    var p := if side == S.A then s.a else s.b;
    var wire := if side == S.A then S.On(s.ba, s.a.socket) else S.On(s.ab, s.b.socket);
    assert frames[..1] == [frames[0]] && frames[..1][1..] == [];
    assert wire[0] == frames[0];
    assert TakeAll(o, p, frames[..1], now) == S.Take(o, p, frames[0], now);
  }

  lemma {:induction false} DeliveredTwice(o: Options, side: S.Side, now: int, s: S.System, s1: S.System, s2: S.System,
                                          frames: seq<Frame>)
    requires frames != [] && Starts(side, s, frames)
    requires Starts(side, s, frames[..1]) && FramesDelivered(o, side, now, s, s1, frames[..1])
    requires Starts(side, s1, frames[1..]) && FramesDelivered(o, side, now, s1, s2, frames[1..])
    ensures FramesDelivered(o, side, now, s, s2, frames)
  {
    hide Receive;
    TakenSocket(o, if side == S.A then s.a else s.b, frames[..1], now);
    assert frames[..1][1..] == [];
  }

  lemma {:induction false} TakenSocket(o: Options, p: S.Peer, frames: seq<Frame>, now: int)
    ensures TakeAll(o, p, frames, now).socket == p.socket && TakeAll(o, p, frames, now).sent == p.sent
    decreases |frames|
  {
    hide Receive;
    if frames != [] {
      TakenSocket(o, S.Take(o, p, frames[0], now), frames[1..], now);
    }
  }

  // The endpoint goes through what PersistentProtocol.OnData takes it through, and delivers the
  // same messages.
  lemma {:induction false} ArrivalIsReceipt(o: Options, p: S.Peer, frames: seq<Frame>, now: int)
    ensures var p', r := TakeAll(o, p, frames, now), ReceiveAll(o, p.end, frames, now);
            p'.end == r.state && Delivered(p'.got) == Delivered(p.got) + Told(r.events)
    decreases |frames|
  {
    hide Receive, Delivered, Told, S.Take;
    if frames == [] {
      ToldNothing();
      assert Delivered(p.got) + [] == Delivered(p.got);
    } else {
      var p1, first := S.Take(o, p, frames[0], now), Receive(o, p.end, frames[0], now);
      TakenIsTold(o, p, frames[0], now);
      ArrivalIsReceipt(o, p1, frames[1..], now);
      var others := ReceiveAll(o, first.state, frames[1..], now);
      ToldConcat(first.events, others.events);
      Associates(Delivered(p.got), Told(first.events), Told(others.events));
    }
  }

  lemma {:induction false} ToldNothing()
    ensures Told([]) == []
  {
  }

  lemma {:induction false} Associates(a: seq<seq<byte>>, b: seq<seq<byte>>, c: seq<seq<byte>>)
    ensures a + b + c == a + (b + c)
  {
  }

  function Delivered(got: seq<S.Delivery>): (messages: seq<seq<byte>>) {
    if got == [] then [] else Delivered(got[..|got| - 1]) + [got[|got| - 1].data]
  }

  // The messages among the events.
  function Told(events: seq<Event>): (messages: seq<seq<byte>>) {
    if events == [] then [] else (if events[0].Message? then [events[0].data] else []) + Told(events[1..])
  }

  lemma {:induction false} ToldConcat(a: seq<Event>, b: seq<Event>)
    ensures Told(a + b) == Told(a) + Told(b)
  {
    if a == [] {
      assert a + b == b;
    } else {
      assert (a + b)[1..] == a[1..] + b;
      ToldConcat(a[1..], b);
    }
  }

  lemma {:induction false} TakenIsTold(o: Options, p: S.Peer, f: Frame, now: int)
    ensures S.Take(o, p, f, now).end == Receive(o, p.end, f, now).state
    ensures Delivered(S.Take(o, p, f, now).got) == Delivered(p.got) + Told(Receive(o, p.end, f, now).events)
  {
    var drained := ProcessAck(o, p.end, f.ack).events;
    ToldConcat(drained, if f.kind == REGULAR then [Message(f.data)] else if f.kind == DISCONNECT then [Closed] else []);
    var d := S.Delivery(f.id, f.data, p.socket);
    assert (p.got + [d])[..|p.got|] == p.got;
  }

  // ---------------------------------------------------------------------------------------
  // Every run
  // ---------------------------------------------------------------------------------------

  // The same endpoints, and bytes that stand for the frames.
  ghost predicate Refines(s: System, f: S.System) {
    && s.a.core == f.a && s.b.core == f.b
    && Carries(s.ab, f.ab, s.b) && Carries(s.ba, f.ba, s.a)
  }

  ghost predicate FitsTheWire(p: S.Peer) {
    |p.sent| < U32_LIMIT && forall data <- p.sent :: |data| < U32_LIMIT
  }

  lemma {:induction false} SentGrows(o: Options, s: System, action: Action)
    ensures var s' := Step(o, s, action); s.a.core.sent <= s'.a.core.sent && s.b.core.sent <= s'.b.core.sent
    ensures var s' := Step(o, s, action);
            action.Act? && action.act.SendMessage? ==>
              action.act.data in if SideOf(action) == S.A then s'.a.core.sent else s'.b.core.sent
  {
    var p := if SideOf(action) == S.A then s.a else s.b;
    var incoming := if SideOf(action) == S.A then s.ba else s.ab;
    if action.Arrive? {
      var wire := On(incoming, p.core.socket);
      var n := if action.count < |wire| then action.count else |wire|;
      TakenSocket(o, p.core, ScanFrames(p.unread + wire[..n]).frames, action.now);
    } else if action.act.SendMessage? {
      assert (p.core.sent + [action.act.data])[|p.core.sent|] == action.act.data;
    }
  }

  lemma {:induction false} FittingBefore(p: S.Peer, p': S.Peer)
    requires p.sent <= p'.sent && FitsTheWire(p')
    ensures FitsTheWire(p)
  {
    forall data <- p.sent ensures |data| < U32_LIMIT {
      assert data in p'.sent;
    }
  }

  // The frames behind a run of bytes.
  lemma {:induction false} EveryRunRefines(o: Options, actions: seq<Action>) returns (acts: seq<S.Action>)
    requires FitsTheWire(Run(o, actions).a.core) && FitsTheWire(Run(o, actions).b.core)
    ensures Refines(Run(o, actions), S.Run(o, acts))
  {
    if actions == [] {
      acts := [];
      NothingIsReady();
    } else {
      var n := |actions| - 1;
      var s, action := Run(o, actions[..n]), actions[n];
      SentGrows(o, s, action);
      FittingBefore(s.a.core, Run(o, actions).a.core);
      FittingBefore(s.b.core, Run(o, actions).b.core);
      var before := EveryRunRefines(o, actions[..n]);
      S.EveryRunKeeps(o, before);
      if action.Act? {
        acts := ActRefines(o, s, before, action.act);
      } else {
        acts := ArrivalRefines(o, s, before, action.side, action.count, action.now);
      }
    }
  }

  lemma {:induction false} ActRefines(o: Options, s: System, before: seq<S.Action>, act: S.Action)
    returns (acts: seq<S.Action>)
    requires Refines(s, S.Run(o, before)) && S.Invariant(S.Run(o, before))
    requires FitsTheWire(s.a.core) && FitsTheWire(s.b.core)
    requires act.SendMessage? ==> |act.data| < U32_LIMIT
    ensures Refines(Step(o, s, Act(act)), S.Run(o, acts))
  {
    var f := S.Run(o, before);
    if act.DeliverFrame? {
      acts := before;
      IdleRefines(o, s, f, act);
    } else {
      acts := before + [act];
      assert acts[..|before|] == before;
      if act.side == S.A {
        OutputHasWireForm(o, s.a.core, act);
        MoveCarries(o, s.a, s.b, s.ab, s.ba, f.ab, f.ba, act);
      } else {
        OutputHasWireForm(o, s.b.core, act);
        MoveCarries(o, s.b, s.a, s.ba, s.ab, f.ba, f.ab, act);
      }
    }
  }

  // Frames do not arrive as such.
  lemma {:induction false} IdleRefines(o: Options, s: System, f: S.System, act: S.Action)
    requires Refines(s, f) && act.DeliverFrame?
    ensures Refines(Step(o, s, Act(act)), f)
  {
    hide Carries, Move;
    if act.side == S.A {
      IdleMove(o, s.a, s.ab, s.ba, act);
      SameBytesCarry(s.ab, Step(o, s, Act(act)).ab, f.ab, s.b);
    } else {
      IdleMove(o, s.b, s.ba, s.ab, act);
      SameBytesCarry(s.ba, Step(o, s, Act(act)).ba, f.ba, s.a);
    }
  }

  lemma {:induction false} IdleMove(o: Options, p: Peer, out: Wires, incoming: Wires, act: S.Action)
    requires act.DeliverFrame?
    ensures var m := Move(o, p, out, incoming, act);
            m.peer == p && m.incoming == incoming && forall socket :: On(m.out, socket) == On(out, socket)
  {
    hide Output;
    EncodeNothing();
    SocketsOnlyGrow(o, p.core, act);
  }

  lemma {:induction false} SameBytesCarry(bytes: Wires, bytes': Wires, frames: S.Wires, reader: Peer)
    requires Carries(bytes, frames, reader) && forall socket :: On(bytes', socket) == On(bytes, socket)
    ensures Carries(bytes', frames, reader)
  {
    hide Ready, EncodeAll, WireForm, On;
  }

  lemma {:induction false} EncodeNothing()
    ensures EncodeAll([]) == []
  {
  }

  lemma {:induction false} ArrivalRefines(o: Options, s: System, before: seq<S.Action>, side: S.Side, count: nat,
                                          now: int)
    returns (acts: seq<S.Action>)
    requires Refines(s, S.Run(o, before))
    ensures Refines(Step(o, s, Arrive(side, count, now)), S.Run(o, acts))
  {
    hide S.Run, ScanFrames, Carries, TakeAll, FramesDelivered, Starts;
    var f := S.Run(o, before);
    var p := if side == S.A then s.a else s.b;
    var m := Arrival(o, p, if side == S.A then s.ab else s.ba, if side == S.A then s.ba else s.ab, count, now);
    var frames := ArrivedFrames(p, if side == S.A then s.ba else s.ab, if side == S.A then f.ba else f.ab, count);
    assert Starts(side, f, frames) by { StartsThere(f, side, frames); }
    acts := before + Delivering(side, now, |frames|);
    DeliveringMany(o, before, side, now, frames);
    DeliveredWires(o, side, now, f, S.Run(o, acts), frames);
    ArrivalCarries(o, p, if side == S.A then s.ab else s.ba, if side == S.A then s.ba else s.ab,
                   if side == S.A then f.ba else f.ab,
                   if side == S.A then S.Run(o, acts).ba else S.Run(o, acts).ab,
                   count, now);
  }

  lemma {:induction false} StartsThere(f: S.System, side: S.Side, frames: seq<Frame>)
    requires frames <= if side == S.A then S.On(f.ba, f.a.socket) else S.On(f.ab, f.b.socket)
    ensures Starts(side, f, frames)
  {
  }

  lemma {:induction false} DeliveredWires(o: Options, side: S.Side, now: int, f: S.System, f': S.System,
                                          frames: seq<Frame>)
    requires Starts(side, f, frames) && FramesDelivered(o, side, now, f, f', frames)
    ensures side == S.A ==>
              && f' == S.System(TakeAll(o, f.a, frames, now), f.b, f.ab, f'.ba)
              && Shortened(f.ba, f'.ba, f.a.socket, |frames|)
    ensures side == S.B ==>
              && f' == S.System(f.a, TakeAll(o, f.b, frames, now), f'.ab, f.ba)
              && Shortened(f.ab, f'.ab, f.b.socket, |frames|)
  {
    hide TakeAll;
  }

  ghost predicate Shortened(frames: S.Wires, frames': S.Wires, socket: nat, k: nat) {
    && k <= |S.On(frames, socket)|
    && S.On(frames', socket) == S.On(frames, socket)[k..]
    && forall other | other != socket :: S.On(frames', other) == S.On(frames, other)
  }

  function Arrived(p: Peer, incoming: Wires, count: nat): (bytes: seq<byte>) {
    var wire := On(incoming, p.core.socket);
    p.unread + wire[..if count < |wire| then count else |wire|]
  }

  lemma {:induction false} ArrivedFrames(p: Peer, incoming: Wires, frames: S.Wires, count: nat)
    returns (arrived: seq<Frame>)
    requires Carries(incoming, frames, p)
    ensures arrived == ScanFrames(Arrived(p, incoming, count)).frames && arrived <= S.On(frames, p.core.socket)
    ensures var wire := On(incoming, p.core.socket);
            var n := if count < |wire| then count else |wire|;
            var rest := ScanFrames(Arrived(p, incoming, count)).rest;
            !Ready(rest) && EncodeAll(S.On(frames, p.core.socket)[|arrived|..]) == rest + wire[n..]
  {
    hide ScanFrames, EncodeAll, Ready, WireForm;
    var wire := On(incoming, p.core.socket);
    var n := if count < |wire| then count else |wire|;
    arrived := ScanFrames(Arrived(p, incoming, count)).frames;
    assert wire == wire[..n] + wire[n..];
    assert p.unread + wire == p.unread + wire[..n] + wire[n..];
    ReadingSome(S.On(frames, p.core.socket), Arrived(p, incoming, count), wire[n..]);
  }

  lemma {:induction false} ArrivalCarries(o: Options, p: Peer, out: Wires, incoming: Wires, fin: S.Wires,
                                          fin': S.Wires, count: nat, now: int)
    requires Carries(incoming, fin, p)
    requires var frames := ScanFrames(Arrived(p, incoming, count)).frames; Shortened(fin, fin', p.core.socket, |frames|)
    ensures var m := Arrival(o, p, out, incoming, count, now);
            var frames := ScanFrames(Arrived(p, incoming, count)).frames;
            m.peer.core == TakeAll(o, p.core, frames, now) && m.out == out && Carries(m.incoming, fin', m.peer)
  {
    hide ScanFrames, EncodeAll, Ready, WireForm, TakeAll, Carries;
    var wire := On(incoming, p.core.socket);
    var n := if count < |wire| then count else |wire|;
    var frames := ArrivedFrames(p, incoming, fin, count);
    TakenSocket(o, p.core, frames, now);
    RestCarries(incoming, fin, p, fin', Arrival(o, p, out, incoming, count, now).peer, n, |frames|);
  }

  lemma {:induction false} RestCarries(bytes: Wires, frames: S.Wires, p: Peer, frames': S.Wires, p': Peer, n: nat,
                                       k: nat)
    requires Carries(bytes, frames, p) && p'.core.socket == p.core.socket && !Ready(p'.unread)
    requires n <= |On(bytes, p.core.socket)| && k <= |S.On(frames, p.core.socket)|
    requires S.On(frames', p.core.socket) == S.On(frames, p.core.socket)[k..]
    requires forall other | other != p.core.socket :: S.On(frames', other) == S.On(frames, other)
    requires EncodeAll(S.On(frames, p.core.socket)[k..]) == p'.unread + On(bytes, p.core.socket)[n..]
    ensures Carries(bytes[p.core.socket := On(bytes, p.core.socket)[n..]], frames', p')
  {
    hide EncodeAll, Ready;
    assert WireForm(S.On(frames, p.core.socket));
  }

  // ---------------------------------------------------------------------------------------
  // What arrives, whatever is cut or lost
  // ---------------------------------------------------------------------------------------

  // What the reader may still read on a socket: unused bytes, then those on the way.
  function Ahead(reader: Peer, wires: Wires, socket: nat): (bytes: seq<byte>) {
    (if socket == reader.core.socket then reader.unread else []) + On(wires, socket)
  }

  // From sender s to reader r; acknowledgements come back.
  ghost predicate Reliable(s: Peer, r: Peer, wires: Wires, back: Wires) {
    // the deliveries, repetitions set aside, are a prefix of what was sent;
    && S.Firsts(r.core.got) <= s.core.sent
    // every message was delivered or is still queued under its number;
    && (forall i | 0 <= i < |s.core.sent| ::
          i < |S.Firsts(r.core.got)| || S.QueuedUnder(s.core.end.unack, i + 1, s.core.sent[i]))
    // the bytes ahead of the sender are whole frames, and none acknowledges more than was received.
    && (forall socket: nat | socket >= s.core.socket ::
          var scan := ScanFrames(Ahead(s, back, socket));
          scan.rest == [] && S.AcksUpTo(scan.frames, |S.Firsts(r.core.got)|))
    // once every byte on the sender's socket has arrived, nothing is missing.
    && (r.core.socket == s.core.socket && On(wires, s.core.socket) == [] ==> S.Firsts(r.core.got) == s.core.sent)
  }

  // However the bytes are cut, and whatever bytes are lost with the sockets that are replaced.
  lemma {:induction false} NothingIsLostOrReordered(o: Options, actions: seq<Action>)
    requires FitsTheWire(Run(o, actions).a.core) && FitsTheWire(Run(o, actions).b.core)
    ensures var s := Run(o, actions);
            Reliable(s.a, s.b, s.ab, s.ba) && Reliable(s.b, s.a, s.ba, s.ab)
  {
    var s := Run(o, actions);
    var acts := EveryRunRefines(o, actions);
    var f := S.Run(o, acts);
    S.NothingIsLostOrReordered(o, acts);
    DirectionIsReliable(s.a, s.b, s.ab, s.ba, f.ab, f.ba);
    DirectionIsReliable(s.b, s.a, s.ba, s.ab, f.ba, f.ab);
  }

  // Nor does cutting the bytes deliver a message twice from one socket.
  lemma {:induction false} RepetitionsNeedAnotherSocket(o: Options, actions: seq<Action>)
    requires FitsTheWire(Run(o, actions).a.core) && FitsTheWire(Run(o, actions).b.core)
    ensures var s := Run(o, actions);
            && SocketOrder.ReadInOrder(s.a.core.got) && SocketOrder.RepeatedElsewhere(s.a.core.got)
            && SocketOrder.ReadInOrder(s.b.core.got) && SocketOrder.RepeatedElsewhere(s.b.core.got)
  {
    var acts := EveryRunRefines(o, actions);
    SocketOrder.RepetitionsNeedAnotherSocket(o, acts);
  }

  lemma {:induction false} DirectionIsReliable(s: Peer, r: Peer, wires: Wires, back: Wires, fwires: S.Wires,
                                               fback: S.Wires)
    requires S.Reliable(s.core, r.core, fwires, fback) && Carries(wires, fwires, r) && Carries(back, fback, s)
    ensures Reliable(s, r, wires, back)
  {
    hide S.Firsts, ScanFrames, S.AcksUpTo, S.QueuedUnder, S.Regulars, Carries;
    EmptyWires(wires, fwires, s, r);
    forall socket: nat | socket >= s.core.socket
      ensures var scan := ScanFrames(Ahead(s, back, socket));
              scan.rest == [] && S.AcksUpTo(scan.frames, |S.Firsts(r.core.got)|)
    {
      FramesAhead(back, fback, s, socket);
      assert S.AcksUpTo(S.On(fback, socket), |S.Firsts(r.core.got)|);
    }
  }

  lemma {:induction false} FramesAhead(bytes: Wires, frames: S.Wires, reader: Peer, socket: nat)
    requires Carries(bytes, frames, reader) && socket >= reader.core.socket
    ensures ScanFrames(Ahead(reader, bytes, socket)) == Scan(S.On(frames, socket), [])
  {
    hide ScanFrames, Ready;
    var fs := S.On(frames, socket);
    WireFormIsWired(fs);
    AllAreSendable(fs);
    NothingIsReady();
    ScanOfEncoded(fs, []);
    assert EncodeAll(fs) + [] == EncodeAll(fs);
  }

  // The bytes of an unfinished frame are never all there is.
  lemma {:induction false} EmptyWires(bytes: Wires, frames: S.Wires, s: Peer, r: Peer)
    requires Carries(bytes, frames, r)
    ensures r.core.socket == s.core.socket && On(bytes, s.core.socket) == [] ==>
              S.Regulars(S.On(frames, s.core.socket)) == 0
  {
    if r.core.socket == s.core.socket && On(bytes, s.core.socket) == [] {
      NothingUnderWay(bytes, frames, s, r);
    }
  }

  lemma {:induction false} NothingUnderWay(bytes: Wires, frames: S.Wires, s: Peer, r: Peer)
    requires Carries(bytes, frames, r) && r.core.socket == s.core.socket && On(bytes, s.core.socket) == []
    ensures S.On(frames, s.core.socket) == []
  {
    var fs := S.On(frames, s.core.socket);
    assert r.unread + [] == r.unread;
    if fs != [] {
      assert fs[0] in fs;
      HeadOfEncoded(fs[0], EncodeAll(fs[1..]));
    }
  }
}
