// Two endpoints joined by sockets that are replaced at any time.

module ReliableSession {
  // Sockets are numbered. What an endpoint writes goes to its current socket; what it reads comes
  // from the same socket of the other side. An endpoint that moves on never reads the old socket
  // again, so whatever was still under way there is lost: any suffix of what was written, on
  // either side, and the two sides need not move at the same time.

  import opened Buffers
  import opened Framing
  import opened Reliability
  import FlowControl

  // A delivered message, and the socket it was read from.
  datatype Delivery = Delivery(id: nat, data: seq<byte>, socket: nat)

  // An endpoint, its current socket, what it was asked to send, and what it delivered.
  datatype Peer = Peer(end: Endpoint, socket: nat, sent: seq<seq<byte>>, got: seq<Delivery>)

  // Frames written to each socket and not read yet.
  type Wires = map<nat, seq<Frame>>

  datatype System = System(a: Peer, b: Peer, ab: Wires, ba: Wires)

  datatype Side = A | B

  datatype Action =
    | SendMessage(side: Side, data: seq<byte>, now: int)
    | DeliverFrame(side: Side, now: int)
    | ReplaceSocket(side: Side, socket: nat)
    | KeepAliveTimer(side: Side)
    | AckCheckTimer(side: Side, now: int)

  // ---------------------------------------------------------------------------------------
  // Steps
  // ---------------------------------------------------------------------------------------

  function On(wires: Wires, socket: nat): (frames: seq<Frame>) {
    if socket in wires then wires[socket] else []
  }

  function Written(wires: Wires, socket: nat, frames: seq<Frame>): (wires': Wires) {
    wires[socket := On(wires, socket) + WireAll(frames)]
  }

  // What one side's step does: its new state, its new outgoing and incoming wires.
  datatype Moved = Moved(peer: Peer, out: Wires, incoming: Wires)

  function Put(p: Peer, out: Wires, incoming: Wires, r: Effect): (m: Moved) {
    Moved(p.(end := r.state), Written(out, p.socket, r.writes), incoming)
  }

  // A frame arrives.
  function Take(o: Options, p: Peer, f: Frame, now: int): (p': Peer) {
    p.(end := Receive(o, p.end, f, now).state,
       got := if f.kind == REGULAR then p.got + [Delivery(f.id, f.data, p.socket)] else p.got)
  }

  function Move(o: Options, p: Peer, out: Wires, incoming: Wires, act: Action): (m: Moved) {
    match act
    case SendMessage(_, data, now) =>
      var m := Put(p, out, incoming, Send(o, p.end, data, now));
      m.(peer := m.peer.(sent := p.sent + [data]))
    case DeliverFrame(_, now) =>
      var frames := On(incoming, p.socket);
      if frames == [] then Moved(p, out, incoming)
      else Moved(Take(o, p, frames[0], now), out, incoming[p.socket := frames[1..]])
    case ReplaceSocket(_, socket) =>
      if socket <= p.socket then Moved(p, out, incoming) else
      Put(p.(socket := socket), out, incoming, Replace(p.end))
    case KeepAliveTimer(_) =>
      Put(p, out, incoming, KeepAlive(p.end))
    case AckCheckTimer(_, now) =>
      Put(p, out, incoming, AckCheck(o, p.end, now))
  }

  function Step(o: Options, s: System, act: Action): (s': System) {
    if act.side == A then
      var m := Move(o, s.a, s.ab, s.ba, act);
      System(m.peer, s.b, m.out, m.incoming)
    else
      var m := Move(o, s.b, s.ba, s.ab, act);
      System(s.a, m.peer, m.incoming, m.out)
  }

  function Fresh(): (p: Peer) {
    Peer(Initial(0), 0, [], [])
  }

  function Run(o: Options, acts: seq<Action>): (s: System) {
    if acts == [] then System(Fresh(), Fresh(), map[], map[])
    else Step(o, Run(o, acts[..|acts| - 1]), acts[|acts| - 1])
  }

  // Message numbers stay below 2^32.
  ghost predicate FitsTheWire(o: Options, acts: seq<Action>) {
    && |Run(o, acts).a.sent| < U32_LIMIT
    && |Run(o, acts).b.sent| < U32_LIMIT
  }

  // ---------------------------------------------------------------------------------------
  // The invariant, one direction at a time
  // ---------------------------------------------------------------------------------------

  predicate Seen(got: seq<Delivery>, id: nat) {
    exists d <- got :: d.id == id
  }

  // The deliveries that are not repetitions, in order.
  function Firsts(got: seq<Delivery>): (firsts: seq<seq<byte>>)
    ensures |firsts| <= |got|
  {
    if got == [] then [] else
    var before, last := got[..|got| - 1], got[|got| - 1];
    if Seen(before, last.id) then Firsts(before) else Firsts(before) + [last.data]
  }

  // Regular frames carry consecutive numbers from `from` on, each with the payload of that number.
  ghost predicate Consecutive(frames: seq<Frame>, from: nat, sent: seq<seq<byte>>) {
    frames == [] ||
    if frames[0].kind == REGULAR then
      && frames[0].id == from && 1 <= from <= |sent| && frames[0].data == sent[from - 1]
      && Consecutive(frames[1..], from + 1, sent)
    else
      Consecutive(frames[1..], from, sent)
  }

  ghost function Regulars(frames: seq<Frame>): (n: nat) {
    if frames == [] then 0 else (if frames[0].kind == REGULAR then 1 else 0) + Regulars(frames[1..])
  }

  // The frames on a socket continue what was received without a gap (they may repeat some of
  // it), and on the sender's current socket they reach up to its latest message.
  ghost predicate Gapless(frames: seq<Frame>, received: nat, sent: seq<seq<byte>>, current: bool) {
    exists from: nat :: GaplessFrom(frames, from, received, sent, current)
  }

  ghost predicate GaplessFrom(frames: seq<Frame>, from: nat, received: nat, sent: seq<seq<byte>>, current: bool) {
    && 1 <= from <= received + 1
    && Consecutive(frames, from, sent)
    && (current ==> from + Regulars(frames) == |sent| + 1)
  }

  // The queue holds the latest messages, each under its number, up to the last one sent.
  ghost predicate QueueOk(s: Peer) {
    && |s.sent| < U32_LIMIT
    && s.end.outgoingMsgId == |s.sent|
    && |s.end.unack| <= |s.sent|
    && forall i | 0 <= i < |s.end.unack| ::
         var id := |s.sent| - |s.end.unack| + i + 1;
         var msg := s.end.unack[i].msg;
         msg.kind == REGULAR && msg.id == id && msg.data == s.sent[id - 1]
  }

  // The deliveries, repetitions set aside, are a prefix of what was sent.
  ghost predicate DeliveredOk(s: Peer, r: Peer) {
    && Firsts(r.got) <= s.sent
    && forall d <- r.got :: 1 <= d.id <= |Firsts(r.got)|
  }

  ghost predicate Every(got: seq<Delivery>) {
    forall id | 1 <= id <= |Firsts(got)| :: Seen(got, id)
  }

  // Nothing acknowledges more than `received`.
  ghost predicate AcksUpTo(frames: seq<Frame>, received: nat) {
    forall f <- frames :: f.ack <= received
  }

  ghost predicate AcksOk(r: Peer, back: Wires) {
    var received := |Firsts(r.got)|;
    && r.end.incomingAckId <= received
    && (forall entry <- r.end.unack :: entry.msg.ack <= received)
    && (forall socket :: AcksUpTo(On(back, socket), received))
  }

  ghost predicate WiresOk(s: Peer, r: Peer, wires: Wires) {
    && (forall socket <- wires :: socket <= s.socket)
    && (forall socket | 0 <= socket <= s.socket ::
          Gapless(On(wires, socket), |Firsts(r.got)|, s.sent, socket == s.socket))
  }

  // From sender s to receiver r.
  ghost predicate DirectionOk(s: Peer, r: Peer, wires: Wires, back: Wires) {
    && QueueOk(s)
    && DeliveredOk(s, r)
    && Every(r.got)
    && |s.sent| - |s.end.unack| <= |Firsts(r.got)|
    && WiresOk(s, r, wires)
    && AcksOk(r, back)
  }

  ghost predicate Invariant(s: System) {
    && DirectionOk(s.a, s.b, s.ab, s.ba)
    && DirectionOk(s.b, s.a, s.ba, s.ab)
  }

  // ---------------------------------------------------------------------------------------
  // Facts about frame lists
  // ---------------------------------------------------------------------------------------

  lemma {:induction false} ConsecutiveAppend(a: seq<Frame>, b: seq<Frame>, from: nat, sent: seq<seq<byte>>)
    requires Consecutive(a, from, sent)
    requires Consecutive(b, from + Regulars(a), sent)
    ensures Consecutive(a + b, from, sent)
    ensures Regulars(a + b) == Regulars(a) + Regulars(b)
  {
    if a == [] {
      assert a + b == b;
    } else {
      assert (a + b)[1..] == a[1..] + b;
      ConsecutiveAppend(a[1..], b, if a[0].kind == REGULAR then from + 1 else from, sent);
    }
  }

  lemma {:induction false} ConsecutiveGrows(frames: seq<Frame>, from: nat, sent: seq<seq<byte>>, sent': seq<seq<byte>>)
    requires Consecutive(frames, from, sent)
    requires sent <= sent'
    ensures Consecutive(frames, from, sent')
  {
    if frames != [] {
      ConsecutiveGrows(frames[1..], if frames[0].kind == REGULAR then from + 1 else from, sent, sent');
    }
  }

  lemma {:induction false} WireKeepsSmallFrames(frames: seq<Frame>)
    requires forall f <- frames :: f.id < U32_LIMIT && f.ack < U32_LIMIT
    ensures WireAll(frames) == frames
  {
    if frames != [] {
      WireKeepsSmallFrames(frames[1..]);
    }
  }

  lemma {:induction false} OthersAreConsecutive(frames: seq<Frame>, from: nat, sent: seq<seq<byte>>)
    requires forall f <- frames :: f.kind != REGULAR
    ensures Consecutive(frames, from, sent) && Regulars(frames) == 0
  {
    if frames != [] {
      OthersAreConsecutive(frames[1..], from, sent);
    }
  }

  // A replay starts right after the last acknowledged message and reaches the last one sent.
  lemma {:induction false} ReplayIsConsecutive(unack: seq<Entry>, from: nat, sent: seq<seq<byte>>)
    requires 1 <= from && from + |unack| == |sent| + 1
    requires forall i | 0 <= i < |unack| ::
               unack[i].msg.kind == REGULAR && unack[i].msg.id == from + i && unack[i].msg.data == sent[from + i - 1]
    ensures Consecutive(Messages(unack), from, sent)
    ensures Regulars(Messages(unack)) == |unack|
  {
    if unack != [] {
      forall i | 0 <= i < |unack| - 1 ensures
        && unack[1..][i].msg.kind == REGULAR && unack[1..][i].msg.id == from + 1 + i
        && unack[1..][i].msg.data == sent[from + 1 + i - 1]
      {
        assert unack[1..][i] == unack[i + 1];
      }
      ReplayIsConsecutive(unack[1..], from + 1, sent);
      assert Messages(unack)[1..] == Messages(unack[1..]);
    }
  }

  lemma {:induction false} GaplessGrows(frames: seq<Frame>, received: nat, received': nat, sent: seq<seq<byte>>,
                                        sent': seq<seq<byte>>)
    requires Gapless(frames, received, sent, false)
    requires received <= received' && sent <= sent'
    ensures Gapless(frames, received', sent', false)
  {
    var from: nat :| GaplessFrom(frames, from, received, sent, false);
    ConsecutiveGrows(frames, from, sent, sent');
    assert GaplessFrom(frames, from, received', sent', false);
  }

  lemma {:induction false} GaplessLater(frames: seq<Frame>, received: nat, received': nat, sent: seq<seq<byte>>,
                                        current: bool)
    requires Gapless(frames, received, sent, current)
    requires received <= received'
    ensures Gapless(frames, received', sent, current)
  {
    var from: nat :| GaplessFrom(frames, from, received, sent, current);
    assert GaplessFrom(frames, from, received', sent, current);
  }

  lemma {:induction false} NothingIsGapless(received: nat, sent: seq<seq<byte>>)
    ensures Gapless([], received, sent, false)
  {
    assert GaplessFrom([], 1, received, sent, false);
  }

  // ---------------------------------------------------------------------------------------
  // Every step keeps the invariant
  // ---------------------------------------------------------------------------------------

  ghost predicate BothWays(p: Peer, q: Peer, out: Wires, incoming: Wires) {
    DirectionOk(p, q, out, incoming) && DirectionOk(q, p, incoming, out)
  }

  // Frames that are no messages, and say no more than what was received.
  ghost predicate Bare(frames: seq<Frame>, ack: nat) {
    forall f <- frames :: f.kind != REGULAR && f.id == 0 && f.ack == ack
  }

  lemma {:induction false} WrittenOn(wires: Wires, socket: nat, frames: seq<Frame>)
    requires forall f <- frames :: f.id < U32_LIMIT && f.ack < U32_LIMIT
    ensures var wires' := Written(wires, socket, frames);
            && On(wires', socket) == On(wires, socket) + frames
            && (forall other | other != socket :: On(wires', other) == On(wires, other))
            && wires'.Keys == wires.Keys + {socket}
  {
    WireKeepsSmallFrames(frames);
  }

  lemma {:induction false} WrittenAcks(p: Peer, out: Wires, frames: seq<Frame>, socket: nat)
    requires AcksOk(p, out)
    requires forall f <- frames :: f.id < U32_LIMIT && f.ack < U32_LIMIT && f.ack <= |Firsts(p.got)|
    ensures forall any :: AcksUpTo(On(Written(out, socket, frames), any), |Firsts(p.got)|)
  {
    WrittenOn(out, socket, frames);
  }

  lemma {:induction false} BareFramesKeep(p: Peer, q: Peer, out: Wires, incoming: Wires, r: Effect)
    requires BothWays(p, q, out, incoming)
    requires r.state.outgoingMsgId == p.end.outgoingMsgId && r.state.unack == p.end.unack
    requires r.state.incomingAckId == p.end.incomingAckId
    requires Bare(r.writes, p.end.incomingAckId)
    ensures var m := Put(p, out, incoming, r);
            BothWays(m.peer, q, m.out, m.incoming)
  {
    var m := Put(p, out, incoming, r);
    WrittenOn(out, p.socket, r.writes);
    WrittenAcks(p, out, r.writes, p.socket);
    BareFramesStayGapless(On(out, p.socket), r.writes, |Firsts(q.got)|, p.sent);
    assert WiresOk(m.peer, q, m.out);
  }

  lemma {:induction false} BareFramesStayGapless(frames: seq<Frame>, more: seq<Frame>, received: nat,
                                                 sent: seq<seq<byte>>)
    requires Gapless(frames, received, sent, true)
    requires forall f <- more :: f.kind != REGULAR
    ensures Gapless(frames + more, received, sent, true)
  {
    var from: nat :| GaplessFrom(frames, from, received, sent, true);
    OthersAreConsecutive(more, from + Regulars(frames), sent);
    ConsecutiveAppend(frames, more, from, sent);
    assert GaplessFrom(frames + more, from, received, sent, true);
  }

  // The message is appended under the next number, before anything else is written.
  lemma {:induction false} SendKeeps(o: Options, p: Peer, q: Peer, out: Wires, incoming: Wires, data: seq<byte>,
                                     now: int)
    requires BothWays(p, q, out, incoming)
    requires |p.sent| + 1 < U32_LIMIT
    ensures var m := Move(o, p, out, incoming, SendMessage(A, data, now));
            BothWays(m.peer, q, m.out, m.incoming)
  {
    hide Firsts, GaplessFrom, WireAll, Every;
    var queued := Queued(p.end, data, now);
    var msg := queued.unack[|p.end.unack|].msg;
    var p1 := p.(end := queued, sent := p.sent + [data]);
    var out1 := Written(out, p.socket, [msg]);
    MessageKeeps(p, q, out, incoming, data, now);
    var r := Send(o, p.end, data, now);
    var rest := Effect(r.state, r.writes[1..], r.events);
    assert r.writes == [msg] + rest.writes;
    BareFramesKeep(p1, q, out1, incoming, rest);
    WrittenTwice(out, p.socket, [msg], rest.writes);
  }

  lemma {:induction false} WrittenTwice(wires: Wires, socket: nat, a: seq<Frame>, b: seq<Frame>)
    ensures Written(Written(wires, socket, a), socket, b) == Written(wires, socket, a + b)
  {
    hide WireAll;
    WireAllConcat(a, b);
    assert On(wires, socket) + (WireAll(a) + WireAll(b)) == On(wires, socket) + WireAll(a) + WireAll(b);
  }

  lemma {:induction false} WireAllConcat(a: seq<Frame>, b: seq<Frame>)
    ensures WireAll(a + b) == WireAll(a) + WireAll(b)
  {
    if a == [] {
      assert a + b == b;
    } else {
      assert (a + b)[1..] == a[1..] + b;
      WireAllConcat(a[1..], b);
    }
  }

  lemma {:induction false} MessageKeeps(p: Peer, q: Peer, out: Wires, incoming: Wires, data: seq<byte>, now: int)
    requires BothWays(p, q, out, incoming)
    requires |p.sent| + 1 < U32_LIMIT
    ensures var queued := Queued(p.end, data, now);
            var p1 := p.(end := queued, sent := p.sent + [data]);
            BothWays(p1, q, Written(out, p.socket, [queued.unack[|p.end.unack|].msg]), incoming)
  {
    var queued := Queued(p.end, data, now);
    var msg := queued.unack[|p.end.unack|].msg;
    var p1 := p.(end := queued, sent := p.sent + [data]);
    var out1 := Written(out, p.socket, [msg]);
    WrittenOn(out, p.socket, [msg]);
    WrittenAcks(p, out, [msg], p.socket);
    forall socket | 0 <= socket <= p.socket
      ensures Gapless(On(out1, socket), |Firsts(q.got)|, p1.sent, socket == p.socket)
    {
      assert Gapless(On(out, socket), |Firsts(q.got)|, p.sent, socket == p.socket);
      if socket == p.socket {
        MessageStaysGapless(On(out, socket), msg, |Firsts(q.got)|, p.sent, data);
      } else {
        GaplessGrows(On(out, socket), |Firsts(q.got)|, |Firsts(q.got)|, p.sent, p1.sent);
      }
    }
    assert QueueOk(p1);
    assert AcksOk(p1, out1);
  }

  lemma {:induction false} MessageStaysGapless(frames: seq<Frame>, msg: Frame, received: nat, sent: seq<seq<byte>>,
                                               data: seq<byte>)
    requires Gapless(frames, received, sent, true)
    requires msg.kind == REGULAR && msg.id == |sent| + 1 && msg.data == data
    ensures Gapless(frames + [msg], received, sent + [data], true)
  {
    var from: nat :| GaplessFrom(frames, from, received, sent, true);
    ConsecutiveGrows(frames, from, sent, sent + [data]);
    assert [msg][1..] == [];
    ConsecutiveAppend(frames, [msg], from, sent + [data]);
    assert GaplessFrom(frames + [msg], from, received, sent + [data], true);
  }

  lemma {:induction false} ReplaceKeeps(p: Peer, q: Peer, out: Wires, incoming: Wires, socket: nat)
    requires BothWays(p, q, out, incoming)
    requires p.socket < socket
    ensures var m := Put(p.(socket := socket), out, incoming, Replace(p.end));
            BothWays(m.peer, q, m.out, m.incoming)
  {
    var p1 := p.(socket := socket);
    var out1 := Written(out, socket, Messages(p.end.unack));
    hide Firsts, Gapless, WireAll, Every;
    ReplayKeepsWires(p, q, out, incoming, socket);
    WrittenAcks(p, out, Messages(p.end.unack), socket);
    assert AcksOk(p1, out1);
    assert DirectionOk(p1, q, out1, incoming);
    assert DirectionOk(q, p1, incoming, out1);
  }

  lemma {:induction false} ReplayKeepsWires(p: Peer, q: Peer, out: Wires, incoming: Wires, socket: nat)
    requires BothWays(p, q, out, incoming)
    requires p.socket < socket
    ensures WiresOk(p.(socket := socket), q, Written(out, socket, Messages(p.end.unack)))
  {
    var frames := Messages(p.end.unack);
    var out1 := Written(out, socket, frames);
    WrittenOn(out, socket, frames);
    forall any | 0 <= any <= socket
      ensures Gapless(On(out1, any), |Firsts(q.got)|, p.sent, any == socket)
    {
      if any == socket {
        assert On(out1, any) == frames;
        ReplayIsGapless(p, q);
      } else if any <= p.socket {
        assert Gapless(On(out, any), |Firsts(q.got)|, p.sent, any == p.socket);
        NoLongerCurrent(On(out, any), |Firsts(q.got)|, p.sent, any == p.socket);
      } else {
        assert any !in out;
        NothingIsGapless(|Firsts(q.got)|, p.sent);
      }
    }
  }

  lemma {:induction false} ReplayIsGapless(p: Peer, q: Peer)
    requires QueueOk(p) && |p.sent| - |p.end.unack| <= |Firsts(q.got)|
    ensures Gapless(Messages(p.end.unack), |Firsts(q.got)|, p.sent, true)
  {
    var from := |p.sent| - |p.end.unack| + 1;
    ReplayIsConsecutive(p.end.unack, from, p.sent);
    assert GaplessFrom(Messages(p.end.unack), from, |Firsts(q.got)|, p.sent, true);
  }

  lemma {:induction false} NoLongerCurrent(frames: seq<Frame>, received: nat, sent: seq<seq<byte>>, current: bool)
    requires Gapless(frames, received, sent, current)
    ensures Gapless(frames, received, sent, false)
  {
    var from: nat :| GaplessFrom(frames, from, received, sent, current);
    assert GaplessFrom(frames, from, received, sent, false);
  }

  // A frame arrives: its acknowledgement concerns one direction, its message the other.
  lemma {:induction false} DeliverKeeps(o: Options, p: Peer, q: Peer, out: Wires, incoming: Wires, now: int)
    requires BothWays(p, q, out, incoming)
    requires On(incoming, p.socket) != []
    ensures var m := Move(o, p, out, incoming, DeliverFrame(A, now));
            BothWays(m.peer, q, m.out, m.incoming)
  {
    AckKeeps(o, p, q, out, incoming, now);
    ArrivalKeeps(o, p, q, out, incoming, now);
  }

  lemma {:induction false} AckKeeps(o: Options, p: Peer, q: Peer, out: Wires, incoming: Wires, now: int)
    requires BothWays(p, q, out, incoming)
    requires On(incoming, p.socket) != []
    ensures var m := Move(o, p, out, incoming, DeliverFrame(A, now));
            DirectionOk(m.peer, q, m.out, m.incoming)
  {
    hide Firsts, Gapless, PayloadBytes;
    var m := Move(o, p, out, incoming, DeliverFrame(A, now));
    var f := On(incoming, p.socket)[0];
    var rest := Remaining(p.end.unack, f.ack);
    assert AcksUpTo(On(incoming, p.socket), |Firsts(q.got)|);
    assert m.peer.end.unack == rest && m.peer.sent == p.sent && m.peer.end.outgoingMsgId == p.end.outgoingMsgId;
    FlowControl.RemainingIsSuffix(p.end.unack, f.ack);
    AckedWasReceived(p, q, rest, f.ack);
    QueueShrinks(p, m.peer);
    OneLessAcks(q, incoming, p.socket);
    assert WiresOk(m.peer, q, out);
  }

  lemma {:induction false} OneLessAcks(q: Peer, back: Wires, socket: nat)
    requires AcksOk(q, back) && On(back, socket) != []
    ensures AcksOk(q, back[socket := On(back, socket)[1..]])
  {
    var back' := back[socket := On(back, socket)[1..]];
    forall any ensures AcksUpTo(On(back', any), |Firsts(q.got)|) {
      assert AcksUpTo(On(back, any), |Firsts(q.got)|);
    }
  }

  lemma {:induction false} QueueShrinks(p: Peer, p': Peer)
    requires QueueOk(p)
    requires p'.sent == p.sent && p'.end.outgoingMsgId == p.end.outgoingMsgId
    requires |p'.end.unack| <= |p.end.unack|
    requires p'.end.unack == p.end.unack[|p.end.unack| - |p'.end.unack|..]
    ensures QueueOk(p')
  {
  }

  lemma {:induction false} AckedWasReceived(p: Peer, q: Peer, rest: seq<Entry>, ack: nat)
    requires QueueOk(p) && |p.sent| - |p.end.unack| <= |Firsts(q.got)|
    requires ack <= |Firsts(q.got)|
    requires |rest| <= |p.end.unack|
    requires forall i | 0 <= i < |p.end.unack| - |rest| :: p.end.unack[i].msg.id <= ack
    ensures |p.sent| - |rest| <= |Firsts(q.got)|
  {
    var gone := |p.end.unack| - |rest|;
    if gone > 0 {
      assert p.end.unack[gone - 1].msg.id == |p.sent| - |rest|;
    }
  }

  lemma {:induction false} ArrivalKeeps(o: Options, p: Peer, q: Peer, out: Wires, incoming: Wires, now: int)
    requires BothWays(p, q, out, incoming)
    requires On(incoming, p.socket) != []
    ensures var m := Move(o, p, out, incoming, DeliverFrame(A, now));
            DirectionOk(q, m.peer, m.incoming, out)
  {
    hide Firsts, Every, AcksOk, Take, WiresOk, QueueOk, DeliveredOk;
    var p' := Move(o, p, out, incoming, DeliverFrame(A, now)).peer;
    TakenMessage(o, p, q, incoming, now);
    TakenAcks(o, p, p', out, On(incoming, p.socket)[0], now);
    RestStaysGapless(p, p', q, incoming);
  }

  lemma {:induction false} TakenMessage(o: Options, p: Peer, q: Peer, incoming: Wires, now: int)
    requires DeliveredOk(q, p) && Every(p.got) && WiresOk(q, p, incoming) && On(incoming, p.socket) != []
    ensures var f := On(incoming, p.socket)[0];
            var p' := Take(o, p, f, now);
            && p.socket in incoming && p'.socket == p.socket
            && DeliveredOk(q, p') && Every(p'.got)
            && |Firsts(p.got)| <= |Firsts(p'.got)|
            && (f.kind == REGULAR ==> f.id <= |Firsts(p'.got)|)
  {
    hide Receive, Firsts, Gapless, Every;
    var frames := On(incoming, p.socket);
    var f := frames[0];
    assert p.socket in incoming;
    assert Gapless(frames, |Firsts(p.got)|, q.sent, p.socket == q.socket);
    if f.kind == REGULAR {
      HeadContinues(frames, |Firsts(p.got)|, q.sent, p.socket == q.socket);
      FirstsAfter(p.got, Delivery(f.id, f.data, p.socket), q.sent);
    }
  }

  lemma {:induction false} TakenAcks(o: Options, p: Peer, p': Peer, out: Wires, f: Frame, now: int)
    requires AcksOk(p, out) && p' == Take(o, p, f, now)
    requires |Firsts(p.got)| <= |Firsts(p'.got)| && (f.kind == REGULAR ==> f.id <= |Firsts(p'.got)|)
    ensures AcksOk(p', out)
  {
    hide Firsts, PayloadBytes;
    FlowControl.RemainingIsSuffix(p.end.unack, f.ack);
    forall socket ensures AcksUpTo(On(out, socket), |Firsts(p'.got)|) {
      assert AcksUpTo(On(out, socket), |Firsts(p.got)|);
    }
  }

  lemma {:induction false} HeadContinues(frames: seq<Frame>, received: nat, sent: seq<seq<byte>>, current: bool)
    requires Gapless(frames, received, sent, current)
    requires frames != [] && frames[0].kind == REGULAR
    ensures 1 <= frames[0].id <= received + 1 && frames[0].id <= |sent| && frames[0].data == sent[frames[0].id - 1]
  {
    var from: nat :| GaplessFrom(frames, from, received, sent, current);
  }

  lemma {:induction false} TailIsGapless(frames: seq<Frame>, received: nat, received': nat, sent: seq<seq<byte>>,
                                         current: bool)
    requires Gapless(frames, received, sent, current) && frames != []
    requires received <= received' && (frames[0].kind == REGULAR ==> frames[0].id <= received')
    ensures Gapless(frames[1..], received', sent, current)
  {
    var from: nat :| GaplessFrom(frames, from, received, sent, current);
    var from' := if frames[0].kind == REGULAR then from + 1 else from;
    assert GaplessFrom(frames[1..], from', received', sent, current);
  }

  // Taking the head frame leaves every socket gapless for what is then received.
  lemma {:induction false} RestStaysGapless(p: Peer, p': Peer, q: Peer, incoming: Wires)
    requires WiresOk(q, p, incoming) && p.socket in incoming && On(incoming, p.socket) != []
    requires |Firsts(p.got)| <= |Firsts(p'.got)|
    requires var f := On(incoming, p.socket)[0]; f.kind == REGULAR ==> f.id <= |Firsts(p'.got)|
    ensures WiresOk(q, p', incoming[p.socket := On(incoming, p.socket)[1..]])
  {
    var incoming' := incoming[p.socket := On(incoming, p.socket)[1..]];
    forall socket | 0 <= socket <= q.socket
      ensures Gapless(On(incoming', socket), |Firsts(p'.got)|, q.sent, socket == q.socket)
    {
      assert Gapless(On(incoming, socket), |Firsts(p.got)|, q.sent, socket == q.socket);
      if socket == p.socket {
        TailIsGapless(On(incoming, socket), |Firsts(p.got)|, |Firsts(p'.got)|, q.sent, socket == q.socket);
      } else {
        GaplessLater(On(incoming, socket), |Firsts(p.got)|, |Firsts(p'.got)|, q.sent, socket == q.socket);
      }
    }
  }

  // A message that continues what was received, or repeats a part of it.
  lemma {:induction false} FirstsAfter(got: seq<Delivery>, d: Delivery, sent: seq<seq<byte>>)
    requires Firsts(got) <= sent && Every(got)
    requires forall e <- got :: 1 <= e.id <= |Firsts(got)|
    requires 1 <= d.id <= |Firsts(got)| + 1 && d.id <= |sent| && d.data == sent[d.id - 1]
    ensures var got' := got + [d];
            && |Firsts(got')| == (if d.id <= |Firsts(got)| then |Firsts(got)| else d.id)
            && Firsts(got) <= Firsts(got') <= sent
            && Every(got')
            && (forall e <- got' :: 1 <= e.id <= |Firsts(got')|)
  {
    var got' := got + [d];
    assert got'[..|got'| - 1] == got;
    assert d in got';
    forall id | 1 <= id <= |Firsts(got')| ensures Seen(got', id) {
      if id <= |Firsts(got)| {
        assert Seen(got, id);
        var e :| e in got && e.id == id;
        assert e in got';
      }
    }
  }

  lemma {:induction false} MoveKeeps(o: Options, p: Peer, q: Peer, out: Wires, incoming: Wires, act: Action)
    requires BothWays(p, q, out, incoming)
    requires |Move(o, p, out, incoming, act).peer.sent| < U32_LIMIT
    ensures var m := Move(o, p, out, incoming, act);
            BothWays(m.peer, q, m.out, m.incoming)
  {
    match act
    case SendMessage(_, data, now) => SendKeeps(o, p, q, out, incoming, data, now);
    case DeliverFrame(_, now) =>
      if On(incoming, p.socket) != [] {
        DeliverKeeps(o, p, q, out, incoming, now);
      }
    case ReplaceSocket(_, socket) =>
      if p.socket < socket {
        ReplaceKeeps(p, q, out, incoming, socket);
      }
    case KeepAliveTimer(_) => BareFramesKeep(p, q, out, incoming, KeepAlive(p.end));
    case AckCheckTimer(_, now) => BareFramesKeep(p, q, out, incoming, AckCheck(o, p.end, now));
  }

  lemma {:induction false} StartIsOk()
    ensures Invariant(System(Fresh(), Fresh(), map[], map[]))
  {
    assert GaplessFrom([], 1, 0, [], true);
  }

  lemma {:induction false} EveryRunKeeps(o: Options, acts: seq<Action>)
    requires FitsTheWire(o, acts)
    ensures Invariant(Run(o, acts))
  {
    if acts == [] {
      StartIsOk();
    } else {
      var s := Run(o, acts[..|acts| - 1]);
      var act := acts[|acts| - 1];
      EveryRunKeeps(o, acts[..|acts| - 1]);
      if act.side == A {
        MoveKeeps(o, s.a, s.b, s.ab, s.ba, act);
      } else {
        MoveKeeps(o, s.b, s.a, s.ba, s.ab, act);
      }
    }
  }

  // ---------------------------------------------------------------------------------------
  // What the layer is for
  // ---------------------------------------------------------------------------------------

  // Nothing is lost or reordered, from `s` to `r`.
  ghost predicate Reliable(s: Peer, r: Peer, wires: Wires, back: Wires) {
    // the deliveries, repetitions set aside, are a prefix of what was sent;
    && Firsts(r.got) <= s.sent
    // every message was delivered or is still queued under its number;
    && (forall i | 0 <= i < |s.sent| :: i < |Firsts(r.got)| || QueuedUnder(s.end.unack, i + 1, s.sent[i]))
    // no acknowledgement under way, on any socket, exceeds what was received.
    && (forall socket :: AcksUpTo(On(back, socket), |Firsts(r.got)|))
    // once the reader has caught up with the sender's socket, nothing is missing.
    && (r.socket == s.socket && Regulars(On(wires, s.socket)) == 0 ==> Firsts(r.got) == s.sent)
  }

  ghost predicate QueuedUnder(unack: seq<Entry>, id: nat, data: seq<byte>) {
    exists entry <- unack :: entry.msg.id == id && entry.msg.data == data
  }

  lemma {:induction false} NothingIsLostOrReordered(o: Options, acts: seq<Action>)
    requires FitsTheWire(o, acts)
    ensures var s := Run(o, acts);
            Reliable(s.a, s.b, s.ab, s.ba) && Reliable(s.b, s.a, s.ba, s.ab)
  {
    var s := Run(o, acts);
    EveryRunKeeps(o, acts);
    DirectionIsReliable(s.a, s.b, s.ab, s.ba);
    DirectionIsReliable(s.b, s.a, s.ba, s.ab);
  }

  lemma {:induction false} DirectionIsReliable(s: Peer, r: Peer, wires: Wires, back: Wires)
    requires DirectionOk(s, r, wires, back)
    ensures Reliable(s, r, wires, back)
  {
    forall i | |Firsts(r.got)| <= i < |s.sent|
      ensures QueuedUnder(s.end.unack, i + 1, s.sent[i])
    {
      var entry := s.end.unack[i - (|s.sent| - |s.end.unack|)];
      assert entry in s.end.unack;
    }
    assert Gapless(On(wires, s.socket), |Firsts(r.got)|, s.sent, true);
  }
}
