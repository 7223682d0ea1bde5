// When a message is delivered twice.

module SocketOrder {
  // Messages that are read from one socket carry consecutive ids: only on another socket does a
  // message come again.

  import opened Buffers
  import opened Framing
  import opened Reliability
  import FlowControl
  import opened ReliableSession

  // ---------------------------------------------------------------------------------------
  // One direction, from sender s to reader r
  // ---------------------------------------------------------------------------------------

  ghost predicate ReadInOrder(got: seq<Delivery>) {
    forall i, j | 0 <= i < j < |got| ::
      && got[i].socket <= got[j].socket
      && (got[i].socket == got[j].socket ==> got[j].id == got[i].id + (j - i))
  }

  // What is still on the reader's socket goes on right after what was read from it.
  ghost predicate GoesOn(s: Peer, r: Peer, wires: Wires) {
    r.got != [] && r.got[|r.got| - 1].socket == r.socket ==>
      GaplessFrom(On(wires, r.socket), r.got[|r.got| - 1].id + 1, |Firsts(r.got)|, s.sent, r.socket == s.socket)
  }

  ghost predicate Tracked(s: Peer, r: Peer, wires: Wires) {
    && ReadInOrder(r.got)
    && (forall d <- r.got :: d.socket <= r.socket && d.socket <= s.socket)
    && GoesOn(s, r, wires)
  }

  // ---------------------------------------------------------------------------------------
  // The sender moves
  // ---------------------------------------------------------------------------------------

  lemma {:induction false} AddedFramesGoOn(frames: seq<Frame>, more: seq<Frame>, from: nat, received: nat,
                                           sent: seq<seq<byte>>, sent': seq<seq<byte>>)
    requires GaplessFrom(frames, from, received, sent, true) && Continues(more, sent, sent')
    ensures GaplessFrom(frames + more, from, received, sent', true)
  {
    ConsecutiveGrows(frames, from, sent, sent');
    ConsecutiveAppend(frames, more, from, sent');
  }

  // The messages that are sent, one after the other, and frames of other kinds.
  ghost predicate Continues(frames: seq<Frame>, sent: seq<seq<byte>>, sent': seq<seq<byte>>) {
    && (forall f <- frames :: f.id < U32_LIMIT && f.ack < U32_LIMIT)
    && Consecutive(frames, |sent| + 1, sent')
    && sent <= sent' && Regulars(frames) == |sent'| - |sent|
  }

  lemma {:induction false} SendContinues(o: Options, p: Peer, data: seq<byte>, now: int)
    requires p.end.outgoingMsgId == |p.sent| && |p.sent| + 1 < U32_LIMIT && p.end.incomingAckId < U32_LIMIT
    ensures Continues(Send(o, p.end, data, now).writes, p.sent, p.sent + [data])
  {
    var writes := Send(o, p.end, data, now).writes;
    assert writes == [writes[0]] + writes[1..];
    OthersAreConsecutive(writes[1..], |p.sent| + 2, p.sent + [data]);
  }

  lemma {:induction false} OthersContinue(frames: seq<Frame>, sent: seq<seq<byte>>)
    requires forall f <- frames :: f.kind != REGULAR && f.id < U32_LIMIT && f.ack < U32_LIMIT
    ensures Continues(frames, sent, sent)
  {
    OthersAreConsecutive(frames, |sent| + 1, sent);
  }

  // What a step writes, unless it replaces the socket.
  function Output(o: Options, p: Peer, act: Action): (frames: seq<Frame>) {
    match act
    case SendMessage(_, data, now) => Send(o, p.end, data, now).writes
    case KeepAliveTimer(_) => KeepAlive(p.end).writes
    case AckCheckTimer(_, now) => AckCheck(o, p.end, now).writes
    case _ => []
  }

  lemma {:induction false} OutputContinues(o: Options, p: Peer, act: Action, sent: seq<seq<byte>>)
    requires p.end.outgoingMsgId == |p.sent| && p.end.incomingAckId < U32_LIMIT && |sent| < U32_LIMIT
    requires sent == if act.SendMessage? then p.sent + [act.data] else p.sent
    ensures Continues(Output(o, p, act), p.sent, sent)
  {
    hide Continues, Send;
    match act
    case SendMessage(_, data, now) => SendContinues(o, p, data, now);
    case KeepAliveTimer(_) => OthersContinue(KeepAlive(p.end).writes, p.sent);
    case AckCheckTimer(_, now) => OthersContinue(AckCheck(o, p.end, now).writes, p.sent);
    case _ => OthersContinue([], p.sent);
  }

  lemma {:induction false} OutputIsWritten(o: Options, p: Peer, out: Wires, incoming: Wires, act: Action)
    requires !act.ReplaceSocket? && !act.DeliverFrame?
    ensures var m := Move(o, p, out, incoming, act);
            && m.peer.sent == (if act.SendMessage? then p.sent + [act.data] else p.sent)
            && m.peer.socket == p.socket && m.peer.got == p.got && m.incoming == incoming
            && m.out == Written(out, p.socket, Output(o, p, act))
  {
    hide Send, KeepAlive, AckCheck, WireAll;
  }

  lemma {:induction false} SenderKeeps(o: Options, p: Peer, q: Peer, out: Wires, incoming: Wires, act: Action)
    requires BothWays(p, q, out, incoming) && Tracked(p, q, out)
    requires |Move(o, p, out, incoming, act).peer.sent| < U32_LIMIT
    ensures var m := Move(o, p, out, incoming, act); Tracked(m.peer, q, m.out)
  {
    hide Firsts, WiresOk, Every, Output, WireAll, Send, KeepAlive, AckCheck, Replace, Receive;
    hide ReadInOrder, Gapless, Consecutive, Regulars;
    var m := Move(o, p, out, incoming, act);
    if act.ReplaceSocket? {
      ReplacementKeeps(p, q, out, act.socket);
    } else if !act.DeliverFrame? {
      OutputIsWritten(o, p, out, incoming, act);
      OutputContinues(o, p, act, m.peer.sent);
      WrittenOn(out, p.socket, Output(o, p, act));
      WritingKeeps(p, q, out, m.peer, m.out, Output(o, p, act));
    }
  }

  lemma {:induction false} WritingKeeps(p: Peer, q: Peer, out: Wires, p': Peer, out': Wires, more: seq<Frame>)
    requires Tracked(p, q, out) && p'.socket == p.socket && Continues(more, p.sent, p'.sent)
    requires On(out', p.socket) == On(out, p.socket) + more
    requires forall other | other != p.socket :: On(out', other) == On(out, other)
    ensures Tracked(p', q, out')
  {
    hide Firsts, Regulars, Consecutive, ReadInOrder;
    if q.got != [] && q.got[|q.got| - 1].socket == q.socket {
      var from := q.got[|q.got| - 1].id + 1;
      if q.socket == p.socket {
        AddedFramesGoOn(On(out, q.socket), more, from, |Firsts(q.got)|, p.sent, p'.sent);
      } else {
        ConsecutiveGrows(On(out, q.socket), from, p.sent, p'.sent);
      }
    }
  }

  lemma {:induction false} ReplacementKeeps(p: Peer, q: Peer, out: Wires, socket: nat)
    requires Tracked(p, q, out)
    ensures var m := if socket <= p.socket then Moved(p, out, map[])
                     else Put(p.(socket := socket), out, map[], Replace(p.end));
            Tracked(m.peer, q, m.out)
  {
    hide Firsts, Regulars, Consecutive, ReadInOrder, WireAll;
    if q.got != [] {
      assert q.got[|q.got| - 1] in q.got;
    }
  }

  // ---------------------------------------------------------------------------------------
  // The reader moves
  // ---------------------------------------------------------------------------------------

  lemma {:induction false} ReaderKeeps(o: Options, p: Peer, q: Peer, out: Wires, incoming: Wires, act: Action)
    requires BothWays(p, q, out, incoming) && Tracked(q, p, incoming)
    requires |Move(o, p, out, incoming, act).peer.sent| < U32_LIMIT
    ensures var m := Move(o, p, out, incoming, act); Tracked(q, m.peer, m.incoming)
  {
    if act.DeliverFrame? {
      if On(incoming, p.socket) != [] {
        TakingKeeps(o, p, q, incoming, act.now);
      }
    } else {
      MovingOnKeeps(o, p, q, out, incoming, act);
    }
  }

  lemma {:induction false} MovingOnKeeps(o: Options, p: Peer, q: Peer, out: Wires, incoming: Wires, act: Action)
    requires Tracked(q, p, incoming) && !act.DeliverFrame?
    ensures var m := Move(o, p, out, incoming, act); Tracked(q, m.peer, m.incoming)
  {
    hide Firsts, Regulars, Consecutive, ReadInOrder, WireAll, Send, AckCheck, Replace, KeepAlive;
    if p.got != [] {
      assert p.got[|p.got| - 1] in p.got;
    }
  }

  // A message is the one that the socket goes on with.
  lemma {:induction false} TakingKeeps(o: Options, p: Peer, q: Peer, incoming: Wires, now: int)
    requires DeliveredOk(q, p) && Every(p.got) && WiresOk(q, p, incoming) && Tracked(q, p, incoming)
    requires On(incoming, p.socket) != []
    ensures var f := On(incoming, p.socket)[0];
            Tracked(q, Take(o, p, f, now), incoming[p.socket := On(incoming, p.socket)[1..]])
  {
    hide Receive, Firsts, Every, DeliveredOk, ReadInOrder;
    var frames := On(incoming, p.socket);
    var f := frames[0];
    var p' := Take(o, p, f, now);
    TakenMessage(o, p, q, incoming, now);
    assert Gapless(frames, |Firsts(p.got)|, q.sent, p.socket == q.socket);
    var goesOn := p.got != [] && p.got[|p.got| - 1].socket == p.socket;
    if f.kind == REGULAR {
      var from: nat :| GaplessFrom(frames, from, |Firsts(p.got)|, q.sent, p.socket == q.socket);
      assert f.id == from;
      DeliveryInOrder(p.got, Delivery(f.id, f.data, p.socket));
    }
  }

  lemma {:induction false} DeliveryInOrder(got: seq<Delivery>, d: Delivery)
    requires ReadInOrder(got) && forall e <- got :: e.socket <= d.socket
    requires got != [] && got[|got| - 1].socket == d.socket ==> d.id == got[|got| - 1].id + 1
    ensures ReadInOrder(got + [d])
  {
    var all := got + [d];
    forall i, j | 0 <= i < j < |all|
      ensures all[i].socket <= all[j].socket
      ensures all[i].socket == all[j].socket ==> all[j].id == all[i].id + (j - i)
    {
      if j == |got| {
        assert got[i] in got && got[|got| - 1] in got;
        assert i < |got| - 1 ==> got[i].socket <= got[|got| - 1].socket;
      }
    }
  }

  // ---------------------------------------------------------------------------------------
  // Every run
  // ---------------------------------------------------------------------------------------

  lemma {:induction false} EveryRunIsTracked(o: Options, acts: seq<Action>)
    requires FitsTheWire(o, acts)
    ensures var s := Run(o, acts); Tracked(s.a, s.b, s.ab) && Tracked(s.b, s.a, s.ba)
  {
    if acts != [] {
      hide Tracked, BothWays, Move;
      var n := |acts| - 1;
      var s, act := Run(o, acts[..n]), acts[n];
      SentOnlyGrows(o, s, act);
      EveryRunIsTracked(o, acts[..n]);
      EveryRunKeeps(o, acts[..n]);
      InvariantIsBothWays(s);
      if act.side == A {
        SenderKeeps(o, s.a, s.b, s.ab, s.ba, act);
        ReaderKeeps(o, s.a, s.b, s.ab, s.ba, act);
      } else {
        SenderKeeps(o, s.b, s.a, s.ba, s.ab, act);
        ReaderKeeps(o, s.b, s.a, s.ba, s.ab, act);
      }
    }
  }

  lemma {:induction false} InvariantIsBothWays(s: System)
    requires Invariant(s)
    ensures BothWays(s.a, s.b, s.ab, s.ba) && BothWays(s.b, s.a, s.ba, s.ab)
  {
  }

  lemma {:induction false} SentOnlyGrows(o: Options, s: System, act: Action)
    ensures |s.a.sent| <= |Step(o, s, act).a.sent| && |s.b.sent| <= |Step(o, s, act).b.sent|
  {
  }

  // In every run, the messages read from one socket carry consecutive ids, and sockets are read one
  // after the other: so a message that is delivered twice comes from two sockets.
  lemma {:induction false} RepetitionsNeedAnotherSocket(o: Options, acts: seq<Action>)
    requires FitsTheWire(o, acts)
    ensures var s := Run(o, acts);
            && ReadInOrder(s.a.got) && RepeatedElsewhere(s.a.got)
            && ReadInOrder(s.b.got) && RepeatedElsewhere(s.b.got)
  {
    EveryRunIsTracked(o, acts);
  }

  ghost predicate RepeatedElsewhere(got: seq<Delivery>) {
    forall i, j | 0 <= i < j < |got| && got[i].id == got[j].id :: got[i].socket < got[j].socket
  }
}
