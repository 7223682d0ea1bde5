// An endpoint is its history.

module EndpointHistory {
  // What an endpoint holds, writes and tells, said in terms of what was sent and received, and when.
  // Frame kinds and the time limit are written out: 1 is a message, 5 a disconnection, 9 a sign of
  // life.

  import opened Buffers
  import opened Framing
  import opened Reliability
  import opened FlowControl

  // ---------------------------------------------------------------------------------------
  // What happened
  // ---------------------------------------------------------------------------------------

  // The id of the message received last.
  function LastId(ops: seq<Op>): (id: nat) {
    if ops == [] then 0 else
    var op := ops[|ops| - 1];
    if op.DoReceive? && op.f.kind == 1 then op.f.id else LastId(ops[..|ops| - 1])
  }

  // When anything was received last.
  function LastHeard(ops: seq<Op>): (at: int) {
    if ops == [] then 0 else
    var op := ops[|ops| - 1];
    if op.DoReceive? then op.now else LastHeard(ops[..|ops| - 1])
  }

  // Every message sent, as a frame that acknowledges what had been received, and when.
  function Sent(ops: seq<Op>): (entries: seq<Entry>) {
    if ops == [] then [] else
    var before, op := ops[..|ops| - 1], ops[|ops| - 1];
    if op.DoSend? then Sent(before) + [Entry(Frame(1, |Sent(before)| + 1, LastId(before), op.data), op.now)]
    else Sent(before)
  }

  // How many messages have been acknowledged. An acknowledgement of messages that were not sent
  // yet concerns those that were.
  function Acked(ops: seq<Op>): (n: nat)
    ensures n <= |Sent(ops)|
  {
    if ops == [] then 0 else
    var before, op := ops[..|ops| - 1], ops[|ops| - 1];
    if !op.DoReceive? || op.f.ack <= Acked(before) then Acked(before)
    else if op.f.ack <= |Sent(before)| then op.f.ack
    else |Sent(before)|
  }

  function Bytes(entries: seq<Entry>): (n: nat) {
    if entries == [] then 0 else |entries[0].msg.data| + Bytes(entries[1..])
  }

  // ---------------------------------------------------------------------------------------
  // What the endpoint holds
  // ---------------------------------------------------------------------------------------

  ghost predicate Remembers(e: Endpoint, ops: seq<Op>) {
    && e.unack == Sent(ops)[Acked(ops)..]
    && e.unackBytes == Bytes(e.unack)
    && e.outgoingMsgId == |Sent(ops)|
    && e.incomingAckId == LastId(ops)
    && e.lastAckTime == LastHeard(ops)
  }

  lemma {:induction false} IdsCount(ops: seq<Op>)
    ensures forall i | 0 <= i < |Sent(ops)| :: Sent(ops)[i].msg.id == i + 1 && Sent(ops)[i].msg.kind == 1
  {
    if ops != [] {
      IdsCount(ops[..|ops| - 1]);
    }
  }

  lemma {:induction false} BytesArePayload(entries: seq<Entry>)
    ensures Bytes(entries) == PayloadBytes(entries)
  {
    if entries != [] {
      BytesArePayload(entries[1..]);
    }
  }

  // Taking the acknowledged front off consecutive ids.
  lemma {:induction false} RemainingOf(entries: seq<Entry>, first: nat, ack: nat)
    requires forall i | 0 <= i < |entries| :: entries[i].msg.id == first + i
    ensures var gone := if ack < first then 0 else if ack - first + 1 <= |entries| then ack - first + 1 else |entries|;
            Remaining(entries, ack) == entries[gone..]
  {
    if entries != [] && entries[0].msg.id <= ack {
      forall i | 0 <= i < |entries| - 1 ensures entries[1..][i].msg.id == first + 1 + i {
        assert entries[1..][i] == entries[i + 1];
      }
      RemainingOf(entries[1..], first + 1, ack);
    }
  }

  lemma {:induction false} EndpointRemembers(o: Options, ops: seq<Op>)
    ensures Remembers(Run(o, ops).state, ops)
  {
    hide Sent, Acked, Bytes, PayloadBytes, Send, Receive, Alternates;
    if ops == [] {
      NothingYet(o);
    } else {
      var before, op := ops[..|ops| - 1], ops[|ops| - 1];
      assert ops == before + [op];
      EndpointRemembers(o, before);
      EveryRunIsAccounted(o, ops);
      BytesArePayload(Run(o, ops).state.unack);
      match op
      case DoSend(data, now) => SendIsRemembered(o, before, data, now);
      case DoReceive(f, now) => ReceiptIsRemembered(o, before, f, now);
      case _ => OthersAreRemembered(o, before, op);
    }
  }

  lemma {:induction false} NothingYet(o: Options)
    ensures Remembers(Run(o, []).state, [])
  {
  }

  lemma {:induction false} OthersAreRemembered(o: Options, before: seq<Op>, op: Op)
    requires !op.DoSend? && !op.DoReceive?
    ensures var ops := before + [op];
            && Sent(ops) == Sent(before) && Acked(ops) == Acked(before)
            && LastId(ops) == LastId(before) && LastHeard(ops) == LastHeard(before)
    ensures var e, e' := Run(o, before).state, Apply(o, Run(o, before).state, op).state;
            e' == e.(overflowed := e'.overflowed)
  {
    var ops := before + [op];
    assert ops[..|ops| - 1] == before;
  }

  lemma {:induction false} SendIsRemembered(o: Options, before: seq<Op>, data: seq<byte>, now: int)
    requires Remembers(Run(o, before).state, before)
    ensures var ops := before + [DoSend(data, now)];
            var e := Send(o, Run(o, before).state, data, now).state;
            && e.unack == Sent(ops)[Acked(ops)..] && e.outgoingMsgId == |Sent(ops)|
            && e.incomingAckId == LastId(ops) && e.lastAckTime == LastHeard(ops)
  {
    hide Run, Bytes, PayloadBytes;
    var ops := before + [DoSend(data, now)];
    assert ops[..|ops| - 1] == before;
    var e := Run(o, before).state;
    var entry := Entry(Frame(1, e.outgoingMsgId + 1, e.incomingAckId, data), now);
    assert Sent(ops)[Acked(ops)..] == e.unack + [entry];
  }

  lemma {:induction false} ReceiptIsRemembered(o: Options, before: seq<Op>, f: Frame, now: int)
    requires Remembers(Run(o, before).state, before)
    ensures var ops := before + [DoReceive(f, now)];
            var e := Receive(o, Run(o, before).state, f, now).state;
            && e.unack == Sent(ops)[Acked(ops)..] && e.outgoingMsgId == |Sent(ops)|
            && e.incomingAckId == LastId(ops) && e.lastAckTime == LastHeard(ops)
  {
    hide Run, Bytes, PayloadBytes;
    var ops := before + [DoReceive(f, now)];
    assert ops[..|ops| - 1] == before;
    var e := Run(o, before).state;
    IdsCount(before);
    RemainingOf(e.unack, Acked(before) + 1, f.ack);
  }

  // In every run the queue is what was sent and not acknowledged, and the rest of the state says
  // what was received last, and when.
  lemma {:induction false} EndpointIsItsHistory(o: Options, ops: seq<Op>)
    ensures Remembers(Run(o, ops).state, ops)
  {
    EndpointRemembers(o, ops);
  }

  // ---------------------------------------------------------------------------------------
  // What a step writes and tells
  // ---------------------------------------------------------------------------------------

  // The oldest message not acknowledged, if there is one, waits for longer than the grace period.
  ghost predicate TooOld(o: Options, ops: seq<Op>, now: int) {
    Acked(ops) < |Sent(ops)| && now - Sent(ops)[Acked(ops)].queuedAt > o.graceMs
  }

  // The session is abandoned: too many bytes wait after a send, or a message waits for too long.
  ghost predicate GivesUp(o: Options, ops: seq<Op>, op: Op) {
    && !Run(o, ops).state.overflowed
    && match op
       case DoSend(data, _) => Bytes(Sent(ops)[Acked(ops)..]) + |data| > o.replayMax
       case DoAckCheck(now) => TooOld(o, ops, now)
       case _ => false
  }

  lemma {:induction false} BytesOfOneMore(entries: seq<Entry>, entry: Entry)
    ensures Bytes(entries + [entry]) == Bytes(entries) + |entry.msg.data|
  {
    if entries == [] {
      assert entries + [entry] == [entry];
    } else {
      assert (entries + [entry])[1..] == entries[1..] + [entry];
      BytesOfOneMore(entries[1..], entry);
    }
  }

  // Exactly what goes to the socket: each message as it is sent, all that wait on a new socket, signs
  // of life, and one disconnection when the session is abandoned.
  lemma {:induction false} WritesSayWhatHappened(o: Options, ops: seq<Op>, op: Op)
    ensures var writes := Apply(o, Run(o, ops).state, op).writes;
            var last := if GivesUp(o, ops, op) then [Frame(5, 0, LastId(ops), [])] else [];
            match op
            case DoSend(data, _) => writes == [Frame(1, |Sent(ops)| + 1, LastId(ops), data)] + last
            case DoReceive(_, _) => writes == []
            case DoReplace =>
              |writes| == |Sent(ops)| - Acked(ops)
              && forall i | 0 <= i < |writes| :: writes[i] == Sent(ops)[Acked(ops) + i].msg
            case DoKeepAlive => writes == [Frame(9, 0, LastId(ops), [])]
            case DoAckCheck(_) => writes == last
    ensures Apply(o, Run(o, ops).state, op).state.overflowed <==> Run(o, ops).state.overflowed || GivesUp(o, ops, op)
  {
    hide Sent, Acked, Bytes, LastId, Run, Remaining, PayloadBytes, Messages;
    EndpointRemembers(o, ops);
  }

  // The bytes that wait after the operation.
  function BytesAfter(ops: seq<Op>, op: Op): (n: nat) {
    var all := ops + [op];
    Bytes(Sent(all)[Acked(all)..])
  }

  // Exactly what listeners hear: messages in the order of their receipt, the end of the session
  // when the peer disconnects or the session is abandoned, a silence of more than 20 seconds while
  // a message waits, saturation when the high mark is passed, and relief at the low one.
  lemma {:induction false} EventsSayWhatHappened(o: Options, ops: seq<Op>, op: Op)
    ensures var e, r := Run(o, ops).state, Apply(o, Run(o, ops).state, op);
            && (forall data :: Message(data) in r.events <==> op.DoReceive? && op.f.kind == 1 && op.f.data == data)
            && (Closed in r.events <==> GivesUp(o, ops, op) || (op.DoReceive? && op.f.kind == 5))
            && (SocketClosed in r.events <==>
                  op.DoAckCheck? && Acked(ops) < |Sent(ops)| && op.now - LastHeard(ops) > 20000)
            && (Saturated in r.events <==>
                  op.DoSend? && !e.saturated && o.high < BytesAfter(ops, op) <= o.replayMax)
            && (Drained in r.events <==> op.DoReceive? && e.saturated && BytesAfter(ops, op) <= o.low)
            && (forall i, j | 0 <= i < j < |r.events| :: r.events[i] != r.events[j])
  {
    hide Sent, Acked, Bytes, BytesAfter, Run, LastId, ProcessAck, PayloadBytes, Queued;
    EndpointRemembers(o, ops);
    BytesAfterStep(o, ops, op);
    match op
    case DoSend(data, now) => SendTells(o, Run(o, ops).state, ops, data, now);
    case DoReceive(f, now) => ReceiptTells(o, Run(o, ops).state, f);
    case _ =>
  }

  lemma {:induction false} BytesAfterStep(o: Options, ops: seq<Op>, op: Op)
    ensures Apply(o, Run(o, ops).state, op).state.unackBytes == BytesAfter(ops, op)
  {
    hide Apply, Sent, Acked, Bytes;
    var all := ops + [op];
    assert all[..|all| - 1] == ops && all[|all| - 1] == op;
    EndpointRemembers(o, all);
  }

  lemma {:induction false} SendTells(o: Options, e: Endpoint, ops: seq<Op>, data: seq<byte>, now: int)
    requires e == Run(o, ops).state && Remembers(e, ops)
    ensures var r := Send(o, e, data, now);
            && r.state.unackBytes == Bytes(Sent(ops)[Acked(ops)..]) + |data|
            && r.events == if GivesUp(o, ops, DoSend(data, now)) then [Closed]
                           else if !e.saturated && o.high < r.state.unackBytes <= o.replayMax then [Saturated] else []
  {
    hide Sent, Acked, Bytes, Run;
  }

  lemma {:induction false} ReceiptTells(o: Options, e: Endpoint, f: Frame)
    ensures var r := ProcessAck(o, e, f.ack);
            r.events == if e.saturated && r.state.unackBytes <= o.low then [Drained] else []
  {
    hide Remaining, PayloadBytes;
  }

  // A step that tells of saturation ends above the high mark, one that tells of relief at or below
  // the low one. A saturated endpoint with more than that stays saturated.
  lemma {:induction false} SaturationEndsAtTheLowMark(o: Options, ops: seq<Op>, op: Op)
    ensures var e, r := Run(o, ops).state, Apply(o, Run(o, ops).state, op);
            && (Saturated in r.events ==> r.state.unackBytes > o.high && r.state.saturated)
            && (Drained in r.events ==> r.state.unackBytes <= o.low && !r.state.saturated)
            && (e.saturated ==> (r.state.saturated <==> r.state.unackBytes > o.low || !op.DoReceive?))
  {
    hide Run, Sent, Acked, Bytes, BytesAfter, PayloadBytes;
    EventsSayWhatHappened(o, ops, op);
    BytesAfterStep(o, ops, op);
  }
}
