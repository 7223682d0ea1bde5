// What one endpoint of the reliability layer keeps over every run.

module FlowControl {
  // The byte account, the two watermarks, the alternation of the congestion events, and the single
  // abandonment.

  import opened Buffers
  import opened Framing
  import opened Reliability

  // Everything that can happen to an endpoint; the peer's frames are arbitrary.
  datatype Op =
    | DoSend(data: seq<byte>, now: int)
    | DoReceive(f: Frame, now: int)
    | DoReplace
    | DoKeepAlive
    | DoAckCheck(now: int)

  function Apply(o: Options, e: Endpoint, op: Op): (r: Effect) {
    match op
    case DoSend(data, now) => Send(o, e, data, now)
    case DoReceive(f, now) => Receive(o, e, f, now)
    case DoReplace => Replace(e)
    case DoKeepAlive => KeepAlive(e)
    case DoAckCheck(now) => AckCheck(o, e, now)
  }

  // The state after a run, with everything written and every event fired on the way.
  function Run(o: Options, ops: seq<Op>): (r: Effect) {
    if ops == [] then Effect(Initial(0), [], []) else
    var before := Run(o, ops[..|ops| - 1]);
    var step := Apply(o, before.state, ops[|ops| - 1]);
    Effect(step.state, before.writes + step.writes, before.events + step.events)
  }

  // ---------------------------------------------------------------------------------------
  // Bytes and congestion events
  // ---------------------------------------------------------------------------------------

  ghost predicate Accounted(e: Endpoint) {
    && e.unackBytes == PayloadBytes(e.unack)
    && forall entry <- e.unack :: entry.msg.kind == REGULAR
  }

  // The congestion events alone: true for saturated, false for drained.
  function Congestion(events: seq<Event>): (edges: seq<bool>) {
    if events == [] then []
    else (match events[0]
          case Saturated => [true]
          case Drained => [false]
          case _ => []) + Congestion(events[1..])
  }

  lemma {:induction false} CongestionConcat(a: seq<Event>, b: seq<Event>)
    ensures Congestion(a + b) == Congestion(a) + Congestion(b)
  {
    if a == [] {
      assert a + b == b;
    } else {
      assert (a + b)[1..] == a[1..] + b;
      CongestionConcat(a[1..], b);
    }
  }

  // Saturated first, then strictly in turn; the last edge tells the state.
  ghost predicate Alternates(edges: seq<bool>, saturated: bool) {
    && (forall i | 0 <= i < |edges| :: edges[i] == (i % 2 == 0))
    && (saturated <==> |edges| % 2 == 1)
  }

  function Disconnects(frames: seq<Frame>): (n: nat) {
    if frames == [] then 0 else (if frames[0].kind == DISCONNECT then 1 else 0) + Disconnects(frames[1..])
  }

  lemma {:induction false} DisconnectsConcat(a: seq<Frame>, b: seq<Frame>)
    ensures Disconnects(a + b) == Disconnects(a) + Disconnects(b)
  {
    if a == [] {
      assert a + b == b;
    } else {
      assert (a + b)[1..] == a[1..] + b;
      DisconnectsConcat(a[1..], b);
    }
  }

  lemma {:induction false} NoDisconnects(frames: seq<Frame>)
    requires forall f <- frames :: f.kind != DISCONNECT
    ensures Disconnects(frames) == 0
  {
    if frames != [] {
      NoDisconnects(frames[1..]);
    }
  }

  // In every run: the byte counter is the size of the queue, the congestion events strictly
  // alternate, and Disconnect is written once if the session was abandoned and never otherwise.
  lemma {:induction false} EveryRunIsAccounted(o: Options, ops: seq<Op>)
    ensures var r := Run(o, ops);
            && Accounted(r.state)
            && Alternates(Congestion(r.events), r.state.saturated)
            && Disconnects(r.writes) == (if r.state.overflowed then 1 else 0)
  {
    if ops != [] {
      var before := Run(o, ops[..|ops| - 1]);
      var op := ops[|ops| - 1];
      var step := Apply(o, before.state, op);
      EveryRunIsAccounted(o, ops[..|ops| - 1]);
      CongestionConcat(before.events, step.events);
      DisconnectsConcat(before.writes, step.writes);
      StepIsAccounted(o, before.state, op);
      EdgesExtend(Congestion(before.events), before.state.saturated, Congestion(step.events), step.state.saturated);
    }
  }

  lemma {:induction false} EdgesExtend(edges: seq<bool>, saturated: bool, more: seq<bool>, saturated': bool)
    requires Alternates(edges, saturated)
    requires more == if saturated == saturated' then [] else [saturated']
    ensures Alternates(edges + more, saturated')
  {
  }

  // One step: at most one edge, and exactly when the flag flips; one Disconnect, and exactly when
  // the session is abandoned.
  ghost predicate KeepsAccount(e: Endpoint, r: Effect) {
    && Accounted(r.state)
    && Congestion(r.events) == (if r.state.saturated == e.saturated then [] else [r.state.saturated])
    && (e.overflowed ==> r.state.overflowed)
    && Disconnects(r.writes) == (if r.state.overflowed == e.overflowed then 0 else 1)
  }

  lemma {:induction false} StepIsAccounted(o: Options, e: Endpoint, op: Op)
    requires Accounted(e)
    ensures KeepsAccount(e, Apply(o, e, op))
  {
    match op
    case DoSend(data, now) => SendIsAccounted(o, e, data, now);
    case DoReceive(f, now) => ReceiveIsAccounted(o, e, f, now);
    case DoReplace => NoDisconnects(Messages(e.unack));
    case DoKeepAlive =>
    case DoAckCheck(now) => CongestionConcat([SocketClosed], Abandon(e).events);
  }

  lemma {:induction false} SendIsAccounted(o: Options, e: Endpoint, data: seq<byte>, now: int)
    requires Accounted(e)
    ensures KeepsAccount(e, Send(o, e, data, now))
  {
    var q := Queued(e, data, now);
    var entry := q.unack[|e.unack|];
    assert q.unack == e.unack + [entry];
    PayloadBytesConcat(e.unack, [entry]);
    assert Accounted(q);
    DisconnectsConcat([entry.msg], Abandon(q).writes);
  }

  lemma {:induction false} ReceiveIsAccounted(o: Options, e: Endpoint, f: Frame, now: int)
    requires Accounted(e)
    ensures KeepsAccount(e, Receive(o, e, f, now))
  {
    hide ProcessAck, KeepsAccount;
    var a := ProcessAck(o, e, f.ack);
    AckIsAccounted(o, e, f.ack);
    OneMoreEvent(e, a, a.state.(lastAckTime := now, incomingAckId := f.id), [Message(f.data)]);
    OneMoreEvent(e, a, a.state.(lastAckTime := now), [Closed]);
    OneMoreEvent(e, a, a.state.(lastAckTime := now), []);
    assert a.events + [] == a.events;
  }

  lemma {:induction false} OneMoreEvent(e: Endpoint, r: Effect, state: Endpoint, more: seq<Event>)
    requires KeepsAccount(e, r) && r.writes == []
    requires state == r.state.(lastAckTime := state.lastAckTime, incomingAckId := state.incomingAckId)
    requires more == [] || (|more| == 1 && !more[0].Saturated? && !more[0].Drained?)
    ensures KeepsAccount(e, Effect(state, [], r.events + more))
  {
    hide PayloadBytes;
    if more == [] {
      assert r.events + more == r.events;
    } else {
      assert more == [more[0]];
      OtherEvent(r.events, more[0]);
    }
  }

  lemma {:induction false} AckIsAccounted(o: Options, e: Endpoint, ack: nat)
    requires Accounted(e)
    ensures KeepsAccount(e, ProcessAck(o, e, ack)) && ProcessAck(o, e, ack).writes == []
  {
    RemainingIsSuffix(e.unack, ack);
  }

  lemma {:induction false} OtherEvent(events: seq<Event>, event: Event)
    requires !event.Saturated? && !event.Drained?
    ensures Congestion(events + [event]) == Congestion(events)
  {
    CongestionConcat(events, [event]);
  }

  lemma {:induction false} PayloadBytesConcat(a: seq<Entry>, b: seq<Entry>)
    ensures PayloadBytes(a + b) == PayloadBytes(a) + PayloadBytes(b)
  {
    if a == [] {
      assert a + b == b;
    } else {
      assert (a + b)[1..] == a[1..] + b;
      PayloadBytesConcat(a[1..], b);
    }
  }

  lemma {:induction false} RemainingIsSuffix(unack: seq<Entry>, ack: nat)
    ensures |Remaining(unack, ack)| <= |unack|
    ensures Remaining(unack, ack) == unack[|unack| - |Remaining(unack, ack)|..]
    ensures forall i | 0 <= i < |unack| - |Remaining(unack, ack)| :: unack[i].msg.id <= ack
    ensures Remaining(unack, ack) != [] ==> ack < Remaining(unack, ack)[0].msg.id
  {
    if unack != [] && unack[0].msg.id <= ack {
      RemainingIsSuffix(unack[1..], ack);
    }
  }

  // ---------------------------------------------------------------------------------------
  // Watermarks
  // ---------------------------------------------------------------------------------------

  // Saturation means the low mark is exceeded; without it, and without abandonment, the high
  // mark is respected.
  ghost predicate WithinMarks(o: Options, e: Endpoint) {
    && (e.saturated ==> e.unackBytes > o.low)
    && (!e.saturated && !e.overflowed ==> e.unackBytes <= o.high)
  }

  ghost predicate MarksHold(o: Options) {
    forall ops :: WithinMarks(o, Run(o, ops).state)
  }

  // The constructor does not check the options. The marks mean what they say in every run
  // exactly when the low one is not above the high one, or when the session is always
  // abandoned before the high mark could be passed.
  lemma {:induction false} MarksHoldExactlyWhenOrdered(o: Options)
    ensures MarksHold(o) <==> o.low <= o.high || o.replayMax <= o.high
  {
    if o.low <= o.high || o.replayMax <= o.high {
      forall ops ensures WithinMarks(o, Run(o, ops).state) {
        MarksHoldWhenOrdered(o, ops);
      }
    } else {
      // One message that is larger than the high mark by one byte.
      var ops := [DoSend(seq(o.high + 1, _ => 0), 0)];
      assert ops[..0] == [];
      assert Run(o, ops[..0]) == Effect(Initial(0), [], []);
      var e := Run(o, ops).state;
      assert e.saturated && e.unackBytes == o.high + 1 <= o.low;
      assert !WithinMarks(o, Run(o, ops).state);
    }
  }

  lemma {:induction false} MarksHoldWhenOrdered(o: Options, ops: seq<Op>)
    requires o.low <= o.high || o.replayMax <= o.high
    ensures Bounded(o, Run(o, ops).state)
  {
    if ops != [] {
      var before := Run(o, ops[..|ops| - 1]).state;
      MarksHoldWhenOrdered(o, ops[..|ops| - 1]);
      EveryRunIsAccounted(o, ops[..|ops| - 1]);
      StepStaysBounded(o, before, ops[|ops| - 1]);
    }
  }

  ghost predicate Bounded(o: Options, e: Endpoint) {
    && WithinMarks(o, e)
    && (!e.overflowed ==> e.unackBytes <= o.replayMax)
    && (o.low > o.high ==> !e.saturated)
  }

  lemma {:induction false} StepStaysBounded(o: Options, e: Endpoint, op: Op)
    requires o.low <= o.high || o.replayMax <= o.high
    requires Accounted(e) && Bounded(o, e)
    ensures Bounded(o, Apply(o, e, op).state)
  {
    if op.DoReceive? {
      BytesShrink(e.unack, op.f.ack);
    }
  }

  lemma {:induction false} BytesShrink(unack: seq<Entry>, ack: nat)
    ensures PayloadBytes(Remaining(unack, ack)) <= PayloadBytes(unack)
  {
    var rest := Remaining(unack, ack);
    RemainingIsSuffix(unack, ack);
    var gone := unack[..|unack| - |rest|];
    assert gone + rest == unack;
    PayloadBytesConcat(gone, rest);
  }
}
