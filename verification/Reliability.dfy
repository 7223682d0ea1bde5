// packages/rpc/src/persistent-protocol.ts: one endpoint of the reliability layer, as functions
// that say what each operation does to the endpoint's state, what it writes to the socket and
// which events it fires.

module Reliability {
  import opened Wrappers
  import opened Buffers
  import opened Framing

  const ACK_TIMEOUT := 20000

  datatype Options = Options(high: nat, low: nat, replayMax: nat, graceMs: nat)

  datatype Entry = Entry(msg: Frame, queuedAt: int)

  datatype Endpoint = Endpoint(
    outgoingMsgId: nat,
    unack: seq<Entry>,
    incomingAckId: nat,
    unackBytes: int,
    saturated: bool,
    overflowed: bool,
    lastAckTime: int)

  datatype Event = Message(data: seq<byte>) | Closed | SocketClosed | Saturated | Drained

  datatype Effect = Effect(state: Endpoint, writes: seq<Frame>, events: seq<Event>)

  function Initial(now: int): (e: Endpoint) {
    Endpoint(0, [], 0, 0, false, false, now)
  }

  function PayloadBytes(unack: seq<Entry>): (bytes: nat) {
    if unack == [] then 0 else |unack[0].msg.data| + PayloadBytes(unack[1..])
  }

  // ---------------------------------------------------------------------------------------
  // Operations
  // ---------------------------------------------------------------------------------------

  function Abandon(e: Endpoint): (r: Effect) {
    if e.overflowed then Effect(e, [], [])
    else Effect(e.(overflowed := true), [Frame(DISCONNECT, 0, e.incomingAckId, [])], [Closed])
  }

  function Queued(e: Endpoint, data: seq<byte>, now: int): (e': Endpoint) {
    var msg := Frame(REGULAR, e.outgoingMsgId + 1, e.incomingAckId, data);
    e.(outgoingMsgId := e.outgoingMsgId + 1, unack := e.unack + [Entry(msg, now)], unackBytes := e.unackBytes + |data|)
  }

  function Send(o: Options, e: Endpoint, data: seq<byte>, now: int): (r: Effect) {
    var q := Queued(e, data, now);
    var msg := q.unack[|e.unack|].msg;
    if q.unackBytes > o.replayMax then
      var a := Abandon(q);
      Effect(a.state, [msg] + a.writes, a.events)
    else if !q.saturated && q.unackBytes > o.high then
      Effect(q.(saturated := true), [msg], [Saturated])
    else
      Effect(q, [msg], [])
  }

  function Messages(unack: seq<Entry>): (frames: seq<Frame>)
    ensures |frames| == |unack|
    ensures forall i | 0 <= i < |unack| :: frames[i] == unack[i].msg
  {
    if unack == [] then [] else [unack[0].msg] + Messages(unack[1..])
  }

  function Replace(e: Endpoint): (r: Effect) {
    Effect(e, Messages(e.unack), [])
  }

  // The queue once the entries at its front with an id up to `ack` are gone.
  function Remaining(unack: seq<Entry>, ack: nat): (rest: seq<Entry>)
  {
    if unack != [] && unack[0].msg.id <= ack then Remaining(unack[1..], ack) else unack
  }

  function ProcessAck(o: Options, e: Endpoint, ack: nat): (r: Effect) {
    var rest := Remaining(e.unack, ack);
    var e1 := e.(unack := rest, unackBytes := e.unackBytes - (PayloadBytes(e.unack) - PayloadBytes(rest)));
    if e1.saturated && e1.unackBytes <= o.low then Effect(e1.(saturated := false), [], [Drained])
    else Effect(e1, [], [])
  }

  function Receive(o: Options, e: Endpoint, f: Frame, now: int): (r: Effect) {
    var a := ProcessAck(o, e, f.ack);
    var e1 := a.state.(lastAckTime := now);
    if f.kind == REGULAR then Effect(e1.(incomingAckId := f.id), [], a.events + [Message(f.data)])
    else if f.kind == DISCONNECT then Effect(e1, [], a.events + [Closed])
    else Effect(e1, [], a.events)
  }

  function ReceiveAll(o: Options, e: Endpoint, frames: seq<Frame>, now: int): (r: Effect)
    decreases |frames|
  {
    if frames == [] then Effect(e, [], []) else
    var first := Receive(o, e, frames[0], now);
    var others := ReceiveAll(o, first.state, frames[1..], now);
    Effect(others.state, [], first.events + others.events)
  }

  lemma {:induction false} ReceiveAllCons(o: Options, e: Endpoint, f: Frame, frames: seq<Frame>, now: int)
    ensures var first := Receive(o, e, f, now);
            var others := ReceiveAll(o, first.state, frames, now);
            ReceiveAll(o, e, [f] + frames, now) == Effect(others.state, [], first.events + others.events)
  {
    assert ([f] + frames)[1..] == frames;
  }

  function KeepAlive(e: Endpoint): (r: Effect) {
    Effect(e, [Frame(KEEP_ALIVE, 0, e.incomingAckId, [])], [])
  }

  function AckCheck(o: Options, e: Endpoint, now: int): (r: Effect) {
    var silent := e.unack != [] && now - e.lastAckTime > ACK_TIMEOUT;
    var events := if silent then [SocketClosed] else [];
    if e.unack != [] && now - e.unack[0].queuedAt > o.graceMs then
      var a := Abandon(e);
      Effect(a.state, a.writes, events + a.events)
    else
      Effect(e, [], events)
  }
}
