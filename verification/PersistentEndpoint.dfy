// packages/rpc/src/persistent-protocol.ts: the class PersistentProtocol, carried out on its
// fields and proved against the functions of module Reliability.

module PersistentEndpoint {
  import opened Wrappers
  import opened Buffers
  import opened Framing
  import opened Reliability

  class Socket {
    var written: seq<seq<byte>>

    constructor ()
      ensures written == []
    {
      written := [];
    }

    method Write(buffer: array<byte>)
      modifies this
      ensures written == old(written) + [buffer[..]]
    {
      written := written + [buffer[..]];
    }
  }

  function EncodeEach(frames: seq<Frame>): (buffers: seq<seq<byte>>)
    ensures |buffers| == |frames|
    ensures forall i | 0 <= i < |frames| :: buffers[i] == Encode(frames[i])
  {
    if frames == [] then [] else [Encode(frames[0])] + EncodeEach(frames[1..])
  }

  class PersistentProtocol {
    const options: Options
    var socket: Socket
    var chunkStream: ChunkStream
    var outgoingMsgId: nat
    var outgoingUnackMsg: seq<Entry>
    var incomingAckId: nat
    var unackBytes: int
    var saturated: bool
    var overflowed: bool
    var lastAckTime: int
    // Everything the emitters have fired, in order.
    var events: seq<Event>

    ghost predicate Valid()
      reads this, chunkStream
    {
      chunkStream.Valid()
    }

    ghost function State(): (e: Endpoint)
      reads this
    {
      Endpoint(outgoingMsgId, outgoingUnackMsg, incomingAckId, unackBytes, saturated, overflowed, lastAckTime)
    }

    // Options that are not given take the source's defaults; a low mark that is not given is a
    // quarter of the high one.
    constructor (socket: Socket, high: Option<nat>, low: Option<nat>, replayMax: Option<nat>, graceMs: Option<nat>,
                 now: int)
      ensures Valid() && State() == Initial(now) && events == []
      ensures this.socket == socket && fresh(chunkStream) && chunkStream.Contents() == []
      ensures options.high == match high case Some(bytes) => bytes case None => 1048576
      ensures options.low == match low case Some(bytes) => bytes case None => options.high / 4
      ensures options.replayMax == match replayMax case Some(bytes) => bytes case None => 8388608
      ensures options.graceMs == match graceMs case Some(ms) => ms case None => 45000
    {
      var h := if high.Some? then high.value else 1024 * 1024;
      options := Options(
        h,
        if low.Some? then low.value else h / 4,
        if replayMax.Some? then replayMax.value else 8 * 1024 * 1024,
        if graceMs.Some? then graceMs.value else 45000);
      this.socket := socket;
      chunkStream := new ChunkStream();
      outgoingMsgId, outgoingUnackMsg, incomingAckId, unackBytes := 0, [], 0, 0;
      saturated, overflowed, lastAckTime, events := false, false, now, [];
    }

    method WriteMessage(msg: Frame)
      modifies socket
      ensures socket.written == old(socket.written) + EncodeEach([msg])
    {
      var buffer := WriteProtocolMessage(msg);
      socket.Write(buffer);
    }

    method Send(data: seq<byte>, now: int)
      requires Valid()
      modifies this, socket
      ensures Valid() && socket == old(socket) && chunkStream == old(chunkStream)
      ensures var r := Reliability.Send(options, old(State()), data, now);
              && State() == r.state
              && socket.written == old(socket.written) + EncodeEach(r.writes)
              && events == old(events) + r.events
    {
      outgoingMsgId := outgoingMsgId + 1;
      var msg := Frame(REGULAR, outgoingMsgId, incomingAckId, data);
      outgoingUnackMsg := outgoingUnackMsg + [Entry(msg, now)];
      unackBytes := unackBytes + |data|;
      WriteMessage(msg);
      if unackBytes > options.replayMax {
        AbandonSession();
        return;
      }
      if !saturated && unackBytes > options.high {
        saturated := true;
        events := events + [Saturated];
      }
    }

    method AbandonSession()
      requires Valid()
      modifies this, socket
      ensures Valid() && socket == old(socket) && chunkStream == old(chunkStream)
      ensures var r := Abandon(old(State()));
              && State() == r.state
              && socket.written == old(socket.written) + EncodeEach(r.writes)
              && events == old(events) + r.events
    {
      if overflowed {
        return;
      }
      overflowed := true;
      WriteMessage(Frame(DISCONNECT, 0, incomingAckId, []));
      events := events + [Closed];
    }

    // The old socket is no longer listened to and its unread bytes are dropped; everything
    // unacknowledged goes out again on the new one.
    method ReplaceSocket(newSocket: Socket)
      requires Valid()
      modifies this, newSocket
      ensures Valid() && socket == newSocket && fresh(chunkStream) && chunkStream.Contents() == []
      ensures var r := Replace(old(State()));
              && State() == r.state
              && socket.written == old(newSocket.written) + EncodeEach(r.writes)
              && events == old(events) + r.events
    {
      hide EncodeEach, Messages, Encode;
      chunkStream := new ChunkStream();
      socket := newSocket;
      ghost var all := EncodeEach(Messages(outgoingUnackMsg));
      for i := 0 to |outgoingUnackMsg|
        invariant Valid() && socket == newSocket && fresh(chunkStream) && chunkStream.Contents() == []
        invariant State() == old(State()) && events == old(events)
        invariant socket.written == old(newSocket.written) + all[..i]
      {
        WriteMessage(outgoingUnackMsg[i].msg);
        assert EncodeEach([outgoingUnackMsg[i].msg]) == [all[i]];
        assert all[..i + 1] == all[..i] + [all[i]];
      }
      assert all[..|outgoingUnackMsg|] == all;
    }

    method ProcessAck(ack: nat)
      modifies this
      ensures socket == old(socket) && chunkStream == old(chunkStream)
      ensures var r := Reliability.ProcessAck(options, old(State()), ack);
              && State() == r.state
              && events == old(events) + r.events
    {
      while |outgoingUnackMsg| > 0 && outgoingUnackMsg[0].msg.id <= ack
        invariant Remaining(outgoingUnackMsg, ack) == Remaining(old(outgoingUnackMsg), ack)
        invariant unackBytes == old(unackBytes) - (PayloadBytes(old(outgoingUnackMsg)) - PayloadBytes(outgoingUnackMsg))
        invariant State() == old(State()).(unack := outgoingUnackMsg, unackBytes := unackBytes)
        invariant events == old(events) && socket == old(socket) && chunkStream == old(chunkStream)
        decreases |outgoingUnackMsg|
      {
        unackBytes := unackBytes - |outgoingUnackMsg[0].msg.data|;
        outgoingUnackMsg := outgoingUnackMsg[1..];
      }
      if saturated && unackBytes <= options.low {
        saturated := false;
        events := events + [Drained];
      }
    }

    method OnData(chunk: seq<byte>, now: int)
      requires Valid()
      modifies this, chunkStream
      ensures Valid() && socket == old(socket) && chunkStream == old(chunkStream)
      ensures var scan := ScanFrames(old(chunkStream.Contents()) + chunk);
              var r := ReceiveAll(options, old(State()), scan.frames, now);
              && State() == r.state
              && events == old(events) + r.events
              && chunkStream.Contents() == scan.rest
    {
      chunkStream.AcceptChunk(chunk);
      ReadMessages(now);
    }

    method ReadMessages(now: int)
      requires Valid()
      modifies this, chunkStream
      ensures Valid() && socket == old(socket) && chunkStream == old(chunkStream)
      ensures var scan := ScanFrames(old(chunkStream.Contents()));
              var r := ReceiveAll(options, old(State()), scan.frames, now);
              && State() == r.state
              && events == old(events) + r.events
              && chunkStream.Contents() == scan.rest
    {
      ghost var scan := ScanFrames(chunkStream.Contents());
      ghost var whole := ReceiveAll(options, State(), scan.frames, now);
      ghost var todo := scan;
      while true
        invariant Valid() && socket == old(socket) && chunkStream == old(chunkStream)
        invariant todo == ScanFrames(chunkStream.Contents()) && todo.rest == scan.rest
        invariant Reaches(State(), events, todo.frames, now, whole.state, old(events) + whole.events)
        decreases |chunkStream.Contents()|
      {
        var next := chunkStream.NextFrame();
        if next.None? {
          break;
        }
        ghost var later := ScanFrames(chunkStream.Contents());
        assert todo == Scan([next.value] + later.frames, later.rest);
        ghost var e, before := State(), events;
        HandleFrame(next.value, now);
        ReachesStep(e, before, next.value, later.frames, now, whole.state, old(events) + whole.events);
        todo := later;
      }
    }

    // Receiving `frames` in state `e`, after `events` have fired, ends in the given state and log.
    ghost predicate Reaches(e: Endpoint, events: seq<Event>, frames: seq<Frame>, now: int, end: Endpoint,
                            log: seq<Event>) {
      var r := ReceiveAll(options, e, frames, now);
      r.state == end && events + r.events == log
    }

    lemma {:induction false} ReachesStep(e: Endpoint, events: seq<Event>, f: Frame, frames: seq<Frame>, now: int,
                                         end: Endpoint, log: seq<Event>)
      requires Reaches(e, events, [f] + frames, now, end, log)
      ensures var r := Receive(options, e, f, now);
              Reaches(r.state, events + r.events, frames, now, end, log)
    {
      var r := Receive(options, e, f, now);
      var others := ReceiveAll(options, r.state, frames, now);
      ReceiveAllCons(options, e, f, frames, now);
      assert events + (r.events + others.events) == events + r.events + others.events;
    }

    method HandleFrame(f: Frame, now: int)
      modifies this
      ensures socket == old(socket) && chunkStream == old(chunkStream)
      ensures var r := Receive(options, old(State()), f, now);
              && State() == r.state
              && events == old(events) + r.events
    {
      ProcessAck(f.ack);
      if f.kind == REGULAR {
        incomingAckId := f.id;
        events := events + [Message(f.data)];
      } else if f.kind == DISCONNECT {
        events := events + [Closed];
      }
      lastAckTime := now;
    }

    method OnKeepAliveTimer()
      requires Valid()
      modifies socket
      ensures var r := KeepAlive(State());
              socket.written == old(socket.written) + EncodeEach(r.writes)
    {
      WriteMessage(Frame(KEEP_ALIVE, 0, incomingAckId, []));
    }

    method OnAckCheckTimer(now: int)
      requires Valid()
      modifies this, socket
      ensures Valid() && socket == old(socket) && chunkStream == old(chunkStream)
      ensures var r := AckCheck(options, old(State()), now);
              && State() == r.state
              && socket.written == old(socket.written) + EncodeEach(r.writes)
              && events == old(events) + r.events
    {
      if |outgoingUnackMsg| > 0 && now - lastAckTime > ACK_TIMEOUT {
        events := events + [SocketClosed];
      }
      if |outgoingUnackMsg| > 0 && now - outgoingUnackMsg[0].queuedAt > options.graceMs {
        AbandonSession();
      }
    }
  }
}
