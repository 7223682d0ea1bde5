// packages/rpc/src/protocol.ts: frames and their reassembly.

module Framing {
  // The 13-byte frame format, reassembly of frames from an arbitrarily cut byte stream, and the
  // plain socket protocol on top of both.

  import opened Wrappers
  import opened Buffers

  const HEADER_SIZE := 13

  const REGULAR: byte := 1
  const DISCONNECT: byte := 5
  const KEEP_ALIVE: byte := 9

  datatype Frame = Frame(kind: byte, id: nat, ack: nat, data: seq<byte>)

  // The frame as its receiver sees it: 32-bit fields have wrapped.
  function Wire(f: Frame): (w: Frame) {
    Frame(f.kind, U32(f.id), U32(f.ack), f.data)
  }

  // A payload whose length fits the length field.
  predicate Sendable(f: Frame) {
    |f.data| < U32_LIMIT
  }

  function Encode(f: Frame): (bytes: seq<byte>)
    ensures |bytes| == HEADER_SIZE + |f.data|
  {
    [f.kind] + BE32(f.id) + BE32(f.ack) + BE32(|f.data|) + f.data
  }

  function EncodeAll(frames: seq<Frame>): (bytes: seq<byte>) {
    if frames == [] then [] else Encode(frames[0]) + EncodeAll(frames[1..])
  }

  method WriteProtocolMessage(msg: Frame) returns (buffer: array<byte>)
    ensures fresh(buffer)
    ensures buffer[..] == Encode(msg)
    // kind, id, acknowledgement and length, then the payload
    ensures buffer.Length == 13 + |msg.data| && buffer[0] == msg.kind && buffer[13..] == msg.data
    ensures buffer[1] as int * 0x100_0000 + buffer[2] as int * 0x1_0000 + buffer[3] as int * 0x100 + buffer[4] as int
            == msg.id % 0x1_0000_0000
    ensures buffer[5] as int * 0x100_0000 + buffer[6] as int * 0x1_0000 + buffer[7] as int * 0x100 + buffer[8] as int
            == msg.ack % 0x1_0000_0000
    ensures buffer[9] as int * 0x100_0000 + buffer[10] as int * 0x1_0000 + buffer[11] as int * 0x100 + buffer[12] as int
            == |msg.data| % 0x1_0000_0000
  {
    hide BE32, U32;
    buffer := new byte[HEADER_SIZE + |msg.data|](_ => 0);
    WriteUInt8(buffer, msg.kind, 0);
    assert buffer[..1] == [msg.kind];
    WriteUInt32BE(buffer, msg.id, 1);
    ghost var id := buffer[1..5];
    assert buffer[..5] == [msg.kind] + BE32(msg.id) && id == BE32(msg.id);
    WriteUInt32BE(buffer, msg.ack, 5);
    ghost var ack := buffer[5..9];
    assert buffer[..9] == [msg.kind] + BE32(msg.id) + BE32(msg.ack) && ack == BE32(msg.ack);
    WriteUInt32BE(buffer, |msg.data|, 9);
    ghost var length := buffer[9..13];
    assert buffer[..13] == [msg.kind] + BE32(msg.id) + BE32(msg.ack) + BE32(|msg.data|) && length == BE32(|msg.data|);
    Set(buffer, msg.data, HEADER_SIZE);
    HeaderApart([msg.kind], id, ack, length, msg.data, []);
    assert buffer[1..5] == id && buffer[5..9] == ack && buffer[9..13] == length;
    assert buffer[1..5][0] == buffer[1] && buffer[5..9][0] == buffer[5] && buffer[9..13][0] == buffer[9];
    BE32Digits(msg.id);
    BE32Digits(msg.ack);
    BE32Digits(|msg.data|);
  }

  // ---------------------------------------------------------------------------------------
  // What a byte stream means
  // ---------------------------------------------------------------------------------------

  // A whole frame is there once the header and the number of bytes it announces are.
  predicate Ready(bytes: seq<byte>) {
    HEADER_SIZE <= |bytes| && HEADER_SIZE + ReadBE32(bytes, 9) <= |bytes|
  }

  function FrameSize(bytes: seq<byte>): (size: nat)
    requires Ready(bytes)
    ensures HEADER_SIZE <= size <= |bytes|
  {
    HEADER_SIZE + ReadBE32(bytes, 9)
  }

  function HeadFrame(bytes: seq<byte>): (f: Frame)
    requires Ready(bytes)
  {
    Frame(bytes[0], ReadBE32(bytes, 1), ReadBE32(bytes, 5), bytes[HEADER_SIZE..FrameSize(bytes)])
  }

  datatype Scan = Scan(frames: seq<Frame>, rest: seq<byte>)

  // The complete frames at the front of a byte stream, and the bytes after the last of them.
  function ScanFrames(bytes: seq<byte>): (scan: Scan)
    decreases |bytes|
  {
    if Ready(bytes) then
      var tail := ScanFrames(bytes[FrameSize(bytes)..]);
      Scan([HeadFrame(bytes)] + tail.frames, tail.rest)
    else
      Scan([], bytes)
  }

  // Encoding a frame and reading the head of the stream are inverse to each other.
  lemma {:induction false} HeadOfEncoded(f: Frame, after: seq<byte>)
    requires Sendable(f)
    ensures Ready(Encode(f) + after)
    ensures HeadFrame(Encode(f) + after) == Wire(f)
    ensures (Encode(f) + after)[FrameSize(Encode(f) + after)..] == after
  {
    hide BE32, ReadBE32;
    var bytes := Encode(f) + after;
    var id, ack, length := BE32(f.id), BE32(f.ack), BE32(|f.data|);
    HeaderApart([f.kind], id, ack, length, f.data, after);
    ReadBE32OfBE32([f.kind], f.id, ack + length + f.data + after);
    ReadBE32OfBE32([f.kind] + id, f.ack, length + f.data + after);
    ReadBE32OfBE32([f.kind] + id + ack, |f.data|, f.data + after);
  }

  lemma {:induction false} HeaderApart(kind: seq<byte>, id: seq<byte>, ack: seq<byte>, length: seq<byte>,
                                       data: seq<byte>, after: seq<byte>)
    ensures var bytes := kind + id + ack + length + data + after;
            && bytes == kind + id + (ack + length + data + after)
            && bytes == kind + id + ack + (length + data + after)
            && bytes == kind + id + ack + length + (data + after)
            && bytes[|kind + id + ack + length|..] == data + after
            && bytes[..|kind|] == kind
            && bytes[|kind + id + ack + length|..|kind + id + ack + length| + |data|] == data
            && bytes[|kind + id + ack + length| + |data|..] == after
  {
  }

  // A stream of encoded frames followed by an unfinished one is read as exactly those frames.
  lemma {:induction false} ScanOfEncoded(frames: seq<Frame>, tail: seq<byte>)
    requires forall f <- frames :: Sendable(f)
    requires !Ready(tail)
    ensures ScanFrames(EncodeAll(frames) + tail) == Scan(WireAll(frames), tail)
  {
    if frames == [] {
      assert EncodeAll(frames) + tail == tail;
    } else {
      var after := EncodeAll(frames[1..]) + tail;
      assert EncodeAll(frames) + tail == Encode(frames[0]) + after;
      HeadOfEncoded(frames[0], after);
      ScanOfEncoded(frames[1..], tail);
    }
  }

  function WireAll(frames: seq<Frame>): (wires: seq<Frame>) {
    if frames == [] then [] else [Wire(frames[0])] + WireAll(frames[1..])
  }

  // Reading is lossless on every byte string: the frames found and the rest rebuild it.
  lemma {:induction false} ScanLosesNothing(bytes: seq<byte>)
    ensures !Ready(ScanFrames(bytes).rest)
    ensures EncodeAll(ScanFrames(bytes).frames) + ScanFrames(bytes).rest == bytes
    decreases |bytes|
  {
    if Ready(bytes) {
      var size := FrameSize(bytes);
      ScanLosesNothing(bytes[size..]);
      HeadIsNotLost(bytes, ScanFrames(bytes[size..]));
    }
  }

  lemma {:induction false} HeadIsNotLost(bytes: seq<byte>, tail: Scan)
    requires Ready(bytes)
    requires EncodeAll(tail.frames) + tail.rest == bytes[FrameSize(bytes)..]
    ensures EncodeAll([HeadFrame(bytes)] + tail.frames) + tail.rest == bytes
  {
    var size := FrameSize(bytes);
    EncodeAllCons(HeadFrame(bytes), tail.frames);
    EncodeOfHead(bytes);
    assert bytes[..size] + EncodeAll(tail.frames) + tail.rest == bytes[..size] + bytes[size..] == bytes;
  }

  lemma {:induction false} EncodeAllCons(f: Frame, frames: seq<Frame>)
    ensures EncodeAll([f] + frames) == Encode(f) + EncodeAll(frames)
  {
    assert ([f] + frames)[1..] == frames;
  }

  lemma {:induction false} EncodeOfHead(bytes: seq<byte>)
    requires Ready(bytes)
    ensures Encode(HeadFrame(bytes)) == bytes[..FrameSize(bytes)]
  {
    BE32OfReadBE32(bytes, 1);
    BE32OfReadBE32(bytes, 5);
    BE32OfReadBE32(bytes, 9);
  }

  // Cutting the stream anywhere changes neither what is read nor what is left over.
  lemma {:induction false} ScanInPieces(a: seq<byte>, b: seq<byte>)
    ensures ScanFrames(a + b).frames == ScanFrames(a).frames + ScanFrames(ScanFrames(a).rest + b).frames
    ensures ScanFrames(a + b).rest == ScanFrames(ScanFrames(a).rest + b).rest
    decreases |a|
  {
    if Ready(a) {
      var size := FrameSize(a);
      assert Ready(a + b) && FrameSize(a + b) == size && HeadFrame(a + b) == HeadFrame(a);
      assert (a + b)[size..] == a[size..] + b;
      ScanInPieces(a[size..], b);
    }
  }

  // ---------------------------------------------------------------------------------------
  // ChunkStream
  // ---------------------------------------------------------------------------------------

  // Taking the next bytes off the front of what is unread.
  lemma {:induction false} NextBytes(all: seq<byte>, offset: nat, chunk: seq<byte>, rest: seq<byte>, n: nat)
    requires offset <= |all| && all[offset..] == chunk + rest && n <= |chunk|
    ensures offset + n <= |all|
    ensures all[..offset + n] == all[..offset] + chunk[..n]
    ensures all[offset + n..] == chunk[n..] + rest
  {
    assert all == all[..offset] + chunk + rest;
    assert chunk == chunk[..n] + chunk[n..];
  }

  // What is copied behind a correct beginning makes a longer one.
  lemma {:induction false} BeginningGrows(result: seq<byte>, copied: seq<byte>, after: seq<byte>, all: seq<byte>,
                                          offset: nat)
    requires offset + |copied| <= |all| && all[..offset + |copied|] == all[..offset] + copied
    requires result == all[..offset] + copied + after
    ensures result[..offset + |copied|] == all[..offset + |copied|]
  {
  }

  lemma {:induction false} FirstChunk(chunks: seq<seq<byte>>)
    ensures chunks == [] ==> Flatten(chunks) == []
    ensures chunks != [] ==> Flatten(chunks) == chunks[0] + Flatten(chunks[1..])
  {
  }

  lemma {:induction false} FrontOfTwo(a: seq<byte>, b: seq<byte>, n: nat)
    requires n <= |a|
    ensures (a + b)[..n] == a[..n] && (a + b)[n..] == a[n..] + b
  {
  }

  class ChunkStream {
    var chunks: seq<seq<byte>>
    var totalLength: nat

    ghost predicate Valid()
      reads this
    {
      totalLength == |Contents()|
    }

    // The unread bytes, however they were cut.
    ghost function Contents(): (bytes: seq<byte>)
      reads this
    {
      Flatten(chunks)
    }

    constructor ()
      ensures Valid() && Contents() == [] && chunks == []
    {
      chunks := [];
      totalLength := 0;
    }

    method AcceptChunk(chunk: seq<byte>)
      requires Valid()
      modifies this
      ensures Valid() && Contents() == old(Contents()) + chunk
      ensures chunks != []
    {
      FlattenConcat(chunks, [chunk]);
      FlattenOne(chunk);
      chunks := chunks + [chunk];
      totalLength := totalLength + |chunk|;
    }

    // The source reads chunks[0] before anything else, so an empty list is only allowed
    // where the length test has already failed.
    method Peek(byteCount: nat) returns (r: Option<seq<byte>>)
      requires Valid()
      requires byteCount > 0 || chunks != []
      ensures r == if |Contents()| < byteCount then None else Some(Contents()[..byteCount])
    {
      hide Flatten;
      ghost var all := Contents();
      FirstChunk(chunks);
      if totalLength < byteCount {
        return None;
      }
      if |chunks[0]| >= byteCount {
        FrontOfTwo(chunks[0], Flatten(chunks[1..]), byteCount);
        return Some(chunks[0][..byteCount]);
      }
      var result := new byte[byteCount];
      var offset := 0;
      var i := 0;
      assert chunks[0..] == chunks && all[0..] == all;
      while i < |chunks| && offset < byteCount
        invariant 0 <= i <= |chunks|
        invariant 0 <= offset <= byteCount
        invariant result[..offset] == all[..offset]
        invariant offset < byteCount ==> all[offset..] == Flatten(chunks[i..])
      {
        var chunk := chunks[i];
        var remaining := byteCount - offset;
        var copyLength := if |chunk| <= remaining then |chunk| else remaining;
        var copied := if copyLength == |chunk| then chunk else chunk[..copyLength];
        ghost var after := result[offset + copyLength..];
        FirstChunk(chunks[i..]);
        assert chunks[i..][1..] == chunks[i + 1..];
        NextBytes(all, offset, chunk, Flatten(chunks[i + 1..]), copyLength);
        Set(result, copied, offset);
        BeginningGrows(result[..], copied, after, all, offset);
        offset := offset + copyLength;
        i := i + 1;
      }
      FirstChunk(chunks[i..]);
      assert result[..] == result[..offset];
      return Some(result[..]);
    }

    method Read(byteCount: nat) returns (r: Option<seq<byte>>)
      requires Valid()
      requires byteCount > 0 || chunks != []
      modifies this
      ensures Valid()
      ensures r == if |old(Contents())| < byteCount then None else Some(old(Contents())[..byteCount])
      ensures Contents() == if r.None? then old(Contents()) else old(Contents())[byteCount..]
    {
      hide Flatten;
      ghost var all := Contents();
      FirstChunk(chunks);
      if totalLength < byteCount {
        return None;
      }
      ghost var others := Flatten(chunks[1..]);
      if |chunks[0]| == byteCount {
        FrontOfTwo(chunks[0], others, byteCount);
        r := Some(chunks[0]);
        chunks := chunks[1..];
        totalLength := totalLength - byteCount;
        return;
      }
      if |chunks[0]| > byteCount {
        FrontOfTwo(chunks[0], others, byteCount);
        r := Some(chunks[0][..byteCount]);
        CutFirst(byteCount);
        totalLength := totalLength - byteCount;
        return;
      }
      var result := new byte[byteCount];
      var offset := 0;
      while offset < byteCount
        invariant 0 <= offset <= byteCount <= |all|
        invariant totalLength == old(totalLength)
        invariant result[..offset] == all[..offset]
        invariant Flatten(chunks) == all[offset..]
        decreases byteCount - offset, |chunks|
      {
        FirstChunk(chunks);
        var chunk := chunks[0];
        var needed := byteCount - offset;
        var copied := if |chunk| <= needed then chunk else chunk[..needed];
        ghost var after := result[offset + |copied|..];
        NextBytes(all, offset, chunk, Flatten(chunks[1..]), |copied|);
        Set(result, copied, offset);
        BeginningGrows(result[..], copied, after, all, offset);
        if |chunk| <= needed {
          offset := offset + |chunk|;
          chunks := chunks[1..];
        } else {
          CutFirst(needed);
          offset := offset + needed;
        }
      }
      assert result[..] == result[..offset];
      totalLength := totalLength - byteCount;
      r := Some(result[..]);
    }

    // The first chunk loses its beginning.
    method CutFirst(count: nat)
      requires chunks != [] && count <= |chunks[0]|
      modifies this`chunks
      ensures chunks != [] && chunks[0] == old(chunks[0])[count..] && chunks[1..] == old(chunks[1..])
      ensures |chunks| == |old(chunks)|
      ensures Contents() == old(chunks[0])[count..] + Flatten(old(chunks[1..]))
    {
      chunks := chunks[0 := chunks[0][count..]];
    }

    // Throws when fewer bytes are there, so callers test first.
    method Skip(byteCount: nat)
      requires Valid()
      requires byteCount > 0 || chunks != []
      requires byteCount <= |Contents()|
      modifies this
      ensures Valid() && Contents() == old(Contents())[byteCount..]
    {
      var discarded := Read(byteCount);
    }

    // One round of a readMessages loop: the next whole frame, if it has arrived. The header is
    // only consumed once the body is complete.
    method NextFrame() returns (r: Option<Frame>)
      requires Valid()
      modifies this
      ensures Valid()
      ensures r == if Ready(old(Contents())) then Some(HeadFrame(old(Contents()))) else None
      ensures Contents() == if r.Some? then old(Contents())[FrameSize(old(Contents()))..] else old(Contents())
    {
      hide Flatten;
      var bytes := Peek(HEADER_SIZE);
      if bytes.None? {
        return None;
      }
      var header := bytes.value;
      ghost var all := Contents();
      assert header == all[..HEADER_SIZE];
      var kind, id, ack, length := header[0], ReadBE32(header, 1), ReadBE32(header, 5), ReadBE32(header, 9);
      assert id == ReadBE32(all, 1) && ack == ReadBE32(all, 5) && length == ReadBE32(all, 9);
      if totalLength < HEADER_SIZE + length {
        return None;
      }
      Skip(HEADER_SIZE);
      assert all[HEADER_SIZE..][length..] == all[HEADER_SIZE + length..];
      assert all[HEADER_SIZE..][..length] == all[HEADER_SIZE..HEADER_SIZE + length];
      if length == 0 {
        return Some(Frame(kind, id, ack, []));
      }
      var body := Read(length);
      return Some(Frame(kind, id, ack, body.value));
    }
  }

  // ---------------------------------------------------------------------------------------
  // SocketProtocol
  // ---------------------------------------------------------------------------------------

  function Payloads(frames: seq<Frame>): (messages: seq<seq<byte>>) {
    if frames == [] then []
    else (if frames[0].kind == REGULAR then [frames[0].data] else []) + Payloads(frames[1..])
  }

  lemma {:induction false} PayloadsConcat(a: seq<Frame>, b: seq<Frame>)
    ensures Payloads(a + b) == Payloads(a) + Payloads(b)
  {
    if a == [] {
      assert a + b == b;
    } else {
      assert (a + b)[1..] == a[1..] + b && (a + b)[0] == a[0];
      PayloadsConcat(a[1..], b);
      var first := if a[0].kind == REGULAR then [a[0].data] else [];
      assert first + (Payloads(a[1..]) + Payloads(b)) == first + Payloads(a[1..]) + Payloads(b);
    }
  }

  // What reading the head frame does to the messages still to come.
  lemma {:induction false} ScanHead(messages: seq<seq<byte>>, bytes: seq<byte>)
    ensures Ready(bytes) ==>
              var head, tail := HeadFrame(bytes), ScanFrames(bytes[FrameSize(bytes)..]);
              && messages + Payloads(ScanFrames(bytes).frames)
                   == (if head.kind == REGULAR then messages + [head.data] else messages) + Payloads(tail.frames)
              && ScanFrames(bytes).rest == tail.rest
    ensures !Ready(bytes) ==> ScanFrames(bytes) == Scan([], bytes) && messages + Payloads([]) == messages
  {
    if Ready(bytes) {
      var tail := ScanFrames(bytes[FrameSize(bytes)..]);
      PayloadsConcat([HeadFrame(bytes)], tail.frames);
    }
  }

  class SocketProtocol {
    const stream: ChunkStream
    // Everything onMessage has delivered.
    var messages: seq<seq<byte>>

    ghost predicate Valid()
      reads this, stream
    {
      stream.Valid()
    }

    constructor ()
      ensures Valid() && fresh(stream)
      ensures messages == [] && stream.Contents() == []
    {
      stream := new ChunkStream();
      messages := [];
    }

    method OnData(chunk: seq<byte>)
      requires Valid()
      modifies this, stream
      ensures Valid()
      ensures messages == old(messages) + Payloads(ScanFrames(old(stream.Contents()) + chunk).frames)
      ensures stream.Contents() == ScanFrames(old(stream.Contents()) + chunk).rest
    {
      stream.AcceptChunk(chunk);
      ReadMessages();
    }

    method ReadMessages()
      requires Valid()
      modifies this, stream
      ensures Valid()
      ensures messages == old(messages) + Payloads(ScanFrames(old(stream.Contents())).frames)
      ensures stream.Contents() == ScanFrames(old(stream.Contents())).rest
    {
      hide ScanFrames, Payloads;
      while true
        invariant Valid()
        invariant messages + Payloads(ScanFrames(stream.Contents()).frames)
               == old(messages) + Payloads(ScanFrames(old(stream.Contents())).frames)
        invariant ScanFrames(stream.Contents()).rest == ScanFrames(old(stream.Contents())).rest
        decreases |stream.Contents()|
      {
        ghost var bytes := stream.Contents();
        var frame := stream.NextFrame();
        ScanHead(messages, bytes);
        if frame.None? {
          break;
        }
        if frame.value.kind == REGULAR {
          messages := messages + [frame.value.data];
        }
      }
    }
  }

  // ---------------------------------------------------------------------------------------
  // Every cutting of every stream
  // ---------------------------------------------------------------------------------------

  datatype ReaderState = ReaderState(messages: seq<seq<byte>>, rest: seq<byte>)

  // What SocketProtocol.OnData does to the delivered messages and the unread bytes.
  function Feed(s: ReaderState, chunk: seq<byte>): (s': ReaderState) {
    var scan := ScanFrames(s.rest + chunk);
    ReaderState(s.messages + Payloads(scan.frames), scan.rest)
  }

  function FeedAll(s: ReaderState, chunks: seq<seq<byte>>): (s': ReaderState)
    decreases |chunks|
  {
    if chunks == [] then s else FeedAll(Feed(s, chunks[0]), chunks[1..])
  }

  // Many chunks, empty ones included, leave the reader where one big chunk leaves it.
  lemma {:induction false} ChunkingIsInvisible(s: ReaderState, chunks: seq<seq<byte>>)
    requires !Ready(s.rest)
    ensures FeedAll(s, chunks) == Feed(s, Flatten(chunks))
    decreases |chunks|
  {
    if chunks == [] {
      assert s.rest + [] == s.rest;
    } else {
      var s1 := Feed(s, chunks[0]);
      ScanLosesNothing(s.rest + chunks[0]);
      ChunkingIsInvisible(s1, chunks[1..]);
      FeedInPieces(s, chunks[0], Flatten(chunks[1..]));
    }
  }

  lemma {:induction false} ScanOfThreePieces(rest: seq<byte>, a: seq<byte>, b: seq<byte>)
    ensures var first := ScanFrames(rest + a);
            var second := ScanFrames(first.rest + b);
            ScanFrames(rest + (a + b)) == Scan(first.frames + second.frames, second.rest)
  {
    ScanInPieces(rest + a, b);
    assert rest + (a + b) == rest + a + b;
  }

  lemma {:induction false} FeedInPieces(s: ReaderState, a: seq<byte>, b: seq<byte>)
    ensures Feed(Feed(s, a), b) == Feed(s, a + b)
  {
    var first := ScanFrames(s.rest + a);
    var second := ScanFrames(first.rest + b);
    FeedsAdd(s.messages, first.frames, second.frames);
    ScanOfThreePieces(s.rest, a, b);
  }

  lemma {:induction false} FeedsAdd(messages: seq<seq<byte>>, a: seq<Frame>, b: seq<Frame>)
    ensures messages + Payloads(a) + Payloads(b) == messages + Payloads(a + b)
  {
    PayloadsConcat(a, b);
  }

  // However the bytes of some frames and of one unfinished frame are cut, exactly the
  // regular payloads come out, in order, and exactly the unfinished part is kept.
  lemma {:induction false} EveryCuttingDeliversEveryFrame(frames: seq<Frame>, tail: seq<byte>, chunks: seq<seq<byte>>)
    requires forall f <- frames :: Sendable(f)
    requires !Ready(tail)
    requires Flatten(chunks) == EncodeAll(frames) + tail
    ensures FeedAll(ReaderState([], []), chunks) == ReaderState(Payloads(frames), tail)
  {
    hide *;
    var start := ReaderState([], []);
    NothingIsReady();
    ChunkingIsInvisible(start, chunks);
    ScanOfEncoded(frames, tail);
    PayloadsOfWire(frames);
    FirstFeed(Flatten(chunks));
  }

  lemma {:induction false} FirstFeed(bytes: seq<byte>)
    ensures Feed(ReaderState([], []), bytes) == ReaderState(Payloads(ScanFrames(bytes).frames), ScanFrames(bytes).rest)
  {
    hide ScanFrames, Payloads;
    NothingBefore(bytes);
    NothingBefore(Payloads(ScanFrames(bytes).frames));
  }

  lemma {:induction false} NothingBefore<T>(s: seq<T>)
    ensures [] + s == s
  {
  }

  lemma {:induction false} NothingIsReady()
    ensures !Ready([])
  {
  }

  lemma {:induction false} PayloadsOfWire(frames: seq<Frame>)
    ensures Payloads(WireAll(frames)) == Payloads(frames)
  {
    if frames != [] {
      PayloadsOfWire(frames[1..]);
    }
  }
}
