// packages/rpc/src/buffer.ts: byte buffers and their big-endian 32-bit fields.

module Buffers {

  type byte = x: int | 0 <= x < 256

  const U32_LIMIT := 0x1_0000_0000

  // ToUint32 for the non-negative numbers that are ever stored: what `>>> 0` leaves.
  function U32(value: nat): (r: nat)
    ensures r < U32_LIMIT
    ensures value < U32_LIMIT ==> r == value
  {
    value % U32_LIMIT
  }

  // The four bytes that writeUInt32BE stores.
  function BE32(value: nat): (bytes: seq<byte>)
    ensures |bytes| == 4
  {
    var v := U32(value);
    [v / 0x100_0000, v / 0x1_0000 % 0x100, v / 0x100 % 0x100, v % 0x100]
  }

  function ReadBE32(bytes: seq<byte>, offset: nat): (value: nat)
    requires offset + 4 <= |bytes|
    ensures value < U32_LIMIT
  {
    var b0: int, b1: int, b2: int, b3: int := bytes[offset], bytes[offset + 1], bytes[offset + 2], bytes[offset + 3];
    b0 * 0x100_0000 + b1 * 0x1_0000 + b2 * 0x100 + b3
  }

  // The highest byte stands first.
  lemma {:induction false} BE32Digits(value: nat)
    ensures var b := BE32(value);
            b[0] as int * 0x100_0000 + b[1] as int * 0x1_0000 + b[2] as int * 0x100 + b[3] as int
            == value % 0x1_0000_0000
  {
    DigitsAddUp(U32(value));
  }

  // Reading a 32-bit field back gives the value modulo 2^32.
  lemma {:induction false} ReadBE32OfBE32(before: seq<byte>, value: nat, after: seq<byte>)
    ensures ReadBE32(before + BE32(value) + after, |before|) == U32(value)
  {
    var all := before + BE32(value) + after;
    forall i | 0 <= i < 4 ensures all[|before| + i] == BE32(value)[i] {
    }
    DigitsAddUp(U32(value));
  }

  lemma {:induction false} DigitsAddUp(v: nat)
    ensures v / 0x100_0000 * 0x100_0000 + v / 0x1_0000 % 0x100 * 0x1_0000 + v / 0x100 % 0x100 * 0x100 + v % 0x100 == v
  {
    assert v / 0x100 / 0x100 == v / 0x1_0000;
    assert v / 0x1_0000 / 0x100 == v / 0x100_0000;
  }

  // Storing a field that was read gives the same four bytes.
  lemma {:induction false} BE32OfReadBE32(bytes: seq<byte>, offset: nat)
    requires offset + 4 <= |bytes|
    ensures BE32(ReadBE32(bytes, offset)) == bytes[offset..offset + 4]
  {
    var v := ReadBE32(bytes, offset);
    DigitsComeBack(bytes[offset], bytes[offset + 1], bytes[offset + 2], bytes[offset + 3]);
    assert bytes[offset..offset + 4] == [bytes[offset], bytes[offset + 1], bytes[offset + 2], bytes[offset + 3]];
  }

  lemma {:induction false} DigitsComeBack(b0: int, b1: int, b2: int, b3: int)
    requires 0 <= b0 < 256 && 0 <= b1 < 256 && 0 <= b2 < 256 && 0 <= b3 < 256
    ensures var v := b0 * 0x100_0000 + b1 * 0x1_0000 + b2 * 0x100 + b3;
            v / 0x100_0000 == b0 && v / 0x1_0000 % 0x100 == b1 && v / 0x100 % 0x100 == b2 && v % 0x100 == b3
  {
    var v := b0 * 0x100_0000 + b1 * 0x1_0000 + b2 * 0x100 + b3;
    assert v / 0x100 == b0 * 0x1_0000 + b1 * 0x100 + b2;
    assert v / 0x1_0000 == b0 * 0x100 + b1;
  }

  method WriteUInt8(buffer: array<byte>, value: byte, offset: nat)
    requires offset < buffer.Length
    modifies buffer
    ensures buffer[..] == old(buffer[..])[offset := value]
  {
    buffer[offset] := value;
  }

  method WriteUInt32BE(buffer: array<byte>, value: nat, offset: nat)
    requires offset + 4 <= buffer.Length
    modifies buffer
    ensures buffer[..] == old(buffer[..offset]) + BE32(value) + old(buffer[offset + 4..])
    // the highest byte stands first
    ensures buffer[offset] as int * 0x100_0000 + buffer[offset + 1] as int * 0x1_0000
            + buffer[offset + 2] as int * 0x100 + buffer[offset + 3] as int == value % 0x1_0000_0000
  {
    var v := U32(value);
    DigitsAddUp(v);
    buffer[offset] := v / 0x100_0000;
    buffer[offset + 1] := v / 0x1_0000 % 0x100;
    buffer[offset + 2] := v / 0x100 % 0x100;
    buffer[offset + 3] := v % 0x100;
  }

  // Copies `source` over the bytes of `buffer` from `offset` on.
  method Set(buffer: array<byte>, source: seq<byte>, offset: nat)
    requires offset + |source| <= buffer.Length
    modifies buffer
    ensures buffer[..] == old(buffer[..offset]) + source + old(buffer[offset + |source|..])
  {
    var i := 0;
    while i < |source|
      invariant 0 <= i <= |source|
      invariant buffer[..offset] == old(buffer[..offset])
      invariant forall k :: 0 <= k < i ==> buffer[offset + k] == source[k]
      invariant buffer[offset + i..] == old(buffer[offset + i..])
    {
      buffer[offset + i] := source[i];
      i := i + 1;
    }
    var end := offset + |source|;
    assert buffer[offset..end] == source;
    assert buffer[..] == buffer[..offset] + buffer[offset..end] + buffer[end..];
  }

  // The bytes of a list of buffers, in order.
  function Flatten(buffers: seq<seq<byte>>): (bytes: seq<byte>)
  {
    if buffers == [] then [] else buffers[0] + Flatten(buffers[1..])
  }

  lemma {:induction false} FlattenConcat(a: seq<seq<byte>>, b: seq<seq<byte>>)
    ensures Flatten(a + b) == Flatten(a) + Flatten(b)
  {
    if a == [] {
      assert a + b == b;
    } else {
      assert (a + b)[1..] == a[1..] + b;
      FlattenConcat(a[1..], b);
    }
  }

  lemma {:induction false} FlattenOne(a: seq<byte>)
    ensures Flatten([a]) == a
  {
    assert Flatten([a]) == a + Flatten([]);
  }

  // VSBuffer.concat: one allocation, filled buffer by buffer.
  method Concat(buffers: seq<seq<byte>>) returns (result: array<byte>)
    ensures fresh(result)
    ensures result[..] == Flatten(buffers)
  {
    var length := 0;
    for i := 0 to |buffers|
      invariant length == |Flatten(buffers[..i])|
    {
      FlattenConcat(buffers[..i], [buffers[i]]);
      FlattenOne(buffers[i]);
      assert buffers[..i] + [buffers[i]] == buffers[..i + 1];
      length := length + |buffers[i]|;
    }
    assert buffers[..|buffers|] == buffers;
    result := new byte[length];
    var offset := 0;
    for i := 0 to |buffers|
      invariant offset == |Flatten(buffers[..i])| <= length
      invariant offset + |Flatten(buffers[i..])| == length
      invariant result[..offset] == Flatten(buffers[..i])
    {
      FlattenConcat(buffers[..i], [buffers[i]]);
      FlattenOne(buffers[i]);
      assert buffers[..i] + [buffers[i]] == buffers[..i + 1];
      assert buffers[i..][1..] == buffers[i + 1..];
      Set(result, buffers[i], offset);
      offset := offset + |buffers[i]|;
    }
    assert buffers[|buffers|..] == [];
  }
}
