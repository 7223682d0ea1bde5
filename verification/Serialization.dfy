// packages/rpc/src/serialization.ts: tagged binary values.

module Serialization {
  // A text stands for its UTF-8 bytes, and a value that is sent as JSON for the bytes of its JSON
  // text: both conversions are outside this model.

  import opened Buffers
  import opened Powers

  const INT32_LIMIT := 0x8000_0000

  type int32 = x: int | -INT32_LIMIT <= x < INT32_LIMIT

  const UNDEFINED: byte := 0
  const STRING: byte := 1
  const BUFFER: byte := 2
  const VS_BUFFER: byte := 3
  const ARRAY: byte := 4
  const OBJECT: byte := 5
  const INT: byte := 6

  datatype Value =
    | Undefined
    | Str(utf8: seq<byte>)
    | Buffer(bytes: seq<byte>)
    | VSBuffer(bytes: seq<byte>)
    | Array(items: seq<Value>)
    | Object(json: seq<byte>)
    | Int(n: int32)

  // ---------------------------------------------------------------------------------------
  // 32-bit arithmetic
  // ---------------------------------------------------------------------------------------

  function ToUint32(n: int): (u: nat)
    ensures u < U32_LIMIT
  {
    n % U32_LIMIT
  }

  function ToInt32(n: int): (i: int32) {
    var u := ToUint32(n);
    if u < INT32_LIMIT then u else u - U32_LIMIT
  }

  // The bits of either number.
  function Or(a: nat, b: nat): (c: nat)
    decreases a + b
  {
    if a == 0 && b == 0 then 0
    else (if a % 2 == 1 || b % 2 == 1 then 1 else 0) + 2 * Or(a / 2, b / 2)
  }

  lemma {:induction false} OrZero(b: nat)
    ensures Or(0, b) == b
  {
    if b > 0 {
      OrZero(b / 2);
    }
  }

  // Bits that do not meet are added.
  lemma {:induction false} OrAbove(a: nat, d: nat, n: nat)
    requires a < TimesPow2(1, n)
    ensures Or(a, TimesPow2(d, n)) == a + TimesPow2(d, n)
  {
    if n == 0 {
      OrZero(d);
    } else {
      OrAbove(a / 2, d, n - 1);
    }
  }

  // ---------------------------------------------------------------------------------------
  // Variable-length integers
  // ---------------------------------------------------------------------------------------

  // Seven bits a byte, the low ones first, with the top bit on all but the last byte.
  function VQL(u: nat): (bytes: seq<byte>)
    ensures bytes != []
  {
    if u < 128 then [u] else [u % 128 + 128] + VQL(u / 128)
  }

  lemma {:induction false} VqlLength(u: nat, k: nat)
    requires u < TimesPow2(1, 7 * k) && k > 0
    ensures |VQL(u)| <= k
  {
    SevenMore(1, 7 * (k - 1));
    TimesPow2OfOne(7 * (k - 1));
    if u >= 128 {
      if k == 1 {
        assert false;
      }
      VqlLength(u / 128, k - 1);
    }
  }

  lemma {:induction false} TimesPow2OfOne(n: nat)
    ensures TimesPow2(128, n) == 128 * TimesPow2(1, n)
  {
    if n > 0 {
      TimesPow2OfOne(n - 1);
    }
  }

  // The number of bits that five bytes hold is enough.
  lemma {:induction false} Pow28()
    ensures TimesPow2(1, 28) == 0x1000_0000
  {
    TimesPow2OfOne(0);
    TimesPow2OfOne(7);
    TimesPow2OfOne(14);
    TimesPow2OfOne(21);
    SevenMore(1, 0);
    SevenMore(1, 7);
    SevenMore(1, 14);
    SevenMore(1, 21);
  }

  // Every 32-bit integer, negative ones included, takes at most five bytes.
  lemma {:induction false} FiveBytesSuffice(n: int)
    ensures 1 <= |VQL(ToUint32(n))| <= 5
  {
    Pow28();
    SevenMore(1, 28);
    TimesPow2OfOne(28);
    VqlLength(ToUint32(n), 5);
  }

  datatype Read<T> = Read(value: T, pos: nat)

  // The bits that one byte adds. JavaScript takes shift counts modulo 32.
  function WithByte(value: nat, b: byte, n: nat): (value': nat) {
    Or(value, ToUint32(TimesPow2(b % 128, n % 32)))
  }

  // What is read at a position; the end of the data ends the number.
  function ReadVQL(buffer: seq<byte>, pos: nat, value: nat, n: nat): (r: Read<nat>)
    requires pos <= |buffer|
    ensures pos <= r.pos <= |buffer|
    decreases |buffer| - pos
  {
    if pos == |buffer| then Read(value, pos)
    else
      var b := buffer[pos];
      if b < 128 then Read(WithByte(value, b, n), pos + 1)
      else ReadVQL(buffer, pos + 1, WithByte(value, b, n), n + 7)
  }

  function ReadInt(buffer: seq<byte>, pos: nat): (r: Read<int32>)
    requires pos <= |buffer|
    ensures pos <= r.pos <= |buffer|
  {
    var r := ReadVQL(buffer, pos, 0, 0);
    Read(ToInt32(r.value), r.pos)
  }

  // ---------------------------------------------------------------------------------------
  // Reading an integer back
  // ---------------------------------------------------------------------------------------

  lemma {:induction false} SmallStays(n: nat)
    requires n < U32_LIMIT
    ensures ToUint32(n) == n
  {
  }

  // One byte of seven bits, placed above the bits read before.
  lemma {:induction false} DigitIsAdded(value: nat, b: byte, n: nat)
    requires value < TimesPow2(1, n) && n <= 28
    requires value + TimesPow2(b % 128, n) < U32_LIMIT
    ensures WithByte(value, b, n) == value + TimesPow2(b % 128, n)
  {
    hide Or, TimesPow2, ToUint32;
    assert n % 32 == n;
    OrAbove(value, b % 128, n);
    SmallStays(TimesPow2(b % 128, n));
  }

  // Splitting off the lowest seven bits of u.
  lemma {:induction false} DigitsApart(u: nat, value: nat, n: nat)
    requires value < TimesPow2(1, n)
    ensures value + TimesPow2(u % 128, n) < TimesPow2(1, n + 7)
    ensures TimesPow2(u % 128, n) + TimesPow2(u / 128, n + 7) == TimesPow2(u, n)
  {
    hide TimesPow2;
    var low, high := u % 128, u / 128;
    assert u == low + 128 * high;
    TimesPow2Adds(low, 128 * high, n);
    SevenMore(high, n);
    TimesPow2Adds(1, low, n);
    TimesPow2Grows(1 + low, 128, n);
    SevenMore(1, n);
  }

  lemma {:induction false} FifthByteEnds(u: nat, value: nat)
    requires value + TimesPow2(u, 28) < U32_LIMIT
    ensures u < 16
  {
    if u >= 16 {
      TimesPow2Grows(16, u, 28);
      TimesPow2Doubles(8, 28);
      TimesPow2Doubles(4, 29);
      TimesPow2Doubles(2, 30);
      TimesPow2Doubles(1, 31);
      Pow28();
      Pow32();
    }
  }

  lemma {:induction false} Pow32()
    ensures TimesPow2(1, 32) == U32_LIMIT
  {
    Pow28();
    assert TimesPow2(1, 32) == 2 * TimesPow2(1, 31) == 4 * TimesPow2(1, 30) == 8 * TimesPow2(1, 29);
  }

  lemma {:induction false} VqlIsRead(before: seq<byte>, u: nat, after: seq<byte>, value: nat, n: nat)
    requires n <= 28 && n % 7 == 0 && value < TimesPow2(1, n)
    requires value + TimesPow2(u, n) < U32_LIMIT
    ensures ReadVQL(before + VQL(u) + after, |before|, value, n) == Read(value + TimesPow2(u, n), |before| + |VQL(u)|)
    decreases u
  {
    hide TimesPow2, WithByte;
    var buffer := before + VQL(u) + after;
    DigitsApart(u, value, n);
    FirstByte(before, u, after);
    DigitIsAdded(value, buffer[|before|], n);
    if u < 128 {
      NothingAbove(n);
    } else {
      if n == 28 {
        FifthByteEnds(u, value);
        assert false;
      }
      VqlIsRead(before + [u % 128 + 128], u / 128, after, value + TimesPow2(u % 128, n), n + 7);
    }
  }

  lemma {:induction false} NothingAbove(n: nat)
    ensures TimesPow2(0, n + 7) == 0
  {
    SevenMore(0, n);
    TimesPow2Adds(0, 0, n + 7);
  }

  lemma {:induction false} FirstByte(before: seq<byte>, u: nat, after: seq<byte>)
    ensures var buffer := before + VQL(u) + after;
            && |before| < |buffer| && buffer[|before|] % 128 == u % 128
            && (u < 128 ==> buffer[|before|] == u && |VQL(u)| == 1)
            && (u >= 128 ==>
                  && buffer[|before|] >= 128
                  && buffer == before + [u % 128 + 128] + VQL(u / 128) + after
                  && |VQL(u)| == 1 + |VQL(u / 128)|)
  {
    if u >= 128 {
      assert before + VQL(u) + after == before + [u % 128 + 128] + VQL(u / 128) + after;
    }
  }

  // Every 32-bit integer is read back, whatever follows it.
  lemma {:induction false} IntIsRead(before: seq<byte>, n: int, after: seq<byte>)
    ensures ReadInt(before + VQL(ToUint32(n)) + after, |before|) == Read(ToInt32(n), |before| + |VQL(ToUint32(n))|)
  {
    var u := ToUint32(n);
    VqlAlone(before, u, after);
    SameInt32(n);
  }

  lemma {:induction false} SameInt32(n: int)
    ensures ToInt32(ToUint32(n)) == ToInt32(n)
  {
  }

  lemma {:induction false} VqlAlone(before: seq<byte>, u: nat, after: seq<byte>)
    requires u < U32_LIMIT
    ensures ReadVQL(before + VQL(u) + after, |before|, 0, 0) == Read(u, |before| + |VQL(u)|)
  {
    hide VQL, ReadVQL;
    VqlIsRead(before, u, after, 0, 0);
  }

  // ---------------------------------------------------------------------------------------
  // Values
  // ---------------------------------------------------------------------------------------

  function WithLength(tag: byte, bytes: seq<byte>): (encoded: seq<byte>)
    ensures |encoded| > |bytes|
  {
    [tag] + VQL(ToUint32(|bytes|)) + bytes
  }

  function Encode(v: Value): (bytes: seq<byte>)
    ensures bytes != []
    decreases v, 0
  {
    match v
    case Undefined => [UNDEFINED]
    case Str(utf8) => WithLength(STRING, utf8)
    case Buffer(bytes) => WithLength(BUFFER, bytes)
    case VSBuffer(bytes) => WithLength(VS_BUFFER, bytes)
    case Array(items) => [ARRAY] + VQL(ToUint32(|items|)) + EncodeAll(items)
    case Object(json) => WithLength(OBJECT, json)
    case Int(n) => [INT] + VQL(ToUint32(n))
  }

  function EncodeAll(items: seq<Value>): (bytes: seq<byte>)
    decreases items, 1
  {
    if items == [] then [] else Encode(items[0]) + EncodeAll(items[1..])
  }

  // Uint8Array.prototype.slice from a position: a negative end counts from the end of the buffer.
  function SliceEnd(buffer: seq<byte>, pos: nat, count: int): (end: nat)
    requires pos <= |buffer|
    ensures pos <= end <= |buffer|
  {
    var end := pos + count;
    var final := if end >= 0 then end else |buffer| + end;
    if final < pos then pos else if final > |buffer| then |buffer| else final
  }

  function ReadBytes(buffer: seq<byte>, pos: nat): (r: Read<seq<byte>>)
    requires pos <= |buffer|
    ensures pos <= r.pos <= |buffer|
  {
    var count := ReadInt(buffer, pos);
    var end := SliceEnd(buffer, count.pos, count.value);
    Read(buffer[count.pos..end], end)
  }

  // The value at a position. The end of the data, like an unknown tag, is read as undefined.
  function Decode(buffer: seq<byte>, pos: nat): (r: Read<Value>)
    requires pos <= |buffer|
    ensures pos <= r.pos <= |buffer|
    decreases |buffer| - pos, 0, 0
  {
    if pos == |buffer| then Read(Undefined, pos) else
    var tag, start := buffer[pos], pos + 1;
    if tag == STRING then
      var r := ReadBytes(buffer, start);
      Read(Str(r.value), r.pos)
    else if tag == BUFFER then
      var r := ReadBytes(buffer, start);
      Read(Buffer(r.value), r.pos)
    else if tag == VS_BUFFER then
      var r := ReadBytes(buffer, start);
      Read(VSBuffer(r.value), r.pos)
    else if tag == ARRAY then
      var length := ReadInt(buffer, start);
      var r := DecodeMany(buffer, length.pos, if length.value < 0 then 0 else length.value);
      Read(Array(r.value), r.pos)
    else if tag == OBJECT then
      var r := ReadBytes(buffer, start);
      Read(Object(r.value), r.pos)
    else if tag == INT then
      var r := ReadInt(buffer, start);
      Read(Int(r.value), r.pos)
    else
      Read(Undefined, start)
  }

  function DecodeMany(buffer: seq<byte>, pos: nat, count: nat): (r: Read<seq<Value>>)
    requires pos <= |buffer|
    ensures pos <= r.pos <= |buffer|
    decreases |buffer| - pos, 1, count
  {
    if count == 0 then Read([], pos) else
    var first := Decode(buffer, pos);
    var more := DecodeMany(buffer, first.pos, count - 1);
    Read([first.value] + more.value, more.pos)
  }

  // ---------------------------------------------------------------------------------------
  // The round trip
  // ---------------------------------------------------------------------------------------

  // Every length fits a non-negative 32-bit integer.
  ghost predicate Fits(v: Value) {
    match v
    case Str(utf8) => |utf8| < INT32_LIMIT
    case Buffer(bytes) => |bytes| < INT32_LIMIT
    case VSBuffer(bytes) => |bytes| < INT32_LIMIT
    case Array(items) => |items| < INT32_LIMIT && forall x <- items :: Fits(x)
    case Object(json) => |json| < INT32_LIMIT
    case _ => true
  }

  lemma {:induction false} Grouped(a: seq<byte>, b: seq<byte>, c: seq<byte>, d: seq<byte>)
    ensures a + (b + c) + d == a + b + (c + d)
    ensures a + b + c + d == a + b + (c + d)
    ensures (a + b + (c + d))[|a| + |b|..|a| + |b| + |c|] == c
  {
  }

  lemma {:induction false} BytesAreRead(before: seq<byte>, bytes: seq<byte>, after: seq<byte>)
    requires |bytes| < INT32_LIMIT
    ensures ReadBytes(before + (VQL(ToUint32(|bytes|)) + bytes) + after, |before|)
              == Read(bytes, |before| + |VQL(ToUint32(|bytes|))| + |bytes|)
  {
    hide VQL, ReadInt;
    var length := VQL(ToUint32(|bytes|));
    Grouped(before, length, bytes, after);
    IntIsRead(before, |bytes|, bytes + after);
  }

  // A tag, then what follows it.
  lemma {:induction false} Tagged(before: seq<byte>, tag: byte, body: seq<byte>, after: seq<byte>)
    ensures var buffer := before + ([tag] + body) + after;
            |before| < |buffer| && buffer[|before|] == tag && buffer == (before + [tag]) + body + after
  {
  }

  // A value between any bytes is read as that value, and exactly its bytes are consumed.
  lemma {:induction false} EncodedIsDecoded(before: seq<byte>, v: Value, after: seq<byte>)
    requires Fits(v)
    ensures Decode(before + Encode(v) + after, |before|) == Read(v, |before| + |Encode(v)|)
    decreases v, 1
  {
    hide Decode, ReadBytes, ReadInt, VQL;
    match v
    case Undefined => UndefinedIsDecoded(before, after);
    case Str(utf8) => LengthAndBytes(before, STRING, utf8, after);
    case Buffer(bytes) => LengthAndBytes(before, BUFFER, bytes, after);
    case VSBuffer(bytes) => LengthAndBytes(before, VS_BUFFER, bytes, after);
    case Object(json) => LengthAndBytes(before, OBJECT, json, after);
    case Int(n) => IntIsDecoded(before, n, after);
    case Array(items) => ArrayIsDecoded(before, items, after);
  }

  lemma {:induction false} UndefinedIsDecoded(before: seq<byte>, after: seq<byte>)
    ensures Decode(before + [UNDEFINED] + after, |before|) == Read(Undefined, |before| + 1)
  {
  }

  lemma {:induction false} IntIsDecoded(before: seq<byte>, n: int32, after: seq<byte>)
    ensures Decode(before + ([INT] + VQL(ToUint32(n))) + after, |before|)
              == Read(Int(n), |before| + 1 + |VQL(ToUint32(n))|)
  {
    hide VQL, ReadInt;
    Tagged(before, INT, VQL(ToUint32(n)), after);
    IntIsRead(before + [INT], n, after);
  }

  // The four kinds that are a length and so many bytes.
  function OfBytes(tag: byte, bytes: seq<byte>): (v: Value) {
    if tag == STRING then Str(bytes)
    else if tag == BUFFER then Buffer(bytes)
    else if tag == VS_BUFFER then VSBuffer(bytes)
    else Object(bytes)
  }

  lemma {:induction false} LengthAndBytes(before: seq<byte>, tag: byte, bytes: seq<byte>, after: seq<byte>)
    requires |bytes| < INT32_LIMIT && tag in {STRING, BUFFER, VS_BUFFER, OBJECT}
    ensures Decode(before + WithLength(tag, bytes) + after, |before|)
              == Read(OfBytes(tag, bytes), |before| + |WithLength(tag, bytes)|)
  {
    hide VQL, ReadBytes;
    var length := VQL(ToUint32(|bytes|));
    assert WithLength(tag, bytes) == [tag] + (length + bytes);
    Tagged(before, tag, length + bytes, after);
    BytesAreRead(before + [tag], bytes, after);
  }

  lemma {:induction false} ArrayIsDecoded(before: seq<byte>, items: seq<Value>, after: seq<byte>)
    requires |items| < INT32_LIMIT && forall x <- items :: Fits(x)
    ensures var encoded := [ARRAY] + VQL(ToUint32(|items|)) + EncodeAll(items);
            Decode(before + encoded + after, |before|) == Read(Array(items), |before| + |encoded|)
    decreases items, 3
  {
    hide Encode, EncodeAll, DecodeMany, ReadInt, VQL;
    var length, body := VQL(ToUint32(|items|)), EncodeAll(items);
    assert [ARRAY] + length + body == [ARRAY] + (length + body);
    Tagged(before, ARRAY, length + body, after);
    var start := before + [ARRAY];
    Grouped(start, length, body, after);
    IntIsRead(start, |items|, body + after);
    AllAreDecoded(start + length, items, after);
  }

  lemma {:induction false} NoneAreDecoded(buffer: seq<byte>, pos: nat)
    requires pos <= |buffer|
    ensures DecodeMany(buffer, pos, 0) == Read([], pos)
  {
  }

  lemma {:induction false} FirstOfMany(buffer: seq<byte>, pos: nat, count: nat)
    requires pos <= |buffer| && count > 0
    ensures var first := Decode(buffer, pos);
            var more := DecodeMany(buffer, first.pos, count - 1);
            DecodeMany(buffer, pos, count) == Read([first.value] + more.value, more.pos)
  {
    hide Decode;
  }

  lemma {:induction false} AllAreDecoded(before: seq<byte>, items: seq<Value>, after: seq<byte>)
    requires forall x <- items :: Fits(x)
    ensures DecodeMany(before + EncodeAll(items) + after, |before|, |items|)
              == Read(items, |before| + |EncodeAll(items)|)
    decreases items, 2
  {
    hide Decode, DecodeMany, Encode, Fits;
    if items == [] {
      assert |EncodeAll(items)| == 0;
      NoneAreDecoded(before + EncodeAll(items) + after, |before|);
    } else {
      var first, more := Encode(items[0]), EncodeAll(items[1..]);
      Grouped(before, first, more, after);
      EncodedIsDecoded(before, items[0], more + after);
      AllAreDecoded(before + first, items[1..], after);
      FirstOfMany(before + (first + more) + after, |before|, |items|);
      assert [items[0]] + items[1..] == items;
    }
  }

  // No encoding begins another: a stream of values can be cut in one way only.
  lemma {:induction false} EncodingsAreSelfDelimiting(v: Value, w: Value, a: seq<byte>, b: seq<byte>)
    requires Fits(v) && Fits(w)
    requires Encode(v) + a == Encode(w) + b
    ensures v == w && a == b
  {
    hide Decode, Encode, Fits;
    EncodedIsDecoded([], v, a);
    EncodedIsDecoded([], w, b);
    assert [] + Encode(v) + a == Encode(v) + a;
    assert [] + Encode(w) + b == Encode(w) + b;
    assert a == (Encode(v) + a)[|Encode(v)|..];
    assert b == (Encode(w) + b)[|Encode(w)|..];
  }

  // ---------------------------------------------------------------------------------------
  // Exactly when the round trip succeeds
  // ---------------------------------------------------------------------------------------

  // Between whatever bytes the encoding stands, the value is read.
  ghost predicate RoundTrips(v: Value) {
    forall before, after :: Decode(before + Encode(v) + after, |before|).value == v
  }

  // A length from 2^31 on is read as a smaller or a negative one. A negative one counts from the
  // end of the whole buffer, so it can only be right by chance if the buffer's size allows it.
  lemma {:induction false} LongLengthsCutElsewhere(buffer: seq<byte>, pos: nat, length: nat)
    requires pos <= |buffer| && length >= INT32_LIMIT && |buffer| % U32_LIMIT != 0
    ensures SliceEnd(buffer, pos, ToInt32(length)) != pos + length
  {
    var count := ToInt32(length);
    assert length % U32_LIMIT <= length;
    if pos + count < 0 {
      CountIsBelowBy(length);
    }
  }

  lemma {:induction false} CountIsBelowBy(length: nat)
    ensures (length - ToInt32(length)) % U32_LIMIT == 0
  {
    var q := length / U32_LIMIT;
    assert length == q * U32_LIMIT + length % U32_LIMIT;
  }

  lemma {:induction false} LongBytesAreNotRead(before: seq<byte>, bytes: seq<byte>, after: seq<byte>)
    requires |bytes| >= INT32_LIMIT
    requires |before + (VQL(ToUint32(|bytes|)) + bytes) + after| % U32_LIMIT != 0
    ensures ReadBytes(before + (VQL(ToUint32(|bytes|)) + bytes) + after, |before|).value != bytes
  {
    hide VQL, ReadInt, SliceEnd, ToInt32, ToUint32;
    var length := VQL(ToUint32(|bytes|));
    var buffer := before + (length + bytes) + after;
    Grouped(before, length, bytes, after);
    IntIsRead(before, |bytes|, bytes + after);
    var pos := |before| + |length|;
    LongLengthsCutElsewhere(buffer, pos, |bytes|);
    var end := SliceEnd(buffer, pos, ToInt32(|bytes|));
    assert |buffer[pos..end]| != |bytes|;
  }

  lemma {:induction false} LongLengthAndBytes(before: seq<byte>, tag: byte, bytes: seq<byte>, after: seq<byte>)
    requires |bytes| >= INT32_LIMIT && tag in {STRING, BUFFER, VS_BUFFER, OBJECT}
    requires |before + WithLength(tag, bytes) + after| % U32_LIMIT != 0
    ensures Decode(before + WithLength(tag, bytes) + after, |before|).value != OfBytes(tag, bytes)
  {
    hide VQL, ReadBytes, ToUint32;
    var length := VQL(ToUint32(|bytes|));
    assert WithLength(tag, bytes) == [tag] + (length + bytes);
    Tagged(before, tag, length + bytes, after);
    LongBytesAreNotRead(before + [tag], bytes, after);
  }

  lemma {:induction false} ManyAreSoMany(buffer: seq<byte>, pos: nat, count: nat)
    requires pos <= |buffer|
    ensures |DecodeMany(buffer, pos, count).value| == count
    decreases count
  {
    if count > 0 {
      ManyAreSoMany(buffer, Decode(buffer, pos).pos, count - 1);
    }
  }

  // An array is read wrong if it is too long, or at its first item that does not fit.
  lemma {:induction false} UnfitArrayIsNotDecoded(before: seq<byte>, items: seq<Value>, after: seq<byte>)
    requires !Fits(Array(items))
    requires |before + Encode(Array(items)) + after| % U32_LIMIT != 0
    ensures Decode(before + Encode(Array(items)) + after, |before|).value != Array(items)
    decreases items, 3
  {
    hide EncodeAll, DecodeMany, ReadInt, VQL, ToUint32;
    var length, body := VQL(ToUint32(|items|)), EncodeAll(items);
    assert Encode(Array(items)) == [ARRAY] + (length + body);
    Tagged(before, ARRAY, length + body, after);
    var start := before + [ARRAY];
    Grouped(start, length, body, after);
    IntIsRead(start, |items|, body + after);
    var buffer, count := before + Encode(Array(items)) + after, ToInt32(|items|);
    ManyAreSoMany(buffer, |start + length|, if count < 0 then 0 else count);
    if |items| < INT32_LIMIT {
      UnfitItemsAreNotDecoded(start + length, items, after);
    } else {
      ShorterThanIs(|items|);
    }
  }

  lemma {:induction false} ShorterThanIs(length: nat)
    ensures length < INT32_LIMIT ==> ToInt32(length) == length
    ensures length >= INT32_LIMIT ==> ToInt32(length) < length
  {
    assert length % U32_LIMIT <= length;
  }

  lemma {:induction false} UnfitItemsAreNotDecoded(before: seq<byte>, items: seq<Value>, after: seq<byte>)
    requires exists x <- items :: !Fits(x)
    requires |before + EncodeAll(items) + after| % U32_LIMIT != 0
    ensures DecodeMany(before + EncodeAll(items) + after, |before|, |items|).value != items
    decreases items, 2
  {
    hide Decode, Encode, Fits, ToUint32;
    var first, more := Encode(items[0]), EncodeAll(items[1..]);
    Grouped(before, first, more, after);
    if Fits(items[0]) {
      EncodedIsDecoded(before, items[0], more + after);
      assert items == [items[0]] + items[1..];
      UnfitItemsAreNotDecoded(before + first, items[1..], after);
    } else {
      UnfitIsNotDecoded(before, items[0], more + after);
    }
  }

  lemma {:induction false} UnfitIsNotDecoded(before: seq<byte>, v: Value, after: seq<byte>)
    requires !Fits(v)
    requires |before + Encode(v) + after| % U32_LIMIT != 0
    ensures Decode(before + Encode(v) + after, |before|).value != v
    decreases v, 1
  {
    hide Decode, ReadBytes, ReadInt, VQL, WithLength;
    match v
    case Str(utf8) => LongLengthAndBytes(before, STRING, utf8, after);
    case Buffer(bytes) => LongLengthAndBytes(before, BUFFER, bytes, after);
    case VSBuffer(bytes) => LongLengthAndBytes(before, VS_BUFFER, bytes, after);
    case Object(json) => LongLengthAndBytes(before, OBJECT, json, after);
    case Array(items) => UnfitArrayIsNotDecoded(before, items, after);
  }

  // Deserializing gives back a serialized value, exactly if no text, buffer, object or array in it
  // has a length of 2^31 or more.
  lemma {:induction false} RoundTripsExactlyWhenItFits(v: Value)
    ensures RoundTrips(v) <==> Fits(v)
  {
    hide Decode, Encode, Fits;
    if Fits(v) {
      forall before, after ensures Decode(before + Encode(v) + after, |before|).value == v {
        EncodedIsDecoded(before, v, after);
      }
    } else {
      var after: seq<byte> := if |Encode(v)| % U32_LIMIT == 0 then [0] else [];
      assert |[] + Encode(v) + after| % U32_LIMIT != 0;
      UnfitIsNotDecoded([], v, after);
    }
  }

  // For one: the length of an array of 2^31 to 2^32 - 1 items is read as a negative number, and
  // the array as an empty one.
  lemma {:induction false} LongArraysAreLost(items: seq<Value>, after: seq<byte>)
    requires INT32_LIMIT <= |items| < U32_LIMIT
    ensures Decode(Encode(Array(items)) + after, 0).value == Array([])
  {
    hide EncodeAll, ReadInt, VQL;
    var length, body := VQL(ToUint32(|items|)), EncodeAll(items);
    Grouped([], [ARRAY] + length, body, after);
    assert Encode(Array(items)) + after == [ARRAY] + length + (body + after);
    IntIsRead([ARRAY], |items|, body + after);
  }

  // ---------------------------------------------------------------------------------------
  // BufferReader and BufferWriter
  // ---------------------------------------------------------------------------------------

  class BufferReader {
    const buffer: seq<byte>
    var pos: nat

    ghost predicate Valid()
      reads this
    {
      pos <= |buffer|
    }

    constructor (buffer: seq<byte>)
      ensures Valid() && this.buffer == buffer && pos == 0
    {
      this.buffer := buffer;
      pos := 0;
    }

    method Read(count: int) returns (result: seq<byte>)
      requires Valid()
      modifies this
      ensures Valid() && pos == SliceEnd(buffer, old(pos), count)
      ensures result == buffer[old(pos)..pos]
    {
      result := buffer[pos..SliceEnd(buffer, pos, count)];
      pos := pos + |result|;
    }
  }

  class BufferWriter {
    var buffers: seq<seq<byte>>

    ghost function Contents(): (bytes: seq<byte>)
      reads this
    {
      Flatten(buffers)
    }

    constructor ()
      ensures Contents() == []
    {
      buffers := [];
    }

    method Write(buffer: seq<byte>)
      modifies this
      ensures Contents() == old(Contents()) + buffer
    {
      FlattenConcat(buffers, [buffer]);
      FlattenOne(buffer);
      buffers := buffers + [buffer];
    }

    // The property `buffer`.
    method Joined() returns (result: array<byte>)
      ensures fresh(result) && result[..] == Contents()
    {
      result := Concat(buffers);
    }
  }

  // ---------------------------------------------------------------------------------------
  // The loops
  // ---------------------------------------------------------------------------------------

  method ReadIntVQL(reader: BufferReader) returns (value: int32)
    requires reader.Valid()
    modifies reader
    ensures reader.Valid() && Read(value, reader.pos) == ReadInt(reader.buffer, old(reader.pos))
  {
    hide WithByte;
    value := 0;
    var n := 0;
    while true
      invariant reader.Valid() && reader.pos >= old(reader.pos)
      invariant ReadVQL(reader.buffer, reader.pos, ToUint32(value), n) == ReadVQL(reader.buffer, old(reader.pos), 0, 0)
      invariant 0 <= n
      decreases |reader.buffer| - reader.pos
    {
      var next := reader.Read(1);
      if next == [] {
        return;
      }
      WithByteFits(ToUint32(value), next[0], n);
      var bits := WithByte(ToUint32(value), next[0], n);
      Uint32OfInt32(bits);
      value := ToInt32(bits);
      if next[0] < 128 {
        return;
      }
      n := n + 7;
    }
  }

  lemma {:induction false} Uint32OfInt32(bits: nat)
    requires bits < U32_LIMIT
    ensures ToUint32(ToInt32(bits)) == bits
  {
  }

  lemma {:induction false} WithByteFits(value: nat, b: byte, n: nat)
    requires value < U32_LIMIT
    ensures WithByte(value, b, n) < U32_LIMIT
  {
    Pow32();
    OrFits(value, ToUint32(TimesPow2(b % 128, n % 32)), 32);
  }

  lemma {:induction false} OrFits(a: nat, b: nat, n: nat)
    requires a < TimesPow2(1, n) && b < TimesPow2(1, n)
    ensures Or(a, b) < TimesPow2(1, n)
  {
    if n > 0 && (a > 0 || b > 0) {
      OrFits(a / 2, b / 2, n - 1);
    }
  }

  // The bytes still to be written for what is left of a value.
  ghost function Unwritten(v: int): (bytes: seq<byte>) {
    if v == 0 then [] else VQL(ToUint32(v))
  }

  function NextByte(v: int): (b: byte) {
    if ToUint32(v) / 128 > 0 then ToUint32(v) % 128 + 128 else ToUint32(v) % 128
  }

  lemma {:induction false} UnwrittenStep(v: int)
    requires v != 0
    ensures Unwritten(v) == [NextByte(v)] + Unwritten(ToUint32(v) / 128)
  {
    hide ToUint32;
    var u := ToUint32(v);
    if u >= 128 {
      SmallStays(u / 128);
    }
  }

  lemma {:induction false} ZeroIsOneByte()
    ensures VQL(ToUint32(0)) == [0]
  {
  }

  method WriteInt32VQL(writer: BufferWriter, value: int)
    modifies writer
    ensures writer.Contents() == old(writer.Contents()) + VQL(ToUint32(value))
  {
    hide VQL, ToUint32;
    if value == 0 {
      ZeroIsOneByte();
      writer.Write([0]);
      return;
    }
    var len := 0;
    var v := value;
    while v != 0
      invariant 0 <= len
      invariant len + |Unwritten(v)| == |Unwritten(value)|
      invariant writer.Contents() == old(writer.Contents())
      decreases |Unwritten(v)|
    {
      UnwrittenStep(v);
      v := ToUint32(v) / 128;
      len := len + 1;
    }
    var scratch := new byte[len];
    FillVQL(scratch, value);
    writer.Write(scratch[..]);
  }

  // The second loop.
  method FillVQL(scratch: array<byte>, value: int)
    requires scratch.Length == |Unwritten(value)|
    modifies scratch
    ensures scratch[..] == Unwritten(value)
  {
    hide VQL, ToUint32;
    var v := value;
    var i := 0;
    assert [] + Unwritten(value) == Unwritten(value);
    while v != 0
      invariant 0 <= i <= scratch.Length
      invariant scratch[..i] + Unwritten(v) == Unwritten(value)
      decreases scratch.Length - i
    {
      ghost var before := scratch[..i];
      UnwrittenStep(v);
      var b := ToUint32(v) % 128;
      ghost var next := NextByte(v);
      v := ToUint32(v) / 128;
      scratch[i] := if v > 0 then b + 128 else b;
      assert scratch[..i + 1] == before + [next];
      Regrouped(before, next, Unwritten(v));
      i := i + 1;
    }
    assert scratch[..i] + [] == scratch[..i];
  }

  lemma {:induction false} Regrouped(before: seq<byte>, b: byte, more: seq<byte>)
    ensures before + ([b] + more) == before + [b] + more
  {
  }

  method WriteBytes(writer: BufferWriter, tag: byte, bytes: seq<byte>)
    modifies writer
    ensures writer.Contents() == old(writer.Contents()) + WithLength(tag, bytes)
  {
    writer.Write([tag]);
    WriteInt32VQL(writer, |bytes|);
    writer.Write(bytes);
  }

  lemma {:induction false} ItemsApart(before: seq<byte>, items: seq<Value>, i: nat)
    requires i < |items|
    ensures before + EncodeAll(items[i..]) == before + Encode(items[i]) + EncodeAll(items[i + 1..])
  {
    assert items[i..][1..] == items[i + 1..];
  }

  method Serialize(writer: BufferWriter, data: Value)
    modifies writer
    ensures writer.Contents() == old(writer.Contents()) + Encode(data)
    decreases data
  {
    hide VQL;
    match data
    case Undefined => writer.Write([UNDEFINED]);
    case Str(utf8) => WriteBytes(writer, STRING, utf8);
    case VSBuffer(bytes) => WriteBytes(writer, VS_BUFFER, bytes);
    case Buffer(bytes) => WriteBytes(writer, BUFFER, bytes);
    case Array(items) =>
      writer.Write([ARRAY]);
      WriteInt32VQL(writer, |items|);
      ghost var head := writer.Contents();
      for i := 0 to |items|
        invariant writer.Contents() + EncodeAll(items[i..]) == head + EncodeAll(items)
      {
        ItemsApart(writer.Contents(), items, i);
        Serialize(writer, items[i]);
      }
      assert items[|items|..] == [];
      assert writer.Contents() + [] == writer.Contents();
      assert head + EncodeAll(items) == old(writer.Contents()) + ([ARRAY] + VQL(ToUint32(|items|)) + EncodeAll(items));
    case Int(n) =>
      writer.Write([INT]);
      WriteInt32VQL(writer, n);
    case Object(json) => WriteBytes(writer, OBJECT, json);
  }

  method ReadLengthAndBytes(reader: BufferReader) returns (bytes: seq<byte>)
    requires reader.Valid()
    modifies reader
    ensures reader.Valid() && Read(bytes, reader.pos) == ReadBytes(reader.buffer, old(reader.pos))
  {
    var count := ReadIntVQL(reader);
    bytes := reader.Read(count);
  }

  method Deserialize(reader: BufferReader) returns (data: Value)
    requires reader.Valid()
    modifies reader
    ensures reader.Valid() && Read(data, reader.pos) == Decode(reader.buffer, old(reader.pos))
    decreases |reader.buffer| - reader.pos, 0
  {
    hide ReadBytes, ReadInt, DecodeMany;
    var tag := reader.Read(1);
    if tag == [] {
      return Undefined;
    }
    var kind := tag[0];
    if kind == STRING {
      var bytes := ReadLengthAndBytes(reader);
      return Str(bytes);
    } else if kind == BUFFER {
      var bytes := ReadLengthAndBytes(reader);
      return Buffer(bytes);
    } else if kind == VS_BUFFER {
      var bytes := ReadLengthAndBytes(reader);
      return VSBuffer(bytes);
    } else if kind == ARRAY {
      var length := ReadIntVQL(reader);
      var result := DeserializeMany(reader, length);
      return Array(result);
    } else if kind == OBJECT {
      var bytes := ReadLengthAndBytes(reader);
      return Object(bytes);
    } else if kind == INT {
      var n := ReadIntVQL(reader);
      return Int(n);
    }
    return Undefined;
  }

  // The loop over the items of an array; a negative length reads none.
  method DeserializeMany(reader: BufferReader, length: int32) returns (result: seq<Value>)
    requires reader.Valid()
    modifies reader
    ensures reader.Valid()
    ensures Read(result, reader.pos) == DecodeMany(reader.buffer, old(reader.pos), if length < 0 then 0 else length)
    decreases |reader.buffer| - reader.pos, 1
  {
    hide Decode;
    result := [];
    ghost var start, count := reader.pos, if length < 0 then 0 else length;
    ghost var all := DecodeMany(reader.buffer, start, count);
    var i := 0;
    assert [] + all.value == all.value;
    while i < length
      invariant reader.Valid() && reader.pos >= start && 0 <= i <= count
      invariant After(result, DecodeMany(reader.buffer, reader.pos, count - i)) == all
    {
      ghost var more := DecodeMany(reader.buffer, reader.pos, count - i);
      var item := Deserialize(reader);
      AfterTwice(result, item, DecodeMany(reader.buffer, reader.pos, count - i - 1));
      assert more == After([item], DecodeMany(reader.buffer, reader.pos, count - i - 1));
      result := result + [item];
      i := i + 1;
    }
    assert result + [] == result;
  }

  ghost function After(before: seq<Value>, r: Read<seq<Value>>): (r': Read<seq<Value>>) {
    Read(before + r.value, r.pos)
  }

  lemma {:induction false} AfterTwice(before: seq<Value>, item: Value, r: Read<seq<Value>>)
    ensures After(before, After([item], r)) == After(before + [item], r)
  {
    assert before + ([item] + r.value) == before + [item] + r.value;
  }
}
