// The bytes of serialized values.

module WireFormat {
  // The format written out: a type byte, the length where there is one, and the data. A number is
  // seven bits a byte, the low ones first, with the top bit on all bytes but the last.

  import opened Buffers
  import opened Serialization

  function Digits(bytes: seq<byte>): (u: nat) {
    if bytes == [] then 0 else bytes[0] as int % 128 + 128 * Digits(bytes[1..])
  }

  // As short as it can be: a last byte of zero only for zero itself.
  ghost predicate IsNumber(bytes: seq<byte>, u: nat) {
    && bytes != []
    && (forall i | 0 <= i < |bytes| - 1 :: bytes[i] >= 128)
    && bytes[|bytes| - 1] < 128 && (|bytes| > 1 ==> bytes[|bytes| - 1] > 0)
    && Digits(bytes) == u
  }

  ghost predicate IsPacked(bytes: seq<byte>, tag: byte, data: seq<byte>) {
    exists k | 1 <= k <= |bytes| ::
      bytes[0] == tag && IsNumber(bytes[1..k], |data| % 0x1_0000_0000) && bytes[k..] == data
  }

  ghost predicate Stands(bytes: seq<byte>, v: Value)
    decreases v, 0
  {
    match v
    case Undefined => bytes == [0]
    case Str(utf8) => IsPacked(bytes, 1, utf8)
    case Buffer(data) => IsPacked(bytes, 2, data)
    case VSBuffer(data) => IsPacked(bytes, 3, data)
    case Array(items) =>
      exists k | 1 <= k <= |bytes| ::
        bytes[0] == 4 && IsNumber(bytes[1..k], |items| % 0x1_0000_0000) && StandAll(bytes[k..], items)
    case Object(json) => IsPacked(bytes, 5, json)
    case Int(n) => bytes != [] && bytes[0] == 6 && IsNumber(bytes[1..], n % 0x1_0000_0000)
  }

  ghost predicate StandAll(bytes: seq<byte>, items: seq<Value>)
    decreases items, 1
  {
    if items == [] then bytes == []
    else exists k | 0 <= k <= |bytes| :: Stands(bytes[..k], items[0]) && StandAll(bytes[k..], items[1..])
  }

  lemma {:induction false} VqlIsNumber(u: nat)
    ensures IsNumber(VQL(u), u)
    decreases u
  {
    var bytes := VQL(u);
    if u >= 128 {
      var more := VQL(u / 128);
      VqlIsNumber(u / 128);
      assert bytes[1..] == more;
      assert forall i | 0 < i < |bytes| :: bytes[i] == more[i - 1];
    } else {
      assert bytes[1..] == [];
    }
  }

  lemma {:induction false} NumbersAreVql(bytes: seq<byte>, u: nat)
    requires IsNumber(bytes, u)
    ensures bytes == VQL(u)
    decreases |bytes|
  {
    hide VQL;
    if |bytes| == 1 {
      OneDigit(bytes);
    } else {
      var low, more := bytes[0] as int % 128, bytes[1..];
      MoreDigits(bytes);
      NumbersAreVql(more, Digits(more));
      LowDigit(low, Digits(more));
      assert bytes == [low + 128] + more;
    }
  }

  lemma {:induction false} OneDigit(bytes: seq<byte>)
    requires |bytes| == 1 && bytes[0] < 128
    ensures bytes == VQL(Digits(bytes))
  {
    assert bytes[1..] == [];
  }

  lemma {:induction false} MoreDigits(bytes: seq<byte>)
    requires |bytes| > 1 && IsNumber(bytes, Digits(bytes))
    ensures IsNumber(bytes[1..], Digits(bytes[1..])) && Digits(bytes[1..]) > 0
  {
    var more := bytes[1..];
    assert forall i | 0 <= i < |more| :: more[i] == bytes[i + 1];
    NotZero(more);
  }

  lemma {:induction false} LowDigit(low: nat, high: nat)
    requires low < 128 && high > 0
    ensures VQL(low + 128 * high) == [low + 128] + VQL(high)
  {
    var u := low + 128 * high;
    assert u % 128 == low && u / 128 == high;
  }

  lemma {:induction false} NotZero(bytes: seq<byte>)
    requires bytes != [] && bytes[|bytes| - 1] as int % 128 > 0
    ensures Digits(bytes) > 0
  {
    if |bytes| > 1 {
      NotZero(bytes[1..]);
    }
  }

  // The encoding of a number is its only one.
  lemma {:induction false} NumbersAreUnique(bytes: seq<byte>, u: nat)
    ensures IsNumber(bytes, u) <==> bytes == VQL(u)
  {
    VqlIsNumber(u);
    if IsNumber(bytes, u) {
      NumbersAreVql(bytes, u);
    }
  }

  lemma {:induction false} PackedIsWithLength(bytes: seq<byte>, tag: byte, data: seq<byte>)
    ensures IsPacked(bytes, tag, data) <==> bytes == WithLength(tag, data)
  {
    hide IsNumber, Digits, VQL;
    var u := |data| % 0x1_0000_0000;
    if IsPacked(bytes, tag, data) {
      var k :| 1 <= k <= |bytes| && bytes[0] == tag && IsNumber(bytes[1..k], u) && bytes[k..] == data;
      NumbersAreUnique(bytes[1..k], u);
      assert bytes == [bytes[0]] + bytes[1..k] + bytes[k..];
    }
    if bytes == WithLength(tag, data) {
      var k := 1 + |VQL(u)|;
      assert bytes[1..k] == VQL(u) && bytes[k..] == data;
      NumbersAreUnique(bytes[1..k], u);
    }
  }

  // What is written for a value is exactly what the format says, and nothing else stands for it.
  lemma {:induction false} EncodingIsTheFormat(bytes: seq<byte>, v: Value)
    ensures Stands(bytes, v) <==> bytes == Encode(v)
    decreases v, 0
  {
    hide IsNumber, IsPacked, VQL, WithLength;
    match v
    case Undefined =>
    case Str(data) => PackedIsWithLength(bytes, 1, data);
    case Buffer(data) => PackedIsWithLength(bytes, 2, data);
    case VSBuffer(data) => PackedIsWithLength(bytes, 3, data);
    case Array(items) => ArrayIsTheFormat(bytes, items);
    case Object(json) => PackedIsWithLength(bytes, 5, json);
    case Int(n) =>
      var u := ToUint32(n);
      NumbersAreUnique(VQL(u), u);
      if bytes != [] {
        NumbersAreUnique(bytes[1..], u);
        assert bytes == [bytes[0]] + bytes[1..];
      }
  }

  lemma {:induction false} ArrayIsTheFormat(bytes: seq<byte>, items: seq<Value>)
    ensures Stands(bytes, Array(items)) <==> bytes == Encode(Array(items))
    decreases items, 2
  {
    hide IsNumber, VQL, EncodeAll, StandAll;
    var u := |items| % 0x1_0000_0000;
    if Stands(bytes, Array(items)) {
      var k :| 1 <= k <= |bytes| && bytes[0] == 4 && IsNumber(bytes[1..k], u) && StandAll(bytes[k..], items);
      NumbersAreUnique(bytes[1..k], u);
      ItemsAreTheFormat(bytes[k..], items);
      assert bytes == [bytes[0]] + bytes[1..k] + bytes[k..];
    }
    if bytes == Encode(Array(items)) {
      var k := 1 + |VQL(u)|;
      assert bytes[1..k] == VQL(u) && bytes[k..] == EncodeAll(items);
      NumbersAreUnique(bytes[1..k], u);
      ItemsAreTheFormat(bytes[k..], items);
    }
  }

  lemma {:induction false} ItemsAreTheFormat(bytes: seq<byte>, items: seq<Value>)
    ensures StandAll(bytes, items) <==> bytes == EncodeAll(items)
    decreases items, 1
  {
    hide Encode, Stands;
    if items != [] {
      if StandAll(bytes, items) {
        var k :| 0 <= k <= |bytes| && Stands(bytes[..k], items[0]) && StandAll(bytes[k..], items[1..]);
        EncodingIsTheFormat(bytes[..k], items[0]);
        ItemsAreTheFormat(bytes[k..], items[1..]);
        assert bytes == bytes[..k] + bytes[k..];
      }
      if bytes == EncodeAll(items) {
        var k := |Encode(items[0])|;
        assert bytes[..k] == Encode(items[0]) && bytes[k..] == EncodeAll(items[1..]);
        EncodingIsTheFormat(bytes[..k], items[0]);
        ItemsAreTheFormat(bytes[k..], items[1..]);
      }
    }
  }

  // ---------------------------------------------------------------------------------------
  // Data that was not written so
  // ---------------------------------------------------------------------------------------

  lemma {:induction false} DataIsCut(before: seq<byte>, n: nat, data: seq<byte>)
    requires |data| <= n < 0x8000_0000
    ensures var all := before + VQL(n) + data; ReadBytes(all, |before|) == Read(data, |all|)
  {
    hide VQL, ReadInt;
    IntIsRead(before, n, data);
    SmallStays(n);
    var all, start := before + VQL(n) + data, |before| + |VQL(n)|;
    assert ReadInt(all, |before|) == Read(n, start);
    assert SliceEnd(all, start, n) == |all|;
    assert all[start..|all|] == data;
  }

  // Nothing at all, the type byte of undefined and type bytes that are not in use are read as
  // undefined. Data that ends before its announced length is read as far as it goes.
  lemma {:induction false} OtherDataIsRead(before: seq<byte>, tag: byte, n: nat, data: seq<byte>)
    requires |data| <= n < 0x8000_0000
    ensures Decode(before, |before|) == Read(Undefined, |before|)
    ensures tag == 0 || tag > 6 ==> Decode(before + [tag] + data, |before|) == Read(Undefined, |before| + 1)
    ensures var short := before + [tag] + VQL(n) + data;
            && (tag == 1 ==> Decode(short, |before|) == Read(Str(data), |short|))
            && (tag == 2 ==> Decode(short, |before|) == Read(Buffer(data), |short|))
            && (tag == 3 ==> Decode(short, |before|) == Read(VSBuffer(data), |short|))
            && (tag == 5 ==> Decode(short, |before|) == Read(Object(data), |short|))
  {
    hide VQL, ReadBytes, ReadInt, DecodeMany;
    DataIsCut(before + [tag], n, data);
    assert (before + [tag] + VQL(n) + data)[|before|] == tag;
  }
}
