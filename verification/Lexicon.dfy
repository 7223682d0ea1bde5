// What numerals, names and text literals stand for.

module Lexicon {
  // The lexical grammar written out as patterns over code units, and the proof that the tokenizer
  // takes off exactly what they say.

  import opened CodeUnits
  import opened Wrappers
  import opened Tokenizer

  // ---------------------------------------------------------------------------------------
  // Numerals and names
  // ---------------------------------------------------------------------------------------

  // 0 to 9
  predicate AllDecimal(t: Text) {
    forall i | 0 <= i < |t| :: 48 <= t[i] <= 57
  }

  // 0 or [1-9]\d*
  predicate IsWhole(t: Text) {
    t == [48] || (t != [] && t[0] != 48 && AllDecimal(t))
  }

  // (\.\d+)?
  predicate IsFraction(t: Text) {
    t == [] || (|t| >= 2 && t[0] == 46 && AllDecimal(t[1..]))
  }

  // ([eE][+-]?\d+)?
  predicate IsExponent(t: Text) {
    || t == []
    || (|t| >= 2 && (t[0] == 101 || t[0] == 69) && AllDecimal(t[1..]))
    || (|t| >= 3 && (t[0] == 101 || t[0] == 69) && (t[1] == 43 || t[1] == 45) && AllDecimal(t[2..]))
  }

  ghost predicate Numeral(t: Text) {
    exists i, j | 0 <= i <= j <= |t| :: IsWhole(t[..i]) && IsFraction(t[i..j]) && IsExponent(t[j..])
  }

  lemma {:induction false} DigitsAreLongest(t: Text)
    ensures AllDecimal(t[..DigitsLength(t)])
    ensures DigitsLength(t) < |t| ==> !(48 <= t[DigitsLength(t)] <= 57)
  {
    if t != [] && IsDigit(t[0]) {
      DigitsAreLongest(t[1..]);
      var n := DigitsLength(t);
      assert t[..n] == [t[0]] + t[1..][..n - 1];
    }
  }

  // Digits that stand at the front are among those taken.
  lemma {:induction false} NoMoreDigits(t: Text, n: nat)
    requires n <= |t| && AllDecimal(t[..n])
    ensures n <= DigitsLength(t)
  {
    DigitsAreLongest(t);
  }

  lemma {:induction false} FractionIsLongest(t: Text)
    ensures IsFraction(t[..FractionLength(t)])
    ensures forall n | 0 <= n <= |t| && IsFraction(t[..n]) :: n <= FractionLength(t)
  {
    var k := FractionLength(t);
    if k > 0 {
      DigitsAreLongest(t[1..]);
      assert t[..k][1..] == t[1..][..k - 1];
    }
    forall n | 0 <= n <= |t| && IsFraction(t[..n]) ensures n <= k {
      if n > 0 {
        assert t[..n][1..] == t[1..][..n - 1] && t[..n][0] == t[0];
        NoMoreDigits(t[1..], n - 1);
        assert t[1..][..n - 1][0] == t[1];
      }
    }
  }

  lemma {:induction false} ExponentIsLongest(t: Text)
    ensures IsExponent(t[..ExponentLength(t)])
    ensures forall n | 0 <= n <= |t| && IsExponent(t[..n]) :: n <= ExponentLength(t)
  {
    var k := ExponentLength(t);
    if k > 0 {
      ExponentFits(t);
    }
    forall n | 0 <= n <= |t| && IsExponent(t[..n]) ensures n <= k {
      if n > 0 {
        ExponentIsTaken(t, n);
      }
    }
  }

  lemma {:induction false} ExponentFits(t: Text)
    requires ExponentLength(t) > 0
    ensures IsExponent(t[..ExponentLength(t)])
  {
    var k := ExponentLength(t);
    var sign := if t[1] == '+' as int || t[1] == '-' as int then 2 else 1;
    DigitsAreLongest(t[sign..]);
    assert t[..k][sign..] == t[sign..][..k - sign];
    assert t[..k][0] == t[0] && t[..k][1] == t[1];
  }

  lemma {:induction false} ExponentIsTaken(t: Text, n: nat)
    requires 0 < n <= |t| && IsExponent(t[..n])
    ensures n <= ExponentLength(t)
  {
    assert t[..n][0] == t[0] && t[..n][1] == t[1];
    if AllDecimal(t[..n][1..]) {
      assert t[..n][1..] == t[1..][..n - 1];
      assert t[1..][..n - 1][0] == t[1];
      NoMoreDigits(t[1..], n - 1);
    } else {
      assert t[..n][2..] == t[2..][..n - 2];
      NoMoreDigits(t[2..], n - 2);
    }
  }

  // The tokenizer takes a numeral, and no longer one begins there. (A shorter whole part leaves a
  // digit behind it, which neither of the other parts begins with.)
  lemma {:induction false} NumeralsAreLongest(t: Text)
    requires t != [] && 48 <= t[0] <= 57
    ensures Numeral(t[..NumberLength(t)])
    ensures forall n | 0 <= n <= |t| && Numeral(t[..n]) :: n <= NumberLength(t)
  {
    NumberFits(t);
    forall n | 0 <= n <= |t| && Numeral(t[..n]) ensures n <= NumberLength(t) {
      var numeral := t[..n];
      var i, j :| 0 <= i <= j <= n && IsWhole(numeral[..i]) && IsFraction(numeral[i..j]) && IsExponent(numeral[j..]);
      NumeralIsTaken(t, n, i, j);
    }
  }

  // The whole part that is taken.
  function WholeLength(t: Text): (n: nat)
    requires t != [] && IsDigit(t[0])
    ensures 0 < n <= |t|
  {
    if t[0] == 48 then 1 else DigitsLength(t)
  }

  lemma {:induction false} NumberFits(t: Text)
    requires t != [] && IsDigit(t[0])
    ensures Numeral(t[..NumberLength(t)])
  {
    hide DigitsLength, FractionLength, ExponentLength, IsFraction, IsExponent;
    var i, n := WholeLength(t), NumberLength(t);
    var j := i + FractionLength(t[i..]);
    DigitsAreLongest(t);
    FractionIsLongest(t[i..]);
    ExponentIsLongest(t[j..]);
    var numeral := t[..n];
    assert numeral[..i] == t[..i] && numeral[i..j] == t[i..][..j - i] && numeral[j..] == t[j..][..n - j];
  }

  lemma {:induction false} CutTwice(t: Text, n: nat, i: nat, j: nat)
    requires i <= j <= n <= |t|
    ensures t[..n][..i] == t[..i] && t[..n][i..j] == t[i..j] == t[i..][..j - i] && t[..n][j..] == t[j..n]
  {
  }

  lemma {:induction false} NumeralIsTaken(t: Text, n: nat, i: nat, j: nat)
    requires t != [] && IsDigit(t[0]) && i <= j <= n <= |t|
    requires IsWhole(t[..n][..i]) && IsFraction(t[..n][i..j]) && IsExponent(t[..n][j..])
    ensures n <= NumberLength(t)
  {
    hide FractionLength, ExponentLength, DigitsLength;
    var k := WholeLength(t);
    CutTwice(t, n, i, j);
    assert i <= k by {
      WholeIsTaken(t, i);
    }
    if i == k {
      AfterWhole(t, n, i, j);
    } else {
      DigitAt(t, i);
      NothingBeforeDigit(t, i, j, n);
    }
  }

  lemma {:induction false} NothingBeforeDigit(t: Text, i: nat, j: nat, n: nat)
    requires i <= j <= n <= |t| && i < |t| && 48 <= t[i] <= 57
    requires IsFraction(t[i..j]) && IsExponent(t[j..n])
    ensures n == i
  {
  }

  lemma {:induction false} WholeIsTaken(t: Text, i: nat)
    requires t != [] && IsDigit(t[0]) && i <= |t| && IsWhole(t[..i])
    ensures i <= WholeLength(t)
  {
    assert t[..i][0] == t[0];
    if t[0] != 48 {
      NoMoreDigits(t, i);
    }
  }

  lemma {:induction false} DigitAt(t: Text, i: nat)
    requires t != [] && IsDigit(t[0]) && 0 < i < WholeLength(t)
    ensures i < |t| && 48 <= t[i] <= 57
  {
    DigitsAreLongest(t);
    assert t[..DigitsLength(t)][i] == t[i];
  }

  lemma {:induction false} AfterWhole(t: Text, n: nat, i: nat, j: nat)
    requires t != [] && IsDigit(t[0]) && i == WholeLength(t) <= j <= n <= |t|
    requires IsFraction(t[i..][..j - i]) && IsExponent(t[j..n])
    ensures n <= NumberLength(t)
  {
    hide FractionLength, ExponentLength, DigitsLength;
    FractionIsLongest(t[i..]);
    var m := i + FractionLength(t[i..]);
    ExponentIsLongest(t[m..]);
    if j == m {
      assert t[j..n] == t[j..][..n - j];
    } else {
      ShorterFractionEnds(t, i, j, m, n);
    }
  }

  // Behind a shorter fraction stands its dot or another digit, and no exponent.
  lemma {:induction false} ShorterFractionEnds(t: Text, i: nat, j: nat, m: nat, n: nat)
    requires i <= j < m <= |t| && j <= n <= |t|
    requires IsFraction(t[i..][..m - i]) && IsExponent(t[j..n])
    ensures j == n
  {
    var fraction := t[i..][..m - i];
    assert fraction[j - i] == t[j];
    assert j > i ==> fraction[1..][j - i - 1] == t[j];
  }

  // A name is as many letters, digits and underscores as stand there.
  lemma {:induction false} NamesAreLongest(t: Text)
    ensures forall i | 0 <= i < WordLength(t) ::
              65 <= t[i] <= 90 || 97 <= t[i] <= 122 || t[i] == 95 || 48 <= t[i] <= 57
    ensures var n := WordLength(t);
            n < |t| ==> !(65 <= t[n] <= 90 || 97 <= t[n] <= 122 || t[n] == 95 || 48 <= t[n] <= 57)
  {
    if t != [] && IsWordPart(t[0]) {
      NamesAreLongest(t[1..]);
      assert forall i | 0 < i < WordLength(t) :: t[i] == t[1..][i - 1];
    }
  }

  // ---------------------------------------------------------------------------------------
  // Text literals
  // ---------------------------------------------------------------------------------------

  ghost predicate HexDigit(c: CodeUnit, v: int) {
    || (48 <= c <= 57 && v == c - 48)
    || (65 <= c <= 70 && v == c - 55)
    || (97 <= c <= 102 && v == c - 87)
  }

  // How a unit of the value may be spelled: as itself, by one of eight short escapes, or by the
  // four hexadecimal digits of its number.
  ghost predicate Spells(t: Text, c: CodeUnit, quote: CodeUnit) {
    || (t == [c] && c != quote && c != 92 && c != 10 && c != 13)
    || (t == [92, c] && (c == 34 || c == 39 || c == 92))
    || (t == [92, 98] && c == 8)
    || (t == [92, 102] && c == 12)
    || (t == [92, 110] && c == 10)
    || (t == [92, 114] && c == 13)
    || (t == [92, 116] && c == 9)
    || (|t| == 6 && t[0] == 92 && t[1] == 117
        && exists a, b, d, e :: HexDigit(t[2], a) && HexDigit(t[3], b) && HexDigit(t[4], d) && HexDigit(t[5], e)
                             && c == a * 4096 + b * 256 + d * 16 + e)
  }

  ghost predicate SpelledOut(t: Text, value: Text, quote: CodeUnit)
    decreases |value|
  {
    if value == [] then t == []
    else exists n | 0 <= n <= |t| :: Spells(t[..n], value[0], quote) && SpelledOut(t[n..], value[1..], quote)
  }

  // No quote or escape is read in another way than it is spelled.
  lemma {:induction false} SpelledIsNext(p: Text, c: CodeUnit, quote: CodeUnit, more: Text)
    requires quote == 34 || quote == 39
    requires Spells(p, c, quote)
    ensures NextPiece(p + more, quote) == Ok(Some(Piece([c], |p|)))
  {
    hide HexValue;
    var t := p + more;
    assert t[0] == p[0];
    if |p| >= 2 {
      assert t[1] == p[1];
    }
    if |p| == 6 {
      assert t[2..][0] == p[2] && t[2..][1] == p[3] && t[2..][2] == p[4] && t[2..][3] == p[5];
      var a, b, d, e :| HexDigit(p[2], a) && HexDigit(p[3], b) && HexDigit(p[4], d) && HexDigit(p[5], e)
                        && c == a * 4096 + b * 256 + d * 16 + e;
      DigitIsHex(p[2], a);
      DigitIsHex(p[3], b);
      DigitIsHex(p[4], d);
      DigitIsHex(p[5], e);
    }
  }

  lemma {:induction false} NextIsSpelled(t: Text, quote: CodeUnit)
    requires quote == 34 || quote == 39
    requires NextPiece(t, quote).Ok? && NextPiece(t, quote).value.Some?
    ensures var p := NextPiece(t, quote).value.value;
            |p.value| == 1 && p.length <= |t| && Spells(t[..p.length], p.value[0], quote)
  {
    var p := NextPiece(t, quote).value.value;
    var spelling := t[..p.length];
    assert spelling[0] == t[0];
    if p.length == 2 {
      assert spelling == [t[0], t[1]];
    } else if p.length == 6 {
      assert spelling[1] == t[1] && spelling[2] == t[2..][0] && spelling[3] == t[2..][1];
      assert spelling[4] == t[2..][2] && spelling[5] == t[2..][3];
      HexIsDigit(spelling[2]);
      HexIsDigit(spelling[3]);
      HexIsDigit(spelling[4]);
      HexIsDigit(spelling[5]);
    }
  }

  lemma {:induction false} HexIsDigit(c: CodeUnit)
    requires HexValue(c).Some?
    ensures HexDigit(c, HexValue(c).value)
  {
  }

  lemma {:induction false} DigitIsHex(c: CodeUnit, v: int)
    requires HexDigit(c, v)
    ensures HexValue(c) == Some(v)
  {
  }

  lemma {:induction false} SpelledIsRead(t: Text, value: Text, quote: CodeUnit, n: nat)
    requires quote == 34 || quote == 39
    requires n < |t| && t[n] == quote && SpelledOut(t[..n], value, quote)
    ensures StringTail(t, quote) == Ok(Piece(value, n + 1))
    decreases |value|
  {
    hide Spells, NextPiece;
    if value == [] {
      QuoteIsNext(t, quote);
    } else {
      var k :| 0 <= k <= n && Spells(t[..n][..k], value[0], quote) && SpelledOut(t[..n][k..], value[1..], quote);
      assert t[..n][..k] == t[..k] && t[..n][k..] == t[k..][..n - k] && t == t[..k] + t[k..];
      SpelledIsNext(t[..k], value[0], quote, t[k..]);
      SpelledIsRead(t[k..], value[1..], quote, n - k);
      assert [value[0]] + value[1..] == value;
    }
  }

  lemma {:induction false} QuoteIsNext(t: Text, quote: CodeUnit)
    ensures t != [] && t[0] == quote ==> NextPiece(t, quote) == Ok(None)
    ensures NextPiece(t, quote) == Ok(None) ==> t != [] && t[0] == quote
  {
  }

  lemma {:induction false} ReadIsSpelled(t: Text, quote: CodeUnit)
    requires (quote == 34 || quote == 39) && StringTail(t, quote).Ok?
    ensures var p := StringTail(t, quote).value;
            t[p.length - 1] == quote && SpelledOut(t[..p.length - 1], p.value, quote)
    decreases |t|
  {
    hide Spells, SpelledOut, NextPiece;
    QuoteIsNext(t, quote);
    if NextPiece(t, quote).value.None? {
      NothingIsSpelled(t, quote);
    } else {
      var piece := NextPiece(t, quote).value.value;
      NextIsSpelled(t, quote);
      ReadIsSpelled(t[piece.length..], quote);
      OneMoreUnit(t, piece, StringTail(t[piece.length..], quote).value, quote);
    }
  }

  lemma {:induction false} NothingIsSpelled(t: Text, quote: CodeUnit)
    ensures SpelledOut(t[..0], [], quote)
  {
  }

  lemma {:induction false} OneMoreUnit(t: Text, piece: Piece, p: Piece, quote: CodeUnit)
    requires |piece.value| == 1 && piece.length <= |t| && 0 < p.length <= |t| - piece.length
    requires Spells(t[..piece.length], piece.value[0], quote)
    requires t[piece.length..][p.length - 1] == quote && SpelledOut(t[piece.length..][..p.length - 1], p.value, quote)
    ensures var n := piece.length + p.length - 1;
            t[n] == quote && SpelledOut(t[..n], piece.value + p.value, quote)
  {
    hide Spells;
    var k, n, value := piece.length, piece.length + p.length - 1, piece.value + p.value;
    assert t[..n][..k] == t[..k] && t[..n][k..] == t[k..][..n - k];
    assert value[0] == piece.value[0] && value[1..] == p.value;
  }

  // What follows an opening quote is a literal of that value and length exactly if it spells the
  // value out, unit by unit, up to the closing quote.
  lemma {:induction false} LiteralsAreSpelledOut(t: Text, quote: CodeUnit, value: Text, n: nat)
    requires quote == 34 || quote == 39
    ensures StringTail(t, quote) == Ok(Piece(value, n + 1))
       <==> n < |t| && t[n] == quote && SpelledOut(t[..n], value, quote)
  {
    if StringTail(t, quote) == Ok(Piece(value, n + 1)) {
      ReadIsSpelled(t, quote);
    }
    if n < |t| && t[n] == quote && SpelledOut(t[..n], value, quote) {
      SpelledIsRead(t, value, quote, n);
    }
  }

  // Both quotes open a literal, and the token is what stands between.
  lemma {:induction false} LiteralTokens(source: Text, offset: nat, value: Text, end: nat)
    requires offset < |source| && (source[offset] == 34 || source[offset] == 39)
    requires offset + 1 < end <= |source| && source[end - 1] == source[offset]
    requires SpelledOut(source[offset + 1..end - 1], value, source[offset])
    ensures TokenAt(source, offset) == Ok(Token(StringLiteral, value, offset, end))
  {
    hide StringTail, SpelledOut, NumberLength, WordLength;
    var t, n := source[offset..][1..], end - offset - 2;
    assert t[..n] == source[offset + 1..end - 1];
    SpelledIsRead(t, value, source[offset], n);
  }
}
