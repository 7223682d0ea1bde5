// From an expression tree to text and back: printing, rendering, tokenizing and parsing. Every
// lexeme that the printer writes is rendered with a space after it, which keeps it apart from the
// next one; the tokenizer then finds exactly these lexemes, and the parser the tree.

module RoundTrip {
  import opened CodeUnits
  import opened Wrappers
  import opened Tokenizer
  import opened Grammar
  import opened Printing

  const SPACE: CodeUnit := ' ' as int

  // ---------------------------------------------------------------------------------------
  // Tokens as text
  // ---------------------------------------------------------------------------------------

  function EscapeUnit(c: CodeUnit): (t: Text) {
    if c == QUOTE || c == BACKSLASH then [BACKSLASH, c]
    else if c == NEWLINE then [BACKSLASH, 'n' as int]
    else if c == RETURN then [BACKSLASH, 'r' as int]
    else [c]
  }

  function EscapeAll(value: Text): (t: Text) {
    if value == [] then [] else EscapeUnit(value[0]) + EscapeAll(value[1..])
  }

  function RenderOne(l: Lexeme): (t: Text) {
    if l.kind == StringLiteral then [QUOTE] + EscapeAll(l.value) + [QUOTE] else l.value
  }

  // The lexemes with a space after each.
  function Render(ls: seq<Lexeme>): (t: Text) {
    if ls == [] then [] else RenderOne(ls[0]) + [SPACE] + Render(ls[1..])
  }

  // A lexeme that the language has.
  predicate IsLexeme(l: Lexeme) {
    match l.kind
    case StringLiteral => true
    case NumberLiteral => IsNumeral(l.value)
    case Identifier => IsName(l.value)
    case Operator =>
      || (|l.value| == 1 && IsSingleOperator(l.value[0]))
      || (|l.value| == 2 && IsDoubleOperator(l.value[0], l.value[1]))
    case Punctuation => |l.value| == 1 && IsPunctuation(l.value[0])
    case Eof => false
  }

  ghost predicate AllLexemes(ls: seq<Lexeme>) {
    forall l <- ls :: IsLexeme(l)
  }

  // ---------------------------------------------------------------------------------------
  // Each kind of token is read back
  // ---------------------------------------------------------------------------------------

  lemma {:induction false} WordStops(a: Text, b: Text)
    requires WordLength(a) == |a|
    requires b == [] || !IsWordPart(b[0])
    ensures WordLength(a + b) == |a|
  {
    if a == [] {
      assert a + b == b;
    } else {
      assert (a + b)[1..] == a[1..] + b;
      WordStops(a[1..], b);
    }
  }

  lemma {:induction false} DigitsStop(a: Text, b: Text)
    requires b == [] || !IsDigit(b[0])
    ensures DigitsLength(a + b) == DigitsLength(a)
  {
    if a == [] {
      assert a + b == b;
    } else {
      assert (a + b)[1..] == a[1..] + b;
      DigitsStop(a[1..], b);
    }
  }

  lemma {:induction false} FractionStops(a: Text, b: Text)
    requires b != [] && b[0] == SPACE
    ensures FractionLength(a + b) == FractionLength(a)
  {
    if a != [] {
      assert (a + b)[1..] == a[1..] + b;
      DigitsStop(a[1..], b);
      if |a| == 1 {
        assert (a + b)[1] == SPACE;
      }
    }
  }

  lemma {:induction false} ExponentStops(a: Text, b: Text)
    requires b != [] && b[0] == SPACE
    ensures ExponentLength(a + b) == ExponentLength(a)
  {
    if a != [] {
      assert (a + b)[1..] == a[1..] + b;
      DigitsStop(a[1..], b);
      if |a| == 1 {
        assert (a + b)[1] == SPACE;
      } else {
        assert (a + b)[2..] == a[2..] + b;
        DigitsStop(a[2..], b);
      }
    }
  }

  lemma {:induction false} NumberStops(a: Text, b: Text)
    requires IsNumeral(a)
    requires b != [] && b[0] == SPACE
    ensures NumberLength(a + b) == |a|
  {
    hide DigitsLength, FractionLength, ExponentLength;
    var whole := if a[0] == '0' as int then 1 else DigitsLength(a);
    DigitsStop(a, b);
    assert (a + b)[whole..] == a[whole..] + b;
    FractionStops(a[whole..], b);
    var fraction := FractionLength(a[whole..]);
    assert (a + b)[whole + fraction..] == a[whole + fraction..] + b;
    ExponentStops(a[whole + fraction..], b);
  }

  lemma {:induction false} StringIsRead(value: Text, rest: Text)
    ensures StringTail(EscapeAll(value) + [QUOTE] + rest, QUOTE) == Ok(Piece(value, |EscapeAll(value)| + 1))
  {
    if value == [] {
      EndIsRead(EscapeAll(value) + [QUOTE] + rest);
    } else {
      StringIsRead(value[1..], rest);
      PieceIsRead(value[0], EscapeAll(value[1..]) + [QUOTE] + rest, value[1..], |EscapeAll(value[1..])| + 1);
      EscapedApart(value, rest);
    }
  }

  lemma {:induction false} EndIsRead(t: Text)
    requires t != [] && t[0] == QUOTE
    ensures StringTail(t, QUOTE) == Ok(Piece([], 1))
  {
  }

  lemma {:induction false} EscapedApart(value: Text, rest: Text)
    requires value != []
    ensures EscapeAll(value) + [QUOTE] + rest == EscapeUnit(value[0]) + (EscapeAll(value[1..]) + [QUOTE] + rest)
    ensures |EscapeAll(value)| == |EscapeUnit(value[0])| + |EscapeAll(value[1..])|
    ensures [value[0]] + value[1..] == value
  {
    hide EscapeUnit;
    var unit, others := EscapeUnit(value[0]), EscapeAll(value[1..]);
    assert EscapeAll(value) == unit + others;
    Grouped(unit, others, [QUOTE], rest);
  }

  lemma {:induction false} Grouped(a: Text, b: Text, c: Text, d: Text)
    ensures a + b + c + d == a + (b + c + d)
  {
  }

  lemma {:induction false} PieceIsRead(c: CodeUnit, more: Text, value: Text, length: nat)
    requires 0 < length <= |more| && StringTail(more, QUOTE) == Ok(Piece(value, length))
    ensures StringTail(EscapeUnit(c) + more, QUOTE) == Ok(Piece([c] + value, |EscapeUnit(c)| + length))
  {
    UnitIsRead(c, more);
    assert (EscapeUnit(c) + more)[|EscapeUnit(c)|..] == more;
  }

  lemma {:induction false} UnitIsRead(c: CodeUnit, more: Text)
    ensures NextPiece(EscapeUnit(c) + more, QUOTE) == Ok(Some(Piece([c], |EscapeUnit(c)|)))
  {
    var t := EscapeUnit(c) + more;
    assert t[0] == EscapeUnit(c)[0];
    if |EscapeUnit(c)| == 2 {
      assert t[1] == EscapeUnit(c)[1];
    }
  }

  // The lexeme stands at the offset and is followed by a space.
  ghost predicate StandsAt(l: Lexeme, source: Text, offset: nat) {
    var n := |RenderOne(l)|;
    && offset + n < |source|
    && source[offset..][..n] == RenderOne(l)
    && source[offset..][n] == SPACE
  }

  ghost predicate ReadAt(l: Lexeme, source: Text, offset: nat) {
    && offset < |source| && !IsSpace(source[offset])
    && TokenAt(source, offset) == Ok(Token(l.kind, l.value, offset, offset + |RenderOne(l)|))
  }

  lemma {:induction false} TextIsRead(l: Lexeme, source: Text, offset: nat)
    requires l.kind == StringLiteral && StandsAt(l, source, offset)
    ensures ReadAt(l, source, offset)
  {
    hide StringTail, EscapeAll, NumberLength, WordLength;
    var t, n := source[offset..], |RenderOne(l)|;
    assert t[0] == t[..n][0] == QUOTE;
    Opened(t, l.value, n);
    StringIsRead(l.value, t[n..]);
    assert StringTail(t[1..], QUOTE) == Ok(Piece(l.value, n - 1));
  }

  lemma {:induction false} Opened(t: Text, value: Text, n: nat)
    requires n <= |t| && t[..n] == [QUOTE] + EscapeAll(value) + [QUOTE]
    ensures t[1..] == EscapeAll(value) + [QUOTE] + t[n..]
  {
    var inside := EscapeAll(value) + [QUOTE];
    assert t[..n] == [QUOTE] + inside;
    assert t[..n][1..] == inside;
    assert t[1..n] == t[..n][1..];
  }

  lemma {:induction false} NumeralIsRead(l: Lexeme, source: Text, offset: nat)
    requires l.kind == NumberLiteral && IsNumeral(l.value) && StandsAt(l, source, offset)
    ensures ReadAt(l, source, offset)
  {
    hide NumberLength, WordLength, StringTail;
    var t, n := source[offset..], |l.value|;
    assert t[0] == t[..n][0];
    assert t == l.value + t[n..];
    NumberStops(l.value, t[n..]);
  }

  lemma {:induction false} NameIsRead(l: Lexeme, source: Text, offset: nat)
    requires l.kind == Identifier && IsName(l.value) && StandsAt(l, source, offset)
    ensures ReadAt(l, source, offset)
  {
    var t, n := source[offset..], |l.value|;
    assert t[0] == t[..n][0];
    assert t[1..] == l.value[1..] + t[n..] by {
      assert t == l.value + t[n..];
    }
    WordStops(l.value[1..], t[n..]);
  }

  lemma {:induction false} OperatorIsRead(l: Lexeme, source: Text, offset: nat)
    requires l.kind == Operator && IsLexeme(l) && StandsAt(l, source, offset)
    ensures ReadAt(l, source, offset)
  {
    var t, n := source[offset..], |l.value|;
    assert t[0] == t[..n][0];
    if n == 2 {
      assert t[1] == t[..n][1];
    } else {
      assert l.value == [t[0]];
    }
  }

  lemma {:induction false} MarkIsRead(l: Lexeme, source: Text, offset: nat)
    requires l.kind == Punctuation && IsLexeme(l) && StandsAt(l, source, offset)
    ensures ReadAt(l, source, offset)
  {
    var t := source[offset..];
    assert t[0] == t[..1][0];
    assert l.value == [t[0]];
  }

  lemma {:induction false} LexemeIsRead(l: Lexeme, source: Text, offset: nat)
    requires IsLexeme(l) && StandsAt(l, source, offset)
    ensures ReadAt(l, source, offset)
  {
    match l.kind
    case StringLiteral => TextIsRead(l, source, offset);
    case NumberLiteral => NumeralIsRead(l, source, offset);
    case Identifier => NameIsRead(l, source, offset);
    case Operator => OperatorIsRead(l, source, offset);
    case Punctuation => MarkIsRead(l, source, offset);
  }

  lemma {:induction false} FirstStands(ls: seq<Lexeme>, source: Text, offset: nat)
    requires ls != [] && offset <= |source| && source[offset..] == Render(ls)
    ensures StandsAt(ls[0], source, offset)
    ensures source[offset + |RenderOne(ls[0])| + 1..] == Render(ls[1..])
    ensures source[offset + |RenderOne(ls[0])|] == SPACE
  {
    var one, more := RenderOne(ls[0]), Render(ls[1..]);
    Prefixed(source[offset..], one, more);
    assert source[offset + |one| + 1..] == source[offset..][|one| + 1..];
  }

  lemma {:induction false} Prefixed(t: Text, one: Text, more: Text)
    requires t == one + [SPACE] + more
    ensures |one| < |t| && t[..|one|] == one && t[|one|] == SPACE && t[|one| + 1..] == more
  {
  }

  lemma {:induction false} ScanStep(l: Lexeme, source: Text, offset: nat, tail: seq<Token>)
    requires ReadAt(l, source, offset)
    requires offset + |RenderOne(l)| < |source| && source[offset + |RenderOne(l)|] == SPACE
    requires Scan(source, offset + |RenderOne(l)| + 1) == Ok(tail)
    ensures Scan(source, offset) == Ok([Token(l.kind, l.value, offset, offset + |RenderOne(l)|)] + tail)
  {
    hide RenderOne, TokenAt;
    SpaceIsSkipped(source, offset + |RenderOne(l)|);
  }

  lemma {:induction false} SpaceIsSkipped(source: Text, offset: nat)
    requires offset < |source| && source[offset] == SPACE
    ensures Scan(source, offset) == Scan(source, offset + 1)
  {
    hide TokenAt;
  }

  // The tokens of rendered lexemes.
  ghost function TokensOf(ls: seq<Lexeme>, offset: nat): (ts: seq<Token>) {
    if ls == [] then [Token(Eof, [], offset, offset)] else
    var end := offset + |RenderOne(ls[0])|;
    [Token(ls[0].kind, ls[0].value, offset, end)] + TokensOf(ls[1..], end + 1)
  }

  lemma {:induction false} LexemesOfTokens(ls: seq<Lexeme>, offset: nat)
    ensures Lexemes(TokensOf(ls, offset)) == ls + [Lexeme(Eof, [])]
  {
    if ls != [] {
      var end := offset + |RenderOne(ls[0])|;
      var tail := TokensOf(ls[1..], end + 1);
      LexemesOfTokens(ls[1..], end + 1);
      OneMoreLexeme(Token(ls[0].kind, ls[0].value, offset, end), tail, ls);
    }
  }

  lemma {:induction false} OneMoreLexeme(t: Token, tail: seq<Token>, ls: seq<Lexeme>)
    requires ls != [] && ls[0] == Lexeme(t.kind, t.value)
    requires Lexemes(tail) == ls[1..] + [Lexeme(Eof, [])]
    ensures Lexemes([t] + tail) == ls + [Lexeme(Eof, [])]
  {
    assert Lexemes([t] + tail) == [ls[0]] + Lexemes(tail);
    assert ls == [ls[0]] + ls[1..];
  }

  lemma {:induction false} AfterFirst(ls: seq<Lexeme>, source: Text, offset: nat) returns (end: nat)
    requires ls != [] && offset <= |source| && source[offset..] == Render(ls)
    ensures end == offset + |RenderOne(ls[0])| < |source|
    ensures source[end + 1..] == Render(ls[1..])
  {
    FirstStands(ls, source, offset);
    end := offset + |RenderOne(ls[0])|;
  }

  lemma {:induction false} FirstIsScanned(ls: seq<Lexeme>, source: Text, offset: nat, end: nat, tail: seq<Token>)
    requires ls != [] && IsLexeme(ls[0]) && offset <= |source| && source[offset..] == Render(ls)
    requires end == offset + |RenderOne(ls[0])| < |source|
    requires Scan(source, end + 1) == Ok(tail)
    ensures Scan(source, offset) == Ok([Token(ls[0].kind, ls[0].value, offset, end)] + tail)
  {
    FirstStands(ls, source, offset);
    LexemeIsRead(ls[0], source, offset);
    ScanStep(ls[0], source, offset, tail);
  }

  // The outcome of scanning is exactly the tokens of these lexemes.
  ghost predicate Holds(scan: Result<seq<Token>, TokenError>, ls: seq<Lexeme>, offset: nat) {
    scan == Ok(TokensOf(ls, offset))
  }

  lemma {:induction false} HoldsOneMore(ls: seq<Lexeme>, offset: nat, end: nat, scan: Result<seq<Token>, TokenError>)
    requires ls != [] && end == offset + |RenderOne(ls[0])|
    requires scan == Ok([Token(ls[0].kind, ls[0].value, offset, end)] + TokensOf(ls[1..], end + 1))
    ensures Holds(scan, ls, offset)
  {
  }

  lemma {:induction false} HoldsNothing(ls: seq<Lexeme>, source: Text, offset: nat)
    requires ls == [] && offset <= |source| && source[offset..] == Render(ls)
    ensures Holds(Scan(source, offset), ls, offset)
  {
  }

  lemma {:induction false} FirstLexeme(ls: seq<Lexeme>)
    requires ls != [] && AllLexemes(ls)
    ensures IsLexeme(ls[0]) && AllLexemes(ls[1..])
  {
    assert ls[0] in ls;
  }

  // Tokenizing rendered lexemes gives exactly their tokens.
  lemma {:induction false} RenderedIsTokenized(ls: seq<Lexeme>, source: Text, offset: nat)
    requires AllLexemes(ls)
    requires offset <= |source| && source[offset..] == Render(ls)
    ensures Holds(Scan(source, offset), ls, offset)
    decreases |ls|
  {
    hide *;
    if ls == [] {
      HoldsNothing(ls, source, offset);
    } else {
      FirstLexeme(ls);
      var end := AfterFirst(ls, source, offset);
      RenderedIsTokenized(ls[1..], source, end + 1);
      FirstHolds(ls, source, offset, end);
    }
  }

  lemma {:induction false} FirstHolds(ls: seq<Lexeme>, source: Text, offset: nat, end: nat)
    requires ls != [] && IsLexeme(ls[0]) && offset <= |source| && source[offset..] == Render(ls)
    requires end == offset + |RenderOne(ls[0])| < |source|
    requires Holds(Scan(source, end + 1), ls[1..], end + 1)
    ensures Holds(Scan(source, offset), ls, offset)
  {
    FirstIsScanned(ls, source, offset, end, TokensOf(ls[1..], end + 1));
    HoldsOneMore(ls, offset, end, Scan(source, offset));
  }

  // ---------------------------------------------------------------------------------------
  // The printer produces only lexemes of the language
  // ---------------------------------------------------------------------------------------

  lemma {:induction false} KeywordsAreNames()
    ensures IsName(TRUE) && IsName(FALSE) && IsName(NULL)
  {
    assert TRUE[1..] == [TRUE[1], TRUE[2], TRUE[3]];
    FourLetters(TRUE);
    FourLetters(NULL);
    FourLetters(FALSE[1..]);
  }

  lemma {:induction false} FourLetters(t: Text)
    requires |t| == 4 && IsWordPart(t[0]) && IsWordPart(t[1]) && IsWordPart(t[2]) && IsWordPart(t[3])
    ensures WordLength(t) == 4
  {
    var a, b, c, d := t[1..], t[2..], t[3..], t[4..];
    assert a[1..] == b && b[1..] == c && c[1..] == d && d == [];
    assert WordLength(d) == 0;
    assert WordLength(c) == 1;
    assert WordLength(b) == 2;
  }

  lemma {:induction false} OperatorsAreLexemes(op: Text)
    requires IsOperatorOf(OperatorLevel(op), op) || IsUnaryOperator(op)
    ensures IsLexeme(Lexeme(Operator, op))
  {
  }

  lemma {:induction false} PrintsLexemes(pr: Printer, e: Expr, level: nat)
    requires GoodLanguage(pr.lang) && Printable(pr, e)
    ensures AllLexemes(Print(pr, e, level))
    decreases e, 1
  {
    PrintsBareLexemes(pr, e);
  }

  lemma {:induction false} PrintsBareLexemes(pr: Printer, e: Expr)
    requires GoodLanguage(pr.lang) && Printable(pr, e)
    ensures AllLexemes(PrintBare(pr, e))
    decreases e, 0
  {
    match e
    case Literal(_, _) => KeywordsAreNames();
    case Input(_) =>
    case Array(elements, _) => PrintsAllLexemes(pr, elements);
    case Object(entries, _) => PrintsEntryLexemes(pr, entries);
    case Unary(op, operand, _) =>
      OperatorsAreLexemes(op);
      PrintsLexemes(pr, operand, UNARY_LEVEL);
    case Binary(op, left, right, _) =>
      OperatorsAreLexemes(op);
      PrintsLexemes(pr, left, OperatorLevel(op));
      PrintsLexemes(pr, right, OperatorLevel(op) + 1);
    case Conditional(c, t, f, _) =>
      PrintsLexemes(pr, c, 1);
      PrintsLexemes(pr, t, 0);
      PrintsLexemes(pr, f, 0);
  }

  lemma {:induction false} PrintsAllLexemes(pr: Printer, es: seq<Expr>)
    requires GoodLanguage(pr.lang) && forall x <- es :: Printable(pr, x)
    ensures AllLexemes(PrintAll(pr, es))
    decreases es, 2
  {
    if es != [] {
      PrintsLexemes(pr, es[0], 0);
      PrintsAllLexemes(pr, es[1..]);
    }
  }

  lemma {:induction false} PrintsEntryLexemes(pr: Printer, entries: seq<Entry>)
    requires GoodLanguage(pr.lang) && forall x <- entries :: Printable(pr, x.value)
    ensures AllLexemes(PrintEntries(pr, entries))
    decreases entries, 2
  {
    if entries != [] {
      assert entries[0] in entries;
      PrintsLexemes(pr, entries[0].value, 0);
      PrintsEntryLexemes(pr, entries[1..]);
    }
  }

  // ---------------------------------------------------------------------------------------
  // The whole way
  // ---------------------------------------------------------------------------------------

  // The tokens of a written expression.
  lemma {:induction false} WrittenTokens(pr: Printer, e: Expr) returns (head: seq<Token>, rest: seq<Token>)
    requires GoodLanguage(pr.lang) && Printable(pr, e)
    ensures Scan(Render(Print(pr, e, 0)), 0) == Ok(head + rest)
    ensures Followed(head, Print(pr, e, 0), rest)
    ensures |rest| == 1 && rest[0].kind == Eof && rest[0].value == []
  {
    hide Print, Render, IsLexeme, TokensOf;
    var ls := Print(pr, e, 0);
    var source := Render(ls);
    PrintsLexemes(pr, e, 0);
    assert source[0..] == source;
    RenderedIsTokenized(ls, source, 0);
    LexemesOfTokens(ls, 0);
    var ts := TokensOf(ls, 0);
    ScanIsWellEnded(source, 0);
    assert Lexemes(ts)[|ls|] == Lexeme(Eof, []);
    head, rest := ts[..|ls|], ts[|ls|..];
    assert ts == head + rest;
    assert Lexemes(head) == ls by {
      assert Lexemes(head) == Lexemes(ts)[..|ls|];
    }
  }
}
