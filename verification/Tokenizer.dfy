// packages/model-option-map/src/tokenizer.ts: the tokens of a restricted CEL expression. The shape
// of every kind of token is a function on the text from its first unit on, and the loops of the
// source are proved to find it.

module Tokenizer {
  import opened CodeUnits
  import opened Wrappers

  datatype Kind = Identifier | StringLiteral | NumberLiteral | Operator | Punctuation | Eof

  datatype Token = Token(kind: Kind, value: Text, offset: nat, end: nat)

  datatype Reason =
    | UnsupportedToken
    | UnterminatedString
    | UnterminatedEscape
    | InvalidUnicodeEscape
    | UnsupportedEscape

  datatype TokenError = TokenError(reason: Reason, offset: nat)

  // ---------------------------------------------------------------------------------------
  // Character classes
  // ---------------------------------------------------------------------------------------

  const QUOTE: CodeUnit := '"' as int
  const APOSTROPHE: CodeUnit := '\'' as int
  const BACKSLASH: CodeUnit := '\\' as int
  const NEWLINE: CodeUnit := '\n' as int
  const RETURN: CodeUnit := '\r' as int

  predicate IsDigit(c: CodeUnit) {
    '0' as int <= c <= '9' as int
  }

  predicate IsWordStart(c: CodeUnit) {
    'A' as int <= c <= 'Z' as int || 'a' as int <= c <= 'z' as int || c == '_' as int
  }

  predicate IsWordPart(c: CodeUnit) {
    IsWordStart(c) || IsDigit(c)
  }

  predicate IsSingleOperator(c: CodeUnit) {
    c in {'+' as int, '-' as int, '*' as int, '/' as int, '%' as int, '!' as int, '<' as int, '>' as int}
  }

  predicate IsPunctuation(c: CodeUnit) {
    c in {'{' as int, '}' as int, '[' as int, ']' as int, '(' as int, ')' as int, ',' as int, ':' as int, '?' as int,
          '.' as int}
  }

  predicate IsDoubleOperator(first: CodeUnit, second: CodeUnit) {
    || (first == second && (first == '&' as int || first == '|' as int))
    || (second == '=' as int
      && (first == '=' as int || first == '!' as int || first == '<' as int || first == '>' as int))
  }

  // ---------------------------------------------------------------------------------------
  // The shape of each token at the front of a text
  // ---------------------------------------------------------------------------------------

  function WordLength(t: Text): (n: nat)
    ensures n <= |t|
  {
    if t != [] && IsWordPart(t[0]) then 1 + WordLength(t[1..]) else 0
  }

  function DigitsLength(t: Text): (n: nat)
    ensures n <= |t|
  {
    if t != [] && IsDigit(t[0]) then 1 + DigitsLength(t[1..]) else 0
  }

  // \.\d+ or nothing
  function FractionLength(t: Text): (n: nat)
    ensures n <= |t|
  {
    if |t| >= 2 && t[0] == '.' as int && IsDigit(t[1]) then 1 + DigitsLength(t[1..]) else 0
  }

  // [eE][+-]?\d+ or nothing
  function ExponentLength(t: Text): (n: nat)
    ensures n <= |t|
  {
    if t == [] || !(t[0] == 'e' as int || t[0] == 'E' as int) then 0 else
    var sign := if |t| > 1 && (t[1] == '+' as int || t[1] == '-' as int) then 2 else 1;
    var digits := DigitsLength(t[sign..]);
    if digits == 0 then 0 else sign + digits
  }

  // 0 or [1-9]\d*, then the optional parts: what the numeral pattern takes off a digit.
  function NumberLength(t: Text): (n: nat)
    requires t != [] && IsDigit(t[0])
    ensures 0 < n <= |t|
  {
    var whole := if t[0] == '0' as int then 1 else DigitsLength(t);
    var fraction := FractionLength(t[whole..]);
    whole + fraction + ExponentLength(t[whole + fraction..])
  }

  function HexValue(c: CodeUnit): (v: Option<nat>)
    ensures v.Some? ==> v.value < 16
  {
    if IsDigit(c) then Some(c - '0' as int)
    else if 'a' as int <= c <= 'f' as int then Some(c - 'a' as int + 10)
    else if 'A' as int <= c <= 'F' as int then Some(c - 'A' as int + 10)
    else None
  }

  function UnicodeEscape(digits: Text): (c: Option<CodeUnit>) {
    if |digits| < 4 then None else
    var a, b, c, d := HexValue(digits[0]), HexValue(digits[1]), HexValue(digits[2]), HexValue(digits[3]);
    if a.Some? && b.Some? && c.Some? && d.Some?
    then Some(a.value * 0x1000 + b.value * 0x100 + c.value * 0x10 + d.value)
    else None
  }

  function SimpleEscape(c: CodeUnit): (e: Option<CodeUnit>) {
    if c == APOSTROPHE || c == QUOTE || c == BACKSLASH then Some(c)
    else if c == 'b' as int then Some(8)
    else if c == 'f' as int then Some(12)
    else if c == 'n' as int then Some(NEWLINE)
    else if c == 'r' as int then Some(RETURN)
    else if c == 't' as int then Some(9)
    else None
  }

  datatype Piece = Piece(value: Text, length: nat)

  // A backslash and what it escapes.
  function Escape(t: Text): (r: Result<Piece, Reason>)
    requires t != []
    ensures r.Ok? ==> 0 < r.value.length <= |t|
  {
    if |t| == 1 then Err(UnterminatedEscape)
    else if SimpleEscape(t[1]).Some? then Ok(Piece([SimpleEscape(t[1]).value], 2))
    else if t[1] != 'u' as int then Err(UnsupportedEscape)
    else
      match UnicodeEscape(t[2..])
      case Some(c) => Ok(Piece([c], 6))
      case None => Err(InvalidUnicodeEscape)
  }

  // What follows an opening quote: the value of the literal and its length with the closing
  // quote. An unterminated literal is reported where it opens, a bad escape where it stands.
  datatype PieceError = PieceError(reason: Reason, at: int)

  // The next unit of the value; None is the closing quote.
  function NextPiece(t: Text, quote: CodeUnit): (r: Result<Option<Piece>, PieceError>)
    ensures r.Ok? && r.value.Some? ==> 0 < r.value.value.length <= |t|
    ensures r.Ok? && r.value.None? ==> t != []
    ensures r.Err? ==> r.error.at >= -1
  {
    if t == [] then Err(PieceError(UnterminatedString, -1))
    else if t[0] == quote then Ok(None)
    else if t[0] == NEWLINE || t[0] == RETURN then Err(PieceError(UnterminatedString, -1))
    else if t[0] != BACKSLASH then Ok(Some(Piece([t[0]], 1)))
    else
      match Escape(t)
      case Ok(p) => Ok(Some(p))
      case Err(reason) => Err(PieceError(reason, 0))
  }

  function StringTail(t: Text, quote: CodeUnit): (r: Result<Piece, PieceError>)
    ensures r.Ok? ==> 0 < r.value.length <= |t|
    ensures r.Err? ==> r.error.at >= -1
    decreases |t|
  {
    match NextPiece(t, quote)
    case Err(e) => Err(e)
    case Ok(None) => Ok(Piece([], 1))
    case Ok(Some(p)) => Longer(p.value, p.length, StringTail(t[p.length..], quote))
  }

  function Longer(value: Text, length: nat, r: Result<Piece, PieceError>): (r': Result<Piece, PieceError>)
    ensures r'.Ok? <==> r.Ok?
    ensures r.Ok? ==> r'.value == Piece(value + r.value.value, length + r.value.length)
    ensures r.Err? && r.error.at >= -1 ==> r'.error.at >= -1
  {
    match r
    case Ok(p) => Ok(Piece(value + p.value, length + p.length))
    case Err(e) => Err(if e.at < 0 then e else PieceError(e.reason, e.at + length))
  }

  // The token at an offset that is not white space.
  function TokenAt(source: Text, offset: nat): (r: Result<Token, TokenError>)
    requires offset < |source| && !IsSpace(source[offset])
    ensures r.Ok? ==> r.value.offset == offset < r.value.end <= |source| && r.value.kind != Eof
  {
    var c, t := source[offset], source[offset..];
    if c == APOSTROPHE || c == QUOTE then
      match StringTail(t[1..], c)
      case Ok(p) => Ok(Token(StringLiteral, p.value, offset, offset + 1 + p.length))
      case Err(e) => Err(TokenError(e.reason, offset + 1 + e.at))
    else if IsDigit(c) then
      Ok(Token(NumberLiteral, t[..NumberLength(t)], offset, offset + NumberLength(t)))
    else if IsWordStart(c) then
      var n := 1 + WordLength(t[1..]);
      Ok(Token(Identifier, t[..n], offset, offset + n))
    else if |t| >= 2 && IsDoubleOperator(c, t[1]) then
      Ok(Token(Operator, t[..2], offset, offset + 2))
    else if IsSingleOperator(c) then
      Ok(Token(Operator, [c], offset, offset + 1))
    else if IsPunctuation(c) then
      Ok(Token(Punctuation, [c], offset, offset + 1))
    else
      Err(TokenError(UnsupportedToken, offset))
  }

  function Scan(source: Text, offset: nat): (r: Result<seq<Token>, TokenError>)
    requires offset <= |source|
    decreases |source| - offset
  {
    if offset == |source| then Ok([Token(Eof, [], offset, offset)])
    else if IsSpace(source[offset]) then Scan(source, offset + 1)
    else
      match TokenAt(source, offset)
      case Err(e) => Err(e)
      case Ok(token) =>
        match Scan(source, token.end)
        case Err(e) => Err(e)
        case Ok(tokens) => Ok([token] + tokens)
  }

  // ---------------------------------------------------------------------------------------
  // The loops
  // ---------------------------------------------------------------------------------------

  method ReadWord(source: Text, offset: nat) returns (cursor: nat)
    requires offset <= |source|
    ensures cursor == offset + WordLength(source[offset..])
  {
    cursor := offset;
    while cursor < |source| && IsWordPart(source[cursor])
      invariant offset <= cursor <= |source|
      invariant cursor + WordLength(source[cursor..]) == offset + WordLength(source[offset..])
    {
      assert source[cursor..][1..] == source[cursor + 1..];
      cursor := cursor + 1;
    }
  }

  method ReadPiece(source: Text, cursor: nat, quote: CodeUnit) returns (r: Result<Option<Piece>, PieceError>)
    requires cursor < |source|
    ensures r == NextPiece(source[cursor..], quote)
  {
    var c := source[cursor];
    if c == quote {
      return Ok(None);
    }
    if c == NEWLINE || c == RETURN {
      return Err(PieceError(UnterminatedString, -1));
    }
    if c != BACKSLASH {
      return Ok(Some(Piece([c], 1)));
    }
    if cursor + 1 == |source| {
      return Err(PieceError(UnterminatedEscape, 0));
    }
    var escaped := source[cursor + 1];
    var simple := SimpleEscape(escaped);
    if simple.Some? {
      return Ok(Some(Piece([simple.value], 2)));
    }
    if escaped == 'u' as int {
      assert source[cursor..][2..] == source[cursor + 2..];
      var c := UnicodeEscape(source[cursor + 2..]);
      if c.None? {
        return Err(PieceError(InvalidUnicodeEscape, 0));
      }
      return Ok(Some(Piece([c.value], 6)));
    }
    return Err(PieceError(UnsupportedEscape, 0));
  }

  method ReadString(source: Text, offset: nat, quote: CodeUnit) returns (r: Result<Token, TokenError>)
    requires offset < |source| && !IsSpace(source[offset])
    requires quote == source[offset] && (quote == APOSTROPHE || quote == QUOTE)
    ensures r == TokenAt(source, offset)
  {
    var tail := ReadStringTail(source, offset + 1, quote);
    assert source[offset..][1..] == source[offset + 1..];
    if tail.Err? {
      return Err(TokenError(tail.error.reason, offset + 1 + tail.error.at));
    }
    return Ok(Token(StringLiteral, tail.value.value, offset, offset + 1 + tail.value.length));
  }

  // The loop of readString, from behind the opening quote.
  method ReadStringTail(source: Text, start: nat, quote: CodeUnit) returns (r: Result<Piece, PieceError>)
    requires start <= |source|
    ensures r == StringTail(source[start..], quote)
  {
    hide NextPiece;
    var cursor := start;
    var value: Text := [];
    ghost var whole := StringTail(source[start..], quote);
    ghost var todo := whole;
    assert whole.Ok? ==> [] + whole.value.value == whole.value.value;
    while cursor < |source|
      invariant start <= cursor <= |source|
      invariant todo == StringTail(source[cursor..], quote)
      invariant Shifted(todo, value, cursor - start) == whole
    {
      var next := ReadPiece(source, cursor, quote);
      if next.Err? {
        return Err(if next.error.at < 0 then next.error
          else PieceError(next.error.reason, next.error.at + (cursor - start)));
      }
      if next.value.None? {
        assert value + [] == value;
        return Ok(Piece(value, cursor - start + 1));
      }
      var p := next.value.value;
      assert source[cursor..][p.length..] == source[cursor + p.length..];
      todo := StringTail(source[cursor + p.length..], quote);
      ShiftedTwice(todo, p.value, p.length, value, cursor - start);
      value := value + p.value;
      cursor := cursor + p.length;
    }
    assert source[cursor..] == [];
    NeverClosed(quote);
    return Err(PieceError(UnterminatedString, -1));
  }

  lemma {:induction false} NeverClosed(quote: CodeUnit)
    ensures StringTail([], quote) == Err(PieceError(UnterminatedString, -1))
  {
  }

  // The result of reading on, after `value` was read from the `length` units before.
  ghost function Shifted(r: Result<Piece, PieceError>, value: Text, length: nat): (r': Result<Piece, PieceError>) {
    Longer(value, length, r)
  }

  lemma {:induction false} ShiftedTwice(r: Result<Piece, PieceError>, inner: Text, innerLength: nat, outer: Text,
                                        outerLength: nat)
    ensures Shifted(Longer(inner, innerLength, r), outer, outerLength)
              == Shifted(r, outer + inner, outerLength + innerLength)
  {
    if r.Ok? {
      assert outer + (inner + r.value.value) == outer + inner + r.value.value;
    }
  }

  method Tokenize(source: Text) returns (r: Result<seq<Token>, TokenError>)
    ensures r == Scan(source, 0)
  {
    var tokens: seq<Token> := [];
    var offset := 0;
    ghost var whole := Scan(source, 0);
    assert whole.Ok? ==> [] + whole.value == whole.value;
    while offset < |source|
      invariant 0 <= offset <= |source|
      invariant Prepended(tokens, Scan(source, offset)) == whole
      decreases |source| - offset
    {
      var c := source[offset];
      if IsSpace(c) {
        offset := offset + 1;
        continue;
      }
      var token := NextToken(source, offset);
      if token.Err? {
        return Err(token.error);
      }
      PrependedTwice(tokens, token.value, Scan(source, token.value.end));
      tokens := tokens + [token.value];
      offset := token.value.end;
    }
    return Ok(tokens + [Token(Eof, [], |source|, |source|)]);
  }

  // The branches of the tokenizer's loop that push a token.
  method NextToken(source: Text, offset: nat) returns (r: Result<Token, TokenError>)
    requires offset < |source| && !IsSpace(source[offset])
    ensures r == TokenAt(source, offset)
  {
    var c := source[offset];
    if c == APOSTROPHE || c == QUOTE {
      r := ReadString(source, offset, c);
      return;
    }
    if IsDigit(c) {
      var length := NumberLength(source[offset..]);
      assert source[offset..][..length] == source[offset..offset + length];
      return Ok(Token(NumberLiteral, source[offset..offset + length], offset, offset + length));
    }
    if IsWordStart(c) {
      assert source[offset..][1..] == source[offset + 1..];
      var end := ReadWord(source, offset + 1);
      assert source[offset..][..end - offset] == source[offset..end];
      return Ok(Token(Identifier, source[offset..end], offset, end));
    }
    if offset + 1 < |source| && IsDoubleOperator(c, source[offset + 1]) {
      assert source[offset..][..2] == source[offset..offset + 2];
      return Ok(Token(Operator, source[offset..offset + 2], offset, offset + 2));
    }
    if IsSingleOperator(c) {
      return Ok(Token(Operator, [c], offset, offset + 1));
    }
    if IsPunctuation(c) {
      return Ok(Token(Punctuation, [c], offset, offset + 1));
    }
    return Err(TokenError(UnsupportedToken, offset));
  }

  ghost function Prepended(tokens: seq<Token>, r: Result<seq<Token>, TokenError>): (r': Result<seq<Token>,
      TokenError>) {
    match r
    case Ok(more) => Ok(tokens + more)
    case Err(e) => Err(e)
  }

  lemma {:induction false} PrependedTwice(tokens: seq<Token>, token: Token, r: Result<seq<Token>, TokenError>)
    ensures Prepended(tokens, Prepended([token], r)) == Prepended(tokens + [token], r)
  {
    if r.Ok? {
      assert tokens + ([token] + r.value) == tokens + [token] + r.value;
    }
  }

  // ---------------------------------------------------------------------------------------
  // What every token list looks like
  // ---------------------------------------------------------------------------------------

  // The last token, and no other, is the end of the input.
  ghost predicate WellEnded(tokens: seq<Token>) {
    && tokens != []
    && tokens[|tokens| - 1].kind == Eof
    && tokens[|tokens| - 1].value == []
    && forall i | 0 <= i < |tokens| - 1 :: tokens[i].kind != Eof
  }

  lemma {:induction false} ScanIsWellEnded(source: Text, offset: nat)
    requires offset <= |source|
    requires Scan(source, offset).Ok?
    ensures WellEnded(Scan(source, offset).value)
    decreases |source| - offset
  {
    if offset < |source| {
      if IsSpace(source[offset]) {
        ScanIsWellEnded(source, offset + 1);
      } else {
        ScanIsWellEnded(source, TokenAt(source, offset).value.end);
      }
    }
  }
}
