// packages/model-option-map/src/parser.ts: the grammar of restricted CEL, as functions from the
// tokens still to be read to an expression and the tokens after it. Errors carry the offset that
// the parser reports.

module Grammar {
  import opened CodeUnits
  import opened Wrappers
  import opened Tokenizer
  import Json

  type Number = Json.Number

  datatype Literal = TextLiteral(text: Text) | NumberValue(n: Number) | BoolLiteral(b: bool) | NullLiteral

  datatype Entry = Entry(key: Text, value: Expr, offset: nat)

  datatype Expr =
    | Literal(value: Literal, offset: nat)
    | Input(offset: nat)
    | Array(elements: seq<Expr>, offset: nat)
    | Object(entries: seq<Entry>, offset: nat)
    | Unary(operator: Text, operand: Expr, offset: nat)
    | Binary(operator: Text, left: Expr, right: Expr, offset: nat)
    | Conditional(condition: Expr, whenTrue: Expr, whenFalse: Expr, offset: nat)

  datatype Reason =
    | MemberAccess
    | FunctionCall
    | Unexpected(value: Text)
    | UnsafeNumber
    | UnknownIdentifier(name: Text)
    | KeyNotText
    | DuplicateKey(key: Text)
    | Expected(value: Text)

  datatype ParseError = ParseError(reason: Reason, offset: nat)

  // The name of the input, and what the language makes of numerals.
  datatype Language = Language(variableName: Text, valueOf: Text -> Number, safe: Number -> bool)

  datatype Got = Got(expr: Expr, rest: seq<Token>)

  type Parsed = Result<Got, ParseError>

  // ---------------------------------------------------------------------------------------
  // Lexemes
  // ---------------------------------------------------------------------------------------

  const OPEN_PAREN: Text := ['(' as int]
  const CLOSE_PAREN: Text := [')' as int]
  const OPEN_BRACKET: Text := ['[' as int]
  const CLOSE_BRACKET: Text := [']' as int]
  const OPEN_BRACE: Text := ['{' as int]
  const CLOSE_BRACE: Text := ['}' as int]
  const COMMA: Text := [',' as int]
  const COLON: Text := [':' as int]
  const QUESTION: Text := ['?' as int]
  const DOT: Text := ['.' as int]
  const NOT: Text := ['!' as int]
  const MINUS: Text := ['-' as int]
  const PLUS: Text := ['+' as int]
  const TIMES: Text := ['*' as int]
  const DIVIDE: Text := ['/' as int]
  const REMAINDER: Text := ['%' as int]
  const LESS: Text := ['<' as int]
  const LESS_EQUAL: Text := ['<' as int, '=' as int]
  const GREATER: Text := ['>' as int]
  const GREATER_EQUAL: Text := ['>' as int, '=' as int]
  const EQUAL: Text := ['=' as int, '=' as int]
  const NOT_EQUAL: Text := ['!' as int, '=' as int]
  const AND: Text := ['&' as int, '&' as int]
  const OR: Text := ['|' as int, '|' as int]
  const TRUE: Text := ['t' as int, 'r' as int, 'u' as int, 'e' as int]
  const FALSE: Text := ['f' as int, 'a' as int, 'l' as int, 's' as int, 'e' as int]
  const NULL: Text := ['n' as int, 'u' as int, 'l' as int, 'l' as int]

  // Levels: 0 is the conditional, 1 to 6 the binary operators from loose to tight, 7 the unary
  // operators, 8 the primary expressions.
  const CONDITIONAL_LEVEL := 0
  const UNARY_LEVEL := 7
  const PRIMARY_LEVEL := 8

  predicate IsOperatorOf(level: nat, op: Text) {
    match level
    case 1 => op == OR
    case 2 => op == AND
    case 3 => op == EQUAL || op == NOT_EQUAL
    case 4 => op == LESS || op == LESS_EQUAL || op == GREATER || op == GREATER_EQUAL
    case 5 => op == PLUS || op == MINUS
    case 6 => op == TIMES || op == DIVIDE || op == REMAINDER
    case _ => false
  }

  predicate IsUnaryOperator(op: Text) {
    op == NOT || op == MINUS || op == PLUS
  }

  predicate Continues(level: nat, t: Token) {
    t.kind == Operator && IsOperatorOf(level, t.value)
  }

  // ---------------------------------------------------------------------------------------
  // The grammar
  // ---------------------------------------------------------------------------------------

  lemma {:induction false} TailIsWellEnded(ts: seq<Token>)
    requires WellEnded(ts) && ts[0].kind != Eof
    ensures |ts| >= 2 && WellEnded(ts[1..])
  {
  }

  // Any expression, of the given level or tighter.
  function Parse(lang: Language, level: nat, ts: seq<Token>): (r: Parsed)
    requires WellEnded(ts) && level <= PRIMARY_LEVEL
    ensures r.Ok? ==> WellEnded(r.value.rest) && |r.value.rest| < |ts|
    decreases |ts|, 20 - level
  {
    if level == CONDITIONAL_LEVEL then ParseConditional(lang, ts)
    else if level == UNARY_LEVEL then ParseUnary(lang, ts)
    else if level == PRIMARY_LEVEL then ParsePrimary(lang, ts)
    else
      match Parse(lang, level + 1, ts)
      case Err(e) => Err(e)
      case Ok(first) => BinaryTail(lang, level, first.expr, first.rest)
  }

  function ParseConditional(lang: Language, ts: seq<Token>): (r: Parsed)
    requires WellEnded(ts)
    ensures r.Ok? ==> WellEnded(r.value.rest) && |r.value.rest| < |ts|
    decreases |ts|, 20, 0
  {
    match Parse(lang, 1, ts)
    case Err(e) => Err(e)
    case Ok(c) => ConditionalTail(lang, c.expr, c.rest)
  }

  function ConditionalTail(lang: Language, condition: Expr, ts: seq<Token>): (r: Parsed)
    requires WellEnded(ts)
    ensures r.Ok? ==> WellEnded(r.value.rest) && |r.value.rest| <= |ts|
    decreases |ts|, 0
  {
    if ts[0].value != QUESTION then Ok(Got(condition, ts)) else
    TailIsWellEnded(ts);
    match ParseConditional(lang, ts[1..])
    case Err(e) => Err(e)
    case Ok(whenTrue) =>
      if whenTrue.rest[0].value != COLON then Err(ParseError(Expected(COLON), whenTrue.rest[0].offset)) else
      TailIsWellEnded(whenTrue.rest);
      match ParseConditional(lang, whenTrue.rest[1..])
      case Err(e) => Err(e)
      case Ok(whenFalse) =>
        Ok(Got(Conditional(condition, whenTrue.expr, whenFalse.expr, condition.offset), whenFalse.rest))
  }

  // The loop of parseBinary, with what it has built so far.
  function BinaryTail(lang: Language, level: nat, left: Expr, ts: seq<Token>): (r: Parsed)
    requires WellEnded(ts) && 1 <= level < UNARY_LEVEL
    ensures r.Ok? ==> WellEnded(r.value.rest) && |r.value.rest| <= |ts|
    decreases |ts|, 0
  {
    if !Continues(level, ts[0]) then Ok(Got(left, ts)) else
    TailIsWellEnded(ts);
    match Parse(lang, level + 1, ts[1..])
    case Err(e) => Err(e)
    case Ok(right) => BinaryTail(lang, level, Binary(ts[0].value, left, right.expr, ts[0].offset), right.rest)
  }

  function ParseUnary(lang: Language, ts: seq<Token>): (r: Parsed)
    requires WellEnded(ts)
    ensures r.Ok? ==> WellEnded(r.value.rest) && |r.value.rest| < |ts|
    decreases |ts|, 12, 1
  {
    if ts[0].kind == Operator && IsUnaryOperator(ts[0].value) then
      TailIsWellEnded(ts);
      match ParseUnary(lang, ts[1..])
      case Err(e) => Err(e)
      case Ok(operand) => Ok(Got(Unary(ts[0].value, operand.expr, ts[0].offset), operand.rest))
    else
      ParsePrimary(lang, ts)
  }

  function Expect(value: Text, expr: Expr, ts: seq<Token>): (r: Parsed)
    requires WellEnded(ts) && value != []
    ensures r.Ok? ==> WellEnded(r.value.rest) && |r.value.rest| < |ts|
  {
    if ts[0].value != value then Err(ParseError(Expected(value), ts[0].offset)) else
    TailIsWellEnded(ts);
    Ok(Got(expr, ts[1..]))
  }

  function ParsePrimary(lang: Language, ts: seq<Token>): (r: Parsed)
    requires WellEnded(ts)
    ensures r.Ok? ==> WellEnded(r.value.rest) && |r.value.rest| < |ts|
    decreases |ts|, 11, 1
  {
    var token := ts[0];
    if token.kind == Eof then Err(ParseError(Unexpected(token.value), token.offset)) else
    TailIsWellEnded(ts);
    var rest := ts[1..];
    if token.kind == NumberLiteral then
      var n := lang.valueOf(token.value);
      (if lang.safe(n) then Ok(Got(Literal(NumberValue(n), token.offset), rest))
       else Err(ParseError(UnsafeNumber, token.offset)))
    else if token.kind == StringLiteral then
      Ok(Got(Literal(TextLiteral(token.value), token.offset), rest))
    else if token.kind == Identifier then
      ParseIdentifier(lang, token, rest)
    else if token.value == OPEN_PAREN then
      match ParseConditional(lang, rest)
      case Err(e) => Err(e)
      case Ok(inner) => Expect(CLOSE_PAREN, inner.expr, inner.rest)
    else if token.value == OPEN_BRACKET then
      ParseArray(lang, token.offset, rest)
    else if token.value == OPEN_BRACE then
      ParseObject(lang, token.offset, rest)
    else
      Err(ParseError(Unexpected(token.value), token.offset))
  }

  function ParseIdentifier(lang: Language, token: Token, rest: seq<Token>): (r: Parsed)
    requires WellEnded(rest)
    ensures r.Ok? ==> r.value.rest == rest
  {
    if rest[0].value == OPEN_PAREN then Err(ParseError(FunctionCall, rest[0].offset))
    else if token.value == lang.variableName then Ok(Got(Input(token.offset), rest))
    else if token.value == TRUE || token.value == FALSE then
      Ok(Got(Literal(BoolLiteral(token.value == TRUE), token.offset), rest))
    else if token.value == NULL then Ok(Got(Literal(NullLiteral, token.offset), rest))
    else Err(ParseError(UnknownIdentifier(token.value), token.offset))
  }

  function ParseArray(lang: Language, offset: nat, ts: seq<Token>): (r: Parsed)
    requires WellEnded(ts)
    ensures r.Ok? ==> WellEnded(r.value.rest) && |r.value.rest| < |ts|
    decreases |ts|, 22
  {
    if ts[0].value == CLOSE_BRACKET then Expect(CLOSE_BRACKET, Array([], offset), ts)
    else ParseElements(lang, offset, [], ts)
  }

  function ParseElements(lang: Language, offset: nat, elements: seq<Expr>, ts: seq<Token>): (r: Parsed)
    requires WellEnded(ts)
    ensures r.Ok? ==> WellEnded(r.value.rest) && |r.value.rest| < |ts|
    decreases |ts|, 21
  {
    match ParseConditional(lang, ts)
    case Err(e) => Err(e)
    case Ok(element) =>
      if element.rest[0].value == COMMA then
        TailIsWellEnded(element.rest);
        ParseElements(lang, offset, elements + [element.expr], element.rest[1..])
      else
        Expect(CLOSE_BRACKET, Array(elements + [element.expr], offset), element.rest)
  }

  function ParseObject(lang: Language, offset: nat, ts: seq<Token>): (r: Parsed)
    requires WellEnded(ts)
    ensures r.Ok? ==> WellEnded(r.value.rest) && |r.value.rest| < |ts|
    decreases |ts|, 22
  {
    if ts[0].value == CLOSE_BRACE then Expect(CLOSE_BRACE, Object([], offset), ts)
    else ParseEntries(lang, offset, [], ts)
  }

  predicate HasKey(entries: seq<Entry>, key: Text) {
    exists e <- entries :: e.key == key
  }

  datatype GotEntry = GotEntry(entry: Entry, rest: seq<Token>)

  function ParseEntry(lang: Language, entries: seq<Entry>, ts: seq<Token>): (r: Result<GotEntry, ParseError>)
    requires WellEnded(ts)
    ensures r.Ok? ==> WellEnded(r.value.rest) && |r.value.rest| < |ts|
    decreases |ts|, 20, 1
  {
    var key := ts[0];
    if key.kind != StringLiteral then Err(ParseError(KeyNotText, key.offset))
    else if HasKey(entries, key.value) then Err(ParseError(DuplicateKey(key.value), key.offset)) else
    TailIsWellEnded(ts);
    if ts[1].value != COLON then Err(ParseError(Expected(COLON), ts[1].offset)) else
    TailIsWellEnded(ts[1..]);
    match ParseConditional(lang, ts[1..][1..])
    case Err(e) => Err(e)
    case Ok(value) => Ok(GotEntry(Entry(key.value, value.expr, key.offset), value.rest))
  }

  function ParseEntries(lang: Language, offset: nat, entries: seq<Entry>, ts: seq<Token>): (r: Parsed)
    requires WellEnded(ts)
    ensures r.Ok? ==> WellEnded(r.value.rest) && |r.value.rest| < |ts|
    decreases |ts|, 21
  {
    match ParseEntry(lang, entries, ts)
    case Err(e) => Err(e)
    case Ok(got) =>
      if got.rest[0].value == COMMA then
        TailIsWellEnded(got.rest);
        ParseEntries(lang, offset, entries + [got.entry], got.rest[1..])
      else
        Expect(CLOSE_BRACE, Object(entries + [got.entry], offset), got.rest)
  }

  // A whole expression: nothing but the end of the input may follow.
  function ParseAll(lang: Language, ts: seq<Token>): (r: Result<Expr, ParseError>)
    requires WellEnded(ts)
  {
    match ParseConditional(lang, ts)
    case Err(e) => Err(e)
    case Ok(got) =>
      var trailing := got.rest[0];
      if trailing.kind == Eof then Ok(got.expr)
      else if trailing.value == DOT then Err(ParseError(MemberAccess, trailing.offset))
      else if trailing.value == OPEN_PAREN then Err(ParseError(FunctionCall, trailing.offset))
      else Err(ParseError(Unexpected(trailing.value), trailing.offset))
  }

  // The tokenizer and the parser, one after the other.
  datatype SyntaxError = Lexical(e: TokenError) | Syntactic(p: ParseError)

  function Read(lang: Language, source: Text): (r: Result<Expr, SyntaxError>) {
    match Scan(source, 0)
    case Err(e) => Err(Lexical(e))
    case Ok(ts) =>
      ScanIsWellEnded(source, 0);
      match ParseAll(lang, ts)
      case Err(e) => Err(Syntactic(e))
      case Ok(e) => Ok(e)
  }
}
