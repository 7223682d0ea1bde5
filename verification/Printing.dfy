// Expressions written out as tokens, with the parentheses that precedence makes necessary and no
// others, and the proof that the grammar reads them back: what a level of the grammar has read is
// passed on unchanged by all looser levels.

module Printing {
  import opened CodeUnits
  import opened Wrappers
  import opened Tokenizer
  import opened Grammar

  // A token without its place.
  datatype Lexeme = Lexeme(kind: Kind, value: Text)

  // A way to write numbers down, for a language.
  datatype Printer = Printer(lang: Language, numeral: Number -> Text)

  function Lexemes(ts: seq<Token>): (ls: seq<Lexeme>)
    ensures |ls| == |ts|
    ensures forall i | 0 <= i < |ts| :: ls[i] == Lexeme(ts[i].kind, ts[i].value)
  {
    seq(|ts|, i requires 0 <= i < |ts| => Lexeme(ts[i].kind, ts[i].value))
  }

  function Mark(value: Text): (l: Lexeme) {
    Lexeme(Punctuation, value)
  }

  // ---------------------------------------------------------------------------------------
  // Trees
  // ---------------------------------------------------------------------------------------

  function LevelOf(e: Expr): (level: nat)
    ensures level <= PRIMARY_LEVEL
  {
    match e
    case Conditional(_, _, _, _) => CONDITIONAL_LEVEL
    case Binary(op, _, _, _) => OperatorLevel(op)
    case Unary(_, _, _) => UNARY_LEVEL
    case _ => PRIMARY_LEVEL
  }

  function OperatorLevel(op: Text): (level: nat)
    ensures 1 <= level < UNARY_LEVEL
    ensures (exists l :: 1 <= l < UNARY_LEVEL && IsOperatorOf(l, op)) ==> IsOperatorOf(level, op)
    ensures forall l :: l != level ==> !IsOperatorOf(l, op)
  {
    if op == OR then 1
    else if op == AND then 2
    else if op == EQUAL || op == NOT_EQUAL then 3
    else if op == LESS || op == LESS_EQUAL || op == GREATER || op == GREATER_EQUAL then 4
    else if op == PLUS || op == MINUS then 5
    else 6
  }

  // The tree without its offsets.
  function Shape(e: Expr): (s: Expr) {
    match e
    case Literal(value, _) => Literal(value, 0)
    case Input(_) => Input(0)
    case Array(elements, _) => Array(ShapeAll(elements), 0)
    case Object(entries, _) => Object(ShapeEntries(entries), 0)
    case Unary(op, operand, _) => Unary(op, Shape(operand), 0)
    case Binary(op, left, right, _) => Binary(op, Shape(left), Shape(right), 0)
    case Conditional(c, t, f, _) => Conditional(Shape(c), Shape(t), Shape(f), 0)
  }

  function ShapeAll(es: seq<Expr>): (ss: seq<Expr>)
    ensures |ss| == |es|
  {
    if es == [] then [] else [Shape(es[0])] + ShapeAll(es[1..])
  }

  function ShapeEntries(entries: seq<Entry>): (ss: seq<Entry>)
    ensures |ss| == |entries|
  {
    if entries == [] then [] else [Entry(entries[0].key, Shape(entries[0].value), 0)] + ShapeEntries(entries[1..])
  }

  ghost predicate GoodLanguage(lang: Language) {
    && lang.variableName != TRUE && lang.variableName != FALSE && lang.variableName != NULL
    && IsName(lang.variableName)
  }

  // A numeral that the tokenizer takes whole.
  predicate IsNumeral(text: Text) {
    text != [] && IsDigit(text[0]) && NumberLength(text) == |text|
  }

  predicate IsName(text: Text) {
    text != [] && IsWordStart(text[0]) && WordLength(text) == |text|
  }

  // A numeral that stands for the number.
  ghost predicate IsNumeralFor(pr: Printer, n: Number) {
    var text := pr.numeral(n);
    && IsNumeral(text)
    && pr.lang.valueOf(text) == n && pr.lang.safe(n)
  }

  // What the grammar can express at all: known operators, numbers that have a numeral, keys
  // without repetition. (A negative number is a unary minus.)
  ghost predicate Printable(pr: Printer, e: Expr) {
    match e
    case Literal(NumberValue(n), _) => IsNumeralFor(pr, n)
    case Literal(_, _) => true
    case Input(_) => true
    case Array(elements, _) => forall x <- elements :: Printable(pr, x)
    case Object(entries, _) =>
      && (forall x <- entries :: Printable(pr, x.value))
      && (forall i, j | 0 <= i < j < |entries| :: entries[i].key != entries[j].key)
    case Unary(op, operand, _) => IsUnaryOperator(op) && Printable(pr, operand)
    case Binary(op, left, right, _) =>
      && IsOperatorOf(OperatorLevel(op), op) && Printable(pr, left) && Printable(pr, right)
    case Conditional(c, t, f, _) => Printable(pr, c) && Printable(pr, t) && Printable(pr, f)
  }

  // ---------------------------------------------------------------------------------------
  // The printer
  // ---------------------------------------------------------------------------------------

  function PrintLiteral(pr: Printer, v: Grammar.Literal): (l: Lexeme) {
    match v
    case TextLiteral(text) => Lexeme(StringLiteral, text)
    case NumberValue(n) => Lexeme(NumberLiteral, pr.numeral(n))
    case BoolLiteral(b) => Lexeme(Identifier, if b then TRUE else FALSE)
    case NullLiteral => Lexeme(Identifier, NULL)
  }

  // The expression where one of the given level or tighter may stand.
  function Print(pr: Printer, e: Expr, level: nat): (ls: seq<Lexeme>)
    ensures ls != []
    decreases e, 1
  {
    if LevelOf(e) < level then [Mark(OPEN_PAREN)] + PrintBare(pr, e) + [Mark(CLOSE_PAREN)] else PrintBare(pr, e)
  }

  function PrintBare(pr: Printer, e: Expr): (ls: seq<Lexeme>)
    ensures ls != []
    decreases e, 0
  {
    match e
    case Literal(value, _) => [PrintLiteral(pr, value)]
    case Input(_) => [Lexeme(Identifier, pr.lang.variableName)]
    case Array(elements, _) => [Mark(OPEN_BRACKET)] + PrintAll(pr, elements) + [Mark(CLOSE_BRACKET)]
    case Object(entries, _) => [Mark(OPEN_BRACE)] + PrintEntries(pr, entries) + [Mark(CLOSE_BRACE)]
    case Unary(op, operand, _) => [Lexeme(Operator, op)] + Print(pr, operand, UNARY_LEVEL)
    case Binary(op, left, right, _) =>
      Print(pr, left, OperatorLevel(op)) + [Lexeme(Operator, op)] + Print(pr, right, OperatorLevel(op) + 1)
    case Conditional(c, t, f, _) =>
      Print(pr, c, 1) + [Mark(QUESTION)] + Print(pr, t, 0) + [Mark(COLON)] + Print(pr, f, 0)
  }

  function PrintAll(pr: Printer, es: seq<Expr>): (ls: seq<Lexeme>)
    ensures ls != [] <==> es != []
    decreases es
  {
    if es == [] then []
    else if |es| == 1 then Print(pr, es[0], 0)
    else Print(pr, es[0], 0) + [Mark(COMMA)] + PrintAll(pr, es[1..])
  }

  function PrintEntry(pr: Printer, entry: Entry): (ls: seq<Lexeme>)
    ensures ls != [] && ls[0] == Lexeme(StringLiteral, entry.key)
    decreases entry
  {
    [Lexeme(StringLiteral, entry.key), Mark(COLON)] + Print(pr, entry.value, 0)
  }

  function PrintEntries(pr: Printer, entries: seq<Entry>): (ls: seq<Lexeme>)
    ensures ls != [] <==> entries != []
    decreases entries
  {
    if entries == [] then []
    else if |entries| == 1 then PrintEntry(pr, entries[0])
    else PrintEntry(pr, entries[0]) + [Mark(COMMA)] + PrintEntries(pr, entries[1..])
  }

  // The parser closes an array or an object on any token whose text is the closing bracket, a
  // text literal included. So no array may begin with such a literal and no object with such a key.
  ghost predicate PlainStarts(pr: Printer, e: Expr) {
    match e
    case Array(elements, _) =>
      && (elements != [] ==> Print(pr, elements[0], 0)[0].value != CLOSE_BRACKET)
      && (forall x <- elements :: PlainStarts(pr, x))
    case Object(entries, _) =>
      && (entries != [] ==> entries[0].key != CLOSE_BRACE)
      && (forall x <- entries :: PlainStarts(pr, x.value))
    case Unary(_, operand, _) => PlainStarts(pr, operand)
    case Binary(_, left, right, _) => PlainStarts(pr, left) && PlainStarts(pr, right)
    case Conditional(c, t, f, _) => PlainStarts(pr, c) && PlainStarts(pr, t) && PlainStarts(pr, f)
    case _ => true
  }

  // ---------------------------------------------------------------------------------------
  // Reading back
  // ---------------------------------------------------------------------------------------

  // The tokens of a printed piece, followed by others.
  ghost predicate Followed(head: seq<Token>, ls: seq<Lexeme>, rest: seq<Token>) {
    && Lexemes(head) == ls
    && (forall t <- head :: t.kind != Eof)
    && WellEnded(rest)
  }

  lemma {:induction false} JoinedIsWellEnded(head: seq<Token>, rest: seq<Token>)
    requires (forall t <- head :: t.kind != Eof) && WellEnded(rest)
    ensures WellEnded(head + rest)
  {
    var all := head + rest;
    assert all[|all| - 1] == rest[|rest| - 1];
  }

  // The token ends an expression of every binary level from `level` on.
  ghost predicate Stops(t: Token, level: nat) {
    && t.value != OPEN_PAREN
    && forall l | level <= l < UNARY_LEVEL :: !Continues(l, t)
  }

  ghost predicate Ends(t: Token, level: nat) {
    Stops(t, level + 1) && (level == CONDITIONAL_LEVEL ==> t.value != QUESTION)
  }

  // What parsing at a level makes of an expression that has just been read.
  function Continued(lang: Language, level: nat, e: Expr, rest: seq<Token>): (r: Parsed)
    requires WellEnded(rest) && level <= PRIMARY_LEVEL
  {
    if 1 <= level < UNARY_LEVEL then BinaryTail(lang, level, e, rest) else Ok(Got(e, rest))
  }

  lemma {:induction false} ClimbOne(lang: Language, tight: nat, ts: seq<Token>, e: Expr, rest: seq<Token>)
    requires WellEnded(ts) && WellEnded(rest) && 1 <= tight <= PRIMARY_LEVEL
    requires Parse(lang, tight, ts) == Ok(Got(e, rest))
    requires tight == PRIMARY_LEVEL ==> !(ts[0].kind == Operator && IsUnaryOperator(ts[0].value))
    requires tight == 1 ==> rest[0].value != QUESTION
    ensures Parse(lang, tight - 1, ts) == Continued(lang, tight - 1, e, rest)
  {
    if tight == 1 {
      assert Parse(lang, 0, ts) == ParseConditional(lang, ts) == ConditionalTail(lang, e, rest);
    } else if tight == PRIMARY_LEVEL {
      assert Parse(lang, UNARY_LEVEL, ts) == ParseUnary(lang, ts) == ParsePrimary(lang, ts) == Parse(lang, tight, ts);
    } else {
      assert Parse(lang, tight - 1, ts) == BinaryTail(lang, tight - 1, e, rest);
    }
  }

  // Looser levels pass on what a tighter one has read.
  lemma {:induction false} Climb(lang: Language, tight: nat, level: nat, ts: seq<Token>, e: Expr, rest: seq<Token>)
    requires WellEnded(ts) && WellEnded(rest) && level < tight <= PRIMARY_LEVEL
    requires Parse(lang, tight, ts) == Ok(Got(e, rest))
    requires tight == PRIMARY_LEVEL ==> !(ts[0].kind == Operator && IsUnaryOperator(ts[0].value))
    requires Ends(rest[0], level)
    ensures Parse(lang, level, ts) == Continued(lang, level, e, rest)
    decreases tight - level
  {
    ClimbOne(lang, tight, ts, e, rest);
    if level < tight - 1 {
      Climb(lang, tight - 1, level, ts, e, rest);
    }
  }

  lemma {:induction false} ReadBack(pr: Printer, e: Expr, level: nat, head: seq<Token>, rest: seq<Token>)
    returns (e': Expr)
    requires GoodLanguage(pr.lang) && Printable(pr, e) && PlainStarts(pr, e)
    requires level <= PRIMARY_LEVEL && Followed(head, Print(pr, e, level), rest) && Ends(rest[0], level)
    ensures Shape(e') == Shape(e)
    ensures WellEnded(head + rest)
    ensures Parse(pr.lang, level, head + rest) == Continued(pr.lang, level, e', rest)
    decreases e, 4
  {
    JoinedIsWellEnded(head, rest);
    if LevelOf(e) < level {
      e' := ReadParenthesized(pr, e, head, rest);
      if level < PRIMARY_LEVEL {
        Climb(pr.lang, PRIMARY_LEVEL, level, head + rest, e', rest);
      }
    } else {
      e' := ReadBare(pr, e, head, rest);
      if level < LevelOf(e) {
        Climb(pr.lang, LevelOf(e), level, head + rest, e', rest);
      }
    }
  }

  // Splitting the tokens of a printed list of lexemes.
  lemma {:induction false} Split(head: seq<Token>, a: seq<Lexeme>, b: seq<Lexeme>, rest: seq<Token>)
    requires Followed(head, a + b, rest)
    ensures |a| <= |head|
    ensures Followed(head[..|a|], a, head[|a|..] + rest)
    ensures Followed(head[|a|..], b, rest)
    ensures head + rest == head[..|a|] + (head[|a|..] + rest)
  {
    LexemesApart(head, a, b);
    JoinedIsWellEnded(head[|a|..], rest);
  }

  lemma {:induction false} LexemesApart(head: seq<Token>, a: seq<Lexeme>, b: seq<Lexeme>)
    requires Lexemes(head) == a + b
    ensures Lexemes(head[..|a|]) == a && Lexemes(head[|a|..]) == b
    ensures (forall t <- head :: t.kind != Eof) ==>
              (forall t <- head[..|a|] :: t.kind != Eof) && forall t <- head[|a|..] :: t.kind != Eof
  {
    assert Lexemes(head[..|a|]) == Lexemes(head)[..|a|];
    assert Lexemes(head[|a|..]) == Lexemes(head)[|a|..];
  }

  lemma {:induction false} SplitOne(head: seq<Token>, l: Lexeme, b: seq<Lexeme>, rest: seq<Token>)
    requires Followed(head, [l] + b, rest)
    ensures head != [] && Lexeme(head[0].kind, head[0].value) == l && head[0].kind != Eof
    ensures Followed(head[1..], b, rest)
    ensures (head + rest)[1..] == head[1..] + rest
    ensures WellEnded(head + rest) && WellEnded(head[1..] + rest)
  {
    Split(head, [l], b, rest);
    JoinedIsWellEnded(head, rest);
    assert Lexemes(head)[0] == l;
  }

  // A single closing token before the rest.
  lemma {:induction false} CloseWith(head: seq<Token>, l: Lexeme, rest: seq<Token>, lang: Language, e: Expr)
    requires Followed(head, [l], rest) && l.value != []
    ensures head == [head[0]] && Lexeme(head[0].kind, head[0].value) == l
    ensures WellEnded(head + rest)
    ensures Expect(l.value, e, head + rest) == Ok(Got(e, rest))
  {
    assert [l] == [l] + [];
    SplitOne(head, l, [], rest);
    assert head[1..] == [];
    assert (head + rest)[1..] == rest;
  }

  lemma {:induction false} ReadParenthesized(pr: Printer, e: Expr, head: seq<Token>, rest: seq<Token>)
    returns (e': Expr)
    requires GoodLanguage(pr.lang) && Printable(pr, e) && PlainStarts(pr, e)
    requires Followed(head, [Mark(OPEN_PAREN)] + PrintBare(pr, e) + [Mark(CLOSE_PAREN)], rest)
    ensures Shape(e') == Shape(e)
    ensures WellEnded(head + rest)
    ensures Parse(pr.lang, PRIMARY_LEVEL, head + rest) == Ok(Got(e', rest))
    ensures head != [] && head[0].kind != Operator
    decreases e, 3
  {
    var bare := PrintBare(pr, e);
    assert [Mark(OPEN_PAREN)] + bare + [Mark(CLOSE_PAREN)] == [Mark(OPEN_PAREN)] + (bare + [Mark(CLOSE_PAREN)]);
    SplitOne(head, Mark(OPEN_PAREN), bare + [Mark(CLOSE_PAREN)], rest);
    var inner := head[1..];
    Split(inner, bare, [Mark(CLOSE_PAREN)], rest);
    var body, close := inner[..|bare|], inner[|bare|..];
    CloseWith(close, Mark(CLOSE_PAREN), rest, pr.lang, e);
    assert (close + rest)[0] == close[0];
    e' := ReadBare(pr, e, body, close + rest);
    if LevelOf(e) > 0 {
      Climb(pr.lang, LevelOf(e), 0, body + (close + rest), e', close + rest);
    }
    ParenthesesAreRead(pr.lang, head, rest, e', close);
  }

  lemma {:induction false} ParenthesesAreRead(lang: Language, head: seq<Token>, rest: seq<Token>, e: Expr,
                                              close: seq<Token>)
    requires WellEnded(head + rest) && head != [] && Lexeme(head[0].kind, head[0].value) == Mark(OPEN_PAREN)
    requires WellEnded(head[1..] + rest)
    requires Followed(close, [Mark(CLOSE_PAREN)], rest) && WellEnded(close + rest)
    requires Parse(lang, 0, head[1..] + rest) == Ok(Got(e, close + rest))
    ensures Parse(lang, PRIMARY_LEVEL, head + rest) == Ok(Got(e, rest))
  {
    CloseWith(close, Mark(CLOSE_PAREN), rest, lang, e);
    assert (head + rest)[1..] == head[1..] + rest;
    assert ParseConditional(lang, head[1..] + rest) == Ok(Got(e, close + rest));
  }

  lemma {:induction false} ReadBare(pr: Printer, e: Expr, head: seq<Token>, rest: seq<Token>) returns (e': Expr)
    requires GoodLanguage(pr.lang) && Printable(pr, e) && PlainStarts(pr, e)
    requires Followed(head, PrintBare(pr, e), rest) && Ends(rest[0], LevelOf(e))
    ensures Shape(e') == Shape(e)
    ensures WellEnded(head + rest)
    ensures Parse(pr.lang, LevelOf(e), head + rest) == Continued(pr.lang, LevelOf(e), e', rest)
    ensures head != [] && (LevelOf(e) == PRIMARY_LEVEL ==> head[0].kind != Operator)
    decreases e, 2
  {
    JoinedIsWellEnded(head, rest);
    match e
    case Literal(value, _) => e' := ReadLeaf(pr, e, head, rest);
    case Input(_) => e' := ReadLeaf(pr, e, head, rest);
    case Array(_, _) => e' := ReadArray(pr, e, head, rest);
    case Object(_, _) => e' := ReadObject(pr, e, head, rest);
    case Unary(_, _, _) => e' := ReadUnary(pr, e, head, rest);
    case Binary(_, _, _, _) => e' := ReadBinary(pr, e, head, rest);
    case Conditional(_, _, _, _) => e' := ReadConditional(pr, e, head, rest);
  }

  lemma {:induction false} ReadLeaf(pr: Printer, e: Expr, head: seq<Token>, rest: seq<Token>) returns (e': Expr)
    requires GoodLanguage(pr.lang) && Printable(pr, e) && (e.Literal? || e.Input?)
    requires Followed(head, PrintBare(pr, e), rest) && rest[0].value != OPEN_PAREN
    ensures Shape(e') == Shape(e)
    ensures WellEnded(head + rest)
    ensures ParsePrimary(pr.lang, head + rest) == Ok(Got(e', rest))
    ensures head != [] && head[0].kind != Operator
  {
    JoinedIsWellEnded(head, rest);
    assert |PrintBare(pr, e)| == 1;
    assert Lexemes(head)[0] == PrintBare(pr, e)[0];
    assert head == [head[0]];
    assert Lexemes(head) == [Lexeme(head[0].kind, head[0].value)];
    LeafIsRead(pr, e, head[0], rest);
    e' := if e.Literal? then Literal(e.value, head[0].offset) else Input(head[0].offset);
    assert PrintBare(pr, e)[0].kind != Operator;
  }

  lemma {:induction false} LeafIsRead(pr: Printer, e: Expr, t: Token, rest: seq<Token>)
    requires GoodLanguage(pr.lang) && Printable(pr, e) && (e.Literal? || e.Input?)
    requires [Lexeme(t.kind, t.value)] == PrintBare(pr, e)
    requires WellEnded(rest) && rest[0].value != OPEN_PAREN
    requires WellEnded([t] + rest)
    ensures ParsePrimary(pr.lang, [t] + rest) ==
              Ok(Got(if e.Literal? then Literal(e.value, t.offset) else Input(t.offset), rest))
  {
    assert ([t] + rest)[1..] == rest;
    assert Lexeme(t.kind, t.value) == PrintBare(pr, e)[0];
    NamesDiffer();
  }

  lemma {:induction false} NamesDiffer()
    ensures TRUE != FALSE && TRUE != NULL && FALSE != NULL
  {
    assert |TRUE| == 4 && |FALSE| == 5;
    assert TRUE[0] != NULL[0];
  }

  lemma {:induction false} ReadUnary(pr: Printer, e: Expr, head: seq<Token>, rest: seq<Token>) returns (e': Expr)
    requires GoodLanguage(pr.lang) && Printable(pr, e) && PlainStarts(pr, e) && e.Unary?
    requires Followed(head, PrintBare(pr, e), rest) && Ends(rest[0], UNARY_LEVEL)
    ensures Shape(e') == Shape(e)
    ensures WellEnded(head + rest)
    ensures Parse(pr.lang, UNARY_LEVEL, head + rest) == Ok(Got(e', rest))
    ensures head != []
    decreases e, 1
  {
    var op := Lexeme(Operator, e.operator);
    SplitOne(head, op, Print(pr, e.operand, UNARY_LEVEL), rest);
    var operand := ReadBack(pr, e.operand, UNARY_LEVEL, head[1..], rest);
    e' := Unary(e.operator, operand, head[0].offset);
    assert ParseUnary(pr.lang, head[1..] + rest) == Ok(Got(operand, rest));
  }

  lemma {:induction false} ReadBinary(pr: Printer, e: Expr, head: seq<Token>, rest: seq<Token>) returns (e': Expr)
    requires GoodLanguage(pr.lang) && Printable(pr, e) && PlainStarts(pr, e) && e.Binary?
    requires Followed(head, PrintBare(pr, e), rest) && Ends(rest[0], LevelOf(e))
    ensures Shape(e') == Shape(e)
    ensures WellEnded(head + rest)
    ensures Parse(pr.lang, LevelOf(e), head + rest) == Continued(pr.lang, LevelOf(e), e', rest)
    ensures head != []
    decreases e, 1
  {
    hide Print;
    var level := LevelOf(e);
    var op := Lexeme(Operator, e.operator);
    var leftPrint, rightPrint := Print(pr, e.left, level), Print(pr, e.right, level + 1);
    assert leftPrint + [op] + rightPrint == leftPrint + ([op] + rightPrint);
    Split(head, leftPrint, [op] + rightPrint, rest);
    var leftHead, tail := head[..|leftPrint|], head[|leftPrint|..];
    SplitOne(tail, op, rightPrint, rest);
    assert (tail + rest)[0] == tail[0];
    assert Ends(tail[0], level);
    var left := ReadBack(pr, e.left, level, leftHead, tail + rest);
    var right := ReadBack(pr, e.right, level + 1, tail[1..], rest);
    e' := Binary(e.operator, left, right, tail[0].offset);
    assert Parse(pr.lang, level + 1, tail[1..] + rest) == Ok(Got(right, rest));
    assert BinaryTail(pr.lang, level, left, tail + rest) == BinaryTail(pr.lang, level, e', rest);
  }

  lemma {:induction false} ReadConditional(pr: Printer, e: Expr, head: seq<Token>, rest: seq<Token>) returns (e': Expr)
    requires GoodLanguage(pr.lang) && Printable(pr, e) && PlainStarts(pr, e) && e.Conditional?
    requires Followed(head, PrintBare(pr, e), rest) && Ends(rest[0], CONDITIONAL_LEVEL)
    ensures Shape(e') == Shape(e)
    ensures WellEnded(head + rest)
    ensures Parse(pr.lang, CONDITIONAL_LEVEL, head + rest) == Ok(Got(e', rest))
    ensures head != []
    decreases e, 1
  {
    var c, t, f := Print(pr, e.condition, 1), Print(pr, e.whenTrue, 0), Print(pr, e.whenFalse, 0);
    var afterT := [Mark(COLON)] + f;
    var afterC := [Mark(QUESTION)] + (t + afterT);
    assert c + [Mark(QUESTION)] + t + [Mark(COLON)] + f == c + afterC;
    Split(head, c, afterC, rest);
    var cHead, tail := head[..|c|], head[|c|..];
    SplitOne(tail, Mark(QUESTION), t + afterT, rest);
    assert (tail + rest)[0] == tail[0];
    var condition := ReadBack(pr, e.condition, 1, cHead, tail + rest);
    Split(tail[1..], t, afterT, rest);
    var tHead, colon := tail[1..][..|t|], tail[1..][|t|..];
    SplitOne(colon, Mark(COLON), f, rest);
    assert (colon + rest)[0] == colon[0];
    var whenTrue := ReadBack(pr, e.whenTrue, 0, tHead, colon + rest);
    var whenFalse := ReadBack(pr, e.whenFalse, 0, colon[1..], rest);
    e' := Conditional(condition, whenTrue, whenFalse, condition.offset);
    assert ParseConditional(pr.lang, tail[1..] + rest) == Ok(Got(whenTrue, colon + rest));
    assert ParseConditional(pr.lang, colon[1..] + rest) == Ok(Got(whenFalse, rest));
    assert ConditionalTail(pr.lang, condition, tail + rest) == Ok(Got(e', rest));
  }

  lemma {:induction false} BracketIsRead(lang: Language, ts: seq<Token>, got: Got)
    requires WellEnded(ts) && Lexeme(ts[0].kind, ts[0].value) == Mark(OPEN_BRACKET) && WellEnded(ts[1..])
    requires ParseArray(lang, ts[0].offset, ts[1..]) == Ok(got)
    ensures Parse(lang, PRIMARY_LEVEL, ts) == Ok(got)
  {
  }

  lemma {:induction false} BraceIsRead(lang: Language, ts: seq<Token>, got: Got)
    requires WellEnded(ts) && Lexeme(ts[0].kind, ts[0].value) == Mark(OPEN_BRACE) && WellEnded(ts[1..])
    requires ParseObject(lang, ts[0].offset, ts[1..]) == Ok(got)
    ensures Parse(lang, PRIMARY_LEVEL, ts) == Ok(got)
  {
  }

  lemma {:induction false} ReadArray(pr: Printer, e: Expr, head: seq<Token>, rest: seq<Token>) returns (e': Expr)
    requires GoodLanguage(pr.lang) && Printable(pr, e) && PlainStarts(pr, e) && e.Array?
    requires Followed(head, PrintBare(pr, e), rest)
    ensures Shape(e') == Shape(e)
    ensures WellEnded(head + rest)
    ensures Parse(pr.lang, PRIMARY_LEVEL, head + rest) == Ok(Got(e', rest))
    ensures head != [] && head[0].kind != Operator
    decreases e, 1
  {
    var all, close := PrintAll(pr, e.elements), [Mark(CLOSE_BRACKET)];
    assert [Mark(OPEN_BRACKET)] + all + close == [Mark(OPEN_BRACKET)] + (all + close);
    SplitOne(head, Mark(OPEN_BRACKET), all + close, rest);
    var body, offset := head[1..], head[0].offset;
    if e.elements == [] {
      assert all + close == close;
      CloseWith(body, Mark(CLOSE_BRACKET), rest, pr.lang, Array([], offset));
      e' := Array([], offset);
    } else {
      var elements := ReadElements(pr, e.elements, offset, [], body, rest);
      assert [] + elements == elements;
      e' := Array(elements, offset);
      assert Lexemes(body)[0] == all[0] == Print(pr, e.elements[0], 0)[0];
      assert (body + rest)[0] == body[0];
    }
    BracketIsRead(pr.lang, head + rest, Got(e', rest));
  }

  lemma {:induction false} Regrouped<T>(before: seq<T>, x: T, more: seq<T>)
    ensures before + [x] + more == before + ([x] + more)
  {
  }

  // The lexemes of a list, its first item apart.
  lemma {:induction false} ElementsApart(pr: Printer, es: seq<Expr>) returns (others: seq<Lexeme>)
    requires es != []
    ensures PrintAll(pr, es) + [Mark(CLOSE_BRACKET)] == Print(pr, es[0], 0) + others
    ensures others == if |es| == 1 then [Mark(CLOSE_BRACKET)]
                      else [Mark(COMMA)] + (PrintAll(pr, es[1..]) + [Mark(CLOSE_BRACKET)])
  {
    var close := [Mark(CLOSE_BRACKET)];
    others := if |es| == 1 then close else [Mark(COMMA)] + (PrintAll(pr, es[1..]) + close);
  }

  lemma {:induction false} EntriesApart(pr: Printer, entries: seq<Entry>) returns (others: seq<Lexeme>)
    requires entries != []
    ensures PrintEntries(pr, entries) + [Mark(CLOSE_BRACE)] == PrintEntry(pr, entries[0]) + others
    ensures others == if |entries| == 1 then [Mark(CLOSE_BRACE)]
                      else [Mark(COMMA)] + (PrintEntries(pr, entries[1..]) + [Mark(CLOSE_BRACE)])
  {
    var close := [Mark(CLOSE_BRACE)];
    others := if |entries| == 1 then close else [Mark(COMMA)] + (PrintEntries(pr, entries[1..]) + close);
  }

  lemma {:induction false} ElementsGoOn(lang: Language, offset: nat, before: seq<Expr>, ts: seq<Token>, element: Expr,
                                        rest: seq<Token>)
    requires WellEnded(ts) && WellEnded(rest) && WellEnded(rest[1..])
    requires Parse(lang, CONDITIONAL_LEVEL, ts) == Ok(Got(element, rest))
    ensures ParseElements(lang, offset, before, ts) ==
              if rest[0].value == COMMA then ParseElements(lang, offset, before + [element], rest[1..])
              else Expect(CLOSE_BRACKET, Array(before + [element], offset), rest)
  {
    hide ParseConditional;
  }

  lemma {:induction false} ReadElements(pr: Printer, es: seq<Expr>, offset: nat, before: seq<Expr>, head: seq<Token>,
                                        rest: seq<Token>)
      returns (es': seq<Expr>)
    requires GoodLanguage(pr.lang) && es != []
    requires forall x <- es :: Printable(pr, x) && PlainStarts(pr, x)
    requires Followed(head, PrintAll(pr, es) + [Mark(CLOSE_BRACKET)], rest)
    ensures ShapeAll(es') == ShapeAll(es)
    ensures WellEnded(head + rest)
    ensures ParseElements(pr.lang, offset, before, head + rest) == Ok(Got(Array(before + es', offset), rest))
    decreases es, 5
  {
    hide PlainStarts, Printable, Print, PrintAll, Shape, ParseElements, ParseConditional, Followed, Lexemes, WellEnded;
    var first, close := Print(pr, es[0], 0), [Mark(CLOSE_BRACKET)];
    var others := ElementsApart(pr, es);
    Split(head, first, others, rest);
    var firstHead, tail := head[..|first|], head[|first|..];
    NextLexeme(tail, others, rest);
    var element := ReadBack(pr, es[0], 0, firstHead, tail + rest);
    ElementsGoOn(pr.lang, offset, before, head + rest, element, tail + rest);
    if |es| == 1 {
      CloseWith(tail, Mark(CLOSE_BRACKET), rest, pr.lang, Array(before + [element], offset));
      es' := [element];
      assert es == [es[0]];
    } else {
      SplitOne(tail, Mark(COMMA), PrintAll(pr, es[1..]) + close, rest);
      var more := ReadElements(pr, es[1..], offset, before + [element], tail[1..], rest);
      es' := [element] + more;
      Regrouped(before, element, more);
    }
  }

  lemma {:induction false} NextLexeme(head: seq<Token>, ls: seq<Lexeme>, rest: seq<Token>)
    requires ls != [] && Followed(head, ls, rest)
    ensures head != [] && (head + rest)[0] == head[0] && Lexeme(head[0].kind, head[0].value) == ls[0]
    ensures WellEnded(head + rest) && WellEnded((head + rest)[1..])
  {
    assert ls == [ls[0]] + ls[1..];
    SplitOne(head, ls[0], ls[1..], rest);
  }

  lemma {:induction false} ReadObject(pr: Printer, e: Expr, head: seq<Token>, rest: seq<Token>) returns (e': Expr)
    requires GoodLanguage(pr.lang) && Printable(pr, e) && PlainStarts(pr, e) && e.Object?
    requires Followed(head, PrintBare(pr, e), rest)
    ensures Shape(e') == Shape(e)
    ensures WellEnded(head + rest)
    ensures Parse(pr.lang, PRIMARY_LEVEL, head + rest) == Ok(Got(e', rest))
    ensures head != [] && head[0].kind != Operator
    decreases e, 1
  {
    var all, close := PrintEntries(pr, e.entries), [Mark(CLOSE_BRACE)];
    assert [Mark(OPEN_BRACE)] + all + close == [Mark(OPEN_BRACE)] + (all + close);
    SplitOne(head, Mark(OPEN_BRACE), all + close, rest);
    var body, offset := head[1..], head[0].offset;
    if e.entries == [] {
      assert all + close == close;
      CloseWith(body, Mark(CLOSE_BRACE), rest, pr.lang, Object([], offset));
      e' := Object([], offset);
    } else {
      var entries := ReadEntries(pr, e.entries, offset, [], body, rest);
      assert [] + entries == entries;
      e' := Object(entries, offset);
      assert Lexemes(body)[0] == all[0] == PrintEntry(pr, e.entries[0])[0];
      assert (body + rest)[0] == body[0];
    }
    BraceIsRead(pr.lang, head + rest, Got(e', rest));
  }

  ghost predicate FreshKeys(before: seq<Entry>, entries: seq<Entry>) {
    && (forall x <- entries :: !HasKey(before, x.key))
    && (forall i, j | 0 <= i < j < |entries| :: entries[i].key != entries[j].key)
  }

  lemma {:induction false} ReadEntries(pr: Printer, entries: seq<Entry>, offset: nat, before: seq<Entry>,
                                       head: seq<Token>, rest: seq<Token>)
      returns (entries': seq<Entry>)
    requires GoodLanguage(pr.lang) && entries != [] && FreshKeys(before, entries)
    requires forall x <- entries :: Printable(pr, x.value) && PlainStarts(pr, x.value)
    requires Followed(head, PrintEntries(pr, entries) + [Mark(CLOSE_BRACE)], rest)
    ensures ShapeEntries(entries') == ShapeEntries(entries)
    ensures WellEnded(head + rest)
    ensures ParseEntries(pr.lang, offset, before, head + rest) == Ok(Got(Object(before + entries', offset), rest))
    decreases entries, 5
  {
    var close := [Mark(CLOSE_BRACE)];
    var others := EntriesApart(pr, entries);
    assert entries[0] in entries;
    var entry, tail := ReadFirstEntry(pr, entries[0], others, before, head, rest);
    if |entries| == 1 {
      CloseWith(tail, Mark(CLOSE_BRACE), rest, pr.lang, Object(before + [entry], offset));
      entries' := [entry];
      assert entries == [entries[0]];
    } else {
      SplitOne(tail, Mark(COMMA), PrintEntries(pr, entries[1..]) + close, rest);
      KeysStayFresh(before, entries, entry);
      var more := ReadEntries(pr, entries[1..], offset, before + [entry], tail[1..], rest);
      entries' := [entry] + more;
      Regrouped(before, entry, more);
    }
  }

  lemma {:induction false} ReadFirstEntry(pr: Printer, first: Entry, others: seq<Lexeme>, before: seq<Entry>,
                                          head: seq<Token>, rest: seq<Token>)
      returns (entry: Entry, tail: seq<Token>)
    requires GoodLanguage(pr.lang) && Printable(pr, first.value) && PlainStarts(pr, first.value)
    requires !HasKey(before, first.key)
    requires others != [] && (others[0] == Mark(COMMA) || others[0] == Mark(CLOSE_BRACE))
    requires Followed(head, PrintEntry(pr, first) + others, rest)
    ensures entry.key == first.key && Shape(entry.value) == Shape(first.value)
    ensures WellEnded(head + rest) && WellEnded(tail + rest) && Followed(tail, others, rest)
    ensures tail != [] && (tail + rest)[0] == tail[0] && Lexeme(tail[0].kind, tail[0].value) == others[0]
    ensures ParseEntry(pr.lang, before, head + rest) == Ok(GotEntry(entry, tail + rest))
    decreases first, 6
  {
    JoinedIsWellEnded(head, rest);
    var ls := PrintEntry(pr, first);
    Split(head, ls, others, rest);
    tail := head[|ls|..];
    assert Lexemes(tail)[0] == others[0];
    entry := ReadEntry(pr, first, before, head[..|ls|], tail + rest);
  }

  lemma {:induction false} KeysStayFresh(before: seq<Entry>, entries: seq<Entry>, entry: Entry)
    requires entries != [] && FreshKeys(before, entries) && entry.key == entries[0].key
    ensures FreshKeys(before + [entry], entries[1..])
  {
    forall x <- entries[1..] ensures !HasKey(before + [entry], x.key) {
      assert x in entries && !HasKey(before, x.key);
      var i :| 0 <= i < |entries[1..]| && entries[1..][i] == x;
      assert entries[0].key != entries[i + 1].key;
      forall e <- before + [entry] ensures e.key != x.key {
        assert e in before || e == entry;
      }
    }
  }

  lemma {:induction false} ReadEntry(pr: Printer, entry: Entry, before: seq<Entry>, head: seq<Token>, rest: seq<Token>)
    returns (entry': Entry)
    requires GoodLanguage(pr.lang) && Printable(pr, entry.value) && PlainStarts(pr, entry.value)
    requires !HasKey(before, entry.key)
    requires Followed(head, PrintEntry(pr, entry), rest) && Ends(rest[0], CONDITIONAL_LEVEL)
    ensures entry'.key == entry.key && Shape(entry'.value) == Shape(entry.value)
    ensures WellEnded(head + rest)
    ensures ParseEntry(pr.lang, before, head + rest) == Ok(GotEntry(entry', rest))
    decreases entry, 5
  {
    var value := Print(pr, entry.value, 0);
    assert PrintEntry(pr, entry) == [Lexeme(StringLiteral, entry.key)] + ([Mark(COLON)] + value);
    SplitOne(head, Lexeme(StringLiteral, entry.key), [Mark(COLON)] + value, rest);
    SplitOne(head[1..], Mark(COLON), value, rest);
    var e := ReadBack(pr, entry.value, 0, head[1..][1..], rest);
    entry' := Entry(entry.key, e, head[0].offset);
    assert (head + rest)[1] == head[1];
    assert (head + rest)[1..][1..] == head[1..][1..] + rest;
  }
}
