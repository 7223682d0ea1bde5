// Exactly when reading gives what was written.

module RoundTripLimits {
  // The parser closes an array or an object on any token with the text of the closing bracket, a
  // text literal included. So a tree whose array starts with the text "]", or whose object starts
  // with the key "}", is written down but never read back: some text is lost on the way.

  import opened CodeUnits
  import opened Wrappers
  import opened Tokenizer
  import opened Grammar
  import opened Printing
  import opened RoundTrip
  import opened TextAccounting

  // ---------------------------------------------------------------------------------------
  // A loss is never made good
  // ---------------------------------------------------------------------------------------

  lemma {:induction false} RestCounts(ts: seq<Token>)
    requires ts != []
    ensures TextTokens(ts[1..]) == TextTokens(ts) - (if ts[0].kind == StringLiteral then 1 else 0)
  {
  }

  lemma {:induction false} LossClimbs(lang: Language, tight: nat, level: nat, ts: seq<Token>, count: int)
    requires WellEnded(ts) && level <= tight <= PRIMARY_LEVEL
    requires tight == PRIMARY_LEVEL ==> !(ts[0].kind == Operator && IsUnaryOperator(ts[0].value))
    requires Within(count, Parse(lang, tight, ts))
    ensures Within(count, Parse(lang, level, ts))
    decreases tight - level
  {
    if level < tight {
      LossClimbsOne(lang, tight, ts, count);
      LossClimbs(lang, tight - 1, level, ts, count);
    }
  }

  lemma {:induction false} LossClimbsOne(lang: Language, tight: nat, ts: seq<Token>, count: int)
    requires WellEnded(ts) && 1 <= tight <= PRIMARY_LEVEL
    requires tight == PRIMARY_LEVEL ==> !(ts[0].kind == Operator && IsUnaryOperator(ts[0].value))
    requires Within(count, Parse(lang, tight, ts))
    ensures Within(count, Parse(lang, tight - 1, ts))
  {
    var inner := Parse(lang, tight, ts);
    if tight == 1 {
      assert Parse(lang, 0, ts) == ParseConditional(lang, ts);
      if inner.Ok? {
        ConditionalTailAccounts(lang, inner.value.expr, inner.value.rest);
      }
    } else if tight == PRIMARY_LEVEL {
      assert Parse(lang, UNARY_LEVEL, ts) == ParseUnary(lang, ts) == ParsePrimary(lang, ts) == inner;
    } else if inner.Ok? {
      BinaryTailAccounts(lang, tight - 1, inner.value.expr, inner.value.rest);
    }
  }

  // ---------------------------------------------------------------------------------------
  // What a written expression starts with
  // ---------------------------------------------------------------------------------------

  lemma {:induction false} FirstMark(pr: Printer, e: Expr, level: nat)
    requires Printable(pr, e)
    ensures var l := Print(pr, e, level)[0];
            l.kind == Punctuation ==> l.value in {OPEN_PAREN, OPEN_BRACKET, OPEN_BRACE}
    ensures var l := Print(pr, e, level)[0];
            l.kind == Operator ==> IsUnaryOperator(l.value)
    decreases e, 1
  {
    if LevelOf(e) >= level {
      FirstBareMark(pr, e);
    }
  }

  lemma {:induction false} FirstBareMark(pr: Printer, e: Expr)
    requires Printable(pr, e)
    ensures var l := PrintBare(pr, e)[0];
            l.kind == Punctuation ==> l.value in {OPEN_PAREN, OPEN_BRACKET, OPEN_BRACE}
    ensures var l := PrintBare(pr, e)[0];
            l.kind == Operator ==> IsUnaryOperator(l.value)
    decreases e, 0
  {
    match e
    case Binary(op, left, _, _) => FirstMark(pr, left, OperatorLevel(op));
    case Conditional(c, _, _, _) => FirstMark(pr, c, 1);
    case _ =>
  }

  // Only a text literal has the text of a closing bracket there.
  lemma {:induction false} OnlyTextsCloseEarly(pr: Printer, e: Expr)
    requires GoodLanguage(pr.lang) && Printable(pr, e)
    requires Print(pr, e, 0)[0].value == CLOSE_BRACKET
    ensures Print(pr, e, 0)[0].kind == StringLiteral
  {
    FirstMark(pr, e, 0);
    PrintsLexemes(pr, e, 0);
    var l := Print(pr, e, 0)[0];
    assert l in Print(pr, e, 0) && IsLexeme(l);
    assert l.value[0] == ']' as int;
    assert OPEN_PAREN[0] != ']' as int && OPEN_BRACKET[0] != ']' as int && OPEN_BRACE[0] != ']' as int;
    assert NOT[0] != ']' as int && MINUS[0] != ']' as int && PLUS[0] != ']' as int;
  }

  // ---------------------------------------------------------------------------------------
  // Where a text is lost
  // ---------------------------------------------------------------------------------------

  // Reading fails, or gives fewer texts than were written.
  ghost predicate Loses(ts: seq<Token>, r: Parsed) {
    Within(TextTokens(ts) - 1, r)
  }

  lemma {:induction false} WrittenLoses(pr: Printer, e: Expr, level: nat, head: seq<Token>, rest: seq<Token>)
    requires GoodLanguage(pr.lang) && Printable(pr, e) && !PlainStarts(pr, e)
    requires level <= PRIMARY_LEVEL && Followed(head, Print(pr, e, level), rest) && Ends(rest[0], level)
    ensures WellEnded(head + rest) && Loses(head + rest, Parse(pr.lang, level, head + rest))
    decreases e, 4
  {
    JoinedIsWellEnded(head, rest);
    var count := TextTokens(head + rest) - 1;
    if LevelOf(e) < level {
      ParenthesizedLoses(pr, e, head, rest);
      LossClimbs(pr.lang, PRIMARY_LEVEL, level, head + rest, count);
    } else {
      BareLoses(pr, e, head, rest);
      LossClimbs(pr.lang, LevelOf(e), level, head + rest, count);
    }
  }

  lemma {:induction false} ParenthesizedLoses(pr: Printer, e: Expr, head: seq<Token>, rest: seq<Token>)
    requires GoodLanguage(pr.lang) && Printable(pr, e) && !PlainStarts(pr, e)
    requires Followed(head, [Mark(OPEN_PAREN)] + PrintBare(pr, e) + [Mark(CLOSE_PAREN)], rest)
    ensures WellEnded(head + rest) && Loses(head + rest, Parse(pr.lang, PRIMARY_LEVEL, head + rest))
    ensures head != [] && head[0].kind != Operator
    decreases e, 3
  {
    var bare := PrintBare(pr, e);
    assert [Mark(OPEN_PAREN)] + bare + [Mark(CLOSE_PAREN)] == [Mark(OPEN_PAREN)] + (bare + [Mark(CLOSE_PAREN)]);
    SplitOne(head, Mark(OPEN_PAREN), bare + [Mark(CLOSE_PAREN)], rest);
    var inner := head[1..];
    Split(inner, bare, [Mark(CLOSE_PAREN)], rest);
    var body, close := inner[..|bare|], inner[|bare|..];
    CloseWith(close, Mark(CLOSE_PAREN), rest, pr.lang, e);
    assert (close + rest)[0] == close[0];
    BareLoses(pr, e, body, close + rest);
    LossClimbs(pr.lang, LevelOf(e), 0, inner + rest, TextTokens(inner + rest) - 1);
    ParenthesesLose(pr.lang, head + rest);
  }

  lemma {:induction false} ParenthesesLose(lang: Language, ts: seq<Token>)
    requires WellEnded(ts) && Lexeme(ts[0].kind, ts[0].value) == Mark(OPEN_PAREN)
    requires WellEnded(ts[1..]) && Loses(ts[1..], Parse(lang, 0, ts[1..]))
    ensures Loses(ts, Parse(lang, PRIMARY_LEVEL, ts))
  {
    RestCounts(ts);
    assert Parse(lang, 0, ts[1..]) == ParseConditional(lang, ts[1..]);
  }

  lemma {:induction false} BareLoses(pr: Printer, e: Expr, head: seq<Token>, rest: seq<Token>)
    requires GoodLanguage(pr.lang) && Printable(pr, e) && !PlainStarts(pr, e)
    requires Followed(head, PrintBare(pr, e), rest) && Ends(rest[0], LevelOf(e))
    ensures WellEnded(head + rest) && Loses(head + rest, Parse(pr.lang, LevelOf(e), head + rest))
    ensures head != [] && (LevelOf(e) == PRIMARY_LEVEL ==> head[0].kind != Operator)
    decreases e, 2
  {
    JoinedIsWellEnded(head, rest);
    match e
    case Array(_, _) => ArrayLoses(pr, e, head, rest);
    case Object(_, _) => ObjectLoses(pr, e, head, rest);
    case Unary(_, _, _) => UnaryLoses(pr, e, head, rest);
    case Binary(_, _, _, _) => BinaryLoses(pr, e, head, rest);
    case Conditional(_, _, _, _) => ConditionalLoses(pr, e, head, rest);
  }

  lemma {:induction false} UnaryLoses(pr: Printer, e: Expr, head: seq<Token>, rest: seq<Token>)
    requires GoodLanguage(pr.lang) && Printable(pr, e) && !PlainStarts(pr, e) && e.Unary?
    requires Followed(head, PrintBare(pr, e), rest) && Ends(rest[0], UNARY_LEVEL)
    ensures WellEnded(head + rest) && Loses(head + rest, Parse(pr.lang, UNARY_LEVEL, head + rest))
    ensures head != []
    decreases e, 1
  {
    SplitOne(head, Lexeme(Operator, e.operator), Print(pr, e.operand, UNARY_LEVEL), rest);
    WrittenLoses(pr, e.operand, UNARY_LEVEL, head[1..], rest);
    RestCounts(head + rest);
    assert Parse(pr.lang, UNARY_LEVEL, head[1..] + rest) == ParseUnary(pr.lang, head[1..] + rest);
  }

  // What a plain left part leaves for the right one.
  lemma {:induction false} LeftCounts(pr: Printer, e: Expr, level: nat, e': Expr, head: seq<Token>, rest: seq<Token>)
    requires Lexemes(head) == Print(pr, e, level) && Shape(e') == Shape(e)
    ensures TextTokens(head + rest) == Texts(e') + TextTokens(rest)
  {
    PrintCounts(pr, e, level, head);
    TextTokensAdd(head, rest);
    ShapeKeepsTexts(e);
    ShapeKeepsTexts(e');
  }

  lemma {:induction false} WrittenCounts(pr: Printer, e: Expr, level: nat, e': Expr, head: seq<Token>, rest: seq<Token>)
    requires Followed(head, Print(pr, e, level), rest) && Shape(e') == Shape(e)
    ensures TextTokens(head + rest) == Texts(e') + TextTokens(rest)
  {
    LeftCounts(pr, e, level, e', head, rest);
  }

  lemma {:induction false} BinaryLoses(pr: Printer, e: Expr, head: seq<Token>, rest: seq<Token>)
    requires GoodLanguage(pr.lang) && Printable(pr, e) && !PlainStarts(pr, e) && e.Binary?
    requires Followed(head, PrintBare(pr, e), rest) && Ends(rest[0], LevelOf(e))
    ensures WellEnded(head + rest) && Loses(head + rest, Parse(pr.lang, LevelOf(e), head + rest))
    ensures head != []
    decreases e, 1
  {
    hide Print, Texts, TextTokens, Lexemes;
    var level := LevelOf(e);
    var op := Lexeme(Operator, e.operator);
    var leftPrint, rightPrint := Print(pr, e.left, level), Print(pr, e.right, level + 1);
    assert leftPrint + [op] + rightPrint == leftPrint + ([op] + rightPrint);
    Split(head, leftPrint, [op] + rightPrint, rest);
    var leftHead, tail := head[..|leftPrint|], head[|leftPrint|..];
    SplitOne(tail, op, rightPrint, rest);
    NextLexeme(tail, [op] + rightPrint, rest);
    assert Ends(tail[0], level);
    if PlainStarts(pr, e.left) {
      var left := ReadBack(pr, e.left, level, leftHead, tail + rest);
      WrittenLoses(pr, e.right, level + 1, tail[1..], rest);
      LeftCounts(pr, e.left, level, left, leftHead, tail + rest);
      OperandLoses(pr.lang, level, left, tail + rest);
    } else {
      WrittenLoses(pr, e.left, level, leftHead, tail + rest);
    }
  }

  lemma {:induction false} OperandLoses(lang: Language, level: nat, left: Expr, ts: seq<Token>)
    requires WellEnded(ts) && 1 <= level < UNARY_LEVEL && Continues(level, ts[0])
    requires WellEnded(ts[1..]) && Loses(ts[1..], Parse(lang, level + 1, ts[1..]))
    ensures Within(Texts(left) + TextTokens(ts) - 1, BinaryTail(lang, level, left, ts))
  {
    RestCounts(ts);
    var right := Parse(lang, level + 1, ts[1..]);
    if right.Ok? {
      BinaryTailAccounts(lang, level, Binary(ts[0].value, left, right.value.expr, ts[0].offset), right.value.rest);
    }
  }

  lemma {:induction false} ConditionalLoses(pr: Printer, e: Expr, head: seq<Token>, rest: seq<Token>)
    requires GoodLanguage(pr.lang) && Printable(pr, e) && !PlainStarts(pr, e) && e.Conditional?
    requires Followed(head, PrintBare(pr, e), rest) && Ends(rest[0], CONDITIONAL_LEVEL)
    ensures WellEnded(head + rest) && Loses(head + rest, Parse(pr.lang, CONDITIONAL_LEVEL, head + rest))
    ensures head != []
    decreases e, 1
  {
    var c, t, f := Print(pr, e.condition, 1), Print(pr, e.whenTrue, 0), Print(pr, e.whenFalse, 0);
    var afterT := [Mark(COLON)] + f;
    var afterC := [Mark(QUESTION)] + (t + afterT);
    assert c + [Mark(QUESTION)] + t + [Mark(COLON)] + f == c + afterC;
    Split(head, c, afterC, rest);
    var cHead, tail := head[..|c|], head[|c|..];
    SplitOne(tail, Mark(QUESTION), t + afterT, rest);
    assert (tail + rest)[0] == tail[0];
    if PlainStarts(pr, e.condition) {
      var condition := ReadBack(pr, e.condition, 1, cHead, tail + rest);
      LeftCounts(pr, e.condition, 1, condition, cHead, tail + rest);
      BranchesLose(pr, e, condition, tail, rest);
    } else {
      WrittenLoses(pr, e.condition, 1, cHead, tail + rest);
      LossClimbs(pr.lang, 1, 0, head + rest, TextTokens(head + rest) - 1);
    }
  }

  lemma {:induction false} BranchesLose(pr: Printer, e: Expr, condition: Expr, head: seq<Token>, rest: seq<Token>)
    requires GoodLanguage(pr.lang) && Printable(pr, e) && e.Conditional?
    requires !PlainStarts(pr, e.whenTrue) || !PlainStarts(pr, e.whenFalse)
    requires var branches := Print(pr, e.whenTrue, 0) + ([Mark(COLON)] + Print(pr, e.whenFalse, 0));
             Followed(head, [Mark(QUESTION)] + branches, rest)
    requires Ends(rest[0], CONDITIONAL_LEVEL)
    ensures WellEnded(head + rest)
    ensures Within(Texts(condition) + TextTokens(head + rest) - 1, ConditionalTail(pr.lang, condition, head + rest))
    decreases e, 0
  {
    var t, f := Print(pr, e.whenTrue, 0), Print(pr, e.whenFalse, 0);
    SplitOne(head, Mark(QUESTION), t + ([Mark(COLON)] + f), rest);
    RestCounts(head + rest);
    Split(head[1..], t, [Mark(COLON)] + f, rest);
    var tHead, colon := head[1..][..|t|], head[1..][|t|..];
    SplitOne(colon, Mark(COLON), f, rest);
    RestCounts(colon + rest);
    assert (colon + rest)[0] == colon[0];
    var inner := head[1..] + rest;
    if PlainStarts(pr, e.whenTrue) {
      var whenTrue := ReadBack(pr, e.whenTrue, 0, tHead, colon + rest);
      assert ParseConditional(pr.lang, inner) == Ok(Got(whenTrue, colon + rest));
      LeftCounts(pr, e.whenTrue, 0, whenTrue, tHead, colon + rest);
      WrittenLoses(pr, e.whenFalse, 0, colon[1..], rest);
      assert Within(TextTokens(colon[1..] + rest) - 1, ParseConditional(pr.lang, colon[1..] + rest));
    } else {
      WrittenLoses(pr, e.whenTrue, 0, tHead, colon + rest);
      assert Within(TextTokens(inner) - 1, ParseConditional(pr.lang, inner));
      FirstBranchLoses(pr.lang, condition, head + rest);
    }
  }

  lemma {:induction false} FirstBranchLoses(lang: Language, condition: Expr, ts: seq<Token>)
    requires WellEnded(ts) && WellEnded(ts[1..]) && ts[0].value == QUESTION && ts[0].kind == Punctuation
    requires Loses(ts[1..], ParseConditional(lang, ts[1..]))
    ensures Within(Texts(condition) + TextTokens(ts) - 1, ConditionalTail(lang, condition, ts))
  {
    RestCounts(ts);
    var t := ParseConditional(lang, ts[1..]);
    if t.Ok? && t.value.rest[0].value == COLON {
      TailIsWellEnded(t.value.rest);
      RestCounts(t.value.rest);
      ConditionalAccounts(lang, t.value.rest[1..]);
    }
  }

  lemma {:induction false} ArrayLoses(pr: Printer, e: Expr, head: seq<Token>, rest: seq<Token>)
    requires GoodLanguage(pr.lang) && Printable(pr, e) && !PlainStarts(pr, e) && e.Array?
    requires Followed(head, PrintBare(pr, e), rest)
    ensures WellEnded(head + rest) && Loses(head + rest, Parse(pr.lang, PRIMARY_LEVEL, head + rest))
    ensures head != [] && head[0].kind != Operator
    decreases e, 1
  {
    hide ParseElements, ParseConditional;
    var all, close := PrintAll(pr, e.elements), [Mark(CLOSE_BRACKET)];
    assert [Mark(OPEN_BRACKET)] + all + close == [Mark(OPEN_BRACKET)] + (all + close);
    SplitOne(head, Mark(OPEN_BRACKET), all + close, rest);
    RestCounts(head + rest);
    var body, offset := head[1..], head[0].offset;
    assert Lexemes(body)[0] == all[0] == Print(pr, e.elements[0], 0)[0];
    assert (body + rest)[0] == body[0];
    assert ParsePrimary(pr.lang, head + rest) == ParseArray(pr.lang, offset, body + rest);
    if body[0].value == CLOSE_BRACKET {
      OnlyTextsCloseEarly(pr, e.elements[0]);
      RestCounts(body + rest);
      assert Texts(Array([], offset)) == 0;
    } else {
      ElementsLose(pr, e.elements, offset, [], body, rest);
    }
  }

  lemma {:induction false} ElementsLose(pr: Printer, es: seq<Expr>, offset: nat, before: seq<Expr>, head: seq<Token>,
                                        rest: seq<Token>)
    requires GoodLanguage(pr.lang) && es != []
    requires (forall x <- es :: Printable(pr, x)) && exists x <- es :: !PlainStarts(pr, x)
    requires Followed(head, PrintAll(pr, es) + [Mark(CLOSE_BRACKET)], rest)
    ensures WellEnded(head + rest)
    ensures Within(TextsAll(before) + TextTokens(head + rest) - 1, ParseElements(pr.lang, offset, before, head + rest))
    decreases es, 5
  {
    hide Print, PrintAll, Lexemes, ParseElements, ParseConditional, Within, Printable, PlainStarts;
    hide TextTokens, TextsAll, Followed, WellEnded, Texts, Shape;
    var first, close := Print(pr, es[0], 0), [Mark(CLOSE_BRACKET)];
    var others := ElementsApart(pr, es);
    Split(head, first, others, rest);
    var firstHead, tail := head[..|first|], head[|first|..];
    NextLexeme(tail, others, rest);
    if PlainStarts(pr, es[0]) {
      var element := ReadBack(pr, es[0], 0, firstHead, tail + rest);
      WrittenCounts(pr, es[0], 0, element, firstHead, tail + rest);
      SomeOther(pr, es);
      SplitOne(tail, Mark(COMMA), PrintAll(pr, es[1..]) + close, rest);
      ElementsLose(pr, es[1..], offset, before + [element], tail[1..], rest);
      LaterElementLoses(pr.lang, offset, before, head + rest, element, tail + rest);
    } else {
      WrittenLoses(pr, es[0], 0, firstHead, tail + rest);
      FirstElementLoses(pr.lang, offset, before, head + rest);
    }
  }

  lemma {:induction false} LaterElementLoses(lang: Language, offset: nat, before: seq<Expr>, ts: seq<Token>,
                                             element: Expr, rest: seq<Token>)
    requires WellEnded(ts) && WellEnded(rest) && WellEnded(rest[1..]) && rest[0].value == COMMA
    requires rest[0].kind != StringLiteral
    requires Parse(lang, CONDITIONAL_LEVEL, ts) == Ok(Got(element, rest))
    requires TextTokens(ts) == Texts(element) + TextTokens(rest)
    requires var more := before + [element];
             Within(TextsAll(more) + TextTokens(rest[1..]) - 1, ParseElements(lang, offset, more, rest[1..]))
    ensures Within(TextsAll(before) + TextTokens(ts) - 1, ParseElements(lang, offset, before, ts))
  {
    hide ParseElements, ParseConditional;
    ElementsGoOn(lang, offset, before, ts, element, rest);
    TextsOneMore(before, element);
    RestCounts(rest);
  }

  lemma {:induction false} SomeOther(pr: Printer, es: seq<Expr>)
    requires es != [] && PlainStarts(pr, es[0]) && exists x <- es :: !PlainStarts(pr, x)
    ensures |es| > 1 && exists x <- es[1..] :: !PlainStarts(pr, x)
  {
    var x :| x in es && !PlainStarts(pr, x);
    assert x in es[1..];
  }

  lemma {:induction false} FirstElementLoses(lang: Language, offset: nat, before: seq<Expr>, ts: seq<Token>)
    requires WellEnded(ts) && Loses(ts, Parse(lang, 0, ts))
    ensures Within(TextsAll(before) + TextTokens(ts) - 1, ParseElements(lang, offset, before, ts))
  {
    var element := ParseConditional(lang, ts);
    assert element == Parse(lang, 0, ts);
    if element.Ok? {
      var after := element.value.rest;
      TextsOneMore(before, element.value.expr);
      RestCounts(after);
      if after[0].value == COMMA {
        TailIsWellEnded(after);
        ElementsAccount(lang, offset, before + [element.value.expr], after[1..]);
      }
    }
  }

  lemma {:induction false} ObjectLoses(pr: Printer, e: Expr, head: seq<Token>, rest: seq<Token>)
    requires GoodLanguage(pr.lang) && Printable(pr, e) && !PlainStarts(pr, e) && e.Object?
    requires Followed(head, PrintBare(pr, e), rest)
    ensures WellEnded(head + rest) && Loses(head + rest, Parse(pr.lang, PRIMARY_LEVEL, head + rest))
    ensures head != [] && head[0].kind != Operator
    decreases e, 1
  {
    var all, close := PrintEntries(pr, e.entries), [Mark(CLOSE_BRACE)];
    assert [Mark(OPEN_BRACE)] + all + close == [Mark(OPEN_BRACE)] + (all + close);
    SplitOne(head, Mark(OPEN_BRACE), all + close, rest);
    RestCounts(head + rest);
    var body, offset := head[1..], head[0].offset;
    assert Lexemes(body)[0] == all[0] == PrintEntry(pr, e.entries[0])[0];
    assert (body + rest)[0] == body[0];
    assert ParsePrimary(pr.lang, head + rest) == ParseObject(pr.lang, offset, body + rest);
    if body[0].value == CLOSE_BRACE {
      RestCounts(body + rest);
      assert Texts(Object([], offset)) == 0;
    } else {
      EntriesLose(pr, e.entries, offset, [], body, rest);
    }
  }

  lemma {:induction false} EntriesLose(pr: Printer, entries: seq<Entry>, offset: nat, before: seq<Entry>,
                                       head: seq<Token>, rest: seq<Token>)
    requires GoodLanguage(pr.lang) && entries != [] && FreshKeys(before, entries)
    requires (forall x <- entries :: Printable(pr, x.value)) && exists x <- entries :: !PlainStarts(pr, x.value)
    requires Followed(head, PrintEntries(pr, entries) + [Mark(CLOSE_BRACE)], rest)
    ensures WellEnded(head + rest)
    ensures Within(TextsEntries(before) + TextTokens(head + rest) - 1,
                   ParseEntries(pr.lang, offset, before, head + rest))
    decreases entries, 5
  {
    JoinedIsWellEnded(head, rest);
    var close := [Mark(CLOSE_BRACE)];
    var others := EntriesApart(pr, entries);
    assert entries[0] in entries;
    if PlainStarts(pr, entries[0].value) {
      var entry, tail := ReadFirstEntry(pr, entries[0], others, before, head, rest);
      EntryAccounts(pr.lang, before, head + rest);
      TextsOneMoreEntry(before, entry);
      SomeOtherEntry(pr, entries);
      SplitOne(tail, Mark(COMMA), PrintEntries(pr, entries[1..]) + close, rest);
      RestCounts(tail + rest);
      KeysStayFresh(before, entries, entry);
      EntriesLose(pr, entries[1..], offset, before + [entry], tail[1..], rest);
    } else {
      EntryLoses(pr, entries[0], others, before, head, rest);
      FirstEntryLoses(pr.lang, offset, before, head + rest);
    }
  }

  lemma {:induction false} SomeOtherEntry(pr: Printer, entries: seq<Entry>)
    requires entries != [] && PlainStarts(pr, entries[0].value) && exists x <- entries :: !PlainStarts(pr, x.value)
    ensures |entries| > 1 && exists x <- entries[1..] :: !PlainStarts(pr, x.value)
  {
    var x :| x in entries && !PlainStarts(pr, x.value);
    assert x in entries[1..];
  }

  ghost predicate EntryWithin(count: int, r: Result<GotEntry, ParseError>) {
    r.Ok? ==> TextTokens(r.value.rest) + 1 + Texts(r.value.entry.value) <= count
  }

  lemma {:induction false} EntryLoses(pr: Printer, first: Entry, others: seq<Lexeme>, before: seq<Entry>,
                                      head: seq<Token>, rest: seq<Token>)
    requires GoodLanguage(pr.lang) && Printable(pr, first.value) && !PlainStarts(pr, first.value)
    requires others != [] && (others[0] == Mark(COMMA) || others[0] == Mark(CLOSE_BRACE))
    requires Followed(head, PrintEntry(pr, first) + others, rest)
    ensures WellEnded(head + rest)
    ensures EntryWithin(TextTokens(head + rest) - 1, ParseEntry(pr.lang, before, head + rest))
    decreases first, 6
  {
    JoinedIsWellEnded(head, rest);
    var value := Print(pr, first.value, 0);
    assert PrintEntry(pr, first) + others == [Lexeme(StringLiteral, first.key)] + ([Mark(COLON)] + (value + others));
    SplitOne(head, Lexeme(StringLiteral, first.key), [Mark(COLON)] + (value + others), rest);
    SplitOne(head[1..], Mark(COLON), value + others, rest);
    var body := head[1..][1..];
    Split(body, value, others, rest);
    var tail := body[|value|..];
    assert Lexemes(tail)[0] == others[0];
    assert (tail + rest)[0] == tail[0];
    WrittenLoses(pr, first.value, 0, body[..|value|], tail + rest);
    ValueLoses(pr.lang, before, head + rest, body + rest);
  }

  lemma {:induction false} ValueLoses(lang: Language, before: seq<Entry>, ts: seq<Token>, inner: seq<Token>)
    requires WellEnded(ts) && ts[0].kind == StringLiteral
    requires WellEnded(ts[1..]) && ts[1].kind == Punctuation && ts[1].value == COLON
    requires |ts| > 1 && inner == ts[1..][1..] && WellEnded(inner)
    requires Loses(inner, Parse(lang, 0, inner))
    ensures EntryWithin(TextTokens(ts) - 1, ParseEntry(lang, before, ts))
  {
    RestCounts(ts);
    RestCounts(ts[1..]);
    assert Parse(lang, 0, inner) == ParseConditional(lang, inner);
  }

  lemma {:induction false} FirstEntryLoses(lang: Language, offset: nat, before: seq<Entry>, ts: seq<Token>)
    requires WellEnded(ts) && EntryWithin(TextTokens(ts) - 1, ParseEntry(lang, before, ts))
    ensures Within(TextsEntries(before) + TextTokens(ts) - 1, ParseEntries(lang, offset, before, ts))
  {
    var got := ParseEntry(lang, before, ts);
    if got.Ok? {
      var after := got.value.rest;
      TextsOneMoreEntry(before, got.value.entry);
      RestCounts(after);
      if after[0].value == COMMA {
        TailIsWellEnded(after);
        EntriesAccount(lang, offset, before + [got.value.entry], after[1..]);
      }
    }
  }

  // ---------------------------------------------------------------------------------------
  // Exactly when the round trip holds
  // ---------------------------------------------------------------------------------------

  // Writing an expression down and reading the text gives the same tree, up to offsets.
  lemma {:induction false} WrittenIsRead(pr: Printer, e: Expr)
    requires GoodLanguage(pr.lang) && Printable(pr, e) && PlainStarts(pr, e)
    ensures var r := Read(pr.lang, Render(Print(pr, e, 0)));
            r.Ok? && Shape(r.value) == Shape(e)
  {
    var head, rest := WrittenTokens(pr, e);
    var e' := ReadBack(pr, e, 0, head, rest);
    assert ParseConditional(pr.lang, head + rest) == Ok(Got(e', rest));
  }

  ghost predicate IsReadBack(pr: Printer, e: Expr) {
    var r := Read(pr.lang, Render(Print(pr, e, 0)));
    r.Ok? && Shape(r.value) == Shape(e)
  }

  lemma {:induction false} ReadBackExactlyWhenPlain(pr: Printer, e: Expr)
    requires GoodLanguage(pr.lang) && Printable(pr, e)
    ensures IsReadBack(pr, e) <==> PlainStarts(pr, e)
  {
    hide Print, PlainStarts, Printable, Render;
    if PlainStarts(pr, e) {
      WrittenIsRead(pr, e);
    } else {
      var head, rest := WrittenTokens(pr, e);
      WrittenLoses(pr, e, 0, head, rest);
      PrintCounts(pr, e, 0, head);
      TextTokensAdd(head, rest);
      assert rest[1..] == [];
      var got := ParseConditional(pr.lang, head + rest);
      assert got == Parse(pr.lang, 0, head + rest);
      if got.Ok? {
        ShapeKeepsTexts(e);
        ShapeKeepsTexts(got.value.expr);
      }
    }
  }

  // ["]"] and {"}": true} are expressions of the language that are not read back.
  lemma {:induction false} ClosingTextsAreNotReadBack(pr: Printer)
    requires GoodLanguage(pr.lang)
    ensures !IsReadBack(pr, Array([Literal(TextLiteral(CLOSE_BRACKET), 0)], 0))
    ensures !IsReadBack(pr, Object([Entry(CLOSE_BRACE, Literal(BoolLiteral(true), 0), 0)], 0))
  {
    var text, truth := Literal(TextLiteral(CLOSE_BRACKET), 0), Literal(BoolLiteral(true), 0);
    assert Printable(pr, text) && Printable(pr, truth);
    assert Print(pr, text, 0) == [Lexeme(StringLiteral, CLOSE_BRACKET)];
    ReadBackExactlyWhenPlain(pr, Array([text], 0));
    ReadBackExactlyWhenPlain(pr, Object([Entry(CLOSE_BRACE, truth, 0)], 0));
  }
}
