// Counting text literals: whatever the parser builds holds at most as many texts as the tokens it
// has read. The printer writes every text once. So a written tree that the parser reads in another
// way has lost a text for good.

module TextAccounting {
  import opened CodeUnits
  import opened Wrappers
  import opened Tokenizer
  import opened Grammar
  import opened Printing
  import opened RoundTrip

  // ---------------------------------------------------------------------------------------
  // Counting
  // ---------------------------------------------------------------------------------------

  function TextTokens(ts: seq<Token>): (n: nat) {
    if ts == [] then 0 else (if ts[0].kind == StringLiteral then 1 else 0) + TextTokens(ts[1..])
  }

  // Text literals and keys.
  function Texts(e: Expr): (n: nat) {
    match e
    case Literal(value, _) => if value.TextLiteral? then 1 else 0
    case Input(_) => 0
    case Array(elements, _) => TextsAll(elements)
    case Object(entries, _) => TextsEntries(entries)
    case Unary(_, operand, _) => Texts(operand)
    case Binary(_, left, right, _) => Texts(left) + Texts(right)
    case Conditional(c, t, f, _) => Texts(c) + Texts(t) + Texts(f)
  }

  function TextsAll(es: seq<Expr>): (n: nat) {
    if es == [] then 0 else Texts(es[0]) + TextsAll(es[1..])
  }

  function TextsEntries(entries: seq<Entry>): (n: nat) {
    if entries == [] then 0 else 1 + Texts(entries[0].value) + TextsEntries(entries[1..])
  }

  lemma {:induction false} TextTokensAdd(a: seq<Token>, b: seq<Token>)
    ensures TextTokens(a + b) == TextTokens(a) + TextTokens(b)
  {
    if a == [] {
      assert a + b == b;
    } else {
      assert (a + b)[1..] == a[1..] + b;
      TextTokensAdd(a[1..], b);
    }
  }

  lemma {:induction false} TextsOneMore(es: seq<Expr>, e: Expr)
    ensures TextsAll(es + [e]) == TextsAll(es) + Texts(e)
  {
    if es == [] {
      assert es + [e] == [e];
    } else {
      assert (es + [e])[1..] == es[1..] + [e];
      TextsOneMore(es[1..], e);
    }
  }

  lemma {:induction false} TextsOneMoreEntry(entries: seq<Entry>, e: Entry)
    ensures TextsEntries(entries + [e]) == TextsEntries(entries) + 1 + Texts(e.value)
  {
    if entries == [] {
      assert entries + [e] == [e];
    } else {
      assert (entries + [e])[1..] == entries[1..] + [e];
      TextsOneMoreEntry(entries[1..], e);
    }
  }

  lemma {:induction false} ShapeKeepsTexts(e: Expr)
    ensures Texts(Shape(e)) == Texts(e)
    decreases e
  {
    match e
    case Literal(_, _) =>
    case Input(_) =>
    case Array(elements, _) => ShapesKeepTexts(elements);
    case Object(entries, _) => EntriesKeepTexts(entries);
    case Unary(_, operand, _) => ShapeKeepsTexts(operand);
    case Binary(_, left, right, _) =>
      ShapeKeepsTexts(left);
      ShapeKeepsTexts(right);
    case Conditional(c, t, f, _) =>
      ShapeKeepsTexts(c);
      ShapeKeepsTexts(t);
      ShapeKeepsTexts(f);
  }

  lemma {:induction false} ShapesKeepTexts(es: seq<Expr>)
    ensures TextsAll(ShapeAll(es)) == TextsAll(es)
    decreases es
  {
    if es != [] {
      ShapeKeepsTexts(es[0]);
      ShapesKeepTexts(es[1..]);
      assert ShapeAll(es)[1..] == ShapeAll(es[1..]);
    }
  }

  lemma {:induction false} EntriesKeepTexts(entries: seq<Entry>)
    ensures TextsEntries(ShapeEntries(entries)) == TextsEntries(entries)
    decreases entries
  {
    if entries != [] {
      ShapeKeepsTexts(entries[0].value);
      EntriesKeepTexts(entries[1..]);
      assert ShapeEntries(entries)[1..] == ShapeEntries(entries[1..]);
    }
  }

  // ---------------------------------------------------------------------------------------
  // The parser never invents a text
  // ---------------------------------------------------------------------------------------

  // The texts of the expression and those still unread are at most so many.
  ghost predicate Within(count: int, r: Parsed) {
    r.Ok? ==> TextTokens(r.value.rest) + Texts(r.value.expr) <= count
  }

  lemma {:induction false} ParseAccounts(lang: Language, level: nat, ts: seq<Token>)
    requires WellEnded(ts) && level <= PRIMARY_LEVEL
    ensures Within(TextTokens(ts), Parse(lang, level, ts))
    decreases |ts|, 20 - level
  {
    if level == CONDITIONAL_LEVEL {
      ConditionalAccounts(lang, ts);
    } else if level == UNARY_LEVEL {
      UnaryAccounts(lang, ts);
    } else if level == PRIMARY_LEVEL {
      PrimaryAccounts(lang, ts);
    } else {
      ParseAccounts(lang, level + 1, ts);
      var first := Parse(lang, level + 1, ts);
      if first.Ok? {
        BinaryTailAccounts(lang, level, first.value.expr, first.value.rest);
      }
    }
  }

  lemma {:induction false} ConditionalAccounts(lang: Language, ts: seq<Token>)
    requires WellEnded(ts)
    ensures Within(TextTokens(ts), ParseConditional(lang, ts))
    decreases |ts|, 20, 0
  {
    ParseAccounts(lang, 1, ts);
    var c := Parse(lang, 1, ts);
    if c.Ok? {
      ConditionalTailAccounts(lang, c.value.expr, c.value.rest);
    }
  }

  lemma {:induction false} ConditionalTailAccounts(lang: Language, condition: Expr, ts: seq<Token>)
    requires WellEnded(ts)
    ensures Within(Texts(condition) + TextTokens(ts), ConditionalTail(lang, condition, ts))
    decreases |ts|, 0
  {
    hide ParseConditional;
    if ts[0].value == QUESTION {
      TailIsWellEnded(ts);
      ConditionalAccounts(lang, ts[1..]);
      var t := ParseConditional(lang, ts[1..]);
      if t.Ok? && t.value.rest[0].value == COLON {
        TailIsWellEnded(t.value.rest);
        ConditionalAccounts(lang, t.value.rest[1..]);
      }
    }
  }

  lemma {:induction false} BinaryTailAccounts(lang: Language, level: nat, left: Expr, ts: seq<Token>)
    requires WellEnded(ts) && 1 <= level < UNARY_LEVEL
    ensures Within(Texts(left) + TextTokens(ts), BinaryTail(lang, level, left, ts))
    decreases |ts|, 0
  {
    hide Parse;
    if Continues(level, ts[0]) {
      TailIsWellEnded(ts);
      ParseAccounts(lang, level + 1, ts[1..]);
      var right := Parse(lang, level + 1, ts[1..]);
      if right.Ok? {
        BinaryTailAccounts(lang, level, Binary(ts[0].value, left, right.value.expr, ts[0].offset), right.value.rest);
      }
    }
  }

  lemma {:induction false} UnaryAccounts(lang: Language, ts: seq<Token>)
    requires WellEnded(ts)
    ensures Within(TextTokens(ts), ParseUnary(lang, ts))
    decreases |ts|, 12, 1
  {
    if ts[0].kind == Operator && IsUnaryOperator(ts[0].value) {
      TailIsWellEnded(ts);
      UnaryAccounts(lang, ts[1..]);
    } else {
      PrimaryAccounts(lang, ts);
    }
  }

  lemma {:induction false} PrimaryAccounts(lang: Language, ts: seq<Token>)
    requires WellEnded(ts)
    ensures Within(TextTokens(ts), ParsePrimary(lang, ts))
    decreases |ts|, 11, 1
  {
    hide ParseConditional, ParseElements, ParseEntries;
    if ts[0].kind != Eof {
      TailIsWellEnded(ts);
      ConditionalAccounts(lang, ts[1..]);
      if ts[1..][0].value == CLOSE_BRACKET {
        assert TextsAll([]) == 0;
      }
      ElementsAccount(lang, ts[0].offset, [], ts[1..]);
      EntriesAccount(lang, ts[0].offset, [], ts[1..]);
    }
  }

  lemma {:induction false} ElementsAccount(lang: Language, offset: nat, elements: seq<Expr>, ts: seq<Token>)
    requires WellEnded(ts)
    ensures Within(TextsAll(elements) + TextTokens(ts), ParseElements(lang, offset, elements, ts))
    decreases |ts|, 21
  {
    ConditionalAccounts(lang, ts);
    var element := ParseConditional(lang, ts);
    if element.Ok? {
      TextsOneMore(elements, element.value.expr);
      if element.value.rest[0].value == COMMA {
        TailIsWellEnded(element.value.rest);
        ElementsAccount(lang, offset, elements + [element.value.expr], element.value.rest[1..]);
      }
    }
  }

  lemma {:induction false} EntryAccounts(lang: Language, entries: seq<Entry>, ts: seq<Token>)
    requires WellEnded(ts)
    ensures var r := ParseEntry(lang, entries, ts);
            r.Ok? ==> TextTokens(r.value.rest) + 1 + Texts(r.value.entry.value) <= TextTokens(ts)
    decreases |ts|, 20, 1
  {
    if ts[0].kind == StringLiteral {
      TailIsWellEnded(ts);
      if ts[1].value == COLON {
        TailIsWellEnded(ts[1..]);
        ConditionalAccounts(lang, ts[1..][1..]);
      }
    }
  }

  lemma {:induction false} EntriesAccount(lang: Language, offset: nat, entries: seq<Entry>, ts: seq<Token>)
    requires WellEnded(ts)
    ensures Within(TextsEntries(entries) + TextTokens(ts), ParseEntries(lang, offset, entries, ts))
    decreases |ts|, 21
  {
    EntryAccounts(lang, entries, ts);
    var got := ParseEntry(lang, entries, ts);
    if got.Ok? {
      TextsOneMoreEntry(entries, got.value.entry);
      if got.value.rest[0].value == COMMA {
        TailIsWellEnded(got.value.rest);
        EntriesAccount(lang, offset, entries + [got.value.entry], got.value.rest[1..]);
      }
    }
  }

  // ---------------------------------------------------------------------------------------
  // The printer writes every text once
  // ---------------------------------------------------------------------------------------

  lemma {:induction false} CountSplit(head: seq<Token>, a: seq<Lexeme>, b: seq<Lexeme>)
    requires Lexemes(head) == a + b
    ensures Lexemes(head[..|a|]) == a && Lexemes(head[|a|..]) == b
    ensures TextTokens(head) == TextTokens(head[..|a|]) + TextTokens(head[|a|..])
  {
    var x, y := head[..|a|], head[|a|..];
    assert x + y == head;
    TextTokensAdd(x, y);
    assert Lexemes(x) == Lexemes(head)[..|a|] == a;
    assert Lexemes(y) == Lexemes(head)[|a|..] == b;
  }

  lemma {:induction false} CountOne(head: seq<Token>, l: Lexeme)
    requires Lexemes(head) == [l]
    ensures TextTokens(head) == if l.kind == StringLiteral then 1 else 0
  {
    assert Lexemes(head)[0] == l;
    assert head == [head[0]];
    assert head[1..] == [];
  }

  lemma {:induction false} PrintCounts(pr: Printer, e: Expr, level: nat, head: seq<Token>)
    requires Lexemes(head) == Print(pr, e, level)
    ensures TextTokens(head) == Texts(e)
    decreases e, 1
  {
    if LevelOf(e) < level {
      var bare := PrintBare(pr, e);
      CountSplit(head, [Mark(OPEN_PAREN)] + bare, [Mark(CLOSE_PAREN)]);
      CountOne(head[|bare| + 1..], Mark(CLOSE_PAREN));
      CountSplit(head[..|bare| + 1], [Mark(OPEN_PAREN)], bare);
      CountOne(head[..|bare| + 1][..1], Mark(OPEN_PAREN));
      BareCounts(pr, e, head[..|bare| + 1][1..]);
    } else {
      BareCounts(pr, e, head);
    }
  }

  lemma {:induction false} BareCounts(pr: Printer, e: Expr, head: seq<Token>)
    requires Lexemes(head) == PrintBare(pr, e)
    ensures TextTokens(head) == Texts(e)
    decreases e, 0
  {
    match e
    case Literal(value, _) => CountOne(head, PrintLiteral(pr, value));
    case Input(_) => CountOne(head, Lexeme(Identifier, pr.lang.variableName));
    case Array(elements, _) =>
      var inside := Bracketed(head, Mark(OPEN_BRACKET), PrintAll(pr, elements), Mark(CLOSE_BRACKET));
      AllCount(pr, elements, inside);
    case Object(entries, _) =>
      var inside := Bracketed(head, Mark(OPEN_BRACE), PrintEntries(pr, entries), Mark(CLOSE_BRACE));
      EntriesCount(pr, entries, inside);
    case Unary(op, operand, _) =>
      CountSplit(head, [Lexeme(Operator, op)], Print(pr, operand, UNARY_LEVEL));
      CountOne(head[..1], Lexeme(Operator, op));
      PrintCounts(pr, operand, UNARY_LEVEL, head[1..]);
    case Binary(op, left, right, _) =>
      var level := OperatorLevel(op);
      var a, b := Separated(head, Print(pr, left, level), Lexeme(Operator, op), Print(pr, right, level + 1));
      PrintCounts(pr, left, level, a);
      PrintCounts(pr, right, level + 1, b);
    case Conditional(c, t, f, _) =>
      var x, y, z := Print(pr, c, 1), Print(pr, t, 0), Print(pr, f, 0);
      var ab, b := Separated(head, x + [Mark(QUESTION)] + y, Mark(COLON), z);
      var a, m := Separated(ab, x, Mark(QUESTION), y);
      PrintCounts(pr, c, 1, a);
      PrintCounts(pr, t, 0, m);
      PrintCounts(pr, f, 0, b);
  }

  lemma {:induction false} Separated(head: seq<Token>, a: seq<Lexeme>, l: Lexeme, b: seq<Lexeme>)
    returns (x: seq<Token>, y: seq<Token>)
    requires Lexemes(head) == a + [l] + b && l.kind != StringLiteral
    ensures Lexemes(x) == a && Lexemes(y) == b
    ensures TextTokens(head) == TextTokens(x) + TextTokens(y)
  {
    CountSplit(head, a + [l], b);
    var front := head[..|a| + 1];
    CountSplit(front, a, [l]);
    CountOne(front[|a|..], l);
    x, y := front[..|a|], head[|a| + 1..];
  }

  lemma {:induction false} Bracketed(head: seq<Token>, open: Lexeme, inside: seq<Lexeme>, close: Lexeme)
    returns (x: seq<Token>)
    requires Lexemes(head) == [open] + inside + [close] && open.kind != StringLiteral && close.kind != StringLiteral
    ensures Lexemes(x) == inside && TextTokens(head) == TextTokens(x)
  {
    CountSplit(head, [open] + inside, [close]);
    CountOne(head[|inside| + 1..], close);
    var front := head[..|inside| + 1];
    CountSplit(front, [open], inside);
    CountOne(front[..1], open);
    x := front[1..];
  }

  lemma {:induction false} AllCount(pr: Printer, es: seq<Expr>, head: seq<Token>)
    requires Lexemes(head) == PrintAll(pr, es)
    ensures TextTokens(head) == TextsAll(es)
    decreases es
  {
    if |es| == 1 {
      PrintCounts(pr, es[0], 0, head);
    } else if es != [] {
      var a, b := Separated(head, Print(pr, es[0], 0), Mark(COMMA), PrintAll(pr, es[1..]));
      PrintCounts(pr, es[0], 0, a);
      AllCount(pr, es[1..], b);
    }
  }

  lemma {:induction false} EntryCounts(pr: Printer, entry: Entry, head: seq<Token>)
    requires Lexemes(head) == PrintEntry(pr, entry)
    ensures TextTokens(head) == 1 + Texts(entry.value)
    decreases entry
  {
    var key, value := [Lexeme(StringLiteral, entry.key)], Print(pr, entry.value, 0);
    assert key + [Mark(COLON)] + value == PrintEntry(pr, entry);
    var a, b := Separated(head, key, Mark(COLON), value);
    CountOne(a, key[0]);
    PrintCounts(pr, entry.value, 0, b);
  }

  lemma {:induction false} EntriesCount(pr: Printer, entries: seq<Entry>, head: seq<Token>)
    requires Lexemes(head) == PrintEntries(pr, entries)
    ensures TextTokens(head) == TextsEntries(entries)
    decreases entries
  {
    if |entries| == 1 {
      EntryCounts(pr, entries[0], head);
    } else if entries != [] {
      var a, b := Separated(head, PrintEntry(pr, entries[0]), Mark(COMMA), PrintEntries(pr, entries[1..]));
      EntryCounts(pr, entries[0], a);
      EntriesCount(pr, entries[1..], b);
    }
  }
}
