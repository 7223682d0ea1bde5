// What the parser accepts.

module Derivation {
  // The grammar as rules that derive an expression from a sequence of tokens, with the strengths of
  // the operators, and the proof that the parser reads nothing that has no derivation. After an
  // operand the parser tells punctuation by its text alone, so the rules do as well.

  import opened CodeUnits
  import opened Wrappers
  import opened Tokenizer
  import opened Grammar
  import opened Precedence

  predicate Opens(t: Token, mark: Text) {
    t.value == mark && (t.kind == Operator || t.kind == Punctuation)
  }

  predicate IsLiteral(lang: Language, v: Grammar.Literal, t: Token) {
    match v
    case TextLiteral(text) => t.kind == StringLiteral && t.value == text
    case NumberValue(n) => t.kind == NumberLiteral && lang.valueOf(t.value) == n && lang.safe(n)
    case BoolLiteral(b) => t.kind == Identifier && t.value == if b then TRUE else FALSE
    case NullLiteral => t.kind == Identifier && t.value == NULL
  }

  // The tokens are an expression of at least this strength: 0 for conditionals, 1 to 6 for binary
  // operations, 7 for prefix operations.
  ghost predicate Derives(lang: Language, e: Expr, strength: nat, ts: seq<Token>)
    decreases |ts|, 1
  {
    InParentheses(lang, e, ts) || Bare(lang, e, strength, ts)
  }

  ghost predicate InParentheses(lang: Language, e: Expr, ts: seq<Token>)
    decreases |ts|, 0
  {
    && |ts| > 2 && Opens(ts[0], ['(' as int]) && ts[|ts| - 1].value == [')' as int]
    && Derives(lang, e, 0, ts[1..|ts| - 1])
  }

  ghost predicate Bare(lang: Language, e: Expr, strength: nat, ts: seq<Token>)
    decreases |ts|, 0
  {
    match e
    case Literal(v, offset) => |ts| == 1 && ts[0].offset == offset && IsLiteral(lang, v, ts[0])
    case Input(offset) =>
      |ts| == 1 && ts[0].offset == offset && ts[0].kind == Identifier && ts[0].value == lang.variableName
    case Array(elements, offset) =>
      && |ts| >= 2 && ts[0].offset == offset
      && Opens(ts[0], ['[' as int]) && ts[|ts| - 1].value == [']' as int]
      && AreElements(lang, elements, ts[1..|ts| - 1])
    case Object(entries, offset) =>
      && |ts| >= 2 && ts[0].offset == offset
      && Opens(ts[0], ['{' as int]) && ts[|ts| - 1].value == ['}' as int]
      && AreEntries(lang, entries, ts[1..|ts| - 1])
      && (forall i, j | 0 <= i < j < |entries| :: entries[i].key != entries[j].key)
    case Unary(op, operand, offset) =>
      && strength <= 7 && ts != [] && ts[0] == Token(Operator, op, offset, ts[0].end) && IsPrefix(op)
      && Derives(lang, operand, 7, ts[1..])
    case Binary(op, left, right, offset) =>
      && 0 < Strength(op) && strength <= Strength(op)
      && exists k | 0 <= k < |ts| ::
           && ts[k] == Token(Operator, op, offset, ts[k].end)
           && Derives(lang, left, Strength(op), ts[..k]) && Derives(lang, right, Strength(op) + 1, ts[k + 1..])
    case Conditional(c, t, f, offset) =>
      && strength == 0 && offset == c.offset
      && exists i, j | 0 <= i < j < |ts| ::
           && ts[i].value == ['?' as int] && ts[j].value == [':' as int]
           && Derives(lang, c, 1, ts[..i]) && Derives(lang, t, 0, ts[i + 1..j]) && Derives(lang, f, 0, ts[j + 1..])
  }

  // Separated by commas.
  ghost predicate AreElements(lang: Language, es: seq<Expr>, ts: seq<Token>)
    decreases |ts|, 2
  {
    if es == [] then ts == []
    else if |es| == 1 then Derives(lang, es[0], 0, ts)
    else
      var n := |es| - 1;
      exists k | 0 <= k < |ts| ::
        ts[k].value == [',' as int] && AreElements(lang, es[..n], ts[..k]) && Derives(lang, es[n], 0, ts[k + 1..])
  }

  ghost predicate IsEntry(lang: Language, entry: Entry, ts: seq<Token>)
    decreases |ts|, 2
  {
    && |ts| > 2 && ts[0] == Token(StringLiteral, entry.key, entry.offset, ts[0].end)
    && ts[1].value == [':' as int] && Derives(lang, entry.value, 0, ts[2..])
  }

  ghost predicate AreEntries(lang: Language, entries: seq<Entry>, ts: seq<Token>)
    decreases |ts|, 3
  {
    if entries == [] then ts == []
    else if |entries| == 1 then IsEntry(lang, entries[0], ts)
    else
      var n := |entries| - 1;
      exists k | 0 <= k < |ts| ::
        ts[k].value == [',' as int] && AreEntries(lang, entries[..n], ts[..k]) && IsEntry(lang, entries[n], ts[k + 1..])
  }

  // ---------------------------------------------------------------------------------------
  // The parser derives what it reads
  // ---------------------------------------------------------------------------------------

  // What was read is the front of the tokens, behind some that were read before.
  ghost predicate Taken(lang: Language, strength: nat, before: seq<Token>, ts: seq<Token>, r: Parsed) {
    r.Ok? ==>
      && |r.value.rest| <= |ts|
      && var n := |ts| - |r.value.rest|;
         r.value.rest == ts[n..] && Derives(lang, r.value.expr, strength, before + ts[..n])
  }

  lemma {:induction false} SomeToken(ts: seq<Token>)
    requires WellEnded(ts)
    ensures ts != []
  {
  }

  lemma {:induction false} BehindMark(ts: seq<Token>)
    requires WellEnded(ts) && (ts[0].value != [] || ts[0].kind != Eof)
    ensures |ts| >= 2 && WellEnded(ts[1..])
  {
  }

  lemma {:induction false} LooserToo(lang: Language, e: Expr, strength: nat, weaker: nat, ts: seq<Token>)
    requires Derives(lang, e, strength, ts) && weaker <= strength
    ensures Derives(lang, e, weaker, ts)
  {
  }

  // A front of the tokens behind another one.
  lemma {:induction false} Onwards(before: seq<Token>, ts: seq<Token>, m: nat, k: nat)
    requires m <= |ts| && k <= |ts| - m
    ensures ts[m..][k..] == ts[m + k..]
    ensures before + ts[..m] + ts[m..][..k] == before + ts[..m + k]
    ensures ts[..m] + ts[m..][..k] == ts[..m + k]
  {
  }

  lemma {:induction false} ParseDerives(lang: Language, level: nat, ts: seq<Token>)
    requires WellEnded(ts) && level <= PRIMARY_LEVEL
    ensures Taken(lang, level, [], ts, Parse(lang, level, ts))
    decreases |ts|, 20 - level
  {
    hide Derives;
    if level == CONDITIONAL_LEVEL {
      ConditionalDerives(lang, ts);
    } else if level == UNARY_LEVEL {
      UnaryDerives(lang, ts);
    } else if level == PRIMARY_LEVEL {
      PrimaryDerives(lang, PRIMARY_LEVEL, ts);
    } else {
      ParseDerives(lang, level + 1, ts);
      var first := Parse(lang, level + 1, ts);
      if first.Ok? {
        var n := |ts| - |first.value.rest|;
        assert [] + ts[..n] == ts[..n];
        LooserToo(lang, first.value.expr, level + 1, level, ts[..n]);
        BinaryTailDerives(lang, level, ts[..n], first.value.expr, ts[n..]);
        TakenBehind(lang, level, [], ts, n, BinaryTail(lang, level, first.value.expr, ts[n..]));
      }
    }
  }

  // What was read behind the first n tokens was read from all of them.
  lemma {:induction false} TakenBehind(lang: Language, strength: nat, before: seq<Token>, ts: seq<Token>, n: nat,
                                       r: Parsed)
    requires n <= |ts| && Taken(lang, strength, before + ts[..n], ts[n..], r)
    ensures Taken(lang, strength, before, ts, r)
  {
    hide Derives;
    if r.Ok? {
      Onwards(before, ts, n, |ts| - n - |r.value.rest|);
    }
  }

  // What was read behind a first token.
  lemma {:induction false} TakenAfter(lang: Language, strength: nat, ts: seq<Token>, k: nat, r: Parsed)
    requires k <= |ts| && Taken(lang, strength, [], ts[k..], r) && r.Ok?
    ensures k + |r.value.rest| <= |ts|
    ensures var n := |ts| - |r.value.rest|;
            r.value.rest == ts[n..] && Derives(lang, r.value.expr, strength, ts[k..n])
  {
    hide Derives;
    var n := |ts| - |r.value.rest|;
    assert ts[0..] == ts;
    assert ts[k..][n - k..] == ts[n..];
    assert [] + ts[k..][..n - k] == ts[k..n];
  }

  lemma {:induction false} ConditionalDerives(lang: Language, ts: seq<Token>)
    requires WellEnded(ts)
    ensures Taken(lang, 0, [], ts, ParseConditional(lang, ts))
    decreases |ts|, 20, 0
  {
    hide Derives, WellEnded, Parse, ConditionalTail;
    ParseDerives(lang, 1, ts);
    var c := Parse(lang, 1, ts);
    if c.Ok? {
      var n := |ts| - |c.value.rest|;
      assert [] + ts[..n] == ts[..n];
      ConditionalTailDerives(lang, ts[..n], c.value.expr, ts[n..]);
      TakenBehind(lang, 0, [], ts, n, ConditionalTail(lang, c.value.expr, ts[n..]));
    }
  }

  lemma {:induction false} ConditionalTailDerives(lang: Language, before: seq<Token>, condition: Expr, ts: seq<Token>)
    requires WellEnded(ts) && Derives(lang, condition, 1, before)
    ensures Taken(lang, 0, before, ts, ConditionalTail(lang, condition, ts))
    decreases |ts|, 0
  {
    hide Derives, WellEnded, Parse, ParseConditional;
    SomeToken(ts);
    if ts[0].value != QUESTION {
      LooserToo(lang, condition, 1, 0, before);
      assert before + ts[..0] == before;
    } else {
      BehindMark(ts);
      ConditionalDerives(lang, ts[1..]);
      var t := ParseConditional(lang, ts[1..]);
      if t.Ok? {
        SomeToken(t.value.rest);
        if t.value.rest[0].value == COLON {
          TakenAfter(lang, 0, ts, 1, t);
          BehindMark(t.value.rest);
          ConditionalDerives(lang, t.value.rest[1..]);
          var f := ParseConditional(lang, t.value.rest[1..]);
          if f.Ok? {
            BranchesTaken(lang, before, condition, t, f, ts);
          }
        }
      }
    }
  }

  lemma {:induction false} BranchesTaken(lang: Language, before: seq<Token>, c: Expr, t: Parsed, f: Parsed,
                                         ts: seq<Token>)
    requires t.Ok? && f.Ok? && |t.value.rest| < |ts| && t.value.rest != []
    requires var j := |ts| - |t.value.rest|; t.value.rest == ts[j..] && Derives(lang, t.value.expr, 0, ts[1..j])
    requires Taken(lang, 0, [], t.value.rest[1..], f)
    requires ts[0].value == QUESTION && t.value.rest[0].value == COLON && Derives(lang, c, 1, before)
    ensures Taken(lang, 0, before, ts, Ok(Got(Conditional(c, t.value.expr, f.value.expr, c.offset), f.value.rest)))
  {
    hide Derives;
    var j := |ts| - |t.value.rest|;
    assert t.value.rest[1..] == ts[j + 1..] && t.value.rest[0] == ts[j];
    TakenAfter(lang, 0, ts, j + 1, f);
    BranchesDerive(lang, before, c, t.value.expr, f.value.expr, ts, j, |ts| - |f.value.rest|);
  }

  lemma {:induction false} Between(before: seq<Token>, ts: seq<Token>, n: nat, i: nat, j: nat)
    requires i <= j <= n <= |ts|
    ensures (before + ts[..n])[|before| + i..|before| + j] == ts[i..j]
  {
  }

  lemma {:induction false} BranchesDerive(lang: Language, before: seq<Token>, c: Expr, t: Expr, f: Expr,
                                          ts: seq<Token>, j: nat, n: nat)
    requires 0 < j < n <= |ts| && ts[0].value == QUESTION && ts[j].value == COLON
    requires Derives(lang, c, 1, before) && Derives(lang, t, 0, ts[1..j]) && Derives(lang, f, 0, ts[j + 1..n])
    ensures Derives(lang, Conditional(c, t, f, c.offset), 0, before + ts[..n])
  {
    hide InParentheses, AreElements, AreEntries, IsLiteral, IsPrefix, Strength;
    var all, i := before + ts[..n], |before|;
    assert all[..i] == before && all[i] == ts[0] && all[i + j] == ts[j];
    Between(before, ts, n, 1, j);
    Between(before, ts, n, j + 1, n);
    assert all[i + j + 1..] == all[i + j + 1..i + n];
    assert Bare(lang, Conditional(c, t, f, c.offset), 0, all);
  }

  lemma {:induction false} OperatorsHaveStrength(level: nat, t: Token)
    requires Continues(level, t)
    ensures t.kind == Operator && Strength(t.value) == level > 0
  {
  }

  lemma {:induction false} BinaryTailDerives(lang: Language, level: nat, before: seq<Token>, left: Expr, ts: seq<Token>)
    requires WellEnded(ts) && 1 <= level < UNARY_LEVEL && Derives(lang, left, level, before)
    ensures Taken(lang, level, before, ts, BinaryTail(lang, level, left, ts))
    decreases |ts|, 0
  {
    hide Derives, WellEnded, Parse;
    SomeToken(ts);
    if !Continues(level, ts[0]) {
      assert before + ts[..0] == before;
    } else {
      BehindMark(ts);
      ParseDerives(lang, level + 1, ts[1..]);
      var right := Parse(lang, level + 1, ts[1..]);
      if right.Ok? {
        TakenAfter(lang, level + 1, ts, 1, right);
        var n := |ts| - |right.value.rest|;
        var e := Binary(ts[0].value, left, right.value.expr, ts[0].offset);
        assert ts[..n][1..] == ts[1..n];
        OperationDerives(lang, level, before, e, ts[..n]);
        BinaryTailDerives(lang, level, before + ts[..n], e, ts[n..]);
        TakenBehind(lang, level, before, ts, n, BinaryTail(lang, level, e, ts[n..]));
      }
    }
  }

  lemma {:induction false} OperationDerives(lang: Language, level: nat, before: seq<Token>, e: Expr, ts: seq<Token>)
    requires ts != [] && Continues(level, ts[0]) && e.Binary? && e.operator == ts[0].value && e.offset == ts[0].offset
    requires Derives(lang, e.left, level, before) && Derives(lang, e.right, level + 1, ts[1..])
    ensures Derives(lang, e, level, before + ts)
  {
    OperatorsHaveStrength(level, ts[0]);
    var all, k := before + ts, |before|;
    assert all[..k] == before && all[k] == ts[0] && all[k + 1..] == ts[1..];
    assert Bare(lang, e, level, all);
  }

  lemma {:induction false} UnaryDerives(lang: Language, ts: seq<Token>)
    requires WellEnded(ts)
    ensures Taken(lang, UNARY_LEVEL, [], ts, ParseUnary(lang, ts))
    decreases |ts|, 12, 1
  {
    hide Derives;
    if ts[0].kind == Operator && IsUnaryOperator(ts[0].value) {
      TailIsWellEnded(ts);
      UnaryDerives(lang, ts[1..]);
      var operand := ParseUnary(lang, ts[1..]);
      if operand.Ok? {
        TakenAfter(lang, UNARY_LEVEL, ts, 1, operand);
        var n := |ts| - |operand.value.rest|;
        assert [] + ts[..n] == ts[..n] && ts[..n][1..] == ts[1..n];
        PrefixDerives(lang, operand.value.expr, ts[..n]);
      }
    } else {
      PrimaryDerives(lang, UNARY_LEVEL, ts);
    }
  }

  lemma {:induction false} PrefixDerives(lang: Language, operand: Expr, ts: seq<Token>)
    requires ts != [] && ts[0].kind == Operator && IsUnaryOperator(ts[0].value)
    requires Derives(lang, operand, 7, ts[1..])
    ensures Derives(lang, Unary(ts[0].value, operand, ts[0].offset), 7, ts)
  {
  }

  lemma {:induction false} PrimaryDerives(lang: Language, strength: nat, ts: seq<Token>)
    requires WellEnded(ts)
    ensures Taken(lang, strength, [], ts, ParsePrimary(lang, ts))
    decreases |ts|, 11, 1
  {
    hide Derives, WellEnded, ParseConditional, ParseArray, ParseObject, ParseIdentifier;
    SomeToken(ts);
    if ts[0].kind != Eof {
      BehindMark(ts);
      var t := ts[0];
      if t.kind == NumberLiteral || t.kind == StringLiteral || t.kind == Identifier {
        LeafDerives(lang, strength, ts);
      } else if t.value == OPEN_PAREN {
        ConditionalDerives(lang, ts[1..]);
        var inner := ParseConditional(lang, ts[1..]);
        if inner.Ok? {
          SomeToken(inner.value.rest);
        }
        if inner.Ok? && inner.value.rest[0].value == CLOSE_PAREN {
          BehindMark(inner.value.rest);
          ParenthesesDerive(lang, strength, ts, inner.value.expr, |ts| - |inner.value.rest|);
        }
      } else if t.value == OPEN_BRACKET {
        ArrayDerives(lang, strength, ts);
      } else if t.value == OPEN_BRACE {
        ObjectDerives(lang, strength, ts);
      }
    }
  }

  lemma {:induction false} LeafDerives(lang: Language, strength: nat, ts: seq<Token>)
    requires WellEnded(ts)
    requires ts[0].kind == NumberLiteral || ts[0].kind == StringLiteral || ts[0].kind == Identifier
    ensures Taken(lang, strength, [], ts, ParsePrimary(lang, ts))
  {
    assert [] + ts[..1] == [ts[0]];
  }

  lemma {:induction false} ParenthesesDerive(lang: Language, strength: nat, ts: seq<Token>, e: Expr, k: nat)
    requires 1 < k < |ts| && Opens(ts[0], OPEN_PAREN) && ts[k].value == CLOSE_PAREN
    requires Derives(lang, e, 0, [] + ts[1..][..k - 1])
    ensures Derives(lang, e, strength, [] + ts[..k + 1])
  {
    var all := ts[..k + 1];
    assert [] + all == all && all[1..k] == [] + ts[1..][..k - 1];
    assert InParentheses(lang, e, all);
  }

  // ---------------------------------------------------------------------------------------
  // Lists
  // ---------------------------------------------------------------------------------------

  // The elements before, each with its comma.
  ghost predicate ElementsSoFar(lang: Language, es: seq<Expr>, before: seq<Token>) {
    if es == [] then before == []
    else
      var n := |before| - 1;
      n >= 0 && before[n].value == COMMA && AreElements(lang, es, before[..n])
  }

  ghost predicate ArrayTaken(lang: Language, offset: nat, before: seq<Token>, ts: seq<Token>, r: Parsed) {
    r.Ok? ==>
      && |r.value.rest| < |ts|
      && var n := |ts| - |r.value.rest| - 1;
         && r.value.rest == ts[n + 1..] && ts[n].value == CLOSE_BRACKET
         && r.value.expr.Array? && r.value.expr.offset == offset
         && AreElements(lang, r.value.expr.elements, before + ts[..n])
  }

  lemma {:induction false} OneMoreElement(lang: Language, es: seq<Expr>, e: Expr, before: seq<Token>, ts: seq<Token>)
    requires ElementsSoFar(lang, es, before) && Derives(lang, e, 0, ts)
    ensures AreElements(lang, es + [e], before + ts)
  {
    if es == [] {
      assert before + ts == ts;
    } else {
      var k, all := |before| - 1, before + ts;
      assert (es + [e])[..|es|] == es;
      assert all[..k] == before[..k] && all[k] == before[k] && all[k + 1..] == ts;
    }
  }

  lemma {:induction false} ArrayDerives(lang: Language, strength: nat, ts: seq<Token>)
    requires WellEnded(ts) && Opens(ts[0], OPEN_BRACKET)
    ensures Taken(lang, strength, [], ts, ParsePrimary(lang, ts))
    decreases |ts|, 10
  {
    hide Derives, AreElements;
    TailIsWellEnded(ts);
    var r, offset := ParsePrimary(lang, ts), ts[0].offset;
    assert r == ParseArray(lang, offset, ts[1..]);
    if ts[1].value == CLOSE_BRACKET {
      TailIsWellEnded(ts[1..]);
      NoElements(lang);
      assert [] + ts[1..][..0] == [];
      BracketsDerive(lang, strength, ts, Array([], offset), 1);
    } else {
      ElementsDerive(lang, offset, [], [], ts[1..]);
      if r.Ok? {
        BracketsDerive(lang, strength, ts, r.value.expr, |ts| - |r.value.rest| - 1);
      }
    }
  }

  lemma {:induction false} NoElements(lang: Language)
    ensures AreElements(lang, [], []) && AreEntries(lang, [], [])
  {
  }

  lemma {:induction false} BracketsDerive(lang: Language, strength: nat, ts: seq<Token>, e: Expr, n: nat)
    requires 0 < n < |ts| && Opens(ts[0], OPEN_BRACKET) && ts[n].value == CLOSE_BRACKET
    requires e.Array? && e.offset == ts[0].offset && AreElements(lang, e.elements, [] + ts[1..][..n - 1])
    ensures Taken(lang, strength, [], ts, Ok(Got(e, ts[n + 1..])))
  {
    var all := ts[..n + 1];
    assert [] + all == all && all[1..n] == [] + ts[1..][..n - 1];
    assert Bare(lang, e, strength, all);
  }

  lemma {:induction false} ArrayBehind(lang: Language, offset: nat, before: seq<Token>, ts: seq<Token>, n: nat,
                                       r: Parsed)
    requires n <= |ts| && ArrayTaken(lang, offset, before + ts[..n], ts[n..], r)
    ensures ArrayTaken(lang, offset, before, ts, r)
  {
    hide AreElements;
    if r.Ok? {
      Onwards(before, ts, n, |ts| - n - |r.value.rest| - 1);
    }
  }

  // One element more, and its comma or the closing bracket.
  lemma {:induction false} OneMoreTaken(lang: Language, offset: nat, before: seq<Token>, es: seq<Expr>, e: Expr,
                                        ts: seq<Token>, n: nat)
    requires n < |ts| && ElementsSoFar(lang, es, before) && Derives(lang, e, 0, ts[..n])
    ensures ts[n].value == COMMA ==> ElementsSoFar(lang, es + [e], before + ts[..n + 1])
    ensures ts[n].value == CLOSE_BRACKET ==>
              ArrayTaken(lang, offset, before, ts, Ok(Got(Array(es + [e], offset), ts[n + 1..])))
  {
    hide Derives, AreElements;
    OneMoreElement(lang, es, e, before, ts[..n]);
    var before' := before + ts[..n + 1];
    assert before'[..|before'| - 1] == before + ts[..n] && before'[|before'| - 1] == ts[n];
  }

  lemma {:induction false} ElementsDerive(lang: Language, offset: nat, before: seq<Token>, es: seq<Expr>,
                                          ts: seq<Token>)
    requires WellEnded(ts) && ElementsSoFar(lang, es, before)
    ensures ArrayTaken(lang, offset, before, ts, ParseElements(lang, offset, es, ts))
    decreases |ts|, 21
  {
    hide Derives, AreElements, ParseConditional, WellEnded, ElementsSoFar;
    ConditionalDerives(lang, ts);
    var element := ParseConditional(lang, ts);
    if element.Ok? {
      TakenAfter(lang, 0, ts, 0, element);
      var n, rest, es' := |ts| - |element.value.rest|, element.value.rest, es + [element.value.expr];
      SomeToken(rest);
      assert rest[0] == ts[n] && rest[1..] == ts[n + 1..];
      OneMoreTaken(lang, offset, before, es, element.value.expr, ts, n);
      if rest[0].value == COMMA {
        BehindMark(rest);
        ElementsDerive(lang, offset, before + ts[..n + 1], es', ts[n + 1..]);
        ArrayBehind(lang, offset, before, ts, n + 1, ParseElements(lang, offset, es', ts[n + 1..]));
      }
    }
  }

  // The same for objects, whose keys are looked up among those before.
  ghost predicate DistinctKeys(entries: seq<Entry>) {
    forall i, j | 0 <= i < j < |entries| :: entries[i].key != entries[j].key
  }

  ghost predicate EntriesSoFar(lang: Language, entries: seq<Entry>, before: seq<Token>) {
    && DistinctKeys(entries)
    && if entries == [] then before == []
       else
         var n := |before| - 1;
         n >= 0 && before[n].value == COMMA && AreEntries(lang, entries, before[..n])
  }

  ghost predicate ObjectTaken(lang: Language, offset: nat, before: seq<Token>, ts: seq<Token>, r: Parsed) {
    r.Ok? ==>
      && |r.value.rest| < |ts|
      && var n := |ts| - |r.value.rest| - 1;
         && r.value.rest == ts[n + 1..] && ts[n].value == CLOSE_BRACE
         && r.value.expr.Object? && r.value.expr.offset == offset && DistinctKeys(r.value.expr.entries)
         && AreEntries(lang, r.value.expr.entries, before + ts[..n])
  }

  lemma {:induction false} OneMoreEntry(lang: Language, entries: seq<Entry>, entry: Entry, before: seq<Token>,
                                        ts: seq<Token>)
    requires EntriesSoFar(lang, entries, before) && IsEntry(lang, entry, ts) && !HasKey(entries, entry.key)
    ensures AreEntries(lang, entries + [entry], before + ts) && DistinctKeys(entries + [entry])
  {
    if entries == [] {
      assert before + ts == ts;
    } else {
      var k, all := |before| - 1, before + ts;
      assert (entries + [entry])[..|entries|] == entries;
      assert all[..k] == before[..k] && all[k] == before[k] && all[k + 1..] == ts;
    }
  }

  lemma {:induction false} ObjectDerives(lang: Language, strength: nat, ts: seq<Token>)
    requires WellEnded(ts) && Opens(ts[0], OPEN_BRACE)
    ensures Taken(lang, strength, [], ts, ParsePrimary(lang, ts))
    decreases |ts|, 10
  {
    hide Derives, AreEntries;
    TailIsWellEnded(ts);
    var r, offset := ParsePrimary(lang, ts), ts[0].offset;
    assert r == ParseObject(lang, offset, ts[1..]);
    if ts[1].value == CLOSE_BRACE {
      TailIsWellEnded(ts[1..]);
      NoElements(lang);
      assert [] + ts[1..][..0] == [];
      BracesDerive(lang, strength, ts, Object([], offset), 1);
    } else {
      EntriesDerive(lang, offset, [], [], ts[1..]);
      if r.Ok? {
        BracesDerive(lang, strength, ts, r.value.expr, |ts| - |r.value.rest| - 1);
      }
    }
  }

  lemma {:induction false} BracesDerive(lang: Language, strength: nat, ts: seq<Token>, e: Expr, n: nat)
    requires 0 < n < |ts| && Opens(ts[0], OPEN_BRACE) && ts[n].value == CLOSE_BRACE
    requires e.Object? && e.offset == ts[0].offset && DistinctKeys(e.entries)
    requires AreEntries(lang, e.entries, [] + ts[1..][..n - 1])
    ensures Taken(lang, strength, [], ts, Ok(Got(e, ts[n + 1..])))
  {
    var all := ts[..n + 1];
    assert [] + all == all && all[1..n] == [] + ts[1..][..n - 1];
    assert Bare(lang, e, strength, all);
  }

  ghost predicate EntryTaken(lang: Language, entries: seq<Entry>, ts: seq<Token>, r: Result<GotEntry, ParseError>) {
    r.Ok? ==>
      && |r.value.rest| <= |ts|
      && var n := |ts| - |r.value.rest|;
         && r.value.rest == ts[n..] && IsEntry(lang, r.value.entry, ts[..n])
         && !HasKey(entries, r.value.entry.key)
  }

  lemma {:induction false} EntryDerives(lang: Language, entries: seq<Entry>, ts: seq<Token>)
    requires WellEnded(ts)
    ensures EntryTaken(lang, entries, ts, ParseEntry(lang, entries, ts))
    decreases |ts|, 20, 1
  {
    hide Derives, HasKey, ParseConditional, WellEnded;
    SomeToken(ts);
    if ts[0].kind == StringLiteral {
      BehindMark(ts);
      if ts[1].value == COLON {
        BehindMark(ts[1..]);
        ConditionalDerives(lang, ts[1..][1..]);
        var value := ParseConditional(lang, ts[1..][1..]);
        if value.Ok? {
          assert ts[1..][1..] == ts[2..];
          TakenAfter(lang, 0, ts, 2, value);
          var n := |ts| - |value.value.rest|;
          assert ts[..n][2..] == ts[2..n];
        }
      }
    }
  }

  lemma {:induction false} ObjectBehind(lang: Language, offset: nat, before: seq<Token>, ts: seq<Token>, n: nat,
                                        r: Parsed)
    requires n <= |ts| && ObjectTaken(lang, offset, before + ts[..n], ts[n..], r)
    ensures ObjectTaken(lang, offset, before, ts, r)
  {
    hide AreEntries, DistinctKeys;
    if r.Ok? {
      Onwards(before, ts, n, |ts| - n - |r.value.rest| - 1);
    }
  }

  lemma {:induction false} EntriesDerive(lang: Language, offset: nat, before: seq<Token>, entries: seq<Entry>,
                                         ts: seq<Token>)
    requires WellEnded(ts) && EntriesSoFar(lang, entries, before)
    ensures ObjectTaken(lang, offset, before, ts, ParseEntries(lang, offset, entries, ts))
    decreases |ts|, 21
  {
    hide Derives, AreEntries, IsEntry, HasKey, ParseEntry, WellEnded;
    EntryDerives(lang, entries, ts);
    var got := ParseEntry(lang, entries, ts);
    if got.Ok? {
      var n, rest, entries' := |ts| - |got.value.rest|, got.value.rest, entries + [got.value.entry];
      OneMoreEntry(lang, entries, got.value.entry, before, ts[..n]);
      SomeToken(rest);
      if rest[0].value == COMMA {
        BehindMark(rest);
        var before' := before + ts[..n + 1];
        assert before'[..|before'| - 1] == before + ts[..n];
        EntriesDerive(lang, offset, before', entries', rest[1..]);
        assert rest[1..] == ts[n + 1..];
        ObjectBehind(lang, offset, before, ts, n + 1, ParseEntries(lang, offset, entries', rest[1..]));
      }
    }
  }

  // Whatever the parser accepts has a derivation from all the tokens before the end of the input.
  lemma {:induction false} OnlyDerivedIsRead(lang: Language, ts: seq<Token>)
    requires WellEnded(ts) && ParseAll(lang, ts).Ok?
    ensures Derives(lang, ParseAll(lang, ts).value, 0, ts[..|ts| - 1])
  {
    hide Derives;
    ConditionalDerives(lang, ts);
    var got := ParseConditional(lang, ts).value;
    var n := |ts| - |got.rest|;
    assert ts[n] == got.rest[0];
    assert [] + ts[..n] == ts[..n];
  }
}
