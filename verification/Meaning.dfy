// What is read back means what was written.

module Meaning {
  // The value of an expression does not depend on where its parts stand in the source text.

  import opened Wrappers
  import opened Json
  import opened Grammar
  import opened Printing
  import opened RoundTrip
  import opened RoundTripLimits
  import opened Evaluation
  import opened Tokenizer
  import opened CodeUnits
  import C = Compilation

  // The same value, or both fail.
  ghost predicate SameOutcome<T, E, F>(r: Result<T, E>, s: Result<T, F>) {
    match r
    case Ok(v) => s == Ok(v)
    case Err(_) => s.Err?
  }

  lemma {:induction false} ShapeDecidesValue(a: Arithmetic, e: Expr, f: Expr, input: Json)
    requires Shape(e) == Shape(f)
    ensures SameOutcome(Evaluate(a, e, input), Evaluate(a, f, input))
    decreases e, 1
  {
    match e
    case Literal(_, _) =>
    case Input(_) =>
    case Array(elements, _) => ShapesDecideValues(a, elements, f.elements, input);
    case Object(entries, _) => ShapesDecideMembers(a, entries, f.entries, input);
    case Unary(_, operand, _) => ShapeDecidesValue(a, operand, f.operand, input);
    case Binary(_, _, _, _) => ShapeDecidesBinary(a, e, f, input);
    case Conditional(_, _, _, _) => ShapeDecidesConditional(a, e, f, input);
  }

  lemma {:induction false} ShapeDecidesBinary(a: Arithmetic, e: Expr, f: Expr, input: Json)
    requires Shape(e) == Shape(f) && e.Binary?
    ensures SameOutcome(Evaluate(a, e, input), Evaluate(a, f, input))
    decreases e, 0
  {
    hide Operate;
    ShapeDecidesValue(a, e.left, f.left, input);
    ShapeDecidesValue(a, e.right, f.right, input);
    var left, right := Evaluate(a, e.left, input), Evaluate(a, e.right, input);
    if left.Ok? && right.Ok? {
      SameOperation(a, left.value, right.value, e, f);
    }
  }

  lemma {:induction false} SameOperation(a: Arithmetic, left: Json, right: Json, e: Expr, f: Expr)
    requires e.Binary? && f.Binary? && e.operator == f.operator
    ensures SameOutcome(Operate(a, left, right, e), Operate(a, left, right, f))
  {
    hide JsonEquals, Calculate, TextLess;
  }

  lemma {:induction false} ShapeDecidesConditional(a: Arithmetic, e: Expr, f: Expr, input: Json)
    requires Shape(e) == Shape(f) && e.Conditional?
    ensures SameOutcome(Evaluate(a, e, input), Evaluate(a, f, input))
    decreases e, 0
  {
    ShapeDecidesValue(a, e.condition, f.condition, input);
    ShapeDecidesValue(a, e.whenTrue, f.whenTrue, input);
    ShapeDecidesValue(a, e.whenFalse, f.whenFalse, input);
  }

  lemma {:induction false} ShapesDecideValues(a: Arithmetic, es: seq<Expr>, fs: seq<Expr>, input: Json)
    requires ShapeAll(es) == ShapeAll(fs)
    ensures SameOutcome(EvaluateAll(a, es, input), EvaluateAll(a, fs, input))
    decreases es, 2
  {
    assert |ShapeAll(es)| == |es| && |ShapeAll(fs)| == |fs|;
    if es != [] {
      assert ShapeAll(es)[0] == Shape(es[0]) && ShapeAll(fs)[0] == Shape(fs[0]);
      assert ShapeAll(es)[1..] == ShapeAll(es[1..]) && ShapeAll(fs)[1..] == ShapeAll(fs[1..]);
      ShapeDecidesValue(a, es[0], fs[0], input);
      ShapesDecideValues(a, es[1..], fs[1..], input);
    }
  }

  lemma {:induction false} ShapesDecideMembers(a: Arithmetic, es: seq<Entry>, fs: seq<Entry>, input: Json)
    requires ShapeEntries(es) == ShapeEntries(fs)
    ensures SameOutcome(EvaluateEntries(a, es, input), EvaluateEntries(a, fs, input))
    decreases es, 2
  {
    assert |ShapeEntries(es)| == |es| && |ShapeEntries(fs)| == |fs|;
    if es != [] {
      assert ShapeEntries(es)[0] == Entry(es[0].key, Shape(es[0].value), 0);
      assert ShapeEntries(fs)[0] == Entry(fs[0].key, Shape(fs[0].value), 0);
      assert ShapeEntries(es)[1..] == ShapeEntries(es[1..]) && ShapeEntries(fs)[1..] == ShapeEntries(fs[1..]);
      ShapeDecidesValue(a, es[0].value, fs[0].value, input);
      ShapesDecideMembers(a, es[1..], fs[1..], input);
    }
  }

  // What is read back evaluates as what was written, for every input.
  lemma {:induction false} WrittenMeansTheSame(pr: Printer, a: Arithmetic, e: Expr, input: Json)
    requires GoodLanguage(pr.lang) && Printable(pr, e) && PlainStarts(pr, e)
    ensures var r := Read(pr.lang, Render(Print(pr, e, 0)));
            r.Ok? && SameOutcome(Evaluate(a, r.value, input), Evaluate(a, e, input))
  {
    WrittenIsRead(pr, e);
    ShapeDecidesValue(a, Read(pr.lang, Render(Print(pr, e, 0))).value, e, input);
  }

  // The language of either option map is one that can be written and read back.
  lemma {:induction false} BothLanguagesAreGood(nums: C.Numbers, name: C.Name)
    ensures GoodLanguage(C.LanguageOf(nums, name))
  {
    hide WordLength, IsWordStart;
    match name
    case ReasoningLevel => ReasoningLevelIsAName();
    case MaxOutputTokens => MaxOutputTokensIsAName();
  }

  lemma {:induction false} ReasoningLevelIsAName()
    ensures IsName(C.NameText(C.ReasoningLevel))
  {
    AllPartsOfAWord(C.NameText(C.ReasoningLevel));
  }

  lemma {:induction false} MaxOutputTokensIsAName()
    ensures IsName(C.NameText(C.MaxOutputTokens))
  {
    AllPartsOfAWord(C.NameText(C.MaxOutputTokens));
  }

  lemma {:induction false} AllPartsOfAWord(text: Text)
    requires forall c <- text :: IsWordPart(c)
    ensures WordLength(text) == |text|
  {
    if text != [] {
      AllPartsOfAWord(text[1..]);
    }
  }
}
