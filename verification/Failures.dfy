// Where an evaluation fails.

module Failures {
  // The faults of restricted CEL as rules: which one is reported, and where, told from the values
  // that the other rules give to the parts.

  import opened CodeUnits
  import opened Wrappers
  import opened Json
  import opened Grammar
  import opened Evaluation
  import opened Rules

  predicate IsArithmetic(op: Text) {
    op == PLUS || op == MINUS || op == TIMES || op == DIVIDE || op == REMAINDER
  }

  ghost predicate UnaryFault(a: Arithmetic, op: Text, x: Json, offset: nat, error: EvalError) {
    if op == NOT then !x.Bool? && error == EvalError(BooleanRequired, offset)
    else if !x.Num? then error == EvalError(NumberRequired, offset)
    else !a.safe(if op == MINUS then a.negate(x.n) else x.n) && error == EvalError(UnsafeResult, offset)
  }

  // The left side is looked at before the right one, and the result last.
  ghost predicate OperatorFault(a: Arithmetic, e: Expr, x: Json, y: Json, error: EvalError)
    requires e.Binary?
  {
    var op := e.operator;
    if op == EQUAL || op == NOT_EQUAL then false
    else if IsComparison(op) then !Comparable(x, y) && error == EvalError(NotComparable, e.offset)
    else if !IsArithmetic(op) then error == EvalError(UnsupportedOperator(op), e.offset)
    else if op == PLUS && x.Str? && y.Str? then false
    else if !x.Num? then error == EvalError(NumberRequired, e.left.offset)
    else if !y.Num? then error == EvalError(NumberRequired, e.right.offset)
    else
      error == EvalError(UnsafeResult, e.offset) && exists k :: NumericRule(a, op, x.n, y.n, k) && !a.safe(k)
  }

  // A part of which a boolean is needed fails, or has another value.
  ghost predicate NoBoolean(a: Arithmetic, e: Expr, input: Json, error: EvalError)
    decreases e, 1
  {
    || Fails(a, e, input, error)
    || ((exists x :: Gives(a, e, input, x) && !x.Bool?) && error == EvalError(BooleanRequired, e.offset))
  }

  ghost predicate Fails(a: Arithmetic, e: Expr, input: Json, error: EvalError)
    decreases e, 0
  {
    match e
    case Literal(_, _) => false
    case Input(_) => false
    case Array(elements, _) =>
      exists i | 0 <= i < |elements| ::
        Fails(a, elements[i], input, error) && forall j | 0 <= j < i :: HasValue(a, elements[j], input)
    case Object(entries, _) =>
      exists i | 0 <= i < |entries| ::
        Fails(a, entries[i].value, input, error) && forall j | 0 <= j < i :: HasValue(a, entries[j].value, input)
    case Unary(op, operand, offset) =>
      || Fails(a, operand, input, error)
      || exists x :: Gives(a, operand, input, x) && UnaryFault(a, op, x, offset, error)
    case Binary(op, left, right, _) =>
      if op == AND || op == OR then
        || NoBoolean(a, left, input, error)
        || (Gives(a, left, input, Bool(op == AND)) && NoBoolean(a, right, input, error))
      else
        || Fails(a, left, input, error)
        || (HasValue(a, left, input) && Fails(a, right, input, error))
        || exists x, y :: Gives(a, left, input, x) && Gives(a, right, input, y) && OperatorFault(a, e, x, y, error)
    case Conditional(c, t, f, _) =>
      || NoBoolean(a, c, input, error)
      || (Gives(a, c, input, Bool(true)) && Fails(a, t, input, error))
      || (Gives(a, c, input, Bool(false)) && Fails(a, f, input, error))
  }

  // ---------------------------------------------------------------------------------------
  // The evaluator reports what the rules say
  // ---------------------------------------------------------------------------------------

  lemma {:induction false} OperatesByFault(a: Arithmetic, x: Json, y: Json, e: Expr, error: EvalError)
    requires e.Binary?
    ensures Operate(a, x, y, e) == Err(error) <==> OperatorFault(a, e, x, y, error)
  {
    hide TextLess, JsonEquals, Before, Below, OrderRule;
    var op := e.operator;
    if IsArithmetic(op) && x.Num? && y.Num? {
      assert NumericRule(a, op, x.n, y.n, Calculate(a, op, x.n, y.n));
    }
  }

  // A value by the rules is the value of the evaluator.
  lemma {:induction false} ValueByTheRules(a: Arithmetic, e: Expr, input: Json)
    requires Asymmetric(a)
    ensures forall x :: Evaluate(a, e, input) == Ok(x) <==> Gives(a, e, input, x)
    ensures Evaluate(a, e, input).Ok? <==> HasValue(a, e, input)
  {
    hide Gives, Evaluate;
    forall x ensures Evaluate(a, e, input) == Ok(x) <==> Gives(a, e, input, x) {
      EvaluatesByTheRules(a, e, input, x);
    }
    if Evaluate(a, e, input).Ok? {
      assert Gives(a, e, input, Evaluate(a, e, input).value);
    }
  }

  // The evaluator fails exactly if the rules say so, with the same error at the same place.
  lemma {:induction false} FailsByTheRules(a: Arithmetic, e: Expr, input: Json, error: EvalError)
    requires Asymmetric(a)
    ensures Evaluate(a, e, input) == Err(error) <==> Fails(a, e, input, error)
    decreases e, 2
  {
    match e
    case Literal(_, _) =>
    case Input(_) =>
    case Array(elements, _) => ArrayFails(a, e, input, error);
    case Object(entries, _) => ObjectFails(a, e, input, error);
    case Unary(_, operand, _) => UnaryFails(a, e, input, error);
    case Binary(op, _, _, _) =>
      if op == AND || op == OR {
        ConnectiveFails(a, e, input, error);
      } else {
        OperatorFails(a, e, input, error);
      }
    case Conditional(_, _, _, _) => ConditionalFails(a, e, input, error);
  }

  lemma {:induction false} UnaryFails(a: Arithmetic, e: Expr, input: Json, error: EvalError)
    requires Asymmetric(a) && e.Unary?
    ensures Evaluate(a, e, input) == Err(error) <==> Fails(a, e, input, error)
    decreases e, 1
  {
    hide Gives;
    FailsByTheRules(a, e.operand, input, error);
    ValueByTheRules(a, e.operand, input);
  }

  lemma {:induction false} NeedsBoolean(a: Arithmetic, e: Expr, input: Json, error: EvalError)
    requires Asymmetric(a)
    requires Evaluate(a, e, input) == Err(error) <==> Fails(a, e, input, error)
    ensures NoBoolean(a, e, input, error)
       <==> (match Evaluate(a, e, input)
             case Err(x) => x == error
             case Ok(v) => RequireBoolean(v, e.offset) == Err(error))
  {
    hide Gives, Evaluate, Fails;
    ValueByTheRules(a, e, input);
  }

  lemma {:induction false} ConnectiveFails(a: Arithmetic, e: Expr, input: Json, error: EvalError)
    requires Asymmetric(a) && e.Binary? && (e.operator == AND || e.operator == OR)
    ensures Evaluate(a, e, input) == Err(error) <==> Fails(a, e, input, error)
    decreases e, 1
  {
    hide Gives, NoBoolean;
    FailsByTheRules(a, e.left, input, error);
    FailsByTheRules(a, e.right, input, error);
    NeedsBoolean(a, e.left, input, error);
    NeedsBoolean(a, e.right, input, error);
    ValueByTheRules(a, e.left, input);
  }

  lemma {:induction false} OperatorFails(a: Arithmetic, e: Expr, input: Json, error: EvalError)
    requires Asymmetric(a) && e.Binary? && e.operator != AND && e.operator != OR
    ensures Evaluate(a, e, input) == Err(error) <==> Fails(a, e, input, error)
    decreases e, 1
  {
    hide Gives, Operate, OperatorFault, HasValue;
    FailsByTheRules(a, e.left, input, error);
    FailsByTheRules(a, e.right, input, error);
    ValueByTheRules(a, e.left, input);
    ValueByTheRules(a, e.right, input);
    forall x, y ensures Operate(a, x, y, e) == Err(error) <==> OperatorFault(a, e, x, y, error) {
      OperatesByFault(a, x, y, e, error);
    }
  }

  lemma {:induction false} ConditionalFails(a: Arithmetic, e: Expr, input: Json, error: EvalError)
    requires Asymmetric(a) && e.Conditional?
    ensures Evaluate(a, e, input) == Err(error) <==> Fails(a, e, input, error)
    decreases e, 1
  {
    hide Gives, NoBoolean;
    FailsByTheRules(a, e.condition, input, error);
    FailsByTheRules(a, e.whenTrue, input, error);
    FailsByTheRules(a, e.whenFalse, input, error);
    NeedsBoolean(a, e.condition, input, error);
    ValueByTheRules(a, e.condition, input);
  }

  // The first part that fails.
  ghost predicate FirstFails(a: Arithmetic, es: seq<Expr>, input: Json, error: EvalError) {
    exists i | 0 <= i < |es| ::
      Evaluate(a, es[i], input) == Err(error) && forall j | 0 <= j < i :: Evaluate(a, es[j], input).Ok?
  }

  lemma {:induction false} FirstOfMore(a: Arithmetic, es: seq<Expr>, input: Json, error: EvalError)
    requires es != []
    ensures FirstFails(a, es, input, error)
       <==> Evaluate(a, es[0], input) == Err(error)
            || (Evaluate(a, es[0], input).Ok? && FirstFails(a, es[1..], input, error))
  {
    hide Evaluate;
    if FirstFails(a, es, input, error) {
      var i :| 0 <= i < |es| && Evaluate(a, es[i], input) == Err(error)
        && forall j | 0 <= j < i :: Evaluate(a, es[j], input).Ok?;
      if i > 0 {
        assert es[1..][i - 1] == es[i];
      }
    }
    if Evaluate(a, es[0], input).Ok? && FirstFails(a, es[1..], input, error) {
      var i :| 0 <= i < |es[1..]| && Evaluate(a, es[1..][i], input) == Err(error)
        && forall j | 0 <= j < i :: Evaluate(a, es[1..][j], input).Ok?;
      assert es[i + 1] == es[1..][i];
      forall j | 0 <= j < i + 1 ensures Evaluate(a, es[j], input).Ok? {
        assert j > 0 ==> es[j] == es[1..][j - 1];
      }
    }
  }

  lemma {:induction false} AllFail(a: Arithmetic, es: seq<Expr>, input: Json, error: EvalError)
    ensures EvaluateAll(a, es, input) == Err(error) <==> FirstFails(a, es, input, error)
  {
    if es != [] {
      FirstOfMore(a, es, input, error);
      AllFail(a, es[1..], input, error);
    }
  }

  function ValuesOf(entries: seq<Entry>): (es: seq<Expr>)
    ensures |es| == |entries|
    ensures forall i | 0 <= i < |entries| :: es[i] == entries[i].value
  {
    if entries == [] then [] else [entries[0].value] + ValuesOf(entries[1..])
  }

  lemma {:induction false} EntriesFail(a: Arithmetic, entries: seq<Entry>, input: Json, error: EvalError)
    ensures EvaluateEntries(a, entries, input) == Err(error) <==> FirstFails(a, ValuesOf(entries), input, error)
  {
    if entries != [] {
      FirstOfMore(a, ValuesOf(entries), input, error);
      EntriesFail(a, entries[1..], input, error);
      assert ValuesOf(entries)[1..] == ValuesOf(entries[1..]);
    }
  }

  lemma {:induction false} ArrayFails(a: Arithmetic, e: Expr, input: Json, error: EvalError)
    requires Asymmetric(a) && e.Array?
    ensures Evaluate(a, e, input) == Err(error) <==> Fails(a, e, input, error)
    decreases e, 1
  {
    hide Gives, HasValue, EvaluateAll;
    AllFail(a, e.elements, input, error);
    forall i | 0 <= i < |e.elements|
      ensures Evaluate(a, e.elements[i], input) == Err(error) <==> Fails(a, e.elements[i], input, error)
      ensures Evaluate(a, e.elements[i], input).Ok? <==> HasValue(a, e.elements[i], input)
    {
      FailsByTheRules(a, e.elements[i], input, error);
      ValueByTheRules(a, e.elements[i], input);
    }
  }

  lemma {:induction false} ObjectFails(a: Arithmetic, e: Expr, input: Json, error: EvalError)
    requires Asymmetric(a) && e.Object?
    ensures Evaluate(a, e, input) == Err(error) <==> Fails(a, e, input, error)
    decreases e, 1
  {
    hide Gives, HasValue, EvaluateEntries;
    EntriesFail(a, e.entries, input, error);
    var es := ValuesOf(e.entries);
    forall i | 0 <= i < |es|
      ensures Evaluate(a, es[i], input) == Err(error) <==> Fails(a, es[i], input, error)
      ensures Evaluate(a, es[i], input).Ok? <==> HasValue(a, es[i], input)
    {
      FailsByTheRules(a, e.entries[i].value, input, error);
      ValueByTheRules(a, e.entries[i].value, input);
    }
  }

  // A run fails on an input that is neither a text nor a number that JSON can carry, and else as its
  // expression does.
  lemma {:induction false} RunsFailByTheRules(a: Arithmetic, e: Expr, input: Json, error: EvalError)
    requires Asymmetric(a)
    ensures EvaluateRestricted(a, e, input) == Err(error)
       <==> if !input.Str? && !input.Num? then error == EvalError(InputNotScalar, e.offset)
            else if input.Num? && !a.safe(input.n) then error == EvalError(UnsafeResult, e.offset)
            else Fails(a, e, input, error)
  {
    hide Evaluate, Fails;
    FailsByTheRules(a, e, input, error);
  }
}
