// packages/model-option-map/src/evaluator.ts: the value of an expression.

module Evaluation {
  import opened CodeUnits
  import opened Wrappers
  import opened Json
  import opened Grammar

  datatype Reason =
    | BooleanRequired
    | NumberRequired
    | UnsafeResult
    | NotComparable
    | UnsupportedOperator(operator: Text)
    | InputNotScalar

  datatype EvalError = EvalError(reason: Reason, offset: nat)

  // What numbers do. Two numbers are equal here if Object.is tells them apart by nothing.
  datatype Arithmetic = Arithmetic(
    safe: Number -> bool,
    negate: Number -> Number,
    add: (Number, Number) -> Number,
    subtract: (Number, Number) -> Number,
    multiply: (Number, Number) -> Number,
    divide: (Number, Number) -> Number,
    remainder: (Number, Number) -> Number,
    less: (Number, Number) -> bool)

  type Evaluated = Result<Json, EvalError>

  // ---------------------------------------------------------------------------------------
  // Operators
  // ---------------------------------------------------------------------------------------

  function RequireBoolean(v: Json, offset: nat): (r: Result<bool, EvalError>) {
    if v.Bool? then Ok(v.b) else Err(EvalError(BooleanRequired, offset))
  }

  function RequireNumber(v: Json, offset: nat): (r: Result<Number, EvalError>) {
    if v.Num? then Ok(v.n) else Err(EvalError(NumberRequired, offset))
  }

  function AssertNumber(a: Arithmetic, n: Number, offset: nat): (r: Evaluated) {
    if a.safe(n) then Ok(Num(n)) else Err(EvalError(UnsafeResult, offset))
  }

  // Strings compare by their code units.
  predicate TextLess(s: Text, t: Text) {
    t != [] && (s == [] || s[0] < t[0] || (s[0] == t[0] && TextLess(s[1..], t[1..])))
  }

  predicate JsonEquals(left: Json, right: Json)
    decreases left
  {
    if left.Arr? || right.Arr? then
      && left.Arr? && right.Arr?
      && |left.items| == |right.items|
      && forall i | 0 <= i < |left.items| :: JsonEquals(left.items[i], right.items[i])
    else if left.Obj? && right.Obj? then
      && |left.fields.Keys| == |right.fields.Keys|
      && forall k | k in left.fields :: k in right.fields && JsonEquals(left.fields[k], right.fields[k])
    else
      left == right
  }

  function Compare(a: Arithmetic, left: Json, right: Json, op: Text, offset: nat): (r: Evaluated) {
    if !(left.Num? && right.Num?) && !(left.Str? && right.Str?) then Err(EvalError(NotComparable, offset)) else
    var below := if left.Num? then a.less(left.n, right.n) else TextLess(left.s, right.s);
    var above := if left.Num? then a.less(right.n, left.n) else TextLess(right.s, left.s);
    var comparison := if below then -1 else if above then 1 else 0;
    Ok(Bool(
      if op == LESS then comparison < 0
      else if op == LESS_EQUAL then comparison <= 0
      else if op == GREATER then comparison > 0
      else comparison >= 0))
  }

  function Calculate(a: Arithmetic, op: Text, m: Number, n: Number): (r: Number) {
    if op == PLUS then a.add(m, n)
    else if op == MINUS then a.subtract(m, n)
    else if op == TIMES then a.multiply(m, n)
    else if op == DIVIDE then a.divide(m, n)
    else a.remainder(m, n)
  }

  function Numeric(a: Arithmetic, left: Json, right: Json, e: Expr): (r: Evaluated)
    requires e.Binary?
  {
    match RequireNumber(left, e.left.offset)
    case Err(error) => Err(error)
    case Ok(m) =>
      match RequireNumber(right, e.right.offset)
      case Err(error) => Err(error)
      case Ok(n) => AssertNumber(a, Calculate(a, e.operator, m, n), e.offset)
  }

  // Every operator but the two that may skip their right side.
  function Operate(a: Arithmetic, left: Json, right: Json, e: Expr): (r: Evaluated)
    requires e.Binary?
  {
    var op := e.operator;
    if op == EQUAL then Ok(Bool(JsonEquals(left, right)))
    else if op == NOT_EQUAL then Ok(Bool(!JsonEquals(left, right)))
    else if op == PLUS && left.Str? && right.Str? then Ok(Json.Str(left.s + right.s))
    else if op == PLUS || op == MINUS || op == TIMES || op == DIVIDE || op == REMAINDER then Numeric(a, left, right, e)
    else if op == LESS || op == LESS_EQUAL || op == GREATER || op == GREATER_EQUAL then
      Compare(a, left, right, op, e.offset)
    else Err(EvalError(UnsupportedOperator(op), e.offset))
  }

  function EvaluateUnary(a: Arithmetic, op: Text, operand: Json, offset: nat): (r: Evaluated) {
    if op == NOT then
      match RequireBoolean(operand, offset)
      case Err(error) => Err(error)
      case Ok(b) => Ok(Bool(!b))
    else
      match RequireNumber(operand, offset)
      case Err(error) => Err(error)
      case Ok(n) => AssertNumber(a, if op == MINUS then a.negate(n) else n, offset)
  }

  // ---------------------------------------------------------------------------------------
  // Expressions
  // ---------------------------------------------------------------------------------------

  function LiteralValue(v: Grammar.Literal): (j: Json) {
    match v
    case TextLiteral(text) => Json.Str(text)
    case NumberValue(n) => Num(n)
    case BoolLiteral(b) => Bool(b)
    case NullLiteral => Null
  }

  function Evaluate(a: Arithmetic, e: Expr, input: Json): (r: Evaluated)
    decreases e
  {
    match e
    case Literal(value, _) => Ok(LiteralValue(value))
    case Input(_) => Ok(input)
    case Array(elements, _) =>
      (match EvaluateAll(a, elements, input)
       case Err(error) => Err(error)
       case Ok(items) => Ok(Arr(items)))
    case Object(entries, _) =>
      (match EvaluateEntries(a, entries, input)
       case Err(error) => Err(error)
       case Ok(fields) => Ok(Obj(fields)))
    case Unary(op, operand, offset) =>
      (match Evaluate(a, operand, input)
       case Err(error) => Err(error)
       case Ok(v) => EvaluateUnary(a, op, v, offset))
    case Binary(op, left, right, _) =>
      (match Evaluate(a, left, input)
       case Err(error) => Err(error)
       case Ok(l) =>
         if op == AND || op == OR then
           match RequireBoolean(l, left.offset)
           case Err(error) => Err(error)
           case Ok(b) =>
             if b == (op == OR) then Ok(Bool(b))
             else
               match Evaluate(a, right, input)
               case Err(error) => Err(error)
               case Ok(v) =>
                 match RequireBoolean(v, right.offset)
                 case Err(error) => Err(error)
                 case Ok(c) => Ok(Bool(c))
         else
           match Evaluate(a, right, input)
           case Err(error) => Err(error)
           case Ok(v) => Operate(a, l, v, e))
    case Conditional(c, t, f, _) =>
      (match Evaluate(a, c, input)
       case Err(error) => Err(error)
       case Ok(v) =>
         match RequireBoolean(v, c.offset)
         case Err(error) => Err(error)
         case Ok(b) => if b then Evaluate(a, t, input) else Evaluate(a, f, input))
  }

  function EvaluateAll(a: Arithmetic, es: seq<Expr>, input: Json): (r: Result<seq<Json>, EvalError>)
    decreases es
  {
    if es == [] then Ok([]) else
    match Evaluate(a, es[0], input)
    case Err(error) => Err(error)
    case Ok(v) =>
      match EvaluateAll(a, es[1..], input)
      case Err(error) => Err(error)
      case Ok(more) => Ok([v] + more)
  }

  // A later entry with the same key would take the place of an earlier one.
  function EvaluateEntries(a: Arithmetic, entries: seq<Entry>, input: Json): (r: Result<Fields, EvalError>)
    decreases entries
  {
    if entries == [] then Ok(map[]) else
    match Evaluate(a, entries[0].value, input)
    case Err(error) => Err(error)
    case Ok(v) =>
      match EvaluateEntries(a, entries[1..], input)
      case Err(error) => Err(error)
      case Ok(more) => Ok(map[entries[0].key := v] + more)
  }

  // Only texts and numbers that JSON can carry go in.
  function EvaluateRestricted(a: Arithmetic, e: Expr, input: Json): (r: Evaluated) {
    if input.Str? || (input.Num? && a.safe(input.n)) then Evaluate(a, e, input)
    else if input.Num? then Err(EvalError(UnsafeResult, e.offset))
    else Err(EvalError(InputNotScalar, e.offset))
  }

  // ---------------------------------------------------------------------------------------
  // Equality is structural
  // ---------------------------------------------------------------------------------------

  lemma {:induction false} SameSizeSameKeys(a: set<Text>, b: set<Text>)
    requires |a| == |b| && a <= b
    ensures a == b
  {
    if a != b {
      var k :| k in b && k !in a;
      assert a <= b - {k};
      SmallerSubset(a, b - {k});
    }
  }

  lemma {:induction false} SmallerSubset(a: set<Text>, b: set<Text>)
    requires a <= b
    ensures |a| <= |b|
    decreases a
  {
    if a != {} {
      var k :| k in a;
      SmallerSubset(a - {k}, b - {k});
    }
  }

  // Two values are equal exactly if they are the same value, whatever the order of their keys.
  lemma {:induction false} EqualityIsStructural(left: Json, right: Json)
    ensures JsonEquals(left, right) <==> left == right
    decreases left
  {
    if left.Arr? && right.Arr? && |left.items| == |right.items| {
      forall i | 0 <= i < |left.items|
        ensures JsonEquals(left.items[i], right.items[i]) <==> left.items[i] == right.items[i]
      {
        EqualityIsStructural(left.items[i], right.items[i]);
      }
    } else if left.Obj? && right.Obj? {
      forall k | k in left.fields && k in right.fields
        ensures JsonEquals(left.fields[k], right.fields[k]) <==> left.fields[k] == right.fields[k]
      {
        EqualityIsStructural(left.fields[k], right.fields[k]);
      }
      if JsonEquals(left, right) {
        SameSizeSameKeys(left.fields.Keys, right.fields.Keys);
      }
    }
  }

  // ---------------------------------------------------------------------------------------
  // Every number in a result can be carried by JSON
  // ---------------------------------------------------------------------------------------

  ghost predicate SafeValue(a: Arithmetic, v: Json) {
    match v
    case Num(n) => a.safe(n)
    case Arr(items) => forall x <- items :: SafeValue(a, x)
    case Obj(fields) => forall k | k in fields :: SafeValue(a, fields[k])
    case _ => true
  }

  ghost predicate SafeLiterals(a: Arithmetic, e: Expr) {
    match e
    case Literal(value, _) => value.NumberValue? ==> a.safe(value.n)
    case Input(_) => true
    case Array(elements, _) => forall x <- elements :: SafeLiterals(a, x)
    case Object(entries, _) => forall x <- entries :: SafeLiterals(a, x.value)
    case Unary(_, operand, _) => SafeLiterals(a, operand)
    case Binary(_, left, right, _) => SafeLiterals(a, left) && SafeLiterals(a, right)
    case Conditional(c, t, f, _) => SafeLiterals(a, c) && SafeLiterals(a, t) && SafeLiterals(a, f)
  }

  ghost predicate SafeResult(a: Arithmetic, r: Evaluated) {
    r.Ok? ==> SafeValue(a, r.value)
  }

  lemma {:induction false} ResultsAreSafe(a: Arithmetic, e: Expr, input: Json)
    requires SafeLiterals(a, e) && SafeValue(a, input)
    ensures SafeResult(a, Evaluate(a, e, input))
    decreases e
  {
    hide Operate, EvaluateUnary;
    match e
    case Literal(_, _) =>
    case Input(_) =>
    case Array(elements, _) => ItemsAreSafe(a, elements, input);
    case Object(entries, _) =>
      MembersAreSafe(a, entries, input);
      var fields := EvaluateEntries(a, entries, input);
      assert fields.Ok? ==> SafeValue(a, Obj(fields.value));
    case Unary(op, operand, offset) =>
      ResultsAreSafe(a, operand, input);
      forall v ensures SafeResult(a, EvaluateUnary(a, op, v, offset)) {
        UnaryIsSafe(a, op, v, offset);
      }
    case Binary(_, left, right, _) =>
      ResultsAreSafe(a, left, input);
      ResultsAreSafe(a, right, input);
      forall l, r ensures SafeResult(a, Operate(a, l, r, e)) {
        OperatorsAreSafe(a, l, r, e);
      }
    case Conditional(c, t, f, _) =>
      ResultsAreSafe(a, t, input);
      ResultsAreSafe(a, f, input);
  }

  lemma {:induction false} UnaryIsSafe(a: Arithmetic, op: Text, operand: Json, offset: nat)
    ensures SafeResult(a, EvaluateUnary(a, op, operand, offset))
  {
  }

  lemma {:induction false} OperatorsAreSafe(a: Arithmetic, left: Json, right: Json, e: Expr)
    requires e.Binary?
    ensures SafeResult(a, Operate(a, left, right, e))
  {
    hide JsonEquals, Calculate, TextLess;
  }

  lemma {:induction false} ItemsAreSafe(a: Arithmetic, es: seq<Expr>, input: Json)
    requires (forall x <- es :: SafeLiterals(a, x)) && SafeValue(a, input)
    ensures var r := EvaluateAll(a, es, input); r.Ok? ==> forall v <- r.value :: SafeValue(a, v)
    decreases es
  {
    if es != [] {
      ResultsAreSafe(a, es[0], input);
      ItemsAreSafe(a, es[1..], input);
    }
  }

  lemma {:induction false} MembersAreSafe(a: Arithmetic, entries: seq<Entry>, input: Json)
    requires (forall x <- entries :: SafeLiterals(a, x.value)) && SafeValue(a, input)
    ensures var r := EvaluateEntries(a, entries, input); r.Ok? ==> forall k | k in r.value :: SafeValue(a, r.value[k])
    decreases entries
  {
    if entries != [] {
      assert entries[0] in entries;
      ResultsAreSafe(a, entries[0].value, input);
      MembersAreSafe(a, entries[1..], input);
      var first, more := Evaluate(a, entries[0].value, input), EvaluateEntries(a, entries[1..], input);
      if first.Ok? && more.Ok? {
        var fields := map[entries[0].key := first.value] + more.value;
        assert EvaluateEntries(a, entries, input) == Ok(fields);
        forall k | k in fields ensures SafeValue(a, fields[k]) {
          assert fields[k] == if k in more.value then more.value[k] else first.value;
        }
      }
    }
  }

  // ---------------------------------------------------------------------------------------
  // Expressions that always give an object (packages/model-option-map/src/compiler.ts)
  // ---------------------------------------------------------------------------------------

  // The offset of the part that is no object literal, if there is one.
  function FirstNonObject(e: Expr): (offset: Option<nat>)
    decreases e
  {
    match e
    case Object(_, _) => None
    case Conditional(_, t, f, _) => if FirstNonObject(t).Some? then FirstNonObject(t) else FirstNonObject(f)
    case _ => Some(e.offset)
  }

  lemma {:induction false} ObjectExpressionsGiveObjects(a: Arithmetic, e: Expr, input: Json)
    requires FirstNonObject(e).None?
    ensures Evaluate(a, e, input).Ok? ==> Evaluate(a, e, input).value.Obj?
    decreases e
  {
    if e.Conditional? {
      ObjectExpressionsGiveObjects(a, e.whenTrue, input);
      ObjectExpressionsGiveObjects(a, e.whenFalse, input);
    }
  }

  // ---------------------------------------------------------------------------------------
  // The loops
  // ---------------------------------------------------------------------------------------

  lemma {:induction false} EntriesApart(a: Arithmetic, entries: seq<Entry>, i: nat, input: Json, before: Fields)
    requires i < |entries| && Evaluate(a, entries[i].value, input).Ok?
    requires EvaluateEntries(a, entries[i..], input).Ok?
    ensures EvaluateEntries(a, entries[i + 1..], input).Ok?
    ensures before + EvaluateEntries(a, entries[i..], input).value
              == before[entries[i].key := Evaluate(a, entries[i].value, input).value]
                + EvaluateEntries(a, entries[i + 1..], input).value
  {
    assert entries[i..][1..] == entries[i + 1..];
  }

  // The object case: members are defined one by one.
  method EvaluateObject(a: Arithmetic, entries: seq<Entry>, input: Json) returns (r: Result<Fields, EvalError>)
    ensures r == EvaluateEntries(a, entries, input)
  {
    var result: Fields := map[];
    ghost var whole := EvaluateEntries(a, entries, input);
    assert entries[0..] == entries;
    for i := 0 to |entries|
      invariant EvaluateEntries(a, entries[i..], input).Err? <==> whole.Err?
      invariant whole.Err? ==> EvaluateEntries(a, entries[i..], input) == whole
      invariant whole.Ok? ==> result + EvaluateEntries(a, entries[i..], input).value == whole.value
    {
      assert entries[i..][1..] == entries[i + 1..];
      var v := Evaluate(a, entries[i].value, input);
      if v.Err? {
        return Err(v.error);
      }
      if whole.Ok? {
        EntriesApart(a, entries, i, input, result);
      }
      result := result[entries[i].key := v.value];
    }
    assert entries[|entries|..] == [];
    assert result + map[] == result;
    return Ok(result);
  }
}
