// The rules of restricted CEL.

module Rules {
  // The meaning of expressions, independent of the order in which the evaluator works.

  import opened CodeUnits
  import opened Wrappers
  import opened Json
  import opened Grammar
  import opened Evaluation

  // ---------------------------------------------------------------------------------------
  // Order
  // ---------------------------------------------------------------------------------------

  // No two numbers are below each other.
  ghost predicate Asymmetric(a: Arithmetic) {
    forall m, n :: a.less(m, n) ==> !a.less(n, m)
  }

  ghost predicate Comparable(x: Json, y: Json) {
    (x.Num? && y.Num?) || (x.Str? && y.Str?)
  }

  // Texts stand in dictionary order: one ends where the other goes on, or has a lower unit where
  // they first differ.
  ghost predicate Before(s: Text, t: Text) {
    exists i: nat | i <= |s| && i < |t| ::
      s[..i] == t[..i] && (i == |s| || s[i] < t[i])
  }

  ghost predicate Below(a: Arithmetic, x: Json, y: Json)
    requires Comparable(x, y)
  {
    if x.Num? then a.less(x.n, y.n) else Before(x.s, y.s)
  }

  lemma {:induction false} TextLessIsBefore(s: Text, t: Text)
    ensures TextLess(s, t) <==> Before(s, t)
  {
    forall i: nat | 0 < i <= |s| && i < |t| && s[..i] == t[..i] ensures s[0] == t[0] {
      assert s[0] == s[..i][0] && t[0] == t[..i][0];
    }
    if s != [] && t != [] && s[0] == t[0] {
      TextLessIsBefore(s[1..], t[1..]);
      if Before(s[1..], t[1..]) {
        var i: nat :| i <= |s[1..]| && i < |t[1..]| && s[1..][..i] == t[1..][..i]
          && (i == |s[1..]| || s[1..][i] < t[1..][i]);
        assert s[..i + 1] == [s[0]] + s[1..][..i] && t[..i + 1] == [t[0]] + t[1..][..i];
        assert Before(s, t);
      }
      if Before(s, t) {
        var i: nat :| i <= |s| && i < |t| && s[..i] == t[..i] && (i == |s| || s[i] < t[i]);
        assert i > 0;
        assert s[1..][..i - 1] == s[..i][1..] && t[1..][..i - 1] == t[..i][1..];
        assert Before(s[1..], t[1..]);
      }
    } else if t != [] && (s == [] || s[0] < t[0]) {
      assert s[..0] == t[..0];
      assert Before(s, t);
    }
  }

  // Of two texts exactly one of `<`, `==` and `>` holds.
  lemma {:induction false} TextsAreOrdered(s: Text, t: Text)
    ensures TextLess(s, t) ==> s != t && !TextLess(t, s)
    ensures TextLess(s, t) || s == t || TextLess(t, s)
  {
    if s != [] && t != [] && s[0] == t[0] {
      TextsAreOrdered(s[1..], t[1..]);
      assert s == [s[0]] + s[1..] && t == [t[0]] + t[1..];
    }
  }

  lemma {:induction false} TextOrderIsTransitive(s: Text, t: Text, u: Text)
    requires TextLess(s, t) && TextLess(t, u)
    ensures TextLess(s, u)
  {
    if s != [] && s[0] == t[0] && t[0] == u[0] {
      TextOrderIsTransitive(s[1..], t[1..], u[1..]);
    }
  }

  // ---------------------------------------------------------------------------------------
  // Rules
  // ---------------------------------------------------------------------------------------

  ghost predicate NumericRule(a: Arithmetic, op: Text, m: Number, n: Number, k: Number) {
    || (op == PLUS && k == a.add(m, n))
    || (op == MINUS && k == a.subtract(m, n))
    || (op == TIMES && k == a.multiply(m, n))
    || (op == DIVIDE && k == a.divide(m, n))
    || (op == REMAINDER && k == a.remainder(m, n))
  }

  ghost predicate OrderRule(a: Arithmetic, op: Text, x: Json, y: Json, b: bool)
    requires Comparable(x, y)
  {
    || (op == LESS && b == Below(a, x, y))
    || (op == GREATER && b == Below(a, y, x))
    || (op == LESS_EQUAL && b == !Below(a, y, x))
    || (op == GREATER_EQUAL && b == !Below(a, x, y))
  }

  // What an operator with two evaluated sides gives.
  ghost predicate OperatorRule(a: Arithmetic, op: Text, x: Json, y: Json, v: Json) {
    || (op == EQUAL && v == Bool(x == y))
    || (op == NOT_EQUAL && v == Bool(x != y))
    || (op == PLUS && x.Str? && y.Str? && v == Json.Str(x.s + y.s))
    || (x.Num? && y.Num? && v.Num? && a.safe(v.n) && NumericRule(a, op, x.n, y.n, v.n))
    || (Comparable(x, y) && v.Bool? && OrderRule(a, op, x, y, v.b))
  }

  ghost predicate UnaryRule(a: Arithmetic, op: Text, x: Json, v: Json) {
    if op == NOT then x.Bool? && v == Bool(!x.b)
    else x.Num? && v == Num(if op == MINUS then a.negate(x.n) else x.n) && a.safe(v.n)
  }

  ghost function KeysOf(entries: seq<Entry>): (keys: set<Text>) {
    set entry <- entries :: entry.key
  }

  ghost predicate LastOf(entries: seq<Entry>, i: nat)
    requires i < |entries|
  {
    forall j | i < j < |entries| :: entries[j].key != entries[i].key
  }

  // The expression can be given this value.
  ghost predicate Gives(a: Arithmetic, e: Expr, input: Json, v: Json)
    decreases e, 0
  {
    match e
    case Literal(value, _) => v == LiteralValue(value)
    case Input(_) => v == input
    case Array(elements, _) =>
      && v.Arr?
      && |v.items| == |elements|
      && forall i | 0 <= i < |elements| :: Gives(a, elements[i], input, v.items[i])
    case Object(entries, _) => v.Obj? && GivesMembers(a, entries, input, v.fields)
    case Unary(op, operand, _) => exists x :: Gives(a, operand, input, x) && UnaryRule(a, op, x, v)
    case Binary(op, left, right, _) =>
      if op == AND then
        || (Gives(a, left, input, Bool(false)) && v == Bool(false))
        || (Gives(a, left, input, Bool(true)) && v.Bool? && Gives(a, right, input, v))
      else if op == OR then
        || (Gives(a, left, input, Bool(true)) && v == Bool(true))
        || (Gives(a, left, input, Bool(false)) && v.Bool? && Gives(a, right, input, v))
      else
        exists x, y :: Gives(a, left, input, x) && Gives(a, right, input, y) && OperatorRule(a, op, x, y, v)
    case Conditional(c, t, f, _) =>
      || (Gives(a, c, input, Bool(true)) && Gives(a, t, input, v))
      || (Gives(a, c, input, Bool(false)) && Gives(a, f, input, v))
  }

  ghost predicate HasValue(a: Arithmetic, e: Expr, input: Json)
    decreases e, 1
  {
    exists v :: Gives(a, e, input, v)
  }

  // Every entry has a value, and the last entry with a key decides.
  ghost predicate GivesMembers(a: Arithmetic, entries: seq<Entry>, input: Json, fields: Fields)
    decreases entries
  {
    && fields.Keys == KeysOf(entries)
    && (forall i | 0 <= i < |entries| :: HasValue(a, entries[i].value, input))
    && (forall i | 0 <= i < |entries| && LastOf(entries, i) ::
          Gives(a, entries[i].value, input, fields[entries[i].key]))
  }

  // ---------------------------------------------------------------------------------------
  // The evaluator follows the rules
  // ---------------------------------------------------------------------------------------

  ghost predicate IsComparison(op: Text) {
    op == LESS || op == LESS_EQUAL || op == GREATER || op == GREATER_EQUAL
  }

  lemma {:induction false} ComparesByRule(a: Arithmetic, x: Json, y: Json, op: Text, offset: nat)
    requires Asymmetric(a) && IsComparison(op)
    ensures Compare(a, x, y, op, offset).Ok? <==> Comparable(x, y)
    ensures Comparable(x, y) ==>
              var r := Compare(a, x, y, op, offset).value; r.Bool? && OrderRule(a, op, x, y, r.b)
  {
    hide TextLess, Before;
    if x.Str? && y.Str? {
      TextLessIsBefore(x.s, y.s);
      TextLessIsBefore(y.s, x.s);
      TextsAreOrdered(x.s, y.s);
    }
  }

  lemma {:induction false} OperatesByRule(a: Arithmetic, x: Json, y: Json, e: Expr, v: Json)
    requires Asymmetric(a) && e.Binary?
    ensures Operate(a, x, y, e) == Ok(v) <==> OperatorRule(a, e.operator, x, y, v)
  {
    hide Operate, OperatorRule;
    if IsComparison(e.operator) {
      OrdersByRule(a, x, y, e, v);
    } else if x.Num? && y.Num? {
      CalculatesByRule(a, x, y, e, v);
    } else {
      EqualsByRule(a, x, y, e, v);
    }
  }

  lemma {:induction false} OrdersByRule(a: Arithmetic, x: Json, y: Json, e: Expr, v: Json)
    requires Asymmetric(a) && e.Binary? && IsComparison(e.operator)
    ensures Operate(a, x, y, e) == Ok(v) <==> OperatorRule(a, e.operator, x, y, v)
  {
    hide JsonEquals, Numeric, Compare, Below;
    ComparesByRule(a, x, y, e.operator, e.offset);
  }

  lemma {:induction false} CalculatesByRule(a: Arithmetic, x: Json, y: Json, e: Expr, v: Json)
    requires e.Binary? && !IsComparison(e.operator) && x.Num? && y.Num?
    ensures Operate(a, x, y, e) == Ok(v) <==> OperatorRule(a, e.operator, x, y, v)
  {
    hide JsonEquals, Compare, Below;
    EqualityIsStructural(x, y);
  }

  lemma {:induction false} EqualsByRule(a: Arithmetic, x: Json, y: Json, e: Expr, v: Json)
    requires e.Binary? && !IsComparison(e.operator) && !(x.Num? && y.Num?)
    ensures Operate(a, x, y, e) == Ok(v) <==> OperatorRule(a, e.operator, x, y, v)
  {
    hide JsonEquals, Compare, Below, NumericRule, Calculate;
    EqualityIsStructural(x, y);
  }

  // The evaluator gives a value exactly if the rules do, and then the same one.
  lemma {:induction false} EvaluatesByTheRules(a: Arithmetic, e: Expr, input: Json, v: Json)
    requires Asymmetric(a)
    ensures Evaluate(a, e, input) == Ok(v) <==> Gives(a, e, input, v)
    decreases e, 1
  {
    match e
    case Literal(_, _) =>
    case Input(_) =>
    case Array(elements, _) => ArraysByTheRules(a, e, input, v);
    case Object(entries, _) => ObjectsByTheRules(a, e, input, v);
    case Unary(op, operand, offset) =>
      forall x ensures Evaluate(a, operand, input) == Ok(x) <==> Gives(a, operand, input, x) {
        EvaluatesByTheRules(a, operand, input, x);
      }
    case Binary(_, _, _, _) => OperatorsByTheRules(a, e, input, v);
    case Conditional(c, t, f, _) =>
      forall x ensures Evaluate(a, c, input) == Ok(x) <==> Gives(a, c, input, x) {
        EvaluatesByTheRules(a, c, input, x);
      }
      EvaluatesByTheRules(a, t, input, v);
      EvaluatesByTheRules(a, f, input, v);
  }

  lemma {:induction false} OperatorsByTheRules(a: Arithmetic, e: Expr, input: Json, v: Json)
    requires Asymmetric(a) && e.Binary?
    ensures Evaluate(a, e, input) == Ok(v) <==> Gives(a, e, input, v)
    decreases e, 0
  {
    hide Operate, OperatorRule;
    forall x ensures Evaluate(a, e.left, input) == Ok(x) <==> Gives(a, e.left, input, x) {
      EvaluatesByTheRules(a, e.left, input, x);
    }
    forall x ensures Evaluate(a, e.right, input) == Ok(x) <==> Gives(a, e.right, input, x) {
      EvaluatesByTheRules(a, e.right, input, x);
    }
    forall x, y ensures Operate(a, x, y, e) == Ok(v) <==> OperatorRule(a, e.operator, x, y, v) {
      OperatesByRule(a, x, y, e, v);
    }
  }

  lemma {:induction false} ArraysByTheRules(a: Arithmetic, e: Expr, input: Json, v: Json)
    requires Asymmetric(a) && e.Array?
    ensures Evaluate(a, e, input) == Ok(v) <==> Gives(a, e, input, v)
    decreases e, 0
  {
    AllEvaluated(a, e.elements, input);
    forall i, x | 0 <= i < |e.elements|
      ensures Evaluate(a, e.elements[i], input) == Ok(x) <==> Gives(a, e.elements[i], input, x)
    {
      EvaluatesByTheRules(a, e.elements[i], input, x);
    }
    if Gives(a, e, input, v) {
      forall i | 0 <= i < |e.elements| ensures Evaluate(a, e.elements[i], input) == Ok(v.items[i]) {
        assert Gives(a, e.elements[i], input, v.items[i]);
      }
      assert EvaluateAll(a, e.elements, input).value == v.items;
    }
  }

  lemma {:induction false} AllEvaluated(a: Arithmetic, es: seq<Expr>, input: Json)
    ensures EvaluateAll(a, es, input).Ok? <==> forall i | 0 <= i < |es| :: Evaluate(a, es[i], input).Ok?
    ensures EvaluateAll(a, es, input).Ok? ==>
              var vs := EvaluateAll(a, es, input).value;
              |vs| == |es| && forall i | 0 <= i < |es| :: Evaluate(a, es[i], input) == Ok(vs[i])
  {
    if es != [] {
      AllEvaluated(a, es[1..], input);
      assert forall i | 1 <= i < |es| :: es[i] == es[1..][i - 1];
    }
  }

  // The keys are those of the entries, and the last entry with a key decides.
  ghost predicate DefinedBy(a: Arithmetic, es: seq<Entry>, input: Json, fields: Fields) {
    && fields.Keys == KeysOf(es)
    && forall i | 0 <= i < |es| && LastOf(es, i) :: Evaluate(a, es[i].value, input) == Ok(fields[es[i].key])
  }

  lemma {:induction false} KeysOfFirst(es: seq<Entry>)
    requires es != []
    ensures KeysOf(es) == {es[0].key} + KeysOf(es[1..])
  {
    assert es == [es[0]] + es[1..];
  }

  lemma {:induction false} FirstIsLastIfNew(es: seq<Entry>)
    requires es != []
    ensures LastOf(es, 0) <==> es[0].key !in KeysOf(es[1..])
  {
    assert forall j | 1 <= j < |es| :: es[j] == es[1..][j - 1];
  }

  lemma {:induction false} DefinedFirst(a: Arithmetic, es: seq<Entry>, input: Json, v: Json, more: Fields)
    requires es != [] && Evaluate(a, es[0].value, input) == Ok(v) && DefinedBy(a, es[1..], input, more)
    ensures DefinedBy(a, es, input, map[es[0].key := v] + more)
  {
    hide Evaluate, KeysOf;
    var fields := map[es[0].key := v] + more;
    KeysOfFirst(es);
    FirstIsLastIfNew(es);
    assert fields.Keys == KeysOf(es);
    forall i | 0 <= i < |es| ensures es[i].key in fields {
      KeyIsThere(es, i);
    }
    forall i | 0 <= i < |es| && LastOf(es, i) ensures Evaluate(a, es[i].value, input) == Ok(fields[es[i].key]) {
      if i > 0 {
        assert LastOf(es[1..], i - 1) && es[1..][i - 1] == es[i];
        assert es[i].key in more by { KeyIsThere(es[1..], i - 1); }
      }
    }
  }

  lemma {:induction false} KeyIsThere(es: seq<Entry>, i: nat)
    requires i < |es|
    ensures es[i].key in KeysOf(es)
  {
    assert es[i] in es;
  }

  lemma {:induction false} EntriesEvaluated(a: Arithmetic, es: seq<Entry>, input: Json)
    ensures EvaluateEntries(a, es, input).Ok? <==> forall i | 0 <= i < |es| :: Evaluate(a, es[i].value, input).Ok?
    ensures EvaluateEntries(a, es, input).Ok? ==> DefinedBy(a, es, input, EvaluateEntries(a, es, input).value)
  {
    hide Evaluate, LastOf;
    if es != [] {
      EntriesEvaluated(a, es[1..], input);
      assert forall i | 1 <= i < |es| :: es[i] == es[1..][i - 1];
      if EvaluateEntries(a, es, input).Ok? {
        DefinedFirst(a, es, input, Evaluate(a, es[0].value, input).value, EvaluateEntries(a, es[1..], input).value);
      }
    }
  }

  // Some last entry has each key of an entry.
  lemma {:induction false} SomeEntryIsLast(es: seq<Entry>, i: nat) returns (j: nat)
    requires i < |es|
    ensures i <= j < |es| && es[j].key == es[i].key && LastOf(es, j)
    decreases |es| - i
  {
    j := i;
    if !LastOf(es, i) {
      var k :| i < k < |es| && es[k].key == es[i].key;
      j := SomeEntryIsLast(es, k);
    }
  }

  lemma {:induction false} DefinedOnce(a: Arithmetic, es: seq<Entry>, input: Json, f: Fields, g: Fields)
    requires DefinedBy(a, es, input, f) && DefinedBy(a, es, input, g)
    ensures f == g
  {
    hide Evaluate;
    forall k | k in f ensures f[k] == g[k] {
      assert k in KeysOf(es);
      var i :| 0 <= i < |es| && es[i].key == k;
      var j := SomeEntryIsLast(es, i);
      assert Evaluate(a, es[j].value, input) == Ok(f[k]) && Evaluate(a, es[j].value, input) == Ok(g[k]);
    }
    assert f.Keys == g.Keys;
  }

  lemma {:induction false} ObjectsByTheRules(a: Arithmetic, e: Expr, input: Json, v: Json)
    requires Asymmetric(a) && e.Object?
    ensures Evaluate(a, e, input) == Ok(v) <==> Gives(a, e, input, v)
    decreases e, 0
  {
    var es := e.entries;
    forall i, x | 0 <= i < |es| ensures Evaluate(a, es[i].value, input) == Ok(x) <==> Gives(a, es[i].value, input, x) {
      EvaluatesByTheRules(a, es[i].value, input, x);
    }
    forall i | 0 <= i < |es| ensures Evaluate(a, es[i].value, input).Ok? <==> HasValue(a, es[i].value, input) {
      ValueIsEvaluated(a, es[i].value, input);
    }
    if v.Obj? {
      MembersByTheRules(a, es, input, v.fields);
    }
  }

  lemma {:induction false} SomeValue(a: Arithmetic, e: Expr, input: Json) returns (v: Json)
    requires HasValue(a, e, input)
    ensures Gives(a, e, input, v)
  {
    v :| Gives(a, e, input, v);
  }

  lemma {:induction false} ValueIsEvaluated(a: Arithmetic, e: Expr, input: Json)
    requires forall x :: Evaluate(a, e, input) == Ok(x) <==> Gives(a, e, input, x)
    ensures Evaluate(a, e, input).Ok? <==> HasValue(a, e, input)
  {
    var r := Evaluate(a, e, input);
    assert r.Ok? ==> Gives(a, e, input, r.value);
    if HasValue(a, e, input) {
      var v := SomeValue(a, e, input);
      assert r == Ok(v);
    }
  }

  lemma {:induction false} MembersByTheRules(a: Arithmetic, es: seq<Entry>, input: Json, fields: Fields)
    requires forall i, x | 0 <= i < |es| ::
               Evaluate(a, es[i].value, input) == Ok(x) <==> Gives(a, es[i].value, input, x)
    requires forall i | 0 <= i < |es| :: Evaluate(a, es[i].value, input).Ok? <==> HasValue(a, es[i].value, input)
    ensures EvaluateEntries(a, es, input) == Ok(fields) <==> GivesMembers(a, es, input, fields)
  {
    hide Evaluate, EvaluateEntries, KeysOf, LastOf;
    EntriesEvaluated(a, es, input);
    if GivesMembers(a, es, input, fields) {
      forall i | 0 <= i < |es| && LastOf(es, i)
        ensures es[i].key in fields && Evaluate(a, es[i].value, input) == Ok(fields[es[i].key])
      {
        KeyIsThere(es, i);
        assert Gives(a, es[i].value, input, fields[es[i].key]);
      }
      DefinedOnce(a, es, input, fields, EvaluateEntries(a, es, input).value);
    }
  }

  // ---------------------------------------------------------------------------------------
  // Consequences
  // ---------------------------------------------------------------------------------------

  lemma {:induction false} RulesGiveOneValue(a: Arithmetic, e: Expr, input: Json, v: Json, w: Json)
    requires Asymmetric(a) && Gives(a, e, input, v) && Gives(a, e, input, w)
    ensures v == w
  {
    EvaluatesByTheRules(a, e, input, v);
    EvaluatesByTheRules(a, e, input, w);
  }

  ghost predicate Holds(a: Arithmetic, op: Text, x: Json, y: Json) {
    OperatorRule(a, op, x, y, Bool(true))
  }

  // The numbers that JSON can carry are in one order, but for two zeros that are different numbers
  // on one level.
  ghost predicate OrderedButForZeros(a: Arithmetic, zero: Number, minusZero: Number) {
    && Asymmetric(a)
    && zero != minusZero && a.safe(zero) && a.safe(minusZero)
    && a.negate(zero) == minusZero
    && !a.less(zero, minusZero) && !a.less(minusZero, zero)
    && forall m, n | a.safe(m) && a.safe(n) && m != n && {m, n} != {zero, minusZero} :: a.less(m, n) || a.less(n, m)
  }

  ghost predicate ExactlyOne(p: bool, q: bool, r: bool) {
    (p && !q && !r) || (!p && q && !r) || (!p && !q && r)
  }

  // Of `<`, `==` and `>` exactly one holds, except between the two zeros.
  lemma {:induction false} ComparisonsExclude(a: Arithmetic, zero: Number, minusZero: Number, x: Json, y: Json)
    requires OrderedButForZeros(a, zero, minusZero)
    requires Comparable(x, y) && SafeValue(a, x) && SafeValue(a, y)
    ensures ExactlyOne(Holds(a, LESS, x, y), Holds(a, EQUAL, x, y), Holds(a, GREATER, x, y))
            <==> {x, y} != {Num(zero), Num(minusZero)}
  {
    hide Before, TextLess;
    if x.Str? {
      TextLessIsBefore(x.s, y.s);
      TextLessIsBefore(y.s, x.s);
      TextsAreOrdered(x.s, y.s);
      assert x in {x, y};
    } else {
      SamePairs(x.n, y.n, zero, minusZero);
    }
  }

  lemma {:induction false} SamePairs(m: Number, n: Number, zero: Number, minusZero: Number)
    requires zero != minusZero
    ensures {m, n} == {zero, minusZero} <==> (m == zero && n == minusZero) || (m == minusZero && n == zero)
    ensures {Num(m), Num(n)} == {Num(zero), Num(minusZero)} <==> {m, n} == {zero, minusZero}
  {
    if {m, n} == {zero, minusZero} {
      assert m in {zero, minusZero} && n in {zero, minusZero} && zero in {m, n} && minusZero in {m, n};
    }
    if {Num(m), Num(n)} == {Num(zero), Num(minusZero)} {
      assert Num(m) in {Num(zero), Num(minusZero)} && Num(n) in {Num(zero), Num(minusZero)};
      assert Num(zero) in {Num(m), Num(n)} && Num(minusZero) in {Num(m), Num(n)};
    }
  }

  // The expression `0 op -0`: neither less, equal nor greater, yet at most and at least.
  lemma {:induction false} ZeroAndItsNegative(a: Arithmetic, zero: Number, minusZero: Number, op: Text, input: Json)
    requires OrderedButForZeros(a, zero, minusZero)
    requires op == EQUAL || IsComparison(op)
    ensures var number := Literal(NumberValue(zero), 0);
            Evaluate(a, Binary(op, number, Unary(MINUS, number, 0), 0), input)
              == Ok(Bool(op == LESS_EQUAL || op == GREATER_EQUAL))
  {
    var number := Literal(NumberValue(zero), 0);
    assert Evaluate(a, Unary(MINUS, number, 0), input) == Ok(Num(minusZero));
  }
}
