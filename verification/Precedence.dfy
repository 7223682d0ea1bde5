// How tightly the operators bind.

module Precedence {
  // What an expression without parentheses means, by a table of its own: a chain of operands is
  // split at the last of its loosest operators.

  import opened CodeUnits
  import opened Wrappers
  import opened Tokenizer
  import opened Grammar
  import opened Printing
  import opened RoundTrip
  import opened RoundTripLimits

  // The binary operators, from the loosest to the tightest; 0 is no operator.
  function Strength(op: Text): (strength: nat) {
    if op == ['|' as int, '|' as int] then 1
    else if op == ['&' as int, '&' as int] then 2
    else if op == ['=' as int, '=' as int] || op == ['!' as int, '=' as int] then 3
    else if op == ['<' as int] || op == ['<' as int, '=' as int] then 4
    else if op == ['>' as int] || op == ['>' as int, '=' as int] then 4
    else if op == ['+' as int] || op == ['-' as int] then 5
    else if op == ['*' as int] || op == ['/' as int] || op == ['%' as int] then 6
    else 0
  }

  predicate IsPrefix(op: Text) {
    op == ['!' as int] || op == ['-' as int] || op == ['+' as int]
  }

  // `operands[0] operators[0] operands[1] ... `, each operand neither a binary operation nor a
  // conditional. An operand may begin with prefix operators.
  ghost predicate IsChain(pr: Printer, operands: seq<Expr>, operators: seq<Text>) {
    && |operands| == |operators| + 1
    && (forall op <- operators :: Strength(op) != 0)
    && forall e <- operands :: !e.Binary? && !e.Conditional? && Printable(pr, e) && PlainStarts(pr, e)
  }

  function Written(pr: Printer, operands: seq<Expr>, operators: seq<Text>): (ls: seq<Lexeme>)
    requires |operands| == |operators| + 1
  {
    if operators == [] then Print(pr, operands[0], 0)
    else
      var n := |operators| - 1;
      Written(pr, operands[..n + 1], operators[..n]) + [Lexeme(Operator, operators[n])] + Print(pr, operands[n + 1], 0)
  }

  // The last of the loosest operators.
  function Root(operators: seq<Text>): (k: nat)
    requires operators != []
    ensures k < |operators|
    ensures forall i | 0 <= i < k :: Strength(operators[k]) <= Strength(operators[i])
    ensures forall i | k < i < |operators| :: Strength(operators[k]) < Strength(operators[i])
  {
    var n := |operators| - 1;
    if n == 0 then 0
    else
      var k := Root(operators[..n]);
      if Strength(operators[n]) <= Strength(operators[k]) then n else k
  }

  function Tree(operands: seq<Expr>, operators: seq<Text>): (e: Expr)
    requires |operands| == |operators| + 1
    decreases |operators|
  {
    if operators == [] then operands[0]
    else
      var k := Root(operators);
      Binary(operators[k], Tree(operands[..k + 1], operators[..k]), Tree(operands[k + 1..], operators[k + 1..]), 0)
  }

  lemma {:induction false} StrengthIsLevel(op: Text)
    requires Strength(op) != 0
    ensures OperatorLevel(op) == Strength(op) && IsOperatorOf(OperatorLevel(op), op)
  {
  }

  // ---------------------------------------------------------------------------------------
  // Chains are written without parentheses
  // ---------------------------------------------------------------------------------------

  lemma {:induction false} WrittenApart(pr: Printer, operands: seq<Expr>, operators: seq<Text>, k: nat)
    requires |operands| == |operators| + 1 && k < |operators|
    ensures Written(pr, operands, operators)
         == Written(pr, operands[..k + 1], operators[..k]) + [Lexeme(Operator, operators[k])]
          + Written(pr, operands[k + 1..], operators[k + 1..])
  {
    hide Print;
    var n := |operators| - 1;
    if k == n {
      assert operands[k + 1..] == [operands[n + 1]];
    } else {
      var left := Written(pr, operands[..k + 1], operators[..k]);
      var rightOnes, rightOps := operands[k + 1..], operators[k + 1..];
      WrittenApart(pr, operands[..n + 1], operators[..n], k);
      var m := |rightOps| - 1;
      assert operands[..n + 1][..k + 1] == operands[..k + 1] && operators[..n][..k] == operators[..k];
      assert operands[..n + 1][k + 1..] == rightOnes[..m + 1] && operators[..n][k + 1..] == rightOps[..m];
      assert rightOps[m] == operators[n] && rightOnes[m + 1] == operands[n + 1];
      var inner, last := Written(pr, rightOnes[..m + 1], rightOps[..m]), Print(pr, operands[n + 1], 0);
      assert Written(pr, rightOnes, rightOps) == inner + [Lexeme(Operator, operators[n])] + last;
      Regroup(left, [Lexeme(Operator, operators[k])], inner, [Lexeme(Operator, operators[n])], last);
    }
  }

  lemma {:induction false} Regroup(a: seq<Lexeme>, b: seq<Lexeme>, c: seq<Lexeme>, d: seq<Lexeme>, e: seq<Lexeme>)
    ensures (a + b + c) + d + e == a + b + (c + d + e)
  {
  }

  lemma {:induction false} NoParentheses(pr: Printer, e: Expr, level: nat)
    requires level <= LevelOf(e)
    ensures Print(pr, e, level) == Print(pr, e, 0)
  {
  }

  lemma {:induction false} OperationIsPrinted(pr: Printer, op: Text, left: Expr, right: Expr)
    requires Strength(op) != 0 && LevelOf(left) >= Strength(op) && LevelOf(right) > Strength(op)
    requires Printable(pr, left) && PlainStarts(pr, left) && Printable(pr, right) && PlainStarts(pr, right)
    ensures var e := Binary(op, left, right, 0);
            && Printable(pr, e) && PlainStarts(pr, e) && LevelOf(e) == Strength(op)
            && Print(pr, e, 0) == Print(pr, left, 0) + [Lexeme(Operator, op)] + Print(pr, right, 0)
  {
    StrengthIsLevel(op);
    NoParentheses(pr, left, Strength(op));
    NoParentheses(pr, right, Strength(op) + 1);
  }

  // To the left of the root everything binds at least as tightly, to its right more tightly.
  lemma {:induction false} TighterParts(operators: seq<Text>)
    requires operators != []
    ensures var k := Root(operators);
            && (k > 0 ==> Strength(operators[..k][Root(operators[..k])]) >= Strength(operators[k]))
            && (k + 1 < |operators| ==>
                  Strength(operators[k + 1..][Root(operators[k + 1..])]) > Strength(operators[k]))
  {
    var k := Root(operators);
    if k > 0 {
      var i := Root(operators[..k]);
      assert operators[..k][i] == operators[i];
    }
    if k + 1 < |operators| {
      var i := Root(operators[k + 1..]);
      assert operators[k + 1..][i] == operators[k + 1 + i];
    }
  }

  lemma {:induction false} PartsAreChains(pr: Printer, operands: seq<Expr>, operators: seq<Text>, k: nat)
    requires IsChain(pr, operands, operators) && k < |operators|
    ensures IsChain(pr, operands[..k + 1], operators[..k]) && IsChain(pr, operands[k + 1..], operators[k + 1..])
    ensures Strength(operators[k]) != 0
  {
    hide Printable, PlainStarts, Strength;
  }

  ghost predicate IsPrinted(pr: Printer, operands: seq<Expr>, operators: seq<Text>)
    requires |operands| == |operators| + 1
  {
    var tree := Tree(operands, operators);
    && Printable(pr, tree) && PlainStarts(pr, tree)
    && Print(pr, tree, 0) == Written(pr, operands, operators)
    && (operators == [] ==> LevelOf(tree) >= UNARY_LEVEL)
    && (operators != [] ==> LevelOf(tree) == Strength(operators[Root(operators)]))
  }

  lemma {:induction false} ChainIsPrinted(pr: Printer, operands: seq<Expr>, operators: seq<Text>)
    requires IsChain(pr, operands, operators)
    ensures IsPrinted(pr, operands, operators)
    decreases |operators|
  {
    hide Printable, PlainStarts, Print, Written, Strength, LevelOf;
    if operators == [] {
      OneIsPrinted(pr, operands);
    } else {
      var k := Root(operators);
      PartsAreChains(pr, operands, operators, k);
      ChainIsPrinted(pr, operands[..k + 1], operators[..k]);
      ChainIsPrinted(pr, operands[k + 1..], operators[k + 1..]);
      TighterParts(operators);
      WrittenApart(pr, operands, operators, k);
      AtMostSix(operators[k]);
      OperationIsPrinted(pr, operators[k], Tree(operands[..k + 1], operators[..k]),
                         Tree(operands[k + 1..], operators[k + 1..]));
    }
  }

  lemma {:induction false} AtMostSix(op: Text)
    ensures Strength(op) < UNARY_LEVEL
  {
  }

  lemma {:induction false} OneIsPrinted(pr: Printer, operands: seq<Expr>)
    requires IsChain(pr, operands, [])
    ensures IsPrinted(pr, operands, [])
  {
    assert operands[0] in operands;
  }

  // A chain, written with no parentheses around its parts, is read as that tree.
  lemma {:induction false} ChainsSplitAtTheLoosest(pr: Printer, operands: seq<Expr>, operators: seq<Text>)
    requires GoodLanguage(pr.lang) && IsChain(pr, operands, operators)
    ensures var r := Read(pr.lang, Render(Written(pr, operands, operators)));
            r.Ok? && Shape(r.value) == Shape(Tree(operands, operators))
  {
    ChainIsPrinted(pr, operands, operators);
    WrittenIsRead(pr, Tree(operands, operators));
  }

  lemma {:induction false} PairIsWritten(pr: Printer, a: Expr, p: Text, b: Expr)
    ensures Tree([a, b], [p]) == Binary(p, a, b, 0)
    ensures Written(pr, [a, b], [p]) == Print(pr, a, 0) + [Lexeme(Operator, p)] + Print(pr, b, 0)
  {
    hide Print;
    assert [a, b][..1] == [a] && [a, b][1..] == [b] && [p][..0] == [] && [p][1..] == [];
  }

  lemma {:induction false} ThreeAreWritten(pr: Printer, a: Expr, p: Text, b: Expr, q: Text, c: Expr)
    ensures Tree([a, b, c], [p, q]) == if Strength(p) >= Strength(q) then Binary(q, Binary(p, a, b, 0), c, 0)
                                       else Binary(p, a, Binary(q, b, c, 0), 0)
    ensures Written(pr, [a, b, c], [p, q])
         == Print(pr, a, 0) + [Lexeme(Operator, p)] + Print(pr, b, 0) + [Lexeme(Operator, q)] + Print(pr, c, 0)
  {
    hide Print, Strength;
    assert [a, b, c][..2] == [a, b] && [a, b, c][1..] == [b, c] && [a, b, c][..1] == [a] && [a, b, c][2..] == [c];
    assert [p, q][..1] == [p] && [p, q][1..] == [q] && [p, q][..0] == [] && [p, q][2..] == [] && [p][..0] == [];
    PairIsWritten(pr, a, p, b);
    PairIsWritten(pr, b, q, c);
    assert Root([p, q]) == if Strength(p) >= Strength(q) then 1 else 0;
  }

  // `a p b q c` is `(a p b) q c` if p binds at least as tightly as q, and `a p (b q c)` otherwise.
  lemma {:induction false} TighterFirst(pr: Printer, a: Expr, p: Text, b: Expr, q: Text, c: Expr)
    requires GoodLanguage(pr.lang) && IsChain(pr, [a, b, c], [p, q])
    ensures var lexemes := Print(pr, a, 0) + [Lexeme(Operator, p)] + Print(pr, b, 0)
                         + [Lexeme(Operator, q)] + Print(pr, c, 0);
            var r := Read(pr.lang, Render(lexemes));
            && r.Ok?
            && Shape(r.value) == Shape(if Strength(p) >= Strength(q) then Binary(q, Binary(p, a, b, 0), c, 0)
                                       else Binary(p, a, Binary(q, b, c, 0), 0))
  {
    hide Print, Strength, Tree, Written, IsChain, Shape, Render, Read;
    ChainsSplitAtTheLoosest(pr, [a, b, c], [p, q]);
    ThreeAreWritten(pr, a, p, b, q, c);
  }

  // Prefix operators bind tighter than all binary ones, and apply from right to left.
  lemma {:induction false} PrefixesBindTightest(pr: Printer, u: Text, a: Expr, p: Text, b: Expr)
    requires GoodLanguage(pr.lang) && IsPrefix(u) && IsChain(pr, [a, b], [p])
    ensures var lexemes := [Lexeme(Operator, u)] + Print(pr, a, 0) + [Lexeme(Operator, p)] + Print(pr, b, 0);
            var r := Read(pr.lang, Render(lexemes));
            r.Ok? && Shape(r.value) == Shape(Binary(p, Unary(u, a, 0), b, 0))
  {
    hide Tree, Written, Shape, Render, Read, Strength;
    var e := Unary(u, a, 0);
    assert a == [a, b][0] && b == [a, b][1];
    PrefixIsPrinted(pr, u, a);
    ChainsSplitAtTheLoosest(pr, [e, b], [p]);
    PairIsWritten(pr, e, p, b);
  }

  lemma {:induction false} PrefixIsPrinted(pr: Printer, u: Text, a: Expr)
    requires IsPrefix(u) && !a.Binary? && !a.Conditional? && Printable(pr, a) && PlainStarts(pr, a)
    ensures var e := Unary(u, a, 0);
            Printable(pr, e) && PlainStarts(pr, e) && Print(pr, e, 0) == [Lexeme(Operator, u)] + Print(pr, a, 0)
  {
    NoParentheses(pr, a, UNARY_LEVEL);
  }

  // The conditional binds loosest of all: its condition is the whole chain before the question
  // mark, and its branches are whole expressions, conditionals included.
  lemma {:induction false} ConditionalsBindLoosest(pr: Printer, operands: seq<Expr>, operators: seq<Text>,
                                                   whenTrue: Expr, whenFalse: Expr)
    requires GoodLanguage(pr.lang) && IsChain(pr, operands, operators)
    requires Printable(pr, whenTrue) && PlainStarts(pr, whenTrue)
    requires Printable(pr, whenFalse) && PlainStarts(pr, whenFalse)
    ensures var lexemes := Written(pr, operands, operators) + [Mark(['?' as int])] + Print(pr, whenTrue, 0)
                         + [Mark([':' as int])] + Print(pr, whenFalse, 0);
            var r := Read(pr.lang, Render(lexemes));
            r.Ok? && Shape(r.value) == Shape(Conditional(Tree(operands, operators), whenTrue, whenFalse, 0))
  {
    ChainIsPrinted(pr, operands, operators);
    var tree := Tree(operands, operators);
    var e := Conditional(tree, whenTrue, whenFalse, 0);
    assert Print(pr, tree, 1) == Print(pr, tree, 0);
    WrittenIsRead(pr, e);
  }
}
