// What the parser refuses, and where.

module Refusals {
  // The errors of the parser by what stands where an expression should begin or end.

  import opened CodeUnits
  import opened Wrappers
  import opened Tokenizer
  import opened Grammar
  import opened Printing
  import opened Precedence

  // ---------------------------------------------------------------------------------------
  // Where an expression should begin
  // ---------------------------------------------------------------------------------------

  // What is wrong with the first token, behind any prefix operators.
  function BadStart(lang: Language, ts: seq<Token>): (e: Option<ParseError>)
    requires WellEnded(ts)
    decreases |ts|
  {
    var t := ts[0];
    if t.kind == Eof then Some(ParseError(Unexpected([]), t.offset))
    else if t.kind == StringLiteral then None
    else if t.kind == NumberLiteral then
      if lang.safe(lang.valueOf(t.value)) then None else Some(ParseError(UnsafeNumber, t.offset))
    else if t.kind == Identifier then
      if ts[1].value == ['(' as int] then Some(ParseError(FunctionCall, ts[1].offset))
      else if t.value in {lang.variableName, TRUE, FALSE, NULL} then None
      else Some(ParseError(UnknownIdentifier(t.value), t.offset))
    else if t.kind == Operator && IsPrefix(t.value) then BadStart(lang, ts[1..])
    else if t.value in {['(' as int], ['[' as int], ['{' as int]} then None
    else Some(ParseError(Unexpected(t.value), t.offset))
  }

  lemma {:induction false} UnaryRefuses(lang: Language, ts: seq<Token>)
    requires WellEnded(ts) && BadStart(lang, ts).Some?
    ensures ParseUnary(lang, ts) == Err(BadStart(lang, ts).value)
    decreases |ts|
  {
    if ts[0].kind == Operator && IsPrefix(ts[0].value) {
      TailIsWellEnded(ts);
      UnaryRefuses(lang, ts[1..]);
    } else {
      PrimaryRefuses(lang, ts);
    }
  }

  lemma {:induction false} PrimaryRefuses(lang: Language, ts: seq<Token>)
    requires WellEnded(ts) && BadStart(lang, ts).Some? && !(ts[0].kind == Operator && IsPrefix(ts[0].value))
    ensures ParsePrimary(lang, ts) == Err(BadStart(lang, ts).value)
  {
    if ts[0].kind != Eof {
      TailIsWellEnded(ts);
    }
  }

  // Such a token is refused at every level, with this error.
  lemma {:induction false} BadStartsAreRefused(lang: Language, level: nat, ts: seq<Token>)
    requires WellEnded(ts) && BadStart(lang, ts).Some? && level <= UNARY_LEVEL
    ensures Parse(lang, level, ts) == Err(BadStart(lang, ts).value)
    decreases UNARY_LEVEL - level
  {
    hide BadStart;
    if level == UNARY_LEVEL {
      UnaryRefuses(lang, ts);
    } else {
      BadStartsAreRefused(lang, level + 1, ts);
    }
  }

  // ---------------------------------------------------------------------------------------
  // Where an expression should end
  // ---------------------------------------------------------------------------------------

  // No token that carries an expression on.
  predicate IsBreak(t: Token) {
    && t.value != ['(' as int] && t.value != ['?' as int]
    && !(t.kind == Operator && Strength(t.value) != 0)
  }

  lemma {:induction false} BreaksEnd(t: Token)
    requires IsBreak(t)
    ensures Ends(t, 0)
  {
  }

  // The tokens of a whole expression, followed by others.
  ghost predicate Stands(pr: Printer, e: Expr, head: seq<Token>, rest: seq<Token>) {
    && GoodLanguage(pr.lang) && Printable(pr, e) && PlainStarts(pr, e)
    && Followed(head, Print(pr, e, 0), rest) && IsBreak(rest[0])
  }

  lemma {:induction false} ReadWhole(pr: Printer, e: Expr, head: seq<Token>, rest: seq<Token>) returns (e': Expr)
    requires Stands(pr, e, head, rest)
    ensures Shape(e') == Shape(e) && head != [] && WellEnded(head + rest)
    ensures ParseConditional(pr.lang, head + rest) == Ok(Got(e', rest))
  {
    BreaksEnd(rest[0]);
    e' := ReadBack(pr, e, 0, head, rest);
    assert Parse(pr.lang, 0, head + rest) == ParseConditional(pr.lang, head + rest);
  }

  // Behind a whole expression only the end of the input may follow.
  lemma {:induction false} NothingMayFollow(pr: Printer, e: Expr, head: seq<Token>, rest: seq<Token>)
    requires Stands(pr, e, head, rest)
    ensures WellEnded(head + rest)
    ensures var r, t := ParseAll(pr.lang, head + rest), rest[0];
            if t.kind == Eof then r.Ok? && Shape(r.value) == Shape(e)
            else r == Err(ParseError(if t.value == ['.' as int] then MemberAccess else Unexpected(t.value), t.offset))
  {
    var e' := ReadWhole(pr, e, head, rest);
  }

  // A parenthesis or a bracket that is not closed behind the expression.
  lemma {:induction false} BracketsMustClose(pr: Printer, e: Expr, open: Token, head: seq<Token>, rest: seq<Token>)
    requires Stands(pr, e, head, rest) && open.kind == Punctuation
    ensures WellEnded([open] + (head + rest))
    ensures var ts, t := [open] + (head + rest), rest[0];
            && (open.value == ['(' as int] && t.value != [')' as int] ==>
                  ParsePrimary(pr.lang, ts) == Err(ParseError(Expected([')' as int]), t.offset)))
            && (open.value == ['[' as int] && t.value != [']' as int] && t.value != [',' as int]
                && head[0].value != [']' as int] ==>
                  ParsePrimary(pr.lang, ts) == Err(ParseError(Expected([']' as int]), t.offset)))
  {
    var e' := ReadWhole(pr, e, head, rest);
    var ts := [open] + (head + rest);
    JoinedIsWellEnded([open], head + rest);
    assert ts[1..] == head + rest && (head + rest)[0] == head[0];
    if open.value == ['[' as int] && head[0].value != [']' as int] {
      assert ParsePrimary(pr.lang, ts) == ParseArray(pr.lang, open.offset, head + rest);
    }
  }

  // A branch without the other one.
  lemma {:induction false} BranchesNeedAColon(pr: Printer, condition: Expr, mark: Token, e: Expr, head: seq<Token>,
                                              rest: seq<Token>)
    requires Stands(pr, e, head, rest) && mark.kind != Eof
    requires mark.value == ['?' as int] && rest[0].value != [':' as int]
    ensures WellEnded([mark] + (head + rest))
    ensures ConditionalTail(pr.lang, condition, [mark] + (head + rest))
         == Err(ParseError(Expected([':' as int]), rest[0].offset))
  {
    var e' := ReadWhole(pr, e, head, rest);
    JoinedIsWellEnded([mark], head + rest);
    assert ([mark] + (head + rest))[1..] == head + rest;
  }

  // A key is a text, stands for the first time, and is followed by a colon; behind its value the
  // object goes on or ends.
  lemma {:induction false} KeysAreChecked(pr: Printer, entries: seq<Entry>, offset: nat, key: Token, colon: Token,
                                          e: Expr, head: seq<Token>, rest: seq<Token>)
    requires Stands(pr, e, head, rest) && key.kind != Eof && colon.kind != Eof
    ensures WellEnded([key, colon] + (head + rest))
    ensures var r := ParseEntries(pr.lang, offset, entries, [key, colon] + (head + rest));
            if key.kind != StringLiteral then r == Err(ParseError(KeyNotText, key.offset))
            else if exists x <- entries :: x.key == key.value then
              r == Err(ParseError(DuplicateKey(key.value), key.offset))
            else if colon.value != [':' as int] then r == Err(ParseError(Expected([':' as int]), colon.offset))
            else if rest[0].value != [',' as int] && rest[0].value != ['}' as int] then
              r == Err(ParseError(Expected(['}' as int]), rest[0].offset))
            else
              rest[0].value == ['}' as int] ==>
                && r.Ok? && r.value.rest == rest[1..] && r.value.expr.Object?
                && |r.value.expr.entries| == |entries| + 1 && entries <= r.value.expr.entries
  {
    var e' := ReadWhole(pr, e, head, rest);
    var ts := [key, colon] + (head + rest);
    JoinedIsWellEnded([key, colon], head + rest);
    assert ts[1..][1..] == head + rest;
  }
}
