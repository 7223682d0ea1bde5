// packages/model-option-map/src/parser.ts: the class Parser.

module Parsing {
  // The cursor moves over the tokens as the grammar of module Grammar says, and every method
  // terminates on every token list.

  import opened CodeUnits
  import opened Wrappers
  import opened Tokenizer
  import opened Grammar

  class Parser {
    const tokens: seq<Token>
    const lang: Language
    var index: nat

    ghost predicate Valid()
      reads this
    {
      WellEnded(tokens) && index < |tokens|
    }

    // The tokens still to be read.
    ghost function Rest(): (ts: seq<Token>)
      requires Valid()
      reads this
      ensures WellEnded(ts) && |ts| == |tokens| - index
    {
      SuffixIsWellEnded();
      tokens[index..]
    }

    lemma {:induction false} SuffixIsWellEnded()
      requires Valid()
      ensures WellEnded(tokens[index..])
    {
    }

    // The outcome is the grammar's, and on success so is the position.
    ghost predicate Follows(r: Result<Expr, ParseError>, spec: Parsed)
      reads this
    {
      && Valid()
      && match spec
         case Err(e) => r == Err(e)
         case Ok(got) => r == Ok(got.expr) && Rest() == got.rest
    }

    constructor (tokens: seq<Token>, lang: Language)
      requires WellEnded(tokens)
      ensures this.tokens == tokens && this.lang == lang && index == 0 && Valid()
    {
      this.tokens := tokens;
      this.lang := lang;
      index := 0;
    }

    method ParseWhole() returns (r: Result<Expr, ParseError>)
      requires Valid()
      modifies this
      ensures Valid() && r == ParseAll(lang, old(Rest()))
      ensures r.Ok? ==> index == |tokens| - 1
    {
      var expression := ParseConditionalExpression();
      if expression.Err? {
        return expression;
      }
      var trailing := Current();
      if trailing.kind != Eof {
        if trailing.value == DOT {
          return Err(ParseError(MemberAccess, trailing.offset));
        }
        if trailing.value == OPEN_PAREN {
          return Err(ParseError(FunctionCall, trailing.offset));
        }
        return Err(ParseError(Unexpected(trailing.value), trailing.offset));
      }
      return expression;
    }

    method ParseConditionalExpression() returns (r: Result<Expr, ParseError>)
      requires Valid()
      modifies this
      ensures index >= old(index) && Follows(r, ParseConditional(lang, old(Rest())))
      decreases |tokens| - index, 20, 0
    {
      var condition := ParseOperand(1);
      if condition.Err? {
        return condition;
      }
      var question := Consume(QUESTION);
      if !question {
        return condition;
      }
      var whenTrue := ParseConditionalExpression();
      if whenTrue.Err? {
        return whenTrue;
      }
      var colon := ExpectToken(COLON);
      if colon.Some? {
        return Err(colon.value);
      }
      var whenFalse := ParseConditionalExpression();
      if whenFalse.Err? {
        return whenFalse;
      }
      return Ok(Conditional(condition.value, whenTrue.value, whenFalse.value, condition.value.offset));
    }

    // The operand of a binary level is an expression of the next level.
    method ParseOperand(level: nat) returns (r: Result<Expr, ParseError>)
      requires Valid() && 1 <= level <= UNARY_LEVEL
      modifies this
      ensures index >= old(index) && Follows(r, Grammar.Parse(lang, level, old(Rest())))
      ensures r.Ok? ==> index > old(index)
      decreases |tokens| - index, 20 - level
    {
      if level == UNARY_LEVEL {
        r := ParseUnaryExpression();
      } else {
        r := ParseBinary(level);
      }
    }

    method ParseBinary(level: nat) returns (r: Result<Expr, ParseError>)
      requires Valid() && 1 <= level < UNARY_LEVEL
      modifies this
      ensures index >= old(index) && Follows(r, Grammar.Parse(lang, level, old(Rest())))
      ensures r.Ok? ==> index > old(index)
      decreases |tokens| - index, 20 - level, 0
    {
      hide ParseConditional, ParseUnary, ParsePrimary, WellEnded;
      var first := ParseOperand(level + 1);
      if first.Err? {
        return first;
      }
      var expression := first.value;
      var token := Current();
      while token.kind == Operator && IsOperatorOf(level, token.value)
        invariant Valid() && index > old(index) && token == tokens[index]
        invariant BinaryTail(lang, level, expression, Rest()) == Grammar.Parse(lang, level, old(Rest()))
        decreases |tokens| - index
      {
        var operator := Advance();
        var right := ParseOperand(level + 1);
        if right.Err? {
          return right;
        }
        expression := Binary(operator.value, expression, right.value, operator.offset);
        token := Current();
      }
      return Ok(expression);
    }

    method ParseUnaryExpression() returns (r: Result<Expr, ParseError>)
      requires Valid()
      modifies this
      ensures index >= old(index) && Follows(r, ParseUnary(lang, old(Rest())))
      ensures r.Ok? ==> index > old(index)
      decreases |tokens| - index, 12, 1
    {
      var token := Current();
      if token.kind == Operator && (token.value == NOT || token.value == MINUS || token.value == PLUS) {
        var skipped := Advance();
        var operand := ParseUnaryExpression();
        if operand.Err? {
          return operand;
        }
        return Ok(Unary(token.value, operand.value, token.offset));
      }
      r := ParsePrimaryExpression();
    }

    method ParsePrimaryExpression() returns (r: Result<Expr, ParseError>)
      requires Valid()
      modifies this
      ensures index >= old(index) && Follows(r, ParsePrimary(lang, old(Rest())))
      ensures r.Ok? ==> index > old(index)
      decreases |tokens| - index, 11, 1
    {
      var token := Advance();
      if token.kind == NumberLiteral {
        var value := lang.valueOf(token.value);
        if !lang.safe(value) {
          return Err(ParseError(UnsafeNumber, token.offset));
        }
        return Ok(Literal(NumberValue(value), token.offset));
      }
      if token.kind == StringLiteral {
        return Ok(Literal(TextLiteral(token.value), token.offset));
      }
      if token.kind == Identifier {
        var next := Current();
        if next.value == OPEN_PAREN {
          return Err(ParseError(FunctionCall, next.offset));
        }
        if token.value == lang.variableName {
          return Ok(Input(token.offset));
        }
        if token.value == TRUE || token.value == FALSE {
          return Ok(Literal(BoolLiteral(token.value == TRUE), token.offset));
        }
        if token.value == NULL {
          return Ok(Literal(NullLiteral, token.offset));
        }
        return Err(ParseError(UnknownIdentifier(token.value), token.offset));
      }
      if token.value == OPEN_PAREN {
        var expression := ParseConditionalExpression();
        if expression.Err? {
          return expression;
        }
        var close := ExpectToken(CLOSE_PAREN);
        if close.Some? {
          return Err(close.value);
        }
        return expression;
      }
      if token.value == OPEN_BRACKET {
        r := ParseArrayBody(token.offset);
        return;
      }
      if token.value == OPEN_BRACE {
        r := ParseObjectBody(token.offset);
        return;
      }
      return Err(ParseError(Unexpected(token.value), token.offset));
    }

    method ParseArrayBody(offset: nat) returns (r: Result<Expr, ParseError>)
      requires Valid()
      modifies this
      ensures index >= old(index) && Follows(r, ParseArray(lang, offset, old(Rest())))
      decreases |tokens| - index, 22
    {
      var elements: seq<Expr> := [];
      var empty := Consume(CLOSE_BRACKET);
      if !empty {
        var more := true;
        while more
          invariant Valid() && index >= old(index)
          invariant more ==> ParseElements(lang, offset, elements, Rest()) == ParseArray(lang, offset, old(Rest()))
          invariant !more ==>
                      Expect(CLOSE_BRACKET, Array(elements, offset), Rest()) == ParseArray(lang, offset, old(Rest()))
          decreases more, |tokens| - index
        {
          var element := ParseConditionalExpression();
          if element.Err? {
            return element;
          }
          elements := elements + [element.value];
          more := Consume(COMMA);
        }
        var close := ExpectToken(CLOSE_BRACKET);
        if close.Some? {
          return Err(close.value);
        }
      }
      return Ok(Array(elements, offset));
    }

    method ParseObjectBody(offset: nat) returns (r: Result<Expr, ParseError>)
      requires Valid()
      modifies this
      ensures index >= old(index) && Follows(r, ParseObject(lang, offset, old(Rest())))
      decreases |tokens| - index, 22
    {
      hide ParseEntry;
      var entries: seq<Entry> := [];
      var keys: set<Text> := {};
      var empty := Consume(CLOSE_BRACE);
      if !empty {
        var more := true;
        while more
          invariant Valid() && index >= old(index)
          invariant forall key :: key in keys <==> HasKey(entries, key)
          invariant more ==> ParseEntries(lang, offset, entries, Rest()) == ParseObject(lang, offset, old(Rest()))
          invariant !more ==>
                      Expect(CLOSE_BRACE, Object(entries, offset), Rest()) == ParseObject(lang, offset, old(Rest()))
          decreases more, |tokens| - index
        {
          var entry := ParseKeyAndValue(entries, keys);
          if entry.Err? {
            return Err(entry.error);
          }
          KeysGrow(entries, entry.value);
          keys := keys + {entry.value.key};
          entries := entries + [entry.value];
          more := Consume(COMMA);
        }
        var close := ExpectToken(CLOSE_BRACE);
        if close.Some? {
          return Err(close.value);
        }
      }
      return Ok(Object(entries, offset));
    }

    // One round of the object loop, up to the comma.
    method ParseKeyAndValue(ghost entries: seq<Entry>, keys: set<Text>) returns (r: Result<Entry, ParseError>)
      requires Valid()
      requires forall key :: key in keys <==> HasKey(entries, key)
      modifies this
      ensures Valid() && index >= old(index)
      ensures match ParseEntry(lang, entries, old(Rest()))
              case Err(e) => r == Err(e)
              case Ok(got) => r == Ok(got.entry) && Rest() == got.rest && index > old(index)
      decreases |tokens| - index, 20, 1
    {
      var key := Advance();
      if key.kind != StringLiteral {
        return Err(ParseError(KeyNotText, key.offset));
      }
      if key.value in keys {
        return Err(ParseError(DuplicateKey(key.value), key.offset));
      }
      var colon := ExpectToken(COLON);
      if colon.Some? {
        return Err(colon.value);
      }
      var value := ParseConditionalExpression();
      if value.Err? {
        return Err(value.error);
      }
      return Ok(Entry(key.value, value.value, key.offset));
    }

    lemma {:induction false} KeysGrow(entries: seq<Entry>, entry: Entry)
      ensures forall key :: HasKey(entries + [entry], key) <==> HasKey(entries, key) || key == entry.key
    {
      forall key ensures HasKey(entries + [entry], key) <==> HasKey(entries, key) || key == entry.key {
        assert (entries + [entry])[|entries|] == entry;
        if HasKey(entries, key) {
          var e :| e in entries && e.key == key;
          assert e in entries + [entry];
        }
      }
    }

    method Consume(value: Text) returns (consumed: bool)
      requires Valid() && value != []
      modifies this
      ensures Valid()
      ensures consumed <==> old(Rest())[0].value == value
      ensures Rest() == if consumed then old(Rest())[1..] else old(Rest())
      ensures index == if consumed then old(index) + 1 else old(index)
    {
      var token := Current();
      if token.value != value {
        return false;
      }
      TailIsWellEnded(tokens[index..]);
      index := index + 1;
      return true;
    }

    // The error, if the token is another one.
    method ExpectToken(value: Text) returns (error: Option<ParseError>)
      requires Valid() && value != []
      modifies this
      ensures Valid()
      ensures var next := old(Rest())[0];
              error == if next.value == value then None else Some(ParseError(Expected(value), next.offset))
      ensures Rest() == if error.None? then old(Rest())[1..] else old(Rest())
      ensures index == if error.None? then old(index) + 1 else old(index)
    {
      var token := Current();
      if token.value != value {
        return Some(ParseError(Expected(value), token.offset));
      }
      TailIsWellEnded(tokens[index..]);
      index := index + 1;
      return None;
    }

    method Advance() returns (token: Token)
      requires Valid()
      modifies this
      ensures Valid()
      ensures token == old(Rest())[0]
      ensures Rest() == if token.kind == Eof then old(Rest()) else old(Rest())[1..]
      ensures index == if token.kind == Eof then old(index) else old(index) + 1
    {
      token := Current();
      if token.kind != Eof {
        TailIsWellEnded(tokens[index..]);
        index := index + 1;
      }
    }

    // Past the end the source falls back on the last token; the cursor never gets there.
    method Current() returns (token: Token)
      requires Valid()
      ensures token == tokens[index] == Rest()[0]
    {
      token := tokens[index];
    }
  }
}
