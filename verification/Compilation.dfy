// packages/model-option-map/src/compiler.ts: compiling with caches.

module Compilation {
  // Over any sequence of calls the caches behave as compiling afresh would; and what a compiled
  // expression can give.

  import opened CodeUnits
  import opened Wrappers
  import opened Json
  import opened Tokenizer
  import opened Grammar
  import opened Evaluation
  import Parsing

  datatype Name = ReasoningLevel | MaxOutputTokens

  function NameText(name: Name): (t: Text)
    ensures |t| == if name == ReasoningLevel then 14 else 15
    ensures forall c <- t :: c != 0
  {
    if name == ReasoningLevel then
      ['r' as int, 'e' as int, 'a' as int, 's' as int, 'o' as int, 'n' as int, 'i' as int, 'n' as int, 'g' as int,
       'L' as int, 'e' as int, 'v' as int, 'e' as int, 'l' as int]
    else
      ['m' as int, 'a' as int, 'x' as int, 'O' as int, 'u' as int, 't' as int, 'p' as int, 'u' as int, 't' as int,
       'T' as int, 'o' as int, 'k' as int, 'e' as int, 'n' as int, 's' as int]
  }

  // Numerals and arithmetic.
  datatype Numbers = Numbers(valueOf: Text -> Number, arithmetic: Arithmetic)

  function LanguageOf(nums: Numbers, name: Name): (lang: Language) {
    Language(NameText(name), nums.valueOf, nums.arithmetic.safe)
  }

  datatype CompileError =
    | Empty
    | Syntax(e: SyntaxError)
    | NotAnObject(offset: nat)

  datatype Program = Program(source: Text, expression: Expr)

  // ---------------------------------------------------------------------------------------
  // Compiling without caches
  // ---------------------------------------------------------------------------------------

  function ParsedExpression(nums: Numbers, name: Name, source: Text): (r: Result<Expr, CompileError>) {
    match Read(LanguageOf(nums, name), source)
    case Err(e) => Err(Syntax(e))
    case Ok(e) => Ok(e)
  }

  function Compiled(nums: Numbers, name: Name, source: Text): (r: Result<Program, CompileError>) {
    var text := Trim(source);
    if text == [] then Err(Empty) else
    match ParsedExpression(nums, name, text)
    case Err(e) => Err(e)
    case Ok(e) => Ok(Program(text, e))
  }

  function CompiledOptionMap(nums: Numbers, name: Name, source: Text): (r: Result<Program, CompileError>) {
    match Compiled(nums, name, source)
    case Err(e) => Err(e)
    case Ok(p) =>
      match FirstNonObject(p.expression)
      case Some(offset) => Err(NotAnObject(offset))
      case None => Ok(p)
  }

  // ---------------------------------------------------------------------------------------
  // Running
  // ---------------------------------------------------------------------------------------

  function RunProgram(nums: Numbers, p: Program, input: Json): (r: Evaluated) {
    EvaluateRestricted(nums.arithmetic, p.expression, input)
  }

  datatype MapError = Failed(e: EvalError) | ResultIsNoObject

  // With the check of the result that evaluating an option map makes.
  function RunOptionMap(nums: Numbers, p: Program, input: Json): (r: Result<Json, MapError>) {
    match RunProgram(nums, p, input)
    case Err(e) => Err(Failed(e))
    case Ok(v) => if v.Obj? then Ok(v) else Err(ResultIsNoObject)
  }

  // The check never fires: what compiles as an option map gives objects only.
  lemma {:induction false} OptionMapsGiveObjects(nums: Numbers, name: Name, source: Text, input: Json)
    requires CompiledOptionMap(nums, name, source).Ok?
    ensures RunOptionMap(nums, CompiledOptionMap(nums, name, source).value, input) != Err(ResultIsNoObject)
  {
    ObjectExpressionsGiveObjects(nums.arithmetic, CompiledOptionMap(nums, name, source).value.expression, input);
  }

  // ---------------------------------------------------------------------------------------
  // The parser lets no unsafe numeral through
  // ---------------------------------------------------------------------------------------

  ghost predicate SafeParse(a: Arithmetic, r: Parsed) {
    r.Ok? ==> SafeLiterals(a, r.value.expr)
  }

  lemma {:induction false} ParseIsSafe(a: Arithmetic, lang: Language, level: nat, ts: seq<Token>)
    requires WellEnded(ts) && level <= PRIMARY_LEVEL && lang.safe == a.safe
    ensures SafeParse(a, Parse(lang, level, ts))
    decreases |ts|, 20 - level
  {
    if level == CONDITIONAL_LEVEL {
      ConditionalIsSafe(a, lang, ts);
    } else if level == UNARY_LEVEL {
      UnaryIsSafe(a, lang, ts);
    } else if level == PRIMARY_LEVEL {
      PrimaryIsSafe(a, lang, ts);
    } else {
      ParseIsSafe(a, lang, level + 1, ts);
      var first := Parse(lang, level + 1, ts);
      if first.Ok? {
        BinaryTailIsSafe(a, lang, level, first.value.expr, first.value.rest);
      }
    }
  }

  lemma {:induction false} ConditionalIsSafe(a: Arithmetic, lang: Language, ts: seq<Token>)
    requires WellEnded(ts) && lang.safe == a.safe
    ensures SafeParse(a, ParseConditional(lang, ts))
    decreases |ts|, 20, 0
  {
    ParseIsSafe(a, lang, 1, ts);
    var c := Parse(lang, 1, ts);
    if c.Ok? {
      ConditionalTailIsSafe(a, lang, c.value.expr, c.value.rest);
    }
  }

  lemma {:induction false} ConditionalTailIsSafe(a: Arithmetic, lang: Language, condition: Expr, ts: seq<Token>)
    requires WellEnded(ts) && lang.safe == a.safe && SafeLiterals(a, condition)
    ensures SafeParse(a, ConditionalTail(lang, condition, ts))
    decreases |ts|, 0
  {
    if ts[0].value == QUESTION {
      TailIsWellEnded(ts);
      ConditionalIsSafe(a, lang, ts[1..]);
      var t := ParseConditional(lang, ts[1..]);
      if t.Ok? && t.value.rest[0].value == COLON {
        TailIsWellEnded(t.value.rest);
        ConditionalIsSafe(a, lang, t.value.rest[1..]);
      }
    }
  }

  lemma {:induction false} BinaryTailIsSafe(a: Arithmetic, lang: Language, level: nat, left: Expr, ts: seq<Token>)
    requires WellEnded(ts) && 1 <= level < UNARY_LEVEL && lang.safe == a.safe && SafeLiterals(a, left)
    ensures SafeParse(a, BinaryTail(lang, level, left, ts))
    decreases |ts|, 0
  {
    if Continues(level, ts[0]) {
      TailIsWellEnded(ts);
      ParseIsSafe(a, lang, level + 1, ts[1..]);
      var right := Parse(lang, level + 1, ts[1..]);
      if right.Ok? {
        BinaryTailIsSafe(a, lang, level, Binary(ts[0].value, left, right.value.expr, ts[0].offset), right.value.rest);
      }
    }
  }

  lemma {:induction false} UnaryIsSafe(a: Arithmetic, lang: Language, ts: seq<Token>)
    requires WellEnded(ts) && lang.safe == a.safe
    ensures SafeParse(a, ParseUnary(lang, ts))
    decreases |ts|, 12, 1
  {
    if ts[0].kind == Operator && IsUnaryOperator(ts[0].value) {
      TailIsWellEnded(ts);
      UnaryIsSafe(a, lang, ts[1..]);
    } else {
      PrimaryIsSafe(a, lang, ts);
    }
  }

  lemma {:induction false} PrimaryIsSafe(a: Arithmetic, lang: Language, ts: seq<Token>)
    requires WellEnded(ts) && lang.safe == a.safe
    ensures SafeParse(a, ParsePrimary(lang, ts))
    decreases |ts|, 11, 1
  {
    if ts[0].kind != Eof {
      TailIsWellEnded(ts);
      ConditionalIsSafe(a, lang, ts[1..]);
      ElementsAreSafe(a, lang, ts[0].offset, [], ts[1..]);
      EntriesAreSafe(a, lang, ts[0].offset, [], ts[1..]);
    }
  }

  lemma {:induction false} ElementsAreSafe(a: Arithmetic, lang: Language, offset: nat, elements: seq<Expr>,
                                           ts: seq<Token>)
    requires WellEnded(ts) && lang.safe == a.safe && forall x <- elements :: SafeLiterals(a, x)
    ensures SafeParse(a, ParseElements(lang, offset, elements, ts))
    decreases |ts|, 21
  {
    ConditionalIsSafe(a, lang, ts);
    var element := ParseConditional(lang, ts);
    if element.Ok? && element.value.rest[0].value == COMMA {
      TailIsWellEnded(element.value.rest);
      ElementsAreSafe(a, lang, offset, elements + [element.value.expr], element.value.rest[1..]);
    }
  }

  lemma {:induction false} EntryIsSafe(a: Arithmetic, lang: Language, entries: seq<Entry>, ts: seq<Token>)
    requires WellEnded(ts) && lang.safe == a.safe
    ensures var r := ParseEntry(lang, entries, ts); r.Ok? ==> SafeLiterals(a, r.value.entry.value)
    decreases |ts|, 20, 1
  {
    if ts[0].kind == StringLiteral {
      TailIsWellEnded(ts);
      if ts[1].value == COLON {
        TailIsWellEnded(ts[1..]);
        ConditionalIsSafe(a, lang, ts[1..][1..]);
      }
    }
  }

  lemma {:induction false} EntriesAreSafe(a: Arithmetic, lang: Language, offset: nat, entries: seq<Entry>,
                                          ts: seq<Token>)
    requires WellEnded(ts) && lang.safe == a.safe && forall x <- entries :: SafeLiterals(a, x.value)
    ensures SafeParse(a, ParseEntries(lang, offset, entries, ts))
    decreases |ts|, 21
  {
    EntryIsSafe(a, lang, entries, ts);
    var got := ParseEntry(lang, entries, ts);
    if got.Ok? && got.value.rest[0].value == COMMA {
      TailIsWellEnded(got.value.rest);
      EntriesAreSafe(a, lang, offset, entries + [got.value.entry], got.value.rest[1..]);
    }
  }

  // Whatever the source text and the input are: every number anywhere in a result can be carried
  // by JSON.
  lemma {:induction false} ProgramsGiveSafeValues(nums: Numbers, name: Name, source: Text, input: Json)
    requires Compiled(nums, name, source).Ok?
    ensures SafeResult(nums.arithmetic, RunProgram(nums, Compiled(nums, name, source).value, input))
  {
    var text := Trim(source);
    var ts := Scan(text, 0).value;
    ScanIsWellEnded(text, 0);
    ConditionalIsSafe(nums.arithmetic, LanguageOf(nums, name), ts);
    ResultsKeepSafe(nums.arithmetic, Compiled(nums, name, source).value.expression, input);
  }

  lemma {:induction false} ResultsKeepSafe(a: Arithmetic, e: Expr, input: Json)
    requires SafeLiterals(a, e)
    ensures SafeResult(a, EvaluateRestricted(a, e, input))
  {
    if SafeValue(a, input) {
      ResultsAreSafe(a, e, input);
    }
  }

  // ---------------------------------------------------------------------------------------
  // The caches
  // ---------------------------------------------------------------------------------------

  function CacheKey(source: Text, name: Name): (key: Text) {
    NameText(name) + [0] + source
  }

  // No two expressions share a key, for no name contains the separator.
  lemma {:induction false} CacheKeysDiffer(source: Text, name: Name, source': Text, name': Name)
    ensures CacheKey(source, name) == CacheKey(source', name') <==> source == source' && name == name'
  {
    SeparatorTellsNames(source, name);
    SeparatorTellsNames(source', name');
    var n := |NameText(name)|;
    assert name == name' ==> CacheKey(source, name)[n + 1..] == source && CacheKey(source', name')[n + 1..] == source';
  }

  lemma {:induction false} SeparatorTellsNames(source: Text, name: Name)
    ensures |CacheKey(source, name)| > 14
    ensures CacheKey(source, name)[14] == 0 <==> name == ReasoningLevel
  {
    if name == MaxOutputTokens {
      assert CacheKey(source, name)[14] == NameText(name)[14] && NameText(name)[14] in NameText(name);
    }
  }

  method ParseAfresh(nums: Numbers, name: Name, source: Text) returns (r: Result<Expr, CompileError>)
    ensures r == ParsedExpression(nums, name, source)
  {
    hide Scan, ParseAll;
    var tokens := Tokenize(source);
    if tokens.Err? {
      return Err(Syntax(Lexical(tokens.error)));
    }
    ScanIsWellEnded(source, 0);
    var parser := new Parsing.Parser(tokens.value, LanguageOf(nums, name));
    assert parser.Rest() == tokens.value;
    var expression := parser.ParseWhole();
    if expression.Err? {
      return Err(Syntax(Syntactic(expression.error)));
    }
    return Ok(expression.value);
  }

  class Compiler {
    const nums: Numbers
    var programCache: map<Text, Program>
    var optionMapCache: map<Text, Program>
    var expressionCache: map<Text, Expr>

    // Under every key lies what compiling afresh would give.
    ghost predicate Valid()
      reads this
    {
      && (forall name, source | CacheKey(source, name) in expressionCache ::
            ParsedExpression(nums, name, source) == Ok(expressionCache[CacheKey(source, name)]))
      && (forall name, source | CacheKey(source, name) in programCache ::
            Fresh(name, source, programCache[CacheKey(source, name)]))
      && (forall name, source | CacheKey(source, name) in optionMapCache ::
            Fresh(name, source, optionMapCache[CacheKey(source, name)])
            && FirstNonObject(optionMapCache[CacheKey(source, name)].expression).None?)
    }

    ghost predicate Fresh(name: Name, source: Text, p: Program) {
      p.source == source && ParsedExpression(nums, name, source) == Ok(p.expression)
    }

    constructor (nums: Numbers)
      ensures Valid() && this.nums == nums
    {
      this.nums := nums;
      programCache, optionMapCache, expressionCache := map[], map[], map[];
    }

    // Over any sequence of calls a cached program is the one that compiling afresh gives.
    method CompileRestrictedCel(source: Text, name: Name) returns (r: Result<Program, CompileError>)
      requires Valid()
      modifies this
      ensures Valid() && r == Compiled(nums, name, source)
    {
      hide ParsedExpression, Trim, FirstNonObject;
      var text := Trim(source);
      if text == [] {
        return Err(Empty);
      }
      var key := CacheKey(text, name);
      if key in programCache {
        return Ok(programCache[key]);
      }
      var expression := ParseExpression(text, name);
      if expression.Err? {
        return Err(expression.error);
      }
      var program := Program(text, expression.value);
      programCache := programCache[key := program];
      OneNewKey(text, name);
      return Ok(program);
    }

    method CompileModelOptionMap(source: Text, name: Name) returns (r: Result<Program, CompileError>)
      requires Valid()
      modifies this
      ensures Valid() && r == CompiledOptionMap(nums, name, source)
    {
      hide ParsedExpression, Trim, FirstNonObject;
      var text := Trim(source);
      if text == [] {
        return Err(Empty);
      }
      var key := CacheKey(text, name);
      if key in optionMapCache {
        return Ok(optionMapCache[key]);
      }
      var expression := ParseExpression(text, name);
      if expression.Err? {
        return Err(expression.error);
      }
      var offset := FirstNonObject(expression.value);
      if offset.Some? {
        return Err(NotAnObject(offset.value));
      }
      var program := Program(text, expression.value);
      optionMapCache := optionMapCache[key := program];
      OneNewKey(text, name);
      return Ok(program);
    }

    method ParseExpression(source: Text, name: Name) returns (r: Result<Expr, CompileError>)
      requires Valid()
      modifies this`expressionCache
      ensures Valid() && r == ParsedExpression(nums, name, source)
    {
      hide ParsedExpression;
      var key := CacheKey(source, name);
      if key in expressionCache {
        return Ok(expressionCache[key]);
      }
      var expression := ParseAfresh(nums, name, source);
      if expression.Err? {
        return expression;
      }
      expressionCache := expressionCache[key := expression.value];
      OneNewKey(source, name);
      return expression;
    }

    lemma {:induction false} OneNewKey(source: Text, name: Name)
      ensures forall name', source' :: CacheKey(source', name') == CacheKey(source, name) ==>
                source' == source && name' == name
    {
      forall name', source'
        ensures CacheKey(source', name') == CacheKey(source, name) ==> source' == source && name' == name
      {
        CacheKeysDiffer(source', name', source, name);
      }
    }
  }
}
