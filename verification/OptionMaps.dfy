// packages/model-option-map/src/option-maps.ts: two option maps applied to a request body.

module OptionMaps {
  import opened CodeUnits
  import opened Wrappers
  import opened Json
  import opened MergePatch
  import opened PatchAlgebra
  import opened Compilation
  import Evaluation

  datatype Specs = Specs(reasoningLevel: Text, maxOutputTokens: Text)

  datatype Values = Values(reasoningLevel: Option<Text>, maxOutputTokens: Number)

  datatype Maps = Maps(reasoningLevel: Program, maxOutputTokens: Program)

  datatype ApplyError =
    | NoReasoningLevel
    | MapFailed(e: MapError)
    | Conflicting(c: Conflict)

  function CompileMaps(nums: Numbers, specs: Specs): (r: Result<Maps, CompileError>) {
    match CompiledOptionMap(nums, ReasoningLevel, specs.reasoningLevel)
    case Err(e) => Err(e)
    case Ok(reasoningLevel) =>
      match CompiledOptionMap(nums, MaxOutputTokens, specs.maxOutputTokens)
      case Err(e) => Err(e)
      case Ok(maxOutputTokens) => Ok(Maps(reasoningLevel, maxOutputTokens))
  }

  method CompileModelOptionMaps(compiler: Compiler, specs: Specs) returns (r: Result<Maps, CompileError>)
    requires compiler.Valid()
    modifies compiler
    ensures compiler.Valid() && r == CompileMaps(compiler.nums, specs)
  {
    var reasoningLevel := compiler.CompileModelOptionMap(specs.reasoningLevel, ReasoningLevel);
    if reasoningLevel.Err? {
      return Err(reasoningLevel.error);
    }
    var maxOutputTokens := compiler.CompileModelOptionMap(specs.maxOutputTokens, MaxOutputTokens);
    if maxOutputTokens.Err? {
      return Err(maxOutputTokens.error);
    }
    return Ok(Maps(reasoningLevel.value, maxOutputTokens.value));
  }

  // The two patches, in the order of their application.
  function OptionPatches(nums: Numbers, maps: Maps, values: Values): (r: Result<seq<Json>, ApplyError>)
    ensures r.Ok? ==> |r.value| == 2 && r.value[0].Obj? && r.value[1].Obj?
  {
    if values.reasoningLevel.None? then Err(NoReasoningLevel) else
    match RunOptionMap(nums, maps.reasoningLevel, Json.Str(values.reasoningLevel.value))
    case Err(e) => Err(MapFailed(e))
    case Ok(p) =>
      match RunOptionMap(nums, maps.maxOutputTokens, Num(values.maxOutputTokens))
      case Err(e) => Err(MapFailed(e))
      case Ok(q) => Ok([p, q])
  }

  // A body comes out exactly if both maps give patches and these are disjoint.
  method Apply(nums: Numbers, maps: Maps, body: Json, values: Values) returns (r: Result<Json, ApplyError>)
    requires body.Obj?
    ensures var patches := OptionPatches(nums, maps, values);
            && (patches.Err? ==> r == Err(patches.error))
            && (patches.Ok? ==> (r.Ok? <==> Disjoint(patches.value[0], patches.value[1])))
            && (patches.Ok? && r.Ok? ==> r.value == Fold(body, patches.value))
            && (patches.Ok? && r.Err? ==>
                  && r.error.Conflicting?
                  && r.error.c.owner == "reasoningLevel" && r.error.c.writer == "maxOutputTokens"
                  && Writes(patches.value[1], r.error.c.path))
  {
    if values.reasoningLevel.None? {
      return Err(NoReasoningLevel);
    }
    var p := RunOptionMap(nums, maps.reasoningLevel, Json.Str(values.reasoningLevel.value));
    if p.Err? {
      return Err(MapFailed(p.error));
    }
    var q := RunOptionMap(nums, maps.maxOutputTokens, Num(values.maxOutputTokens));
    if q.Err? {
      return Err(MapFailed(q.error));
    }
    var named := [NamedPatch("reasoningLevel", p.value), NamedPatch("maxOutputTokens", q.value)];
    assert Patches(named) == [p.value, q.value];
    AcceptedPair(p.value, q.value);
    var applied := ApplyOrderedJsonMergePatches(body, named);
    if applied.Err? {
      ghost var i: nat, j: nat, owned: Path :| Justified(named, applied.error, i, j, owned);
      assert i == 0 && j == 1;
      return Err(Conflicting(applied.error));
    }
    return Ok(applied.value);
  }

  lemma {:induction false} AcceptedPair(p: Json, q: Json)
    ensures Accepted([p, q]) <==> Disjoint(p, q)
  {
    assert [p, q][0] == p && [p, q][1] == q;
  }

  // Whatever the two sources and the two values are: if a body comes out, both options took
  // effect in full, in either order, and no number they wrote is one that JSON cannot carry.
  lemma {:induction false} BothOptionsTakeEffect(nums: Numbers, specs: Specs, body: Json, values: Values)
    requires body.Obj? && CompileMaps(nums, specs).Ok?
    requires var patches := OptionPatches(nums, CompileMaps(nums, specs).value, values);
             patches.Ok? && Disjoint(patches.value[0], patches.value[1])
    ensures var patches := OptionPatches(nums, CompileMaps(nums, specs).value, values).value;
            var result := Fold(body, patches);
            && Merge(result, patches[0]) == result && Merge(result, patches[1]) == result
            && Fold(body, [patches[1], patches[0]]) == result
            && Evaluation.SafeValue(nums.arithmetic, patches[0]) && Evaluation.SafeValue(nums.arithmetic, patches[1])
  {
    var patches := OptionPatches(nums, CompileMaps(nums, specs).value, values).value;
    var p, q := patches[0], patches[1];
    assert patches == [p, q];
    AcceptedPair(p, q);
    NothingIsOverwritten(body, patches, 0);
    NothingIsOverwritten(body, patches, 1);
    assert multiset([q, p]) == multiset(patches);
    OrderDoesNotMatter(body, patches, [q, p]);
    ProgramsGiveSafeValues(nums, ReasoningLevel, specs.reasoningLevel, Json.Str(values.reasoningLevel.value));
    ProgramsGiveSafeValues(nums, MaxOutputTokens, specs.maxOutputTokens, Num(values.maxOutputTokens));
  }
}
