// packages/model-option-map/src/merge-patch.ts: JSON merge patches.

module MergePatch {
  // The merge itself, the paths it writes, and the ordered application that refuses patches writing
  // to the same place.

  import opened CodeUnits
  import opened Wrappers
  import opened Json

  type Path = seq<Text>

  // ---------------------------------------------------------------------------------------
  // MergePatch of section 2 of RFC 7396
  // ---------------------------------------------------------------------------------------

  function Merge(target: Json, patch: Json): (result: Json)
    ensures patch.Obj? ==> result.Obj?
    decreases patch
  {
    if patch.Obj? then Obj(MergeFields(ObjectOrEmpty(target), patch)) else patch
  }

  function MergeFields(target: Fields, patch: Json): (result: Fields)
    requires patch.Obj?
    ensures forall k :: k in result <==>
              (k in patch.fields && patch.fields[k] != Null) || (k in target && k !in patch.fields)
    decreases patch, 0
  {
    var p := patch.fields;
    map k | k in target.Keys + p.Keys && (k in p ==> p[k] != Null) ::
      if k in p then Merge(if k in target then target[k] else Null, p[k]) else target[k]
  }

  // The result of applying a list of patches in turn.
  function Fold(body: Json, patches: seq<Json>): (result: Json)
    ensures body.Obj? && (forall p <- patches :: p.Obj?) ==> result.Obj?
    decreases |patches|
  {
    if patches == [] then body else Fold(Merge(body, patches[0]), patches[1..])
  }

  // ---------------------------------------------------------------------------------------
  // mergeObject and cloneJson
  // ---------------------------------------------------------------------------------------

  // A deep copy, rebuilt member by member.
  method CloneJson(value: Json) returns (copy: Json)
    ensures copy == value
    decreases value
  {
    match value
    case Arr(items) =>
      var result: seq<Json> := [];
      for i := 0 to |items|
        invariant result == items[..i]
      {
        var item := CloneJson(items[i]);
        result := result + [item];
      }
      return Arr(result);
    case Obj(fields) =>
      var result: Fields := map[];
      var left := fields.Keys;
      while left != {}
        invariant left <= fields.Keys
        invariant result == map k | k in fields && k !in left :: fields[k]
        decreases |left|
      {
        var key :| key in left;
        var member := CloneJson(fields[key]);
        result := result[key := member];
        left := left - {key};
      }
      return Obj(result);
    case _ =>
      return value;
  }

  // The target once every key of the patch outside `left` has been visited.
  ghost function Visited(target: Fields, patch: Json, left: set<Text>): (fields: Fields)
    requires patch.Obj?
  {
    var p := patch.fields;
    map k | k in target.Keys + p.Keys && (if k in p && k !in left then p[k] != Null else k in target) ::
      if k in p && k !in left then Merge(if k in target then target[k] else Null, p[k]) else target[k]
  }

  lemma {:induction false} VisitOne(target: Fields, patch: Json, left: set<Text>, key: Text)
    requires patch.Obj? && key in left && left <= patch.fields.Keys
    ensures var before, after := Visited(target, patch, left), Visited(target, patch, left - {key});
            var v := patch.fields[key];
            && (key in before <==> key in target) && (key in target ==> before[key] == target[key])
            && after == (if v == Null then before - {key}
                         else before[key := Merge(if key in target then target[key] else Null, v)])
  {
  }

  lemma {:induction false} AllVisited(target: Fields, patch: Json)
    requires patch.Obj?
    ensures Visited(target, patch, patch.fields.Keys) == target
    ensures Visited(target, patch, {}) == MergeFields(target, patch)
  {
  }

  // Whatever order the keys of the patch are visited in, the result is RFC 7396's.
  method MergeObject(target: Fields, patch: Json) returns (result: Fields)
    requires patch.Obj?
    ensures Obj(result) == Merge(Obj(target), patch)
    decreases patch
  {
    var p := patch.fields;
    var start := CloneJson(Obj(target));
    result := start.fields;
    var left := p.Keys;
    AllVisited(target, patch);
    while left != {}
      invariant left <= p.Keys
      invariant result == Visited(target, patch, left)
      decreases |left|
    {
      var key :| key in left;
      VisitOne(target, patch, left, key);
      left := left - {key};
      var patchValue := p[key];
      if patchValue == Null {
        result := result - {key};
        continue;
      }
      if patchValue.Obj? {
        var nested := MergeObject(if key in result then ObjectOrEmpty(result[key]) else map[], patchValue);
        result := result[key := Obj(nested)];
        continue;
      }
      var copy := CloneJson(patchValue);
      result := result[key := copy];
    }
  }

  // Merging the same patch again changes nothing.
  lemma {:induction false} MergeTwice(target: Json, patch: Json)
    ensures Merge(Merge(target, patch), patch) == Merge(target, patch)
    decreases patch
  {
    if patch.Obj? {
      var p := patch.fields;
      var once := MergeFields(ObjectOrEmpty(target), patch);
      forall k | k in once && k in p
        ensures Merge(once[k], p[k]) == once[k]
      {
        MergeTwice(if k in ObjectOrEmpty(target) then ObjectOrEmpty(target)[k] else Null, p[k]);
      }
      assert MergeFields(once, patch) == once;
    }
  }

  // ---------------------------------------------------------------------------------------
  // Written paths
  // ---------------------------------------------------------------------------------------

  predicate Nested(v: Json) {
    v.Obj? && v.fields != map[]
  }

  // A path to a leaf of the patch; an empty object counts as a leaf.
  predicate Writes(patch: Json, path: Path)
    decreases patch
  {
    && patch.Obj? && path != [] && path[0] in patch.fields
    && var v := patch.fields[path[0]];
       if Nested(v) then Writes(v, path[1..]) else |path| == 1
  }

  predicate Overlap(a: Path, b: Path) {
    a <= b || b <= a
  }

  // Two patches that write to different places only.
  ghost predicate Disjoint(p: Json, q: Json) {
    forall a, b | Writes(p, a) && Writes(q, b) :: !Overlap(a, b)
  }

  method PathsOverlap(left: Path, right: Path) returns (overlap: bool)
    ensures overlap <==> Overlap(left, right)
  {
    var sharedLength := if |left| <= |right| then |left| else |right|;
    for index := 0 to sharedLength
      invariant left[..index] == right[..index]
    {
      if left[index] != right[index] {
        assert !(left <= right) && !(right <= left);
        return false;
      }
    }
    return true;
  }

  lemma {:induction false} PrefixSplits(key: Text, a: Path, b: Path)
    ensures Overlap([key] + a, [key] + b) <==> Overlap(a, b)
  {
    assert ([key] + a)[1..] == a && ([key] + b)[1..] == b;
    assert a <= b ==> [key] + b == [key] + a + b[|a|..];
    assert b <= a ==> [key] + a == [key] + b + a[|b|..];
  }

  // The paths of one patch never overlap each other.
  lemma {:induction false} OnePatchHasDistinctPaths(patch: Json, a: Path, b: Path)
    requires Writes(patch, a) && Writes(patch, b) && Overlap(a, b)
    ensures a == b
    decreases patch
  {
    assert a[0] == b[0];
    var v := patch.fields[a[0]];
    if Nested(v) {
      assert a == [a[0]] + a[1..] && b == [b[0]] + b[1..];
      PrefixSplits(a[0], a[1..], b[1..]);
      OnePatchHasDistinctPaths(v, a[1..], b[1..]);
    }
  }

  // Every path of the patch below `prefix`, each once, whatever order the keys come in.
  method CollectWrittenPaths(patch: Json, prefix: Path) returns (paths: seq<Path>)
    requires patch.Obj?
    ensures forall path <- paths :: prefix <= path && Writes(patch, path[|prefix|..])
    ensures forall path | Writes(patch, path) :: prefix + path in paths
    ensures forall i, j | 0 <= i < j < |paths| :: paths[i] != paths[j]
    decreases patch
  {
    paths := [];
    var left := patch.fields.Keys;
    while left != {}
      invariant left <= patch.fields.Keys
      invariant forall path <- paths :: Collected(patch, prefix, left, path)
      invariant forall path | Writes(patch, path) && path[0] !in left :: prefix + path in paths
      invariant forall i, j | 0 <= i < j < |paths| :: paths[i] != paths[j]
      decreases |left|
    {
      var key :| key in left;
      var value := patch.fields[key];
      var path := prefix + [key];
      ghost var before := paths;
      if value.Obj? && |value.fields| > 0 {
        var inner := CollectWrittenPaths(value, path);
        forall p <- inner ensures Writes(patch, p[|prefix|..]) && prefix <= p && p[|prefix|] == key {
          assert p[|prefix|..][1..] == p[|path|..];
        }
        forall i, j | 0 <= i < |paths| && 0 <= j < |inner| ensures paths[i] != inner[j] {
          assert Collected(patch, prefix, left, paths[i]);
        }
        paths := paths + inner;
        forall p | Writes(patch, p) && p[0] == key ensures prefix + p in paths {
          assert path + p[1..] == prefix + p;
        }
      } else {
        assert path[|prefix|..] == [key];
        forall i | 0 <= i < |paths| ensures paths[i] != path {
          assert Collected(patch, prefix, left, paths[i]);
        }
        paths := paths + [path];
        forall p | Writes(patch, p) && p[0] == key ensures prefix + p in paths {
          assert p == [key];
          assert paths[|paths| - 1] == prefix + p;
        }
      }
      left := left - {key};
      forall p <- paths ensures Collected(patch, prefix, left, p) {
        if p in before {
          assert Collected(patch, prefix, left + {key}, p);
        }
      }
      forall p | Writes(patch, p) && p[0] !in left ensures prefix + p in paths {
        if p[0] != key {
          assert prefix + p in before;
        }
      }
    }
  }

  ghost predicate Collected(patch: Json, prefix: Path, left: set<Text>, path: Path) {
    prefix <= path && Writes(patch, path[|prefix|..]) && path[|prefix|] !in left
  }

  // ---------------------------------------------------------------------------------------
  // Ordered application
  // ---------------------------------------------------------------------------------------

  datatype NamedPatch = NamedPatch(option: string, patch: Json)

  datatype OwnedPath = OwnedPath(option: string, path: Path)

  // What the thrown error names: the path, the option that owns it and the one that wants it.
  datatype Conflict = Conflict(path: Path, owner: string, writer: string)

  function Patches(named: seq<NamedPatch>): (patches: seq<Json>)
    ensures |patches| == |named|
    ensures forall i | 0 <= i < |named| :: patches[i] == named[i].patch
  {
    if named == [] then [] else [named[0].patch] + Patches(named[1..])
  }

  ghost predicate Accepted(patches: seq<Json>) {
    forall i, j | 0 <= i < j < |patches| :: Disjoint(patches[i], patches[j])
  }

  // The conflict is real: patch j wants to write where an earlier patch i writes.
  ghost predicate Justified(named: seq<NamedPatch>, c: Conflict, i: nat, j: nat, owned: Path) {
    && i < j < |named|
    && named[i].option == c.owner && named[j].option == c.writer
    && Writes(named[j].patch, c.path) && Writes(named[i].patch, owned) && Overlap(owned, c.path)
    && Accepted(Patches(named)[..j])
  }

  // ownedPaths.find: the first owned path that overlaps `path`.
  method FindOverlap(ownedPaths: seq<OwnedPath>, path: Path) returns (found: Option<OwnedPath>)
    ensures found.None? ==> forall o <- ownedPaths :: !Overlap(o.path, path)
    ensures found.Some? ==>
              exists k :: 0 <= k < |ownedPaths| && found.value == ownedPaths[k] && Overlap(ownedPaths[k].path, path)
                                       && forall l | 0 <= l < k :: !Overlap(ownedPaths[l].path, path)
  {
    for o := 0 to |ownedPaths|
      invariant forall k | 0 <= k < o :: !Overlap(ownedPaths[k].path, path)
    {
      var overlap := PathsOverlap(ownedPaths[o].path, path);
      if overlap {
        return Some(ownedPaths[o]);
      }
    }
    return None;
  }

  // The part of the loop that registers the paths of patch n, or finds one of them taken.
  method OwnPaths(named: seq<NamedPatch>, n: nat, ownedPaths: seq<OwnedPath>, paths: seq<Path>)
      returns (r: Result<seq<OwnedPath>, Conflict>)
    requires n < |named|
    requires Owned(named, n, ownedPaths) && Accepted(Patches(named)[..n])
    requires PathsOf(named[n].patch, paths)
    ensures r.Ok? ==> Owned(named, n + 1, r.value) && Accepted(Patches(named)[..n + 1])
    ensures r.Err? ==> Refused(named, r.error)
  {
    var owned := ownedPaths;
    for m := 0 to |paths|
      invariant OwnedSoFar(named, n, owned, paths[..m])
      invariant forall k, i | 0 <= k < m && 0 <= i < n :: NoneOverlap(named[i].patch, paths[k])
    {
      var conflict := FindOverlap(owned, paths[m]);
      if conflict.Some? {
        ghost var o := conflict.value;
        ConflictIsJustified(named, n, owned, paths, m, o);
        ghost var i: nat :| i < n && named[i].option == o.option && Writes(named[i].patch, o.path);
        RefusedForGood(named, Conflict(paths[m], o.option, named[n].option), i, n, o.path);
        return Err(Conflict(paths[m], conflict.value.option, named[n].option));
      }
      NothingOwnedOverlaps(named, n, owned, paths[..m], paths[m]);
      OwnedGrows(named, n, owned, paths[..m], paths[m]);
      owned := owned + [OwnedPath(named[n].option, paths[m])];
      assert paths[..m + 1] == paths[..m] + [paths[m]];
    }
    assert paths[..|paths|] == paths;
    AcceptOneMore(named, n, paths);
    OwnOneMore(named, n, owned, paths);
    return Ok(owned);
  }

  ghost predicate Refused(named: seq<NamedPatch>, c: Conflict) {
    && !Accepted(Patches(named))
    && exists i: nat, j: nat, owned: Path :: Justified(named, c, i, j, owned)
  }

  lemma {:induction false} FoldOneMore(body: Json, patches: seq<Json>, n: nat)
    requires n < |patches|
    ensures Fold(body, patches[..n + 1]) == Merge(Fold(body, patches[..n]), patches[n])
  {
    FoldAppend(body, patches[..n], patches[n]);
    assert patches[..n + 1] == patches[..n] + [patches[n]];
  }

  lemma {:induction false} NothingApplied(body: Json, named: seq<NamedPatch>)
    ensures Accepted(Patches(named)[..0]) && Fold(body, Patches(named)[..0]) == body && Owned(named, 0, [])
  {
  }

  method ApplyOrderedJsonMergePatches(body: Json, named: seq<NamedPatch>) returns (r: Result<Json, Conflict>)
    requires body.Obj?
    requires forall n <- named :: n.patch.Obj?
    ensures r.Ok? <==> Accepted(Patches(named))
    ensures r.Ok? ==> r.value == Fold(body, Patches(named))
    ensures r.Err? ==> Refused(named, r.error)
  {
    hide Fold, Accepted, Owned, Refused, Merge, PathsOf;
    var ownedPaths: seq<OwnedPath> := [];
    ghost var patches := Patches(named);
    var result := CloneJson(body);
    NothingApplied(body, named);
    for n := 0 to |named|
      invariant result.Obj?
      invariant Accepted(patches[..n])
      invariant result == Fold(body, patches[..n])
      invariant Owned(named, n, ownedPaths)
    {
      var paths := CollectWrittenPaths(named[n].patch, []);
      RootPaths(named[n].patch, paths);
      var owned := OwnPaths(named, n, ownedPaths, paths);
      if owned.Err? {
        return Err(owned.error);
      }
      ownedPaths := owned.value;
      var merged := MergeObject(result.fields, named[n].patch);
      FoldOneMore(body, patches, n);
      result := Obj(merged);
    }
    assert patches[..|named|] == patches;
    return Ok(result);
  }

  // Exactly the paths of a patch, each once.
  ghost predicate PathsOf(patch: Json, paths: seq<Path>) {
    && (forall path <- paths :: Writes(patch, path))
    && (forall path | Writes(patch, path) :: path in paths)
    && (forall i, j | 0 <= i < j < |paths| :: paths[i] != paths[j])
  }

  lemma {:induction false} RootPaths(patch: Json, paths: seq<Path>)
    requires forall path <- paths :: [] <= path && Writes(patch, path[0..])
    requires forall path | Writes(patch, path) :: [] + path in paths
    requires forall i, j | 0 <= i < j < |paths| :: paths[i] != paths[j]
    ensures PathsOf(patch, paths)
  {
    forall path <- paths ensures Writes(patch, path) {
      assert path[0..] == path;
    }
    forall path | Writes(patch, path) ensures path in paths {
      assert [] + path == path;
    }
  }

  lemma {:induction false} RefusedForGood(named: seq<NamedPatch>, c: Conflict, i: nat, j: nat, owned: Path)
    requires Justified(named, c, i, j, owned)
    ensures Refused(named, c)
  {
    assert !Disjoint(Patches(named)[i], Patches(named)[j]);
  }

  ghost predicate NoneOverlap(patch: Json, path: Path) {
    forall a | Writes(patch, a) :: !Overlap(a, path)
  }

  ghost predicate OwnedBy(named: seq<NamedPatch>, n: nat, o: OwnedPath)
    requires n <= |named|
  {
    exists i :: 0 <= i < n && named[i].option == o.option && Writes(named[i].patch, o.path)
  }

  // Exactly the paths of the first n patches are owned.
  ghost predicate Owned(named: seq<NamedPatch>, n: nat, owned: seq<OwnedPath>)
    requires n <= |named|
  {
    && (forall o <- owned :: OwnedBy(named, n, o))
    && (forall i, a | 0 <= i < n && Writes(named[i].patch, a) :: OwnedPath(named[i].option, a) in owned)
  }

  // The same, with some of the next patch's paths already added.
  ghost predicate OwnedSoFar(named: seq<NamedPatch>, n: nat, owned: seq<OwnedPath>, taken: seq<Path>)
    requires n < |named|
  {
    && (forall o <- owned :: OwnedBy(named, n, o) || (o.option == named[n].option && o.path in taken))
    && (forall i, a | 0 <= i < n && Writes(named[i].patch, a) :: OwnedPath(named[i].option, a) in owned)
    && (forall a <- taken :: OwnedPath(named[n].option, a) in owned)
  }

  // An overlap found is never with a path of the same patch.
  lemma {:induction false} ConflictIsJustified(named: seq<NamedPatch>, n: nat, owned: seq<OwnedPath>, paths: seq<Path>,
                                               m: nat, o: OwnedPath)
    requires n < |named| && m < |paths|
    requires OwnedSoFar(named, n, owned, paths[..m])
    requires PathsOf(named[n].patch, paths)
    requires o in owned && Overlap(o.path, paths[m])
    ensures OwnedBy(named, n, o)
  {
    if o.path in paths[..m] {
      OnePatchHasDistinctPaths(named[n].patch, o.path, paths[m]);
      assert false;
    }
  }

  lemma {:induction false} NothingOwnedOverlaps(named: seq<NamedPatch>, n: nat, owned: seq<OwnedPath>,
                                                taken: seq<Path>, path: Path)
    requires n < |named|
    requires OwnedSoFar(named, n, owned, taken)
    requires forall k | 0 <= k < |owned| :: !Overlap(owned[k].path, path)
    ensures forall i | 0 <= i < n :: NoneOverlap(named[i].patch, path)
  {
    forall i, a | 0 <= i < n && Writes(named[i].patch, a) ensures !Overlap(a, path) {
      assert OwnedPath(named[i].option, a) in owned;
    }
  }

  lemma {:induction false} OwnedGrows(named: seq<NamedPatch>, n: nat, owned: seq<OwnedPath>, taken: seq<Path>,
                                      path: Path)
    requires n < |named|
    requires OwnedSoFar(named, n, owned, taken)
    ensures OwnedSoFar(named, n, owned + [OwnedPath(named[n].option, path)], taken + [path])
  {
  }

  lemma {:induction false} AcceptOneMore(named: seq<NamedPatch>, n: nat, paths: seq<Path>)
    requires n < |named|
    requires Accepted(Patches(named)[..n])
    requires PathsOf(named[n].patch, paths)
    requires forall k, i | 0 <= k < |paths| && 0 <= i < n :: NoneOverlap(named[i].patch, paths[k])
    ensures Accepted(Patches(named)[..n + 1])
  {
    var patches := Patches(named);
    forall i | 0 <= i < n ensures Disjoint(patches[i], patches[n]) {
      forall a, b | Writes(patches[i], a) && Writes(patches[n], b) ensures !Overlap(a, b) {
        assert b in paths;
        assert NoneOverlap(named[i].patch, b);
      }
    }
    forall i, j | 0 <= i < j < n ensures Disjoint(patches[i], patches[j]) {
      assert Disjoint(patches[..n][i], patches[..n][j]);
    }
  }

  lemma {:induction false} OwnOneMore(named: seq<NamedPatch>, n: nat, owned: seq<OwnedPath>, paths: seq<Path>)
    requires n < |named|
    requires OwnedSoFar(named, n, owned, paths)
    requires PathsOf(named[n].patch, paths)
    ensures Owned(named, n + 1, owned)
  {
    forall o <- owned ensures OwnedBy(named, n + 1, o) {
      if OwnedBy(named, n, o) {
        var i :| 0 <= i < n && named[i].option == o.option && Writes(named[i].patch, o.path);
      } else {
        assert Writes(named[n].patch, o.path);
      }
    }
  }

  lemma {:induction false} FoldAppend(body: Json, patches: seq<Json>, patch: Json)
    ensures Fold(body, patches + [patch]) == Merge(Fold(body, patches), patch)
    decreases |patches|
  {
    if patches == [] {
      assert [patch][1..] == [];
    } else {
      assert (patches + [patch])[1..] == patches[1..] + [patch];
      FoldAppend(Merge(body, patches[0]), patches[1..], patch);
    }
  }
}
