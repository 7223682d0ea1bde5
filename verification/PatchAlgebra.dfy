// What accepted merge patches guarantee together.

module PatchAlgebra {
  import opened CodeUnits
  import opened Wrappers
  import opened Json
  import opened MergePatch

  // ---------------------------------------------------------------------------------------
  // Disjoint paths, seen on the patches themselves
  // ---------------------------------------------------------------------------------------

  // Wherever both patches have a key, both go deeper.
  ghost predicate Apart(p: Json, q: Json)
    requires p.Obj? && q.Obj?
    decreases p
  {
    forall k | k in p.fields && k in q.fields ::
      Nested(p.fields[k]) && Nested(q.fields[k]) && Apart(p.fields[k], q.fields[k])
  }

  // Every patch that is not empty writes somewhere.
  lemma {:induction false} SomePath(patch: Json) returns (path: Path)
    requires Nested(patch)
    ensures Writes(patch, path)
    decreases patch
  {
    var key :| key in patch.fields;
    var v := patch.fields[key];
    path := [key];
    if Nested(v) {
      var inner := SomePath(v);
      path := [key] + inner;
      assert path[1..] == inner;
    }
  }

  lemma {:induction false} DisjointIsApart(p: Json, q: Json)
    requires p.Obj? && q.Obj?
    ensures Disjoint(p, q) <==> Apart(p, q)
    decreases p
  {
    if Disjoint(p, q) {
      forall k | k in p.fields && k in q.fields
        ensures Nested(p.fields[k]) && Nested(q.fields[k]) && Apart(p.fields[k], q.fields[k])
      {
        DisjointBelow(p, q, k);
        DisjointIsApart(p.fields[k], q.fields[k]);
      }
    }
    if Apart(p, q) {
      forall a, b | Writes(p, a) && Writes(q, b) ensures !Overlap(a, b) {
        if a[0] == b[0] {
          var k := a[0];
          DisjointIsApart(p.fields[k], q.fields[k]);
          assert a == [k] + a[1..] && b == [k] + b[1..];
          PrefixSplits(k, a[1..], b[1..]);
        }
      }
    }
  }

  lemma {:induction false} DisjointBelow(p: Json, q: Json, k: Text)
    requires p.Obj? && q.Obj? && Disjoint(p, q)
    requires k in p.fields && k in q.fields
    ensures Nested(p.fields[k]) && Nested(q.fields[k]) && Disjoint(p.fields[k], q.fields[k])
  {
    var a := PathThrough(p, k);
    var b := PathThrough(q, k);
    assert !Overlap(a, b);
    forall a, b | Writes(p.fields[k], a) && Writes(q.fields[k], b) ensures !Overlap(a, b) {
      assert ([k] + a)[1..] == a && ([k] + b)[1..] == b;
      assert Writes(p, [k] + a) && Writes(q, [k] + b);
      PrefixSplits(k, a, b);
    }
  }

  lemma {:induction false} PathThrough(p: Json, k: Text) returns (path: Path)
    requires p.Obj? && k in p.fields
    ensures Writes(p, path) && path[0] == k
    ensures !Nested(p.fields[k]) ==> path == [k]
  {
    path := [k];
    if Nested(p.fields[k]) {
      var inner := SomePath(p.fields[k]);
      path := [k] + inner;
      assert path[1..] == inner;
    }
  }

  // ---------------------------------------------------------------------------------------
  // Two patches
  // ---------------------------------------------------------------------------------------

  // Patches that write to different places commute on every target.
  lemma {:induction false} ApartCommute(target: Json, p: Json, q: Json)
    requires p.Obj? && q.Obj? && Apart(p, q)
    ensures Merge(Merge(target, p), q) == Merge(Merge(target, q), p)
    decreases p
  {
    var t := ObjectOrEmpty(target);
    var pq := MergeFields(MergeFields(t, p), q);
    var qp := MergeFields(MergeFields(t, q), p);
    forall k | k in pq || k in qp
      ensures k in pq && k in qp && pq[k] == qp[k]
    {
      if k in p.fields && k in q.fields {
        ApartCommute(if k in t then t[k] else Null, p.fields[k], q.fields[k]);
      }
    }
    assert pq == qp;
  }

  lemma {:induction false} DisjointIsSymmetric(p: Json, q: Json)
    requires Disjoint(p, q)
    ensures Disjoint(q, p)
  {
    forall a, b | Writes(q, a) && Writes(p, b) ensures !Overlap(a, b) {
      assert !Overlap(b, a);
    }
  }

  // ---------------------------------------------------------------------------------------
  // Patch lists
  // ---------------------------------------------------------------------------------------

  ghost predicate AllObjects(patches: seq<Json>) {
    forall p <- patches :: p.Obj?
  }

  // A patch that is apart from all earlier ones may as well be applied first.
  lemma {:induction false} ApplyFirst(body: Json, before: seq<Json>, p: Json)
    requires AllObjects(before) && p.Obj?
    requires forall q <- before :: Disjoint(q, p)
    ensures Merge(Fold(body, before), p) == Fold(Merge(body, p), before)
    decreases |before|
  {
    if before != [] {
      var q := before[0];
      ApplyFirst(Merge(body, q), before[1..], p);
      DisjointIsApart(q, p);
      ApartCommute(body, q, p);
    }
  }

  lemma {:induction false} FoldConcat(body: Json, a: seq<Json>, b: seq<Json>)
    ensures Fold(body, a + b) == Fold(Fold(body, a), b)
    decreases |a|
  {
    if a == [] {
      assert a + b == b;
    } else {
      assert (a + b)[1..] == a[1..] + b;
      FoldConcat(Merge(body, a[0]), a[1..], b);
    }
  }

  // Moving one patch to the front changes neither the verdict nor the result.
  lemma {:induction false} MoveToFront(body: Json, a: seq<Json>, p: Json, b: seq<Json>)
    requires AllObjects(a + [p] + b) && Accepted(a + [p] + b)
    ensures Fold(body, a + [p] + b) == Fold(Merge(body, p), a + b)
    ensures Accepted(a + b)
    ensures forall q <- a + b :: Disjoint(p, q)
  {
    hide Disjoint, Fold, Merge;
    var all := a + [p] + b;
    forall q <- a ensures q.Obj? && Disjoint(q, p) {
      var i :| 0 <= i < |a| && a[i] == q;
      assert all[i] == q && all[|a|] == p;
    }
    ApplyFirst(body, a, p);
    FoldConcat(body, a + [p], b);
    FoldAppend(body, a, p);
    FoldConcat(Merge(body, p), a, b);
    forall i, j | 0 <= i < j < |a + b| ensures Disjoint((a + b)[i], (a + b)[j]) {
      var i', j' := if i < |a| then i else i + 1, if j < |a| then j else j + 1;
      assert all[i'] == (a + b)[i] && all[j'] == (a + b)[j];
    }
    forall q <- a + b ensures Disjoint(p, q) {
      if q in a {
        DisjointIsSymmetric(q, p);
      } else {
        var j :| 0 <= j < |b| && b[j] == q;
        assert all[|a|] == p && all[|a| + 1 + j] == q;
      }
    }
  }

  // Whenever a patch list is accepted, every permutation of it is, with the same result.
  lemma {:induction false} OrderDoesNotMatter(body: Json, patches: seq<Json>, permuted: seq<Json>)
    requires AllObjects(patches) && Accepted(patches)
    requires multiset(permuted) == multiset(patches)
    ensures Accepted(permuted)
    ensures Fold(body, permuted) == Fold(body, patches)
    decreases |permuted|
  {
    if permuted == [] {
      assert |multiset(patches)| == |multiset(permuted)| == 0;
      assert patches == [];
    } else {
      var p, rest := permuted[0], permuted[1..];
      assert permuted == [p] + rest;
      var a, b := Without(patches, p, rest);
      MoveToFront(body, a, p, b);
      assert AllObjects(a + b) by {
        forall q: Json | q in a + b ensures q in patches {
        }
      }
      OrderDoesNotMatter(Merge(body, p), a + b, rest);
      AcceptedCons(p, rest, a + b);
    }
  }

  // The place of the permutation's first patch, and what is left around it.
  lemma {:induction false} Without(patches: seq<Json>, p: Json, rest: seq<Json>) returns (a: seq<Json>, b: seq<Json>)
    requires multiset([p] + rest) == multiset(patches)
    ensures patches == a + [p] + b
    ensures multiset(rest) == multiset(a + b)
  {
    assert p in multiset([p] + rest);
    var i :| 0 <= i < |patches| && patches[i] == p;
    a, b := patches[..i], patches[i + 1..];
    assert patches == a + [p] + b;
    assert multiset(patches) == multiset(a) + multiset{p} + multiset(b);
    assert multiset([p] + rest) == multiset{p} + multiset(rest);
    assert multiset(rest) == multiset(patches) - multiset{p};
    assert multiset(a + b) == multiset(a) + multiset(b) == multiset(patches) - multiset{p};
  }

  lemma {:induction false} AcceptedCons(p: Json, rest: seq<Json>, same: seq<Json>)
    requires Accepted(rest) && multiset(rest) == multiset(same)
    requires forall q <- same :: Disjoint(p, q)
    ensures Accepted([p] + rest)
  {
    forall i, j | 0 <= i < j < |rest| + 1 ensures Disjoint(([p] + rest)[i], ([p] + rest)[j]) {
      if i == 0 {
        assert rest[j - 1] in multiset(rest);
        assert rest[j - 1] in same;
      }
    }
  }

  // No patch of an accepted list is overwritten by another: merging any of them into the result
  // once more changes nothing.
  lemma {:induction false} NothingIsOverwritten(body: Json, patches: seq<Json>, i: nat)
    requires AllObjects(patches) && Accepted(patches)
    requires i < |patches|
    ensures Merge(Fold(body, patches), patches[i]) == Fold(body, patches)
  {
    var a, p, b := patches[..i], patches[i], patches[i + 1..];
    var last := a + b + [p];
    assert patches == a + [p] + b;
    assert multiset(last) == multiset(patches);
    OrderDoesNotMatter(body, patches, last);
    FoldAppend(body, a + b, p);
    MergeTwice(Fold(body, a + b), p);
  }

  // ---------------------------------------------------------------------------------------
  // Places
  // ---------------------------------------------------------------------------------------

  function At(v: Json, path: Path): (found: Option<Json>) {
    if path == [] then Some(v)
    else if v.Obj? && path[0] in v.fields then At(v.fields[path[0]], path[1..])
    else None
  }

  // Away from the written paths the value is what it was.
  lemma {:induction false} ElsewhereIsUnchanged(target: Json, patch: Json, path: Path)
    requires target.Obj? && patch.Obj?
    requires forall a | Writes(patch, a) :: !Overlap(a, path)
    ensures At(Merge(target, patch), path) == At(target, path)
    decreases patch, 0
  {
    if path == [] {
      if patch.fields != map[] {
        var a := SomePath(patch);
        assert false;
      }
      assert MergeFields(target.fields, patch) == target.fields;
    } else if path[0] in patch.fields {
      var k, v := path[0], patch.fields[path[0]];
      assert path == [k] + path[1..];
      var through := PathThrough(patch, k);
      assert !Overlap(through, path);
      assert Nested(v);
      forall a | Writes(v, a) ensures !Overlap(a, path[1..]) {
        assert ([k] + a)[1..] == a;
        assert Writes(patch, [k] + a);
        PrefixSplits(k, a, path[1..]);
      }
      NonObjectsHaveNothingInside(target, v, path);
    }
  }

  lemma {:induction false} NonObjectsHaveNothingInside(target: Json, v: Json, path: Path)
    requires target.Obj? && path != [] && Nested(v)
    requires forall a | Writes(v, a) :: !Overlap(a, path[1..])
    ensures var t := if path[0] in target.fields then target.fields[path[0]] else Null;
            At(Merge(t, v), path[1..]) == At(target, path)
    decreases v, 1
  {
    var t := if path[0] in target.fields then target.fields[path[0]] else Null;
    var start := Obj(ObjectOrEmpty(t));
    assert Merge(t, v) == Merge(start, v);
    if path[1..] == [] {
      var a := SomePath(v);
      assert false;
    } else {
      ElsewhereIsUnchanged(start, v, path[1..]);
    }
  }

  // At a written path stands what the patch says: a deletion leaves nothing, an empty object
  // keeps the object that was there or starts an empty one, anything else is written as it is.
  lemma {:induction false} WrittenPathsHoldThePatch(target: Json, patch: Json, path: Path)
    requires Writes(patch, path)
    ensures At(patch, path).Some?
    ensures var leaf := At(patch, path).value;
            At(Merge(target, patch), path) ==
              if leaf == Null then None
              else if leaf.Obj? then
                var there := At(target, path);
                Some(if there.Some? && there.value.Obj? then there.value else Obj(map[]))
              else Some(leaf)
    decreases patch
  {
    var k, v := path[0], patch.fields[path[0]];
    var t := if k in ObjectOrEmpty(target) then ObjectOrEmpty(target)[k] else Null;
    if Nested(v) {
      WrittenPathsHoldThePatch(t, v, path[1..]);
    } else {
      assert path[1..] == [];
      assert v.Obj? ==> MergeFields(ObjectOrEmpty(t), v) == ObjectOrEmpty(t);
      if v != Null {
        assert At(Merge(target, patch), path) == At(Merge(t, v), []) == Some(Merge(t, v));
      }
      assert At(target, path) == if target.Obj? && k in target.fields then At(target.fields[k], []) else None;
    }
  }
}
