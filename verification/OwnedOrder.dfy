// packages/provider/src/owned-order.ts: one order for the members of two owners.

module OwnedOrder {
  import opened CodeUnits
  import opened Wrappers

  type Id = Text

  // First occurrences only.
  function Unique(ids: seq<Id>): (u: seq<Id>) {
    if ids == [] then [] else
    var before, last := Unique(ids[..|ids| - 1]), ids[|ids| - 1];
    if last in before then before else before + [last]
  }

  // The ids that are, or are not, in a set, in their order.
  function Only(ids: seq<Id>, members: set<Id>): (kept: seq<Id>) {
    if ids == [] then []
    else if ids[0] in members then [ids[0]] + Only(ids[1..], members)
    else Only(ids[1..], members)
  }

  function Except(ids: seq<Id>, members: set<Id>): (kept: seq<Id>) {
    if ids == [] then []
    else if ids[0] in members then Except(ids[1..], members)
    else [ids[0]] + Except(ids[1..], members)
  }

  function Members(ids: seq<Id>): (s: set<Id>) {
    set id | id in ids
  }

  function ResolveOwnedOrder(builtinIds: seq<Id>, personalIds: seq<Id>, requested: seq<Id>): (order: seq<Id>) {
    var builtin := Unique(builtinIds);
    var personal := Except(Unique(personalIds), Members(builtin));
    var ordered := Only(Unique(requested), Members(builtin + personal));
    Except(builtin, Members(ordered)) + ordered + Except(personal, Members(ordered))
  }

  // ---------------------------------------------------------------------------------------
  // Filters
  // ---------------------------------------------------------------------------------------

  lemma {:induction false} UniqueFacts(ids: seq<Id>)
    ensures Distinct(Unique(ids))
    ensures forall id :: id in Unique(ids) <==> id in ids
  {
    if ids != [] {
      var n := |ids| - 1;
      UniqueFacts(ids[..n]);
      assert ids == ids[..n] + [ids[n]];
      forall id ensures id in Unique(ids) <==> id in ids {
        assert id in ids <==> id in ids[..n] || id == ids[n];
      }
    }
  }

  lemma {:induction false} UniqueOfDistinct(ids: seq<Id>)
    requires Distinct(ids)
    ensures Unique(ids) == ids
  {
    if ids != [] {
      var n := |ids| - 1;
      UniqueOfDistinct(ids[..n]);
      assert ids == ids[..n] + [ids[n]];
    }
  }

  lemma {:induction false} OnlyFacts(ids: seq<Id>, members: set<Id>)
    ensures forall id :: id in Only(ids, members) <==> id in ids && id in members
    ensures Distinct(ids) ==> Distinct(Only(ids, members))
  {
    if ids != [] {
      OnlyFacts(ids[1..], members);
      forall id ensures id in Only(ids, members) <==> id in ids && id in members {
        assert id in ids <==> id == ids[0] || id in ids[1..];
      }
      if Distinct(ids) {
        assert ids[0] !in ids[1..];
        FirstIsNew(ids[0], Only(ids[1..], members));
      }
    }
  }

  lemma {:induction false} ExceptFacts(ids: seq<Id>, members: set<Id>)
    ensures forall id :: id in Except(ids, members) <==> id in ids && id !in members
    ensures Distinct(ids) ==> Distinct(Except(ids, members))
  {
    if ids != [] {
      ExceptFacts(ids[1..], members);
      forall id ensures id in Except(ids, members) <==> id in ids && id !in members {
        assert id in ids <==> id == ids[0] || id in ids[1..];
      }
      if Distinct(ids) {
        assert ids[0] !in ids[1..];
        FirstIsNew(ids[0], Except(ids[1..], members));
      }
    }
  }

  lemma {:induction false} FirstIsNew(id: Id, ids: seq<Id>)
    requires Distinct(ids) && id !in ids
    ensures Distinct([id] + ids)
  {
  }

  lemma {:induction false} ExceptAll(ids: seq<Id>, members: set<Id>)
    requires forall id <- ids :: id in members
    ensures Except(ids, members) == []
  {
    if ids != [] {
      ExceptAll(ids[1..], members);
    }
  }

  lemma {:induction false} ExceptNone(ids: seq<Id>, members: set<Id>)
    requires forall id <- ids :: id !in members
    ensures Except(ids, members) == ids
  {
    if ids != [] {
      ExceptNone(ids[1..], members);
    }
  }

  lemma {:induction false} OnlyAll(ids: seq<Id>, members: set<Id>)
    requires forall id <- ids :: id in members
    ensures Only(ids, members) == ids
  {
    if ids != [] {
      OnlyAll(ids[1..], members);
    }
  }

  lemma {:induction false} DistinctJoin(a: seq<Id>, b: seq<Id>)
    requires Distinct(a) && Distinct(b)
    requires forall id <- a :: id !in b
    ensures Distinct(a + b)
  {
    forall i, j | 0 <= i < j < |a + b| ensures (a + b)[i] != (a + b)[j] {
      if i < |a| && |a| <= j {
        assert (a + b)[i] in a && (a + b)[j] in b;
      }
    }
  }

  // ---------------------------------------------------------------------------------------
  // What the resolved order is
  // ---------------------------------------------------------------------------------------

  // The members of both owners, each once.
  ghost predicate Lists(order: seq<Id>, builtinIds: seq<Id>, personalIds: seq<Id>) {
    Distinct(order) && forall id :: id in order <==> id in builtinIds || id in personalIds
  }

  lemma {:induction false} OrderListsEveryMemberOnce(builtinIds: seq<Id>, personalIds: seq<Id>, requested: seq<Id>)
    ensures Lists(ResolveOwnedOrder(builtinIds, personalIds, requested), builtinIds, personalIds)
  {
    var builtin := Unique(builtinIds);
    var personal := Except(Unique(personalIds), Members(builtin));
    var ordered := Only(Unique(requested), Members(builtin + personal));
    UniqueFacts(builtinIds);
    UniqueFacts(personalIds);
    UniqueFacts(requested);
    ExceptFacts(Unique(personalIds), Members(builtin));
    OnlyFacts(Unique(requested), Members(builtin + personal));
    ExceptFacts(builtin, Members(ordered));
    ExceptFacts(personal, Members(ordered));
    DistinctJoin(Except(builtin, Members(ordered)), ordered);
    DistinctJoin(Except(builtin, Members(ordered)) + ordered, Except(personal, Members(ordered)));
  }

  // What was asked for keeps its order, without what is no member; Built-in members nobody asked
  // for come before all of it, Personal ones after.
  lemma {:induction false} OrderFollowsTheRequest(builtinIds: seq<Id>, personalIds: seq<Id>, requested: seq<Id>)
    returns (before: seq<Id>, ordered: seq<Id>, after: seq<Id>)
    ensures ResolveOwnedOrder(builtinIds, personalIds, requested) == before + ordered + after
    ensures ordered == Only(Unique(requested), Members(builtinIds + personalIds))
    ensures forall id :: id in before <==> id in builtinIds && id !in requested
    ensures forall id :: id in after <==> id in personalIds && id !in builtinIds && id !in requested
  {
    var builtin := Unique(builtinIds);
    var personal := Except(Unique(personalIds), Members(builtin));
    UniqueFacts(builtinIds);
    UniqueFacts(personalIds);
    UniqueFacts(requested);
    ExceptFacts(Unique(personalIds), Members(builtin));
    assert Members(builtin + personal) == Members(builtinIds + personalIds);
    ordered := Only(Unique(requested), Members(builtin + personal));
    OnlyFacts(Unique(requested), Members(builtin + personal));
    ExceptFacts(builtin, Members(ordered));
    ExceptFacts(personal, Members(ordered));
    before, after := Except(builtin, Members(ordered)), Except(personal, Members(ordered));
  }

  // A request that names every member once, and perhaps others, is stripped of the others.
  lemma {:induction false} FullRequestIsKept(builtinIds: seq<Id>, personalIds: seq<Id>, requested: seq<Id>,
                                             order: seq<Id>)
    requires Distinct(requested) && Lists(order, builtinIds, personalIds)
    requires order == Only(requested, Members(builtinIds + personalIds))
    ensures ResolveOwnedOrder(builtinIds, personalIds, requested) == order
  {
    hide Unique, Except, Only, Distinct;
    var builtin := Unique(builtinIds);
    var personal := Except(Unique(personalIds), Members(builtin));
    UniqueFacts(builtinIds);
    UniqueFacts(personalIds);
    UniqueOfDistinct(requested);
    ExceptFacts(Unique(personalIds), Members(builtin));
    assert Members(builtin + personal) == Members(builtinIds + personalIds);
    ExceptAll(builtin, Members(order));
    ExceptAll(personal, Members(order));
    assert [] + order + [] == order;
  }

  // An order that lists every member once is left alone; so resolving twice changes nothing.
  lemma {:induction false} ListedOrderIsKept(builtinIds: seq<Id>, personalIds: seq<Id>, order: seq<Id>)
    requires Lists(order, builtinIds, personalIds)
    ensures ResolveOwnedOrder(builtinIds, personalIds, order) == order
  {
    OnlyAll(order, Members(builtinIds + personalIds));
    FullRequestIsKept(builtinIds, personalIds, order, order);
  }

  // ---------------------------------------------------------------------------------------
  // The loops
  // ---------------------------------------------------------------------------------------

  method UniqueInOrder(values: seq<Id>) returns (result: seq<Id>)
    ensures result == Unique(values)
  {
    var seen: set<Id> := {};
    result := [];
    for i := 0 to |values|
      invariant result == Unique(values[..i])
      invariant seen == Members(result)
    {
      assert values[..i + 1][..i] == values[..i];
      if values[i] !in seen {
        seen := seen + {values[i]};
        result := result + [values[i]];
      }
    }
    assert values[..|values|] == values;
  }
}
