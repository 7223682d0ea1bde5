// Who comes before whom.

module OrderPositions {
  // The resolved orders, characterised by positions alone: which of two members comes first, told
  // from the lists of the owners and the request.

  import opened CodeUnits
  import opened Wrappers
  import opened OwnedOrder
  import opened ModelMembership

  // The first a is there before any b.
  ghost predicate Precedes(ids: seq<Id>, a: Id, b: Id) {
    exists i | 0 <= i < |ids| :: ids[i] == a && b !in ids[..i + 1]
  }

  lemma {:induction false} PrecedesFirst(ids: seq<Id>, a: Id, b: Id)
    requires ids != []
    ensures Precedes(ids, a, b) <==> ids[0] != b && (ids[0] == a || Precedes(ids[1..], a, b))
  {
    if Precedes(ids, a, b) {
      var i :| 0 <= i < |ids| && ids[i] == a && b !in ids[..i + 1];
      assert ids[0] in ids[..i + 1];
      if i > 0 {
        assert ids[1..][i - 1] == a && ids[1..][..i] == ids[..i + 1][1..];
      }
    }
    if ids[0] != b && ids[0] == a {
      assert ids[..1] == [ids[0]];
    }
    if ids[0] != b && Precedes(ids[1..], a, b) {
      var i :| 0 <= i < |ids| - 1 && ids[1..][i] == a && b !in ids[1..][..i + 1];
      assert ids[..i + 2] == [ids[0]] + ids[1..][..i + 1];
      assert ids[i + 1] == a;
    }
  }

  lemma {:induction false} PrecedesJoin(p: seq<Id>, q: seq<Id>, a: Id, b: Id)
    ensures Precedes(p + q, a, b) <==> Precedes(p, a, b) || (b !in p && Precedes(q, a, b))
  {
    if p == [] {
      assert p + q == q;
    } else {
      PrecedesFirst(p + q, a, b);
      PrecedesFirst(p, a, b);
      assert (p + q)[1..] == p[1..] + q;
      PrecedesJoin(p[1..], q, a, b);
      assert b in p <==> b == p[0] || b in p[1..];
    }
  }

  lemma {:induction false} OnlyMembersPrecede(ids: seq<Id>, a: Id, b: Id)
    ensures a !in ids ==> !Precedes(ids, a, b)
    ensures a in ids && b !in ids ==> Precedes(ids, a, b)
  {
    if a in ids && b !in ids {
      var i :| 0 <= i < |ids| && ids[i] == a;
      assert forall id <- ids[..i + 1] :: id in ids;
    }
  }

  // ---------------------------------------------------------------------------------------
  // What the filters keep
  // ---------------------------------------------------------------------------------------

  lemma {:induction false} ExceptKeepsPlaces(ids: seq<Id>, gone: set<Id>, a: Id, b: Id)
    requires a !in gone && b !in gone
    ensures Precedes(Except(ids, gone), a, b) <==> Precedes(ids, a, b)
  {
    if ids != [] {
      ExceptKeepsPlaces(ids[1..], gone, a, b);
      PrecedesFirst(ids, a, b);
      var kept := Except(ids, gone);
      if ids[0] !in gone {
        PrecedesFirst(kept, a, b);
        assert kept[1..] == Except(ids[1..], gone);
      }
    }
  }

  lemma {:induction false} OnlyKeepsPlaces(ids: seq<Id>, members: set<Id>, a: Id, b: Id)
    requires a in members && b in members
    ensures Precedes(Only(ids, members), a, b) <==> Precedes(ids, a, b)
  {
    if ids != [] {
      OnlyKeepsPlaces(ids[1..], members, a, b);
      PrecedesFirst(ids, a, b);
      var kept := Only(ids, members);
      if ids[0] in members {
        PrecedesFirst(kept, a, b);
        assert kept[1..] == Only(ids[1..], members);
      }
    }
  }

  lemma {:induction false} UniqueKeepsPlaces(ids: seq<Id>, a: Id, b: Id)
    ensures Precedes(Unique(ids), a, b) <==> Precedes(ids, a, b)
  {
    if ids != [] {
      var n := |ids| - 1;
      var before, last := ids[..n], ids[n];
      UniqueKeepsPlaces(before, a, b);
      UniqueFacts(before);
      assert ids == before + [last];
      PrecedesJoin(before, [last], a, b);
      PrecedesJoin(Unique(before), [last], a, b);
      OnlyMembersPrecede(before, a, b);
      OnlyMembersPrecede([last], a, b);
    }
  }

  // ---------------------------------------------------------------------------------------
  // The order of two owners' members
  // ---------------------------------------------------------------------------------------

  // Built-in members nobody asked for, what was asked for, Personal members nobody asked for.
  function Group(builtinIds: seq<Id>, requested: seq<Id>, id: Id): (group: nat) {
    if id in requested then 1 else if id in builtinIds then 0 else 2
  }

  function ListOf(builtinIds: seq<Id>, personalIds: seq<Id>, requested: seq<Id>, group: nat): (ids: seq<Id>) {
    if group == 0 then builtinIds else if group == 1 then requested else personalIds
  }

  // Of two members the one of the earlier group comes first; within a group, the one that its list
  // names first.
  ghost predicate ComesFirst(builtinIds: seq<Id>, personalIds: seq<Id>, requested: seq<Id>, a: Id, b: Id) {
    var groupA, groupB := Group(builtinIds, requested, a), Group(builtinIds, requested, b);
    groupA < groupB || (groupA == groupB && Precedes(ListOf(builtinIds, personalIds, requested, groupA), a, b))
  }

  // Three lists without common members, one after the other.
  lemma {:induction false} OneOfThree(p: seq<Id>, q: seq<Id>, r: seq<Id>, a: Id, b: Id)
    requires forall id <- p :: id !in q && id !in r
    requires forall id <- q :: id !in r
    requires a in p + q + r && b in p + q + r
    ensures Precedes(p + q + r, a, b)
       <==> if a in p then b !in p || Precedes(p, a, b)
            else if a in q then b !in p && (b !in q || Precedes(q, a, b))
            else b in r && Precedes(r, a, b)
  {
    PrecedesJoin(p + q, r, a, b);
    PrecedesJoin(p, q, a, b);
    OnlyMembersPrecede(p, a, b);
    OnlyMembersPrecede(q, a, b);
    OnlyMembersPrecede(r, a, b);
  }

  lemma {:induction false} OrderIsByGroups(builtinIds: seq<Id>, personalIds: seq<Id>, requested: seq<Id>, a: Id, b: Id)
    requires (a in builtinIds || a in personalIds) && (b in builtinIds || b in personalIds)
    ensures Precedes(ResolveOwnedOrder(builtinIds, personalIds, requested), a, b)
       <==> ComesFirst(builtinIds, personalIds, requested, a, b)
  {
    hide Precedes;
    var builtin := Unique(builtinIds);
    var personal := Except(Unique(personalIds), Members(builtin));
    var ordered := Only(Unique(requested), Members(builtin + personal));
    var p, r := Except(builtin, Members(ordered)), Except(personal, Members(ordered));
    UniqueFacts(builtinIds);
    UniqueFacts(personalIds);
    UniqueFacts(requested);
    ExceptFacts(Unique(personalIds), Members(builtin));
    OnlyFacts(Unique(requested), Members(builtin + personal));
    ExceptFacts(builtin, Members(ordered));
    ExceptFacts(personal, Members(ordered));
    OneOfThree(p, ordered, r, a, b);
    UniqueKeepsPlaces(builtinIds, a, b);
    UniqueKeepsPlaces(requested, a, b);
    UniqueKeepsPlaces(personalIds, a, b);
    if a in p && b in p {
      ExceptKeepsPlaces(builtin, Members(ordered), a, b);
    } else if a in ordered && b in ordered {
      OnlyKeepsPlaces(Unique(requested), Members(builtin + personal), a, b);
    } else if a in r && b in r {
      ExceptKeepsPlaces(personal, Members(ordered), a, b);
      ExceptKeepsPlaces(Unique(personalIds), Members(builtin), a, b);
    }
  }

  // ---------------------------------------------------------------------------------------
  // The order of the providers
  // ---------------------------------------------------------------------------------------

  // Providers of a family come first, the Built-in ones of them before the others, as they are
  // listed; the rest comes as any members of two owners do.
  lemma {:induction false} ProvidersAreByGroups(builtinIds: seq<Id>, personalIds: seq<Id>, family: set<Id>,
                                                requested: seq<Id>, a: Id, b: Id)
    requires (a in builtinIds || a in personalIds) && (b in builtinIds || b in personalIds)
    ensures Precedes(ResolveProviderOrder(builtinIds, personalIds, family, requested), a, b)
       <==> if a in family then b !in family || Precedes(builtinIds + personalIds, a, b)
            else b !in family && ComesFirst(builtinIds, personalIds, requested, a, b)
  {
    hide Precedes, ResolveOwnedOrder;
    var all := EffectiveProviders(builtinIds, personalIds);
    var familyIds := Only(all, family);
    var builtin := Except(builtinIds, Members(familyIds));
    var personal := Except(Except(personalIds, Members(builtin)), Members(familyIds));
    var others := ResolveOwnedOrder(builtin, personal, requested);
    ExceptFacts(personalIds, Members(builtinIds));
    OnlyFacts(all, family);
    ExceptFacts(builtinIds, Members(familyIds));
    ExceptFacts(personalIds, Members(builtin));
    ExceptFacts(Except(personalIds, Members(builtin)), Members(familyIds));
    OrderListsEveryMemberOnce(builtin, personal, requested);
    PrecedesJoin(familyIds, others, a, b);
    OnlyMembersPrecede(familyIds, a, b);
    if a in family && b in family {
      OnlyKeepsPlaces(all, family, a, b);
      EffectiveKeepsPlaces(builtinIds, personalIds, a, b);
      OnlyMembersPrecede(others, a, b);
    } else if a !in family && b !in family {
      OrderIsByGroups(builtin, personal, requested, a, b);
      OthersKeepPlaces(builtinIds, personalIds, builtin, personal, familyIds, a, b);
    } else {
      OnlyMembersPrecede(others, a, b);
    }
  }

  lemma {:induction false} EffectiveKeepsPlaces(builtinIds: seq<Id>, personalIds: seq<Id>, a: Id, b: Id)
    ensures Precedes(EffectiveProviders(builtinIds, personalIds), a, b) <==> Precedes(builtinIds + personalIds, a, b)
  {
    hide Precedes;
    var more := Except(personalIds, Members(builtinIds));
    PrecedesJoin(builtinIds, more, a, b);
    PrecedesJoin(builtinIds, personalIds, a, b);
    OnlyMembersPrecede(builtinIds, a, b);
    if a !in builtinIds && b !in builtinIds {
      ExceptKeepsPlaces(personalIds, Members(builtinIds), a, b);
    }
  }

  lemma {:induction false} OthersKeepPlaces(builtinIds: seq<Id>, personalIds: seq<Id>, builtin: seq<Id>,
                                            personal: seq<Id>, familyIds: seq<Id>, a: Id, b: Id)
    requires builtin == Except(builtinIds, Members(familyIds))
    requires personal == Except(Except(personalIds, Members(builtin)), Members(familyIds))
    requires a !in familyIds && b !in familyIds
    ensures Precedes(builtin, a, b) <==> Precedes(builtinIds, a, b)
    ensures a !in builtinIds && b !in builtinIds ==> (Precedes(personal, a, b) <==> Precedes(personalIds, a, b))
  {
    hide Precedes;
    ExceptKeepsPlaces(builtinIds, Members(familyIds), a, b);
    ExceptFacts(builtinIds, Members(familyIds));
    if a !in builtinIds && b !in builtinIds {
      ExceptKeepsPlaces(personalIds, Members(builtin), a, b);
      ExceptKeepsPlaces(Except(personalIds, Members(builtin)), Members(familyIds), a, b);
    }
  }
}
