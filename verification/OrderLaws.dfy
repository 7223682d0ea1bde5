// How the resolved order answers to changes of the Personal members, whatever was requested: a
// member that joins, one that goes, and one that is renamed. Each law says what the order becomes
// in terms of what it was.

module OrderLaws {
  import opened CodeUnits
  import opened Wrappers
  import opened OwnedOrder

  function Renamed(ids: seq<Id>, from: Id, to: Id): (ids': seq<Id>)
    ensures |ids'| == |ids|
    ensures forall i | 0 <= i < |ids| :: ids'[i] == if ids[i] == from then to else ids[i]
  {
    seq(|ids|, i requires 0 <= i < |ids| => if ids[i] == from then to else ids[i])
  }

  // ---------------------------------------------------------------------------------------
  // Filters
  // ---------------------------------------------------------------------------------------

  lemma {:induction false} ExceptSame(ids: seq<Id>, a: set<Id>, b: set<Id>)
    requires forall id <- ids :: id in a <==> id in b
    ensures Except(ids, a) == Except(ids, b)
  {
    if ids != [] {
      ExceptSame(ids[1..], a, b);
    }
  }

  lemma {:induction false} OnlySame(ids: seq<Id>, a: set<Id>, b: set<Id>)
    requires forall id <- ids :: id in a <==> id in b
    ensures Only(ids, a) == Only(ids, b)
  {
    if ids != [] {
      OnlySame(ids[1..], a, b);
    }
  }

  lemma {:induction false} ExceptTwice(ids: seq<Id>, a: set<Id>, b: set<Id>)
    ensures Except(Except(ids, a), b) == Except(ids, a + b)
  {
    if ids != [] {
      ExceptTwice(ids[1..], a, b);
    }
  }

  lemma {:induction false} ExceptOfOnly(ids: seq<Id>, members: set<Id>, gone: set<Id>)
    ensures Except(Only(ids, members), gone) == Only(ids, members - gone)
  {
    if ids != [] {
      ExceptOfOnly(ids[1..], members, gone);
    }
  }

  lemma {:induction false} OnlyIsExcept(ids: seq<Id>, members: set<Id>, gone: set<Id>)
    requires forall id <- ids :: id in members <==> id !in gone
    ensures Only(ids, members) == Except(ids, gone)
  {
    if ids != [] {
      OnlyIsExcept(ids[1..], members, gone);
    }
  }

  lemma {:induction false} ExceptJoin(a: seq<Id>, b: seq<Id>, gone: set<Id>)
    ensures Except(a + b, gone) == Except(a, gone) + Except(b, gone)
  {
    if a == [] {
      assert a + b == b;
    } else {
      assert (a + b)[1..] == a[1..] + b;
      ExceptJoin(a[1..], b, gone);
    }
  }

  lemma {:induction false} UniqueOfExcept(ids: seq<Id>, gone: set<Id>)
    ensures Unique(Except(ids, gone)) == Except(Unique(ids), gone)
  {
    if ids != [] {
      var n := |ids| - 1;
      var before, last := ids[..n], ids[n];
      UniqueOfExcept(before, gone);
      assert ids == before + [last];
      ExceptJoin(before, [last], gone);
      ExceptJoin(Unique(before), [last], gone);
      UniqueFacts(before);
      ExceptFacts(Unique(before), gone);
      var kept := Except(before, gone);
      if last in gone {
        assert Except([last], gone) == [];
        assert kept + [] == kept;
      } else {
        assert Except([last], gone) == [last];
        assert (kept + [last])[..|kept|] == kept;
      }
    }
  }

  lemma {:induction false} UniqueOfAppended(ids: seq<Id>, id: Id)
    requires id !in ids
    ensures Unique(ids + [id]) == Unique(ids) + [id]
  {
    UniqueFacts(ids);
    assert (ids + [id])[..|ids|] == ids;
  }

  // ---------------------------------------------------------------------------------------
  // Renaming
  // ---------------------------------------------------------------------------------------

  lemma {:induction false} RenamedMembers(ids: seq<Id>, from: Id, to: Id)
    ensures forall id :: id in Renamed(ids, from, to) <==> (id in ids && id != from) || (from in ids && id == to)
  {
    var ids' := Renamed(ids, from, to);
    forall id ensures id in ids' <==> (id in ids && id != from) || (from in ids && id == to) {
      if id in ids && id != from {
        var i :| 0 <= i < |ids| && ids[i] == id;
        assert ids'[i] == id;
      }
      if from in ids && id == to {
        var i :| 0 <= i < |ids| && ids[i] == from;
        assert ids'[i] == to;
      }
    }
  }

  lemma {:induction false} RenamedJoin(a: seq<Id>, b: seq<Id>, from: Id, to: Id)
    ensures Renamed(a + b, from, to) == Renamed(a, from, to) + Renamed(b, from, to)
  {
  }

  lemma {:induction false} RenamedNone(ids: seq<Id>, from: Id, to: Id)
    requires from !in ids
    ensures Renamed(ids, from, to) == ids
  {
  }

  lemma {:induction false} RenamedBack(ids: seq<Id>, from: Id, to: Id)
    requires to !in ids
    ensures Renamed(Renamed(ids, from, to), to, from) == ids
  {
  }

  // A leftover of the new name is as good as the old one.
  lemma {:induction false} RenamedMerges(ids: seq<Id>, from: Id, to: Id)
    ensures Renamed(ids, from, to) == Renamed(Renamed(ids, to, from), from, to)
    ensures from != to ==> to !in Renamed(ids, to, from)
  {
  }

  lemma {:induction false} UniqueOfRenamed(ids: seq<Id>, from: Id, to: Id)
    requires to !in ids
    ensures Unique(Renamed(ids, from, to)) == Renamed(Unique(ids), from, to)
  {
    if ids != [] {
      var n := |ids| - 1;
      var before, last := ids[..n], ids[n];
      UniqueOfRenamed(before, from, to);
      UniqueFacts(before);
      RenamedMembers(Unique(before), from, to);
      assert Renamed(ids, from, to)[..n] == Renamed(before, from, to);
      RenamedJoin(Unique(before), [last], from, to);
    }
  }

  lemma {:induction false} OnlyOfRenamed(ids: seq<Id>, from: Id, to: Id, a: set<Id>, b: set<Id>)
    requires to !in ids
    requires forall id <- ids :: id in a <==> (if id == from then to else id) in b
    ensures Only(Renamed(ids, from, to), b) == Renamed(Only(ids, a), from, to)
  {
    if ids != [] {
      OnlyOfRenamed(ids[1..], from, to, a, b);
      assert Renamed(ids, from, to)[1..] == Renamed(ids[1..], from, to);
      RenamedJoin([ids[0]], Only(ids[1..], a), from, to);
    }
  }

  lemma {:induction false} ExceptOfRenamed(ids: seq<Id>, from: Id, to: Id, a: set<Id>, b: set<Id>)
    requires to !in ids
    requires forall id <- ids :: id in a <==> (if id == from then to else id) in b
    ensures Except(Renamed(ids, from, to), b) == Renamed(Except(ids, a), from, to)
  {
    if ids != [] {
      ExceptOfRenamed(ids[1..], from, to, a, b);
      assert Renamed(ids, from, to)[1..] == Renamed(ids[1..], from, to);
      RenamedJoin([ids[0]], Except(ids[1..], a), from, to);
    }
  }

  // ---------------------------------------------------------------------------------------
  // The parts of a resolved order
  // ---------------------------------------------------------------------------------------

  function Own(builtinIds: seq<Id>, personalIds: seq<Id>): (ids: seq<Id>) {
    Except(Unique(personalIds), Members(Unique(builtinIds)))
  }

  function Asked(builtinIds: seq<Id>, personalIds: seq<Id>, requested: seq<Id>): (ids: seq<Id>) {
    Only(Unique(requested), Members(Unique(builtinIds) + Own(builtinIds, personalIds)))
  }

  lemma {:induction false} PartsOfOrder(builtinIds: seq<Id>, personalIds: seq<Id>, requested: seq<Id>)
    ensures var asked := Asked(builtinIds, personalIds, requested);
            ResolveOwnedOrder(builtinIds, personalIds, requested)
            == Except(Unique(builtinIds), Members(asked)) + asked + Except(Own(builtinIds, personalIds), Members(asked))
    ensures forall id :: id in Own(builtinIds, personalIds) <==> id in personalIds && id !in builtinIds
    ensures forall id :: id in Asked(builtinIds, personalIds, requested)
                         <==> id in requested && (id in builtinIds || id in personalIds)
  {
    UniqueFacts(builtinIds);
    UniqueFacts(personalIds);
    UniqueFacts(requested);
    ExceptFacts(Unique(personalIds), Members(Unique(builtinIds)));
    OnlyFacts(Unique(requested), Members(Unique(builtinIds) + Own(builtinIds, personalIds)));
  }

  // ---------------------------------------------------------------------------------------
  // The laws
  // ---------------------------------------------------------------------------------------

  // Without one of the Personal members the order is what it was, without that member.
  lemma {:induction false} OrderWithoutOne(builtinIds: seq<Id>, personalIds: seq<Id>, id: Id, requested: seq<Id>)
    requires id !in builtinIds
    ensures ResolveOwnedOrder(builtinIds, Except(personalIds, {id}), requested)
              == Except(ResolveOwnedOrder(builtinIds, personalIds, requested), {id})
  {
    hide Unique, Only, Except, ResolveOwnedOrder, Own, Asked;
    var fewer := Except(personalIds, {id});
    var builtin, own := Unique(builtinIds), Own(builtinIds, personalIds);
    var asked := Asked(builtinIds, personalIds, requested);
    PartsOfOrder(builtinIds, personalIds, requested);
    PartsOfOrder(builtinIds, fewer, requested);
    OwnWithoutOne(builtinIds, personalIds, id);
    AskedWithoutOne(builtinIds, personalIds, id, requested);
    UniqueFacts(builtinIds);
    ExceptFacts(asked, {id});
    ExceptJoin(Except(builtin, Members(asked)) + asked, Except(own, Members(asked)), {id});
    ExceptJoin(Except(builtin, Members(asked)), asked, {id});
    ExceptTwice(builtin, Members(asked), {id});
    ExceptSame(builtin, Members(asked) + {id}, Members(Except(asked, {id})));
    ExceptTwice(own, Members(asked), {id});
    ExceptTwice(own, {id}, Members(Except(asked, {id})));
    ExceptSame(own, Members(asked) + {id}, {id} + Members(Except(asked, {id})));
  }

  lemma {:induction false} OwnWithoutOne(builtinIds: seq<Id>, personalIds: seq<Id>, id: Id)
    ensures Own(builtinIds, Except(personalIds, {id})) == Except(Own(builtinIds, personalIds), {id})
  {
    hide Unique, Except;
    var builtin := Members(Unique(builtinIds));
    UniqueOfExcept(personalIds, {id});
    ExceptTwice(Unique(personalIds), {id}, builtin);
    ExceptTwice(Unique(personalIds), builtin, {id});
    ExceptSame(Unique(personalIds), {id} + builtin, builtin + {id});
  }

  lemma {:induction false} AskedWithoutOne(builtinIds: seq<Id>, personalIds: seq<Id>, id: Id, requested: seq<Id>)
    requires id !in builtinIds
    ensures Asked(builtinIds, Except(personalIds, {id}), requested)
              == Except(Asked(builtinIds, personalIds, requested), {id})
  {
    hide Unique, Except, Only, Own;
    var own := Own(builtinIds, personalIds);
    var members := Members(Unique(builtinIds) + own);
    OwnWithoutOne(builtinIds, personalIds, id);
    UniqueFacts(builtinIds);
    ExceptFacts(own, {id});
    ExceptOfOnly(Unique(requested), members, {id});
    assert Members(Unique(builtinIds) + Except(own, {id})) == members - {id};
  }

  // Resolving for fewer members needs only the order that was resolved for all.
  lemma {:induction false} OrderIsEnough(builtinIds: seq<Id>, personalIds: seq<Id>, id: Id, requested: seq<Id>)
    requires id !in builtinIds
    ensures var fewer := Except(personalIds, {id});
            ResolveOwnedOrder(builtinIds, fewer, ResolveOwnedOrder(builtinIds, personalIds, requested))
              == ResolveOwnedOrder(builtinIds, fewer, requested)
  {
    hide Unique, Only, Except, ResolveOwnedOrder;
    var fewer, order := Except(personalIds, {id}), ResolveOwnedOrder(builtinIds, personalIds, requested);
    OrderWithoutOne(builtinIds, personalIds, id, requested);
    OrderListsEveryMemberOnce(builtinIds, personalIds, requested);
    OrderListsEveryMemberOnce(builtinIds, fewer, requested);
    ExceptFacts(personalIds, {id});
    OnlyIsExcept(order, Members(builtinIds + fewer), {id});
    FullRequestIsKept(builtinIds, fewer, order, Except(order, {id}));
  }

  // A new member goes to the end, unless it is a leftover in the request, which keeps its place.
  lemma {:induction false} OrderWithNew(builtinIds: seq<Id>, personalIds: seq<Id>, id: Id, requested: seq<Id>)
    requires id !in builtinIds && id !in personalIds
    ensures var order := ResolveOwnedOrder(builtinIds, personalIds, requested);
            var after := ResolveOwnedOrder(builtinIds, personalIds + [id], requested);
            Except(after, {id}) == order && (id !in requested ==> after == order + [id])
  {
    hide Unique, Only, Except, ResolveOwnedOrder, Own, Asked;
    var more := personalIds + [id];
    AppendedGoes(personalIds, id);
    OrderWithoutOne(builtinIds, more, id, requested);
    if id !in requested {
      var own, asked := Own(builtinIds, personalIds), Asked(builtinIds, personalIds, requested);
      PartsOfOrder(builtinIds, personalIds, requested);
      PartsOfOrder(builtinIds, more, requested);
      OwnWithNew(builtinIds, personalIds, id);
      AskedWithNew(builtinIds, personalIds, id, requested);
      ExceptJoin(own, [id], Members(asked));
      ExceptNone([id], Members(asked));
      var head := Except(Unique(builtinIds), Members(asked)) + asked;
      assert head + (Except(own, Members(asked)) + [id]) == head + Except(own, Members(asked)) + [id];
    }
  }

  lemma {:induction false} AppendedGoes(ids: seq<Id>, id: Id)
    requires id !in ids
    ensures Except(ids + [id], {id}) == ids
  {
    ExceptJoin(ids, [id], {id});
    ExceptNone(ids, {id});
    ExceptAll([id], {id});
  }

  lemma {:induction false} OwnWithNew(builtinIds: seq<Id>, personalIds: seq<Id>, id: Id)
    requires id !in builtinIds && id !in personalIds
    ensures Own(builtinIds, personalIds + [id]) == Own(builtinIds, personalIds) + [id]
  {
    hide Unique, Except;
    UniqueOfAppended(personalIds, id);
    UniqueFacts(builtinIds);
    ExceptJoin(Unique(personalIds), [id], Members(Unique(builtinIds)));
    ExceptNone([id], Members(Unique(builtinIds)));
  }

  lemma {:induction false} AskedWithNew(builtinIds: seq<Id>, personalIds: seq<Id>, id: Id, requested: seq<Id>)
    requires id !in builtinIds && id !in personalIds && id !in requested
    ensures Asked(builtinIds, personalIds + [id], requested) == Asked(builtinIds, personalIds, requested)
  {
    hide Unique, Except, Only, Own;
    OwnWithNew(builtinIds, personalIds, id);
    UniqueFacts(requested);
    OnlySame(Unique(requested), Members(Unique(builtinIds) + (Own(builtinIds, personalIds) + [id])),
             Members(Unique(builtinIds) + Own(builtinIds, personalIds)));
  }

  // A renamed member keeps its place in everything.
  lemma {:induction false} OrderOfRenamed(builtinIds: seq<Id>, personalIds: seq<Id>, from: Id, to: Id,
                                          requested: seq<Id>)
    requires from !in builtinIds && from in personalIds
    requires to !in builtinIds && to !in personalIds && to !in requested
    ensures ResolveOwnedOrder(builtinIds, Renamed(personalIds, from, to), Renamed(requested, from, to))
              == Renamed(ResolveOwnedOrder(builtinIds, personalIds, requested), from, to)
  {
    hide Unique, Only, Except, ResolveOwnedOrder, Own, Asked;
    var personal', requested' := Renamed(personalIds, from, to), Renamed(requested, from, to);
    var builtin, own := Unique(builtinIds), Own(builtinIds, personalIds);
    var asked := Asked(builtinIds, personalIds, requested);
    PartsOfOrder(builtinIds, personalIds, requested);
    PartsOfOrder(builtinIds, personal', requested');
    OwnOfRenamed(builtinIds, personalIds, from, to);
    AskedOfRenamed(builtinIds, personalIds, from, to, requested);
    UniqueFacts(builtinIds);
    RenamedMembers(asked, from, to);
    ExceptFacts(builtin, Members(asked));
    ExceptSame(builtin, Members(asked), Members(Renamed(asked, from, to)));
    RenamedNone(Except(builtin, Members(asked)), from, to);
    ExceptOfRenamed(own, from, to, Members(asked), Members(Renamed(asked, from, to)));
    RenamedJoin(Except(builtin, Members(asked)) + asked, Except(own, Members(asked)), from, to);
    RenamedJoin(Except(builtin, Members(asked)), asked, from, to);
  }

  lemma {:induction false} OwnOfRenamed(builtinIds: seq<Id>, personalIds: seq<Id>, from: Id, to: Id)
    requires from !in builtinIds && to !in builtinIds && to !in personalIds
    ensures Own(builtinIds, Renamed(personalIds, from, to)) == Renamed(Own(builtinIds, personalIds), from, to)
  {
    hide Unique, Except;
    var builtin := Members(Unique(builtinIds));
    UniqueOfRenamed(personalIds, from, to);
    UniqueFacts(builtinIds);
    UniqueFacts(personalIds);
    ExceptOfRenamed(Unique(personalIds), from, to, builtin, builtin);
  }

  lemma {:induction false} AskedOfRenamed(builtinIds: seq<Id>, personalIds: seq<Id>, from: Id, to: Id,
                                          requested: seq<Id>)
    requires from !in builtinIds && from in personalIds
    requires to !in builtinIds && to !in personalIds && to !in requested
    ensures Asked(builtinIds, Renamed(personalIds, from, to), Renamed(requested, from, to))
              == Renamed(Asked(builtinIds, personalIds, requested), from, to)
  {
    hide Unique, Except, Only, Own;
    var builtin, own := Unique(builtinIds), Own(builtinIds, personalIds);
    PartsOfOrder(builtinIds, personalIds, requested);
    OwnOfRenamed(builtinIds, personalIds, from, to);
    UniqueOfRenamed(requested, from, to);
    UniqueFacts(builtinIds);
    UniqueFacts(requested);
    RenamedMembers(own, from, to);
    OnlyOfRenamed(Unique(requested), from, to, Members(builtin + own), Members(builtin + Renamed(own, from, to)));
  }
}
