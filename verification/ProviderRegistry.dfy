// packages/provider/src/registry.ts: the published list of providers and its two indexes.

module ProviderRegistry {
  import opened Wrappers

  type Id = string

  datatype Model = Model(id: Id, config: nat)

  datatype Provider = Provider(id: Id, models: seq<Model>, config: nat)

  datatype Duplicate = DuplicateProvider(id: Id) | DuplicateModel(provider: Id, id: Id)

  ghost predicate DistinctModels(models: seq<Model>) {
    forall i, j | 0 <= i < j < |models| :: models[i].id != models[j].id
  }

  ghost predicate NoDuplicates(providers: seq<Provider>) {
    && (forall i, j | 0 <= i < j < |providers| :: providers[i].id != providers[j].id)
    && (forall p <- providers :: DistinctModels(p.models))
  }

  ghost predicate IndexesModels(models: seq<Model>, index: map<Id, Model>) {
    && (forall m <- models :: m.id in index && index[m.id] == m)
    && (forall id <- index :: index[id] in models && index[id].id == id)
  }

  type ModelIndexes = map<Id, map<Id, Model>>

  // The indexes answer exactly as the list does.
  ghost predicate IndexesProviders(providers: seq<Provider>, byId: map<Id, Provider>, models: ModelIndexes) {
    && (forall p <- providers :: p.id in byId && byId[p.id] == p)
    && (forall id <- byId :: byId[id] in providers && byId[id].id == id)
    && models.Keys == byId.Keys
    && (forall id <- byId :: IndexesModels(byId[id].models, models[id]))
  }

  lemma {:induction false} OneMoreIndexed(ps: seq<Provider>, byId: map<Id, Provider>, models: ModelIndexes,
                                          p: Provider, index: map<Id, Model>)
    requires NoDuplicates(ps) && IndexesProviders(ps, byId, models)
    requires p.id !in byId && DistinctModels(p.models) && IndexesModels(p.models, index)
    ensures NoDuplicates(ps + [p]) && IndexesProviders(ps + [p], byId[p.id := p], models[p.id := index])
  {
    hide IndexesModels, DistinctModels;
    forall x <- ps ensures x.id != p.id {
      assert x.id in byId;
    }
  }

  lemma {:induction false} RepeatedProvider(ps: seq<Provider>, i: nat, byId: map<Id, Provider>)
    requires i < |ps| && ps[i].id in byId && byId[ps[i].id] in ps[..i] && byId[ps[i].id].id == ps[i].id
    ensures !NoDuplicates(ps)
  {
    var k :| 0 <= k < i && ps[..i][k] == byId[ps[i].id];
    assert ps[k].id == ps[i].id;
  }

  class Registry {
    var revision: nat
    var providers: seq<Provider>
    var providerById: map<Id, Provider>
    var modelByProviderId: map<Id, map<Id, Model>>
    // The list that the indexes were built from: the last one without a duplicate.
    ghost var indexed: seq<Provider>

    ghost predicate Valid()
      reads this
    {
      NoDuplicates(indexed) && IndexesProviders(indexed, providerById, modelByProviderId)
    }

    constructor ()
      ensures Valid() && providers == indexed == [] && revision == 0
    {
      revision, providers, providerById, modelByProviderId, indexed := 0, [], map[], map[], [];
    }

    // Lookups answer from the indexed list, whatever list is published.
    method GetProvider(id: Id) returns (p: Option<Provider>)
      requires Valid()
      ensures p.Some? ==> p.value in indexed && p.value.id == id
      ensures p.None? ==> forall x <- indexed :: x.id != id
    {
      return if id in providerById then Some(providerById[id]) else None;
    }

    method GetModel(providerId: Id, modelId: Id) returns (m: Option<Model>)
      requires Valid()
      ensures m.Some? ==> exists p <- indexed :: p.id == providerId && m.value in p.models && m.value.id == modelId
      ensures m.None? ==> forall p <- indexed | p.id == providerId :: forall x <- p.models :: x.id != modelId
    {
      if providerId in modelByProviderId && modelId in modelByProviderId[providerId] {
        ghost var p := providerById[providerId];
        assert IndexesModels(p.models, modelByProviderId[providerId]);
        assert p in indexed && p.id == providerId;
        return Some(modelByProviderId[providerId][modelId]);
      }
      return None;
    }

    // The list is replaced before the indexes are rebuilt: after a duplicate, the new list stands
    // beside indexes of the old one.
    method Replace(next: seq<Provider>) returns (error: Option<Duplicate>)
      requires Valid()
      modifies this
      ensures Valid() && revision == old(revision) + 1 && providers == next
      ensures error.None? <==> NoDuplicates(next)
      ensures indexed == if error.None? then next else old(indexed)
    {
      revision := revision + 1;
      providers := next;
      error := RebuildIndexes();
    }

    method RebuildIndexes() returns (error: Option<Duplicate>)
      requires Valid()
      modifies this`providerById, this`modelByProviderId, this`indexed
      ensures Valid()
      ensures error.None? <==> NoDuplicates(providers)
      ensures indexed == if error.None? then providers else old(indexed)
    {
      hide IndexesModels, DistinctModels;
      var byId: map<Id, Provider> := map[];
      var models: ModelIndexes := map[];
      for i := 0 to |providers|
        invariant Valid() && indexed == old(indexed)
        invariant NoDuplicates(providers[..i]) && IndexesProviders(providers[..i], byId, models)
      {
        var p := providers[i];
        assert p in providers;
        if p.id in byId {
          RepeatedProvider(providers, i, byId);
          return Some(DuplicateProvider(p.id));
        }
        var index, duplicate := IndexModels(p.models);
        if duplicate.Some? {
          return Some(DuplicateModel(p.id, duplicate.value));
        }
        OneMoreIndexed(providers[..i], byId, models, p, index);
        assert providers[..i + 1] == providers[..i] + [p];
        byId := byId[p.id := p];
        models := models[p.id := index];
      }
      assert providers[..|providers|] == providers;
      providerById, modelByProviderId, indexed := byId, models, providers;
      return None;
    }

    method IndexModels(models: seq<Model>) returns (index: map<Id, Model>, duplicate: Option<Id>)
      ensures duplicate.None? <==> DistinctModels(models)
      ensures duplicate.None? ==> IndexesModels(models, index)
    {
      index := map[];
      for i := 0 to |models|
        invariant DistinctModels(models[..i]) && IndexesModels(models[..i], index)
      {
        var m := models[i];
        if m.id in index {
          ghost var k :| 0 <= k < i && models[..i][k] == index[m.id];
          assert models[k].id == models[i].id;
          return index, Some(m.id);
        }
        assert models[..i + 1] == models[..i] + [m];
        index := index[m.id := m];
      }
      assert models[..|models|] == models;
      return index, None;
    }
  }
}
