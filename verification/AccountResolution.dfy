// packages/provider/src/account-provider-resolution.ts

module AccountResolution {
  // Account connections turned into the overlay of the provider configuration.

  import opened Wrappers
  import opened ProviderSources
  import opened CodeUnits

  datatype Status = Available | Pending | Unavailable | Unknown

  datatype Connection = Connection(providerId: ProviderId, status: Status, models: Option<seq<Text>>,
                                   resetPrevious: bool)

  datatype ResolutionError = Duplicate(id: ProviderId) | NotConfigured(id: ProviderId) | NotAnAccount(id: ProviderId)

  // ---------------------------------------------------------------------------------------
  // What the resolution means
  // ---------------------------------------------------------------------------------------

  predicate IsAccount(configured: Providers, p: ProviderId) {
    p in configured && configured[p].ByAccount?
  }

  // Every connection names an account provider, and no two the same one.
  predicate WellFormed(configured: Providers, connections: seq<Connection>) {
    && (forall c <- connections :: IsAccount(configured, c.providerId))
    && (forall i, j | 0 <= i < j < |connections| :: connections[i].providerId != connections[j].providerId)
  }

  // The connection of a provider; a provider without one is as good as unknown.
  function ConnectionOf(connections: seq<Connection>, p: ProviderId): (c: Connection)
    ensures c.providerId == p
    ensures c in connections
            || (c == Connection(p, Unknown, None, false) && forall d <- connections :: d.providerId != p)
  {
    if connections == [] then Connection(p, Unknown, None, false)
    else if connections[0].providerId == p then connections[0]
    else ConnectionOf(connections[1..], p)
  }

  function NormalizeModels(models: seq<Text>): (normalized: seq<Text>) {
    if models == [] then []
    else (if Trim(models[0]) == [] then [] else [Trim(models[0])]) + NormalizeModels(models[1..])
  }

  function OverlayOf(mode: AccountMode, c: Connection, previous: Option<AccountOverlay>): (overlay: AccountOverlay) {
    match c.status
    case Unavailable => AccountOverlay(false, None)
    case Unknown => if !c.resetPrevious && previous.Some? then previous.value else AccountOverlay(false, None)
    case _ =>
      AccountOverlay(
        c.status.Available?,
        if mode.StartPlan? then Some(NormalizeModels(if c.models.Some? then c.models.value else [])) else None)
  }

  function Previous(overlays: Overlays, p: ProviderId): (o: Option<AccountOverlay>) {
    if p in overlays then Some(overlays[p]) else None
  }

  function Overlay(configured: Providers, previous: Overlays, connections: seq<Connection>): (overlays: Overlays) {
    map p | p in configured && configured[p].ByAccount? ::
      OverlayOf(configured[p].mode, ConnectionOf(connections, p), Previous(previous, p))
  }

  // ---------------------------------------------------------------------------------------
  // The loops
  // ---------------------------------------------------------------------------------------

  method NormalizeModelIds(values: Option<seq<Text>>) returns (result: seq<Text>)
    ensures result == NormalizeModels(if values.Some? then values.value else [])
  {
    result := [];
    var models := if values.Some? then values.value else [];
    for i := 0 to |models|
      invariant result == NormalizeModels(models[..i])
    {
      assert models[..i + 1] == models[..i] + [models[i]];
      NormalizeAppend(models[..i], models[i]);
      var modelId := Trim(models[i]);
      if modelId == [] {
        continue;
      }
      result := result + [modelId];
    }
    assert models[..|models|] == models;
  }

  lemma {:induction false} NormalizeAppend(models: seq<Text>, model: Text)
    ensures NormalizeModels(models + [model])
              == NormalizeModels(models) + (if Trim(model) == [] then [] else [Trim(model)])
  {
    if models == [] {
      assert [model][1..] == [];
    } else {
      assert (models + [model])[1..] == models[1..] + [model];
      NormalizeAppend(models[1..], model);
    }
  }

  // The first connection that cannot be indexed is the one reported.
  ghost predicate FirstBad(configured: Providers, connections: seq<Connection>, k: nat, e: ResolutionError) {
    && k < |connections|
    && WellFormed(configured, connections[..k])
    && var id := connections[k].providerId;
       match e
       case Duplicate(bad) => bad == id && exists c <- connections[..k] :: c.providerId == id
       case NotConfigured(bad) => bad == id && id !in configured
       case NotAnAccount(bad) => bad == id && id in configured && configured[id].Direct?
  }

  method IndexConnections(configured: Providers, connections: seq<Connection>)
      returns (r: Result<map<ProviderId, Connection>, ResolutionError>)
    ensures r.Ok? <==> WellFormed(configured, connections)
    ensures r.Ok? ==> r.value.Keys == set c <- connections :: c.providerId
    ensures r.Ok? ==> forall p | p in r.value :: r.value[p] == ConnectionOf(connections, p)
    ensures r.Err? ==> exists k: nat :: FirstBad(configured, connections, k, r.error)
  {
    var result: map<ProviderId, Connection> := map[];
    for i := 0 to |connections|
      invariant WellFormed(configured, connections[..i])
      invariant result.Keys == set c <- connections[..i] :: c.providerId
      invariant forall p | p in result :: result[p] in connections[..i] && result[p].providerId == p
    {
      var c := connections[i];
      var id := c.providerId;
      assert connections[..i + 1] == connections[..i] + [c];
      if id in result {
        assert FirstBad(configured, connections, i, Duplicate(id));
        var j :| 0 <= j < i && connections[..i][j] == result[id];
        return Err(Duplicate(id));
      }
      if id !in configured {
        assert FirstBad(configured, connections, i, NotConfigured(id));
        return Err(NotConfigured(id));
      }
      if configured[id].Direct? {
        assert FirstBad(configured, connections, i, NotAnAccount(id));
        return Err(NotAnAccount(id));
      }
      result := result[id := c];
    }
    assert connections[..|connections|] == connections;
    forall p | p in result ensures result[p] == ConnectionOf(connections, p) {
      OnlyConnection(configured, connections, result[p]);
    }
    return Ok(result);
  }

  lemma {:induction false} OnlyConnection(configured: Providers, connections: seq<Connection>, c: Connection)
    requires WellFormed(configured, connections) && c in connections
    ensures ConnectionOf(connections, c.providerId) == c
  {
    var d := ConnectionOf(connections, c.providerId);
    var i :| 0 <= i < |connections| && connections[i] == c;
    var j :| 0 <= j < |connections| && connections[j] == d;
    if i < j {
      assert connections[i].providerId != connections[j].providerId;
    } else if j < i {
      assert connections[j].providerId != connections[i].providerId;
    }
  }

  method ResolveAccountProviderConfigs(configured: Providers, previous: Overlays, connections: seq<Connection>)
      returns (r: Result<Overlays, ResolutionError>)
    ensures r.Ok? <==> WellFormed(configured, connections)
    ensures r.Ok? ==> r.value == Overlay(configured, previous, connections)
    ensures r.Err? ==> exists k: nat :: FirstBad(configured, connections, k, r.error)
  {
    hide WellFormed, FirstBad, Resolved, Overlay, NormalizeModels;
    var index := IndexConnections(configured, connections);
    if index.Err? {
      return Err(index.error);
    }
    var resolved: Overlays := map[];
    var left := configured.Keys;
    ResolvedEnds(configured, previous, connections);
    while left != {}
      invariant left <= configured.Keys
      invariant resolved == Resolved(configured, previous, connections, left)
      decreases |left|
    {
      var p :| p in left;
      ResolveOne(configured, previous, connections, left, p);
      left := left - {p};
      if configured[p].Direct? {
        continue;
      }
      var c := if p in index.value then index.value[p] else Connection(p, Unknown, None, false);
      assert c == ConnectionOf(connections, p);
      var overlay := AccountOverlay(false, None);
      if c.status.Available? || c.status.Pending? {
        overlay := AccountOverlay(c.status.Available?, None);
        if configured[p].mode.StartPlan? {
          var models := NormalizeModelIds(c.models);
          overlay := AccountOverlay(c.status.Available?, Some(models));
        }
      } else if c.status.Unknown? && !c.resetPrevious && p in previous {
        overlay := previous[p];
      }
      resolved := resolved[p := overlay];
    }
    return Ok(resolved);
  }

  // The overlay once every provider outside `left` has been visited.
  ghost function Resolved(configured: Providers, previous: Overlays, connections: seq<Connection>,
                          left: set<ProviderId>): (overlays: Overlays) {
    map p | p in configured && configured[p].ByAccount? && p !in left ::
      OverlayOf(configured[p].mode, ConnectionOf(connections, p), Previous(previous, p))
  }

  lemma {:induction false} ResolvedEnds(configured: Providers, previous: Overlays, connections: seq<Connection>)
    ensures Resolved(configured, previous, connections, configured.Keys) == map[]
    ensures Resolved(configured, previous, connections, {}) == Overlay(configured, previous, connections)
  {
  }

  lemma {:induction false} ResolveOne(configured: Providers, previous: Overlays, connections: seq<Connection>,
                                      left: set<ProviderId>, p: ProviderId)
    requires p in left && left <= configured.Keys
    ensures var before := Resolved(configured, previous, connections, left);
            var after := Resolved(configured, previous, connections, left - {p});
            after == match configured[p]
                     case Direct => before
                     case ByAccount(mode) =>
                       before[p := OverlayOf(mode, ConnectionOf(connections, p), Previous(previous, p))]
  {
  }

  // ---------------------------------------------------------------------------------------
  // Many rounds
  // ---------------------------------------------------------------------------------------

  // One accepted round: the configuration it was for and what the connections said.
  datatype Round = Round(configured: Providers, connections: seq<Connection>)

  function AfterRounds(start: Overlays, rounds: seq<Round>): (overlays: Overlays) {
    if rounds == [] then start else
    var before := AfterRounds(start, rounds[..|rounds| - 1]);
    var last := rounds[|rounds| - 1];
    Overlay(last.configured, before, last.connections)
  }

  predicate Entitled(overlays: Overlays, p: ProviderId) {
    p in overlays && overlays[p].entitled
  }

  // The round says nothing about p: still configured, not known, not reset.
  predicate Silent(round: Round, p: ProviderId) {
    && IsAccount(round.configured, p)
    && ConnectionOf(round.connections, p).status.Unknown?
    && !ConnectionOf(round.connections, p).resetPrevious
  }

  // Round k granted p, and every later round was silent about it.
  ghost predicate GrantedAt(rounds: seq<Round>, p: ProviderId, k: nat) {
    && k < |rounds|
    && IsAccount(rounds[k].configured, p)
    && ConnectionOf(rounds[k].connections, p).status.Available?
    && forall j | k < j < |rounds| :: Silent(rounds[j], p)
  }

  // A provider is entitled exactly when its latest round that was not silent granted it: an
  // unknown round neither grants nor revokes, a reset or a gap in the configuration revokes.
  lemma {:induction false} EntitledExactlyWhenGranted(start: Overlays, rounds: seq<Round>, p: ProviderId)
    requires !Entitled(start, p)
    ensures Entitled(AfterRounds(start, rounds), p) <==> exists k: nat :: GrantedAt(rounds, p, k)
  {
    if rounds != [] {
      var before := rounds[..|rounds| - 1];
      var last := rounds[|rounds| - 1];
      EntitledExactlyWhenGranted(start, before, p);
      assert rounds == before + [last];
      GrantedAfter(before, last, p);
      EntitledAfter(AfterRounds(start, before), last, p);
    }
  }

  lemma {:induction false} EntitledAfter(before: Overlays, last: Round, p: ProviderId)
    ensures Entitled(Overlay(last.configured, before, last.connections), p) <==>
              (Silent(last, p) && Entitled(before, p))
              || (IsAccount(last.configured, p) && ConnectionOf(last.connections, p).status.Available?)
  {
  }

  lemma {:induction false} GrantedAfter(before: seq<Round>, last: Round, p: ProviderId)
    ensures (exists k: nat :: GrantedAt(before + [last], p, k)) <==>
              (Silent(last, p) && exists k: nat :: GrantedAt(before, p, k))
              || (IsAccount(last.configured, p) && ConnectionOf(last.connections, p).status.Available?)
  {
    var rounds := before + [last];
    if k: nat :| Silent(last, p) && GrantedAt(before, p, k) {
      assert GrantedAt(rounds, p, k);
    }
    if IsAccount(last.configured, p) && ConnectionOf(last.connections, p).status.Available? {
      assert GrantedAt(rounds, p, |before|);
    }
    if k: nat :| GrantedAt(rounds, p, k) {
      if k < |before| {
        assert Silent(rounds[|before|], p);
        forall j | k < j < |before| ensures Silent(before[j], p) {
          assert rounds[j] == before[j];
        }
        assert GrantedAt(before, p, k);
      }
    }
  }
}
