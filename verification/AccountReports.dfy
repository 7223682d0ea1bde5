// What the latest report says.

module AccountReports {
  // Over many rounds, a provider's overlay is what the last round that said anything about it
  // reported.

  import opened CodeUnits
  import opened Wrappers
  import opened ProviderSources
  import opened AccountResolution

  // The models reported for a plan, one by one: trimmed, and gone if nothing is left.
  lemma {:induction false} ModelsAreTakenOneByOne(a: seq<Text>, model: Text, b: seq<Text>)
    ensures NormalizeModels(a + [model] + b)
         == NormalizeModels(a) + (if Trim(model) == [] then [] else [Trim(model)]) + NormalizeModels(b)
  {
    var one := if Trim(model) == [] then [] else [Trim(model)];
    if a == [] {
      assert (a + [model] + b)[1..] == b;
      assert [] + one == one;
    } else {
      assert (a + [model] + b)[1..] == a[1..] + [model] + b;
      ModelsAreTakenOneByOne(a[1..], model, b);
      var first := if Trim(a[0]) == [] then [] else [Trim(a[0])];
      assert first + (NormalizeModels(a[1..]) + one + NormalizeModels(b))
          == first + NormalizeModels(a[1..]) + one + NormalizeModels(b);
    }
  }

  // Round k says something about p, and no later one does.
  ghost predicate LastWord(rounds: seq<Round>, p: ProviderId, k: nat) {
    k < |rounds| && !Silent(rounds[k], p) && forall j | k < j < |rounds| :: Silent(rounds[j], p)
  }

  // What a round reports: nothing for a provider without account mode; nobody entitled and no models
  // for one that is unavailable or reset; else whether it is available, and the models of a plan.
  ghost predicate Reports(round: Round, p: ProviderId, overlays: Overlays) {
    if !IsAccount(round.configured, p) then p !in overlays
    else
      && p in overlays
      && var c := ConnectionOf(round.connections, p);
         && (overlays[p].entitled <==> c.status.Available?)
         && if c.status.Unavailable? || c.status.Unknown? || !round.configured[p].mode.StartPlan?
            then overlays[p].models == None
            else overlays[p].models == Some(NormalizeModels(if c.models.Some? then c.models.value else []))
  }

  lemma {:induction false} OneRound(before: Overlays, round: Round, p: ProviderId)
    ensures var after := Overlay(round.configured, before, round.connections);
            if !Silent(round, p) then Reports(round, p, after)
            else
              && p in after
              && after[p] == if p in before then before[p] else AccountOverlay(false, None)
  {
  }

  // What p's overlay was is what it is; a provider that comes back without a word has none.
  ghost predicate IsStill(before: Overlays, after: Overlays, p: ProviderId) {
    if p in before then p in after && after[p] == before[p]
    else p in after ==> after[p] == AccountOverlay(false, None)
  }

  lemma {:induction false} NoRounds(start: Overlays, p: ProviderId)
    ensures AfterRounds(start, []) == start && forall k: nat :: !LastWord([], p, k)
  {
  }

  lemma {:induction false} AllButLast(start: Overlays, rounds: seq<Round>, p: ProviderId)
    requires rounds != []
    ensures var n := |rounds| - 1;
            AfterRounds(start, rounds)
            == Overlay(rounds[n].configured, AfterRounds(start, rounds[..n]), rounds[n].connections)
    ensures forall k: nat | LastWord(rounds, p, k) ::
              k < |rounds| && (k == |rounds| - 1 ==> !Silent(rounds[k], p))
    ensures forall k: nat | k < |rounds| - 1 && LastWord(rounds, p, k) ::
              LastWord(rounds[..|rounds| - 1], p, k) && Silent(rounds[|rounds| - 1], p)
  {
    hide Overlay, Silent;
  }

  // The last word on p is reported and stays; while no round has said a word, what there was at the
  // start stays.
  lemma {:induction false} TheLastWordHolds(start: Overlays, rounds: seq<Round>, p: ProviderId)
    ensures forall k: nat | LastWord(rounds, p, k) ::
              && Reports(rounds[k], p, AfterRounds(start, rounds[..k + 1]))
              && IsStill(AfterRounds(start, rounds[..k + 1]), AfterRounds(start, rounds), p)
    ensures (forall j | 0 <= j < |rounds| :: Silent(rounds[j], p)) ==> IsStill(start, AfterRounds(start, rounds), p)
  {
    hide Reports, Overlay, Silent, AfterRounds, LastWord;
    if rounds == [] {
      NoRounds(start, p);
    } else {
      var n := |rounds| - 1;
      TheLastWordHolds(start, rounds[..n], p);
      AllButLast(start, rounds, p);
      OneRound(AfterRounds(start, rounds[..n]), rounds[n], p);
      forall k: nat | LastWord(rounds, p, k)
        ensures Reports(rounds[k], p, AfterRounds(start, rounds[..k + 1]))
        ensures IsStill(AfterRounds(start, rounds[..k + 1]), AfterRounds(start, rounds), p)
      {
        if k < n {
          assert rounds[..n][..k + 1] == rounds[..k + 1];
        } else {
          assert rounds[..k + 1] == rounds;
        }
      }
    }
  }
}
