// packages/provider/src/sources.ts: the snapshots that the provider services exchange.

module ProviderSources {
  import opened CodeUnits
  import opened Wrappers

  type ProviderId = string

  datatype AccountMode = StartPlan | OtherPlan

  // How a provider is reached: through an account, or in some way no account constrains.
  datatype Access = ByAccount(mode: AccountMode) | Direct

  type Providers = map<ProviderId, Access>

  datatype Builtin = Builtin(revision: string, providers: Providers)

  // Of the configuration only what the refresh services look at: the Built-in part, and the
  // revision of the Personal part. Its own revision is the serialization of both revisions.
  datatype ConfigSnapshot = ConfigSnapshot(builtin: Builtin, personalRevision: string)

  predicate SameRevision(c: ConfigSnapshot, d: ConfigSnapshot) {
    c.builtin.revision == d.builtin.revision && c.personalRevision == d.personalRevision
  }

  datatype AccountOverlay = AccountOverlay(entitled: bool, models: Option<seq<Text>>)

  type Overlays = map<ProviderId, AccountOverlay>

  // The revision of an account snapshot is the serialization of exactly these three fields, so
  // two snapshots have the same revision when they are equal.
  datatype AccountSnapshot = AccountSnapshot(basedOn: string, providers: Overlays, states: Option<string>)

  // What is published when the first account query fails: nobody is entitled.
  function FailClosed(config: ConfigSnapshot): (s: AccountSnapshot)
    ensures s.basedOn == config.builtin.revision
    ensures forall p :: p in s.providers <==> p in config.builtin.providers && config.builtin.providers[p].ByAccount?
    ensures forall p | p in s.providers :: !s.providers[p].entitled
  {
    var providers := config.builtin.providers;
    AccountSnapshot(
      config.builtin.revision,
      map p | p in providers && providers[p].ByAccount? :: AccountOverlay(false, None),
      None)
  }
}
