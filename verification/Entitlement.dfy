// Who is entitled in what is published.

module Entitlement {
  // The account service with its resolver, over every run.

  import opened Wrappers
  import opened ProviderSources
  import opened AccountResolution
  import A = AccountRefresh

  // The service, with the rounds it has accepted since its first snapshot, the overlay that
  // snapshot started from, and the round under way.
  datatype Service = Service(account: A.Account, start: Overlays, rounds: seq<Round>, current: Round)

  datatype Op =
    | Request(reason: string)
    | ConfigRead(config: ConfigSnapshot)
    | Connect(connections: seq<Connection>, states: string)
    | ConfigReadAgain(config: ConfigSnapshot)
    | RoundFails
    | Finish
    | Dispose

  function Initial(): (s: Service) {
    Service(A.Initial(), map[], [], Round(map[], []))
  }

  function Published(a: A.Account): (overlays: Overlays) {
    if a.snapshot.Some? then a.snapshot.value.providers else map[]
  }

  function Failed(s: Service): (s': Service)
    requires s.account.phase.ReadingConfig? || s.account.phase.Resolving? || s.account.phase.ReadingAgain?
  {
    var after := A.Fail(s.account);
    // the fail-closed snapshot is the one the later rounds start from
    s.(account := after, start := if s.account.snapshot.None? then Published(after) else s.start)
  }

  predicate Accepts(a: A.Account, config: ConfigSnapshot)
    requires a.phase.ReadingAgain?
  {
    !a.disposed && a.pending == {} && config.builtin.revision == a.phase.config.builtin.revision
  }

  function Apply(s: Service, op: Op): (s': Service) {
    var a := s.account;
    match op
    case Request(reason) => s.(account := A.Request(a, reason))
    case ConfigRead(config) => if a.phase.ReadingConfig? then s.(account := A.ConfigRead(a, config)) else s
    case Connect(connections, states) =>
      if !a.phase.Resolving? then s
      else if a.disposed || !WellFormed(a.phase.config.builtin.providers, connections) then Failed(s)
      else
        var round := Round(a.phase.config.builtin.providers, connections);
        s.(account := A.Resolved(a, Overlay(round.configured, Published(a), connections), states), current := round)
    case ConfigReadAgain(config) =>
      if !a.phase.ReadingAgain? then s
      else if a.disposed then Failed(s)
      else
        var r := A.ConfigReadAgain(a, config);
        s.(account := r.state, rounds := if Accepts(a, config) then s.rounds + [s.current] else s.rounds)
    case RoundFails =>
      if a.phase.ReadingConfig? || a.phase.Resolving? || a.phase.ReadingAgain? then Failed(s) else s
    case Finish => if a.phase.Ended? then s.(account := A.Finish(a)) else s
    case Dispose => s.(account := A.Dispose(a))
  }

  function Run(ops: seq<Op>): (s: Service) {
    if ops == [] then Initial() else Apply(Run(ops[..|ops| - 1]), ops[|ops| - 1])
  }

  // What is published is what the accepted rounds add up to.
  ghost predicate Invariant(s: Service) {
    && (forall p :: !Entitled(s.start, p))
    && Published(s.account) == AfterRounds(s.start, s.rounds)
    && (s.account.snapshot.None? ==> s.rounds == [] && s.start == map[])
    && (s.account.phase.ReadingAgain? ==>
          s.account.phase.providers == Overlay(s.current.configured, Published(s.account), s.current.connections))
  }

  lemma {:induction false} FailedKeeps(s: Service)
    requires Invariant(s)
    requires s.account.phase.ReadingConfig? || s.account.phase.Resolving? || s.account.phase.ReadingAgain?
    ensures Invariant(Failed(s))
  {
  }

  lemma {:induction false} AcceptingKeeps(s: Service, config: ConfigSnapshot)
    requires Invariant(s) && s.account.phase.ReadingAgain? && !s.account.disposed
    ensures Invariant(Apply(s, ConfigReadAgain(config)))
  {
    hide Overlay, Entitled, WellFormed, A.LoopHead, A.Answer;
    AcceptingPublishes(s.account, config);
    var rounds := s.rounds + [s.current];
    assert rounds[..|rounds| - 1] == s.rounds;
  }

  lemma {:induction false} AcceptingPublishes(a: A.Account, config: ConfigSnapshot)
    requires a.phase.ReadingAgain? && !a.disposed
    ensures var a' := A.ConfigReadAgain(a, config).state;
            && !a'.phase.ReadingAgain?
            && if Accepts(a, config) then a'.snapshot.Some? && Published(a') == a.phase.providers
               else a'.snapshot == a.snapshot
  {
  }

  lemma {:induction false} ApplyKeeps(s: Service, op: Op)
    requires Invariant(s)
    ensures Invariant(Apply(s, op))
  {
    hide Failed, AfterRounds, Overlay, Entitled, WellFormed;
    var a := s.account;
    if a.phase.ReadingConfig? || a.phase.Resolving? || a.phase.ReadingAgain? {
      FailedKeeps(s);
    }
    if op.ConfigReadAgain? && a.phase.ReadingAgain? && !a.disposed {
      AcceptingKeeps(s, op.config);
    }
  }

  lemma {:induction false} EveryRunKeeps(ops: seq<Op>)
    ensures Invariant(Run(ops))
  {
    if ops != [] {
      EveryRunKeeps(ops[..|ops| - 1]);
      ApplyKeeps(Run(ops[..|ops| - 1]), ops[|ops| - 1]);
    }
  }

  // In every run, a provider is entitled in the published snapshot exactly when some accepted
  // round granted it and every accepted round since was silent about it.
  lemma {:induction false} PublishedEntitlementWasGranted(ops: seq<Op>, p: ProviderId)
    ensures var s := Run(ops);
            Entitled(Published(s.account), p) <==> exists k: nat :: GrantedAt(s.rounds, p, k)
  {
    EveryRunKeeps(ops);
    EntitledExactlyWhenGranted(Run(ops).start, Run(ops).rounds, p);
  }
}
