// The configuration source and the two services together.

module RefreshSystem {
  // Every interleaving of source changes, event deliveries, requests, resumptions and disposals.
  // A read that is under way samples each part, the Built-in and the Personal one, at some moment of
  // its own before the reader resumes; a part may change between that moment and the resumption.

  import opened Wrappers
  import opened ProviderSources
  import opened Waiters
  import R = RegistryRefresh
  import A = AccountRefresh

  datatype System = System(
    config: ConfigSnapshot,
    // A change of the configuration that a subscriber has not been told of.
    registryEvent: bool,
    accountEvent: bool,
    registry: R.Registry,
    registryStarted: bool,
    registryBuiltin: Option<Builtin>,
    registryPersonal: Option<string>,
    registryAccount: Option<AccountSnapshot>,
    account: A.Account,
    accountBuiltin: Option<Builtin>,
    accountPersonal: Option<string>)

  datatype Action =
    | ChangeBuiltin(builtin: Builtin)
    | ChangePersonal(revision: string)
    | TellRegistry
    | TellAccount(reason: string)
    | RefreshRegistry
    | RefreshAccount(reason: string)
    | RegistrySamplesBuiltin
    | RegistrySamplesPersonal
    | RegistrySamplesAccount
    | RegistryResumes(resolves: bool)
    | RegistryReadFails
    | RegistryFinishes
    | RegistryDisposes
    | AccountSamplesBuiltin
    | AccountSamplesPersonal
    | AccountResumes
    | AccountResolves(providers: Overlays, states: string)
    | AccountFails
    | AccountFinishes
    | AccountDisposes

  function Start(config: ConfigSnapshot): (s: System) {
    System(config, false, false, R.Initial(), false, None, None, None, A.Initial(), None, None)
  }

  function RequestRegistry(s: System): (s': System) {
    s.(registry := R.Request(s.registry))
  }

  predicate AccountReads(a: A.Account) {
    a.phase.ReadingConfig? || a.phase.ReadingAgain?
  }

  predicate RegistryHasRead(s: System) {
    s.registry.phase.Reading? && s.registryBuiltin.Some? && s.registryPersonal.Some? && s.registryAccount.Some?
  }

  function RegistryConfig(s: System): (config: ConfigSnapshot)
    requires RegistryHasRead(s)
  {
    ConfigSnapshot(s.registryBuiltin.value, s.registryPersonal.value)
  }

  predicate AccountHasRead(s: System) {
    AccountReads(s.account) && s.accountBuiltin.Some? && s.accountPersonal.Some?
  }

  function AccountConfig(s: System): (config: ConfigSnapshot)
    requires AccountHasRead(s)
  {
    ConfigSnapshot(s.accountBuiltin.value, s.accountPersonal.value)
  }

  // What a round has sampled is used up.
  function AccountMoves(s: System, account: A.Account): (s': System) {
    s.(account := account, accountBuiltin := None, accountPersonal := None)
  }

  // Whoever has subscribed will be told.
  function Changed(s: System, config: ConfigSnapshot): (s': System) {
    s.(config := config,
       registryEvent := s.registryEvent || s.registryStarted,
       accountEvent := s.accountEvent || s.account.started)
  }

  function Step(s: System, act: Action): (s': System) {
    match act
    case ChangeBuiltin(builtin) => Changed(s, s.config.(builtin := builtin))
    case ChangePersonal(revision) => Changed(s, s.config.(personalRevision := revision))
    case TellRegistry =>
      if !s.registryEvent then s else RequestRegistry(s.(registryEvent := false))
    case TellAccount(reason) =>
      if !s.accountEvent then s else s.(accountEvent := false, account := A.Request(s.account, reason))
    case RefreshRegistry =>
      RequestRegistry(s.(registryStarted := true))
    case RefreshAccount(reason) =>
      s.(account := A.Request(s.account, reason))
    case RegistrySamplesBuiltin =>
      if s.registry.phase.Reading? && s.registryBuiltin.None? then s.(registryBuiltin := Some(s.config.builtin)) else s
    case RegistrySamplesPersonal =>
      if s.registry.phase.Reading? && s.registryPersonal.None?
      then s.(registryPersonal := Some(s.config.personalRevision)) else s
    case RegistrySamplesAccount =>
      if s.registry.phase.Reading? && s.registryAccount.None? && s.account.snapshot.Some?
      then s.(registryAccount := s.account.snapshot) else s
    case RegistryResumes(resolves) =>
      if RegistryHasRead(s) then
        s.(registry := R.ReadDone(s.registry, RegistryConfig(s), s.registryAccount.value, resolves),
           registryBuiltin := None, registryPersonal := None, registryAccount := None)
      else s
    case RegistryReadFails =>
      if s.registry.phase.Reading? then
        s.(registry := R.ReadFailed(s.registry), registryBuiltin := None, registryPersonal := None,
           registryAccount := None)
      else s
    case RegistryFinishes =>
      if s.registry.phase.Ended? then s.(registry := R.Finish(s.registry)) else s
    case RegistryDisposes =>
      s.(registry := R.Dispose(s.registry))
    case AccountSamplesBuiltin =>
      if AccountReads(s.account) && s.accountBuiltin.None? then s.(accountBuiltin := Some(s.config.builtin)) else s
    case AccountSamplesPersonal =>
      if AccountReads(s.account) && s.accountPersonal.None?
      then s.(accountPersonal := Some(s.config.personalRevision)) else s
    case AccountResumes =>
      if !AccountHasRead(s) then s
      else if s.account.phase.ReadingConfig? then
        AccountMoves(s, A.ConfigRead(s.account, AccountConfig(s)))
      else
        var r := A.ConfigReadAgain(s.account, AccountConfig(s));
        var s1 := AccountMoves(s, r.state);
        if r.notified && s.registryStarted then RequestRegistry(s1) else s1
    case AccountResolves(providers, states) =>
      if s.account.phase.Resolving? then s.(account := A.Resolved(s.account, providers, states)) else s
    case AccountFails =>
      if AccountReads(s.account) || s.account.phase.Resolving?
      then AccountMoves(s, A.Fail(s.account)) else s
    case AccountFinishes =>
      if s.account.phase.Ended? then s.(account := A.Finish(s.account)) else s
    case AccountDisposes =>
      s.(account := A.Dispose(s.account))
  }

  function Run(config: ConfigSnapshot, acts: seq<Action>): (s: System) {
    if acts == [] then Start(config) else Step(Run(config, acts[..|acts| - 1]), acts[|acts| - 1])
  }

  // ---------------------------------------------------------------------------------------
  // What holds in every reachable state
  // ---------------------------------------------------------------------------------------

  // The registry's counters, phases and waiters.
  ghost predicate RegistryOk(r: R.Registry) {
    && r.completed <= r.requested
    && (r.phase.Reading? ==> r.completed < r.phase.generation <= r.requested)
    && (r.phase.Idle? && !r.disposed ==> r.completed == r.requested)
    && (r.phase.Ended? && r.phase.thrown ==> r.disposed)
    && (forall w <- r.waiting :: 1 <= w <= r.requested)
    // a waiter that its generation has passed waits for the first snapshot
    && (forall w <- r.waiting :: w <= r.completed ==> r.snapshot.None?)
    && (r.disposed ==> r.waiting == [])
    // what is published belongs together
    && (r.snapshot.Some? ==> r.snapshot.value.account.basedOn == r.snapshot.value.config.builtin.revision)
    // the last iteration that did not fail left its reads published, unless they were apart
    && (r.completed > 0 && !r.failed ==> r.lastRead.Some?)
    && (r.lastRead.Some? ==> r.completed > 0)
    && (r.lastRead.Some? && !r.failed ==>
          var read := r.lastRead.value;
          read.account.basedOn == read.config.builtin.revision ==> R.SameRevisions(r, read.config, read.account))
  }

  // A configuration that was read and is no longer current is known to be stale.
  ghost predicate RegistryFresh(s: System) {
    var r := s.registry;
    && (s.registryBuiltin.Some? || s.registryPersonal.Some? || s.registryAccount.Some? ==> r.phase.Reading?)
    && (r.requested > 0 || s.registryEvent ==> s.registryStarted)
    && (s.registryAccount.Some? ==> s.account.snapshot.Some?)
    && (r.lastRead.Some? ==> s.account.snapshot.Some?)
    && (!r.disposed ==>
        && (s.registryBuiltin.Some? && s.registryBuiltin.value != s.config.builtin ==>
              s.registryEvent || r.phase.generation < r.requested)
        && (s.registryPersonal.Some? && s.registryPersonal.value != s.config.personalRevision ==>
              s.registryEvent || r.phase.generation < r.requested)
        && (s.registryAccount.Some? && s.registryAccount != s.account.snapshot ==>
              r.phase.generation < r.requested)
        && (r.lastRead.Some? && !r.failed && r.lastRead.value.config != s.config ==>
              s.registryEvent || r.completed < r.requested)
        && (r.lastRead.Some? && !r.failed && Some(r.lastRead.value.account) != s.account.snapshot ==>
              r.completed < r.requested))
  }

  // The account service's phases and waiters.
  ghost predicate AccountOk(a: A.Account) {
    && (a.phase.Idle? && !a.disposed ==> a.pending == {})
    && (forall w <- a.waiting :: 1 <= w <= a.requested)
    && (a.disposed ==> a.waiting == [])
    // a waiter that no round under way covers has its reason pending
    && (forall w <- a.waiting :: CoveredBy(a, w) || a.pending != {})
    && (a.requested > 0 || a.snapshot.Some? || !a.phase.Idle? ==> a.started)
  }

  ghost predicate CoveredBy(a: A.Account, waiter: nat) {
    match a.phase
    case ReadingConfig(g) => waiter <= g
    case Resolving(g, _) => waiter <= g
    case ReadingAgain(g, _, _, _) => waiter <= g
    case _ => false
  }

  ghost predicate BehindBuiltin(a: A.Account, config: ConfigSnapshot) {
    a.snapshot.Some? && a.snapshot.value.basedOn != config.builtin.revision
  }

  ghost predicate AccountFresh(s: System) {
    var a := s.account;
    var told := s.accountEvent || a.pending != {};
    && (s.accountBuiltin.Some? || s.accountPersonal.Some? ==> AccountReads(a))
    && (!a.disposed ==>
        && (s.accountBuiltin.Some? && s.accountBuiltin.value.revision != s.config.builtin.revision ==> told)
        && (a.phase.Resolving? && a.phase.config.builtin.revision != s.config.builtin.revision ==> told)
        && (a.phase.ReadingAgain? && a.phase.config.builtin.revision != s.config.builtin.revision ==> told)
        && ((a.phase.Idle? || a.phase.Ended?) && !a.failed && BehindBuiltin(a, s.config) ==> told))
  }

  ghost predicate Invariant(s: System) {
    RegistryOk(s.registry) && RegistryFresh(s) && AccountOk(s.account) && AccountFresh(s)
  }

  // ---------------------------------------------------------------------------------------
  // Every step keeps the invariant
  // ---------------------------------------------------------------------------------------

  lemma {:induction false} ReadDoneKeepsOk(r: R.Registry, config: ConfigSnapshot, account: AccountSnapshot,
                                           resolves: bool)
    requires r.phase.Reading? && RegistryOk(r)
    ensures RegistryOk(R.ReadDone(r, config, account, resolves))
  {
    hide After, Answers, Refusals;
    AfterKeepsLater(r.waiting, r.phase.generation);
  }

  // Reads that are used are the last ones asked for, so they are current or known to be stale.
  lemma {:induction false} RegistryResumesKeeps(s: System, resolves: bool)
    requires Invariant(s)
    ensures Invariant(Step(s, RegistryResumes(resolves)))
  {
    if RegistryHasRead(s) {
      var s' := Step(s, RegistryResumes(resolves));
      ReadDoneKeepsOk(s.registry, RegistryConfig(s), s.registryAccount.value, resolves);
      ReadDoneKeepsFresh(s, resolves);
      assert s'.account == s.account && s'.config == s.config;
    }
  }

  lemma {:induction false} ReadDoneKeepsFresh(s: System, resolves: bool)
    requires RegistryOk(s.registry) && RegistryFresh(s)
    requires RegistryHasRead(s)
    ensures RegistryFresh(Step(s, RegistryResumes(resolves)))
  {
  }

  lemma {:induction false} RegistryReadFailsKeeps(s: System)
    requires Invariant(s)
    ensures Invariant(Step(s, RegistryReadFails))
  {
    if s.registry.phase.Reading? {
      AfterKeepsLater(s.registry.waiting, s.registry.phase.generation);
    }
  }

  lemma {:induction false} RegistryFinishesKeeps(s: System)
    requires Invariant(s)
    ensures Invariant(Step(s, RegistryFinishes))
  {
    hide AccountOk;
    AfterKeepsLater(s.registry.waiting, s.registry.requested);
  }

  lemma {:induction false} RegistryDisposesKeeps(s: System)
    requires Invariant(s)
    ensures Invariant(Step(s, RegistryDisposes))
  {
    AfterKeepsLater(s.registry.waiting, s.registry.requested);
  }

  ghost predicate InRound(a: A.Account) {
    a.phase.ReadingConfig? || a.phase.Resolving? || a.phase.ReadingAgain?
  }

  lemma {:induction false} FailKeepsOk(a: A.Account)
    requires AccountOk(a) && InRound(a)
    ensures AccountOk(A.Fail(a))
  {
    AfterKeepsLater(a.waiting, a.phase.generation);
  }

  lemma {:induction false} ConfigReadAgainKeepsOk(a: A.Account, current: ConfigSnapshot)
    requires AccountOk(a) && a.phase.ReadingAgain?
    ensures AccountOk(A.ConfigReadAgain(a, current).state)
  {
    AfterKeepsLater(a.waiting, a.phase.generation);
    if a.disposed {
      FailKeepsOk(a);
    }
  }

  // A failing round leaves no snapshot behind the Built-in without a reason to try again.
  lemma {:induction false} FailKeepsFresh(s: System)
    requires AccountFresh(s) && AccountOk(s.account) && InRound(s.account)
    ensures AccountFresh(AccountMoves(s, A.Fail(s.account)))
  {
  }

  lemma {:induction false} AccountFailsKeeps(s: System)
    requires Invariant(s) && InRound(s.account)
    ensures Invariant(AccountMoves(s, A.Fail(s.account)))
  {
    FailKeepsOk(s.account);
    FailKeepsFresh(s);
    var s' := AccountMoves(s, A.Fail(s.account));
    assert s.account.snapshot.Some? ==> s'.account.snapshot == s.account.snapshot;
    assert RegistryFresh(s');
  }

  lemma {:induction false} AccountMovesOn(s: System, act: Action)
    requires Invariant(s)
    requires act.AccountResolves? || act.AccountFails?
    ensures Invariant(Step(s, act))
  {
    if InRound(s.account) {
      AccountFailsKeeps(s);
    }
  }

  lemma {:induction false} AccountStops(s: System, act: Action)
    requires Invariant(s)
    requires act.AccountFinishes? || act.AccountDisposes?
    ensures Invariant(Step(s, act))
  {
    hide RegistryOk;
  }

  // The snapshot a round publishes is told to the registry, except the very first one.
  lemma {:induction false} AccountResumesKeeps(s: System)
    requires Invariant(s)
    ensures Invariant(Step(s, AccountResumes))
  {
    var a := s.account;
    if a.phase.ReadingAgain? && AccountHasRead(s) {
      var r := A.ConfigReadAgain(a, AccountConfig(s));
      ConfigReadAgainKeepsOk(a, AccountConfig(s));
      if a.disposed {
        AccountFailsKeeps(s);
      } else {
        var s1 := AccountMoves(s, r.state);
        assert AccountFresh(s1);
        PublishingKeepsRegistry(s, r);
      }
    }
  }

  lemma {:induction false} PublishingKeepsRegistry(s: System, r: A.Stepped)
    requires Invariant(s)
    requires s.account.phase.ReadingAgain? && AccountHasRead(s) && !s.account.disposed
    requires r == A.ConfigReadAgain(s.account, AccountConfig(s))
    ensures var s' := Step(s, AccountResumes);
            RegistryOk(s'.registry) && RegistryFresh(s')
  {
    hide RegistryOk, RegistryFresh, AccountFresh, AccountOk, RequestRegistry;
    NewAccountIsTold(s, r.state, r.notified);
  }

  // The registry is asked again whenever a snapshot gives way to another one.
  lemma {:induction false} NewAccountIsTold(s: System, account: A.Account, notified: bool)
    requires RegistryOk(s.registry) && RegistryFresh(s)
    requires s.account.snapshot.Some? ==> account.snapshot.Some?
    requires s.account.snapshot.Some? && account.snapshot != s.account.snapshot ==> notified
    ensures var s1 := AccountMoves(s, account);
            var s' := if notified && s.registryStarted then RequestRegistry(s1) else s1;
            RegistryOk(s'.registry) && RegistryFresh(s')
  {
  }

  lemma {:induction false} StepKeeps(s: System, act: Action)
    requires Invariant(s)
    ensures Invariant(Step(s, act))
  {
    hide *;
    match act
    case ChangeBuiltin(_) => ChangeKeeps(s, act);
    case ChangePersonal(_) => ChangeKeeps(s, act);
    case TellRegistry => RegistryRequestKeeps(s, act);
    case TellAccount(reason) => TellAccountKeeps(s, reason);
    case RefreshRegistry => RegistryRequestKeeps(s, act);
    case RefreshAccount(reason) => RefreshAccountKeeps(s, reason);
    case RegistryResumes(resolves) => RegistryResumesKeeps(s, resolves);
    case RegistryReadFails => RegistryReadFailsKeeps(s);
    case RegistryFinishes => RegistryFinishesKeeps(s);
    case RegistryDisposes => RegistryDisposesKeeps(s);
    case AccountResumes => AccountResumesKeeps(s);
    case AccountResolves(_, _) => AccountMovesOn(s, act);
    case AccountFails => AccountMovesOn(s, act);
    case AccountFinishes => AccountStops(s, act);
    case AccountDisposes => AccountStops(s, act);
    case _ => SamplingKeeps(s, act);
  }

  lemma {:induction false} ChangeKeeps(s: System, act: Action)
    requires Invariant(s) && (act.ChangeBuiltin? || act.ChangePersonal?)
    ensures Invariant(Step(s, act))
  {
  }

  lemma {:induction false} RegistryRequestKeeps(s: System, act: Action)
    requires Invariant(s) && (act.TellRegistry? || act.RefreshRegistry?)
    ensures Invariant(Step(s, act))
  {
    hide AccountOk;
    RequestKeepsOk(s.registry);
  }

  lemma {:induction false} RequestKeepsOk(r: R.Registry)
    requires RegistryOk(r)
    ensures RegistryOk(R.Request(r))
  {
  }

  lemma {:induction false} TellAccountKeeps(s: System, reason: string)
    requires Invariant(s)
    ensures Invariant(Step(s, TellAccount(reason)))
  {
  }

  lemma {:induction false} RefreshAccountKeeps(s: System, reason: string)
    requires Invariant(s)
    ensures Invariant(Step(s, RefreshAccount(reason)))
  {
  }

  lemma {:induction false} SamplingKeeps(s: System, act: Action)
    requires Invariant(s)
    requires act.RegistrySamplesBuiltin? || act.RegistrySamplesPersonal? || act.RegistrySamplesAccount?
             || act.AccountSamplesBuiltin? || act.AccountSamplesPersonal?
    ensures Invariant(Step(s, act))
  {
  }

  lemma {:induction false} EveryRunKeeps(config: ConfigSnapshot, acts: seq<Action>)
    ensures Invariant(Run(config, acts))
  {
    if acts != [] {
      EveryRunKeeps(config, acts[..|acts| - 1]);
      StepKeeps(Run(config, acts[..|acts| - 1]), acts[|acts| - 1]);
    }
  }

  // ---------------------------------------------------------------------------------------
  // What the two services guarantee together
  // ---------------------------------------------------------------------------------------

  // Nothing is under way and no event is on its way; neither loop ended on a failure.
  ghost predicate AtRest(s: System) {
    && s.registryStarted && s.registry.requested > 0
    && s.registry.phase.Idle? && s.account.phase.Idle?
    && !s.registry.disposed && !s.account.disposed
    && !s.registryEvent && !s.accountEvent
    && !s.registry.failed && !s.account.failed
  }

  // The registry shows what the two sources hold, and they belong together.
  ghost predicate UpToDate(s: System) {
    && s.account.snapshot.Some?
    && s.account.snapshot.value.basedOn == s.config.builtin.revision
    && R.SameRevisions(s.registry, s.config, s.account.snapshot.value)
  }

  // No interleaving loses an update: whenever everything has come to rest, the registry is up
  // to date. In particular a last iteration never ends with the Built-in revisions apart.
  lemma {:induction false} NoUpdateIsLost(config: ConfigSnapshot, acts: seq<Action>)
    requires AtRest(Run(config, acts))
    ensures UpToDate(Run(config, acts))
  {
    EveryRunKeeps(config, acts);
  }

  // No caller is left waiting: a waiter of the account service at rest does not exist, and a
  // waiter of the registry at rest exists only while nothing was ever published.
  lemma {:induction false} NobodyIsStranded(config: ConfigSnapshot, acts: seq<Action>)
    ensures var s := Run(config, acts);
            && (s.account.phase.Idle? ==> s.account.waiting == [])
            && (forall w <- s.account.waiting :: CoveredBy(s.account, w) || s.account.pending != {})
            && (s.registry.phase.Idle? && s.registry.snapshot.Some? ==> s.registry.waiting == [])
            && (forall w <- s.registry.waiting :: w <= s.registry.completed ==> s.registry.snapshot.None?)
  {
    EveryRunKeeps(config, acts);
    var s := Run(config, acts);
    if s.account.waiting != [] {
      assert s.account.waiting[0] in s.account.waiting;
    }
    if s.registry.waiting != [] {
      assert s.registry.waiting[0] in s.registry.waiting;
    }
  }

  // What is published never mixes two Built-in revisions, not even between two steps.
  lemma {:induction false} PublishedPartsBelongTogether(config: ConfigSnapshot, acts: seq<Action>)
    requires Run(config, acts).registry.snapshot.Some?
    ensures var snapshot := Run(config, acts).registry.snapshot.value;
            snapshot.account.basedOn == snapshot.config.builtin.revision
  {
    EveryRunKeeps(config, acts);
  }
}
