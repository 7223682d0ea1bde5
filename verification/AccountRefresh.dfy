// packages/provider/src/account-provider-service.ts: the refresh loop of the account provider
// service, cut at its awaits. Each function is what runs between two of them.

module AccountRefresh {
  import opened Wrappers
  import opened ProviderSources
  import opened Waiters

  type LogEntry = Entry<AccountSnapshot>

  datatype Phase =
    | Idle
    | ReadingConfig(generation: nat)
    | Resolving(generation: nat, config: ConfigSnapshot)
    | ReadingAgain(generation: nat, config: ConfigSnapshot, providers: Overlays, states: string)
    | Ended

  datatype Account = Account(
    requested: nat,
    pending: set<string>,
    waiting: seq<nat>,
    snapshot: Option<AccountSnapshot>,
    phase: Phase,
    started: bool,
    disposed: bool,
    // Whether the last finished round was given up without a snapshot of its own.
    failed: bool,
    log: seq<LogEntry>)

  // A step, and whether it told the change listeners.
  datatype Stepped = Stepped(state: Account, notified: bool)

  function Initial(): (a: Account) {
    Account(0, {}, [], None, Idle, false, false, false, [])
  }

  function Answer(a: Account, generation: nat, snapshot: AccountSnapshot): (a': Account) {
    a.(waiting := After(a.waiting, generation), log := a.log + Answers(a.waiting, generation, snapshot))
  }

  function Refuse(a: Account, generation: nat): (a': Account) {
    a.(waiting := After(a.waiting, generation), log := a.log + Refusals(a.waiting, generation))
  }

  function Publish(a: Account, snapshot: AccountSnapshot): (a': Account) {
    a.(snapshot := Some(snapshot), log := a.log + [Published(snapshot)])
  }

  function Begin(a: Account): (a': Account) {
    a.(phase := ReadingConfig(a.requested), pending := {}, log := a.log + [Began(a.requested)])
  }

  function LoopHead(a: Account): (a': Account) {
    if a.pending != {} then Begin(a) else a.(phase := Ended)
  }

  // Callers see to it that nothing is requested after dispose.
  function Request(a: Account, reason: string): (a': Account) {
    if a.disposed then a else
    var generation := a.requested + 1;
    var asked := a.(
      started := true,
      requested := generation,
      pending := a.pending + {reason},
      waiting := a.waiting + [generation],
      log := a.log + [Asked(generation)]);
    if a.phase == Idle then LoopHead(asked) else asked
  }

  function ConfigRead(a: Account, config: ConfigSnapshot): (a': Account)
    requires a.phase.ReadingConfig?
  {
    a.(phase := Resolving(a.phase.generation, config))
  }

  function Resolved(a: Account, providers: Overlays, states: string): (a': Account)
    requires a.phase.Resolving?
  {
    if a.disposed then Fail(a)
    else a.(phase := ReadingAgain(a.phase.generation, a.phase.config, providers, states))
  }

  // The round is thrown away when something was requested meanwhile or the Built-in moved on.
  function ConfigReadAgain(a: Account, current: ConfigSnapshot): (r: Stepped)
    requires a.phase.ReadingAgain?
  {
    var generation, config := a.phase.generation, a.phase.config;
    if a.disposed then Stepped(Fail(a), false)
    else if a.pending != {} || current.builtin.revision != config.builtin.revision then
      Stepped(LoopHead(a.(pending := a.pending + {"superseded-resolution"})), false)
    else
      var next := AccountSnapshot(config.builtin.revision, a.phase.providers, Some(a.phase.states));
      var done := (if a.snapshot == Some(next) then a else Publish(a, next)).(failed := false);
      Stepped(LoopHead(Answer(done, generation, next)), a.snapshot.Some? && a.snapshot.value != next)
  }

  // The catch block: before the first snapshot a failed round publishes that nobody is entitled,
  // later it keeps the last good snapshot and refuses the requests the round was for.
  function Fail(a: Account): (a': Account)
    requires a.phase.ReadingConfig? || a.phase.Resolving? || a.phase.ReadingAgain?
  {
    var generation := a.phase.generation;
    if a.snapshot.None? && !a.phase.ReadingConfig? then
      var closed := FailClosed(a.phase.config);
      LoopHead(Answer(Publish(a, closed).(failed := false), generation, closed))
    else
      Refuse(a, generation).(failed := true, phase := Ended)
  }

  function Finish(a: Account): (a': Account)
    requires a.phase.Ended?
  {
    var idle := a.(phase := Idle);
    if a.disposed || a.pending == {} then idle else LoopHead(idle)
  }

  function Dispose(a: Account): (a': Account) {
    if a.disposed then a else
    a.(disposed := true, waiting := [], log := a.log + Refusals(a.waiting, a.requested))
  }
}
