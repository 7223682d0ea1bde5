// packages/provider/src/registry-service.ts: the refresh loop of the provider registry, cut at
// its awaits. Each function is what runs between two of them.

module RegistryRefresh {
  import opened Wrappers
  import opened ProviderSources
  import opened Waiters

  datatype RegistrySnapshot = RegistrySnapshot(config: ConfigSnapshot, account: AccountSnapshot)

  type LogEntry = Entry<RegistrySnapshot>

  // Ended: the loop's promise is settled, its continuation has not run yet.
  datatype Phase = Idle | Reading(generation: nat) | Ended(thrown: bool)

  datatype Registry = Registry(
    requested: nat,
    completed: nat,
    waiting: seq<nat>,
    snapshot: Option<RegistrySnapshot>,
    phase: Phase,
    disposed: bool,
    // How the last completed iteration went: what it read, or that it failed.
    lastRead: Option<RegistrySnapshot>,
    failed: bool,
    log: seq<LogEntry>)

  function Initial(): (r: Registry) {
    Registry(0, 0, [], None, Idle, false, None, false, [])
  }

  function Answer(r: Registry, generation: nat, snapshot: RegistrySnapshot): (r': Registry) {
    r.(waiting := After(r.waiting, generation), log := r.log + Answers(r.waiting, generation, snapshot))
  }

  function Refuse(r: Registry, generation: nat): (r': Registry) {
    r.(waiting := After(r.waiting, generation), log := r.log + Refusals(r.waiting, generation))
  }

  // The test at the head of the loop, and the start of the next reads.
  function LoopHead(r: Registry): (r': Registry) {
    if r.completed < r.requested then
      r.(phase := Reading(r.requested), log := r.log + [Began(r.requested)])
    else
      r.(phase := Ended(false))
  }

  function EnsureLoop(r: Registry): (r': Registry) {
    if r.phase != Idle || r.disposed then r else LoopHead(r)
  }

  // Callers see to it that nothing is requested after dispose.
  function Request(r: Registry): (r': Registry) {
    if r.disposed then r else
    var generation := r.requested + 1;
    EnsureLoop(r.(requested := generation, waiting := r.waiting + [generation], log := r.log + [Asked(generation)]))
  }

  function ReadFailed(r: Registry): (r': Registry)
    requires r.phase.Reading?
  {
    var generation := r.phase.generation;
    if generation < r.requested then LoopHead(r) else
    Refuse(r.(completed := generation, failed := true), generation).(phase := Ended(false))
  }

  predicate SameRevisions(r: Registry, config: ConfigSnapshot, account: AccountSnapshot) {
    r.snapshot.Some? && SameRevision(r.snapshot.value.config, config) && r.snapshot.value.account == account
  }

  // `resolves` is whether the resolver and the index rebuild accept the combination.
  function ReadDone(r: Registry, config: ConfigSnapshot, account: AccountSnapshot, resolves: bool): (r': Registry)
    requires r.phase.Reading?
  {
    var generation := r.phase.generation;
    if generation < r.requested then LoopHead(r)
    else if r.disposed then r.(phase := Ended(true))
    else
      var read := RegistrySnapshot(config, account);
      var done := r.(completed := generation, failed := false, lastRead := Some(read));
      if account.basedOn != config.builtin.revision then
        LoopHead(if r.snapshot.Some? then Answer(done, generation, r.snapshot.value) else done)
      else if SameRevisions(r, config, account) then
        LoopHead(Answer(done, generation, r.snapshot.value))
      else if resolves then
        LoopHead(Answer(done.(snapshot := Some(read), log := r.log + [Published(read)]), generation, read))
      else
        Refuse(r.(completed := generation, failed := true), generation).(phase := Ended(false))
  }

  function Finish(r: Registry): (r': Registry)
    requires r.phase.Ended?
  {
    var idle := (if r.phase.thrown then Refuse(r, r.requested) else r).(phase := Idle);
    if idle.completed < idle.requested then EnsureLoop(idle) else idle
  }

  function Dispose(r: Registry): (r': Registry) {
    if r.disposed then r else
    r.(disposed := true, waiting := [], log := r.log + Refusals(r.waiting, r.requested))
  }
}
