// packages/provider-node/src/personal-provider-config-repository.ts: one process's view of the
// personal configuration file, which other processes write as well.
//
// The file is its history of commits; a commit is where it stands in that history, and the
// revision that reading it gives. Every writer holds the file's lock; readers do not.

module PersonalRepository {
  import opened Wrappers

  type Revision = nat

  // A commit that was read: its place in the history and its revision.
  datatype Seen = Seen(place: nat, revision: Revision)

  // The generation of own writes when the poll began, and what it has read by now.
  datatype Poll = NoPoll | Polling(generation: nat, read: Option<Seen>)

  // The fields of the repository object.
  datatype Local = Local(
    polling: bool,
    timer: bool,
    poll: Poll,
    generation: nat,
    observed: Option<Seen>,
    // Whether the latest poll failed and listeners know.
    failing: bool,
    disposed: bool)

  function Initial(polling: bool): (l: Local) {
    Local(polling, false, NoPoll, 0, None, false, false)
  }

  function EnsurePolling(l: Local): (l': Local) {
    if !l.polling || l.timer || l.poll.Polling? || l.disposed then l else l.(timer := true)
  }

  // The end of read(), whether it found a usable file or fell back on the empty configuration.
  function ReadDone(l: Local, seen: Seen): (l': Local) {
    EnsurePolling(if l.observed.None? then l.(observed := Some(seen)) else l)
  }

  function WriteCounted(l: Local): (l': Local) {
    l.(generation := l.generation + 1)
  }

  // The end of update(): what it wrote, if it got that far.
  function UpdateDone(l: Local, written: Option<Seen>): (l': Local) {
    EnsurePolling(if written.Some? then l.(observed := written) else l)
  }

  function PollBegins(l: Local): (l': Local)
    requires l.timer && l.poll.NoPoll?
  {
    l.(timer := false, poll := Polling(l.generation, None))
  }

  function PollReads(l: Local, seen: Seen): (l': Local)
    requires l.poll.Polling?
  {
    l.(poll := l.poll.(read := Some(seen)))
  }

  predicate Differs(observed: Option<Seen>, seen: Seen) {
    observed.None? || observed.value.revision != seen.revision
  }

  // A poll that began before an own write was counted is discarded.
  function PollEnds(l: Local): (l': Local)
    requires l.poll.Polling? && l.poll.read.Some?
  {
    var seen := l.poll.read.value;
    var current := l.poll.generation == l.generation;
    var taken := current && !l.disposed && Differs(l.observed, seen);
    EnsurePolling(l.(
      observed := if taken then Some(seen) else l.observed,
      failing := l.failing && !current,
      poll := NoPoll))
  }

  function PollFails(l: Local): (l': Local)
    requires l.poll.Polling?
  {
    var current := l.poll.generation == l.generation && !l.disposed;
    EnsurePolling(l.(failing := l.failing || current, poll := NoPoll))
  }

  function Dispose(l: Local): (l': Local) {
    if l.disposed then l else l.(disposed := true, timer := false)
  }

  // ---------------------------------------------------------------------------------------
  // The object
  // ---------------------------------------------------------------------------------------

  class Repository {
    const pollingEnabled: bool
    var pollingTimer: bool
    var pollingInFlight: bool
    var writeGeneration: nat
    var observedRevision: Option<Seen>
    var pollingErrorActive: bool
    var disposed: bool
    // The local variables of the poll under way.
    var pollGeneration: nat
    var pollRead: Option<Seen>
    // The reasons of the events that listeners were told of.
    var emitted: seq<string>

    ghost function State(): (l: Local)
      reads this
    {
      Local(pollingEnabled, pollingTimer, if pollingInFlight then Polling(pollGeneration, pollRead) else NoPoll,
            writeGeneration, observedRevision, pollingErrorActive, disposed)
    }

    constructor (pollingEnabled: bool)
      ensures State() == Initial(pollingEnabled) && emitted == []
    {
      this.pollingEnabled := pollingEnabled;
      pollingTimer := false;
      pollingInFlight := false;
      writeGeneration := 0;
      observedRevision := None;
      pollingErrorActive := false;
      disposed := false;
      pollGeneration := 0;
      pollRead := None;
      emitted := [];
    }

    method Arm()
      modifies this
      ensures State() == EnsurePolling(old(State())) && emitted == old(emitted)
    {
      if !pollingEnabled || pollingTimer || pollingInFlight || disposed {
        return;
      }
      pollingTimer := true;
    }

    method FinishRead(seen: Seen)
      modifies this
      ensures State() == ReadDone(old(State()), seen) && emitted == old(emitted)
    {
      if observedRevision.None? {
        observedRevision := Some(seen);
      }
      Arm();
    }

    method CountWrite()
      modifies this
      ensures State() == WriteCounted(old(State())) && emitted == old(emitted)
    {
      writeGeneration := writeGeneration + 1;
    }

    method FinishUpdate(written: Option<Seen>)
      modifies this
      ensures State() == UpdateDone(old(State()), written)
      ensures emitted == old(emitted) + (if written.Some? && !old(disposed) then ["updated"] else [])
    {
      if written.Some? {
        observedRevision := written;
        Emit("updated");
      }
      Arm();
    }

    method BeginPoll()
      requires State().timer && State().poll.NoPoll?
      modifies this
      ensures State() == PollBegins(old(State())) && emitted == old(emitted)
    {
      pollingTimer := false;
      pollingInFlight := true;
      pollGeneration := writeGeneration;
      pollRead := None;
    }

    method NotePollRead(seen: Seen)
      requires State().poll.Polling?
      modifies this
      ensures State() == PollReads(old(State()), seen) && emitted == old(emitted)
    {
      pollRead := Some(seen);
    }

    // Listeners hear of a poll exactly when it changes what was observed.
    method EndPoll()
      requires State().poll.Polling? && State().poll.read.Some?
      modifies this
      ensures State() == PollEnds(old(State()))
      ensures emitted == old(emitted) + (if observedRevision != old(observedRevision) then ["poll-changed"] else [])
    {
      var snapshot := pollRead.value;
      if pollGeneration == writeGeneration {
        pollingErrorActive := false;
        if !disposed && Differs(observedRevision, snapshot) {
          observedRevision := Some(snapshot);
          Emit("poll-changed");
        }
      }
      pollingInFlight := false;
      Arm();
    }

    // Listeners hear of the first failure in a row only.
    method FailPoll()
      requires State().poll.Polling?
      modifies this
      ensures State() == PollFails(old(State()))
      ensures emitted == old(emitted) + (if pollingErrorActive && !old(pollingErrorActive) then ["poll-error"] else [])
    {
      if !disposed && pollGeneration == writeGeneration {
        if !pollingErrorActive {
          pollingErrorActive := true;
          Emit("poll-error");
        }
      }
      pollingInFlight := false;
      Arm();
    }

    method Emit(reason: string)
      modifies this
      ensures emitted == old(emitted) + (if disposed then [] else [reason])
      ensures State() == old(State())
    {
      if disposed {
        return;
      }
      emitted := emitted + [reason];
    }

    method DisposeRepository()
      modifies this
      ensures State() == Dispose(old(State())) && emitted == old(emitted)
    {
      if disposed {
        return;
      }
      disposed := true;
      pollingTimer := false;
    }
  }
}
