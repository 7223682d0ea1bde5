// The cache of Built-in releases.

module ReleaseCache {
  // packages/provider-node/src/zcode-builtin-provider-config-source.ts

  // The Built-in release that comes with each process, and the active file that all processes of an
  // endpoint share.

  import opened Wrappers

  // The content stands for the serialized release.
  datatype Release = Release(revision: nat, content: nat)

  datatype File = Missing | Broken | Holding(release: Release)

  function Candidate(f: File): (r: Option<Release>) {
    if f.Holding? then Some(f.release) else None
  }

  datatype Error = NothingUsable | SameRevisionOtherContent | Disposed

  function SelectReleaseCandidate(bundled: Option<Release>, active: Option<Release>): (r: Option<Release>) {
    if bundled.Some? && active.Some? && bundled.value.revision == active.value.revision
      && bundled.value.content != active.value.content
    then bundled
    else if bundled.None? then active
    else if active.None? then bundled
    else if active.value.revision > bundled.value.revision then active
    else bundled
  }

  datatype Materialized = Materialized(release: Release, file: File)

  // Reading under the lock: the selected release is also what the file holds afterwards.
  function Materialize(bundled: File, file: File): (r: Result<Materialized, Error>) {
    match SelectReleaseCandidate(Candidate(bundled), Candidate(file))
    case None => Err(NothingUsable)
    case Some(selected) =>
      Ok(Materialized(selected, if Candidate(file) == Some(selected) then file else Holding(selected)))
  }

  datatype Applied = Updated | Unchanged | Stale

  datatype Outcome = Outcome(result: Result<Applied, Error>, file: File)

  function ApplyRemote(bundled: File, file: File, release: Release): (o: Outcome) {
    match Materialize(bundled, file)
    case Err(e) => Outcome(Err(e), file)
    case Ok(m) =>
      if release.revision < m.release.revision then Outcome(Ok(Stale), m.file)
      else if release == m.release then Outcome(Ok(Unchanged), m.file)
      else if release.revision == m.release.revision then Outcome(Err(SameRevisionOtherContent), m.file)
      else Outcome(Ok(Updated), Holding(release))
  }

  // The object, the file it shares, and the release its listeners last heard of.
  class BuiltinProviderConfigSource {
    const bundled: File
    var active: File
    var observed: Option<Release>
    var disposed: bool
    var emitted: seq<string>

    constructor (bundled: File, active: File)
      ensures this.bundled == bundled && this.active == active && observed == None && !disposed && emitted == []
    {
      this.bundled, this.active := bundled, active;
      observed, disposed, emitted := None, false, [];
    }

    method ReadAndMaterialize() returns (r: Result<Release, Error>)
      requires !disposed
      modifies this`active
      ensures match Materialize(bundled, old(active))
              case Err(e) => r == Err(e) && active == old(active)
              case Ok(m) => r == Ok(m.release) && active == m.file
    {
      var selected := SelectReleaseCandidate(Candidate(bundled), Candidate(active));
      if selected.None? {
        return Err(NothingUsable);
      }
      if Candidate(active) != selected {
        active := Holding(selected.value);
      }
      return Ok(selected.value);
    }

    // After dispose nothing is written and nobody is told.
    method ApplyRemoteRelease(release: Release) returns (r: Result<Applied, Error>)
      modifies this`active, this`observed, this`emitted
      ensures disposed ==>
                r == Err(Disposed) && active == old(active) && observed == old(observed) && emitted == old(emitted)
      ensures !disposed ==> Outcome(r, active) == ApplyRemote(bundled, old(active), release)
      ensures !disposed ==> observed == if r == Ok(Updated) then Some(release) else old(observed)
      ensures !disposed ==> emitted == old(emitted) + (if r == Ok(Updated) then ["remote-updated"] else [])
    {
      if disposed {
        return Err(Disposed);
      }
      var current := ReadAndMaterialize();
      if current.Err? {
        return Err(current.error);
      }
      if release.revision < current.value.revision {
        return Ok(Stale);
      }
      if release.revision == current.value.revision {
        if release.content == current.value.content {
          return Ok(Unchanged);
        }
        return Err(SameRevisionOtherContent);
      }
      active := Holding(release);
      observed := Some(release);
      emitted := emitted + ["remote-updated"];
      return Ok(Updated);
    }

    // The file may have changed: listeners hear of it once per release.
    method RefreshAfterWatch()
      modifies this`active, this`observed, this`emitted
      ensures disposed ==> active == old(active) && observed == old(observed) && emitted == old(emitted)
      ensures !disposed ==>
                match Materialize(bundled, old(active))
                case Err(_) =>
                  active == old(active) && observed == old(observed) && emitted == old(emitted) + ["watch-error"]
                case Ok(m) =>
                  && active == m.file && observed == Some(m.release)
                  && emitted == old(emitted) + (if old(observed) == Some(m.release) then [] else ["file-changed"])
    {
      if disposed {
        return;
      }
      var release := ReadAndMaterialize();
      if release.Err? {
        emitted := emitted + ["watch-error"];
        return;
      }
      if observed == Some(release.value) {
        return;
      }
      observed := Some(release.value);
      emitted := emitted + ["file-changed"];
    }

    method DisposeSource()
      modifies this`disposed
      ensures disposed
    {
      disposed := true;
    }
  }

  // ---------------------------------------------------------------------------------------
  // Selection
  // ---------------------------------------------------------------------------------------

  // The newer one, the bundled one if they are equally new.
  lemma {:induction false} SelectionIsNewest(bundled: Option<Release>, active: Option<Release>)
    ensures var r := SelectReleaseCandidate(bundled, active);
            && (r.Some? <==> bundled.Some? || active.Some?)
            && (r.Some? ==>
                  && (r == bundled || r == active)
                  && (bundled.Some? ==> bundled.value.revision <= r.value.revision)
                  && (active.Some? ==> active.value.revision <= r.value.revision)
                  && (bundled.Some? && r != bundled ==> bundled.value.revision < r.value.revision))
  {
  }

  // ---------------------------------------------------------------------------------------
  // Any number of processes, each with its own bundle
  // ---------------------------------------------------------------------------------------

  datatype Action =
    | ReadBy(bundled: File)
    | ApplyBy(bundled: File, release: Release)

  function Step(file: File, act: Action): (file': File) {
    match act
    case ReadBy(bundled) => (match Materialize(bundled, file) case Ok(m) => m.file case Err(_) => file)
    case ApplyBy(bundled, release) => ApplyRemote(bundled, file, release).file
  }

  function Run(file: File, acts: seq<Action>): (file': File) {
    if acts == [] then file else Step(Run(file, acts[..|acts| - 1]), acts[|acts| - 1])
  }

  // What the file holds only ever gives way to a newer release.
  ghost predicate NoOlder(before: File, after: File) {
    before.Holding? ==> after.Holding? && before.release.revision <= after.release.revision
  }

  lemma {:induction false} FileNeverGoesBack(file: File, acts: seq<Action>)
    ensures NoOlder(file, Run(file, acts))
  {
    if acts != [] {
      FileNeverGoesBack(file, acts[..|acts| - 1]);
    }
  }

  // ---------------------------------------------------------------------------------------
  // What the file holds
  // ---------------------------------------------------------------------------------------

  // The last of the bundles that have this revision.
  function LastBundle(acts: seq<Action>, revision: nat): (b: Option<Release>) {
    if acts == [] then None else
    var bundled := acts[|acts| - 1].bundled;
    if bundled.Holding? && bundled.release.revision == revision then Some(bundled.release)
    else LastBundle(acts[..|acts| - 1], revision)
  }

  // Some process had a bundle that could be read.
  predicate Started(acts: seq<Action>) {
    exists act <- acts :: act.bundled.Holding?
  }

  // Offers that come before any release could be read are refused.
  function FirstOffer(acts: seq<Action>, revision: nat): (r: Option<Release>) {
    if acts == [] then None else
    var before, act := FirstOffer(acts[..|acts| - 1], revision), acts[|acts| - 1];
    if before.Some? then before
    else if act.ApplyBy? && act.release.revision == revision && Started(acts) then Some(act.release)
    else None
  }

  // Nothing that was bundled or offered so far is newer.
  ghost predicate NoneNewer(acts: seq<Action>, revision: nat) {
    forall newer | newer > revision :: LastBundle(acts, newer).None? && FirstOffer(acts, newer).None?
  }

  // Of the newest revision: the bundled release that was last in use, or else the first one
  // offered.
  ghost predicate IsNewest(acts: seq<Action>, r: Release) {
    && NoneNewer(acts, r.revision)
    && var bundled := LastBundle(acts, r.revision);
       if bundled.Some? then bundled.value == r else FirstOffer(acts, r.revision) == Some(r)
  }

  lemma {:induction false} StartedGrows(acts: seq<Action>, act: Action)
    ensures Started(acts + [act]) <==> Started(acts) || act.bundled.Holding?
  {
    if Started(acts) {
      var a :| a in acts && a.bundled.Holding?;
      assert a in acts + [act];
    }
    if act.bundled.Holding? {
      assert act in acts + [act];
    }
  }

  lemma {:induction false} LastBundleHasIt(acts: seq<Action>, revision: nat)
    ensures LastBundle(acts, revision).Some? ==> LastBundle(acts, revision).value.revision == revision
    ensures FirstOffer(acts, revision).Some? ==> FirstOffer(acts, revision).value.revision == revision
  {
    if acts != [] {
      LastBundleHasIt(acts[..|acts| - 1], revision);
    }
  }

  lemma {:induction false} NotStarted(acts: seq<Action>, revision: nat)
    requires !Started(acts)
    ensures LastBundle(acts, revision).None? && FirstOffer(acts, revision).None?
  {
    if acts != [] {
      var n := |acts| - 1;
      assert acts == acts[..n] + [acts[n]];
      StartedGrows(acts[..n], acts[n]);
      NotStarted(acts[..n], revision);
    }
  }

  // After any calls of any processes on a fresh cache, the file holds the newest release.
  lemma {:induction false} FileHoldsTheNewest(acts: seq<Action>)
    ensures Run(Missing, acts) == Missing || Run(Missing, acts).Holding?
    ensures Run(Missing, acts).Holding? <==> Started(acts)
    ensures Run(Missing, acts).Holding? ==> IsNewest(acts, Run(Missing, acts).release)
  {
    if acts != [] {
      var n := |acts| - 1;
      FileHoldsTheNewest(acts[..n]);
      assert acts == acts[..n] + [acts[n]];
      StartedGrows(acts[..n], acts[n]);
      if Run(Missing, acts).Holding? {
        NewestAfter(acts, n);
      }
    }
  }

  lemma {:induction false} NewestAfter(acts: seq<Action>, n: nat)
    requires n + 1 == |acts| && Run(Missing, acts).Holding? && Started(acts)
    requires Run(Missing, acts[..n]) == Missing || Run(Missing, acts[..n]).Holding?
    requires Run(Missing, acts[..n]).Holding? <==> Started(acts[..n])
    requires Run(Missing, acts[..n]).Holding? ==> IsNewest(acts[..n], Run(Missing, acts[..n]).release)
    ensures IsNewest(acts, Run(Missing, acts).release)
  {
    var r := Run(Missing, acts).release;
    LastBundleHasIt(acts[..n], r.revision);
    forall newer | newer > r.revision ensures LastBundle(acts, newer).None? && FirstOffer(acts, newer).None? {
      if !Started(acts[..n]) {
        NotStarted(acts[..n], newer);
      }
    }
    if !Started(acts[..n]) {
      NotStarted(acts[..n], r.revision);
    }
  }

  // An offer is taken exactly if there is a release to compare it with and it is newer than
  // everything bundled or offered before.
  lemma {:induction false} TakenExactlyWhenNewer(acts: seq<Action>, bundled: File, release: Release)
    ensures var before := acts + [ReadBy(bundled)];
            ApplyRemote(bundled, Run(Missing, acts), release).result == Ok(Updated)
            <==> Started(before)
                 && forall same | same >= release.revision ::
                      LastBundle(before, same).None? && FirstOffer(before, same).None?
  {
    hide LastBundle, FirstOffer, Started;
    var before := acts + [ReadBy(bundled)];
    assert before[..|before| - 1] == acts && before[|before| - 1] == ReadBy(bundled);
    FileHoldsTheNewest(before);
    var file := Run(Missing, before);
    assert file == Step(Run(Missing, acts), ReadBy(bundled));
    if file.Holding? {
      var revision := file.release.revision;
      assert LastBundle(before, revision).Some? || FirstOffer(before, revision).Some?;
      if release.revision > revision {
        assert NoneNewer(before, revision);
      }
    }
  }

  // ---------------------------------------------------------------------------------------
  // Whether a revision can change its content
  // ---------------------------------------------------------------------------------------

  ghost predicate OtherContent(r: Release, s: Release) {
    r.revision == s.revision && r.content != s.content
  }

  // The process's bundle has the revision of the file with other content, and nothing newer comes.
  ghost predicate Overrules(act: Action, r: Release) {
    && act.bundled.Holding? && OtherContent(act.bundled.release, r)
    && (act.ApplyBy? ==> act.release.revision <= r.revision)
  }

  lemma {:induction false} ContentChangesExactlyWhenOverruled(r: Release, act: Action)
    ensures Step(Holding(r), act).Holding?
    ensures OtherContent(Step(Holding(r), act).release, r) <==> Overrules(act, r)
  {
  }

  // The processes have these bundles, and these releases are offered.
  ghost predicate Possible(bundles: set<File>, offers: set<Release>, acts: seq<Action>) {
    forall act <- acts :: act.bundled in bundles && (act.ApplyBy? ==> act.release in offers)
  }

  // What the file can come to hold: a bundle, or an offer above some bundle.
  ghost predicate Obtainable(bundles: set<File>, offers: set<Release>, r: Release) {
    || Holding(r) in bundles
    || (r in offers && exists b <- bundles :: b.Holding? && b.release.revision < r.revision)
  }

  // No bundle has the revision of another release that the file can hold.
  ghost predicate BundlesAgree(bundles: set<File>, offers: set<Release>) {
    forall b, r | Holding(b) in bundles && Obtainable(bundles, offers, r) :: !OtherContent(b, r)
  }

  ghost predicate StableContent(acts: seq<Action>, more: seq<Action>) {
    var before, after := Run(Missing, acts), Run(Missing, acts + more);
    before.Holding? ==> after.Holding? && !OtherContent(before.release, after.release)
  }

  // In every run a revision keeps its content, exactly if no bundle shares its revision, with
  // other content, with another bundle or with an offer above some bundle.
  lemma {:induction false} ContentIsStableExactlyWhenBundlesAgree(bundles: set<File>, offers: set<Release>)
    ensures (forall acts, more | Possible(bundles, offers, acts + more) :: StableContent(acts, more))
            <==> BundlesAgree(bundles, offers)
  {
    if BundlesAgree(bundles, offers) {
      forall acts, more | Possible(bundles, offers, acts + more) ensures StableContent(acts, more) {
        ContentIsStable(bundles, offers, acts, more);
      }
    } else {
      var b, r :| Holding(b) in bundles && Obtainable(bundles, offers, r) && OtherContent(b, r);
      var acts, more := ContentFlips(bundles, offers, b, r);
      assert !StableContent(acts, more);
    }
  }

  lemma {:induction false} OnlyObtainable(bundles: set<File>, offers: set<Release>, acts: seq<Action>)
    requires Possible(bundles, offers, acts)
    ensures var file := Run(Missing, acts);
            file == Missing || (file.Holding? && Obtainable(bundles, offers, file.release))
    ensures var file := Run(Missing, acts);
            file.Holding? ==> exists b <- bundles :: b.Holding? && b.release.revision <= file.release.revision
  {
    if acts != [] {
      var n := |acts| - 1;
      assert acts[n] in acts;
      OnlyObtainable(bundles, offers, acts[..n]);
    }
  }

  lemma {:induction false} ContentIsStable(bundles: set<File>, offers: set<Release>, acts: seq<Action>,
                                           more: seq<Action>)
    requires BundlesAgree(bundles, offers) && Possible(bundles, offers, acts + more)
    ensures StableContent(acts, more)
    ensures var before, after := Run(Missing, acts), Run(Missing, acts + more);
            before.Holding? ==> after.Holding? && before.release.revision <= after.release.revision
  {
    if more == [] {
      assert acts + more == acts;
    } else {
      var n := |more| - 1;
      var all := acts + more[..n];
      assert (acts + more)[..|acts + more| - 1] == all && (acts + more)[|acts + more| - 1] == more[n];
      assert forall act <- all :: act in acts + more;
      ContentIsStable(bundles, offers, acts, more[..n]);
      assert more[n] in acts + more;
      OnlyObtainable(bundles, offers, all);
      if Run(Missing, all).Holding? {
        ContentChangesExactlyWhenOverruled(Run(Missing, all).release, more[n]);
        FileNeverGoesBack(Run(Missing, all), [more[n]]);
        assert [more[n]][..0] == [];
      }
    }
  }

  lemma {:induction false} ContentFlips(bundles: set<File>, offers: set<Release>, b: Release, r: Release)
    returns (acts: seq<Action>, more: seq<Action>)
    requires Holding(b) in bundles && Obtainable(bundles, offers, r) && OtherContent(b, r)
    ensures Possible(bundles, offers, acts + more) && !StableContent(acts, more)
  {
    more := [ReadBy(Holding(b))];
    if Holding(r) in bundles {
      acts := [ReadBy(Holding(r))];
    } else {
      var low :| low in bundles && low.Holding? && low.release.revision < r.revision;
      acts := [ApplyBy(low, r)];
    }
    assert acts[..0] == [] && (acts + more)[..1] == acts;
    assert Run(Missing, acts) == Holding(r);
    assert Run(Missing, acts + more) == Step(Holding(r), ReadBy(Holding(b)));
    ContentChangesExactlyWhenOverruled(r, ReadBy(Holding(b)));
  }
}
