// The waiters of a refresh loop, which are the generations that callers wait for, and the log in
// which a loop notes what happens to them. Both refresh services keep such a ledger; what makes it
// sound, and that every kind of entry keeps it so, is shown here once for the two of them.

module Waiters {
  import opened Wrappers

  // Those that stay when all up to a generation are settled.
  function After(waiting: seq<nat>, generation: nat): (rest: seq<nat>) {
    if waiting == [] then []
    else (if waiting[0] <= generation then [] else [waiting[0]]) + After(waiting[1..], generation)
  }

  lemma {:induction false} AllWaitersGo(waiting: seq<nat>, generation: nat)
    requires forall w <- waiting :: w <= generation
    ensures After(waiting, generation) == []
  {
    if waiting != [] {
      assert waiting[0] in waiting;
      forall w <- waiting[1..] ensures w <= generation {
        assert w in waiting;
      }
      AllWaitersGo(waiting[1..], generation);
    }
  }

  lemma {:induction false} AfterKeepsLater(waiting: seq<nat>, generation: nat)
    ensures forall w :: w in After(waiting, generation) <==> w in waiting && generation < w
    ensures Distinct(waiting) ==> Distinct(After(waiting, generation))
  {
    if waiting != [] {
      var rest := After(waiting[1..], generation);
      AfterKeepsLater(waiting[1..], generation);
      forall w ensures w in After(waiting, generation) <==> w in waiting && generation < w {
        assert w in waiting <==> w == waiting[0] || w in waiting[1..];
      }
      if Distinct(waiting) {
        assert waiting[0] !in waiting[1..];
        assert waiting[0] !in rest;
      }
    }
  }

  // ---------------------------------------------------------------------------------------
  // The log of a loop
  // ---------------------------------------------------------------------------------------

  // A waiter is known by its generation, which no other waiter has.
  datatype Entry<S> =
    | Asked(generation: nat)
    | Began(iteration: nat)
    | Published(snapshot: S)
    | Answered(generation: nat, snapshot: S)
    | Refused(generation: nat)

  function Answers<S>(waiting: seq<nat>, generation: nat, snapshot: S): (entries: seq<Entry<S>>) {
    if waiting == [] then [] else
    var first := if waiting[0] <= generation then [Answered(waiting[0], snapshot)] else [];
    first + Answers(waiting[1..], generation, snapshot)
  }

  function Refusals<S>(waiting: seq<nat>, generation: nat): (entries: seq<Entry<S>>) {
    if waiting == [] then [] else
    var first := if waiting[0] <= generation then [Refused(waiting[0])] else [];
    first + Refusals(waiting[1..], generation)
  }

  // The number of entries up to and including the last start of a round.
  function LastBegan<S>(log: seq<Entry<S>>): (n: nat)
    ensures n <= |log|
    ensures n > 0 ==> log[n - 1].Began?
  {
    if log == [] then 0
    else if log[|log| - 1].Began? then |log|
    else LastBegan(log[..|log| - 1])
  }

  ghost predicate IsSettled<S>(e: Entry<S>, generation: nat) {
    (e.Answered? || e.Refused?) && e.generation == generation
  }

  ghost predicate Settled<S>(log: seq<Entry<S>>, generation: nat) {
    exists e <- log :: IsSettled(e, generation)
  }

  // An answer comes from a round that began after the request.
  ghost predicate AnsweredAfterAsking<S>(log: seq<Entry<S>>, k: nat)
    requires k < |log|
  {
    log[k].Answered? ==> Asked(log[k].generation) in log[..LastBegan(log[..k])]
  }

  ghost predicate SettledOnce<S>(log: seq<Entry<S>>) {
    forall i, j, g | 0 <= i < j < |log| && IsSettled(log[i], g) :: !IsSettled(log[j], g)
  }

  // One waiter apart.
  lemma {:induction false} WaiterApart(waiting: seq<nat>, i: nat, generation: nat)
    requires i < |waiting|
    ensures var w, later := waiting[i], waiting[i + 1..];
            After(waiting[i..], generation) == (if w <= generation then [] else [w]) + After(later, generation)
  {
    assert waiting[i..][1..] == waiting[i + 1..];
  }

  lemma {:induction false} AnswerApart<S>(waiting: seq<nat>, i: nat, generation: nat, snapshot: S)
    requires i < |waiting|
    ensures var w, later := waiting[i], waiting[i + 1..];
            Answers(waiting[i..], generation, snapshot)
            == (if w <= generation then [Answered(w, snapshot)] else []) + Answers(later, generation, snapshot)
  {
    assert waiting[i..][1..] == waiting[i + 1..];
  }

  lemma {:induction false} RefusalApart<S>(waiting: seq<nat>, i: nat, generation: nat)
    requires i < |waiting|
    ensures var w, later := waiting[i], waiting[i + 1..];
            var refusals: seq<Entry<S>> := Refusals(later, generation);
            Refusals(waiting[i..], generation) == (if w <= generation then [Refused(w)] else []) + refusals
  {
    assert waiting[i..][1..] == waiting[i + 1..];
  }

  lemma {:induction false} NobodyLeft<S>(generation: nat)
    ensures After([], generation) == []
    ensures forall snapshot: S :: Answers([], generation, snapshot) == []
    ensures Refusals<S>([], generation) == []
  {
  }

  lemma {:induction false} Joined<T>(a: seq<T>, b: seq<T>, c: seq<T>)
    ensures a + (b + c) == a + b + c && a + [] == a
  {
  }

  // What a service keeps about its waiters.
  datatype Ledger<S> = Ledger(requested: nat, waiting: seq<nat>, log: seq<Entry<S>>)

  ghost predicate Sound<S>(b: Ledger<S>) {
    && Distinct(b.waiting)
    && (forall w <- b.waiting :: 1 <= w <= b.requested && !Settled(b.log, w))
    && (forall w | 1 <= w <= b.requested :: Asked(w) in b.log && (w in b.waiting || Settled(b.log, w)))
    && (forall e <- b.log :: e.Answered? || e.Refused? ==> 1 <= e.generation <= b.requested)
    && (forall k | 0 <= k < |b.log| :: AnsweredAfterAsking(b.log, k))
    && SettledOnce(b.log)
  }

  // Everything up to `generation` was asked before the last round began.
  ghost predicate Covered<S>(log: seq<Entry<S>>, generation: nat) {
    forall w | 1 <= w <= generation :: Asked(w) in log[..LastBegan(log)]
  }

  // ---------------------------------------------------------------------------------------
  // The log grows
  // ---------------------------------------------------------------------------------------

  lemma {:induction false} LastBeganAfter<S>(log: seq<Entry<S>>, e: Entry<S>)
    ensures LastBegan(log + [e]) == if e.Began? then |log| + 1 else LastBegan(log)
  {
    assert (log + [e])[..|log|] == log;
  }

  lemma {:induction false} LastBeganAfterAll<S>(log: seq<Entry<S>>, entries: seq<Entry<S>>)
    requires forall e <- entries :: !e.Began?
    ensures LastBegan(log + entries) == LastBegan(log)
  {
    if entries == [] {
      assert log + entries == log;
    } else {
      var n := |entries| - 1;
      assert log + entries == log + entries[..n] + [entries[n]];
      LastBeganAfter(log + entries[..n], entries[n]);
      LastBeganAfterAll(log, entries[..n]);
    }
  }

  // Entries that settle exactly the waiters up to `generation`, each once.
  ghost predicate Settles<S>(entries: seq<Entry<S>>, waiting: seq<nat>, generation: nat) {
    && (forall e <- entries :: (e.Answered? || e.Refused?) && e.generation in waiting && e.generation <= generation)
    && (forall w <- waiting :: w <= generation ==> Settled(entries, w))
    && SettledOnce(entries)
  }

  lemma {:induction false} AnswersSettle<S>(waiting: seq<nat>, generation: nat, snapshot: S)
    requires Distinct(waiting)
    ensures Settles(Answers(waiting, generation, snapshot), waiting, generation)
  {
    if waiting != [] {
      AnswersSettle(waiting[1..], generation, snapshot);
      SettlesCons(Answered(waiting[0], snapshot), Answers(waiting[1..], generation, snapshot), waiting, generation);
    }
  }

  lemma {:induction false} RefusalsSettle<S>(waiting: seq<nat>, generation: nat)
    requires Distinct(waiting)
    ensures Settles<S>(Refusals(waiting, generation), waiting, generation)
  {
    if waiting != [] {
      RefusalsSettle<S>(waiting[1..], generation);
      SettlesCons<S>(Refused(waiting[0]), Refusals(waiting[1..], generation), waiting, generation);
    }
  }

  lemma {:induction false} SettlesCons<S>(e: Entry<S>, entries: seq<Entry<S>>, waiting: seq<nat>, generation: nat)
    requires Distinct(waiting) && waiting != []
    requires IsSettled(e, waiting[0])
    requires Settles(entries, waiting[1..], generation)
    ensures Settles((if waiting[0] <= generation then [e] else []) + entries, waiting, generation)
  {
    assert waiting == [waiting[0]] + waiting[1..];
    if waiting[0] <= generation {
      forall w <- waiting | w <= generation ensures Settled([e] + entries, w) {
        assert [e][0] in [e];
        SettledGrows([e], entries, w);
      }
      assert forall x <- entries :: x.generation in waiting[1..];
      assert SettledOnce([e] + entries) by {
        forall x <- entries ensures !Settled([e], x.generation) {
        }
        assert SettledOnce([e]);
        SettledOnceGrows([e], entries);
      }
    } else {
      assert [] + entries == entries;
    }
  }

  // Earlier entries keep their rounds; new answers rest on the last one.
  lemma {:induction false} AnswersRestOnReads<S>(log: seq<Entry<S>>, entries: seq<Entry<S>>, generation: nat, k: nat)
    requires k < |log + entries|
    requires forall i | 0 <= i < |log| :: AnsweredAfterAsking(log, i)
    requires forall e <- entries :: (e.Answered? || e.Refused?) && 1 <= e.generation <= generation
    requires (exists e <- entries :: e.Answered?) ==> Covered(log, generation)
    ensures AnsweredAfterAsking(log + entries, k)
  {
    var all := log + entries;
    if k < |log| {
      assert all[..k] == log[..k];
      assert AnsweredAfterAsking(log, k);
      var n := LastBegan(log[..k]);
      assert all[..n] == log[..n];
    } else if all[k].Answered? {
      var before := entries[..k - |log|];
      assert all[k] == entries[k - |log|] && all[k] in entries;
      assert all[..k] == log + before;
      assert forall e <- before :: e in entries;
      LastBeganAfterAll(log, before);
      var n := LastBegan(log);
      assert all[..n] == log[..n];
    }
  }

  // Settling the waiters up to `generation`: answers only if the last round covers them.
  lemma {:induction false} SettlingKeeps<S>(b: Ledger<S>, generation: nat, entries: seq<Entry<S>>)
    requires Sound(b)
    requires Settles(entries, b.waiting, generation)
    requires (exists e <- entries :: e.Answered?) ==> Covered(b.log, generation)
    ensures Sound(b.(waiting := After(b.waiting, generation), log := b.log + entries))
    ensures LastBegan(b.log + entries) == LastBegan(b.log)
  {
    var log := b.log + entries;
    AfterKeepsLater(b.waiting, generation);
    LastBeganAfterAll(b.log, entries);
    forall k | 0 <= k < |log| ensures AnsweredAfterAsking(log, k) {
      AnswersRestOnReads(b.log, entries, generation, k);
    }
    forall w | w in b.waiting && generation < w ensures !Settled(log, w) {
      SettledGrows(b.log, entries, w);
    }
    forall w | 1 <= w <= b.requested
      ensures Asked(w) in log && (w in After(b.waiting, generation) || Settled(log, w))
    {
      SettledGrows(b.log, entries, w);
    }
    SettledOnceGrows(b.log, entries);
  }

  lemma {:induction false} AnsweringKeeps<S>(b: Ledger<S>, generation: nat, snapshot: S)
    requires Sound(b) && Covered(b.log, generation)
    ensures Sound(b.(waiting := After(b.waiting, generation), log := b.log + Answers(b.waiting, generation, snapshot)))
  {
    AnswersSettle(b.waiting, generation, snapshot);
    SettlingKeeps(b, generation, Answers(b.waiting, generation, snapshot));
  }

  lemma {:induction false} RefusingKeeps<S>(b: Ledger<S>, generation: nat)
    requires Sound(b)
    ensures Sound(b.(waiting := After(b.waiting, generation), log := b.log + Refusals(b.waiting, generation)))
  {
    RefusalsSettle<S>(b.waiting, generation);
    NoAnswers<S>(b.waiting, generation);
    SettlingKeeps(b, generation, Refusals(b.waiting, generation));
  }

  lemma {:induction false} RefusalStaysCovered<S>(b: Ledger<S>, generation: nat, covered: nat)
    requires Sound(b) && Covered(b.log, covered)
    ensures Covered(b.log + Refusals(b.waiting, generation), covered)
  {
    RefusalsSettle<S>(b.waiting, generation);
    NoAnswers<S>(b.waiting, generation);
    var refusals := Refusals(b.waiting, generation);
    LastBeganAfterAll(b.log, refusals);
    var n, log := LastBegan(b.log), b.log + refusals;
    assert log[..n] == b.log[..n];
  }

  lemma {:induction false} NoAnswers<S>(waiting: seq<nat>, generation: nat)
    ensures forall e <- Refusals<S>(waiting, generation) :: e.Refused?
  {
    if waiting != [] {
      NoAnswers<S>(waiting[1..], generation);
    }
  }

  lemma {:induction false} SettledGrows<S>(log: seq<Entry<S>>, entries: seq<Entry<S>>, w: nat)
    ensures Settled(log + entries, w) <==> Settled(log, w) || Settled(entries, w)
  {
    if Settled(log, w) {
      var e :| e in log && IsSettled(e, w);
      assert e in log + entries;
    }
    if Settled(entries, w) {
      var e :| e in entries && IsSettled(e, w);
      assert e in log + entries;
    }
  }

  lemma {:induction false} SettledOnceGrows<S>(log: seq<Entry<S>>, entries: seq<Entry<S>>)
    requires SettledOnce(log) && SettledOnce(entries)
    requires forall e <- entries :: e.Answered? || e.Refused? ==> !Settled(log, e.generation)
    ensures SettledOnce(log + entries)
  {
    var all := log + entries;
    forall i, j, g | 0 <= i < j < |all| && IsSettled(all[i], g) ensures !IsSettled(all[j], g) {
      if i < |log| && |log| <= j {
        assert all[i] in log && all[j] == entries[j - |log|] && all[j] in entries;
      } else if |log| <= i {
        assert all[i] == entries[i - |log|] && all[j] == entries[j - |log|];
      }
    }
  }

  // An entry that settles nothing.
  lemma {:induction false} NotingKeeps<S>(b: Ledger<S>, e: Entry<S>)
    requires Sound(b)
    requires e.Asked? || e.Began? || e.Published?
    ensures Sound(b.(log := b.log + [e]))
    ensures LastBegan(b.log + [e]) == if e.Began? then |b.log| + 1 else LastBegan(b.log)
  {
    var log := b.log + [e];
    LastBeganAfter(b.log, e);
    forall k | 0 <= k < |log| ensures AnsweredAfterAsking(log, k) {
      if k < |b.log| {
        assert log[..k] == b.log[..k];
        assert AnsweredAfterAsking(b.log, k);
        var n := LastBegan(b.log[..k]);
        assert log[..n] == b.log[..n];
      }
    }
    forall w ensures Settled(log, w) <==> Settled(b.log, w) {
      SettledGrows(b.log, [e], w);
    }
    SettledOnceGrows(b.log, [e]);
  }

  // A round that begins covers everything asked so far.
  lemma {:induction false} BeginningKeeps<S>(b: Ledger<S>)
    requires Sound(b)
    ensures var log := b.log + [Began(b.requested)];
            Sound(b.(log := log)) && Covered(log, b.requested)
  {
    NotingKeeps(b, Began(b.requested));
    var log := b.log + [Began(b.requested)];
    assert log[..LastBegan(log)] == log;
  }

  lemma {:induction false} StaysCovered<S>(log: seq<Entry<S>>, e: Entry<S>, generation: nat)
    requires Covered(log, generation) && !e.Began?
    ensures Covered(log + [e], generation)
  {
    LastBeganAfter(log, e);
    var n := LastBegan(log);
    assert (log + [e])[..n] == log[..n];
  }

  // A new waiter, under a number that nothing was settled under.
  lemma {:induction false} AskingKeeps<S>(b: Ledger<S>)
    requires Sound(b)
    ensures var generation := b.requested + 1;
            Sound(Ledger(generation, b.waiting + [generation], b.log + [Asked(generation)]))
  {
    var generation := b.requested + 1;
    var noted := b.(log := b.log + [Asked(generation)]);
    NotingKeeps(b, Asked(generation));
    assert Asked(generation) == noted.log[|b.log|];
    assert !Settled(noted.log, generation);
    assert generation !in b.waiting;
    JoiningKeeps(noted);
  }

  lemma {:induction false} JoiningKeeps<S>(b: Ledger<S>)
    requires Sound(b)
    requires Asked(b.requested + 1) in b.log && !Settled(b.log, b.requested + 1) && b.requested + 1 !in b.waiting
    ensures Sound(b.(requested := b.requested + 1, waiting := b.waiting + [b.requested + 1]))
  {
  }

  // ---------------------------------------------------------------------------------------
  // What a sound ledger promises
  // ---------------------------------------------------------------------------------------

  // Each request is settled at most once, and waits until then; an answer comes from a round that
  // began after the request.
  ghost predicate Serves<S>(b: Ledger<S>) {
    && SettledOnce(b.log)
    && (forall w | 1 <= w <= b.requested :: w in b.waiting <==> !Settled(b.log, w))
    && (forall k | 0 <= k < |b.log| :: AnsweredAfterAsking(b.log, k))
  }

  ghost predicate AllSettled<S>(b: Ledger<S>) {
    forall w | 1 <= w <= b.requested :: Settled(b.log, w)
  }

  // ---------------------------------------------------------------------------------------
  // What answers say
  // ---------------------------------------------------------------------------------------

  function LastPublished<S>(log: seq<Entry<S>>): (snapshot: Option<S>) {
    if log == [] then None
    else if log[|log| - 1].Published? then Some(log[|log| - 1].snapshot)
    else LastPublished(log[..|log| - 1])
  }

  // Every answer is the snapshot that was published last before it.
  ghost predicate AnswersArePublished<S>(log: seq<Entry<S>>) {
    forall k | 0 <= k < |log| && log[k].Answered? :: LastPublished(log[..k]) == Some(log[k].snapshot)
  }

  lemma {:induction false} PublishedAfter<S>(log: seq<Entry<S>>, e: Entry<S>)
    requires AnswersArePublished(log)
    requires e.Answered? ==> LastPublished(log) == Some(e.snapshot)
    ensures AnswersArePublished(log + [e])
    ensures LastPublished(log + [e]) == if e.Published? then Some(e.snapshot) else LastPublished(log)
  {
    var all := log + [e];
    assert all[..|log|] == log;
    forall k | 0 <= k < |all| && all[k].Answered? ensures LastPublished(all[..k]) == Some(all[k].snapshot) {
      if k < |log| {
        assert all[..k] == log[..k];
      }
    }
  }

  lemma {:induction false} PublishedAfterAll<S>(log: seq<Entry<S>>, entries: seq<Entry<S>>)
    requires AnswersArePublished(log)
    requires forall e <- entries :: !e.Published? && (e.Answered? ==> LastPublished(log) == Some(e.snapshot))
    ensures AnswersArePublished(log + entries)
    ensures LastPublished(log + entries) == LastPublished(log)
  {
    if entries == [] {
      assert log + entries == log;
    } else {
      var n := |entries| - 1;
      PublishedAfterAll(log, entries[..n]);
      PublishedAfter(log + entries[..n], entries[n]);
      assert log + entries == log + entries[..n] + [entries[n]];
    }
  }

  // The waiters up to a generation are told this snapshot, and nobody anything else.
  ghost predicate OnlyAnswers<S>(added: seq<Entry<S>>, waiting: seq<nat>, generation: nat, snapshot: S) {
    && (forall w <- waiting | w <= generation :: Answered(w, snapshot) in added)
    && forall e <- added :: !e.Refused? && (e.Answered? ==> e.snapshot == snapshot && e.generation <= generation)
  }

  ghost predicate OnlyRefusals<S>(added: seq<Entry<S>>, waiting: seq<nat>, generation: nat) {
    && (forall w <- waiting | w <= generation :: Refused(w) in added)
    && forall e <- added :: !e.Answered? && (e.Refused? ==> e.generation <= generation)
  }

  ghost predicate NobodySettled<S>(added: seq<Entry<S>>) {
    forall e <- added :: !e.Answered? && !e.Refused?
  }

  lemma {:induction false} AnswersTell<S>(waiting: seq<nat>, generation: nat, snapshot: S)
    ensures OnlyAnswers(Answers(waiting, generation, snapshot), waiting, generation, snapshot)
    ensures forall e <- Answers(waiting, generation, snapshot) :: e.Answered?
  {
    if waiting != [] {
      AnswersTell(waiting[1..], generation, snapshot);
      assert waiting == [waiting[0]] + waiting[1..];
    }
  }

  // Entries that settle nobody may stand around the answers.
  lemma {:induction false} AroundAnswers<S>(before: seq<Entry<S>>, answers: seq<Entry<S>>, after: seq<Entry<S>>,
                                            waiting: seq<nat>, generation: nat, snapshot: S)
    requires NobodySettled(before) && NobodySettled(after)
    requires OnlyAnswers(answers, waiting, generation, snapshot)
    ensures OnlyAnswers(before + answers + after, waiting, generation, snapshot)
  {
  }

  lemma {:induction false} RefusalsTell<S>(waiting: seq<nat>, generation: nat)
    ensures OnlyRefusals<S>(Refusals(waiting, generation), waiting, generation)
    ensures forall e <- Refusals<S>(waiting, generation) :: e.Refused?
  {
    if waiting != [] {
      RefusalsTell<S>(waiting[1..], generation);
      assert waiting == [waiting[0]] + waiting[1..];
    }
  }
}
