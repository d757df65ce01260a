/** Late writes of a script: one that is not harmless is noticed sooner or later, and two runs in which
    that happens. */
module EditLate {
  import opened Common
  import opened EditTypes
  import opened EditFacts
  import opened EditProtocol
  import opened EditInvariants
  import opened EditSafety
  import opened EditRefinement
  import opened EditConsequences
  import opened EditLimits

  // ----- what is not harmless is noticed -----

  /** Steps that end flushes or invalidate, which leave the write-through store as it is. */
  ghost predicate Settles(maxBytes: nat, s: Sys, steps: seq<Step>, states: seq<Sys>) {
    && |states| == |steps| + 1 && states[0] == s
    && forall i {:trigger steps[i]} :: 0 <= i < |steps| ==>
         (steps[i].FinishFlush? || steps[i].Invalidate?) && Next(maxBytes, states[i], steps[i], states[i + 1])
  }

  /** After a late write that is not harmless, ending a flush and invalidating the host are enough for its path
      to show something else than before. */
  lemma {:induction false} HarmfulIsNoticed(maxBytes: nat, s: Sys, item: CommitItem, s': Sys)
    returns (steps: seq<Step>, states: seq<Sys>)
    requires Inv(maxBytes, s) && Inv(maxBytes, s') && Coupled(s)
    requires item.desiredSha256 == DigestOf(item.desired) && LateWrite(s, item, s') && !Harmless(s, item)
    ensures Settles(maxBytes, s', steps, states)
    ensures View(states[|steps|], item.key) != View(s, item.key)
  {
    hide Inv, Next, Carried, VersionAt, Coupled;
    LateWriteReaches(s, item, s');
    var k := item.key;
    if k !in s.cache.entries {
      steps, states := [], [s'];
    } else if !s.cache.entries[k].dirty {
      var t := CleanIsNoticed(maxBytes, s, k, s');
      steps, states := [Invalidate(k.host)], [s', t];
    } else {
      var t, u, reported := CommittedIsNoticed(maxBytes, s, item, s');
      steps, states := [FinishFlush(k.host, reported, Some(Transient)), Invalidate(k.host)], [s', t, u];
    }
  }

  /** After any quiet run, a late write that is not harmless makes the cache distinguishable from the
      write-through store, which such steps leave as it is. */
  lemma {:induction false} HarmfulBreaksRefinement(maxBytes: nat, run: Run, step: Step, s': Sys)
    returns (k: Key, steps: seq<Step>, states: seq<Sys>)
    requires QuietRun(maxBytes, run) && Next(maxBytes, run.states[|run.steps|], step, s')
    requires !step.Intrude? && !Calm(run.states[|run.steps|], step)
    ensures Settles(maxBytes, s', steps, states)
    ensures View(states[|steps|], k) != Store(run, |run.steps|, k)
  {
    hide Next, Inv, Harmless, Timely, Coupled, View, Store, LateWrite;
    var n := |run.steps|;
    Reachable(maxBytes, run, n);
    CacheRefinesStore(maxBytes, run, n);
    InvKept(maxBytes, run.states[n], step, s');
    LateItemWrites(maxBytes, run.states[n], step, s');
    var item := LateItem(run.states[n], step).value;
    k := item.key;
    steps, states := HarmfulIsNoticed(maxBytes, run.states[n], item, s');
    assert View(run.states[n], k) == Store(run, n, k);
  }

  /** Invalidating drops a clean entry, so that the remote shows. */
  lemma {:induction false} CleanIsDropped(maxBytes: nat, s: Sys, k: Key) returns (t: Sys)
    requires k in s.cache.entries && !s.cache.entries[k].dirty && s.cache.entries[k].inFlight.None?
    ensures Next(maxBytes, s, Invalidate(k.host), t) && View(t, k) == VersionAt(s.remote, k)
  {
    t := s.(cache := s.cache.(entries := Invalidated(s.cache.entries, k.host)));
  }

  lemma {:induction false} CleanIsNoticed(maxBytes: nat, s: Sys, k: Key, s': Sys) returns (t: Sys)
    requires Inv(maxBytes, s) && Coupled(s) && s'.cache == s.cache
    requires k in s.cache.entries && !s.cache.entries[k].dirty && VersionAt(s'.remote, k) != VersionAt(s.remote, k)
    ensures Next(maxBytes, s', Invalidate(k.host), t) && View(t, k) != View(s, k)
  {
    hide FlightsOk, OrphansOk, BasesKnown, LoadsOk, FetchesOk, Guarded, AllAirborneOk, VersionAt, TotalBytes, Next;
    assert EntryOk(s.cache.entries[k], s.cache.nextGeneration);
    t := CleanIsDropped(maxBytes, s', k);
  }

  /** A flush can end with what it has done reported, and what is still as it was taken is then clean. */
  lemma {:induction false} DoneIsLanded(maxBytes: nat, s: Sys, host: string, i: nat) returns (t: Sys)
    requires DoneItem(s, host, i) && FlightOk(s, host, s.flights[host]) && Current(s, s.flights[host].items[i])
    ensures Next(maxBytes, s, FinishFlush(host, s.flights[host].done, Some(Transient)), t) && t.remote == s.remote
    ensures var k := s.flights[host].items[i].key;
            k in t.cache.entries && !t.cache.entries[k].dirty && t.cache.entries[k].inFlight.None?
  {
    hide Known, Recorded, Finished;
    var f := s.flights[host];
    var left := if f.stopped then {} else set n | f.done <= n < |f.items| :: f.items[n];
    var entries := Finished(s.cache.entries, f.items, Successes(f.items, f.done), Some(Transient));
    t := s.(cache := s.cache.(entries := entries), flights := s.flights - {host}, orphans := s.orphans + left);
    FinishedAt(s.cache.entries, f.items, f.done, Some(Transient), f.items[i].key, i);
  }

  lemma {:induction false} CommittedIsNoticed(maxBytes: nat, s: Sys, item: CommitItem, s': Sys)
    returns (t: Sys, u: Sys, reported: nat)
    requires Inv(maxBytes, s) && Inv(maxBytes, s') && Coupled(s) && LateWrite(s, item, s')
    requires item.key in s.cache.entries && Committed(s, item.key)
    requires VersionAt(s'.remote, item.key) != VersionAt(s.remote, item.key)
    ensures Next(maxBytes, s', FinishFlush(item.key.host, reported, Some(Transient)), t)
    ensures Next(maxBytes, t, Invalidate(item.key.host), u)
    ensures View(u, item.key) != View(s, item.key)
  {
    hide CacheOk, OrphansOk, BasesKnown, LoadsOk, FetchesOk, Guarded, Known, Recorded, Carried, VersionAt, Next;
    var k := item.key;
    var host, i: nat :|
      DoneItem(s, host, i) && s.flights[host].items[i].key == k && Current(s, s.flights[host].items[i]);
    assert FlightOk(s, host, s.flights[host]) && FlightMatches(s, s.flights[host]);
    assert FlightOk(s', host, s'.flights[host]) && ItemOk(s.flights[host].items[i], host, s.cache.nextGeneration);
    HeldIsDone(s, k, host, i);
    reported := s'.flights[host].done;
    t := DoneIsLanded(maxBytes, s', host, i);
    u := CleanIsDropped(maxBytes, t, k);
  }

  lemma {:induction false} HeldIsDone(s: Sys, k: Key, host: string, i: nat)
    requires AllAirborneOk(s) && DoneItem(s, host, i) && s.flights[host].items[i].key == k
    requires Current(s, s.flights[host].items[i]) && k.host == host && DistinctItems(s.flights[host].items)
    ensures s.flights[host].items[i].desired == s.cache.entries[k].desired
  {
    assert AirborneOk(s, k, s.cache.entries[k]);
  }

  // ----- a script that outlives its flush -----

  const FAILED: Entry := EDITED.(conflict := Some(OutcomeUnknown))
  const APPLIED: Event := Applied(STALE_KEY, 1, Contents(Sha256([1])), Contents(Sha256([2])))

  const L7 := S6.(cache := Cache(map[STALE_KEY := FAILED], 3, 2), flights := map[], orphans := {ITEM})
  const L8 := L7.(cache := Cache(map[], 3, 2))
  const L9 := L8.(remote := AFTER, history := READ_TWICE + [APPLIED])

  /** The answer of a flush is lost while its script runs on; the edit is discarded; then the script writes it. */
  const LATE_RUN := Run(
    [S0, S1, S2, S3, S4, S5, S6, L7, L8, L9],
    [ ReadRemote(STALE_KEY), AcquireLoad(STALE_KEY), FetchLoad("h"), FinishLoad("h"), Batch([EDIT], Buffered([1])),
      BeginFlush("h", [ITEM]), FinishFlush("h", 0, Some(OutcomeUnknown)), Discard("h"), RunOrphan(ITEM) ])

  lemma {:induction false} LateGoesOnQuietly()
    ensures Quiet(S6, FinishFlush("h", 0, Some(OutcomeUnknown)), L7) && Quiet(L7, Discard("h"), L8)
    ensures Quiet(S6, Discard("h"), D7)
  {
  }

  lemma {:induction false} LostAnswer()
    ensures Next(8, S6, FinishFlush("h", 0, Some(OutcomeUnknown)), L7)
  {
    hide WithFailure, WithSuccesses;
    NothingReported(S6.cache.entries, [ITEM]);
    FailureOfOne();
    OneItem(ITEM);
    assert S6.flights - {"h"} == map[];
  }

  lemma {:induction false} OneItem(item: CommitItem)
    ensures (set i | 0 <= i < |[item]| :: [item][i]) == {item}
  {
    assert [item][0] == item;
  }

  lemma {:induction false} FailureOfOne()
    ensures WithFailure(map[STALE_KEY := FLYING], [ITEM], OutcomeUnknown) == map[STALE_KEY := FAILED]
  {
    assert Flying(STALE_KEY, FLYING, [ITEM]) by { assert [ITEM][0].key == STALE_KEY; }
  }

  /** The item passes its guard, and writes what is not there, to a path that nothing is cached for. */
  lemma {:induction false} ItemIsHarmful(s: Sys)
    requires s.remote == BEFORE && s.cache.entries == map[]
    ensures !Harmless(s, ITEM) && !Awaited(s, ITEM)
    ensures Carried(s, ITEM) == Some(s.(remote := AFTER, history := s.history + [APPLIED]))
  {
    assert With(BEFORE, STALE_KEY, Some(File([2], DEFAULT_MODE))) == AFTER;
  }

  lemma {:induction false} LateEnds()
    ensures Next(8, L7, Discard("h"), L8)
    ensures Next(8, L8, RunOrphan(ITEM), L9)
  {
    hide Carried;
    ItemIsHarmful(L8);
  }

  /** A quiet run but for its last step: a script that has outlived its flush writes an edit that was discarded
      since. */
  lemma {:induction false} LateScriptIsShown()
    ensures IsRun(8, LATE_RUN) && LATE_RUN.steps[8] == RunOrphan(ITEM)
    ensures forall i :: 0 <= i < 8 ==> Quiet(LATE_RUN.states[i], LATE_RUN.steps[i], LATE_RUN.states[i + 1])
    ensures !Harmless(LATE_RUN.states[8], ITEM)
    ensures View(LATE_RUN.states[9], STALE_KEY) == Contents(Sha256([2]))
    ensures Store(LATE_RUN, 9, STALE_KEY) == Contents(Sha256([1]))
  {
    hide Next, Harmless, Quiet;
    BeginsQuietly();
    LateGoesOnQuietly();
    Load();
    Edit();
    Commit();
    LostAnswer();
    LateEnds();
    ItemIsHarmful(L8);
    assert Store(LATE_RUN, 8, STALE_KEY) == Contents(Sha256([1]));
  }

  // ----- a discard during a flush -----

  const D7 := S6.(cache := Cache(map[], 3, 2))
  const D8 := D7.(remote := AFTER, flights := map["h" := Flight([ITEM], 1, false)], history := READ_TWICE + [APPLIED])

  /** The edit is discarded while its flush is running; then the script writes it. */
  const DISCARD_RUN := Run(
    [S0, S1, S2, S3, S4, S5, S6, D7, D8],
    [ ReadRemote(STALE_KEY), AcquireLoad(STALE_KEY), FetchLoad("h"), FinishLoad("h"), Batch([EDIT], Buffered([1])),
      BeginFlush("h", [ITEM]), Discard("h"), Script("h") ])

  lemma {:induction false} DiscardEnds()
    ensures Next(8, S6, Discard("h"), D7)
    ensures Next(8, D7, Script("h"), D8)
  {
    hide Carried;
    ItemIsHarmful(D7);
    assert D7.flights["h" := Flight([ITEM], 1, false)] == D8.flights;
  }

  /** A quiet run but for its last step: the script of a running flush writes an edit that was discarded since
      the flush began. */
  lemma {:induction false} DiscardedEditIsShown()
    ensures IsRun(8, DISCARD_RUN) && DISCARD_RUN.steps[7] == Script("h")
    ensures forall i :: 0 <= i < 7 ==> Quiet(DISCARD_RUN.states[i], DISCARD_RUN.steps[i], DISCARD_RUN.states[i + 1])
    ensures !Calm(DISCARD_RUN.states[7], Script("h"))
    ensures View(DISCARD_RUN.states[8], STALE_KEY) == Contents(Sha256([2]))
    ensures Store(DISCARD_RUN, 8, STALE_KEY) == Contents(Sha256([1]))
  {
    hide Next, Harmless, Quiet;
    BeginsQuietly();
    LateGoesOnQuietly();
    Load();
    Edit();
    Commit();
    DiscardEnds();
    ItemIsHarmful(D7);
    assert Store(DISCARD_RUN, 7, STALE_KEY) == Contents(Sha256([1]));
  }
}
