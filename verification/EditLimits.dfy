/** Two facts about the edges of the cache: eviction is determined by the LRU order, and publishing a
    read result without the preparation lock can show a path as it no longer is. */
module EditLimits {
  import opened Common
  import opened EditTypes
  import opened EditFacts
  import opened EditProtocol
  import opened EditInvariants
  import opened EditReads
  import opened EditRefinement

  // ----- eviction is determined -----

  /** Of two evictions in LRU order, one keeps whatever the other keeps. */
  lemma {:induction false} KeptNested(c: Cache, kept: Entries, kept': Entries, protected: seq<Key>)
    requires LruOk(c)
    requires EvictedInLruOrder(c.entries, kept, protected) && EvictedInLruOrder(c.entries, kept', protected)
    ensures kept.Keys <= kept'.Keys || kept'.Keys <= kept.Keys
  {
  }

  /** If one eviction drops more than another, its last victim is among what the other kept. */
  lemma {:induction false} LastStays(
    c: Cache, kept: Entries, kept': Entries, protected: seq<Key>, k: Key, last: Key)
    requires LruOk(c)
    requires EvictedInLruOrder(c.entries, kept, protected) && EvictedInLruOrder(c.entries, kept', protected)
    requires k in kept && k !in kept' && LastEvicted(c.entries, kept', last)
    ensures last in kept
  {
  }

  /** A last victim that was needed is kept by no eviction that keeps at least as much. */
  lemma {:induction false} LastDropped(
    entries: Entries, kept: Entries, kept': Entries, maxBytes: nat, additional: nat, protected: seq<Key>, ok: bool,
    last: Key)
    requires CapacityMade(entries, kept, maxBytes, additional, protected, ok)
    requires EvictedInLruOrder(entries, kept', protected) && kept'.Keys <= kept.Keys
    requires LastEvicted(entries, kept', last)
    requires TotalBytes(kept') + Size(entries[last].desired) + additional > maxBytes
    ensures last !in kept
  {
    hide TotalBytes, Pinned, NeededLast;
    var more := kept'[last := entries[last]];
    TotalUpdate(kept', last, entries[last]);
    if last in kept {
      TotalSubset(kept, more);
    }
  }

  /** An eviction that makes just enough room drops nothing that a sufficient one keeps. */
  lemma {:induction false} NestedEqual(
    c: Cache, kept: Entries, kept': Entries, maxBytes: nat, additional: nat, protected: seq<Key>, ok: bool, ok': bool)
    requires LruOk(c)
    requires CapacityMade(c.entries, kept, maxBytes, additional, protected, ok)
    requires CapacityMade(c.entries, kept', maxBytes, additional, protected, ok')
    requires kept'.Keys <= kept.Keys
    ensures kept'.Keys == kept.Keys
  {
    hide TotalBytes, Pinned, LruOk;
    if kept' != c.entries {
      var last :| LastEvicted(c.entries, kept', last)
        && TotalBytes(kept') + Size(c.entries[last].desired) + additional > maxBytes;
      LastDropped(c.entries, kept, kept', maxBytes, additional, protected, ok, last);
      forall k | k in kept ensures k in kept' {
        if k !in kept' {
          LastStays(c, kept, kept', protected, k, last);
        }
      }
    }
  }

  /** Two ways of making the same room, from entries with LRU numbers of their own, keep the same
      entries: which are evicted is a function of the LRU order. */
  lemma {:induction false} EvictionDetermined(
    c: Cache, kept: Entries, kept': Entries, maxBytes: nat, additional: nat, protected: seq<Key>, ok: bool, ok': bool)
    requires LruOk(c)
    requires CapacityMade(c.entries, kept, maxBytes, additional, protected, ok)
    requires CapacityMade(c.entries, kept', maxBytes, additional, protected, ok')
    ensures kept == kept' && ok == ok'
  {
    hide TotalBytes, Pinned, NeededLast;
    KeptNested(c, kept, kept', protected);
    if kept'.Keys <= kept.Keys {
      NestedEqual(c, kept, kept', maxBytes, additional, protected, ok, ok');
    } else {
      NestedEqual(c, kept', kept, maxBytes, additional, protected, ok', ok);
    }
  }

  /** Every step keeps LRU numbers distinct. */
  lemma {:induction false} LruKept(maxBytes: nat, s: Sys, step: Step, s': Sys)
    requires LruOk(s.cache) && Next(maxBytes, s, step, s')
    ensures LruOk(s'.cache)
  {
    hide CleanInserted, BatchApplied, Finished, Carried, TakesEligible, HostConflict, FlushLanded, LruOk;
    match step
    case FinishLoad(host) =>
      if maxBytes > 0 {
        InsertLru(s.cache, s.preparing[host].key, s.preparing[host].snapshot.value, maxBytes, s'.cache);
      }
    case PublishRead(key, snapshot) => InsertLru(s.cache, key, snapshot, maxBytes, s'.cache);
    case Batch(edits, result) => BatchLru(s.cache, edits, maxBytes, s'.cache, result);
    case Script(host) =>
      assert s'.cache == s.cache by { CarriedCache(s, s.flights[host].items[s.flights[host].done]); }
    case RunOrphan(item) =>
      assert s'.cache == s.cache by { CarriedCache(s, item); }
    case FinishFlush(host, reported, error) =>
      LandedLru(s, host, reported, error, s');
    case Look(_) => OwnStepLru(maxBytes, s, step, s');
    case AcquireLoad(_) => OwnStepLru(maxBytes, s, step, s');
    case BeginFlush(_, _) => OwnStepLru(maxBytes, s, step, s');
    case Invalidate(_) => OwnStepLru(maxBytes, s, step, s');
    case Discard(_) => OwnStepLru(maxBytes, s, step, s');
    case Retry(_) => OwnStepLru(maxBytes, s, step, s');
    case _ =>
      assert s'.cache == s.cache;
  }

  lemma {:induction false} OwnStepLru(maxBytes: nat, s: Sys, step: Step, s': Sys)
    requires LruOk(s.cache) && Next(maxBytes, s, step, s')
    requires step.Look? || step.AcquireLoad? || step.BeginFlush? || step.Invalidate? || step.Discard? || step.Retry?
    ensures LruOk(s'.cache)
  {
    hide TakesEligible, HostConflict;
  }

  /** LRU numbers are distinct in every state of every run. */
  lemma {:induction false} LruAlways(maxBytes: nat, run: Run, n: nat)
    requires IsRun(maxBytes, run) && n < |run.states|
    ensures LruOk(run.states[n].cache)
  {
    hide Next, LruOk;
    if n == 0 {
      LruInitially();
    } else {
      LruAlways(maxBytes, run, n - 1);
      LruKept(maxBytes, run.states[n - 1], run.steps[n - 1], run.states[n]);
    }
  }

  lemma {:induction false} LruInitially()
    ensures LruOk(INITIAL_CACHE)
  {
  }

  /** In every state of every run, which entries make room, and whether they can, is a function of the state. */
  lemma {:induction false} EvictionAlwaysDetermined(
    maxBytes: nat, run: Run, n: nat, kept: Entries, kept': Entries, additional: nat, protected: seq<Key>,
    ok: bool, ok': bool)
    requires IsRun(maxBytes, run) && n < |run.states|
    requires CapacityMade(run.states[n].cache.entries, kept, maxBytes, additional, protected, ok)
    requires CapacityMade(run.states[n].cache.entries, kept', maxBytes, additional, protected, ok')
    ensures kept == kept' && ok == ok'
  {
    hide CapacityMade, LruOk, Next;
    LruAlways(maxBytes, run, n);
    EvictionDetermined(run.states[n].cache, kept, kept', maxBytes, additional, protected, ok, ok');
  }

  lemma {:induction false} LandedLru(s: Sys, host: string, reported: nat, error: Option<ErrorKind>, s': Sys)
    requires LruOk(s.cache) && FlushLanded(s, host, reported, error, s')
    ensures LruOk(s'.cache)
  {
    hide Finished;
    FinishLru(s.cache.entries, s.flights[host].items, Successes(s.flights[host].items, reported), error);
  }

  lemma {:induction false} CarriedCache(s: Sys, item: CommitItem)
    ensures Carried(s, item).Some? ==> Carried(s, item).value.cache == s.cache
  {
  }

  lemma {:induction false} InsertLru(c: Cache, key: Key, snapshot: Snapshot, maxBytes: nat, c': Cache)
    requires LruOk(c) && CleanInserted(c, key, snapshot, maxBytes, c')
    ensures LruOk(c')
  {
    hide TotalBytes, NeededLast, Pinned;
  }

  lemma {:induction false} EditsLru(c: Cache, edits: seq<PreparedEdit>)
    requires LruOk(c) && forall i :: 0 <= i < |edits| ==> edits[i].key in c.entries
    ensures LruOk(WithEdits(c, edits))
  {
    if edits != [] {
      EditsLru(c, edits[..|edits| - 1]);
    }
  }

  lemma {:induction false} BatchLru(c: Cache, edits: seq<PreparedEdit>, maxBytes: nat, c': Cache, r: BatchResult)
    requires LruOk(c) && BatchApplied(c, edits, maxBytes, c', r)
    ensures LruOk(c')
  {
    hide TotalBytes, NeededLast, Pinned, WithEdits, LastEvicted;
    if c' != c {
      var kept, ok :|
        && CapacityMade(c.entries, kept, maxBytes, Additional(c.entries, edits), EditKeys(edits), ok)
        && (forall i :: 0 <= i < |edits| ==> edits[i].key in kept)
        && c' == (if ok then WithEdits(c.(entries := kept), edits) else c.(entries := kept));
      EditsLru(c.(entries := kept), edits);
    }
  }

  lemma {:induction false} SuccessesLru(entries: Entries, successes: seq<CommitSuccess>)
    ensures forall k :: k in entries ==> WithSuccesses(entries, successes)[k].lru == entries[k].lru
  {
    if successes != [] {
      SuccessesLru(entries, successes[..|successes| - 1]);
    }
  }

  lemma {:induction false} FinishLru(
    entries: Entries, items: seq<CommitItem>, successes: seq<CommitSuccess>, error: Option<ErrorKind>)
    ensures forall k :: k in entries ==> Finished(entries, items, successes, error)[k].lru == entries[k].lru
  {
    hide WithSuccesses;
    SuccessesLru(entries, successes);
  }

  // ----- a stale read result -----

  const STALE_KEY := Key("h", "/f")
  const READ: Snapshot := Snapshot(Regular(Sha256([1]), DEFAULT_MODE), Present([1]))
  const EDIT := PreparedEdit(STALE_KEY, 0, Present([2]))
  const EDITED: Entry :=
    Entry(READ.base, Present([2]), Some(Sha256([2])), 1, true, None, None, 3)
  const ITEM := CommitItem(STALE_KEY, READ.base, Present([2]), Some(Sha256([2])), 1)
  const LANDED: Entry :=
    Entry(Regular(Sha256([2]), DEFAULT_MODE), Present([2]), Some(Sha256([2])), 1, false, None, None, 3)

  const BEFORE: Remote := map[STALE_KEY := File([1], DEFAULT_MODE)]
  const AFTER: Remote := map[STALE_KEY := File([2], DEFAULT_MODE)]
  const FLYING: Entry := EDITED.(inFlight := Some(1))

  const READ_ONCE: seq<Event> := [Fetched(STALE_KEY, READ)]
  const READ_TWICE: seq<Event> := READ_ONCE + [Fetched(STALE_KEY, READ)]
  const WROTE: seq<Event> := READ_TWICE + [Applied(STALE_KEY, 1, Contents(Sha256([1])), Contents(Sha256([2])))]

  const S0 := Sys(INITIAL_CACHE, BEFORE, map[], map[], {}, [])
  const S1 := S0.(history := READ_ONCE)
  const S2 := S1.(cache := Cache(map[], 1, 1), preparing := map["h" := Loading(STALE_KEY, None)])
  const S3 := S2.(preparing := map["h" := Loading(STALE_KEY, Some(READ))], history := READ_TWICE)
  const S4 := S3.(cache := Cache(map[STALE_KEY := CleanEntry(READ, 2)], 2, 1), preparing := map[])
  const S5 := S4.(cache := Cache(map[STALE_KEY := EDITED], 3, 2))
  const S6 := S5.(cache := Cache(map[STALE_KEY := FLYING], 3, 2), flights := map["h" := Flight([ITEM], 0, false)])
  const S7 := S6.(remote := AFTER, flights := map["h" := Flight([ITEM], 1, false)], history := WROTE)
  const S8 := S7.(cache := Cache(map[STALE_KEY := LANDED], 3, 2), flights := map[])
  const S9 := S8.(cache := Cache(map[], 3, 2))
  const S10 := S9.(cache := Cache(map[STALE_KEY := CleanEntry(READ, 4)], 4, 2))

  /** A read is under way while the same path is loaded, edited, flushed and invalidated; then its result
      is published. */
  const STALE_RUN := Run(
    [S0, S1, S2, S3, S4, S5, S6, S7, S8, S9, S10],
    [ ReadRemote(STALE_KEY), AcquireLoad(STALE_KEY), FetchLoad("h"), FinishLoad("h"), Batch([EDIT], Buffered([1])),
      BeginFlush("h", [ITEM]), Script("h"), FinishFlush("h", 1, None), Invalidate("h"), PublishRead(STALE_KEY, READ) ])

  lemma {:induction false} InsertIntoEmpty(lru: nat, generation: nat)
    ensures CleanInserted(Cache(map[], lru, generation), STALE_KEY, READ, 8,
                          Cache(map[STALE_KEY := CleanEntry(READ, lru + 1)], lru + 1, generation))
  {
    var none: Entries := map[];
    assert Sizes(none) == map[];
    assert Pinned(none, []) == none;
    assert CapacityMade(none, none, 8, 1, [], true);
  }

  lemma {:induction false} SingleBatch()
    ensures BatchApplied(Cache(map[STALE_KEY := CleanEntry(READ, 2)], 2, 1), [EDIT], 8,
                         Cache(map[STALE_KEY := EDITED], 3, 2), Buffered([1]))
  {
    hide TotalBytes;
    var c := Cache(map[STALE_KEY := CleanEntry(READ, 2)], 2, 1);
    var none: Entries := map[];
    TotalNone();
    TotalUpdate(none, STALE_KEY, CleanEntry(READ, 2));
    assert none[STALE_KEY := CleanEntry(READ, 2)] == c.entries;
    TotalSubset(c.entries, Pinned(c.entries, [STALE_KEY]));
    assert EditKeys([EDIT]) == [STALE_KEY];
    assert [EDIT][..0] == [];
    assert OldBytes(c.entries, []) == 0 && NewBytes([]) == 0;
    assert Additional(c.entries, [EDIT]) == 0;
    assert CapacityMade(c.entries, c.entries, 8, 0, [STALE_KEY], true);
    assert FreshGenerations(1, 1) == [1];
    assert WithEdits(c, [EDIT]) == WithEdit(c, EDIT) by { assert WithEdits(c, []) == c; }
    assert c.(entries := c.entries) == c;
  }

  lemma {:induction false} TotalNone()
    ensures TotalBytes(map[]) == 0
  {
    assert Sizes(map[]) == map[];
  }

  lemma {:induction false} Load()
    ensures Next(8, S0, ReadRemote(STALE_KEY), S1)
    ensures Next(8, S1, AcquireLoad(STALE_KEY), S2)
    ensures Next(8, S2, FetchLoad("h"), S3)
    ensures Next(8, S3, FinishLoad("h"), S4)
  {
    hide CleanInserted;
    InsertIntoEmpty(1, 1);
  }

  lemma {:induction false} Edit()
    ensures Next(8, S4, Batch([EDIT], Buffered([1])), S5)
  {
    hide BatchApplied;
    SingleBatch();
  }

  lemma {:induction false} Commit()
    ensures Next(8, S5, BeginFlush("h", [ITEM]), S6)
    ensures Next(8, S6, Script("h"), S7)
  {
    assert HasItem([ITEM], STALE_KEY) by { assert [ITEM][0].key == STALE_KEY; }
    assert MarkedInFlight(S5.cache.entries, "h") == map[STALE_KEY := FLYING];
    assert With(BEFORE, STALE_KEY, Some(File([2], DEFAULT_MODE))) == AFTER;
    assert S6.flights["h" := Flight([ITEM], 1, false)] == S7.flights;
  }

  lemma {:induction false} NothingLeft(items: seq<CommitItem>, done: nat)
    ensures var left := set i | done <= i < |items| :: items[i]; done >= |items| ==> left == {}
  {
  }

  lemma {:induction false} Land()
    ensures Next(8, S7, FinishFlush("h", 1, None), S8)
    ensures Next(8, S8, Invalidate("h"), S9)
  {
    var success := CommitSuccess(STALE_KEY, 1, LANDED.base);
    assert Successes([ITEM], 1) == [success];
    assert [success][..0] == [];
    assert WithSuccesses(S7.cache.entries, []) == S7.cache.entries;
    assert WithSuccesses(S7.cache.entries, [success]) == WithSuccess(S7.cache.entries, success);
    assert S7.flights - {"h"} == map[];
    NothingLeft([ITEM], 1);
  }

  lemma {:induction false} Publish()
    ensures Next(8, S9, PublishRead(STALE_KEY, READ), S10)
  {
    hide CleanInserted;
    InsertIntoEmpty(3, 2);
    assert S9.history[0] == Fetched(STALE_KEY, READ);
  }

  /** Up to the beginning of the flush nothing is late, and nothing is published. */
  lemma {:induction false} BeginsQuietly()
    ensures Quiet(S0, ReadRemote(STALE_KEY), S1) && Quiet(S1, AcquireLoad(STALE_KEY), S2)
    ensures Quiet(S2, FetchLoad("h"), S3) && Quiet(S3, FinishLoad("h"), S4)
    ensures Quiet(S4, Batch([EDIT], Buffered([1])), S5) && Quiet(S5, BeginFlush("h", [ITEM]), S6)
  {
  }

  lemma {:induction false} GoesOnQuietly()
    ensures Quiet(S6, Script("h"), S7) && Quiet(S7, FinishFlush("h", 1, None), S8) && Quiet(S8, Invalidate("h"), S9)
  {
    assert NextItem(S6, "h") == Some(ITEM) && Awaited(S6, ITEM);
  }

  lemma {:induction false} ReadIsOvertaken()
    ensures !Timely(S9, PublishRead(STALE_KEY, READ), S10)
  {
    hide Harmless;
    forall j | IsFetch(S9.history, j, STALE_KEY, READ) ensures !NotOvertaken(S9.history, j, STALE_KEY, READ) {
      assert |S9.history| == 3 && S9.history[2].Applied?;
      assert S9.history[j + 1..][|S9.history[j + 1..]| - 1] == S9.history[2];
    }
  }

  /** A quiet run but for its last step, which publishes a read result the path has moved on from: the
      bridge then shows the old contents as a clean entry while its own edit is on the remote. */
  lemma {:induction false} StaleReadIsShown()
    ensures IsRun(8, STALE_RUN)
    ensures forall i :: 0 <= i < 9 ==> Quiet(STALE_RUN.states[i], STALE_RUN.steps[i], STALE_RUN.states[i + 1])
    ensures !Timely(STALE_RUN.states[9], STALE_RUN.steps[9], STALE_RUN.states[10])
    ensures STALE_RUN.steps[9] == PublishRead(STALE_KEY, READ)
    ensures View(STALE_RUN.states[10], STALE_KEY) == Contents(Sha256([1]))
    ensures Store(STALE_RUN, 10, STALE_KEY) == Contents(Sha256([2]))
    ensures VersionAt(STALE_RUN.states[10].remote, STALE_KEY) == Contents(Sha256([2]))
  {
    hide Next, Quiet, Timely;
    BeginsQuietly();
    GoesOnQuietly();
    ReadIsOvertaken();
    Load();
    Edit();
    Commit();
    Land();
    Publish();
    StoreHoldsEdit();
  }

  lemma {:induction false} StoreHoldsEdit()
    ensures Store(STALE_RUN, 10, STALE_KEY) == Contents(Sha256([2]))
  {
    assert LastEdit([EDIT], STALE_KEY, Store(STALE_RUN, 4, STALE_KEY)) == Contents(Sha256([2]));
    assert Store(STALE_RUN, 5, STALE_KEY) == Contents(Sha256([2]));
    assert Store(STALE_RUN, 6, STALE_KEY) == Contents(Sha256([2]));
    assert Store(STALE_RUN, 7, STALE_KEY) == Contents(Sha256([2]));
    assert Store(STALE_RUN, 8, STALE_KEY) == Contents(Sha256([2]));
    assert Store(STALE_RUN, 9, STALE_KEY) == Contents(Sha256([2]));
  }
}
