/** Whether a buffered edit replaces the contents it was computed from. */
module EditUpdates {
  import opened Common
  import opened EditTypes
  import opened EditFacts
  import opened EditProtocol
  import opened EditInvariants
  import opened EditSafety
  import opened EditTheorems
  import opened EditLimits

  /** The step puts a snapshot of `k` into the cache, if it puts anything there. */
  ghost predicate Publishes(s: Sys, step: Step, k: Key, snapshot: Snapshot) {
    match step
    case PublishRead(key, read) => key == k && read == snapshot
    case FinishLoad(host) => host in s.preparing && s.preparing[host] == Loading(k, Some(snapshot))
    case _ => false
  }

  /** An unedited entry was there before as it is, or has just been inserted from a snapshot. */
  ghost predicate Unedited(s: Sys, step: Step, s': Sys, k: Key) {
    k in s'.cache.entries && s'.cache.entries[k].generation == 0 ==>
      if k in s.cache.entries then
        s.cache.entries[k].generation == 0 && s.cache.entries[k].desired == s'.cache.entries[k].desired
      else
        exists snapshot :: Publishes(s, step, k, snapshot) && snapshot.desired == s'.cache.entries[k].desired
  }

  lemma {:induction false} BatchKeepsUnedited(
    maxBytes: nat, s: Sys, edits: seq<PreparedEdit>, result: BatchResult, s': Sys, k: Key)
    requires Inv(maxBytes, s) && Next(maxBytes, s, Batch(edits, result), s')
    ensures Unedited(s, Batch(edits, result), s', k)
  {
    hide CleanInserted, BatchApplied, Carried, FlightsOk, OrphansOk, BasesKnown, LoadsOk, FetchesOk, Guarded,
         AllAirborneOk, TotalBytes;
    BatchAppliedAt(s.cache, edits, maxBytes, s'.cache, result);
    if result.Buffered? && k in EditKeys(edits) {
      var i :| 0 <= i < |edits| && EditKeys(edits)[i] == k;
      assert EditedIn(s.cache, edits, i, s'.cache);
    }
  }

  lemma {:induction false} FinishKeepsUnedited(maxBytes: nat, s: Sys, step: Step, s': Sys, k: Key)
    requires Inv(maxBytes, s) && Next(maxBytes, s, step, s') && step.FinishFlush?
    ensures Unedited(s, step, s', k)
  {
    hide CacheOk, OrphansOk, BasesKnown, LoadsOk, FetchesOk, Guarded, Known, Recorded, Finished;
    if k in s.cache.entries {
      var e, f := s.cache.entries[k], s.flights[step.host];
      assert FlightOk(s, step.host, f);
      if k.host != step.host {
        OtherHostUntouched(s, step.host, step.reported, step.error, s', k);
      } else if e.inFlight.Some? {
        assert AirborneOk(s, k, e);
        var i :| FliesAs(f.items, i, k, e) && Carries(f.items[i], e);
        FinishedAt(s.cache.entries, f.items, step.reported, step.error, k, i);
      } else {
        FinishedGrounded(s.cache.entries, f.items, step.reported, step.error, k);
      }
    }
  }

  lemma {:induction false} OwnStepKeepsUnedited(maxBytes: nat, s: Sys, step: Step, s': Sys, k: Key)
    requires Inv(maxBytes, s) && Next(maxBytes, s, step, s')
    requires !step.FinishLoad? && !step.PublishRead? && !step.Batch?
    requires !step.Script? && !step.RunOrphan? && !step.FinishFlush?
    ensures Unedited(s, step, s', k)
  {
    hide Inv, TakesEligible, HostConflict;
  }

  lemma {:induction false} StepKeepsUnedited(maxBytes: nat, s: Sys, step: Step, s': Sys, k: Key)
    requires Inv(maxBytes, s) && Next(maxBytes, s, step, s')
    ensures Unedited(s, step, s', k)
  {
    hide CleanInserted, BatchApplied, Finished, Carried, FlightsOk, OrphansOk, BasesKnown,
         Guarded, TotalBytes, TakesEligible, HostConflict, AllAirborneOk, FlushLanded;
    match step {
      case FinishLoad(host) =>
        var load := s.preparing[host];
        LoadPublishedAt(s.cache, load.key, load.snapshot.value, maxBytes, s'.cache);
        assert load.key == k ==> Publishes(s, step, k, load.snapshot.value);
      case PublishRead(key, snapshot) =>
        CleanInsertedAt(s.cache, key, snapshot, maxBytes, s'.cache);
        assert key == k ==> Publishes(s, step, k, snapshot);
      case Batch(edits, result) =>
        BatchKeepsUnedited(maxBytes, s, edits, result, s', k);
      case Script(host) =>
        CarriedKeepsCache(s, s.flights[host].items[s.flights[host].done]);
      case RunOrphan(item) =>
        CarriedKeepsCache(s, item);
      case FinishFlush(_, _, _) =>
        FinishKeepsUnedited(maxBytes, s, step, s', k);
      case _ =>
        OwnStepKeepsUnedited(maxBytes, s, step, s', k);
    }
  }

  /** Step `m` is the last before state `n` that put the path back into the cache, with `snapshot`. */
  ghost predicate PutBack(run: Run, m: nat, n: nat, k: Key, snapshot: Snapshot)
    requires m < n < |run.states| && n <= |run.steps|
  {
    && k !in run.states[m].cache.entries && Publishes(run.states[m], run.steps[m], k, snapshot)
    && forall j :: m < j <= n ==> k in run.states[j].cache.entries
  }

  /** The path has been in the cache all the time since state `i`, or what last put it back was read with the
      contents it had then. */
  ghost predicate PutBackWithSame(run: Run, i: nat, n: nat, k: Key)
    requires i <= n < |run.states| && n <= |run.steps| && k in run.states[i].cache.entries
  {
    forall m: nat, snapshot :: i <= m < n && PutBack(run, m, n, k, snapshot) ==>
      snapshot.desired == run.states[i].cache.entries[k].desired
  }

  /** Unedited entries all have generation zero, so two of them may differ: they do not exactly when the path
      was not put back between, or was put back with the same contents. */
  lemma {:induction false} UneditedSameIff(maxBytes: nat, run: Run, i: nat, n: nat, k: Key)
    requires IsRun(maxBytes, run) && i <= n < |run.states|
    requires k in run.states[i].cache.entries && k in run.states[n].cache.entries
    requires run.states[i].cache.entries[k].generation == 0 && run.states[n].cache.entries[k].generation == 0
    ensures run.states[n].cache.entries[k].desired == run.states[i].cache.entries[k].desired <==>
              PutBackWithSame(run, i, n, k)
    decreases n
  {
    hide Next, Publishes;
    if i < n {
      Reachable(maxBytes, run, n - 1);
      var s, step, s' := run.states[n - 1], run.steps[n - 1], run.states[n];
      assert Next(maxBytes, s, step, s');
      StepKeepsUnedited(maxBytes, s, step, s', k);
      if k in s.cache.entries {
        UneditedSameIff(maxBytes, run, i, n - 1, k);
        SamePutBack(run, i, n, k);
      } else {
        var snapshot :| Publishes(s, step, k, snapshot) && snapshot.desired == s'.cache.entries[k].desired;
        assert PutBack(run, n - 1, n, k, snapshot);
        forall m: nat, other | i <= m < n && PutBack(run, m, n, k, other) ensures other == snapshot {
          assert m == n - 1;
          OneSnapshot(s, step, k, snapshot, other);
        }
      }
    }
  }

  lemma {:induction false} OneSnapshot(s: Sys, step: Step, k: Key, p: Snapshot, q: Snapshot)
    requires Publishes(s, step, k, p) && Publishes(s, step, k, q)
    ensures p == q
  {
  }

  lemma {:induction false} SamePutBack(run: Run, i: nat, n: nat, k: Key)
    requires i < n < |run.states| && n <= |run.steps| && k in run.states[i].cache.entries
    requires k in run.states[n - 1].cache.entries && k in run.states[n].cache.entries
    ensures PutBackWithSame(run, i, n, k) <==> PutBackWithSame(run, i, n - 1, k)
  {
    hide Publishes;
    var l, desired := n - 1, run.states[i].cache.entries[k].desired;
    if PutBackWithSame(run, i, n, k) {
      forall m: nat, snapshot | i <= m < l && PutBack(run, m, l, k, snapshot)
        ensures snapshot.desired == desired
      {
        assert PutBack(run, m, n, k, snapshot);
      }
    }
    if PutBackWithSame(run, i, l, k) {
      forall m: nat, snapshot | i <= m < n && PutBack(run, m, n, k, snapshot)
        ensures snapshot.desired == desired
      {
        assert m != l;
        assert PutBack(run, m, l, k, snapshot);
      }
    }
  }

  /** A buffered edit replaces the contents that the path had at the generation it names, if and only if that
      generation is positive, or the path was not put back into the cache between with other contents. */
  lemma {:induction false} EditReplacesIff(maxBytes: nat, run: Run, i: nat, n: nat, j: nat)
    requires IsRun(maxBytes, run) && i <= n < |run.steps|
    requires run.steps[n].Batch? && run.steps[n].result.Buffered? && j < |run.steps[n].edits|
    requires
      var edit := run.steps[n].edits[j];
      && edit.key in run.states[i].cache.entries
      && run.states[i].cache.entries[edit.key].generation == edit.expectedGeneration
    ensures
      var edit := run.steps[n].edits[j];
      var k := edit.key;
      && k in run.states[n].cache.entries
      && (run.states[n].cache.entries[k].desired == run.states[i].cache.entries[k].desired <==>
            edit.expectedGeneration > 0 || PutBackWithSame(run, i, n, k))
  {
    hide Next, PutBackWithSame;
    BufferedIsPrepared(maxBytes, run, n, j);
    if run.steps[n].edits[j].expectedGeneration > 0 {
      EditReplacesWhatItSaw(maxBytes, run, i, n, j);
    } else {
      UneditedSameIff(maxBytes, run, i, n, run.steps[n].edits[j].key);
    }
  }

  // ----- an unedited path that changes -----

  const READ_AGAIN: Snapshot := Snapshot(Regular(Sha256([2]), DEFAULT_MODE), Present([2]))
  const BLIND := PreparedEdit(STALE_KEY, 0, Present([3]))

  const FOUND_AGAIN: seq<Event> := [Fetched(STALE_KEY, READ), Intruded(STALE_KEY)]
  const LOADED_AGAIN: seq<Event> := FOUND_AGAIN + [Fetched(STALE_KEY, READ_AGAIN)]
  const OVERWRITTEN: Entry :=
    Entry(READ_AGAIN.base, Present([3]), Some(Sha256([3])), 1, true, None, None, 5)

  const T0 := Sys(INITIAL_CACHE, BEFORE, map[], map[], {}, [])
  const T1 := T0.(cache := Cache(map[], 1, 1), preparing := map["h" := Loading(STALE_KEY, None)])
  const T2 := T1.(preparing := map["h" := Loading(STALE_KEY, Some(READ))], history := READ_ONCE)
  const T3 := T2.(cache := Cache(map[STALE_KEY := CleanEntry(READ, 2)], 2, 1), preparing := map[])
  const T4 := T3.(cache := Cache(map[], 2, 1))
  const T5 := T4.(remote := AFTER, history := FOUND_AGAIN)
  const T6 := T5.(cache := Cache(map[], 3, 1), preparing := map["h" := Loading(STALE_KEY, None)])
  const T7 := T6.(preparing := map["h" := Loading(STALE_KEY, Some(READ_AGAIN))], history := LOADED_AGAIN)
  const T8 := T7.(cache := Cache(map[STALE_KEY := CleanEntry(READ_AGAIN, 4)], 4, 1), preparing := map[])
  const T9 := T8.(cache := Cache(map[STALE_KEY := OVERWRITTEN], 5, 2))

  /** A path is loaded and an edit prepared for it; the host is invalidated, somebody else changes the file,
      and it is loaded again; then the edit comes in. */
  const BLIND_RUN := Run(
    [T0, T1, T2, T3, T4, T5, T6, T7, T8, T9],
    [ AcquireLoad(STALE_KEY), FetchLoad("h"), FinishLoad("h"), Invalidate("h"),
      Intrude(STALE_KEY, Some(File([2], DEFAULT_MODE))), AcquireLoad(STALE_KEY), FetchLoad("h"), FinishLoad("h"),
      Batch([BLIND], Buffered([1])) ])

  lemma {:induction false} FirstLoad()
    ensures Next(8, T0, AcquireLoad(STALE_KEY), T1)
    ensures Next(8, T1, FetchLoad("h"), T2)
    ensures Next(8, T2, FinishLoad("h"), T3)
    ensures Next(8, T3, Invalidate("h"), T4)
  {
    hide CleanInserted;
    InsertOne(READ, 1);
  }

  lemma {:induction false} SecondLoad()
    ensures Next(8, T4, Intrude(STALE_KEY, Some(File([2], DEFAULT_MODE))), T5)
    ensures Next(8, T5, AcquireLoad(STALE_KEY), T6)
    ensures Next(8, T6, FetchLoad("h"), T7)
    ensures Next(8, T7, FinishLoad("h"), T8)
  {
    hide CleanInserted;
    assert With(BEFORE, STALE_KEY, Some(File([2], DEFAULT_MODE))) == AFTER;
    InsertOne(READ_AGAIN, 3);
  }

  lemma {:induction false} BlindEdit()
    ensures Next(8, T8, Batch([BLIND], Buffered([1])), T9)
  {
    hide BatchApplied;
    BlindBatch();
  }

  lemma {:induction false} InsertOne(snapshot: Snapshot, lru: nat)
    requires Size(snapshot.desired) == 1
    ensures CleanInserted(Cache(map[], lru, 1), STALE_KEY, snapshot, 8,
                          Cache(map[STALE_KEY := CleanEntry(snapshot, lru + 1)], lru + 1, 1))
  {
    var none: Entries := map[];
    assert Sizes(none) == map[];
    assert Pinned(none, []) == none;
    assert CapacityMade(none, none, 8, 1, [], true);
  }

  lemma {:induction false} BlindBatch()
    ensures BatchApplied(Cache(map[STALE_KEY := CleanEntry(READ_AGAIN, 4)], 4, 1), [BLIND], 8,
                         Cache(map[STALE_KEY := OVERWRITTEN], 5, 2), Buffered([1]))
  {
    hide TotalBytes;
    var c := Cache(map[STALE_KEY := CleanEntry(READ_AGAIN, 4)], 4, 1);
    var none: Entries := map[];
    TotalNone();
    TotalUpdate(none, STALE_KEY, CleanEntry(READ_AGAIN, 4));
    assert none[STALE_KEY := CleanEntry(READ_AGAIN, 4)] == c.entries;
    TotalSubset(c.entries, Pinned(c.entries, [STALE_KEY]));
    assert EditKeys([BLIND]) == [STALE_KEY];
    assert [BLIND][..0] == [];
    assert OldBytes(c.entries, []) == 0 && NewBytes([]) == 0;
    assert Additional(c.entries, [BLIND]) == 0;
    assert CapacityMade(c.entries, c.entries, 8, 0, [STALE_KEY], true);
    assert FreshGenerations(1, 1) == [1];
    assert WithEdits(c, [BLIND]) == WithEdit(c, BLIND) by { assert WithEdits(c, []) == c; }
    assert c.(entries := c.entries) == c;
  }

  /** The generation of an unedited entry says nothing: an edit prepared from [1] is buffered over [2], which
      somebody else wrote in between, with the base that lets its commit go through. */
  lemma {:induction false} UneditedChangeIsLost()
    ensures IsRun(8, BLIND_RUN)
    ensures T3.cache.entries[STALE_KEY].desired == Present([1])
    ensures T3.cache.entries[STALE_KEY].generation == BLIND.expectedGeneration
    ensures BLIND_RUN.steps[8] == Batch([BLIND], Buffered([1])) && BLIND_RUN.states[8] == T8
    ensures T8.cache.entries[STALE_KEY].desired == Present([2])
    ensures T9.cache.entries[STALE_KEY].desired == Present([3])
    ensures T9.cache.entries[STALE_KEY].base == Regular(Sha256([2]), DEFAULT_MODE)
    ensures VersionAt(T9.remote, STALE_KEY) == Contents(Sha256([2]))
  {
    hide Next;
    FirstLoad();
    SecondLoad();
    BlindEdit();
  }
}
