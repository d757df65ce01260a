/** Quiet runs, end to end: what the bridge shows, what a barrier guarantees, when a read result may
    be published, and that the bridge never conflicts with itself. */
module EditConsequences {
  import opened Common
  import opened EditTypes
  import opened EditFacts
  import opened EditProtocol
  import opened EditInvariants
  import opened EditSafety
  import opened EditTheorems
  import opened EditReads
  import opened EditRefinement

  lemma {:induction false} CoupledInitially(s: Sys)
    requires Init(s)
    ensures Coupled(s)
  {
  }

  /** In every state of a quiet run, every path shows exactly what the write-through store holds:
      caching, eviction, invalidation, flushing and failing are unobservable. */
  lemma {:induction false} CacheRefinesStore(maxBytes: nat, run: Run, n: nat)
    requires QuietRun(maxBytes, run) && n < |run.states|
    ensures Coupled(run.states[n])
    ensures forall k :: View(run.states[n], k) == Store(run, n, k)
  {
    hide Next, Inv, Coupled, Calm, Timely, LastEdit, Traced, Alone;
    if n == 0 {
      CoupledInitially(run.states[0]);
    } else {
      CacheRefinesStore(maxBytes, run, n - 1);
      Reachable(maxBytes, run, n - 1);
      TracedAlways(maxBytes, run, n - 1);
      AloneAlways(maxBytes, run, n - 1);
      assert Quiet(run.states[n - 1], run.steps[n - 1], run.states[n]);
      StepSimulates(maxBytes, run.states[n - 1], run.steps[n - 1], run.states[n]);
    }
  }

  /** A load shows the contents of the write-through store, whether it shows what it fetched or an
      entry that appeared meanwhile. */
  lemma {:induction false} LoadsShowStore(maxBytes: nat, run: Run, i: nat)
    requires QuietRun(maxBytes, run) && i < |run.steps| && run.steps[i].FinishLoad?
    ensures
      var s := run.states[i];
      && Loads(s, run.steps[i].host) && s.preparing[run.steps[i].host].snapshot.Some?
      && var key := s.preparing[run.steps[i].host].key;
      && DesiredVersion(s.preparing[run.steps[i].host].snapshot.value.desired) == Store(run, i, key)
      && (key in s.cache.entries ==> DesiredVersion(s.cache.entries[key].desired) == Store(run, i, key))
  {
    hide CacheOk, OrphansOk, BasesKnown, AllAirborneOk, FlightsOk, Guarded, VersionAt, FlightsMatch, LoadPublished;
    Reachable(maxBytes, run, i);
    CacheRefinesStore(maxBytes, run, i);
    var s, host := run.states[i], run.steps[i].host;
    assert Next(maxBytes, s, run.steps[i], run.states[i + 1]);
    assert Loads(s, host);
    var key, snapshot := s.preparing[host].key, s.preparing[host].snapshot.value;
    assert SnapshotOk(snapshot);
    SnapshotVersions(snapshot);
    assert View(s, key) == Store(run, i, key);
  }

  /** With the preparation lock held, the barrier's flush of `host` returns without error at step `n`: it
      finds nothing to take, or what it has taken lands. */
  ghost predicate BarrierReturns(run: Run, host: string, n: nat)
    requires |run.states| == |run.steps| + 1 && n < |run.steps|
  {
    && host in run.states[n].preparing && run.states[n].preparing[host].Barrier?
    && (run.steps[n] == FlushIdle(host) || exists a :: BarrierLands(run, host, a, n))
  }

  ghost predicate BarrierLands(run: Run, host: string, a: nat, n: nat)
    requires |run.states| == |run.steps| + 1 && n < |run.steps|
  {
    && FlushUnderLock(run, host, a, n)
    && run.steps[n].FinishFlush? && run.steps[n].host == host && run.steps[n].error.None?
  }

  /** When a barrier returns without error, its host is clean and the remote holds the write-through store on
      every path of the host, cached or not. */
  lemma {:induction false} BarrierSynchronizes(maxBytes: nat, run: Run, host: string, n: nat, k: Key)
    requires QuietRun(maxBytes, run) && n < |run.steps| && BarrierReturns(run, host, n) && k.host == host
    ensures !HostDirty(run.states[n + 1].cache.entries, host)
    ensures VersionAt(run.states[n + 1].remote, k) == Store(run, n + 1, k)
    ensures k in run.states[n + 1].cache.entries ==>
      VersionAt(run.states[n + 1].remote, k) == DesiredVersion(run.states[n + 1].cache.entries[k].desired)
  {
    hide Next, Inv, Calm, Timely, VersionAt, Store;
    if run.steps[n] == FlushIdle(host) {
      IdleFlushIsClean(maxBytes, run, n);
      IdleChangesNothing(maxBytes, run, host, n);
    } else {
      var a: nat :| BarrierLands(run, host, a, n);
      OneFlushUnderLockSuffices(maxBytes, run, host, a, n);
    }
    CacheRefinesStore(maxBytes, run, n + 1);
    assert View(run.states[n + 1], k) == Store(run, n + 1, k);
  }

  lemma {:induction false} IdleChangesNothing(maxBytes: nat, run: Run, host: string, n: nat)
    requires IsRun(maxBytes, run) && n < |run.steps| && run.steps[n] == FlushIdle(host)
    ensures run.states[n + 1] == run.states[n]
  {
    assert Next(maxBytes, run.states[n], run.steps[n], run.states[n + 1]);
  }

  // ----- publishing a read result -----

  /** Publishing the result of an earlier read takes no preparation lock. When it inserts an entry, and nobody
      else has written the path since the read, the path keeps showing what it showed before if and only if
      the last commit of the bridge on it since the read, if any, wrote what was read. */
  lemma {:induction false} PublishedReadFaithfulIff(
    maxBytes: nat, run: Run, n: nat, j: nat, key: Key, snapshot: Snapshot)
    requires IsRun(maxBytes, run) && n < |run.steps| && run.steps[n] == PublishRead(key, snapshot)
    requires Publishes(run.states[n], run.steps[n], run.states[n + 1])
    requires IsFetch(run.states[n].history, j, key, snapshot)
    requires Undisturbed(run.states[n].history[j + 1..], key)
    ensures View(run.states[n + 1], key) == View(run.states[n], key)
       <==> NotOvertaken(run.states[n].history, j, key, snapshot)
  {
    hide CleanInserted, CacheOk, OrphansOk, BasesKnown, AllAirborneOk, FlightsOk, Guarded, After, Traced, VersionAt;
    Reachable(maxBytes, run, n);
    assert Next(maxBytes, run.states[n], run.steps[n], run.states[n + 1]);
    CleanInsertedAt(run.states[n].cache, key, snapshot, maxBytes, run.states[n + 1].cache);
    SnapshotVersions(snapshot);
    StillAsReadIff(maxBytes, run, n, j, key, snapshot);
  }

  /** Every path shows what the write-through store holds. */
  ghost predicate ShowsStore(run: Run, n: nat)
    requires n <= |run.steps| < |run.states|
  {
    forall k :: View(run.states[n], k) == Store(run, n, k)
  }

  /** In a run without other writers and with none but harmless late writes, the cache is indistinguishable from
      the write-through store if and only if no read result is published after a commit of the bridge has
      overtaken the read. */
  lemma {:induction false} RefinesIffReadsAreTimely(maxBytes: nat, run: Run)
    requires CalmRun(maxBytes, run)
    ensures (forall n :: 0 <= n < |run.states| ==> ShowsStore(run, n))
       <==> (forall i :: 0 <= i < |run.steps| ==> Timely(run.states[i], run.steps[i], run.states[i + 1]))
  {
    hide Next, Calm, Timely, View, Store;
    if forall i :: 0 <= i < |run.steps| ==> Timely(run.states[i], run.steps[i], run.states[i + 1]) {
      forall n | 0 <= n < |run.states| ensures ShowsStore(run, n) {
        CacheRefinesStore(maxBytes, run, n);
      }
    }
    if forall n :: 0 <= n < |run.states| ==> ShowsStore(run, n) {
      forall i | 0 <= i < |run.steps| ensures Timely(run.states[i], run.steps[i], run.states[i + 1]) {
        FaithfulIsTimely(maxBytes, run, i);
      }
    }
  }

  lemma {:induction false} FaithfulIsTimely(maxBytes: nat, run: Run, i: nat)
    requires CalmRun(maxBytes, run) && i < |run.steps|
    requires ShowsStore(run, i) && ShowsStore(run, i + 1)
    ensures Timely(run.states[i], run.steps[i], run.states[i + 1])
  {
    hide View, CleanInserted, After, Calm;
    var s, step := run.states[i], run.steps[i];
    assert Next(maxBytes, s, step, run.states[i + 1]);
    if Publishes(s, step, run.states[i + 1]) {
      var j: nat :| j < |s.history| && s.history[j] == Fetched(step.key, step.snapshot);
      AloneAlways(maxBytes, run, i);
      PublishedReadFaithfulIff(maxBytes, run, i, j, step.key, step.snapshot);
      assert View(run.states[i + 1], step.key) == View(s, step.key);
      assert ReadSince(s.history, j, step.key, step.snapshot);
    }
  }

  // ----- no conflict with itself -----

  /** Every landed flush has reported whatever its script did, and no edit is discarded during a flush. */
  ghost predicate Faithful(s: Sys, step: Step, s': Sys) {
    && Quiet(s, step, s') && !step.RunOrphan?
    && (step.Discard? ==> step.host !in s.flights)
    && (step.FinishFlush? && step.host in s.flights ==> step.reported == s.flights[step.host].done)
  }

  ghost predicate FlightBased(s: Sys, f: Flight) {
    && !f.stopped
    && (forall i :: 0 <= i < |f.items| ==>
          Awaited(s, f.items[i]) && s.cache.entries[f.items[i].key].base == f.items[i].base)
    && (forall i :: 0 <= i < f.done && i < |f.items| ==>
          VersionAt(s.remote, f.items[i].key) == DesiredVersion(f.items[i].desired))
    && (forall i :: f.done <= i < |f.items| ==>
          VersionAt(s.remote, f.items[i].key) == BaseVersion(f.items[i].base))
  }

  /** Bases describe the remote, except under items already done; no script has stopped. */
  ghost predicate Based(s: Sys) {
    && (forall k :: k in s.cache.entries && s.cache.entries[k].inFlight.None?
          ==> VersionAt(s.remote, k) == BaseVersion(s.cache.entries[k].base))
    && (forall host :: host in s.flights ==> FlightBased(s, s.flights[host]))
  }

  lemma {:induction false} InsertBased(s: Sys, key: Key, snapshot: Snapshot, s': Sys)
    requires Coupled(s) && Based(s) && (key in s'.cache.entries ==> FreshRead(s, key, snapshot))
    requires InsertedAt(s.cache, key, snapshot, s'.cache)
    requires s'.remote == s.remote && s'.flights == s.flights
    ensures Based(s')
  {
    hide VersionAt;
    forall host | host in s'.flights ensures FlightBased(s', s'.flights[host]) {
      assert FlightBased(s, s.flights[host]);
    }
  }

  lemma {:induction false} BatchBased(maxBytes: nat, s: Sys, edits: seq<PreparedEdit>, result: BatchResult, s': Sys)
    requires Coupled(s) && Based(s) && Next(maxBytes, s, Batch(edits, result), s')
    ensures Based(s')
  {
    hide VersionAt, BatchApplied, Prepared;
    BatchAppliedAt(s.cache, edits, maxBytes, s'.cache, result);
    forall k | k in s'.cache.entries
      ensures s'.cache.entries[k].base == s.cache.entries[k].base
      ensures s'.cache.entries[k].inFlight == s.cache.entries[k].inFlight
    {
      if result.Buffered? && k in EditKeys(edits) {
        var i :| 0 <= i < |edits| && EditKeys(edits)[i] == k;
        assert EditedIn(s.cache, edits, i, s'.cache);
      }
    }
    forall host | host in s'.flights ensures FlightBased(s', s'.flights[host]) {
      assert FlightBased(s, s.flights[host]);
    }
  }

  lemma {:induction false} BeginBased(maxBytes: nat, s: Sys, host: string, items: seq<CommitItem>, s': Sys)
    requires Based(s) && Next(maxBytes, s, BeginFlush(host, items), s')
    ensures Based(s')
  {
    hide VersionAt;
    forall h | h in s'.flights ensures FlightBased(s', s'.flights[h]) {
      if h != host {
        assert FlightBased(s, s.flights[h]);
      }
    }
  }

  lemma {:induction false} ScriptBased(maxBytes: nat, s: Sys, host: string, s': Sys)
    requires Inv(maxBytes, s) && Coupled(s) && Based(s) && Next(maxBytes, s, Script(host), s')
    ensures Based(s')
  {
    hide CacheOk, OrphansOk, BasesKnown, LoadsOk, FetchesOk, Guarded, Carried, Known, Recorded, VersionAt;
    var f := s.flights[host];
    var item := f.items[f.done];
    assert FlightOk(s, host, f) && FlightMatches(s, f) && FlightBased(s, f);
    assert ItemOk(item, host, s.cache.nextGeneration);
    ItemsApart(maxBytes, s, host, f.done);
    CarriedKeepsCache(s, item);
    ScriptItemComparesAndSwaps(s, item);
    forall k | k != item.key ensures VersionAt(s'.remote, k) == VersionAt(s.remote, k) {
      SameNodeSameVersion(s.remote, s'.remote, k);
    }
    forall h | h in s'.flights ensures FlightBased(s', s'.flights[h]) {
      assert FlightBased(s, s.flights[h]) && s'.flights[h].items == s.flights[h].items;
    }
  }

  lemma {:induction false} FinishEntryBased(
    maxBytes: nat, s: Sys, host: string, reported: nat, error: Option<ErrorKind>, s': Sys, k: Key)
    requires Inv(maxBytes, s) && Coupled(s) && Based(s)
    requires Next(maxBytes, s, FinishFlush(host, reported, error), s') && reported == s.flights[host].done
    requires k in s'.cache.entries && s'.cache.entries[k].inFlight.None?
    ensures VersionAt(s'.remote, k) == BaseVersion(s'.cache.entries[k].base)
  {
    hide CacheOk, OrphansOk, BasesKnown, LoadsOk, FetchesOk, Guarded, Known, Recorded, Finished, VersionAt;
    var f := s.flights[host];
    assert FlightOk(s, host, f) && FlightMatches(s, f) && FlightBased(s, f);
    var e := s.cache.entries[k];
    if k.host != host {
      OtherHostUntouched(s, host, reported, error, s', k);
    } else if e.inFlight.Some? {
      assert AirborneOk(s, k, e);
      var i :| FliesAs(f.items, i, k, e) && Carries(f.items[i], e);
      FinishedAt(s.cache.entries, f.items, reported, error, k, i);
    } else {
      FinishedGrounded(s.cache.entries, f.items, reported, error, k);
    }
  }

  lemma {:induction false} FinishBased(
      maxBytes: nat, s: Sys, host: string, reported: nat, error: Option<ErrorKind>, s': Sys)
    requires Inv(maxBytes, s) && Coupled(s) && Based(s)
    requires Next(maxBytes, s, FinishFlush(host, reported, error), s') && reported == s.flights[host].done
    ensures Based(s')
  {
    hide CacheOk, OrphansOk, BasesKnown, LoadsOk, FetchesOk, Guarded, Known, Recorded, Finished, VersionAt, Coupled,
         AllAirborneOk;
    forall k | k in s'.cache.entries && s'.cache.entries[k].inFlight.None?
      ensures VersionAt(s'.remote, k) == BaseVersion(s'.cache.entries[k].base)
    {
      FinishEntryBased(maxBytes, s, host, reported, error, s', k);
    }
    forall h | h in s'.flights ensures FlightBased(s', s'.flights[h]) {
      assert FlightOk(s, h, s.flights[h]) && FlightBased(s, s.flights[h]);
      forall i | 0 <= i < |s.flights[h].items|
        ensures s'.cache.entries[s.flights[h].items[i].key] == s.cache.entries[s.flights[h].items[i].key]
      {
        assert ItemOk(s.flights[h].items[i], h, s.cache.nextGeneration);
        OtherHostUntouched(s, host, reported, error, s', s.flights[h].items[i].key);
      }
    }
  }

  /** Dropping entries that are not in flight. */
  lemma {:induction false} DropBased(maxBytes: nat, s: Sys, s': Sys, host: string)
    requires Inv(maxBytes, s) && Coupled(s) && Based(s)
    requires s'.remote == s.remote && s'.flights == s.flights
    requires forall k :: k in s'.cache.entries ==> k in s.cache.entries && s'.cache.entries[k] == s.cache.entries[k]
    requires forall k :: k in s.cache.entries && k !in s'.cache.entries ==>
      s.cache.entries[k].inFlight.None? || (k.host == host && host !in s.flights)
    ensures Based(s')
  {
    hide CacheOk, OrphansOk, BasesKnown, LoadsOk, FetchesOk, Guarded, Known, Recorded, VersionAt;
    forall h | h in s'.flights ensures FlightBased(s', s'.flights[h]) {
      assert FlightOk(s, h, s.flights[h]) && FlightBased(s, s.flights[h]);
      assert forall i :: 0 <= i < |s.flights[h].items| ==> ItemOk(s.flights[h].items[i], h, s.cache.nextGeneration);
    }
  }

  /** Steps that leave bases, flights and the remote alone. */
  lemma {:induction false} IdleBased(s: Sys, s': Sys)
    requires Based(s) && s'.remote == s.remote && s'.flights == s.flights
    requires s'.cache.entries.Keys == s.cache.entries.Keys
    requires forall k :: k in s.cache.entries ==>
      && s'.cache.entries[k].base == s.cache.entries[k].base
      && s'.cache.entries[k].inFlight == s.cache.entries[k].inFlight
    ensures Based(s')
  {
    hide VersionAt;
    forall h | h in s'.flights ensures FlightBased(s', s'.flights[h]) {
      assert FlightBased(s, s.flights[h]);
    }
  }

  lemma {:induction false} StepBased(maxBytes: nat, s: Sys, step: Step, s': Sys)
    requires Inv(maxBytes, s) && Traced(s) && Alone(s.history) && Coupled(s) && Based(s)
    requires Next(maxBytes, s, step, s') && Faithful(s, step, s')
    ensures Based(s')
  {
    hide Inv, Coupled, Based, BatchApplied, CleanInserted, VersionAt, TakesEligible, HostConflict,
         Finished, MarkedInFlight, Carried, FreshRead, Traced, Alone, Timely;
    match step
    case FinishLoad(host) =>
      LoadFresh(maxBytes, s, host);
      LoadPublishedAt(s.cache, s.preparing[host].key, s.preparing[host].snapshot.value, maxBytes, s'.cache);
      InsertBased(s, s.preparing[host].key, s.preparing[host].snapshot.value, s');
    case PublishRead(key, snapshot) =>
      CleanInsertedAt(s.cache, key, snapshot, maxBytes, s'.cache);
      if Publishes(s, step, s') {
        TimelyIsFresh(s, step, s');
      } else if key in s.cache.entries {
        CachedIsFresh(s, key, snapshot);
      }
      InsertBased(s, key, snapshot, s');
    case Batch(edits, result) => BatchBased(maxBytes, s, edits, result, s');
    case BeginFlush(host, items) => BeginBased(maxBytes, s, host, items, s');
    case Script(host) => ScriptBased(maxBytes, s, host, s');
    case FinishFlush(host, reported, error) => FinishBased(maxBytes, s, host, reported, error, s');
    case Invalidate(host) => DropBased(maxBytes, s, s', host);
    case Discard(host) => DropBased(maxBytes, s, s', host);
    case _ => IdleBased(s, s');
  }

  lemma {:induction false} LoadFresh(maxBytes: nat, s: Sys, host: string)
    requires Coupled(s) && Loads(s, host) && s.preparing[host].snapshot.Some?
    ensures FreshRead(s, s.preparing[host].key, s.preparing[host].snapshot.value)
  {
    hide VersionAt;
  }

  lemma {:induction false} CachedIsFresh(s: Sys, key: Key, snapshot: Snapshot)
    requires key in s.cache.entries
    ensures FreshRead(s, key, snapshot)
  {
  }

  /** The bridge on its own, with faithful reports, never runs into a conflict: no script stops. */
  lemma {:induction false} NoConflictWithItself(maxBytes: nat, run: Run, n: nat, host: string)
    requires IsRun(maxBytes, run) && n < |run.states| && host in run.states[n].flights
    requires forall i :: 0 <= i < |run.steps| ==> Faithful(run.states[i], run.steps[i], run.states[i + 1])
    ensures !run.states[n].flights[host].stopped
  {
    hide Next, Calm, Timely;
    BasedAlways(maxBytes, run, n);
    assert FlightBased(run.states[n], run.states[n].flights[host]);
  }

  lemma {:induction false} FaithfulIsQuiet(maxBytes: nat, run: Run)
    requires IsRun(maxBytes, run)
    requires forall i :: 0 <= i < |run.steps| ==> Faithful(run.states[i], run.steps[i], run.states[i + 1])
    ensures QuietRun(maxBytes, run)
  {
    hide Next, Calm, Timely;
    forall i | 0 <= i < |run.steps|
      ensures Calm(run.states[i], run.steps[i]) && Timely(run.states[i], run.steps[i], run.states[i + 1])
    {
      assert Faithful(run.states[i], run.steps[i], run.states[i + 1]);
    }
  }

  lemma {:induction false} BasedAlways(maxBytes: nat, run: Run, n: nat)
    requires IsRun(maxBytes, run) && n < |run.states|
    requires forall i :: 0 <= i < |run.steps| ==> Faithful(run.states[i], run.steps[i], run.states[i + 1])
    ensures Based(run.states[n])
  {
    hide Next, Inv, Coupled, Calm, Timely, Store, Traced, Alone;
    if n > 0 {
      BasedAlways(maxBytes, run, n - 1);
      FaithfulIsQuiet(maxBytes, run);
      Reachable(maxBytes, run, n - 1);
      CacheRefinesStore(maxBytes, run, n - 1);
      TracedAlways(maxBytes, run, n - 1);
      AloneAlways(maxBytes, run, n - 1);
      StepBased(maxBytes, run.states[n - 1], run.steps[n - 1], run.states[n]);
    }
  }
}
