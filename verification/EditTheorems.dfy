/** What the invariant gives over whole runs, with any other writers interleaved. */
module EditTheorems {
  import opened Common
  import opened EditTypes
  import opened EditFacts
  import opened EditProtocol
  import opened EditInvariants
  import opened EditSafety

  // ----- no buffered edit is lost -----

  /** `k` holds an unwritten edit of generation `g` or later. */
  ghost predicate Buffers(s: Sys, k: Key, g: nat) {
    k in s.cache.entries && s.cache.entries[k].dirty && s.cache.entries[k].generation >= g
  }

  /** The step reports a commit on `k` of generation `g` or later, and that commit took place. */
  ghost predicate Reports(s: Sys, step: Step, k: Key, g: nat) {
    && step.FinishFlush? && step.host in s.flights
    && exists i :: 0 <= i < step.reported <= |s.flights[step.host].items|
         && s.flights[step.host].items[i].key == k && s.flights[step.host].items[i].generation >= g
         && Recorded(s.history, s.flights[step.host].items[i])
  }

  lemma {:induction false} FinishKeepsEdit(maxBytes: nat, s: Sys, step: Step, s': Sys, k: Key, g: nat)
    requires Inv(maxBytes, s) && Next(maxBytes, s, step, s') && step.FinishFlush?
    requires Buffers(s, k, g)
    ensures Buffers(s', k, g) || Reports(s, step, k, g)
  {
    hide CacheOk, OrphansOk, BasesKnown, LoadsOk, FetchesOk, Guarded, Known, Recorded, Finished, Successes;
    var e, f := s.cache.entries[k], s.flights[step.host];
    assert FlightOk(s, step.host, f);
    assert k.host != step.host ==> !HasItem(f.items, k) by {
      assert forall i :: 0 <= i < |f.items| ==> ItemOk(f.items[i], step.host, s.cache.nextGeneration);
    }
    if k.host == step.host && e.inFlight.Some? {
      assert AirborneOk(s, k, e);
      var i :| FliesAs(f.items, i, k, e) && Carries(f.items[i], e);
      FinishedAt(s.cache.entries, f.items, step.reported, step.error, k, i);
    } else {
      FinishedGrounded(s.cache.entries, f.items, step.reported, step.error, k);
    }
  }

  lemma {:induction false} BatchKeepsEdit(
      maxBytes: nat, s: Sys, edits: seq<PreparedEdit>, result: BatchResult, s': Sys, k: Key, g: nat)
    requires Inv(maxBytes, s) && Next(maxBytes, s, Batch(edits, result), s') && Buffers(s, k, g)
    ensures Buffers(s', k, g)
  {
    hide CleanInserted, BatchApplied, Carried, FlightsOk, OrphansOk, BasesKnown, LoadsOk, FetchesOk, Guarded,
         AllAirborneOk;
    BatchAppliedAt(s.cache, edits, maxBytes, s'.cache, result);
    assert EntryOk(s.cache.entries[k], s.cache.nextGeneration);
    if result.Buffered? && k in EditKeys(edits) {
      var i :| 0 <= i < |edits| && EditKeys(edits)[i] == k;
      assert EditedIn(s.cache, edits, i, s'.cache);
    }
  }

  lemma {:induction false} OwnStepKeepsEdit(maxBytes: nat, s: Sys, step: Step, s': Sys, k: Key, g: nat)
    requires Inv(maxBytes, s) && Next(maxBytes, s, step, s') && step != Step.Discard(k.host) && Buffers(s, k, g)
    requires !step.FinishLoad? && !step.PublishRead? && !step.Batch?
    requires !step.Script? && !step.RunOrphan? && !step.FinishFlush?
    ensures Buffers(s', k, g)
  {
    hide Inv, TakesEligible, HostConflict;
  }

  lemma {:induction false} StepKeepsEdit(maxBytes: nat, s: Sys, step: Step, s': Sys, k: Key, g: nat)
    requires Inv(maxBytes, s) && Next(maxBytes, s, step, s') && step != Step.Discard(k.host)
    requires Buffers(s, k, g)
    ensures Buffers(s', k, g) || Reports(s, step, k, g)
  {
    hide CleanInserted, BatchApplied, Finished, Carried, FlightsOk, OrphansOk, BasesKnown, LoadsOk,
         FetchesOk, Guarded, TotalBytes, TakesEligible, HostConflict, Reports, AllAirborneOk, FlushLanded;
    match step {
      case FinishLoad(host) =>
        LoadPublishedAt(s.cache, s.preparing[host].key, s.preparing[host].snapshot.value, maxBytes, s'.cache);
      case PublishRead(key, snapshot) =>
        CleanInsertedAt(s.cache, key, snapshot, maxBytes, s'.cache);
      case Batch(edits, result) =>
        BatchKeepsEdit(maxBytes, s, edits, result, s', k, g);
      case Script(host) =>
        CarriedKeepsCache(s, s.flights[host].items[s.flights[host].done]);
      case RunOrphan(item) =>
        CarriedKeepsCache(s, item);
      case FinishFlush(host, reported, error) =>
        FinishKeepsEdit(maxBytes, s, step, s', k, g);
      case Intrude(_, _) =>
      case _ =>
        OwnStepKeepsEdit(maxBytes, s, step, s', k, g);
    }
  }

  /** Once a batch returns generation `g` for a path, then in every later state without a discard of
      its host the path is still dirty at `g` or later, unless a commit of `g` or later took place
      and was reported. */
  lemma {:induction false} NoBufferedEditIsLost(maxBytes: nat, run: Run, a: nat, b: nat, i: nat)
    requires IsRun(maxBytes, run) && a < b <= |run.steps|
    requires run.steps[a].Batch? && run.steps[a].result.Buffered? && i < |run.steps[a].edits|
    requires forall j :: a < j < b ==> run.steps[j] != Step.Discard(run.steps[a].edits[i].key.host)
    ensures |run.steps[a].result.generations| == |run.steps[a].edits|
    ensures
      var k, g := run.steps[a].edits[i].key, run.steps[a].result.generations[i];
      Buffers(run.states[b], k, g) || exists j :: a < j < b && Reports(run.states[j], run.steps[j], k, g)
  {
    hide Next, Inv, Reports;
    var edits, result := run.steps[a].edits, run.steps[a].result;
    BatchBuffers(maxBytes, run.states[a], edits, result, run.states[a + 1], i);
    if b > a + 1 {
      NoBufferedEditIsLost(maxBytes, run, a, b - 1, i);
      var k, g := edits[i].key, result.generations[i];
      if Buffers(run.states[b - 1], k, g) {
        Reachable(maxBytes, run, b - 1);
        StepKeepsEdit(maxBytes, run.states[b - 1], run.steps[b - 1], run.states[b], k, g);
      }
    }
  }

  lemma {:induction false} BatchBuffers(
    maxBytes: nat, s: Sys, edits: seq<PreparedEdit>, result: BatchResult, s': Sys, i: nat)
    requires Next(maxBytes, s, Batch(edits, result), s') && result.Buffered? && i < |edits|
    ensures |result.generations| == |edits| && Buffers(s', edits[i].key, result.generations[i])
  {
    hide BatchApplied;
    BatchAppliedAt(s.cache, edits, maxBytes, s'.cache, result);
    assert EditedIn(s.cache, edits, i, s'.cache);
  }

  // ----- an edit replaces what it was computed from -----

  /** An entry of an old, positive generation was there before with the same contents. */
  ghost predicate Inherits(s: Sys, s': Sys, k: Key) {
    k in s'.cache.entries && 0 < s'.cache.entries[k].generation < s.cache.nextGeneration ==>
      && k in s.cache.entries
      && s.cache.entries[k].generation == s'.cache.entries[k].generation
      && s.cache.entries[k].desired == s'.cache.entries[k].desired
  }

  lemma {:induction false} BatchInherits(
    maxBytes: nat, s: Sys, edits: seq<PreparedEdit>, result: BatchResult, s': Sys, k: Key)
    requires Inv(maxBytes, s) && Next(maxBytes, s, Batch(edits, result), s')
    ensures Inherits(s, s', k)
  {
    hide CleanInserted, BatchApplied, Carried, FlightsOk, OrphansOk, BasesKnown, LoadsOk, FetchesOk, Guarded,
         AllAirborneOk, TotalBytes;
    BatchAppliedAt(s.cache, edits, maxBytes, s'.cache, result);
    if result.Buffered? && k in EditKeys(edits) {
      var i :| 0 <= i < |edits| && EditKeys(edits)[i] == k;
      assert EditedIn(s.cache, edits, i, s'.cache);
    }
  }

  lemma {:induction false} FinishInherits(maxBytes: nat, s: Sys, step: Step, s': Sys, k: Key)
    requires Inv(maxBytes, s) && Next(maxBytes, s, step, s') && step.FinishFlush?
    ensures Inherits(s, s', k)
  {
    hide CacheOk, OrphansOk, BasesKnown, LoadsOk, FetchesOk, Guarded, Known, Recorded, Finished;
    if k in s.cache.entries {
      var e, f := s.cache.entries[k], s.flights[step.host];
      assert FlightOk(s, step.host, f);
      if k.host != step.host {
        OtherHostUntouched(s, step.host, step.reported, step.error, s', k);
      } else if e.inFlight.Some? {
        assert AirborneOk(s, k, e);
        var i :| FliesAs(f.items, i, k, e) && Carries(f.items[i], e);
        FinishedAt(s.cache.entries, f.items, step.reported, step.error, k, i);
      } else {
        FinishedGrounded(s.cache.entries, f.items, step.reported, step.error, k);
      }
    }
  }

  lemma {:induction false} OwnStepInherits(maxBytes: nat, s: Sys, step: Step, s': Sys, k: Key)
    requires Inv(maxBytes, s) && Next(maxBytes, s, step, s')
    requires !step.FinishLoad? && !step.PublishRead? && !step.Batch?
    requires !step.Script? && !step.RunOrphan? && !step.FinishFlush?
    ensures Inherits(s, s', k)
  {
    hide Inv, TakesEligible, HostConflict;
  }

  lemma {:induction false} StepInherits(maxBytes: nat, s: Sys, step: Step, s': Sys, k: Key)
    requires Inv(maxBytes, s) && Next(maxBytes, s, step, s')
    ensures Inherits(s, s', k)
  {
    hide CleanInserted, BatchApplied, Finished, Carried, FlightsOk, OrphansOk, BasesKnown,
         Guarded, TotalBytes, TakesEligible, HostConflict, AllAirborneOk, FlushLanded;
    match step {
      case FinishLoad(host) =>
        LoadPublishedAt(s.cache, s.preparing[host].key, s.preparing[host].snapshot.value, maxBytes, s'.cache);
      case PublishRead(key, snapshot) =>
        CleanInsertedAt(s.cache, key, snapshot, maxBytes, s'.cache);
      case Batch(edits, result) =>
        BatchInherits(maxBytes, s, edits, result, s', k);
      case Script(host) =>
        CarriedKeepsCache(s, s.flights[host].items[s.flights[host].done]);
      case RunOrphan(item) =>
        CarriedKeepsCache(s, item);
      case FinishFlush(_, _, _) =>
        FinishInherits(maxBytes, s, step, s', k);
      case _ =>
        OwnStepInherits(maxBytes, s, step, s', k);
    }
  }

  /** A positive generation identifies contents: whenever a path is cached at the same one, it holds the
      same. */
  lemma {:induction false} GenerationNamesContents(maxBytes: nat, run: Run, i: nat, n: nat, k: Key)
    requires IsRun(maxBytes, run) && i <= n < |run.states|
    requires k in run.states[i].cache.entries && k in run.states[n].cache.entries
    requires run.states[i].cache.entries[k].generation == run.states[n].cache.entries[k].generation > 0
    ensures run.states[i].cache.entries[k].desired == run.states[n].cache.entries[k].desired
    decreases n
  {
    hide Next;
    if i < n {
      Reachable(maxBytes, run, i);
      Reachable(maxBytes, run, n - 1);
      NextGenerationGrows(maxBytes, run, i, n - 1);
      assert EntryOk(run.states[i].cache.entries[k], run.states[i].cache.nextGeneration);
      StepInherits(maxBytes, run.states[n - 1], run.steps[n - 1], run.states[n], k);
      GenerationNamesContents(maxBytes, run, i, n - 1, k);
    }
  }

  lemma {:induction false} NextGenerationGrows(maxBytes: nat, run: Run, i: nat, n: nat)
    requires IsRun(maxBytes, run) && i <= n < |run.states|
    ensures run.states[i].cache.nextGeneration <= run.states[n].cache.nextGeneration
    decreases n
  {
    if i < n {
      hide Next;
      NextGenerationGrows(maxBytes, run, i, n - 1);
      HistoryGrows(maxBytes, run.states[n - 1], run.steps[n - 1], run.states[n]);
    }
  }

  /** No update is lost: a buffered edit replaces exactly the contents it was computed from, which an earlier
      state held at the generation the edit names. */
  lemma {:induction false} EditReplacesWhatItSaw(maxBytes: nat, run: Run, i: nat, n: nat, j: nat)
    requires IsRun(maxBytes, run) && i <= n < |run.steps|
    requires run.steps[n].Batch? && run.steps[n].result.Buffered? && j < |run.steps[n].edits|
    requires
      var edit := run.steps[n].edits[j];
      && edit.key in run.states[i].cache.entries && edit.expectedGeneration > 0
      && run.states[i].cache.entries[edit.key].generation == edit.expectedGeneration
    ensures
      var k := run.steps[n].edits[j].key;
      && k in run.states[n].cache.entries
      && run.states[n].cache.entries[k].desired == run.states[i].cache.entries[k].desired
  {
    BufferedIsPrepared(maxBytes, run, n, j);
    hide Next, BatchApplied;
    GenerationNamesContents(maxBytes, run, i, n, run.steps[n].edits[j].key);
  }

  lemma {:induction false} BufferedIsPrepared(maxBytes: nat, run: Run, n: nat, j: nat)
    requires IsRun(maxBytes, run) && n < |run.steps|
    requires run.steps[n].Batch? && run.steps[n].result.Buffered? && j < |run.steps[n].edits|
    ensures
      var edit, entries := run.steps[n].edits[j], run.states[n].cache.entries;
      edit.key in entries && entries[edit.key].generation == edit.expectedGeneration
  {
    hide CapacityMade, WithEdits, TotalBytes, LastEvicted;
    assert Next(maxBytes, run.states[n], run.steps[n], run.states[n + 1]);
  }

  // ----- commits replace only what the bridge knows -----

  /** With any writers interleaved, and with scripts that outlive an unknown outcome or are retried, a
      commit that replaced or removed a version did so to one the bridge had fetched from, or
      written to, that same path. */
  lemma {:induction false} CommitsReplaceOnlyKnownVersions(maxBytes: nat, run: Run, i: nat, j: nat)
    requires IsRun(maxBytes, run) && i < |run.states| && j < |run.states[i].history|
    requires run.states[i].history[j].Applied?
    ensures
      var history := run.states[i].history;
      history[j].replaced == NoFile
      || exists l :: 0 <= l < j && Shows(history[l], history[j].key, history[j].replaced)
  {
    Reachable(maxBytes, run, i);
    var history := run.states[i].history;
    assert Known(history[..j], history[j].key, history[j].replaced);
    if history[j].replaced != NoFile {
      var l :| 0 <= l < |history[..j]| && Shows(history[..j][l], history[j].key, history[j].replaced);
      assert history[l] == history[..j][l];
    }
  }

  // ----- flushing under the preparation lock -----

  /** Outside a running flush of its host no entry is in flight, and a conflict marks a dirty entry. */
  lemma {:induction false} InFlightOnlyDuringFlush(maxBytes: nat, run: Run, i: nat, k: Key)
    requires IsRun(maxBytes, run) && i < |run.states| && k in run.states[i].cache.entries
    ensures run.states[i].cache.entries[k].inFlight.Some? ==> k.host in run.states[i].flights
    ensures run.states[i].cache.entries[k].conflict.Some? ==> run.states[i].cache.entries[k].dirty
  {
    Reachable(maxBytes, run, i);
    assert AirborneOk(run.states[i], k, run.states[i].cache.entries[k]);
    assert EntryOk(run.states[i].cache.entries[k], run.states[i].cache.nextGeneration);
  }

  /** Every dirty entry of the host is in flight as it stands. */
  ghost predicate Sealed(s: Sys, host: string) {
    forall k :: k in s.cache.entries && k.host == host && s.cache.entries[k].dirty
      ==> s.cache.entries[k].inFlight == Some(s.cache.entries[k].generation)
  }

  lemma {:induction false} BeginSeals(maxBytes: nat, s: Sys, host: string, items: seq<CommitItem>, s': Sys)
    requires Inv(maxBytes, s) && Next(maxBytes, s, BeginFlush(host, items), s')
    ensures Sealed(s', host)
  {
    hide CacheOk, OrphansOk, BasesKnown, LoadsOk, FetchesOk, Guarded, FlightsOk;
    forall k | k in s.cache.entries && k.host == host ensures s.cache.entries[k].inFlight.None? {
      assert AirborneOk(s, k, s.cache.entries[k]);
    }
  }

  lemma {:induction false} BatchKeepsSeal(
      maxBytes: nat, s: Sys, edits: seq<PreparedEdit>, result: BatchResult, s': Sys, host: string)
    requires Inv(maxBytes, s) && Next(maxBytes, s, Batch(edits, result), s') && Sealed(s, host)
    requires host in s.preparing
    ensures Sealed(s', host)
  {
    hide CleanInserted, BatchApplied, Carried, FlightsOk, OrphansOk, BasesKnown, LoadsOk, FetchesOk, Guarded,
         TotalBytes;
    BatchAppliedAt(s.cache, edits, maxBytes, s'.cache, result);
    forall k | k in s'.cache.entries && k.host == host ensures s'.cache.entries[k] == s.cache.entries[k] {
      assert result.Buffered? ==> forall i :: 0 <= i < |edits| ==> edits[i].key.host == edits[0].key.host;
    }
  }

  lemma {:induction false} LandingKeepsSeal(maxBytes: nat, s: Sys, step: Step, s': Sys, host: string)
    requires Inv(maxBytes, s) && Next(maxBytes, s, step, s') && Sealed(s, host)
    requires step.FinishFlush? && step.host != host
    ensures Sealed(s', host)
  {
    hide Finished, CacheOk, AllAirborneOk, OrphansOk, BasesKnown, LoadsOk, FetchesOk, Guarded;
    forall k | k in s'.cache.entries && k.host == host ensures s'.cache.entries[k] == s.cache.entries[k] {
      OtherHostUntouched(s, step.host, step.reported, step.error, s', k);
    }
  }

  lemma {:induction false} SealKept(maxBytes: nat, s: Sys, step: Step, s': Sys, host: string)
    requires Inv(maxBytes, s) && Next(maxBytes, s, step, s') && Sealed(s, host)
    requires host in s.preparing && host in s.flights
    requires !(step.FinishFlush? && step.host == host)
    ensures Sealed(s', host)
  {
    hide CleanInserted, BatchApplied, Finished, Carried, FlightsOk, AllAirborneOk, OrphansOk, BasesKnown, LoadsOk,
         FetchesOk, Guarded, TotalBytes, TakesEligible, HostConflict, FlushLanded;
    match step {
      case FinishLoad(h) =>
        LoadPublishedAt(s.cache, s.preparing[h].key, s.preparing[h].snapshot.value, maxBytes, s'.cache);
      case PublishRead(key, snapshot) =>
        CleanInsertedAt(s.cache, key, snapshot, maxBytes, s'.cache);
      case Batch(edits, result) =>
        BatchKeepsSeal(maxBytes, s, edits, result, s', host);
      case Script(h) =>
        CarriedKeepsCache(s, s.flights[h].items[s.flights[h].done]);
      case RunOrphan(item) =>
        CarriedKeepsCache(s, item);
      case FinishFlush(h, reported, error) =>
        LandingKeepsSeal(maxBytes, s, step, s', host);
      case _ =>
    }
  }

  lemma {:induction false} OtherHostUntouched(
      s: Sys, host: string, reported: nat, error: Option<ErrorKind>, s': Sys, k: Key)
    requires FlightsOk(s) && FlushLanded(s, host, reported, error, s') && k in s.cache.entries && k.host != host
    ensures s'.cache.entries[k] == s.cache.entries[k]
  {
    hide Finished, Known, Recorded;
    assert FlightOk(s, host, s.flights[host]);
    assert !HasItem(s.flights[host].items, k) by {
      var items := s.flights[host].items;
      assert forall i :: 0 <= i < |items| ==> ItemOk(items[i], host, s.cache.nextGeneration);
    }
    FinishedGrounded(s.cache.entries, s.flights[host].items, reported, error, k);
  }

  lemma {:induction false} SealedLandsClean(maxBytes: nat, s: Sys, host: string, reported: nat, s': Sys)
    requires Inv(maxBytes, s) && Next(maxBytes, s, FinishFlush(host, reported, None), s') && Sealed(s, host)
    ensures !HostDirty(s'.cache.entries, host)
  {
    hide CacheOk, OrphansOk, BasesKnown, LoadsOk, FetchesOk, Guarded, Known, Recorded, Finished;
    var f := s.flights[host];
    assert FlightOk(s, host, f);
    forall k | k in s'.cache.entries && k.host == host ensures !s'.cache.entries[k].dirty {
      var e := s.cache.entries[k];
      if e.inFlight.Some? {
        assert AirborneOk(s, k, e);
        var i :| FliesAs(f.items, i, k, e) && Carries(f.items[i], e);
        FinishedAt(s.cache.entries, f.items, reported, None, k, i);
      } else {
        FinishedGrounded(s.cache.entries, f.items, reported, None, k);
      }
    }
  }

  /** The part of a run in which one flush of `host`, begun at `a`, is still under way at `b`, with the
      preparation lock of the host held since. */
  ghost predicate FlushUnderLock(run: Run, host: string, a: nat, b: nat)
    requires |run.states| == |run.steps| + 1
  {
    && a < b <= |run.steps|
    && run.steps[a].BeginFlush? && run.steps[a].host == host
    && forall j :: a < j < b ==>
         && host in run.states[j].preparing && host in run.states[j].flights
         && !(run.steps[j].FinishFlush? && run.steps[j].host == host)
  }

  lemma {:induction false} SealedUnderLock(maxBytes: nat, run: Run, host: string, a: nat, b: nat)
    requires IsRun(maxBytes, run) && FlushUnderLock(run, host, a, b)
    ensures Sealed(run.states[b], host)
  {
    hide Next, Inv;
    Reachable(maxBytes, run, b - 1);
    if b == a + 1 {
      BeginSeals(maxBytes, run.states[a], host, run.steps[a].items, run.states[b]);
    } else {
      SealedUnderLock(maxBytes, run, host, a, b - 1);
      SealKept(maxBytes, run.states[b - 1], run.steps[b - 1], run.states[b], host);
    }
  }

  /** With the preparation lock held, a flush that lands without error leaves the host clean: the
      barrier's flush loop never goes round twice. */
  lemma {:induction false} OneFlushUnderLockSuffices(maxBytes: nat, run: Run, host: string, a: nat, b: nat)
    requires IsRun(maxBytes, run) && FlushUnderLock(run, host, a, b) && b < |run.steps|
    requires run.steps[b].FinishFlush? && run.steps[b].host == host && run.steps[b].error.None?
    ensures !HostDirty(run.states[b + 1].cache.entries, host)
  {
    hide Inv;
    Reachable(maxBytes, run, b);
    SealedUnderLock(maxBytes, run, host, a, b);
    SealedLandsClean(maxBytes, run.states[b], host, run.steps[b].reported, run.states[b + 1]);
  }

  /** A flush with nothing to take finds the host clean already. */
  lemma {:induction false} IdleFlushIsClean(maxBytes: nat, run: Run, i: nat)
    requires IsRun(maxBytes, run) && i < |run.steps| && run.steps[i].FlushIdle?
    ensures !HostDirty(run.states[i].cache.entries, run.steps[i].host)
  {
    Reachable(maxBytes, run, i);
    var s, host := run.states[i], run.steps[i].host;
    assert Next(maxBytes, s, run.steps[i], run.states[i + 1]);
    forall k | k in s.cache.entries && k.host == host ensures !s.cache.entries[k].dirty {
      assert AirborneOk(s, k, s.cache.entries[k]);
      assert !HasItem([], k);
    }
  }

  // ----- what blocks a host -----

  /** Item `i` of the flush was not reported, and its entry is still in flight for it. */
  ghost predicate Unlanded(s: Sys, host: string, reported: nat, i: nat) {
    && host in s.flights && reported <= i < |s.flights[host].items|
    && s.flights[host].items[i].key in s.cache.entries
    && s.cache.entries[s.flights[host].items[i].key].inFlight == Some(s.flights[host].items[i].generation)
  }

  /** The end of a flush blocks its host if and only if it failed for good with something unreported that is not
      discarded; a transient failure leaves everything to be taken again. */
  lemma {:induction false} FlushBlocksIff(
    maxBytes: nat, s: Sys, host: string, reported: nat, error: Option<ErrorKind>, s': Sys)
    requires Inv(maxBytes, s) && Next(maxBytes, s, FinishFlush(host, reported, error), s')
    ensures HostConflict(s'.cache.entries, host) <==>
      || HostConflict(s.cache.entries, host)
      || (error.Some? && error != Some(Transient) && exists i: nat :: Unlanded(s, host, reported, i))
    ensures error == Some(Transient) ==> forall i: nat :: Unlanded(s, host, reported, i) ==>
      Eligible(s'.cache.entries[s.flights[host].items[i].key])
  {
    hide CacheOk, OrphansOk, BasesKnown, LoadsOk, FetchesOk, Guarded, Known, Recorded, Finished, AllAirborneOk;
    forall k | k in s.cache.entries && k.host == host ensures LandsAs(s, host, reported, error, s', k) {
      EntryLands(maxBytes, s, host, reported, error, s', k);
    }
    assert FlightOk(s, host, s.flights[host]);
    forall i: nat | Unlanded(s, host, reported, i)
      ensures s.flights[host].items[i].key in s.cache.entries && s.flights[host].items[i].key.host == host
    {
      UnlandedIsOfHost(maxBytes, s, host, reported, i);
      assert UnlandedAt(s, host, reported, s.flights[host].items[i].key);
    }
  }

  ghost predicate UnlandedAt(s: Sys, host: string, reported: nat, k: Key) {
    exists i: nat :: Unlanded(s, host, reported, i) && s.flights[host].items[i].key == k
  }

  /** What an entry of the host becomes, as far as conflicts go. */
  ghost predicate LandsAs(s: Sys, host: string, reported: nat, error: Option<ErrorKind>, s': Sys, k: Key) {
    && k in s.cache.entries && k in s'.cache.entries
    && (s'.cache.entries[k].conflict.Some? <==>
          || s.cache.entries[k].conflict.Some?
          || (error.Some? && error != Some(Transient) && UnlandedAt(s, host, reported, k)))
    && (error == Some(Transient) && UnlandedAt(s, host, reported, k) ==> Eligible(s'.cache.entries[k]))
  }

  lemma {:induction false} UnlandedIsOfHost(maxBytes: nat, s: Sys, host: string, reported: nat, i: nat)
    requires Inv(maxBytes, s) && Unlanded(s, host, reported, i)
    ensures s.flights[host].items[i].key in s.cache.entries && s.flights[host].items[i].key.host == host
  {
    hide CacheOk, OrphansOk, BasesKnown, LoadsOk, FetchesOk, Guarded, Known, Recorded, AllAirborneOk;
    assert FlightOk(s, host, s.flights[host]);
    assert ItemOk(s.flights[host].items[i], host, s.cache.nextGeneration);
  }

  lemma {:induction false} EntryLands(
    maxBytes: nat, s: Sys, host: string, reported: nat, error: Option<ErrorKind>, s': Sys, k: Key)
    requires Inv(maxBytes, s) && Next(maxBytes, s, FinishFlush(host, reported, error), s')
    requires k in s.cache.entries && k.host == host
    ensures LandsAs(s, host, reported, error, s', k)
  {
    hide OrphansOk, BasesKnown, LoadsOk, FetchesOk, Guarded, Known, Recorded, Finished, TotalBytes;
    var e, f := s.cache.entries[k], s.flights[host];
    assert FlightOk(s, host, f) && EntryOk(e, s.cache.nextGeneration);
    if e.inFlight.Some? {
      assert AirborneOk(s, k, e);
      var i: nat :| FliesAs(f.items, i, k, e) && Carries(f.items[i], e);
      FinishedAt(s.cache.entries, f.items, reported, error, k, i);
      assert reported <= i ==> Unlanded(s, host, reported, i);
      assert forall j: nat :: j < |f.items| && f.items[j].key == k ==> j == i;
    } else {
      FinishedGrounded(s.cache.entries, f.items, reported, error, k);
    }
  }

  /** A retry unblocks a host if and only if all its conflicts are unknown outcomes, and what it unblocks will be
      taken again. */
  lemma {:induction false} RetryUnblocksIff(entries: Entries, host: string)
    ensures HostConflict(Retried(entries, host), host) <==>
      exists k ::
        && k in entries && k.host == host
        && entries[k].conflict.Some? && entries[k].conflict != Some(OutcomeUnknown)
    ensures forall k :: k in entries && k.host == host && entries[k].conflict == Some(OutcomeUnknown) ==>
      Retried(entries, host)[k].dirty && Retried(entries, host)[k].desired == entries[k].desired
  {
    var retried := Retried(entries, host);
    forall k | k in entries && k.host == host
      ensures retried[k].conflict.Some? <==> entries[k].conflict.Some? && entries[k].conflict != Some(OutcomeUnknown)
    {
    }
  }
}
