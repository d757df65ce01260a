/** With no other writer, the cache over its remote is indistinguishable from a store that writes
    every edit through at once. */
module EditRefinement {
  import opened Common
  import opened EditTypes
  import opened EditFacts
  import opened EditProtocol
  import opened EditInvariants
  import opened EditSafety
  import opened EditTheorems
  import opened EditReads

  /** What the bridge shows for a path: the cached contents, else what a fetch would find. */
  function View(s: Sys, k: Key): Version {
    if k in s.cache.entries then DesiredVersion(s.cache.entries[k].desired) else VersionAt(s.remote, k)
  }

  /** The remote is as the snapshot has it, for a path about to be cached. */
  predicate FreshRead(s: Sys, key: Key, snapshot: Snapshot) {
    key in s.cache.entries || VersionAt(s.remote, key) == BaseVersion(snapshot.base)
  }

  /** The entry of the item is still in flight for it. */
  predicate Awaited(s: Sys, item: CommitItem) {
    item.key in s.cache.entries && s.cache.entries[item.key].inFlight == Some(item.generation)
  }

  /** The entry is in flight for the item and has not been edited since. */
  predicate Current(s: Sys, item: CommitItem) {
    Awaited(s, item) && s.cache.entries[item.key].generation == item.generation
  }

  /** A running flush has done what the entry of the path holds. */
  ghost predicate Committed(s: Sys, k: Key) {
    exists host, i: nat ::
      DoneItem(s, host, i) && s.flights[host].items[i].key == k && Current(s, s.flights[host].items[i])
  }

  predicate DoneItem(s: Sys, host: string, i: nat) {
    host in s.flights && i < s.flights[host].done && i < |s.flights[host].items|
  }

  /** An item that no entry is in flight for may still be carried out if it stops at its guard, if it writes
      what is there already, or if its path is cached and dirty and no running flush has done what is cached. */
  ghost predicate Harmless(s: Sys, item: CommitItem) {
    || Carried(s, item).None?
    || VersionAt(s.remote, item.key) == DesiredVersion(item.desired)
    || (item.key in s.cache.entries && s.cache.entries[item.key].dirty && !Committed(s, item.key))
  }

  /** What a script turns to for nobody who awaits it: after its flush, or for an edit discarded meanwhile. */
  function LateItem(s: Sys, step: Step): Option<CommitItem> {
    match step
    case RunOrphan(item) => Some(item)
    case Script(host) =>
      var item := NextItem(s, host);
      if item.Some? && !Awaited(s, item.value) then item else None
    case _ => None
  }

  /** No other writer, and no late write but harmless ones. */
  ghost predicate Calm(s: Sys, step: Step) {
    !step.Intrude? && (LateItem(s, step).Some? ==> Harmless(s, LateItem(s, step).value))
  }

  /** The item that the script of the host's flush turns to next. */
  function NextItem(s: Sys, host: string): Option<CommitItem> {
    if host in s.flights && s.flights[host].done < |s.flights[host].items|
    then Some(s.flights[host].items[s.flights[host].done])
    else None
  }

  /** The step inserts the result of an earlier read. */
  predicate Publishes(s: Sys, step: Step, s': Sys) {
    step.PublishRead? && step.key !in s.cache.entries && step.key in s'.cache.entries
  }

  /** A read result is published only if no commit of the bridge has overtaken the read. */
  ghost predicate Timely(s: Sys, step: Step, s': Sys) {
    Publishes(s, step, s') ==> exists j :: ReadSince(s.history, j, step.key, step.snapshot)
  }

  /** The `j`-th event is the read, and the last commit on its path since then, if any, wrote the same. */
  predicate ReadSince(history: seq<Event>, j: nat, key: Key, snapshot: Snapshot) {
    IsFetch(history, j, key, snapshot) && NotOvertaken(history, j, key, snapshot)
  }

  ghost predicate Quiet(s: Sys, step: Step, s': Sys) {
    Calm(s, step) && Timely(s, step, s')
  }

  ghost predicate CalmRun(maxBytes: nat, run: Run) {
    IsRun(maxBytes, run) && forall i :: 0 <= i < |run.steps| ==> Calm(run.states[i], run.steps[i])
  }

  ghost predicate QuietRun(maxBytes: nat, run: Run) {
    CalmRun(maxBytes, run)
    && forall i :: 0 <= i < |run.steps| ==> Timely(run.states[i], run.steps[i], run.states[i + 1])
  }

  /** Nobody else has written anything. */
  predicate Alone(history: seq<Event>) {
    forall i :: 0 <= i < |history| ==> !history[i].Intruded?
  }

  lemma {:induction false} AloneAlways(maxBytes: nat, run: Run, n: nat)
    requires CalmRun(maxBytes, run) && n < |run.states|
    ensures Alone(run.states[n].history)
  {
    if n > 0 {
      hide Next, Carried;
      AloneAlways(maxBytes, run, n - 1);
      AloneKept(maxBytes, run.states[n - 1], run.steps[n - 1], run.states[n]);
    }
  }

  lemma {:induction false} AloneKept(maxBytes: nat, s: Sys, step: Step, s': Sys)
    requires Alone(s.history) && Next(maxBytes, s, step, s') && !step.Intrude?
    ensures Alone(s'.history)
  {
    hide CleanInserted, BatchApplied, Finished, TakesEligible, HostConflict, Fetch;
  }

  /** A timely read is fresh. */
  lemma {:induction false} TimelyIsFresh(s: Sys, step: Step, s': Sys)
    requires Traced(s) && Alone(s.history) && Publishes(s, step, s') && Timely(s, step, s')
    ensures FreshRead(s, step.key, step.snapshot)
  {
    hide After, VersionAt, BaseVersion;
    var j: nat :| ReadSince(s.history, j, step.key, step.snapshot);
    assert Undisturbed(s.history[j + 1..], step.key);
  }

  /** The write-through store: a buffered edit is in it at once, and a discard gives up the edits
      of its host that have not reached the remote. */
  ghost function Store(run: Run, n: nat, k: Key): Version
    requires n <= |run.steps| < |run.states|
  {
    if n == 0 then VersionAt(run.states[0].remote, k)
    else
      match run.steps[n - 1]
      case Batch(edits, Buffered(_)) => LastEdit(edits, k, Store(run, n - 1, k))
      case Discard(host) => if k.host == host then VersionAt(run.states[n - 1].remote, k) else Store(run, n - 1, k)
      case _ => Store(run, n - 1, k)
  }

  function LastEdit(edits: seq<PreparedEdit>, k: Key, otherwise: Version): Version {
    if edits == [] then otherwise
    else if edits[|edits| - 1].key == k then DesiredVersion(edits[|edits| - 1].desired)
    else LastEdit(edits[..|edits| - 1], k, otherwise)
  }

  lemma {:induction false} LastEditAt(edits: seq<PreparedEdit>, k: Key, otherwise: Version)
    requires DistinctKeys(edits)
    ensures forall i :: 0 <= i < |edits| && edits[i].key == k ==>
      LastEdit(edits, k, otherwise) == DesiredVersion(edits[i].desired)
    ensures k !in EditKeys(edits) ==> LastEdit(edits, k, otherwise) == otherwise
  {
    if edits != [] {
      var most := edits[..|edits| - 1];
      LastEditAt(most, k, otherwise);
      assert EditKeys(edits) == EditKeys(most) + [edits[|edits| - 1].key];
    }
  }

  // ----- the coupling invariant -----

  ghost predicate CleanMatches(s: Sys) {
    forall k :: k in s.cache.entries && !s.cache.entries[k].dirty
      ==> VersionAt(s.remote, k) == DesiredVersion(s.cache.entries[k].desired)
  }

  /** The items of a running flush that are done and still current are on the remote. */
  ghost predicate FlightMatches(s: Sys, f: Flight) {
    forall i :: 0 <= i < f.done && i < |f.items| && Current(s, f.items[i]) ==>
      VersionAt(s.remote, f.items[i].key) == DesiredVersion(f.items[i].desired)
  }

  ghost predicate FlightsMatch(s: Sys) {
    forall host :: host in s.flights ==> FlightMatches(s, s.flights[host])
  }

  /** A path being loaded is not dirty, and what was fetched is still there. */
  ghost predicate LoadsMatch(s: Sys) {
    forall host :: Loads(s, host) ==>
      var key := s.preparing[host].key;
      && (key in s.cache.entries ==> !s.cache.entries[key].dirty)
      && (s.preparing[host].snapshot.Some? ==>
            VersionAt(s.remote, key) == BaseVersion(s.preparing[host].snapshot.value.base))
  }

  ghost predicate Coupled(s: Sys) {
    CleanMatches(s) && FlightsMatch(s) && LoadsMatch(s)
  }

  // ----- steps that insert a snapshot -----

  lemma {:induction false} SnapshotVersions(snapshot: Snapshot)
    requires SnapshotOk(snapshot)
    ensures DesiredVersion(snapshot.desired) == BaseVersion(snapshot.base)
  {
  }

  /** Inserting a current snapshot, evicting as needed, changes no view and keeps the coupling. */
  lemma {:induction false} InsertCoupled(maxBytes: nat, s: Sys, key: Key, snapshot: Snapshot, s': Sys)
    requires Inv(maxBytes, s) && Coupled(s) && SnapshotOk(snapshot)
    requires InsertedAt(s.cache, key, snapshot, s'.cache)
    requires key in s'.cache.entries ==> FreshRead(s, key, snapshot)
    requires s'.remote == s.remote && s'.flights == s.flights
    requires forall host :: Loads(s', host) ==> Loads(s, host) && s'.preparing[host] == s.preparing[host]
    ensures Coupled(s')
    ensures forall k :: View(s', k) == View(s, k)
  {
    hide CacheOk, OrphansOk, BasesKnown, LoadsOk, FetchesOk, Guarded, FlightOk;
    SnapshotVersions(snapshot);
    forall host | host in s'.flights ensures FlightMatches(s', s'.flights[host]) {
      assert FlightMatches(s, s.flights[host]);
    }
  }

  // ----- batches -----

  lemma {:induction false} BatchCoupled(maxBytes: nat, s: Sys, edits: seq<PreparedEdit>, result: BatchResult, s': Sys)
    requires Inv(maxBytes, s) && Coupled(s) && Next(maxBytes, s, Batch(edits, result), s')
    ensures Coupled(s')
    ensures forall k :: View(s', k) == if result.Buffered? then LastEdit(edits, k, View(s, k)) else View(s, k)
  {
    hide CacheOk, OrphansOk, BasesKnown, FetchesOk, Guarded, BatchApplied, FlightOk, LastEdit, Prepared, AllAirborneOk;
    BatchAppliedAt(s.cache, edits, maxBytes, s'.cache, result);
    forall k ensures View(s', k) == if result.Buffered? then LastEdit(edits, k, View(s, k)) else View(s, k) {
      if result.Buffered? {
        LastEditAt(edits, k, View(s, k));
        if k in EditKeys(edits) {
          var i :| 0 <= i < |edits| && EditKeys(edits)[i] == k;
          assert EditedIn(s.cache, edits, i, s'.cache);
        }
      }
    }
    EntriesAreOk(s.cache, maxBytes);
    BatchKeepsMatches(s, edits, result, s');
  }

  lemma {:induction false} EntriesAreOk(c: Cache, maxBytes: nat)
    requires CacheOk(c, maxBytes)
    ensures forall k :: k in c.entries ==> EntryOk(c.entries[k], c.nextGeneration)
  {
  }

  lemma {:induction false} BatchKeepsMatches(s: Sys, edits: seq<PreparedEdit>, result: BatchResult, s': Sys)
    requires Coupled(s) && LoadsOk(s) && s' == s.(cache := s'.cache)
    requires forall k :: k in s.cache.entries ==> EntryOk(s.cache.entries[k], s.cache.nextGeneration)
    requires edits != [] ==> edits[0].key.host !in s.preparing
    requires result.Buffered? ==>
      OneHost(edits) && forall i :: 0 <= i < |edits| ==> EditedIn(s.cache, edits, i, s'.cache)
    requires forall k :: k in s'.cache.entries ==> k in s.cache.entries
    requires forall k :: k in s'.cache.entries && !(result.Buffered? && k in EditKeys(edits)) ==>
      s'.cache.entries[k] == s.cache.entries[k]
    requires forall k :: k in s.cache.entries && k !in s'.cache.entries ==>
      !s.cache.entries[k].dirty && s.cache.entries[k].inFlight.None?
    ensures Coupled(s')
  {
    forall k | k in s'.cache.entries
      ensures s'.cache.entries[k].inFlight == s.cache.entries[k].inFlight
      ensures s'.cache.entries[k] == s.cache.entries[k] || (s'.cache.entries[k].dirty && k.host !in s.preparing)
      ensures s'.cache.entries[k] == s.cache.entries[k] || s'.cache.entries[k].generation >= s.cache.nextGeneration
    {
      if result.Buffered? && k in EditKeys(edits) {
        var i :| 0 <= i < |edits| && EditKeys(edits)[i] == k;
        assert EditedIn(s.cache, edits, i, s'.cache);
        assert edits[i].key.host == edits[0].key.host;
      }
    }
    forall host | host in s'.flights ensures FlightMatches(s', s'.flights[host]) {
      assert FlightMatches(s, s.flights[host]);
      assert forall item :: Current(s', item) ==> Current(s, item);
    }
  }

  // ----- flushes -----

  lemma {:induction false} BeginCoupled(maxBytes: nat, s: Sys, host: string, items: seq<CommitItem>, s': Sys)
    requires Inv(maxBytes, s) && Coupled(s) && Next(maxBytes, s, BeginFlush(host, items), s')
    ensures Coupled(s') && forall k :: View(s', k) == View(s, k)
  {
    hide CacheOk, OrphansOk, BasesKnown, LoadsOk, FetchesOk, Guarded, Known, Recorded;
    forall h | h in s'.flights ensures FlightMatches(s', s'.flights[h]) {
      if h != host {
        assert FlightOk(s, h, s.flights[h]) && FlightMatches(s, s.flights[h]);
        assert forall i :: 0 <= i < |s.flights[h].items| ==> ItemOk(s.flights[h].items[i], h, s.cache.nextGeneration);
      }
    }
  }

  /** An item of one flush is no item of another, nor a path being loaded. */
  lemma {:induction false} ItemsApart(maxBytes: nat, s: Sys, host: string, i: nat)
    requires Inv(maxBytes, s) && Coupled(s) && host in s.flights && i < |s.flights[host].items|
    requires Awaited(s, s.flights[host].items[i])
    ensures
      var k := s.flights[host].items[i].key;
      && k in s.cache.entries && s.cache.entries[k].dirty && k.host == host
      && (forall h :: Loads(s, h) ==> s.preparing[h].key != k)
      && (forall h, j :: h in s.flights && 0 <= j < |s.flights[h].items| && s.flights[h].items[j].key == k
            ==> h == host && j == i)
  {
    hide OrphansOk, BasesKnown, LoadsOk, FetchesOk, Guarded, Known, Recorded, TotalBytes;
    var f := s.flights[host];
    assert FlightOk(s, host, f) && FlightMatches(s, f) && ItemOk(f.items[i], host, s.cache.nextGeneration);
    assert EntryOk(s.cache.entries[f.items[i].key], s.cache.nextGeneration);
    forall h, j | h in s.flights && 0 <= j < |s.flights[h].items| && s.flights[h].items[j].key == f.items[i].key
      ensures h == host && j == i
    {
      assert FlightOk(s, h, s.flights[h]) && ItemOk(s.flights[h].items[j], h, s.cache.nextGeneration);
    }
  }

  lemma {:induction false} ScriptCoupled(maxBytes: nat, s: Sys, host: string, s': Sys)
    requires Inv(maxBytes, s) && Coupled(s) && Next(maxBytes, s, Script(host), s')
    requires NextItem(s, host).Some? && Awaited(s, NextItem(s, host).value)
    ensures Coupled(s') && forall k :: View(s', k) == View(s, k)
  {
    hide CacheOk, OrphansOk, BasesKnown, LoadsOk, FetchesOk, Guarded, Carried, Known, Recorded, VersionAt;
    var f := s.flights[host];
    var item := f.items[f.done];
    ItemsApart(maxBytes, s, host, f.done);
    CarriedKeepsCache(s, item);
    assert FlightOk(s, host, f) && ItemOk(item, host, s.cache.nextGeneration);
    ScriptItemComparesAndSwaps(s, item);
    forall k | k != item.key ensures VersionAt(s'.remote, k) == VersionAt(s.remote, k) {
      SameNodeSameVersion(s.remote, s'.remote, k);
    }
    forall h | h in s'.flights ensures FlightMatches(s', s'.flights[h]) {
      assert FlightMatches(s, s.flights[h]);
      assert s'.flights[h].items == s.flights[h].items;
    }
  }

  // ----- late writes -----

  /** `s'` is `s` with `item` carried out, if its guard holds, for nobody who awaits it: the cache stays, and
      what flushes have done since is not awaited. */
  ghost predicate LateWrite(s: Sys, item: CommitItem, s': Sys) {
    && s'.cache == s.cache && s'.preparing == s.preparing
    && s'.remote == (if Carried(s, item).Some? then Carried(s, item).value.remote else s.remote)
    && s'.flights.Keys == s.flights.Keys
    && forall host :: host in s.flights ==>
         && s'.flights[host].items == s.flights[host].items && s.flights[host].done <= s'.flights[host].done
         && forall i :: s.flights[host].done <= i < s'.flights[host].done && i < |s.flights[host].items| ==>
              !Awaited(s, s.flights[host].items[i])
  }

  /** A late write goes unnoticed, now and later, if and only if it is harmless. */
  lemma {:induction false} LateWriteUnnoticedIff(s: Sys, item: CommitItem, s': Sys)
    requires Coupled(s) && item.desiredSha256 == DigestOf(item.desired) && LateWrite(s, item, s')
    ensures Coupled(s') && (forall k :: View(s', k) == View(s, k)) <==> Harmless(s, item)
  {
    hide Carried, VersionAt, DesiredVersion;
    LateWriteReaches(s, item, s');
    if Harmless(s, item) {
      forall h | h in s'.flights ensures FlightMatches(s', s'.flights[h]) {
        HarmlessToFlight(s, item, s', h);
      }
    } else if Coupled(s') && forall k :: View(s', k) == View(s, k) {
      assert View(s', item.key) == View(s, item.key);
      HarmlessIfUnnoticed(s, item, s');
    }
  }

  /** A late write changes at most the version of its own path. */
  lemma {:induction false} LateWriteReaches(s: Sys, item: CommitItem, s': Sys)
    requires item.desiredSha256 == DigestOf(item.desired) && LateWrite(s, item, s')
    ensures forall k :: k != item.key ==> VersionAt(s'.remote, k) == VersionAt(s.remote, k)
    ensures VersionAt(s'.remote, item.key)
         == if Carried(s, item).Some? then DesiredVersion(item.desired) else VersionAt(s.remote, item.key)
  {
    hide Carried, VersionAt;
    ScriptItemComparesAndSwaps(s, item);
    forall k | k != item.key ensures VersionAt(s'.remote, k) == VersionAt(s.remote, k) {
      SameNodeSameVersion(s.remote, s'.remote, k);
    }
  }

  lemma {:induction false} HarmlessToFlight(s: Sys, item: CommitItem, s': Sys, host: string)
    requires Coupled(s) && item.desiredSha256 == DigestOf(item.desired) && LateWrite(s, item, s')
    requires Harmless(s, item) && host in s.flights
    ensures FlightMatches(s', s'.flights[host])
  {
    hide Carried, VersionAt, DesiredVersion;
    LateWriteReaches(s, item, s');
    assert FlightMatches(s, s.flights[host]);
    var f := s'.flights[host];
    forall i | 0 <= i < f.done && i < |f.items| && Current(s', f.items[i])
      ensures VersionAt(s'.remote, f.items[i].key) == DesiredVersion(f.items[i].desired)
    {
      assert DoneItem(s, host, i);
    }
  }

  lemma {:induction false} HarmlessIfUnnoticed(s: Sys, item: CommitItem, s': Sys)
    requires Coupled(s) && item.desiredSha256 == DigestOf(item.desired) && LateWrite(s, item, s')
    requires Coupled(s') && View(s', item.key) == View(s, item.key)
    ensures Harmless(s, item)
  {
    hide Carried, VersionAt, DesiredVersion;
    LateWriteReaches(s, item, s');
    if Committed(s, item.key) {
      var host, i: nat :|
        DoneItem(s, host, i) && s.flights[host].items[i].key == item.key && Current(s, s.flights[host].items[i]);
      assert FlightMatches(s, s.flights[host]) && FlightMatches(s', s'.flights[host]);
    }
  }

  /** A late item makes a late write. */
  lemma {:induction false} LateItemWrites(maxBytes: nat, s: Sys, step: Step, s': Sys)
    requires Inv(maxBytes, s) && Next(maxBytes, s, step, s') && LateItem(s, step).Some?
    ensures var item := LateItem(s, step).value;
            item.desiredSha256 == DigestOf(item.desired) && LateWrite(s, item, s')
  {
    hide CacheOk, BasesKnown, LoadsOk, FetchesOk, Guarded, AllAirborneOk, Carried, Known, Recorded;
    var item := LateItem(s, step).value;
    CarriedKeepsCache(s, item);
    if step.Script? {
      assert FlightOk(s, step.host, s.flights[step.host]) && ItemOk(item, step.host, s.cache.nextGeneration);
    }
  }

  lemma {:induction false} OrphanCoupled(maxBytes: nat, s: Sys, item: CommitItem, s': Sys)
    requires Inv(maxBytes, s) && Coupled(s) && Next(maxBytes, s, RunOrphan(item), s') && Harmless(s, item)
    ensures Coupled(s') && forall k :: View(s', k) == View(s, k)
  {
    hide Inv, Next, Harmless, Coupled;
    LateItemWrites(maxBytes, s, RunOrphan(item), s');
    LateWriteUnnoticedIff(s, item, s');
  }

  /** The script of a running flush, at an item still awaited or at a harmless one. */
  lemma {:induction false} CalmScriptCoupled(maxBytes: nat, s: Sys, host: string, s': Sys)
    requires Inv(maxBytes, s) && Coupled(s) && Next(maxBytes, s, Script(host), s') && Calm(s, Script(host))
    ensures Coupled(s') && forall k :: View(s', k) == View(s, k)
  {
    hide Inv, Harmless, Coupled, Carried;
    var item := NextItem(s, host).value;
    if Awaited(s, item) {
      ScriptCoupled(maxBytes, s, host, s');
    } else {
      LateItemWrites(maxBytes, s, Script(host), s');
      LateWriteUnnoticedIff(s, item, s');
    }
  }

  /** The script of a flush whose outcome is unknown may go on unnoticed for as long as its edit is neither
      discarded nor retried. */
  lemma {:induction false} UnknownOutcomeIsHarmless(maxBytes: nat, s: Sys, item: CommitItem)
    requires Inv(maxBytes, s) && item.key in s.cache.entries && s.cache.entries[item.key].conflict.Some?
    requires item.key.host !in s.flights
    ensures Harmless(s, item)
  {
    hide OrphansOk, BasesKnown, LoadsOk, FetchesOk, Guarded, AllAirborneOk, Carried, Known, Recorded, TotalBytes;
    assert EntryOk(s.cache.entries[item.key], s.cache.nextGeneration);
    forall host, i: nat | DoneItem(s, host, i) ensures s.flights[host].items[i].key != item.key {
      assert FlightOk(s, host, s.flights[host]) && ItemOk(s.flights[host].items[i], host, s.cache.nextGeneration);
    }
  }

  lemma {:induction false} SameNodeSameVersion(remote: Remote, remote': Remote, k: Key)
    requires At(remote, k) == At(remote', k)
    ensures VersionAt(remote, k) == VersionAt(remote', k)
  {
  }

  /** One entry across the end of a flush, under the coupling. */
  lemma {:induction false} FinishEntryCoupled(
    maxBytes: nat, s: Sys, host: string, reported: nat, error: Option<ErrorKind>, s': Sys, k: Key)
    requires Inv(maxBytes, s) && Coupled(s) && Next(maxBytes, s, FinishFlush(host, reported, error), s')
    requires k in s.cache.entries
    ensures s'.cache.entries[k].desired == s.cache.entries[k].desired
    ensures !s'.cache.entries[k].dirty ==> VersionAt(s.remote, k) == DesiredVersion(s.cache.entries[k].desired)
    ensures s'.cache.entries[k].dirty ==> s.cache.entries[k].dirty
    ensures k.host != host ==> s'.cache.entries[k] == s.cache.entries[k]
  {
    hide CacheOk, OrphansOk, BasesKnown, LoadsOk, FetchesOk, Guarded, Known, Recorded, Finished, VersionAt;
    var e, f := s.cache.entries[k], s.flights[host];
    assert FlightOk(s, host, f) && FlightMatches(s, f);
    if k.host != host {
      OtherHostUntouched(s, host, reported, error, s', k);
    } else if e.inFlight.Some? {
      assert AirborneOk(s, k, e);
      var i :| FliesAs(f.items, i, k, e) && Carries(f.items[i], e);
      FinishedAt(s.cache.entries, f.items, reported, error, k, i);
    } else {
      FinishedGrounded(s.cache.entries, f.items, reported, error, k);
    }
  }

  lemma {:induction false} FinishCoupled(
      maxBytes: nat, s: Sys, host: string, reported: nat, error: Option<ErrorKind>, s': Sys)
    requires Inv(maxBytes, s) && Coupled(s) && Next(maxBytes, s, FinishFlush(host, reported, error), s')
    ensures Coupled(s') && forall k :: View(s', k) == View(s, k)
  {
    hide CacheOk, OrphansOk, BasesKnown, LoadsOk, FetchesOk, Guarded, Known, Recorded, Finished, VersionAt,
         AllAirborneOk;
    forall k | k in s.cache.entries
      ensures s'.cache.entries[k].desired == s.cache.entries[k].desired
      ensures !s'.cache.entries[k].dirty ==> VersionAt(s.remote, k) == DesiredVersion(s.cache.entries[k].desired)
      ensures s'.cache.entries[k].dirty ==> s.cache.entries[k].dirty
      ensures k.host != host ==> s'.cache.entries[k] == s.cache.entries[k]
    {
      FinishEntryCoupled(maxBytes, s, host, reported, error, s', k);
    }
    forall h | h in s'.flights ensures FlightMatches(s', s'.flights[h]) {
      assert FlightOk(s, h, s.flights[h]) && FlightMatches(s, s.flights[h]);
      assert forall i :: 0 <= i < |s.flights[h].items| ==> ItemOk(s.flights[h].items[i], h, s.cache.nextGeneration);
    }
  }

  // ----- invalidation, discarding, retrying -----

  lemma {:induction false} InvalidateCoupled(s: Sys, host: string, s': Sys)
    requires Coupled(s) && s' == s.(cache := s.cache.(entries := Invalidated(s.cache.entries, host)))
    ensures Coupled(s') && forall k :: View(s', k) == View(s, k)
  {
    hide VersionAt;
    forall h | h in s'.flights ensures FlightMatches(s', s'.flights[h]) {
      assert FlightMatches(s, s.flights[h]);
    }
  }

  lemma {:induction false} DiscardCoupled(s: Sys, host: string, s': Sys)
    requires Coupled(s) && s' == s.(cache := s.cache.(entries := Discarded(s.cache.entries, host)))
    ensures Coupled(s')
    ensures forall k :: View(s', k) == if k.host == host then VersionAt(s.remote, k) else View(s, k)
  {
    hide VersionAt;
    forall h | h in s'.flights ensures FlightMatches(s', s'.flights[h]) {
      assert FlightMatches(s, s.flights[h]);
    }
  }

  lemma {:induction false} RetryCoupled(maxBytes: nat, s: Sys, host: string, s': Sys)
    requires Inv(maxBytes, s) && Coupled(s)
    requires s' == s.(cache := s.cache.(entries := Retried(s.cache.entries, host)))
    ensures Coupled(s') && forall k :: View(s', k) == View(s, k)
  {
    hide OrphansOk, BasesKnown, LoadsOk, FetchesOk, Guarded, FlightOk, VersionAt, TotalBytes;
    assert forall k :: k in s.cache.entries ==> EntryOk(s.cache.entries[k], s.cache.nextGeneration);
    assert forall k :: k in s.cache.entries ==> s'.cache.entries[k].dirty == s.cache.entries[k].dirty;
    forall h | h in s'.flights ensures FlightMatches(s', s'.flights[h]) {
      assert FlightMatches(s, s.flights[h]);
    }
  }

  /** Steps that touch neither the remote, nor a flight, nor an entry beyond its LRU number. */
  lemma {:induction false} IdleCoupled(s: Sys, s': Sys)
    requires Coupled(s) && s'.remote == s.remote && s'.flights == s.flights
    requires s'.cache.entries.Keys == s.cache.entries.Keys
    requires forall k :: k in s.cache.entries ==>
      s'.cache.entries[k] == s.cache.entries[k].(lru := s'.cache.entries[k].lru)
    requires forall host :: Loads(s', host) ==>
      || (Loads(s, host) && s'.preparing[host] == s.preparing[host])
      || (var l := s'.preparing[host];
          && (l.key in s.cache.entries ==> !s.cache.entries[l.key].dirty)
          && (l.snapshot.Some? ==> VersionAt(s.remote, l.key) == BaseVersion(l.snapshot.value.base)))
    ensures Coupled(s') && forall k :: View(s', k) == View(s, k)
  {
    hide VersionAt;
    forall h | h in s'.flights ensures FlightMatches(s', s'.flights[h]) {
      assert FlightMatches(s, s.flights[h]);
    }
  }

  // ----- the simulation -----

  /** What a step does to the write-through store. */
  ghost function StoreStep(s: Sys, step: Step, k: Key, before: Version): Version {
    match step
    case Batch(edits, Buffered(_)) => LastEdit(edits, k, before)
    case Discard(host) => if k.host == host then VersionAt(s.remote, k) else before
    case _ => before
  }

  lemma {:induction false} StepSimulates(maxBytes: nat, s: Sys, step: Step, s': Sys)
    requires Inv(maxBytes, s) && Traced(s) && Alone(s.history) && Coupled(s)
    requires Next(maxBytes, s, step, s') && Quiet(s, step, s')
    ensures Coupled(s')
    ensures forall k :: View(s', k) == StoreStep(s, step, k, View(s, k))
  {
    hide Inv, Coupled, Traced, Alone, Timely, BatchApplied, CleanInserted, View, LastEdit, VersionAt, TakesEligible,
         HostConflict,
         Finished, MarkedInFlight, Invalidated, Discarded, Retried, Carried, Harmless;
    match step
    case FinishLoad(host) =>
      LoadInserts(maxBytes, s, host, s');
    case PublishRead(key, snapshot) =>
      if Publishes(s, step, s') {
        TimelyIsFresh(s, step, s');
      }
      ReadInserts(maxBytes, s, key, snapshot, s');
    case Batch(edits, result) => BatchCoupled(maxBytes, s, edits, result, s');
    case BeginFlush(host, items) => BeginCoupled(maxBytes, s, host, items, s');
    case Script(host) => CalmScriptCoupled(maxBytes, s, host, s');
    case RunOrphan(item) => OrphanCoupled(maxBytes, s, item, s');
    case FinishFlush(host, reported, error) => FinishCoupled(maxBytes, s, host, reported, error, s');
    case Invalidate(host) => InvalidateCoupled(s, host, s');
    case Discard(host) => DiscardCoupled(s, host, s');
    case Retry(host) => RetryCoupled(maxBytes, s, host, s');
    case FetchLoad(host) => FetchCoupled(s, host, s');
    case _ => IdleCoupled(s, s');
  }

  lemma {:induction false} FetchCoupled(s: Sys, host: string, s': Sys)
    requires Coupled(s) && Next(0, s, FetchLoad(host), s')
    ensures Coupled(s') && forall k :: View(s', k) == View(s, k)
  {
    hide VersionAt, Fetch;
    assert Loads(s, host);
    IdleCoupled(s, s');
  }

  lemma {:induction false} LoadInserts(maxBytes: nat, s: Sys, host: string, s': Sys)
    requires Inv(maxBytes, s) && Coupled(s) && Next(maxBytes, s, FinishLoad(host), s')
    ensures Coupled(s') && forall k :: View(s', k) == View(s, k)
  {
    hide CleanInserted, VersionAt, CacheOk, OrphansOk, BasesKnown, AllAirborneOk, FlightsOk, Guarded, FlightsMatch,
         CleanMatches;
    assert Loads(s, host);
    LoadPublishedAt(s.cache, s.preparing[host].key, s.preparing[host].snapshot.value, maxBytes, s'.cache);
    InsertCoupled(maxBytes, s, s.preparing[host].key, s.preparing[host].snapshot.value, s');
  }

  lemma {:induction false} ReadInserts(maxBytes: nat, s: Sys, key: Key, snapshot: Snapshot, s': Sys)
    requires Inv(maxBytes, s) && Coupled(s) && Next(maxBytes, s, PublishRead(key, snapshot), s')
    requires key in s'.cache.entries ==> FreshRead(s, key, snapshot)
    ensures Coupled(s') && forall k :: View(s', k) == View(s, k)
  {
    hide VersionAt, CacheOk, OrphansOk, BasesKnown, AllAirborneOk, FlightsOk, Guarded, Coupled, FreshRead,
         CleanInserted;
    assert SnapshotOk(snapshot);
    CleanInsertedAt(s.cache, key, snapshot, maxBytes, s'.cache);
    InsertCoupled(maxBytes, s, key, snapshot, s');
  }
}
