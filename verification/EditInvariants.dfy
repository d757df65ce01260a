/** What every reachable state of the protocol satisfies, whatever other writers do. */
module EditInvariants {
  import opened Common
  import opened EditTypes
  import opened EditFacts
  import opened EditProtocol

  // ----- critical sections, entry by entry -----

  /** At most `key` is new, from `snapshot`, and whatever is gone was clean. */
  ghost predicate InsertedAt(c: Cache, key: Key, snapshot: Snapshot, c': Cache) {
    && c'.nextGeneration == c.nextGeneration
    && (forall k :: k in c'.entries ==>
          || (k in c.entries && c'.entries[k] == c.entries[k])
          || (k == key && key !in c.entries && c'.entries[k] == CleanEntry(snapshot, c'.lru)))
    && (forall k :: k in c.entries && k !in c'.entries ==> !c.entries[k].dirty && c.entries[k].inFlight.None?)
  }

  lemma {:induction false} CleanInsertedAt(c: Cache, key: Key, snapshot: Snapshot, maxBytes: nat, c': Cache)
    requires CleanInserted(c, key, snapshot, maxBytes, c')
    ensures InsertedAt(c, key, snapshot, c')
  {
    hide TotalBytes;
  }

  lemma {:induction false} LoadPublishedAt(c: Cache, key: Key, snapshot: Snapshot, maxBytes: nat, c': Cache)
    requires LoadPublished(c, key, snapshot, maxBytes, c')
    ensures InsertedAt(c, key, snapshot, c')
  {
    hide CleanInserted;
    if maxBytes > 0 {
      CleanInsertedAt(c, key, snapshot, maxBytes, c');
    }
  }

  ghost predicate EditedIn(c: Cache, edits: seq<PreparedEdit>, i: nat, c': Cache) {
    && i < |edits|
    && edits[i].key in c.entries && edits[i].key in c'.entries
    && c'.entries[edits[i].key]
       == EditedEntry(c.entries[edits[i].key], edits[i].desired, c.nextGeneration + i, c.lru + i + 1)
  }

  lemma {:induction false} BufferedAt(c: Cache, edits: seq<PreparedEdit>, kept: Entries)
    requires DistinctKeys(edits) && Prepared(c.entries, edits)
    requires EvictedInLruOrder(c.entries, kept, EditKeys(edits))
    requires forall i :: 0 <= i < |edits| ==> edits[i].key in kept
    ensures
      var c' := WithEdits(c.(entries := kept), edits);
      && c'.nextGeneration == c.nextGeneration + |edits|
      && c'.entries.Keys == kept.Keys
      && (forall i :: 0 <= i < |edits| ==> EditedIn(c, edits, i, c'))
      && (forall k :: k in c'.entries && k !in EditKeys(edits) ==> c'.entries[k] == c.entries[k])
  {
    hide EditedEntry, WithEdits;
    var c' := WithEdits(c.(entries := kept), edits);
    EditsAt(c.(entries := kept), edits);
    WithEditsCounts(c.(entries := kept), edits);
    forall i | 0 <= i < |edits| ensures EditedIn(c, edits, i, c') {
      assert edits[i].key in kept && kept[edits[i].key] == c.entries[edits[i].key];
    }
  }

  lemma {:induction false} BatchAppliedAt(c: Cache, edits: seq<PreparedEdit>, maxBytes: nat, c': Cache, r: BatchResult)
    requires BatchApplied(c, edits, maxBytes, c', r)
    ensures c'.nextGeneration == c.nextGeneration + (if r.Buffered? then |edits| else 0)
    ensures r.Buffered? ==> OneHost(edits) && DistinctKeys(edits) && Prepared(c.entries, edits)
    ensures r.Buffered? ==> r.generations == FreshGenerations(c.nextGeneration, |edits|)
    ensures r.Buffered? ==> forall i :: 0 <= i < |edits| ==> EditedIn(c, edits, i, c')
    ensures forall k :: k in c'.entries ==> k in c.entries
    ensures forall k :: k in c'.entries && !(r.Buffered? && k in EditKeys(edits)) ==> c'.entries[k] == c.entries[k]
    ensures forall k :: k in c.entries && k !in c'.entries ==> !c.entries[k].dirty && c.entries[k].inFlight.None?
  {
    hide TotalBytes, NeededLast, Pinned, LastEvicted, EditedIn, WithEdits;
    if edits != [] && OneHost(edits) && DistinctKeys(edits) && EachFits(edits, maxBytes) && Prepared(c.entries, edits) {
      var kept, ok :|
        && CapacityMade(c.entries, kept, maxBytes, Additional(c.entries, edits), EditKeys(edits), ok)
        && (forall i :: 0 <= i < |edits| ==> edits[i].key in kept)
        && c' == (if ok then WithEdits(c.(entries := kept), edits) else c.(entries := kept))
        && r == if ok then Buffered(FreshGenerations(c.nextGeneration, |edits|)) else ImmediateWriteRequired;
      BufferedAt(c, edits, kept);
    }
  }

  function Landed(e: Entry, item: CommitItem): Entry {
    e.(base := ResultBase(item), inFlight := None, dirty := e.dirty && e.generation != item.generation)
  }

  /** Entry `k` flies as the `i`-th item. */
  predicate FliesAs(items: seq<CommitItem>, i: int, k: Key, e: Entry) {
    0 <= i < |items| && items[i].key == k && e.inFlight == Some(items[i].generation)
  }

  /** Landing the `n`-th success after the first `n`. */
  lemma {:induction false} LandNext(entries: Entries, items: seq<CommitItem>, n: nat, k: Key)
    requires n < |items| && k in entries
    ensures
      var earlier := WithSuccesses(entries, Successes(items, n));
      var later := WithSuccesses(entries, Successes(items, n + 1));
      later[k] == if FliesAs(items, n, k, earlier[k]) then Landed(earlier[k], items[n]) else earlier[k]
  {
    hide WithSuccesses;
    var all := Successes(items, n + 1);
    assert all[..n] == Successes(items, n);
    WithSuccessesNext(entries, all);
  }

  lemma {:induction false} WithSuccessesNext(entries: Entries, successes: seq<CommitSuccess>)
    requires successes != []
    ensures WithSuccesses(entries, successes)
         == WithSuccess(WithSuccesses(entries, successes[..|successes| - 1]), successes[|successes| - 1])
  {
  }

  /** Reported items land exactly the entries still flying as them. */
  lemma {:induction false} SuccessesAt(entries: Entries, items: seq<CommitItem>, n: nat, k: Key)
    requires DistinctItems(items) && n <= |items| && k in entries
    ensures forall i :: 0 <= i < n && FliesAs(items, i, k, entries[k]) ==>
      WithSuccesses(entries, Successes(items, n))[k] == Landed(entries[k], items[i])
    ensures (forall i :: 0 <= i < n ==> !FliesAs(items, i, k, entries[k])) ==>
      WithSuccesses(entries, Successes(items, n))[k] == entries[k]
  {
    hide WithSuccesses, Successes, Landed;
    if n == 0 {
      NothingReported(entries, items);
    } else {
      SuccessesAt(entries, items, n - 1, k);
      LandNext(entries, items, n - 1, k);
      var earlier := WithSuccesses(entries, Successes(items, n - 1));
      forall i | 0 <= i < n - 1 && FliesAs(items, i, k, entries[k])
        ensures WithSuccesses(entries, Successes(items, n))[k] == Landed(entries[k], items[i])
      {
        assert !FliesAs(items, n - 1, k, earlier[k]);
      }
      if FliesAs(items, n - 1, k, entries[k]) {
        assert forall i :: 0 <= i < n - 1 ==> !FliesAs(items, i, k, entries[k]);
      }
    }
  }

  lemma {:induction false} NothingReported(entries: Entries, items: seq<CommitItem>)
    ensures WithSuccesses(entries, Successes(items, 0)) == entries
  {
  }

  /** An entry flying as the `i`-th item, across the end of a flush. */
  lemma {:induction false} FinishedAt(
      entries: Entries, items: seq<CommitItem>, n: nat, error: Option<ErrorKind>, k: Key, i: nat)
    requires DistinctItems(items) && n <= |items| && k in entries && FliesAs(items, i, k, entries[k])
    ensures Finished(entries, items, Successes(items, n), error)[k]
         == if i < n then Landed(entries[k], items[i])
            else if error.Some? then FailedEntry(entries[k], error.value)
            else entries[k]
  {
    SuccessesAt(entries, items, n, k);
    assert forall j :: 0 <= j < |items| && j != i ==> items[j].key != k;
  }

  /** An entry that was not in flight is untouched by the end of a flush. */
  lemma {:induction false} FinishedGrounded(
      entries: Entries, items: seq<CommitItem>, n: nat, error: Option<ErrorKind>, k: Key)
    requires DistinctItems(items) && n <= |items| && k in entries
    requires entries[k].inFlight.None? || !HasItem(items, k)
    ensures Finished(entries, items, Successes(items, n), error)[k] == entries[k]
  {
    SuccessesAt(entries, items, n, k);
  }

  // ----- the invariant -----

  /** The bridge has seen `version` at `key`: it is absence, or was fetched, or was written. */
  ghost predicate Known(history: seq<Event>, key: Key, version: Version) {
    version == NoFile || exists j :: 0 <= j < |history| && Shows(history[j], key, version)
  }

  predicate Shows(event: Event, key: Key, version: Version) {
    match event
    case Fetched(k, snapshot) => k == key && BaseVersion(snapshot.base) == version
    case Applied(k, _, _, written) => k == key && written == version
    case Intruded(_) => false
  }

  /** Whatever a commit replaced or removed, the bridge had fetched or written before. */
  ghost predicate Guarded(history: seq<Event>) {
    forall i :: 0 <= i < |history| && history[i].Applied? ==> Known(history[..i], history[i].key, history[i].replaced)
  }

  predicate FetchesOk(history: seq<Event>) {
    forall i :: 0 <= i < |history| && history[i].Fetched? ==> SnapshotOk(history[i].snapshot)
  }

  ghost predicate Recorded(history: seq<Event>, item: CommitItem) {
    exists j :: 0 <= j < |history| && history[j].Applied? && history[j].key == item.key
      && history[j].generation == item.generation && history[j].written == DesiredVersion(item.desired)
  }

  ghost predicate ItemOk(item: CommitItem, host: string, nextGeneration: nat) {
    && item.key.host == host
    && 0 < item.generation < nextGeneration
    && item.desiredSha256 == DigestOf(item.desired)
  }

  ghost predicate FlightOk(s: Sys, host: string, f: Flight) {
    && f.done <= |f.items| && DistinctItems(f.items)
    && (forall i :: 0 <= i < |f.items| ==> ItemOk(f.items[i], host, s.cache.nextGeneration))
    && (forall i :: 0 <= i < |f.items| ==> Known(s.history, f.items[i].key, BaseVersion(f.items[i].base)))
    && (forall i :: 0 <= i < f.done ==> Recorded(s.history, f.items[i]))
  }

  ghost predicate FlightsOk(s: Sys) {
    forall host :: host in s.flights ==> FlightOk(s, host, s.flights[host])
  }

  ghost predicate OrphansOk(s: Sys) {
    forall item :: item in s.orphans ==>
      item.desiredSha256 == DigestOf(item.desired) && Known(s.history, item.key, BaseVersion(item.base))
  }

  /** An entry in flight flies as some item of its host's running flush, and is that item unless it
      has been edited since. */
  ghost predicate AirborneOk(s: Sys, k: Key, e: Entry) {
    e.inFlight.Some? ==>
      && k.host in s.flights
      && exists i :: FliesAs(s.flights[k.host].items, i, k, e) && Carries(s.flights[k.host].items[i], e)
  }

  predicate Carries(item: CommitItem, e: Entry) {
    item.generation == e.generation ==> item.desired == e.desired
  }

  ghost predicate AllAirborneOk(s: Sys) {
    forall k :: k in s.cache.entries ==> AirborneOk(s, k, s.cache.entries[k])
  }

  ghost predicate BasesKnown(s: Sys) {
    forall k :: k in s.cache.entries ==> Known(s.history, k, BaseVersion(s.cache.entries[k].base))
  }

  ghost predicate LoadsOk(s: Sys) {
    forall host :: Loads(s, host) ==>
      && s.preparing[host].key.host == host
      && (s.preparing[host].snapshot.Some? ==>
            Fetched(s.preparing[host].key, s.preparing[host].snapshot.value) in s.history)
  }

  ghost predicate Inv(maxBytes: nat, s: Sys) {
    && CacheOk(s.cache, maxBytes)
    && FlightsOk(s) && OrphansOk(s) && AllAirborneOk(s) && BasesKnown(s) && LoadsOk(s)
    && FetchesOk(s.history) && Guarded(s.history)
  }
}
