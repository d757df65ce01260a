/** The write-back edit cache: the critical sections of its state mutex, as they update the
    cache in place. */
module EditCache {
  import opened Common
  import opened EditTypes
  import opened EditOrder
  import opened EditFacts

  datatype FlushStart = Blocked(kind: ErrorKind) | Begun(items: seq<CommitItem>)

  class EditCache {
    const maxBytes: nat
    var entries: Entries
    var cachedBytes: nat
    var lruSequence: nat
    var nextGeneration: nat

    ghost function State(): Cache
      reads this
    {
      Cache(entries, lruSequence, nextGeneration)
    }

    /** The byte counter equals the bytes cached, and every entry is well formed. */
    ghost predicate Valid()
      reads this
    {
      cachedBytes == TotalBytes(entries) && CacheOk(State(), maxBytes)
    }

    constructor (maxBytes: nat)
      ensures Valid() && State() == INITIAL_CACHE && this.maxBytes == maxBytes
    {
      this.maxBytes := maxBytes;
      entries, cachedBytes, lruSequence, nextGeneration := map[], 0, 0, 1;
    }

    method NextLru() returns (sequence: nat)
      requires Valid()
      modifies this`lruSequence
      ensures Valid() && sequence == lruSequence == old(lruSequence) + 1
    {
      lruSequence := lruSequence + 1;
      sequence := lruSequence;
    }

    /** The evictable entry used longest ago. */
    method LeastRecent(protected: seq<Key>) returns (candidate: Option<Key>)
      ensures candidate.None? ==> forall k :: k in entries ==> !Evictable(k, entries[k], protected)
      ensures candidate.Some? ==>
        var c := candidate.value;
        && c in entries && Evictable(c, entries[c], protected)
        && forall k :: k in entries && Evictable(k, entries[k], protected) ==> entries[c].lru <= entries[k].lru
    {
      candidate := None;
      var rest := entries.Keys;
      while rest != {}
        invariant rest <= entries.Keys
        invariant candidate.None? ==> forall k :: k in entries.Keys - rest ==> !Evictable(k, entries[k], protected)
        invariant candidate.Some? ==>
          var c := candidate.value;
          && c in entries && Evictable(c, entries[c], protected)
          && forall k :: k in entries.Keys - rest && Evictable(k, entries[k], protected)
               ==> entries[c].lru <= entries[k].lru
        decreases rest
      {
        var k :| k in rest;
        rest := rest - {k};
        if Evictable(k, entries[k], protected) && (candidate.None? || entries[k].lru < entries[candidate.value].lru) {
          candidate := Some(k);
        }
      }
    }

    /** Evicts clean, unprotected entries, least recently used first, until `additional` more bytes
        fit; succeeds exactly when the entries it may not touch leave that much room. */
    method MakeCapacity(additional: nat, protected: seq<Key>) returns (ok: bool)
      requires Valid()
      modifies this`entries, this`cachedBytes
      ensures Valid()
      ensures CapacityMade(old(entries), entries, maxBytes, additional, protected, ok)
    {
      hide TotalBytes, EvictedInLruOrder, LastEvicted, CacheOk, CapacityMade;
      ghost var before := entries;
      ghost var last: Option<Key> := None;
      NothingEvicted(before, protected);
      while cachedBytes + additional > maxBytes
        invariant cachedBytes == TotalBytes(entries)
        invariant EvictedInLruOrder(before, entries, protected)
        invariant last.None? ==> entries == before
        invariant last.Some? ==>
          && last.value in before
          && LastEvicted(before, entries, last.value)
          && cachedBytes + Size(before[last.value].desired) + additional > maxBytes
        decreases |entries|
      {
        var candidate := LeastRecent(protected);
        if candidate.None? {
          EvictedOk(old(State()), entries, protected, maxBytes);
          CapacitySettled(before, entries, last, maxBytes, additional, protected, false);
          return false;
        }
        var k := candidate.value;
        TotalRemove(entries, k);
        EvictOne(before, entries, k, protected);
        assert |entries.Keys| == |(entries - {k}).Keys + {k}|;
        cachedBytes := cachedBytes - Size(entries[k].desired);
        entries := entries - {k};
        last := Some(k);
      }
      EvictedOk(old(State()), entries, protected, maxBytes);
      CapacitySettled(before, entries, last, maxBytes, additional, protected, true);
      ok := true;
    }

    method Lookup(key: Key) returns (found: Option<Entry>)
      requires Valid()
      modifies this`entries, this`lruSequence
      ensures Valid() && State() == Touched(old(State()), key)
      ensures found == if key in old(entries) then Some(entries[key]) else None
    {
      hide TotalBytes;
      TouchedOk(State(), key, maxBytes);
      var sequence := NextLru();
      if key !in entries {
        return None;
      }
      entries := entries[key := entries[key].(lru := sequence)];
      found := Some(entries[key]);
    }

    /** Publishing a fetched or freshly read snapshot, unless the key has appeared meanwhile. */
    method InsertClean(key: Key, snapshot: Snapshot) returns (shown: Desired)
      requires Valid() && SnapshotOk(snapshot)
      modifies this`entries, this`cachedBytes, this`lruSequence
      ensures Valid()
      ensures CleanInserted(old(State()), key, snapshot, maxBytes, State())
      ensures shown == if key in old(entries) then old(entries)[key].desired else snapshot.desired
    {
      hide TotalBytes;
      ghost var before := State();
      var size := Size(snapshot.desired);
      if key in entries {
        return entries[key].desired;
      }
      shown := snapshot.desired;
      if size > maxBytes {
        return;
      }
      var ok := MakeCapacity(size, []);
      if !ok {
        return;
      }
      var sequence := NextLru();
      TotalUpdate(entries, key, CleanEntry(snapshot, sequence));
      entries := entries[key := CleanEntry(snapshot, sequence)];
      cachedBytes := cachedBytes + size;
      CleanInsertedOk(before, key, snapshot, maxBytes, State());
    }

    /** The last critical section of a load. */
    method PublishLoaded(key: Key, snapshot: Snapshot) returns (shown: Desired)
      requires Valid() && SnapshotOk(snapshot)
      modifies this`entries, this`cachedBytes, this`lruSequence
      ensures Valid()
      ensures LoadPublished(old(State()), key, snapshot, maxBytes, State())
      ensures shown == if maxBytes > 0 && Size(snapshot.desired) <= maxBytes && key in old(entries)
                       then old(entries)[key].desired else snapshot.desired
    {
      if maxBytes == 0 || Size(snapshot.desired) > maxBytes {
        return snapshot.desired;
      }
      shown := InsertClean(key, snapshot);
    }

    method HasDuplicates(edits: seq<PreparedEdit>) returns (duplicates: bool)
      ensures duplicates <==> !DistinctKeys(edits)
    {
      var seen: set<Key> := {};
      for i := 0 to |edits|
        invariant seen == set j | 0 <= j < i :: edits[j].key
        invariant DistinctKeys(edits[..i])
      {
        if edits[i].key in seen {
          var j :| 0 <= j < i && edits[j].key == edits[i].key;
          return true;
        }
        seen := seen + {edits[i].key};
      }
      assert edits[..|edits|] == edits;
      duplicates := false;
    }

    /** Buffers a whole batch of prepared edits, or none of it. */
    method MutatePreparedBatch(edits: seq<PreparedEdit>) returns (r: BatchResult)
      requires Valid()
      modifies this`entries, this`cachedBytes, this`lruSequence, this`nextGeneration
      ensures Valid()
      ensures BatchApplied(old(State()), edits, maxBytes, State(), r)
    {
      hide TotalBytes, WithEdits, Pinned, NeededLast, LastEvicted, FreshGenerations;
      if edits == [] {
        return Buffered([]);
      }
      if exists i :: 0 <= i < |edits| && edits[i].key.host != edits[0].key.host {
        return Rejected(Permanent);
      }
      var duplicates := HasDuplicates(edits);
      if duplicates {
        return Rejected(Permanent);
      }
      if exists i :: 0 <= i < |edits| && Size(edits[i].desired) > maxBytes {
        return ImmediateWriteRequired;
      }
      if exists i :: 0 <= i < |edits| &&
          (edits[i].key !in entries || entries[edits[i].key].generation != edits[i].expectedGeneration) {
        return Rejected(Transient);
      }
      ghost var before := State();
      var ok := MakeCapacity(Additional(entries, edits), EditKeys(edits));
      if !ok {
        return ImmediateWriteRequired;
      }
      BatchKept(before.entries, entries, edits);
      r := ApplyEdits(edits);
    }

    method ApplyEdits(edits: seq<PreparedEdit>) returns (r: BatchResult)
      requires Valid() && DistinctKeys(edits)
      requires forall i :: 0 <= i < |edits| ==> edits[i].key in entries
      requires TotalBytes(entries) + Additional(entries, edits) <= maxBytes
      modifies this`entries, this`cachedBytes, this`lruSequence, this`nextGeneration
      ensures Valid()
      ensures State() == WithEdits(old(State()), edits)
      ensures r == Buffered(FreshGenerations(old(nextGeneration), |edits|))
    {
      hide TotalBytes, CacheOk, WithEdits, Additional, OldBytes, NewBytes;
      EditedOk(State(), edits, maxBytes);
      WithEditsNone(State());
      ghost var before := State();
      var oldBytes, newBytes := OldBytes(entries, edits), NewBytes(edits);
      var generations: seq<nat> := [];
      for i := 0 to |edits|
        invariant cachedBytes == old(cachedBytes)
        invariant State() == WithEdits(before, edits[..i])
        invariant nextGeneration == before.nextGeneration + i
        invariant generations == FreshGenerations(before.nextGeneration, i)
      {
        WithEditsNext(before, edits, i);
        var key := edits[i].key;
        generations := generations + [nextGeneration];
        entries := entries[key := EditedEntry(entries[key], edits[i].desired, nextGeneration, lruSequence + 1)];
        nextGeneration := nextGeneration + 1;
        lruSequence := lruSequence + 1;
      }
      assert edits[..|edits|] == edits;
      cachedBytes := cachedBytes - oldBytes + newBytes;
      r := Buffered(generations);
    }

    /** The first critical section of a flush. */
    method FlushBegin(host: string) returns (r: FlushStart)
      requires Valid()
      modifies this`entries
      ensures Valid()
      ensures r.Blocked? <==> HostConflict(old(entries), host)
      ensures r.Blocked? ==> entries == old(entries)
      ensures r.Blocked? ==> exists k :: k in entries && k.host == host && entries[k].conflict == Some(r.kind)
      ensures r.Begun? ==>
        && TakesEligible(r.items, old(entries), host) && InOrder(r.items)
        && entries == MarkedInFlight(old(entries), host)
    {
      hide TotalBytes;
      if exists k :: k in entries.Keys && k.host == host && entries[k].conflict.Some? {
        var k :| k in entries.Keys && k.host == host && entries[k].conflict.Some?;
        return Blocked(entries[k].conflict.value);
      }
      var items: seq<CommitItem> := [];
      ghost var before := entries;
      var rest := entries.Keys;
      while rest != {}
        invariant rest <= before.Keys == entries.Keys
        invariant Takes(items, before, host, before.Keys - rest)
        invariant forall k :: k in rest ==> entries[k] == before[k]
        invariant forall k :: k in before.Keys - rest ==> entries[k] == MarkedInFlight(before, host)[k]
        decreases rest
      {
        var k :| k in rest;
        TakeOne(items, before, host, before.Keys - rest, k);
        assert before.Keys - (rest - {k}) == before.Keys - rest + {k};
        rest := rest - {k};
        if k.host == host && Eligible(entries[k]) {
          items := items + [ItemOf(k, entries[k])];
          entries := entries[k := entries[k].(inFlight := Some(entries[k].generation))];
        }
      }
      assert before.Keys - rest == before.Keys;
      assert entries == MarkedInFlight(before, host);
      MarkedOk(old(State()), host, maxBytes);
      var sorted := SortByPath(items);
      TakesReordered(items, sorted, before, host, before.Keys);
      r := Begun(sorted);
    }

    /** The last critical section of a flush: land what was reported, then what was not. */
    method FlushFinish(host: string, items: seq<CommitItem>, successes: seq<CommitSuccess>, error: Option<ErrorKind>)
      returns (progress: Progress)
      requires Valid()
      modifies this`entries
      ensures Valid()
      ensures entries == Finished(old(entries), items, successes, error)
      ensures progress == if error.Some? then Progress.Failed(error.value)
                          else if HostDirty(entries, host) then More else Clean
    {
      hide TotalBytes, CacheOk, WithSuccesses, WithFailure;
      FinishedOk(State(), items, successes, error, maxBytes);
      LandSuccesses(successes);
      if error.None? {
        return if exists k :: k in entries.Keys && k.host == host && entries[k].dirty then More else Clean;
      }
      LandFailures(items, error.value);
      progress := Progress.Failed(error.value);
    }

    method LandSuccesses(successes: seq<CommitSuccess>)
      modifies this`entries
      ensures entries == WithSuccesses(old(entries), successes)
    {
      ghost var before := entries;
      for i := 0 to |successes|
        invariant entries == WithSuccesses(before, successes[..i])
      {
        var s := successes[i];
        assert successes[..i + 1][..i] == successes[..i];
        if s.key in entries && entries[s.key].inFlight == Some(s.generation) {
          var e := entries[s.key];
          entries := entries[s.key := e.(base := s.base, inFlight := None)];
          if e.generation == s.generation {
            entries := entries[s.key := entries[s.key].(dirty := false)];
          }
        }
      }
      assert successes[..|successes|] == successes;
    }

    method LandFailures(items: seq<CommitItem>, kind: ErrorKind)
      modifies this`entries
      ensures entries == WithFailure(old(entries), items, kind)
    {
      ghost var landed := entries;
      for i := 0 to |items|
        invariant entries == WithFailure(landed, items[..i], kind)
      {
        var item := items[i];
        FailureStep(landed, items, i, kind);
        if item.key in entries && entries[item.key].inFlight == Some(item.generation) {
          var e := entries[item.key].(inFlight := None);
          entries := entries[item.key := if kind == Transient then e else e.(conflict := Some(kind))];
        }
      }
      assert items[..|items|] == items;
    }

    /** Drops the given entries and their bytes. */
    method Drop(doomed: set<Key>) returns (removed: nat)
      requires Valid() && doomed <= entries.Keys
      modifies this`entries, this`cachedBytes
      ensures Valid() && entries == old(entries) - doomed
      ensures removed == old(cachedBytes) - cachedBytes
    {
      hide TotalBytes;
      removed := 0;
      var rest := doomed;
      while rest != {}
        invariant cachedBytes == TotalBytes(entries) && rest <= entries.Keys && rest <= doomed
        invariant entries == old(entries) - (doomed - rest)
        invariant removed == old(cachedBytes) - cachedBytes
        decreases rest
      {
        var k :| k in rest;
        rest := rest - {k};
        TotalRemove(entries, k);
        removed := removed + Size(entries[k].desired);
        cachedBytes := cachedBytes - Size(entries[k].desired);
        entries := entries - {k};
      }
      SubsetOk(old(State()), entries, maxBytes);
    }

    method InvalidateCleanHost(host: string)
      requires Valid()
      modifies this`entries, this`cachedBytes
      ensures Valid() && entries == Invalidated(old(entries), host)
      ensures forall k :: k in old(entries) && k !in entries <==>
                k in old(entries) && k.host == host && !old(entries)[k].dirty && old(entries)[k].inFlight.None?
    {
      hide TotalBytes;
      var removed := Drop(
        set k | k in entries.Keys && k.host == host && !entries[k].dirty && entries[k].inFlight.None?);
      assert entries == Invalidated(old(entries), host);
    }

    /** Throws away every pending edit of a host; reports what was thrown away. */
    method DiscardHostEdits(host: string) returns (discarded: set<Key>, bytes: nat, hadOutcomeUnknown: bool)
      requires Valid()
      modifies this`entries, this`cachedBytes
      ensures Valid() && entries == Discarded(old(entries), host)
      ensures discarded == old(entries).Keys - entries.Keys
      ensures forall k :: k in discarded <==>
                && k in old(entries) && k.host == host
                && (old(entries)[k].dirty || old(entries)[k].inFlight.Some? || old(entries)[k].conflict.Some?)
      ensures bytes == TotalBytes(old(entries)) - TotalBytes(entries)
      ensures hadOutcomeUnknown <==> exists k :: k in discarded && old(entries)[k].conflict == Some(OutcomeUnknown)
    {
      hide TotalBytes;
      discarded := set k | k in entries.Keys && k.host == host && Pending(entries[k]);
      hadOutcomeUnknown := exists k :: k in discarded && entries[k].conflict == Some(OutcomeUnknown);
      bytes := Drop(discarded);
      assert entries == Discarded(old(entries), host);
    }

    method RetryOutcomeUnknown(host: string)
      requires Valid()
      modifies this`entries
      ensures Valid() && entries == Retried(old(entries), host)
    {
      hide TotalBytes;
      ghost var before := entries;
      var rest := entries.Keys;
      while rest != {}
        invariant rest <= before.Keys == entries.Keys
        invariant forall k :: k in rest ==> entries[k] == before[k]
        invariant forall k :: k in before.Keys - rest ==> entries[k] == Retried(before, host)[k]
        decreases rest
      {
        var k :| k in rest;
        rest := rest - {k};
        if k.host == host && entries[k].conflict == Some(OutcomeUnknown) {
          entries := entries[k := entries[k].(conflict := None, dirty := true)];
        }
      }
      assert entries == Retried(before, host);
      RetriedOk(old(State()), host, maxBytes);
    }
  }
}
