/** Each critical section keeps the cache well formed and within its byte budget. */
module EditFacts {
  import opened Common
  import opened EditTypes

  lemma {:induction false} EvictedOk(c: Cache, kept: Entries, protected: seq<Key>, maxBytes: nat)
    requires CacheOk(c, maxBytes) && EvictedInLruOrder(c.entries, kept, protected)
    ensures CacheOk(c.(entries := kept), maxBytes)
  {
    TotalSubset(c.entries, kept);
  }

  lemma {:induction false} TouchedOk(c: Cache, key: Key, maxBytes: nat)
    requires CacheOk(c, maxBytes)
    ensures CacheOk(Touched(c, key), maxBytes)
    ensures TotalBytes(Touched(c, key).entries) == TotalBytes(c.entries)
  {
    TotalSame(c.entries, Touched(c, key).entries);
  }

  lemma {:induction false} CleanInsertedOk(c: Cache, key: Key, snapshot: Snapshot, maxBytes: nat, c': Cache)
    requires CacheOk(c, maxBytes) && SnapshotOk(snapshot)
    requires CleanInserted(c, key, snapshot, maxBytes, c')
    ensures CacheOk(c', maxBytes)
  {
    hide TotalBytes, EvictedInLruOrder, NeededLast, Pinned;
    if key !in c.entries && Size(snapshot.desired) <= maxBytes {
      var kept, ok :|
        && CapacityMade(c.entries, kept, maxBytes, Size(snapshot.desired), [], ok)
        && c' == if ok then Cache(kept[key := CleanEntry(snapshot, c.lru + 1)], c.lru + 1, c.nextGeneration)
                 else c.(entries := kept);
      EvictedOk(c, kept, [], maxBytes);
      TotalUpdate(kept, key, CleanEntry(snapshot, c.lru + 1));
    }
  }

  lemma {:induction false} NothingEvicted(entries: Entries, protected: seq<Key>)
    ensures EvictedInLruOrder(entries, entries, protected)
  {
  }

  /** Evicting the least recently used candidate keeps the order of eviction. */
  lemma {:induction false} EvictOne(entries: Entries, kept: Entries, k: Key, protected: seq<Key>)
    requires EvictedInLruOrder(entries, kept, protected)
    requires k in kept && Evictable(k, kept[k], protected)
    requires forall j :: j in kept && Evictable(j, kept[j], protected) ==> kept[k].lru <= kept[j].lru
    ensures EvictedInLruOrder(entries, kept - {k}, protected)
    ensures k in entries && kept[k] == entries[k] && LastEvicted(entries, kept - {k}, k)
  {
  }

  /** Eviction never touches what is pinned. */
  lemma {:induction false} PinnedKept(entries: Entries, kept: Entries, protected: seq<Key>)
    requires EvictedInLruOrder(entries, kept, protected)
    ensures Pinned(kept, protected) == Pinned(entries, protected)
  {
  }

  /** The eviction loop has stopped, with room or with nothing left to evict. */
  lemma {:induction false} CapacitySettled(
    entries: Entries, kept: Entries, last: Option<Key>, maxBytes: nat, additional: nat, protected: seq<Key>, ok: bool)
    requires EvictedInLruOrder(entries, kept, protected)
    requires ok <==> TotalBytes(kept) + additional <= maxBytes
    requires ok || forall k :: k in kept ==> !Evictable(k, kept[k], protected)
    requires last.None? ==> kept == entries
    requires last.Some? ==>
      && LastEvicted(entries, kept, last.value)
      && TotalBytes(kept) + Size(entries[last.value].desired) + additional > maxBytes
    ensures CapacityMade(entries, kept, maxBytes, additional, protected, ok)
  {
    hide TotalBytes, LastEvicted, EvictedInLruOrder;
    PinnedKept(entries, kept, protected);
    TotalSubset(kept, Pinned(kept, protected));
    if !ok {
      assert Pinned(kept, protected) == kept;
    }
  }

  lemma {:induction false} WithEditsNone(c: Cache)
    ensures WithEdits(c, []) == c
  {
  }

  lemma {:induction false} WithEditsNext(c: Cache, edits: seq<PreparedEdit>, i: nat)
    requires i < |edits| && forall j :: 0 <= j < |edits| ==> edits[j].key in c.entries
    ensures WithEdits(c, edits[..i + 1]) == WithEdit(WithEdits(c, edits[..i]), edits[i])
  {
    assert edits[..i + 1][..i] == edits[..i];
  }

  lemma {:induction false} WithEditsCounts(c: Cache, edits: seq<PreparedEdit>)
    requires forall j :: 0 <= j < |edits| ==> edits[j].key in c.entries
    ensures WithEdits(c, edits).nextGeneration == c.nextGeneration + |edits|
    ensures WithEdits(c, edits).lru == c.lru + |edits|
  {
    if edits != [] {
      WithEditsCounts(c, edits[..|edits| - 1]);
    }
  }

  /** What a batch leaves under each key, by position in the batch. */
  lemma {:induction false} EditsAt(c: Cache, edits: seq<PreparedEdit>)
    requires DistinctKeys(edits) && forall i :: 0 <= i < |edits| ==> edits[i].key in c.entries
    ensures forall i :: 0 <= i < |edits| ==>
      WithEdits(c, edits).entries[edits[i].key]
      == EditedEntry(c.entries[edits[i].key], edits[i].desired, c.nextGeneration + i, c.lru + i + 1)
    ensures forall k :: k in c.entries && k !in EditKeys(edits) ==> WithEdits(c, edits).entries[k] == c.entries[k]
  {
    hide WithEdits, EditKeys, EditedEntry;
    if edits == [] {
      WithEditsNone(c);
    } else {
      var n := |edits| - 1;
      var most, last := edits[..n], edits[n];
      EditsAt(c, most);
      WithEditsCounts(c, most);
      WithEditsNext(c, edits, n);
      assert edits[..n + 1] == edits;
      KeysNext(edits);
      var edited := EditedEntry(c.entries[last.key], last.desired, c.nextGeneration + n, c.lru + n + 1);
      assert WithEdits(c, edits).entries == WithEdits(c, most).entries[last.key := edited];
    }
  }

  /** The last path of a batch comes after the others and is none of them. */
  lemma {:induction false} KeysNext(edits: seq<PreparedEdit>)
    requires edits != [] && DistinctKeys(edits)
    ensures var most, last := edits[..|edits| - 1], edits[|edits| - 1];
            && EditKeys(edits) == EditKeys(most) + [last.key] && last.key !in EditKeys(most)
            && DistinctKeys(most)
            && forall i :: 0 <= i < |most| ==> most[i].key in EditKeys(most)
  {
  }

  /** The bytes after a batch are those before, less the old contents, plus the new. */
  lemma {:induction false} EditedBytes(c: Cache, edits: seq<PreparedEdit>)
    requires DistinctKeys(edits) && forall i :: 0 <= i < |edits| ==> edits[i].key in c.entries
    ensures TotalBytes(WithEdits(c, edits).entries) + OldBytes(c.entries, edits)
         == TotalBytes(c.entries) + NewBytes(edits)
  {
    hide TotalBytes;
    if edits == [] {
    } else {
      var most := edits[..|edits| - 1];
      var c0 := WithEdits(c, most);
      EditedBytes(c, most);
      EditsAt(c, most);
      var last := edits[|edits| - 1];
      assert last.key !in EditKeys(most);
      TotalUpdate(c0.entries, last.key, EditedEntry(c0.entries[last.key], last.desired, c0.nextGeneration, c0.lru + 1));
    }
  }

  lemma {:induction false} EditsEntriesOk(c: Cache, edits: seq<PreparedEdit>)
    requires c.nextGeneration > 0
    requires forall k :: k in c.entries ==> EntryOk(c.entries[k], c.nextGeneration)
    requires forall i :: 0 <= i < |edits| ==> edits[i].key in c.entries
    ensures
      var c' := WithEdits(c, edits);
      c'.nextGeneration > 0 && forall k :: k in c'.entries ==> EntryOk(c'.entries[k], c'.nextGeneration)
  {
    if edits != [] {
      EditsEntriesOk(c, edits[..|edits| - 1]);
    }
  }

  lemma {:induction false} EditedOk(c: Cache, edits: seq<PreparedEdit>, maxBytes: nat)
    requires CacheOk(c, maxBytes) && DistinctKeys(edits)
    requires forall i :: 0 <= i < |edits| ==> edits[i].key in c.entries
    requires TotalBytes(c.entries) + Additional(c.entries, edits) <= maxBytes
    ensures CacheOk(WithEdits(c, edits), maxBytes)
    ensures TotalBytes(WithEdits(c, edits).entries)
         == TotalBytes(c.entries) - OldBytes(c.entries, edits) + NewBytes(edits)
  {
    hide TotalBytes;
    EditedBytes(c, edits);
    EditsEntriesOk(c, edits);
  }

  /** Old sizes of a batch do not change when other keys are evicted. */
  lemma {:induction false} OldBytesSame(entries: Entries, kept: Entries, edits: seq<PreparedEdit>)
    requires forall i :: 0 <= i < |edits| ==>
      edits[i].key in entries && edits[i].key in kept && kept[edits[i].key] == entries[edits[i].key]
    ensures OldBytes(entries, edits) == OldBytes(kept, edits)
  {
    if edits != [] {
      OldBytesSame(entries, kept, edits[..|edits| - 1]);
    }
  }

  /** Protected keys survive eviction. */
  lemma {:induction false} BatchKept(entries: Entries, kept: Entries, edits: seq<PreparedEdit>)
    requires Prepared(entries, edits) && EvictedInLruOrder(entries, kept, EditKeys(edits))
    ensures forall i :: 0 <= i < |edits| ==>
      edits[i].key in kept && kept[edits[i].key] == entries[edits[i].key]
    ensures OldBytes(entries, edits) == OldBytes(kept, edits)
    ensures Additional(entries, edits) == Additional(kept, edits)
  {
    forall i | 0 <= i < |edits| ensures edits[i].key in kept && kept[edits[i].key] == entries[edits[i].key] {
      assert EditKeys(edits)[i] == edits[i].key;
    }
    OldBytesSame(entries, kept, edits);
  }

  lemma {:induction false} BatchAppliedOk(c: Cache, edits: seq<PreparedEdit>, maxBytes: nat, c': Cache, r: BatchResult)
    requires CacheOk(c, maxBytes) && BatchApplied(c, edits, maxBytes, c', r)
    ensures CacheOk(c', maxBytes)
  {
    hide TotalBytes;
    if c' != c {
      var kept, ok :|
        && CapacityMade(c.entries, kept, maxBytes, Additional(c.entries, edits), EditKeys(edits), ok)
        && (forall i :: 0 <= i < |edits| ==> edits[i].key in kept)
        && c' == (if ok then WithEdits(c.(entries := kept), edits) else c.(entries := kept));
      EvictedOk(c, kept, EditKeys(edits), maxBytes);
      if ok {
        BatchKept(c.entries, kept, edits);
        EditedOk(c.(entries := kept), edits, maxBytes);
      }
    }
  }

  /** Taking one more entry into a flush. */
  lemma {:induction false} TakeOne(items: seq<CommitItem>, entries: Entries, host: string, scope: set<Key>, k: Key)
    requires Takes(items, entries, host, scope) && k in entries && k !in scope
    ensures k.host == host && Eligible(entries[k]) ==>
      Takes(items + [ItemOf(k, entries[k])], entries, host, scope + {k})
    ensures !(k.host == host && Eligible(entries[k])) ==> Takes(items, entries, host, scope + {k})
  {
    var more := items + [ItemOf(k, entries[k])];
    assert more[|items|].key == k;
    forall j | HasItem(items, j) ensures HasItem(more, j) {
      var i :| 0 <= i < |items| && items[i].key == j;
      assert more[i].key == j;
    }
  }

  lemma {:induction false} MarkedOk(c: Cache, host: string, maxBytes: nat)
    requires CacheOk(c, maxBytes) && !HostConflict(c.entries, host)
    ensures CacheOk(c.(entries := MarkedInFlight(c.entries, host)), maxBytes)
    ensures TotalBytes(MarkedInFlight(c.entries, host)) == TotalBytes(c.entries)
  {
    TotalSame(c.entries, MarkedInFlight(c.entries, host));
  }

  lemma {:induction false} SuccessOk(c: Cache, s: CommitSuccess, maxBytes: nat)
    requires CacheOk(c, maxBytes)
    ensures CacheOk(c.(entries := WithSuccess(c.entries, s)), maxBytes)
    ensures TotalBytes(WithSuccess(c.entries, s)) == TotalBytes(c.entries)
  {
    TotalSame(c.entries, WithSuccess(c.entries, s));
  }

  lemma {:induction false} SuccessesOk(c: Cache, successes: seq<CommitSuccess>, maxBytes: nat)
    requires CacheOk(c, maxBytes)
    ensures CacheOk(c.(entries := WithSuccesses(c.entries, successes)), maxBytes)
    ensures TotalBytes(WithSuccesses(c.entries, successes)) == TotalBytes(c.entries)
  {
    hide TotalBytes;
    if successes == [] {
    } else {
      var most := successes[..|successes| - 1];
      SuccessesOk(c, most, maxBytes);
      SuccessOk(c.(entries := WithSuccesses(c.entries, most)), successes[|successes| - 1], maxBytes);
    }
  }

  lemma {:induction false} FailureOk(c: Cache, items: seq<CommitItem>, kind: ErrorKind, maxBytes: nat)
    requires CacheOk(c, maxBytes)
    ensures CacheOk(c.(entries := WithFailure(c.entries, items, kind)), maxBytes)
    ensures TotalBytes(WithFailure(c.entries, items, kind)) == TotalBytes(c.entries)
  {
    TotalSame(c.entries, WithFailure(c.entries, items, kind));
  }

  lemma {:induction false} FinishedOk(
    c: Cache, items: seq<CommitItem>, successes: seq<CommitSuccess>, error: Option<ErrorKind>, maxBytes: nat)
    requires CacheOk(c, maxBytes)
    ensures CacheOk(c.(entries := Finished(c.entries, items, successes, error)), maxBytes)
    ensures TotalBytes(Finished(c.entries, items, successes, error)) == TotalBytes(c.entries)
  {
    hide TotalBytes;
    SuccessesOk(c, successes, maxBytes);
    if error.Some? {
      FailureOk(c.(entries := WithSuccesses(c.entries, successes)), items, error.value, maxBytes);
    }
  }

  /** Landing failures one item at a time gives the all-at-once definition. */
  lemma {:induction false} FailureStep(landed: Entries, items: seq<CommitItem>, i: nat, kind: ErrorKind)
    requires i < |items|
    ensures
      var was := WithFailure(landed, items[..i], kind);
      var k := items[i].key;
      WithFailure(landed, items[..i + 1], kind)
      == if k in was && was[k].inFlight == Some(items[i].generation) then was[k := FailedEntry(was[k], kind)] else was
  {
    var was := WithFailure(landed, items[..i], kind);
    var now := WithFailure(landed, items[..i + 1], kind);
    forall k | k in landed
      ensures now[k] == if k == items[i].key && was[k].inFlight == Some(items[i].generation)
                        then FailedEntry(was[k], kind) else was[k]
    {
      if Flying(k, landed[k], items[..i]) {
        var j :| 0 <= j < i && items[..i][j].key == k && landed[k].inFlight == Some(items[..i][j].generation);
        assert items[..i + 1][j].key == k;
      } else if k == items[i].key && landed[k].inFlight == Some(items[i].generation) {
        assert items[..i + 1][i] == items[i];
      } else {
        assert forall j :: 0 <= j < i ==> items[..i + 1][j] == items[..i][j];
      }
    }
  }

  lemma {:induction false} SubsetOk(c: Cache, fewer: Entries, maxBytes: nat)
    requires CacheOk(c, maxBytes)
    requires forall k :: k in fewer ==> k in c.entries && fewer[k] == c.entries[k]
    ensures CacheOk(c.(entries := fewer), maxBytes)
  {
    TotalSubset(c.entries, fewer);
  }

  lemma {:induction false} RetriedOk(c: Cache, host: string, maxBytes: nat)
    requires CacheOk(c, maxBytes)
    ensures CacheOk(c.(entries := Retried(c.entries, host)), maxBytes)
    ensures TotalBytes(Retried(c.entries, host)) == TotalBytes(c.entries)
  {
    TotalSame(c.entries, Retried(c.entries, host));
  }

  // ----- when a batch or a snapshot is taken -----

  /** No batch for two hosts, and no path twice. */
  predicate Malformed(edits: seq<PreparedEdit>) {
    exists i, j :: 0 <= i < j < |edits| &&
      (edits[i].key.host != edits[j].key.host || edits[i].key.path == edits[j].key.path)
  }

  /** Some path has gone, or has been edited since its edit was computed. */
  predicate Outdated(entries: Entries, edits: seq<PreparedEdit>) {
    exists i :: 0 <= i < |edits| &&
      (edits[i].key !in entries || entries[edits[i].key].generation != edits[i].expectedGeneration)
  }

  predicate Oversized(edits: seq<PreparedEdit>, maxBytes: nat) {
    exists i :: 0 <= i < |edits| && Size(edits[i].desired) > maxBytes
  }

  /** What the batch does not touch and eviction may not take leaves no room for it. */
  ghost predicate Crowded(entries: Entries, edits: seq<PreparedEdit>, maxBytes: nat)
    requires !Outdated(entries, edits)
  {
    TotalBytes(Pinned(entries, EditKeys(edits))) + Additional(entries, edits) > maxBytes
  }

  lemma {:induction false} BatchConditions(entries: Entries, edits: seq<PreparedEdit>, maxBytes: nat)
    ensures Malformed(edits) <==> !(OneHost(edits) && DistinctKeys(edits))
    ensures Outdated(entries, edits) <==> !Prepared(entries, edits)
    ensures Oversized(edits, maxBytes) <==> !EachFits(edits, maxBytes)
  {
    if !OneHost(edits) {
      var i, j :| 0 <= i < |edits| && 0 <= j < |edits| && edits[i].key.host != edits[j].key.host;
      assert i < j || j < i;
    }
    if OneHost(edits) && !DistinctKeys(edits) {
      var i, j :| 0 <= i < j < |edits| && edits[i].key == edits[j].key;
    }
  }

  /** Each result of a batch occurs exactly when it should, and a batch that is refused, or that holds an edit
      which could never fit, changes nothing. */
  lemma {:induction false} BatchOutcome(
    c: Cache, edits: seq<PreparedEdit>, maxBytes: nat, c': Cache, r: BatchResult)
    requires edits != [] && BatchApplied(c, edits, maxBytes, c', r)
    ensures r == Rejected(Permanent) <==> Malformed(edits)
    ensures r == Rejected(Transient) <==> !Malformed(edits) && !Oversized(edits, maxBytes) && Outdated(c.entries, edits)
    ensures r == ImmediateWriteRequired <==>
      && !Malformed(edits)
      && (Oversized(edits, maxBytes) || (!Outdated(c.entries, edits) && Crowded(c.entries, edits, maxBytes)))
    ensures r.Buffered? <==>
      && !Malformed(edits) && !Oversized(edits, maxBytes)
      && !Outdated(c.entries, edits) && !Crowded(c.entries, edits, maxBytes)
    ensures r.Rejected? || Oversized(edits, maxBytes) ==> c' == c
  {
    hide TotalBytes, WithEdits, Pinned, EvictedInLruOrder, NeededLast;
    BatchConditions(c.entries, edits, maxBytes);
  }

  /** A snapshot of a path that is not cached is kept exactly when there can be room for it; the entry is then
      clean, at no generation of its own. */
  lemma {:induction false} SnapshotKeptIff(c: Cache, key: Key, snapshot: Snapshot, maxBytes: nat, c': Cache)
    requires CleanInserted(c, key, snapshot, maxBytes, c') && key !in c.entries
    ensures key in c'.entries <==>
      Size(snapshot.desired) <= maxBytes && TotalBytes(Pinned(c.entries, [])) + Size(snapshot.desired) <= maxBytes
    ensures key in c'.entries ==>
      && c'.entries[key].base == snapshot.base && c'.entries[key].desired == snapshot.desired
      && !c'.entries[key].dirty && c'.entries[key].generation == 0
  {
    hide TotalBytes, Pinned, NeededLast;
  }
}
