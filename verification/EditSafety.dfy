/** The invariant holds in every reachable state, with any other writers interleaved; from it,
    that no buffered edit is lost and that commits replace only versions the bridge knows. */
module EditSafety {
  import opened Common
  import opened EditTypes
  import opened EditFacts
  import opened EditProtocol
  import opened EditInvariants

  // ----- history only grows -----

  lemma {:induction false} HistoryGrows(maxBytes: nat, s: Sys, step: Step, s': Sys)
    requires Next(maxBytes, s, step, s')
    ensures s.history <= s'.history
    ensures |s'.history| <= |s.history| + 1
    ensures s.cache.nextGeneration <= s'.cache.nextGeneration
  {
    hide CleanInserted, BatchApplied, Finished, MarkedInFlight, Invalidated, Discarded, Retried;
    match step
    case FinishLoad(host) =>
      LoadPublishedAt(s.cache, s.preparing[host].key, s.preparing[host].snapshot.value, maxBytes, s'.cache);
    case PublishRead(key, snapshot) =>
      CleanInsertedAt(s.cache, key, snapshot, maxBytes, s'.cache);
    case Batch(edits, result) =>
      BatchAppliedAt(s.cache, edits, maxBytes, s'.cache, result);
    case _ =>
  }

  lemma {:induction false} KnownLonger(history: seq<Event>, longer: seq<Event>, key: Key, version: Version)
    requires history <= longer && Known(history, key, version)
    ensures Known(longer, key, version)
  {
    if version != NoFile {
      var j :| 0 <= j < |history| && Shows(history[j], key, version);
      assert longer[j] == history[j];
    }
  }

  lemma {:induction false} RecordedLonger(history: seq<Event>, longer: seq<Event>, item: CommitItem)
    requires history <= longer && Recorded(history, item)
    ensures Recorded(longer, item)
  {
    var j :| 0 <= j < |history| && history[j].Applied? && history[j].key == item.key
      && history[j].generation == item.generation && history[j].written == DesiredVersion(item.desired);
    assert longer[j] == history[j];
  }

  lemma {:induction false} RecordedKnown(history: seq<Event>, item: CommitItem)
    requires Recorded(history, item)
    ensures Known(history, item.key, DesiredVersion(item.desired))
  {
    var j :| 0 <= j < |history| && history[j].Applied? && history[j].key == item.key
      && history[j].generation == item.generation && history[j].written == DesiredVersion(item.desired);
    assert Shows(history[j], item.key, DesiredVersion(item.desired));
  }

  // ----- one lemma per part of the invariant -----

  lemma {:induction false} CacheKept(maxBytes: nat, s: Sys, step: Step, s': Sys)
    requires CacheOk(s.cache, maxBytes) && FetchesOk(s.history) && LoadsOk(s) && Next(maxBytes, s, step, s')
    ensures CacheOk(s'.cache, maxBytes)
  {
    hide CacheOk, CleanInserted, BatchApplied, Finished, MarkedInFlight, Retried, Touched, Carried;
    match step
    case Look(key) => TouchedOk(s.cache, key, maxBytes);
    case AcquireLoad(key) => TouchedOk(s.cache, key, maxBytes);
    case FinishLoad(host) =>
      if maxBytes > 0 {
        CleanInsertedOk(s.cache, s.preparing[host].key, s.preparing[host].snapshot.value, maxBytes, s'.cache);
      }
    case PublishRead(key, snapshot) => CleanInsertedOk(s.cache, key, snapshot, maxBytes, s'.cache);
    case Batch(edits, result) => BatchAppliedOk(s.cache, edits, maxBytes, s'.cache, result);
    case BeginFlush(host, items) => MarkedOk(s.cache, host, maxBytes);
    case Script(host) => CarriedKeepsCache(s, s.flights[host].items[s.flights[host].done]);
    case RunOrphan(item) => CarriedKeepsCache(s, item);
    case FinishFlush(host, reported, error) =>
      FinishedOk(s.cache, s.flights[host].items, Successes(s.flights[host].items, reported), error, maxBytes);
    case Invalidate(host) => SubsetOk(s.cache, Invalidated(s.cache.entries, host), maxBytes);
    case Discard(host) => SubsetOk(s.cache, Discarded(s.cache.entries, host), maxBytes);
    case Retry(host) => RetriedOk(s.cache, host, maxBytes);
    case _ =>
  }

  lemma {:induction false} CarriedKeepsCache(s: Sys, item: CommitItem)
    ensures Carried(s, item).Some? ==>
      var t := Carried(s, item).value;
      && t.cache == s.cache && t.flights == s.flights && t.preparing == s.preparing && t.orphans == s.orphans
      && t.history == s.history + [Applied(item.key, item.generation, VersionAt(s.remote, item.key),
                                           DesiredVersion(item.desired))]
  {
  }

  lemma {:induction false} FlightKept(s: Sys, host: string, f: Flight, s': Sys)
    requires FlightOk(s, host, f) && s.history <= s'.history
    requires s.cache.nextGeneration <= s'.cache.nextGeneration
    ensures FlightOk(s', host, f)
  {
    forall i | 0 <= i < |f.items| ensures Known(s'.history, f.items[i].key, BaseVersion(f.items[i].base)) {
      KnownLonger(s.history, s'.history, f.items[i].key, BaseVersion(f.items[i].base));
    }
    forall i | 0 <= i < f.done ensures Recorded(s'.history, f.items[i]) {
      RecordedLonger(s.history, s'.history, f.items[i]);
    }
  }

  lemma {:induction false} FlightAdvances(s: Sys, host: string, s': Sys)
    requires FlightsOk(s) && ScriptRan(s, host, s') && s.history <= s'.history
    ensures host in s'.flights && FlightOk(s', host, s'.flights[host])
  {
    hide Carried, Known;
    var f := s.flights[host];
    var item := f.items[f.done];
    CarriedKeepsCache(s, item);
    FlightKept(s, host, f, s');
    if Carried(s, item).Some? {
      assert s'.history[|s.history|] == Applied(item.key, item.generation, VersionAt(s.remote, item.key),
                                                DesiredVersion(item.desired));
      assert Recorded(s'.history, item);
    }
  }

  lemma {:induction false} FlightsKept(maxBytes: nat, s: Sys, step: Step, s': Sys)
    requires Inv(maxBytes, s) && Next(maxBytes, s, step, s')
    ensures FlightsOk(s')
  {
    hide CleanInserted, BatchApplied, Finished, MarkedInFlight, Carried, FlightOk, Known, Recorded, TotalBytes;
    HistoryGrows(maxBytes, s, step, s');
    forall host | host in s'.flights ensures FlightOk(s', host, s'.flights[host]) {
      if step == Script(host) {
        FlightAdvances(s, host, s');
      } else if step.BeginFlush? && step.host == host {
        FlightBegins(maxBytes, s, host, step.items, s');
      } else {
        if step.Script? {
          CarriedKeepsCache(s, s.flights[step.host].items[s.flights[step.host].done]);
        } else if step.RunOrphan? {
          CarriedKeepsCache(s, step.item);
        }
        assert host in s.flights && s'.flights[host] == s.flights[host];
        FlightKept(s, host, s.flights[host], s');
      }
    }
  }

  lemma {:induction false} FlightBegins(maxBytes: nat, s: Sys, host: string, items: seq<CommitItem>, s': Sys)
    requires Inv(maxBytes, s) && Next(maxBytes, s, BeginFlush(host, items), s')
    ensures FlightOk(s', host, Flight(items, 0, false))
  {
    hide Known, TotalBytes, AllAirborneOk, FlightsOk, OrphansOk, LoadsOk, Guarded;
    forall i | 0 <= i < |items|
      ensures ItemOk(items[i], host, s.cache.nextGeneration)
      ensures Known(s.history, items[i].key, BaseVersion(items[i].base))
    {
      assert EntryOk(s.cache.entries[items[i].key], s.cache.nextGeneration);
    }
  }

  lemma {:induction false} OrphansKept(maxBytes: nat, s: Sys, step: Step, s': Sys)
    requires Inv(maxBytes, s) && Next(maxBytes, s, step, s')
    ensures OrphansOk(s')
  {
    hide CleanInserted, BatchApplied, Finished, MarkedInFlight, Carried, Known, TotalBytes;
    HistoryGrows(maxBytes, s, step, s');
    forall item | item in s'.orphans
      ensures item.desiredSha256 == DigestOf(item.desired) && Known(s'.history, item.key, BaseVersion(item.base))
    {
      if step.Script? {
        CarriedKeepsCache(s, s.flights[step.host].items[s.flights[step.host].done]);
      } else if step.RunOrphan? {
        CarriedKeepsCache(s, step.item);
      }
      assert Known(s.history, item.key, BaseVersion(item.base)) by {
        if item !in s.orphans {
          assert step.FinishFlush? && FlightOk(s, step.host, s.flights[step.host]);
        }
      }
      KnownLonger(s.history, s'.history, item.key, BaseVersion(item.base));
    }
  }

  lemma {:induction false} LoadsKept(maxBytes: nat, s: Sys, step: Step, s': Sys)
    requires Inv(maxBytes, s) && Next(maxBytes, s, step, s')
    ensures LoadsOk(s')
  {
    hide CleanInserted, BatchApplied, Finished, MarkedInFlight, Carried, CacheOk, FlightsOk, OrphansOk,
         AllAirborneOk, BasesKnown, Guarded, FetchesOk;
    HistoryGrows(maxBytes, s, step, s');
    if step.Script? {
      CarriedKeepsCache(s, s.flights[step.host].items[s.flights[step.host].done]);
    } else if step.RunOrphan? {
      CarriedKeepsCache(s, step.item);
    } else if step.FetchLoad? {
      assert s'.history[|s.history|] == Fetched(s.preparing[step.host].key, s'.preparing[step.host].snapshot.value);
    }
  }

  lemma {:induction false} FetchesKept(maxBytes: nat, s: Sys, step: Step, s': Sys)
    requires Inv(maxBytes, s) && Next(maxBytes, s, step, s')
    ensures FetchesOk(s'.history)
  {
    hide CleanInserted, BatchApplied, Finished, MarkedInFlight, Carried, CacheOk, FlightsOk, OrphansOk,
         AllAirborneOk, BasesKnown, Guarded;
    if step.Script? {
      CarriedKeepsCache(s, s.flights[step.host].items[s.flights[step.host].done]);
    } else if step.RunOrphan? {
      CarriedKeepsCache(s, step.item);
    }
  }

  // ----- entries in flight -----

  /** An entry that keeps its flight, its generation and its contents stays airborne. */
  lemma {:induction false} StaysAirborne(s: Sys, k: Key, e: Entry, s': Sys, e': Entry)
    requires AirborneOk(s, k, e) && e'.inFlight == e.inFlight
    requires e.inFlight.Some? && k.host in s.flights ==>
      k.host in s'.flights && s'.flights[k.host].items == s.flights[k.host].items
    requires e'.generation == e.generation && e'.desired == e.desired
    ensures AirborneOk(s', k, e')
  {
    if e.inFlight.Some? {
      var i :| FliesAs(s.flights[k.host].items, i, k, e) && Carries(s.flights[k.host].items[i], e);
      assert FliesAs(s'.flights[k.host].items, i, k, e') && Carries(s'.flights[k.host].items[i], e');
    }
  }

  /** An edited entry is airborne with its old contents only. */
  lemma {:induction false} EditedAirborne(s: Sys, k: Key, e: Entry, e': Entry)
    requires AirborneOk(s, k, e) && FlightsOk(s) && e'.inFlight == e.inFlight
    requires e'.generation >= s.cache.nextGeneration
    ensures AirborneOk(s, k, e')
  {
    hide Known, Recorded;
    if e.inFlight.Some? {
      var i :| FliesAs(s.flights[k.host].items, i, k, e) && Carries(s.flights[k.host].items[i], e);
      assert ItemOk(s.flights[k.host].items[i], k.host, s.cache.nextGeneration);
      assert FliesAs(s.flights[k.host].items, i, k, e') && Carries(s.flights[k.host].items[i], e');
    }
  }

  lemma {:induction false} BeginAirborne(s: Sys, host: string, items: seq<CommitItem>, s': Sys, k: Key)
    requires AllAirborneOk(s) && k in s'.cache.entries && host !in s.flights
    requires TakesEligible(items, s.cache.entries, host)
    requires s'.cache.entries == MarkedInFlight(s.cache.entries, host)
    requires s'.flights == s.flights[host := Flight(items, 0, false)]
    ensures AirborneOk(s', k, s'.cache.entries[k])
  {
    var e := s.cache.entries[k];
    if k.host == host && Eligible(e) {
      var i :| 0 <= i < |items| && items[i].key == k;
      assert FliesAs(items, i, k, s'.cache.entries[k]) && Carries(items[i], s'.cache.entries[k]);
    } else {
      StaysAirborne(s, k, e, s', s'.cache.entries[k]);
    }
  }

  lemma {:induction false} FinishAirborne(
      s: Sys, host: string, reported: nat, error: Option<ErrorKind>, s': Sys, k: Key)
    requires AllAirborneOk(s) && FlightsOk(s) && k in s'.cache.entries
    requires FlushLanded(s, host, reported, error, s')
    ensures AirborneOk(s', k, s'.cache.entries[k])
    ensures k.host == host ==> s'.cache.entries[k].inFlight.None?
  {
    hide Known, Recorded, Finished;
    var e, f := s.cache.entries[k], s.flights[host];
    assert FlightOk(s, host, f);
    if k.host == host && e.inFlight.Some? {
      var i :| FliesAs(f.items, i, k, e) && Carries(f.items[i], e);
      FinishedAt(s.cache.entries, f.items, reported, error, k, i);
    } else {
      assert k.host != host ==> !HasItem(f.items, k) by {
        assert forall i :: 0 <= i < |f.items| ==> ItemOk(f.items[i], host, s.cache.nextGeneration);
      }
      FinishedGrounded(s.cache.entries, f.items, reported, error, k);
      StaysAirborne(s, k, e, s', s'.cache.entries[k]);
    }
  }

  lemma {:induction false} BatchAirborne(maxBytes: nat, s: Sys, edits: seq<PreparedEdit>, result: BatchResult, s': Sys)
    requires Inv(maxBytes, s) && Next(maxBytes, s, Batch(edits, result), s')
    ensures AllAirborneOk(s')
  {
    hide CleanInserted, BatchApplied, Finished, MarkedInFlight, Carried, CacheOk, FlightsOk, OrphansOk, BasesKnown,
         Guarded, AirborneOk, LoadsOk, FetchesOk, EditedEntry, TakesEligible, HostConflict;
    BatchAppliedAt(s.cache, edits, maxBytes, s'.cache, result);
    forall k | k in s'.cache.entries ensures AirborneOk(s', k, s'.cache.entries[k]) {
      if result.Buffered? && k in EditKeys(edits) {
        var i :| 0 <= i < |edits| && EditKeys(edits)[i] == k;
        assert EditedIn(s.cache, edits, i, s'.cache);
        BatchEntryAirborne(maxBytes, s, edits, result, s', i);
      } else {
        StaysAirborne(s, k, s.cache.entries[k], s', s'.cache.entries[k]);
      }
    }
  }

  lemma {:induction false} FlushAirborne(maxBytes: nat, s: Sys, step: Step, s': Sys)
    requires Inv(maxBytes, s) && Next(maxBytes, s, step, s') && (step.BeginFlush? || step.FinishFlush?)
    ensures AllAirborneOk(s')
  {
    hide CleanInserted, BatchApplied, Finished, MarkedInFlight, Carried, CacheOk, FlightsOk, OrphansOk, BasesKnown,
         Guarded, AirborneOk, LoadsOk, FetchesOk, EditedEntry, TakesEligible, HostConflict;
    forall k | k in s'.cache.entries ensures AirborneOk(s', k, s'.cache.entries[k]) {
      match step
      case BeginFlush(host, items) => BeginAirborne(s, host, items, s', k);
      case FinishFlush(host, reported, error) => FinishAirborne(s, host, reported, error, s', k);
    }
  }

  lemma {:induction false} ScriptAirborne(maxBytes: nat, s: Sys, step: Step, s': Sys)
    requires Inv(maxBytes, s) && Next(maxBytes, s, step, s') && (step.Script? || step.RunOrphan?)
    ensures AllAirborneOk(s')
  {
    hide CleanInserted, BatchApplied, Finished, MarkedInFlight, Carried, CacheOk, FlightsOk, OrphansOk, BasesKnown,
         Guarded, AirborneOk, LoadsOk, FetchesOk, EditedEntry, TakesEligible, HostConflict;
    match step {
      case Script(host) =>
        CarriedKeepsCache(s, s.flights[host].items[s.flights[host].done]);
      case RunOrphan(item) =>
        CarriedKeepsCache(s, item);
    }
    forall k | k in s'.cache.entries ensures AirborneOk(s', k, s'.cache.entries[k]) {
      StaysAirborne(s, k, s.cache.entries[k], s', s'.cache.entries[k]);
    }
  }

  lemma {:induction false} AirborneKept(maxBytes: nat, s: Sys, step: Step, s': Sys)
    requires Inv(maxBytes, s) && Next(maxBytes, s, step, s')
    ensures AllAirborneOk(s')
  {
    hide Next, Inv, AllAirborneOk;
    if step.Batch? {
      BatchAirborne(maxBytes, s, step.edits, step.result, s');
    } else if step.BeginFlush? || step.FinishFlush? {
      FlushAirborne(maxBytes, s, step, s');
    } else if step.Script? || step.RunOrphan? {
      ScriptAirborne(maxBytes, s, step, s');
    } else {
      IdleAirborne(maxBytes, s, step, s');
    }
  }

  lemma {:induction false} IdleAirborne(maxBytes: nat, s: Sys, step: Step, s': Sys)
    requires Inv(maxBytes, s) && Next(maxBytes, s, step, s')
    requires !step.Batch? && !step.BeginFlush? && !step.FinishFlush? && !step.Script? && !step.RunOrphan?
    ensures AllAirborneOk(s')
  {
    hide CleanInserted, BatchApplied, Finished, MarkedInFlight, Carried, CacheOk, FlightsOk, OrphansOk, BasesKnown,
         Guarded, AirborneOk, LoadsOk, FetchesOk, EditedEntry, TakesEligible, HostConflict;
    match step {
      case FinishLoad(host) =>
        LoadPublishedAt(s.cache, s.preparing[host].key, s.preparing[host].snapshot.value, maxBytes, s'.cache);
      case PublishRead(key, snapshot) =>
        CleanInsertedAt(s.cache, key, snapshot, maxBytes, s'.cache);
      case _ =>
    }
    forall k | k in s'.cache.entries ensures AirborneOk(s', k, s'.cache.entries[k]) {
      if k in s.cache.entries {
        StaysAirborne(s, k, s.cache.entries[k], s', s'.cache.entries[k]);
      } else {
        FreshAirborne(s', k);
      }
    }
  }

  lemma {:induction false} BatchEntryAirborne(
      maxBytes: nat, s: Sys, edits: seq<PreparedEdit>, result: BatchResult, s': Sys, i: nat)
    requires Inv(maxBytes, s) && EditedIn(s.cache, edits, i, s'.cache)
    requires s' == s.(cache := s'.cache)
    ensures AirborneOk(s', edits[i].key, s'.cache.entries[edits[i].key])
  {
    hide CacheOk, FlightsOk, OrphansOk, BasesKnown, Guarded, LoadsOk, FetchesOk;
    var k := edits[i].key;
    EditedAirborne(s, k, s.cache.entries[k], s'.cache.entries[k]);
  }

  lemma {:induction false} FreshAirborne(s: Sys, k: Key)
    requires k in s.cache.entries && s.cache.entries[k].inFlight.None?
    ensures AirborneOk(s, k, s.cache.entries[k])
  {
  }

  // ----- provenance -----

  lemma {:induction false} FetchedKnown(history: seq<Event>, key: Key, snapshot: Snapshot)
    requires Fetched(key, snapshot) in history
    ensures Known(history, key, BaseVersion(snapshot.base))
  {
    var j :| 0 <= j < |history| && history[j] == Fetched(key, snapshot);
    assert Shows(history[j], key, BaseVersion(snapshot.base));
  }

  lemma {:induction false} FinishBaseKnown(
      s: Sys, host: string, reported: nat, error: Option<ErrorKind>, s': Sys, k: Key)
    requires AllAirborneOk(s) && FlightsOk(s) && BasesKnown(s) && k in s'.cache.entries
    requires FlushLanded(s, host, reported, error, s')
    ensures Known(s.history, k, BaseVersion(s'.cache.entries[k].base))
  {
    hide Known, Recorded, Finished;
    var e, f := s.cache.entries[k], s.flights[host];
    assert FlightOk(s, host, f);
    if k.host == host && e.inFlight.Some? {
      var i :| FliesAs(f.items, i, k, e) && Carries(f.items[i], e);
      FinishedAt(s.cache.entries, f.items, reported, error, k, i);
      if i < reported {
        RecordedKnown(s.history, f.items[i]);
      }
    } else {
      assert k.host != host ==> !HasItem(f.items, k) by {
        assert forall i :: 0 <= i < |f.items| ==> ItemOk(f.items[i], host, s.cache.nextGeneration);
      }
      FinishedGrounded(s.cache.entries, f.items, reported, error, k);
    }
  }

  lemma {:induction false} BasesKept(maxBytes: nat, s: Sys, step: Step, s': Sys)
    requires Inv(maxBytes, s) && Next(maxBytes, s, step, s')
    ensures BasesKnown(s')
  {
    hide CleanInserted, BatchApplied, Finished, Carried, CacheOk, FlightsOk, OrphansOk, AllAirborneOk,
         Guarded, FetchesOk, TakesEligible, HostConflict, Known;
    HistoryGrows(maxBytes, s, step, s');
    match step {
      case FinishLoad(host) =>
        LoadPublishedAt(s.cache, s.preparing[host].key, s.preparing[host].snapshot.value, maxBytes, s'.cache);
        FetchedKnown(s.history, s.preparing[host].key, s.preparing[host].snapshot.value);
      case PublishRead(key, snapshot) =>
        CleanInsertedAt(s.cache, key, snapshot, maxBytes, s'.cache);
        FetchedKnown(s.history, key, snapshot);
      case Batch(edits, result) =>
        BatchAppliedAt(s.cache, edits, maxBytes, s'.cache, result);
      case Script(host) =>
        CarriedKeepsCache(s, s.flights[host].items[s.flights[host].done]);
      case RunOrphan(item) =>
        CarriedKeepsCache(s, item);
      case _ =>
    }
    forall k | k in s'.cache.entries ensures Known(s'.history, k, BaseVersion(s'.cache.entries[k].base)) {
      if step.FinishFlush? {
        FinishBaseKnown(s, step.host, step.reported, step.error, s', k);
      } else if step.Batch? && step.result.Buffered? && k in EditKeys(step.edits) {
        var i :| 0 <= i < |step.edits| && EditKeys(step.edits)[i] == k;
        assert EditedIn(s.cache, step.edits, i, s'.cache);
      }
      assert Known(s.history, k, BaseVersion(s'.cache.entries[k].base));
      KnownLonger(s.history, s'.history, k, BaseVersion(s'.cache.entries[k].base));
    }
  }

  /** Carrying out an item whose base the bridge knows keeps the history guarded. */
  lemma {:induction false} CarriedGuarded(s: Sys, item: CommitItem)
    requires Guarded(s.history) && item.desiredSha256 == DigestOf(item.desired)
    requires Known(s.history, item.key, BaseVersion(item.base))
    ensures Carried(s, item).Some? ==> Guarded(Carried(s, item).value.history)
  {
    hide Carried, Known;
    CarriedKeepsCache(s, item);
    ScriptItemComparesAndSwaps(s, item);
    if Carried(s, item).Some? {
      var history := Carried(s, item).value.history;
      forall i | 0 <= i < |history| && history[i].Applied?
        ensures Known(history[..i], history[i].key, history[i].replaced)
      {
        assert history[..i] == s.history[..i];
        assert s.history[..|s.history|] == s.history;
      }
    }
  }

  lemma {:induction false} GuardedUnchanged(history: seq<Event>, event: Event)
    requires Guarded(history) && !event.Applied?
    ensures Guarded(history + [event])
  {
    hide Known;
    var longer := history + [event];
    forall i | 0 <= i < |longer| && longer[i].Applied? ensures Known(longer[..i], longer[i].key, longer[i].replaced) {
      assert longer[..i] == history[..i];
    }
  }

  lemma {:induction false} GuardedKept(maxBytes: nat, s: Sys, step: Step, s': Sys)
    requires Inv(maxBytes, s) && Next(maxBytes, s, step, s')
    ensures Guarded(s'.history)
  {
    hide CleanInserted, BatchApplied, Finished, Carried, CacheOk, AllAirborneOk,
         Guarded, FetchesOk, TakesEligible, HostConflict, Known, BasesKnown;
    match step
    case FetchLoad(host) =>
      GuardedUnchanged(s.history, Fetched(s.preparing[host].key, Fetch(s.remote, s.preparing[host].key).value));
    case ReadRemote(key) =>
      GuardedUnchanged(s.history, Fetched(key, Fetch(s.remote, key).value));
    case Intrude(key, node) =>
      GuardedUnchanged(s.history, Intruded(key));
    case Script(host) =>
      assert FlightOk(s, host, s.flights[host]);
      assert ItemOk(s.flights[host].items[s.flights[host].done], host, s.cache.nextGeneration);
      CarriedGuarded(s, s.flights[host].items[s.flights[host].done]);
    case RunOrphan(item) =>
      CarriedGuarded(s, item);
    case _ =>
  }

  lemma {:induction false} InvKept(maxBytes: nat, s: Sys, step: Step, s': Sys)
    requires Inv(maxBytes, s) && Next(maxBytes, s, step, s')
    ensures Inv(maxBytes, s')
  {
    hide Next, CacheOk, FlightsOk, OrphansOk, AllAirborneOk, BasesKnown, LoadsOk, FetchesOk, Guarded;
    CacheKept(maxBytes, s, step, s');
    FlightsKept(maxBytes, s, step, s');
    OrphansKept(maxBytes, s, step, s');
    AirborneKept(maxBytes, s, step, s');
    BasesKept(maxBytes, s, step, s');
    LoadsKept(maxBytes, s, step, s');
    FetchesKept(maxBytes, s, step, s');
    GuardedKept(maxBytes, s, step, s');
  }

  lemma {:induction false} InvInitially(maxBytes: nat, s: Sys)
    requires Init(s)
    ensures Inv(maxBytes, s)
  {
    assert Sizes(s.cache.entries) == map[];
  }

  lemma {:induction false} Reachable(maxBytes: nat, run: Run, i: nat)
    requires IsRun(maxBytes, run) && i < |run.states|
    ensures Inv(maxBytes, run.states[i])
  {
    hide Next, Inv;
    if i == 0 {
      InvInitially(maxBytes, run.states[0]);
    } else {
      Reachable(maxBytes, run, i - 1);
      InvKept(maxBytes, run.states[i - 1], run.steps[i - 1], run.states[i]);
    }
  }
}
