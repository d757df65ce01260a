/** What becomes of a path after the bridge has read it: as long as nobody else writes the path, the
    bridge's own commits tell whether the remote is still as it was read. */
module EditReads {
  import opened Common
  import opened EditTypes
  import opened EditProtocol
  import opened EditInvariants
  import opened EditSafety

  /** The version of `key` after `events`, from `version`: what the last commit on it wrote. */
  function After(events: seq<Event>, key: Key, version: Version): Version {
    if events == [] then version
    else
      match events[|events| - 1]
      case Applied(k, _, _, written) =>
        if k == key then written else After(events[..|events| - 1], key, version)
      case _ => After(events[..|events| - 1], key, version)
  }

  /** No other writer has touched `key`. */
  predicate Undisturbed(events: seq<Event>, key: Key) {
    forall i :: 0 <= i < |events| ==> events[i] != Intruded(key)
  }

  predicate IsFetch(history: seq<Event>, j: int, key: Key, snapshot: Snapshot) {
    0 <= j < |history| && history[j] == Fetched(key, snapshot)
  }

  /** The last commit on the path since the `j`-th event, if there is one, wrote what was read then. */
  predicate NotOvertaken(history: seq<Event>, j: nat, key: Key, snapshot: Snapshot)
    requires j < |history|
  {
    After(history[j + 1..], key, BaseVersion(snapshot.base)) == BaseVersion(snapshot.base)
  }

  /** From any fetch that no other writer has followed, commits lead to what the remote holds. */
  ghost predicate Traced(s: Sys) {
    forall j, key, snapshot | IsFetch(s.history, j, key, snapshot) && Undisturbed(s.history[j + 1..], key) ::
      VersionAt(s.remote, key) == After(s.history[j + 1..], key, BaseVersion(snapshot.base))
  }

  lemma {:induction false} AfterOne(events: seq<Event>, event: Event, key: Key, version: Version)
    ensures After(events + [event], key, version)
         == if event.Applied? && event.key == key then event.written else After(events, key, version)
    ensures Undisturbed(events + [event], key) <==> Undisturbed(events, key) && event != Intruded(key)
  {
    assert (events + [event])[..|events|] == events;
    if Undisturbed(events + [event], key) {
      assert forall i :: 0 <= i < |events| ==> (events + [event])[i] == events[i];
      assert (events + [event])[|events|] == event;
    }
  }

  /** What one event does to the remote. */
  ghost predicate Reflects(remote: Remote, event: Event, remote': Remote) {
    match event
    case Fetched(key, snapshot) => remote' == remote && VersionAt(remote, key) == BaseVersion(snapshot.base)
    case Applied(key, _, _, written) =>
      && VersionAt(remote', key) == written
      && forall k :: k != key ==> VersionAt(remote', k) == VersionAt(remote, k)
    case Intruded(key) => forall k :: k != key ==> VersionAt(remote', k) == VersionAt(remote, k)
  }

  lemma {:induction false} TracedFurther(s: Sys, event: Event, s': Sys)
    requires Traced(s) && s'.history == s.history + [event] && Reflects(s.remote, event, s'.remote)
    ensures Traced(s')
  {
    hide VersionAt, BaseVersion;
    var n := |s.history|;
    forall j, key, snapshot |
      IsFetch(s'.history, j, key, snapshot) && Undisturbed(s'.history[j + 1..], key)
      ensures VersionAt(s'.remote, key) == After(s'.history[j + 1..], key, BaseVersion(snapshot.base))
    {
      if j == n {
        assert s'.history[j + 1..] == [];
      } else {
        assert s'.history[j + 1..] == s.history[j + 1..] + [event];
        AfterOne(s.history[j + 1..], event, key, BaseVersion(snapshot.base));
        assert IsFetch(s.history, j, key, snapshot);
      }
    }
  }

  lemma {:induction false} CarriedReflects(s: Sys, item: CommitItem)
    requires item.desiredSha256 == DigestOf(item.desired) && Carried(s, item).Some?
    ensures var t := Carried(s, item).value;
            && t.history == s.history + [t.history[|s.history|]]
            && Reflects(s.remote, t.history[|s.history|], t.remote)
  {
    ScriptItemComparesAndSwaps(s, item);
    var t := Carried(s, item).value;
    forall k | k != item.key ensures VersionAt(t.remote, k) == VersionAt(s.remote, k) {
      assert At(t.remote, k) == At(s.remote, k);
    }
  }

  lemma {:induction false} CarriedTraced(s: Sys, item: CommitItem, s': Sys)
    requires Traced(s) && item.desiredSha256 == DigestOf(item.desired) && Carried(s, item).Some?
    requires s'.history == Carried(s, item).value.history && s'.remote == Carried(s, item).value.remote
    ensures Traced(s')
  {
    hide Carried, Traced, Reflects;
    CarriedReflects(s, item);
    TracedFurther(s, s'.history[|s.history|], s');
  }

  lemma {:induction false} SameTraced(s: Sys, s': Sys)
    requires Traced(s) && s'.history == s.history && s'.remote == s.remote
    ensures Traced(s')
  {
  }

  lemma {:induction false} ScriptTraced(maxBytes: nat, s: Sys, host: string, s': Sys)
    requires Inv(maxBytes, s) && Traced(s) && Next(maxBytes, s, Script(host), s')
    ensures Traced(s')
  {
    hide CacheOk, OrphansOk, BasesKnown, LoadsOk, FetchesOk, Guarded, AllAirborneOk, Carried, Traced, Known, Recorded;
    var f := s.flights[host];
    assert FlightOk(s, host, f) && ItemOk(f.items[f.done], host, s.cache.nextGeneration);
    if Carried(s, f.items[f.done]).Some? {
      CarriedTraced(s, f.items[f.done], s');
    } else {
      SameTraced(s, s');
    }
  }

  lemma {:induction false} EventTraced(maxBytes: nat, s: Sys, step: Step, s': Sys)
    requires Traced(s) && Next(maxBytes, s, step, s')
    requires step.FetchLoad? || step.ReadRemote? || step.Intrude?
    ensures Traced(s')
  {
    hide Traced;
    match step
    case FetchLoad(host) => TracedFurther(s, s'.history[|s.history|], s');
    case ReadRemote(key) => TracedFurther(s, s'.history[|s.history|], s');
    case Intrude(key, node) =>
      forall k | k != key ensures VersionAt(s'.remote, k) == VersionAt(s.remote, k) {
        assert At(s'.remote, k) == At(s.remote, k);
      }
      TracedFurther(s, Intruded(key), s');
  }

  lemma {:induction false} TracedKept(maxBytes: nat, s: Sys, step: Step, s': Sys)
    requires Inv(maxBytes, s) && Traced(s) && Next(maxBytes, s, step, s')
    ensures Traced(s')
  {
    hide Traced, CleanInserted, BatchApplied, Finished, Carried, TakesEligible, HostConflict, CacheOk, FlightsOk,
         BasesKnown, LoadsOk, FetchesOk, Guarded, AllAirborneOk, Fetch;
    match step
    case Script(host) => ScriptTraced(maxBytes, s, host, s');
    case RunOrphan(item) =>
      if Carried(s, item).Some? {
        CarriedTraced(s, item, s');
      }
    case FetchLoad(_) => EventTraced(maxBytes, s, step, s');
    case ReadRemote(_) => EventTraced(maxBytes, s, step, s');
    case Intrude(_, _) => EventTraced(maxBytes, s, step, s');
    case _ => SameTraced(s, s');
  }

  lemma {:induction false} TracedAlways(maxBytes: nat, run: Run, n: nat)
    requires IsRun(maxBytes, run) && n < |run.states|
    ensures Traced(run.states[n])
  {
    hide Next, Inv, Traced;
    if n == 0 {
      TracedInitially(run.states[0]);
    } else {
      TracedAlways(maxBytes, run, n - 1);
      Reachable(maxBytes, run, n - 1);
      TracedKept(maxBytes, run.states[n - 1], run.steps[n - 1], run.states[n]);
    }
  }

  lemma {:induction false} TracedInitially(s: Sys)
    requires Init(s)
    ensures Traced(s)
  {
  }

  /** In every run, with any flushes, retries and scripts that outlive their flush, and with other writers on
      other paths: a path is still as it was read if and only if the last commit the bridge has made on it
      since, if any, wrote just that. */
  lemma {:induction false} StillAsReadIff(maxBytes: nat, run: Run, n: nat, j: nat, key: Key, snapshot: Snapshot)
    requires IsRun(maxBytes, run) && n < |run.states| && IsFetch(run.states[n].history, j, key, snapshot)
    requires Undisturbed(run.states[n].history[j + 1..], key)
    ensures VersionAt(run.states[n].remote, key) == BaseVersion(snapshot.base)
       <==> NotOvertaken(run.states[n].history, j, key, snapshot)
  {
    hide Next, After, VersionAt, BaseVersion;
    TracedAlways(maxBytes, run, n);
  }
}
