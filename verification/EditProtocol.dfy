/** The cache and its remote host as a transition system. A step is one critical section of the
    state mutex, one remote fetch, or one item of a batch script; every interleaving is a run. */
module EditProtocol {
  import opened Common
  import opened EditTypes

  // ----- the remote side -----

  datatype Node = File(bytes: Bytes, mode: nat) | Other

  type Remote = map<Key, Node>

  /** What tells two states of a path apart, up to the mode. */
  datatype Version = NoFile | Contents(sha256: Digest) | Irregular

  const DEFAULT_MODE: nat := 0x180

  function At(remote: Remote, key: Key): Option<Node> {
    if key in remote then Some(remote[key]) else None
  }

  function With(remote: Remote, key: Key, node: Option<Node>): Remote {
    if node.Some? then remote[key := node.value] else remote - {key}
  }

  function VersionAt(remote: Remote, key: Key): Version {
    match At(remote, key)
    case None => NoFile
    case Some(File(bytes, _)) => Contents(Sha256(bytes))
    case Some(Other) => Irregular
  }

  function BaseVersion(base: Base): Version {
    match base
    case Missing => NoFile
    case Regular(sha256, _) => Contents(sha256)
  }

  function DesiredVersion(desired: Desired): Version {
    match desired
    case Deleted => NoFile
    case Present(bytes) => Contents(Sha256(bytes))
  }

  /** A fetch reports a missing or a regular file, and fails on anything else. */
  function Fetch(remote: Remote, key: Key): (r: Option<Snapshot>)
    ensures r.Some? ==> SnapshotOk(r.value) && BaseVersion(r.value.base) == VersionAt(remote, key)
  {
    match At(remote, key)
    case None => Some(Snapshot(Missing, Deleted))
    case Some(File(bytes, mode)) => Some(Snapshot(Regular(Sha256(bytes), mode), Present(bytes)))
    case Some(Other) => None
  }

  function CommitMode(base: Base): nat {
    match base
    case Missing => DEFAULT_MODE
    case Regular(_, mode) => mode
  }

  /** The base a reported success leaves behind. */
  function ResultBase(item: CommitItem): Base {
    match item.desired
    case Deleted => Missing
    case Present(bytes) => Regular(Sha256(bytes), CommitMode(item.base))
  }

  datatype ItemResult = Conflicted | Broken | Unchanged | Changed(node: Option<Node>)

  /** One item of the batch script: check the base, then stage and replace, create or remove. */
  function RunItem(current: Option<Node>, item: CommitItem): ItemResult {
    if item.base.Missing? && current.Some? then
      Conflicted
    else if item.base.Regular? && !(current.Some? && current.value.File?) then
      Conflicted
    else if item.base.Regular? && Sha256(current.value.bytes) != item.base.sha256 then
      Conflicted
    else
      match item.desired
      case Deleted => if item.base.Missing? then Unchanged else Changed(None)
      case Present(bytes) =>
        var staged := File(bytes, CommitMode(item.base));
        if item.desiredSha256 != Some(Sha256(bytes)) then Broken
        else if item.base.Regular? && current == Some(staged) then Unchanged
        else Changed(Some(staged))
  }

  // ----- states -----

  /** A running flush: the script has carried out the first `done` items, or stopped there for good. */
  datatype Flight = Flight(items: seq<CommitItem>, done: nat, stopped: bool)

  /** Who holds the preparation lock of a host. */
  datatype Holder = Barrier | Loading(key: Key, snapshot: Option<Snapshot>)

  datatype Event =
    | Fetched(key: Key, snapshot: Snapshot)
    | Applied(key: Key, generation: nat, replaced: Version, written: Version)
    | Intruded(key: Key)

  datatype Sys = Sys(
    cache: Cache,
    remote: Remote,
    preparing: map<string, Holder>,
    flights: map<string, Flight>,
    orphans: set<CommitItem>,
    history: seq<Event>)

  ghost predicate Init(s: Sys) {
    && s.cache == INITIAL_CACHE
    && s.preparing == map[] && s.flights == map[] && s.orphans == {} && s.history == []
  }

  datatype Step =
    | Look(key: Key)
    | AcquireLoad(key: Key)
    | FetchLoad(host: string)
    | FinishLoad(host: string)
    | AbandonLoad(host: string)
    | ReadRemote(key: Key)
    | PublishRead(key: Key, snapshot: Snapshot)
    | Batch(edits: seq<PreparedEdit>, result: BatchResult)
    | AcquireBarrier(host: string)
    | ReleaseBarrier(host: string)
    | BeginFlush(host: string, items: seq<CommitItem>)
    | FlushIdle(host: string)
    | Script(host: string)
    | FinishFlush(host: string, reported: nat, error: Option<ErrorKind>)
    | RunOrphan(item: CommitItem)
    | Invalidate(host: string)
    | Discard(host: string)
    | Retry(host: string)
    | Intrude(key: Key, node: Option<Node>)

  function Successes(items: seq<CommitItem>, n: nat): (r: seq<CommitSuccess>)
    requires n <= |items|
    ensures |r| == n
  {
    seq(n, i requires 0 <= i < n => CommitSuccess(items[i].key, items[i].generation, ResultBase(items[i])))
  }

  /** The script meets `item`: `s` with the item carried out, if its guard holds. */
  function Carried(s: Sys, item: CommitItem): Option<Sys> {
    var applied := Applied(item.key, item.generation, VersionAt(s.remote, item.key), DesiredVersion(item.desired));
    match RunItem(At(s.remote, item.key), item)
    case Conflicted => None
    case Broken => None
    case Unchanged => Some(s.(history := s.history + [applied]))
    case Changed(node) => Some(s.(remote := With(s.remote, item.key, node), history := s.history + [applied]))
  }

  ghost predicate ScriptRan(s: Sys, host: string, s': Sys) {
    && host in s.flights
    && var f := s.flights[host];
    && f.done < |f.items| && !f.stopped
    && match Carried(s, f.items[f.done])
       case None => s' == s.(flights := s.flights[host := f.(stopped := true)])
       case Some(t) => s' == t.(flights := s.flights[host := f.(done := f.done + 1)])
  }

  /** A flush lands. Without an error the backend has reported every item; with one it has reported
      some of what was done, and a script still running goes on unobserved. */
  ghost predicate FlushLanded(s: Sys, host: string, reported: nat, error: Option<ErrorKind>, s': Sys) {
    && host in s.flights
    && var f := s.flights[host];
    && reported <= f.done <= |f.items|
    && (error.None? ==> reported == |f.items|)
    && var left := if f.stopped then {} else set i | f.done <= i < |f.items| :: f.items[i];
    && s' == s.(cache := s.cache.(entries := Finished(s.cache.entries, f.items, Successes(f.items, reported), error)),
                flights := s.flights - {host},
                orphans := s.orphans + left)
  }

  ghost predicate Loads(s: Sys, host: string) {
    host in s.preparing && s.preparing[host].Loading?
  }

  ghost predicate Next(maxBytes: nat, s: Sys, step: Step, s': Sys) {
    match step
    case Look(key) =>
      s' == s.(cache := Touched(s.cache, key))
    case AcquireLoad(key) =>
      && key.host !in s.preparing && key !in s.cache.entries
      && s' == s.(cache := Touched(s.cache, key), preparing := s.preparing[key.host := Loading(key, None)])
    case FetchLoad(host) =>
      && Loads(s, host) && s.preparing[host].snapshot.None?
      && var key := s.preparing[host].key;
      && var snapshot := Fetch(s.remote, key);
      && snapshot.Some?
      && s' == s.(preparing := s.preparing[host := Loading(key, snapshot)],
                  history := s.history + [Fetched(key, snapshot.value)])
    case FinishLoad(host) =>
      && Loads(s, host) && s.preparing[host].snapshot.Some?
      && LoadPublished(s.cache, s.preparing[host].key, s.preparing[host].snapshot.value, maxBytes, s'.cache)
      && s' == s.(cache := s'.cache, preparing := s.preparing - {host})
    case AbandonLoad(host) =>
      && Loads(s, host)
      && s' == s.(preparing := s.preparing - {host})
    case ReadRemote(key) =>
      && var snapshot := Fetch(s.remote, key);
      && snapshot.Some?
      && s' == s.(history := s.history + [Fetched(key, snapshot.value)])
    case PublishRead(key, snapshot) =>
      && Fetched(key, snapshot) in s.history
      && CleanInserted(s.cache, key, snapshot, maxBytes, s'.cache)
      && s' == s.(cache := s'.cache)
    case Batch(edits, result) =>
      && (edits != [] ==> edits[0].key.host !in s.preparing)
      && BatchApplied(s.cache, edits, maxBytes, s'.cache, result)
      && s' == s.(cache := s'.cache)
    case AcquireBarrier(host) =>
      && host !in s.preparing
      && s' == s.(preparing := s.preparing[host := Barrier])
    case ReleaseBarrier(host) =>
      && host in s.preparing && s.preparing[host].Barrier?
      && s' == s.(preparing := s.preparing - {host})
    case BeginFlush(host, items) =>
      && host !in s.flights && !HostConflict(s.cache.entries, host)
      && TakesEligible(items, s.cache.entries, host) && items != []
      && s' == s.(cache := s.cache.(entries := MarkedInFlight(s.cache.entries, host)),
                  flights := s.flights[host := Flight(items, 0, false)])
    case FlushIdle(host) =>
      && host !in s.flights && !HostConflict(s.cache.entries, host)
      && TakesEligible([], s.cache.entries, host)
      && s' == s
    case Script(host) =>
      ScriptRan(s, host, s')
    case FinishFlush(host, reported, error) =>
      FlushLanded(s, host, reported, error, s')
    case RunOrphan(item) =>
      && item in s.orphans
      && var carried := Carried(s, item);
      && s' == if carried.Some? then carried.value else s
    case Invalidate(host) =>
      s' == s.(cache := s.cache.(entries := Invalidated(s.cache.entries, host)))
    case Discard(host) =>
      s' == s.(cache := s.cache.(entries := Discarded(s.cache.entries, host)))
    case Retry(host) =>
      s' == s.(cache := s.cache.(entries := Retried(s.cache.entries, host)))
    case Intrude(key, node) =>
      s' == s.(remote := With(s.remote, key, node), history := s.history + [Intruded(key)])
  }

  // ----- runs -----

  datatype Run = Run(states: seq<Sys>, steps: seq<Step>)

  ghost predicate IsRun(maxBytes: nat, run: Run) {
    && |run.states| == |run.steps| + 1
    && Init(run.states[0])
    && forall i :: 0 <= i < |run.steps| ==> Next(maxBytes, run.states[i], run.steps[i], run.states[i + 1])
  }

  /** The script's item is a compare-and-swap on the version of the path: it goes ahead only on the
      base version, it leaves the desired version, and it touches no other path. */
  lemma {:induction false} ScriptItemComparesAndSwaps(s: Sys, item: CommitItem)
    requires item.desiredSha256 == DigestOf(item.desired)
    ensures Carried(s, item).Some? <==> VersionAt(s.remote, item.key) == BaseVersion(item.base)
    ensures Carried(s, item).Some? ==>
      && VersionAt(Carried(s, item).value.remote, item.key) == DesiredVersion(item.desired)
      && forall k :: k != item.key ==> At(Carried(s, item).value.remote, k) == At(s.remote, k)
  {
  }

  /** An item that goes ahead leaves exactly the file it asks for, with the mode of its base or, for a new file,
      the mode 0600; or no file. */
  lemma {:induction false} ScriptItemLeaves(s: Sys, item: CommitItem)
    requires item.desiredSha256 == DigestOf(item.desired) && Carried(s, item).Some?
    ensures At(Carried(s, item).value.remote, item.key)
         == match item.desired
            case Deleted => None
            case Present(bytes) => Some(File(bytes, if item.base.Missing? then 0x180 else item.base.mode))
  {
  }
}
