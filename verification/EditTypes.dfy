/** The records of the write-back edit cache and what each critical section of its
    state mutex does to them, as functions and relations on plain values. */
module EditTypes {
  import opened Common

  datatype Key = Key(host: string, path: string)

  /** SHA-256, idealised as collision free: a digest is told apart by what it digests. */
  datatype Digest = Sha256(of: Bytes)

  /** The remote version an entry was derived from. */
  datatype Base = Missing | Regular(sha256: Digest, mode: nat)

  datatype Desired = Present(bytes: Bytes) | Deleted

  datatype ErrorKind = Transient | Conflict | OutcomeUnknown | Permanent

  datatype Snapshot = Snapshot(base: Base, desired: Desired)

  datatype Entry = Entry(
    base: Base,
    desired: Desired,
    desiredSha256: Option<Digest>,
    generation: nat,
    dirty: bool,
    inFlight: Option<nat>,
    conflict: Option<ErrorKind>,
    lru: nat)

  type Entries = map<Key, Entry>

  /** What the state mutex protects, less the byte counter, which is derived from it. */
  datatype Cache = Cache(entries: Entries, lru: nat, nextGeneration: nat)

  datatype PreparedEdit = PreparedEdit(key: Key, expectedGeneration: nat, desired: Desired)

  datatype CommitItem = CommitItem(
    key: Key, base: Base, desired: Desired, desiredSha256: Option<Digest>, generation: nat)

  datatype CommitSuccess = CommitSuccess(key: Key, generation: nat, base: Base)

  datatype BatchResult =
    | Buffered(generations: seq<nat>)
    | ImmediateWriteRequired
    | Rejected(kind: ErrorKind)

  datatype Progress = Clean | More | Failed(kind: ErrorKind)

  const INITIAL_CACHE := Cache(map[], 0, 1)

  // ----- sizes -----

  function Size(desired: Desired): nat {
    match desired
    case Present(bytes) => |bytes|
    case Deleted => 0
  }

  function DigestOf(desired: Desired): Option<Digest> {
    match desired
    case Present(bytes) => Some(Sha256(bytes))
    case Deleted => None
  }

  /** A base taken from the remote carries its digest; anything else is hashed locally. */
  function SnapshotDigest(snapshot: Snapshot): Option<Digest> {
    match (snapshot.base, snapshot.desired)
    case (Regular(sha256, _), Present(_)) => Some(sha256)
    case (_, desired) => DigestOf(desired)
  }

  /** A fetched snapshot reports the digest of the very bytes it carries. */
  predicate SnapshotOk(snapshot: Snapshot) {
    match snapshot.base
    case Missing => snapshot.desired == Deleted
    case Regular(sha256, _) => snapshot.desired == Present(sha256.of)
  }

  ghost function Sizes(entries: Entries): map<Key, nat> {
    map k | k in entries :: Size(entries[k].desired)
  }

  ghost function TotalBytes(entries: Entries): nat {
    Sum(Sizes(entries))
  }

  lemma {:induction false} TotalUpdate(entries: Entries, k: Key, e: Entry)
    ensures TotalBytes(entries[k := e])
         == TotalBytes(entries) - (if k in entries then Size(entries[k].desired) else 0) + Size(e.desired)
  {
    SumUpdate(Sizes(entries), k, Size(e.desired));
    assert Sizes(entries[k := e]) == Sizes(entries)[k := Size(e.desired)];
  }

  lemma {:induction false} TotalRemove(entries: Entries, k: Key)
    requires k in entries
    ensures TotalBytes(entries) == Size(entries[k].desired) + TotalBytes(entries - {k})
  {
    SumRemove(Sizes(entries), k);
    assert Sizes(entries - {k}) == Sizes(entries) - {k};
  }

  lemma {:induction false} TotalSubset(entries: Entries, fewer: Entries)
    requires forall k :: k in fewer ==> k in entries && fewer[k].desired == entries[k].desired
    ensures TotalBytes(fewer) <= TotalBytes(entries)
  {
    SumSubset(Sizes(entries), Sizes(fewer));
  }

  /** Bytes depend on what is desired under each key and on nothing else. */
  lemma {:induction false} TotalSame(entries: Entries, others: Entries)
    requires entries.Keys == others.Keys
    requires forall k :: k in entries ==> others[k].desired == entries[k].desired
    ensures TotalBytes(others) == TotalBytes(entries)
  {
    assert Sizes(entries) == Sizes(others);
  }

  // ----- well-formed caches -----

  ghost predicate EntryOk(e: Entry, nextGeneration: nat) {
    && e.generation < nextGeneration
    && e.desiredSha256 == DigestOf(e.desired)
    && (e.dirty ==> e.generation > 0)
    && (e.inFlight.Some? ==> e.dirty && e.conflict.None? && 0 < e.inFlight.value <= e.generation)
    && (e.conflict.Some? ==> e.dirty)
  }

  /** Entries are well formed and their bytes are within the budget. */
  ghost predicate CacheOk(c: Cache, maxBytes: nat) {
    && c.nextGeneration > 0
    && TotalBytes(c.entries) <= maxBytes
    && forall k :: k in c.entries ==> EntryOk(c.entries[k], c.nextGeneration)
  }

  /** LRU numbers are handed out once. */
  ghost predicate LruOk(c: Cache) {
    && (forall k :: k in c.entries ==> c.entries[k].lru <= c.lru)
    && (forall k, j :: k in c.entries && j in c.entries && c.entries[k].lru == c.entries[j].lru ==> k == j)
  }

  // ----- eviction -----

  predicate Evictable(key: Key, e: Entry, protected: seq<Key>) {
    key !in protected && !e.dirty && e.inFlight.None?
  }

  ghost function Pinned(entries: Entries, protected: seq<Key>): Entries {
    map k | k in entries && !Evictable(k, entries[k], protected) :: entries[k]
  }

  /** `kept` is `entries` without some evictable entries, none of them more recently used than
      an evictable entry that stayed. */
  ghost predicate EvictedInLruOrder(entries: Entries, kept: Entries, protected: seq<Key>) {
    && kept.Keys <= entries.Keys
    && (forall k :: k in kept ==> kept[k] == entries[k])
    && (forall k :: k in entries && k !in kept ==> Evictable(k, entries[k], protected))
    && (forall k, j :: k in entries && k !in kept && j in kept && Evictable(j, kept[j], protected)
          ==> entries[k].lru <= entries[j].lru)
  }

  /** `k` was the last entry evicted. */
  ghost predicate LastEvicted(entries: Entries, kept: Entries, k: Key) {
    && k in entries && k !in kept
    && forall j :: j in entries && j !in kept ==> entries[j].lru <= entries[k].lru
  }

  /** The last entry evicted was needed. */
  ghost predicate NeededLast(entries: Entries, kept: Entries, maxBytes: nat, additional: nat) {
    exists k :: LastEvicted(entries, kept, k) && TotalBytes(kept) + Size(entries[k].desired) + additional > maxBytes
  }

  /** Making room for `additional` bytes: evict in LRU order, stop as soon as it fits, and fail only
      with nothing left to evict. */
  ghost predicate CapacityMade(
    entries: Entries, kept: Entries, maxBytes: nat, additional: nat, protected: seq<Key>, ok: bool)
  {
    && EvictedInLruOrder(entries, kept, protected)
    && (ok <==> TotalBytes(kept) + additional <= maxBytes)
    && (ok <==> TotalBytes(Pinned(entries, protected)) + additional <= maxBytes)
    && (!ok ==> forall k :: k in kept ==> !Evictable(k, kept[k], protected))
    && (kept != entries ==> NeededLast(entries, kept, maxBytes, additional))
  }

  // ----- insertion and lookup -----

  function CleanEntry(snapshot: Snapshot, lru: nat): Entry {
    Entry(snapshot.base, snapshot.desired, SnapshotDigest(snapshot), 0, false, None, None, lru)
  }

  /** Looking a key up refreshes it and uses up one LRU number, hit or miss. */
  function Touched(c: Cache, key: Key): Cache {
    var entries := if key in c.entries then c.entries[key := c.entries[key].(lru := c.lru + 1)] else c.entries;
    c.(entries := entries, lru := c.lru + 1)
  }

  /** A snapshot becomes a clean entry if the key is absent and room can be made. */
  ghost predicate CleanInserted(c: Cache, key: Key, snapshot: Snapshot, maxBytes: nat, c': Cache) {
    if key in c.entries || Size(snapshot.desired) > maxBytes then
      c' == c
    else
      exists kept: Entries, ok: bool ::
        && CapacityMade(c.entries, kept, maxBytes, Size(snapshot.desired), [], ok)
        && c' == if ok then Cache(kept[key := CleanEntry(snapshot, c.lru + 1)], c.lru + 1, c.nextGeneration)
                 else c.(entries := kept)
  }

  /** The end of a load: a cache without a budget keeps nothing. */
  ghost predicate LoadPublished(c: Cache, key: Key, snapshot: Snapshot, maxBytes: nat, c': Cache) {
    if maxBytes == 0 then c' == c else CleanInserted(c, key, snapshot, maxBytes, c')
  }

  // ----- batches of prepared edits -----

  predicate OneHost(edits: seq<PreparedEdit>) {
    forall i, j :: 0 <= i < |edits| && 0 <= j < |edits| ==> edits[i].key.host == edits[j].key.host
  }

  predicate DistinctKeys(edits: seq<PreparedEdit>) {
    forall i, j :: 0 <= i < j < |edits| ==> edits[i].key != edits[j].key
  }

  predicate EachFits(edits: seq<PreparedEdit>, maxBytes: nat) {
    forall i :: 0 <= i < |edits| ==> Size(edits[i].desired) <= maxBytes
  }

  /** Every path is still cached at the generation its edit was computed from. */
  predicate Prepared(entries: Entries, edits: seq<PreparedEdit>) {
    forall i :: 0 <= i < |edits| ==>
      edits[i].key in entries && entries[edits[i].key].generation == edits[i].expectedGeneration
  }

  function EditKeys(edits: seq<PreparedEdit>): (keys: seq<Key>)
    ensures |keys| == |edits|
    ensures forall i :: 0 <= i < |edits| ==> keys[i] == edits[i].key
  {
    seq(|edits|, i requires 0 <= i < |edits| => edits[i].key)
  }

  function OldBytes(entries: Entries, edits: seq<PreparedEdit>): nat
    requires forall i :: 0 <= i < |edits| ==> edits[i].key in entries
  {
    if edits == [] then 0
    else OldBytes(entries, edits[..|edits| - 1]) + Size(entries[edits[|edits| - 1].key].desired)
  }

  function NewBytes(edits: seq<PreparedEdit>): nat {
    if edits == [] then 0
    else NewBytes(edits[..|edits| - 1]) + Size(edits[|edits| - 1].desired)
  }

  function Additional(entries: Entries, edits: seq<PreparedEdit>): nat
    requires forall i :: 0 <= i < |edits| ==> edits[i].key in entries
  {
    var oldBytes, newBytes := OldBytes(entries, edits), NewBytes(edits);
    if newBytes > oldBytes then newBytes - oldBytes else 0
  }

  function EditedEntry(e: Entry, desired: Desired, generation: nat, lru: nat): Entry {
    e.(desired := desired, desiredSha256 := DigestOf(desired), generation := generation, dirty := true, lru := lru)
  }

  /** One buffered edit: new contents under a fresh generation, dirty and most recently used. */
  function WithEdit(c: Cache, edit: PreparedEdit): (r: Cache)
    requires edit.key in c.entries
    ensures r.entries.Keys == c.entries.Keys
  {
    Cache(c.entries[edit.key := EditedEntry(c.entries[edit.key], edit.desired, c.nextGeneration, c.lru + 1)],
          c.lru + 1, c.nextGeneration + 1)
  }

  function WithEdits(c: Cache, edits: seq<PreparedEdit>): (r: Cache)
    requires forall i :: 0 <= i < |edits| ==> edits[i].key in c.entries
    ensures r.entries.Keys == c.entries.Keys
  {
    if edits == [] then c
    else WithEdit(WithEdits(c, edits[..|edits| - 1]), edits[|edits| - 1])
  }

  function FreshGenerations(first: nat, n: nat): (generations: seq<nat>)
    ensures |generations| == n
  {
    seq(n, i => first + i)
  }

  ghost predicate BatchApplied(c: Cache, edits: seq<PreparedEdit>, maxBytes: nat, c': Cache, r: BatchResult) {
    if edits == [] then
      c' == c && r == Buffered([])
    else if !OneHost(edits) || !DistinctKeys(edits) then
      c' == c && r == Rejected(Permanent)
    else if !EachFits(edits, maxBytes) then
      c' == c && r == ImmediateWriteRequired
    else if !Prepared(c.entries, edits) then
      c' == c && r == Rejected(Transient)
    else
      exists kept: Entries, ok: bool ::
        && CapacityMade(c.entries, kept, maxBytes, Additional(c.entries, edits), EditKeys(edits), ok)
        && (forall i :: 0 <= i < |edits| ==> edits[i].key in kept)
        && c' == (if ok then WithEdits(c.(entries := kept), edits) else c.(entries := kept))
        && r == if ok then Buffered(FreshGenerations(c.nextGeneration, |edits|)) else ImmediateWriteRequired
  }

  // ----- flushing -----

  predicate Pending(e: Entry) {
    e.dirty || e.inFlight.Some? || e.conflict.Some?
  }

  predicate Eligible(e: Entry) {
    e.dirty && e.inFlight.None?
  }

  ghost predicate HostDirty(entries: Entries, host: string) {
    exists k :: k in entries && k.host == host && entries[k].dirty
  }

  ghost predicate HostConflict(entries: Entries, host: string) {
    exists k :: k in entries && k.host == host && entries[k].conflict.Some?
  }

  function ItemOf(key: Key, e: Entry): CommitItem {
    CommitItem(key, e.base, e.desired, e.desiredSha256, e.generation)
  }

  predicate DistinctItems(items: seq<CommitItem>) {
    forall i, j :: 0 <= i < j < |items| ==> items[i].key != items[j].key
  }

  predicate HasItem(items: seq<CommitItem>, k: Key) {
    exists i :: 0 <= i < |items| && items[i].key == k
  }

  /** `items` lists, once each and in some order, the entries of `host` a flush takes from `scope`. */
  ghost predicate Takes(items: seq<CommitItem>, entries: Entries, host: string, scope: set<Key>) {
    && DistinctItems(items)
    && (forall i :: 0 <= i < |items| ==>
          && items[i].key in entries && items[i].key in scope
          && items[i].key.host == host && Eligible(entries[items[i].key])
          && items[i] == ItemOf(items[i].key, entries[items[i].key]))
    && (forall k :: k in entries && k in scope && k.host == host && Eligible(entries[k]) ==> HasItem(items, k))
  }

  ghost predicate TakesEligible(items: seq<CommitItem>, entries: Entries, host: string) {
    Takes(items, entries, host, entries.Keys)
  }

  function Marked(e: Entry): Entry {
    if Eligible(e) then e.(inFlight := Some(e.generation)) else e
  }

  function MarkedInFlight(entries: Entries, host: string): (r: Entries)
    ensures r.Keys == entries.Keys
  {
    map k | k in entries :: if k.host == host then Marked(entries[k]) else entries[k]
  }

  function WithSuccess(entries: Entries, s: CommitSuccess): (r: Entries)
    ensures r.Keys == entries.Keys
  {
    if s.key !in entries || entries[s.key].inFlight != Some(s.generation) then entries
    else
      var e := entries[s.key];
      entries[s.key := e.(base := s.base, inFlight := None, dirty := e.dirty && e.generation != s.generation)]
  }

  function WithSuccesses(entries: Entries, successes: seq<CommitSuccess>): (r: Entries)
    ensures r.Keys == entries.Keys
  {
    if successes == [] then entries
    else WithSuccess(WithSuccesses(entries, successes[..|successes| - 1]), successes[|successes| - 1])
  }

  predicate Flying(k: Key, e: Entry, items: seq<CommitItem>) {
    exists i :: 0 <= i < |items| && items[i].key == k && e.inFlight == Some(items[i].generation)
  }

  function FailedEntry(e: Entry, kind: ErrorKind): Entry {
    e.(inFlight := None, conflict := if kind == Transient then e.conflict else Some(kind))
  }

  /** A failed flush lands every item still in flight, with a conflict unless the error was transient. */
  function WithFailure(entries: Entries, items: seq<CommitItem>, kind: ErrorKind): (r: Entries)
    ensures r.Keys == entries.Keys
  {
    map k | k in entries :: if Flying(k, entries[k], items) then FailedEntry(entries[k], kind) else entries[k]
  }

  function Finished(
    entries: Entries, items: seq<CommitItem>, successes: seq<CommitSuccess>, error: Option<ErrorKind>): (r: Entries)
    ensures r.Keys == entries.Keys
  {
    var landed := WithSuccesses(entries, successes);
    if error.None? then landed else WithFailure(landed, items, error.value)
  }

  // ----- invalidation, discarding, retrying -----

  function Invalidated(entries: Entries, host: string): Entries {
    map k | k in entries && !(k.host == host && !entries[k].dirty && entries[k].inFlight.None?) :: entries[k]
  }

  function Discarded(entries: Entries, host: string): Entries {
    map k | k in entries && !(k.host == host && Pending(entries[k])) :: entries[k]
  }

  function Retried(entries: Entries, host: string): (r: Entries)
    ensures r.Keys == entries.Keys
  {
    map k | k in entries :: if k.host == host && entries[k].conflict == Some(OutcomeUnknown)
                            then entries[k].(conflict := None, dirty := true) else entries[k]
  }
}
