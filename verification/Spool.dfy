/** The output spool: who is charged for which file, and when the charge and the entry slot come back.
    A step is one action of a capture, a retention, a reader, an expiry or a cleanup; any of them
    interleave. Taking bytes from the quota and adding them to a file's account is one step, and so is
    dropping a reference together with what its destructor releases. */
module Spool {
  import opened Common

  const MAX_ENTRIES: nat := 1024

  /** A stub is the first file of a spool that was given up before its second one existed. */
  datatype Stream = Stdout | Stderr | Stub(n: nat)

  /** A file's account; it also names the file. */
  datatype Account = Account(entry: nat, stream: Stream)

  /** Who holds an entry's accounting: the sink or serializer that writes it, the published entry, the
      owner of an internal capture, and the leases of readers. A straggler still has a file open that
      nothing is charged for: a reader whose lease has gone first, or an abandoned read or write that has
      left the descriptor with the blocking pool. */
  datatype Entry = Entry(
    capture: bool, writer: bool, listed: bool, owner: bool, readers: nat, stragglers: nat, permit: bool)

  /** An unlinked file stays on disk while something has it open. */
  datatype File = File(length: nat, linked: bool)

  /** `charges` is what each account holds of the quota, `owed` the part not yet written to its file. */
  datatype Store = Store(
    limit: nat,
    used: nat,
    charges: map<Account, nat>,
    owed: map<Account, nat>,
    entries: map<nat, Entry>,
    files: map<Account, File>,
    tombs: multiset<Account>)

  function Empty(limit: nat): Store {
    Store(limit, 0, map[], map[], map[], map[], multiset{})
  }

  predicate Held(e: Entry) {
    e.writer || e.listed || e.owner || e.readers > 0
  }

  /** Somebody is left who will unlink the entry's files. */
  predicate Keeps(e: Entry) {
    e.writer || e.listed || e.owner
  }

  predicate HasStream(e: Entry, stream: Stream) {
    stream == Stdout || (stream == Stderr && e.capture)
  }

  predicate Opened(s: Store, a: Account) {
    && a.entry in s.entries
    && !a.stream.Stub?
    && (s.entries[a.entry].writer || s.entries[a.entry].readers > 0 || s.entries[a.entry].stragglers > 0)
  }

  /** Some holder or some tombstone keeps the account alive. */
  predicate Wanted(s: Store, a: Account) {
    a in s.tombs || (a.entry in s.entries && Held(s.entries[a.entry]) && HasStream(s.entries[a.entry], a.stream))
  }

  ghost predicate SlotWanted(s: Store, entry: nat) {
    (entry in s.entries && Held(s.entries[entry])) || exists a :: a in s.tombs && a.entry == entry
  }

  ghost function Permits(s: Store): set<nat> {
    set e | e in s.entries && s.entries[e].permit
  }

  // ----- dropping references -----

  function Dead(s: Store): set<Account> {
    set a | a in s.charges && !Wanted(s, a)
  }

  ghost function Charged(s: Store, accounts: set<Account>): nat {
    Sum(map a | a in s.charges && a in accounts :: s.charges[a])
  }

  /** Dropping the last reference to an account releases its charge; to a slot, its permit; to an open
      file that is unlinked, the file. */
  ghost function Settled(s: Store): Store {
    var dead := Dead(s);
    s.(used := if Charged(s, dead) <= s.used then s.used - Charged(s, dead) else 0,
       charges := s.charges - dead,
       owed := s.owed - dead,
       entries := map e | e in s.entries :: s.entries[e].(permit := s.entries[e].permit && SlotWanted(s, e)),
       files := map a | a in s.files && (s.files[a].linked || Opened(s, a)) :: s.files[a])
  }

  /** What a cleanup of an entry unlinks; a capture that never spilled has no files. */
  function Targets(s: Store, entry: nat): set<Account> {
    if entry in s.entries && s.entries[entry].permit then
      {Account(entry, Stdout)} + (if s.entries[entry].capture then {Account(entry, Stderr)} else {})
    else {}
  }

  /** Unlinking the files of an entry; those in `failed` become tombstones. */
  function Unlinked(s: Store, entry: nat, failed: set<Account>): Store {
    s.(files := map a | a in s.files ::
                  s.files[a].(linked := s.files[a].linked && (a !in Targets(s, entry) || a in failed)),
       tombs := s.tombs + multiset(failed))
  }

  // ----- steps -----

  datatype Step =
    | BeginCapture(entry: nat)
    | BeginRetention(entry: nat)
    | Accept(account: Account, bytes: nat)
    | AttachSlot(entry: nat)
    | CreateFile(account: Account)
    | AbandonStub(entry: nat, n: nat, unlinked: bool)
    | Write(account: Account, bytes: nat)
    | Abandon(account: Account)
    | Publish(entry: nat)
    | Register(entry: nat)
    | FinishInternal(entry: nat)
    | DropWriter(entry: nat, failed: set<Account>, late: nat)
    | DropOwner(entry: nat, failed: set<Account>)
    | RemoveEntry(entry: nat, failed: set<Account>)
    | OpenReader(entry: nat)
    | CloseReader(entry: nat)
    | DropLeaseFirst(entry: nat)
    | CloseStraggler(entry: nat)
    | RetryTombstone(account: Account, unlinked: bool)

  predicate Writes(s: Store, entry: nat) {
    entry in s.entries && s.entries[entry].writer
  }

  function WithEntry(s: Store, entry: nat, e: Entry): Store {
    s.(entries := s.entries[entry := e])
  }

  predicate Fresh(s: Store, entry: nat) {
    entry !in s.entries && forall a :: a in s.tombs ==> a.entry != entry
  }

  ghost predicate Next(s: Store, step: Step, s': Store) {
    match step
    case BeginCapture(entry) =>
      && Fresh(s, entry)
      && s' == s.(entries := s.entries[entry := Entry(true, true, false, false, 0, 0, false)],
                  charges := s.charges[Account(entry, Stdout) := 0][Account(entry, Stderr) := 0],
                  owed := s.owed[Account(entry, Stdout) := 0][Account(entry, Stderr) := 0])
    case BeginRetention(entry) =>
      && Fresh(s, entry)
      && |Permits(s)| < MAX_ENTRIES && s.used + MAX_OUTPUT_BYTES <= s.limit
      && s' == s.(entries := s.entries[entry := Entry(false, true, false, false, 0, 0, true)],
                  charges := s.charges[Account(entry, Stdout) := MAX_OUTPUT_BYTES],
                  owed := s.owed[Account(entry, Stdout) := MAX_OUTPUT_BYTES],
                  used := s.used + MAX_OUTPUT_BYTES)
    case Accept(a, n) =>
      && Writes(s, a.entry) && s.entries[a.entry].capture && !a.stream.Stub?
      && a in s.charges && a in s.owed && s.used + n <= s.limit
      && s' == s.(used := s.used + n, charges := s.charges[a := s.charges[a] + n], owed := s.owed[a := s.owed[a] + n])
    case AttachSlot(entry) =>
      && Writes(s, entry) && !s.entries[entry].permit && |Permits(s)| < MAX_ENTRIES
      && s' == WithEntry(s, entry, s.entries[entry].(permit := true))
    case CreateFile(a) =>
      && Writes(s, a.entry) && s.entries[a.entry].permit && HasStream(s.entries[a.entry], a.stream) && a !in s.files
      && s' == s.(files := s.files[a := File(0, true)])
    case AbandonStub(entry, n, unlinked) =>
      && Writes(s, entry) && s.entries[entry].permit
      && var a := Account(entry, Stub(n));
      && a !in s.charges && a !in s.files && a !in s.tombs
      && s' == if unlinked then s
               else s.(charges := s.charges[a := 0], owed := s.owed[a := 0], files := s.files[a := File(0, true)],
                       tombs := s.tombs + multiset{a})
    case Write(a, n) =>
      && Writes(s, a.entry) && !a.stream.Stub? && a in s.files && a in s.owed && n <= s.owed[a]
      && s' == s.(files := s.files[a := s.files[a].(length := s.files[a].length + n)],
                  owed := s.owed[a := s.owed[a] - n])
    case Abandon(a) =>
      && Writes(s, a.entry) && a in s.charges && a in s.owed && s.owed[a] <= s.charges[a] && s.owed[a] <= s.used
      && s' == s.(used := s.used - s.owed[a],
                  charges := s.charges[a := s.charges[a] - s.owed[a]], owed := s.owed[a := 0])
    case Publish(entry) =>
      && Writes(s, entry) && s.entries[entry].permit
      && s' == Settled(WithEntry(s, entry, s.entries[entry].(writer := false, listed := true)))
    case Register(entry) =>
      && Writes(s, entry) && s.entries[entry].capture
      && s' == WithEntry(s, entry, s.entries[entry].(owner := true))
    case FinishInternal(entry) =>
      && Writes(s, entry) && s.entries[entry].owner
      && s' == Settled(WithEntry(s, entry, s.entries[entry].(writer := false)))
    case DropWriter(entry, failed, late) =>
      && Writes(s, entry) && failed <= Targets(s, entry)
      && s' == Settled(WithEntry(Unlinked(s, entry, failed), entry,
                                 s.entries[entry].(writer := false, stragglers := s.entries[entry].stragglers + late)))
    case DropOwner(entry, failed) =>
      && entry in s.entries && s.entries[entry].owner && failed <= Targets(s, entry)
      && s' == Settled(WithEntry(Unlinked(s, entry, failed), entry, s.entries[entry].(owner := false)))
    case RemoveEntry(entry, failed) =>
      && entry in s.entries && s.entries[entry].listed && failed <= Targets(s, entry)
      && s' == Settled(WithEntry(Unlinked(s, entry, failed), entry, s.entries[entry].(listed := false)))
    case OpenReader(entry) =>
      && entry in s.entries && s.entries[entry].listed
      && s' == WithEntry(s, entry, s.entries[entry].(readers := s.entries[entry].readers + 1))
    case CloseReader(entry) =>
      && entry in s.entries && s.entries[entry].readers > 0
      && s' == Settled(WithEntry(s, entry, s.entries[entry].(readers := s.entries[entry].readers - 1)))
    case DropLeaseFirst(entry) =>
      && entry in s.entries && s.entries[entry].readers > 0
      && s' == Settled(WithEntry(s, entry, s.entries[entry].(readers := s.entries[entry].readers - 1,
                                                             stragglers := s.entries[entry].stragglers + 1)))
    case CloseStraggler(entry) =>
      && entry in s.entries && s.entries[entry].stragglers > 0
      && s' == Settled(WithEntry(s, entry, s.entries[entry].(stragglers := s.entries[entry].stragglers - 1)))
    case RetryTombstone(a, unlinked) =>
      && a in s.tombs
      && s' == if unlinked then
                 Settled(s.(tombs := s.tombs - multiset{a},
                            files := if a in s.files then s.files[a := s.files[a].(linked := false)] else s.files))
               else s
  }

  // ----- the invariant -----

  ghost predicate Conserved(s: Store) {
    s.used == Sum(s.charges) && s.used <= s.limit
  }

  /** Every wanted account exists. */
  ghost predicate AccountsExist(s: Store) {
    && s.owed.Keys == s.charges.Keys
    && (forall a :: a in s.charges ==> s.owed[a] <= s.charges[a])
    && (forall a :: a in s.tombs ==> a.entry in s.entries)
    && (forall a: Account :: Wanted(s, a) ==> a in s.charges)
  }

  /** No other account does. */
  ghost predicate AccountsWanted(s: Store) {
    forall a :: a in s.charges ==> Wanted(s, a)
  }

  /** The account of a file covers what is on disk and what is still to be written, and the entry has
      its slot. */
  ghost predicate Backed(s: Store, a: Account) {
    && a in s.files && a in s.charges && a in s.owed && a.entry in s.entries
    && s.files[a].length + s.owed[a] <= s.charges[a]
    && s.entries[a.entry].permit
  }

  /** The file is gone from its directory, nobody wants its account, and only stragglers have it open. */
  ghost predicate Straggling(s: Store, a: Account) {
    && a in s.files && !s.files[a].linked
    && a.entry in s.entries && s.entries[a.entry].stragglers > 0
    && !Wanted(s, a)
  }

  ghost predicate FileOk(s: Store, a: Account)
    requires a in s.files
  {
    && a.entry in s.entries
    && (a.stream.Stub? || HasStream(s.entries[a.entry], a.stream))
    && (s.files[a].linked ==> a in s.tombs || (!a.stream.Stub? && Keeps(s.entries[a.entry])))
    && (Backed(s, a) || Straggling(s, a))
  }

  ghost predicate FilesOk(s: Store) {
    forall a :: a in s.files ==> FileOk(s, a)
  }

  ghost predicate NoOrphans(s: Store) {
    forall a :: a in s.files && !s.files[a].linked ==> Opened(s, a)
  }

  ghost predicate PermitsWanted(s: Store) {
    forall e :: e in s.entries && s.entries[e].permit ==> SlotWanted(s, e)
  }

  /** What holds even while references are being dropped. */
  ghost predicate Base(s: Store) {
    Conserved(s) && AccountsExist(s) && FilesOk(s) && |Permits(s)| <= MAX_ENTRIES
  }

  ghost predicate Inv(s: Store) {
    Base(s) && AccountsWanted(s) && NoOrphans(s) && PermitsWanted(s)
  }

  // ----- every step keeps it -----

  lemma {:induction false} SettledConserves(s: Store)
    requires Conserved(s)
    ensures Conserved(Settled(s))
  {
    hide Sum;
    SumSplit(s.charges, Dead(s));
  }

  lemma {:induction false} SettledWants(s: Store, a: Account)
    ensures Wanted(Settled(s), a) <==> Wanted(s, a)
    ensures a in Settled(s).charges <==> a in s.charges && Wanted(s, a)
    ensures a in Settled(s).charges ==> Settled(s).charges[a] == s.charges[a]
    ensures a in Settled(s).owed <==> a in s.owed && (a in s.charges ==> Wanted(s, a))
    ensures a in Settled(s).owed ==> Settled(s).owed[a] == s.owed[a]
    ensures Opened(Settled(s), a) <==> Opened(s, a)
    ensures forall e :: SlotWanted(Settled(s), e) <==> SlotWanted(s, e)
  {
    hide Sum;
    var t := Settled(s);
    assert t.tombs == s.tombs;
    forall e ensures SlotWanted(t, e) <==> SlotWanted(s, e) {
    }
  }

  lemma {:induction false} SettledFile(s: Store, a: Account)
    requires Base(s) && a in Settled(s).files
    ensures FileOk(Settled(s), a)
  {
    hide Sum;
    var t := Settled(s);
    SettledWants(s, a);
    assert FileOk(s, a);
    var e := s.entries[a.entry];
    if Wanted(s, a) {
      assert SlotWanted(s, a.entry);
    } else {
      assert !t.files[a].linked && Opened(s, a);
      assert e.stragglers > 0;
    }
  }

  lemma {:induction false} SettledMatches(s: Store)
    requires AccountsExist(s)
    ensures AccountsExist(Settled(s)) && AccountsWanted(Settled(s)) && NoOrphans(Settled(s))
  {
    hide Sum;
    var t := Settled(s);
    forall a: Account
      ensures Wanted(t, a) ==> a in t.charges
      ensures a in t.charges ==> Wanted(t, a) && a in t.owed && t.owed[a] <= t.charges[a]
      ensures a in t.owed ==> a in t.charges
    {
      SettledWants(s, a);
    }
    assert t.owed.Keys == t.charges.Keys;
    forall a | a in t.files && !t.files[a].linked ensures Opened(t, a) {
      SettledWants(s, a);
    }
  }

  lemma {:induction false} SettledPermits(s: Store)
    ensures |Permits(Settled(s))| <= |Permits(s)| && PermitsWanted(Settled(s))
  {
    hide Sum;
    SettledWants(s, Account(0, Stdout));
    SubsetSize(Permits(Settled(s)), Permits(s));
  }

  lemma {:induction false} SettledInv(s: Store)
    requires Base(s)
    ensures Inv(Settled(s))
  {
    hide Sum, Settled, FileOk, SlotWanted, Wanted, Opened, AccountsExist, AccountsWanted, NoOrphans, PermitsWanted;
    SettledConserves(s);
    SettledMatches(s);
    SettledPermits(s);
    forall a | a in Settled(s).files ensures FileOk(Settled(s), a) {
      SettledFile(s, a);
    }
  }

  lemma {:induction false} SubsetSize<T>(few: set<T>, many: set<T>)
    requires few <= many
    ensures |few| <= |many|
    decreases few
  {
    if few != {} {
      var x :| x in few;
      SubsetSize(few - {x}, many - {x});
    }
  }

  /** Letting go of one holder after unlinking the entry's files. */
  lemma {:induction false} ReleaseBase(s: Store, entry: nat, failed: set<Account>, e: Entry)
    requires Inv(s) && entry in s.entries && Held(s.entries[entry]) && failed <= Targets(s, entry)
    requires e.capture == s.entries[entry].capture && e.permit == s.entries[entry].permit
    requires e.stragglers >= s.entries[entry].stragglers
    ensures Base(WithEntry(Unlinked(s, entry, failed), entry, e))
  {
    hide Sum, FileOk, Opened, PermitsWanted, SlotWanted, Unlinked, Wanted, Targets;
    var u := WithEntry(Unlinked(s, entry, failed), entry, e);
    UnlinkedFields(s, entry, failed);
    assert Permits(u) == Permits(s);
    forall a: Account ensures (Wanted(u, a) ==> Wanted(s, a)) && (a in failed ==> a.entry == entry) {
      ReleasedWants(s, entry, failed, e, a);
    }
    forall a | a in u.files ensures FileOk(u, a) {
      ReleasedFile(s, entry, failed, e, a);
    }
  }

  lemma {:induction false} UnlinkedFields(s: Store, entry: nat, failed: set<Account>)
    ensures var u := Unlinked(s, entry, failed);
            && u.used == s.used && u.limit == s.limit && u.charges == s.charges && u.owed == s.owed
            && u.entries == s.entries && u.files.Keys == s.files.Keys
            && forall a :: a in u.tombs <==> a in s.tombs || a in failed
  {
    hide Sum;
  }

  lemma {:induction false} ReleasedWants(s: Store, entry: nat, failed: set<Account>, e: Entry, a: Account)
    requires entry in s.entries && Held(s.entries[entry]) && failed <= Targets(s, entry)
    requires e.capture == s.entries[entry].capture
    ensures Wanted(WithEntry(Unlinked(s, entry, failed), entry, e), a) ==> Wanted(s, a)
    ensures a in failed ==> a.entry == entry
  {
    hide Sum;
  }

  lemma {:induction false} ReleasedFile(s: Store, entry: nat, failed: set<Account>, e: Entry, a: Account)
    requires a in s.files && FileOk(s, a) && entry in s.entries && failed <= Targets(s, entry)
    requires Held(s.entries[entry])
    requires e.capture == s.entries[entry].capture && e.permit == s.entries[entry].permit
    requires e.stragglers >= s.entries[entry].stragglers
    ensures FileOk(WithEntry(Unlinked(s, entry, failed), entry, e), a)
  {
    hide Sum, SlotWanted, Opened;
    ReleasedWants(s, entry, failed, e, a);
  }

  /** The entry changes and its files stay. */
  lemma {:induction false} HolderBase(s: Store, entry: nat, e: Entry)
    requires Inv(s) && entry in s.entries && Held(s.entries[entry])
    requires e.capture == s.entries[entry].capture && e.permit == s.entries[entry].permit
    requires e.stragglers >= s.entries[entry].stragglers
    requires Keeps(e) == Keeps(s.entries[entry])
    ensures Base(WithEntry(s, entry, e))
  {
    hide Sum;
    var u := WithEntry(s, entry, e);
    assert Permits(u) == Permits(s);
    forall a | a in u.files ensures FileOk(u, a) {
      assert FileOk(s, a);
    }
  }

  lemma {:induction false} StragglerKeeps(s: Store, entry: nat, s': Store)
    requires Inv(s) && Next(s, CloseStraggler(entry), s')
    ensures Inv(s')
  {
    hide Sum, Settled, FileOk, Opened, SlotWanted, Wanted, HasStream;
    var u := WithEntry(s, entry, s.entries[entry].(stragglers := s.entries[entry].stragglers - 1));
    assert Permits(u) == Permits(s);
    StragglerClaims(s, entry);
    SettledConserves(u);
    SettledMatches(u);
    forall a | a in s'.files ensures FileOk(s', a) {
      StragglerFile(s, entry, a);
    }
    SettledPermits(u);
  }

  lemma {:induction false} StragglerClaims(s: Store, entry: nat)
    requires entry in s.entries && s.entries[entry].stragglers > 0
    ensures var u := WithEntry(s, entry, s.entries[entry].(stragglers := s.entries[entry].stragglers - 1));
            && (forall a :: Wanted(u, a) <==> Wanted(s, a))
            && (forall e :: SlotWanted(u, e) <==> SlotWanted(s, e))
            && (forall a :: Opened(u, a) ==> Opened(s, a))
  {
    hide Sum;
  }

  lemma {:induction false} StragglerFile(s: Store, entry: nat, a: Account)
    requires Inv(s) && entry in s.entries && s.entries[entry].stragglers > 0
    requires a in Settled(WithEntry(s, entry, s.entries[entry].(stragglers := s.entries[entry].stragglers - 1))).files
    ensures FileOk(Settled(WithEntry(s, entry, s.entries[entry].(stragglers := s.entries[entry].stragglers - 1))), a)
  {
    hide Sum;
    var u := WithEntry(s, entry, s.entries[entry].(stragglers := s.entries[entry].stragglers - 1));
    SettledWants(u, a);
    assert FileOk(s, a);
    assert Wanted(s, a) ==> SlotWanted(u, a.entry);
  }

  lemma {:induction false} RetryKeeps(s: Store, a: Account)
    requires Inv(s) && a in s.tombs
    ensures Base(s.(tombs := s.tombs - multiset{a},
                    files := if a in s.files then s.files[a := s.files[a].(linked := false)] else s.files))
  {
    hide Sum;
    var u := s.(tombs := s.tombs - multiset{a},
                files := if a in s.files then s.files[a := s.files[a].(linked := false)] else s.files);
    assert Permits(u) == Permits(s);
    forall b | b in u.files ensures FileOk(u, b) {
      assert FileOk(s, b);
    }
  }

  /** A new entry whose writer is its only holder. */
  lemma {:induction false} NewcomerWanted(s: Store, entry: nat, e: Entry, s': Store)
    requires Fresh(s, entry) && e.writer && s'.entries == s.entries[entry := e] && s'.tombs == s.tombs
    ensures forall c :: Wanted(s', c) <==> Wanted(s, c) || (c.entry == entry && HasStream(e, c.stream))
    ensures forall k :: SlotWanted(s', k) <==> SlotWanted(s, k) || k == entry
    ensures forall c :: Opened(s, c) ==> Opened(s', c)
    ensures forall c: Account :: c.entry == entry ==> !Wanted(s, c)
  {
  }

  lemma {:induction false} NewcomerKeeps(s: Store, entry: nat, e: Entry, s': Store)
    requires Inv(s) && Fresh(s, entry) && e.writer && s'.entries == s.entries[entry := e] && s'.tombs == s.tombs
    requires Conserved(s') && s'.files == s.files && |Permits(s')| <= MAX_ENTRIES
    requires forall c :: c in s'.charges <==> c in s.charges || (c.entry == entry && HasStream(e, c.stream))
    requires forall c :: c in s'.owed <==> c in s.owed || (c.entry == entry && HasStream(e, c.stream))
    requires forall c :: c in s.charges ==> s'.charges[c] == s.charges[c]
    requires forall c :: c in s.owed ==> s'.owed[c] == s.owed[c]
    requires forall c :: c in s'.charges && c.entry == entry ==> s'.owed[c] <= s'.charges[c]
    ensures Inv(s')
  {
    hide Sum, Settled, Unlinked, Targets, Permits, Wanted, SlotWanted, Opened, FileOk, Held;
    NewcomerWanted(s, entry, e, s');
    assert forall c :: c in s'.owed <==> c in s'.charges;
    forall c | c in s'.files ensures FileOk(s', c) {
      NewcomerFile(s, entry, e, s', c);
    }
  }

  lemma {:induction false} NewcomerFile(s: Store, entry: nat, e: Entry, s': Store, c: Account)
    requires c in s.files && FileOk(s, c) && entry !in s.entries
    requires s'.files == s.files && s'.entries == s.entries[entry := e] && s'.tombs == s.tombs
    requires c in s'.charges <==> c in s.charges || (c.entry == entry && HasStream(e, c.stream))
    requires c in s.owed ==> c in s'.owed && s'.owed[c] == s.owed[c]
    requires c in s.charges ==> s'.charges[c] == s.charges[c]
    ensures FileOk(s', c)
  {
    hide Sum;
  }

  lemma {:induction false} BeginCaptureKeeps(s: Store, entry: nat, s': Store)
    requires Inv(s) && Next(s, BeginCapture(entry), s')
    ensures Inv(s')
  {
    hide Sum, Settled, FileOk;
    var a, b := Account(entry, Stdout), Account(entry, Stderr);
    assert !Wanted(s, a) && !Wanted(s, b);
    SumUpdate(s.charges, a, 0);
    SumUpdate(s.charges[a := 0], b, 0);
    assert Permits(s') == Permits(s);
    NewcomerKeeps(s, entry, Entry(true, true, false, false, 0, 0, false), s');
  }

  lemma {:induction false} BeginRetentionKeeps(s: Store, entry: nat, s': Store)
    requires Inv(s) && Next(s, BeginRetention(entry), s')
    ensures Inv(s')
  {
    hide Sum, Settled, FileOk;
    var a := Account(entry, Stdout);
    assert !Wanted(s, a);
    SumUpdate(s.charges, a, MAX_OUTPUT_BYTES);
    assert Permits(s') == Permits(s) + {entry};
    NewcomerKeeps(s, entry, Entry(false, true, false, false, 0, 0, true), s');
  }

  /** Same tombstones, and entries that hold no less. */
  predicate Claims(s: Store, s': Store) {
    && s'.tombs == s.tombs && s'.entries.Keys == s.entries.Keys
    && forall e :: e in s.entries ==>
         && s'.entries[e].capture == s.entries[e].capture && Held(s'.entries[e]) == Held(s.entries[e])
         && (s.entries[e].writer ==> s'.entries[e].writer) && (s.entries[e].listed ==> s'.entries[e].listed)
         && (s.entries[e].owner ==> s'.entries[e].owner) && s'.entries[e].readers >= s.entries[e].readers
         && s'.entries[e].stragglers == s.entries[e].stragglers
         && (s.entries[e].permit ==> s'.entries[e].permit)
  }

  lemma {:induction false} ClaimsKept(s: Store, s': Store)
    requires Claims(s, s')
    ensures forall a :: Wanted(s', a) <==> Wanted(s, a)
    ensures forall e :: SlotWanted(s', e) <==> SlotWanted(s, e)
    ensures forall a :: Opened(s, a) ==> Opened(s', a)
  {
  }

  /** A writer's step on one account. */
  lemma {:induction false} AccountKeeps(s: Store, a: Account, s': Store)
    requires Inv(s) && Conserved(s') && Wanted(s, a) && a in s.charges && a in s'.charges
    requires s.entries == s'.entries && s.tombs == s'.tombs && s'.owed.Keys == s'.charges.Keys
    requires s'.charges == s.charges[a := s'.charges[a]] && s'.owed == s.owed[a := s'.owed[a]]
    requires s'.owed[a] <= s'.charges[a]
    requires forall c :: c != a ==> (c in s'.files <==> c in s.files) && (c in s.files ==> s'.files[c] == s.files[c])
    requires a in s'.files ==> FileOk(s', a) && (!s'.files[a].linked ==> Opened(s', a))
    ensures Inv(s')
  {
    hide Sum, Settled, Wanted, SlotWanted, Opened, FileOk;
    ClaimsKept(s, s');
    assert s'.charges.Keys == s.charges.Keys;
    assert Permits(s') == Permits(s);
    forall c | c in s'.files && c != a ensures FileOk(s', c) {
      OtherFileKept(s, a, s', c);
    }
  }

  lemma {:induction false} OtherFileKept(s: Store, a: Account, s': Store, c: Account)
    requires c != a && c in s.files && c in s'.files && s'.files[c] == s.files[c] && FileOk(s, c)
    requires s.entries == s'.entries && s.tombs <= s'.tombs && (c in s'.tombs ==> c in s.tombs)
    requires a in s'.charges && a in s'.owed
    requires s'.charges == s.charges[a := s'.charges[a]] && s'.owed == s.owed[a := s'.owed[a]]
    ensures FileOk(s', c)
  {
    hide Sum;
  }

  lemma {:induction false} WriterOwns(s: Store, a: Account)
    requires Inv(s) && Writes(s, a.entry) && HasStream(s.entries[a.entry], a.stream)
    ensures Wanted(s, a) && a in s.charges && a in s.owed && Opened(s, a)
    ensures a in s.files ==> FileOk(s, a) && Backed(s, a)
  {
    hide Sum;
  }

  lemma {:induction false} AcceptKeeps(s: Store, a: Account, n: nat, s': Store)
    requires Inv(s) && Next(s, Accept(a, n), s')
    ensures Inv(s')
  {
    hide Sum, Settled;
    WriterOwns(s, a);
    SumUpdate(s.charges, a, s.charges[a] + n);
    AccountKeeps(s, a, s');
  }

  lemma {:induction false} WriteKeeps(s: Store, a: Account, n: nat, s': Store)
    requires Inv(s) && Next(s, Write(a, n), s')
    ensures Inv(s')
  {
    hide Sum, Settled;
    assert FileOk(s, a);
    WriterOwns(s, a);
    AccountKeeps(s, a, s');
  }

  lemma {:induction false} AbandonKeeps(s: Store, a: Account, s': Store)
    requires Inv(s) && Next(s, Abandon(a), s')
    ensures Inv(s')
  {
    hide Sum, Settled;
    SumUpdate(s.charges, a, s.charges[a] - s.owed[a]);
    AccountKeeps(s, a, s');
  }

  lemma {:induction false} CreateKeeps(s: Store, a: Account, s': Store)
    requires Inv(s) && Next(s, CreateFile(a), s')
    ensures Inv(s')
  {
    hide Sum, Settled;
    WriterOwns(s, a);
    AccountKeeps(s, a, s');
  }

  lemma {:induction false} StubKeeps(s: Store, entry: nat, n: nat, s': Store)
    requires Inv(s) && Next(s, AbandonStub(entry, n, false), s')
    ensures Inv(s')
  {
    hide Sum, Settled, FileOk, Opened, Wanted, SlotWanted;
    var a := Account(entry, Stub(n));
    SumUpdate(s.charges, a, 0);
    assert Permits(s') == Permits(s);
    StubWanted(s, a, s');
    forall c | c in s'.files ensures FileOk(s', c) {
      if c != a {
        OtherFileKept(s, a, s', c);
      } else {
        StubFile(s', a);
      }
    }
  }

  lemma {:induction false} StubFile(s: Store, a: Account)
    requires a in s.files && s.files[a] == File(0, true) && a.entry in s.entries && a.stream.Stub? && a in s.tombs
    requires a in s.charges && a in s.owed && s.owed[a] == s.charges[a] == 0 && s.entries[a.entry].permit
    ensures FileOk(s, a)
  {
    hide Sum;
  }

  lemma {:induction false} StubWanted(s: Store, a: Account, s': Store)
    requires s'.entries == s.entries && s'.tombs == s.tombs + multiset{a}
    ensures forall c :: c in s'.tombs <==> c in s.tombs || c == a
    ensures forall c :: Wanted(s', c) <==> Wanted(s, c) || c == a
    ensures forall e :: SlotWanted(s, e) ==> SlotWanted(s', e)
    ensures forall c :: Opened(s', c) <==> Opened(s, c)
  {
    forall e | SlotWanted(s, e) ensures SlotWanted(s', e) {
    }
  }

  /** The steps that add a holder or a permit. */
  lemma {:induction false} HolderKeeps(s: Store, step: Step, s': Store)
    requires Inv(s) && (step.AttachSlot? || step.Register? || step.OpenReader?) && Next(s, step, s')
    ensures Inv(s')
  {
    hide Sum, Settled, Conserved, AccountsExist, AccountsWanted, FilesOk, NoOrphans, PermitsWanted;
    assert Claims(s, s');
    HoldersKept(s, s');
    PermitsGrow(s, step, s');
  }

  lemma {:induction false} HoldersKept(s: Store, s': Store)
    requires Inv(s) && Claims(s, s')
    requires s'.used == s.used && s'.limit == s.limit && s'.files == s.files
    requires s'.charges == s.charges && s'.owed == s.owed
    ensures Conserved(s') && AccountsExist(s') && AccountsWanted(s') && FilesOk(s') && NoOrphans(s')
  {
    hide Sum, Settled, Wanted, SlotWanted, Opened;
    ClaimsKept(s, s');
    forall c | c in s'.files ensures FileOk(s', c) {
      assert FileOk(s, c);
    }
  }

  lemma {:induction false} PermitsGrow(s: Store, step: Step, s': Store)
    requires Inv(s) && (step.AttachSlot? || step.Register? || step.OpenReader?) && Next(s, step, s')
    ensures |Permits(s')| <= MAX_ENTRIES
    ensures PermitsWanted(s')
  {
    hide Sum, Settled, Wanted, FileOk, FilesOk, AccountsExist, AccountsWanted, NoOrphans, Opened, Conserved;
    if step.AttachSlot? {
      assert Permits(s') == Permits(s) + {step.entry};
    } else {
      assert Permits(s') == Permits(s);
    }
    assert SlotWanted(s', step.entry);
    forall e | e in s'.entries && s'.entries[e].permit ensures SlotWanted(s', e) {
      assert e != step.entry ==> SlotWanted(s, e);
    }
  }

  lemma {:induction false} InvKept(s: Store, step: Step, s': Store)
    requires Inv(s) && Next(s, step, s')
    ensures Inv(s')
  {
    hide Sum, Settled, Base, Permits, FilesOk, AccountsExist, AccountsWanted, NoOrphans, PermitsWanted;
    match step
    case BeginCapture(entry) => BeginCaptureKeeps(s, entry, s');
    case BeginRetention(entry) => BeginRetentionKeeps(s, entry, s');
    case Accept(a, n) => AcceptKeeps(s, a, n, s');
    case Write(a, n) => WriteKeeps(s, a, n, s');
    case Abandon(a) => AbandonKeeps(s, a, s');
    case CreateFile(a) => CreateKeeps(s, a, s');
    case AbandonStub(entry, n, unlinked) => if !unlinked { StubKeeps(s, entry, n, s'); }
    case AttachSlot(_) => HolderKeeps(s, step, s');
    case Register(_) => HolderKeeps(s, step, s');
    case OpenReader(_) => HolderKeeps(s, step, s');
    case Publish(entry) =>
      var e := s.entries[entry].(writer := false, listed := true);
      HolderBase(s, entry, e);
      SettledInv(WithEntry(s, entry, e));
    case FinishInternal(entry) =>
      var e := s.entries[entry].(writer := false);
      HolderBase(s, entry, e);
      SettledInv(WithEntry(s, entry, e));
    case DropWriter(entry, failed, late) =>
      var e := s.entries[entry].(writer := false, stragglers := s.entries[entry].stragglers + late);
      ReleaseBase(s, entry, failed, e);
      SettledInv(WithEntry(Unlinked(s, entry, failed), entry, e));
    case DropOwner(entry, failed) =>
      var e := s.entries[entry].(owner := false);
      ReleaseBase(s, entry, failed, e);
      SettledInv(WithEntry(Unlinked(s, entry, failed), entry, e));
    case RemoveEntry(entry, failed) =>
      var e := s.entries[entry].(listed := false);
      ReleaseBase(s, entry, failed, e);
      SettledInv(WithEntry(Unlinked(s, entry, failed), entry, e));
    case CloseReader(entry) =>
      var e := s.entries[entry].(readers := s.entries[entry].readers - 1);
      HolderBase(s, entry, e);
      SettledInv(WithEntry(s, entry, e));
    case DropLeaseFirst(entry) =>
      var e := s.entries[entry].(readers := s.entries[entry].readers - 1,
                                 stragglers := s.entries[entry].stragglers + 1);
      HolderBase(s, entry, e);
      SettledInv(WithEntry(s, entry, e));
    case CloseStraggler(entry) => StragglerKeeps(s, entry, s');
    case RetryTombstone(a, unlinked) =>
      if unlinked {
        RetryKeeps(s, a);
        SettledInv(s.(tombs := s.tombs - multiset{a},
                      files := if a in s.files then s.files[a := s.files[a].(linked := false)] else s.files));
      }
  }

  // ----- runs -----

  ghost predicate IsRun(run: seq<Store>, steps: seq<Step>) {
    && |run| == |steps| + 1
    && run[0] == Empty(run[0].limit)
    && forall i {:trigger steps[i]} :: 0 <= i < |steps| ==> Next(run[i], steps[i], run[i + 1])
  }

  lemma {:induction false} Reachable(run: seq<Store>, steps: seq<Step>, n: nat)
    requires IsRun(run, steps) && n < |run|
    ensures Inv(run[n])
  {
    if n == 0 {
      assert Permits(run[0]) == {};
    } else {
      Reachable(run, steps, n - 1);
      assert Next(run[n - 1], steps[n - 1], run[n]);
      InvKept(run[n - 1], steps[n - 1], run[n]);
    }
  }

  /** In every state of every run the quota used is the sum of the charges and within the limit, and a
      charge exists exactly while a holder or a tombstone wants it. */
  lemma {:induction false} QuotaIsConserved(run: seq<Store>, steps: seq<Step>, n: nat)
    requires IsRun(run, steps) && n < |run|
    ensures run[n].used == Sum(run[n].charges) <= run[n].limit
    ensures forall a: Account :: a in run[n].charges <==> Wanted(run[n], a)
  {
    hide Sum;
    Reachable(run, steps, n);
  }

  /** A file on disk is covered by its account if and only if it is not one that is already unlinked, wanted
      by nobody and open only in stragglers. */
  lemma {:induction false} FilesAreCovered(run: seq<Store>, steps: seq<Step>, n: nat, a: Account)
    requires IsRun(run, steps) && n < |run| && a in run[n].files
    ensures Backed(run[n], a) <==> !Straggling(run[n], a)
    ensures Backed(run[n], a) ==> run[n].files[a].length <= run[n].charges[a]
    ensures run[n].files[a].linked ==> Backed(run[n], a)
  {
    hide Sum;
    Reachable(run, steps, n);
    assert FileOk(run[n], a);
  }

  /** What is on disk never exceeds the quota while there are no stragglers. */
  lemma {:induction false} DiskIsBounded(run: seq<Store>, steps: seq<Step>, n: nat)
    requires IsRun(run, steps) && n < |run|
    requires forall e :: e in run[n].entries ==> run[n].entries[e].stragglers == 0
    ensures Sum(map a | a in run[n].files :: run[n].files[a].length) <= run[n].limit
  {
    hide Sum, Settled, Next;
    var s := run[n];
    var lengths: map<Account, nat> := map a | a in s.files :: s.files[a].length;
    forall a | a in lengths ensures a in s.charges && lengths[a] <= s.charges[a] {
      FilesAreCovered(run, steps, n, a);
    }
    SumSubset(s.charges, lengths);
    QuotaIsConserved(run, steps, n);
  }

  /** Entries with a file in the directory never outnumber the slots. */
  lemma {:induction false} EntriesAreBounded(run: seq<Store>, steps: seq<Step>, n: nat)
    requires IsRun(run, steps) && n < |run|
    ensures |set a | a in run[n].files && run[n].files[a].linked :: a.entry| <= MAX_ENTRIES
  {
    hide Sum, Settled, Next;
    Reachable(run, steps, n);
    var s := run[n];
    var listed := set a | a in s.files && s.files[a].linked :: a.entry;
    forall e | e in listed ensures e in Permits(s) {
      var a :| a in s.files && s.files[a].linked && a.entry == e;
      assert FileOk(s, a);
    }
    SubsetSize(listed, Permits(s));
  }

  /** Once an entry has no holder and no tombstone, it has no charge, no slot and no linked file. */
  lemma {:induction false} EverythingReturns(run: seq<Store>, steps: seq<Step>, n: nat, entry: nat)
    requires IsRun(run, steps) && n < |run|
    requires entry in run[n].entries && !SlotWanted(run[n], entry)
    ensures !run[n].entries[entry].permit
    ensures forall a: Account :: a.entry == entry ==> a !in run[n].charges
    ensures forall a :: a in run[n].files && a.entry == entry ==> Straggling(run[n], a)
  {
    hide Sum, Settled, Next;
    Reachable(run, steps, n);
    var s := run[n];
    forall a: Account | a.entry == entry ensures a !in s.charges && (a in s.files ==> Straggling(s, a)) {
      assert !Wanted(s, a);
      assert a in s.files ==> FileOk(s, a);
    }
  }

  const OUT: Account := Account(0, Stdout)
  const ERR: Account := Account(0, Stderr)

  /** One byte is captured, published and opened; the entry expires; the reader lets its lease go. */
  function LateSteps(): seq<Step> {
    [BeginCapture(0), Accept(OUT, 1), AttachSlot(0), CreateFile(OUT), Write(OUT, 1), Publish(0),
     OpenReader(0), RemoveEntry(0, {}), DropLeaseFirst(0)]
  }

  function LateRun(): seq<Store> {
    var one, zero := map[OUT := 1, ERR := 0], map[OUT := 0, ERR := 0];
    [Empty(1),
     Store(1, 0, zero, zero, map[0 := Entry(true, true, false, false, 0, 0, false)], map[], multiset{}),
     Store(1, 1, one, one, map[0 := Entry(true, true, false, false, 0, 0, false)], map[], multiset{}),
     Store(1, 1, one, one, map[0 := Entry(true, true, false, false, 0, 0, true)], map[], multiset{}),
     Store(1, 1, one, one, map[0 := Entry(true, true, false, false, 0, 0, true)],
           map[OUT := File(0, true)], multiset{}),
     Store(1, 1, one, zero, map[0 := Entry(true, true, false, false, 0, 0, true)],
           map[OUT := File(1, true)], multiset{}),
     Store(1, 1, one, zero, map[0 := Entry(true, false, true, false, 0, 0, true)],
           map[OUT := File(1, true)], multiset{}),
     Store(1, 1, one, zero, map[0 := Entry(true, false, true, false, 1, 0, true)],
           map[OUT := File(1, true)], multiset{}),
     Store(1, 1, one, zero, map[0 := Entry(true, false, false, false, 1, 0, true)],
           map[OUT := File(1, false)], multiset{}),
     Store(1, 0, map[], map[], map[0 := Entry(true, false, false, false, 0, 1, false)],
           map[OUT := File(1, false)], multiset{})]
  }

  lemma {:induction false} LateWrites(i: nat)
    requires i < 5
    ensures Next(LateRun()[i], LateSteps()[i], LateRun()[i + 1])
  {
    hide Sum, Settled;
    assert Permits(LateRun()[2]) == {};
  }

  lemma {:induction false} LatePublish()
    ensures Next(LateRun()[5], Publish(0), LateRun()[6])
    ensures Next(LateRun()[6], OpenReader(0), LateRun()[7])
  {
    hide Sum, Settled;
    var s := LateRun()[6];
    SettledSame(s);
    assert WithEntry(LateRun()[5], 0, s.entries[0]) == s;
  }

  lemma {:induction false} LateExpiry()
    ensures Next(LateRun()[7], RemoveEntry(0, {}), LateRun()[8])
  {
    hide Sum, Settled;
    var s := LateRun()[8];
    SettledSame(s);
    var u := Unlinked(LateRun()[7], 0, {});
    assert u.files == s.files;
    assert u.tombs == s.tombs;
    assert WithEntry(u, 0, s.entries[0]) == s;
  }

  lemma {:induction false} LateCloses()
    ensures Next(LateRun()[8], DropLeaseFirst(0), LateRun()[9])
  {
    hide Sum, Charged;
    var s := LateRun()[8].(entries := map[0 := Entry(true, false, false, false, 0, 1, true)]);
    SumUpdate(map[OUT := 0, ERR := 0], OUT, 1);
    SumUpdate(map[OUT := 0], ERR, 0);
    SumUpdate(map[], OUT, 0);
    assert map[][OUT := 0] == map[OUT := 0];
    assert map[OUT := 0, ERR := 0][OUT := 1] == s.charges && map[OUT := 0][ERR := 0] == map[OUT := 0, ERR := 0];
    EmptySum();
    NothingStays(s);
    assert Settled(s).files == s.files;
    assert Settled(s).entries == LateRun()[9].entries;
    assert Settled(s) == LateRun()[9];
    assert WithEntry(LateRun()[8], 0, s.entries[0]) == s;
  }

  lemma {:induction false} EmptySum()
    ensures Sum<Account>(map[]) == 0
  {
  }

  /** When a reader's lease goes before its file, a byte can be on disk with nothing charged for it. */
  lemma {:induction false} LateReaderIsUncharged() returns (run: seq<Store>, steps: seq<Step>)
    ensures IsRun(run, steps)
    ensures var s := run[|steps|]; s.used == 0 && OUT in s.files && s.files[OUT].length == 1 && !s.files[OUT].linked
  {
    run, steps := LateRun(), LateSteps();
    forall i {:trigger steps[i]} | 0 <= i < |steps| ensures Next(run[i], steps[i], run[i + 1]) {
      hide Next;
      if i < 5 {
        LateWrites(i);
      } else {
        LatePublish();
        LateExpiry();
        LateCloses();
      }
    }
  }

  /** Everything is released when nothing is wanted. */
  lemma {:induction false} NothingStays(s: Store)
    requires Sum(s.charges) == s.used && s.owed.Keys == s.charges.Keys
    requires forall a :: a in s.charges ==> !Wanted(s, a)
    ensures Settled(s).used == 0 && Settled(s).charges == map[] && Settled(s).owed == map[]
  {
    hide Sum;
    assert (map a | a in s.charges && a in Dead(s) :: s.charges[a]) == s.charges;
  }

  /** Nothing is released when every account and every permit is wanted and no unlinked file is closed. */
  lemma {:induction false} SettledSame(s: Store)
    requires AccountsWanted(s) && PermitsWanted(s) && NoOrphans(s)
    requires s.owed.Keys == s.charges.Keys
    ensures Settled(s) == s
  {
    hide Sum;
    assert Dead(s) == {};
    SumSplit(s.charges, Dead(s));
    assert s.charges - Dead(s) == s.charges;
  }
}
