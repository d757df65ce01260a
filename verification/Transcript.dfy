/** What the batch script prints, and what the bridge concludes from it. */
module Transcript {
  import opened Common
  import opened Numerals
  import opened EditWire
  import Quote
  import Splitting

  const SEP: byte := 0
  const INDEX: Bytes := [73, 78, 68, 69, 88, 61]
  const STATUS: Bytes := [83, 84, 65, 84, 85, 83, 61]
  const SHA256: Bytes := [83, 72, 65, 50, 53, 54, 61]
  const MODE: Bytes := [77, 79, 68, 69, 61]
  const CHANGED: Bytes := [67, 72, 65, 78, 71, 69, 68]
  const UNCHANGED: Bytes := [85, 78, 67, 72, 65, 78, 71, 69, 68]
  const CONFLICT: Bytes := [67, 79, 78, 70, 76, 73, 67, 84]
  const DASH: Bytes := [45]
  const MAX_MODE: nat := 0x1FF

  // ----- what the script prints -----

  /** What became of one item. The mode reported with it is the one the script was given: it has set that
      mode, or found the path to have it. */
  datatype Outcome = Changed | Unchanged

  function RecordFields(index: nat, status: Bytes, hash: Bytes, mode: nat): seq<Bytes> {
    [INDEX + Decimal(index), STATUS + status, SHA256 + hash, MODE + Decimal(mode)]
  }

  function OutcomeFields(index: nat, item: WireItem, outcome: Outcome): (r: seq<Bytes>)
    requires HashOk(item)
    ensures |r| == 4
  {
    var status := if outcome.Changed? then CHANGED else UNCHANGED;
    if item.desired.Deleted? then RecordFields(index, status, DASH, 0)
    else RecordFields(index, status, item.sha256.value, ItemMode(item))
  }

  function OutcomesFields(items: seq<WireItem>, outcomes: seq<Outcome>): seq<Bytes>
    requires |outcomes| <= |items| && forall i :: 0 <= i < |items| ==> HashOk(items[i])
  {
    if outcomes == [] then []
    else
      var n := |outcomes| - 1;
      OutcomesFields(items, outcomes[..n]) + OutcomeFields(n, items[n], outcomes[n])
  }

  function AllFields(items: seq<WireItem>, outcomes: seq<Outcome>, conflict: bool): seq<Bytes>
    requires |outcomes| <= |items| && forall i :: 0 <= i < |items| ==> HashOk(items[i])
  {
    OutcomesFields(items, outcomes) + if conflict then RecordFields(|outcomes|, CONFLICT, DASH, 0) else []
  }

  /** A script that ran to its end: it stopped at a conflict, or did every item. */
  predicate Genuine(items: seq<WireItem>, outcomes: seq<Outcome>, conflict: bool) {
    && 0 < |items| < U64_LIMIT
    && (forall i :: 0 <= i < |items| ==> HashOk(items[i]))
    && (if conflict then |outcomes| < |items| else |outcomes| == |items|)
  }

  function Output(items: seq<WireItem>, outcomes: seq<Outcome>, conflict: bool): Bytes
    requires Genuine(items, outcomes, conflict)
  {
    Splitting.Joined(AllFields(items, outcomes, conflict), SEP)
  }

  // ----- what the bridge concludes -----

  datatype Success = Success(path: Bytes, generation: nat, base: WireBase)

  /** The successes in order and the conflicting item, if any; or an unknown outcome. */
  datatype BatchResult = Reported(successes: seq<Success>, conflict: Option<nat>) | Unknown

  datatype Progress = Going(successes: seq<Success>) | Done(result: BatchResult)

  function Strip(field: Bytes, prefix: Bytes): Option<Bytes> {
    if prefix <= field then Some(field[|prefix|..]) else None
  }

  function FieldNumber(field: Bytes, prefix: Bytes, limit: nat): Option<nat> {
    var digits := Strip(field, prefix);
    if digits.None? || digits.value == [] || !AllDigits(digits.value) then None
    else if Value(digits.value) >= U64_LIMIT || Value(digits.value) >= limit then None
    else Some(Value(digits.value))
  }

  /** The base a reported item leaves, if the record agrees with what was sent. */
  function ReportedBase(item: WireItem, hash: Bytes, mode: nat): Option<WireBase> {
    match item.desired
    case Deleted => if hash == DASH && mode == 0 then Some(Missing) else None
    case Present(_) =>
      if item.sha256.None? || hash != item.sha256.value || mode > MAX_MODE then None
      else Some(Regular(item.sha256.value, mode))
  }

  function ParseRecord(
    record: seq<Bytes>, items: seq<WireItem>, expected: nat, successes: seq<Success>): Progress
    requires |record| == 4
  {
    var index := FieldNumber(record[0], INDEX, U64_LIMIT);
    if index != Some(expected) || expected >= |items| then Done(Unknown)
    else
      var status := Strip(record[1], STATUS);
      if status == Some(CONFLICT) then Done(Reported(successes, index))
      else if status != Some(CHANGED) && status != Some(UNCHANGED) then Done(Unknown)
      else
        var hash, mode := Strip(record[2], SHA256), FieldNumber(record[3], MODE, U32_LIMIT);
        if hash.None? || mode.None? then Done(Unknown)
        else
          var item := items[expected];
          var base := ReportedBase(item, hash.value, mode.value);
          if base.None? then Done(Unknown)
          else Going(successes + [Success(item.path, item.generation, base.value)])
  }

  function ParseRecords(fields: seq<Bytes>, items: seq<WireItem>, n: nat): Progress
    requires 4 * n <= |fields|
  {
    if n == 0 then Going([])
    else
      match ParseRecords(fields, items, n - 1)
      case Done(result) => Done(result)
      case Going(successes) => ParseRecord(fields[4 * (n - 1)..4 * n], items, n - 1, successes)
  }

  function Concluded(items: seq<WireItem>, progress: Progress): BatchResult {
    match progress
    case Done(result) => result
    case Going(successes) => if |successes| == |items| then Reported(successes, None) else Unknown
  }

  /** The bridge's reading of a transcript. */
  function Parsed(stdout: Bytes, stderr: Bytes, items: seq<WireItem>): BatchResult {
    if stderr != [] || stdout == [] || stdout[|stdout| - 1] != SEP then Unknown
    else
      var fields := Splitting.Complete(stdout, SEP);
      if |fields| % 4 != 0 then Unknown
      else Concluded(items, ParseRecords(fields, items, |fields| / 4))
  }

  lemma {:induction false} DoneForGood(fields: seq<Bytes>, items: seq<WireItem>, n: nat, m: nat)
    requires n <= m && 4 * m <= |fields| && ParseRecords(fields, items, n).Done?
    ensures ParseRecords(fields, items, m) == ParseRecords(fields, items, n)
    decreases m
  {
    if n < m {
      DoneForGood(fields, items, n, m - 1);
    }
  }

  /** Splitting at every separator, as the fields of a terminated transcript. */
  method Fields(stdout: Bytes) returns (fields: seq<Bytes>)
    ensures fields == Splitting.Complete(stdout, SEP)
  {
    fields := [];
    var current := [];
    for i := 0 to |stdout|
      invariant fields == Splitting.Complete(stdout[..i], SEP) && current == Splitting.Partial(stdout[..i], SEP)
    {
      Splitting.AppendOne(stdout[..i], SEP, stdout[i]);
      assert stdout[..i + 1] == stdout[..i] + [stdout[i]];
      if stdout[i] == SEP {
        fields, current := fields + [current], [];
      } else {
        current := current + [stdout[i]];
      }
    }
    assert stdout[..|stdout|] == stdout;
  }

  method ParseBatchResult(stdout: Bytes, stderr: Bytes, items: seq<WireItem>) returns (r: BatchResult)
    ensures r == Parsed(stdout, stderr, items)
  {
    if stderr != [] || stdout == [] || stdout[|stdout| - 1] != SEP {
      return Unknown;
    }
    var fields := Fields(stdout);
    if |fields| % 4 != 0 {
      return Unknown;
    }
    var successes: seq<Success> := [];
    for expected := 0 to |fields| / 4
      invariant ParseRecords(fields, items, expected) == Going(successes)
    {
      var progress := ParseRecord(fields[4 * expected..4 * (expected + 1)], items, expected, successes);
      if progress.Done? {
        DoneForGood(fields, items, expected + 1, |fields| / 4);
        return progress.result;
      }
      successes := progress.successes;
    }
    r := if |successes| != |items| then Unknown else Reported(successes, None);
  }

  // ----- round trip -----

  /** The mode an item leaves its path with. */
  predicate ModeOk(item: WireItem) {
    item.desired.Present? ==> ItemMode(item) <= MAX_MODE
  }

  function SuccessOf(item: WireItem): Success
    requires HashOk(item)
  {
    Success(item.path, item.generation,
            if item.desired.Deleted? then Missing else Regular(item.sha256.value, ItemMode(item)))
  }

  function SuccessesOf(items: seq<WireItem>): (r: seq<Success>)
    requires forall i :: 0 <= i < |items| ==> HashOk(items[i])
    ensures |r| == |items|
    ensures forall i :: 0 <= i < |r| ==> r[i] == SuccessOf(items[i])
  {
    seq(|items|, i requires 0 <= i < |items| => SuccessOf(items[i]))
  }

  lemma {:induction false} NumberField(n: nat, prefix: Bytes, limit: nat)
    ensures FieldNumber(prefix + Decimal(n), prefix, limit) == if n < U64_LIMIT && n < limit then Some(n) else None
  {
    assert (prefix + Decimal(n))[|prefix|..] == Decimal(n);
    ValueOfDecimal(n);
  }

  lemma {:induction false} TextField(text: Bytes, prefix: Bytes)
    ensures Strip(prefix + text, prefix) == Some(text)
  {
    assert (prefix + text)[|prefix|..] == text;
  }

  lemma {:induction false} ParseOutcome(items: seq<WireItem>, n: nat, outcome: Outcome, successes: seq<Success>)
    requires n < |items| < U64_LIMIT && HashOk(items[n])
    ensures ParseRecord(OutcomeFields(n, items[n], outcome), items, n, successes)
         == if ModeOk(items[n]) then Going(successes + [SuccessOf(items[n])]) else Done(Unknown)
  {
    hide FieldNumber, Strip;
    var status := if outcome.Changed? then CHANGED else UNCHANGED;
    var hash := if items[n].desired.Deleted? then DASH else items[n].sha256.value;
    var mode := if items[n].desired.Deleted? then 0 else ItemMode(items[n]);
    assert OutcomeFields(n, items[n], outcome) == RecordFields(n, status, hash, mode);
    NumberField(n, INDEX, U64_LIMIT);
    NumberField(mode, MODE, U32_LIMIT);
    TextField(status, STATUS);
    TextField(hash, SHA256);
    assert CHANGED[0] != CONFLICT[0] || CHANGED[1] != CONFLICT[1];
    assert UNCHANGED[0] != CONFLICT[0];
  }

  lemma {:induction false} ParseConflict(items: seq<WireItem>, n: nat, successes: seq<Success>)
    requires n < |items| < U64_LIMIT
    ensures ParseRecord(RecordFields(n, CONFLICT, DASH, 0), items, n, successes) == Done(Reported(successes, Some(n)))
  {
    hide FieldNumber, Strip;
    NumberField(n, INDEX, U64_LIMIT);
    TextField(CONFLICT, STATUS);
  }

  lemma {:induction false} OutcomesLength(items: seq<WireItem>, outcomes: seq<Outcome>, n: nat)
    requires n <= |outcomes| <= |items| && forall i :: 0 <= i < |items| ==> HashOk(items[i])
    ensures |OutcomesFields(items, outcomes)| == 4 * |outcomes|
    ensures OutcomesFields(items, outcomes[..n]) <= OutcomesFields(items, outcomes)
    ensures n < |outcomes| ==>
      OutcomesFields(items, outcomes)[4 * n..4 * (n + 1)] == OutcomeFields(n, items[n], outcomes[n])
    decreases |outcomes|
  {
    hide OutcomeFields, HashOk;
    var k := |outcomes| - 1;
    if n < |outcomes| {
      OutcomesLength(items, outcomes[..k], n);
      assert outcomes[..k][..n] == outcomes[..n];
    } else {
      assert outcomes[..n] == outcomes;
      if outcomes != [] {
        OutcomesLength(items, outcomes[..k], 0);
      }
    }
  }

  /** The first `n` outcome records, at the head of any longer list of fields. */
  lemma {:induction false} ParseOutcomes(items: seq<WireItem>, outcomes: seq<Outcome>, fields: seq<Bytes>, n: nat)
    requires n <= |outcomes| <= |items| < U64_LIMIT && forall i :: 0 <= i < |items| ==> HashOk(items[i])
    requires 4 * n <= |fields| && fields[..4 * n] <= OutcomesFields(items, outcomes)
    ensures ParseRecords(fields, items, n)
         == if forall i :: 0 <= i < n ==> ModeOk(items[i]) then Going(SuccessesOf(items[..n])) else Done(Unknown)
  {
    hide ParseRecord, OutcomeFields;
    if n > 0 {
      OutcomesLength(items, outcomes, n - 1);
      assert fields[..4 * (n - 1)] == fields[..4 * n][..4 * (n - 1)];
      ParseOutcomes(items, outcomes, fields, n - 1);
      assert fields[4 * (n - 1)..4 * n] == OutcomesFields(items, outcomes)[4 * (n - 1)..4 * n];
      ParseOutcome(items, n - 1, outcomes[n - 1], SuccessesOf(items[..n - 1]));
      assert outcomes[..n][..n - 1] == outcomes[..n - 1];
      assert SuccessesOf(items[..n]) == SuccessesOf(items[..n - 1]) + [SuccessOf(items[n - 1])];
    }
  }

  lemma {:induction false} RecordClean(index: nat, item: WireItem, outcome: Outcome)
    requires HashOk(item)
    ensures forall field :: field in OutcomeFields(index, item, outcome) ==> SEP !in field
  {
    if item.desired.Present? {
      QuotedHash(item.sha256.value);
    }
  }

  lemma {:induction false} FieldsClean(items: seq<WireItem>, outcomes: seq<Outcome>)
    requires |outcomes| <= |items| && forall i :: 0 <= i < |items| ==> HashOk(items[i])
    ensures forall field :: field in OutcomesFields(items, outcomes) ==> SEP !in field
  {
    hide OutcomeFields, HashOk;
    if outcomes != [] {
      var n := |outcomes| - 1;
      FieldsClean(items, outcomes[..n]);
      RecordClean(n, items[n], outcomes[n]);
    }
  }

  lemma {:induction false} AllFieldsClean(items: seq<WireItem>, outcomes: seq<Outcome>, conflict: bool)
    requires Genuine(items, outcomes, conflict)
    ensures forall field :: field in AllFields(items, outcomes, conflict) ==> SEP !in field
    ensures |AllFields(items, outcomes, conflict)| == 4 * (|outcomes| + if conflict then 1 else 0) > 0
  {
    FieldsClean(items, outcomes);
    OutcomesLength(items, outcomes, 0);
  }

  lemma {:induction false} JoinedEnds(fields: seq<Bytes>)
    requires fields != []
    ensures Splitting.Joined(fields, SEP) != []
    ensures Splitting.Joined(fields, SEP)[|Splitting.Joined(fields, SEP)| - 1] == SEP
  {
  }

  /** A transcript of clean fields reads as those fields. */
  lemma {:induction false} FieldsRead(fields: seq<Bytes>, items: seq<WireItem>, n: nat)
    requires fields != [] && |fields| == 4 * n && forall field :: field in fields ==> SEP !in field
    ensures Parsed(Splitting.Joined(fields, SEP), [], items) == Concluded(items, ParseRecords(fields, items, n))
  {
    hide ParseRecords, Concluded, Splitting.Joined, Splitting.Complete;
    JoinedEnds(fields);
    Splitting.SplitJoined(fields, SEP);
  }

  lemma {:induction false} AllFieldsShape(items: seq<WireItem>, outcomes: seq<Outcome>, conflict: bool)
    requires Genuine(items, outcomes, conflict)
    ensures var fields, n := AllFields(items, outcomes, conflict), |outcomes|;
            && |fields| == 4 * (n + if conflict then 1 else 0)
            && fields[..4 * n] == OutcomesFields(items, outcomes)
            && (conflict ==> fields[4 * n..4 * (n + 1)] == RecordFields(n, CONFLICT, DASH, 0))
  {
    hide OutcomesFields, HashOk;
    OutcomesLength(items, outcomes, 0);
  }

  /** Reading a whole transcript reports exactly the items carried out and the conflict, if and only if none
      of those items leaves its path with a mode above 0777; otherwise the outcome is unknown. */
  lemma {:induction false} TranscriptRoundTrip(items: seq<WireItem>, outcomes: seq<Outcome>, conflict: bool)
    requires Genuine(items, outcomes, conflict)
    ensures Parsed(Output(items, outcomes, conflict), [], items)
         == if forall i :: 0 <= i < |outcomes| ==> ModeOk(items[i])
            then Reported(SuccessesOf(items[..|outcomes|]), if conflict then Some(|outcomes|) else None)
            else Unknown
  {
    hide ParseRecord, RecordFields, OutcomesFields, AllFields, ModeOk, SuccessesOf, Parsed, Splitting.Joined, HashOk;
    var fields, n := AllFields(items, outcomes, conflict), |outcomes|;
    AllFieldsClean(items, outcomes, conflict);
    AllFieldsShape(items, outcomes, conflict);
    FieldsRead(fields, items, n + if conflict then 1 else 0);
    ParseOutcomes(items, outcomes, fields, n);
    assert outcomes[..n] == outcomes;
    assert fields[..4 * n] <= OutcomesFields(items, outcomes);
    if conflict {
      ParseConflict(items, n, SuccessesOf(items[..n]));
    }
  }

  const SET_USER_ID: nat := 0x9ED // 04755

  /** A set-user-id file, which a read reports with its mode like any other: an edit of it is carried out, and
      never confirmed. */
  lemma {:induction false} SpecialModeIsUnknown(item: WireItem, outcome: Outcome)
    requires HashOk(item) && item.desired.Present? && item.base.Regular? && item.base.mode == SET_USER_ID
    ensures Parsed(Output([item], [outcome], false), [], [item]) == Unknown
  {
    TranscriptRoundTrip([item], [outcome], false);
    assert !ModeOk([item][0]);
  }

  /** A transcript cut short anywhere never reads as success, nor as a conflict. */
  lemma {:induction false} TruncatedIsUnknown(items: seq<WireItem>, outcomes: seq<Outcome>, conflict: bool, n: nat)
    requires Genuine(items, outcomes, conflict) && n < |Output(items, outcomes, conflict)|
    ensures Parsed(Output(items, outcomes, conflict)[..n], [], items) == Unknown
  {
    hide ParseRecords, OutcomesFields, AllFields, HashOk, Splitting.Joined, Splitting.Complete, Splitting.Partial;
    var output := Output(items, outcomes, conflict);
    var fields := AllFields(items, outcomes, conflict);
    var cut := output[..n];
    AllFieldsClean(items, outcomes, conflict);
    Splitting.SplitJoined(fields, SEP);
    if cut != [] && cut[|cut| - 1] == SEP {
      CutFields(output, fields, n);
      var read := Splitting.Complete(cut, SEP);
      if |read| % 4 == 0 {
        FewRecordsAreUnknown(items, outcomes, conflict, read, |read| / 4);
      }
    }
  }

  /** Some of the records, and not all of them, conclude nothing. */
  lemma {:induction false} FewRecordsAreUnknown(
    items: seq<WireItem>, outcomes: seq<Outcome>, conflict: bool, read: seq<Bytes>, k: nat)
    requires Genuine(items, outcomes, conflict) && |read| == 4 * k
    requires read <= AllFields(items, outcomes, conflict) && |read| < |AllFields(items, outcomes, conflict)|
    ensures Concluded(items, ParseRecords(read, items, k)) == Unknown
  {
    hide ParseRecords, OutcomesFields, AllFields, ModeOk, HashOk;
    AllFieldsShape(items, outcomes, conflict);
    OutcomesLength(items, outcomes, 0);
    var fields := AllFields(items, outcomes, conflict);
    assert read[..4 * k] == read && read == fields[..4 * k];
    assert fields[..4 * |outcomes|][..4 * k] == fields[..4 * k];
    ParseOutcomes(items, outcomes, read, k);
  }

  lemma {:induction false} CutFields(output: Bytes, fields: seq<Bytes>, n: nat)
    requires output == Splitting.Joined(fields, SEP) && Splitting.Complete(output, SEP) == fields
    requires 0 < n < |output| && output[n - 1] == SEP
    ensures Splitting.Complete(output[..n], SEP) <= fields
    ensures |Splitting.Complete(output[..n], SEP)| < |fields|
  {
    var cut := output[..n];
    Splitting.CompleteGrows(cut, SEP, output[n..]);
    assert cut + output[n..] == output;
    Splitting.SplitIsExact(cut, SEP);
    assert Splitting.Partial(cut, SEP) == [];
    assert Splitting.Joined(Splitting.Complete(cut, SEP), SEP) == cut;
    assert |Splitting.Complete(cut, SEP)| == |fields| ==> Splitting.Complete(cut, SEP) == fields;
  }

  // ----- what a report proves -----

  /** A numbered field: its prefix, then digits of that value. */
  predicate Says(field: Bytes, prefix: Bytes, n: nat) {
    && prefix <= field && field[|prefix|..] != [] && AllDigits(field[|prefix|..])
    && Value(field[|prefix|..]) == n && n < U64_LIMIT
  }

  /** A record confirms one item: its number, a change or none, and the digest that was sent with a mode
      within 0777, or for a deletion a dash and zero. The success repeats the item and what was confirmed. */
  predicate Confirms(record: seq<Bytes>, item: WireItem, n: nat, success: Success)
    requires |record| == 4
  {
    && Says(record[0], INDEX, n)
    && (record[1] == STATUS + CHANGED || record[1] == STATUS + UNCHANGED)
    && success.path == item.path && success.generation == item.generation
    && match item.desired
       case Deleted => record[2] == SHA256 + DASH && Says(record[3], MODE, 0) && success.base == Missing
       case Present(_) =>
         && item.sha256.Some? && success.base.Regular? && success.base.sha256 == item.sha256.value
         && success.base.mode <= MAX_MODE
         && record[2] == SHA256 + item.sha256.value && Says(record[3], MODE, success.base.mode)
  }

  predicate Conflicts(record: seq<Bytes>, n: nat)
    requires |record| == 4
  {
    Says(record[0], INDEX, n) && record[1] == STATUS + CONFLICT
  }

  predicate AllConfirm(fields: seq<Bytes>, items: seq<WireItem>, successes: seq<Success>) {
    && |successes| <= |items| && 4 * |successes| <= |fields|
    && forall i :: 0 <= i < |successes| ==> Confirms(fields[4 * i..4 * (i + 1)], items[i], i, successes[i])
  }

  /** The records confirm the items one by one: all of them and nothing more, or up to a conflict. */
  predicate Certifies(fields: seq<Bytes>, items: seq<WireItem>, successes: seq<Success>, conflict: Option<nat>) {
    && AllConfirm(fields, items, successes)
    && match conflict
       case None => |successes| == |items| && |fields| == 4 * |items|
       case Some(n) =>
         && n == |successes| < |items| && 4 * (n + 1) <= |fields|
         && Conflicts(fields[4 * n..4 * (n + 1)], n)
  }

  lemma {:induction false} FieldSays(field: Bytes, prefix: Bytes, limit: nat, n: nat)
    ensures FieldNumber(field, prefix, limit) == Some(n) <==> Says(field, prefix, n) && n < limit
  {
  }

  lemma {:induction false} StripIs(field: Bytes, prefix: Bytes, text: Bytes)
    ensures Strip(field, prefix) == Some(text) <==> field == prefix + text
  {
  }

  lemma {:induction false} RecordConfirms(
      record: seq<Bytes>, items: seq<WireItem>, n: nat, successes: seq<Success>, success: Success)
    requires |record| == 4
    ensures ParseRecord(record, items, n, successes) == Going(successes + [success]) <==>
              n < |items| && Confirms(record, items[n], n, success)
  {
    StatusesDiffer();
    StripIs(record[1], STATUS, CONFLICT);
    StripIs(record[1], STATUS, CHANGED);
    StripIs(record[1], STATUS, UNCHANGED);
    FieldSays(record[0], INDEX, U64_LIMIT, n);
    var mode := if success.base.Regular? then success.base.mode else 0;
    FieldSays(record[3], MODE, U32_LIMIT, mode);
    StripIs(record[2], SHA256, DASH);
    if n < |items| && items[n].sha256.Some? {
      StripIs(record[2], SHA256, items[n].sha256.value);
    }
    hide FieldNumber, Strip, Says;
    var r := ParseRecord(record, items, n, successes);
    if r.Going? {
      assert r.successes == successes + [r.successes[|successes|]];
    }
    assert forall x, y :: successes + [x] == successes + [y] ==> x == y by {
      assert forall x :: (successes + [x])[|successes|] == x;
    }
  }

  lemma {:induction false} StatusesDiffer()
    ensures CHANGED != CONFLICT && UNCHANGED != CONFLICT
  {
    assert CHANGED[1] != CONFLICT[1] && UNCHANGED[0] != CONFLICT[0];
  }

  lemma {:induction false} RecordConflicts(
      record: seq<Bytes>, items: seq<WireItem>, n: nat, successes: seq<Success>, result: BatchResult)
    requires |record| == 4 && result.Reported?
    ensures ParseRecord(record, items, n, successes) == Done(result) <==>
              n < |items| && Conflicts(record, n) && result == Reported(successes, Some(n))
  {
    StripIs(record[1], STATUS, CONFLICT);
    FieldSays(record[0], INDEX, U64_LIMIT, n);
    hide FieldNumber, Strip, Says;
  }

  lemma {:induction false} RecordsConfirm(
      fields: seq<Bytes>, items: seq<WireItem>, n: nat, successes: seq<Success>)
    requires 4 * n <= |fields|
    ensures ParseRecords(fields, items, n) == Going(successes) <==>
              |successes| == n && AllConfirm(fields, items, successes)
  {
    hide ParseRecord, Confirms;
    if n > 0 {
      var before := ParseRecords(fields, items, n - 1);
      var record := fields[4 * (n - 1)..4 * n];
      if before.Going? {
        RecordsConfirm(fields, items, n - 1, before.successes);
        GoingGrows(record, items, n - 1, before.successes);
      }
      if |successes| == n {
        var earlier, last := successes[..n - 1], successes[n - 1];
        assert successes == earlier + [last];
        RecordsConfirm(fields, items, n - 1, earlier);
        RecordConfirms(record, items, n - 1, earlier, last);
        assert AllConfirm(fields, items, successes) <==>
               AllConfirm(fields, items, earlier) && n <= |items| && Confirms(record, items[n - 1], n - 1, last);
      }
    }
  }

  lemma {:induction false} GoingGrows(record: seq<Bytes>, items: seq<WireItem>, n: nat, successes: seq<Success>)
    requires |record| == 4
    ensures var r := ParseRecord(record, items, n, successes);
            r.Going? ==> |r.successes| == |successes| + 1 && r.successes[..|successes|] == successes
  {
    hide FieldNumber, Strip, ReportedBase;
  }

  lemma {:induction false} RecordsConflict(
      fields: seq<Bytes>, items: seq<WireItem>, n: nat, successes: seq<Success>, conflict: Option<nat>)
    requires 4 * n <= |fields|
    ensures ParseRecords(fields, items, n) == Done(Reported(successes, conflict)) <==>
              && conflict == Some(|successes|) && |successes| < n && |successes| < |items|
              && AllConfirm(fields, items, successes)
              && Conflicts(fields[4 * |successes|..4 * (|successes| + 1)], |successes|)
  {
    hide ParseRecord, Conflicts, AllConfirm;
    if n > 0 {
      RecordsConflict(fields, items, n - 1, successes, conflict);
      var before := ParseRecords(fields, items, n - 1);
      RecordsConfirm(fields, items, n - 1, successes);
      if before.Going? {
        RecordsConfirm(fields, items, n - 1, before.successes);
        var record := fields[4 * (n - 1)..4 * n];
        RecordConflicts(record, items, n - 1, before.successes, Reported(successes, conflict));
      }
    }
  }

  /** What is reported is exactly what the transcript certifies. */
  lemma {:induction false} ReportedIff(
      stdout: Bytes, stderr: Bytes, items: seq<WireItem>, successes: seq<Success>, conflict: Option<nat>)
    ensures Parsed(stdout, stderr, items) == Reported(successes, conflict) <==>
              && stderr == [] && stdout != [] && stdout[|stdout| - 1] == SEP
              && |Splitting.Complete(stdout, SEP)| % 4 == 0
              && Certifies(Splitting.Complete(stdout, SEP), items, successes, conflict)
  {
    hide ParseRecords, AllConfirm, Conflicts, Splitting.Complete;
    var fields := Splitting.Complete(stdout, SEP);
    if |fields| % 4 == 0 {
      RecordsConfirm(fields, items, |fields| / 4, successes);
      RecordsConflict(fields, items, |fields| / 4, successes, conflict);
    }
  }

  // ----- whole batches -----

  /** The successes are the first of `items`, in order. */
  ghost predicate ReportsPrefix(items: seq<WireItem>, successes: seq<Success>) {
    && |successes| <= |items|
    && forall i :: 0 <= i < |successes| ==>
         successes[i].path == items[i].path && successes[i].generation == items[i].generation
  }

  /** Whatever a transcript says, what is reported is an in-order prefix of the items, a conflict lies just
      past it, and a report without conflict covers every item. */
  lemma {:induction false} ReportsInOrder(stdout: Bytes, stderr: Bytes, items: seq<WireItem>)
    ensures
      match Parsed(stdout, stderr, items)
      case Unknown => true
      case Reported(successes, conflict) =>
        && ReportsPrefix(items, successes)
        && (conflict.Some? ==> conflict.value == |successes| < |items|)
        && (conflict.None? ==> |successes| == |items|)
  {
    var fields := Splitting.Complete(stdout, SEP);
    if |fields| % 4 == 0 {
      RecordsInOrder(fields, items, |fields| / 4);
    }
  }

  lemma {:induction false} RecordsInOrder(fields: seq<Bytes>, items: seq<WireItem>, n: nat)
    requires 4 * n <= |fields|
    ensures
      match ParseRecords(fields, items, n)
      case Going(successes) => |successes| == n && ReportsPrefix(items, successes)
      case Done(Unknown) => true
      case Done(Reported(successes, conflict)) =>
        ReportsPrefix(items, successes) && conflict == Some(|successes|) && |successes| < |items|
  {
    hide FieldNumber, Strip, ReportedBase;
    if n > 0 {
      RecordsInOrder(fields, items, n - 1);
    }
  }

  /** How one request of a batch ended: with a transcript, or without one. */
  datatype Request = Answered(stdout: Bytes, stderr: Bytes) | Unanswered

  /** Why a batch went no further; a conflict names its path. */
  datatype Failure = TransportFailed | OutcomeUnknown | Conflicting(path: Bytes)

  datatype Committed = Committed(successes: seq<Success>, failure: Option<Failure>)

  /** What is wrong with one request, if anything. */
  function FailureOf(part: seq<WireItem>, answer: Request): Option<Failure> {
    match answer
    case Unanswered => Some(TransportFailed)
    case Answered(stdout, stderr) =>
      match Parsed(stdout, stderr, part)
      case Unknown => Some(OutcomeUnknown)
      case Reported(_, None) => None
      case Reported(_, Some(i)) => Some(Conflicting(if i < |part| then part[i].path else []))
  }

  function SuccessesIn(part: seq<WireItem>, answer: Request): seq<Success> {
    if answer.Answered? && Parsed(answer.stdout, answer.stderr, part).Reported?
    then Parsed(answer.stdout, answer.stderr, part).successes
    else []
  }

  /** What the first `n` requests report, in order. */
  function Gathered(parts: seq<seq<WireItem>>, answers: seq<Request>, n: nat): seq<Success>
    requires n <= |parts| == |answers|
  {
    if n == 0 then [] else Gathered(parts, answers, n - 1) + SuccessesIn(parts[n - 1], answers[n - 1])
  }

  /** Sends the requests one after another and stops after the first that fails, with its failure; whatever
      happens, what is reported is an in-order prefix of the items, and all of them when nothing fails. */
  method CommitBatch(parts: seq<seq<WireItem>>, answers: seq<Request>) returns (r: Committed)
    requires |answers| == |parts|
    ensures ReportsPrefix(Flatten(parts), r.successes)
    ensures r.failure.None? ==>
      && |r.successes| == |Flatten(parts)| && r.successes == Gathered(parts, answers, |parts|)
      && forall i :: 0 <= i < |parts| ==> FailureOf(parts[i], answers[i]).None?
    ensures r.failure.Some? ==>
      exists i :: 0 <= i < |parts| && r.failure == FailureOf(parts[i], answers[i])
        && (forall j :: 0 <= j < i ==> FailureOf(parts[j], answers[j]).None?)
        && r.successes == Gathered(parts, answers, i + 1)
  {
    hide Parsed, ReportsPrefix, Flatten, Gathered;
    var committed: seq<Success> := [];
    NoneGathered(parts, answers);
    for i := 0 to |parts|
      invariant ReportsPrefix(Flatten(parts[..i]), committed) && |committed| == |Flatten(parts[..i])|
      invariant committed == Gathered(parts, answers, i)
      invariant forall j :: 0 <= j < i ==> FailureOf(parts[j], answers[j]).None?
    {
      GatherOne(parts, answers, i, committed);
      if answers[i].Unanswered? {
        return Committed(committed, Some(TransportFailed));
      }
      var result := ParseBatchResult(answers[i].stdout, answers[i].stderr, parts[i]);
      if result.Unknown? {
        return Committed(committed, Some(OutcomeUnknown));
      }
      committed := committed + result.successes;
      if result.conflict.Some? {
        ReportsInOrder(answers[i].stdout, answers[i].stderr, parts[i]);
        return Committed(committed, Some(Conflicting(parts[i][result.conflict.value].path)));
      }
    }
    assert parts[..|parts|] == parts;
    r := Committed(committed, None);
  }

  lemma {:induction false} NoneGathered(parts: seq<seq<WireItem>>, answers: seq<Request>)
    requires |answers| == |parts|
    ensures Gathered(parts, answers, 0) == [] && Flatten(parts[..0]) == [] && ReportsPrefix([], [])
  {
  }

  /** One more request adds what it reports, which is about its own items. */
  lemma {:induction false} GatherOne(parts: seq<seq<WireItem>>, answers: seq<Request>, i: nat, committed: seq<Success>)
    requires i < |parts| == |answers|
    requires ReportsPrefix(Flatten(parts[..i]), committed) && |committed| == |Flatten(parts[..i])|
    requires committed == Gathered(parts, answers, i)
    ensures var more := committed + SuccessesIn(parts[i], answers[i]);
            && more == Gathered(parts, answers, i + 1)
            && ReportsPrefix(Flatten(parts), more)
            && (FailureOf(parts[i], answers[i]).None? ==>
                  ReportsPrefix(Flatten(parts[..i + 1]), more) && |more| == |Flatten(parts[..i + 1])|)
    ensures SuccessesIn(parts[i], answers[i]) == [] ==> committed == Gathered(parts, answers, i + 1)
  {
    hide Parsed;
    assert parts[..i + 1][..i] == parts[..i];
    FlattenGrows(parts, i + 1);
    if answers[i].Answered? {
      ReportsInOrder(answers[i].stdout, answers[i].stderr, parts[i]);
    }
  }

  lemma {:induction false} FlattenGrows(parts: seq<seq<WireItem>>, n: nat)
    requires n <= |parts|
    ensures Flatten(parts[..n]) <= Flatten(parts)
    decreases |parts| - n
  {
    if n == |parts| {
      assert parts[..n] == parts;
    } else {
      FlattenGrows(parts, n + 1);
      assert parts[..n + 1][..n] == parts[..n];
    }
  }
}
