/** The update part of the patch engine: parsing a chunk, finding where it applies under increasingly
    loose matching, and rewriting the file. */
module Patch {
  import opened Common
  import Splitting

  type Line = string

  datatype PatchError = InvalidPatch | TooLarge | WriteConflict

  datatype Result<+T> = Ok(value: T) | Err(error: PatchError)

  // ----- edit scripts -----

  /** One body record: a context line, a removed line, an added line. */
  datatype Op = Keep(text: Line) | Remove(text: Line) | Add(text: Line)

  datatype Chunk = Chunk(
    context: Option<Line>,
    oldLines: seq<Line>,
    newLines: seq<Line>,
    contextIndices: seq<(nat, nat)>,
    endOfFile: bool)

  function OldOf(ops: seq<Op>): seq<Line> {
    if ops == [] then []
    else OldOf(ops[..|ops| - 1]) + if ops[|ops| - 1].Add? then [] else [ops[|ops| - 1].text]
  }

  function NewOf(ops: seq<Op>): seq<Line> {
    if ops == [] then []
    else NewOf(ops[..|ops| - 1]) + if ops[|ops| - 1].Remove? then [] else [ops[|ops| - 1].text]
  }

  function IndicesOf(ops: seq<Op>): seq<(nat, nat)> {
    if ops == [] then []
    else
      var most := ops[..|ops| - 1];
      IndicesOf(most) + if ops[|ops| - 1].Keep? then [(|OldOf(most)|, |NewOf(most)|)] else []
  }

  ghost predicate FromOps(chunk: Chunk, ops: seq<Op>) {
    chunk.oldLines == OldOf(ops) && chunk.newLines == NewOf(ops) && chunk.contextIndices == IndicesOf(ops)
  }

  /** What the parser guarantees of a chunk. */
  ghost predicate WellFormed(chunk: Chunk) {
    exists ops :: FromOps(chunk, ops)
  }

  // ----- parsing -----

  const BEGIN_PATCH := "*** Begin Patch"
  const END_PATCH := "*** End Patch"
  const ENVIRONMENT_ID := "*** Environment ID: "
  const ADD_FILE := "*** Add File: "
  const UPDATE_FILE := "*** Update File: "
  const DELETE_FILE := "*** Delete File: "
  const MOVE_TO := "*** Move to: "
  const END_OF_FILE := "*** End of File"
  const MARKER := "*** "
  const HEADER := "@@"
  const CONTEXT := "@@ "
  const MAX_BODY_LINES: nat := 100_000

  predicate IsFileDirective(record: Line) {
    ADD_FILE <= record || UPDATE_FILE <= record || DELETE_FILE <= record
  }

  /** A record that ends the body of a chunk without belonging to it. */
  predicate Ends(record: Line) {
    record == HEADER || CONTEXT <= record || IsFileDirective(record) || MOVE_TO <= record
  }

  predicate Rejected(record: Line) {
    record == BEGIN_PATCH || record == END_PATCH || ENVIRONMENT_ID <= record || MARKER <= record
  }

  function BodyOp(record: Line): Option<Op> {
    if record == [] then None
    else if record[0] == ' ' then Some(Keep(record[1..]))
    else if record[0] == '-' then Some(Remove(record[1..]))
    else if record[0] == '+' then Some(Add(record[1..]))
    else None
  }

  function RecordOf(op: Op): Line {
    match op
    case Keep(text) => [' '] + text
    case Remove(text) => ['-'] + text
    case Add(text) => ['+'] + text
  }

  datatype ParsedChunk = ParsedChunk(chunk: Chunk, next: nat, bodyLines: nat)

  function BodyStart(records: seq<Line>, start: nat): nat
    requires start < |records|
  {
    if records[start] == HEADER || CONTEXT <= records[start] then start + 1 else start
  }

  /** `records` from `body` to `index` are the lines of `ops`, which `chunk` is made of. */
  ghost predicate BodyRead(records: seq<Line>, body: nat, index: nat, ops: seq<Op>, chunk: Chunk) {
    && body <= index <= |records| && |ops| == index - body
    && FromOps(chunk, ops)
    && forall i :: 0 <= i < |ops| ==> records[body + i] == RecordOf(ops[i])
  }

  lemma {:induction false} BodyReadOne(records: seq<Line>, body: nat, index: nat, ops: seq<Op>, chunk: Chunk, op: Op)
    requires BodyRead(records, body, index, ops, chunk) && index < |records| && BodyOp(records[index]) == Some(op)
    ensures BodyRead(records, body, index + 1, ops + [op], chunk.(
      oldLines := if op.Add? then chunk.oldLines else chunk.oldLines + [op.text],
      newLines := if op.Remove? then chunk.newLines else chunk.newLines + [op.text],
      contextIndices := if op.Keep? then chunk.contextIndices + [(|chunk.oldLines|, |chunk.newLines|)]
                        else chunk.contextIndices))
  {
    hide OldOf, NewOf, IndicesOf, BodyOp, RecordOf;
    OpsAppend(ops, op);
    BodyOpIff(records[index], op);
  }

  lemma {:induction false} OpsAppend(ops: seq<Op>, op: Op)
    ensures OldOf(ops + [op]) == if op.Add? then OldOf(ops) else OldOf(ops) + [op.text]
    ensures NewOf(ops + [op]) == if op.Remove? then NewOf(ops) else NewOf(ops) + [op.text]
    ensures IndicesOf(ops + [op])
         == if op.Keep? then IndicesOf(ops) + [(|OldOf(ops)|, |NewOf(ops)|)] else IndicesOf(ops)
  {
    assert (ops + [op])[..|ops|] == ops;
  }

  /** A record is read as the operation it is written for, and every operation can be read. */
  lemma {:induction false} BodyOpIff(record: Line, op: Op)
    ensures BodyOp(record) == Some(op) <==> record == RecordOf(op)
  {
    if record != [] {
      assert record == [record[0]] + record[1..];
    }
    assert RecordOf(op) == [RecordOf(op)[0]] + op.text;
  }

  /** After the lines of `ops` comes a record that can neither be read nor end the body, or one line too
      many. */
  ghost predicate BodyFails(records: seq<Line>, body: nat, end: nat, total: nat, ops: seq<Op>, error: PatchError) {
    && body + |ops| < end <= |records|
    && (forall i :: 0 <= i < |ops| ==> records[body + i] == RecordOf(ops[i]))
    && var record := records[body + |ops|];
       && record != END_OF_FILE && !Ends(record)
       && if Rejected(record) || BodyOp(record).None? then error == InvalidPatch
          else error == TooLarge && total + |ops| == MAX_BODY_LINES
  }

  /** The end-of-file marker is followed by something that is neither blank nor a file directive. */
  ghost predicate MarkerFails(records: seq<Line>, marker: nat, end: nat) {
    && marker < end <= |records| && records[marker] == END_OF_FILE
    && exists j :: marker < j < end && records[j] != [] && !IsFileDirective(records[j])
         && forall i :: marker < i < j ==> records[i] == []
  }

  lemma {:induction false} BodyLines(records: seq<Line>, body: nat, index: nat, ops: seq<Op>, chunk: Chunk)
    requires BodyRead(records, body, index, ops, chunk)
    ensures index == body + |ops| && forall i :: 0 <= i < |ops| ==> records[body + i] == RecordOf(ops[i])
  {
  }

  /** The body lines of a chunk, up to the record that ends it; it fails exactly where it says. */
  method ParseBody(records: seq<Line>, body: nat, end: nat, context: Option<Line>, totalBodyLines: nat)
    returns (r: Result<ParsedChunk>, ghost ops: seq<Op>)
    requires body <= end <= |records| && totalBodyLines <= MAX_BODY_LINES
    ensures r.Err? ==> BodyFails(records, body, end, totalBodyLines, ops, r.error)
    ensures r.Ok? ==>
      var p := r.value;
      && p.next <= end && BodyRead(records, body, p.next, ops, p.chunk) && p.chunk.context == context
      && p.bodyLines == totalBodyLines + |ops| <= MAX_BODY_LINES
      && (p.chunk.endOfFile ==> p.next < end && records[p.next] == END_OF_FILE)
      && (!p.chunk.endOfFile && p.next < end ==> Ends(records[p.next]))
  {
    hide FromOps, Ends, Rejected, BodyOp, RecordOf, BodyRead;
    ops := [];
    var chunk, index, total := Chunk(context, [], [], [], false), body, totalBodyLines;
    NothingRead(records, body, chunk);
    while index < end
      invariant body <= index <= end && |ops| == index - body
      invariant BodyRead(records, body, index, ops, chunk) && !chunk.endOfFile && chunk.context == context
      invariant total == totalBodyLines + |ops| <= MAX_BODY_LINES
    {
      var record := records[index];
      BodyLines(records, body, index, ops, chunk);
      if record == END_OF_FILE {
        BodyReadEnds(records, body, index, ops, chunk);
        return Ok(ParsedChunk(chunk.(endOfFile := true), index, total)), ops;
      }
      if Ends(record) {
        return Ok(ParsedChunk(chunk, index, total)), ops;
      }
      if Rejected(record) {
        return Err(InvalidPatch), ops;
      }
      var op := BodyOp(record);
      if op.None? {
        return Err(InvalidPatch), ops;
      }
      BodyReadOne(records, body, index, ops, chunk, op.value);
      match op.value {
        case Keep(text) =>
          chunk := chunk.(contextIndices := chunk.contextIndices + [(|chunk.oldLines|, |chunk.newLines|)]);
          chunk := chunk.(oldLines := chunk.oldLines + [text], newLines := chunk.newLines + [text]);
        case Remove(text) => chunk := chunk.(oldLines := chunk.oldLines + [text]);
        case Add(text) => chunk := chunk.(newLines := chunk.newLines + [text]);
      }
      total := total + 1;
      if total > MAX_BODY_LINES {
        return Err(TooLarge), ops;
      }
      ops := ops + [op.value];
      index := index + 1;
    }
    r := Ok(ParsedChunk(chunk, index, total));
  }

  lemma {:induction false} NothingRead(records: seq<Line>, body: nat, chunk: Chunk)
    requires body <= |records| && chunk.oldLines == [] && chunk.newLines == [] && chunk.contextIndices == []
    ensures BodyRead(records, body, body, [], chunk)
  {
  }

  lemma {:induction false} BodyReadEnds(records: seq<Line>, body: nat, index: nat, ops: seq<Op>, chunk: Chunk)
    requires BodyRead(records, body, index, ops, chunk)
    ensures BodyRead(records, body, index, ops, chunk.(endOfFile := true))
  {
  }

  /** Parses one chunk of an update from `start`. What is accepted is an optional header, a body of
      prefixed lines, and possibly an end-of-file marker that nothing but a file directive follows; a
      record that could start a chunk is always consumed. What is rejected is an empty context, a record
      that cannot be read, one line too many, or something after the end-of-file marker. */
  method ParseUpdateChunk(records: seq<Line>, start: nat, end: nat, totalBodyLines: nat)
    returns (r: Result<ParsedChunk>, ghost ops: seq<Op>)
    requires start < end <= |records| && totalBodyLines <= MAX_BODY_LINES
    ensures r.Err? ==>
      || (r.error == InvalidPatch && records[start] == CONTEXT)
      || BodyFails(records, BodyStart(records, start), end, totalBodyLines, ops, r.error)
      || (r.error == InvalidPatch && MarkerFails(records, BodyStart(records, start) + |ops|, end))
    ensures r.Ok? ==>
      var p, body := r.value, BodyStart(records, start);
      && BodyRead(records, body, body + |ops|, ops, p.chunk)
      && body + |ops| <= p.next <= end
      && p.bodyLines == totalBodyLines + |ops| <= MAX_BODY_LINES
      && (p.chunk.context.Some? <==> CONTEXT <= records[start])
      && (p.chunk.context.Some? ==> p.chunk.context.value != [] && records[start] == CONTEXT + p.chunk.context.value)
      && (!p.chunk.endOfFile ==> p.next == body + |ops| && (p.next < end ==> Ends(records[p.next])))
      && (p.chunk.endOfFile ==>
            && body + |ops| < p.next && records[body + |ops|] == END_OF_FILE
            && (forall i :: body + |ops| < i < p.next ==> records[i] == [])
            && (p.next < end ==> IsFileDirective(records[p.next])))
    ensures r.Ok? && !IsFileDirective(records[start]) && !(MOVE_TO <= records[start]) ==> r.value.next > start
  {
    hide BodyRead;
    var context := None;
    if records[start] != HEADER && CONTEXT <= records[start] {
      if records[start] == CONTEXT {
        return Err(InvalidPatch), [];
      }
      context := Some(records[start][|CONTEXT|..]);
    }
    r, ops := ParseBody(records, BodyStart(records, start), end, context, totalBodyLines);
    if r.Err? || !r.value.chunk.endOfFile {
      BodyLength(records, BodyStart(records, start), r, ops);
      return;
    }
    BodyLength(records, BodyStart(records, start), r, ops);
    var index := SkipBlank(records, r.value.next + 1, end);
    if index < end && !IsFileDirective(records[index]) {
      return Err(InvalidPatch), ops;
    }
    r := Ok(r.value.(next := index));
  }

  lemma {:induction false} BodyLength(records: seq<Line>, body: nat, r: Result<ParsedChunk>, ops: seq<Op>)
    requires r.Ok? ==> BodyRead(records, body, r.value.next, ops, r.value.chunk)
    ensures r.Ok? ==> r.value.next == body + |ops|
  {
  }

  method SkipBlank(records: seq<Line>, start: nat, end: nat) returns (index: nat)
    requires start <= end <= |records|
    ensures start <= index <= end
    ensures forall i :: start <= i < index ==> records[i] == []
    ensures index < end ==> records[index] != []
  {
    index := start;
    while index < end && records[index] == []
      invariant start <= index <= end
      invariant forall i :: start <= i < index ==> records[i] == []
    {
      index := index + 1;
    }
  }

  // ----- matching -----

  datatype MatchMode = Exact | TrimEnd | Trim | UnicodeNormalized

  predicate IsWhitespace(c: char) {
    || '\U{0009}' <= c <= '\U{000D}' || c == ' ' || c == '\U{0085}' || c == '\U{00A0}' || c == '\U{1680}'
    || '\U{2000}' <= c <= '\U{200A}' || c == '\U{2028}' || c == '\U{2029}' || c == '\U{202F}' || c == '\U{205F}'
    || c == '\U{3000}'
  }

  function TrimmedEnd(text: Line): Line {
    if text != [] && IsWhitespace(text[|text| - 1]) then TrimmedEnd(text[..|text| - 1]) else text
  }

  function TrimmedStart(text: Line): Line {
    if text != [] && IsWhitespace(text[0]) then TrimmedStart(text[1..]) else text
  }

  function Trimmed(text: Line): Line {
    TrimmedStart(TrimmedEnd(text))
  }

  /** Trimming takes off whitespace at the ends, and all of it. */
  lemma {:induction false} TrimmedStrips(text: Line) returns (before: Line, after: Line)
    ensures text == before + Trimmed(text) + after
    ensures forall c :: c in before + after ==> IsWhitespace(c)
    ensures Trimmed(text) != [] ==>
              !IsWhitespace(Trimmed(text)[0]) && !IsWhitespace(Trimmed(text)[|Trimmed(text)| - 1])
    ensures text == TrimmedEnd(text) + after
  {
    after := EndStripped(text);
    before := StartStripped(TrimmedEnd(text));
  }

  lemma {:induction false} EndStripped(text: Line) returns (after: Line)
    ensures text == TrimmedEnd(text) + after && forall c :: c in after ==> IsWhitespace(c)
    ensures TrimmedEnd(text) != [] ==> !IsWhitespace(TrimmedEnd(text)[|TrimmedEnd(text)| - 1])
  {
    after := [];
    if text != [] && IsWhitespace(text[|text| - 1]) {
      after := EndStripped(text[..|text| - 1]);
      after := after + [text[|text| - 1]];
    }
  }

  lemma {:induction false} StartStripped(text: Line) returns (before: Line)
    ensures text == before + TrimmedStart(text) && forall c :: c in before ==> IsWhitespace(c)
    ensures TrimmedStart(text) != [] ==> !IsWhitespace(TrimmedStart(text)[0])
  {
    before := [];
    if text != [] && IsWhitespace(text[0]) {
      before := StartStripped(text[1..]);
      before := [text[0]] + before;
    }
  }

  function NormalChar(c: char): char {
    if '\U{2010}' <= c <= '\U{2015}' || c == '\U{2212}' then '-'
    else if '\U{2018}' <= c <= '\U{201B}' then '\''
    else if '\U{201C}' <= c <= '\U{201F}' then '\"'
    else if c == '\U{00A0}' || '\U{2002}' <= c <= '\U{200A}' || c == '\U{202F}' || c == '\U{205F}' || c == '\U{3000}'
    then ' '
    else c
  }

  function Normalized(text: Line): Line {
    var t := Trimmed(text);
    seq(|t|, i requires 0 <= i < |t| => NormalChar(t[i]))
  }

  predicate SameLine(actual: Line, expected: Line, mode: MatchMode) {
    match mode
    case Exact => actual == expected
    case TrimEnd => TrimmedEnd(actual) == TrimmedEnd(expected)
    case Trim => Trimmed(actual) == Trimmed(expected)
    case UnicodeNormalized => Normalized(actual) == Normalized(expected)
  }

  predicate MatchesAt(lines: seq<Line>, needle: seq<Line>, start: nat, mode: MatchMode) {
    && start + |needle| <= |lines|
    && forall i :: 0 <= i < |needle| ==> SameLine(lines[start + i], needle[i], mode)
  }

  /** The first position from `start` through `last` that matches under `mode`. */
  function SeekMode(lines: seq<Line>, needle: seq<Line>, start: nat, last: nat, mode: MatchMode): (r: Option<nat>)
    ensures r.Some? ==> start <= r.value <= last && MatchesAt(lines, needle, r.value, mode)
    ensures r.Some? ==> forall c :: start <= c < r.value ==> !MatchesAt(lines, needle, c, mode)
    ensures r.None? ==> forall c :: start <= c <= last ==> !MatchesAt(lines, needle, c, mode)
    decreases last + 1 - start
  {
    if start > last then None
    else if MatchesAt(lines, needle, start, mode) then Some(start)
    else SeekMode(lines, needle, start + 1, last, mode)
  }

  /** A tighter mode is tried at every position before a looser one at any. */
  function SeekCandidates(lines: seq<Line>, needle: seq<Line>, start: nat, last: nat): Option<nat> {
    var exact := SeekMode(lines, needle, start, last, Exact);
    if exact.Some? then exact
    else
      var trimEnd := SeekMode(lines, needle, start, last, TrimEnd);
      if trimEnd.Some? then trimEnd
      else
        var trim := SeekMode(lines, needle, start, last, Trim);
        if trim.Some? then trim else SeekMode(lines, needle, start, last, UnicodeNormalized)
  }

  function Seek(lines: seq<Line>, needle: seq<Line>, start: nat, endOfFile: bool): Option<nat> {
    if needle == [] then
      Some(if endOfFile || start > |lines| then |lines| else start)
    else if |lines| < |needle| then None
    else
      var last := |lines| - |needle|;
      if start > last then None
      else
        var atEnd := if endOfFile then SeekCandidates(lines, needle, last, last) else None;
        if atEnd.Some? then atEnd else SeekCandidates(lines, needle, start, last)
  }

  lemma {:induction false} LooserLine(actual: Line, expected: Line)
    ensures SameLine(actual, expected, Exact) ==> SameLine(actual, expected, TrimEnd)
    ensures SameLine(actual, expected, TrimEnd) ==> SameLine(actual, expected, Trim)
    ensures SameLine(actual, expected, Trim) ==> SameLine(actual, expected, UnicodeNormalized)
  {
  }

  /** Each mode accepts whatever a tighter one does. */
  lemma {:induction false} ModesNest(lines: seq<Line>, needle: seq<Line>, start: nat)
    ensures MatchesAt(lines, needle, start, Exact) ==> MatchesAt(lines, needle, start, TrimEnd)
    ensures MatchesAt(lines, needle, start, TrimEnd) ==> MatchesAt(lines, needle, start, Trim)
    ensures MatchesAt(lines, needle, start, Trim) ==> MatchesAt(lines, needle, start, UnicodeNormalized)
  {
    hide SameLine;
    if start + |needle| <= |lines| {
      forall i | 0 <= i < |needle|
        ensures SameLine(lines[start + i], needle[i], Exact) ==> SameLine(lines[start + i], needle[i], TrimEnd)
        ensures SameLine(lines[start + i], needle[i], TrimEnd) ==> SameLine(lines[start + i], needle[i], Trim)
        ensures SameLine(lines[start + i], needle[i], Trim) ==> SameLine(lines[start + i], needle[i], UnicodeNormalized)
      {
        LooserLine(lines[start + i], needle[i]);
      }
    }
  }

  lemma {:induction false} SeekCandidatesFinds(lines: seq<Line>, needle: seq<Line>, start: nat, last: nat)
    ensures
      match SeekCandidates(lines, needle, start, last)
      case Some(c) => start <= c <= last && MatchesAt(lines, needle, c, UnicodeNormalized)
      case None => forall c :: start <= c <= last ==> !MatchesAt(lines, needle, c, UnicodeNormalized)
  {
    hide MatchesAt;
    var r := SeekCandidates(lines, needle, start, last);
    if r.Some? {
      ModesNest(lines, needle, r.value);
    }
  }

  /** A search for a nonempty run of lines finds a position from the cursor on that matches at least
      loosely, and fails exactly when no such position exists. */
  lemma {:induction false} SeekFinds(lines: seq<Line>, needle: seq<Line>, start: nat, endOfFile: bool)
    requires needle != []
    ensures
      match Seek(lines, needle, start, endOfFile)
      case Some(c) => start <= c && MatchesAt(lines, needle, c, UnicodeNormalized)
      case None => forall c :: start <= c ==> !MatchesAt(lines, needle, c, UnicodeNormalized)
  {
    hide SeekCandidates;
    if |needle| <= |lines| {
      var last := |lines| - |needle|;
      SeekCandidatesFinds(lines, needle, start, last);
      SeekCandidatesFinds(lines, needle, last, last);
    }
  }

  /** An exact match from the cursor on is never passed over for a looser one. */
  lemma {:induction false} SeekPrefersExact(lines: seq<Line>, needle: seq<Line>, start: nat, c: nat)
    requires needle != [] && start <= c && MatchesAt(lines, needle, c, Exact)
    ensures Seek(lines, needle, start, false).Some?
    ensures
      var found := Seek(lines, needle, start, false).value;
      found <= c && MatchesAt(lines, needle, found, Exact)
  {
  }

  /** How loose a mode is. */
  function Looseness(mode: MatchMode): nat {
    match mode
    case Exact => 0
    case TrimEnd => 1
    case Trim => 2
    case UnicodeNormalized => 3
  }

  /** Of all the ways in which `needle` matches from line `from` on, under whatever mode, the match at
      `found` is under the tightest mode, and the first under that. */
  ghost predicate BestUnder(lines: seq<Line>, needle: seq<Line>, from: nat, found: nat, mode: MatchMode) {
    && from <= found && MatchesAt(lines, needle, found, mode)
    && forall c: nat, other :: from <= c && MatchesAt(lines, needle, c, other) ==>
         Looseness(mode) < Looseness(other) || (mode == other && found <= c)
  }

  ghost predicate Best(lines: seq<Line>, needle: seq<Line>, from: nat, found: nat) {
    exists mode :: BestUnder(lines, needle, from, found, mode)
  }

  /** There is at most one best match, and there is one as soon as the lines match loosely. */
  lemma {:induction false} BestIsUnique(lines: seq<Line>, needle: seq<Line>, from: nat, p: nat, q: nat)
    requires Best(lines, needle, from, p) && Best(lines, needle, from, q)
    ensures p == q
  {
    var m :| BestUnder(lines, needle, from, p, m);
    var n :| BestUnder(lines, needle, from, q, n);
  }

  lemma {:induction false} BestMatches(lines: seq<Line>, needle: seq<Line>, from: nat, found: nat)
    requires Best(lines, needle, from, found)
    ensures from <= found && found + |needle| <= |lines| && MatchesAt(lines, needle, found, UnicodeNormalized)
    ensures forall c :: from <= c < found ==> !MatchesAt(lines, needle, c, Exact)
  {
    ModesNest(lines, needle, found);
    hide SameLine;
  }

  /** Whether lines wanted at the end of the file are there. */
  predicate EndsWith(lines: seq<Line>, needle: seq<Line>, from: nat) {
    from + |needle| <= |lines| && MatchesAt(lines, needle, |lines| - |needle|, UnicodeNormalized)
  }

  lemma {:induction false} CandidatesAreBest(lines: seq<Line>, needle: seq<Line>, start: nat, found: nat)
    requires start + |needle| <= |lines|
    requires SeekCandidates(lines, needle, start, |lines| - |needle|) == Some(found)
    ensures Best(lines, needle, start, found)
  {
    var last := |lines| - |needle|;
    var mode := if SeekMode(lines, needle, start, last, Exact).Some? then Exact
                else if SeekMode(lines, needle, start, last, TrimEnd).Some? then TrimEnd
                else if SeekMode(lines, needle, start, last, Trim).Some? then Trim
                else UnicodeNormalized;
    forall c: nat, other | start <= c && MatchesAt(lines, needle, c, other)
      ensures Looseness(mode) < Looseness(other) || (mode == other && found <= c)
    {
      assert c <= last;
      ModesNest(lines, needle, c);
      hide MatchesAt;
    }
    assert BestUnder(lines, needle, start, found, mode);
  }

  /** A search finds the best match from the cursor on, except that a marker for the end of the file prefers
      the last place where the lines fit; it fails exactly when nothing matches loosely. */
  lemma {:induction false} SeekIsBest(lines: seq<Line>, needle: seq<Line>, start: nat, endOfFile: bool)
    requires needle != []
    ensures match Seek(lines, needle, start, endOfFile)
            case Some(found) =>
              if endOfFile && EndsWith(lines, needle, start) then found == |lines| - |needle|
              else Best(lines, needle, start, found)
            case None => forall c :: start <= c ==> !MatchesAt(lines, needle, c, UnicodeNormalized)
  {
    SeekFinds(lines, needle, start, endOfFile);
    if start + |needle| <= |lines| {
      var last := |lines| - |needle|;
      if endOfFile {
        SeekCandidatesFinds(lines, needle, last, last);
      }
      hide SeekCandidates, MatchesAt, Best;
      if SeekCandidates(lines, needle, start, last).Some? {
        CandidatesAreBest(lines, needle, start, SeekCandidates(lines, needle, start, last).value);
      }
    }
  }

  // ----- where the chunks apply -----

  datatype Replacement = Replacement(start: nat, oldLen: nat, newLines: seq<Line>)

  /** The new lines with the first `n` context lines as the file has them. */
  function Substituted(newLines: seq<Line>, indices: seq<(nat, nat)>, lines: seq<Line>, start: nat): (r: seq<Line>)
    requires forall i :: 0 <= i < |indices| ==> start + indices[i].0 < |lines| && indices[i].1 < |newLines|
    ensures |r| == |newLines|
  {
    if indices == [] then newLines
    else
      var last := indices[|indices| - 1];
      Substituted(newLines, indices[..|indices| - 1], lines, start)[last.1 := lines[start + last.0]]
  }

  predicate IndicesFit(chunk: Chunk, lines: seq<Line>, start: nat) {
    forall i :: 0 <= i < |chunk.contextIndices| ==>
      start + chunk.contextIndices[i].0 < |lines| && chunk.contextIndices[i].1 < |chunk.newLines|
  }

  /** Where a chunk applies, from the cursor its context left. */
  function ChunkStart(lines: seq<Line>, chunk: Chunk, cursor: nat): Option<nat> {
    if chunk.oldLines == [] && chunk.context.None? then Some(|lines|)
    else Seek(lines, chunk.oldLines, cursor, chunk.endOfFile)
  }

  function AfterContext(lines: seq<Line>, chunk: Chunk, cursor: nat): Option<nat> {
    if chunk.context.None? then Some(cursor)
    else
      var found := Seek(lines, [chunk.context.value], cursor, false);
      if found.None? then None else Some(found.value + 1)
  }

  datatype Located = Located(replacements: seq<Replacement>, cursor: nat)

  function LocateOne(lines: seq<Line>, chunk: Chunk, so: Located): Result<Located> {
    var cursor := AfterContext(lines, chunk, so.cursor);
    if cursor.None? then Err(WriteConflict)
    else if chunk.oldLines == [] && chunk.newLines == [] then Ok(so.(cursor := cursor.value))
    else
      var start := ChunkStart(lines, chunk, cursor.value);
      if start.None? || !IndicesFit(chunk, lines, start.value) then Err(WriteConflict)
      else
        var newLines := Substituted(chunk.newLines, chunk.contextIndices, lines, start.value);
        Ok(Located(so.replacements + [Replacement(start.value, |chunk.oldLines|, newLines)],
                   start.value + |chunk.oldLines|))
  }

  function LocateAll(lines: seq<Line>, chunks: seq<Chunk>): Result<Located> {
    if chunks == [] then Ok(Located([], 0))
    else
      var earlier := LocateAll(lines, chunks[..|chunks| - 1]);
      if earlier.Err? then earlier else LocateOne(lines, chunks[|chunks| - 1], earlier.value)
  }

  lemma {:induction false} LocateFails(lines: seq<Line>, chunks: seq<Chunk>, n: nat)
    requires n <= |chunks| && LocateAll(lines, chunks[..n]).Err?
    ensures LocateAll(lines, chunks) == LocateAll(lines, chunks[..n])
    decreases |chunks|
  {
    if n < |chunks| {
      assert chunks[..|chunks| - 1][..n] == chunks[..n];
      LocateFails(lines, chunks[..|chunks| - 1], n);
    } else {
      assert chunks[..n] == chunks;
    }
  }

  method Substitute(chunk: Chunk, lines: seq<Line>, start: nat) returns (r: Result<seq<Line>>)
    requires forall i :: 0 <= i < |chunk.contextIndices| ==> chunk.contextIndices[i].1 < |chunk.newLines|
    ensures r == if IndicesFit(chunk, lines, start)
                 then Ok(Substituted(chunk.newLines, chunk.contextIndices, lines, start)) else Err(WriteConflict)
  {
    var newLines, indices := chunk.newLines, chunk.contextIndices;
    for i := 0 to |indices|
      invariant forall j :: 0 <= j < i ==> start + indices[j].0 < |lines|
      invariant newLines == Substituted(chunk.newLines, indices[..i], lines, start)
    {
      assert indices[..i + 1][..i] == indices[..i];
      if start + indices[i].0 >= |lines| {
        return Err(WriteConflict);
      }
      newLines := newLines[indices[i].1 := lines[start + indices[i].0]];
    }
    assert indices[..|indices|] == indices;
    r := Ok(newLines);
  }

  /** Looks one chunk up from the cursor: its context first, then its old lines. */
  method FindReplacement(lines: seq<Line>, chunk: Chunk, so: Located) returns (r: Result<Located>)
    requires WellFormed(chunk)
    ensures r == LocateOne(lines, chunk, so)
  {
    hide Seek, Substituted;
    WellFormedIndices(chunk);
    var replacements, cursor := so.replacements, so.cursor;
    if chunk.context.Some? {
      var found := Seek(lines, [chunk.context.value], cursor, false);
      if found.None? {
        return Err(WriteConflict);
      }
      cursor := found.value + 1;
    }
    if chunk.oldLines == [] && chunk.newLines == [] {
      return Ok(Located(replacements, cursor));
    }
    var start := if chunk.oldLines == [] && chunk.context.None? then Some(|lines|)
                 else Seek(lines, chunk.oldLines, cursor, chunk.endOfFile);
    if start.None? {
      return Err(WriteConflict);
    }
    var newLines := Substitute(chunk, lines, start.value);
    if newLines.Err? {
      return Err(newLines.error);
    }
    replacements := replacements + [Replacement(start.value, |chunk.oldLines|, newLines.value)];
    r := Ok(Located(replacements, start.value + |chunk.oldLines|));
  }

  method FindReplacements(lines: seq<Line>, chunks: seq<Chunk>) returns (r: Result<Located>)
    requires forall i :: 0 <= i < |chunks| ==> WellFormed(chunks[i])
    ensures r == LocateAll(lines, chunks)
  {
    hide LocateOne;
    var so := Located([], 0);
    for i := 0 to |chunks|
      invariant LocateAll(lines, chunks[..i]) == Ok(so)
    {
      assert chunks[..i + 1][..i] == chunks[..i];
      var next := FindReplacement(lines, chunks[i], so);
      if next.Err? {
        LocateFails(lines, chunks, i + 1);
        return next;
      }
      so := next.value;
    }
    assert chunks[..|chunks|] == chunks;
    r := Ok(so);
  }

  lemma {:induction false} IndicesWithin(ops: seq<Op>)
    ensures forall i :: 0 <= i < |IndicesOf(ops)| ==>
      IndicesOf(ops)[i].0 < |OldOf(ops)| && IndicesOf(ops)[i].1 < |NewOf(ops)|
  {
    if ops != [] {
      IndicesWithin(ops[..|ops| - 1]);
    }
  }

  lemma {:induction false} WellFormedIndices(chunk: Chunk)
    requires WellFormed(chunk)
    ensures forall i :: 0 <= i < |chunk.contextIndices| ==>
      chunk.contextIndices[i].0 < |chunk.oldLines| && chunk.contextIndices[i].1 < |chunk.newLines|
  {
    var ops :| FromOps(chunk, ops);
    IndicesWithin(ops);
  }

  // ----- what the replacements are -----

  /** What an edit script makes of the lines from `start` on: kept lines come from the file, not from
      the patch; removed ones are skipped; added ones come from the patch. */
  function Emit(ops: seq<Op>, lines: seq<Line>, start: nat): seq<Line>
    requires start + |OldOf(ops)| <= |lines|
  {
    if ops == [] then []
    else
      var most, last := ops[..|ops| - 1], ops[|ops| - 1];
      Emit(most, lines, start) +
      match last
      case Keep(_) => [lines[start + |OldOf(most)|]]
      case Remove(_) => []
      case Add(text) => [text]
  }

  lemma {:induction false} SubstitutedAppend(
      newLines: seq<Line>, more: Line, indices: seq<(nat, nat)>, lines: seq<Line>, start: nat)
    requires forall i :: 0 <= i < |indices| ==> start + indices[i].0 < |lines| && indices[i].1 < |newLines|
    ensures Substituted(newLines + [more], indices, lines, start)
         == Substituted(newLines, indices, lines, start) + [more]
  {
    if indices != [] {
      SubstitutedAppend(newLines, more, indices[..|indices| - 1], lines, start);
    }
  }

  /** Putting the file's own lines in for the context lines is what the edit script says. */
  lemma {:induction false} SubstitutedIsEmit(ops: seq<Op>, lines: seq<Line>, start: nat)
    requires start + |OldOf(ops)| <= |lines|
    ensures forall i :: 0 <= i < |IndicesOf(ops)| ==>
      start + IndicesOf(ops)[i].0 < |lines| && IndicesOf(ops)[i].1 < |NewOf(ops)|
    ensures Substituted(NewOf(ops), IndicesOf(ops), lines, start) == Emit(ops, lines, start)
  {
    IndicesWithin(ops);
    if ops != [] {
      var most, last := ops[..|ops| - 1], ops[|ops| - 1];
      assert ops == most + [last];
      OpsAppend(most, last);
      EmitAppend(most, last, lines, start);
      SubstitutedIsEmit(most, lines, start);
      hide Emit, OldOf, NewOf, IndicesOf, Substituted;
      IndicesWithin(most);
      if !last.Remove? {
        SubstitutedAppend(NewOf(most), last.text, IndicesOf(most), lines, start);
      }
      if last.Keep? {
        var n, kept := |NewOf(most)|, lines[start + |OldOf(most)|];
        SubstitutedKeep(NewOf(ops), IndicesOf(most), |OldOf(most)|, n, lines, start);
        assert (Emit(most, lines, start) + [last.text])[n := kept] == Emit(most, lines, start) + [kept];
      }
    }
  }

  lemma {:induction false} EmitAppend(ops: seq<Op>, op: Op, lines: seq<Line>, start: nat)
    requires start + |OldOf(ops + [op])| <= |lines|
    ensures start + |OldOf(ops)| <= |lines| && (!op.Add? ==> start + |OldOf(ops)| < |lines|)
    ensures Emit(ops + [op], lines, start) == Emit(ops, lines, start) +
      match op
      case Keep(_) => [lines[start + |OldOf(ops)|]]
      case Remove(_) => []
      case Add(text) => [text]
  {
    OpsAppend(ops, op);
    assert (ops + [op])[..|ops|] == ops;
  }

  lemma {:induction false} SubstitutedKeep(
    newLines: seq<Line>, indices: seq<(nat, nat)>, o: nat, n: nat, lines: seq<Line>, start: nat)
    requires forall i :: 0 <= i < |indices| ==> start + indices[i].0 < |lines| && indices[i].1 < |newLines|
    requires start + o < |lines| && n < |newLines|
    ensures forall i :: 0 <= i <= |indices| ==>
      start + (indices + [(o, n)])[i].0 < |lines| && (indices + [(o, n)])[i].1 < |newLines|
    ensures Substituted(newLines, indices + [(o, n)], lines, start)
         == Substituted(newLines, indices, lines, start)[n := lines[start + o]]
  {
    assert (indices + [(o, n)])[..|indices|] == indices;
  }

  /** Replacement `r` carries out the edit script of `chunk` where its old lines match. */
  ghost predicate CarriesOut(r: Replacement, chunk: Chunk, ops: seq<Op>, lines: seq<Line>) {
    && FromOps(chunk, ops)
    && r.oldLen == |OldOf(ops)| && r.start + r.oldLen <= |lines|
    && MatchesAt(lines, chunk.oldLines, r.start, UnicodeNormalized)
    && r.newLines == Emit(ops, lines, r.start)
  }

  ghost predicate FromChunk(r: Replacement, chunk: Chunk, lines: seq<Line>) {
    exists ops :: CarriesOut(r, chunk, ops, lines)
  }

  /** The chunks that change something or at least look for something; a bare context only moves the
      cursor. */
  function Effective(chunks: seq<Chunk>): seq<Chunk> {
    if chunks == [] then []
    else
      var last := chunks[|chunks| - 1];
      Effective(chunks[..|chunks| - 1]) + (if last.oldLines == [] && last.newLines == [] then [] else [last])
  }

  /** Replacements in file order that do not overlap. */
  predicate Ordered(replacements: seq<Replacement>, length: nat) {
    && (forall i :: 0 <= i < |replacements| ==> replacements[i].start + replacements[i].oldLen <= length)
    && (forall i :: 0 < i < |replacements| ==>
          replacements[i - 1].start + replacements[i - 1].oldLen <= replacements[i].start)
  }

  ghost predicate LocatedOk(lines: seq<Line>, chunks: seq<Chunk>, found: Located) {
    && Ordered(found.replacements, |lines|)
    && found.cursor <= |lines|
    && (found.replacements != [] ==>
          var last := found.replacements[|found.replacements| - 1];
          last.start + last.oldLen <= found.cursor)
    && |found.replacements| == |Effective(chunks)|
    && (forall i :: 0 <= i < |found.replacements| ==> FromChunk(found.replacements[i], Effective(chunks)[i], lines))
  }

  lemma {:induction false} ContextWithin(lines: seq<Line>, chunk: Chunk, cursor: nat)
    requires cursor <= |lines|
    ensures AfterContext(lines, chunk, cursor).Some? ==> cursor <= AfterContext(lines, chunk, cursor).value <= |lines|
  {
    hide Seek, MatchesAt;
    if chunk.context.Some? {
      SeekFinds(lines, [chunk.context.value], cursor, false);
      if Seek(lines, [chunk.context.value], cursor, false).Some? {
        MatchWithin(lines, [chunk.context.value], Seek(lines, [chunk.context.value], cursor, false).value);
      }
    }
  }

  lemma {:induction false} MatchWithin(lines: seq<Line>, needle: seq<Line>, start: nat)
    requires MatchesAt(lines, needle, start, UnicodeNormalized)
    ensures start + |needle| <= |lines|
  {
  }

  lemma {:induction false} StartWithin(lines: seq<Line>, chunk: Chunk, cursor: nat)
    requires cursor <= |lines| && ChunkStart(lines, chunk, cursor).Some?
    ensures cursor <= ChunkStart(lines, chunk, cursor).value
    ensures MatchesAt(lines, chunk.oldLines, ChunkStart(lines, chunk, cursor).value, UnicodeNormalized)
  {
    if chunk.oldLines != [] {
      hide Seek, MatchesAt;
      SeekFinds(lines, chunk.oldLines, cursor, chunk.endOfFile);
    }
  }

  lemma {:induction false} LocateOneOk(lines: seq<Line>, chunks: seq<Chunk>, chunk: Chunk, so: Located)
    requires WellFormed(chunk) && LocatedOk(lines, chunks, so)
    ensures LocateOne(lines, chunk, so).Ok? ==> LocatedOk(lines, chunks + [chunk], LocateOne(lines, chunk, so).value)
  {
    hide AfterContext, ChunkStart, FromChunk, Substituted, Seek, WellFormed;
    ContextWithin(lines, chunk, so.cursor);
    assert (chunks + [chunk])[..|chunks|] == chunks;
    var r := LocateOne(lines, chunk, so);
    if r.Ok? && (chunk.oldLines != [] || chunk.newLines != []) {
      var cursor := AfterContext(lines, chunk, so.cursor).value;
      var start := ChunkStart(lines, chunk, cursor).value;
      StartWithin(lines, chunk, cursor);
      MatchWithin(lines, chunk.oldLines, start);
      var last := r.value.replacements[|so.replacements|];
      ReplacementFromChunk(lines, chunk, start, last);
    }
  }

  lemma {:induction false} ReplacementFromChunk(lines: seq<Line>, chunk: Chunk, start: nat, r: Replacement)
    requires WellFormed(chunk)
    requires MatchesAt(lines, chunk.oldLines, start, UnicodeNormalized) && IndicesFit(chunk, lines, start)
    requires r == Replacement(start, |chunk.oldLines|, Substituted(chunk.newLines, chunk.contextIndices, lines, start))
    ensures FromChunk(r, chunk, lines)
  {
    hide Substituted, Emit;
    var ops :| FromOps(chunk, ops);
    SubstitutedIsEmit(ops, lines, start);
    assert CarriesOut(r, chunk, ops, lines);
  }

  /** Whatever the matching mode, the replacements found lie in the file, in order and apart, and they carry
      out the edit scripts of the effective chunks one by one, in order. */
  lemma {:induction false} ReplacementsFit(lines: seq<Line>, chunks: seq<Chunk>)
    requires forall i :: 0 <= i < |chunks| ==> WellFormed(chunks[i])
    ensures LocateAll(lines, chunks).Ok? ==> LocatedOk(lines, chunks, LocateAll(lines, chunks).value)
  {
    hide LocatedOk, LocateOne, WellFormed;
    if chunks == [] {
      NoneLocated(lines);
    } else {
      var most := chunks[..|chunks| - 1];
      ReplacementsFit(lines, most);
      if LocateAll(lines, most).Ok? {
        LocateOneOk(lines, most, chunks[|chunks| - 1], LocateAll(lines, most).value);
        assert most + [chunks[|chunks| - 1]] == chunks;
      }
    }
  }

  lemma {:induction false} NoneLocated(lines: seq<Line>)
    ensures LocatedOk(lines, [], Located([], 0))
  {
  }

  // ----- where the chunks land, without the search -----

  /** A chunk that is only a context. */
  predicate Bare(chunk: Chunk) {
    chunk.oldLines == [] && chunk.newLines == []
  }

  /** Its old lines are looked for from line `from`: right after the best match of its context. */
  ghost predicate Leads(lines: seq<Line>, chunk: Chunk, cursor: nat, from: nat) {
    if chunk.context.None? then from == cursor
    else from > 0 && Best(lines, [chunk.context.value], cursor, from - 1)
  }

  ghost predicate Lands(lines: seq<Line>, chunk: Chunk, from: nat, start: nat) {
    if chunk.oldLines == [] then start == if chunk.context.None? || chunk.endOfFile then |lines| else from
    else if chunk.endOfFile && EndsWith(lines, chunk.oldLines, from) then start == |lines| - |chunk.oldLines|
    else Best(lines, chunk.oldLines, from, start)
  }

  /** A chunk applies at `start` and leaves the cursor at `next`. */
  ghost predicate Moves(lines: seq<Line>, chunk: Chunk, cursor: nat, start: nat, next: nat) {
    exists from ::
      && Leads(lines, chunk, cursor, from)
      && if Bare(chunk) then start == from == next
         else Lands(lines, chunk, from, start) && next == start + |chunk.oldLines|
  }

  /** The context matches nowhere from the cursor, or the old lines match nowhere after it. */
  ghost predicate Misses(lines: seq<Line>, chunk: Chunk, cursor: nat) {
    || (chunk.context.Some? && forall c :: cursor <= c ==>
          !MatchesAt(lines, [chunk.context.value], c, UnicodeNormalized))
    || (chunk.oldLines != [] && exists from ::
          && Leads(lines, chunk, cursor, from)
          && forall c :: from <= c ==> !MatchesAt(lines, chunk.oldLines, c, UnicodeNormalized))
  }

  lemma {:induction false} ContextLeads(lines: seq<Line>, chunk: Chunk, cursor: nat)
    ensures match AfterContext(lines, chunk, cursor)
            case Some(from) => Leads(lines, chunk, cursor, from)
            case None =>
              chunk.context.Some?
              && forall c :: cursor <= c ==> !MatchesAt(lines, [chunk.context.value], c, UnicodeNormalized)
  {
    hide Seek, Best, MatchesAt;
    if chunk.context.Some? {
      SeekIsBest(lines, [chunk.context.value], cursor, false);
    }
  }

  lemma {:induction false} LeadsOnce(lines: seq<Line>, chunk: Chunk, cursor: nat, p: nat, q: nat)
    requires Leads(lines, chunk, cursor, p) && Leads(lines, chunk, cursor, q)
    ensures p == q
  {
    hide Best;
    if chunk.context.Some? {
      BestIsUnique(lines, [chunk.context.value], cursor, p - 1, q - 1);
    }
  }

  lemma {:induction false} LeadsWithin(lines: seq<Line>, chunk: Chunk, cursor: nat, from: nat)
    requires cursor <= |lines| && Leads(lines, chunk, cursor, from)
    ensures cursor <= from <= |lines|
    ensures chunk.context.Some? ==>
              cursor < from && MatchesAt(lines, [chunk.context.value], from - 1, UnicodeNormalized)
  {
    hide Best, MatchesAt;
    if chunk.context.Some? {
      BestMatches(lines, [chunk.context.value], cursor, from - 1);
    }
  }

  lemma {:induction false} StartLands(lines: seq<Line>, chunk: Chunk, cursor: nat, from: nat)
    requires cursor <= |lines| && Leads(lines, chunk, cursor, from)
    ensures match ChunkStart(lines, chunk, from)
            case Some(start) => Lands(lines, chunk, from, start)
            case None =>
              && chunk.oldLines != []
              && forall c :: from <= c ==> !MatchesAt(lines, chunk.oldLines, c, UnicodeNormalized)
  {
    LeadsWithin(lines, chunk, cursor, from);
    hide Best, MatchesAt, EndsWith, Leads;
    if chunk.oldLines != [] {
      hide Seek;
      SeekIsBest(lines, chunk.oldLines, from, chunk.endOfFile);
    }
  }

  lemma {:induction false} LandsMatches(lines: seq<Line>, chunk: Chunk, from: nat, start: nat)
    requires from <= |lines| && Lands(lines, chunk, from, start)
    ensures from <= start && start + |chunk.oldLines| <= |lines|
    ensures MatchesAt(lines, chunk.oldLines, start, UnicodeNormalized)
    ensures chunk.oldLines != [] && !chunk.endOfFile ==>
              forall c :: from <= c < start ==> !MatchesAt(lines, chunk.oldLines, c, Exact)
  {
    hide Best;
    if chunk.oldLines != [] && !(chunk.endOfFile && EndsWith(lines, chunk.oldLines, from)) {
      BestMatches(lines, chunk.oldLines, from, start);
    }
  }

  /** A chunk is refused exactly when it misses; otherwise it moves as it should, and its replacement starts
      where it lands. */
  lemma {:induction false} LocateOneIff(lines: seq<Line>, chunk: Chunk, so: Located)
    requires WellFormed(chunk) && so.cursor <= |lines|
    ensures match LocateOne(lines, chunk, so)
            case Ok(next) =>
              && !Misses(lines, chunk, so.cursor) && next.cursor <= |lines|
              && if Bare(chunk)
                 then next.replacements == so.replacements
                      && Moves(lines, chunk, so.cursor, next.cursor, next.cursor)
                 else |next.replacements| == |so.replacements| + 1
                      && next.replacements[..|so.replacements|] == so.replacements
                      && var r := next.replacements[|so.replacements|];
                         r.oldLen == |chunk.oldLines| && Moves(lines, chunk, so.cursor, r.start, next.cursor)
            case Err(error) => error == WriteConflict && Misses(lines, chunk, so.cursor)
  {
    hide ChunkStart, AfterContext, Leads, Lands, Substituted, WellFormed, MatchesAt;
    ContextLeads(lines, chunk, so.cursor);
    var after := AfterContext(lines, chunk, so.cursor);
    if after.Some? {
      var from := after.value;
      StartLands(lines, chunk, so.cursor, from);
      LeadsWithin(lines, chunk, so.cursor, from);
      forall other | Leads(lines, chunk, so.cursor, other) ensures other == from {
        LeadsOnce(lines, chunk, so.cursor, from, other);
      }
      if !Bare(chunk) && ChunkStart(lines, chunk, from).Some? {
        var start := ChunkStart(lines, chunk, from).value;
        LandsMatches(lines, chunk, from, start);
        WellFormedIndices(chunk);
        assert IndicesFit(chunk, lines, start);
      }
    }
  }

  lemma {:induction false} LocateWithin(lines: seq<Line>, chunks: seq<Chunk>)
    requires forall i :: 0 <= i < |chunks| ==> WellFormed(chunks[i])
    ensures LocateAll(lines, chunks).Ok? ==> LocateAll(lines, chunks).value.cursor <= |lines|
  {
    hide LocateAll, WellFormed;
    ReplacementsFit(lines, chunks);
  }

  /** Chunk `n` is the one that cannot be located. */
  ghost predicate Blocks(lines: seq<Line>, chunks: seq<Chunk>, n: nat)
    requires n < |chunks|
  {
    LocateAll(lines, chunks[..n]).Ok? && Misses(lines, chunks[n], LocateAll(lines, chunks[..n]).value.cursor)
  }

  lemma {:induction false} LocateNext(lines: seq<Line>, chunks: seq<Chunk>, n: nat)
    requires forall i :: 0 <= i < |chunks| ==> WellFormed(chunks[i])
    requires n < |chunks| && LocateAll(lines, chunks[..n]).Ok?
    ensures LocateAll(lines, chunks[..n + 1]).Err? <==> Blocks(lines, chunks, n)
    ensures LocateAll(lines, chunks[..n + 1]).Err? ==> LocateAll(lines, chunks[..n + 1]) == Err(WriteConflict)
  {
    hide LocateOne, Misses, WellFormed;
    assert chunks[..n + 1][..n] == chunks[..n];
    LocateWithin(lines, chunks[..n]);
    LocateOneIff(lines, chunks[n], LocateAll(lines, chunks[..n]).value);
  }

  /** Locating fails exactly when some chunk misses from where the chunks before it left the cursor. */
  lemma {:induction false} LocateFailsIff(lines: seq<Line>, chunks: seq<Chunk>)
    requires forall i :: 0 <= i < |chunks| ==> WellFormed(chunks[i])
    ensures LocateAll(lines, chunks).Err? <==> exists n :: 0 <= n < |chunks| && Blocks(lines, chunks, n)
    ensures LocateAll(lines, chunks).Err? ==> LocateAll(lines, chunks) == Err(WriteConflict)
  {
    hide LocateOne, Blocks, WellFormed;
    forall n | 0 <= n < |chunks| && Blocks(lines, chunks, n)
      ensures LocateAll(lines, chunks).Err?
    {
      assert LocateAll(lines, chunks[..n]).Ok? by { BlockedIsLocated(lines, chunks, n); }
      LocateNext(lines, chunks, n);
      LocateFails(lines, chunks, n + 1);
    }
    if LocateAll(lines, chunks).Err? {
      assert chunks[..|chunks|] == chunks;
      var n := FirstBlocked(lines, chunks, |chunks|);
      LocateFails(lines, chunks, n + 1);
    }
  }

  lemma {:induction false} BlockedIsLocated(lines: seq<Line>, chunks: seq<Chunk>, n: nat)
    requires n < |chunks| && Blocks(lines, chunks, n)
    ensures LocateAll(lines, chunks[..n]).Ok?
  {
  }

  lemma {:induction false} FirstBlocked(lines: seq<Line>, chunks: seq<Chunk>, most: nat) returns (n: nat)
    requires forall i :: 0 <= i < |chunks| ==> WellFormed(chunks[i])
    requires most <= |chunks| && LocateAll(lines, chunks[..most]).Err?
    ensures n < most && Blocks(lines, chunks, n) && LocateAll(lines, chunks[..n + 1]) == Err(WriteConflict)
  {
    hide LocateOne, Blocks, WellFormed;
    assert most > 0;
    if LocateAll(lines, chunks[..most - 1]).Err? {
      n := FirstBlocked(lines, chunks, most - 1);
    } else {
      n := most - 1;
      LocateNext(lines, chunks, n);
    }
  }

  /** Where every chunk applies, and where each leaves the cursor for the next. */
  ghost predicate Path(lines: seq<Line>, chunks: seq<Chunk>, starts: seq<nat>, cursors: seq<nat>) {
    && |starts| == |chunks| && |cursors| == |chunks| + 1 && cursors[0] == 0
    && forall i :: 0 <= i < |chunks| ==> Moves(lines, chunks[i], cursors[i], starts[i], cursors[i + 1])
  }

  /** The starts of the effective chunks. */
  function EffectiveStarts(chunks: seq<Chunk>, starts: seq<nat>): (r: seq<nat>)
    requires |starts| == |chunks|
    ensures |r| == |Effective(chunks)|
  {
    if chunks == [] then []
    else
      EffectiveStarts(chunks[..|chunks| - 1], starts[..|chunks| - 1])
      + (if Bare(chunks[|chunks| - 1]) then [] else [starts[|chunks| - 1]])
  }

  lemma {:induction false} LandsOnce(lines: seq<Line>, chunk: Chunk, from: nat, p: nat, q: nat)
    requires Lands(lines, chunk, from, p) && Lands(lines, chunk, from, q)
    ensures p == q
  {
    hide Best;
    if Best(lines, chunk.oldLines, from, p) && Best(lines, chunk.oldLines, from, q) {
      BestIsUnique(lines, chunk.oldLines, from, p, q);
    }
  }

  /** A path is determined by the lines and the chunks. */
  lemma {:induction false} PathIsUnique(
      lines: seq<Line>, chunks: seq<Chunk>, starts: seq<nat>, cursors: seq<nat>, starts': seq<nat>,
      cursors': seq<nat>, n: nat)
    requires Path(lines, chunks, starts, cursors) && Path(lines, chunks, starts', cursors') && n <= |chunks|
    ensures cursors[n] == cursors'[n] && (n > 0 ==> starts[n - 1] == starts'[n - 1])
  {
    if n > 0 {
      PathIsUnique(lines, chunks, starts, cursors, starts', cursors', n - 1);
      hide Leads, Lands;
      var chunk, cursor := chunks[n - 1], cursors[n - 1];
      assert Moves(lines, chunk, cursor, starts[n - 1], cursors[n]);
      assert Moves(lines, chunk, cursor, starts'[n - 1], cursors'[n]);
      var from :| && Leads(lines, chunk, cursor, from)
                  && if Bare(chunk) then starts[n - 1] == from == cursors[n]
                     else Lands(lines, chunk, from, starts[n - 1]) && cursors[n] == starts[n - 1] + |chunk.oldLines|;
      var from' :| && Leads(lines, chunk, cursor, from')
                   && if Bare(chunk) then starts'[n - 1] == from' == cursors'[n]
                      else Lands(lines, chunk, from', starts'[n - 1])
                           && cursors'[n] == starts'[n - 1] + |chunk.oldLines|;
      LeadsOnce(lines, chunk, cursor, from, from');
      if !Bare(chunk) {
        LandsOnce(lines, chunk, from, starts[n - 1], starts'[n - 1]);
      }
    }
  }

  lemma {:induction false} PathGrows(lines: seq<Line>, chunks: seq<Chunk>, starts: seq<nat>, cursors: seq<nat>,
                                     start: nat, next: nat)
    requires chunks != [] && Path(lines, chunks[..|chunks| - 1], starts, cursors)
    requires Moves(lines, chunks[|chunks| - 1], cursors[|chunks| - 1], start, next)
    ensures Path(lines, chunks, starts + [start], cursors + [next])
  {
    hide Moves;
  }

  lemma {:induction false} EffectiveGrows(chunks: seq<Chunk>, starts: seq<nat>, start: nat)
    requires chunks != [] && |starts| == |chunks| - 1
    ensures var most, last := chunks[..|chunks| - 1], chunks[|chunks| - 1];
            && Effective(chunks) == (if Bare(last) then Effective(most) else Effective(most) + [last])
            && EffectiveStarts(chunks, starts + [start])
               == if Bare(last) then EffectiveStarts(most, starts) else EffectiveStarts(most, starts) + [start]
  {
    assert (starts + [start])[..|starts|] == starts;
  }

  /** The replacements are those of the effective chunks, and start where those do. */
  predicate StartAt(replacements: seq<Replacement>, effective: seq<Chunk>, starts: seq<nat>) {
    && |replacements| == |effective| == |starts|
    && forall i :: 0 <= i < |replacements| ==>
         replacements[i].start == starts[i] && replacements[i].oldLen == |effective[i].oldLines|
  }

  lemma {:induction false} StartAtMore(
      replacements: seq<Replacement>, effective: seq<Chunk>, starts: seq<nat>, r: Replacement, chunk: Chunk)
    requires StartAt(replacements, effective, starts) && r.oldLen == |chunk.oldLines|
    ensures StartAt(replacements + [r], effective + [chunk], starts + [r.start])
  {
  }

  /** What one more chunk adds: where it applies, and a replacement unless it is bare. */
  lemma {:induction false} LocatedOneMore(lines: seq<Line>, chunks: seq<Chunk>) returns (start: nat)
    requires chunks != [] && forall i :: 0 <= i < |chunks| ==> WellFormed(chunks[i])
    requires LocateAll(lines, chunks).Ok?
    ensures LocateAll(lines, chunks[..|chunks| - 1]).Ok?
    ensures var so, found := LocateAll(lines, chunks[..|chunks| - 1]).value, LocateAll(lines, chunks).value;
            var last := chunks[|chunks| - 1];
            && Moves(lines, last, so.cursor, start, found.cursor)
            && if Bare(last) then found.replacements == so.replacements
               else
                 |found.replacements| == |so.replacements| + 1
                 && var r := found.replacements[|so.replacements|];
                    r.start == start && r.oldLen == |last.oldLines| && found.replacements == so.replacements + [r]
  {
    hide LocateOne, Moves, WellFormed;
    var most, last := chunks[..|chunks| - 1], chunks[|chunks| - 1];
    var so, found := LocateAll(lines, most).value, LocateAll(lines, chunks).value;
    LocateWithin(lines, most);
    LocateOneIff(lines, last, so);
    start := if Bare(last) then found.cursor else found.replacements[|so.replacements|].start;
  }

  /** When locating succeeds, the replacements start along the path. */
  lemma {:induction false} LocatedAlongPath(lines: seq<Line>, chunks: seq<Chunk>)
      returns (starts: seq<nat>, cursors: seq<nat>)
    requires forall i :: 0 <= i < |chunks| ==> WellFormed(chunks[i])
    requires LocateAll(lines, chunks).Ok?
    ensures Path(lines, chunks, starts, cursors) && cursors[|chunks|] == LocateAll(lines, chunks).value.cursor
    ensures StartAt(LocateAll(lines, chunks).value.replacements, Effective(chunks), EffectiveStarts(chunks, starts))
  {
    if chunks == [] {
      starts, cursors := [], [0];
    } else {
      hide LocateAll, Effective, EffectiveStarts, StartAt, Moves, WellFormed;
      var most, last := chunks[..|chunks| - 1], chunks[|chunks| - 1];
      var start := LocatedOneMore(lines, chunks);
      starts, cursors := LocatedAlongPath(lines, most);
      var so, found := LocateAll(lines, most).value, LocateAll(lines, chunks).value;
      PathGrows(lines, chunks, starts, cursors, start, found.cursor);
      EffectiveGrows(chunks, starts, start);
      hide Path;
      if !Bare(last) {
        var r := found.replacements[|so.replacements|];
        StartAtMore(so.replacements, Effective(most), EffectiveStarts(most, starts), r, last);
      }
      starts, cursors := starts + [start], cursors + [found.cursor];
    }
  }

  /** A chunk with a context lands after a line that matches it, at or after the cursor, and between that
      line and the landing the old lines have no exact match unless the end of the file was asked for. */
  lemma {:induction false} LandsAfterContext(lines: seq<Line>, chunk: Chunk, cursor: nat, start: nat, next: nat)
      returns (c: nat)
    requires cursor <= |lines| && Moves(lines, chunk, cursor, start, next)
    requires chunk.context.Some? && !Bare(chunk)
    ensures cursor <= c < start && c < |lines|
    ensures MatchesAt(lines, [chunk.context.value], c, UnicodeNormalized)
    ensures forall d :: cursor <= d < c ==> !MatchesAt(lines, [chunk.context.value], d, Exact)
    ensures MatchesAt(lines, chunk.oldLines, start, UnicodeNormalized)
    ensures chunk.oldLines != [] && !chunk.endOfFile ==>
              forall d :: c < d < start ==> !MatchesAt(lines, chunk.oldLines, d, Exact)
  {
    hide MatchesAt, Lands, Best;
    var from: nat :| && Leads(lines, chunk, cursor, from) && Lands(lines, chunk, from, start)
                     && next == start + |chunk.oldLines|;
    c := from - 1;
    BestMatches(lines, [chunk.context.value], cursor, c);
    LandsMatches(lines, chunk, from, start);
  }
}
