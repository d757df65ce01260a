/** Streaming literal search: a file is scanned buffer by buffer, and reports the matches that
    searching it line by line would report. */
module Search {
  import opened Common
  import Splitting

  const NEWLINE: byte := 10
  const NUL: byte := 0
  const MAX_CONTENT: nat := 0xFFFF_FFFF

  // ----- occurrences -----

  predicate OccursAt(query: Bytes, text: Bytes, i: int) {
    0 <= i <= i + |query| <= |text| && text[i..i + |query|] == query
  }

  /** The first occurrence at or after `i`. */
  function FindFrom(query: Bytes, text: Bytes, i: nat): (r: Option<nat>)
    requires i <= |text|
    ensures r.Some? ==> OccursAt(query, text, r.value) && forall j :: i <= j < r.value ==> !OccursAt(query, text, j)
    ensures r.None? ==> forall j :: i <= j ==> !OccursAt(query, text, j)
    decreases |text| - i
  {
    if i + |query| > |text| then None
    else if text[i..i + |query|] == query then Some(i)
    else FindFrom(query, text, i + 1)
  }

  function Find(query: Bytes, text: Bytes): Option<nat> {
    FindFrom(query, text, 0)
  }

  lemma {:induction false} FindIs(query: Bytes, text: Bytes, r: Option<nat>)
    requires r.Some? ==> OccursAt(query, text, r.value) && forall j :: 0 <= j < r.value ==> !OccursAt(query, text, j)
    requires r.None? ==> forall j :: 0 <= j ==> !OccursAt(query, text, j)
    ensures Find(query, text) == r
  {
  }

  function Column(query: Bytes, text: Bytes): Option<nat> {
    match Find(query, text)
    case None => None
    case Some(i) => Some(i + 1)
  }

  // ----- lines -----

  function Complete(file: Bytes): seq<Bytes> {
    Splitting.Complete(file, NEWLINE)
  }

  function Partial(file: Bytes): Bytes {
    Splitting.Partial(file, NEWLINE)
  }

  /** An unfinished last line counts unless it is empty. */
  function Lines(file: Bytes): seq<Bytes> {
    Complete(file) + if Partial(file) == [] then [] else [Partial(file)]
  }

  /** The lines of a file are what its newlines end, and then what follows the last of them, if anything. */
  lemma {:induction false} LinesAre(lines: seq<Bytes>, tail: Bytes)
    requires NEWLINE !in tail && forall line :: line in lines ==> NEWLINE !in line
    ensures Lines(Splitting.Joined(lines, NEWLINE) + tail) == lines + if tail == [] then [] else [tail]
  {
    Splitting.SplitJoined(lines, NEWLINE);
    Splitting.AppendSegment(Splitting.Joined(lines, NEWLINE), NEWLINE, tail);
    assert [] + tail == tail;
  }

  // ----- reports -----

  datatype Match = Match(line: nat, column: nat, content: Bytes)

  datatype Report = Report(matches: seq<Match>, retained: nat, truncated: bool)

  datatype Limits = Limits(query: Bytes, binary: bool, maxResults: nat, budget: nat)

  const NOTHING := Report([], 0, false)

  /** A binary search stops once it has its results or has dropped one; a text search reads on. */
  predicate Stopped(limits: Limits, r: Report) {
    limits.binary && (|r.matches| >= limits.maxResults || r.truncated)
  }

  /** One finished line: its first match is kept if there is room for the whole line. */
  function WithLine(limits: Limits, r: Report, number: nat, line: Bytes): Report {
    var column := Column(limits.query, line);
    if Stopped(limits, r) || column.None? || |r.matches| >= limits.maxResults then r
    else if r.retained + |line| > limits.budget then r.(truncated := true)
    else Report(r.matches + [Match(number, column.value, line)], r.retained + |line|, r.truncated)
  }

  function WithLines(limits: Limits, lines: seq<Bytes>): Report {
    if lines == [] then NOTHING
    else WithLine(limits, WithLines(limits, lines[..|lines| - 1]), |lines|, lines[|lines| - 1])
  }

  lemma {:induction false} StopsForGood(limits: Limits, lines: seq<Bytes>, longer: seq<Bytes>)
    requires lines <= longer && Stopped(limits, WithLines(limits, lines))
    ensures WithLines(limits, longer) == WithLines(limits, lines)
  {
    if |longer| > |lines| {
      StopsForGood(limits, lines, longer[..|longer| - 1]);
    } else {
      assert longer == lines;
    }
  }

  /** The matches of searching every line on its own, without limits. */
  function NaiveMatches(query: Bytes, lines: seq<Bytes>): seq<Match> {
    if lines == [] then []
    else
      var earlier, column := NaiveMatches(query, lines[..|lines| - 1]), Column(query, lines[|lines| - 1]);
      if column.None? then earlier else earlier + [Match(|lines|, column.value, lines[|lines| - 1])]
  }

  /** A naive match is the first occurrence in its line, and every line with an occurrence has one. */
  lemma {:induction false} NaiveMatchesAre(query: Bytes, lines: seq<Bytes>, m: Match)
    ensures m in NaiveMatches(query, lines) <==>
      && 0 < m.line <= |lines| && m.content == lines[m.line - 1]
      && 0 < m.column && OccursAt(query, m.content, m.column - 1)
      && forall j :: 0 <= j < m.column - 1 ==> !OccursAt(query, m.content, j)
  {
    if lines != [] {
      hide OccursAt;
      var last := lines[|lines| - 1];
      NaiveMatchesAre(query, lines[..|lines| - 1], m);
      if m.content == last && 0 < m.column && OccursAt(query, m.content, m.column - 1) {
        assert Find(query, last).Some?;
      }
    }
  }

  function Take<T>(s: seq<T>, n: nat): seq<T> {
    if |s| <= n then s else s[..n]
  }

  /** Unless something was dropped, the report is the first `maxResults` naive matches. */
  lemma {:induction false} UntruncatedIsNaive(limits: Limits, lines: seq<Bytes>)
    requires !WithLines(limits, lines).truncated
    ensures WithLines(limits, lines).matches == Take(NaiveMatches(limits.query, lines), limits.maxResults)
  {
    if lines != [] {
      UntruncatedIsNaive(limits, lines[..|lines| - 1]);
    }
  }

  /** Whatever is reported, truncated or not, is a naive match, in order and within the limits. */
  lemma {:induction false} ReportsOnlyMatches(limits: Limits, lines: seq<Bytes>)
    ensures
      var r := WithLines(limits, lines);
      && |r.matches| <= limits.maxResults && r.retained <= limits.budget
      && (forall m :: m in r.matches ==> m in NaiveMatches(limits.query, lines) && m.line <= |lines|)
      && (forall i, j :: 0 <= i < j < |r.matches| ==> r.matches[i].line < r.matches[j].line)
  {
    if lines != [] {
      ReportsOnlyMatches(limits, lines[..|lines| - 1]);
    }
  }

  // ----- what is dropped -----

  /** The content that reporting the matches takes. */
  function Content(matches: seq<Match>): nat {
    if matches == [] then 0 else Content(matches[..|matches| - 1]) + |matches[|matches| - 1].content|
  }

  /** Match after match, whatever there is room for. */
  function Greedy(matches: seq<Match>, maxResults: nat, budget: nat): seq<Match> {
    if matches == [] then []
    else
      var kept, last := Greedy(matches[..|matches| - 1], maxResults, budget), matches[|matches| - 1];
      if |kept| < maxResults && Content(kept) + |last.content| <= budget then kept + [last] else kept
  }

  lemma {:induction false} ContentAppend(matches: seq<Match>, m: Match)
    ensures Content(matches + [m]) == Content(matches) + |m.content|
  {
    assert (matches + [m])[..|matches|] == matches;
  }

  /** One more match among the first `n`, or past them. */
  lemma {:induction false} TakeAppend(matches: seq<Match>, m: Match, n: nat)
    ensures Take(matches + [m], n) == if |matches| < n then Take(matches, n) + [m] else Take(matches, n)
    ensures |matches| < n ==> Content(Take(matches + [m], n)) == Content(Take(matches, n)) + |m.content|
  {
    if |matches| < n {
      ContentAppend(matches, m);
    }
  }

  /** A report counts its content, and it is truncated if and only if the first `maxResults` naive matches take
      more than the budget. A text search keeps whatever there is room for; a binary search keeps the longest
      beginning that there is room for. */
  predicate Reports(limits: Limits, r: Report, naive: seq<Match>) {
    && r.retained == Content(r.matches)
    && (r.truncated <==> Content(Take(naive, limits.maxResults)) > limits.budget)
    && (!limits.binary ==> r.matches == Greedy(naive, limits.maxResults, limits.budget))
    && (limits.binary ==>
          && r.matches <= Take(naive, limits.maxResults)
          && (r.truncated ==>
                && |r.matches| < |naive|
                && Content(r.matches) + |naive[|r.matches|].content| > limits.budget))
  }

  lemma {:induction false} TruncatedIff(limits: Limits, lines: seq<Bytes>)
    ensures Reports(limits, WithLines(limits, lines), NaiveMatches(limits.query, lines))
  {
    if lines != [] {
      var most, last := lines[..|lines| - 1], lines[|lines| - 1];
      TruncatedIff(limits, most);
      UntruncatedOrNot(limits, most);
      var r, naive := WithLines(limits, most), NaiveMatches(limits.query, most);
      var column := Column(limits.query, last);
      hide Reports, Column;
      if column.Some? {
        var m := Match(|lines|, column.value, last);
        if limits.binary {
          BinaryReportGrows(limits, r, naive, m);
        } else {
          TextReportGrows(limits, r, naive, m);
        }
      }
    }
  }

  /** What one more naive match does to a report. */
  function WithMatch(limits: Limits, r: Report, m: Match): Report {
    if Stopped(limits, r) || |r.matches| >= limits.maxResults then r
    else if r.retained + |m.content| > limits.budget then r.(truncated := true)
    else Report(r.matches + [m], r.retained + |m.content|, r.truncated)
  }

  lemma {:induction false} TextReportGrows(limits: Limits, r: Report, naive: seq<Match>, m: Match)
    requires !limits.binary && Reports(limits, r, naive)
    requires |r.matches| <= limits.maxResults && |r.matches| <= |naive|
    requires !r.truncated ==> r.matches == Take(naive, limits.maxResults)
    ensures Reports(limits, WithMatch(limits, r, m), naive + [m])
  {
    TakeAppend(naive, m, limits.maxResults);
    ContentAppend(r.matches, m);
    GreedyAppend(naive, m, limits.maxResults, limits.budget);
    hide Content, Greedy;
  }

  lemma {:induction false} BinaryReportGrows(limits: Limits, r: Report, naive: seq<Match>, m: Match)
    requires limits.binary && Reports(limits, r, naive)
    requires |r.matches| <= limits.maxResults && |r.matches| <= |naive|
    requires !r.truncated ==> r.matches == Take(naive, limits.maxResults)
    ensures Reports(limits, WithMatch(limits, r, m), naive + [m])
  {
    TakeAppend(naive, m, limits.maxResults);
    ContentAppend(r.matches, m);
    hide Content, Greedy;
  }

  lemma {:induction false} GreedyAppend(matches: seq<Match>, m: Match, maxResults: nat, budget: nat)
    ensures var kept := Greedy(matches, maxResults, budget);
            Greedy(matches + [m], maxResults, budget)
            == if |kept| < maxResults && Content(kept) + |m.content| <= budget then kept + [m] else kept
  {
    assert (matches + [m])[..|matches|] == matches;
  }

  lemma {:induction false} UntruncatedOrNot(limits: Limits, lines: seq<Bytes>)
    ensures var r, naive := WithLines(limits, lines), NaiveMatches(limits.query, lines);
            && |r.matches| <= limits.maxResults && |r.matches| <= |naive|
            && (!r.truncated ==> r.matches == Take(naive, limits.maxResults))
  {
    if lines != [] {
      UntruncatedOrNot(limits, lines[..|lines| - 1]);
    }
  }

  /** The outcome of searching a whole file. */
  function Outcome(limits: Limits, file: Bytes): (seq<Match>, bool) {
    var r := WithLines(limits, Lines(file));
    if limits.maxResults == 0 then ([], false)
    else if !limits.binary && r.matches != [] && NUL in file then ([], false)
    else (r.matches, r.truncated)
  }

  /** A search that drops nothing returns exactly the first naive matches, and in text mode nothing
      for a file with a NUL in it. */
  lemma {:induction false} OutcomeIsNaive(limits: Limits, file: Bytes)
    requires !Outcome(limits, file).1
    ensures Outcome(limits, file).0 ==
      if !limits.binary && NUL in file then [] else Take(NaiveMatches(limits.query, Lines(file)), limits.maxResults)
  {
    if limits.maxResults > 0 && !WithLines(limits, Lines(file)).truncated {
      UntruncatedIsNaive(limits, Lines(file));
    }
  }

  /** A text search reports a match, truncated or not, exactly when some match fits the budget by itself. */
  lemma {:induction false} GreedyKeepsSome(matches: seq<Match>, maxResults: nat, budget: nat)
    requires maxResults > 0
    ensures Greedy(matches, maxResults, budget) != [] <==> exists m :: m in matches && |m.content| <= budget
  {
    if matches != [] {
      var most := matches[..|matches| - 1];
      GreedyKeepsSome(most, maxResults, budget);
      assert forall m :: m in matches <==> m in most || m == matches[|matches| - 1];
    }
  }

  /** A search reports truncation if and only if its first `maxResults` naive matches take more than the budget,
      unless it is a text search of a file with a NUL in it that has a match within the budget. */
  lemma {:induction false} OutcomeTruncatedIff(limits: Limits, file: Bytes)
    ensures
      var naive := NaiveMatches(limits.query, Lines(file));
      Outcome(limits, file).1 <==>
        && Content(Take(naive, limits.maxResults)) > limits.budget
        && !(!limits.binary && NUL in file && exists m :: m in naive && |m.content| <= limits.budget)
  {
    hide WithLines, NaiveMatches, Greedy;
    TruncatedIff(limits, Lines(file));
    if limits.maxResults > 0 {
      GreedyKeepsSome(NaiveMatches(limits.query, Lines(file)), limits.maxResults, limits.budget);
    }
  }

  /** What a search reports, truncated or not. */
  lemma {:induction false} OutcomeReports(limits: Limits, file: Bytes)
    ensures
      var naive, matches := NaiveMatches(limits.query, Lines(file)), Outcome(limits, file).0;
      && (!limits.binary ==>
            matches == if NUL in file then [] else Greedy(naive, limits.maxResults, limits.budget))
      && (limits.binary ==> matches <= Take(naive, limits.maxResults) && Content(matches) <= limits.budget)
      && (limits.binary && Outcome(limits, file).1 ==>
            |matches| < |naive| && Content(matches) + |naive[|matches|].content| > limits.budget)
  {
    hide WithLines, NaiveMatches;
    TruncatedIff(limits, Lines(file));
    ReportsOnlyMatches(limits, Lines(file));
    if limits.maxResults == 0 {
      GreedyOfNone(NaiveMatches(limits.query, Lines(file)), limits.budget);
    }
  }

  lemma {:induction false} GreedyOfNone(matches: seq<Match>, budget: nat)
    ensures Greedy(matches, 0, budget) == []
  {
    if matches != [] {
      GreedyOfNone(matches[..|matches| - 1], budget);
    }
  }

  // ----- scanning a line in segments -----

  /** What is kept of the current line: its head, its length, its first match, and its last bytes in
      case a match spans into the next segment. */
  datatype Scan = Scan(line: Bytes, bytes: nat, column: Option<nat>, overlap: Bytes)

  const FRESH := Scan([], 0, None, [])

  function Overlap(query: Bytes, text: Bytes): (r: Bytes)
    ensures |r| <= |text|
  {
    if query == [] then [] else if |text| <= |query| - 1 then text else text[|text| - (|query| - 1)..]
  }

  /** `scan` is the state after the bytes `text` of a line. */
  ghost predicate Scanned(query: Bytes, budget: nat, text: Bytes, scan: Scan) {
    && scan.line == Take(text, budget)
    && scan.bytes == |text|
    && (scan.column == Column(query, text) || (text == [] && scan.column.None?))
    && scan.overlap == if scan.column.None? then Overlap(query, text) else []
  }

  /** Where an occurrence in `text + segment` can lie, given that `text` has none. */
  lemma {:induction false} OccurrenceSplits(query: Bytes, text: Bytes, segment: Bytes, i: nat)
    requires query != []
    ensures
      var overlap := Overlap(query, text);
      var boundary := overlap + Take(segment, |query| - 1);
      && (i + |query| <= |text| ==> (OccursAt(query, text + segment, i) <==> OccursAt(query, text, i)))
      && (i >= |text| ==> (OccursAt(query, text + segment, i) <==> OccursAt(query, segment, i - |text|)))
      && (i < |text| < i + |query| ==>
            && i >= |text| - |overlap|
            && (OccursAt(query, text + segment, i) <==> OccursAt(query, boundary, i - (|text| - |overlap|))))
  {
    var whole := text + segment;
    var overlap := Overlap(query, text);
    var boundary := overlap + Take(segment, |query| - 1);
    if i + |query| <= |text| {
      assert whole[i..i + |query|] == text[i..i + |query|];
    } else if i >= |text| {
      if i + |query| <= |whole| {
        assert whole[i..i + |query|] == segment[i - |text|..i - |text| + |query|];
      }
    } else {
      var b, m := i - (|text| - |overlap|), i + |query| - |text|;
      var head := Take(segment, |query| - 1);
      if i + |query| <= |whole| {
        assert whole[i..i + |query|] == text[i..] + segment[..m];
        assert boundary[b..b + |query|] == overlap[b..] + head[..m];
        assert overlap[b..] == text[i..] && head[..m] == segment[..m];
      }
    }
  }

  /** An occurrence across the boundary needs bytes from both sides. */
  lemma {:induction false} BoundarySpans(query: Bytes, text: Bytes, segment: Bytes, b: nat)
    requires query != [] && OccursAt(query, Overlap(query, text) + Take(segment, |query| - 1), b)
    ensures b < |Overlap(query, text)| < b + |query|
  {
  }

  /** The search of one more segment: first across the boundary, then inside the segment. */
  lemma {:induction false} FindAcross(query: Bytes, text: Bytes, segment: Bytes)
    requires query != [] && Find(query, text).None?
    ensures
      var overlap := Overlap(query, text);
      var spanning, inside := Find(query, overlap + Take(segment, |query| - 1)), Find(query, segment);
      && (spanning.Some? ==> spanning.value < |overlap| < spanning.value + |query|)
      && Find(query, text + segment)
         == if spanning.Some? then Some(|text| - |overlap| + spanning.value)
            else if inside.Some? then Some(|text| + inside.value)
            else None
  {
    hide OccursAt, Overlap, Take;
    var overlap := Overlap(query, text);
    var boundary := overlap + Take(segment, |query| - 1);
    var spanning, inside := Find(query, boundary), Find(query, segment);
    var r := if spanning.Some? then Some(|text| - |overlap| + spanning.value)
             else if inside.Some? then Some(|text| + inside.value)
             else None;
    assert spanning.Some? ==> OccursAt(query, boundary, spanning.value);
    if r.Some? {
      if spanning.Some? {
        BoundarySpans(query, text, segment, spanning.value);
      }
      OccurrenceSplits(query, text, segment, r.value);
    }
    forall j: nat | r.None? || j < r.value ensures !OccursAt(query, text + segment, j) {
      OccurrenceSplits(query, text, segment, j);
    }
    FindIs(query, text + segment, r);
  }

  lemma {:induction false} OverlapAppends(query: Bytes, text: Bytes, segment: Bytes)
    requires query != []
    ensures
      var limit := |query| - 1;
      Overlap(query, text + segment)
      == if |segment| >= limit then segment[|segment| - limit..]
         else
           var kept := Overlap(query, text);
           (if |kept| + |segment| > limit then kept[|kept| + |segment| - limit..] else kept) + segment
  {
  }

  /** The first match of the line so far, looked for only while there is none. */
  method FindColumn(segment: Bytes, query: Bytes, scan: Scan, ghost text: Bytes) returns (column: Option<nat>)
    requires scan.bytes == |text|
    requires scan.column == Column(query, text) || (text == [] && scan.column.None?)
    requires scan.column.None? ==> scan.overlap == Overlap(query, text)
    ensures column == Column(query, text + segment)
  {
    hide FindFrom;
    column := scan.column;
    if column.Some? {
      FindKept(query, text, segment);
      return;
    }
    if query == [] {
      FindEmpty(text);
      FindEmpty(text + segment);
    } else {
      FindNothing(query, text);
      FindAcross(query, text, segment);
    }
    if scan.overlap != [] {
      var span := if |query| == 0 then 0 else |query| - 1;
      var boundary := scan.overlap + segment[..if |segment| < span then |segment| else span];
      assert boundary == scan.overlap + Take(segment, |query| - 1);
      var found := Find(query, boundary);
      if found.Some? && found.value < |scan.overlap| && found.value + |query| > |scan.overlap| {
        return Some(scan.bytes - |scan.overlap| + found.value + 1);
      }
    } else if query != [] {
      FindIs(query, scan.overlap + Take(segment, |query| - 1), None);
    }
    var found := Find(query, segment);
    FindEmpty(segment);
    if found.Some? {
      column := Some(scan.bytes + found.value + 1);
    }
  }

  lemma {:induction false} FindEmpty(text: Bytes)
    ensures Find([], text) == Some(0)
  {
  }

  lemma {:induction false} FindNothing(query: Bytes, text: Bytes)
    requires query != [] && (text == [] || Column(query, text).None?)
    ensures Find(query, text).None?
  {
  }

  method ScanSegment(segment: Bytes, query: Bytes, budget: nat, scan: Scan, ghost text: Bytes) returns (next: Scan)
    requires Scanned(query, budget, text, scan)
    ensures Scanned(query, budget, text + segment, next) && next.column == Column(query, text + segment)
  {
    hide Column, Overlap;
    var retained := if budget > |scan.line| then budget - |scan.line| else 0;
    var line := scan.line + segment[..if |segment| < retained then |segment| else retained];
    assert line == Take(text + segment, budget);
    var column := FindColumn(segment, query, scan, text);
    var overlap := [];
    if column.None? {
      ColumnStaysNone(query, text, segment);
      overlap := NextOverlap(segment, query, scan.overlap, text);
    }
    next := Scan(line, scan.bytes + |segment|, column, overlap);
  }

  /** The last bytes of the line, one short of the query. */
  method NextOverlap(segment: Bytes, query: Bytes, overlap: Bytes, ghost text: Bytes) returns (next: Bytes)
    requires overlap == Overlap(query, text)
    ensures next == Overlap(query, text + segment)
  {
    var limit := if |query| == 0 then 0 else |query| - 1;
    if query != [] {
      OverlapAppends(query, text, segment);
    }
    if |segment| >= limit {
      return segment[|segment| - limit..];
    }
    next := overlap;
    var excess := |overlap| + |segment| - limit;
    if excess > 0 {
      next := next[excess..];
    }
    next := next + segment;
  }

  lemma {:induction false} ColumnStaysNone(query: Bytes, text: Bytes, segment: Bytes)
    requires Column(query, text + segment).None?
    ensures Column(query, text).None?
  {
    if Find(query, text).Some? {
      FindKept(query, text, segment);
    }
  }

  /** A first match stays the first match as the line grows. */
  lemma {:induction false} FindKept(query: Bytes, text: Bytes, segment: Bytes)
    requires Find(query, text).Some?
    ensures Find(query, text + segment) == Find(query, text)
  {
    var i := Find(query, text).value;
    forall j | 0 <= j <= i ensures OccursAt(query, text + segment, j) <==> OccursAt(query, text, j) {
      assert (text + segment)[j..j + |query|] == text[j..j + |query|];
    }
    FindIs(query, text + segment, Some(i));
  }

  // ----- scanning a file in buffers -----

  function Concat(chunks: seq<Bytes>): Bytes {
    if chunks == [] then [] else Concat(chunks[..|chunks| - 1]) + chunks[|chunks| - 1]
  }

  lemma {:induction false} ConcatGrows(chunks: seq<Bytes>, n: nat)
    requires n <= |chunks|
    ensures Concat(chunks[..n]) <= Concat(chunks)
    decreases |chunks| - n
  {
    if n == |chunks| {
      assert chunks[..n] == chunks;
    } else {
      ConcatGrows(chunks, n + 1);
      assert chunks[..n + 1][..n] == chunks[..n];
    }
  }

  method NextNewline(buffer: Bytes, start: nat) returns (r: Option<nat>)
    requires start <= |buffer|
    ensures r.None? ==> NEWLINE !in buffer[start..]
    ensures r.Some? ==> start <= r.value < |buffer| && buffer[r.value] == NEWLINE && NEWLINE !in buffer[start..r.value]
  {
    for i := start to |buffer|
      invariant NEWLINE !in buffer[start..i]
    {
      if buffer[i] == NEWLINE {
        return Some(i);
      }
    }
    r := None;
  }

  method FinishLine(limits: Limits, report: Report, number: nat, scan: Scan, ghost text: Bytes) returns (r: Report)
    requires report.retained <= limits.budget && !Stopped(limits, report)
    requires Scanned(limits.query, limits.budget - report.retained, text, scan)
    requires scan.column == Column(limits.query, text)
    ensures r == WithLine(limits, report, number, text)
  {
    if scan.column.None? || |report.matches| >= limits.maxResults {
      return report;
    }
    if scan.bytes > limits.budget - report.retained {
      return report.(truncated := true);
    }
    r := Report(report.matches + [Match(number, scan.column.value, scan.line)],
                report.retained + scan.bytes, report.truncated);
  }

  /** The state between two buffers, or between two lines of one, with `file` consumed so far. */
  ghost predicate Caught(limits: Limits, file: Bytes, report: Report, number: nat, scan: Scan) {
    && report == WithLines(limits, Complete(file))
    && report.retained <= limits.budget
    && number == |Complete(file)| + 1
    && !Stopped(limits, report)
    && Scanned(limits.query, limits.budget - report.retained, Partial(file), scan)
    && (Partial(file) != [] ==> scan.column == Column(limits.query, Partial(file)))
  }

  /** One buffer: every newline in it ends a line; its tail is the start of the next. */
  method ScanBuffer(limits: Limits, buffer: Bytes, report: Report, number: nat, scan: Scan, ghost file: Bytes)
    returns (report': Report, number': nat, scan': Scan)
    requires limits.maxResults > 0 && Caught(limits, file, report, number, scan)
    ensures !Stopped(limits, report') ==> Caught(limits, file + buffer, report', number', scan')
    ensures Stopped(limits, report') ==> report' == WithLines(limits, Complete(file + buffer))
  {
    hide WithLines, WithLine, Scanned, Column, Splitting.Complete, Splitting.Partial;
    report', number', scan' := report, number, scan;
    var start := 0;
    assert file + buffer[..0] == file;
    var newline := NextNewline(buffer, start);
    while newline.Some?
      invariant start <= |buffer|
      invariant newline.None? ==> NEWLINE !in buffer[start..]
      invariant newline.Some? ==>
        && start <= newline.value < |buffer| && buffer[newline.value] == NEWLINE
        && NEWLINE !in buffer[start..newline.value]
      invariant Caught(limits, file + buffer[..start], report', number', scan')
      decreases |buffer| - start
    {
      var segment := buffer[start..newline.value];
      ghost var done := file + buffer[..start];
      scan' := ScanSegment(segment, limits.query, limits.budget - report'.retained, scan', Partial(done));
      LineEnds(limits, done, segment);
      assert done + segment + [NEWLINE] == file + buffer[..newline.value + 1];
      report' := FinishLine(limits, report', number', scan', Partial(done) + segment);
      if limits.binary && (|report'.matches| >= limits.maxResults || report'.truncated) {
        Splitting.CompleteGrows(file + buffer[..newline.value + 1], NEWLINE, buffer[newline.value + 1..]);
        assert file + buffer == file + buffer[..newline.value + 1] + buffer[newline.value + 1..];
        StopsForGood(limits, Complete(file + buffer[..newline.value + 1]), Complete(file + buffer));
        return;
      }
      scan', number', start := FRESH, number' + 1, newline.value + 1;
      FreshScanned(limits.query, limits.budget - report'.retained);
      newline := NextNewline(buffer, start);
    }
    ghost var done := file + buffer[..start];
    scan' := ScanSegment(buffer[start..], limits.query, limits.budget - report'.retained, scan', Partial(done));
    Splitting.AppendSegment(done, NEWLINE, buffer[start..]);
    assert done + buffer[start..] == file + buffer;
  }

  lemma {:induction false} FreshScanned(query: Bytes, budget: nat)
    ensures Scanned(query, budget, [], FRESH)
  {
  }

  /** The newline after `segment` ends the line that `done` left open. */
  lemma {:induction false} LineEnds(limits: Limits, done: Bytes, segment: Bytes)
    requires NEWLINE !in segment
    ensures
      var line := Partial(done) + segment;
      && Complete(done + segment + [NEWLINE]) == Complete(done) + [line]
      && Partial(done + segment + [NEWLINE]) == []
      && WithLines(limits, Complete(done + segment + [NEWLINE]))
         == WithLine(limits, WithLines(limits, Complete(done)), |Complete(done)| + 1, line)
    ensures WithLines(limits, Complete(done + segment + [NEWLINE])).retained <= limits.budget
  {
    Splitting.AppendPiece(done, NEWLINE, segment);
    assert (Complete(done) + [Partial(done) + segment])[..|Complete(done)|] == Complete(done);
    ReportsOnlyMatches(limits, Complete(done + segment + [NEWLINE]));
  }

  method ContainsNul(chunks: seq<Bytes>) returns (found: bool)
    ensures found <==> NUL in Concat(chunks)
  {
    for i := 0 to |chunks|
      invariant NUL !in Concat(chunks[..i])
    {
      assert chunks[..i + 1][..i] == chunks[..i];
      if NUL in chunks[i] {
        ConcatGrows(chunks, i + 1);
        var j :| 0 <= j < |chunks[i]| && chunks[i][j] == NUL;
        assert Concat(chunks[..i + 1])[|Concat(chunks[..i])| + j] == NUL;
        return true;
      }
    }
    assert chunks[..|chunks|] == chunks;
    found := false;
  }

  /** Searches a file that arrives in the given buffers, and is read again in others for the NUL check;
      the outcome depends on the bytes only. */
  method SearchFile(chunks: seq<Bytes>, again: seq<Bytes>, query: Bytes, binary: bool, maxResults: nat, budget: nat)
    returns (matches: seq<Match>, truncated: bool)
    requires Concat(again) == Concat(chunks)
    ensures (matches, truncated)
         == Outcome(Limits(query, binary, maxResults, if budget < MAX_CONTENT then budget else MAX_CONTENT),
                    Concat(chunks))
  {
    hide WithLines, WithLine, Scanned, Column, Splitting.Complete, Splitting.Partial;
    if maxResults == 0 {
      return [], false;
    }
    var limits := Limits(query, binary, maxResults, if budget < MAX_CONTENT then budget else MAX_CONTENT);
    var report, number, scan := NOTHING, 1, FRESH;
    ghost var file := Concat(chunks);
    EmptyCaught(limits);
    var i := 0;
    while i < |chunks| && !(binary && (|report.matches| >= maxResults || report.truncated))
      invariant 0 <= i <= |chunks|
      invariant !Stopped(limits, report) ==> Caught(limits, Concat(chunks[..i]), report, number, scan)
      invariant Stopped(limits, report) ==> report == WithLines(limits, Complete(Concat(chunks[..i])))
    {
      assert chunks[..i + 1][..i] == chunks[..i];
      report, number, scan := ScanBuffer(limits, chunks[i], report, number, scan, Concat(chunks[..i]));
      i := i + 1;
    }
    if Stopped(limits, report) {
      ConcatGrows(chunks, i);
      StopsEarly(limits, Concat(chunks[..i]), file);
      return report.matches, report.truncated;
    }
    assert chunks[..i] == chunks;
    if scan.bytes > 0 {
      report := LastLine(limits, report, number, scan, file);
    } else {
      NoLastLine(limits, file, report, number, scan);
    }
    if !binary && report.matches != [] {
      var nul := ContainsNul(again);
      if nul {
        return [], false;
      }
    }
    return report.matches, report.truncated;
  }

  lemma {:induction false} EmptyCaught(limits: Limits)
    ensures Caught(limits, [], NOTHING, 1, FRESH) || limits.maxResults == 0
  {
  }

  lemma {:induction false} StopsEarly(limits: Limits, done: Bytes, file: Bytes)
    requires done <= file && Stopped(limits, WithLines(limits, Complete(done)))
    ensures WithLines(limits, Lines(file)) == WithLines(limits, Complete(done))
  {
    Splitting.CompleteGrows(done, NEWLINE, file[|done|..]);
    assert done + file[|done|..] == file;
    StopsForGood(limits, Complete(done), Lines(file));
  }

  method LastLine(limits: Limits, report: Report, number: nat, scan: Scan, ghost file: Bytes) returns (r: Report)
    requires Caught(limits, file, report, number, scan) && scan.bytes > 0
    ensures r == WithLines(limits, Lines(file))
  {
    r := FinishLine(limits, report, number, scan, Partial(file));
    assert (Complete(file) + [Partial(file)])[..|Complete(file)|] == Complete(file);
  }

  lemma {:induction false} NoLastLine(limits: Limits, file: Bytes, report: Report, number: nat, scan: Scan)
    requires Caught(limits, file, report, number, scan) && scan.bytes == 0
    ensures report == WithLines(limits, Lines(file))
  {
    assert Lines(file) == Complete(file);
  }
}
