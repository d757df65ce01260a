/** Rewriting a file by its replacements, and what that means for its lines. */
module PatchApply {
  import opened Common
  import opened Patch
  import Splitting

  // ----- rewriting the file -----

  const NL := '\n'
  const NUL_CHAR := '\0'

  /** The lines of a file; an unfinished last line counts unless it is empty. */
  function LinesOf(text: string): seq<Line> {
    Splitting.Complete(text, NL) + if Splitting.Partial(text, NL) == [] then [] else [Splitting.Partial(text, NL)]
  }

  /** The lines of a text are what its newlines end, and then what follows the last of them, if anything. */
  lemma {:induction false} LinesAre(lines: seq<Line>, tail: string)
    requires NL !in tail && forall line :: line in lines ==> NL !in line
    ensures LinesOf(TextOf(lines) + tail) == lines + if tail == [] then [] else [tail]
  {
    Splitting.SplitJoined(lines, NL);
    Splitting.AppendSegment(TextOf(lines), NL, tail);
    assert [] + tail == tail;
  }

  function TextOf(lines: seq<Line>): string {
    Splitting.Joined(lines, NL)
  }

  function Utf8Length(text: string): nat {
    if text == [] then 0
    else
      var c := text[|text| - 1];
      Utf8Length(text[..|text| - 1])
      + if c < '\U{0080}' then 1 else if c < '\U{0800}' then 2 else if c < '\U{10000}' then 3 else 4
  }

  lemma {:induction false} Utf8Append(left: string, right: string)
    ensures Utf8Length(left + right) == Utf8Length(left) + Utf8Length(right)
  {
    if right == [] {
      assert left + right == left;
    } else {
      Utf8Append(left, right[..|right| - 1]);
      assert (left + right)[..|left + right| - 1] == left + right[..|right| - 1];
    }
  }

  lemma {:induction false} TextAppend(left: seq<Line>, right: seq<Line>)
    ensures TextOf(left + right) == TextOf(left) + TextOf(right)
  {
    if right == [] {
      assert left + right == left;
    } else {
      var most := right[..|right| - 1];
      TextAppend(left, most);
      assert (left + right)[..|left + right| - 1] == left + most;
    }
  }

  /** Where copying goes on after the replacements. */
  function Copied(replacements: seq<Replacement>): nat {
    if replacements == [] then 0
    else replacements[|replacements| - 1].start + replacements[|replacements| - 1].oldLen
  }

  function Head(lines: seq<Line>, replacements: seq<Replacement>): seq<Line>
    requires Ordered(replacements, |lines|)
  {
    if replacements == [] then []
    else
      var most, last := replacements[..|replacements| - 1], replacements[|replacements| - 1];
      Head(lines, most) + lines[Copied(most)..last.start] + last.newLines
  }

  function Rewritten(lines: seq<Line>, replacements: seq<Replacement>): seq<Line>
    requires Ordered(replacements, |lines|)
  {
    Head(lines, replacements) + lines[Copied(replacements)..]
  }

  function Bounded(text: string, maximum: nat): Result<string> {
    if Utf8Length(text) > maximum then Err(TooLarge) else Ok(text)
  }

  lemma {:induction false} PrefixShorter(output: string, lines: seq<Line>, n: nat)
    requires n <= |lines|
    ensures Utf8Length(output + TextOf(lines[..n])) <= Utf8Length(output + TextOf(lines))
  {
    hide Utf8Length, Splitting.Joined;
    TextAppend(lines[..n], lines[n..]);
    assert lines[..n] + lines[n..] == lines;
    Utf8Append(output + TextOf(lines[..n]), TextOf(lines[n..]));
    assert output + TextOf(lines) == output + TextOf(lines[..n]) + TextOf(lines[n..]);
  }

  /** Appends lines one by one, and gives up at the first that would exceed the bound. */
  method ExtendLines(output: string, lines: seq<Line>, maximum: nat) returns (r: Result<string>)
    requires Utf8Length(output) <= maximum
    ensures r == Bounded(output + TextOf(lines), maximum)
  {
    hide Utf8Length;
    var text := output;
    assert output + TextOf(lines[..0]) == output;
    for i := 0 to |lines|
      invariant text == output + TextOf(lines[..i]) && Utf8Length(text) <= maximum
    {
      assert lines[..i + 1][..i] == lines[..i];
      var longer := text + lines[i] + [NL];
      assert longer == output + TextOf(lines[..i + 1]);
      if Utf8Length(longer) > maximum {
        PrefixShorter(output, lines, i + 1);
        return Err(TooLarge);
      }
      text := longer;
    }
    assert lines[..|lines|] == lines;
    r := Ok(text);
  }

  lemma {:induction false} BoundedMore(left: seq<Line>, right: seq<Line>, maximum: nat)
    requires Utf8Length(TextOf(left)) > maximum
    ensures Utf8Length(TextOf(left + right)) > maximum
  {
    TextAppend(left, right);
    Utf8Append(TextOf(left), TextOf(right));
  }

  lemma {:induction false} RewrittenSplits(lines: seq<Line>, replacements: seq<Replacement>, i: nat)
    requires Ordered(replacements, |lines|) && i <= |replacements|
    ensures Ordered(replacements[..i], |lines|)
    ensures Head(lines, replacements[..i]) <= Rewritten(lines, replacements)
    ensures i < |replacements| ==>
      && Copied(replacements[..i]) <= replacements[i].start
      && Head(lines, replacements[..i]) + lines[Copied(replacements[..i])..replacements[i].start]
         <= Rewritten(lines, replacements)
      && Ordered(replacements[..i + 1], |lines|)
      && Head(lines, replacements[..i + 1])
         == Head(lines, replacements[..i]) + lines[Copied(replacements[..i])..replacements[i].start]
            + replacements[i].newLines
    decreases |replacements| - i
  {
    if i < |replacements| {
      RewrittenSplits(lines, replacements, i + 1);
      assert replacements[..i + 1][..i] == replacements[..i];
    } else {
      assert replacements[..i] == replacements;
    }
  }

  lemma {:induction false} TooLargeInside(part: seq<Line>, whole: seq<Line>, maximum: nat)
    requires part <= whole && Utf8Length(TextOf(part)) > maximum
    ensures Utf8Length(TextOf(whole)) > maximum
  {
    assert whole == part + whole[|part|..];
    BoundedMore(part, whole[|part|..], maximum);
  }

  method WriteReplacements(lines: seq<Line>, replacements: seq<Replacement>, maximum: nat) returns (r: Result<string>)
    requires Ordered(replacements, |lines|)
    ensures r == Bounded(TextOf(Rewritten(lines, replacements)), maximum)
  {
    hide Rewritten, Ordered, Utf8Length, Splitting.Joined, Copied;
    ghost var whole := Rewritten(lines, replacements);
    var output, copied := "", 0;
    NothingWritten(lines, replacements, maximum);
    for i := 0 to |replacements|
      invariant Ordered(replacements[..i], |lines|)
      invariant copied == Copied(replacements[..i]) <= |lines|
      invariant output == TextOf(Head(lines, replacements[..i])) && Utf8Length(output) <= maximum
    {
      RewrittenSplits(lines, replacements, i);
      ReplacementWithin(lines, replacements, i);
      var start, newLines := replacements[i].start, replacements[i].newLines;
      ghost var head := Head(lines, replacements[..i]);
      var gap := ExtendLines(output, lines[copied..start], maximum);
      TextAppend(head, lines[copied..start]);
      if gap.Err? {
        TooLargeInside(head + lines[copied..start], whole, maximum);
        return gap;
      }
      var next := ExtendLines(gap.value, newLines, maximum);
      TextAppend(head + lines[copied..start], newLines);
      if next.Err? {
        RewrittenSplits(lines, replacements, i + 1);
        TooLargeInside(head + lines[copied..start] + newLines, whole, maximum);
        return next;
      }
      output := next.value;
      copied := start + replacements[i].oldLen;
    }
    assert replacements[..|replacements|] == replacements;
    RewrittenIs(lines, replacements);
    TextAppend(Head(lines, replacements), lines[copied..]);
    r := ExtendLines(output, lines[copied..], maximum);
  }

  lemma {:induction false} NothingWritten(lines: seq<Line>, replacements: seq<Replacement>, maximum: nat)
    ensures Ordered(replacements[..0], |lines|) && Copied(replacements[..0]) == 0
    ensures TextOf(Head(lines, replacements[..0])) == "" && Utf8Length("") <= maximum
  {
  }

  lemma {:induction false} ReplacementWithin(lines: seq<Line>, replacements: seq<Replacement>, i: nat)
    requires Ordered(replacements, |lines|) && i < |replacements|
    ensures replacements[i].start + replacements[i].oldLen <= |lines|
    ensures Copied(replacements[..i + 1]) == replacements[i].start + replacements[i].oldLen
  {
  }

  lemma {:induction false} RewrittenIs(lines: seq<Line>, replacements: seq<Replacement>)
    requires Ordered(replacements, |lines|)
    ensures Copied(replacements) <= |lines|
    ensures Rewritten(lines, replacements) == Head(lines, replacements) + lines[Copied(replacements)..]
  {
  }

  /** The whole update: `moved` says that the file also changes its path. */
  function Applied(base: string, chunks: seq<Chunk>, maximum: nat, moved: bool): Result<string>
    requires forall i :: 0 <= i < |chunks| ==> WellFormed(chunks[i])
  {
    ReplacementsFit(LinesOf(base), chunks);
    if NUL_CHAR in base then Err(InvalidPatch)
    else
      var found := LocateAll(LinesOf(base), chunks);
      if found.Err? then Err(found.error)
      else
        var text := Bounded(TextOf(Rewritten(LinesOf(base), found.value.replacements)), maximum);
        if text.Err? then text
        else if text.value == base && !moved then Err(WriteConflict)
        else text
  }

  method SplitLines(text: string) returns (lines: seq<Line>)
    ensures lines == LinesOf(text)
  {
    lines := [];
    var current := [];
    for i := 0 to |text|
      invariant lines == Splitting.Complete(text[..i], NL) && current == Splitting.Partial(text[..i], NL)
    {
      Splitting.AppendOne(text[..i], NL, text[i]);
      assert text[..i + 1] == text[..i] + [text[i]];
      if text[i] == NL {
        lines, current := lines + [current], [];
      } else {
        current := current + [text[i]];
      }
    }
    assert text[..|text|] == text;
    if current != [] {
      lines := lines + [current];
    }
  }

  /** Applies an accepted update: no index goes out of range, whatever the file. */
  method ApplyUpdate(base: string, chunks: seq<Chunk>, maximum: nat, moved: bool) returns (r: Result<string>)
    requires forall i :: 0 <= i < |chunks| ==> WellFormed(chunks[i])
    ensures r == Applied(base, chunks, maximum, moved)
  {
    hide LocateAll, Ordered, Rewritten, WellFormed, LinesOf;
    if NUL_CHAR in base {
      return Err(InvalidPatch);
    }
    var lines := SplitLines(base);
    var found := FindReplacements(lines, chunks);
    if found.Err? {
      return Err(found.error);
    }
    ReplacementsFit(lines, chunks);
    var text := WriteReplacements(lines, found.value.replacements, maximum);
    if text.Ok? && text.value == base && !moved {
      return Err(WriteConflict);
    }
    r := text;
  }

  // ----- what an update does to a file -----

  datatype Placed = Placed(start: nat, ops: seq<Op>)

  /** Edit scripts placed in the file, in order and apart, their old lines matching there at least
      loosely. */
  ghost predicate Fits(plan: seq<Placed>, lines: seq<Line>) {
    && (forall i :: 0 <= i < |plan| ==> MatchesAt(lines, OldOf(plan[i].ops), plan[i].start, UnicodeNormalized))
    && (forall i :: 0 < i < |plan| ==> plan[i - 1].start + |OldOf(plan[i - 1].ops)| <= plan[i].start)
  }

  function PlanEnd(plan: seq<Placed>): nat {
    if plan == [] then 0 else plan[|plan| - 1].start + |OldOf(plan[|plan| - 1].ops)|
  }

  function PlanHead(lines: seq<Line>, plan: seq<Placed>): seq<Line>
    requires Fits(plan, lines)
  {
    if plan == [] then []
    else
      var most, last := plan[..|plan| - 1], plan[|plan| - 1];
      PlanHead(lines, most) + lines[PlanEnd(most)..last.start] + Emit(last.ops, lines, last.start)
  }

  /** The file after a plan: untouched stretches as they were, each edit script in its place. */
  function Executed(lines: seq<Line>, plan: seq<Placed>): seq<Line>
    requires Fits(plan, lines)
  {
    PlanHead(lines, plan) + lines[PlanEnd(plan)..]
  }

  function RemovedBy(ops: seq<Op>, lines: seq<Line>, start: nat): seq<Line>
    requires start + |OldOf(ops)| <= |lines|
  {
    if ops == [] then []
    else
      var most := ops[..|ops| - 1];
      RemovedBy(most, lines, start) + if ops[|ops| - 1].Remove? then [lines[start + |OldOf(most)|]] else []
  }

  function AddedBy(ops: seq<Op>): seq<Line> {
    if ops == [] then []
    else AddedBy(ops[..|ops| - 1]) + if ops[|ops| - 1].Add? then [ops[|ops| - 1].text] else []
  }

  function AllRemoved(lines: seq<Line>, plan: seq<Placed>): seq<Line>
    requires Fits(plan, lines)
  {
    if plan == [] then []
    else AllRemoved(lines, plan[..|plan| - 1]) + RemovedBy(plan[|plan| - 1].ops, lines, plan[|plan| - 1].start)
  }

  function AllAdded(plan: seq<Placed>): seq<Line> {
    if plan == [] then [] else AllAdded(plan[..|plan| - 1]) + AddedBy(plan[|plan| - 1].ops)
  }

  /** From the lines `old`, taking out `removed` and putting in `added` gives the lines `emitted`. */
  ghost predicate Balanced(emitted: seq<Line>, removed: seq<Line>, old_: seq<Line>, added: seq<Line>) {
    multiset(emitted) + multiset(removed) == multiset(old_) + multiset(added)
  }

  /** Two balanced exchanges of lines, one after the other, balance. */
  lemma {:induction false} Balance(
    e: seq<Line>, r: seq<Line>, s: seq<Line>, a: seq<Line>, e': seq<Line>, r': seq<Line>, s': seq<Line>, a': seq<Line>)
    requires Balanced(e, r, s, a) && Balanced(e', r', s', a')
    ensures Balanced(e + e', r + r', s + s', a + a')
  {
    var ee, rr, ss, aa := multiset(e) + multiset(e'), multiset(r) + multiset(r'), multiset(s) + multiset(s'),
                          multiset(a) + multiset(a');
    assert multiset(e + e') == ee && multiset(r + r') == rr && multiset(s + s') == ss && multiset(a + a') == aa;
    assert ee + rr == (multiset(e) + multiset(r)) + (multiset(e') + multiset(r'));
    assert ss + aa == (multiset(s) + multiset(a)) + (multiset(s') + multiset(a'));
  }

  /** One operation of an edit script, seen as an exchange of lines at `actual`. */
  function Emitted(op: Op, actual: Line): seq<Line> {
    match op
    case Keep(_) => [actual]
    case Remove(_) => []
    case Add(text) => [text]
  }

  lemma {:induction false} OneOpBalanced(op: Op, actual: Line)
    ensures Balanced(Emitted(op, actual), if op.Remove? then [actual] else [],
                     if op.Add? then [] else [actual], if op.Add? then [op.text] else [])
  {
  }

  lemma {:induction false} EmitConserves(ops: seq<Op>, lines: seq<Line>, start: nat)
    requires start + |OldOf(ops)| <= |lines|
    ensures Balanced(Emit(ops, lines, start), RemovedBy(ops, lines, start),
                     lines[start..start + |OldOf(ops)|], AddedBy(ops))
  {
    hide Emit, RemovedBy, AddedBy, OldOf, Balanced;
    if ops == [] {
      EmitNothing(lines, start);
    } else {
      var most, last := ops[..|ops| - 1], ops[|ops| - 1];
      assert ops == most + [last];
      OpsAppend(most, last);
      EmitConserves(most, lines, start);
      EmitOneMore(most, last, lines, start);
    }
  }

  lemma {:induction false} EmitNothing(lines: seq<Line>, start: nat)
    requires start <= |lines|
    ensures OldOf([]) == []
    ensures Balanced(Emit([], lines, start), RemovedBy([], lines, start), lines[start..start], AddedBy([]))
  {
    assert lines[start..start] == [];
  }

  lemma {:induction false} EmitOneMore(ops: seq<Op>, op: Op, lines: seq<Line>, start: nat)
    requires start + |OldOf(ops + [op])| <= |lines| && start + |OldOf(ops)| <= |lines|
    requires Balanced(Emit(ops, lines, start), RemovedBy(ops, lines, start),
                      lines[start..start + |OldOf(ops)|], AddedBy(ops))
    ensures Balanced(Emit(ops + [op], lines, start), RemovedBy(ops + [op], lines, start),
                     lines[start..start + |OldOf(ops + [op])|], AddedBy(ops + [op]))
  {
    hide Emit, RemovedBy, AddedBy, OldOf, Balanced;
    ExchangeAppend(ops, op, lines, start);
    var actual := if op.Add? then [] else lines[start + |OldOf(ops)|];
    OneOpBalanced(op, actual);
    Balance(Emit(ops, lines, start), RemovedBy(ops, lines, start), lines[start..start + |OldOf(ops)|], AddedBy(ops),
            Emitted(op, actual), if op.Remove? then [actual] else [],
            if op.Add? then [] else [actual], if op.Add? then [op.text] else []);
  }

  lemma {:induction false} ExchangeAppend(ops: seq<Op>, op: Op, lines: seq<Line>, start: nat)
    requires start + |OldOf(ops + [op])| <= |lines|
    ensures start + |OldOf(ops)| <= |lines| && (!op.Add? ==> start + |OldOf(ops)| < |lines|)
    ensures Emit(ops + [op], lines, start)
         == Emit(ops, lines, start) + Emitted(op, if op.Add? then [] else lines[start + |OldOf(ops)|])
    ensures RemovedBy(ops + [op], lines, start)
         == RemovedBy(ops, lines, start) + if op.Remove? then [lines[start + |OldOf(ops)|]] else []
    ensures AddedBy(ops + [op]) == AddedBy(ops) + if op.Add? then [op.text] else []
    ensures lines[start..start + |OldOf(ops + [op])|]
         == lines[start..start + |OldOf(ops)|] + if op.Add? then [] else [lines[start + |OldOf(ops)|]]
  {
    hide Emit, RemovedBy, AddedBy, OldOf, NewOf, IndicesOf;
    OpsAppend(ops, op);
    EmitAppend(ops, op, lines, start);
    ExchangedAppend(ops, op, lines, start);
  }

  lemma {:induction false} ExchangedAppend(ops: seq<Op>, op: Op, lines: seq<Line>, start: nat)
    requires start + |OldOf(ops + [op])| <= |lines| && start + |OldOf(ops)| <= |lines|
    requires !op.Add? ==> start + |OldOf(ops)| < |lines|
    ensures RemovedBy(ops + [op], lines, start)
         == RemovedBy(ops, lines, start) + if op.Remove? then [lines[start + |OldOf(ops)|]] else []
    ensures AddedBy(ops + [op]) == AddedBy(ops) + if op.Add? then [op.text] else []
  {
    hide OldOf, Emit;
    assert (ops + [op])[..|ops|] == ops;
  }

  lemma {:induction false} HeadConserves(lines: seq<Line>, plan: seq<Placed>)
    requires Fits(plan, lines)
    ensures PlanEnd(plan) <= |lines|
    ensures Balanced(PlanHead(lines, plan), AllRemoved(lines, plan), lines[..PlanEnd(plan)], AllAdded(plan))
  {
    hide MatchesAt, Emit, RemovedBy, AddedBy, OldOf, Balanced;
    if plan == [] {
      NoLinesBalanced();
      assert lines[..0] == [];
    } else {
      var most, last := plan[..|plan| - 1], plan[|plan| - 1];
      MatchWithin(lines, OldOf(last.ops), last.start);
      HeadConserves(lines, most);
      EmitConserves(last.ops, lines, last.start);
      assert PlanEnd(most) <= last.start;
      var gap, old_ := lines[PlanEnd(most)..last.start], lines[last.start..PlanEnd(plan)];
      CopyBalanced(PlanHead(lines, most), AllRemoved(lines, most), lines[..PlanEnd(most)], AllAdded(most), gap);
      Balance(PlanHead(lines, most) + gap, AllRemoved(lines, most), lines[..PlanEnd(most)] + gap, AllAdded(most),
              Emit(last.ops, lines, last.start), RemovedBy(last.ops, lines, last.start), old_, AddedBy(last.ops));
      assert lines[..PlanEnd(plan)] == lines[..PlanEnd(most)] + gap + old_;
    }
  }

  lemma {:induction false} NoLinesBalanced()
    ensures Balanced([], [], [], [])
  {
  }

  lemma {:induction false} CopyBalanced(e: seq<Line>, r: seq<Line>, s: seq<Line>, a: seq<Line>, copied: seq<Line>)
    requires Balanced(e, r, s, a)
    ensures Balanced(e + copied, r, s + copied, a)
  {
    Balance(e, r, s, a, copied, [], copied, []);
    assert r + [] == r && a + [] == a;
  }

  /** The lines after an update are those before, less exactly the lines matched by `-` records, plus exactly
      the `+` records: context and untouched lines are the file's own, even under loose matching. */
  lemma {:induction false} UpdateConserves(lines: seq<Line>, plan: seq<Placed>)
    requires Fits(plan, lines)
    ensures multiset(Executed(lines, plan)) + multiset(AllRemoved(lines, plan))
         == multiset(lines) + multiset(AllAdded(plan))
  {
    hide PlanHead, AllRemoved, AllAdded, Fits, PlanEnd;
    HeadConserves(lines, plan);
    var rest := lines[PlanEnd(plan)..];
    CopyBalanced(PlanHead(lines, plan), AllRemoved(lines, plan), lines[..PlanEnd(plan)], AllAdded(plan), rest);
    assert lines == lines[..PlanEnd(plan)] + rest;
  }

  lemma {:induction false} PlanOf(
      lines: seq<Line>, chunks: seq<Chunk>, found: Located, n: nat)
      returns (plan: seq<Placed>)
    requires LocatedOk(lines, chunks, found) && n <= |found.replacements|
    ensures |found.replacements| == |Effective(chunks)|
    ensures |plan| == n && Fits(plan, lines)
    ensures forall i :: 0 <= i < n ==>
      && plan[i].start == found.replacements[i].start
      && |OldOf(plan[i].ops)| == found.replacements[i].oldLen
      && FromOps(Effective(chunks)[i], plan[i].ops)
    ensures Ordered(found.replacements[..n], |lines|)
    ensures Head(lines, found.replacements[..n]) == PlanHead(lines, plan)
  {
    hide MatchesAt, Emit, OldOf, CarriesOut, Fits, Head, PlanHead, FromOps, Effective;
    if n == 0 {
      plan := [];
      EmptyPlan(lines, found.replacements);
    } else {
      var most := PlanOf(lines, chunks, found, n - 1);
      var r := found.replacements[n - 1];
      var chunk := Effective(chunks)[n - 1];
      assert FromChunk(r, chunk, lines);
      var ops :| CarriesOut(r, chunk, ops, lines);
      plan := most + [Placed(r.start, ops)];
      CarriesOutFacts(r, chunk, ops, lines);
      assert plan[..n - 1] == most;
      ExtendPlan(lines, found.replacements, n, most, plan);
    }
  }

  lemma {:induction false} EmptyPlan(lines: seq<Line>, replacements: seq<Replacement>)
    ensures Fits([], lines) && Ordered(replacements[..0], |lines|)
    ensures Head(lines, replacements[..0]) == PlanHead(lines, [])
  {
  }

  lemma {:induction false} CarriesOutFacts(r: Replacement, chunk: Chunk, ops: seq<Op>, lines: seq<Line>)
    requires CarriesOut(r, chunk, ops, lines)
    ensures FromOps(chunk, ops) && r.oldLen == |OldOf(ops)| && r.start + |OldOf(ops)| <= |lines|
    ensures MatchesAt(lines, OldOf(ops), r.start, UnicodeNormalized) && r.newLines == Emit(ops, lines, r.start)
  {
  }

  lemma {:induction false} ExtendPlan(
    lines: seq<Line>, replacements: seq<Replacement>, n: nat, most: seq<Placed>, plan: seq<Placed>)
    requires 0 < n <= |replacements| && Ordered(replacements, |lines|)
    requires |most| == n - 1 && Fits(most, lines) && |plan| == n && plan[..n - 1] == most
    requires forall i :: 0 <= i < n - 1 ==>
      most[i].start == replacements[i].start && |OldOf(most[i].ops)| == replacements[i].oldLen
    requires plan[n - 1].start == replacements[n - 1].start && |OldOf(plan[n - 1].ops)| == replacements[n - 1].oldLen
    requires MatchesAt(lines, OldOf(plan[n - 1].ops), plan[n - 1].start, UnicodeNormalized)
    requires plan[n - 1].start + |OldOf(plan[n - 1].ops)| <= |lines|
    requires replacements[n - 1].newLines == Emit(plan[n - 1].ops, lines, plan[n - 1].start)
    requires Ordered(replacements[..n - 1], |lines|)
    requires Head(lines, replacements[..n - 1]) == PlanHead(lines, most)
    ensures Fits(plan, lines) && Ordered(replacements[..n], |lines|)
    ensures Head(lines, replacements[..n]) == PlanHead(lines, plan)
  {
    hide MatchesAt, Emit, OldOf;
    assert replacements[..n][..n - 1] == replacements[..n - 1];
    OrderedPrefix(replacements, n, |lines|);
    PlanEndIsCopied(replacements[..n - 1], most);
    FitsMore(lines, most, plan);
  }

  lemma {:induction false} OrderedPrefix(replacements: seq<Replacement>, n: nat, length: nat)
    requires n <= |replacements| && Ordered(replacements, length)
    ensures Ordered(replacements[..n], length)
    ensures n > 1 ==> replacements[n - 2].start + replacements[n - 2].oldLen <= replacements[n - 1].start
  {
  }

  lemma {:induction false} FitsMore(lines: seq<Line>, most: seq<Placed>, plan: seq<Placed>)
    requires plan != [] && plan[..|plan| - 1] == most && Fits(most, lines)
    requires MatchesAt(lines, OldOf(plan[|plan| - 1].ops), plan[|plan| - 1].start, UnicodeNormalized)
    requires PlanEnd(most) <= plan[|plan| - 1].start
    ensures Fits(plan, lines)
  {
    hide MatchesAt, OldOf;
    assert forall i :: 0 <= i < |plan| - 1 ==> plan[i] == most[i];
  }

  /** What an update amounts to. A file with a zero byte is refused as an invalid patch, and a chunk that
      misses is a conflict. Otherwise one edit script per effective chunk is carried out where the chunks
      land, nothing else changes, and a final newline is ensured; the result is too large exactly past the
      bound, and a result that leaves file and path as they were is a conflict. */
  lemma {:induction false} UpdateOutcome(base: string, chunks: seq<Chunk>, maximum: nat, moved: bool)
      returns (plan: seq<Placed>, starts: seq<nat>, cursors: seq<nat>)
    requires forall i :: 0 <= i < |chunks| ==> WellFormed(chunks[i])
    ensures var lines := LinesOf(base);
            if NUL_CHAR in base then Applied(base, chunks, maximum, moved) == Err(InvalidPatch)
            else if exists n :: 0 <= n < |chunks| && Blocks(lines, chunks, n) then
              Applied(base, chunks, maximum, moved) == Err(WriteConflict)
            else
              && Path(lines, chunks, starts, cursors) && Fits(plan, lines) && |plan| == |Effective(chunks)|
              && (forall i :: 0 <= i < |plan| ==>
                    FromOps(Effective(chunks)[i], plan[i].ops) && plan[i].start == EffectiveStarts(chunks, starts)[i])
              && var text := TextOf(Executed(lines, plan));
                 Applied(base, chunks, maximum, moved)
                 == if Utf8Length(text) > maximum then Err(TooLarge)
                    else if text == base && !moved then Err(WriteConflict)
                    else Ok(text)
  {
    hide LocateAll, WellFormed, FromOps, Fits, OldOf, Splitting.Complete, Splitting.Partial, Splitting.Joined,
         LocatedOk, Utf8Length, Blocks, Path, Effective, EffectiveStarts, LinesOf, Head, PlanHead;
    var lines := LinesOf(base);
    LocateFailsIff(lines, chunks);
    plan, starts, cursors := [], [], [];
    if LocateAll(lines, chunks).Ok? {
      var found := LocateAll(lines, chunks).value;
      ReplacementsFit(lines, chunks);
      OrderedWhenLocated(lines, chunks, found);
      starts, cursors := LocatedAlongPath(lines, chunks);
      plan := PlanOf(lines, chunks, found, |found.replacements|);
      assert found.replacements[..|found.replacements|] == found.replacements;
      PlanEndIsCopied(found.replacements, plan);
    }
  }

  lemma {:induction false} OrderedWhenLocated(lines: seq<Line>, chunks: seq<Chunk>, found: Located)
    requires LocatedOk(lines, chunks, found)
    ensures Ordered(found.replacements, |lines|) && |found.replacements| == |Effective(chunks)|
  {
  }

  /** An update that is applied is one edit script per effective chunk, carried out in place on the lines of
      the file; nothing else changes, and a final newline is ensured. */
  lemma {:induction false} AppliedIsEditScripts(
      base: string, chunks: seq<Chunk>, maximum: nat, moved: bool)
      returns (plan: seq<Placed>)
    requires forall i :: 0 <= i < |chunks| ==> WellFormed(chunks[i])
    requires Applied(base, chunks, maximum, moved).Ok?
    ensures Fits(plan, LinesOf(base))
    ensures Applied(base, chunks, maximum, moved).value == TextOf(Executed(LinesOf(base), plan))
    ensures |plan| == |Effective(chunks)| && forall i :: 0 <= i < |plan| ==> FromOps(Effective(chunks)[i], plan[i].ops)
  {
    hide *;
    var starts, cursors;
    plan, starts, cursors := UpdateOutcome(base, chunks, maximum, moved);
  }

  lemma {:induction false} PlanEndIsCopied(replacements: seq<Replacement>, plan: seq<Placed>)
    requires |plan| == |replacements|
    requires forall i :: 0 <= i < |plan| ==>
      plan[i].start == replacements[i].start && |OldOf(plan[i].ops)| == replacements[i].oldLen
    ensures PlanEnd(plan) == Copied(replacements)
  {
  }
}
