/** What is kept of a stream in memory, and the writer that keeps a retained result within its limit. */
module Preview {
  import opened Common

  const READ_BUFFER_BYTES: nat := 64 * 1024

  /** The last `n` elements, or all of them. */
  function LastOf(s: Bytes, n: nat): (r: Bytes) {
    if |s| <= n then s else s[|s| - n..]
  }

  function FirstOf(s: Bytes, n: nat): (r: Bytes) {
    if |s| <= n then s else s[..n]
  }

  datatype OutputPreview = OutputPreview(head: Bytes, tail: Bytes, bytesSeen: nat, truncated: bool)

  /** The preview of a whole stream. */
  function PreviewOf(seen: Bytes, budget: nat): OutputPreview {
    var head := FirstOf(seen, budget / 2);
    var tail := LastOf(seen[|head|..], budget - budget / 2);
    OutputPreview(head, tail, |seen|, |seen| > |head| + |tail|)
  }

  lemma {:induction false} LastOfAppend(s: Bytes, t: Bytes, n: nat)
    ensures |t| >= n ==> LastOf(s + t, n) == t[|t| - n..]
    ensures |t| < n ==> LastOf(s + t, n) == LastOf(LastOf(s, n), n - |t|) + t
  {
    if |t| < n && |s| + |t| > n {
      assert s + t == s[..|s| + |t| - n] + (s[|s| + |t| - n..] + t);
      assert (s + t)[|s| + |t| - n..] == s[|s| + |t| - n..] + t;
      assert LastOf(LastOf(s, n), n - |t|) == s[|s| + |t| - n..];
    }
  }

  /** The head takes what it still needs, and only the rest is left for the tail. */
  lemma {:induction false} HeadTakes(seen: Bytes, bytes: Bytes, capacity: nat)
    ensures var head := FirstOf(seen, capacity);
            && |head| <= |seen| && |head| <= capacity
            && var count := if capacity - |head| <= |bytes| then capacity - |head| else |bytes|;
               && FirstOf(seen + bytes, capacity) == head + bytes[..count]
               && (seen + bytes)[|head| + count..] == seen[|head|..] + bytes[count..]
  {
    var head := FirstOf(seen, capacity);
    if |seen| >= capacity {
      assert (seen + bytes)[..capacity] == seen[..capacity];
    }
  }

  lemma {:induction false} TailTakes(tail: Bytes, rest: Bytes, remaining: Bytes, capacity: nat)
    requires tail == LastOf(rest, capacity)
    ensures |tail| <= capacity
    ensures capacity == 0 || remaining == [] ==> LastOf(rest + remaining, capacity) == tail
    ensures capacity > 0 && |remaining| >= capacity ==>
              LastOf(rest + remaining, capacity) == remaining[|remaining| - capacity..]
    ensures |remaining| < capacity ==>
              var excess := if |tail| + |remaining| <= capacity then 0 else |tail| + |remaining| - capacity;
              excess <= |tail| && LastOf(rest + remaining, capacity) == tail[excess..] + remaining
  {
    LastOfAppend(rest, remaining, capacity);
    if remaining == [] {
      assert rest + remaining == rest;
    }
  }

  /** A preview drops bytes exactly when the stream is longer than the budget, and then it is a prefix
      and a suffix that fill the budget. */
  lemma {:induction false} PreviewKeepsEnds(seen: Bytes, budget: nat)
    ensures var p := PreviewOf(seen, budget);
            && (p.truncated <==> |seen| > budget)
            && (!p.truncated ==> p.head + p.tail == seen)
            && (p.truncated ==> |p.head| == budget / 2 && |p.head| + |p.tail| == budget)
            && p.head <= seen
            && |p.tail| <= |seen| && p.tail == seen[|seen| - |p.tail|..]
  {
    var head := FirstOf(seen, budget / 2);
    assert seen == head + seen[|head|..];
  }

  class PreviewSink {
    const headCapacity: nat
    const tailCapacity: nat
    var head: Bytes
    var tail: Bytes
    var bytesSeen: nat
    ghost const budget: nat
    ghost var seen: Bytes

    ghost predicate Valid()
      reads this
    {
      && headCapacity == budget / 2 && tailCapacity == budget - budget / 2
      && bytesSeen == |seen|
      && head == FirstOf(seen, headCapacity)
      && tail == LastOf(seen[|head|..], tailCapacity)
    }

    constructor (budget: nat)
      ensures Valid() && this.budget == budget && seen == []
    {
      headCapacity := budget / 2;
      tailCapacity := budget - budget / 2;
      head, tail, bytesSeen := [], [], 0;
      this.budget := budget;
      seen := [];
    }

    method Push(bytes: Bytes)
      requires Valid()
      modifies this
      ensures Valid() && seen == old(seen) + bytes
    {
      hide FirstOf, LastOf;
      HeadTakes(seen, bytes, headCapacity);
      ghost var rest := seen[|head|..];
      seen := seen + bytes;
      bytesSeen := bytesSeen + |bytes|;
      var headNeeded := headCapacity - |head|;
      var headCount := if headNeeded <= |bytes| then headNeeded else |bytes|;
      head := head + bytes[..headCount];
      var remaining := bytes[headCount..];
      TailTakes(tail, rest, remaining, tailCapacity);
      if tailCapacity == 0 || remaining == [] {
        return;
      }
      if |remaining| >= tailCapacity {
        tail := remaining[|remaining| - tailCapacity..];
        return;
      }
      var excess := if |tail| + |remaining| <= tailCapacity then 0 else |tail| + |remaining| - tailCapacity;
      tail := tail[excess..];
      tail := tail + remaining;
    }

    method Finish() returns (r: OutputPreview)
      requires Valid()
      ensures r == PreviewOf(seen, budget)
    {
      r := OutputPreview(head, tail, bytesSeen, bytesSeen > |head| + |tail|);
    }
  }

  // ----- the capped writer of a retained result -----

  datatype WriteError = Cancelled | LimitExceeded | WriteZero | Io

  datatype Outcome = Done(written: nat) | Failed(error: WriteError)

  /** What the file, or the cancellation flag, does next. */
  datatype Answer = Cancel | Accepts(count: nat) | Breaks

  class CappedDetailWriter {
    var file: Bytes
    var bytes: nat
    var actualWritten: nat
    var answers: seq<Answer>

    ghost predicate Valid()
      reads this
    {
      && |file| == bytes == actualWritten
      && bytes <= MAX_OUTPUT_BYTES
    }

    constructor (answers: seq<Answer>)
      ensures Valid() && file == [] && this.answers == answers
    {
      file, bytes, actualWritten := [], 0, 0;
      this.answers := answers;
    }

    /** The file grows by a prefix of the buffer, by all of it when the write succeeds, and never past
        the limit; what was written is always what is counted; each failure has its cause in the last
        answer. */
    method Write(buffer: Bytes) returns (r: Outcome)
      requires Valid()
      modifies this
      ensures Valid()
      ensures old(file) <= file <= old(file) + buffer
      ensures r.Done? ==> r.written == |buffer| && file == old(file) + buffer
      ensures r == Failed(LimitExceeded) ==> bytes == MAX_OUTPUT_BYTES && |file| < |old(file)| + |buffer|
      ensures r.Failed? ==> |file| < |old(file)| + |buffer|
      ensures |answers| <= |old(answers)|
      ensures var used := |old(answers)| - |answers|;
              && answers == old(answers)[used..]
              && (forall i :: 0 <= i < used - 1 ==> old(answers)[i].Accepts? && old(answers)[i].count > 0)
              && (r == Failed(Cancelled) ==> used > 0 && old(answers)[used - 1] == Cancel)
              && (r == Failed(Io) ==> used > 0 && old(answers)[used - 1] == Breaks)
              && (r == Failed(WriteZero) ==> used > 0 && old(answers)[used - 1] == Accepts(0))
              && (r.Done? ==> forall i :: 0 <= i < used ==> old(answers)[i].Accepts? && old(answers)[i].count > 0)
    {
      var written: nat := 0;
      while written < |buffer|
        invariant written <= |buffer|
        invariant Valid()
        invariant file == old(file) + buffer[..written]
        invariant |answers| <= |old(answers)| && answers == old(answers)[|old(answers)| - |answers|..]
        invariant forall i :: 0 <= i < |old(answers)| - |answers| ==>
                    old(answers)[i].Accepts? && old(answers)[i].count > 0
      {
        var answer := if answers == [] then Accepts(READ_BUFFER_BYTES) else answers[0];
        if answers != [] {
          answers := answers[1..];
        }
        if answer.Cancel? {
          return Failed(Cancelled);
        }
        var remaining := MAX_OUTPUT_BYTES - bytes;
        if remaining == 0 {
          return Failed(LimitExceeded);
        }
        var count := if |buffer| - written <= READ_BUFFER_BYTES then |buffer| - written else READ_BUFFER_BYTES;
        count := if count <= remaining then count else remaining;
        match answer
        case Breaks => return Failed(Io);
        case Accepts(n) =>
          var done := if n <= count then n else count;
          if done == 0 {
            return Failed(WriteZero);
          }
          assert buffer[..written] + buffer[written..written + done] == buffer[..written + done];
          file := file + buffer[written..written + done];
          bytes := bytes + done;
          written := written + done;
          actualWritten := bytes;
      }
      assert buffer[..written] == buffer;
      return Done(written);
    }
  }
}
