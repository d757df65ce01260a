/** The sink of a captured command: output is held in memory until it is large enough to spill into two
    files, and every byte is charged to the account of its stream before it is kept. */
module Capture {
  import opened Common

  const SPILL_THRESHOLD_BYTES: nat := 256 * 1024

  datatype StreamKind = Stdout | Stderr

  /** One thing for each stream. */
  datatype Streams<T> = Streams(stdout: T, stderr: T) {
    function Of(stream: StreamKind): T {
      if stream.Stdout? then stdout else stderr
    }

    function With(stream: StreamKind, value: T): Streams<T> {
      if stream.Stdout? then Streams(value, stderr) else Streams(stdout, value)
    }
  }

  datatype Finished = InMemory | Referenced | FlushFailed

  datatype Outcome = Accepted | QuotaExhausted | SlotsExhausted | IoFailed | LimitExceeded

  /** What the rest of the system answers during one append: whether the quota and the slots have room,
      whether the files can be created, and how many bytes each write takes before it fails. */
  datatype Around = Around(quota: bool, slot: bool, creates: bool, stdoutTakes: nat, stderrTakes: nat, takes: nat)

  /** Nothing fails. */
  predicate Generous(around: Around, maxOutput: nat) {
    && around.quota && around.slot && around.creates
    && around.stdoutTakes >= maxOutput && around.stderrTakes >= maxOutput && around.takes >= maxOutput
  }

  function Written(bytes: Bytes, takes: nat): (r: Bytes)
    ensures r <= bytes && (r == bytes <==> takes >= |bytes|)
  {
    if takes < |bytes| then bytes[..takes] else bytes
  }

  predicate Covers(charges: Streams<nat>, files: Streams<Bytes>) {
    |files.stdout| <= charges.stdout && |files.stderr| <= charges.stderr
  }

  predicate Matches(charges: Streams<nat>, kept: Streams<Bytes>) {
    |kept.stdout| == charges.stdout && |kept.stderr| == charges.stderr
  }

  const NOTHING: Streams<Bytes> := Streams([], [])

  class OutputSink {
    const maxOutput: nat
    var aggregate: nat
    var memory: Streams<Bytes>
    var files: Streams<Bytes>
    var spooled: bool
    var charges: Streams<nat>
    var bytesSeen: Streams<nat>
    var published: Option<Streams<nat>>
    ghost var seen: Streams<Bytes>

    function Kept(): Streams<Bytes>
      reads this
    {
      if spooled then files else memory
    }

    /** As long as every append was accepted: both streams are kept whole, each byte is charged once, and
        there are files exactly when the output has outgrown memory. */
    ghost predicate Valid()
      reads this
    {
      && Kept() == seen && Matches(charges, seen) && Matches(bytesSeen, seen)
      && aggregate == |seen.stdout| + |seen.stderr| <= maxOutput
      && (spooled <==> aggregate > SPILL_THRESHOLD_BYTES)
      && (!spooled ==> files == NOTHING)
    }

    constructor (maxOutput: nat)
      ensures Valid() && this.maxOutput == maxOutput && seen == NOTHING && published.None?
    {
      this.maxOutput := maxOutput;
      aggregate, spooled := 0, false;
      memory, files, charges := NOTHING, NOTHING, Streams(0, 0);
      bytesSeen, published := Streams(0, 0), None;
      seen := NOTHING;
    }

    /** Moves what is in memory into two new files. When a write fails the accounts shrink to what is on
        disk; when the files cannot be made nothing is on disk. */
    method StartSpooling(around: Around) returns (r: Outcome)
      requires !spooled && files == NOTHING && Covers(charges, memory)
      modifies this`memory, this`files, this`spooled, this`charges
      ensures r.Accepted? || r.SlotsExhausted? || r.IoFailed?
      ensures r.Accepted? <==>
                && around.slot && around.creates
                && around.stdoutTakes >= |old(memory).stdout| && around.stderrTakes >= |old(memory).stderr|
      ensures r.SlotsExhausted? <==> !around.slot
      ensures r.Accepted? ==> spooled && charges == old(charges) && files == old(memory)
      ensures !r.Accepted? ==> !spooled && (files == NOTHING || Matches(charges, files))
    {
      var stdoutBytes, stderrBytes := memory.stdout, memory.stderr;
      memory := NOTHING;
      if !around.slot {
        return SlotsExhausted;
      }
      if !around.creates {
        return IoFailed;
      }
      var stdoutWritten := Written(stdoutBytes, around.stdoutTakes);
      files := files.(stdout := stdoutWritten);
      if stdoutWritten != stdoutBytes {
        charges := Streams(|stdoutWritten|, 0);
        return IoFailed;
      }
      var stderrWritten := Written(stderrBytes, around.stderrTakes);
      files := files.(stderr := stderrWritten);
      if stderrWritten != stderrBytes {
        charges := Streams(|stdoutWritten|, |stderrWritten|);
        return IoFailed;
      }
      spooled := true;
      r := Accepted;
    }

    /** Keeps bytes that are already charged; what a failed write did not take is given back. */
    method Retain(stream: StreamKind, bytes: Bytes, takes: nat) returns (r: Outcome)
      requires |bytes| <= charges.Of(stream)
      modifies this`memory, this`files, this`charges
      ensures r == if !spooled || takes >= |bytes| then Accepted else IoFailed
      ensures var kept := if spooled then Written(bytes, takes) else bytes;
              && Kept() == old(Kept()).With(stream, old(Kept()).Of(stream) + kept)
              && charges == old(charges).With(stream, old(charges).Of(stream) - (|bytes| - |kept|))
      ensures !spooled ==> files == old(files)
    {
      if spooled {
        var written := Written(bytes, takes);
        files := files.With(stream, files.Of(stream) + written);
        charges := charges.With(stream, charges.Of(stream) - (|bytes| - |written|));
        if written != bytes {
          return IoFailed;
        }
      } else {
        memory := memory.With(stream, memory.Of(stream) + bytes);
      }
      r := Accepted;
    }

    /** Charges bytes and keeps them, spilling first if they outgrow memory. Whatever fails, the accounts
        still cover the disk, and they match it exactly once something has been written. */
    method AppendAllowed(stream: StreamKind, bytes: Bytes, around: Around) returns (r: Outcome)
      requires Valid() && |bytes| <= maxOutput - aggregate
      modifies this
      ensures r.Accepted? || r.QuotaExhausted? || r.SlotsExhausted? || r.IoFailed?
      ensures r.Accepted? ==> Valid() && seen == old(seen).With(stream, old(seen).Of(stream) + bytes)
      ensures r.QuotaExhausted? <==> !around.quota
      ensures r.QuotaExhausted? ==> Valid() && seen == old(seen)
      ensures r.SlotsExhausted? ==> !around.slot
      ensures Generous(around, maxOutput) ==> r.Accepted?
      ensures r.SlotsExhausted? || r.IoFailed? ==> files == NOTHING || Matches(charges, files)
      ensures Covers(charges, files)
    {
      if !around.quota {
        return QuotaExhausted;
      }
      charges := charges.With(stream, charges.Of(stream) + |bytes|);
      bytesSeen := bytesSeen.With(stream, bytesSeen.Of(stream) + |bytes|);
      var nextAggregate := aggregate + |bytes|;
      if nextAggregate > SPILL_THRESHOLD_BYTES && !spooled {
        r := StartSpooling(around);
        if !r.Accepted? {
          return;
        }
      }
      r := Retain(stream, bytes, around.takes);
      if !r.Accepted? {
        return;
      }
      aggregate := nextAggregate;
      seen := seen.With(stream, seen.Of(stream) + bytes);
    }

    /** Output past the limit is refused after what still fits has been taken. */
    method Append(stream: StreamKind, bytes: Bytes, around: Around) returns (r: Outcome)
      requires Valid()
      modifies this
      ensures Covers(charges, files)
      ensures r.Accepted? ==>
                && Valid() && |bytes| <= maxOutput - old(aggregate)
                && seen == old(seen).With(stream, old(seen).Of(stream) + bytes)
      ensures r.LimitExceeded? ==>
                && |bytes| > maxOutput - old(aggregate) && aggregate == maxOutput + 1 && !spooled
                && |seen.stdout| + |seen.stderr| == maxOutput
                && seen == old(seen).With(stream, old(seen).Of(stream) + bytes[..maxOutput - old(aggregate)])
      ensures r.QuotaExhausted? ==> !around.quota
      ensures r.SlotsExhausted? ==> !around.slot
      ensures Generous(around, maxOutput) ==>
                r == if |bytes| <= maxOutput - old(aggregate) then Accepted else LimitExceeded
      ensures r.SlotsExhausted? || r.IoFailed? ==> files == NOTHING || Matches(charges, files)
    {
      var remaining := maxOutput - aggregate;
      if |bytes| > remaining {
        var allowed := bytes[..remaining];
        assert allowed == [] ==> seen.Of(stream) + allowed == seen.Of(stream);
        if remaining != 0 {
          r := AppendAllowed(stream, allowed, around);
          if !r.Accepted? {
            return;
          }
        }
        aggregate := maxOutput + 1;
        spooled := false;
        memory := NOTHING;
        return LimitExceeded;
      }
      r := AppendAllowed(stream, bytes, around);
    }

    /** A finished capture is published, with the lengths of both streams, exactly when it outgrew memory and
        both files could be flushed; then the files hold both streams whole. */
    method Finish(stdoutFlushes: bool, stderrFlushes: bool) returns (r: Finished)
      requires Valid()
      modifies this`published
      ensures r.InMemory? <==> |seen.stdout| + |seen.stderr| <= SPILL_THRESHOLD_BYTES
      ensures r.FlushFailed? ==> !(stdoutFlushes && stderrFlushes)
      ensures r.Referenced? ==> stdoutFlushes && stderrFlushes && files == seen
      ensures published ==
              if r.Referenced? then Some(Streams(|seen.stdout|, |seen.stderr|)) else old(published)
    {
      if !spooled {
        return InMemory;
      }
      if !stdoutFlushes {
        return FlushFailed;
      }
      if !stderrFlushes {
        return FlushFailed;
      }
      published := Some(bytesSeen);
      r := Referenced;
    }
  }
}
