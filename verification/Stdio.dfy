/** Newline framing of a byte stream that arrives in arbitrary buffers. */
module Stdio {
  import opened Common
  import opened Buffers
  import opened Splitting

  datatype FrameEvent = Frame(bytes: Bytes) | Oversized | PartialEof | Eof

  /** What waiting for a buffer comes to: a buffer (or the end), an error, or the wait being abandoned. */
  datatype Poll = Ready | IoError | Dropped

  datatype Outcome = Event(event: FrameEvent) | Interrupted(cause: Poll)

  function LineEvent(line: Bytes, limit: nat): FrameEvent {
    if |line| <= limit then Frame(line) else Oversized
  }

  /** One event for each line a newline has ended. */
  function LineEvents(lines: seq<Bytes>, limit: nat): (r: seq<FrameEvent>)
    ensures |r| == |lines| && forall i :: 0 <= i < |lines| ==> r[i] == LineEvent(lines[i], limit)
  {
    seq(|lines|, i requires 0 <= i < |lines| => LineEvent(lines[i], limit))
  }

  /** The events of a whole stream. */
  function EventsOf(stream: Bytes, limit: nat): seq<FrameEvent> {
    LineEvents(Complete(stream, NEWLINE), limit) + [EndEvent(stream)]
  }

  function EndEvent(stream: Bytes): FrameEvent {
    if Partial(stream, NEWLINE) == [] then Eof else PartialEof
  }

  class FrameReader {
    const reader: Buffered
    const limit: nat
    var retained: Bytes
    var discarding: bool
    ghost var consumed: Bytes
    ghost var emitted: seq<FrameEvent>

    /** The events so far are those of the lines consumed so far, and what is retained is the current line
        or, once that is too long, nothing. */
    ghost predicate Tracks()
      reads this
    {
      && emitted == LineEvents(Complete(consumed, NEWLINE), limit)
      && |retained| <= limit
      && (if discarding then retained == [] && |Partial(consumed, NEWLINE)| > limit
          else retained == Partial(consumed, NEWLINE))
    }

    ghost predicate Valid()
      reads this, reader
    {
      reader.Valid() && Tracks()
    }

    ghost function Stream(): Bytes
      reads this, reader
    {
      consumed + Flat(reader.chunks)
    }

    constructor (reader: Buffered, limit: nat)
      requires reader.Valid()
      ensures Valid() && this.reader == reader && this.limit == limit && emitted == [] && consumed == []
    {
      this.reader, this.limit := reader, limit;
      retained, discarding, consumed, emitted := [], false, [], [];
    }

    /** The next event of the stream. Abandoning the wait, or an error, loses nothing: the bytes taken so
        far stay accounted for and the next call goes on from there. */
    method NextFrame(polls: seq<Poll>) returns (r: Outcome)
      requires Valid()
      modifies this, reader
      ensures Valid()
      ensures r.Interrupted? ==> emitted == old(emitted) && Stream() == old(Stream())
      ensures r.Event? && (r.event.Frame? || r.event.Oversized?) ==>
                emitted == old(emitted) + [r.event] && Stream() == old(Stream())
      ensures r.Event? && (r.event.Eof? || r.event.PartialEof?) ==>
                && old(emitted) + [r.event] == EventsOf(old(Stream()), limit)
                && reader.chunks == [] && consumed == []
      ensures r.Interrupted? && (forall i :: 0 <= i < |polls| ==> polls[i].Ready?) ==>
                |Flat(reader.chunks)| + |polls| <= |Flat(old(reader.chunks))|
    {
      hide Complete, Partial, LineEvents, Position;
      var n := 0;
      while n < |polls|
        invariant 0 <= n <= |polls|
        invariant Valid() && Stream() == old(Stream()) && emitted == old(emitted)
        invariant |Flat(reader.chunks)| + n <= |Flat(old(reader.chunks))|
      {
        if !polls[n].Ready? {
          return Interrupted(polls[n]);
        }
        n := n + 1;
        var available := reader.FillBuf();
        if available == [] {
          var partial := discarding || retained != [];
          assert Stream() == consumed;
          assert partial == (Partial(consumed, NEWLINE) != []);
          discarding := false;
          retained := [];
          consumed, emitted := [], [];
          NothingYet(limit);
          return Event(if partial then PartialEof else Eof);
        }
        var newline := Position(available);
        var inspected := if newline.Some? then newline.value + 1 else |available|;
        var event := Absorb(available, newline);
        reader.Consume(inspected);
        if event.Some? {
          return Event(event.value);
        }
      }
      r := Interrupted(Dropped);
    }

    /** A buffer is taken up to its first newline, or whole. */
    method Absorb(available: Bytes, newline: Option<nat>) returns (event: Option<FrameEvent>)
      requires Tracks() && newline == Position(available)
      modifies this`retained, this`discarding, this`consumed, this`emitted
      ensures Tracks()
      ensures consumed == old(consumed) + available[..if newline.Some? then newline.value + 1 else |available|]
      ensures event.Some? <==> newline.Some?
      ensures emitted == old(emitted) + (if event.Some? then [event.value] else [])
      ensures event.Some? ==> event.value.Frame? || event.value.Oversized?
    {
      LineTaken(consumed, available, newline, limit);
      consumed := consumed + available[..if newline.Some? then newline.value + 1 else |available|];
      event := None;
      if discarding {
        if newline.Some? {
          discarding := false;
          retained := [];
          event := Some(Oversized);
        }
      } else {
        var payload := if newline.Some? then newline.value else |available|;
        var remaining := limit - |retained|;
        if payload <= remaining {
          retained := retained + available[..payload];
          if newline.Some? {
            event := Some(Frame(retained));
            retained := [];
          }
        } else {
          retained := retained + available[..remaining];
          assert |retained| <= limit;
          retained := [];
          if newline.Some? {
            event := Some(Oversized);
          } else {
            discarding := true;
          }
        }
      }
      if event.Some? {
        emitted := emitted + [event.value];
      }
    }
  }

  /** Taking a buffer up to and including its first newline ends one line, or lengthens the current one. */
  lemma {:induction false} LineTaken(consumed: Bytes, available: Bytes, newline: Option<nat>, limit: nat)
    requires newline == Position(available)
    ensures newline.Some? ==>
              var line := Partial(consumed, NEWLINE) + available[..newline.value];
              var after := consumed + available[..newline.value + 1];
              && LineEvents(Complete(after, NEWLINE), limit)
                 == LineEvents(Complete(consumed, NEWLINE), limit) + [LineEvent(line, limit)]
              && Partial(after, NEWLINE) == []
    ensures newline.None? ==>
              && Complete(consumed + available[..|available|], NEWLINE) == Complete(consumed, NEWLINE)
              && Partial(consumed + available[..|available|], NEWLINE) == Partial(consumed, NEWLINE) + available
  {
    if newline.Some? {
      var k := newline.value;
      AppendPiece(consumed, NEWLINE, available[..k]);
      assert available[..k + 1] == available[..k] + [NEWLINE];
      assert consumed + available[..k + 1] == consumed + available[..k] + [NEWLINE];
    } else {
      assert available[..|available|] == available;
      AppendSegment(consumed, NEWLINE, available);
    }
  }

  lemma {:induction false} NothingYet(limit: nat)
    ensures LineEvents(Complete([], NEWLINE), limit) == [] && Partial([], NEWLINE) == []
  {
  }

  /** Events emitted early are the first events of the whole stream, however it was cut into buffers. */
  lemma {:induction false} EarlyEventsArePrefix(consumed: Bytes, rest: Bytes, limit: nat)
    ensures LineEvents(Complete(consumed, NEWLINE), limit) <= EventsOf(consumed + rest, limit)
  {
    CompleteGrows(consumed, NEWLINE, rest);
  }

  /** Framing separates: lines that are each ended by a newline come back as they are, except that a line
      past the limit comes back as oversized, and bytes after the last newline make the end a partial one. */
  lemma {:induction false} LinesComeBack(lines: seq<Bytes>, tail: Bytes, limit: nat)
    requires NEWLINE !in tail && forall line :: line in lines ==> NEWLINE !in line
    ensures EventsOf(Joined(lines, NEWLINE) + tail, limit)
         == seq(|lines|, i requires 0 <= i < |lines| => if |lines[i]| <= limit then Frame(lines[i]) else Oversized)
            + [if tail == [] then Eof else PartialEof]
  {
    SplitJoined(lines, NEWLINE);
    AppendSegment(Joined(lines, NEWLINE), NEWLINE, tail);
  }
}
