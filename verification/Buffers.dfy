/** A byte stream that is delivered in arbitrary buffers. */
module Buffers {
  import opened Common

  const NEWLINE: byte := 10

  function Flat(chunks: seq<Bytes>): Bytes {
    if chunks == [] then [] else chunks[0] + Flat(chunks[1..])
  }

  function Position(available: Bytes): (r: Option<nat>)
    ensures r.None? <==> NEWLINE !in available
    ensures r.Some? ==> r.value < |available| && available[r.value] == NEWLINE && NEWLINE !in available[..r.value]
  {
    if available == [] then None
    else if available[0] == NEWLINE then Some(0)
    else match Position(available[1..])
         case None => None
         case Some(k) =>
           assert available[..k + 1] == [available[0]] + available[1..][..k];
           Some(k + 1)
  }

  /** The buffers of a stream, delivered one at a time and consumed from the front. */
  class Buffered {
    var chunks: seq<Bytes>

    ghost predicate Valid()
      reads this
    {
      forall i :: 0 <= i < |chunks| ==> chunks[i] != []
    }

    constructor (chunks: seq<Bytes>)
      requires forall i :: 0 <= i < |chunks| ==> chunks[i] != []
      ensures Valid() && this.chunks == chunks
    {
      this.chunks := chunks;
    }

    method FillBuf() returns (available: Bytes)
      ensures available == if chunks == [] then [] else chunks[0]
    {
      available := if chunks == [] then [] else chunks[0];
    }

    method Consume(count: nat)
      requires Valid() && chunks != [] && count <= |chunks[0]|
      modifies this
      ensures Valid() && Flat(old(chunks)) == old(chunks)[0][..count] + Flat(chunks)
      ensures |Flat(chunks)| == |Flat(old(chunks))| - count
    {
      ghost var before := chunks[0];
      assert before == before[..count] + before[count..];
      if count == |chunks[0]| {
        chunks := chunks[1..];
      } else {
        chunks := chunks[0 := chunks[0][count..]];
        assert chunks[1..] == old(chunks)[1..];
      }
    }
  }
}
