/** Splitting a sequence at a separator: the pieces a separator has ended, and what follows the last. */
module Splitting {

  function Complete<T(==)>(text: seq<T>, sep: T): seq<seq<T>> {
    if text == [] then []
    else if text[|text| - 1] == sep then Complete(text[..|text| - 1], sep) + [Partial(text[..|text| - 1], sep)]
    else Complete(text[..|text| - 1], sep)
  }

  function Partial<T(==)>(text: seq<T>, sep: T): seq<T> {
    if text == [] || text[|text| - 1] == sep then []
    else Partial(text[..|text| - 1], sep) + [text[|text| - 1]]
  }

  function Joined<T>(pieces: seq<seq<T>>, sep: T): seq<T> {
    if pieces == [] then [] else Joined(pieces[..|pieces| - 1], sep) + pieces[|pieces| - 1] + [sep]
  }

  /** Splitting loses nothing and leaves no separator inside a piece. */
  lemma {:induction false} SplitIsExact<T>(text: seq<T>, sep: T)
    ensures Joined(Complete(text, sep), sep) + Partial(text, sep) == text
    ensures sep !in Partial(text, sep) && forall piece :: piece in Complete(text, sep) ==> sep !in piece
  {
    if text != [] {
      var most := text[..|text| - 1];
      SplitIsExact(most, sep);
      assert text == most + [text[|text| - 1]];
      if text[|text| - 1] == sep {
        assert Complete(text, sep)[..|Complete(most, sep)|] == Complete(most, sep);
      }
    }
  }

  lemma {:induction false} AppendOne<T>(text: seq<T>, sep: T, x: T)
    ensures x != sep ==>
      Complete(text + [x], sep) == Complete(text, sep) && Partial(text + [x], sep) == Partial(text, sep) + [x]
    ensures x == sep ==>
      Complete(text + [x], sep) == Complete(text, sep) + [Partial(text, sep)] && Partial(text + [x], sep) == []
  {
    assert (text + [x])[..|text|] == text;
  }

  /** A stretch without separators only lengthens the current piece. */
  lemma {:induction false} AppendSegment<T>(text: seq<T>, sep: T, segment: seq<T>)
    requires sep !in segment
    ensures Complete(text + segment, sep) == Complete(text, sep)
    ensures Partial(text + segment, sep) == Partial(text, sep) + segment
  {
    if segment == [] {
      assert text + segment == text;
    } else {
      var n := |segment| - 1;
      AppendSegment(text, sep, segment[..n]);
      AppendOne(text + segment[..n], sep, segment[n]);
      assert text + segment == text + segment[..n] + [segment[n]];
      assert Partial(text, sep) + segment == Partial(text, sep) + segment[..n] + [segment[n]];
    }
  }

  lemma {:induction false} CompleteGrows<T>(text: seq<T>, sep: T, rest: seq<T>)
    ensures Complete(text, sep) <= Complete(text + rest, sep)
  {
    if rest == [] {
      assert text + rest == text;
    } else {
      var n := |rest| - 1;
      CompleteGrows(text, sep, rest[..n]);
      assert (text + rest)[..|text + rest| - 1] == text + rest[..n];
    }
  }

  /** A separator-free piece and a separator end exactly one piece. */
  lemma {:induction false} AppendPiece<T>(text: seq<T>, sep: T, piece: seq<T>)
    requires sep !in piece
    ensures Complete(text + piece + [sep], sep) == Complete(text, sep) + [Partial(text, sep) + piece]
    ensures Partial(text + piece + [sep], sep) == []
  {
    AppendSegment(text, sep, piece);
    AppendOne(text + piece, sep, sep);
  }

  /** Joining separator-free pieces and splitting again gives the pieces back. */
  lemma {:induction false} SplitJoined<T>(pieces: seq<seq<T>>, sep: T)
    requires forall piece :: piece in pieces ==> sep !in piece
    ensures Complete(Joined(pieces, sep), sep) == pieces && Partial(Joined(pieces, sep), sep) == []
  {
    if pieces != [] {
      var n := |pieces| - 1;
      SplitJoined(pieces[..n], sep);
      AppendPiece(Joined(pieces[..n], sep), sep, pieces[n]);
      assert Partial(Joined(pieces[..n], sep), sep) + pieces[n] == pieces[n];
      assert pieces == pieces[..n] + [pieces[n]];
    }
  }
}
