/** CXSB1 framing: a one-line header with the kind, the request id and the payload length, then the payload. */
module Frames {
  import opened Common
  import opened Buffers
  import opened Numerals
  import opened Splitting

  const MAX_HEADER_BYTES: nat := 256
  const SPACE: byte := 32
  const MAGIC: Bytes := [67, 88, 83, 66, 49] // CXSB1

  datatype FrameKind = Hello | HelloAck | Open | Data | Cancel | Close | Ready | Stdout | Stderr | Exit | Error

  datatype Frame = Frame(kind: FrameKind, requestId: nat, payload: Bytes)

  datatype FrameError =
    | TruncatedHeader | NotAscii | HeaderTooLong | Malformed | UnknownKind | BadRequestId | BadLength
    | PayloadTooLong | TruncatedPayload

  datatype Decoded = End | Got(frame: Frame, rest: Bytes) | Failed(error: FrameError)

  function AsToken(kind: FrameKind): Bytes {
    match kind
    case Hello => [72, 69, 76, 76, 79] // HELLO
    case HelloAck => [72, 69, 76, 76, 79, 95, 65, 67, 75] // HELLO_ACK
    case Open => [79, 80, 69, 78] // OPEN
    case Data => [68, 65, 84, 65] // DATA
    case Cancel => [67, 65, 78, 67, 69, 76] // CANCEL
    case Close => [67, 76, 79, 83, 69] // CLOSE
    case Ready => [82, 69, 65, 68, 89] // READY
    case Stdout => [83, 84, 68, 79, 85, 84] // STDOUT
    case Stderr => [83, 84, 68, 69, 82, 82] // STDERR
    case Exit => [69, 88, 73, 84] // EXIT
    case Error => [69, 82, 82, 79, 82] // ERROR
  }

  function FromToken(token: Bytes): Option<FrameKind> {
    if token == AsToken(Hello) then Some(Hello)
    else if token == AsToken(HelloAck) then Some(HelloAck)
    else if token == AsToken(Open) then Some(Open)
    else if token == AsToken(Data) then Some(Data)
    else if token == AsToken(Cancel) then Some(Cancel)
    else if token == AsToken(Close) then Some(Close)
    else if token == AsToken(Ready) then Some(Ready)
    else if token == AsToken(Stdout) then Some(Stdout)
    else if token == AsToken(Stderr) then Some(Stderr)
    else if token == AsToken(Exit) then Some(Exit)
    else if token == AsToken(Error) then Some(Error)
    else None
  }

  lemma {:induction false} TokensReadBack(kind: FrameKind)
    ensures FromToken(AsToken(kind)) == Some(kind)
    ensures 0 < |AsToken(kind)| <= 9 && Printable(AsToken(kind)) && SPACE !in AsToken(kind)
  {
  }

  predicate Printable(text: Bytes) {
    forall i :: 0 <= i < |text| ==> 0x20 <= text[i] < 0x7f
  }

  // ----- the header -----

  function NonEmpty(pieces: seq<Bytes>): seq<Bytes> {
    if pieces == [] then []
    else NonEmpty(pieces[..|pieces| - 1]) + (if pieces[|pieces| - 1] == [] then [] else [pieces[|pieces| - 1]])
  }

  /** The fields of a printable header: what lies between runs of spaces. */
  function Fields(header: Bytes): seq<Bytes> {
    NonEmpty(Complete(header, SPACE) + [Partial(header, SPACE)])
  }

  datatype Header = Good(kind: FrameKind, requestId: nat, length: nat) | Bad(error: FrameError)

  function ParseHeader(header: Bytes, maxPayload: nat): Header {
    var fields := Fields(header);
    if |fields| != 4 || fields[0] != MAGIC then Bad(Malformed)
    else if FromToken(fields[1]).None? then Bad(UnknownKind)
    else if ParseU64(fields[2]).None? then Bad(BadRequestId)
    else if ParseU64(fields[3]).None? then Bad(BadLength)
    else if ParseU64(fields[3]).value > maxPayload then Bad(PayloadTooLong)
    else Good(FromToken(fields[1]).value, ParseU64(fields[2]).value, ParseU64(fields[3]).value)
  }

  function HeaderLine(frame: Frame): Bytes {
    MAGIC + [SPACE] + AsToken(frame.kind) + [SPACE] + Decimal(frame.requestId) + [SPACE] + Decimal(|frame.payload|)
  }

  function Encoded(frame: Frame): Bytes {
    HeaderLine(frame) + [NEWLINE] + frame.payload
  }

  /** Ids and lengths are machine integers. */
  predicate Representable(frame: Frame) {
    frame.requestId < U64_LIMIT && |frame.payload| < U64_LIMIT
  }

  lemma {:induction false} FourFields(a: Bytes, b: Bytes, c: Bytes, d: Bytes)
    requires a != [] && b != [] && c != [] && d != []
    requires SPACE !in a && SPACE !in b && SPACE !in c && SPACE !in d
    ensures Fields(a + [SPACE] + b + [SPACE] + c + [SPACE] + d) == [a, b, c, d]
  {
    var text := a + [SPACE] + b + [SPACE] + c + [SPACE];
    AppendPiece([], SPACE, a);
    AppendPiece(a + [SPACE], SPACE, b);
    AppendPiece(a + [SPACE] + b + [SPACE], SPACE, c);
    assert [] + a + [SPACE] == a + [SPACE] && [] + a == a;
    assert [] + b == b && [] + c == c && [] + d == d;
    assert Complete(a + [SPACE], SPACE) == [a] && Partial(a + [SPACE], SPACE) == [];
    assert Complete(a + [SPACE] + b + [SPACE], SPACE) == [a, b];
    assert Complete(text, SPACE) == [a, b, c] && Partial(text, SPACE) == [];
    AppendSegment(text, SPACE, d);
    assert Complete(text + d, SPACE) + [Partial(text + d, SPACE)] == [a, b, c, d];
    assert [a, b, c, d][..3] == [a, b, c] && [a, b, c][..2] == [a, b] && [a, b][..1] == [a] && [a][..0] == [];
    assert NonEmpty([a]) == [a] && NonEmpty([a, b]) == [a, b] && NonEmpty([a, b, c]) == [a, b, c];
  }

  lemma {:induction false} DigitsAreFields(n: nat)
    ensures Printable(Decimal(n)) && SPACE !in Decimal(n)
  {
  }

  /** A header fits its bound whatever the frame is, and holds no newline. */
  lemma {:induction false} HeaderIsBounded(frame: Frame)
    requires Representable(frame)
    ensures |HeaderLine(frame)| < MAX_HEADER_BYTES && Printable(HeaderLine(frame)) && NEWLINE !in HeaderLine(frame)
  {
    hide AsToken, FromToken, Numeral;
    var id, length := Decimal(frame.requestId), Decimal(|frame.payload|);
    TokensReadBack(frame.kind);
    U64Digits(frame.requestId);
    U64Digits(|frame.payload|);
    assert Printable(MAGIC + [SPACE]);
    assert Printable(MAGIC + [SPACE] + AsToken(frame.kind));
    assert Printable(MAGIC + [SPACE] + AsToken(frame.kind) + [SPACE] + id + [SPACE]);
  }

  /** A header is read back. */
  lemma {:induction false} HeaderReadsBack(frame: Frame, maxPayload: nat)
    requires Representable(frame) && |frame.payload| <= maxPayload
    ensures ParseHeader(HeaderLine(frame), maxPayload) == Good(frame.kind, frame.requestId, |frame.payload|)
  {
    hide AsToken, FromToken, Numeral, Fields, Printable;
    TokensReadBack(frame.kind);
    DigitsAreFields(frame.requestId);
    DigitsAreFields(|frame.payload|);
    FourFields(MAGIC, AsToken(frame.kind), Decimal(frame.requestId), Decimal(|frame.payload|));
    ParseDecimal(frame.requestId);
    ParseDecimal(|frame.payload|);
  }

  // ----- a stream of frames -----

  function Line(stream: Bytes): Bytes {
    match Position(stream)
    case Some(k) => stream[..k]
    case None => stream
  }

  function FirstOf(line: Bytes): Bytes {
    if |line| <= MAX_HEADER_BYTES then line else line[..MAX_HEADER_BYTES]
  }

  /** What reading one frame comes to, whatever buffers the stream is cut into. */
  function Decode(stream: Bytes, maxPayload: nat): Decoded {
    var line := Line(stream);
    if !Printable(FirstOf(line)) then Failed(NotAscii)
    else if |line| > MAX_HEADER_BYTES then Failed(HeaderTooLong)
    else if Position(stream).None? then (if line == [] then End else Failed(TruncatedHeader))
    else DecodePayload(ParseHeader(line, maxPayload), stream[|line| + 1..])
  }

  function DecodePayload(header: Header, rest: Bytes): Decoded {
    match header
    case Bad(error) => Failed(error)
    case Good(kind, id, length) =>
      if |rest| < length then Failed(TruncatedPayload) else Got(Frame(kind, id, rest[..length]), rest[length..])
  }

  lemma {:induction false} LineEndsAt(line: Bytes, rest: Bytes)
    requires NEWLINE !in line
    ensures Position(line + [NEWLINE] + rest) == Some(|line|)
  {
    var stream := line + [NEWLINE] + rest;
    assert stream[|line|] == NEWLINE;
    var k := Position(stream).value;
    assert forall i :: 0 <= i < k ==> stream[..k][i] != NEWLINE;
    assert forall i :: 0 <= i < |line| ==> stream[i] == line[i];
  }

  lemma {:induction false} FirstPrintable(line: Bytes)
    requires Printable(line)
    ensures Printable(FirstOf(line))
  {
  }

  /** One written frame is read back, and the rest of the stream is left as it is; the payload may hold
      any bytes. */
  lemma {:induction false} FrameReadsBack(frame: Frame, rest: Bytes, maxPayload: nat)
    requires Representable(frame) && |frame.payload| <= maxPayload
    ensures Decode(Encoded(frame) + rest, maxPayload) == Got(frame, rest)
  {
    hide HeaderLine, ParseHeader, Printable;
    var line := HeaderLine(frame);
    var stream := Encoded(frame) + rest;
    hide HeaderLine, ParseHeader, Printable;
    HeaderReadsBack(frame, maxPayload);
    HeaderIsBounded(frame);
    FirstPrintable(line);
    assert stream == line + [NEWLINE] + (frame.payload + rest);
    LineEndsAt(line, frame.payload + rest);
    assert stream[..|line|] == line;
    assert stream[|line| + 1..] == frame.payload + rest;
    assert (frame.payload + rest)[..|frame.payload|] == frame.payload;
    assert (frame.payload + rest)[|frame.payload|..] == rest;
  }

  lemma {:induction false} TokenIff(token: Bytes, kind: FrameKind)
    ensures FromToken(token) == Some(kind) <==> token == AsToken(kind)
  {
    TokensReadBack(kind);
  }

  /** A header line that announces the frame: four fields between spaces, of which the numbers may be written
      with a plus sign or leading zeros. */
  predicate Announces(line: Bytes, frame: Frame, maxPayload: nat) {
    && NEWLINE !in line && Printable(line) && |line| <= MAX_HEADER_BYTES
    && |Fields(line)| == 4 && Fields(line)[0] == MAGIC && Fields(line)[1] == AsToken(frame.kind)
    && ParseU64(Fields(line)[2]) == Some(frame.requestId)
    && ParseU64(Fields(line)[3]) == Some(|frame.payload|) && |frame.payload| <= maxPayload
  }

  ghost predicate StartsWith(stream: Bytes, line: Bytes, frame: Frame, rest: Bytes) {
    stream == line + [NEWLINE] + frame.payload + rest
  }

  lemma {:induction false} AnnouncesIff(line: Bytes, frame: Frame, maxPayload: nat)
    ensures Announces(line, frame, maxPayload) <==>
              && NEWLINE !in line && Printable(line) && |line| <= MAX_HEADER_BYTES
              && ParseHeader(line, maxPayload) == Good(frame.kind, frame.requestId, |frame.payload|)
  {
    hide Printable, Fields, FromToken, AsToken, ParseU64;
    if |Fields(line)| == 4 {
      TokenIff(Fields(line)[1], frame.kind);
    }
  }

  /** A line that is whole in the stream, and short and printable. */
  predicate GoodLine(stream: Bytes, line: Bytes) {
    Position(stream) == Some(|line|) && line == Line(stream) && Printable(line) && |line| <= MAX_HEADER_BYTES
  }

  lemma {:induction false} DecodeGoodLine(stream: Bytes, maxPayload: nat)
    ensures var line := Line(stream);
            if |line| < |stream| && GoodLine(stream, line)
            then Decode(stream, maxPayload) == DecodePayload(ParseHeader(line, maxPayload), stream[|line| + 1..])
            else !Decode(stream, maxPayload).Got?
  {
    hide Printable, ParseHeader;
    LineIsBefore(stream);
    assert |Line(stream)| <= MAX_HEADER_BYTES ==> FirstOf(Line(stream)) == Line(stream);
  }

  lemma {:induction false} PayloadIff(header: Header, after: Bytes, frame: Frame, rest: Bytes)
    ensures DecodePayload(header, after) == Got(frame, rest) <==>
              header == Good(frame.kind, frame.requestId, |frame.payload|) && after == frame.payload + rest
  {
    var both := frame.payload + rest;
    assert both[..|frame.payload|] == frame.payload && both[|frame.payload|..] == rest;
    assert header.Good? && |after| >= header.length ==> after == after[..header.length] + after[header.length..];
  }

  /** A frame is got exactly from a line that announces it, its payload, and the rest. */
  lemma {:induction false} GotIff(stream: Bytes, frame: Frame, rest: Bytes, maxPayload: nat)
    ensures Decode(stream, maxPayload) == Got(frame, rest) <==>
              exists line :: Announces(line, frame, maxPayload) && StartsWith(stream, line, frame, rest)
  {
    hide Printable, ParseHeader, Announces, Decode, DecodePayload, Position;
    DecodeGoodLine(stream, maxPayload);
    var first := Line(stream);
    if |first| < |stream| {
      LineIsBefore(stream);
      AnnouncesIff(first, frame, maxPayload);
      PayloadIff(ParseHeader(first, maxPayload), stream[|first| + 1..], frame, rest);
      assert GoodLine(stream, first) ==> stream == first + [NEWLINE] + stream[|first| + 1..];
      assert first + [NEWLINE] + (frame.payload + rest) == first + [NEWLINE] + frame.payload + rest;
    }
    forall line | Announces(line, frame, maxPayload) && StartsWith(stream, line, frame, rest)
      ensures line == first && GoodLine(stream, first) && |first| < |stream|
      ensures stream[|first| + 1..] == frame.payload + rest
    {
      AnnouncesIff(line, frame, maxPayload);
      assert stream == line + [NEWLINE] + (frame.payload + rest);
      LineEndsAt(line, frame.payload + rest);
      assert stream[..|line|] == line;
    }
  }

  lemma {:induction false} LineIsBefore(stream: Bytes)
    ensures Position(stream).Some? ==>
              |Line(stream)| < |stream| && stream[|Line(stream)|] == NEWLINE && NEWLINE !in Line(stream)
  {
  }

  function EncodedAll(frames: seq<Frame>): Bytes {
    if frames == [] then [] else Encoded(frames[0]) + EncodedAll(frames[1..])
  }

  // ----- writing -----

  class Writer {
    var written: Bytes

    constructor ()
      ensures written == []
    {
      written := [];
    }
  }

  /** Only the payload bound ever refuses a frame; a refused frame writes nothing. */
  method WriteFrame(writer: Writer, frame: Frame, maxPayload: nat) returns (ok: bool)
    requires Representable(frame)
    modifies writer
    ensures ok <==> |frame.payload| <= maxPayload
    ensures writer.written == old(writer.written) + (if ok then Encoded(frame) else [])
  {
    if |frame.payload| > maxPayload {
      return false;
    }
    hide HeaderLine, Printable;
    HeaderIsBounded(frame);
    var header := HeaderLine(frame) + [NEWLINE];
    if |header| > MAX_HEADER_BYTES {
      return false;
    }
    writer.written := writer.written + header;
    writer.written := writer.written + frame.payload;
    ok := true;
    assert header + frame.payload == Encoded(frame);
  }

  // ----- reading -----

  /** What has been read of a header line, followed by more of it. */
  lemma {:induction false} LineGrows(header: Bytes, buffer: Bytes, rest: Bytes)
    requires NEWLINE !in header
    ensures Position(buffer).Some? ==>
              && Position(header + buffer + rest) == Some(|header| + Position(buffer).value)
              && Line(header + buffer + rest) == header + buffer[..Position(buffer).value]
    ensures Position(buffer).None? ==>
              && header + buffer <= Line(header + buffer + rest)
              && NEWLINE !in header + buffer
  {
    if Position(buffer).Some? {
      NewlineFound(header, buffer, rest);
    } else {
      NewlineLater(header, buffer, rest);
    }
  }

  lemma {:induction false} NewlineFound(header: Bytes, buffer: Bytes, rest: Bytes)
    requires NEWLINE !in header && Position(buffer).Some?
    ensures Position(header + buffer + rest) == Some(|header| + Position(buffer).value)
    ensures Line(header + buffer + rest) == header + buffer[..Position(buffer).value]
  {
    var k := Position(buffer).value;
    var line := header + buffer[..k];
    assert header + buffer + rest == line + [NEWLINE] + (buffer[k + 1..] + rest);
    LineEndsAt(line, buffer[k + 1..] + rest);
  }

  lemma {:induction false} NewlineLater(header: Bytes, buffer: Bytes, rest: Bytes)
    requires NEWLINE !in header && Position(buffer).None?
    ensures header + buffer <= Line(header + buffer + rest) && NEWLINE !in header + buffer
  {
    var stream := header + buffer + rest;
    if Position(stream).Some? {
      var k := Position(stream).value;
      assert forall i :: 0 <= i < |header + buffer| ==> stream[i] == (header + buffer)[i] != NEWLINE;
      assert stream[..k][..|header + buffer|] == header + buffer;
    }
  }

  /** How much of a buffer belongs to the header line. */
  function ContentOf(buffer: Bytes): (r: Bytes)
    ensures r <= buffer
  {
    if Position(buffer).Some? then buffer[..Position(buffer).value] else buffer
  }

  lemma {:induction false} EndsEarly(header: Bytes, maxPayload: nat)
    requires Clean(header)
    ensures Decode(header, maxPayload) == if header == [] then End else Failed(TruncatedHeader)
  {
  }

  lemma {:induction false} ContentIsOfLine(header: Bytes, buffer: Bytes, rest: Bytes)
    requires NEWLINE !in header
    ensures header + ContentOf(buffer) <= Line(header + buffer + rest)
  {
    LineGrows(header, buffer, rest);
  }

  lemma {:induction false} BadByteSeen(header: Bytes, buffer: Bytes, rest: Bytes, accepted: nat, maxPayload: nat)
    requires NEWLINE !in header && accepted <= |ContentOf(buffer)| && |header| + accepted <= MAX_HEADER_BYTES
    requires !Printable(buffer[..accepted])
    ensures Decode(header + buffer + rest, maxPayload) == Failed(NotAscii)
  {
    ContentIsOfLine(header, buffer, rest);
    var line := Line(header + buffer + rest);
    var i :| 0 <= i < accepted && !(0x20 <= buffer[..accepted][i] < 0x7f);
    assert (header + ContentOf(buffer))[|header| + i] == buffer[i];
    assert line[|header| + i] == buffer[i];
    assert FirstOf(line)[|header| + i] == buffer[i];
  }

  lemma {:induction false} TooLongSeen(header: Bytes, buffer: Bytes, rest: Bytes, accepted: nat, maxPayload: nat)
    requires NEWLINE !in header && Printable(header) && accepted < |ContentOf(buffer)|
    requires |header| + accepted == MAX_HEADER_BYTES && Printable(buffer[..accepted])
    ensures Decode(header + buffer + rest, maxPayload) == Failed(HeaderTooLong)
  {
    ContentIsOfLine(header, buffer, rest);
    var line := Line(header + buffer + rest);
    assert FirstOf(line) == (header + ContentOf(buffer))[..MAX_HEADER_BYTES];
    assert FirstOf(line) == header + buffer[..accepted];
  }

  /** One more buffer of a header line: what is wrong with it, or the line so far, how much of the buffer it
      takes, and whether that ends it. */
  method TakeHeader(header: Bytes, buffered: Bytes, ghost rest: Bytes, ghost stream: Bytes, maxPayload: nat)
    returns (error: Option<FrameError>, line: Bytes, taken: nat, done: bool)
    requires Clean(header) && stream == header + buffered + rest
    ensures error.Some? ==> Decode(stream, maxPayload) == Failed(error.value)
    ensures error.None? ==>
      && line == header + ContentOf(buffered) && done == Position(buffered).Some?
      && taken == |ContentOf(buffered)| + (if done then 1 else 0) <= |buffered|
      && (buffered != [] ==> taken > 0)
      && Clean(line)
      && (done ==> HeaderEnds(stream, line))
  {
    hide Decode, Printable, Line, Position, ContentOf;
    line, taken, done := header, 0, false;
    var content := ContentOf(buffered);
    var remaining := MAX_HEADER_BYTES - |header|;
    var accepted := if |content| <= remaining then |content| else remaining;
    if !Printable(buffered[..accepted]) {
      BadByteSeen(header, buffered, rest, accepted, maxPayload);
      return Some(NotAscii), line, taken, done;
    }
    if |content| > remaining {
      TooLongSeen(header, buffered, rest, accepted, maxPayload);
      return Some(HeaderTooLong), line, taken, done;
    }
    assert content == buffered[..accepted];
    HeaderGrows(header, buffered, rest);
    done := Position(buffered).Some?;
    error, line, taken := None, header + content, |content| + if done then 1 else 0;
  }

  /** Part of a header line that is fit to be one. */
  predicate Clean(header: Bytes) {
    NEWLINE !in header && Printable(header) && |header| <= MAX_HEADER_BYTES
  }

  /** The line is whole, and what its newline ends. */
  predicate HeaderEnds(stream: Bytes, line: Bytes) {
    Position(stream) == Some(|line|) && line == Line(stream)
  }

  method ReadHeader(reader: Buffered, ghost stream: Bytes, maxPayload: nat)
    returns (error: Option<FrameError>, ended: bool, header: Bytes)
    requires reader.Valid() && Flat(reader.chunks) == stream
    modifies reader
    ensures reader.Valid()
    ensures error.Some? ==> Decode(stream, maxPayload) == Failed(error.value)
    ensures error.None? && ended ==> Decode(stream, maxPayload) == End && reader.chunks == []
    ensures error.None? && !ended ==>
              && HeaderEnds(stream, header) && Clean(header)
              && |header| < |stream| && Flat(reader.chunks) == stream[|header| + 1..]
  {
    hide Decode, Clean, Flat, HeaderEnds, Leads, ContentOf, Position;
    header := [];
    NothingLeads(stream);
    while true
      invariant reader.Valid() && Leads(header, Flat(reader.chunks), stream)
      invariant Clean(header)
      decreases |Flat(reader.chunks)|
    {
      var buffered := reader.FillBuf();
      ghost var chunks := reader.chunks;
      BufferLeads(header, chunks, stream);
      if buffered == [] {
        EndsEarly(header, maxPayload);
        return if header == [] then None else Some(TruncatedHeader), header == [], header;
      }
      var problem, line, taken, done := TakeHeader(header, buffered, Flat(chunks[1..]), stream, maxPayload);
      if problem.Some? {
        return problem, false, header;
      }
      reader.Consume(taken);
      TakenLeads(header, chunks, stream, Flat(reader.chunks));
      header := line;
      if done {
        return None, false, header;
      }
    }
  }

  /** What has been read, what is left, and the stream they make. */
  predicate Leads(header: Bytes, rest: Bytes, stream: Bytes) {
    header + rest == stream
  }

  lemma {:induction false} NothingLeads(stream: Bytes)
    ensures Leads([], stream, stream) && Clean([])
  {
    assert [] + stream == stream;
  }

  lemma {:induction false} BufferLeads(header: Bytes, chunks: seq<Bytes>, stream: Bytes)
    requires Leads(header, Flat(chunks), stream)
    ensures if chunks == [] then header == stream else stream == header + chunks[0] + Flat(chunks[1..])
  {
  }

  lemma {:induction false} TakenLeads(header: Bytes, chunks: seq<Bytes>, stream: Bytes, after: Bytes)
    requires Leads(header, Flat(chunks), stream) && chunks != []
    requires var taken := |ContentOf(chunks[0])| + if Position(chunks[0]).Some? then 1 else 0;
             taken <= |chunks[0]| && Flat(chunks) == chunks[0][..taken] + after
    ensures var line := header + ContentOf(chunks[0]);
            if Position(chunks[0]).Some? then |line| < |stream| && after == stream[|line| + 1..]
            else Leads(line, after, stream)
  {
    hide ContentOf, Position;
    assert Flat(chunks) == chunks[0] + Flat(chunks[1..]);
    assert stream == header + chunks[0] + Flat(chunks[1..]);
    HeaderConsumed(header, chunks[0], Flat(chunks[1..]), after);
  }

  lemma {:induction false} HeaderGrows(header: Bytes, buffer: Bytes, rest: Bytes)
    requires NEWLINE !in header && Printable(header) && Printable(ContentOf(buffer))
    ensures NEWLINE !in header + ContentOf(buffer) && Printable(header + ContentOf(buffer))
    ensures var stream := header + buffer + rest;
            Position(buffer).Some? ==>
              && Position(stream) == Some(|header + ContentOf(buffer)|)
              && header + ContentOf(buffer) == Line(stream)
    ensures |ContentOf(buffer)| == if Position(buffer).Some? then Position(buffer).value else |buffer|
    ensures ContentOf(buffer) == buffer[..|ContentOf(buffer)|]
  {
    LineGrows(header, buffer, rest);
  }

  lemma {:induction false} HeaderConsumed(header: Bytes, buffer: Bytes, rest: Bytes, after: Bytes)
    requires var taken := |ContentOf(buffer)| + if Position(buffer).Some? then 1 else 0;
             taken <= |buffer| && buffer + rest == buffer[..taken] + after
    ensures var stream, line := header + buffer + rest, header + ContentOf(buffer);
            if Position(buffer).Some? then |line| < |stream| && after == stream[|line| + 1..]
            else line + after == stream
  {
    var taken := |ContentOf(buffer)| + if Position(buffer).Some? then 1 else 0;
    assert after == (buffer + rest)[taken..];
    assert header + buffer + rest == header + (buffer + rest);
    assert (header + (buffer + rest))[|header| + taken..] == after;
  }

  method ReadExact(reader: Buffered, length: nat) returns (r: Option<Bytes>)
    requires reader.Valid()
    modifies reader
    ensures reader.Valid()
    ensures r.Some? <==> length <= |Flat(old(reader.chunks))|
    ensures r.Some? ==>
      && r.value == Flat(old(reader.chunks))[..length]
      && Flat(reader.chunks) == Flat(old(reader.chunks))[length..]
  {
    var taken: Bytes := [];
    ghost var stream := Flat(reader.chunks);
    while |taken| < length
      invariant reader.Valid() && taken + Flat(reader.chunks) == stream && |taken| <= length
    {
      var buffered := reader.FillBuf();
      if buffered == [] {
        return None;
      }
      var count := if |buffered| <= length - |taken| then |buffered| else length - |taken|;
      taken := taken + buffered[..count];
      reader.Consume(count);
    }
    r := Some(taken);
  }

  /** Reading depends on the bytes alone, not on how they are buffered. */
  method ReadFrame(reader: Buffered, maxPayload: nat) returns (r: Decoded)
    requires reader.Valid()
    modifies reader
    ensures reader.Valid()
    ensures r == Decode(Flat(old(reader.chunks)), maxPayload)
    ensures r.Got? ==> Flat(reader.chunks) == r.rest
    ensures r.End? ==> reader.chunks == []
  {
    ghost var stream := Flat(reader.chunks);
    var error, ended, header := ReadHeader(reader, stream, maxPayload);
    if error.Some? {
      return Failed(error.value);
    }
    if ended {
      return End;
    }
    var parsed := ParseHeader(header, maxPayload);
    if parsed.Bad? {
      return Failed(parsed.error);
    }
    ghost var rest := Flat(reader.chunks);
    var payload := ReadExact(reader, parsed.length);
    if payload.None? {
      return Failed(TruncatedPayload);
    }
    r := Got(Frame(parsed.kind, parsed.requestId, payload.value), Remaining(reader));
  }

  function Remaining(reader: Buffered): Bytes
    reads reader
  {
    Flat(reader.chunks)
  }

  lemma {:induction false} NothingIsLeft(maxPayload: nat)
    ensures Decode([], maxPayload) == End
  {
  }

  /** Whatever frames were written, and however the stream is buffered, the same frames come back in order
      and then the end. */
  method ReadAll(reader: Buffered, maxPayload: nat, ghost frames: seq<Frame>) returns (read: seq<Frame>, last: Decoded)
    requires reader.Valid() && Flat(reader.chunks) == EncodedAll(frames)
    requires forall frame :: frame in frames ==> Representable(frame) && |frame.payload| <= maxPayload
    modifies reader
    ensures read == frames && last == End
  {
    hide Decode, Encoded;
    read := [];
    last := End;
    while true
      invariant reader.Valid() && |read| <= |frames| && read == frames[..|read|]
      invariant Flat(reader.chunks) == EncodedAll(frames[|read|..])
      decreases |frames| - |read|
    {
      if |read| < |frames| {
        FrameReadsBack(frames[|read|], EncodedAll(frames[|read| + 1..]), maxPayload);
        assert frames[|read|..][1..] == frames[|read| + 1..];
      } else {
        NothingIsLeft(maxPayload);
      }
      last := ReadFrame(reader, maxPayload);
      if !last.Got? {
        return;
      }
      read := read + [last.frame];
    }
  }
}
