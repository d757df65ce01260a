/** Shell quoting, and the POSIX token rules that read it back. */
module Quote {
  import opened Common

  const NUL: byte := 0
  const TAB: byte := 9
  const NEWLINE: byte := 10
  const SPACE: byte := 32
  const DOUBLE_QUOTE: byte := 34
  const DOLLAR: byte := 36
  const QUOTE: byte := 39
  const BACKSLASH: byte := 92
  const BACKQUOTE: byte := 96

  /** `'"'"'`: close the quotes, a double-quoted quote, open them again. */
  const ESCAPED_QUOTE: Bytes := [QUOTE, DOUBLE_QUOTE, QUOTE, DOUBLE_QUOTE, QUOTE]

  function Escaped(value: Bytes): Bytes {
    if value == [] then []
    else (if value[0] == QUOTE then ESCAPED_QUOTE else [value[0]]) + Escaped(value[1..])
  }

  function Quoted(value: Bytes): Bytes {
    [QUOTE] + Escaped(value) + [QUOTE]
  }

  function QuoteCount(value: Bytes): nat {
    if value == [] then 0 else (if value[0] == QUOTE then 1 else 0) + QuoteCount(value[1..])
  }

  /** The length announced before anything is written is the length written. */
  lemma {:induction false} QuotedLength(value: Bytes)
    ensures |Quoted(value)| == |value| + 2 + 4 * QuoteCount(value)
  {
    if value != [] {
      QuotedLength(value[1..]);
    }
  }

  lemma {:induction false} EscapedPlain(value: Bytes)
    requires QUOTE !in value
    ensures Escaped(value) == value && QuoteCount(value) == 0
  {
    if value != [] {
      EscapedPlain(value[1..]);
    }
  }

  lemma {:induction false} EscapedAppend(left: Bytes, right: Bytes)
    ensures Escaped(left + right) == Escaped(left) + Escaped(right)
  {
    if left == [] {
      assert left + right == right;
      assert Escaped(left) + Escaped(right) == Escaped(right);
    } else {
      EscapedAppend(left[1..], right);
      assert (left + right)[1..] == left[1..] + right && (left + right)[0] == left[0];
      var first := if left[0] == QUOTE then ESCAPED_QUOTE else [left[0]];
      assert Escaped(left) == first + Escaped(left[1..]);
      assert first + (Escaped(left[1..]) + Escaped(right)) == first + Escaped(left[1..]) + Escaped(right);
    }
  }

  datatype QuoteError = InvalidArgument

  method FindQuote(text: Bytes) returns (r: Option<nat>)
    ensures r.None? ==> QUOTE !in text
    ensures r.Some? ==> r.value < |text| && text[r.value] == QUOTE && QUOTE !in text[..r.value]
  {
    for i := 0 to |text|
      invariant QUOTE !in text[..i]
    {
      if text[i] == QUOTE {
        return Some(i);
      }
    }
    assert text[..|text|] == text;
    r := None;
  }

  /** One shell word for any NUL-free value; `None` for a value with a NUL. */
  method ShellWord(value: Bytes) returns (encoded: Option<Bytes>)
    ensures encoded == if NUL in value then None else Some(Quoted(value))
  {
    if NUL in value {
      return None;
    }
    var text := [QUOTE];
    var remaining := value;
    var index := FindQuote(remaining);
    while index.Some?
      invariant text + Escaped(remaining) == [QUOTE] + Escaped(value)
      invariant index.None? ==> QUOTE !in remaining
      invariant index.Some? ==>
        0 <= index.value < |remaining| && remaining[index.value] == QUOTE && QUOTE !in remaining[..index.value]
      decreases |remaining|
    {
      var plain, rest := remaining[..index.value], remaining[index.value + 1..];
      assert remaining == plain + [QUOTE] + rest;
      EscapedAppend(plain + [QUOTE], rest);
      EscapedAppend(plain, [QUOTE]);
      EscapedPlain(plain);
      assert Escaped([QUOTE]) == ESCAPED_QUOTE by { assert [QUOTE][1..] == []; }
      text := text + plain + ESCAPED_QUOTE;
      remaining := rest;
      index := FindQuote(remaining);
    }
    EscapedPlain(remaining);
    text := text + remaining;
    encoded := Some(text + [QUOTE]);
  }

  // ----- reading words back -----

  datatype Mode = Unquoted | SingleQuoted | DoubleQuoted

  /** The token recogniser of the POSIX Shell Command Language, sections 2.2.2 and 2.2.3, on input that
      needs nothing else: no operator, expansion, backslash or comment. */
  datatype Lexer =
    | Lexer(words: seq<Bytes>, current: Option<Bytes>, mode: Mode)
    | Unsupported

  const START := Lexer([], None, Unquoted)

  predicate IsBlank(c: byte) {
    c == SPACE || c == TAB || c == NEWLINE
  }

  /** Bytes that mean themselves outside quotes: anything but the characters of section 2.2. */
  predicate IsPlain(c: byte) {
    && c != NUL && !IsBlank(c) && c != QUOTE && c != DOUBLE_QUOTE && c != BACKSLASH
    && c !in [124, 38, 59, 60, 62, 40, 41, DOLLAR, BACKQUOTE, 42, 63, 91, 35, 126, 61, 37]
  }

  function Current(lexer: Lexer): Bytes
    requires lexer.Lexer?
  {
    if lexer.current.Some? then lexer.current.value else []
  }

  function Read(lexer: Lexer, c: byte): Lexer {
    match lexer
    case Unsupported => Unsupported
    case Lexer(words, current, mode) =>
      match mode
      case Unquoted =>
        if IsBlank(c) then
          if current.Some? then Lexer(words + [current.value], None, Unquoted) else lexer
        else if c == QUOTE then Lexer(words, Some(Current(lexer)), SingleQuoted)
        else if c == DOUBLE_QUOTE then Lexer(words, Some(Current(lexer)), DoubleQuoted)
        else if IsPlain(c) then Lexer(words, Some(Current(lexer) + [c]), Unquoted)
        else Unsupported
      case SingleQuoted =>
        if c == QUOTE then Lexer(words, current, Unquoted)
        else if c == NUL then Unsupported
        else Lexer(words, Some(Current(lexer) + [c]), SingleQuoted)
      case DoubleQuoted =>
        if c == DOUBLE_QUOTE then Lexer(words, current, Unquoted)
        else if c == NUL || c == DOLLAR || c == BACKQUOTE || c == BACKSLASH then Unsupported
        else Lexer(words, Some(Current(lexer) + [c]), DoubleQuoted)
  }

  function Run(lexer: Lexer, input: Bytes): Lexer
    decreases |input|
  {
    if input == [] then lexer else Run(Read(lexer, input[0]), input[1..])
  }

  /** The words of a finished input; `None` if a quote is left open or the input is unsupported. */
  function Words(lexer: Lexer): Option<seq<Bytes>> {
    match lexer
    case Unsupported => None
    case Lexer(words, current, mode) =>
      if mode != Unquoted then None
      else if current.Some? then Some(words + [current.value])
      else Some(words)
  }

  lemma {:induction false} RunAppend(lexer: Lexer, left: Bytes, right: Bytes)
    ensures Run(lexer, left + right) == Run(Run(lexer, left), right)
    decreases |left|
  {
    if left == [] {
      assert left + right == right;
    } else {
      RunAppend(Read(lexer, left[0]), left[1..], right);
      assert (left + right)[1..] == left[1..] + right;
    }
  }

  /** Inside single quotes the escape of a value reads as the value. */
  lemma {:induction false} ReadEscaped(words: seq<Bytes>, current: Bytes, value: Bytes)
    requires NUL !in value
    ensures Run(Lexer(words, Some(current), SingleQuoted), Escaped(value))
         == Lexer(words, Some(current + value), SingleQuoted)
    decreases |value|
  {
    var lexer := Lexer(words, Some(current), SingleQuoted);
    if value == [] {
      assert current + value == current;
    } else {
      var first := if value[0] == QUOTE then ESCAPED_QUOTE else [value[0]];
      RunAppend(lexer, first, Escaped(value[1..]));
      if value[0] == QUOTE {
        ReadEscapedQuote(words, current);
      } else {
        assert Run(lexer, first) == Read(lexer, value[0]) by { assert first[1..] == []; }
      }
      ReadEscaped(words, current + [value[0]], value[1..]);
      assert current + [value[0]] + value[1..] == current + value;
    }
  }

  lemma {:induction false} ReadEscapedQuote(words: seq<Bytes>, current: Bytes)
    ensures Run(Lexer(words, Some(current), SingleQuoted), ESCAPED_QUOTE)
         == Lexer(words, Some(current + [QUOTE]), SingleQuoted)
  {
    var e := ESCAPED_QUOTE;
    var l0 := Lexer(words, Some(current), SingleQuoted);
    var l1 := Read(l0, e[0]);
    var l2 := Read(l1, e[1]);
    var l3 := Read(l2, e[2]);
    var l4 := Read(l3, e[3]);
    assert e[1..][1..][1..][1..][1..] == [];
    assert Run(l4, e[1..][1..][1..][1..]) == Read(l4, e[4]);
    assert Run(l3, e[1..][1..][1..]) == Read(l4, e[4]);
    assert Run(l2, e[1..][1..]) == Read(l4, e[4]);
    assert Run(l1, e[1..]) == Read(l4, e[4]);
  }

  /** A quoted value reads as one word, whatever words precede it. */
  lemma {:induction false} ReadQuoted(words: seq<Bytes>, value: Bytes)
    requires NUL !in value
    ensures Run(Lexer(words, None, Unquoted), Quoted(value)) == Lexer(words, Some(value), Unquoted)
  {
    var lexer := Lexer(words, None, Unquoted);
    RunAppend(lexer, [QUOTE] + Escaped(value), [QUOTE]);
    RunAppend(lexer, [QUOTE], Escaped(value));
    assert Run(lexer, [QUOTE]) == Lexer(words, Some([]), SingleQuoted) by { assert [QUOTE][1..] == []; }
    ReadEscaped(words, [], value);
    assert [] + value == value;
    var inner := Lexer(words, Some(value), SingleQuoted);
    assert Run(inner, [QUOTE]) == Read(inner, QUOTE) by { assert [QUOTE][1..] == []; }
  }

  /** Quoted arguments, each after a space: the tail of a rendered command. */
  function Arguments(args: seq<Bytes>): Bytes {
    if args == [] then [] else [SPACE] + Quoted(args[0]) + Arguments(args[1..])
  }

  predicate NulFree(args: seq<Bytes>) {
    forall i :: 0 <= i < |args| ==> NUL !in args[i]
  }

  lemma {:induction false} ReadSpace(lexer: Lexer)
    requires Words(lexer).Some?
    ensures Run(lexer, [SPACE]) == Lexer(Words(lexer).value, None, Unquoted)
  {
    assert [SPACE][1..] == [];
  }

  /** Appending quoted arguments to any complete command appends exactly those words. */
  lemma {:induction false} ReadArguments(lexer: Lexer, args: seq<Bytes>)
    requires Words(lexer).Some? && NulFree(args)
    ensures Words(Run(lexer, Arguments(args))) == Some(Words(lexer).value + args)
    decreases |args|
  {
    if args == [] {
      assert Words(lexer).value + args == Words(lexer).value;
    } else {
      RunAppend(lexer, [SPACE] + Quoted(args[0]), Arguments(args[1..]));
      RunAppend(lexer, [SPACE], Quoted(args[0]));
      ReadSpace(lexer);
      var words := Words(lexer).value;
      ReadQuoted(words, args[0]);
      ReadArguments(Lexer(words, Some(args[0]), Unquoted), args[1..]);
      assert words + [args[0]] + args[1..] == words + args;
    }
  }

  /** Words quoted one by one and joined by single spaces, as the direct run command does. */
  function Command(args: seq<Bytes>): Bytes {
    if args == [] then [] else Quoted(args[0]) + Arguments(args[1..])
  }

  /** Quoting a NUL-free argument list and reading the command back gives the same list: no value can
      end its word, start another or be expanded. */
  lemma {:induction false} CommandReadsBack(args: seq<Bytes>)
    requires NulFree(args)
    ensures Words(Run(START, Command(args))) == Some(args)
  {
    if args != [] {
      RunAppend(START, Quoted(args[0]), Arguments(args[1..]));
      ReadQuoted([], args[0]);
      ReadArguments(Lexer([], Some(args[0]), Unquoted), args[1..]);
      assert [] + [args[0]] == [args[0]];
      assert [args[0]] + args[1..] == args;
    }
  }

  /** Different argument lists give different commands. */
  lemma {:induction false} CommandInjective(args: seq<Bytes>, others: seq<Bytes>)
    requires NulFree(args) && NulFree(others) && Command(args) == Command(others)
    ensures args == others
  {
    CommandReadsBack(args);
    CommandReadsBack(others);
  }

  /** A fixed script followed by its quoted arguments. */
  method FixedCommand(script: Bytes, args: seq<Bytes>) returns (command: Option<Bytes>)
    ensures command == if NUL in script || !NulFree(args) then None else Some(script + Arguments(args))
  {
    hide Quoted, Escaped;
    if NUL in script {
      return None;
    }
    var text := script;
    assert args[0..] == args;
    var i := 0;
    while i < |args|
      invariant 0 <= i <= |args| && NulFree(args[..i])
      invariant text + Arguments(args[i..]) == script + Arguments(args)
    {
      var word := ShellWord(args[i]);
      if word.None? {
        return None;
      }
      assert args[i..][1..] == args[i + 1..];
      assert text + Arguments(args[i..]) == text + [SPACE] + word.value + Arguments(args[i + 1..]);
      text := text + [SPACE] + word.value;
      i := i + 1;
    }
    assert args[..i] == args;
    assert text + Arguments(args[i..]) == text;
    command := Some(text);
  }
}
