/** A batch request as the remote end reads it: the words the login shell makes of the command, the orders
    the batch script makes of its words, and the contents it takes from its input. */
module EditRequest {
  import opened Common
  import opened Numerals
  import opened EditWire
  import Quote

  const D: byte := 68
  const M: byte := 77
  const P: byte := 80
  const R: byte := 82
  /** `exec`, `sh` and `-c`. */
  const LAUNCH: seq<Bytes> := [[101, 120, 101, 99], [115, 104], [45, 99]]
  /** `codex-ssh-bridge-op`, the name the script is run under. */
  const NAME: Bytes := [99, 111, 100, 101, 120, 45, 115, 115, 104, 45, 98, 114, 105, 100, 103, 101, 45, 111, 112]

  // ----- what the script makes of its words -----

  datatype Expected = Nothing | File(sha256: Bytes)

  datatype Action = Remove | Write(size: nat, sha256: Bytes, mode: nat)

  /** What eight words ask for: which file must be there, and what is to become of it. */
  datatype Order = Order(target: Bytes, expected: Expected, action: Action)

  predicate IsHex(hash: Bytes) {
    forall i :: 0 <= i < |hash| ==> IsDigit(hash[i]) || 97 <= hash[i] <= 102
  }

  predicate IsOctal(text: Bytes) {
    forall i :: 0 <= i < |text| ==> ZERO <= text[i] < ZERO + 8
  }

  function OctalValue(text: Bytes): nat
    requires IsOctal(text)
  {
    if text == [] then 0 else 8 * OctalValue(text[..|text| - 1]) + (text[|text| - 1] - ZERO) as nat
  }

  /** One round of the script's loop over its words: `None` where it exits with status 2. */
  function ReadOrder(words: seq<Bytes>): Option<Order>
    requires |words| == 8
  {
    var parent, basename, baseKind, baseHash := words[0], words[1], words[2], words[3];
    var kind, size, hash, mode := words[4], words[5], words[6], words[7];
    if basename == [] || basename == [DOT] || basename == [DOT, DOT] || SLASH in basename then None
    else if size == [] || !AllDigits(size) then None
    else if baseKind != [M] && baseKind != [R] then None
    else
      var target := parent + [SLASH] + basename;
      var expected := if baseKind == [M] then Nothing else File(baseHash);
      if kind == [D] then Some(Order(target, expected, Remove))
      else if kind == [P] && |hash| == 64 && IsHex(hash) && mode != [] && IsOctal(mode) then
        Some(Order(target, expected, Write(Value(size), hash, OctalValue(mode))))
      else None
  }

  /** The whole loop: eight words at a time, and at least eight. */
  function ReadOrders(words: seq<Bytes>): Option<seq<Order>> {
    if |words| < 8 then None
    else
      var first := ReadOrder(words[..8]);
      var rest := if |words| == 8 then Some([]) else ReadOrders(words[8..]);
      if first.None? || rest.None? then None else Some([first.value] + rest.value)
  }

  /** What each order stages from the script's input: the next `size` bytes. `None` if the input runs out. */
  function Staged(orders: seq<Order>, input: Bytes): Option<seq<Option<Bytes>>> {
    if orders == [] then Some([])
    else if orders[0].action.Remove? then
      var rest := Staged(orders[1..], input);
      if rest.None? then None else Some([None] + rest.value)
    else
      var size := orders[0].action.size;
      if |input| < size then None
      else
        var rest := Staged(orders[1..], input[size..]);
        if rest.None? then None else Some([Some(input[..size])] + rest.value)
  }

  // ----- what the batch means -----

  /** The same file: a file directly under the root is written with two slashes. */
  predicate SamePath(target: Bytes, path: Bytes) {
    target == if path != [] && path[0] == SLASH && SLASH !in path[1..] then [SLASH] + path else path
  }

  /** An order asks for exactly what an item wants: the path, the version that must be there, the kind of
      the desired state, its size and digest, and the mode of the file it replaces or 0600 for a new one. */
  predicate AsksFor(order: Order, item: WireItem) {
    && SamePath(order.target, item.path)
    && order.expected == (match item.base
                          case Missing => Nothing
                          case Regular(sha256, _) => File(sha256))
    && match item.desired
       case Deleted => order.action == Remove
       case Present(bytes) =>
         && item.sha256.Some?
         && order.action == Write(|bytes|, item.sha256.value, if item.base.Regular? then item.base.mode else 384)
  }

  /** The path names something in a directory. */
  ghost predicate NamesFile(path: Bytes) {
    exists parent, name ::
      path == Joined(parent, name) && SLASH !in name && name != [] && name != [DOT] && name != [DOT, DOT]
  }

  function Joined(parent: Bytes, name: Bytes): Bytes {
    parent + [SLASH] + name
  }

  function ContentsOf(item: WireItem): Option<Bytes> {
    if item.desired.Present? then Some(item.desired.bytes) else None
  }

  function AllContents(items: seq<WireItem>): (r: seq<Option<Bytes>>)
    ensures |r| == |items| && forall i :: 0 <= i < |r| ==> r[i] == ContentsOf(items[i])
  {
    if items == [] then [] else [ContentsOf(items[0])] + AllContents(items[1..])
  }

  /** The input of a request: the contents of its items, one after the other. */
  function Payload(items: seq<WireItem>): Bytes {
    if items == [] then []
    else
      Payload(items[..|items| - 1])
      + match items[|items| - 1].desired
        case Present(bytes) => bytes
        case Deleted => []
  }

  method PrepareBatch(items: seq<WireItem>) returns (args: Option<seq<Bytes>>, stdin: Bytes)
    ensures args == BatchArguments(items, true)
    ensures stdin == if args.Some? then Payload(items) else []
  {
    var stdinBytes;
    args, stdinBytes := PrepareArguments(items, true);
    stdin := [];
    if args.None? {
      return;
    }
    for i := 0 to |items|
      invariant stdin == Payload(items[..i])
    {
      assert items[..i + 1][..i] == items[..i];
      if items[i].desired.Present? {
        stdin := stdin + items[i].desired.bytes;
      }
    }
    assert items[..|items|] == items;
  }

  // ----- the script reads back the batch -----

  lemma {:induction false} OctalReadsBack(n: nat)
    ensures IsOctal(Numeral(n, 8)) && OctalValue(Numeral(n, 8)) == n
  {
    if n >= 8 {
      OctalReadsBack(n / 8);
      assert Numeral(n, 8)[..|Numeral(n, 8)| - 1] == Numeral(n / 8, 8);
    }
  }

  lemma {:induction false} SplitNames(path: Bytes)
    ensures SplitParent(path).Some? <==> NamesFile(path)
    ensures match SplitParent(path)
            case None => true
            case Some((parent, name)) =>
              && SamePath(Joined(parent, name), path)
              && SLASH !in name && name != [] && name != [DOT] && name != [DOT, DOT]
  {
    var slash := LastSlash(path);
    if slash.Some? {
      var parent, name := path[..slash.value], path[slash.value + 1..];
      assert path == Joined(parent, name);
      if parent != [] {
        assert SLASH in path[1..] by { assert path[1..][slash.value - 1] == SLASH; }
      } else {
        assert path[1..] == name;
        assert Joined([SLASH], name) == [SLASH] + path;
      }
      forall other, last | path == Joined(other, last) && SLASH !in last ensures last == name {
        assert last == path[|other| + 1..] && path[|other|] == SLASH;
      }
    } else {
      forall other, last ensures path != Joined(other, last) {
        assert Joined(other, last)[|other|] == SLASH;
      }
    }
  }

  lemma {:induction false} ReadWords(words: seq<Bytes>, expected: Expected, action: Action)
    requires |words| == 8 && SLASH !in words[1] && words[1] != [] && words[1] != [DOT] && words[1] != [DOT, DOT]
    requires match expected
             case Nothing => words[2] == [M]
             case File(sha256) => words[2] == [R] && words[3] == sha256
    requires words[5] != [] && AllDigits(words[5])
    requires match action
             case Remove => words[4] == [D]
             case Write(size, sha256, mode) =>
               && words[4] == [P] && Value(words[5]) == size
               && words[6] == sha256 && |sha256| == 64 && IsHex(sha256)
               && words[7] != [] && IsOctal(words[7]) && OctalValue(words[7]) == mode
    ensures ReadOrder(words) == Some(Order(Joined(words[0], words[1]), expected, action))
  {
    hide Value, OctalValue, AllDigits, IsOctal, IsHex;
  }

  /** The arguments of one item exist exactly when its path names something in a directory, and the script
      reads them as an order for that item. */
  lemma {:induction false} OrderReadsBack(item: WireItem)
    requires HashOk(item)
    ensures ItemArguments(item, true).Some? <==> NamesFile(item.path)
    ensures ItemArguments(item, true).Some? ==>
              && ReadOrder(ItemArguments(item, true).value).Some?
              && AsksFor(ReadOrder(ItemArguments(item, true).value).value, item)
  {
    SplitNames(item.path);
    ItemArgumentsIff(item);
    if ItemArguments(item, true).Some? {
      HashIsHex(item);
      ItemWords(item);
      hide NamesFile, SamePath, Numeral, Decimal, Value, OctalValue, AllDigits, IsOctal, IsHex, HashOk, Joined,
           ItemArguments, SplitParent, ReadOrder;
      var words := ItemArguments(item, true).value;
      ValueOfDecimal(if item.desired.Present? then |item.desired.bytes| else 0);
      OctalReadsBack(ItemMode(item));
      var expected := if item.base.Missing? then Nothing else File(item.base.sha256);
      var action := if item.desired.Deleted? then Remove
                    else Write(|item.desired.bytes|, item.sha256.value, ItemMode(item));
      ReadWords(words, expected, action);
    }
  }

  lemma {:induction false} ItemWords(item: WireItem)
    requires ItemArguments(item, true).Some?
    ensures SplitParent(item.path).Some? && (item.desired.Present? ==> item.sha256.Some?)
    ensures var words := ItemArguments(item, true).value;
            && |words| == 8 && (words[0], words[1]) == SplitParent(item.path).value
            && words[2] == (if item.base.Missing? then [M] else [R])
            && (item.base.Regular? ==> words[3] == item.base.sha256)
            && words[4] == (if item.desired.Present? then [P] else [D])
            && words[5] == Decimal(if item.desired.Present? then |item.desired.bytes| else 0)
            && (item.desired.Present? ==> words[6] == item.sha256.value && words[7] == Numeral(ItemMode(item), 8))
  {
    hide SplitParent, Numeral, Decimal;
  }

  lemma {:induction false} ItemArgumentsIff(item: WireItem)
    requires HashOk(item)
    ensures ItemArguments(item, true).Some? <==> SplitParent(item.path).Some?
  {
    hide SplitParent, Numeral, Decimal;
  }

  lemma {:induction false} HashIsHex(item: WireItem)
    requires HashOk(item)
    ensures item.desired.Present? ==>
              item.sha256.Some? && |item.sha256.value| == 64 && IsHex(item.sha256.value)
  {
  }

  lemma {:induction false} OneOrder(words: seq<Bytes>)
    requires |words| == 8
    ensures ReadOrders(words) == if ReadOrder(words).None? then None else Some([ReadOrder(words).value])
  {
    hide ReadOrder;
    assert words[..8] == words;
    if ReadOrder(words).Some? {
      assert [ReadOrder(words).value] + [] == [ReadOrder(words).value];
    }
  }

  lemma {:induction false} OrdersAppend(left: seq<Bytes>, right: seq<Bytes>)
    requires |right| == 8 && ReadOrders(left).Some?
    ensures ReadOrder(right).Some? ==>
              ReadOrders(left + right) == Some(ReadOrders(left).value + [ReadOrder(right).value])
    decreases |left|
  {
    hide ReadOrder;
    OneOrder(right);
    assert (left + right)[..8] == left[..8] && (left + right)[8..] == left[8..] + right;
    if |left| == 8 {
      OneOrder(left);
      assert left[8..] == [] && left[..8] == left && left[8..] + right == right;
    } else if ReadOrder(right).Some? {
      OrdersAppend(left[8..], right);
      var first, rest := ReadOrder(left[..8]).value, ReadOrders(left[8..]).value;
      assert [first] + rest + [ReadOrder(right).value] == [first] + (rest + [ReadOrder(right).value]);
    }
  }

  /** The script, reading the arguments of a batch eight at a time, gets back every item in order. Arguments
      exist exactly when every path names something in a directory. */
  lemma {:induction false} ScriptReadsBatch(items: seq<WireItem>)
    requires forall i :: 0 <= i < |items| ==> HashOk(items[i])
    ensures BatchArguments(items, true).Some? <==> forall i :: 0 <= i < |items| ==> NamesFile(items[i].path)
    ensures BatchArguments(items, true).Some? && items != [] ==>
              var orders := ReadOrders(BatchArguments(items, true).value);
              orders.Some? && AskForAll(orders.value, items)
    ensures BatchArguments(items, true).Some? && items == [] ==> BatchArguments(items, true).value == []
  {
    hide ReadOrder, ItemArguments, AsksFor, NamesFile, HashOk;
    if items != [] {
      var most, last := items[..|items| - 1], items[|items| - 1];
      ScriptReadsBatch(most);
      OrderReadsBack(last);
      assert forall i :: 0 <= i < |most| ==> items[i] == most[i];
      if BatchArguments(items, true).Some? {
        EightWords(last);
        OneOrder(ItemArguments(last, true).value);
        if most == [] {
          assert [] + ItemArguments(last, true).value == ItemArguments(last, true).value;
        } else {
          OrdersAppend(BatchArguments(most, true).value, ItemArguments(last, true).value);
        }
      }
    }
  }

  lemma {:induction false} EightWords(item: WireItem)
    ensures ItemArguments(item, true).Some? ==> |ItemArguments(item, true).value| == 8
  {
  }

  // ----- and its input -----

  lemma {:induction false} PayloadPrefix(items: seq<WireItem>, more: seq<WireItem>)
    ensures Payload(items + more) == Payload(items) + Payload(more)
  {
    if more == [] {
      assert items + more == items;
    } else {
      var n := |more| - 1;
      assert (items + more)[..|items + more| - 1] == items + more[..n];
      PayloadPrefix(items, more[..n]);
    }
  }

  lemma {:induction false} PayloadLength(items: seq<WireItem>)
    ensures |Payload(items)| == StdinBytes(items)
  {
    if items != [] {
      PayloadLength(items[..|items| - 1]);
    }
  }

  lemma {:induction false} StageOne(order: Order, rest: seq<Order>, item: WireItem, more: Bytes)
    requires AsksFor(order, item) && Staged(rest, more).Some?
    ensures Staged([order] + rest, Payload([item]) + more) == Some([ContentsOf(item)] + Staged(rest, more).value)
  {
    hide SamePath;
    var orders, input := [order] + rest, Payload([item]) + more;
    assert orders[1..] == rest;
    match item.desired {
      case Deleted =>
        assert Payload([item]) == [] && input == more;
      case Present(bytes) =>
        assert Payload([item]) == bytes && input[..|bytes|] == bytes && input[|bytes|..] == more;
    }
  }

  /** One order for every item, in order. */
  predicate AskForAll(orders: seq<Order>, items: seq<WireItem>) {
    |orders| == |items| && forall i :: 0 <= i < |items| ==> AsksFor(orders[i], items[i])
  }

  lemma {:induction false} AskForRest(orders: seq<Order>, items: seq<WireItem>)
    requires AskForAll(orders, items) && items != []
    ensures orders != [] && AsksFor(orders[0], items[0]) && AskForAll(orders[1..], items[1..])
  {
    hide AsksFor;
  }

  /** Staging from the input of a request gives every item its own contents. */
  lemma {:induction false} ContentsReadBack(orders: seq<Order>, items: seq<WireItem>)
    requires AskForAll(orders, items)
    ensures Staged(orders, Payload(items)) == Some(AllContents(items))
  {
    hide AsksFor, ContentsOf;
    if items != [] {
      AskForRest(orders, items);
      hide AskForAll, Payload, Staged;
      assert AllContents(items) == [ContentsOf(items[0])] + AllContents(items[1..]);
      hide AllContents;
      var orders', items' := orders[1..], items[1..];
      ContentsReadBack(orders', items');
      PayloadPrefix([items[0]], items');
      assert [items[0]] + items' == items && [orders[0]] + orders' == orders;
      StageOne(orders[0], orders', items[0], Payload(items'));
    }
  }

  // ----- the command on the wire -----

  lemma {:induction false} PrefixReads()
    ensures Quote.Run(Quote.START, PREFIX) == Quote.Lexer(LAUNCH, None, Quote.Unquoted)
  {
    hide Quote.Run;
    var a, b, c := LAUNCH[0], LAUNCH[1], LAUNCH[2];
    var l1 := PlainWord([], a);
    var l2 := PlainWord([a], b);
    var l3 := PlainWord([a, b], c);
    var s := [Quote.SPACE];
    assert PREFIX == (a + s) + ((b + s) + (c + s));
    Quote.RunAppend(Quote.START, a + s, (b + s) + (c + s));
    Quote.RunAppend(l1, b + s, c + s);
    assert [a, b] + [c] == LAUNCH && [a] + [b] == [a, b] && [] + [a] == [a];
  }

  /** A lower-case letter or a hyphen. */
  predicate IsLetter(b: byte) {
    97 <= b <= 122 || b == 45
  }

  lemma {:induction false} ReadLetter(words: seq<Bytes>, current: Option<Bytes>, b: byte)
    requires IsLetter(b)
    ensures Quote.Read(Quote.Lexer(words, current, Quote.Unquoted), b)
         == Quote.Lexer(words, Some((if current.Some? then current.value else []) + [b]), Quote.Unquoted)
  {
  }

  /** A word of plain characters and a blank. */
  lemma {:induction false} PlainWord(words: seq<Bytes>, word: Bytes) returns (after: Quote.Lexer)
    requires word != [] && forall i :: 0 <= i < |word| ==> IsLetter(word[i])
    ensures after == Quote.Lexer(words + [word], None, Quote.Unquoted)
    ensures Quote.Run(Quote.Lexer(words, None, Quote.Unquoted), word + [Quote.SPACE]) == after
  {
    after := Quote.Lexer(words + [word], None, Quote.Unquoted);
    Quote.RunAppend(Quote.Lexer(words, None, Quote.Unquoted), word, [Quote.SPACE]);
    PlainReads(words, None, word);
    assert [] + word == word;
    Quote.ReadSpace(Quote.Lexer(words, Some(word), Quote.Unquoted));
  }

  lemma {:induction false} PlainReads(words: seq<Bytes>, current: Option<Bytes>, word: Bytes)
    requires word != [] && forall i :: 0 <= i < |word| ==> IsLetter(word[i])
    ensures Quote.Run(Quote.Lexer(words, current, Quote.Unquoted), word)
         == Quote.Lexer(words, Some((if current.Some? then current.value else []) + word), Quote.Unquoted)
    decreases |word|
  {
    var before := if current.Some? then current.value else [];
    var next := Quote.Read(Quote.Lexer(words, current, Quote.Unquoted), word[0]);
    ReadLetter(words, current, word[0]);
    hide Quote.Read;
    if |word| == 1 {
      assert Quote.Run(next, word[1..]) == next && word == [word[0]];
    } else {
      PlainReads(words, next.current, word[1..]);
      assert before + [word[0]] + word[1..] == before + word;
    }
  }

  /** The login shell reads the rendered command as a launch of the script under its own name with the
      arguments as its words. */
  lemma {:induction false} RenderedReadsBack(script: Bytes, args: seq<Bytes>)
    requires Quote.NUL !in script && Quote.NulFree(args)
    ensures Quote.Words(Quote.Run(Quote.START, Rendered(script, args))) == Some(LAUNCH + [script, NAME] + args)
  {
    hide Quote.Quoted, Quote.Run, Quote.NulFree;
    var head := PREFIX + Quote.Quoted(script);
    PrefixReads();
    Quote.RunAppend(Quote.START, PREFIX, Quote.Quoted(script));
    Quote.ReadQuoted(LAUNCH, script);
    Quote.RunAppend(Quote.START, head, ARG0);
    var after := Quote.Lexer(LAUNCH, Some(script), Quote.Unquoted);
    NameReads(after);
    Quote.RunAppend(Quote.START, head + ARG0, Quote.Arguments(args));
    Quote.ReadArguments(Quote.Lexer(LAUNCH + [script], Some(NAME), Quote.Unquoted), args);
    assert LAUNCH + [script] + [NAME] == LAUNCH + [script, NAME];
  }

  lemma {:induction false} NameReads(lexer: Quote.Lexer)
    requires lexer.Lexer? && lexer.current.Some? && lexer.mode.Unquoted?
    ensures Quote.Run(lexer, ARG0)
         == Quote.Lexer(lexer.words + [lexer.current.value], Some(NAME), Quote.Unquoted)
  {
    hide Quote.Run;
    assert ARG0 == [Quote.SPACE] + NAME;
    Quote.RunAppend(lexer, [Quote.SPACE], NAME);
    Quote.ReadSpace(lexer);
    PlainReads(lexer.words + [lexer.current.value], None, NAME);
    assert [] + NAME == NAME;
  }

  /** A request whose size is known is one the remote end understands as the batch: the shell runs the script
      on words from which it reads one order for every item, in order, it stages every item's contents from
      the input, and command and input together are as long as was reckoned. */
  lemma {:induction false} RequestIsTheBatch(script: Bytes, items: seq<WireItem>)
    requires items != [] && forall i :: 0 <= i < |items| ==> HashOk(items[i])
    requires Transport(script, items, true).Some?
    ensures BatchArguments(items, true).Some?
    ensures var command := Rendered(script, BatchArguments(items, true).value);
            var words := Quote.Words(Quote.Run(Quote.START, command));
            && Transport(script, items, true) == Some(|command| + |Payload(items)|)
            && words.Some? && |words.value| > 5 && words.value[..5] == LAUNCH + [script, NAME]
            && var orders := ReadOrders(words.value[5..]);
               && orders.Some? && AskForAll(orders.value, items)
               && Staged(orders.value, Payload(items))
                  == Some(AllContents(items))
  {
    hide Rendered, Quote.Run, Quote.Words, AskForAll, HashOk, ReadOrders, Staged, AllContents, BatchArguments;
    var args := BatchArguments(items, true).value;
    ScriptReadsBatch(items);
    RenderedReadsBack(script, args);
    PayloadLength(items);
    ContentsReadBack(ReadOrders(args).value, items);
    var words := LAUNCH + [script, NAME] + args;
    assert words[5..] == args && words[..5] == LAUNCH + [script, NAME];
    OrdersNeedWords(args);
  }

  lemma {:induction false} OrdersNeedWords(words: seq<Bytes>)
    ensures ReadOrders(words).Some? ==> |words| > 0
  {
  }
}
