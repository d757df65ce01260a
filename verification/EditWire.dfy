/** Committing a batch: the arguments of the batch script, its encoded size, and the split of a batch
    into requests that fit a transport frame. */
module EditWire {
  import opened Common
  import opened Numerals
  import Quote

  datatype WireBase = Missing | Regular(sha256: Bytes, mode: nat)

  datatype WireDesired = Present(bytes: Bytes) | Deleted

  /** A commit item as the transport sees it, with its digests in hexadecimal. */
  datatype WireItem = WireItem(
    path: Bytes, base: WireBase, desired: WireDesired, sha256: Option<Bytes>, generation: nat)

  const SLASH: byte := 47
  const DOT: byte := 46
  const HASH_BYTES: nat := 64
  const NEW_FILE_MODE: nat := 0x180
  /** `exec sh -c ` */
  const PREFIX: Bytes := [101, 120, 101, 99, 32, 115, 104, 32, 45, 99, 32]
  /** ` codex-ssh-bridge-op` */
  const ARG0: Bytes := [32, 99, 111, 100, 101, 120, 45, 115, 115, 104, 45, 98, 114, 105, 100, 103, 101, 45, 111, 112]

  // ----- arguments -----

  function LastSlash(path: Bytes): (r: Option<nat>)
    ensures r.Some? ==> r.value < |path| && path[r.value] == SLASH && SLASH !in path[r.value + 1..]
    ensures r.None? ==> SLASH !in path
  {
    if path == [] then None
    else if path[|path| - 1] == SLASH then Some(|path| - 1)
    else LastSlash(path[..|path| - 1])
  }

  /** The parent and the basename of a path, if it names something inside a directory. */
  function SplitParent(path: Bytes): Option<(Bytes, Bytes)> {
    var slash := LastSlash(path);
    if slash.None? then None
    else
      var parent, basename := path[..slash.value], path[slash.value + 1..];
      if basename == [] || basename == [DOT] || basename == [DOT, DOT] then None
      else Some((if parent == [] then [SLASH] else parent, basename))
  }

  function Zeros(n: nat): (r: Bytes)
    ensures |r| == n && forall i :: 0 <= i < n ==> r[i] == ZERO
  {
    seq(n, i => ZERO)
  }

  /** The hash argument: the real one, or a placeholder while only sizes matter. */
  function ContentHash(item: WireItem, hashContents: bool): Option<Bytes> {
    if item.desired.Deleted? then Some([])
    else if hashContents then item.sha256
    else Some(Zeros(HASH_BYTES))
  }

  function ItemMode(item: WireItem): nat {
    if item.base.Missing? then NEW_FILE_MODE else item.base.mode
  }

  /** The eight script arguments of one item. */
  function ItemArguments(item: WireItem, hashContents: bool): Option<seq<Bytes>> {
    var split, hash := SplitParent(item.path), ContentHash(item, hashContents);
    if split.None? || hash.None? then None
    else Some([
      split.value.0,
      split.value.1,
      if item.base.Missing? then [77] else [82],
      if item.base.Missing? then [] else item.base.sha256,
      if item.desired.Present? then [80] else [68],
      Decimal(if item.desired.Present? then |item.desired.bytes| else 0),
      hash.value,
      Numeral(if item.desired.Present? then ItemMode(item) else 0, 8)])
  }

  function BatchArguments(items: seq<WireItem>, hashContents: bool): Option<seq<Bytes>> {
    if items == [] then Some([])
    else
      var earlier := BatchArguments(items[..|items| - 1], hashContents);
      var last := ItemArguments(items[|items| - 1], hashContents);
      if earlier.None? || last.None? then None else Some(earlier.value + last.value)
  }

  function ItemBytes(item: WireItem): nat {
    if item.desired.Present? then |item.desired.bytes| else 0
  }

  function StdinBytes(items: seq<WireItem>): nat {
    if items == [] then 0 else StdinBytes(items[..|items| - 1]) + ItemBytes(items[|items| - 1])
  }

  lemma {:induction false} BatchArgumentsNone(items: seq<WireItem>, n: nat, hashContents: bool)
    requires n <= |items| && BatchArguments(items[..n], hashContents).None?
    ensures BatchArguments(items, hashContents).None?
    decreases |items|
  {
    if n < |items| {
      assert items[..|items| - 1][..n] == items[..n];
      BatchArgumentsNone(items[..|items| - 1], n, hashContents);
    } else {
      assert items[..n] == items;
    }
  }

  method PrepareArguments(items: seq<WireItem>, hashContents: bool) returns (args: Option<seq<Bytes>>, stdinBytes: nat)
    ensures args == BatchArguments(items, hashContents)
    ensures args.Some? ==> stdinBytes == StdinBytes(items)
  {
    var all: seq<Bytes> := [];
    stdinBytes := 0;
    for i := 0 to |items|
      invariant BatchArguments(items[..i], hashContents) == Some(all)
      invariant stdinBytes == StdinBytes(items[..i])
    {
      assert items[..i + 1][..i] == items[..i];
      var one := ItemArguments(items[i], hashContents);
      if one.None? {
        BatchArgumentsNone(items, i + 1, hashContents);
        return None, 0;
      }
      stdinBytes := stdinBytes + ItemBytes(items[i]);
      all := all + one.value;
    }
    assert items[..|items|] == items;
    args := Some(all);
  }

  // ----- encoded size -----

  function Rendered(script: Bytes, args: seq<Bytes>): Bytes {
    PREFIX + Quote.Quoted(script) + ARG0 + Quote.Arguments(args)
  }

  /** The bytes one request takes on the transport; `None` if it cannot be rendered at all. */
  function Transport(script: Bytes, items: seq<WireItem>, hashContents: bool): Option<nat> {
    var args := BatchArguments(items, hashContents);
    if args.None? || Quote.NUL in script || !Quote.NulFree(args.value) then None
    else Some(|Rendered(script, args.value)| + StdinBytes(items))
  }

  function Overhead(script: Bytes): nat {
    |PREFIX| + |Quote.Quoted(script)| + |ARG0|
  }

  predicate Renders(item: WireItem) {
    ItemArguments(item, false).Some? && Quote.NulFree(ItemArguments(item, false).value)
  }

  function Cost(item: WireItem): nat
    requires Renders(item)
  {
    |Quote.Arguments(ItemArguments(item, false).value)| + ItemBytes(item)
  }

  predicate AllRender(items: seq<WireItem>) {
    forall i :: 0 <= i < |items| ==> Renders(items[i])
  }

  function TotalCost(items: seq<WireItem>): nat
    requires AllRender(items)
  {
    if items == [] then 0 else TotalCost(items[..|items| - 1]) + Cost(items[|items| - 1])
  }

  lemma {:induction false} ArgumentsAppend(left: seq<Bytes>, right: seq<Bytes>)
    ensures Quote.Arguments(left + right) == Quote.Arguments(left) + Quote.Arguments(right)
    decreases |left|
  {
    if left == [] {
      assert left + right == right;
      assert Quote.Arguments(left) + Quote.Arguments(right) == Quote.Arguments(right);
    } else {
      ArgumentsAppend(left[1..], right);
      assert (left + right)[1..] == left[1..] + right;
      var head := [Quote.SPACE] + Quote.Quoted(left[0]);
      assert head + (Quote.Arguments(left[1..]) + Quote.Arguments(right))
          == head + Quote.Arguments(left[1..]) + Quote.Arguments(right);
    }
  }

  lemma {:induction false} BatchArgumentsLength(items: seq<WireItem>)
    ensures AllRender(items) <==>
      BatchArguments(items, false).Some? && Quote.NulFree(BatchArguments(items, false).value)
    ensures AllRender(items) ==>
      |Quote.Arguments(BatchArguments(items, false).value)| + StdinBytes(items) == TotalCost(items)
  {
    hide ItemArguments, ItemBytes;
    if items != [] {
      var most, last := items[..|items| - 1], items[|items| - 1];
      BatchArgumentsLength(most);
      assert AllRender(items) <==> AllRender(most) && Renders(last) by {
        assert forall i :: 0 <= i < |most| ==> items[i] == most[i];
      }
      var earlier, one := BatchArguments(most, false), ItemArguments(last, false);
      if earlier.Some? && one.Some? {
        ArgumentsAppend(earlier.value, one.value);
        NulFreeAppend(earlier.value, one.value);
      }
    }
  }

  lemma {:induction false} NulFreeAppend(left: seq<Bytes>, right: seq<Bytes>)
    ensures Quote.NulFree(left + right) <==> Quote.NulFree(left) && Quote.NulFree(right)
  {
    assert forall i :: 0 <= i < |left| ==> (left + right)[i] == left[i];
    assert forall i :: 0 <= i < |right| ==> (left + right)[|left| + i] == right[i];
  }

  /** The size of a request is a fixed overhead plus what each item costs by itself. */
  lemma {:induction false} TransportIsAdditive(script: Bytes, items: seq<WireItem>)
    requires Quote.NUL !in script
    ensures Transport(script, items, false)
         == if AllRender(items) then Some(Overhead(script) + TotalCost(items)) else None
  {
    BatchArgumentsLength(items);
  }

  predicate HashOk(item: WireItem) {
    item.desired.Present? ==>
      item.sha256.Some? && |item.sha256.value| == HASH_BYTES
      && forall i :: 0 <= i < HASH_BYTES ==> IsDigit(item.sha256.value[i]) || 97 <= item.sha256.value[i] <= 102
  }

  lemma {:induction false} QuotedHash(hash: Bytes)
    requires forall i :: 0 <= i < |hash| ==> IsDigit(hash[i]) || 97 <= hash[i] <= 102
    ensures |Quote.Quoted(hash)| == |hash| + 2 && Quote.NUL !in hash
  {
    Quote.EscapedPlain(hash);
  }

  lemma {:induction false} SameItemSize(item: WireItem)
    requires HashOk(item)
    ensures ItemArguments(item, true).Some? <==> ItemArguments(item, false).Some?
    ensures ItemArguments(item, true).Some? ==>
      var exact, sized := ItemArguments(item, true).value, ItemArguments(item, false).value;
      && |Quote.Arguments(exact)| == |Quote.Arguments(sized)|
      && (Quote.NulFree(exact) <==> Quote.NulFree(sized))
  {
    if ItemArguments(item, true).Some? && item.desired.Present? {
      var exact, sized := ItemArguments(item, true).value, ItemArguments(item, false).value;
      QuotedHash(item.sha256.value);
      QuotedHash(Zeros(HASH_BYTES));
      var head, tail := exact[..6], exact[7..];
      assert exact == head + [item.sha256.value] + tail;
      assert sized == head + [Zeros(HASH_BYTES)] + tail;
      ArgumentsAround(head, item.sha256.value, tail);
      ArgumentsAround(head, Zeros(HASH_BYTES), tail);
    }
  }

  lemma {:induction false} ArgumentsAround(head: seq<Bytes>, word: Bytes, tail: seq<Bytes>)
    ensures |Quote.Arguments(head + [word] + tail)|
         == |Quote.Arguments(head)| + 1 + |Quote.Quoted(word)| + |Quote.Arguments(tail)|
    ensures Quote.NulFree(head + [word] + tail) <==> Quote.NulFree(head) && Quote.NUL !in word && Quote.NulFree(tail)
  {
    ArgumentsAppend(head + [word], tail);
    ArgumentsAppend(head, [word]);
    assert Quote.Arguments([word]) == [Quote.SPACE] + Quote.Quoted(word) by { assert [word][1..] == []; }
    NulFreeAppend(head + [word], tail);
    NulFreeAppend(head, [word]);
    assert Quote.NulFree([word]) <==> Quote.NUL !in word by { assert [word][0] == word; }
  }

  lemma {:induction false} PlaceholderArguments(items: seq<WireItem>)
    requires forall i :: 0 <= i < |items| ==> HashOk(items[i])
    ensures BatchArguments(items, true).Some? <==> BatchArguments(items, false).Some?
    ensures BatchArguments(items, true).Some? ==>
      var exact, sized := BatchArguments(items, true).value, BatchArguments(items, false).value;
      && |Quote.Arguments(exact)| == |Quote.Arguments(sized)|
      && (Quote.NulFree(exact) <==> Quote.NulFree(sized))
  {
    if items != [] {
      var most, last := items[..|items| - 1], items[|items| - 1];
      PlaceholderArguments(most);
      SameItemSize(last);
      if BatchArguments(items, true).Some? {
        ArgumentsAppend(BatchArguments(most, true).value, ItemArguments(last, true).value);
        ArgumentsAppend(BatchArguments(most, false).value, ItemArguments(last, false).value);
        NulFreeAppend(BatchArguments(most, true).value, ItemArguments(last, true).value);
        NulFreeAppend(BatchArguments(most, false).value, ItemArguments(last, false).value);
      }
    }
  }

  /** Sizing with placeholder hashes gives the size of the real request. */
  lemma {:induction false} PlaceholderSizesAreReal(script: Bytes, items: seq<WireItem>)
    requires forall i :: 0 <= i < |items| ==> HashOk(items[i])
    ensures Transport(script, items, true) == Transport(script, items, false)
  {
    PlaceholderArguments(items);
  }

  // ----- partitions -----

  function Flatten(parts: seq<seq<WireItem>>): seq<WireItem> {
    if parts == [] then [] else Flatten(parts[..|parts| - 1]) + parts[|parts| - 1]
  }

  predicate Fits(script: Bytes, maximum: nat, items: seq<WireItem>) {
    var size := Transport(script, items, false);
    size.Some? && size.value <= maximum
  }

  /** An in-order split of `items` into nonempty requests that fit. */
  predicate Feasible(script: Bytes, maximum: nat, parts: seq<seq<WireItem>>, items: seq<WireItem>) {
    && Flatten(parts) == items
    && forall i :: 0 <= i < |parts| ==> parts[i] != [] && Fits(script, maximum, parts[i])
  }

  lemma {:induction false} CostGrows(items: seq<WireItem>, k: nat)
    requires k <= |items| && AllRender(items)
    ensures AllRender(items[..k]) && AllRender(items[k..])
    ensures TotalCost(items[..k]) <= TotalCost(items) && TotalCost(items[k..]) <= TotalCost(items)
    decreases |items|
  {
    hide Cost, Renders;
    var n := |items| - 1;
    if k == |items| {
      assert items[..k] == items && items[k..] == [];
    } else {
      CostGrows(items[..n], k);
      assert items[..n][..k] == items[..k];
      assert items[k..][..|items[k..]| - 1] == items[..n][k..];
      assert items[k..][|items[k..]| - 1] == items[n];
    }
  }

  /** Any stretch of a request that fits would fit by itself. */
  lemma {:induction false} FitsShorter(script: Bytes, maximum: nat, items: seq<WireItem>, k: nat)
    requires k <= |items| && Fits(script, maximum, items)
    ensures Fits(script, maximum, items[..k]) && Fits(script, maximum, items[k..])
  {
    TransportIsAdditive(script, items);
    CostGrows(items, k);
    TransportIsAdditive(script, items[..k]);
    TransportIsAdditive(script, items[k..]);
  }

  /** No split needs fewer requests than `count`, and one with `count` has at least `length` items in
      its last. */
  ghost predicate AtLeast(script: Bytes, maximum: nat, items: seq<WireItem>, count: nat, length: nat) {
    forall parts :: Feasible(script, maximum, parts, items) ==>
      |parts| >= count && (|parts| == count && count > 0 ==> |parts[count - 1]| >= length)
  }

  lemma {:induction false} SplitWithoutLast(
    script: Bytes, maximum: nat, items: seq<WireItem>, x: WireItem, parts: seq<seq<WireItem>>)
    returns (fewer: seq<seq<WireItem>>)
    requires Feasible(script, maximum, parts, items + [x])
    ensures parts != []
    ensures Feasible(script, maximum, fewer, items)
    ensures |parts[|parts| - 1]| == 1 ==> |fewer| == |parts| - 1
    ensures |parts[|parts| - 1]| > 1 ==> |fewer| == |parts| && |fewer[|fewer| - 1]| == |parts[|parts| - 1]| - 1
    ensures parts[|parts| - 1][|parts[|parts| - 1]| - 1] == x
  {
    hide Fits;
    assert parts != [] by { assert items + [x] != []; }
    var n := |parts| - 1;
    var last := parts[n];
    var whole := Flatten(parts[..n]) + last;
    assert whole == items + [x];
    assert last[|last| - 1] == whole[|whole| - 1] == x;
    if |last| == 1 {
      fewer := parts[..n];
      assert Flatten(fewer) == whole[..|whole| - 1] == items;
    } else {
      var shorter := last[..|last| - 1];
      fewer := parts[..n] + [shorter];
      FitsShorter(script, maximum, last, |last| - 1);
      assert fewer[..n] == parts[..n];
      assert Flatten(fewer) == whole[..|whole| - 1] == items;
    }
  }

  lemma {:induction false} GreedyExtends(
      script: Bytes, maximum: nat, items: seq<WireItem>, x: WireItem, count: nat, length: nat)
    requires AtLeast(script, maximum, items, count, length) && count > 0
    ensures AtLeast(script, maximum, items + [x], count, length + 1)
  {
    hide Fits;
    forall parts | Feasible(script, maximum, parts, items + [x])
      ensures |parts| >= count && (|parts| == count ==> |parts[count - 1]| >= length + 1)
    {
      var fewer := SplitWithoutLast(script, maximum, items, x, parts);
    }
  }

  lemma {:induction false} GreedyCuts(
    script: Bytes, maximum: nat, items: seq<WireItem>, current: seq<WireItem>, x: WireItem, count: nat)
    requires AtLeast(script, maximum, items, count, |current|) && count > 0
    requires |current| <= |items| && current == items[|items| - |current|..]
    requires !Fits(script, maximum, current + [x])
    ensures AtLeast(script, maximum, items + [x], count + 1, 1)
  {
    hide Fits;
    forall parts | Feasible(script, maximum, parts, items + [x])
      ensures |parts| >= count + 1 && (|parts| == count + 1 ==> |parts[count]| >= 1)
    {
      var fewer := SplitWithoutLast(script, maximum, items, x, parts);
      var last := parts[|parts| - 1];
      assert |parts| == count && |last| > 1 ==> |last| - 1 >= |current|;
      if |last| > |current| {
        LongLastHolds(script, maximum, items, current, x, parts);
      }
    }
  }

  /** A last request longer than the current one contains the current one and the next item. */
  lemma {:induction false} LongLastHolds(
    script: Bytes, maximum: nat, items: seq<WireItem>, current: seq<WireItem>, x: WireItem, parts: seq<seq<WireItem>>)
    requires Feasible(script, maximum, parts, items + [x]) && parts != []
    requires |current| <= |items| && current == items[|items| - |current|..]
    requires |parts[|parts| - 1]| > |current|
    ensures Fits(script, maximum, current + [x])
  {
    hide Fits;
    var last := parts[|parts| - 1];
    LastIsSuffix(parts, items + [x]);
    var k := |last| - |current| - 1;
    assert last[k..] == (items + [x])[|items| - |current|..] == current + [x];
    FitsShorter(script, maximum, last, k);
  }

  lemma {:induction false} LastIsSuffix(parts: seq<seq<WireItem>>, items: seq<WireItem>)
    requires parts != [] && Flatten(parts) == items
    ensures
      var last := parts[|parts| - 1];
      |last| <= |items| && last == items[|items| - |last|..]
  {
  }

  lemma {:induction false} FlattenAppend(parts: seq<seq<WireItem>>, part: seq<WireItem>)
    ensures Flatten(parts + [part]) == Flatten(parts) + part
  {
    assert (parts + [part])[..|parts|] == parts;
  }

  method BatchTransportBytes(script: Bytes, items: seq<WireItem>) returns (size: Option<nat>)
    ensures size == Transport(script, items, false)
  {
    var args, stdinBytes := PrepareArguments(items, false);
    if args.None? {
      return None;
    }
    var word := Quote.ShellWord(script);
    if word.None? {
      return None;
    }
    var tail := Quote.FixedCommand([], args.value);
    if tail.None? {
      return None;
    }
    assert [] + Quote.Arguments(args.value) == Quote.Arguments(args.value);
    size := Some(|PREFIX + word.value + ARG0 + tail.value| + stdinBytes);
  }

  /** Fills each request with as many items as fit. It fails exactly when some item fits in no request by
      itself; otherwise it keeps the items in order, every request is nonempty and fits, and no
      in-order split uses fewer requests. */
  method PartitionItems(script: Bytes, items: seq<WireItem>, maximum: nat) returns (r: Option<seq<seq<WireItem>>>)
    ensures r.None? <==> exists i :: 0 <= i < |items| && !Fits(script, maximum, [items[i]])
    ensures r.Some? ==> Feasible(script, maximum, r.value, items)
    ensures r.Some? ==> forall parts :: Feasible(script, maximum, parts, items) ==> |r.value| <= |parts|
  {
    hide Packed, Fits, Feasible, Transport;
    var partitions: seq<seq<WireItem>> := [];
    var current: seq<WireItem> := [];
    PackedNothing(script, maximum);
    for i := 0 to |items|
      invariant Packed(script, maximum, items[..i], partitions, current)
    {
      var item := items[i];
      PackedCurrent(script, maximum, items[..i], partitions, current);
      assert items[..i + 1] == items[..i] + [item];
      var size := BatchTransportBytes(script, current + [item]);
      SizeFits(script, maximum, current + [item], size);
      if size.None? {
        NoSizeAlone(script, maximum, current, item);
        return None;
      }
      if size.value <= maximum {
        PackedJoins(script, maximum, items[..i], partitions, current, item);
        current := current + [item];
      } else {
        if current == [] {
          assert current + [item] == [item];
          return None;
        }
        var alone := BatchTransportBytes(script, [item]);
        SizeFits(script, maximum, [item], alone);
        if alone.None? || alone.value > maximum {
          return None;
        }
        PackedCuts(script, maximum, items[..i], partitions, current, item);
        partitions := partitions + [current];
        current := [item];
      }
    }
    assert items[..|items|] == items;
    PackedEnds(script, maximum, items, partitions, current);
    r := Some(if current == [] then [] else partitions + [current]);
  }

  /** The items so far, filled greedily: full requests and one still open. */
  ghost predicate Packed(
    script: Bytes, maximum: nat, taken: seq<WireItem>, partitions: seq<seq<WireItem>>, current: seq<WireItem>)
  {
    && Flatten(partitions) + current == taken
    && (taken == [] ==> current == [] && partitions == [])
    && (taken != [] ==>
          && current != [] && Fits(script, maximum, current)
          && AtLeast(script, maximum, taken, |partitions| + 1, |current|))
    && (forall j :: 0 <= j < |partitions| ==> partitions[j] != [] && Fits(script, maximum, partitions[j]))
    && (forall j :: 0 <= j < |taken| ==> Fits(script, maximum, [taken[j]]))
  }

  lemma {:induction false} PackedNothing(script: Bytes, maximum: nat)
    ensures Packed(script, maximum, [], [], [])
  {
  }

  lemma {:induction false} PackedCurrent(
    script: Bytes, maximum: nat, taken: seq<WireItem>, partitions: seq<seq<WireItem>>, current: seq<WireItem>)
    requires Packed(script, maximum, taken, partitions, current)
    ensures current == [] || Fits(script, maximum, current)
  {
  }

  lemma {:induction false} PackedJoins(
    script: Bytes, maximum: nat, taken: seq<WireItem>, partitions: seq<seq<WireItem>>, current: seq<WireItem>,
    item: WireItem)
    requires Packed(script, maximum, taken, partitions, current) && Fits(script, maximum, current + [item])
    ensures Packed(script, maximum, taken + [item], partitions, current + [item])
  {
    hide Fits, AtLeast;
    FitsShorter(script, maximum, current + [item], |current|);
    assert (current + [item])[|current|..] == [item];
    assert Flatten(partitions) + (current + [item]) == taken + [item];
    if taken == [] {
      FirstItem(script, maximum, item);
      assert taken + [item] == [item];
    } else {
      GreedyExtends(script, maximum, taken, item, |partitions| + 1, |current|);
    }
  }

  lemma {:induction false} PackedCuts(
    script: Bytes, maximum: nat, taken: seq<WireItem>, partitions: seq<seq<WireItem>>, current: seq<WireItem>,
    item: WireItem)
    requires Packed(script, maximum, taken, partitions, current) && current != []
    requires !Fits(script, maximum, current + [item]) && Fits(script, maximum, [item])
    ensures Packed(script, maximum, taken + [item], partitions + [current], [item])
  {
    hide Fits, AtLeast;
    assert current == taken[|taken| - |current|..];
    GreedyCuts(script, maximum, taken, current, item, |partitions| + 1);
    FlattenAppend(partitions, current);
  }

  lemma {:induction false} PackedEnds(
    script: Bytes, maximum: nat, items: seq<WireItem>, partitions: seq<seq<WireItem>>, current: seq<WireItem>)
    requires Packed(script, maximum, items, partitions, current)
    ensures forall j :: 0 <= j < |items| ==> Fits(script, maximum, [items[j]])
    ensures var parts := if current == [] then [] else partitions + [current];
            && Feasible(script, maximum, parts, items)
            && forall other :: Feasible(script, maximum, other, items) ==> |parts| <= |other|
  {
    if current == [] {
      NothingToSplit(script, maximum);
    } else {
      GreedyIsBest(script, maximum, items, partitions, current);
    }
  }

  lemma {:induction false} NothingToSplit(script: Bytes, maximum: nat)
    ensures Feasible(script, maximum, [], [])
  {
  }

  lemma {:induction false} GreedyIsBest(
    script: Bytes, maximum: nat, items: seq<WireItem>, partitions: seq<seq<WireItem>>, current: seq<WireItem>)
    requires Flatten(partitions) + current == items && current != [] && Fits(script, maximum, current)
    requires forall j :: 0 <= j < |partitions| ==> partitions[j] != [] && Fits(script, maximum, partitions[j])
    requires AtLeast(script, maximum, items, |partitions| + 1, |current|)
    ensures Feasible(script, maximum, partitions + [current], items)
    ensures forall parts :: Feasible(script, maximum, parts, items) ==> |partitions + [current]| <= |parts|
  {
    hide Fits;
    FlattenAppend(partitions, current);
  }

  lemma {:induction false} SizeFits(script: Bytes, maximum: nat, items: seq<WireItem>, size: Option<nat>)
    requires size == Transport(script, items, false)
    ensures Fits(script, maximum, items) <==> size.Some? && size.value <= maximum
  {
  }

  lemma {:induction false} NulNeverFits(script: Bytes, maximum: nat, items: seq<WireItem>)
    requires Quote.NUL in script
    ensures !Fits(script, maximum, items)
  {
  }

  /** A request that fits stops rendering only because of the item added to it. */
  lemma {:induction false} NoSizeAlone(script: Bytes, maximum: nat, current: seq<WireItem>, item: WireItem)
    requires current == [] || Fits(script, maximum, current)
    requires Transport(script, current + [item], false).None?
    ensures !Fits(script, maximum, [item])
  {
    hide Transport, Renders;
    if Quote.NUL in script {
      NulNeverFits(script, maximum, [item]);
    } else {
      TransportIsAdditive(script, current);
      TransportIsAdditive(script, current + [item]);
      TransportIsAdditive(script, [item]);
      assert AllRender(current) && Renders(item) ==> AllRender(current + [item]);
      assert [item][0] == item;
    }
  }

  lemma {:induction false} FirstItem(script: Bytes, maximum: nat, item: WireItem)
    ensures AtLeast(script, maximum, [item], 1, 1)
  {
    forall parts | Feasible(script, maximum, parts, [item]) ensures |parts| >= 1 {
    }
  }

  /** Every request of a partition passes the size check made on its real encoding before it is sent. */
  lemma {:induction false} PartitionsPassFrameCheck(
      script: Bytes, maximum: nat, items: seq<WireItem>, parts: seq<seq<WireItem>>, i: nat)
    requires Feasible(script, maximum, parts, items) && i < |parts|
    requires forall j :: 0 <= j < |items| ==> HashOk(items[j])
    ensures Transport(script, parts[i], true).Some? && Transport(script, parts[i], true).value <= maximum
  {
    PartWithin(parts, i);
    forall j | 0 <= j < |parts[i]| ensures HashOk(parts[i][j]) {
      assert parts[i][j] in items;
    }
    PlaceholderSizesAreReal(script, parts[i]);
  }

  lemma {:induction false} PartWithin(parts: seq<seq<WireItem>>, i: nat)
    requires i < |parts|
    ensures forall x :: x in parts[i] ==> x in Flatten(parts)
  {
    if i < |parts| - 1 {
      PartWithin(parts[..|parts| - 1], i);
    }
  }
}
