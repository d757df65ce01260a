/** The order of a flush: items by path, as bytes, which for UTF-8 is the order of the characters. */
module EditOrder {
  import opened EditTypes

  /** Lexicographic order. */
  predicate Below(a: string, b: string) {
    a == [] || (b != [] && (a[0] < b[0] || (a[0] == b[0] && Below(a[1..], b[1..]))))
  }

  lemma {:induction false} BelowTotal(a: string, b: string)
    ensures Below(a, b) || Below(b, a)
  {
    if a != [] && b != [] && a[0] == b[0] {
      BelowTotal(a[1..], b[1..]);
    }
  }

  lemma {:induction false} BelowTransitive(a: string, b: string, c: string)
    requires Below(a, b) && Below(b, c)
    ensures Below(a, c)
  {
    if a != [] && a[0] == b[0] == c[0] {
      BelowTransitive(a[1..], b[1..], c[1..]);
    }
  }

  /** The strings first differ at `i`, and `a` has the smaller character there. */
  predicate SmallerAt(a: string, b: string, i: nat) {
    i < |a| && i < |b| && a[i] < b[i] && forall j :: 0 <= j < i ==> a[j] == b[j]
  }

  /** The first difference decides, and a path comes before its extensions. */
  lemma {:induction false} BelowIff(a: string, b: string)
    ensures Below(a, b) <==> a <= b || exists i: nat :: SmallerAt(a, b, i)
  {
    if a != [] && b != [] && a[0] == b[0] {
      BelowIff(a[1..], b[1..]);
      assert a == [a[0]] + a[1..] && b == [b[0]] + b[1..];
      assert a <= b <==> a[1..] <= b[1..];
      if i: nat :| SmallerAt(a, b, i) {
        TailSmaller(a, b, i - 1);
      }
      if i: nat :| SmallerAt(a[1..], b[1..], i) {
        TailSmaller(a, b, i);
      }
    } else if a != [] && b != [] {
      assert a[0] < b[0] ==> SmallerAt(a, b, 0);
    }
  }

  lemma {:induction false} TailSmaller(a: string, b: string, i: nat)
    requires a != [] && b != [] && a[0] == b[0]
    ensures SmallerAt(a, b, i + 1) <==> SmallerAt(a[1..], b[1..], i)
  {
    assert forall j :: 0 < j < |a| ==> a[j] == a[1..][j - 1];
    assert forall j :: 0 < j < |b| ==> b[j] == b[1..][j - 1];
    if SmallerAt(a, b, i + 1) {
      assert forall j :: 0 <= j < i ==> a[1..][j] == a[j + 1] && b[1..][j] == b[j + 1];
    }
  }

  predicate InOrder(items: seq<CommitItem>) {
    forall i, j :: 0 <= i < j < |items| ==> Below(items[i].key.path, items[j].key.path)
  }

  /** Inserts one item where it belongs. */
  method Insert(items: seq<CommitItem>, item: CommitItem) returns (r: seq<CommitItem>, ghost p: nat)
    requires InOrder(items)
    ensures InOrder(r) && p <= |items| && r == items[..p] + [item] + items[p..]
  {
    p := |items|;
    var n := |items|;
    while n > 0 && !Below(items[n - 1].key.path, item.key.path)
      invariant 0 <= n <= |items|
      invariant forall i :: n <= i < |items| ==> Below(item.key.path, items[i].key.path)
    {
      BelowTotal(items[n - 1].key.path, item.key.path);
      n := n - 1;
    }
    forall i | 0 <= i < n ensures Below(items[i].key.path, item.key.path) {
      if i < n - 1 {
        BelowTransitive(items[i].key.path, items[n - 1].key.path, item.key.path);
      }
    }
    p := n;
    r := items[..n] + [item] + items[n..];
  }

  /** Sorts the items of a flush, which keeps what they are. */
  method SortByPath(items: seq<CommitItem>) returns (r: seq<CommitItem>)
    ensures InOrder(r) && |r| == |items|
    ensures forall item :: item in r <==> item in items
    ensures DistinctItems(items) ==> DistinctItems(r)
  {
    r := [];
    for i := 0 to |items|
      invariant InOrder(r) && |r| == i
      invariant forall item :: item in r <==> item in items[..i]
      invariant DistinctItems(items) ==> DistinctItems(r)
    {
      ghost var sorted := r;
      ghost var p;
      r, p := Insert(r, items[i]);
      assert items[..i + 1] == items[..i] + [items[i]];
      assert forall item :: item in r <==> item in sorted || item == items[i] by {
        assert sorted == sorted[..p] + sorted[p..];
      }
      if DistinctItems(items) {
        StaysDistinct(sorted, items[i], p);
      }
    }
    assert items[..|items|] == items;
  }

  lemma {:induction false} StaysDistinct(items: seq<CommitItem>, item: CommitItem, p: nat)
    requires DistinctItems(items) && p <= |items|
    requires forall other :: other in items ==> other.key != item.key
    ensures DistinctItems(items[..p] + [item] + items[p..])
  {
    assert forall i :: 0 <= i < |items| ==> items[i] in items;
  }

  /** What a flush takes does not depend on the order it is listed in. */
  lemma {:induction false} TakesReordered(
    items: seq<CommitItem>, sorted: seq<CommitItem>, entries: Entries, host: string, scope: set<Key>)
    requires Takes(items, entries, host, scope) && DistinctItems(sorted)
    requires forall item :: item in sorted <==> item in items
    ensures Takes(sorted, entries, host, scope)
  {
    forall i | 0 <= i < |sorted| ensures exists j :: 0 <= j < |items| && items[j] == sorted[i] {
      assert sorted[i] in items;
    }
    forall k | HasItem(items, k) ensures HasItem(sorted, k) {
      var i :| 0 <= i < |items| && items[i].key == k;
      assert items[i] in sorted;
    }
  }
}
