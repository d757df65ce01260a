/** Shared vocabulary: options, bytes, and sums over finite maps. */
module Common {

  datatype Option<+T> = None | Some(value: T)

  newtype byte = b: int | 0 <= b < 256

  type Bytes = seq<byte>

  /** The most bytes of output one command or one retained result may produce. */
  const MAX_OUTPUT_BYTES: nat := 64 * 1024 * 1024

  /** The sum of the values of a finite map. */
  ghost function Sum<K(!new)>(m: map<K, nat>): nat {
    if m == map[] then 0
    else
      var k :| k in m;
      m[k] + Sum(m - {k})
  }

  /** Any key can be taken out of a sum first. */
  lemma {:induction false} SumRemove<K(!new)>(m: map<K, nat>, k: K)
    requires k in m
    ensures Sum(m) == m[k] + Sum(m - {k})
    decreases |m|
  {
    var j :| j in m && Sum(m) == m[j] + Sum(m - {j});
    if j != k {
      SumRemove(m - {j}, k);
      assert (m - {j}) - {k} == (m - {k}) - {j};
      SumRemove(m - {k}, j);
    }
  }

  /** Adding or overwriting one key changes the sum by the difference of its values. */
  lemma {:induction false} SumUpdate<K(!new)>(m: map<K, nat>, k: K, v: nat)
    ensures Sum(m[k := v]) == Sum(m) - (if k in m then m[k] else 0) + v
  {
    var u := m[k := v];
    SumRemove(u, k);
    if k in m {
      SumRemove(m, k);
      assert u - {k} == m - {k};
    } else {
      assert u - {k} == m;
    }
  }

  /** Dropping keys never increases a sum. */
  lemma {:induction false} SumSubset<K(!new)>(m: map<K, nat>, n: map<K, nat>)
    requires forall k :: k in n ==> k in m && n[k] <= m[k]
    ensures Sum(n) <= Sum(m)
    decreases |n|
  {
    if n == map[] {
    } else {
      var k :| k in n;
      SumRemove(n, k);
      SumRemove(m, k);
      SumSubset(m - {k}, n - {k});
    }
  }

  /** A sum over two disjoint parts. */
  lemma {:induction false} SumSplit<K(!new)>(m: map<K, nat>, dropped: set<K>)
    ensures Sum(m) == Sum(m - dropped) + Sum(map k | k in m && k in dropped :: m[k])
    decreases |dropped * m.Keys|
  {
    var part := map k | k in m && k in dropped :: m[k];
    if dropped * m.Keys == {} {
      assert forall k :: k in m ==> k !in dropped * m.Keys;
      assert m - dropped == m && part == map[];
    } else {
      var k :| k in dropped * m.Keys;
      var fewer := dropped - {k};
      var most := map j | j in m && j in fewer :: m[j];
      assert fewer * m.Keys == dropped * m.Keys - {k};
      SumSplit(m, fewer);
      SumRemove(m - fewer, k);
      assert (m - fewer) - {k} == m - dropped;
      SumUpdate(most, k, m[k]);
      assert most[k := m[k]] == part;
    }
  }
}
