/** Sums over sequences of amounts: the running-total / per-hand-difference
    pair that every script uses to move between a cumulative results series
    and per-hand results, and sums restricted to the hands of one stake. */
module Series {
  import opened Common

  /** Left-to-right sum, the order in which `reduce((t, x) => t + x, 0)`
      and the scripts' `+=` loops add. */
  function Sum(xs: seq<real>): real
    decreases |xs|
  {
    if |xs| == 0 then 0.0 else Sum(xs[..|xs| - 1]) + xs[|xs| - 1]
  }

  lemma {:induction false} SumAppend(a: seq<real>, b: seq<real>)
    ensures Sum(a + b) == Sum(a) + Sum(b)
    decreases |b|
  {
    if |b| == 0 {
      assert a + b == a;
    } else {
      var b' := b[..|b| - 1];
      assert (a + b)[..|a + b| - 1] == a + b';
      SumAppend(a, b');
    }
  }

  lemma SumSingle(x: real)
    ensures Sum([x]) == x
  {
    assert [x][..0] == [];
  }

  /** Prefix of a prefix sum: adding the next element. */
  lemma SumSnoc(xs: seq<real>, i: nat)
    requires i < |xs|
    ensures Sum(xs[..i + 1]) == Sum(xs[..i]) + xs[i]
  {
    assert xs[..i + 1][..i] == xs[..i];
  }

  lemma {:induction false} SumNonNegative(xs: seq<real>)
    requires forall i :: 0 <= i < |xs| ==> xs[i] >= 0.0
    ensures Sum(xs) >= 0.0
    decreases |xs|
  {
    if |xs| > 0 {
      SumNonNegative(xs[..|xs| - 1]);
    }
  }

  /** Over non-negative elements, longer prefixes have larger sums. */
  lemma {:induction false} SumPrefixMonotone(xs: seq<real>, i: nat, j: nat)
    requires i <= j <= |xs|
    requires forall k :: 0 <= k < |xs| ==> xs[k] >= 0.0
    ensures 0.0 <= Sum(xs[..i]) <= Sum(xs[..j])
    decreases i + j
  {
    if i < j {
      SumPrefixMonotone(xs, i, j - 1);
      SumSnoc(xs, j - 1);
    } else if i > 0 {
      SumPrefixMonotone(xs, i - 1, i);
    }
  }

  /** Element-wise sums add up. */
  lemma {:induction false} SumPlus(a: seq<real>, b: seq<real>, c: seq<real>)
    requires |a| == |b| == |c|
    requires forall i :: 0 <= i < |c| ==> c[i] == a[i] + b[i]
    ensures Sum(c) == Sum(a) + Sum(b)
    decreases |c|
  {
    if |c| > 0 {
      var n := |c| - 1;
      SumPlus(a[..n], b[..n], c[..n]);
    }
  }

  /** Per-hand results of a cumulative series: the first point is taken as
      it is, every later one as the difference to its predecessor. */
  function Deltas(xs: seq<real>): (d: seq<real>)
    ensures |d| == |xs|
  {
    seq(|xs|, i requires 0 <= i < |xs| => if i == 0 then xs[0] else xs[i] - xs[i - 1])
  }

  /** Running totals of a series of per-hand results. */
  function PrefixSums(xs: seq<real>): (p: seq<real>)
    ensures |p| == |xs|
  {
    seq(|xs|, i requires 0 <= i < |xs| => Sum(xs[..i + 1]))
  }

  /** Re-accumulating the per-hand differences gives back the cumulative
      series (the telescoping sum). */
  lemma {:induction false} SumDeltasPrefix(xs: seq<real>, i: nat)
    requires i < |xs|
    ensures Sum(Deltas(xs)[..i + 1]) == xs[i]
  {
    var d := Deltas(xs);
    if i == 0 {
      assert d[..1] == [xs[0]];
      SumSingle(xs[0]);
    } else {
      SumDeltasPrefix(xs, i - 1);
      SumSnoc(d, i);
    }
  }

  lemma PrefixSumsOfDeltas(xs: seq<real>)
    ensures PrefixSums(Deltas(xs)) == xs
  {
    forall i | 0 <= i < |xs|
      ensures PrefixSums(Deltas(xs))[i] == xs[i]
    {
      SumDeltasPrefix(xs, i);
    }
  }

  /** Taking differences of running totals gives back the per-hand results. */
  lemma DeltasOfPrefixSums(xs: seq<real>)
    ensures Deltas(PrefixSums(xs)) == xs
  {
    var p := PrefixSums(xs);
    forall i | 0 <= i < |xs|
      ensures Deltas(p)[i] == xs[i]
    {
      if i == 0 {
        assert xs[..1] == [xs[0]];
        SumSingle(xs[0]);
      } else {
        SumSnoc(xs, i);
      }
    }
  }

  /** The sum of all per-hand differences is the last cumulative value. */
  lemma SumDeltas(xs: seq<real>)
    requires |xs| > 0
    ensures Sum(Deltas(xs)) == xs[|xs| - 1]
  {
    SumDeltasPrefix(xs, |xs| - 1);
    assert Deltas(xs)[..|xs|] == Deltas(xs);
  }

  // ---------------------------------------------------------------------
  // Sums restricted to the positions that carry one key (one stake level).

  /** Sum of `xs[i]` over the positions `i` with `keys[i] == k`. */
  function SumWhere<K(==)>(xs: seq<real>, keys: seq<K>, k: K): real
    requires |xs| == |keys|
    decreases |xs|
  {
    if |xs| == 0 then 0.0
    else
      var n := |xs| - 1;
      SumWhere(xs[..n], keys[..n], k) + (if keys[n] == k then xs[n] else 0.0)
  }

  /** Extending a prefix by one position adds that position when its key matches. */
  lemma SumWhereSnoc<K>(xs: seq<real>, keys: seq<K>, k: K, i: nat)
    requires i < |xs| == |keys|
    ensures SumWhere(xs[..i + 1], keys[..i + 1], k)
            == SumWhere(xs[..i], keys[..i], k) + (if keys[i] == k then xs[i] else 0.0)
  {
    assert xs[..i + 1][..i] == xs[..i];
    assert keys[..i + 1][..i] == keys[..i];
  }

  /** Sum of `xs[i]` over the positions whose key is one of `order`. */
  function SumWhereIn<K(==)>(xs: seq<real>, keys: seq<K>, order: seq<K>): real
    requires |xs| == |keys|
    decreases |xs|
  {
    if |xs| == 0 then 0.0
    else
      var n := |xs| - 1;
      SumWhereIn(xs[..n], keys[..n], order) + (if keys[n] in order then xs[n] else 0.0)
  }

  /** Sum, over the keys of `order`, of the per-key sums. */
  function SumOverKeys<K(==)>(xs: seq<real>, keys: seq<K>, order: seq<K>): real
    requires |xs| == |keys|
    decreases |order|
  {
    if |order| == 0 then 0.0
    else SumOverKeys(xs, keys, order[..|order| - 1]) + SumWhere(xs, keys, order[|order| - 1])
  }

  predicate Distinct<K(==)>(s: seq<K>)
  {
    forall i, j :: 0 <= i < j < |s| ==> s[i] != s[j]
  }

  /** In a list without repetitions, an element is new at its own position. */
  lemma FreshAt<K>(s: seq<K>, j: nat)
    requires Distinct(s) && j < |s|
    ensures s[..j + 1] == s[..j] + [s[j]] && s[j] !in s[..j]
  {
    assert s[..j + 1] == s[..j] + [s[j]];
  }

  /** Appending one position adds its value to the total over `order`
      exactly once when its key is among distinct keys. */
  lemma {:induction false} SumOverKeysSnoc<K>(xs: seq<real>, keys: seq<K>, order: seq<K>)
    requires |xs| == |keys| > 0
    requires Distinct(order)
    ensures var n := |xs| - 1;
      SumOverKeys(xs, keys, order)
      == SumOverKeys(xs[..n], keys[..n], order) + (if keys[n] in order then xs[n] else 0.0)
    decreases |order|
  {
    var n := |xs| - 1;
    if |order| > 0 {
      var o := order[..|order| - 1];
      assert Distinct(o);
      SumOverKeysSnoc(xs, keys, o);
      var last := order[|order| - 1];
      assert keys[n] in order <==> keys[n] in o || keys[n] == last;
      assert keys[n] in o ==> keys[n] != last;
    }
  }

  /** Summing stake by stake over distinct stakes is summing every hand
      whose stake is listed: the per-stake rows partition the total. */
  lemma {:induction false} PartitionSum<K>(xs: seq<real>, keys: seq<K>, order: seq<K>)
    requires |xs| == |keys|
    requires Distinct(order)
    ensures SumOverKeys(xs, keys, order) == SumWhereIn(xs, keys, order)
    decreases |xs|
  {
    if |xs| == 0 {
      ZeroOverKeys(xs, keys, order);
    } else {
      var n := |xs| - 1;
      SumOverKeysSnoc(xs, keys, order);
      PartitionSum(xs[..n], keys[..n], order);
    }
  }

  lemma {:induction false} ZeroOverKeys<K>(xs: seq<real>, keys: seq<K>, order: seq<K>)
    requires |xs| == |keys| == 0
    ensures SumOverKeys(xs, keys, order) == 0.0
    decreases |order|
  {
    if |order| > 0 {
      ZeroOverKeys(xs, keys, order[..|order| - 1]);
    }
  }

  /** Restricted sums are linear: the restricted sum of element-wise
      differences is the difference of the restricted sums. */
  lemma {:induction false} SumWhereInMinus<K>(a: seq<real>, b: seq<real>, c: seq<real>, keys: seq<K>, order: seq<K>)
    requires |a| == |b| == |c| == |keys|
    requires forall i :: 0 <= i < |c| ==> c[i] == a[i] - b[i]
    ensures SumWhereIn(c, keys, order) == SumWhereIn(a, keys, order) - SumWhereIn(b, keys, order)
    decreases |c|
  {
    if |c| > 0 {
      var n := |c| - 1;
      SumWhereInMinus(a[..n], b[..n], c[..n], keys[..n], order);
    }
  }

  /** When every position's key is listed, the restricted sum is the plain sum. */
  lemma {:induction false} SumWhereInAll<K>(xs: seq<real>, keys: seq<K>, order: seq<K>)
    requires |xs| == |keys|
    requires forall i :: 0 <= i < |keys| ==> keys[i] in order || xs[i] == 0.0
    ensures SumWhereIn(xs, keys, order) == Sum(xs)
    decreases |xs|
  {
    if |xs| > 0 {
      SumWhereInAll(xs[..|xs| - 1], keys[..|xs| - 1], order);
    }
  }

  // ---------------------------------------------------------------------
  // The index lists that the scripts build per stake and then loop over.

  /** The positions carrying key `k`, in increasing order. */
  function IndicesWhere<K(==)>(keys: seq<K>, k: K): (r: seq<nat>)
    ensures forall j :: 0 <= j < |r| ==> r[j] < |keys| && keys[r[j]] == k
    ensures forall i :: 0 <= i < |keys| && keys[i] == k ==> i in r
    ensures forall a, b :: 0 <= a < b < |r| ==> r[a] < r[b]
    decreases |keys|
  {
    if |keys| == 0 then []
    else
      var n := |keys| - 1;
      IndicesWhere(keys[..n], k) + (if keys[n] == k then [n] else [])
  }

  /** The keys of a list, each wrapped as a present optional key. */
  function Somes<K>(order: seq<K>): (r: seq<Option<K>>)
    ensures |r| == |order| && forall i :: 0 <= i < |order| ==> r[i] == Some(order[i])
  {
    seq(|order|, i requires 0 <= i < |order| => Some(order[i]))
  }

  lemma SomesDistinct<K>(order: seq<K>)
    requires Distinct(order)
    ensures Distinct(Somes(order))
  {
    forall i, j | 0 <= i < j < |order|
      ensures Somes(order)[i] != Somes(order)[j]
    {
      assert order[i] != order[j];
    }
  }

  lemma IndicesWhereAbsent<K>(keys: seq<K>, k: K)
    requires k !in keys
    ensures IndicesWhere(keys, k) == []
  {
  }

  /** Sum of `xs` at the listed positions, in list order. */
  function SumAt(xs: seq<real>, idx: seq<nat>): real
    requires forall j :: 0 <= j < |idx| ==> idx[j] < |xs|
    decreases |idx|
  {
    if |idx| == 0 then 0.0 else SumAt(xs, idx[..|idx| - 1]) + xs[idx[|idx| - 1]]
  }

  lemma SumAtSnoc(xs: seq<real>, idx: seq<nat>, i: nat)
    requires forall j :: 0 <= j < |idx| ==> idx[j] < |xs|
    requires i < |xs|
    ensures SumAt(xs, idx + [i]) == SumAt(xs, idx) + xs[i]
  {
    assert (idx + [i])[..|idx|] == idx;
  }

  lemma {:induction false} SumAtAppend(xs: seq<real>, a: seq<nat>, b: seq<nat>)
    requires forall j :: 0 <= j < |a| ==> a[j] < |xs|
    requires forall j :: 0 <= j < |b| ==> b[j] < |xs|
    ensures SumAt(xs, a + b) == SumAt(xs, a) + SumAt(xs, b)
    decreases |b|
  {
    if |b| == 0 {
      assert a + b == a;
    } else {
      var b' := b[..|b| - 1];
      assert (a + b)[..|a + b| - 1] == a + b';
      SumAtAppend(xs, a, b');
    }
  }

  lemma {:induction false} SumAtPrefix(xs: seq<real>, idx: seq<nat>, m: nat)
    requires m <= |xs|
    requires forall j :: 0 <= j < |idx| ==> idx[j] < m
    ensures SumAt(xs, idx) == SumAt(xs[..m], idx)
    decreases |idx|
  {
    if |idx| > 0 {
      SumAtPrefix(xs, idx[..|idx| - 1], m);
    }
  }

  /** Looping over the index list of one key sums that key's positions. */
  lemma {:induction false} SumAtIndicesWhere<K>(xs: seq<real>, keys: seq<K>, k: K)
    requires |xs| == |keys|
    ensures SumAt(xs, IndicesWhere(keys, k)) == SumWhere(xs, keys, k)
    decreases |xs|
  {
    if |xs| > 0 {
      var n := |xs| - 1;
      var front := IndicesWhere(keys[..n], k);
      SumAtIndicesWhere(xs[..n], keys[..n], k);
      SumAtStep(xs, front, n, keys[n] == k);
    }
  }

  /** One more position, `n`, taken or not after a list of earlier ones. */
  lemma SumAtStep(xs: seq<real>, front: seq<nat>, n: nat, hit: bool)
    requires n + 1 == |xs|
    requires forall j :: 0 <= j < |front| ==> front[j] < n
    ensures SumAt(xs, front + (if hit then [n] else [])) == SumAt(xs[..n], front) + (if hit then xs[n] else 0.0)
  {
    SumAtPrefix(xs, front, n);
    if hit {
      SumAtSnoc(xs, front, n);
    } else {
      assert front + [] == front;
    }
  }

}
