/** `Array.prototype.sort` with a comparator `(a, b) => key(b) - key(a)`:
    a stable sort into descending key order (the engine's sort is stable
    since ECMAScript 2019). Modelled as an insertion sort on values. */
module Sorting {

  predicate SortedDesc<T>(s: seq<T>, key: T -> real)
  {
    forall i, j :: 0 <= i < j < |s| ==> key(s[i]) >= key(s[j])
  }

  /** Inserts `x` after every element whose key is at least its own. */
  function InsertDesc<T>(sorted: seq<T>, x: T, key: T -> real): (r: seq<T>)
    decreases |sorted|
  {
    if |sorted| == 0 then [x]
    else if key(sorted[0]) >= key(x) then [sorted[0]] + InsertDesc(sorted[1..], x, key)
    else [x] + sorted
  }

  /** Elements are inserted in input order, so equal keys keep their order. */
  function SortDesc<T>(s: seq<T>, key: T -> real): (r: seq<T>)
    decreases |s|
  {
    if |s| == 0 then [] else InsertDesc(SortDesc(s[..|s| - 1], key), s[|s| - 1], key)
  }

  /** Inserting adds exactly `x`. */
  lemma {:induction false} InsertDescPermutation<T>(sorted: seq<T>, x: T, key: T -> real)
    ensures multiset(InsertDesc(sorted, x, key)) == multiset(sorted) + multiset{x}
    ensures |InsertDesc(sorted, x, key)| == |sorted| + 1
    decreases |sorted|
  {
    if |sorted| > 0 && key(sorted[0]) >= key(x) {
      var rest := sorted[1..];
      InsertDescPermutation(rest, x, key);
      assert sorted == [sorted[0]] + rest;
    }
  }

  /** Inserting into a descending list keeps it descending. */
  lemma {:induction false} InsertDescSorted<T>(sorted: seq<T>, x: T, key: T -> real)
    requires SortedDesc(sorted, key)
    ensures SortedDesc(InsertDesc(sorted, x, key), key)
    decreases |sorted|
  {
    if |sorted| > 0 && key(sorted[0]) >= key(x) {
      var rest := sorted[1..];
      InsertDescSorted(rest, x, key);
      InsertDescPermutation(rest, x, key);
      var r := InsertDesc(rest, x, key);
      forall k | 0 <= k < |r| ensures key(sorted[0]) >= key(r[k]) {
        assert r[k] in multiset(r);
        if r[k] != x {
          assert r[k] in rest;
          var m :| 0 <= m < |rest| && rest[m] == r[k];
          assert rest[m] == sorted[m + 1];
        }
      }
      HeadSorted(sorted[0], r, key);
    }
  }

  /** A head whose key bounds a descending tail gives a descending list. */
  lemma HeadSorted<T>(h: T, r: seq<T>, key: T -> real)
    requires SortedDesc(r, key)
    requires forall k :: 0 <= k < |r| ==> key(h) >= key(r[k])
    ensures SortedDesc([h] + r, key)
  {
    forall i, j | 0 <= i < j < |[h] + r|
      ensures key(([h] + r)[i]) >= key(([h] + r)[j])
    {
      assert ([h] + r)[j] == r[j - 1];
      if i > 0 {
        assert ([h] + r)[i] == r[i - 1];
      }
    }
  }

  /** The result is in descending key order. */
  lemma {:induction false} SortDescSorted<T>(s: seq<T>, key: T -> real)
    ensures SortedDesc(SortDesc(s, key), key)
    decreases |s|
  {
    if |s| > 0 {
      SortDescSorted(s[..|s| - 1], key);
      InsertDescSorted(SortDesc(s[..|s| - 1], key), s[|s| - 1], key);
    }
  }

  /** The result is a permutation of the input. */
  lemma {:induction false} SortDescPermutation<T>(s: seq<T>, key: T -> real)
    ensures multiset(SortDesc(s, key)) == multiset(s)
    ensures |SortDesc(s, key)| == |s|
    decreases |s|
  {
    if |s| > 0 {
      var front := s[..|s| - 1];
      SortDescPermutation(front, key);
      InsertDescPermutation(SortDesc(front, key), s[|s| - 1], key);
      assert s == front + [s[|s| - 1]];
    }
  }

  /** The elements of `s` whose key is `v`, in order. */
  function WithKey<T>(s: seq<T>, key: T -> real, v: real): seq<T>
    decreases |s|
  {
    if |s| == 0 then []
    else WithKey(s[..|s| - 1], key, v) + (if key(s[|s| - 1]) == v then [s[|s| - 1]] else [])
  }

  lemma {:induction false} WithKeyCons<T>(x: T, s: seq<T>, key: T -> real, v: real)
    ensures WithKey([x] + s, key, v) == (if key(x) == v then [x] else []) + WithKey(s, key, v)
    decreases |s|
  {
    if |s| > 0 {
      var n := |s| - 1;
      assert ([x] + s)[..n + 1] == [x] + s[..n];
      WithKeyCons(x, s[..n], key, v);
    } else {
      assert [x][..0] == [];
    }
  }

  /** Putting the same head in front of two lists whose selections differ
      by a suffix keeps that difference. */
  lemma WithKeyConsBoth<T>(h: T, a: seq<T>, b: seq<T>, tail: seq<T>, key: T -> real, v: real)
    requires WithKey(b, key, v) == WithKey(a, key, v) + tail
    ensures WithKey([h] + b, key, v) == WithKey([h] + a, key, v) + tail
  {
    WithKeyCons(h, a, key, v);
    WithKeyCons(h, b, key, v);
  }

  lemma {:induction false} WithKeyAllBelow<T>(s: seq<T>, key: T -> real, v: real)
    requires forall k :: 0 <= k < |s| ==> key(s[k]) < v
    ensures WithKey(s, key, v) == []
    decreases |s|
  {
    if |s| > 0 {
      WithKeyAllBelow(s[..|s| - 1], key, v);
    }
  }

  lemma {:induction false} WithKeyInsert<T>(sorted: seq<T>, x: T, key: T -> real, v: real)
    requires SortedDesc(sorted, key)
    ensures WithKey(InsertDesc(sorted, x, key), key, v)
         == WithKey(sorted, key, v) + (if key(x) == v then [x] else [])
    decreases |sorted|
  {
    var tail: seq<T> := if key(x) == v then [x] else [];
    if |sorted| == 0 || key(sorted[0]) < key(x) {
      WithKeyInsertFront(sorted, x, key, v);
    } else {
      var rest := sorted[1..];
      assert SortedDesc(rest, key);
      WithKeyInsert(rest, x, key, v);
      assert InsertDesc(sorted, x, key) == [sorted[0]] + InsertDesc(rest, x, key);
      assert sorted == [sorted[0]] + rest;
      WithKeyConsBoth(sorted[0], rest, InsertDesc(rest, x, key), tail, key, v);
    }
  }

  /** When `x` goes in front, every key after it is below its own. */
  lemma WithKeyInsertFront<T>(sorted: seq<T>, x: T, key: T -> real, v: real)
    requires SortedDesc(sorted, key)
    requires |sorted| == 0 || key(sorted[0]) < key(x)
    ensures WithKey(InsertDesc(sorted, x, key), key, v)
         == WithKey(sorted, key, v) + (if key(x) == v then [x] else [])
  {
    assert InsertDesc(sorted, x, key) == [x] + sorted;
    WithKeyCons(x, sorted, key, v);
    if key(x) == v {
      WithKeyAllBelow(sorted, key, v);
    }
  }

  /** Stability: the elements sharing one key appear in the result in the
      same order as in the input. */
  lemma {:induction false} SortDescStable<T>(s: seq<T>, key: T -> real, v: real)
    ensures WithKey(SortDesc(s, key), key, v) == WithKey(s, key, v)
    decreases |s|
  {
    if |s| > 0 {
      var front := s[..|s| - 1];
      SortDescStable(front, key, v);
      SortDescSorted(front, key);
      WithKeyInsert(SortDesc(front, key), s[|s| - 1], key, v);
    }
  }
}
