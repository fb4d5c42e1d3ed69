/**
 * Counting by key, the arithmetic behind every group-by of the core: how many elements
 * carry a given key, and the fact that the per-key counts over a list of distinct keys
 * that covers every element add up to the number of elements.
 */
module Tally {

  /** Number of elements of `xs` whose key is `k`. */
  function CountKey<T, K(==)>(xs: seq<T>, key: T -> K, k: K): nat
    decreases |xs|
  {
    if |xs| == 0 then 0
    else CountKey(xs[..|xs| - 1], key, k) + (if key(xs[|xs| - 1]) == k then 1 else 0)
  }

  lemma CountKeyAppend<T, K>(xs: seq<T>, x: T, key: T -> K, k: K)
    ensures CountKey(xs + [x], key, k) == CountKey(xs, key, k) + (if key(x) == k then 1 else 0)
  {
    assert (xs + [x])[..|xs|] == xs;
  }

  /** The per-key counts for the keys of `ks`, added up. */
  function SumCounts<T, K(==)>(xs: seq<T>, key: T -> K, ks: seq<K>): nat
    decreases |ks|
  {
    if |ks| == 0 then 0 else CountKey(xs, key, ks[0]) + SumCounts(xs, key, ks[1..])
  }

  predicate Distinct<K(==)>(ks: seq<K>) {
    forall i, j :: 0 <= i < j < |ks| ==> ks[i] != ks[j]
  }

  /** Strictly ascending. */
  predicate Increasing(xs: seq<int>) {
    forall a, b :: 0 <= a < b < |xs| ==> xs[a] < xs[b]
  }

  /** The tail of an ascending list ascends, and its head is below everything in the tail. */
  lemma IncreasingTail(xs: seq<int>)
    requires |xs| > 0 && Increasing(xs)
    ensures Increasing(xs[1..])
    ensures forall x :: x in xs[1..] ==> xs[0] < x
  {
    forall a, b | 0 <= a < b < |xs[1..]| ensures xs[1..][a] < xs[1..][b] {
      assert xs[1..][a] == xs[a + 1] && xs[1..][b] == xs[b + 1];
    }
    forall x | x in xs[1..] ensures xs[0] < x {
      var m :| 0 <= m < |xs[1..]| && xs[1..][m] == x;
      assert xs[m + 1] == x;
    }
  }

  /** A value below everything in an ascending list still ascends when put in front of it. */
  lemma IncreasingCons(x: int, xs: seq<int>)
    requires Increasing(xs)
    requires forall y :: y in xs ==> x < y
    ensures Increasing([x] + xs)
  {
    var ys := [x] + xs;
    forall a, b | 0 <= a < b < |ys| ensures ys[a] < ys[b] {
      assert ys[b] == xs[b - 1];
      assert xs[b - 1] in xs;
      if a > 0 {
        assert ys[a] == xs[a - 1];
      }
    }
  }

  /** The keys of `xs` in order of first appearance, each once (a dict's key order). */
  function KeysInOrder<T, K(==)>(xs: seq<T>, key: T -> K): (ks: seq<K>)
    ensures Distinct(ks)
    ensures forall x :: x in xs ==> key(x) in ks
    ensures forall k :: k in ks ==> exists x :: x in xs && key(x) == k
    decreases |xs|
  {
    if |xs| == 0 then []
    else
      var front := KeysInOrder(xs[..|xs| - 1], key);
      var last := xs[|xs| - 1];
      assert forall x :: x in xs ==> x in xs[..|xs| - 1] || x == last;
      if key(last) in front then front
      else
        assert forall k :: k in front ==> exists x :: x in xs && key(x) == k by {
          forall k | k in front ensures exists x :: x in xs && key(x) == k {
            var x :| x in xs[..|xs| - 1] && key(x) == k;
            assert x in xs;
          }
        }
        front + [key(last)]
  }

  lemma KeysInOrderAppend<T, K>(xs: seq<T>, x: T, key: T -> K)
    ensures KeysInOrder(xs + [x], key) ==
      if key(x) in KeysInOrder(xs, key) then KeysInOrder(xs, key) else KeysInOrder(xs, key) + [key(x)]
  {
    assert (xs + [x])[..|xs|] == xs;
  }

  lemma {:induction false} SumCountsAppend<T, K>(xs: seq<T>, x: T, key: T -> K, ks: seq<K>)
    requires Distinct(ks)
    ensures SumCounts(xs + [x], key, ks) == SumCounts(xs, key, ks) + (if key(x) in ks then 1 else 0)
    decreases |ks|
  {
    if |ks| > 0 {
      assert (xs + [x])[..|xs + [x]| - 1] == xs;
      assert Distinct(ks[1..]) by {
        forall i, j | 0 <= i < j < |ks[1..]| ensures ks[1..][i] != ks[1..][j] {
          assert ks[1..][i] == ks[i + 1] && ks[1..][j] == ks[j + 1];
        }
      }
      assert key(x) in ks <==> key(x) == ks[0] || key(x) in ks[1..] by {
        assert ks == [ks[0]] + ks[1..];
      }
      assert forall j :: 0 <= j < |ks[1..]| ==> ks[1..][j] == ks[j + 1];
      SumCountsAppend(xs, x, key, ks[1..]);
    }
  }

  /**
   * Grouping loses and duplicates nothing: over distinct keys that cover every element,
   * the group sizes add up to the number of elements.
   */
  lemma {:induction false} PartitionCount<T, K>(xs: seq<T>, key: T -> K, ks: seq<K>)
    requires Distinct(ks)
    requires forall x :: x in xs ==> key(x) in ks
    ensures SumCounts(xs, key, ks) == |xs|
    decreases |xs|
  {
    if |xs| == 0 {
      SumCountsEmpty(xs, key, ks);
    } else {
      var front := xs[..|xs| - 1];
      assert xs == front + [xs[|xs| - 1]];
      assert forall x :: x in front ==> x in xs;
      PartitionCount(front, key, ks);
      SumCountsAppend(front, xs[|xs| - 1], key, ks);
    }
  }

  lemma {:induction false} SumCountsEmpty<T, K>(xs: seq<T>, key: T -> K, ks: seq<K>)
    requires |xs| == 0
    ensures SumCounts(xs, key, ks) == 0
    decreases |ks|
  {
    if |ks| > 0 {
      SumCountsEmpty(xs, key, ks[1..]);
    }
  }

  /** Group by group no larger means no larger in total. */
  lemma {:induction false} SumCountsMonotone<T, U, K>(xs: seq<T>, kx: T -> K, ys: seq<U>, ky: U -> K, ks: seq<K>)
    requires forall k :: k in ks ==> CountKey(xs, kx, k) <= CountKey(ys, ky, k)
    ensures SumCounts(xs, kx, ks) <= SumCounts(ys, ky, ks)
    decreases |ks|
  {
    if |ks| > 0 {
      assert forall k :: k in ks[1..] ==> k in ks;
      SumCountsMonotone(xs, kx, ys, ky, ks[1..]);
    }
  }

  /** `range(lo, hi)`: the integers from `lo` up to but not including `hi`, ascending. */
  function Range(lo: int, hi: int): (r: seq<int>)
    requires lo <= hi
    ensures |r| == hi - lo
    ensures forall k :: 0 <= k < |r| ==> r[k] == lo + k
    decreases hi - lo
  {
    if lo == hi then [] else Range(lo, hi - 1) + [hi - 1]
  }

  /** Number of elements of `xs` whose key is one of `ks`. */
  function CountIn<T, K(==)>(xs: seq<T>, key: T -> K, ks: seq<K>): nat
    decreases |xs|
  {
    if |xs| == 0 then 0
    else CountIn(xs[..|xs| - 1], key, ks) + (if key(xs[|xs| - 1]) in ks then 1 else 0)
  }

  /**
   * Grouping by distinct keys that need not cover every element: the group sizes add up
   * to the number of elements whose key is listed, and the others are counted nowhere.
   */
  lemma {:induction false} SumCountsCountIn<T, K>(xs: seq<T>, key: T -> K, ks: seq<K>)
    requires Distinct(ks)
    ensures SumCounts(xs, key, ks) == CountIn(xs, key, ks)
    decreases |xs|
  {
    if |xs| == 0 {
      SumCountsEmpty(xs, key, ks);
    } else {
      var front := xs[..|xs| - 1];
      assert xs == front + [xs[|xs| - 1]];
      SumCountsCountIn(front, key, ks);
      SumCountsAppend(front, xs[|xs| - 1], key, ks);
    }
  }

  /** Position of the first `k` in `ks`, or `|ks|` when it is absent. */
  function IndexIn<K(==)>(ks: seq<K>, k: K): (i: nat)
    ensures i <= |ks|
    ensures i < |ks| <==> k in ks
    ensures i < |ks| ==> ks[i] == k
    decreases |ks|
  {
    if |ks| == 0 then 0 else if ks[0] == k then 0 else 1 + IndexIn(ks[1..], k)
  }

  /** In a list of distinct keys each key's position is where it stands. */
  lemma IndexInDistinct<K>(ks: seq<K>, i: int)
    requires Distinct(ks) && 0 <= i < |ks|
    ensures IndexIn(ks, ks[i]) == i
  {
    var j := IndexIn(ks, ks[i]);
    assert ks[j] == ks[i];
  }
}
