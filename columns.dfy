/**
 * Column aggregations of a data frame held as a sequence of rows: boolean-mask selection
 * (`df[mask]`), group selection (`df[df[key] == k]`), column sums and means, and the
 * fact that the per-group sums over distinct keys covering every row add up to the
 * column's sum.
 */
module Columns {
  import opened Tally

  /** `df[mask]`: the rows where `p` holds, in their order. */
  function Select<T>(xs: seq<T>, p: T -> bool): (r: seq<T>)
    ensures |r| <= |xs|
    ensures forall x :: x in r ==> x in xs && p(x)
    ensures forall x :: x in xs && p(x) ==> x in r
    decreases |xs|
  {
    if |xs| == 0 then []
    else
      var front := Select(xs[..|xs| - 1], p);
      var last := xs[|xs| - 1];
      assert forall x :: x in xs ==> x in xs[..|xs| - 1] || x == last;
      if p(last) then front + [last] else front
  }

  /** `df[df[key] == k]`: the rows of group `k`, in their order. */
  function Group<T, K(==)>(xs: seq<T>, key: T -> K, k: K): (r: seq<T>)
    ensures |r| == CountKey(xs, key, k)
    ensures forall x :: x in r ==> x in xs && key(x) == k
    decreases |xs|
  {
    if |xs| == 0 then []
    else
      var front := Group(xs[..|xs| - 1], key, k);
      var last := xs[|xs| - 1];
      if key(last) == k then front + [last] else front
  }

  /** `df[column].sum()`. */
  function Sum<T>(xs: seq<T>, f: T -> real): real
    decreases |xs|
  {
    if |xs| == 0 then 0.0 else Sum(xs[..|xs| - 1], f) + f(xs[|xs| - 1])
  }

  /** `df[column].mean()` of a non-empty frame. */
  function Mean<T>(xs: seq<T>, f: T -> real): real
    requires |xs| > 0
  {
    Sum(xs, f) / |xs| as real
  }

  lemma SumAppend<T>(xs: seq<T>, x: T, f: T -> real)
    ensures Sum(xs + [x], f) == Sum(xs, f) + f(x)
  {
    assert (xs + [x])[..|xs|] == xs;
  }

  lemma SelectAppend<T>(xs: seq<T>, x: T, p: T -> bool)
    ensures Select(xs + [x], p) == Select(xs, p) + (if p(x) then [x] else [])
  {
    assert (xs + [x])[..|xs|] == xs;
  }

  lemma GroupAppend<T, K>(xs: seq<T>, x: T, key: T -> K, k: K)
    ensures Group(xs + [x], key, k) == Group(xs, key, k) + (if key(x) == k then [x] else [])
  {
    assert (xs + [x])[..|xs|] == xs;
  }

  /** A column of non-negative values sums to a non-negative total. */
  lemma {:induction false} SumNonNegative<T>(xs: seq<T>, f: T -> real)
    requires forall x :: x in xs ==> f(x) >= 0.0
    ensures Sum(xs, f) >= 0.0
    decreases |xs|
  {
    if |xs| > 0 {
      assert forall x :: x in xs[..|xs| - 1] ==> x in xs;
      SumNonNegative(xs[..|xs| - 1], f);
    }
  }

  /** A column of negative values sums to a negative total, unless there are none. */
  lemma {:induction false} SumNegative<T>(xs: seq<T>, f: T -> real)
    requires forall x :: x in xs ==> f(x) < 0.0
    ensures |xs| > 0 ==> Sum(xs, f) < 0.0
    ensures Sum(xs, f) <= 0.0
    decreases |xs|
  {
    if |xs| > 0 {
      assert forall x :: x in xs[..|xs| - 1] ==> x in xs;
      SumNegative(xs[..|xs| - 1], f);
    }
  }

  /** Per-group sums of column `f` for the keys of `ks`, added up. */
  function GroupSums<T, K(==)>(xs: seq<T>, key: T -> K, f: T -> real, ks: seq<K>): real
    decreases |ks|
  {
    if |ks| == 0 then 0.0 else Sum(Group(xs, key, ks[0]), f) + GroupSums(xs, key, f, ks[1..])
  }

  /** One more row adds its value to its own group's sum and to no other. */
  lemma GroupSumAppend<T, K>(xs: seq<T>, x: T, key: T -> K, f: T -> real, k: K)
    ensures Sum(Group(xs + [x], key, k), f) == Sum(Group(xs, key, k), f) + (if key(x) == k then f(x) else 0.0)
  {
    GroupAppend(xs, x, key, k);
    if key(x) == k {
      SumAppend(Group(xs, key, k), x, f);
    }
  }

  /** The tail of a list of distinct keys is distinct and misses the head. */
  lemma DistinctTail<K>(ks: seq<K>)
    requires |ks| > 0 && Distinct(ks)
    ensures Distinct(ks[1..])
    ensures ks[0] !in ks[1..]
    ensures forall k :: k in ks <==> k == ks[0] || k in ks[1..]
  {
    assert ks == [ks[0]] + ks[1..];
    forall j | 0 <= j < |ks[1..]| ensures ks[1..][j] != ks[0] {
      assert ks[1..][j] == ks[j + 1];
    }
  }

  lemma {:induction false} GroupSumsAppend<T, K>(xs: seq<T>, x: T, key: T -> K, f: T -> real, ks: seq<K>)
    requires Distinct(ks)
    ensures GroupSums(xs + [x], key, f, ks) == GroupSums(xs, key, f, ks) + (if key(x) in ks then f(x) else 0.0)
    decreases |ks|
  {
    if |ks| > 0 {
      GroupSumAppend(xs, x, key, f, ks[0]);
      DistinctTail(ks);
      GroupSumsAppend(xs, x, key, f, ks[1..]);
    }
  }

  /**
   * `groupby(key)[f].sum()` loses and duplicates nothing: over distinct keys that cover
   * every row, the group sums add up to the column's sum.
   */
  lemma {:induction false} PartitionSum<T, K>(xs: seq<T>, key: T -> K, f: T -> real, ks: seq<K>)
    requires Distinct(ks)
    requires forall x :: x in xs ==> key(x) in ks
    ensures GroupSums(xs, key, f, ks) == Sum(xs, f)
    decreases |xs|
  {
    if |xs| == 0 {
      GroupSumsEmpty(xs, key, f, ks);
    } else {
      var front := xs[..|xs| - 1];
      assert xs == front + [xs[|xs| - 1]];
      assert forall x :: x in front ==> x in xs;
      PartitionSum(front, key, f, ks);
      GroupSumsAppend(front, xs[|xs| - 1], key, f, ks);
    }
  }

  lemma {:induction false} GroupSumsEmpty<T, K>(xs: seq<T>, key: T -> K, f: T -> real, ks: seq<K>)
    requires |xs| == 0
    ensures GroupSums(xs, key, f, ks) == 0.0
    decreases |ks|
  {
    if |ks| > 0 {
      GroupSumsEmpty(xs, key, f, ks[1..]);
    }
  }

  /** Every key that occurs names a non-empty group. */
  lemma {:induction false} CountKeyPresent<T, K>(xs: seq<T>, key: T -> K, x: T)
    requires x in xs
    ensures CountKey(xs, key, key(x)) >= 1
    decreases |xs|
  {
    if xs[|xs| - 1] != x {
      assert x in xs[..|xs| - 1] by {
        var i :| 0 <= i < |xs| && xs[i] == x;
        assert i < |xs| - 1;
        assert xs[..|xs| - 1][i] == x;
      }
      CountKeyPresent(xs[..|xs| - 1], key, x);
    }
  }

  /** Every key `KeysInOrder` lists names a non-empty group. */
  lemma KeysInOrderPresent<T, K>(xs: seq<T>, key: T -> K, k: K)
    requires k in KeysInOrder(xs, key)
    ensures CountKey(xs, key, k) >= 1
  {
    var x :| x in xs && key(x) == k;
    CountKeyPresent(xs, key, x);
  }

  /** Groups that each hold a row add up to at least one row per group. */
  lemma {:induction false} SumCountsAtLeast<T, K>(xs: seq<T>, key: T -> K, ks: seq<K>)
    requires forall k :: k in ks ==> CountKey(xs, key, k) >= 1
    ensures SumCounts(xs, key, ks) >= |ks|
    decreases |ks|
  {
    if |ks| > 0 {
      assert forall k :: k in ks[1..] ==> k in ks;
      SumCountsAtLeast(xs, key, ks[1..]);
    }
  }

  /**
   * `len(df.groupby(key))`: there are at least one and at most as many distinct keys as
   * rows, once there is any row.
   */
  lemma GroupCountBounds<T, K>(xs: seq<T>, key: T -> K)
    ensures |KeysInOrder(xs, key)| <= |xs|
    ensures |xs| > 0 ==> |KeysInOrder(xs, key)| >= 1
  {
    var ks := KeysInOrder(xs, key);
    PartitionCount(xs, key, ks);
    forall k | k in ks ensures CountKey(xs, key, k) >= 1 {
      var x :| x in xs && key(x) == k;
      CountKeyPresent(xs, key, x);
    }
    SumCountsAtLeast(xs, key, ks);
    if |xs| > 0 {
      assert key(xs[0]) in ks;
    }
  }

  /** Two masks that never hold together select no more rows than there are. */
  lemma {:induction false} SelectDisjoint<T>(xs: seq<T>, p: T -> bool, q: T -> bool)
    requires forall x :: x in xs ==> !(p(x) && q(x))
    ensures |Select(xs, p)| + |Select(xs, q)| <= |xs|
    decreases |xs|
  {
    if |xs| > 0 {
      assert forall x :: x in xs[..|xs| - 1] ==> x in xs;
      SelectDisjoint(xs[..|xs| - 1], p, q);
    }
  }

  /**
   * A column splits between two disjoint masks when every row outside both contributes
   * nothing: the column's sum is the sum over the first mask plus the sum over the second.
   */
  lemma {:induction false} SelectSplitSum<T>(xs: seq<T>, p: T -> bool, q: T -> bool, f: T -> real)
    requires forall x :: x in xs ==> !(p(x) && q(x)) && (p(x) || q(x) || f(x) == 0.0)
    ensures Sum(xs, f) == Sum(Select(xs, p), f) + Sum(Select(xs, q), f)
    decreases |xs|
  {
    if |xs| > 0 {
      var front, last := xs[..|xs| - 1], xs[|xs| - 1];
      assert forall x :: x in front ==> x in xs;
      SelectSplitSum(front, p, q, f);
      if p(last) {
        SumAppend(Select(front, p), last, f);
      }
      if q(last) {
        SumAppend(Select(front, q), last, f);
      }
    }
  }

  /**
   * The sum of a group is at most the sum of the rows whose value is positive, whichever
   * group it is: a group can gain no more than all the gains together.
   */
  lemma {:induction false} GroupAtMostPositive<T, K>(xs: seq<T>, key: T -> K, k: K, p: T -> bool, f: T -> real)
    requires forall x :: x in xs ==> (p(x) <==> f(x) > 0.0)
    ensures Sum(Group(xs, key, k), f) <= Sum(Select(xs, p), f)
    decreases |xs|
  {
    if |xs| > 0 {
      var front, last := xs[..|xs| - 1], xs[|xs| - 1];
      assert forall x :: x in front ==> x in xs;
      GroupAtMostPositive(front, key, k, p, f);
      if key(last) == k {
        SumAppend(Group(front, key, k), last, f);
      }
      if p(last) {
        SumAppend(Select(front, p), last, f);
      }
    }
  }
}
