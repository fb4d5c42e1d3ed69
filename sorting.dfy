/**
 * Python's `sorted(xs, key=...)` for an integer key: a stable sort, written as an
 * insertion sort so that its three properties (ordered, a permutation, stable) can be
 * proved by induction.
 */
module Sorting {
  import opened Tally

  /** Insert `x` in front of the first element whose key is not smaller than its own. */
  function InsertBy<T>(x: T, s: seq<T>, key: T -> int): seq<T>
    decreases |s|
  {
    if |s| == 0 || key(x) <= key(s[0]) then [x] + s
    else [s[0]] + InsertBy(x, s[1..], key)
  }

  function SortBy<T>(s: seq<T>, key: T -> int): seq<T>
    decreases |s|
  {
    if |s| == 0 then [] else InsertBy(s[0], SortBy(s[1..], key), key)
  }

  predicate SortedBy<T>(s: seq<T>, key: T -> int) {
    forall i, j :: 0 <= i < j < |s| ==> key(s[i]) <= key(s[j])
  }

  /** Dropping the last element keeps a sequence sorted, and that element bounds the rest. */
  lemma SortedByInit<T>(s: seq<T>, key: T -> int)
    requires |s| > 0 && SortedBy(s, key)
    ensures SortedBy(s[..|s| - 1], key)
    ensures forall x :: x in s[..|s| - 1] ==> key(x) <= key(s[|s| - 1])
  {
    forall x | x in s[..|s| - 1] ensures key(x) <= key(s[|s| - 1]) {
      var j :| 0 <= j < |s| - 1 && s[..|s| - 1][j] == x;
      assert s[j] == x;
    }
  }

  /** The elements of `s` whose key is `v`, in their order in `s`. */
  function WithKey<T>(s: seq<T>, key: T -> int, v: int): seq<T>
    decreases |s|
  {
    if |s| == 0 then []
    else (if key(s[0]) == v then [s[0]] else []) + WithKey(s[1..], key, v)
  }

  lemma {:induction false} InsertByPermutation<T>(x: T, s: seq<T>, key: T -> int)
    ensures multiset(InsertBy(x, s, key)) == multiset(s) + multiset{x}
    decreases |s|
  {
    if |s| > 0 && key(x) > key(s[0]) {
      InsertByPermutation(x, s[1..], key);
      assert s == [s[0]] + s[1..];
    }
  }

  /** Every element of `InsertBy(x, s)` is `x` or an element of `s`. */
  lemma InsertByElements<T>(x: T, s: seq<T>, key: T -> int, k: int)
    requires 0 <= k < |InsertBy(x, s, key)|
    ensures InsertBy(x, s, key)[k] == x || InsertBy(x, s, key)[k] in s
  {
    InsertByPermutation(x, s, key);
    var r := InsertBy(x, s, key);
    assert r[k] in multiset(r);
  }

  lemma {:induction false} InsertBySorted<T>(x: T, s: seq<T>, key: T -> int)
    requires SortedBy(s, key)
    ensures SortedBy(InsertBy(x, s, key), key)
    decreases |s|
  {
    if |s| > 0 && key(x) > key(s[0]) {
      InsertBySorted(x, s[1..], key);
      var r := InsertBy(x, s[1..], key);
      forall k | 0 <= k < |r| ensures key(s[0]) <= key(r[k]) {
        InsertByElements(x, s[1..], key, k);
      }
    }
  }

  /** `sorted` returns its input reordered so that the keys ascend. */
  lemma {:induction false} SortBySortedPermutation<T>(s: seq<T>, key: T -> int)
    ensures SortedBy(SortBy(s, key), key)
    ensures multiset(SortBy(s, key)) == multiset(s)
    ensures |SortBy(s, key)| == |s|
    decreases |s|
  {
    if |s| > 0 {
      SortBySortedPermutation(s[1..], key);
      InsertBySorted(s[0], SortBy(s[1..], key), key);
      InsertByPermutation(s[0], SortBy(s[1..], key), key);
      assert s == [s[0]] + s[1..];
    }
    assert |multiset(SortBy(s, key))| == |multiset(s)|;
  }

  lemma {:induction false} WithKeyAppend<T>(a: seq<T>, b: seq<T>, key: T -> int, v: int)
    ensures WithKey(a + b, key, v) == WithKey(a, key, v) + WithKey(b, key, v)
    decreases |a|
  {
    if |a| > 0 {
      assert (a + b)[1..] == a[1..] + b;
      WithKeyAppend(a[1..], b, key, v);
    } else {
      assert a + b == b;
    }
  }

  lemma {:induction false} InsertByStable<T>(x: T, s: seq<T>, key: T -> int, v: int)
    ensures WithKey(InsertBy(x, s, key), key, v)
      == (if key(x) == v then [x] else []) + WithKey(s, key, v)
    decreases |s|
  {
    if |s| == 0 || key(x) <= key(s[0]) {
      WithKeyAppend([x], s, key, v);
    } else {
      InsertByStable(x, s[1..], key, v);
      WithKeyAppend([s[0]], InsertBy(x, s[1..], key), key, v);
    }
  }

  /** `sorted` is stable: elements with equal keys keep the order they had. */
  lemma {:induction false} SortByStable<T>(s: seq<T>, key: T -> int, v: int)
    ensures WithKey(SortBy(s, key), key, v) == WithKey(s, key, v)
    decreases |s|
  {
    if |s| > 0 {
      SortByStable(s[1..], key, v);
      InsertByStable(s[0], SortBy(s[1..], key), key, v);
    }
  }

  lemma {:induction false} InsertByDistinct<T>(x: T, s: seq<T>, key: T -> int)
    requires Distinct(s) && x !in s
    ensures Distinct(InsertBy(x, s, key))
    decreases |s|
  {
    if |s| > 0 && key(x) > key(s[0]) {
      assert Distinct(s[1..]) by {
        forall i, j | 0 <= i < j < |s[1..]| ensures s[1..][i] != s[1..][j] {
          assert s[1..][i] == s[i + 1] && s[1..][j] == s[j + 1];
        }
      }
      assert x !in s[1..];
      InsertByDistinct(x, s[1..], key);
      var r := InsertBy(x, s[1..], key);
      forall k | 0 <= k < |r| ensures r[k] != s[0] {
        InsertByElements(x, s[1..], key, k);
        if r[k] in s[1..] {
          var j :| 0 <= j < |s[1..]| && s[1..][j] == r[k];
          assert s[j + 1] == r[k];
        }
      }
      assert InsertBy(x, s, key) == [s[0]] + r;
    }
  }

  /** Sorting distinct elements leaves them distinct. */
  lemma {:induction false} SortByDistinct<T>(s: seq<T>, key: T -> int)
    requires Distinct(s)
    ensures Distinct(SortBy(s, key))
    decreases |s|
  {
    if |s| > 0 {
      assert Distinct(s[1..]) by {
        forall i, j | 0 <= i < j < |s[1..]| ensures s[1..][i] != s[1..][j] {
          assert s[1..][i] == s[i + 1] && s[1..][j] == s[j + 1];
        }
      }
      SortByDistinct(s[1..], key);
      SortBySortedPermutation(s[1..], key);
      assert s[0] !in s[1..] by {
        forall j | 0 <= j < |s[1..]| ensures s[1..][j] != s[0] {
          assert s[1..][j] == s[j + 1];
        }
      }
      assert s[0] !in multiset(SortBy(s[1..], key));
      InsertByDistinct(s[0], SortBy(s[1..], key), key);
    }
  }
}
