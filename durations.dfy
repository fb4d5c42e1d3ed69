/**
 * Holding times in services/analytics.py: `get_duration_analysis`, the statistics of the
 * trades in each of eleven holding-time buckets, and `format_duration`, the text a
 * duration in seconds is shown as.
 */
module Durations {
  import opened Wrappers
  import opened Text
  import opened Tally
  import opened Columns
  import opened Analytics

  // ---- get_duration_analysis ----

  /** A bucket `[lo, hi)`; no upper bound stands for `float('inf')`. */
  datatype Bucket = Bucket(name: string, lo: int, hi: Option<int>)

  /** The buckets' lower bounds; each bucket ends where the next one starts. */
  const Starts: seq<int> := [0, 15, 45, 60, 120, 300, 600, 1800, 3600, 7200, 14400]

  const Names: seq<string> := [
    "Under 15 sec", "15-45 sec", "45 sec - 1 min", "1 min - 2 min", "2 min - 5 min",
    "5 min - 10 min", "10 min - 30 min", "30 min - 1 hour", "1 hour - 2 hours",
    "2 hours - 4 hours", "4 hours and up"]

  /** Number of buckets. */
  const Count: nat := 11

  /** Bucket `i` of the table; the last has no upper bound. */
  function BucketAt(i: int): Bucket
    requires 0 <= i < Count
  {
    Bucket(Names[i], Starts[i], if i + 1 < Count then Some(Starts[i + 1]) else None)
  }

  /** The table as written out in the source. */
  lemma BucketTable()
    ensures BucketAt(0) == Bucket("Under 15 sec", 0, Some(15))
    ensures BucketAt(1) == Bucket("15-45 sec", 15, Some(45))
    ensures BucketAt(2) == Bucket("45 sec - 1 min", 45, Some(60))
    ensures BucketAt(3) == Bucket("1 min - 2 min", 60, Some(120))
    ensures BucketAt(4) == Bucket("2 min - 5 min", 120, Some(300))
    ensures BucketAt(5) == Bucket("5 min - 10 min", 300, Some(600))
    ensures BucketAt(6) == Bucket("10 min - 30 min", 600, Some(1800))
    ensures BucketAt(7) == Bucket("30 min - 1 hour", 1800, Some(3600))
    ensures BucketAt(8) == Bucket("1 hour - 2 hours", 3600, Some(7200))
    ensures BucketAt(9) == Bucket("2 hours - 4 hours", 7200, Some(14400))
    ensures BucketAt(10) == Bucket("4 hours and up", 14400, None)
  {
  }

  /** `(duration >= min_sec) & (duration < max_sec)`. */
  predicate InBucket(d: int, b: Bucket) {
    b.lo <= d && (b.hi.None? || d < b.hi.value)
  }

  /** `df[mask]` for one bucket. */
  function BucketRows(df: seq<Row>, b: Bucket): (r: seq<Row>)
    ensures |r| <= |df|
    ensures forall x :: x in r ==> x in df && InBucket(x.durationSeconds, b)
    decreases |df|
  {
    if |df| == 0 then []
    else
      var front := BucketRows(df[..|df| - 1], b);
      var last := df[|df| - 1];
      if InBucket(last.durationSeconds, b) then front + [last] else front
  }

  datatype DurationRow = DurationRow(name: string, count: int, winRate: real, totalPnl: real)

  /** The row of bucket `b`: its trades, the share of them that won, and their net P&L. */
  function DurationRowFor(df: seq<Row>, b: Bucket): DurationRow {
    var g := BucketRows(df, b);
    DurationRow(b.name, |g|, Percent(|Select(g, IsWinRow)|, |g|), Sum(g, Net))
  }

  /** The bucket numbers, in the order the table lists them. */
  const Order: seq<int> := Range(0, Count)

  predicate Numbers(ids: seq<int>) {
    forall k :: 0 <= k < |ids| ==> 0 <= ids[k] < Count
  }

  /** `len(bucket_df) > 0`: some trade's holding time falls in bucket `i`. */
  predicate HoldsTrades(df: seq<Row>, i: int)
    requires 0 <= i < Count
  {
    |BucketRows(df, BucketAt(i))| > 0
  }

  /** The rows of the buckets of `ids` that hold trades, in the order of `ids`. */
  function DurationRows(df: seq<Row>, ids: seq<int>): seq<DurationRow>
    requires Numbers(ids)
    decreases |ids|
  {
    if |ids| == 0 then []
    else
      var rest := DurationRows(df, ids[1..]);
      if HoldsTrades(df, ids[0]) then [DurationRowFor(df, BucketAt(ids[0]))] + rest else rest
  }

  /** `get_duration_analysis`: one row per bucket that holds a trade. */
  function DurationAnalysis(df: seq<Row>): seq<DurationRow> {
    if |df| == 0 then [] else DurationRows(df, Order)
  }

  /** The lower bounds rise strictly: the buckets neither overlap nor leave gaps. */
  lemma {:induction false} StartsAscending(i: int, j: int)
    requires 0 <= i < j < Count
    ensures Starts[i] < Starts[j]
    decreases j - i
  {
    if j > i + 1 {
      StartsAscending(i, j - 1);
    }
  }

  /** The last bucket at or below `d` among buckets `0..j`, or -1 when `d` is below them all. */
  function LastStartAtMost(d: int, j: int): (i: int)
    requires 0 <= j < Count
    ensures -1 <= i <= j
    ensures i >= 0 ==> Starts[i] <= d
    ensures forall k :: i < k <= j ==> Starts[k] > d
    decreases j
  {
    if Starts[j] <= d then j else if j == 0 then -1 else LastStartAtMost(d, j - 1)
  }

  /** The bucket a duration falls in, or -1 for one below zero. */
  function BucketOf(d: int): int {
    LastStartAtMost(d, Count - 1)
  }

  /** Every duration of zero or more ids in exactly one bucket, and a negative one in none. */
  lemma BucketOfUnique(d: int, i: int)
    requires 0 <= i < Count
    ensures InBucket(d, BucketAt(i)) <==> BucketOf(d) == i
    ensures BucketOf(d) >= 0 <==> d >= 0
  {
    var b := BucketOf(d);
    if b >= 0 && b < i {
      StartsAscending(b, i);
    }
    if b > i {
      StartsAscending(i, b);
      if i + 1 < b {
        StartsAscending(i + 1, b);
      }
    }
    if b < 0 {
      assert Starts[0] > d;
    } else if b > 0 {
      StartsAscending(0, b);
    }
  }

  /** Where the boundaries fall: a bound belongs to the bucket it starts. */
  lemma BucketExamplesLow()
    ensures BucketOf(-1) == -1 && BucketOf(0) == 0 && BucketOf(14) == 0 && BucketOf(15) == 1
  {
    BucketOfUnique(-1, 0);
    BucketOfUnique(0, 0);
    BucketOfUnique(14, 0);
    BucketOfUnique(15, 1);
  }

  lemma BucketExamplesMiddle()
    ensures BucketOf(44) == 1 && BucketOf(45) == 2 && BucketOf(59) == 2 && BucketOf(60) == 3
  {
    BucketOfUnique(44, 1);
    BucketOfUnique(45, 2);
    BucketOfUnique(59, 2);
    BucketOfUnique(60, 3);
  }

  lemma BucketExamplesHigh()
    ensures BucketOf(14399) == 9 && BucketOf(14400) == 10 && BucketOf(1000000) == 10
  {
    BucketOfUnique(14399, 9);
    BucketOfUnique(14400, 10);
    BucketOfUnique(1000000, 10);
  }

  /** The bucket of a row's holding time. */
  function BucketKey(r: Row): int {
    BucketOf(r.durationSeconds)
  }

  /** A bucket's mask selects exactly the rows that `BucketKey` files under it. */
  lemma {:induction false} BucketRowsGroup(df: seq<Row>, i: int)
    requires 0 <= i < Count
    ensures BucketRows(df, BucketAt(i)) == Group(df, BucketKey, i)
    decreases |df|
  {
    if |df| > 0 {
      BucketRowsGroup(df[..|df| - 1], i);
      BucketOfUnique(df[|df| - 1].durationSeconds, i);
    }
  }

  /** A bucket holds trades exactly when some trade's holding time is classified into it. */
  lemma HoldsTradesCount(df: seq<Row>, i: int)
    requires 0 <= i < Count
    ensures HoldsTrades(df, i) <==> CountKey(df, BucketKey, i) > 0
  {
    BucketRowsGroup(df, i);
  }

  /** The row of a bucket with trades. */
  predicate DurationRowOf(df: seq<Row>, i: int, row: DurationRow)
    requires 0 <= i < Count
  {
    row.name == BucketAt(i).name &&
    row.count == CountKey(df, BucketKey, i) && row.count >= 1 &&
    row.totalPnl == Sum(Group(df, BucketKey, i), Net) &&
    0.0 <= row.winRate <= 100.0
  }

  lemma DurationRowForOf(df: seq<Row>, i: int)
    requires 0 <= i < Count && CountKey(df, BucketKey, i) > 0
    ensures DurationRowOf(df, i, DurationRowFor(df, BucketAt(i)))
  {
    var g := BucketRows(df, BucketAt(i));
    BucketRowsGroup(df, i);
    PercentBounds(|Select(g, IsWinRow)|, |g|);
  }

  /** No two buckets share a name. */
  lemma NamesDistinct()
    ensures Distinct(Names) && |Names| == Count
  {
  }

  /** The buckets of `ids` that hold a trade, in the order of `ids`. */
  function Filled(df: seq<Row>, ids: seq<int>): (ps: seq<int>)
    requires Numbers(ids)
    ensures |ps| <= |ids|
    ensures forall i :: i in ps ==> i in ids
    ensures Numbers(ps)
    decreases |ids|
  {
    if |ids| == 0 then []
    else
      var rest := Filled(df, ids[1..]);
      if HoldsTrades(df, ids[0]) then [ids[0]] + rest else rest
  }

  /** The filled buckets of `ids` are exactly those a trade's holding time falls in. */
  lemma {:induction false} FilledMembers(df: seq<Row>, ids: seq<int>)
    requires Numbers(ids)
    ensures forall i :: i in ids ==> (i in Filled(df, ids) <==> HoldsTrades(df, i))
    decreases |ids|
  {
    if |ids| > 0 {
      FilledMembers(df, ids[1..]);
      var ps := Filled(df, ids);
      var rest := Filled(df, ids[1..]);
      assert forall i :: i in ids <==> i == ids[0] || i in ids[1..] by {
        assert ids == [ids[0]] + ids[1..];
      }
      if HoldsTrades(df, ids[0]) {
        assert ps == [ids[0]] + rest;
      }
    }
  }

  /** Picking from a list keeps the list's order. */
  lemma {:induction false} FilledOrder(df: seq<Row>, ids: seq<int>)
    requires Numbers(ids) && Increasing(ids)
    ensures Increasing(Filled(df, ids))
    decreases |ids|
  {
    if |ids| > 0 {
      IncreasingTail(ids);
      FilledOrder(df, ids[1..]);
      if HoldsTrades(df, ids[0]) {
        IncreasingCons(ids[0], Filled(df, ids[1..]));
        assert Filled(df, ids) == [ids[0]] + Filled(df, ids[1..]);
      }
    }
  }

  /** The rows of the buckets `ps`, one each, in order. */
  function RowsFor(df: seq<Row>, ps: seq<int>): (rows: seq<DurationRow>)
    requires Numbers(ps)
    ensures |rows| == |ps|
    ensures forall k :: 0 <= k < |ps| ==> rows[k] == DurationRowFor(df, BucketAt(ps[k]))
    decreases |ps|
  {
    if |ps| == 0 then [] else [DurationRowFor(df, BucketAt(ps[0]))] + RowsFor(df, ps[1..])
  }

  /** The rows of `ids` are the rows of its filled buckets, one each, in order. */
  lemma {:induction false} DurationRowsShape(df: seq<Row>, ids: seq<int>)
    requires Numbers(ids)
    ensures DurationRows(df, ids) == RowsFor(df, Filled(df, ids))
    decreases |ids|
  {
    if |ids| > 0 {
      DurationRowsShape(df, ids[1..]);
      var ps := Filled(df, ids);
      if HoldsTrades(df, ids[0]) {
        assert ps == [ids[0]] + Filled(df, ids[1..]);
        assert ps[1..] == Filled(df, ids[1..]);
      }
    }
  }

  /** Trades counted over the rows. */
  function TotalBucketTrades(rows: seq<DurationRow>): int
    decreases |rows|
  {
    if |rows| == 0 then 0 else rows[0].count + TotalBucketTrades(rows[1..])
  }

  /** The rows of `ids` count, together, the trades of those buckets. */
  lemma {:induction false} DurationRowsTotal(df: seq<Row>, ids: seq<int>)
    requires Numbers(ids)
    ensures TotalBucketTrades(DurationRows(df, ids)) == SumCounts(df, BucketKey, ids)
    decreases |ids|
  {
    if |ids| > 0 {
      DurationRowsTotal(df, ids[1..]);
      BucketRowsGroup(df, ids[0]);
      var rows := DurationRows(df, ids);
      if HoldsTrades(df, ids[0]) {
        assert rows[1..] == DurationRows(df, ids[1..]);
      }
    }
  }

  predicate HasDuration(r: Row) {
    r.durationSeconds >= 0
  }

  /** The rows with a bucket are the rows whose holding time ids not negative. */
  lemma {:induction false} CountInBuckets(df: seq<Row>)
    ensures CountIn(df, BucketKey, Order) == |Select(df, HasDuration)|
    decreases |df|
  {
    if |df| > 0 {
      var front, last := df[..|df| - 1], df[|df| - 1];
      assert df == front + [last];
      CountInBuckets(front);
      SelectAppend(front, last, HasDuration);
      BucketKeyInOrder(last);
    }
  }

  /** The bucket numbers are `0` to `Count - 1`, each once, ascending. */
  lemma OrderFacts()
    ensures forall i :: i in Order <==> 0 <= i < Count
    ensures Increasing(Order)
    ensures Distinct(Order)
  {
    forall i | 0 <= i < Count ensures i in Order {
      assert Order[i] == i;
    }
  }

  /** A row's bucket is one of the table's exactly when its holding time is not negative. */
  lemma BucketKeyInOrder(r: Row)
    ensures BucketKey(r) in Order <==> HasDuration(r)
  {
    OrderFacts();
    BucketOfUnique(r.durationSeconds, 0);
  }

  /**
   * The duration analysis: one row per filled bucket, in table order; each row holds the
   * trades of its bucket, at least one, with a win rate between 0 and 100.
   */
  lemma DurationAnalysisRows(df: seq<Row>)
    ensures var ps := if |df| == 0 then [] else Filled(df, Order);
      |DurationAnalysis(df)| == |ps| <= Count &&
      (forall k :: 0 <= k < |ps| ==> 0 <= ps[k] < Count && DurationRowOf(df, ps[k], DurationAnalysis(df)[k])) &&
      (forall k, l :: 0 <= k < l < |ps| ==> ps[k] < ps[l])
  {
    if |df| > 0 {
      OrderFacts();
      DurationRowsShape(df, Order);
      var ps := Filled(df, Order);
      FilledMembers(df, Order);
      forall k | 0 <= k < |ps| ensures DurationRowOf(df, ps[k], DurationAnalysis(df)[k]) {
        assert ps[k] in ps;
        HoldsTradesCount(df, ps[k]);
        DurationRowForOf(df, ps[k]);
      }
      FilledOrder(df, Order);
    }
  }

  /** Bucket `i` has a row exactly when some trade's holding time falls in it. */
  lemma DurationAnalysisFilled(df: seq<Row>, i: int)
    requires 0 <= i < Count
    ensures (i in (if |df| == 0 then [] else Filled(df, Order))) <==> CountKey(df, BucketKey, i) > 0
  {
    if |df| > 0 {
      OrderFacts();
      FilledMembers(df, Order);
      HoldsTradesCount(df, i);
    }
  }

  /** Every trade with a non-negative holding time is counted in exactly one bucket row. */
  lemma DurationAnalysisTotal(df: seq<Row>)
    ensures TotalBucketTrades(DurationAnalysis(df)) == |Select(df, HasDuration)|
  {
    if |df| > 0 {
      OrderFacts();
      DurationRowsTotal(df, Order);
      SumCountsCountIn(df, BucketKey, Order);
      CountInBuckets(df);
    }
  }

  // ---- format_duration ----

  /** `int(x)` of a float: the fraction dropped, rounding toward zero. */
  function Truncate(x: real): (n: int)
    ensures 0.0 <= x ==> 0 <= n && n as real <= x < n as real + 1.0
    ensures x < 0.0 ==> n <= 0 && n as real - 1.0 < x <= n as real
  {
    if x >= 0.0 then x.Floor else -((-x).Floor)
  }

  /** `x // d` of floats with `d > 0`: the quotient rounded down, as the integer it holds. */
  function FloorDiv(x: real, d: real): (q: int)
    requires d > 0.0
    ensures d * q as real <= x < d * (q + 1) as real
  {
    var y := x / d;
    var q := y.Floor;
    assert x == d * y;
    assert d * (y - q as real) >= 0.0;
    assert d * ((q + 1) as real - y) > 0.0;
    assert d * ((q + 1) as real - y) == d * (q + 1) as real - d * y;
    assert x < d * (q + 1) as real;
    q
  }

  /** `x % d` of floats with `d > 0`: what the rounded-down quotient leaves, always in `[0, d)`. */
  function FloorMod(x: real, d: real): (r: real)
    requires d > 0.0
    ensures 0.0 <= r < d
  {
    x - d * FloorDiv(x, d) as real
  }

  /** Two numbers, each followed by its unit, as the f-strings lay them out. */
  function Show(a: int, u: string, b: int, v: string): string {
    IntToString(a) + " " + u + " " + IntToString(b) + " " + v
  }

  /**
   * `format_duration`: whole seconds under a minute, minutes and seconds under an hour,
   * hours and minutes beyond.
   */
  function FormatDuration(seconds: real): string {
    if seconds < 60.0 then IntToString(Truncate(seconds)) + " sec"
    else if seconds < 3600.0 then
      var mins := Truncate(FloorDiv(seconds, 60.0) as real);
      var secs := Truncate(FloorMod(seconds, 60.0));
      Show(mins, "min", secs, "sec")
    else
      var hours := Truncate(FloorDiv(seconds, 3600.0) as real);
      var mins := Truncate(FloorDiv(FloorMod(seconds, 3600.0), 60.0) as real);
      Show(hours, "hr", mins, "min")
  }

  lemma DigitsHaveNoSpace(n: nat)
    ensures ' ' !in NatToString(n)
  {
  }

  /** Splitting the text of two numbers and their units on spaces gives back all four. */
  lemma ShowSplit(a: nat, u: string, b: nat, v: string)
    requires ' ' !in u && ' ' !in v
    ensures Split(Show(a, u, b, v), ' ') == [NatToString(a), u, NatToString(b), v]
    ensures ParseDigits(NatToString(a)) == a && ParseDigits(NatToString(b)) == b
  {
    var x, y := NatToString(a), NatToString(b);
    DigitsHaveNoSpace(a);
    DigitsHaveNoSpace(b);
    var t3 := y + [' '] + v;
    var t2 := u + [' '] + t3;
    assert IntToString(a) == x && IntToString(b) == y;
    assert Show(a, u, b, v) == x + [' '] + t2;
    SplitWithoutSeparator(v, ' ');
    SplitAtSeparator(y, ' ', v);
    assert Split(t3, ' ') == [y, v];
    SplitAtSeparator(u, ' ', t3);
    assert Split(t2, ' ') == [u, y, v];
    SplitAtSeparator(x, ' ', t2);
    ParseNatToString(a);
    ParseNatToString(b);
  }

  /**
   * Under a minute the text is the whole seconds and "sec"; the number read back from the
   * text is the duration rounded down.
   */
  lemma FormatSeconds(seconds: real)
    requires 0.0 <= seconds < 60.0
    ensures Split(FormatDuration(seconds), ' ') == [NatToString(seconds.Floor), "sec"]
    ensures ParseDigits(Split(FormatDuration(seconds), ' ')[0]) == seconds.Floor
  {
    var n := seconds.Floor;
    assert FormatDuration(seconds) == NatToString(n) + [' '] + "sec";
    DigitsHaveNoSpace(n);
    SplitAtSeparator(NatToString(n), ' ', "sec");
    SplitWithoutSeparator("sec", ' ');
    ParseNatToString(n);
  }

  /**
   * `int()` rounds toward zero: a negative duration above -1 shows as "0 sec", any other
   * as minus its whole seconds.
   */
  lemma FormatNegative(seconds: real)
    requires seconds < 0.0
    ensures -1.0 < seconds ==> FormatDuration(seconds) == "0 sec"
    ensures seconds <= -1.0 ==> FormatDuration(seconds) == "-" + NatToString((-seconds).Floor) + " sec"
  {
  }

  /**
   * Under an hour the text is "M min S sec" with 1 <= M <= 59 and 0 <= S <= 59, and
   * M * 60 + S is the duration's whole seconds.
   */
  lemma FormatMinutes(seconds: real)
    requires 60.0 <= seconds < 3600.0
    ensures |Split(FormatDuration(seconds), ' ')| == 4
    ensures Split(FormatDuration(seconds), ' ')[1] == "min"
    ensures Split(FormatDuration(seconds), ' ')[3] == "sec"
    ensures 1 <= ParseDigits(Split(FormatDuration(seconds), ' ')[0]) <= 59
    ensures 0 <= ParseDigits(Split(FormatDuration(seconds), ' ')[2]) <= 59
    ensures ParseDigits(Split(FormatDuration(seconds), ' ')[0]) * 60 +
            ParseDigits(Split(FormatDuration(seconds), ' ')[2]) == seconds.Floor
  {
    var q := FloorDiv(seconds, 60.0);
    var c := FloorMod(seconds, 60.0).Floor;
    assert 1 <= q <= 59;
    assert (q * 60 + c) as real <= seconds < (q * 60 + c + 1) as real;
    assert FormatDuration(seconds) == Show(q, "min", c, "sec");
    ShowSplit(q, "min", c, "sec");
  }

  /**
   * From an hour on the text is "H hr M min" with H >= 1 and 0 <= M <= 59, and
   * H * 60 + M is the duration's whole minutes.
   */
  lemma FormatHours(seconds: real)
    requires 3600.0 <= seconds
    ensures |Split(FormatDuration(seconds), ' ')| == 4
    ensures Split(FormatDuration(seconds), ' ')[1] == "hr"
    ensures Split(FormatDuration(seconds), ' ')[3] == "min"
    ensures 1 <= ParseDigits(Split(FormatDuration(seconds), ' ')[0])
    ensures 0 <= ParseDigits(Split(FormatDuration(seconds), ' ')[2]) <= 59
    ensures ParseDigits(Split(FormatDuration(seconds), ' ')[0]) * 60 +
            ParseDigits(Split(FormatDuration(seconds), ' ')[2]) == (seconds / 60.0).Floor
  {
    var h := FloorDiv(seconds, 3600.0);
    var m := FloorDiv(FloorMod(seconds, 3600.0), 60.0);
    assert 1 <= h && 0 <= m <= 59;
    assert (h * 60 + m) as real <= seconds / 60.0 < (h * 60 + m + 1) as real;
    assert FormatDuration(seconds) == Show(h, "hr", m, "min");
    ShowSplit(h, "hr", m, "min");
  }
}
