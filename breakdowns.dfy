/**
 * The per-group getters of `AnalyticsService` (services/analytics.py): daily statistics
 * with a running P&L, statistics by weekday of the trading date, statistics by holding
 * time bucket, and the calendar of one month.
 */
module Breakdowns {
  import opened Tally
  import opened Sorting
  import opened Columns
  import opened Calendar
  import opened Analytics

  // ---- get_daily_stats ----

  /** The order `groupby` sorts dates in, as one number `YYYYMMDD`. */
  function DateKey(d: Date): int {
    d.year * 10000 + d.month * 100 + d.day
  }

  /** On calendar days the key orders dates by year, then month, then day, and tells them apart. */
  lemma DateKeyOrder(a: Date, b: Date)
    requires IsDate(a) && IsDate(b)
    ensures DateKey(a) == DateKey(b) ==> a == b
    ensures DateKey(a) < DateKey(b) <==>
      a.year < b.year || (a.year == b.year && (a.month < b.month || (a.month == b.month && a.day < b.day)))
  {
  }

  /** The trading dates in ascending order. */
  function SortedDates(df: seq<Row>): seq<Date> {
    SortBy(TradingDays(df), DateKey)
  }

  datatype DailyRow = DailyRow(
    date: Date, totalPnl: real, tradeCount: int, winCount: int, lossCount: int, cumulativePnl: real)

  /** The row of date `d`, its cumulative P&L adding the day's to `running`. */
  function DayRow(df: seq<Row>, d: Date, running: real): DailyRow {
    var g := Group(df, DateOf, d);
    var total := Sum(g, Net);
    DailyRow(d, total, |g|, |Select(g, IsWinRow)|, |Select(g, IsLossRow)|, running + total)
  }

  /** One row per date of `dates`, the running sum starting from `running`. */
  function DailyRows(df: seq<Row>, dates: seq<Date>, running: real): seq<DailyRow>
    decreases |dates|
  {
    if |dates| == 0 then []
    else
      var row := DayRow(df, dates[0], running);
      [row] + DailyRows(df, dates[1..], row.cumulativePnl)
  }

  /** `get_daily_stats`: `groupby('date')` with sum, count, wins and losses, then `cumsum`. */
  function DailyStats(df: seq<Row>): seq<DailyRow> {
    if |df| == 0 then [] else DailyRows(df, SortedDates(df), 0.0)
  }

  /**
   * Row `row` is the group of date `d`: its net P&L, its number of trades, and its
   * winning and losing trades, which never outnumber the trades.
   */
  predicate RowOfDate(df: seq<Row>, d: Date, row: DailyRow) {
    row.date == d &&
    row.totalPnl == DayPnl(df, d) &&
    row.tradeCount == CountKey(df, DateOf, d) &&
    row.winCount == |Select(Group(df, DateOf, d), IsWinRow)| &&
    row.lossCount == |Select(Group(df, DateOf, d), IsLossRow)| &&
    row.winCount + row.lossCount <= row.tradeCount
  }

  /** A day's row holds its group's figures and moves the running sum by the day's P&L. */
  lemma DayRowOfDate(df: seq<Row>, d: Date, running: real)
    requires Frame(df)
    ensures RowOfDate(df, d, DayRow(df, d, running))
    ensures DayRow(df, d, running).cumulativePnl == running + DayRow(df, d, running).totalPnl
  {
    var g := Group(df, DateOf, d);
    assert forall r :: r in g ==> r in df;
    SelectDisjoint(g, IsWinRow, IsLossRow);
  }

  /**
   * Each row is its date's group: the day's net P&L, its number of trades, and wins and
   * losses that never outnumber the trades.
   */
  lemma {:induction false} DailyRowsGroups(df: seq<Row>, dates: seq<Date>, running: real)
    requires Frame(df)
    ensures |DailyRows(df, dates, running)| == |dates|
    ensures forall i :: 0 <= i < |dates| ==> RowOfDate(df, dates[i], DailyRows(df, dates, running)[i])
    decreases |dates|
  {
    if |dates| > 0 {
      var head := DayRow(df, dates[0], running);
      var rest := DailyRows(df, dates[1..], head.cumulativePnl);
      DailyRowsGroups(df, dates[1..], head.cumulativePnl);
      DayRowOfDate(df, dates[0], running);
      var rows := DailyRows(df, dates, running);
      assert rows[1..] == rest;
      forall i | 1 <= i < |dates| ensures RowOfDate(df, dates[i], rows[i]) {
        assert rows[i] == rest[i - 1] && dates[i] == dates[1..][i - 1];
      }
    }
  }

  /**
   * `cumsum`: each row's cumulative P&L adds its day's to the row before's, and the last
   * is the starting value plus every day's P&L.
   */
  lemma {:induction false} DailyRowsRunning(df: seq<Row>, dates: seq<Date>, running: real)
    requires Frame(df)
    ensures var rows := DailyRows(df, dates, running);
      |rows| == |dates| &&
      (forall i :: 0 <= i < |rows| ==>
        rows[i].cumulativePnl == (if i == 0 then running else rows[i - 1].cumulativePnl) + rows[i].totalPnl) &&
      (|rows| > 0 ==> rows[|rows| - 1].cumulativePnl == running + GroupSums(df, DateOf, Net, dates))
    decreases |dates|
  {
    if |dates| > 0 {
      var head := DayRow(df, dates[0], running);
      var rest := DailyRows(df, dates[1..], head.cumulativePnl);
      DailyRowsRunning(df, dates[1..], head.cumulativePnl);
      DayRowOfDate(df, dates[0], running);
      var rows := DailyRows(df, dates, running);
      assert rows[1..] == rest;
      assert rows[0] == head;
      forall i | 1 <= i < |rows|
        ensures rows[i].cumulativePnl == rows[i - 1].cumulativePnl + rows[i].totalPnl
      {
        assert rows[i] == rest[i - 1];
        if i > 1 {
          assert rows[i - 1] == rest[i - 2];
        }
      }
      if |rest| > 0 {
        assert rows[|rows| - 1] == rest[|rest| - 1];
      }
    }
  }

  /** Distinct keys sorted by an injective key ascend strictly. */
  lemma StrictlyAscending(dates: seq<Date>)
    requires Distinct(dates) && SortedBy(dates, DateKey)
    requires forall d :: d in dates ==> IsDate(d)
    ensures forall i, j :: 0 <= i < j < |dates| ==> DateKey(dates[i]) < DateKey(dates[j])
  {
    forall i, j | 0 <= i < j < |dates| ensures DateKey(dates[i]) < DateKey(dates[j]) {
      DateKeyOrder(dates[i], dates[j]);
    }
  }

  /** The sorted trading dates are the trading dates, each once, strictly ascending. */
  lemma SortedDatesFacts(df: seq<Row>)
    requires Frame(df)
    ensures var dates := SortedDates(df);
      Distinct(dates) &&
      (forall d :: d in dates <==> d in TradingDays(df)) &&
      (forall i, j :: 0 <= i < j < |dates| ==> DateKey(dates[i]) < DateKey(dates[j]))
  {
    var days := TradingDays(df);
    var dates := SortedDates(df);
    SortBySortedPermutation(days, DateKey);
    SortByDistinct(days, DateKey);
    forall d ensures d in dates <==> d in days {
      assert d in multiset(dates) <==> d in multiset(days);
    }
    forall d | d in dates ensures IsDate(d) {
      var r :| r in df && DateOf(r) == d;
    }
    StrictlyAscending(dates);
  }

  /** The daily table has one row per sorted trading date, and the dates ascend strictly. */
  lemma DailyStatsOrdered(df: seq<Row>)
    requires Frame(df)
    ensures var rows := DailyStats(df);
      (|df| > 0 ==> |rows| == |SortedDates(df)|) &&
      (forall i, j :: 0 <= i < j < |rows| ==> DateKey(rows[i].date) < DateKey(rows[j].date))
  {
    if |df| > 0 {
      var dates := SortedDates(df);
      SortedDatesFacts(df);
      DailyRowsGroups(df, dates, 0.0);
      var rows := DailyStats(df);
      forall i, j | 0 <= i < j < |rows| ensures DateKey(rows[i].date) < DateKey(rows[j].date) {
        assert RowOfDate(df, dates[i], rows[i]) && RowOfDate(df, dates[j], rows[j]);
      }
    }
  }

  /** Every trade's date has a row. */
  lemma DailyStatsCovers(df: seq<Row>)
    requires Frame(df)
    ensures var rows := DailyStats(df);
      forall r :: r in df ==> exists i :: 0 <= i < |rows| && rows[i].date == r.date
  {
    if |df| > 0 {
      var dates := SortedDates(df);
      SortedDatesFacts(df);
      DailyRowsGroups(df, dates, 0.0);
      var rows := DailyStats(df);
      forall r | r in df ensures exists i :: 0 <= i < |rows| && rows[i].date == r.date {
        assert DateOf(r) in TradingDays(df);
        var i :| 0 <= i < |dates| && dates[i] == r.date;
        assert RowOfDate(df, dates[i], rows[i]);
      }
    }
  }

  /** Rows built for trading dates are never empty and each date is some trade's. */
  lemma DailyRowsWitnessed(df: seq<Row>, dates: seq<Date>, running: real)
    requires Frame(df)
    requires forall d :: d in dates ==> d in TradingDays(df)
    ensures var rows := DailyRows(df, dates, running);
      forall i :: 0 <= i < |rows| ==>
        rows[i].tradeCount >= 1 && exists r :: r in df && r.date == rows[i].date
  {
    DailyRowsGroups(df, dates, running);
    var rows := DailyRows(df, dates, running);
    forall i | 0 <= i < |rows| ensures rows[i].tradeCount >= 1 && exists r :: r in df && r.date == rows[i].date {
      assert RowOfDate(df, dates[i], rows[i]);
      assert dates[i] in dates;
      var r :| r in df && DateOf(r) == dates[i];
      CountKeyPresent(df, DateOf, r);
      assert r.date == rows[i].date;
    }
  }

  /** Every row's date is some trade's, and the row counts at least that trade. */
  lemma DailyStatsWitnessed(df: seq<Row>)
    requires Frame(df)
    ensures var rows := DailyStats(df);
      forall i :: 0 <= i < |rows| ==>
        rows[i].tradeCount >= 1 && exists r :: r in df && r.date == rows[i].date
  {
    if |df| > 0 {
      var dates := SortedDates(df);
      assert DailyStats(df) == DailyRows(df, dates, 0.0);
      SortedDatesFacts(df);
      DailyRowsWitnessed(df, dates, 0.0);
    }
  }

  /** `cumsum` ends at the total net P&L of the frame. */
  lemma DailyStatsTotal(df: seq<Row>)
    requires Frame(df)
    ensures var rows := DailyStats(df);
      |df| > 0 ==> |rows| > 0 && rows[|rows| - 1].cumulativePnl == Sum(df, Net)
  {
    if |df| > 0 {
      var dates := SortedDates(df);
      SortedDatesFacts(df);
      GroupCountBounds(df, DateOf);
      DailyRowsRunning(df, dates, 0.0);
      forall r | r in df ensures DateOf(r) in dates {
        assert DateOf(r) in TradingDays(df);
      }
      PartitionSum(df, DateOf, Net, dates);
    }
  }

  // ---- get_day_of_week_stats ----

  /** The days the weekday statistics report on, in their order. */
  const Weekdays: seq<string> := ["Monday", "Tuesday", "Wednesday", "Thursday", "Friday"]

  function DayNameOf(r: Row): string { r.dayOfWeek }

  datatype DowRow = DowRow(day: string, tradeCount: int, totalPnl: real, winRate: real)

  /** The row of day `n`: its trades, their net P&L and the share of them that won. */
  function DowRowFor(df: seq<Row>, n: string): DowRow {
    var g := Group(df, DayNameOf, n);
    DowRow(n, |g|, Sum(g, Net), Percent(|Select(g, IsWinRow)|, |g|))
  }

  /** The statistics of the days of `names` that have trades, in the order of `names`. */
  function DowRows(df: seq<Row>, names: seq<string>): seq<DowRow>
    decreases |names|
  {
    if |names| == 0 then []
    else
      var rest := DowRows(df, names[1..]);
      if CountKey(df, DayNameOf, names[0]) > 0 then [DowRowFor(df, names[0])] + rest else rest
  }

  /** `get_day_of_week_stats`: rows only for the weekdays Monday to Friday that have trades. */
  function DayOfWeekStats(df: seq<Row>): seq<DowRow> {
    if |df| == 0 then [] else DowRows(df, Weekdays)
  }

  /** Row `row` reports the group of day `n`. */
  predicate DowRowOf(df: seq<Row>, n: string, row: DowRow) {
    row.day == n &&
    row.tradeCount == CountKey(df, DayNameOf, n) && row.tradeCount >= 1 &&
    row.totalPnl == Sum(Group(df, DayNameOf, n), Net) &&
    0.0 <= row.winRate <= 100.0
  }

  lemma DowRowForOf(df: seq<Row>, n: string)
    requires CountKey(df, DayNameOf, n) > 0
    ensures DowRowOf(df, n, DowRowFor(df, n))
  {
    var g := Group(df, DayNameOf, n);
    PercentBounds(|Select(g, IsWinRow)|, |g|);
  }

  /** Each row is the group of a day of `names` with at least one trade, and a win rate between 0 and 100. */
  lemma {:induction false} DowRowsGroups(df: seq<Row>, names: seq<string>)
    ensures forall k :: 0 <= k < |DowRows(df, names)| ==>
      DowRows(df, names)[k].day in names && DowRowOf(df, DowRows(df, names)[k].day, DowRows(df, names)[k])
    decreases |names|
  {
    if |names| > 0 {
      var rest := DowRows(df, names[1..]);
      DowRowsGroups(df, names[1..]);
      var rows := DowRows(df, names);
      if CountKey(df, DayNameOf, names[0]) > 0 {
        DowRowForOf(df, names[0]);
        assert rows[1..] == rest;
        forall k | 1 <= k < |rows| ensures rows[k].day in names && DowRowOf(df, rows[k].day, rows[k]) {
          assert rows[k] == rest[k - 1];
          assert rest[k - 1].day in names[1..];
          InTail(names, rest[k - 1].day);
        }
      }
    }
  }

  /** A day of `names` with a trade has a row. */
  lemma {:induction false} DowRowsPresent(df: seq<Row>, names: seq<string>, n: string)
    requires n in names && CountKey(df, DayNameOf, n) > 0
    ensures exists k :: 0 <= k < |DowRows(df, names)| && DowRows(df, names)[k].day == n
    decreases |names|
  {
    var rows := DowRows(df, names);
    if CountKey(df, DayNameOf, names[0]) > 0 {
      var rest := DowRows(df, names[1..]);
      assert rows == [DowRowFor(df, names[0])] + rest;
      if n != names[0] {
        assert n in names[1..] by {
          assert names == [names[0]] + names[1..];
        }
        DowRowsPresent(df, names[1..], n);
        var k :| 0 <= k < |rest| && rest[k].day == n;
        assert rows[k + 1] == rest[k];
      } else {
        assert rows[0].day == n;
      }
    } else {
      assert n != names[0];
      assert n in names[1..] by {
        assert names == [names[0]] + names[1..];
      }
      DowRowsPresent(df, names[1..], n);
    }
  }

  lemma InTail(names: seq<string>, n: string)
    requires |names| > 0 && n in names[1..]
    ensures n in names
  {
    var i :| 0 <= i < |names[1..]| && names[1..][i] == n;
    assert names[i + 1] == n;
  }

  /** With distinct names the rows come in the order of `names`, each day at most once. */
  lemma {:induction false} DowRowsOrder(df: seq<Row>, names: seq<string>)
    requires Distinct(names)
    ensures forall k, l :: 0 <= k < l < |DowRows(df, names)| ==>
      IndexIn(names, DowRows(df, names)[k].day) < IndexIn(names, DowRows(df, names)[l].day)
    decreases |names|
  {
    if |names| > 0 {
      var rest := DowRows(df, names[1..]);
      DistinctTail(names);
      DowRowsOrder(df, names[1..]);
      DowRowsGroups(df, names[1..]);
      var rows := DowRows(df, names);
      forall k | 0 <= k < |rest| ensures IndexIn(names, rest[k].day) == 1 + IndexIn(names[1..], rest[k].day) {
        assert rest[k].day in names[1..] && DowRowOf(df, rest[k].day, rest[k]);
      }
      if |Group(df, DayNameOf, names[0])| > 0 {
        assert rows[1..] == rest;
        forall k, l | 0 <= k < l < |rows| ensures IndexIn(names, rows[k].day) < IndexIn(names, rows[l].day) {
          assert rows[l] == rest[l - 1];
          if k > 0 {
            assert rows[k] == rest[k - 1];
          }
        }
      }
    }
  }

  /** The weekday of a row's trading date, 0 for Monday. */
  function WeekdayNumber(r: Row): int {
    if IsDate(r.date) then Weekday(r.date) else -1
  }

  /** The trading date falls on Monday to Friday. */
  predicate OnWeekday(r: Row) {
    0 <= WeekdayNumber(r) < 5
  }

  /** The names are those of weekdays 0 to 4, and no two weekdays share a name. */
  lemma WeekdayNames(w: int, v: int)
    requires 0 <= w < 7 && 0 <= v < 7
    ensures w < 5 ==> Weekdays[w] == DayName(w)
    ensures DayName(w) in Weekdays <==> w < 5
    ensures DayName(w) == DayName(v) ==> w == v
  {
  }

  /** Under the prepared columns, a row's day name is the name of its trading date's weekday. */
  lemma {:induction false} DayNameCounts(df: seq<Row>, w: int)
    requires Frame(df) && 0 <= w < 7
    ensures CountKey(df, DayNameOf, DayName(w)) == CountKey(df, WeekdayNumber, w)
    decreases |df|
  {
    if |df| > 0 {
      var last := df[|df| - 1];
      assert last in df;
      assert forall r :: r in df[..|df| - 1] ==> r in df;
      DayNameCounts(df[..|df| - 1], w);
      WeekdayNames(w, Weekday(last.date));
    }
  }

  /** The trades whose day name is one of Monday to Friday are the trades on weekdays. */
  lemma {:induction false} CountInWeekdays(df: seq<Row>)
    requires Frame(df)
    ensures CountIn(df, DayNameOf, Weekdays) == |Select(df, OnWeekday)|
    decreases |df|
  {
    if |df| > 0 {
      var front, last := df[..|df| - 1], df[|df| - 1];
      assert last in df;
      assert forall r :: r in front ==> r in df;
      assert df == front + [last];
      CountInWeekdays(front);
      SelectAppend(front, last, OnWeekday);
      WeekdayNames(Weekday(last.date), 0);
    }
  }

  /** Trades counted over the rows. */
  function TotalDowTrades(rows: seq<DowRow>): int
    decreases |rows|
  {
    if |rows| == 0 then 0 else rows[0].tradeCount + TotalDowTrades(rows[1..])
  }

  /** The rows count, together, the trades of the listed days. */
  lemma {:induction false} DowRowsTotal(df: seq<Row>, names: seq<string>)
    ensures TotalDowTrades(DowRows(df, names)) == SumCounts(df, DayNameOf, names)
    decreases |names|
  {
    if |names| > 0 {
      DowRowsTotal(df, names[1..]);
      var rows := DowRows(df, names);
      if CountKey(df, DayNameOf, names[0]) > 0 {
        assert rows[1..] == DowRows(df, names[1..]);
      }
    }
  }

  /**
   * The weekday statistics come Monday to Friday in that order, at most one row per day;
   * each row counts the trades whose trading date falls on its day, at least one, and
   * has a win rate between 0 and 100.
   */
  lemma DayOfWeekStatsRows(df: seq<Row>)
    requires Frame(df)
    ensures forall k, l :: 0 <= k < l < |DayOfWeekStats(df)| ==>
      IndexIn(Weekdays, DayOfWeekStats(df)[k].day) < IndexIn(Weekdays, DayOfWeekStats(df)[l].day)
    ensures forall k :: 0 <= k < |DayOfWeekStats(df)| ==>
      DayOfWeekStats(df)[k].day in Weekdays &&
      DayOfWeekStats(df)[k].tradeCount == CountKey(df, WeekdayNumber, IndexIn(Weekdays, DayOfWeekStats(df)[k].day)) &&
      DayOfWeekStats(df)[k].tradeCount >= 1 &&
      0.0 <= DayOfWeekStats(df)[k].winRate <= 100.0
  {
    assert Distinct(Weekdays);
    if |df| > 0 {
      var rows := DowRows(df, Weekdays);
      DowRowsOrder(df, Weekdays);
      DowRowsGroups(df, Weekdays);
      forall k | 0 <= k < |rows|
        ensures rows[k].tradeCount == CountKey(df, WeekdayNumber, IndexIn(Weekdays, rows[k].day))
      {
        var w := IndexIn(Weekdays, rows[k].day);
        WeekdayNames(w, 0);
        DayNameCounts(df, w);
      }
    }
  }

  /** A weekday has a row exactly when some trade's trading date falls on it. */
  lemma DayOfWeekStatsPresent(df: seq<Row>, w: int)
    requires Frame(df) && 0 <= w < 5
    ensures CountKey(df, WeekdayNumber, w) > 0 <==>
      exists k :: 0 <= k < |DayOfWeekStats(df)| && DayOfWeekStats(df)[k].day == Weekdays[w]
  {
    WeekdayNames(w, 0);
    DayNameCounts(df, w);
    var rows := DayOfWeekStats(df);
    if exists k :: 0 <= k < |rows| && rows[k].day == Weekdays[w] {
      var k :| 0 <= k < |rows| && rows[k].day == Weekdays[w];
      DowRowsGroups(df, Weekdays);
      assert rows == DowRows(df, Weekdays);
      assert DowRowOf(df, rows[k].day, rows[k]);
    }
    if CountKey(df, WeekdayNumber, w) > 0 {
      assert |df| > 0;
      DowRowsPresent(df, Weekdays, Weekdays[w]);
    }
  }

  /** Weekend trades are in no row, and every weekday trade is in exactly one. */
  lemma DayOfWeekStatsTotal(df: seq<Row>)
    requires Frame(df)
    ensures TotalDowTrades(DayOfWeekStats(df)) == |Select(df, OnWeekday)|
  {
    if |df| > 0 {
      assert Distinct(Weekdays);
      DowRowsTotal(df, Weekdays);
      SumCountsCountIn(df, DayNameOf, Weekdays);
      CountInWeekdays(df);
    }
  }

  // ---- get_monthly_calendar ----

  /** `date(year, month, day)` gives a date rather than raising `ValueError`. */
  predicate ValidDay(y: int, m: int, day: int) {
    IsDate(Date(y, m, day)) && InPythonRange(Date(y, m, day))
  }

  /** `calendar_data[day]`: the day's net P&L and number of trades. */
  datatype CalendarDay = CalendarDay(day: int, pnl: real, tradeCount: int)

  /** `range(1, 32)`: the days the loop tries. */
  const MonthDays: seq<int> := Range(1, 32)

  /** The entry of `day`, from the trades on that date. */
  function CalendarEntry(df: seq<Row>, y: int, m: int, day: int): CalendarDay {
    var g := Group(df, DateOf, Date(y, m, day));
    CalendarDay(day, Sum(g, Net), |g|)
  }

  /** The entries of the days of `days` that are dates and have trades, in the order tried. */
  function CalendarRows(df: seq<Row>, y: int, m: int, days: seq<int>): seq<CalendarDay>
    decreases |days|
  {
    if |days| == 0 then []
    else
      var rest := CalendarRows(df, y, m, days[1..]);
      if ValidDay(y, m, days[0]) && |Group(df, DateOf, Date(y, m, days[0]))| > 0 then
        [CalendarEntry(df, y, m, days[0])] + rest
      else rest
  }

  /** `get_monthly_calendar(year, month)`. */
  function MonthlyCalendar(df: seq<Row>, y: int, m: int): seq<CalendarDay> {
    if |df| == 0 then [] else CalendarRows(df, y, m, MonthDays)
  }

  /** What an entry of month `y`-`m` holds: a real date with trades, their count and net P&L. */
  predicate EntryOf(df: seq<Row>, y: int, m: int, e: CalendarDay) {
    ValidDay(y, m, e.day) &&
    e.tradeCount == CountKey(df, DateOf, Date(y, m, e.day)) && e.tradeCount >= 1 &&
    e.pnl == DayPnl(df, Date(y, m, e.day))
  }

  /** Every entry is one of the days tried, a date with trades, with that date's count and P&L. */
  lemma {:induction false} CalendarRowsEntries(df: seq<Row>, y: int, m: int, days: seq<int>)
    ensures forall k :: 0 <= k < |CalendarRows(df, y, m, days)| ==>
      CalendarRows(df, y, m, days)[k].day in days && EntryOf(df, y, m, CalendarRows(df, y, m, days)[k])
    decreases |days|
  {
    if |days| > 0 {
      CalendarRowsEntries(df, y, m, days[1..]);
      assert forall d :: d in days[1..] ==> d in days;
    }
  }

  /** A day tried that is a date of the month with trades has an entry. */
  lemma {:induction false} CalendarRowsPresent(df: seq<Row>, y: int, m: int, days: seq<int>, day: int)
    requires day in days
    requires ValidDay(y, m, day) && CountKey(df, DateOf, Date(y, m, day)) > 0
    ensures exists k :: 0 <= k < |CalendarRows(df, y, m, days)| && CalendarRows(df, y, m, days)[k].day == day
    decreases |days|
  {
    var rows := CalendarRows(df, y, m, days);
    var rest := CalendarRows(df, y, m, days[1..]);
    if days[0] == day {
      assert |Group(df, DateOf, Date(y, m, day))| > 0;
      assert rows == [CalendarEntry(df, y, m, day)] + rest;
      assert rows[0].day == day;
    } else {
      assert day in days[1..];
      CalendarRowsPresent(df, y, m, days[1..], day);
      var j :| 0 <= j < |rest| && rest[j].day == day;
      if ValidDay(y, m, days[0]) && |Group(df, DateOf, Date(y, m, days[0]))| > 0 {
        assert rows == [CalendarEntry(df, y, m, days[0])] + rest;
        assert rows[j + 1].day == day;
      } else {
        assert rows == rest;
      }
    }
  }

  /** Days tried in ascending order give entries in ascending order of day. */
  lemma {:induction false} CalendarRowsOrder(df: seq<Row>, y: int, m: int, days: seq<int>)
    requires forall i, j :: 0 <= i < j < |days| ==> days[i] < days[j]
    ensures forall i, j :: 0 <= i < j < |CalendarRows(df, y, m, days)| ==>
      CalendarRows(df, y, m, days)[i].day < CalendarRows(df, y, m, days)[j].day
    decreases |days|
  {
    if |days| > 0 {
      var rows := CalendarRows(df, y, m, days);
      var rest := CalendarRows(df, y, m, days[1..]);
      CalendarRowsOrder(df, y, m, days[1..]);
      if ValidDay(y, m, days[0]) && |Group(df, DateOf, Date(y, m, days[0]))| > 0 {
        assert rows == [CalendarEntry(df, y, m, days[0])] + rest;
        CalendarRowsEntries(df, y, m, days[1..]);
        forall j | 0 <= j < |rest| ensures days[0] < rest[j].day {
          var i :| 0 <= i < |days[1..]| && days[1..][i] == rest[j].day;
          assert days[i + 1] == rest[j].day;
        }
      }
    }
  }

  lemma MonthDaysFacts()
    ensures Distinct(MonthDays)
    ensures forall d :: d in MonthDays <==> 1 <= d <= 31
    ensures forall i, j :: 0 <= i < j < |MonthDays| ==> MonthDays[i] < MonthDays[j]
  {
    forall d | 1 <= d <= 31 ensures d in MonthDays {
      assert MonthDays[d - 1] == d;
    }
  }

  /**
   * The calendar lists, in ascending order, days 1 to 31 that are dates of the month, each
   * with the count and net P&L of that date's trades.
   */
  lemma MonthlyCalendarEntries(df: seq<Row>, y: int, m: int)
    ensures forall i, j :: 0 <= i < j < |MonthlyCalendar(df, y, m)| ==>
      MonthlyCalendar(df, y, m)[i].day < MonthlyCalendar(df, y, m)[j].day
    ensures forall k :: 0 <= k < |MonthlyCalendar(df, y, m)| ==> EntryOf(df, y, m, MonthlyCalendar(df, y, m)[k])
    ensures |MonthlyCalendar(df, y, m)| <= 31
  {
    if |df| > 0 {
      MonthDaysFacts();
      CalendarRowsEntries(df, y, m, MonthDays);
      CalendarRowsOrder(df, y, m, MonthDays);
      CalendarRowsLength(df, y, m, MonthDays);
    }
  }

  lemma {:induction false} CalendarRowsLength(df: seq<Row>, y: int, m: int, days: seq<int>)
    ensures |CalendarRows(df, y, m, days)| <= |days|
    decreases |days|
  {
    if |days| > 0 {
      CalendarRowsLength(df, y, m, days[1..]);
    }
  }

  /** A day has an entry exactly when it is a date of the month on which there were trades. */
  lemma MonthlyCalendarPresent(df: seq<Row>, y: int, m: int, day: int)
    ensures (exists k :: 0 <= k < |MonthlyCalendar(df, y, m)| && MonthlyCalendar(df, y, m)[k].day == day)
      <==> ValidDay(y, m, day) && CountKey(df, DateOf, Date(y, m, day)) > 0
  {
    MonthDaysFacts();
    if |df| == 0 {
      assert CountKey(df, DateOf, Date(y, m, day)) == 0;
    } else {
      assert MonthlyCalendar(df, y, m) == CalendarRows(df, y, m, MonthDays);
      CalendarRowsEntries(df, y, m, MonthDays);
      if ValidDay(y, m, day) && CountKey(df, DateOf, Date(y, m, day)) > 0 {
        CalendarRowsPresent(df, y, m, MonthDays, day);
      }
    }
  }

  /** A month or year `date` refuses has an empty calendar. */
  lemma MonthlyCalendarInvalid(df: seq<Row>, y: int, m: int)
    requires !(1 <= m <= 12 && 1 <= y <= 9999)
    ensures MonthlyCalendar(df, y, m) == []
  {
    if |MonthlyCalendar(df, y, m)| > 0 {
      CalendarRowsEntries(df, y, m, MonthDays);
      assert false;
    }
  }

  function TotalCalendarTrades(rows: seq<CalendarDay>): int
    decreases |rows|
  {
    if |rows| == 0 then 0 else rows[0].tradeCount + TotalCalendarTrades(rows[1..])
  }

  /** The year and month of a row's trading date. */
  function MonthOf(r: Row): (int, int) {
    (r.date.year, r.date.month)
  }

  function DayOfMonth(r: Row): int {
    r.date.day
  }

  /** Within the rows of month `y`-`m`, those on day `d` are the rows dated `y`-`m`-`d`. */
  lemma {:induction false} DayCountInMonth(df: seq<Row>, y: int, m: int, d: int)
    ensures CountKey(Group(df, MonthOf, (y, m)), DayOfMonth, d) == CountKey(df, DateOf, Date(y, m, d))
    decreases |df|
  {
    if |df| > 0 {
      var front, last := df[..|df| - 1], df[|df| - 1];
      assert df == front + [last];
      DayCountInMonth(front, y, m, d);
      GroupAppend(front, last, MonthOf, (y, m));
      CountKeyAppend(front, last, DateOf, Date(y, m, d));
      if MonthOf(last) == (y, m) {
        CountKeyAppend(Group(front, MonthOf, (y, m)), last, DayOfMonth, d);
      }
    }
  }

  /** When the days that are not dates have no trades, the entries count every trade on the days tried. */
  lemma {:induction false} CalendarRowsTotal(df: seq<Row>, y: int, m: int, days: seq<int>)
    requires forall k :: 0 <= k < |days| ==> ValidDay(y, m, days[k]) || CountKey(df, DateOf, Date(y, m, days[k])) == 0
    ensures TotalCalendarTrades(CalendarRows(df, y, m, days)) == SumCounts(Group(df, MonthOf, (y, m)), DayOfMonth, days)
    decreases |days|
  {
    if |days| > 0 {
      var rest := CalendarRows(df, y, m, days[1..]);
      assert forall k :: 0 <= k < |days[1..]| ==> days[1..][k] == days[k + 1];
      CalendarRowsTotal(df, y, m, days[1..]);
      DayCountInMonth(df, y, m, days[0]);
      if ValidDay(y, m, days[0]) && |Group(df, DateOf, Date(y, m, days[0]))| > 0 {
        assert CalendarRows(df, y, m, days) == [CalendarEntry(df, y, m, days[0])] + rest;
      } else {
        assert CalendarRows(df, y, m, days) == rest;
      }
    }
  }

  /** For a year `date` accepts, the entries' trade counts add up to the trades of the month. */
  lemma MonthlyCalendarTotal(df: seq<Row>, y: int, m: int)
    requires Frame(df)
    requires 1 <= y <= 9999
    ensures TotalCalendarTrades(MonthlyCalendar(df, y, m)) == CountKey(df, MonthOf, (y, m))
  {
    if |df| == 0 {
      assert CountKey(df, MonthOf, (y, m)) == 0;
    } else {
      MonthDaysFacts();
      forall k | 0 <= k < |MonthDays| ensures ValidDay(y, m, MonthDays[k]) || CountKey(df, DateOf, Date(y, m, MonthDays[k])) == 0 {
        var g := Group(df, DateOf, Date(y, m, MonthDays[k]));
        if |g| > 0 {
          assert g[0] in g;
          assert Prepared(g[0]);
        }
      }
      CalendarRowsTotal(df, y, m, MonthDays);
      var inMonth := Group(df, MonthOf, (y, m));
      forall x | x in inMonth ensures DayOfMonth(x) in MonthDays {
        assert Prepared(x);
      }
      PartitionCount(inMonth, DayOfMonth, MonthDays);
    }
  }
}
