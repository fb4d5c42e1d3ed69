/**
 * `AnalyticsService` (services/analytics.py): the data frame built once from the stored
 * round trips, with its derived columns (Tokyo entry time, CME trading date, net P&L,
 * weekday name, win and loss flags), and `get_summary_metrics`, the dashboard's headline
 * numbers.
 */
module Analytics {
  import opened Wrappers
  import opened Text
  import opened Tally
  import opened Columns
  import opened Calendar

  /** A stored round trip as the service receives it; `pnl` and `fees` may be missing. */
  datatype Trade = Trade(
    symbol: string,
    side: string,
    entryTime: DateTime,
    exitTime: DateTime,
    entryPrice: real,
    exitPrice: real,
    quantity: int,
    pnl: Option<real>,
    fees: Option<real>,
    durationSeconds: int)

  /**
   * Timestamps `pd.to_datetime` reads as real instants (not `NaT`), with an exit year
   * `str` renders in four digits.
   */
  predicate Readable(t: Trade) {
    IsDateTime(t.entryTime) && IsDateTime(t.exitTime) && InPythonRange(t.exitTime.date)
  }

  type ReadableTrade = t: Trade | Readable(t)
    witness Trade("", "", DateTime(Date(2000, 1, 1), 0, 0, 0, 0), DateTime(Date(2000, 1, 1), 0, 0, 0, 0),
      0.0, 0.0, 0, None, None, 0)

  /** One row of the data frame, with the columns `_prepare_dataframe` adds. */
  datatype Row = Row(
    symbol: string,
    side: string,
    entryTime: DateTime,
    entryTimeJst: DateTime,
    date: Date,
    exitTime: DateTime,
    entryPrice: real,
    exitPrice: real,
    quantity: int,
    pnl: real,
    fees: real,
    netPnl: real,
    durationSeconds: int,
    dayOfWeek: string,
    isWin: bool,
    isLoss: bool)

  /** What every prepared row satisfies. */
  predicate Prepared(r: Row) {
    IsDateTime(r.exitTime) && InPythonRange(r.exitTime.date) && IsDate(r.date) &&
    r.netPnl == r.pnl - r.fees &&
    (r.isWin <==> r.netPnl > 0.0) && (r.isLoss <==> r.netPnl < 0.0) &&
    r.dayOfWeek == DayName(Weekday(r.date))
  }

  predicate Frame(df: seq<Row>) {
    forall r :: r in df ==> Prepared(r)
  }

  /** The derived columns of one trade. */
  function PrepareRow(t: Trade): (r: Row)
    requires Readable(t)
    ensures Prepared(r)
    ensures r.date == UtcTradingDate(t.entryTime)
    ensures r.netPnl == t.pnl.GetOr(0.0) - t.fees.GetOr(0.0)
    ensures !(r.isWin && r.isLoss)
  {
    TradingDateFromUtc(t.entryTime);
    var jst := ToTokyo(t.entryTime);
    var date := CmeTradingDate(jst);
    var pnl := t.pnl.GetOr(0.0);
    var fees := t.fees.GetOr(0.0);
    var net := pnl - fees;
    Row(t.symbol, t.side, t.entryTime, jst, date, t.exitTime, t.entryPrice, t.exitPrice,
      t.quantity, pnl, fees, net, t.durationSeconds, DayName(Weekday(date)), net > 0.0, net < 0.0)
  }

  /** `_prepare_dataframe`: one prepared row per trade, in the same order. */
  function PrepareDataframe(trades: seq<ReadableTrade>): (df: seq<Row>)
    ensures |df| == |trades|
    ensures Frame(df)
    ensures forall i :: 0 <= i < |trades| ==>
      df[i].date == UtcTradingDate(trades[i].entryTime) &&
      df[i].netPnl == trades[i].pnl.GetOr(0.0) - trades[i].fees.GetOr(0.0) &&
      df[i].symbol == trades[i].symbol && df[i].side == trades[i].side &&
      df[i].quantity == trades[i].quantity && df[i].durationSeconds == trades[i].durationSeconds &&
      df[i].entryTime == trades[i].entryTime && df[i].exitTime == trades[i].exitTime &&
      df[i].entryPrice == trades[i].entryPrice && df[i].exitPrice == trades[i].exitPrice
  {
    seq(|trades|, i requires 0 <= i < |trades| => PrepareRow(trades[i]))
  }

  // Columns of the frame, as functions a selection or a sum can take.

  function Net(r: Row): real { r.netPnl }
  function Fee(r: Row): real { r.fees }
  function Duration(r: Row): real { r.durationSeconds as real }
  function DateOf(r: Row): Date { r.date }
  predicate IsWinRow(r: Row) { r.isWin }
  predicate IsLossRow(r: Row) { r.isLoss }
  /** `df['side'].str.upper() == 'LONG'`. */
  predicate IsLongRow(r: Row) { Upper(r.side) == "LONG" }

  function Abs(x: real): real {
    if x < 0.0 then -x else x
  }

  /** `part / whole * 100 if whole > 0 else 0`. */
  function Percent(part: int, whole: int): real {
    if whole > 0 then part as real / whole as real * 100.0 else 0.0
  }

  /** `a / b if b > 0 else 0`. */
  function Ratio(a: real, b: real): real {
    if b > 0.0 then a / b else 0.0
  }

  /** `xs[f].mean() if len(xs) > 0 else 0`. */
  function MeanOrZero(xs: seq<Row>, f: Row -> real): real {
    if |xs| > 0 then Mean(xs, f) else 0.0
  }

  function Wins(df: seq<Row>): seq<Row> { Select(df, IsWinRow) }
  function Losses(df: seq<Row>): seq<Row> { Select(df, IsLossRow) }

  function AvgWin(df: seq<Row>): real { MeanOrZero(Wins(df), Net) }

  function AvgLoss(df: seq<Row>): real {
    if |Losses(df)| > 0 then Abs(Mean(Losses(df), Net)) else 0.0
  }

  function GrossProfit(df: seq<Row>): real {
    if |Wins(df)| > 0 then Sum(Wins(df), Net) else 0.0
  }

  function GrossLoss(df: seq<Row>): real {
    if |Losses(df)| > 0 then Abs(Sum(Losses(df), Net)) else 0.0
  }

  /** `int(df['quantity'].sum())`. */
  function TotalLots(df: seq<Row>): int
    decreases |df|
  {
    if |df| == 0 then 0 else TotalLots(df[..|df| - 1]) + df[|df| - 1].quantity
  }

  /** The trading dates of `df.groupby('date')`. */
  function TradingDays(df: seq<Row>): seq<Date> {
    KeysInOrder(df, DateOf)
  }

  /** `df.groupby('date')['net_pnl'].sum()` at one date. */
  function DayPnl(df: seq<Row>, d: Date): real {
    Sum(Group(df, DateOf, d), Net)
  }

  /** `(daily_pnl_series > 0).sum()` over the dates of `days`. */
  function WinningDays(df: seq<Row>, days: seq<Date>): (n: nat)
    ensures n <= |days|
    decreases |days|
  {
    if |days| == 0 then 0
    else (if DayPnl(df, days[0]) > 0.0 then 1 else 0) + WinningDays(df, days[1..])
  }

  /** `daily_pnl_series.max()`. */
  function BestDayPnl(df: seq<Row>, days: seq<Date>): (m: real)
    requires |days| > 0
    ensures forall i :: 0 <= i < |days| ==> DayPnl(df, days[i]) <= m
    ensures exists i :: 0 <= i < |days| && DayPnl(df, days[i]) == m
    decreases |days|
  {
    if |days| == 1 then DayPnl(df, days[0])
    else
      var rest := BestDayPnl(df, days[1..]);
      assert forall i :: 1 <= i < |days| ==> days[i] == days[1..][i - 1];
      if DayPnl(df, days[0]) >= rest then DayPnl(df, days[0]) else rest
  }

  /**
   * `df['net_pnl'].idxmax()`: the first row holding the largest net P&L. Its ensures need
   * the recursive call's.
   */
  function BestIndex(df: seq<Row>): (i: nat)
    requires |df| > 0
    ensures i < |df|
    ensures forall j :: 0 <= j < |df| ==> df[j].netPnl <= df[i].netPnl
    ensures forall j :: 0 <= j < i ==> df[j].netPnl < df[i].netPnl
    decreases |df|
  {
    if |df| == 1 then 0
    else
      var b := BestIndex(df[..|df| - 1]);
      if df[|df| - 1].netPnl > df[b].netPnl then |df| - 1 else b
  }

  /** `df['net_pnl'].idxmin()`: the first row holding the smallest net P&L. */
  function WorstIndex(df: seq<Row>): (i: nat)
    requires |df| > 0
    ensures i < |df|
    ensures forall j :: 0 <= j < |df| ==> df[i].netPnl <= df[j].netPnl
    ensures forall j :: 0 <= j < i ==> df[i].netPnl < df[j].netPnl
    decreases |df|
  {
    if |df| == 1 then 0
    else
      var w := WorstIndex(df[..|df| - 1]);
      if df[|df| - 1].netPnl < df[w].netPnl then |df| - 1 else w
  }

  /**
   * `str(exit_time)[:19]` of a UTC timestamp: `YYYY-MM-DD HH:MM:SS`, the rest of the
   * rendering (fraction and offset) cut off.
   */
  function TimestampText(t: DateTime): (s: string)
    requires IsDateTime(t) && InPythonRange(t.date)
    ensures |s| == 19
  {
    NatToStringLength(t.date.year);
    NatToStringLength(t.date.month);
    NatToStringLength(t.date.day);
    NatToStringLength(t.hour);
    NatToStringLength(t.minute);
    NatToStringLength(t.second);
    PadLeft(t.date.year, 4) + "-" + PadLeft(t.date.month, 2) + "-" + PadLeft(t.date.day, 2) + " " +
    PadLeft(t.hour, 2) + ":" + PadLeft(t.minute, 2) + ":" + PadLeft(t.second, 2)
  }

  /** The rendered timestamp reads back field by field. */
  lemma TimestampTextFields(t: DateTime)
    requires IsDateTime(t) && InPythonRange(t.date)
    ensures var s := TimestampText(t);
      ParseDigits(s[..4]) == t.date.year && ParseDigits(s[5..7]) == t.date.month &&
      ParseDigits(s[8..10]) == t.date.day && ParseDigits(s[11..13]) == t.hour &&
      ParseDigits(s[14..16]) == t.minute && ParseDigits(s[17..19]) == t.second &&
      s[4] == '-' && s[7] == '-' && s[10] == ' ' && s[13] == ':' && s[16] == ':'
  {
    NatToStringLength(t.date.year);
    NatToStringLength(t.date.month);
    NatToStringLength(t.date.day);
    NatToStringLength(t.hour);
    NatToStringLength(t.minute);
    NatToStringLength(t.second);
    TimestampLayout(PadLeft(t.date.year, 4), PadLeft(t.date.month, 2), PadLeft(t.date.day, 2),
      PadLeft(t.hour, 2), PadLeft(t.minute, 2), PadLeft(t.second, 2));
    ParsePadLeft(t.date.year, 4);
    ParsePadLeft(t.date.month, 2);
    ParsePadLeft(t.date.day, 2);
    ParsePadLeft(t.hour, 2);
    ParsePadLeft(t.minute, 2);
    ParsePadLeft(t.second, 2);
  }

  /** Where each field and separator of `YYYY-MM-DD HH:MM:SS` sits. */
  lemma TimestampLayout(y: string, mo: string, d: string, h: string, mi: string, sec: string)
    requires |y| == 4 && |mo| == 2 && |d| == 2 && |h| == 2 && |mi| == 2 && |sec| == 2
    ensures var s := y + "-" + mo + "-" + d + " " + h + ":" + mi + ":" + sec;
      s[..4] == y && s[5..7] == mo && s[8..10] == d && s[11..13] == h && s[14..16] == mi &&
      s[17..19] == sec && s[4] == '-' && s[7] == '-' && s[10] == ' ' && s[13] == ':' && s[16] == ':'
  {
    var date := y + "-" + mo + "-" + d;
    var time := h + ":" + mi + ":" + sec;
    assert y + "-" + mo + "-" + d + " " + h + ":" + mi + ":" + sec == date + " " + time;
    assert date[..4] == y && date[5..7] == mo && date[8..10] == d;
    assert time[..2] == h && time[3..5] == mi && time[6..8] == sec;
  }

  /** The best or worst trade's reported fields. */
  datatype TradeSummary = TradeSummary(
    pnl: real, side: string, symbol: string, entry: real, exit: real, date: string, qty: int)

  const NoTrade: TradeSummary := TradeSummary(0.0, "", "", 0.0, 0.0, "", 0)

  function Summarize(r: Row): TradeSummary
    requires Prepared(r)
  {
    TradeSummary(r.netPnl, r.side, r.symbol, r.entryPrice, r.exitPrice, TimestampText(r.exitTime), r.quantity)
  }

  datatype Metrics = Metrics(
    totalPnl: real,
    totalFees: real,
    totalTrades: int,
    winCount: int,
    lossCount: int,
    winRate: real,
    avgWin: real,
    avgLoss: real,
    rrRatio: real,
    profitFactor: real,
    grossProfit: real,
    grossLoss: real,
    totalLots: int,
    activeDays: int,
    dayWinPct: real,
    avgTradesPerDay: real,
    best: TradeSummary,
    worst: TradeSummary,
    avgDurationSeconds: real,
    avgWinDuration: real,
    avgLossDuration: real,
    longPct: real,
    shortPct: real,
    bestDayPct: real)

  /** `_empty_metrics`: zeros and empty strings. */
  const EmptyMetrics: Metrics := Metrics(
    0.0, 0.0, 0, 0, 0, 0.0, 0.0, 0.0, 0.0, 0.0, 0.0, 0.0, 0, 0, 0.0, 0.0,
    NoTrade, NoTrade, 0.0, 0.0, 0.0, 0.0, 0.0, 0.0)

  /** `get_summary_metrics`. */
  function SummaryMetrics(df: seq<Row>): Metrics
    requires Frame(df)
  {
    if |df| == 0 then EmptyMetrics
    else
      var total := |df|;
      var avgWin := AvgWin(df);
      var avgLoss := AvgLoss(df);
      var grossProfit := GrossProfit(df);
      var grossLoss := GrossLoss(df);
      var days := TradingDays(df);
      var longPct := Percent(|Select(df, IsLongRow)|, total);
      Metrics(
        Sum(df, Net), Sum(df, Fee), total, |Wins(df)|, |Losses(df)|,
        Percent(|Wins(df)|, total), avgWin, avgLoss, Ratio(avgWin, avgLoss),
        Ratio(grossProfit, grossLoss), grossProfit, grossLoss, TotalLots(df),
        |days|, Percent(WinningDays(df, days), |days|), Ratio(total as real, |days| as real),
        Summarize(df[BestIndex(df)]), Summarize(df[WorstIndex(df)]),
        Mean(df, Duration), MeanOrZero(Wins(df), Duration), MeanOrZero(Losses(df), Duration),
        longPct, 100.0 - longPct,
        BestDayPct(df))
  }

  /** `best_day_pct`: the best day's net P&L as a share of the gross profit, or 0 without profit. */
  function BestDayPct(df: seq<Row>): real {
    var days := TradingDays(df);
    var best := if |days| > 0 then BestDayPnl(df, days) else 0.0;
    var gp := GrossProfit(df);
    if gp > 0.0 then best / gp * 100.0 else 0.0
  }

  /** A share of a whole is a percentage between 0 and 100. */
  lemma PercentBounds(part: int, whole: int)
    requires 0 <= part <= whole
    ensures 0.0 <= Percent(part, whole) <= 100.0
  {
    if whole > 0 {
      var q := part as real / whole as real;
      assert q * whole as real == part as real;
    }
  }

  /** A ratio of two non-negative numbers is non-negative. */
  lemma RatioNonNegative(a: real, b: real)
    requires a >= 0.0
    ensures Ratio(a, b) >= 0.0
  {
    if b > 0.0 {
      var q := a / b;
      assert q * b == a;
    }
  }

  /** Wins and losses are disjoint: a flat trade (net 0) is neither. */
  lemma WinLossCounts(df: seq<Row>)
    requires Frame(df)
    ensures |Wins(df)| + |Losses(df)| <= |df|
  {
    SelectDisjoint(df, IsWinRow, IsLossRow);
  }

  /**
   * Net P&L splits into the winners' gains and the losers' losses: the total is gross
   * profit minus gross loss, and both are non-negative.
   */
  lemma NetDecomposition(df: seq<Row>)
    requires Frame(df)
    ensures Sum(df, Net) == GrossProfit(df) - GrossLoss(df)
    ensures GrossProfit(df) >= 0.0 && GrossLoss(df) >= 0.0
  {
    SelectSplitSum(df, IsWinRow, IsLossRow, Net);
    SumNonNegative(Wins(df), Net);
    SumNegative(Losses(df), Net);
  }

  lemma {:induction false} MeanSign(xs: seq<Row>, positive: bool)
    requires |xs| > 0
    requires forall x :: x in xs ==> if positive then x.netPnl > 0.0 else x.netPnl < 0.0
    ensures positive ==> Mean(xs, Net) > 0.0
    ensures !positive ==> Mean(xs, Net) < 0.0
  {
    if positive {
      SumNonNegative(xs, Net);
      assert Sum(xs, Net) > 0.0 by {
        var front := xs[..|xs| - 1];
        assert forall x :: x in front ==> x in xs;
        SumNonNegative(front, Net);
      }
    } else {
      SumNegative(xs, Net);
    }
  }

  /** The average win and the average loss are reported as non-negative amounts. */
  lemma AveragesNonNegative(df: seq<Row>)
    requires Frame(df)
    ensures AvgWin(df) >= 0.0 && AvgLoss(df) >= 0.0
    ensures |Wins(df)| > 0 ==> AvgWin(df) > 0.0
    ensures |Losses(df)| > 0 ==> AvgLoss(df) > 0.0
  {
    if |Wins(df)| > 0 {
      MeanSign(Wins(df), true);
    }
    if |Losses(df)| > 0 {
      MeanSign(Losses(df), false);
    }
  }

  /** No trading day gains more than all the winning trades together. */
  lemma DayPnlAtMostGrossProfit(df: seq<Row>, d: Date)
    requires Frame(df)
    ensures DayPnl(df, d) <= GrossProfit(df)
  {
    GroupAtMostPositive(df, DateOf, d, IsWinRow, Net);
  }

  /**
   * For a non-empty frame there is at least one trading day and no more days than
   * trades, and at most every day is a winning one.
   */
  lemma DayCounts(df: seq<Row>)
    requires |df| > 0
    ensures 1 <= |TradingDays(df)| <= |df|
    ensures WinningDays(df, TradingDays(df)) <= |TradingDays(df)|
  {
    GroupCountBounds(df, DateOf);
  }

  /** A whole divided into no more parts than itself gives at least one per part. */
  lemma RatioAtLeastOne(a: real, b: real)
    requires 0.0 < b <= a
    ensures Ratio(a, b) >= 1.0
  {
    var q := a / b;
    assert q * b == a;
  }

  /** The counts and percentages of a non-empty summary. */
  lemma SummaryCounts(df: seq<Row>)
    requires Frame(df) && |df| > 0
    ensures var m := SummaryMetrics(df);
      m.totalTrades == |df| && m.winCount + m.lossCount <= m.totalTrades &&
      0.0 <= m.winRate <= 100.0 && 0.0 <= m.longPct <= 100.0 && m.shortPct == 100.0 - m.longPct &&
      1 <= m.activeDays <= m.totalTrades && 0.0 <= m.dayWinPct <= 100.0 && m.avgTradesPerDay >= 1.0
  {
    WinLossCounts(df);
    PercentBounds(|Wins(df)|, |df|);
    PercentBounds(|Select(df, IsLongRow)|, |df|);
    DayCounts(df);
    PercentBounds(WinningDays(df, TradingDays(df)), |TradingDays(df)|);
    RatioAtLeastOne(|df| as real, |TradingDays(df)| as real);
  }

  /**
   * `_empty_metrics`: a frame without trades reports no trades, no money and no days, and
   * both side shares are 0 (not 100 - 0, unlike every non-empty summary).
   */
  lemma SummaryEmpty(df: seq<Row>)
    requires Frame(df) && |df| == 0
    ensures var m := SummaryMetrics(df);
      m.totalTrades == 0 && m.totalPnl == 0.0 && m.totalFees == 0.0 && m.winRate == 0.0 &&
      m.activeDays == 0 && m.best == NoTrade && m.worst == NoTrade &&
      m.longPct == 0.0 && m.shortPct == 0.0 && m.bestDayPct == 0.0
  {
  }

  /**
   * The money figures of a non-empty summary: net P&L is gross profit minus gross loss,
   * averages and gross figures are non-negative, and each ratio is non-negative and 0 when
   * its denominator is.
   */
  lemma SummaryMoney(df: seq<Row>)
    requires Frame(df) && |df| > 0
    ensures var m := SummaryMetrics(df);
      m.totalPnl == m.grossProfit - m.grossLoss &&
      m.grossProfit >= 0.0 && m.grossLoss >= 0.0 && m.avgWin >= 0.0 && m.avgLoss >= 0.0 &&
      m.rrRatio >= 0.0 && m.profitFactor >= 0.0 &&
      (m.avgLoss == 0.0 ==> m.rrRatio == 0.0) && (m.grossLoss == 0.0 ==> m.profitFactor == 0.0)
  {
    var m := SummaryMetrics(df);
    assert m.totalPnl == Sum(df, Net) && m.grossProfit == GrossProfit(df) && m.grossLoss == GrossLoss(df);
    assert m.avgWin == AvgWin(df) && m.avgLoss == AvgLoss(df);
    assert m.rrRatio == Ratio(AvgWin(df), AvgLoss(df)) && m.profitFactor == Ratio(GrossProfit(df), GrossLoss(df));
    NetDecomposition(df);
    AveragesNonNegative(df);
    RatioNonNegative(AvgWin(df), AvgLoss(df));
    RatioNonNegative(GrossProfit(df), GrossLoss(df));
  }

  /**
   * The best day's share of gross profit is 0 when there is no gross profit, and never
   * more than 100%: no day nets more than all winning trades together.
   */
  lemma SummaryBestDay(df: seq<Row>)
    requires Frame(df) && |df| > 0
    ensures var m := SummaryMetrics(df);
      (m.grossProfit <= 0.0 ==> m.bestDayPct == 0.0) && m.bestDayPct <= 100.0
  {
    assert SummaryMetrics(df).grossProfit == GrossProfit(df);
    assert SummaryMetrics(df).bestDayPct == BestDayPct(df);
    BestDayPctBounds(df);
  }

  lemma BestDayPctBounds(df: seq<Row>)
    requires Frame(df) && |df| > 0
    ensures GrossProfit(df) <= 0.0 ==> BestDayPct(df) == 0.0
    ensures BestDayPct(df) <= 100.0
  {
    var days := TradingDays(df);
    DayCounts(df);
    var best := BestDayPnl(df, days);
    var gp := GrossProfit(df);
    if gp > 0.0 {
      var i :| 0 <= i < |days| && DayPnl(df, days[i]) == best;
      DayPnlAtMostGrossProfit(df, days[i]);
      BestDayShare(best, gp);
    }
  }

  lemma BestDayShare(best: real, gp: real)
    requires 0.0 < gp && best <= gp
    ensures best / gp * 100.0 <= 100.0
  {
    var q := best / gp;
    assert q * gp == best;
  }

  /**
   * The best trade is one of the trades, no trade nets more, and its side, symbol,
   * prices, exit time and quantity are that same trade's; likewise for the worst.
   */
  lemma SummaryExtremes(df: seq<Row>)
    requires Frame(df) && |df| > 0
    ensures var m := SummaryMetrics(df);
      (exists i :: 0 <= i < |df| && m.best == Summarize(df[i])) &&
      (exists i :: 0 <= i < |df| && m.worst == Summarize(df[i])) &&
      (forall j :: 0 <= j < |df| ==> m.worst.pnl <= df[j].netPnl <= m.best.pnl)
  {
    var b, w := BestIndex(df), WorstIndex(df);
    assert SummaryMetrics(df).best == Summarize(df[b]);
    assert SummaryMetrics(df).worst == Summarize(df[w]);
  }
}
