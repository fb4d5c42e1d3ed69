/**
 * The aggregation inside `DataCollector._update_daily_stats` (services/data_collector.py):
 * the stored trades of an account are grouped by the first ten characters of their entry
 * time, and each day's P&L, trade count, wins, losses, gross profit and gross loss are
 * accumulated; the daily rows are then written back in the order the days first appeared.
 */
module DailyStats {
  import opened Wrappers
  import opened Tally

  /** A stored trade as far as the aggregation reads it: `entry_time` and `pnl`. */
  datatype StoredTrade = StoredTrade(entryTime: Option<string>, pnl: Option<real>)

  /** One day's row of the defaultdict. */
  datatype DayTally = DayTally(
    totalPnl: real, tradeCount: int, winCount: int, lossCount: int,
    grossProfit: real, grossLoss: real)

  const EmptyDay: DayTally := DayTally(0.0, 0, 0, 0, 0.0, 0.0)

  /** `if trade['entry_time']:` — a missing or empty entry time is skipped. */
  predicate Dated(t: StoredTrade) {
    t.entryTime.Some? && |t.entryTime.value| > 0
  }

  /** `s[:10]`: the first ten characters, or all of them when there are fewer. */
  function Prefix10(s: string): (p: string)
    ensures |p| == if |s| < 10 then |s| else 10
    ensures p == s[..|p|]
  {
    if |s| <= 10 then s else s[..10]
  }

  /** The day a trade is grouped under. */
  function DayKey(t: StoredTrade): string {
    Prefix10(t.entryTime.GetOr(""))
  }

  /** `trade.get('pnl') or 0`. */
  function PnlOf(t: StoredTrade): real {
    t.pnl.GetOr(0.0)
  }

  function Abs(x: real): real {
    if x < 0.0 then -x else x
  }

  /** One trade's contribution: a win adds to gross profit, a loss to gross loss. */
  function AddTrade(day: DayTally, pnl: real): DayTally {
    var d := day.(totalPnl := day.totalPnl + pnl, tradeCount := day.tradeCount + 1);
    if pnl > 0.0 then d.(winCount := d.winCount + 1, grossProfit := d.grossProfit + pnl)
    else if pnl < 0.0 then d.(lossCount := d.lossCount + 1, grossLoss := d.grossLoss + Abs(pnl))
    else d
  }

  /** Row `day` of day `k` after trade `t` is seen. */
  function NextDay(day: DayTally, t: StoredTrade, k: string): DayTally {
    if Dated(t) && DayKey(t) == k then AddTrade(day, PnlOf(t)) else day
  }

  /** The row of day `k` after the trades given. */
  function DayOf(trades: seq<StoredTrade>, k: string): DayTally
    decreases |trades|
  {
    if |trades| == 0 then EmptyDay
    else
      var t := trades[|trades| - 1];
      var before := DayOf(trades[..|trades| - 1], k);
      NextDay(before, t, k)
  }

  /** The trades that are grouped at all. */
  function DatedTrades(trades: seq<StoredTrade>): (r: seq<StoredTrade>)
    ensures forall t :: t in r ==> t in trades && Dated(t)
    decreases |trades|
  {
    if |trades| == 0 then []
    else
      var t := trades[|trades| - 1];
      DatedTrades(trades[..|trades| - 1]) + (if Dated(t) then [t] else [])
  }

  /** The days in the order the defaultdict first saw them. */
  function Days(trades: seq<StoredTrade>): seq<string> {
    KeysInOrder(DatedTrades(trades), DayKey)
  }

  /** What a row always satisfies: net is profit minus loss, wins and losses are trades. */
  predicate WellFormed(d: DayTally) {
    d.totalPnl == d.grossProfit - d.grossLoss &&
    d.winCount + d.lossCount <= d.tradeCount &&
    d.winCount >= 0 && d.lossCount >= 0 &&
    d.grossProfit >= 0.0 && d.grossLoss >= 0.0
  }

  /** Adding a trade keeps a row well formed. */
  lemma AddTradeWellFormed(d: DayTally, pnl: real)
    requires WellFormed(d)
    ensures WellFormed(AddTrade(d, pnl))
    ensures AddTrade(d, pnl).tradeCount == d.tradeCount + 1
  {
  }

  /**
   * Every day's row is well formed, and its trade count is the number of dated trades
   * with that day's key.
   */
  lemma {:induction false} DayOfWellFormed(trades: seq<StoredTrade>, k: string)
    ensures WellFormed(DayOf(trades, k))
    ensures DayOf(trades, k).tradeCount == CountKey(DatedTrades(trades), DayKey, k)
    decreases |trades|
  {
    if |trades| > 0 {
      var front := trades[..|trades| - 1];
      var t := trades[|trades| - 1];
      DayOfWellFormed(front, k);
      assert DayOf(trades, k) == NextDay(DayOf(front, k), t, k);
      if Dated(t) {
        assert DatedTrades(trades) == DatedTrades(front) + [t];
        CountKeyAppend(DatedTrades(front), t, DayKey, k);
        if DayKey(t) == k {
          AddTradeWellFormed(DayOf(front, k), PnlOf(t));
        }
      } else {
        assert DatedTrades(trades) == DatedTrades(front);
      }
    }
  }

  /** The trade counts of all the days add up to the number of dated trades. */
  lemma DayCountsAddUp(trades: seq<StoredTrade>)
    ensures SumCounts(DatedTrades(trades), DayKey, Days(trades)) == |DatedTrades(trades)|
  {
    PartitionCount(DatedTrades(trades), DayKey, Days(trades));
  }

  /** A day without dated trades has the empty row. */
  lemma {:induction false} DayOfAbsent(trades: seq<StoredTrade>, k: string)
    requires k !in Days(trades)
    ensures DayOf(trades, k) == EmptyDay
    decreases |trades|
  {
    if |trades| > 0 {
      var front := trades[..|trades| - 1];
      var t := trades[|trades| - 1];
      if Dated(t) {
        assert t in DatedTrades(trades);
        assert forall x :: x in DatedTrades(front) ==> x in DatedTrades(trades);
      }
      assert forall x :: x in DatedTrades(front) ==> x in DatedTrades(trades);
      DayOfAbsent(front, k);
    }
  }

  lemma DaysPrefix(trades: seq<StoredTrade>, i: nat)
    requires i < |trades|
    ensures Days(trades[..i + 1]) ==
      if Dated(trades[i]) && DayKey(trades[i]) !in Days(trades[..i]) then Days(trades[..i]) + [DayKey(trades[i])]
      else Days(trades[..i])
    ensures forall k :: DayOf(trades[..i + 1], k) == NextDay(DayOf(trades[..i], k), trades[i], k)
  {
    assert trades[..i + 1][..i] == trades[..i];
    var xs := DatedTrades(trades[..i]);
    if Dated(trades[i]) {
      assert DatedTrades(trades[..i + 1]) == xs + [trades[i]];
      KeysInOrderAppend(xs, trades[i], DayKey);
    } else {
      assert DatedTrades(trades[..i + 1]) == xs;
    }
  }

  /** The defaultdict after the trades given, keyed by day. */
  function DailyMap(trades: seq<StoredTrade>): map<string, DayTally>
    decreases |trades|
  {
    if |trades| == 0 then map[]
    else
      var t := trades[|trades| - 1];
      var m := DailyMap(trades[..|trades| - 1]);
      if Dated(t) then
        var key := DayKey(t);
        m[key := AddTrade(if key in m then m[key] else EmptyDay, PnlOf(t))]
      else m
  }

  /** The defaultdict holds exactly the days seen, each with its row. */
  lemma {:induction false} DailyMapRows(trades: seq<StoredTrade>)
    ensures forall k :: k in DailyMap(trades) <==> k in Days(trades)
    ensures forall k :: k in DailyMap(trades) ==> DailyMap(trades)[k] == DayOf(trades, k)
    decreases |trades|
  {
    if |trades| > 0 {
      var i := |trades| - 1;
      assert trades[..i + 1] == trades;
      DailyMapRows(trades[..i]);
      DaysPrefix(trades, i);
      forall k | k !in Days(trades[..i]) ensures DayOf(trades[..i], k) == EmptyDay {
        DayOfAbsent(trades[..i], k);
      }
    }
  }

  /** One step of the loop, in terms of the defaultdict before it. */
  lemma DailyStep(trades: seq<StoredTrade>, i: nat)
    requires i < |trades|
    ensures var t := trades[i]; var m := DailyMap(trades[..i]);
      DailyMap(trades[..i + 1]) ==
        (if Dated(t) then m[DayKey(t) := AddTrade(if DayKey(t) in m then m[DayKey(t)] else EmptyDay, PnlOf(t))]
         else m)
    ensures Days(trades[..i + 1]) ==
      if Dated(trades[i]) && DayKey(trades[i]) !in DailyMap(trades[..i]) then Days(trades[..i]) + [DayKey(trades[i])]
      else Days(trades[..i])
  {
    assert trades[..i + 1][..i] == trades[..i];
    DailyMapRows(trades[..i]);
    DaysPrefix(trades, i);
  }

  /**
   * The aggregation loop and the write-back loop: the rows handed to
   * `repo.update_daily_stats`, one per day in the order the days first appeared.
   */
  method UpdateDailyStats(trades: seq<StoredTrade>) returns (updates: seq<(string, DayTally)>)
    ensures |updates| == |Days(trades)|
    ensures forall j :: 0 <= j < |updates| ==> updates[j] == (Days(trades)[j], DayOf(trades, Days(trades)[j]))
    ensures forall j :: 0 <= j < |updates| ==> WellFormed(updates[j].1)
  {
    var daily: map<string, DayTally> := map[];
    // the dict's keys in insertion order, which `daily.items()` follows
    var days: seq<string> := [];
    for i := 0 to |trades|
      invariant daily == DailyMap(trades[..i])
      invariant days == Days(trades[..i])
    {
      var trade := trades[i];
      if trade.entryTime.Some? && |trade.entryTime.value| > 0 {
        var tradeDate := Prefix10(trade.entryTime.value);
        var pnl := trade.pnl.GetOr(0.0);
        assert tradeDate == DayKey(trade) && pnl == PnlOf(trade);
        var row := EmptyDay;
        if tradeDate in daily {
          row := daily[tradeDate];
        } else {
          days := days + [tradeDate];
        }
        ghost var before := row;
        row := row.(totalPnl := row.totalPnl + pnl, tradeCount := row.tradeCount + 1);
        if pnl > 0.0 {
          row := row.(winCount := row.winCount + 1, grossProfit := row.grossProfit + pnl);
        } else if pnl < 0.0 {
          row := row.(lossCount := row.lossCount + 1, grossLoss := row.grossLoss + Abs(pnl));
        }
        assert row == AddTrade(before, pnl);
        DailyStep(trades, i);
        daily := daily[tradeDate := row];
      } else {
        DailyStep(trades, i);
      }
    }
    assert trades[..|trades|] == trades;
    DailyMapRows(trades);
    updates := [];
    for j := 0 to |days|
      invariant |updates| == j
      invariant forall m :: 0 <= m < j ==> updates[m] == (days[m], daily[days[m]])
    {
      updates := updates + [(days[j], daily[days[j]])];
    }
    forall j | 0 <= j < |updates| ensures WellFormed(updates[j].1) {
      DayOfWellFormed(trades, days[j]);
    }
  }
}
