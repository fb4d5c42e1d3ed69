/**
 * `DataCollector._convert_to_roundtrips` (services/data_collector.py): half-turn fills
 * reported by `Trade/search` are paired per contract, first in first out. A fill without
 * `profitAndLoss` opens (it is queued for its contract); a fill with `profitAndLoss`
 * closes the oldest queued opening of its contract, or is dropped when there is none.
 */
module Matching {
  import opened Wrappers
  import opened Sorting
  import opened Tally
  import opened Trades

  /** One raw half-turn fill. */
  datatype Fill = Fill(
    contractId: string,
    sideCode: int,
    size: int,
    price: real,
    stamp: Stamp,
    profitAndLoss: Option<real>,
    fees: real)

  predicate IsClosing(f: Fill) {
    f.profitAndLoss.Some?
  }

  /** What the queue keeps of an opening fill. */
  datatype Opening = Opening(side: Side, price: real, size: int, stamp: Stamp, fees: real)

  function OpeningOf(f: Fill): Opening {
    Opening(SideOfCode(f.sideCode), f.price, f.size, f.stamp, f.fees)
  }

  /** A queued opening matched with a closing fill, and the whole seconds between them. */
  datatype Pair = Pair(opening: Opening, closing: Fill, duration: int)

  /**
   * The record of a pair: side, entry time and entry price from the opening; exit time,
   * exit price, quantity and P&L from the closing fill; the fees of both.
   */
  function RecordOf(p: Pair): RoundTrip {
    RoundTrip(p.closing.contractId, p.opening.side, p.opening.stamp, p.closing.stamp,
      p.opening.price, p.closing.price, p.closing.size, p.closing.profitAndLoss.GetOr(0.0),
      p.closing.fees + p.opening.fees, p.duration)
  }

  function Records(pairs: seq<Pair>): (r: seq<RoundTrip>)
    ensures |r| == |pairs|
    decreases |pairs|
  {
    if |pairs| == 0 then [] else Records(pairs[..|pairs| - 1]) + [RecordOf(pairs[|pairs| - 1])]
  }

  /** The converter's state: the per-contract queues and the pairs made so far. */
  datatype Ledger = Ledger(positions: map<string, seq<Opening>>, pairs: seq<Pair>)

  /** `positions[contract]` of the defaultdict: missing contracts have an empty queue. */
  function Queue(positions: map<string, seq<Opening>>, c: string): seq<Opening> {
    if c in positions then positions[c] else []
  }

  /** One fill; None when a pairing meets a timestamp `fromisoformat` rejects (it raises). */
  function Step(l: Ledger, f: Fill): Option<Ledger> {
    var q := Queue(l.positions, f.contractId);
    if IsClosing(f) then
      if |q| > 0 then
        match ElapsedSeconds(q[0].stamp, f.stamp)
        case None => None
        case Some(d) => Some(Ledger(l.positions[f.contractId := q[1..]], l.pairs + [Pair(q[0], f, d)]))
      else
        Some(l.(positions := l.positions[f.contractId := q]))
    else
      Some(l.(positions := l.positions[f.contractId := q + [OpeningOf(f)]]))
  }

  /** The fills processed in the order given. */
  function Replay(fills: seq<Fill>): Option<Ledger>
    decreases |fills|
  {
    if |fills| == 0 then Some(Ledger(map[], []))
    else
      match Replay(fills[..|fills| - 1])
      case None => None
      case Some(l) => Step(l, fills[|fills| - 1])
  }

  /** Sort key: `creationTimestamp`, compared as text. */
  function FillOrder(f: Fill): int {
    f.stamp.order
  }

  /** What `_convert_to_roundtrips` returns for `raw_trades`; None where it raises. */
  function Roundtrips(rawTrades: seq<Fill>): Option<seq<RoundTrip>> {
    match Replay(SortBy(rawTrades, FillOrder))
    case None => None
    case Some(l) => Some(Records(l.pairs))
  }

  /** Once a prefix raises, the whole run raises. */
  lemma {:induction false} ReplayFailureSticks(fills: seq<Fill>, n: nat)
    requires n <= |fills| && Replay(fills[..n]).None?
    ensures Replay(fills).None?
    decreases |fills| - n
  {
    if n < |fills| {
      assert fills[..n + 1][..n] == fills[..n];
      ReplayFailureSticks(fills, n + 1);
    } else {
      assert fills[..n] == fills;
    }
  }

  lemma ReplayPrefix(fills: seq<Fill>, i: nat)
    requires i < |fills|
    ensures Replay(fills[..i + 1]) ==
      match Replay(fills[..i]) case None => None case Some(l) => Step(l, fills[i])
  {
    assert fills[..i + 1][..i] == fills[..i];
  }

  lemma RecordsAppend(pairs: seq<Pair>, p: Pair)
    ensures Records(pairs + [p]) == Records(pairs) + [RecordOf(p)]
  {
    assert (pairs + [p])[..|pairs|] == pairs;
  }

  method ConvertToRoundtrips(rawTrades: seq<Fill>) returns (result: Option<seq<RoundTrip>>)
    ensures result == Roundtrips(rawTrades)
  {
    var sorted := SortBy(rawTrades, FillOrder);
    var positions: map<string, seq<Opening>> := map[];
    var roundtrips: seq<RoundTrip> := [];
    ghost var pairs: seq<Pair> := [];
    for i := 0 to |sorted|
      invariant Replay(sorted[..i]) == Some(Ledger(positions, pairs))
      invariant roundtrips == Records(pairs)
    {
      ReplayPrefix(sorted, i);
      ghost var before := Ledger(positions, pairs);
      var trade := sorted[i];
      var contract := trade.contractId;
      var queue := if contract in positions then positions[contract] else [];
      if trade.profitAndLoss.Some? {
        if |queue| > 0 {
          var entry := queue[0];
          positions := positions[contract := queue[1..]];
          var duration := ElapsedSeconds(entry.stamp, trade.stamp);
          if duration.None? {
            assert Step(before, trade).None?;
            ReplayFailureSticks(sorted, i + 1);
            return None;
          }
          var pair := Pair(entry, trade, duration.value);
          var record := RoundTrip(contract, entry.side, entry.stamp, trade.stamp,
            entry.price, trade.price, trade.size, trade.profitAndLoss.value,
            trade.fees + entry.fees, duration.value);
          assert record == RecordOf(pair);
          RecordsAppend(pairs, pair);
          roundtrips := roundtrips + [record];
          pairs := pairs + [pair];
        } else {
          positions := positions[contract := queue];
        }
      } else {
        var opening := Opening(SideOfCode(trade.sideCode), trade.price, trade.size, trade.stamp, trade.fees);
        positions := positions[contract := queue + [opening]];
      }
      assert Step(before, trade) == Some(Ledger(positions, pairs));
    }
    assert sorted[..|sorted|] == sorted;
    result := Some(roundtrips);
  }

  function Contract(f: Fill): string {
    f.contractId
  }

  function PairContract(p: Pair): string {
    p.closing.contractId
  }

  /** The openings of contract `c`, in the order their fills were processed. */
  function Openings(fills: seq<Fill>, c: string): seq<Opening>
    decreases |fills|
  {
    if |fills| == 0 then []
    else
      var f := fills[|fills| - 1];
      Openings(fills[..|fills| - 1], c) + (if f.contractId == c && !IsClosing(f) then [OpeningOf(f)] else [])
  }

  /** The openings that pairs of contract `c` consumed, in pairing order. */
  function PairedOpenings(pairs: seq<Pair>, c: string): seq<Opening>
    decreases |pairs|
  {
    if |pairs| == 0 then []
    else
      var p := pairs[|pairs| - 1];
      PairedOpenings(pairs[..|pairs| - 1], c) + (if p.closing.contractId == c then [p.opening] else [])
  }

  function OpeningFills(fills: seq<Fill>): (r: seq<Fill>)
    ensures forall f :: f in r ==> f in fills && !IsClosing(f)
    decreases |fills|
  {
    if |fills| == 0 then []
    else
      var f := fills[|fills| - 1];
      OpeningFills(fills[..|fills| - 1]) + (if !IsClosing(f) then [f] else [])
  }

  function ClosingFills(fills: seq<Fill>): (r: seq<Fill>)
    ensures forall f :: f in r ==> f in fills && IsClosing(f)
    decreases |fills|
  {
    if |fills| == 0 then []
    else
      var f := fills[|fills| - 1];
      ClosingFills(fills[..|fills| - 1]) + (if IsClosing(f) then [f] else [])
  }

  /**
   * First in, first out, contract by contract: the openings of a contract are exactly the
   * openings its pairs consumed, in order, followed by the ones still queued.
   */
  lemma {:induction false} ReplayFifo(fills: seq<Fill>, c: string)
    requires Replay(fills).Some?
    ensures Openings(fills, c) == PairedOpenings(Replay(fills).value.pairs, c) + Queue(Replay(fills).value.positions, c)
    decreases |fills|
  {
    if |fills| > 0 {
      var front := fills[..|fills| - 1];
      var f := fills[|fills| - 1];
      ReplayFifo(front, c);
      StepFifo(Replay(front).value, f, c);
    }
  }

  /** One fill appends its opening to its contract's openings and moves nothing else. */
  lemma StepFifo(l: Ledger, f: Fill, c: string)
    requires Step(l, f).Some?
    ensures PairedOpenings(Step(l, f).value.pairs, c) + Queue(Step(l, f).value.positions, c) ==
      PairedOpenings(l.pairs, c) + Queue(l.positions, c) +
      (if f.contractId == c && !IsClosing(f) then [OpeningOf(f)] else [])
  {
    var q := Queue(l.positions, f.contractId);
    if IsClosing(f) && |q| > 0 {
      var d := ElapsedSeconds(q[0].stamp, f.stamp).value;
      assert Step(l, f).value == Ledger(l.positions[f.contractId := q[1..]], l.pairs + [Pair(q[0], f, d)]);
      PairedOpeningsAppend(l.pairs, Pair(q[0], f, d), c);
      if f.contractId == c {
        assert q == [q[0]] + q[1..];
      }
    } else if IsClosing(f) {
      assert Step(l, f).value == l.(positions := l.positions[f.contractId := q]);
    } else {
      assert Step(l, f).value == l.(positions := l.positions[f.contractId := q + [OpeningOf(f)]]);
    }
  }

  /**
   * The pairs a fill makes: a closing fill that meets a non-empty queue is paired with the
   * head of its contract's queue and appended after the earlier pairs; any other fill
   * leaves the pairs as they were.
   */
  lemma StepPairs(l: Ledger, f: Fill)
    requires Step(l, f).Some?
    ensures l.pairs <= Step(l, f).value.pairs
    ensures var q := Queue(l.positions, f.contractId);
      IsClosing(f) && |q| > 0 ==>
        ElapsedSeconds(q[0].stamp, f.stamp).Some? &&
        |Step(l, f).value.pairs| == |l.pairs| + 1 &&
        Step(l, f).value.pairs[|l.pairs|] == Pair(q[0], f, ElapsedSeconds(q[0].stamp, f.stamp).value)
    ensures var q := Queue(l.positions, f.contractId);
      !(IsClosing(f) && |q| > 0) ==> Step(l, f).value.pairs == l.pairs
  {
  }

  lemma PairedOpeningsAppend(pairs: seq<Pair>, p: Pair, c: string)
    ensures PairedOpenings(pairs + [p], c) ==
      PairedOpenings(pairs, c) + (if p.closing.contractId == c then [p.opening] else [])
  {
    assert (pairs + [p])[..|pairs|] == pairs;
  }

  /** Every pair's closing fill is one of the fills, and a closing one. */
  lemma {:induction false} ReplayPairsClose(fills: seq<Fill>)
    requires Replay(fills).Some?
    ensures forall p :: p in Replay(fills).value.pairs ==> p.closing in fills && IsClosing(p.closing)
    decreases |fills|
  {
    if |fills| > 0 {
      var front := fills[..|fills| - 1];
      ReplayPairsClose(front);
      assert forall f :: f in front ==> f in fills;
    }
  }

  /** Every opening of contract `c` comes from an opening fill of that contract. */
  lemma {:induction false} OpeningsFromFills(fills: seq<Fill>, c: string, o: Opening)
    requires o in Openings(fills, c)
    ensures exists g :: g in fills && !IsClosing(g) && g.contractId == c && OpeningOf(g) == o
    decreases |fills|
  {
    var front := fills[..|fills| - 1];
    var f := fills[|fills| - 1];
    if o in Openings(front, c) {
      OpeningsFromFills(front, c, o);
      var g :| g in front && !IsClosing(g) && g.contractId == c && OpeningOf(g) == o;
      assert g in fills;
    } else {
      assert f in fills;
    }
  }

  /**
   * Over fills in ascending timestamp order, every pair's opening was filled no later
   * than its closing fill.
   */
  lemma {:induction false} ReplayEntriesPrecedeExits(fills: seq<Fill>)
    requires SortedBy(fills, FillOrder) && Replay(fills).Some?
    ensures forall p :: p in Replay(fills).value.pairs ==> p.opening.stamp.order <= p.closing.stamp.order
    decreases |fills|
  {
    if |fills| > 0 {
      var front := fills[..|fills| - 1];
      var f := fills[|fills| - 1];
      assert SortedBy(front, FillOrder);
      ReplayEntriesPrecedeExits(front);
      var l := Replay(front).value;
      var q := Queue(l.positions, f.contractId);
      if IsClosing(f) && |q| > 0 {
        ReplayFifo(front, f.contractId);
        OpeningBefore(fills, q[0]);
      }
    }
  }

  lemma OpeningBefore(fills: seq<Fill>, o: Opening)
    requires |fills| > 0 && SortedBy(fills, FillOrder)
    requires o in Openings(fills[..|fills| - 1], fills[|fills| - 1].contractId)
    ensures o.stamp.order <= fills[|fills| - 1].stamp.order
  {
    var front := fills[..|fills| - 1];
    OpeningsFromFills(front, fills[|fills| - 1].contractId, o);
    var g :| g in front && !IsClosing(g) && g.contractId == fills[|fills| - 1].contractId && OpeningOf(g) == o;
    var k :| 0 <= k < |front| && front[k] == g;
    assert fills[k] == g;
  }

  /** A run where every timestamp parses never raises. */
  lemma {:induction false} ReplayParsedSucceeds(fills: seq<Fill>)
    requires forall f :: f in fills ==> f.stamp.micros.Some?
    ensures Replay(fills).Some?
    ensures forall p :: p in Replay(fills).value.pairs ==> p.opening.stamp.micros.Some?
    decreases |fills|
  {
    if |fills| > 0 {
      var front := fills[..|fills| - 1];
      assert forall f :: f in front ==> f in fills;
      ReplayParsedSucceeds(front);
      var f := fills[|fills| - 1];
      var l := Replay(front).value;
      var q := Queue(l.positions, f.contractId);
      if IsClosing(f) && |q| > 0 {
        ReplayFifo(front, f.contractId);
        assert q[0] in Openings(front, f.contractId);
        OpeningsFromFills(front, f.contractId, q[0]);
      }
    }
  }

  lemma {:induction false} PairedOpeningsCount(pairs: seq<Pair>, c: string)
    ensures |PairedOpenings(pairs, c)| == CountKey(pairs, PairContract, c)
    decreases |pairs|
  {
    if |pairs| > 0 {
      PairedOpeningsCount(pairs[..|pairs| - 1], c);
    }
  }

  lemma {:induction false} OpeningsCount(fills: seq<Fill>, c: string)
    ensures |Openings(fills, c)| == CountKey(OpeningFills(fills), Contract, c)
    decreases |fills|
  {
    if |fills| > 0 {
      var front := fills[..|fills| - 1];
      var f := fills[|fills| - 1];
      OpeningsCount(front, c);
      assert |Openings(fills, c)| == |Openings(front, c)| + (if f.contractId == c && !IsClosing(f) then 1 else 0);
      if !IsClosing(f) {
        assert OpeningFills(fills) == OpeningFills(front) + [f];
        CountKeyAppend(OpeningFills(front), f, Contract, c);
      } else {
        assert OpeningFills(fills) == OpeningFills(front);
      }
    }
  }

  lemma {:induction false} ReplayPairsAtMostClosings(fills: seq<Fill>)
    requires Replay(fills).Some?
    ensures |Replay(fills).value.pairs| <= |ClosingFills(fills)|
    decreases |fills|
  {
    if |fills| > 0 {
      ReplayPairsAtMostClosings(fills[..|fills| - 1]);
    }
  }

  /**
   * No more round trips than closing fills, and no more than opening fills: each pair
   * uses up one of each.
   */
  lemma ReplayCountBounds(fills: seq<Fill>)
    requires Replay(fills).Some?
    ensures |Replay(fills).value.pairs| <= |ClosingFills(fills)|
    ensures |Replay(fills).value.pairs| <= |OpeningFills(fills)|
  {
    ReplayPairsAtMostClosings(fills);
    var pairs := Replay(fills).value.pairs;
    var opens := OpeningFills(fills);
    var ks := KeysInOrder(fills, Contract);
    ReplayPairsClose(fills);
    PartitionCount(pairs, PairContract, ks);
    PartitionCount(opens, Contract, ks);
    forall k | k in ks ensures CountKey(pairs, PairContract, k) <= CountKey(opens, Contract, k) {
      ReplayFifo(fills, k);
      PairedOpeningsCount(pairs, k);
      OpeningsCount(fills, k);
    }
    SumCountsMonotone(pairs, PairContract, opens, Contract, ks);
  }

  lemma {:induction false} RecordsElements(pairs: seq<Pair>, i: nat)
    requires i < |pairs|
    ensures Records(pairs)[i] == RecordOf(pairs[i])
    decreases |pairs|
  {
    if i < |pairs| - 1 {
      RecordsElements(pairs[..|pairs| - 1], i);
    }
  }

  /**
   * What `_convert_to_roundtrips` returns: round trips whose entry fill sorts no later
   * than their exit fill, at most one per closing fill and at most one per opening fill.
   */
  lemma RoundtripsShape(rawTrades: seq<Fill>)
    requires Roundtrips(rawTrades).Some?
    ensures var sorted := SortBy(rawTrades, FillOrder);
      |Roundtrips(rawTrades).value| <= |ClosingFills(sorted)| &&
      |Roundtrips(rawTrades).value| <= |OpeningFills(sorted)|
    ensures forall r :: r in Roundtrips(rawTrades).value ==> r.entryTime.order <= r.exitTime.order
  {
    var sorted := SortBy(rawTrades, FillOrder);
    SortBySortedPermutation(rawTrades, FillOrder);
    ReplayEntriesPrecedeExits(sorted);
    ReplayCountBounds(sorted);
    var pairs := Replay(sorted).value.pairs;
    forall r | r in Roundtrips(rawTrades).value ensures r.entryTime.order <= r.exitTime.order {
      var i :| 0 <= i < |pairs| && Records(pairs)[i] == r;
      RecordsElements(pairs, i);
      assert pairs[i] in pairs;
    }
  }

  /** The pairs made over a prefix of the fills are a prefix of the pairs made over all of them. */
  lemma {:induction false} ReplayPairsGrow(fills: seq<Fill>, n: nat)
    requires n <= |fills| && Replay(fills).Some?
    ensures Replay(fills[..n]).Some?
    ensures Replay(fills[..n]).value.pairs <= Replay(fills).value.pairs
    decreases |fills| - n
  {
    if n < |fills| {
      ReplayPairsGrow(fills, n + 1);
      ReplayPrefix(fills, n);
      StepPairs(Replay(fills[..n]).value, fills[n]);
    } else {
      assert fills[..n] == fills;
    }
  }

  /**
   * A closing fill that arrives while its contract's queue is non-empty closes the oldest
   * queued opening: the run's pairs hold that pair, right after the pairs made before it.
   */
  lemma ReplayClosingPaired(fills: seq<Fill>, i: nat)
    requires i < |fills| && Replay(fills).Some?
    ensures Replay(fills[..i]).Some?
    ensures var before := Replay(fills[..i]).value;
      var q := Queue(before.positions, fills[i].contractId);
      IsClosing(fills[i]) && |q| > 0 ==>
        ElapsedSeconds(q[0].stamp, fills[i].stamp).Some? &&
        |before.pairs| < |Replay(fills).value.pairs| &&
        Replay(fills).value.pairs[|before.pairs|] ==
          Pair(q[0], fills[i], ElapsedSeconds(q[0].stamp, fills[i].stamp).value)
  {
    ReplayPairsGrow(fills, i + 1);
    ReplayPrefix(fills, i);
    StepPairs(Replay(fills[..i]).value, fills[i]);
  }

  /**
   * What `_convert_to_roundtrips` returns records every such pairing: the closing fill's
   * record takes entry side, time and price from the oldest queued opening of its contract.
   */
  lemma RoundtripsClosingRecorded(rawTrades: seq<Fill>, i: nat)
    requires Roundtrips(rawTrades).Some? && i < |rawTrades|
    ensures var sorted := SortBy(rawTrades, FillOrder);
      |sorted| == |rawTrades| && Replay(sorted[..i]).Some? &&
      var q := Queue(Replay(sorted[..i]).value.positions, sorted[i].contractId);
      IsClosing(sorted[i]) && |q| > 0 ==>
        ElapsedSeconds(q[0].stamp, sorted[i].stamp).Some? &&
        RecordOf(Pair(q[0], sorted[i], ElapsedSeconds(q[0].stamp, sorted[i].stamp).value))
          in Roundtrips(rawTrades).value
  {
    var sorted := SortBy(rawTrades, FillOrder);
    SortBySortedPermutation(rawTrades, FillOrder);
    assert |sorted| == |multiset(sorted)| == |multiset(rawTrades)| == |rawTrades|;
    ReplayClosingPaired(sorted, i);
    var pairs := Replay(sorted).value.pairs;
    var before := Replay(sorted[..i]).value;
    var q := Queue(before.positions, sorted[i].contractId);
    if IsClosing(sorted[i]) && |q| > 0 {
      RecordsElements(pairs, |before.pairs|);
      assert Records(pairs)[|before.pairs|] in Records(pairs);
    }
  }

  /** When every timestamp parses, the conversion never raises. */
  lemma RoundtripsParsed(rawTrades: seq<Fill>)
    requires forall f :: f in rawTrades ==> f.stamp.micros.Some?
    ensures Roundtrips(rawTrades).Some?
  {
    var sorted := SortBy(rawTrades, FillOrder);
    SortBySortedPermutation(rawTrades, FillOrder);
    forall f | f in sorted ensures f.stamp.micros.Some? {
      assert f in multiset(sorted);
    }
    ReplayParsedSucceeds(sorted);
  }
}
