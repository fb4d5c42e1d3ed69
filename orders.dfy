/**
 * `DataCollector._convert_orders_to_roundtrips` (services/data_collector.py), the
 * converter for live accounts: filled orders are replayed in timestamp order against a
 * per-contract position book. An order on the position's side (or on a flat contract) adds
 * an entry; an order on the other side closes entries oldest first, partially where it
 * runs out, and whatever it has left over opens a position on its own side.
 */
module Orders {
  import opened Wrappers
  import opened Text
  import opened Sorting
  import opened Fees
  import opened Trades

  /**
   * One filled order as `Order/search` reports it. An `Option` field is None where the
   * key is missing from the order's dictionary.
   */
  datatype Order = Order(
    contractId: string,
    side: Option<int>,
    size: Option<int>,
    fillVolume: Option<int>,
    price: Option<real>,
    filledPrice: Option<real>,
    creationTimestamp: Option<Stamp>,
    updateTimestamp: Option<Stamp>)

  /**
   * The empty timestamp text, at rank 0; it does not parse. It sorts before every
   * timestamp that `OrderStamps.TextsRanked` admits (`OrderStamps.SortedUnstampedFirst`).
   */
  const EmptyText: Stamp := Stamp(0, None)

  /** `'Long' if order_side == 0 else 'Short'`; a missing side is a sell. */
  function OrderSide(o: Order): (s: Side)
    ensures s == Long <==> o.side == Some(0)
  {
    if o.side == Some(0) then Long else Short
  }

  /** `fillVolume`, else `size`, else 0. */
  function FillSize(o: Order): int {
    match o.fillVolume
    case Some(v) => v
    case None => o.size.GetOr(0)
  }

  /** `filledPrice`, else `price`, else 0. */
  function FillPrice(o: Order): real {
    match o.filledPrice
    case Some(p) => p
    case None => o.price.GetOr(0.0)
  }

  /** `updateTimestamp`, else `creationTimestamp`, else the empty text. */
  function FillStamp(o: Order): Stamp {
    match o.updateTimestamp
    case Some(t) => t
    case None => o.creationTimestamp.GetOr(EmptyText)
  }

  /** The sort key of `sorted_orders`. */
  function OrderKey(o: Order): int {
    FillStamp(o).order
  }

  /** A queued entry: the price, the size still open and the timestamp of its fill. */
  datatype Entry = Entry(price: real, size: int, stamp: Stamp)

  /** A contract's position: its side (None when flat) and its open entries, oldest first. */
  datatype Position = Position(side: Option<Side>, entries: seq<Entry>)

  type Book = map<string, Position>

  /** The defaultdict's value for a contract it has not seen. */
  const Flat: Position := Position(None, [])

  function PositionOf(book: Book, c: string): Position {
    if c in book then book[c] else Flat
  }

  /**
   * Tick-value adjustment: a contract whose id contains `MNQ` doubles the P&L, one that
   * contains `NQ` (and not `MNQ`) multiplies it by 20, any other leaves it as it is.
   */
  function Multiplier(contract: string): real {
    if Contains(contract, "MNQ") then 2.0
    else if Contains(contract, "NQ") && !Contains(contract, "MNQ") then 20.0
    else 1.0
  }

  /**
   * An id containing `MNQ` contains `NQ`, so the `'MNQ' not in contract` half of the
   * second test never decides anything: any other id containing `NQ` gets 20.
   */
  lemma MultiplierCases(contract: string)
    ensures Contains(contract, "MNQ") ==> Contains(contract, "NQ")
    ensures Multiplier(contract) ==
      if Contains(contract, "MNQ") then 2.0 else if Contains(contract, "NQ") then 20.0 else 1.0
  {
    if Contains(contract, "MNQ") {
      ContainsOccurs(contract, "MNQ");
      var i :| OccursAt(contract, "MNQ", i);
      assert contract[i + 1..i + 3] == contract[i..i + 3][1..];
      assert OccursAt(contract, "NQ", i + 1);
      ContainsOccurs(contract, "NQ");
    }
  }

  /** A Micro Nasdaq id such as `CON.F.US.MNQ.H26` doubles the P&L. */
  lemma MultiplierMicroNasdaq(contract: string)
    requires contract == "CON.F.US.MNQ.H26"
    ensures Multiplier(contract) == 2.0
  {
    assert OccursAt(contract, "MNQ", 9);
    ContainsOccurs(contract, "MNQ");
  }

  /** The price move on `quantity` of a `side` entry at `entryPrice` closed at `exitPrice`. */
  function GrossPnl(side: Side, entryPrice: real, exitPrice: real, quantity: int): real {
    if side == Long then (exitPrice - entryPrice) * quantity as real
    else (entryPrice - exitPrice) * quantity as real
  }

  /** The P&L of a closed chunk, after the tick-value adjustment. */
  function ChunkPnl(contract: string, side: Side, entryPrice: real, exitPrice: real, quantity: int): real {
    GrossPnl(side, entryPrice, exitPrice, quantity) * Multiplier(contract)
  }

  /** A fee of `rate` per contract on `q >= 0` contracts is at least `lo` per contract when `rate >= lo`. */
  lemma FeeAtLeast(fees: real, rate: real, lo: real, q: int)
    requires rate >= lo && q >= 0 && fees == ChunkFee(rate, q)
    ensures fees >= lo * q as real
  {
  }

  /**
   * An opposite-side fill as the sweep sees it: the contract, the side of the position it
   * closes, its price and timestamp, and `get_fee_per_round_turn(contract)`.
   */
  datatype Closer = Closer(contract: string, side: Side, price: real, stamp: Stamp, rate: real)

  /** `get_fee_per_round_turn(contract) * close_size`, for a round-turn fee of `rate`. */
  function ChunkFee(rate: real, quantity: int): real {
    rate * quantity as real
  }

  /**
   * The record of closing `quantity` of entry `e`: the fee is the round-turn fee per
   * contract closed, the duration 0 when a timestamp does not parse.
   */
  function Chunk(k: Closer, e: Entry, quantity: int): RoundTrip {
    RoundTrip(k.contract, k.side, e.stamp, k.stamp, e.price, k.price, quantity,
      ChunkPnl(k.contract, k.side, e.price, k.price, quantity),
      ChunkFee(k.rate, quantity),
      ElapsedSeconds(e.stamp, k.stamp).GetOr(0))
  }

  /** What a closing sweep produces: its records, the entries left and the size left over. */
  datatype Sweep = Sweep(trips: seq<RoundTrip>, entries: seq<Entry>, remaining: int)

  /**
   * The `while remaining_size > 0 and pos['entries']` loop: close `min(remaining, size)`
   * of the oldest entry, record it, shrink the entry and drop it once nothing of it is open.
   */
  function Close(k: Closer, entries: seq<Entry>, remaining: int): Sweep
    decreases |entries|, if remaining > 0 then 1 else 0
  {
    if remaining <= 0 || |entries| == 0 then Sweep([], entries, remaining)
    else
      var e := entries[0];
      var quantity := if remaining < e.size then remaining else e.size;
      var shrunk := e.(size := e.size - quantity);
      var rest := if shrunk.size <= 0 then entries[1..] else [shrunk] + entries[1..];
      var r := Close(k, rest, remaining - quantity);
      Sweep([Chunk(k, e, quantity)] + r.trips, r.entries, r.remaining)
  }

  /** The sweep an opposite-side order `o` makes of position `pos`. */
  function CloserOf(o: Order, side: Side): Closer {
    Closer(o.contractId, side, FillPrice(o), FillStamp(o), FeePerRoundTurn(o.contractId))
  }

  /** The book and the records after some orders. */
  datatype Desk = Desk(book: Book, trips: seq<RoundTrip>)

  /** An order opens or adds to a position when the contract is flat or held on its side. */
  predicate Adds(d: Desk, o: Order) {
    var pos := PositionOf(d.book, o.contractId);
    pos.side.None? || pos.side == Some(OrderSide(o))
  }

  /** The sweep an opposite-side order makes of its contract's position. */
  function SweepOf(d: Desk, o: Order): Sweep
    requires !Adds(d, o)
  {
    var pos := PositionOf(d.book, o.contractId);
    Close(CloserOf(o, pos.side.value), pos.entries, FillSize(o))
  }

  /** The position of the order's contract after the order. */
  function After(d: Desk, o: Order): Position {
    var pos := PositionOf(d.book, o.contractId);
    var t := OrderSide(o);
    if Adds(d, o) then Position(Some(t), pos.entries + [Entry(FillPrice(o), FillSize(o), FillStamp(o))])
    else
      var r := SweepOf(d, o);
      if r.remaining > 0 then Position(Some(t), r.entries + [Entry(FillPrice(o), r.remaining, FillStamp(o))])
      else Position(if |r.entries| == 0 then None else pos.side, r.entries)
  }

  /** The records an order closes: none when it opens or adds, the sweep's otherwise. */
  function ClosedBy(d: Desk, o: Order): seq<RoundTrip> {
    if Adds(d, o) then [] else SweepOf(d, o).trips
  }

  /** One order against the book: its contract's position is replaced, its records appended. */
  function Apply(d: Desk, o: Order): Desk {
    Desk(d.book[o.contractId := After(d, o)], d.trips + ClosedBy(d, o))
  }

  /** The orders applied in the order given, from an empty book. */
  function Replay(orders: seq<Order>): Desk
    decreases |orders|
  {
    if |orders| == 0 then Desk(map[], [])
    else Apply(Replay(orders[..|orders| - 1]), orders[|orders| - 1])
  }

  /** What `_convert_orders_to_roundtrips` returns. */
  function OrderRoundtrips(orders: seq<Order>): seq<RoundTrip> {
    Replay(SortBy(orders, OrderKey)).trips
  }

  lemma ReplayPrefix(orders: seq<Order>, i: nat)
    requires i < |orders|
    ensures Replay(orders[..i + 1]) == Apply(Replay(orders[..i]), orders[i])
  {
    assert orders[..i + 1][..i] == orders[..i];
  }

  /** The `# Adjust for tick value` step. */
  method AdjustForTickValue(contract: string, gross: real) returns (pnl: real)
    ensures pnl == gross * Multiplier(contract)
  {
    pnl := gross;
    if Contains(contract, "MNQ") {
      pnl := pnl * 2.0;
    } else if Contains(contract, "NQ") && !Contains(contract, "MNQ") {
      pnl := pnl * 20.0;
    }
  }

  /**
   * The closing sweep of one opposite-side fill, as the `while` loop performs it on the
   * position's entry list; `k.rate` is the contract's round-turn fee, which the loop
   * looks up afresh for every chunk and which is the same every time.
   */
  method CloseEntries(k: Closer, entries0: seq<Entry>, size: int)
    returns (records: seq<RoundTrip>, entries: seq<Entry>, remaining: int)
    ensures Sweep(records, entries, remaining) == Close(k, entries0, size)
  {
    records := [];
    entries := entries0;
    remaining := size;
    while remaining > 0 && |entries| > 0
      invariant Close(k, entries0, size) ==
        var rest := Close(k, entries, remaining);
        Sweep(records + rest.trips, rest.entries, rest.remaining)
      decreases |entries|, if remaining > 0 then 1 else 0
    {
      var entry := entries[0];
      var closeSize := if remaining < entry.size then remaining else entry.size;
      var duration := ElapsedSeconds(entry.stamp, k.stamp).GetOr(0);
      var pnl := AdjustForTickValue(k.contract, GrossPnl(k.side, entry.price, k.price, closeSize));
      var fee := ChunkFee(k.rate, closeSize);
      var record := RoundTrip(k.contract, k.side, entry.stamp, k.stamp, entry.price, k.price,
        closeSize, pnl, fee, duration);
      assert record == Chunk(k, entry, closeSize);
      var shrunk := entry.(size := entry.size - closeSize);
      var left := if shrunk.size <= 0 then entries[1..] else [shrunk] + entries[1..];
      ghost var rest := Close(k, left, remaining - closeSize);
      assert Close(k, entries, remaining) == Sweep([record] + rest.trips, rest.entries, rest.remaining);
      assert records + [record] + rest.trips == records + ([record] + rest.trips);
      records := records + [record];
      remaining := remaining - closeSize;
      entries := left;
    }
  }

  method ConvertOrdersToRoundtrips(orders: seq<Order>) returns (roundtrips: seq<RoundTrip>)
    ensures roundtrips == OrderRoundtrips(orders)
  {
    var sorted := SortBy(orders, OrderKey);
    var positions: Book := map[];
    roundtrips := [];
    for i := 0 to |sorted|
      invariant Replay(sorted[..i]) == Desk(positions, roundtrips)
    {
      ReplayPrefix(sorted, i);
      positions, roundtrips := ApplyOrder(positions, roundtrips, sorted[i]);
    }
    assert sorted[..|sorted|] == sorted;
  }

  /** The body of the loop over the sorted orders: one fill opens, adds to or closes a position. */
  method ApplyOrder(positions0: Book, roundtrips0: seq<RoundTrip>, order: Order)
    returns (positions: Book, roundtrips: seq<RoundTrip>)
    ensures Desk(positions, roundtrips) == Apply(Desk(positions0, roundtrips0), order)
  {
    positions, roundtrips := positions0, roundtrips0;
    var contract := order.contractId;
    var size := FillSize(order);
    var price := FillPrice(order);
    var timestamp := FillStamp(order);
    var tradeSide := OrderSide(order);
    var pos := PositionOf(positions, contract);
    if pos.side.None? || pos.side == Some(tradeSide) {
      positions := positions[contract := Position(Some(tradeSide), pos.entries + [Entry(price, size, timestamp)])];
    } else {
      var closer := Closer(contract, pos.side.value, price, timestamp, FeePerRoundTurn(contract));
      var records, entries, remaining := CloseEntries(closer, pos.entries, size);
      roundtrips := roundtrips + records;
      var newSide := pos.side;
      if |entries| == 0 {
        newSide := None;
      }
      if remaining > 0 {
        newSide := Some(tradeSide);
        entries := entries + [Entry(price, remaining, timestamp)];
      }
      positions := positions[contract := Position(newSide, entries)];
    }
  }

  // ---------------------------------------------------------------------------
  // Accounting: sizes, quantities and signed positions

  function SumSizes(es: seq<Entry>): int
    decreases |es|
  {
    if |es| == 0 then 0 else es[0].size + SumSizes(es[1..])
  }

  /** Total quantity of the records of contract `c`. */
  function Quantity(ts: seq<RoundTrip>, c: string): int
    decreases |ts|
  {
    if |ts| == 0 then 0 else (if ts[0].symbol == c then ts[0].quantity else 0) + Quantity(ts[1..], c)
  }

  lemma {:induction false} SumSizesAppend(a: seq<Entry>, b: seq<Entry>)
    ensures SumSizes(a + b) == SumSizes(a) + SumSizes(b)
    decreases |a|
  {
    if |a| == 0 {
      assert a + b == b;
    } else {
      assert (a + b)[1..] == a[1..] + b;
      SumSizesAppend(a[1..], b);
    }
  }

  lemma {:induction false} QuantityAppend(a: seq<RoundTrip>, b: seq<RoundTrip>, c: string)
    ensures Quantity(a + b, c) == Quantity(a, c) + Quantity(b, c)
    decreases |a|
  {
    if |a| == 0 {
      assert a + b == b;
    } else {
      assert (a + b)[1..] == a[1..] + b;
      QuantityAppend(a[1..], b, c);
    }
  }

  lemma {:induction false} QuantityOther(ts: seq<RoundTrip>, c: string)
    requires forall t :: t in ts ==> t.symbol != c
    ensures Quantity(ts, c) == 0
    decreases |ts|
  {
    if |ts| > 0 {
      assert forall t :: t in ts[1..] ==> t in ts;
      QuantityOther(ts[1..], c);
    }
  }

  /** Every entry still open has a positive size. */
  predicate Positive(es: seq<Entry>) {
    forall i :: 0 <= i < |es| ==> es[i].size > 0
  }

  /**
   * The records a sweep emits are those of its contract, and the sweep accounts for
   * every unit: the quantities closed plus the size left over make up the fill's size,
   * and the quantities closed plus the entry sizes left make up the entry sizes before.
   * The sweep stops only when the fill is used up or no entry is left.
   */
  lemma {:induction false} CloseConservation(k: Closer, entries: seq<Entry>, remaining: int)
    ensures var r := Close(k, entries, remaining);
      (forall t :: t in r.trips ==> t.symbol == k.contract) &&
      Quantity(r.trips, k.contract) + r.remaining == remaining &&
      SumSizes(r.entries) + Quantity(r.trips, k.contract) == SumSizes(entries) &&
      (r.remaining <= 0 || |r.entries| == 0)
    decreases |entries|, if remaining > 0 then 1 else 0
  {
    if remaining > 0 && |entries| > 0 {
      var e := entries[0];
      var quantity := if remaining < e.size then remaining else e.size;
      var shrunk := e.(size := e.size - quantity);
      var rest := if shrunk.size <= 0 then entries[1..] else [shrunk] + entries[1..];
      CloseConservation(k, rest, remaining - quantity);
      var r := Close(k, rest, remaining - quantity);
      var trip := Chunk(k, e, quantity);
      assert ([trip] + r.trips)[1..] == r.trips;
      if shrunk.size > 0 {
        assert ([shrunk] + entries[1..])[1..] == entries[1..];
      }
    }
  }

  /**
   * Over positive entries and a non-negative fill, every record closes a positive
   * quantity, the entries left stay positive and the size left over is not negative.
   */
  lemma {:induction false} ClosePositive(k: Closer, entries: seq<Entry>, remaining: int)
    requires Positive(entries) && remaining >= 0
    ensures var r := Close(k, entries, remaining);
      Positive(r.entries) && r.remaining >= 0 &&
      forall t :: t in r.trips ==> t.quantity > 0
    decreases |entries|, if remaining > 0 then 1 else 0
  {
    if remaining > 0 && |entries| > 0 {
      var e := entries[0];
      var quantity := if remaining < e.size then remaining else e.size;
      var shrunk := e.(size := e.size - quantity);
      var rest := if shrunk.size <= 0 then entries[1..] else [shrunk] + entries[1..];
      assert Positive(rest) by {
        forall i | 0 <= i < |rest| ensures rest[i].size > 0 {
          if shrunk.size > 0 && i == 0 {
          } else if shrunk.size > 0 {
            assert rest[i] == entries[i];
          } else {
            assert rest[i] == entries[i + 1];
          }
        }
      }
      ClosePositive(k, rest, remaining - quantity);
    }
  }

  /** The first step of a sweep: the oldest entry goes exactly when the fill covers it. */
  lemma CloseFront(k: Closer, entries: seq<Entry>, remaining: int)
    requires remaining > 0 && |entries| > 0
    ensures var e := entries[0];
      var r := Close(k, entries, remaining);
      if e.size <= remaining then
        var r' := Close(k, entries[1..], remaining - e.size);
        r == Sweep([Chunk(k, e, e.size)] + r'.trips, r'.entries, r'.remaining)
      else
        r == Sweep([Chunk(k, e, remaining)],
          [e.(size := e.size - remaining)] + entries[1..], 0)
  {
  }

  /**
   * A record priced as the converter prices a closed chunk: the adjusted price move on
   * its quantity, `rate` per contract in fees, whole seconds from entry to exit or 0.
   */
  predicate PricedAt(t: RoundTrip, rate: real) {
    PnlPriced(t) && t.fees == ChunkFee(rate, t.quantity) && Timed(t)
  }

  predicate PnlPriced(t: RoundTrip) {
    t.pnl == ChunkPnl(t.symbol, t.side, t.entryPrice, t.exitPrice, t.quantity)
  }

  predicate Timed(t: RoundTrip) {
    t.durationSeconds == ElapsedSeconds(t.entryTime, t.exitTime).GetOr(0)
  }

  /** Priced with the contract's own round-turn fee. */
  predicate Priced(t: RoundTrip) {
    PricedAt(t, FeePerRoundTurn(t.symbol))
  }

  predicate StampsAtMost(es: seq<Entry>, bound: int) {
    forall i :: 0 <= i < |es| ==> es[i].stamp.order <= bound
  }

  /**
   * Each record of a sweep is priced from its entry and the closing fill, carries the
   * position's side and the fill's price and time, and was entered no later than `bound`
   * when every entry was; the entries left were too.
   */
  lemma {:induction false} CloseRecords(k: Closer, entries: seq<Entry>, remaining: int, bound: int)
    ensures var r := Close(k, entries, remaining);
      (forall t :: t in r.trips ==>
        PricedAt(t, k.rate) && t.symbol == k.contract && t.side == k.side &&
        t.exitTime == k.stamp && t.exitPrice == k.price) &&
      (StampsAtMost(entries, bound) ==>
        StampsAtMost(r.entries, bound) && forall t :: t in r.trips ==> t.entryTime.order <= bound)
    decreases |entries|, if remaining > 0 then 1 else 0
  {
    if remaining > 0 && |entries| > 0 {
      var e := entries[0];
      var quantity := if remaining < e.size then remaining else e.size;
      var shrunk := e.(size := e.size - quantity);
      var rest := if shrunk.size <= 0 then entries[1..] else [shrunk] + entries[1..];
      if StampsAtMost(entries, bound) {
        assert StampsAtMost(rest, bound) by {
          forall i | 0 <= i < |rest| ensures rest[i].stamp.order <= bound {
            if shrunk.size > 0 && i == 0 {
            } else if shrunk.size > 0 {
              assert rest[i] == entries[i];
            } else {
              assert rest[i] == entries[i + 1];
            }
          }
        }
      }
      CloseRecords(k, rest, remaining - quantity, bound);
    }
  }

  // ---------------------------------------------------------------------------
  // The position book

  /** `side` is None exactly when no entry is open. */
  predicate Consistent(p: Position) {
    p.side.None? <==> |p.entries| == 0
  }

  function Sign(s: Side): int {
    if s == Long then 1 else -1
  }

  /** Open size, Long entries counted positive and Short ones negative. */
  function SignedOpen(p: Position): int {
    match p.side
    case None => 0
    case Some(s) => Sign(s) * SumSizes(p.entries)
  }

  /** Sum of the fill sizes of contract `c`, buys positive and sells negative. */
  function SignedVolume(orders: seq<Order>, c: string): int
    decreases |orders|
  {
    if |orders| == 0 then 0
    else
      var o := orders[|orders| - 1];
      SignedVolume(orders[..|orders| - 1], c) + (if o.contractId == c then Sign(OrderSide(o)) * FillSize(o) else 0)
  }

  /** Sum of the fill sizes of contract `c`. */
  function Volume(orders: seq<Order>, c: string): int
    decreases |orders|
  {
    if |orders| == 0 then 0
    else
      var o := orders[|orders| - 1];
      Volume(orders[..|orders| - 1], c) + (if o.contractId == c then FillSize(o) else 0)
  }

  /** Every position of the book is consistent. */
  lemma {:induction false} ReplayConsistent(orders: seq<Order>)
    ensures forall c :: c in Replay(orders).book ==> Consistent(Replay(orders).book[c])
    decreases |orders|
  {
    if |orders| > 0 {
      ReplayConsistent(orders[..|orders| - 1]);
    }
  }

  /** What one order keeps, for one contract, when all sizes are positive. */
  predicate Balanced(d: Desk, orders: seq<Order>, c: string) {
    var p := PositionOf(d.book, c);
    Consistent(p) && Positive(p.entries) &&
    SignedOpen(p) == SignedVolume(orders, c) &&
    SumSizes(p.entries) + 2 * Quantity(d.trips, c) == Volume(orders, c)
  }

  /** An order's effect on a contract other than its own: only the records it adds. */
  lemma ApplyBalancedOther(d: Desk, orders: seq<Order>, o: Order, c: string)
    requires Balanced(d, orders, c) && c != o.contractId
    ensures Balanced(Apply(d, o), orders + [o], c)
  {
    VolumeOther(orders, o, c);
    ApplyQuantityOther(d, o, c);
    OtherBalanced(d, orders, o, c, Apply(d, o));
  }

  /** An order of another contract leaves the contract's volumes as they were. */
  lemma VolumeOther(orders: seq<Order>, o: Order, c: string)
    requires c != o.contractId
    ensures SignedVolume(orders + [o], c) == SignedVolume(orders, c)
    ensures Volume(orders + [o], c) == Volume(orders, c)
  {
    assert (orders + [o])[..|orders|] == orders;
  }

  /** The records an order adds belong to its own contract. */
  lemma ApplyQuantityOther(d: Desk, o: Order, c: string)
    requires c != o.contractId
    ensures Quantity(Apply(d, o).trips, c) == Quantity(d.trips, c)
  {
    ClosedBySymbol(d, o);
    QuantityAppend(d.trips, ClosedBy(d, o), c);
    QuantityOther(ClosedBy(d, o), c);
  }

  /** The records an order closes carry its contract. */
  lemma ClosedBySymbol(d: Desk, o: Order)
    ensures forall t :: t in ClosedBy(d, o) ==> t.symbol == o.contractId
  {
    if !Adds(d, o) {
      var pos := PositionOf(d.book, o.contractId);
      CloseConservation(CloserOf(o, pos.side.value), pos.entries, FillSize(o));
    }
  }

  /** Balance carries over to a desk that agrees on the contract's position and quantity. */
  lemma OtherBalanced(d: Desk, orders: seq<Order>, o: Order, c: string, next: Desk)
    requires Balanced(d, orders, c)
    requires PositionOf(next.book, c) == PositionOf(d.book, c)
    requires Quantity(next.trips, c) == Quantity(d.trips, c)
    requires SignedVolume(orders + [o], c) == SignedVolume(orders, c)
    requires Volume(orders + [o], c) == Volume(orders, c)
    ensures Balanced(next, orders + [o], c)
  {
  }

  /** An order on the position's side, or on a flat contract, adds its whole size. */
  lemma ApplyBalancedEntry(d: Desk, orders: seq<Order>, o: Order)
    requires Balanced(d, orders, o.contractId) && FillSize(o) > 0
    requires var pos := PositionOf(d.book, o.contractId);
      pos.side.None? || pos.side == Some(OrderSide(o))
    ensures Balanced(Apply(d, o), orders + [o], o.contractId)
  {
    var c := o.contractId;
    var pos := PositionOf(d.book, c);
    var after := Position(Some(OrderSide(o)), pos.entries + [Entry(FillPrice(o), FillSize(o), FillStamp(o))]);
    assert Apply(d, o) == Desk(d.book[c := after], d.trips);
    EntryBalanced(d, orders, o, after);
  }

  /** The entry case once the new position is known: the order's size joins the open size. */
  lemma EntryBalanced(d: Desk, orders: seq<Order>, o: Order, after: Position)
    requires Balanced(d, orders, o.contractId) && FillSize(o) > 0
    requires var pos := PositionOf(d.book, o.contractId);
      (pos.side.None? || pos.side == Some(OrderSide(o))) &&
      after == Position(Some(OrderSide(o)), pos.entries + [Entry(FillPrice(o), FillSize(o), FillStamp(o))])
    ensures Balanced(Desk(d.book[o.contractId := after], d.trips), orders + [o], o.contractId)
  {
    var c := o.contractId;
    var pos := PositionOf(d.book, c);
    var t := OrderSide(o);
    var e := Entry(FillPrice(o), FillSize(o), FillStamp(o));
    assert (orders + [o])[..|orders|] == orders;
    assert SignedVolume(orders + [o], c) == SignedVolume(orders, c) + Sign(t) * FillSize(o);
    assert Volume(orders + [o], c) == Volume(orders, c) + FillSize(o);
    SumSizesAppend(pos.entries, [e]);
    assert [e][1..] == [];
    assert SumSizes(after.entries) == SumSizes(pos.entries) + FillSize(o);
    assert SignedOpen(pos) == Sign(t) * SumSizes(pos.entries) by {
      if pos.side.None? {
        assert pos.entries == [];
      }
    }
    assert SignedOpen(after) == Sign(t) * SumSizes(after.entries);
    Distribute(Sign(t), SumSizes(pos.entries), FillSize(o));
    assert Positive(after.entries) by {
      forall i | 0 <= i < |after.entries| ensures after.entries[i].size > 0 {
        if i < |pos.entries| {
          assert after.entries[i] == pos.entries[i];
        }
      }
    }
    assert PositionOf(d.book[c := after], c) == after;
  }

  lemma Distribute(a: int, x: int, y: int)
    ensures a * (x + y) == a * x + a * y
  {
  }

  /**
   * An order against the position: what it closes leaves the signed open size and the
   * volume balance as they should be, whether or not it flips the position.
   */
  lemma ApplyBalancedExit(d: Desk, orders: seq<Order>, o: Order)
    requires Balanced(d, orders, o.contractId) && FillSize(o) > 0
    requires var pos := PositionOf(d.book, o.contractId);
      !(pos.side.None? || pos.side == Some(OrderSide(o)))
    ensures Balanced(Apply(d, o), orders + [o], o.contractId)
  {
    var c := o.contractId;
    var pos := PositionOf(d.book, c);
    var k := CloserOf(o, pos.side.value);
    var r := Close(k, pos.entries, FillSize(o));
    var after :=
      if r.remaining > 0 then Position(Some(OrderSide(o)), r.entries + [Entry(FillPrice(o), r.remaining, FillStamp(o))])
      else Position(if |r.entries| == 0 then None else pos.side, r.entries);
    assert Apply(d, o) == Desk(d.book[c := after], d.trips + r.trips);
    CloseConservation(k, pos.entries, FillSize(o));
    ClosePositive(k, pos.entries, FillSize(o));
    ExitBalanced(d, orders, o, r, after);
  }

  /** The balance after an exit, given what the sweep `r` accounts for. */
  lemma ExitBalanced(d: Desk, orders: seq<Order>, o: Order, r: Sweep, after: Position)
    requires Balanced(d, orders, o.contractId) && FillSize(o) > 0
    requires var pos := PositionOf(d.book, o.contractId);
      pos.side.Some? && pos.side != Some(OrderSide(o)) &&
      (forall t :: t in r.trips ==> t.symbol == o.contractId) &&
      Quantity(r.trips, o.contractId) + r.remaining == FillSize(o) &&
      SumSizes(r.entries) + Quantity(r.trips, o.contractId) == SumSizes(pos.entries) &&
      (r.remaining <= 0 || |r.entries| == 0) && Positive(r.entries) && r.remaining >= 0 &&
      after == if r.remaining > 0 then Position(Some(OrderSide(o)), r.entries + [Entry(FillPrice(o), r.remaining, FillStamp(o))])
        else Position(if |r.entries| == 0 then None else pos.side, r.entries)
    ensures Balanced(Desk(d.book[o.contractId := after], d.trips + r.trips), orders + [o], o.contractId)
  {
    var c := o.contractId;
    var size := FillSize(o);
    assert (orders + [o])[..|orders|] == orders;
    assert SignedVolume(orders + [o], c) == SignedVolume(orders, c) + Sign(OrderSide(o)) * size;
    assert Volume(orders + [o], c) == Volume(orders, c) + size;
    var pos := PositionOf(d.book, c);
    var s := pos.side.value;
    QuantityAppend(d.trips, r.trips, c);
    ExitArithmetic(Sign(s), Sign(OrderSide(o)), SumSizes(pos.entries), Quantity(d.trips, c), size,
      Quantity(r.trips, c), r.remaining, SumSizes(r.entries));
    if r.remaining > 0 {
      var flip := [Entry(FillPrice(o), r.remaining, FillStamp(o))];
      assert r.entries + flip == flip;
      assert flip[1..] == [];
      assert SumSizes(after.entries) == r.remaining;
      assert SignedOpen(after) == Sign(OrderSide(o)) * r.remaining;
    } else {
      assert SignedOpen(after) == Sign(s) * SumSizes(r.entries);
    }
  }

  /**
   * The arithmetic of an exit: a position of sign `a` and size `open` meets a fill of
   * the other sign `b` and size `size`; `closed` of it closes, `rem` is left over and
   * `left` of the position stays open.
   */
  lemma ExitArithmetic(a: int, b: int, open: int, q: int, size: int, closed: int, rem: int, left: int)
    requires (a == 1 && b == -1) || (a == -1 && b == 1)
    requires closed + rem == size && left + closed == open && rem >= 0 && (rem <= 0 || left == 0)
    ensures rem > 0 ==> b * rem == a * open + b * size && rem + 2 * (q + closed) == open + 2 * q + size
    ensures rem <= 0 ==> a * left == a * open + b * size && left + 2 * (q + closed) == open + 2 * q + size
  {
  }

  /**
   * With positive fill sizes, after every prefix of the orders and for every contract:
   * the position is consistent and its entries positive; the signed open size is the
   * signed sum of the contract's fills; and the open size plus twice the quantity closed
   * is the contract's total fill volume (each closed unit used one unit of an entry fill
   * and one of a closing fill).
   */
  lemma {:induction false} ReplayBalanced(orders: seq<Order>, c: string)
    requires forall o :: o in orders ==> FillSize(o) > 0
    ensures Balanced(Replay(orders), orders, c)
    decreases |orders|
  {
    if |orders| > 0 {
      var front := orders[..|orders| - 1];
      var o := orders[|orders| - 1];
      assert forall g :: g in front ==> g in orders;
      assert front + [o] == orders;
      assert Replay(orders) == Apply(Replay(front), o);
      ReplayBalanced(front, c);
      ReplayBalanced(front, o.contractId);
      ApplyBalanced(Replay(front), front, o, c);
    }
  }

  /** One order keeps every contract balanced. */
  lemma ApplyBalanced(d: Desk, orders: seq<Order>, o: Order, c: string)
    requires Balanced(d, orders, c) && Balanced(d, orders, o.contractId) && FillSize(o) > 0
    ensures Balanced(Apply(d, o), orders + [o], c)
  {
    var pos := PositionOf(d.book, o.contractId);
    if c != o.contractId {
      ApplyBalancedOther(d, orders, o, c);
    } else if pos.side.None? || pos.side == Some(OrderSide(o)) {
      ApplyBalancedEntry(d, orders, o);
    } else {
      ApplyBalancedExit(d, orders, o);
    }
  }

  /** Entries in the book were made by orders whose key is at most `bound`. */
  lemma {:induction false} ReplayStampsAtMost(orders: seq<Order>, bound: int, c: string)
    requires forall o :: o in orders ==> OrderKey(o) <= bound
    ensures StampsAtMost(PositionOf(Replay(orders).book, c).entries, bound)
    decreases |orders|
  {
    if |orders| > 0 {
      var front := orders[..|orders| - 1];
      var o := orders[|orders| - 1];
      var d := Replay(front);
      assert Replay(orders) == Apply(d, o);
      assert forall g :: g in front ==> g in orders;
      ReplayStampsAtMost(front, bound, c);
      if c == o.contractId {
        ReplayStampsAtMost(front, bound, o.contractId);
        AfterStampsAtMost(d, o, bound);
      }
    }
  }

  /** An order made no later than `bound` leaves its contract's entries made no later than `bound`. */
  lemma AfterStampsAtMost(d: Desk, o: Order, bound: int)
    requires StampsAtMost(PositionOf(d.book, o.contractId).entries, bound) && OrderKey(o) <= bound
    ensures StampsAtMost(After(d, o).entries, bound)
  {
    var pos := PositionOf(d.book, o.contractId);
    var e := Entry(FillPrice(o), FillSize(o), FillStamp(o));
    if Adds(d, o) {
      StampsAppend(pos.entries, e.(size := FillSize(o)), bound);
    } else {
      var r := SweepOf(d, o);
      CloseRecords(CloserOf(o, pos.side.value), pos.entries, FillSize(o), bound);
      assert StampsAtMost(r.entries, bound);
      StampsAppend(r.entries, e.(size := r.remaining), bound);
    }
  }

  lemma StampsAppend(es: seq<Entry>, e: Entry, bound: int)
    requires StampsAtMost(es, bound) && e.stamp.order <= bound
    ensures StampsAtMost(es + [e], bound)
  {
    assert forall i :: 0 <= i < |es| ==> (es + [e])[i] == es[i];
  }

  /**
   * Every record is priced from its own entry and exit, and over orders sorted by
   * timestamp the entry of each record sorts no later than its exit.
   */
  lemma {:induction false} ReplayRecords(orders: seq<Order>)
    ensures forall t :: t in Replay(orders).trips ==> Priced(t)
    ensures SortedBy(orders, OrderKey) ==>
      forall t :: t in Replay(orders).trips ==> t.entryTime.order <= t.exitTime.order
    decreases |orders|
  {
    if |orders| > 0 {
      var front := orders[..|orders| - 1];
      var o := orders[|orders| - 1];
      var d := Replay(front);
      assert Replay(orders) == Apply(d, o);
      ReplayRecords(front);
      assert forall t :: t in Apply(d, o).trips ==> t in d.trips || t in ClosedBy(d, o);
      var pos := PositionOf(d.book, o.contractId);
      if !(pos.side.None? || pos.side == Some(OrderSide(o))) {
        if SortedBy(orders, OrderKey) {
          SortedByInit(orders, OrderKey);
          assert forall g :: g in front ==> OrderKey(g) <= OrderKey(o);
          ReplayStampsAtMost(front, OrderKey(o), o.contractId);
        }
        CloseRecords(CloserOf(o, pos.side.value), pos.entries, FillSize(o), OrderKey(o));
      }
    }
  }

  /**
   * What `_convert_orders_to_roundtrips` returns: every record priced from its entry and
   * exit, entered no later than it exited in timestamp order.
   */
  lemma OrderRoundtripsShape(orders: seq<Order>)
    ensures forall t :: t in OrderRoundtrips(orders) ==> Priced(t) && t.entryTime.order <= t.exitTime.order
  {
    SortBySortedPermutation(orders, OrderKey);
    ReplayRecords(SortBy(orders, OrderKey));
  }

  /** With positive fill sizes, every record closes a positive quantity. */
  lemma {:induction false} ReplayQuantitiesPositive(orders: seq<Order>)
    requires forall o :: o in orders ==> FillSize(o) > 0
    ensures forall t :: t in Replay(orders).trips ==> t.quantity > 0
    decreases |orders|
  {
    if |orders| > 0 {
      var front := orders[..|orders| - 1];
      var o := orders[|orders| - 1];
      assert forall g :: g in front ==> g in orders;
      ReplayQuantitiesPositive(front);
      var d := Replay(front);
      var pos := PositionOf(d.book, o.contractId);
      if !(pos.side.None? || pos.side == Some(OrderSide(o))) {
        ReplayBalanced(front, o.contractId);
        var k := CloserOf(o, pos.side.value);
        ClosePositive(k, pos.entries, FillSize(o));
        assert forall t :: t in d.trips + Close(k, pos.entries, FillSize(o)).trips ==>
          t in d.trips || t in Close(k, pos.entries, FillSize(o)).trips;
      }
    }
  }

  /**
   * With positive fill sizes, every record `_convert_orders_to_roundtrips` returns closes
   * a positive quantity and costs at least 0.52 per contract in fees.
   */
  lemma OrderRoundtripsPositive(orders: seq<Order>)
    requires forall o :: o in orders ==> FillSize(o) > 0
    ensures forall t :: t in OrderRoundtrips(orders) ==> t.quantity > 0 && t.fees >= 0.52 * t.quantity as real
  {
    var sorted := SortBy(orders, OrderKey);
    SortBySortedPermutation(orders, OrderKey);
    forall o | o in sorted ensures FillSize(o) > 0 {
      assert o in multiset(sorted);
    }
    var ts := Replay(sorted).trips;
    ReplayQuantitiesPositive(sorted);
    ReplayRecords(sorted);
    PricedFeesAtLeast(ts);
  }

  /** Every priced record of a positive quantity pays at least the cheapest round turn, 0.52. */
  lemma PricedFeesAtLeast(ts: seq<RoundTrip>)
    requires forall t :: t in ts ==> Priced(t) && t.quantity > 0
    ensures forall t :: t in ts ==> t.fees >= 0.52 * t.quantity as real
  {
    forall t | t in ts ensures t.fees >= 0.52 * t.quantity as real {
      FeeAtLeast(t.fees, FeePerRoundTurn(t.symbol), 0.52, t.quantity);
    }
  }
}
