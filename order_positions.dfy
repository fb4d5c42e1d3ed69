/**
 * What one filled order leaves of its contract's position in
 * `DataCollector._convert_orders_to_roundtrips` (services/data_collector.py).
 */
module OrderPositions {
  import opened Wrappers
  import opened Orders

  /**
   * A fill larger than the opposite-side position flips it: the sweep closes every open
   * unit, and the leftover re-opens the position on the fill's side as one entry at the
   * fill's price and timestamp.
   */
  lemma AfterFlip(d: Desk, o: Order)
    requires !Adds(d, o) && SweepOf(d, o).remaining > 0
    ensures Quantity(SweepOf(d, o).trips, o.contractId) == SumSizes(PositionOf(d.book, o.contractId).entries)
    ensures After(d, o) == Position(Some(OrderSide(o)), [Entry(FillPrice(o), SweepOf(d, o).remaining, FillStamp(o))])
  {
    var pos := PositionOf(d.book, o.contractId);
    CloseConservation(CloserOf(o, pos.side.value), pos.entries, FillSize(o));
    assert SweepOf(d, o).entries == [];
  }
}
