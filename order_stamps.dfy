/**
 * The sort order of `sorted_orders` for orders without a timestamp: the empty text sorts
 * before every other timestamp text.
 */
module OrderStamps {
  import opened Sorting
  import opened Orders

  /** Every timestamp an order carries is non-empty text, so it ranks above the empty text. */
  predicate TextsRanked(o: Order) {
    (o.updateTimestamp.Some? ==> o.updateTimestamp.value.order > Orders.EmptyText.order) &&
    (o.creationTimestamp.Some? ==> o.creationTimestamp.value.order > Orders.EmptyText.order)
  }

  /** An order with neither timestamp; its sort key is the empty text. */
  predicate Unstamped(o: Order) {
    o.updateTimestamp.None? && o.creationTimestamp.None?
  }

  /**
   * `''` sorts before every non-empty string: in `sorted_orders` every order without a
   * timestamp comes before every order that has one.
   */
  lemma SortedUnstampedFirst(orders: seq<Order>)
    requires forall o :: o in orders ==> TextsRanked(o)
    ensures forall i, j :: 0 <= i < j < |SortBy(orders, OrderKey)| && Unstamped(SortBy(orders, OrderKey)[j]) ==>
      Unstamped(SortBy(orders, OrderKey)[i])
  {
    var s := SortBy(orders, OrderKey);
    SortBySortedPermutation(orders, OrderKey);
    forall i, j | 0 <= i < j < |s| && Unstamped(s[j]) ensures Unstamped(s[i]) {
      assert s[i] in multiset(orders) by {
        assert s[i] in multiset(s);
      }
      assert TextsRanked(s[i]);
      assert OrderKey(s[j]) == 0;
      assert OrderKey(s[i]) <= 0;
    }
  }
}
