/** Price-time priority as the trade log shows it. */
module PriceTimePriority {
  import opened Models
  import opened Sums
  import opened PriceTime
  import opened Conservation
  import opened Invariants
  import opened Priority
  import opened ArrivalOrder

  /** Price-time priority over any run from an empty book, in terms of the orders and the trade log alone. Of two orders
      on the same side, one at a level that is better (a lower ask, a higher bid), or that arrived earlier at the same
      level, has been filled completely before the other one is maker in a trade with an order that arrived later
      than both. */
  lemma BetterOrEarlierIsFilledFirst(c: Config, orders: seq<Order>, i: nat, j: nat, n: nat, t: nat)
    requires c.Valid() && DistinctIds(orders) && i < n < |orders| && j < |orders| && i != j
    requires orders[i].side == orders[j].side
    requires var pi, pj := c.PriceIndex(orders[i].price), c.PriceIndex(orders[j].price);
             if pi == pj then i < j else if orders[i].side == Sell then pi < pj else pi > pj
    requires WellFormed(c, EmptyBook(c))
    requires var r := RunOrders(c, EmptyBook(c), orders);
             && r.results[i] == Success && orders[i].remainingQuantity > 0 && t < |r.trades|
             && r.trades[t].makerOrderId == orders[j].id && r.trades[t].takerOrderId == orders[n].id
    ensures Filled(RunOrders(c, EmptyBook(c), orders).trades[..t], orders[i].id) == orders[i].remainingQuantity
  {
    var p := Pair(orders[i].side, i, orders[i].id, c.PriceIndex(orders[i].price),
                  j, orders[j].id, c.PriceIndex(orders[j].price));
    RunsInTurn(c, orders, p, |orders|);
    assert orders[..|orders|] == orders;
    assert TakerAfter(orders, i, orders[n].id);
  }

  /** The same price is the same level: the earlier of two orders with one side and price is filled completely before
      the later one is maker in any trade. */
  lemma EarlierIsFilledFirst(c: Config, orders: seq<Order>, i: nat, j: nat, t: nat)
    requires c.Valid() && DistinctIds(orders) && i < j < |orders|
    requires orders[i].side == orders[j].side && orders[i].price == orders[j].price
    requires WellFormed(c, EmptyBook(c))
    requires var r := RunOrders(c, EmptyBook(c), orders);
             && r.results[i] == Success && orders[i].remainingQuantity > 0
             && t < |r.trades| && r.trades[t].makerOrderId == orders[j].id
    ensures Filled(RunOrders(c, EmptyBook(c), orders).trades[..t], orders[i].id) == orders[i].remainingQuantity
  {
    var l, trades := c.PriceIndex(orders[i].price), RunOrders(c, EmptyBook(c), orders).trades;
    var p := Pair(orders[i].side, i, orders[i].id, l, j, orders[j].id, l);
    RunsInTurn(c, orders, p, |orders|);
    assert orders[..|orders|] == orders;
    var n :| j < n < |orders| && orders[n].id == trades[t].takerOrderId;
    BetterOrEarlierIsFilledFirst(c, orders, i, j, n, t);
  }

  // ---------- Limits ----------

  /** A buy never pays more than its limit and a sell never gets less, and what is left of an order rests only when no
      order on the other side has an acceptable price. */
  lemma LimitsKept(c: Config, b: Book, o: Order)
    requires c.Valid() && WellFormed(c, b)
    ensures var trades := Step(c, b, o).trades;
            forall k :: 0 <= k < |trades| ==>
              if o.side == Buy then trades[k].price <= o.price else trades[k].price >= o.price
    ensures var s := SweepFor(c, b, o);
            s.left > 0 ==> forall i :: 0 <= i < c.levels && s.levels[i] != [] ==>
              if o.side == Buy then c.minPrice + i > o.price else c.minPrice + i < o.price
  {
    var maker, t := Opposite(o.side), Taker(o.id, o.price, o.remainingQuantity);
    StepTrades(c, b, o);
    TradesMonotone(b.Side(maker), maker, c.minPrice, t);
    SweepEmpties(b.Side(maker), maker, c.minPrice, t);
    var s := SweepFor(c, b, o);
    hide Sweep, Step, Best;
    forall k | 0 <= k < |s.trades|
      ensures if o.side == Buy then s.trades[k].price <= o.price else s.trades[k].price >= o.price
    {
      assert Crosses(maker, s.trades[k].price, o.price);
    }
    if s.left > 0 {
      NoMatch(s.levels, maker, c.minPrice, t.(qty := s.left));
      forall i | 0 <= i < c.levels && s.levels[i] != []
        ensures if o.side == Buy then c.minPrice + i > o.price else c.minPrice + i < o.price
      {
        assert !Crosses(maker, i + c.minPrice, o.price);
      }
    }
  }
}
