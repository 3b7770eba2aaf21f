/** Nothing is lost and nothing is made up: quantities are conserved by every order and over
    every run, per order id and per side. Ids need not be unique; sums are by id. */
module Conservation {
  import opened Models
  import opened Sums
  import opened PriceTime

  /** Which orders a sum counts. */
  type Selection = int -> bool

  function OnlyId(id: int): Selection {
    x => x == id
  }

  function AnyId(): Selection {
    _ => true
  }

  function Counted(sel: Selection, id: int, qty: int): int {
    if sel(id) then qty else 0
  }

  function OrderWeight(sel: Selection): Resting -> int {
    (r: Resting) => Counted(sel, r.id, r.qty)
  }

  function LevelWeight(sel: Selection): seq<Resting> -> int {
    (l: seq<Resting>) => SumBy(l, OrderWeight(sel))
  }

  function MakerWeight(sel: Selection): Trade -> int {
    (t: Trade) => Counted(sel, t.makerOrderId, t.quantity)
  }

  function TakerWeight(sel: Selection): Trade -> int {
    (t: Trade) => Counted(sel, t.takerOrderId, t.quantity)
  }

  /** Quantity resting on one side. */
  function RestingQty(levels: Levels, sel: Selection): int {
    SumBy(levels, LevelWeight(sel))
  }

  /** Quantity filled as maker. */
  function MakerQty(trades: seq<Trade>, sel: Selection): int {
    SumBy(trades, MakerWeight(sel))
  }

  /** Quantity filled as taker. */
  function TakerQty(trades: seq<Trade>, sel: Selection): int {
    SumBy(trades, TakerWeight(sel))
  }

  /** Quantity an order brought in: what it had, if it was accepted with a positive quantity. */
  function AcceptedQty(o: Order, r: OrderResult, sel: Selection): int {
    if r == Success && o.remainingQuantity > 0 then Counted(sel, o.id, o.remainingQuantity) else 0
  }

  lemma ConsumedQty(levels: Levels, b: nat, q: int, sel: Selection)
    requires b < |levels| && levels[b] != []
    ensures RestingQty(levels[b := Consumed(levels[b], q)], sel) ==
            RestingQty(levels, sel) - Counted(sel, levels[b][0].id, q)
  {
    SumUpdate(levels, b, Consumed(levels[b], q), LevelWeight(sel));
    var l := levels[b];
    assert l == [l[0]] + l[1..];
    if q != l[0].qty {
      assert Consumed(l, q)[1..] == l[1..];
    }
  }

  lemma AppendQty(levels: Levels, i: nat, r: Resting, sel: Selection)
    requires i < |levels|
    ensures RestingQty(Append(levels, i, r), sel) == RestingQty(levels, sel) + Counted(sel, r.id, r.qty)
  {
    SumUpdate(levels, i, levels[i] + [r], LevelWeight(sel));
    SumConcat(levels[i], [r], OrderWeight(sel));
    SumOne(r, OrderWeight(sel));
  }

  lemma OneTrade(t: Trade, sel: Selection)
    ensures MakerQty([t], sel) == Counted(sel, t.makerOrderId, t.quantity)
    ensures TakerQty([t], sel) == Counted(sel, t.takerOrderId, t.quantity)
  {
    SumOne(t, MakerWeight(sel));
    SumOne(t, TakerWeight(sel));
  }

  /** A sweep takes from the makers what it gives to the taker. */
  lemma {:induction false} SweepConserves(levels: Levels, maker: OrderSide, minPrice: int, t: Taker, sel: Selection)
    requires AllPositive(levels)
    ensures var s := Sweep(levels, maker, minPrice, t);
            && RestingQty(s.levels, sel) + MakerQty(s.trades, sel) == RestingQty(levels, sel)
            && Counted(sel, t.id, s.left) + TakerQty(s.trades, sel) == Counted(sel, t.id, t.qty)
            && (t.qty > 0 ==> s.left >= 0)
    decreases t.qty
  {
    if CanMatch(levels, maker, minPrice, t) {
      BestHasOrders(levels, maker);
      var one := MatchOne(levels, maker, minPrice, t);
      ConsumedQty(levels, Best(levels, maker), one.trades[0].quantity, sel);
      SweepConserves(one.levels, maker, minPrice, t.(qty := one.left), sel);
      var s := Sweep(one.levels, maker, minPrice, t.(qty := one.left));
      OneTrade(one.trades[0], sel);
      SumConcat(one.trades, s.trades, MakerWeight(sel));
      SumConcat(one.trades, s.trades, TakerWeight(sel));
    }
  }

  /** One order: on its own side the book gains what the order brought in less what it took; on the other
      side the book loses what the makers were filled. */
  lemma StepConserves(c: Config, b: Book, o: Order, sel: Selection)
    requires c.Valid() && WellFormed(c, b)
    ensures var r, maker := Step(c, b, o), Opposite(o.side);
            && RestingQty(r.book.Side(o.side), sel) + TakerQty(r.trades, sel) ==
               RestingQty(b.Side(o.side), sel) + AcceptedQty(o, r.result, sel)
            && RestingQty(r.book.Side(maker), sel) + MakerQty(r.trades, sel) == RestingQty(b.Side(maker), sel)
  {
    var r, maker := Step(c, b, o), Opposite(o.side);
    if c.Accepts(o.price) {
      var t := Taker(o.id, o.price, o.remainingQuantity);
      SweepConserves(b.Side(maker), maker, c.minPrice, t, sel);
      SweepCount(b.Side(maker), maker, c.minPrice, t);
      var s := SweepFor(c, b, o);
      if s.left > 0 {
        AppendQty(b.Side(o.side), c.PriceIndex(o.price), Resting(o.id, o.price, s.left), sel);
      }
    }
  }

  /** Quantity brought in by the orders of one side over a run. */
  function BroughtIn(orders: seq<Order>, results: seq<OrderResult>, side: OrderSide, sel: Selection): int
    requires |orders| == |results|
  {
    if orders == [] then 0
    else (if orders[0].side == side then AcceptedQty(orders[0], results[0], sel) else 0)
         + BroughtIn(orders[1..], results[1..], side, sel)
  }

  /** Over any run from any book, per selection of ids:
      brought in + resting before = filled as taker + filled as maker + resting after. */
  lemma {:induction false} RunConserves(c: Config, b: Book, orders: seq<Order>, sel: Selection)
    requires c.Valid() && WellFormed(c, b)
    ensures var r := RunOrders(c, b, orders);
            BroughtIn(orders, r.results, Buy, sel) + BroughtIn(orders, r.results, Sell, sel)
              + RestingQty(b.bids, sel) + RestingQty(b.asks, sel) ==
            TakerQty(r.trades, sel) + MakerQty(r.trades, sel)
              + RestingQty(r.book.bids, sel) + RestingQty(r.book.asks, sel)
    decreases orders
  {
    if orders != [] {
      var s := Step(c, b, orders[0]);
      StepConserves(c, b, orders[0], sel);
      RunConserves(c, s.book, orders[1..], sel);
      var rest := RunOrders(c, s.book, orders[1..]);
      RunHeads(c, b, orders);
      SumConcat(s.trades, rest.trades, TakerWeight(sel));
      SumConcat(s.trades, rest.trades, MakerWeight(sel));
    }
  }

  lemma RunHeads(c: Config, b: Book, orders: seq<Order>)
    requires c.Valid() && WellFormed(c, b) && orders != []
    ensures var s := Step(c, b, orders[0]);
            var rest, r := RunOrders(c, s.book, orders[1..]), RunOrders(c, b, orders);
            r.results[0] == s.result && r.results[1..] == rest.results && r.trades == s.trades + rest.trades
  {
    RunFirst(c, b, orders);
  }

  /** For one order id over a run from an empty book: the accepted quantity is what was filled as taker,
      plus what was filled as maker, plus what still rests. */
  lemma IdConserved(c: Config, orders: seq<Order>, id: int)
    requires c.Valid()
    ensures WellFormed(c, EmptyBook(c))
    ensures var r, sel := RunOrders(c, EmptyBook(c), orders), OnlyId(id);
            BroughtIn(orders, r.results, Buy, sel) + BroughtIn(orders, r.results, Sell, sel) ==
            TakerQty(r.trades, sel) + MakerQty(r.trades, sel)
              + RestingQty(r.book.bids, sel) + RestingQty(r.book.asks, sel)
  {
    EmptyBookWellFormed(c);
    RunConserves(c, EmptyBook(c), orders, OnlyId(id));
    AllEmptySum(EmptyLevels(c.levels), LevelWeight(OnlyId(id)));
  }

  // ---------- Bought and sold ----------

  lemma {:induction false} SidesAgree(trades: seq<Trade>)
    ensures TakerQty(trades, AnyId()) == MakerQty(trades, AnyId())
  {
    if trades != [] {
      SidesAgree(trades[1..]);
    }
  }

  function Traded(trades: seq<Trade>): int {
    TakerQty(trades, AnyId())
  }

  /** Each side separately: what its orders brought in is what was traded plus the growth of what rests there.
      Total bought and total sold are therefore both equal to the total traded. */
  lemma {:induction false} SideConserved(c: Config, b: Book, orders: seq<Order>, side: OrderSide)
    requires c.Valid() && WellFormed(c, b)
    ensures var r := RunOrders(c, b, orders);
            BroughtIn(orders, r.results, side, AnyId()) + RestingQty(b.Side(side), AnyId()) ==
            Traded(r.trades) + RestingQty(r.book.Side(side), AnyId())
    decreases orders
  {
    if orders != [] {
      var s := Step(c, b, orders[0]);
      StepConserves(c, b, orders[0], AnyId());
      SidesAgree(s.trades);
      SideConserved(c, s.book, orders[1..], side);
      var rest := RunOrders(c, s.book, orders[1..]);
      RunHeads(c, b, orders);
      SumConcat(s.trades, rest.trades, TakerWeight(AnyId()));
    }
  }
}
