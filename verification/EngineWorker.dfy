/** The matching loop of the engine: look up the best opposite price, run the risk check,
    match what passes. */
module Engine {
  import opened Models
  import opened Sums
  import opened PriceTime
  import opened Books
  import opened Arena
  import opened Images
  import opened RiskGate

  const CHANNEL_CAPACITY: nat := 1_000_000
  const POOL_SIZE: nat := 500_000
  const MIN_PRICE: int := 90
  const MAX_PRICE: int := 110
  const LIMITS := Limits(10_000, 10_000_000, 50)
  const ENGINE_CONFIG := Config(MIN_PRICE, MAX_PRICE - MIN_PRICE + 1, POOL_SIZE)

  /** What a drain of the channel does: the orders that reached the book, the final book, the trades,
      how many orders the risk check refused, and whether the loop died on an arithmetic fault. */
  datatype Drained = Drained(passed: seq<Order>, book: Book, trades: seq<Trade>, refused: nat, faulted: bool)

  /** The loop over a sequence of queued orders. */
  function Drain(c: Config, l: Limits, b: Book, orders: seq<Order>): Drained
    requires c.Valid() && WellFormed(c, b)
    decreases orders
  {
    if orders == [] then Drained([], b, [], 0, false)
    else
      match ValidateOrder(l, orders[0], MarketPrice(c.minPrice, b, orders[0]))
      case Fault => Drained([], b, [], 0, true)
      case Passed =>
        var s := Step(c, b, orders[0]);
        var d := Drain(c, l, s.book, orders[1..]);
        Drained([orders[0]] + d.passed, d.book, s.trades + d.trades, d.refused, d.faulted)
      case _ =>
        var d := Drain(c, l, b, orders[1..]);
        d.(refused := d.refused + 1)
  }

  /** The loop did `sofar` and goes on with `orders` on book `b`. */
  predicate Draining(whole: Drained, sofar: Drained, c: Config, l: Limits, b: Book, orders: seq<Order>) {
    && c.Valid() && WellFormed(c, b)
    && var d := Drain(c, l, b, orders);
       whole == Drained(sofar.passed + d.passed, d.book, sofar.trades + d.trades, sofar.refused + d.refused, d.faulted)
  }

  lemma DrainingStart(c: Config, l: Limits, b: Book, orders: seq<Order>)
    requires c.Valid() && WellFormed(c, b)
    ensures Draining(Drain(c, l, b, orders), Drained([], b, [], 0, false), c, l, b, orders)
  {
    var d := Drain(c, l, b, orders);
    assert [] + d.passed == d.passed && [] + d.trades == d.trades;
  }

  lemma DrainingEnd(whole: Drained, sofar: Drained, c: Config, l: Limits, b: Book)
    requires Draining(whole, sofar, c, l, b, [])
    ensures whole == Drained(sofar.passed, b, sofar.trades, sofar.refused, false)
  {
    assert sofar.passed + [] == sofar.passed && sofar.trades + [] == sofar.trades;
  }

  lemma DrainingStep(whole: Drained, sofar: Drained, c: Config, l: Limits, b: Book, orders: seq<Order>)
    requires Draining(whole, sofar, c, l, b, orders) && orders != []
    ensures var v := ValidateOrder(l, orders[0], MarketPrice(c.minPrice, b, orders[0]));
            && (v == Fault ==> whole == sofar.(book := b, faulted := true))
            && (v == Passed ==>
                  var s := Step(c, b, orders[0]);
                  Draining(whole, sofar.(passed := sofar.passed + [orders[0]], trades := sofar.trades + s.trades),
                           c, l, s.book, orders[1..]))
            && (v != Fault && v != Passed ==>
                  Draining(whole, sofar.(refused := sofar.refused + 1), c, l, b, orders[1..]))
  {
    hide Step, ValidateOrder, WellFormed, MarketPrice;
    var v := ValidateOrder(l, orders[0], MarketPrice(c.minPrice, b, orders[0]));
    if v == Fault {
      assert sofar.passed + [] == sofar.passed && sofar.trades + [] == sofar.trades;
    } else if v == Passed {
      var s := Step(c, b, orders[0]);
      var d := Drain(c, l, s.book, orders[1..]);
      assert sofar.passed + ([orders[0]] + d.passed) == (sofar.passed + [orders[0]]) + d.passed;
      assert sofar.trades + (s.trades + d.trades) == (sofar.trades + s.trades) + d.trades;
    }
  }

  /** Gating and matching is matching what passed: every result about runs of the book holds of the engine. */
  lemma {:induction false} DrainIsRun(c: Config, l: Limits, b: Book, orders: seq<Order>)
    requires c.Valid() && WellFormed(c, b)
    ensures var d := Drain(c, l, b, orders);
            var r := RunOrders(c, b, d.passed);
            d.book == r.book && d.trades == r.trades
    ensures var d := Drain(c, l, b, orders);
            !d.faulted ==> |d.passed| + d.refused == |orders|
    decreases orders
  {
    hide Step, ValidateOrder, WellFormed, MarketPrice;
    if orders != [] {
      var d := Drain(c, l, b, orders);
      match ValidateOrder(l, orders[0], MarketPrice(c.minPrice, b, orders[0]))
      case Fault =>
        RunNothing(c, b);
      case Passed =>
        DrainIsRun(c, l, Step(c, b, orders[0]).book, orders[1..]);
        RunFirst(c, b, d.passed);
        assert d.passed[1..] == Drain(c, l, Step(c, b, orders[0]).book, orders[1..]).passed;
      case _ =>
        DrainIsRun(c, l, b, orders[1..]);
    } else {
      RunNothing(c, b);
    }
  }

  /** What one order meets: it is matched if it passes the gate on the book as it is, and otherwise refused, unless
      the loop dies on it. */
  lemma DrainOne(c: Config, l: Limits, b: Book, o: Order)
    requires c.Valid() && WellFormed(c, b)
    ensures var v := ValidateOrder(l, o, MarketPrice(c.minPrice, b, o));
            var r := RunOrders(c, b, [o]);
            Drain(c, l, b, [o]) ==
            if v == Passed then Drained([o], r.book, r.trades, 0, false)
            else Drained([], b, [], if v == Fault then 0 else 1, v == Fault)
  {
    hide Step, ValidateOrder, WellFormed, MarketPrice;
    assert [o][1..] == [];
    RunOne(c, b, o);
    var s := Step(c, b, o);
    assert s.trades + [] == s.trades;
  }

  /** However the orders are cut into bursts: what comes later is drained on the book that the earlier orders left,
      and nothing is drained after a fault. */
  lemma {:induction false} DrainConcat(c: Config, l: Limits, b: Book, xs: seq<Order>, ys: seq<Order>)
    requires c.Valid() && WellFormed(c, b)
    ensures WellFormed(c, Drain(c, l, b, xs).book)
    ensures var first := Drain(c, l, b, xs);
            var rest := Drain(c, l, first.book, ys);
            Drain(c, l, b, xs + ys) ==
            if first.faulted then first
            else Drained(first.passed + rest.passed, rest.book, first.trades + rest.trades,
                         first.refused + rest.refused, rest.faulted)
    decreases |xs|
  {
    hide Step, ValidateOrder, WellFormed, MarketPrice;
    if xs == [] {
      assert xs + ys == ys;
      var rest := Drain(c, l, b, ys);
      assert [] + rest.passed == rest.passed && [] + rest.trades == rest.trades;
    } else {
      assert (xs + ys)[0] == xs[0] && (xs + ys)[1..] == xs[1..] + ys;
      match ValidateOrder(l, xs[0], MarketPrice(c.minPrice, b, xs[0]))
      case Fault =>
      case Passed =>
        var s := Step(c, b, xs[0]);
        DrainConcat(c, l, s.book, xs[1..], ys);
        var first := Drain(c, l, s.book, xs[1..]);
        var rest := Drain(c, l, first.book, ys);
        ConcatAssoc([xs[0]], first.passed, rest.passed);
        ConcatAssoc(s.trades, first.trades, rest.trades);
      case _ =>
        DrainConcat(c, l, b, xs[1..], ys);
    }
  }

  class EngineWorker {
    const orderBook: OrderBook
    const producer: TradeLog
    var orderChannel: seq<Order>
    var ordersProcessed: nat
    var ordersRejectedByRisk: nat
    var tradesMatched: nat

    ghost predicate Valid()
      reads this, orderBook, orderBook.bids, orderBook.asks, orderBook.pool, orderBook.pool.memory
    {
      && orderBook.Valid() && orderBook.Cfg() == ENGINE_CONFIG
      && |orderChannel| <= CHANNEL_CAPACITY
    }

    constructor (producer: TradeLog)
      ensures Valid() && fresh(orderBook) && fresh(orderBook.bids) && fresh(orderBook.asks)
      ensures fresh(orderBook.pool) && fresh(orderBook.pool.memory)
      ensures orderChannel == [] && orderBook.Contents() == EmptyBook(ENGINE_CONFIG)
      ensures ordersProcessed == ordersRejectedByRisk == tradesMatched == 0 && this.producer == producer
    {
      hide Image.Structured, FreeLinked, Tracked, AllPositive, RestingCount;
      this.producer := producer;
      orderBook := new OrderBook(MIN_PRICE, MAX_PRICE, POOL_SIZE);
      orderChannel := [];
      ordersProcessed, ordersRejectedByRisk, tradesMatched := 0, 0, 0;
    }

    /** Non-blocking write to the channel; false when it is full. */
    method EnqueueOrder(order: Order) returns (ok: bool)
      requires |orderChannel| <= CHANNEL_CAPACITY
      modifies `orderChannel, `ordersProcessed
      ensures ok <==> old(|orderChannel|) < CHANNEL_CAPACITY
      ensures orderChannel == if ok then old(orderChannel) + [order] else old(orderChannel)
      ensures ordersProcessed == old(ordersProcessed) + (if ok then 1 else 0)
      ensures |orderChannel| <= CHANNEL_CAPACITY
    {
      ok := |orderChannel| < CHANNEL_CAPACITY;
      if ok {
        orderChannel := orderChannel + [order];
        ordersProcessed := ordersProcessed + 1;
      }
    }

    /** One order off the channel: best opposite price, risk check, matching. */
    method HandleOrder(order: Order) returns (riskStatus: RiskCheckResult)
      requires Valid()
      modifies `ordersRejectedByRisk, `tradesMatched, producer
      modifies orderBook, orderBook.bids, orderBook.asks, orderBook.pool, orderBook.pool.memory
      ensures Valid() && WellFormed(ENGINE_CONFIG, old(orderBook.Contents()))
      ensures riskStatus == ValidateOrder(LIMITS, order, MarketPrice(MIN_PRICE, old(orderBook.Contents()), order))
      ensures riskStatus == Passed ==>
                var s := Step(ENGINE_CONFIG, old(orderBook.Contents()), order);
                && orderBook.Contents() == s.book && producer.trades == old(producer.trades) + s.trades
                && tradesMatched == old(tradesMatched) + |s.trades|
                && ordersRejectedByRisk == old(ordersRejectedByRisk)
      ensures riskStatus != Passed ==>
                && orderBook.Contents() == old(orderBook.Contents()) && producer.trades == old(producer.trades)
                && tradesMatched == old(tradesMatched)
                && ordersRejectedByRisk == old(ordersRejectedByRisk) + (if riskStatus == Fault then 0 else 1)
    {
      hide Image.Structured, FreeLinked, Tracked, AllPositive, Step, ValidateOrder, Best;
      var currentMarketPrice;
      if order.side == Buy {
        currentMarketPrice := orderBook.GetBestAskPrice();
      } else {
        currentMarketPrice := orderBook.GetBestBidPrice();
      }
      if currentMarketPrice == -1 {
        currentMarketPrice := order.price;
      }
      riskStatus := ValidateOrder(LIMITS, order, currentMarketPrice);
      if riskStatus == Passed {
        var before := |producer.trades|;
        var result := orderBook.ProcessOrder(order, producer);
        tradesMatched := tradesMatched + (|producer.trades| - before);
      } else if riskStatus != Fault {
        ordersRejectedByRisk := ordersRejectedByRisk + 1;
      }
    }

    /** Read the channel until it is empty; true when the loop died on an arithmetic fault. */
    method RunMatchingLoop() returns (faulted: bool)
      requires Valid()
      modifies this, producer, orderBook, orderBook.bids, orderBook.asks, orderBook.pool, orderBook.pool.memory
      ensures Valid() && WellFormed(ENGINE_CONFIG, old(orderBook.Contents()))
      ensures var d := Drain(ENGINE_CONFIG, LIMITS, old(orderBook.Contents()), old(orderChannel));
              && orderBook.Contents() == d.book && faulted == d.faulted
              && producer.trades == old(producer.trades) + d.trades
              && ordersRejectedByRisk == old(ordersRejectedByRisk) + d.refused
              && tradesMatched == old(tradesMatched) + |d.trades|
      ensures !faulted ==> orderChannel == []
      ensures faulted ==>
                var d := Drain(ENGINE_CONFIG, LIMITS, old(orderBook.Contents()), old(orderChannel));
                var done := |d.passed| + d.refused + 1;
                done <= |old(orderChannel)| && orderChannel == old(orderChannel)[done..]
      ensures ordersProcessed == old(ordersProcessed)
    {
      hide OrderBook.Structure, OrderBook.Trackers, OrderBook.SideView, OrderBook.Contents;
      hide AllPositive, RestingCount, Step, Drain, Draining, ValidateOrder, MarketPrice, WellFormed;
      assert WellFormed(ENGINE_CONFIG, orderBook.Contents()) by {
        orderBook.ContentsWellFormed();
      }
      ghost var whole := Drain(ENGINE_CONFIG, LIMITS, orderBook.Contents(), orderChannel);
      ghost var sofar := Drained([], orderBook.Contents(), [], 0, false);
      DrainingStart(ENGINE_CONFIG, LIMITS, orderBook.Contents(), orderChannel);
      ghost var queue, done := orderChannel, 0;
      while orderChannel != []
        invariant Valid()
        invariant Draining(whole, sofar, ENGINE_CONFIG, LIMITS, orderBook.Contents(), orderChannel)
        invariant producer.trades == old(producer.trades) + sofar.trades
        invariant ordersRejectedByRisk == old(ordersRejectedByRisk) + sofar.refused
        invariant tradesMatched == old(tradesMatched) + |sofar.trades|
        invariant ordersProcessed == old(ordersProcessed)
        invariant done == |sofar.passed| + sofar.refused <= |queue| && orderChannel == queue[done..]
        decreases |orderChannel|
      {
        DrainingStep(whole, sofar, ENGINE_CONFIG, LIMITS, orderBook.Contents(), orderChannel);
        ghost var book := orderBook.Contents();
        var order := orderChannel[0];
        orderChannel := orderChannel[1..];
        DropNext(queue, done);
        done := done + 1;
        var riskStatus := HandleOrder(order);
        if riskStatus == Fault {
          return true;
        }
        if riskStatus != Passed {
          sofar := sofar.(refused := sofar.refused + 1);
          continue;
        }
        ghost var s := Step(ENGINE_CONFIG, book, order);
        sofar := sofar.(passed := sofar.passed + [order], trades := sofar.trades + s.trades);
      }
      DrainingEnd(whole, sofar, ENGINE_CONFIG, LIMITS, orderBook.Contents());
      return false;
    }
  }
}
