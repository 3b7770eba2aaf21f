/** The pre-trade risk check, in 64-bit arithmetic, and what it guarantees about the trades
    of an order that passes. */
module RiskGate {
  import opened MachineInt
  import opened Models
  import opened Sums
  import opened PriceTime
  import opened Priority
  import opened Conservation
  import opened Invariants

  datatype Limits = Limits(maxOrderQuantity: int, maxNotionalValue: int, maxPriceDeviation: int)

  /** `Fault` stands for the overflow exception of taking the absolute value of the least 64-bit number. */
  datatype RiskCheckResult =
    | Passed
    | RejectedMaxOrderQuantityExceeded
    | RejectedMaxNotionalValueExceeded
    | RejectedFatFingerPriceDeviation
    | Fault

  function Abs(x: int): int {
    if x < 0 then -x else x
  }

  function ValidateOrder(l: Limits, o: Order, currentMarketPrice: int): RiskCheckResult {
    if o.originalQuantity > l.maxOrderQuantity then RejectedMaxOrderQuantityExceeded
    else if Wrap64(o.price * o.originalQuantity) > l.maxNotionalValue then RejectedMaxNotionalValueExceeded
    else
      var priceDiff := Wrap64(o.price - currentMarketPrice);
      if priceDiff == -TWO_63 then Fault
      else if Abs(priceDiff) > l.maxPriceDeviation then RejectedFatFingerPriceDeviation
      else Passed
  }

  /** The market price the engine compares with: the best opposite price, or the order's own if there is none. */
  function MarketPrice(minPrice: int, b: Book, o: Order): int {
    var p := BestPrice(b.Side(Opposite(o.side)), Opposite(o.side), minPrice);
    if p == -1 then o.price else p
  }

  predicate Int64Limits(l: Limits) {
    IsInt64(l.maxOrderQuantity) && IsInt64(l.maxNotionalValue) && IsInt64(l.maxPriceDeviation)
  }

  /** A passing order is within the true notional limit exactly when its product does not reach two to the 63. */
  lemma NotionalExactly(l: Limits, o: Order, market: int)
    requires Int64Limits(l) && ValidateOrder(l, o, market) == Passed
    ensures o.price * o.originalQuantity <= l.maxNotionalValue <==> o.price * o.originalQuantity < TWO_63
  {
  }

  /** A passing order is within the true deviation limit exactly when its distance from the market fits 64 bits. */
  lemma DeviationExactly(l: Limits, o: Order, market: int)
    requires Int64Limits(l) && ValidateOrder(l, o, market) == Passed
    ensures Abs(o.price - market) <= l.maxPriceDeviation <==> IsInt64(o.price - market)
  {
  }

  /** With prices that are not negative and a product that fits, the check passes exactly the orders that are
      within all three limits, and never faults. */
  lemma GateExactly(l: Limits, o: Order, market: int)
    requires 0 <= o.price < TWO_63 && 0 <= market < TWO_63 && IsInt64(o.price * o.originalQuantity)
    ensures ValidateOrder(l, o, market) != Fault
    ensures ValidateOrder(l, o, market) == Passed <==>
              && o.originalQuantity <= l.maxOrderQuantity
              && o.price * o.originalQuantity <= l.maxNotionalValue
              && Abs(o.price - market) <= l.maxPriceDeviation
  {
  }

  /** Which code a refused order gets: the first limit it breaks, in the order quantity, notional value, deviation;
      and an order over the quantity gets that code whatever its price. */
  lemma CodesExactly(l: Limits, o: Order, market: int)
    ensures ValidateOrder(l, o, market) == RejectedMaxOrderQuantityExceeded <==> o.originalQuantity > l.maxOrderQuantity
    ensures IsInt64(o.price * o.originalQuantity) ==>
              (ValidateOrder(l, o, market) == RejectedMaxNotionalValueExceeded <==>
                 o.originalQuantity <= l.maxOrderQuantity && o.price * o.originalQuantity > l.maxNotionalValue)
    ensures IsInt64(o.price * o.originalQuantity) && -TWO_63 < o.price - market < TWO_63 ==>
              (ValidateOrder(l, o, market) == RejectedFatFingerPriceDeviation <==>
                 && o.originalQuantity <= l.maxOrderQuantity && o.price * o.originalQuantity <= l.maxNotionalValue
                 && (o.price - market > l.maxPriceDeviation || market - o.price > l.maxPriceDeviation))
  {
  }

  /** The check throws exactly for an order within the first two limits whose price is two to the 63 away from the
      market, on either side. */
  lemma FaultExactly(l: Limits, o: Order, market: int)
    requires IsInt64(o.price) && IsInt64(market)
    ensures ValidateOrder(l, o, market) == Fault <==>
              && o.originalQuantity <= l.maxOrderQuantity
              && Wrap64(o.price * o.originalQuantity) <= l.maxNotionalValue
              && (o.price - market == TWO_63 || o.price - market == -TWO_63)
  {
    assert Wrap64(o.price - market) == -TWO_63 <==> o.price - market == TWO_63 || o.price - market == -TWO_63;
  }

  /** The deviation check on its own can be passed from almost two to the 64 away. */
  lemma DeviationExample()
    ensures var l, o, market := Limits(10_000, 10_000_000, 50), NewOrder(1, Buy, TWO_63 - 1, -1), -TWO_63;
            ValidateOrder(l, o, market) == Passed && Abs(o.price - market) == TWO_64 - 1 > l.maxPriceDeviation
  {
    assert Wrap64(TWO_64 - 1) == -1;
  }

  /** With the engine's limits: an order for four units at two to the 62 passes, far above the notional limit;
      one at minus two to the 63 plus the market price faults. */
  lemma GateExamples()
    ensures var l := Limits(10_000, 10_000_000, 50);
            && ValidateOrder(l, NewOrder(1, Buy, 0x4000_0000_0000_0000, 4), 0x4000_0000_0000_0000) == Passed
            && ValidateOrder(l, NewOrder(1, Buy, 95 - TWO_63, 1), 95) == Fault
  {
  }

  // ---------- The value of a run of trades ----------

  function NotionalWeight(): Trade -> int {
    (t: Trade) => t.price * t.quantity
  }

  /** Total value traded. */
  function Notional(trades: seq<Trade>): int {
    SumBy(trades, NotionalWeight())
  }

  lemma {:induction false} NotionalBounded(trades: seq<Trade>, limit: int)
    requires forall k :: 0 <= k < |trades| ==> trades[k].price <= limit && trades[k].quantity > 0
    ensures Notional(trades) <= limit * Traded(trades)
  {
    if trades != [] {
      NotionalBounded(trades[1..], limit);
      var t, rest := trades[0], Traded(trades[1..]);
      assert t.price * t.quantity <= limit * t.quantity;
      assert limit * t.quantity + limit * rest == limit * (t.quantity + rest);
    }
  }

  lemma TradedBounded(levels: Levels, maker: OrderSide, minPrice: int, t: Taker)
    requires AllPositive(levels) && t.qty > 0
    ensures Traded(Sweep(levels, maker, minPrice, t).trades) <= t.qty
  {
    SweepConserves(levels, maker, minPrice, t, AnyId());
  }

  lemma SweepPositive(levels: Levels, maker: OrderSide, minPrice: int, t: Taker)
    requires AllPositive(levels)
    ensures var trades := Sweep(levels, maker, minPrice, t).trades;
            forall k :: 0 <= k < |trades| ==> trades[k].quantity > 0
  {
    SweepAllocates(levels, maker, minPrice, t);
  }

  // ---------- The gate in front of a book ----------

  /** The window starts at or above zero, so that -1 is no price, and lies with the deviation limit inside 64 bits.
      The limits and the window of the engine are like this. */
  predicate Guarded(c: Config, l: Limits) {
    && c.Valid() && 0 <= c.minPrice && c.MaxPrice() + l.maxPriceDeviation < TWO_63
    && 0 <= l.maxPriceDeviation < TWO_31 && 0 <= l.maxNotionalValue
  }

  /** The order has a 64-bit price and passes the gate in front of book `b`. */
  predicate Passes(c: Config, l: Limits, b: Book, o: Order) {
    IsInt64(o.price) && ValidateOrder(l, o, MarketPrice(c.minPrice, b, o)) == Passed
  }

  predicate OppositeEmpty(b: Book, o: Order) {
    Best(b.Side(Opposite(o.side)), Opposite(o.side)) == -1
  }

  /** The market price is the best opposite price, in the window, or the order's own if there is none. */
  lemma MarketKnown(c: Config, b: Book, o: Order)
    requires c.Valid() && WellFormed(c, b) && 0 <= c.minPrice
    ensures OppositeEmpty(b, o) ==> MarketPrice(c.minPrice, b, o) == o.price
    ensures !OppositeEmpty(b, o) ==>
              && MarketPrice(c.minPrice, b, o) == Best(b.Side(Opposite(o.side)), Opposite(o.side)) + c.minPrice
              && c.minPrice <= MarketPrice(c.minPrice, b, o) <= c.MaxPrice()
  {
    DepthTells(b.Side(Opposite(o.side)), Opposite(o.side));
  }

  lemma WrapNear(price: int, market: int, deviation: int)
    requires IsInt64(price) && 0 <= market && market + deviation < TWO_63
    requires Abs(Wrap64(price - market)) <= deviation
    ensures Abs(price - market) <= deviation
  {
  }

  lemma PassedWrapped(l: Limits, o: Order, market: int)
    requires ValidateOrder(l, o, market) == Passed
    ensures o.originalQuantity <= l.maxOrderQuantity
    ensures Wrap64(o.price * o.originalQuantity) <= l.maxNotionalValue
    ensures Abs(Wrap64(o.price - market)) <= l.maxPriceDeviation
  {
  }

  /** In front of the book the deviation check is never fooled: an order that passes is really within the limit. */
  lemma PassedIsNear(c: Config, l: Limits, b: Book, o: Order)
    requires Guarded(c, l) && WellFormed(c, b) && Passes(c, l, b, o)
    ensures Abs(o.price - MarketPrice(c.minPrice, b, o)) <= l.maxPriceDeviation
  {
    MarketKnown(c, b, o);
    PassedWrapped(l, o, MarketPrice(c.minPrice, b, o));
    hide MarketPrice, ValidateOrder, Wrap64, Best, WellFormed;
    if !OppositeEmpty(b, o) {
      WrapNear(o.price, MarketPrice(c.minPrice, b, o), l.maxPriceDeviation);
    }
  }

  /** The gate throws in front of the book exactly for an order within the first two limits that meets an opposite
      best price two to the 63 above its own. */
  lemma GateFaultsExactly(c: Config, l: Limits, b: Book, o: Order)
    requires Guarded(c, l) && WellFormed(c, b) && IsInt64(o.price)
    ensures ValidateOrder(l, o, MarketPrice(c.minPrice, b, o)) == Fault <==>
              && o.originalQuantity <= l.maxOrderQuantity
              && Wrap64(o.price * o.originalQuantity) <= l.maxNotionalValue
              && !OppositeEmpty(b, o)
              && o.price == Best(b.Side(Opposite(o.side)), Opposite(o.side)) + c.minPrice - TWO_63
  {
    MarketKnown(c, b, o);
    FaultExactly(l, o, MarketPrice(c.minPrice, b, o));
  }

  // ---------- Which prices get past the gate into the book ----------

  /** An order that passes has a price the cast folds into the window exactly when nothing rests on the other side,
      so that its price is compared with itself, and the price lies in a shifted copy of the window. */
  lemma PassedAliasedExactly(c: Config, l: Limits, b: Book, o: Order)
    requires Guarded(c, l) && WellFormed(c, b) && Passes(c, l, b, o)
    ensures Aliased(c, o.price) <==> OppositeEmpty(b, o) && exists k :: k != 0 && InTranslate(c, o.price, k)
  {
    AliasedExactly(c, o.price);
    MarketKnown(c, b, o);
    PassedIsNear(c, l, b, o);
    hide *;
    if !OppositeEmpty(b, o) {
      forall k | k != 0
        ensures !InTranslate(c, o.price, k)
      {
        NearTheWindow(c, o.price, k, MarketPrice(c.minPrice, b, o), l.maxPriceDeviation);
      }
    }
  }

  /** A price within a deviation below two to the 31 of the window is in no shifted copy of it. */
  lemma NearTheWindow(c: Config, price: int, k: int, market: int, deviation: int)
    requires c.Valid() && k != 0 && c.minPrice <= market <= c.MaxPrice()
    requires Abs(price - market) <= deviation < TWO_31
    ensures !InTranslate(c, price, k)
  {
    if k > 0 {
      MulMonotone(TWO_32, 1, k);
    } else {
      MulMonotone(TWO_32, k, -1);
    }
  }

  /** For an order that passes and is in range, the cast keeps the price exactly but in that one case; and it always
      does for a price that is not negative and a positive quantity whose product fits, under a notional limit below
      two to the 31. */
  lemma PassedPriceExact(c: Config, l: Limits, b: Book, o: Order)
    requires Guarded(c, l) && WellFormed(c, b) && Passes(c, l, b, o)
    ensures c.Accepts(o.price) ==>
              (c.PriceIndex(o.price) == o.price - c.minPrice <==>
               !(OppositeEmpty(b, o) && exists k :: k != 0 && InTranslate(c, o.price, k)))
    ensures 0 <= o.price && 0 < o.originalQuantity && o.price * o.originalQuantity < TWO_63
            && c.minPrice <= l.maxNotionalValue < TWO_31 ==>
              c.PriceIndex(o.price) == o.price - c.minPrice && !Aliased(c, o.price)
  {
    PassedAliasedExactly(c, l, b, o);
    if c.Accepts(o.price) {
      AcceptedLevel(c, o.price);
    }
    if 0 <= o.price && 0 < o.originalQuantity && o.price * o.originalQuantity < TWO_63
       && c.minPrice <= l.maxNotionalValue < TWO_31 {
      SmallPriceExact(c, l, o, MarketPrice(c.minPrice, b, o));
    }
  }

  lemma SmallPriceExact(c: Config, l: Limits, o: Order, market: int)
    requires c.Valid() && 0 <= c.minPrice <= l.maxNotionalValue < TWO_31
    requires 0 <= o.price && 0 < o.originalQuantity && o.price * o.originalQuantity < TWO_63
    requires ValidateOrder(l, o, market) == Passed
    ensures c.PriceIndex(o.price) == o.price - c.minPrice && !Aliased(c, o.price)
  {
    MulMonotone(o.price, 1, o.originalQuantity);
    assert IsInt64(o.price * o.originalQuantity);
    assert 0 <= o.price <= l.maxNotionalValue;
  }

  // ---------- What a maker is paid ----------

  predicate AtOwnLevel(c: Config, e: Entry) {
    0 <= e.level < c.levels && c.PriceIndex(e.order.price) == e.level
  }

  predicate AllAtOwnLevel(c: Config, es: seq<Entry>) {
    forall k :: 0 <= k < |es| ==> AtOwnLevel(c, es[k])
  }

  lemma AtOwnLevelConcat(c: Config, es: seq<Entry>, es': seq<Entry>)
    requires AllAtOwnLevel(c, es) && AllAtOwnLevel(c, es')
    ensures AllAtOwnLevel(c, es + es')
  {
  }

  /** Every entry of the queue comes from the level its price selects. */
  lemma {:induction false} QueueLevelled(c: Config, levels: Levels, maker: OrderSide, r: nat)
    requires LevelledSide(c, levels) && |levels| == c.levels && r <= |levels|
    ensures AllAtOwnLevel(c, QueueFrom(levels, maker, r))
    decreases |levels| - r
  {
    if r < |levels| {
      QueueLevelled(c, levels, maker, r + 1);
      var i := Rank(maker, |levels|, r);
      forall k | 0 <= k < |levels[i]|
        ensures AtOwnLevel(c, Tagged(i, levels[i])[k])
      {
        assert c.PriceIndex(levels[i][k].price) == i;
      }
      AtOwnLevelConcat(c, Tagged(i, levels[i]), QueueFrom(levels, maker, r + 1));
    }
  }

  /** A fill is at the maker's own price exactly when the cast kept that price, and it is worse for the maker than its
      own price exactly when the cast brought the maker in from the far side. */
  lemma FillsExactly(c: Config, levels: Levels, maker: OrderSide, t: Taker, k: nat)
    requires c.Valid() && AllPositive(levels) && LevelledSide(c, levels) && |levels| == c.levels
    requires k < |Sweep(levels, maker, c.minPrice, t).trades|
    ensures k < |Queue(levels, maker)|
    ensures var trade, own := Sweep(levels, maker, c.minPrice, t).trades[k], Queue(levels, maker)[k].order;
            && trade.makerOrderId == own.id
            && (trade.price == own.price <==> !Aliased(c, own.price))
            && (!Crosses(Opposite(maker), trade.price, own.price) <==>
                FarSide(c, NewOrder(own.id, maker, own.price, own.qty)))
  {
    SweepAllocates(levels, maker, c.minPrice, t);
    QueueLevelled(c, levels, maker, 0);
    var es := Queue(levels, maker);
    assert AtOwnLevel(c, es[k]);
    assert Sweep(levels, maker, c.minPrice, t).trades[k].price == es[k].level + c.minPrice;
    hide Sweep, Queue, AllPositive, LevelledSide, AreShares, AllAtOwnLevel;
    AcceptedLevel(c, es[k].order.price);
  }

  // ---------- What passing means for the trades ----------

  /** The trades of a passing order lie between the best opposite price and the order's own price, so all of
      them are within the deviation limit of the market price the gate saw. */
  lemma TradesNearMarket(c: Config, l: Limits, b: Book, o: Order)
    requires Guarded(c, l) && WellFormed(c, b) && Passes(c, l, b, o)
    ensures var trades := Step(c, b, o).trades;
            forall k :: 0 <= k < |trades| ==>
              Abs(trades[k].price - MarketPrice(c.minPrice, b, o)) <= l.maxPriceDeviation
  {
    TradesBetween(c, b, o);
    PassedIsNear(c, l, b, o);
    hide Best, ValidateOrder, Step, MarketPrice;
  }

  /** An order that meets an empty side trades nothing; any other trades between the market price and its own. */
  lemma TradesBetween(c: Config, b: Book, o: Order)
    requires c.Valid() && WellFormed(c, b) && 0 <= c.minPrice
    ensures var trades, maker, market := Step(c, b, o).trades, Opposite(o.side), MarketPrice(c.minPrice, b, o);
            && (OppositeEmpty(b, o) ==> trades == [])
            && forall k :: 0 <= k < |trades| ==>
                 Crosses(maker, trades[k].price, o.price) && Crosses(maker, market, trades[k].price)
  {
    var maker := Opposite(o.side);
    MarketKnown(c, b, o);
    TradesMonotone(b.Side(maker), maker, c.minPrice, Taker(o.id, o.price, o.remainingQuantity));
    var trades := Step(c, b, o).trades;
    hide Best, Sweep, MarketPrice;
    forall k | 0 <= k < |trades|
      ensures Crosses(maker, trades[k].price, o.price) && Crosses(maker, MarketPrice(c.minPrice, b, o), trades[k].price)
    {
      assert k > 0 ==> Crosses(maker, trades[0].price, trades[k].price);
    }
  }

  /** No product of a price near the window and a quantity within the limit leaves 64 bits. */
  predicate Bounded(c: Config, l: Limits) {
    Guarded(c, l) && 0 <= l.maxOrderQuantity && (c.MaxPrice() + l.maxPriceDeviation) * l.maxOrderQuantity < TWO_63
  }

  /** A fresh order has both quantities equal. */
  predicate Fresh(o: Order) {
    o.originalQuantity == o.remainingQuantity
  }

  lemma TradedAtMost(c: Config, b: Book, o: Order)
    requires c.Valid() && WellFormed(c, b)
    ensures var trades := Step(c, b, o).trades;
            && (forall k :: 0 <= k < |trades| ==> trades[k].quantity > 0)
            && (trades != [] ==> o.remainingQuantity > 0 && 0 <= Traded(trades) <= o.remainingQuantity)
  {
    var maker := Opposite(o.side);
    var t := Taker(o.id, o.price, o.remainingQuantity);
    if o.remainingQuantity > 0 {
      TradedBounded(b.Side(maker), maker, c.minPrice, t);
    }
    SweepPositive(b.Side(maker), maker, c.minPrice, t);
    TradedNonNegative(Step(c, b, o).trades);
  }

  lemma {:induction false} TradedNonNegative(trades: seq<Trade>)
    requires forall k :: 0 <= k < |trades| ==> trades[k].quantity > 0
    ensures Traded(trades) >= 0
  {
    if trades != [] {
      TradedNonNegative(trades[1..]);
    }
  }

  /** If an order that passes trades at all, its true value is within the notional limit and its price near the
      window: the product did not wrap. */
  lemma PassedValue(c: Config, l: Limits, b: Book, o: Order)
    requires Bounded(c, l) && WellFormed(c, b) && Passes(c, l, b, o) && Fresh(o)
    requires Step(c, b, o).trades != []
    ensures 0 < o.remainingQuantity <= l.maxOrderQuantity
    ensures -l.maxPriceDeviation <= o.price <= c.MaxPrice() + l.maxPriceDeviation
    ensures o.price * o.remainingQuantity <= l.maxNotionalValue
  {
    TradesBetween(c, b, o);
    MarketKnown(c, b, o);
    PassedIsNear(c, l, b, o);
    TradedAtMost(c, b, o);
    hide Step, MarketPrice, Best;
    ProductFits(o.price, o.originalQuantity, -l.maxPriceDeviation, c.MaxPrice() + l.maxPriceDeviation,
                l.maxOrderQuantity);
  }

  lemma ProductFits(price: int, qty: int, low: int, high: int, maxQty: int)
    requires low <= price <= high && 0 < qty <= maxQty && -high <= low && 0 <= high && high * maxQty < TWO_63
    ensures IsInt64(price * qty)
  {
    MulMonotone(high, qty, maxQty);
    MulMonotone(qty, price, high);
    MulMonotone(qty, -price, high);
    assert qty * -price == -(price * qty);
  }

  /** A passing buy spends at most the notional limit, whatever it matches. */
  lemma BuyWithinNotional(c: Config, l: Limits, b: Book, o: Order)
    requires Bounded(c, l) && WellFormed(c, b) && Passes(c, l, b, o) && Fresh(o) && o.side == Buy
    ensures Notional(Step(c, b, o).trades) <= l.maxNotionalValue
  {
    var trades := Step(c, b, o).trades;
    if trades != [] {
      PassedValue(c, l, b, o);
      TradedAtMost(c, b, o);
      TradesBetween(c, b, o);
      MarketKnown(c, b, o);
      hide Step, MarketPrice, Best, ValidateOrder;
      assert Crosses(Sell, trades[0].price, o.price) && Crosses(Sell, MarketPrice(c.minPrice, b, o), trades[0].price);
      NotionalBounded(trades, o.price);
      MulMonotone(o.price, Traded(trades), o.remainingQuantity);
    }
  }

  /** A passing sell may bring more than the notional limit, since it trades at or above its own price, but only by
      the deviation limit on each unit. */
  lemma SellNearNotional(c: Config, l: Limits, b: Book, o: Order)
    requires Bounded(c, l) && WellFormed(c, b) && Passes(c, l, b, o) && Fresh(o) && o.side == Sell
    ensures Notional(Step(c, b, o).trades) <= l.maxNotionalValue + l.maxPriceDeviation * Max(0, o.remainingQuantity)
  {
    var trades := Step(c, b, o).trades;
    var high := o.price + l.maxPriceDeviation;
    MulMonotone(l.maxPriceDeviation, 0, Max(0, o.remainingQuantity));
    assert Max(0, o.remainingQuantity) == if o.remainingQuantity > 0 then o.remainingQuantity else 0;
    assert trades == [] ==> Notional(trades) == 0;
    if trades != [] {
      PassedValue(c, l, b, o);
      PassedIsNear(c, l, b, o);
      TradedAtMost(c, b, o);
      TradesBetween(c, b, o);
      MarketKnown(c, b, o);
      hide Step, MarketPrice, Best, ValidateOrder, AllPositive, WellFormed;
      forall k | 0 <= k < |trades| ensures trades[k].price <= high {
        assert Crosses(Buy, MarketPrice(c.minPrice, b, o), trades[k].price);
      }
      NotionalBounded(trades, high);
      hide *;
      MulMonotone(high, Traded(trades), o.remainingQuantity);
      MulSum(o.price, l.maxPriceDeviation, o.remainingQuantity);
    }
  }

  lemma MulSum(x: int, y: int, n: int)
    ensures (x + y) * n == x * n + y * n
  {
  }

  lemma MulMonotone(p: int, x: int, y: int)
    requires 0 <= p && x <= y
    ensures p * x <= p * y
  {
  }
}
