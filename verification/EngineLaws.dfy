/** What the risk check does for the engine's book, and what it does not: whatever orders arrive, the book is never
    crossed; but an order whose price the cast folds into the window can pass while the other side is empty, and is
    then filled at a price its sender did not agree to. */
module EngineLaws {
  import opened MachineInt
  import opened Models
  import opened PriceTime
  import opened Priority
  import opened Invariants
  import opened RiskGate
  import opened Engine

  lemma EngineIsBounded()
    ensures Bounded(ENGINE_CONFIG, LIMITS)
  {
  }

  predicate Prices64(orders: seq<Order>) {
    forall k :: 0 <= k < |orders| ==> IsInt64(orders[k].price)
  }

  /** An order that meets an empty side leaves it empty. */
  lemma EmptyStaysEmpty(c: Config, b: Book, o: Order)
    requires c.Valid() && WellFormed(c, b) && OppositeEmpty(b, o)
    ensures OppositeEmpty(Step(c, b, o).book, o)
  {
    var maker := Opposite(o.side);
    if c.Accepts(o.price) {
      SweepTradesFirst(b.Side(maker), maker, c.minPrice, Taker(o.id, o.price, o.remainingQuantity));
    }
  }

  /** An order that passes keeps the book uncrossed: one on the far side passes only when nothing rests opposite. */
  lemma PassedUncrossed(c: Config, l: Limits, b: Book, o: Order)
    requires Guarded(c, l) && WellFormed(c, b) && Passes(c, l, b, o) && Uncrossed(b)
    ensures Uncrossed(Step(c, b, o).book)
  {
    if FarSide(c, o) {
      PassedAliasedExactly(c, l, b, o);
      EmptyStaysEmpty(c, b, o);
    } else {
      StepUncrossed(c, b, o);
    }
  }

  /** Whatever 64-bit orders the loop reads, it leaves an uncrossed book uncrossed. */
  lemma {:induction false} DrainUncrossed(c: Config, l: Limits, b: Book, orders: seq<Order>)
    requires Guarded(c, l) && WellFormed(c, b) && Uncrossed(b) && Prices64(orders)
    ensures Uncrossed(Drain(c, l, b, orders).book)
    decreases orders
  {
    hide Step, ValidateOrder, WellFormed, MarketPrice, Uncrossed;
    if orders != [] {
      assert IsInt64(orders[0].price);
      match ValidateOrder(l, orders[0], MarketPrice(c.minPrice, b, orders[0]))
      case Fault =>
      case Passed =>
        PassedUncrossed(c, l, b, orders[0]);
        DrainUncrossed(c, l, Step(c, b, orders[0]).book, orders[1..]);
      case _ =>
        DrainUncrossed(c, l, b, orders[1..]);
    }
  }

  /** From the start of the engine: its book is uncrossed, and every resting order is at the level its price selects,
      so that `FillsExactly` tells for each later fill whether it is at the maker's own price. */
  lemma EngineBook(orders: seq<Order>)
    requires Prices64(orders)
    ensures ENGINE_CONFIG.Valid() && WellFormed(ENGINE_CONFIG, EmptyBook(ENGINE_CONFIG))
    ensures var b := Drain(ENGINE_CONFIG, LIMITS, EmptyBook(ENGINE_CONFIG), orders).book;
            Uncrossed(b) && Levelled(ENGINE_CONFIG, b)
  {
    var c, start := ENGINE_CONFIG, EmptyBook(ENGINE_CONFIG);
    EngineIsBounded();
    EmptyBookWellFormed(c);
    FreshBookKeeps(c);
    DrainUncrossed(c, LIMITS, start, orders);
    DrainIsRun(c, LIMITS, start, orders);
    RunLevelled(c, start, Drain(c, LIMITS, start, orders).passed);
  }

  // ---------- A fill at a price nobody agreed to ----------

  /** A buy of ten with a limit of 95 less two to the 32, and a sell of ten at 95. */
  const LOW_BUY := NewOrder(1, Buy, 95 - TWO_32, 10)
  const SELL := NewOrder(2, Sell, 95, 10)
  const RESTED := OneResting(21, 5, Resting(1, 95 - TWO_32, 10))

  lemma LowBuyRests()
    ensures ENGINE_CONFIG.Valid() && WellFormed(ENGINE_CONFIG, EmptyBook(ENGINE_CONFIG))
    ensures FarSide(ENGINE_CONFIG, LOW_BUY) && Passes(ENGINE_CONFIG, LIMITS, EmptyBook(ENGINE_CONFIG), LOW_BUY)
    ensures Step(ENGINE_CONFIG, EmptyBook(ENGINE_CONFIG), LOW_BUY) ==
            Outcome(Book(RESTED, EmptyLevels(21)), [], Success)
  {
    var c := ENGINE_CONFIG;
    EmptyBookWellFormed(c);
    IndexUnique(c, LOW_BUY.price, 5);
    BestCharacterised(EmptyLevels(21), Sell, -1);
    NoMatch(EmptyLevels(21), Sell, 90, Taker(1, LOW_BUY.price, 10));
    assert EmptyLevels(21)[5] + [Resting(1, 95 - TWO_32, 10)] == [Resting(1, 95 - TWO_32, 10)];
  }

  lemma SellFills(b: Book)
    requires b == Book(RESTED, EmptyLevels(21)) && WellFormed(ENGINE_CONFIG, b)
    ensures Passes(ENGINE_CONFIG, LIMITS, b, SELL)
    ensures Step(ENGINE_CONFIG, b, SELL).trades == [Trade(95, 10, 1, 2)]
  {
    IndexUnique(ENGINE_CONFIG, 95, 5);
    BestCharacterised(RESTED, Buy, 5);
    var t := Taker(2, 95, 10);
    SweepUnfold(RESTED, Buy, 90, t);
    var one := MatchOne(RESTED, Buy, 90, t);
    SweepUnfold(one.levels, Buy, 90, t.(qty := 0));
    assert one.trades + [] == one.trades;
  }

  /** The engine reads both orders, lets both through and trades: the buyer pays 95 against a limit far below zero. */
  lemma UnagreedFillExample()
    ensures ENGINE_CONFIG.Valid() && WellFormed(ENGINE_CONFIG, EmptyBook(ENGINE_CONFIG))
    ensures var d := Drain(ENGINE_CONFIG, LIMITS, EmptyBook(ENGINE_CONFIG), [LOW_BUY, SELL]);
            d.trades == [Trade(95, 10, 1, 2)] && d.passed == [LOW_BUY, SELL] && 95 > LOW_BUY.price
  {
    LowBuyRests();
    var b := Book(RESTED, EmptyLevels(21));
    assert WellFormed(ENGINE_CONFIG, b);
    SellFills(b);
    DrainTwo(EmptyBook(ENGINE_CONFIG), LOW_BUY, SELL);
    hide *;
    assert [] + [Trade(95, 10, 1, 2)] == [Trade(95, 10, 1, 2)];
  }

  lemma DrainPassed(c: Config, l: Limits, b: Book, orders: seq<Order>)
    requires c.Valid() && WellFormed(c, b) && orders != [] && Passes(c, l, b, orders[0])
    ensures var s := Step(c, b, orders[0]);
            var d, rest := Drain(c, l, b, orders), Drain(c, l, s.book, orders[1..]);
            d.trades == s.trades + rest.trades && d.passed == [orders[0]] + rest.passed
  {
  }

  lemma DrainTwo(b: Book, x: Order, y: Order)
    requires ENGINE_CONFIG.Valid() && WellFormed(ENGINE_CONFIG, b) && Passes(ENGINE_CONFIG, LIMITS, b, x)
    requires Passes(ENGINE_CONFIG, LIMITS, Step(ENGINE_CONFIG, b, x).book, y)
    ensures var s := Step(ENGINE_CONFIG, b, x);
            var s' := Step(ENGINE_CONFIG, s.book, y);
            var d := Drain(ENGINE_CONFIG, LIMITS, b, [x, y]);
            d.trades == s.trades + s'.trades && d.passed == [x, y]
  {
    var s := Step(ENGINE_CONFIG, b, x);
    DrainPassed(ENGINE_CONFIG, LIMITS, b, [x, y]);
    assert [x, y][1..] == [y] && [y][1..] == [];
    DrainPassed(ENGINE_CONFIG, LIMITS, s.book, [y]);
    var s' := Step(ENGINE_CONFIG, s.book, y);
    assert Drain(ENGINE_CONFIG, LIMITS, s'.book, []) == Drained([], s'.book, [], 0, false);
    hide *;
    assert s'.trades + [] == s'.trades && [x] + ([y] + []) == [x, y];
  }

  lemma OverflowWraps()
    ensures Wrap64((0x1000_0000_0000_0000 + 96) * 16) == 1536 && Wrap64(0) == 0
  {
  }

  /** A price far above the window passes too when its product with the quantity leaves 64 bits: a sell of sixteen at
      two to the 60 plus 96 has a checked value of 1536, and rests as an ask at 96. */
  lemma OverflowExample()
    ensures ENGINE_CONFIG.Valid() && WellFormed(ENGINE_CONFIG, EmptyBook(ENGINE_CONFIG))
    ensures var o := NewOrder(1, Sell, 0x1000_0000_0000_0000 + 96, 16);
            && Wrap64(o.price * o.originalQuantity) == 1536
            && Passes(ENGINE_CONFIG, LIMITS, EmptyBook(ENGINE_CONFIG), o)
            && FarSide(ENGINE_CONFIG, o) && ENGINE_CONFIG.PriceIndex(o.price) == 6
  {
    OverflowWraps();
    EmptyBookWellFormed(ENGINE_CONFIG);
    hide Wrap64, Wrap32;
    IndexUnique(ENGINE_CONFIG, 0x1000_0000_0000_0000 + 96, 6);
    BestCharacterised(EmptyLevels(21), Buy, -1);
  }
}
