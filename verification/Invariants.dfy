/** What every order keeps true of the book: orders rest at the level of their price, and
    the book is not crossed. The second fails for prices that the truncating cast folds
    into the window, and this file says exactly for which. */
module Invariants {
  import opened MachineInt
  import opened Models
  import opened Sums
  import opened PriceTime

  // ---------- Every order rests at the level its price selects ----------

  predicate LevelledSide(c: Config, levels: Levels) {
    forall i, k :: 0 <= i < |levels| && 0 <= k < |levels[i]| ==> c.PriceIndex(levels[i][k].price) == i
  }

  predicate Levelled(c: Config, b: Book) {
    LevelledSide(c, b.bids) && LevelledSide(c, b.asks)
  }

  lemma ConsumedLevelled(c: Config, levels: Levels, b: nat, q: int)
    requires LevelledSide(c, levels) && b < |levels| && levels[b] != []
    ensures LevelledSide(c, levels[b := Consumed(levels[b], q)])
  {
    hide Config.PriceIndex;
    var l := Consumed(levels[b], q);
    forall k | 0 <= k < |l| ensures c.PriceIndex(l[k].price) == b {
      assert l[k].price == levels[b][if q == levels[b][0].qty then k + 1 else k].price;
    }
  }

  lemma {:induction false} SweepLevelled(c: Config, levels: Levels, maker: OrderSide, t: Taker)
    requires AllPositive(levels) && LevelledSide(c, levels)
    ensures LevelledSide(c, Sweep(levels, maker, c.minPrice, t).levels)
    decreases t.qty
  {
    if CanMatch(levels, maker, c.minPrice, t) {
      BestHasOrders(levels, maker);
      var one := MatchOne(levels, maker, c.minPrice, t);
      ConsumedLevelled(c, levels, Best(levels, maker), one.trades[0].quantity);
      SweepLevelled(c, one.levels, maker, t.(qty := one.left));
    }
  }

  lemma AppendLevelled(c: Config, levels: Levels, r: Resting)
    requires LevelledSide(c, levels) && 0 <= c.PriceIndex(r.price) < |levels|
    ensures LevelledSide(c, Append(levels, c.PriceIndex(r.price), r))
  {
    hide Config.PriceIndex;
  }

  lemma StepLevelled(c: Config, b: Book, o: Order)
    requires c.Valid() && WellFormed(c, b) && Levelled(c, b)
    ensures Levelled(c, Step(c, b, o).book)
  {
    var maker := Opposite(o.side);
    if c.Accepts(o.price) {
      var s := SweepFor(c, b, o);
      SweepLevelled(c, b.Side(maker), maker, Taker(o.id, o.price, o.remainingQuantity));
      AppendLevelled(c, b.Side(o.side), Resting(o.id, o.price, s.left));
    }
  }

  // ---------- Which prices the cast folds into the window ----------

  /** The price is outside the book's window but its low 32 bits select a level. */
  predicate Aliased(c: Config, price: int) {
    c.Accepts(price) && !(c.minPrice <= price <= c.MaxPrice())
  }

  predicate InTranslate(c: Config, price: int, k: int) {
    c.minPrice + k * TWO_32 <= price <= c.MaxPrice() + k * TWO_32
  }

  lemma AcceptedLevel(c: Config, price: int)
    requires c.Valid() && c.Accepts(price)
    ensures (price - c.minPrice - c.PriceIndex(price)) % TWO_32 == 0
    ensures c.minPrice <= price <= c.MaxPrice() ==> price == c.minPrice + c.PriceIndex(price)
  {
    IndexCongruent(c, price);
    if c.minPrice <= price <= c.MaxPrice() {
      IndexUnique(c, price, price - c.minPrice);
    }
  }

  lemma WindowAccepted(c: Config, price: int)
    requires c.Valid() && c.minPrice <= price <= c.MaxPrice()
    ensures c.Accepts(price)
  {
    IndexUnique(c, price, price - c.minPrice);
  }

  lemma TranslateAliased(c: Config, price: int, k: int)
    requires c.Valid() && k != 0 && InTranslate(c, price, k)
    ensures Aliased(c, price)
  {
    IndexUnique(c, price, price - k * TWO_32 - c.minPrice);
  }

  lemma AliasedTranslate(c: Config, price: int) returns (k: int)
    requires c.Valid() && Aliased(c, price)
    ensures k != 0 && InTranslate(c, price, k)
  {
    AcceptedLevel(c, price);
    k := (price - c.minPrice - c.PriceIndex(price)) / TWO_32;
  }

  /** The range check is wrong exactly for the prices in a translate of the window by a
      non-zero multiple of two to the 32; it never rejects a price of the window. */
  lemma AliasedExactly(c: Config, price: int)
    requires c.Valid()
    ensures c.minPrice <= price <= c.MaxPrice() ==> c.Accepts(price)
    ensures Aliased(c, price) <==> exists k :: k != 0 && InTranslate(c, price, k)
  {
    hide Aliased, InTranslate, Config.Accepts;
    if c.minPrice <= price <= c.MaxPrice() {
      WindowAccepted(c, price);
    }
    if Aliased(c, price) {
      var k := AliasedTranslate(c, price);
    }
    if k :| k != 0 && InTranslate(c, price, k) {
      TranslateAliased(c, price, k);
    }
  }

  // ---------- The book is not crossed ----------

  /** The best bid is below the best ask when both sides have orders. */
  predicate Uncrossed(b: Book) {
    Best(b.bids, Buy) == -1 || Best(b.asks, Sell) == -1 || Best(b.bids, Buy) < Best(b.asks, Sell)
  }

  /** Every bid level in use is below every ask level in use. */
  predicate Separated(b: Book) {
    forall i, j :: 0 <= i < |b.bids| && 0 <= j < |b.asks| && b.bids[i] != [] && b.asks[j] != [] ==> i < j
  }

  lemma UncrossedIsSeparated(b: Book)
    ensures Uncrossed(b) <==> Separated(b)
  {
    BestCharacterised(b.bids, Buy, Best(b.bids, Buy));
    BestCharacterised(b.asks, Sell, Best(b.asks, Sell));
  }

  /** A sweep only empties levels, and afterwards nothing acceptable is left if the taker is not filled. */
  lemma {:induction false} SweepEmpties(levels: Levels, maker: OrderSide, minPrice: int, t: Taker)
    requires AllPositive(levels)
    ensures var s := Sweep(levels, maker, minPrice, t);
            && (forall i :: 0 <= i < |levels| && levels[i] == [] ==> s.levels[i] == [])
            && (s.left > 0 ==> !CanMatch(s.levels, maker, minPrice, t.(qty := s.left)))
    decreases t.qty
  {
    if CanMatch(levels, maker, minPrice, t) {
      BestHasOrders(levels, maker);
      var one := MatchOne(levels, maker, minPrice, t);
      SweepEmpties(one.levels, maker, minPrice, t.(qty := one.left));
    }
  }

  /** Nothing can match exactly when no level in use has an acceptable price. */
  lemma NoMatch(levels: Levels, maker: OrderSide, minPrice: int, t: Taker)
    requires t.qty > 0
    ensures !CanMatch(levels, maker, minPrice, t) <==>
            forall i :: 0 <= i < |levels| && levels[i] != [] ==> !Crosses(maker, i + minPrice, t.limit)
  {
    BestCharacterised(levels, maker, Best(levels, maker));
  }

  /** An aliased price on the far side of the window: a sell above it or a buy below it,
      which the matching loop does not cross with but the index check lets rest inside. */
  predicate FarSide(c: Config, o: Order) {
    c.Accepts(o.price) && (if o.side.Sell? then o.price > c.MaxPrice() else o.price < c.minPrice)
  }

  lemma SweepSeparated(c: Config, b: Book, o: Order)
    requires c.Valid() && WellFormed(c, b) && Separated(b)
    ensures Separated(b.WithSide(Opposite(o.side), SweepFor(c, b, o).levels))
  {
    SweepEmpties(b.Side(Opposite(o.side)), Opposite(o.side), c.minPrice, Taker(o.id, o.price, o.remainingQuantity));
  }

  lemma StepUncrossed(c: Config, b: Book, o: Order)
    requires c.Valid() && WellFormed(c, b) && Uncrossed(b) && !FarSide(c, o)
    ensures Uncrossed(Step(c, b, o).book)
  {
    UncrossedIsSeparated(b);
    UncrossedIsSeparated(Step(c, b, o).book);
    if c.Accepts(o.price) {
      SweepSeparated(c, b, o);
      var maker := Opposite(o.side);
      var s := SweepFor(c, b, o);
      var b1 := b.WithSide(maker, s.levels);
      var t := Taker(o.id, o.price, o.remainingQuantity);
      SweepEmpties(b.Side(maker), maker, c.minPrice, t);
      AcceptedLevel(c, o.price);
      if s.left > 0 {
        NoMatch(s.levels, maker, c.minPrice, t.(qty := s.left));
        RestSeparated(c, b1, o, s.left);
      }
    }
  }

  /** Resting an order that nothing on the other side matches keeps the sides apart. */
  lemma RestSeparated(c: Config, b: Book, o: Order, left: int)
    requires c.Valid() && |b.bids| == |b.asks| == c.levels && c.Accepts(o.price) && Separated(b) && !FarSide(c, o)
    requires var maker := Opposite(o.side);
             forall i :: 0 <= i < c.levels && b.Side(maker)[i] != [] ==> !Crosses(maker, i + c.minPrice, o.price)
    ensures Separated(Added(b, o.side, c.PriceIndex(o.price), Resting(o.id, o.price, left)))
  {
    AcceptedLevel(c, o.price);
    hide Config.PriceIndex;
    var maker, p := Opposite(o.side), c.PriceIndex(o.price);
    forall i | 0 <= i < c.levels && b.Side(maker)[i] != []
      ensures Better(o.side, i, p)
    {
      assert !Crosses(maker, i + c.minPrice, o.price);
    }
    var b' := Added(b, o.side, p, Resting(o.id, o.price, left));
    forall i, j | 0 <= i < c.levels && 0 <= j < c.levels && b'.bids[i] != [] && b'.asks[j] != []
      ensures i < j
    {
      if o.side.Sell? {
        assert b.Side(maker)[i] != [];
        assert j == p || b.asks[j] != [];
      } else {
        assert b.Side(maker)[j] != [];
        assert i == p || b.bids[i] != [];
      }
    }
  }

  function OneResting(n: nat, i: nat, r: Resting): Levels
    requires i < n
  {
    EmptyLevels(n)[i := [r]]
  }

  /** A book with one order, at level `i` of the side opposite to `side`. */
  function Facing(c: Config, side: OrderSide, i: nat): Book
    requires i < c.levels
  {
    EmptyBook(c).WithSide(Opposite(side), OneResting(c.levels, i, Resting(0, c.minPrice + i, 1)))
  }

  lemma FacingWellFormed(c: Config, side: OrderSide, i: nat)
    requires c.Valid() && i < c.levels
    ensures WellFormed(c, Facing(c, side, i)) && RestingCount(Facing(c, side, i)) == 1
    ensures Uncrossed(Facing(c, side, i))
  {
    AllEmptySum(EmptyLevels(c.levels), Length);
    SumUpdate(EmptyLevels(c.levels), i, [Resting(0, c.minPrice + i, 1)], Length);
    UncrossedIsSeparated(Facing(c, side, i));
  }

  /** A far-side order rests at the level of the order it faces, without trading: the book is crossed. */
  lemma FarSideCrosses(c: Config, o: Order)
    requires c.Valid() && c.capacity >= 2 && o.remainingQuantity > 0 && FarSide(c, o)
    ensures var b := Facing(c, o.side, c.PriceIndex(o.price));
            && WellFormed(c, b) && Uncrossed(b)
            && var r := Step(c, b, o); !Uncrossed(r.book) && r.trades == [] && r.result == Success
  {
    var i := c.PriceIndex(o.price);
    var b := Facing(c, o.side, i);
    FacingWellFormed(c, o.side, i);
    var maker := Opposite(o.side);
    NoMatch(b.Side(maker), maker, c.minPrice, Taker(o.id, o.price, o.remainingQuantity));
    var r := Step(c, b, o);
    assert r.book == Added(b, o.side, i, Resting(o.id, o.price, o.remainingQuantity));
    assert r.book.Side(o.side)[i] != [] && r.book.Side(maker)[i] != [];
    UncrossedIsSeparated(r.book);
  }

  /** An order keeps every uncrossed book uncrossed if and only if its price is not on the far side. */
  lemma UncrossedExactly(c: Config, o: Order)
    requires c.Valid() && c.capacity >= 2 && o.remainingQuantity > 0
    ensures (forall b :: WellFormed(c, b) && Uncrossed(b) ==> Uncrossed(Step(c, b, o).book)) <==> !FarSide(c, o)
  {
    if FarSide(c, o) {
      FarSideCrosses(c, o);
    } else {
      forall b | WellFormed(c, b) && Uncrossed(b) ensures Uncrossed(Step(c, b, o).book) {
        StepUncrossed(c, b, o);
      }
    }
  }

  /** The book with one order is what that order leaves in an empty book. */
  lemma FacingReached(c: Config, side: OrderSide, i: nat)
    requires c.Valid() && i < c.levels
    ensures WellFormed(c, EmptyBook(c))
    ensures Step(c, EmptyBook(c), NewOrder(0, Opposite(side), c.minPrice + i, 1)) ==
            Outcome(Facing(c, side, i), [], Success)
  {
    var o := NewOrder(0, Opposite(side), c.minPrice + i, 1);
    EmptyBookWellFormed(c);
    IndexUnique(c, o.price, i);
    NoMatch(EmptyLevels(c.levels), side, c.minPrice, Taker(o.id, o.price, 1));
    assert EmptyLevels(c.levels)[i] + [Resting(0, o.price, 1)] == [Resting(0, o.price, 1)];
  }

  /** A run of two orders from the empty book that ends crossed, for every far-side order: the order it faces, and
      then the order itself. Both are accepted and nothing trades. */
  lemma FarSideRun(c: Config, o: Order, i: nat)
    requires c.Valid() && c.capacity >= 2 && o.remainingQuantity > 0 && FarSide(c, o) && i == c.PriceIndex(o.price)
    ensures WellFormed(c, EmptyBook(c))
    ensures var r := RunOrders(c, EmptyBook(c), [NewOrder(0, Opposite(o.side), c.minPrice + i, 1), o]);
            r.results == [Success, Success] && r.trades == [] && !Uncrossed(r.book)
  {
    FacingReached(c, o.side, i);
    FarSideCrosses(c, o);
    hide *;
    RunTwo(c, EmptyBook(c), NewOrder(0, Opposite(o.side), c.minPrice + i, 1), o);
  }

  /** A concrete case in the engine's window, 90 to 110, for the book without the risk check in front: after a bid
      for one unit at 95, a sell of one unit at 95 plus two to the 32 is accepted, trades nothing, and rests at 95
      on the ask side. */
  lemma CrossedExample()
    ensures var c := Config(90, 21, 500_000);
            && c.Valid() && WellFormed(c, EmptyBook(c))
            && var r := RunOrders(c, EmptyBook(c), [NewOrder(0, Buy, 95, 1), NewOrder(2, Sell, 95 + TWO_32, 1)]);
               r.results == [Success, Success] && r.trades == [] && !Uncrossed(r.book)
  {
    IndexUnique(Config(90, 21, 500_000), 95 + TWO_32, 5);
    FarSideRun(Config(90, 21, 500_000), NewOrder(2, Sell, 95 + TWO_32, 1), 5);
  }

  // ---------- When an order is refused ----------

  /** The three result codes, each with the exact condition under which an order gets it. A pool-exhausted
      order traded nothing and changed nothing: a sweep that leaves a remainder has freed a slot. */
  lemma ResultsExactly(c: Config, b: Book, o: Order)
    requires c.Valid() && WellFormed(c, b)
    ensures var r, maker := Step(c, b, o), Opposite(o.side);
            && (r.result == RejectedPriceOutOfRange <==> !c.Accepts(o.price))
            && (r.result == RejectedPoolExhausted <==>
                  && c.Accepts(o.price) && o.remainingQuantity > 0 && RestingCount(b) == c.capacity
                  && forall i :: 0 <= i < c.levels && b.Side(maker)[i] != [] ==>
                       !Crosses(maker, i + c.minPrice, o.price))
            && (r.result != Success ==> r.book == b && r.trades == [])
  {
    if c.Accepts(o.price) {
      var maker := Opposite(o.side);
      var t := Taker(o.id, o.price, o.remainingQuantity);
      SweepCount(b.Side(maker), maker, c.minPrice, t);
      SweepTradesFirst(b.Side(maker), maker, c.minPrice, t);
      if o.remainingQuantity > 0 {
        NoMatch(b.Side(maker), maker, c.minPrice, t);
      }
    }
  }

  lemma SweepTradesFirst(levels: Levels, maker: OrderSide, minPrice: int, t: Taker)
    requires AllPositive(levels)
    ensures var s := Sweep(levels, maker, minPrice, t);
            && (s.trades == [] <==> !CanMatch(levels, maker, minPrice, t))
            && (s.trades == [] ==> s == Swept(levels, [], t.qty))
  {
  }

  // ---------- Whole runs ----------

  /** Over any run from a book that has these properties, orders rest at the level of their price; and if no
      order of the run is on the far side, the book stays uncrossed. */
  lemma {:induction false} RunKeeps(c: Config, b: Book, orders: seq<Order>)
    requires c.Valid() && WellFormed(c, b) && Levelled(c, b) && Uncrossed(b)
    ensures Levelled(c, RunOrders(c, b, orders).book)
    ensures (forall k :: 0 <= k < |orders| ==> !FarSide(c, orders[k])) ==> Uncrossed(RunOrders(c, b, orders).book)
    decreases orders
  {
    if orders != [] {
      StepLevelled(c, b, orders[0]);
      RunLevelled(c, Step(c, b, orders[0]).book, orders[1..]);
      if forall k :: 0 <= k < |orders| ==> !FarSide(c, orders[k]) {
        StepUncrossed(c, b, orders[0]);
        RunKeeps(c, Step(c, b, orders[0]).book, orders[1..]);
      }
    }
  }

  lemma {:induction false} RunLevelled(c: Config, b: Book, orders: seq<Order>)
    requires c.Valid() && WellFormed(c, b) && Levelled(c, b)
    ensures Levelled(c, RunOrders(c, b, orders).book)
    decreases orders
  {
    if orders != [] {
      StepLevelled(c, b, orders[0]);
      RunLevelled(c, Step(c, b, orders[0]).book, orders[1..]);
    }
  }

  lemma FreshBookKeeps(c: Config)
    ensures Levelled(c, EmptyBook(c)) && Uncrossed(EmptyBook(c))
  {
    BestCharacterised(EmptyLevels(c.levels), Buy, -1);
  }
}
