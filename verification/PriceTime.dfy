/** The price-time-priority book as plain values: one first-in-first-out sequence of
    resting orders per price level. This is what the array-and-index book must do. */
module PriceTime {
  import opened MachineInt
  import opened Models
  import opened Sums

  /** `price` is the price the order was submitted with, `qty` what is left of it. */
  datatype Resting = Resting(id: int, price: int, qty: int)

  type Levels = seq<seq<Resting>>

  datatype Book = Book(bids: Levels, asks: Levels) {
    function Side(side: OrderSide): Levels {
      if side.Buy? then bids else asks
    }

    function WithSide(side: OrderSide, levels: Levels): Book {
      if side.Buy? then Book(levels, asks) else Book(bids, levels)
    }
  }

  /** Level `i` holds the orders at price `minPrice + i`; `capacity` bounds the resting orders. */
  datatype Config = Config(minPrice: int, levels: nat, capacity: nat) {
    predicate Valid() {
      2 <= levels < TWO_31 && 1 <= capacity && IsInt64(minPrice) && IsInt64(MaxPrice())
    }

    function MaxPrice(): int {
      minPrice + levels - 1
    }

    /** The truncating 64-bit to 32-bit cast that the book applies to a price. */
    function PriceIndex(price: int): int {
      Wrap32(Wrap64(price - minPrice))
    }

    predicate Accepts(price: int) {
      0 <= PriceIndex(price) < levels
    }
  }

  lemma IndexCongruent(c: Config, price: int)
    ensures (price - c.minPrice - c.PriceIndex(price)) % TWO_32 == 0
  {
    WrapTwice(price - c.minPrice);
  }

  /** A price selects level `i` as soon as its distance from the minimum is congruent to `i`. */
  lemma IndexUnique(c: Config, price: int, i: int)
    requires c.Valid() && 0 <= i < c.levels && (price - c.minPrice - i) % TWO_32 == 0
    ensures c.PriceIndex(price) == i
  {
    WrapTwice(price - c.minPrice);
    Wrap32Unique(price - c.minPrice, i);
  }

  // ---------- Best level ----------

  /** Rank of a level, best price first: asks improve downwards, bids upwards. The same map gives the level of
      a rank. */
  function Rank(maker: OrderSide, n: nat, level: int): int {
    if maker.Sell? then level else n - 1 - level
  }

  function BestFrom(levels: Levels, maker: OrderSide, r: nat): int
    requires r <= |levels|
    decreases |levels| - r
  {
    if r == |levels| then -1
    else
      var i := Rank(maker, |levels|, r);
      if levels[i] != [] then i else BestFrom(levels, maker, r + 1)
  }

  /** The level with the best price that has an order, or -1. */
  function Best(levels: Levels, maker: OrderSide): int {
    BestFrom(levels, maker, 0)
  }

  /** Level `i` has a better price than level `j`. */
  predicate Better(maker: OrderSide, i: int, j: int) {
    if maker.Sell? then i < j else j < i
  }

  predicate IsBest(levels: Levels, maker: OrderSide, b: int) {
    && (b == -1 || (0 <= b < |levels| && levels[b] != []))
    && (forall i :: 0 <= i < |levels| && (b == -1 || Better(maker, i, b)) ==> levels[i] == [])
  }

  lemma {:induction false} BestFromIsBest(levels: Levels, maker: OrderSide, r: nat)
    requires r <= |levels|
    requires forall k :: 0 <= k < r ==> levels[Rank(maker, |levels|, k)] == []
    ensures IsBest(levels, maker, BestFrom(levels, maker, r))
    decreases |levels| - r
  {
    var n := |levels|;
    if r == n || levels[Rank(maker, n, r)] != [] {
      forall i | 0 <= i < n && (r == n || Better(maker, i, Rank(maker, n, r)))
        ensures levels[i] == []
      {
        assert i == Rank(maker, n, Rank(maker, n, i));
      }
    } else {
      BestFromIsBest(levels, maker, r + 1);
    }
  }

  /** `Best` is the only value that meets `IsBest`: the lowest non-empty ask, the highest non-empty bid. */
  lemma BestCharacterised(levels: Levels, maker: OrderSide, b: int)
    ensures IsBest(levels, maker, b) <==> b == Best(levels, maker)
  {
    BestFromIsBest(levels, maker, 0);
    var c := Best(levels, maker);
    assert b == c || Better(maker, b, c) || Better(maker, c, b);
  }

  // ---------- Matching ----------

  predicate AllPositive(levels: Levels) {
    forall i, k :: 0 <= i < |levels| && 0 <= k < |levels[i]| ==> levels[i][k].qty > 0
  }

  /** A maker at `price` is acceptable to a taker with this price limit. */
  predicate Crosses(maker: OrderSide, price: int, limit: int) {
    if maker.Sell? then price <= limit else price >= limit
  }

  datatype Taker = Taker(id: int, limit: int, qty: int)

  datatype Swept = Swept(levels: Levels, trades: seq<Trade>, left: int)

  /** The level after its oldest order traded `q`. */
  function Consumed(level: seq<Resting>, q: int): seq<Resting>
    requires level != []
  {
    if q == level[0].qty then level[1..] else [level[0].(qty := level[0].qty - q)] + level[1..]
  }

  predicate CanMatch(levels: Levels, maker: OrderSide, minPrice: int, t: Taker) {
    t.qty > 0 && Best(levels, maker) != -1 && Crosses(maker, Best(levels, maker) + minPrice, t.limit)
  }

  /** One match: the taker against the oldest order at the best price. */
  function MatchOne(levels: Levels, maker: OrderSide, minPrice: int, t: Taker): (s: Swept)
    requires AllPositive(levels) && CanMatch(levels, maker, minPrice, t)
    ensures AllPositive(s.levels) && |s.levels| == |levels|
    ensures |s.trades| == 1 && 0 < s.trades[0].quantity <= t.qty && s.left == t.qty - s.trades[0].quantity
  {
    BestCharacterised(levels, maker, Best(levels, maker));
    var b := Best(levels, maker);
    var m := levels[b][0];
    var q := Min(t.qty, m.qty);
    var levels' := levels[b := Consumed(levels[b], q)];
    assert forall i, k :: 0 <= i < |levels'| && 0 <= k < |levels'[i]| ==> levels'[i][k].qty > 0;
    Swept(levels', [Trade(b + minPrice, q, m.id, t.id)], t.qty - q)
  }

  /** Match until the taker is filled or nothing acceptable rests on the other side. */
  function Sweep(levels: Levels, maker: OrderSide, minPrice: int, t: Taker): (s: Swept)
    requires AllPositive(levels)
    ensures AllPositive(s.levels) && |s.levels| == |levels|
    decreases t.qty
  {
    if !CanMatch(levels, maker, minPrice, t) then Swept(levels, [], t.qty)
    else
      var one := MatchOne(levels, maker, minPrice, t);
      var rest := Sweep(one.levels, maker, minPrice, t.(qty := one.left));
      Swept(rest.levels, one.trades + rest.trades, rest.left)
  }

  lemma SweepUnfold(levels: Levels, maker: OrderSide, minPrice: int, t: Taker)
    requires AllPositive(levels)
    ensures !CanMatch(levels, maker, minPrice, t) ==> Sweep(levels, maker, minPrice, t) == Swept(levels, [], t.qty)
    ensures CanMatch(levels, maker, minPrice, t) ==>
              var one := MatchOne(levels, maker, minPrice, t);
              var rest := Sweep(one.levels, maker, minPrice, t.(qty := one.left));
              Sweep(levels, maker, minPrice, t) == Swept(rest.levels, one.trades + rest.trades, rest.left)
  {
  }

  /** The sweep `whole` has traded `done` so far and goes on with taker `t` on `levels`. */
  predicate Sweeping(whole: Swept, done: seq<Trade>, levels: Levels, maker: OrderSide, minPrice: int, t: Taker) {
    && AllPositive(levels)
    && var s := Sweep(levels, maker, minPrice, t);
       whole == Swept(s.levels, done + s.trades, s.left)
  }

  lemma SweepingStart(levels: Levels, maker: OrderSide, minPrice: int, t: Taker)
    requires AllPositive(levels)
    ensures Sweeping(Sweep(levels, maker, minPrice, t), [], levels, maker, minPrice, t)
  {
  }

  lemma SweepingStep(whole: Swept, done: seq<Trade>, levels: Levels, maker: OrderSide, minPrice: int, t: Taker)
    requires Sweeping(whole, done, levels, maker, minPrice, t)
    ensures !CanMatch(levels, maker, minPrice, t) ==> whole == Swept(levels, done, t.qty)
    ensures CanMatch(levels, maker, minPrice, t) ==>
              var one := MatchOne(levels, maker, minPrice, t);
              Sweeping(whole, done + one.trades, one.levels, maker, minPrice, t.(qty := one.left))
  {
    if CanMatch(levels, maker, minPrice, t) {
      var one := MatchOne(levels, maker, minPrice, t);
      ConcatAssoc(done, one.trades, Sweep(one.levels, maker, minPrice, t.(qty := one.left)).trades);
    } else {
      assert done + [] == done;
    }
  }

  // ---------- Whole orders and runs ----------

  function Length(level: seq<Resting>): int {
    |level|
  }

  function Presence(level: seq<Resting>): int {
    if level == [] then 0 else 1
  }

  /** Number of orders on one side. */
  function Count(levels: Levels): int {
    SumBy(levels, Length)
  }

  /** Number of non-empty levels on one side. */
  function Depth(levels: Levels): int {
    SumBy(levels, Presence)
  }

  lemma {:induction false} AllEmptySum(levels: Levels, weight: seq<Resting> -> int)
    requires weight([]) == 0 && forall i :: 0 <= i < |levels| ==> levels[i] == []
    ensures SumBy(levels, weight) == 0
  {
    if levels != [] {
      AllEmptySum(levels[1..], weight);
    }
  }

  /** A side has a best level exactly when some level counts. */
  lemma DepthTells(levels: Levels, maker: OrderSide)
    ensures -1 <= Best(levels, maker) < |levels|
    ensures Depth(levels) >= 0 && (Depth(levels) == 0 <==> Best(levels, maker) == -1)
  {
    var b := Best(levels, maker);
    BestCharacterised(levels, maker, b);
    if b == -1 {
      AllEmptySum(levels, Presence);
    } else {
      SumNonNegative(levels, Presence);
      assert Presence(levels[b]) == 1;
    }
  }

  lemma BestHasOrders(levels: Levels, maker: OrderSide)
    requires Best(levels, maker) != -1
    ensures 0 <= Best(levels, maker) < |levels| && levels[Best(levels, maker)] != []
  {
    BestCharacterised(levels, maker, Best(levels, maker));
  }

  function RestingCount(b: Book): int {
    Count(b.bids) + Count(b.asks)
  }

  predicate WellFormed(c: Config, b: Book) {
    && |b.bids| == |b.asks| == c.levels
    && AllPositive(b.bids) && AllPositive(b.asks)
    && RestingCount(b) <= c.capacity
  }

  function EmptyLevels(n: nat): Levels {
    seq(n, _ => [])
  }

  function EmptyBook(c: Config): Book {
    Book(EmptyLevels(c.levels), EmptyLevels(c.levels))
  }

  function Append(levels: Levels, i: nat, r: Resting): Levels
    requires i < |levels|
  {
    levels[i := levels[i] + [r]]
  }

  /** The book after an order joined the end of its level. */
  function Added(b: Book, side: OrderSide, i: nat, r: Resting): Book
    requires i < |b.Side(side)|
  {
    b.WithSide(side, Append(b.Side(side), i, r))
  }

  datatype Outcome = Outcome(book: Book, trades: seq<Trade>, result: OrderResult)

  function SweepFor(c: Config, b: Book, o: Order): (s: Swept)
    requires WellFormed(c, b)
    ensures AllPositive(s.levels) && |s.levels| == c.levels
  {
    Sweep(b.Side(Opposite(o.side)), Opposite(o.side), c.minPrice, Taker(o.id, o.price, o.remainingQuantity))
  }

  /** Rest what a sweep left over, if there is room. */
  function Rest(c: Config, b: Book, o: Order, s: Swept): (r: Outcome)
    requires c.Accepts(o.price) && |b.bids| == |b.asks| == c.levels
  {
    if s.left <= 0 then Outcome(b, s.trades, Success)
    else if RestingCount(b) >= c.capacity then Outcome(b, s.trades, RejectedPoolExhausted)
    else
      Outcome(Added(b, o.side, c.PriceIndex(o.price), Resting(o.id, o.price, s.left)), s.trades, Success)
  }

  /** One order against the book. */
  function Step(c: Config, b: Book, o: Order): (r: Outcome)
    requires c.Valid() && WellFormed(c, b)
    ensures WellFormed(c, r.book)
  {
    if !c.Accepts(o.price) then Outcome(b, [], RejectedPriceOutOfRange)
    else
      var s := SweepFor(c, b, o);
      var b1 := b.WithSide(Opposite(o.side), s.levels);
      SweepCount(b.Side(Opposite(o.side)), Opposite(o.side), c.minPrice, Taker(o.id, o.price, o.remainingQuantity));
      RestKeepsWellFormed(c, b1, o, s);
      Rest(c, b1, o, s)
  }

  lemma ConsumedCount(levels: Levels, b: nat, q: int)
    requires b < |levels| && levels[b] != []
    ensures Count(levels[b := Consumed(levels[b], q)]) ==
            Count(levels) - (if q == levels[b][0].qty then 1 else 0)
  {
    SumUpdate(levels, b, Consumed(levels[b], q), Length);
  }

  /** A sweep removes orders only, and one that leaves a remainder after trading has removed some. */
  lemma {:induction false} SweepCount(levels: Levels, maker: OrderSide, minPrice: int, t: Taker)
    requires AllPositive(levels)
    ensures var s := Sweep(levels, maker, minPrice, t);
            && Count(s.levels) <= Count(levels)
            && (s.left > 0 && s.trades != [] ==> Count(s.levels) < Count(levels))
    decreases t.qty
  {
    if CanMatch(levels, maker, minPrice, t) {
      BestCharacterised(levels, maker, Best(levels, maker));
      var one := MatchOne(levels, maker, minPrice, t);
      ConsumedCount(levels, Best(levels, maker), one.trades[0].quantity);
      SweepCount(one.levels, maker, minPrice, t.(qty := one.left));
    }
  }

  lemma RestKeepsWellFormed(c: Config, b: Book, o: Order, s: Swept)
    requires c.Accepts(o.price) && WellFormed(c, b)
    ensures WellFormed(c, Rest(c, b, o, s).book)
  {
    var r := Rest(c, b, o, s);
    if r.book != b {
      var i := c.PriceIndex(o.price);
      var levels := b.Side(o.side);
      SumUpdate(levels, i, levels[i] + [Resting(o.id, o.price, s.left)], Length);
    }
  }

  datatype Run = Run(book: Book, trades: seq<Trade>, results: seq<OrderResult>)

  /** A whole sequence of orders, oldest first. */
  function RunOrders(c: Config, b: Book, orders: seq<Order>): (r: Run)
    requires c.Valid() && WellFormed(c, b)
    ensures WellFormed(c, r.book) && |r.results| == |orders|
    decreases orders
  {
    if orders == [] then Run(b, [], [])
    else
      var s := Step(c, b, orders[0]);
      var rest := RunOrders(c, s.book, orders[1..]);
      Run(rest.book, s.trades + rest.trades, [s.result] + rest.results)
  }

  lemma RunFirst(c: Config, b: Book, orders: seq<Order>)
    requires c.Valid() && WellFormed(c, b) && orders != []
    ensures var s := Step(c, b, orders[0]);
            var rest := RunOrders(c, s.book, orders[1..]);
            RunOrders(c, b, orders) == Run(rest.book, s.trades + rest.trades, [s.result] + rest.results)
  {
  }

  lemma {:induction false} RunConcat(c: Config, b: Book, xs: seq<Order>, ys: seq<Order>)
    requires c.Valid() && WellFormed(c, b)
    ensures var r := RunOrders(c, b, xs);
            var r' := RunOrders(c, r.book, ys);
            RunOrders(c, b, xs + ys) == Run(r'.book, r.trades + r'.trades, r.results + r'.results)
    decreases xs
  {
    if xs == [] {
      assert xs + ys == ys;
    } else {
      var s := Step(c, b, xs[0]);
      RunConcat(c, s.book, xs[1..], ys);
      RunFirst(c, b, xs);
      ConcatHead(xs, ys);
      RunFirst(c, b, xs + ys);
      var r := RunOrders(c, s.book, xs[1..]);
      var r' := RunOrders(c, r.book, ys);
      ConcatAssoc(s.trades, r.trades, r'.trades);
      ConcatAssoc([s.result], r.results, r'.results);
    }
  }

  lemma EmptyBookWellFormed(c: Config)
    ensures WellFormed(c, EmptyBook(c)) && RestingCount(EmptyBook(c)) == 0
  {
    AllEmptySum(EmptyLevels(c.levels), Length);
  }

  lemma RunNothing(c: Config, b: Book)
    requires c.Valid() && WellFormed(c, b)
    ensures RunOrders(c, b, []) == Run(b, [], [])
  {
  }

  lemma RunSnoc(c: Config, b: Book, orders: seq<Order>, o: Order)
    requires c.Valid() && WellFormed(c, b)
    ensures var r := RunOrders(c, b, orders);
            var s := Step(c, r.book, o);
            RunOrders(c, b, orders + [o]) == Run(s.book, r.trades + s.trades, r.results + [s.result])
  {
    hide Step, WellFormed;
    RunConcat(c, b, orders, [o]);
    var r := RunOrders(c, b, orders);
    RunFirst(c, r.book, [o]);
    assert [o][1..] == [];
  }

  lemma RunOne(c: Config, b: Book, o: Order)
    requires c.Valid() && WellFormed(c, b)
    ensures var s := Step(c, b, o); RunOrders(c, b, [o]) == Run(s.book, s.trades, [s.result])
  {
    hide Step, WellFormed;
    RunFirst(c, b, [o]);
    assert [o][1..] == [];
    RunNothing(c, Step(c, b, o).book);
  }

  lemma RunTwo(c: Config, b: Book, x: Order, y: Order)
    requires c.Valid() && WellFormed(c, b)
    ensures var s := Step(c, b, x);
            var s' := Step(c, s.book, y);
            RunOrders(c, b, [x, y]) == Run(s'.book, s.trades + s'.trades, [s.result, s'.result])
  {
    hide Step, WellFormed, RunOrders;
    RunFirst(c, b, [x, y]);
    assert [x, y][1..] == [y];
    RunOne(c, Step(c, b, x).book, y);
  }

  /** The price a best-price query answers: -1 when the side is empty. */
  function BestPrice(levels: Levels, side: OrderSide, minPrice: int): int {
    if Best(levels, side) == -1 then -1 else Best(levels, side) + minPrice
  }

  /** With prices that are not negative the answer is -1 exactly when no order rests on the side; otherwise an order
      rests at the price answered and none at a better one. */
  lemma BestPriceExactly(levels: Levels, side: OrderSide, minPrice: int)
    requires minPrice >= 0
    ensures var p := BestPrice(levels, side, minPrice);
            && (p == -1 <==> forall i :: 0 <= i < |levels| ==> levels[i] == [])
            && (p != -1 ==>
                  && 0 <= p - minPrice < |levels| && levels[p - minPrice] != []
                  && forall i :: 0 <= i < |levels| && levels[i] != [] ==>
                       if side.Sell? then p <= i + minPrice else p >= i + minPrice)
  {
    BestCharacterised(levels, side, Best(levels, side));
  }
}
