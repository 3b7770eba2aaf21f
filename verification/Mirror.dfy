/** Bids and asks are mirror images: swapping the sides and reflecting every price in the
    window's centre commutes with matching, for every order and over every run. */
module Mirror {
  import opened Models
  import opened Sums
  import opened PriceTime

  function Reflect(c: Config, price: int): int {
    c.minPrice + c.MaxPrice() - price
  }

  function MirrorResting(c: Config, r: Resting): Resting {
    r.(price := Reflect(c, r.price))
  }

  function MirrorLevel(c: Config, l: seq<Resting>): (r: seq<Resting>)
    ensures |r| == |l| && forall k :: 0 <= k < |l| ==> r[k] == MirrorResting(c, l[k])
  {
    seq(|l|, k requires 0 <= k < |l| => MirrorResting(c, l[k]))
  }

  function MirrorLevels(c: Config, levels: Levels): (r: Levels)
    ensures |r| == |levels| && forall i :: 0 <= i < |levels| ==> r[i] == MirrorLevel(c, levels[|levels| - 1 - i])
  {
    seq(|levels|, i requires 0 <= i < |levels| => MirrorLevel(c, levels[|levels| - 1 - i]))
  }

  function MirrorBook(c: Config, b: Book): Book {
    Book(MirrorLevels(c, b.asks), MirrorLevels(c, b.bids))
  }

  function MirrorOrder(c: Config, o: Order): Order {
    o.(side := Opposite(o.side), price := Reflect(c, o.price))
  }

  function MirrorTrade(c: Config, t: Trade): Trade {
    t.(price := Reflect(c, t.price))
  }

  function MirrorTrades(c: Config, ts: seq<Trade>): (r: seq<Trade>)
    ensures |r| == |ts| && forall k :: 0 <= k < |ts| ==> r[k] == MirrorTrade(c, ts[k])
  {
    seq(|ts|, k requires 0 <= k < |ts| => MirrorTrade(c, ts[k]))
  }

  function MirrorTaker(c: Config, t: Taker): Taker {
    t.(limit := Reflect(c, t.limit))
  }

  lemma MirrorTradesConcat(c: Config, ts: seq<Trade>, us: seq<Trade>)
    ensures MirrorTrades(c, ts + us) == MirrorTrades(c, ts) + MirrorTrades(c, us)
  {
  }

  /** The reflected price selects the reflected level, even when the cast wraps. */
  lemma MirrorIndex(c: Config, price: int)
    requires c.Valid()
    ensures c.Accepts(Reflect(c, price)) <==> c.Accepts(price)
    ensures c.Accepts(price) ==> c.PriceIndex(Reflect(c, price)) == c.levels - 1 - c.PriceIndex(price)
  {
    MirrorIndexOne(c, price);
    MirrorIndexOne(c, Reflect(c, price));
  }

  lemma MirrorIndexOne(c: Config, price: int)
    requires c.Valid()
    ensures c.Accepts(price) ==>
              c.Accepts(Reflect(c, price)) && c.PriceIndex(Reflect(c, price)) == c.levels - 1 - c.PriceIndex(price)
  {
    hide Config.PriceIndex;
    if c.Accepts(price) {
      IndexCongruent(c, price);
      IndexUnique(c, Reflect(c, price), c.levels - 1 - c.PriceIndex(price));
    }
  }

  lemma MirrorBest(c: Config, levels: Levels, maker: OrderSide)
    ensures var b := Best(levels, maker);
            Best(MirrorLevels(c, levels), Opposite(maker)) == if b == -1 then -1 else |levels| - 1 - b
  {
    var b := Best(levels, maker);
    BestCharacterised(levels, maker, b);
    var m := MirrorLevels(c, levels);
    forall i | 0 <= i < |levels|
      ensures m[|levels| - 1 - i] == [] <==> levels[i] == []
    {
      assert m[|levels| - 1 - i] == MirrorLevel(c, levels[i]);
    }
    BestCharacterised(m, Opposite(maker), if b == -1 then -1 else |levels| - 1 - b);
  }

  lemma MirrorPositive(c: Config, levels: Levels)
    requires AllPositive(levels)
    ensures AllPositive(MirrorLevels(c, levels))
  {
  }

  lemma MirrorUpdate(c: Config, levels: Levels, i: nat, l: seq<Resting>)
    requires i < |levels|
    ensures MirrorLevels(c, levels[i := l]) == MirrorLevels(c, levels)[|levels| - 1 - i := MirrorLevel(c, l)]
  {
  }

  lemma MirrorConsumed(c: Config, l: seq<Resting>, q: int)
    requires l != []
    ensures MirrorLevel(c, l) != [] && MirrorLevel(c, l)[0] == MirrorResting(c, l[0])
    ensures MirrorLevel(c, Consumed(l, q)) == Consumed(MirrorLevel(c, l), q)
  {
  }

  lemma MirrorCanMatch(c: Config, levels: Levels, maker: OrderSide, t: Taker)
    requires |levels| == c.levels
    ensures CanMatch(MirrorLevels(c, levels), Opposite(maker), c.minPrice, MirrorTaker(c, t)) <==>
            CanMatch(levels, maker, c.minPrice, t)
  {
    MirrorBest(c, levels, maker);
    DepthTells(levels, maker);
  }

  lemma MirrorMatchOne(c: Config, levels: Levels, maker: OrderSide, t: Taker)
    requires |levels| == c.levels && AllPositive(levels) && CanMatch(levels, maker, c.minPrice, t)
    ensures AllPositive(MirrorLevels(c, levels))
    ensures CanMatch(MirrorLevels(c, levels), Opposite(maker), c.minPrice, MirrorTaker(c, t))
    ensures var one := MatchOne(levels, maker, c.minPrice, t);
            MatchOne(MirrorLevels(c, levels), Opposite(maker), c.minPrice, MirrorTaker(c, t)) ==
            Swept(MirrorLevels(c, one.levels), MirrorTrades(c, one.trades), one.left)
  {
    MirrorPositive(c, levels);
    MirrorCanMatch(c, levels, maker, t);
    MirrorBest(c, levels, maker);
    BestHasOrders(levels, maker);
    var b := Best(levels, maker);
    var q := Min(t.qty, levels[b][0].qty);
    MirrorConsumed(c, levels[b], q);
    MirrorUpdate(c, levels, b, Consumed(levels[b], q));
    hide Best, Consumed, AllPositive;
    assert MirrorLevels(c, levels)[|levels| - 1 - b] == MirrorLevel(c, levels[b]);
  }

  lemma {:induction false} MirrorSweep(c: Config, levels: Levels, maker: OrderSide, t: Taker)
    requires |levels| == c.levels && AllPositive(levels)
    ensures AllPositive(MirrorLevels(c, levels))
    ensures var s := Sweep(levels, maker, c.minPrice, t);
            Sweep(MirrorLevels(c, levels), Opposite(maker), c.minPrice, MirrorTaker(c, t)) ==
            Swept(MirrorLevels(c, s.levels), MirrorTrades(c, s.trades), s.left)
    decreases t.qty
  {
    MirrorPositive(c, levels);
    MirrorCanMatch(c, levels, maker, t);
    SweepUnfold(levels, maker, c.minPrice, t);
    SweepUnfold(MirrorLevels(c, levels), Opposite(maker), c.minPrice, MirrorTaker(c, t));
    hide Sweep, MatchOne, AllPositive, CanMatch, MirrorLevels;
    if CanMatch(levels, maker, c.minPrice, t) {
      MirrorMatchOne(c, levels, maker, t);
      var one := MatchOne(levels, maker, c.minPrice, t);
      MirrorSweep(c, one.levels, maker, t.(qty := one.left));
      MirrorTradesConcat(c, one.trades, Sweep(one.levels, maker, c.minPrice, t.(qty := one.left)).trades);
    } else {
      assert MirrorTrades(c, []) == [];
    }
  }

  lemma MirrorCount(c: Config, b: Book)
    ensures RestingCount(MirrorBook(c, b)) == RestingCount(b)
  {
    SumReversed(b.bids, MirrorLevels(c, b.bids), Length, Length);
    SumReversed(b.asks, MirrorLevels(c, b.asks), Length, Length);
  }

  lemma MirrorWellFormed(c: Config, b: Book)
    requires WellFormed(c, b)
    ensures WellFormed(c, MirrorBook(c, b))
  {
    MirrorPositive(c, b.bids);
    MirrorPositive(c, b.asks);
    MirrorCount(c, b);
  }

  lemma MirrorSide(c: Config, b: Book, side: OrderSide, levels: Levels)
    ensures MirrorBook(c, b).Side(Opposite(side)) == MirrorLevels(c, b.Side(side))
    ensures MirrorBook(c, b.WithSide(side, levels)) ==
            MirrorBook(c, b).WithSide(Opposite(side), MirrorLevels(c, levels))
  {
  }

  lemma MirrorAdded(c: Config, b: Book, side: OrderSide, i: nat, r: Resting)
    requires |b.bids| == |b.asks| == c.levels && i < c.levels
    ensures MirrorBook(c, Added(b, side, i, r)) ==
            Added(MirrorBook(c, b), Opposite(side), c.levels - 1 - i, MirrorResting(c, r))
  {
    var levels := b.Side(side);
    MirrorSide(c, b, side, Append(levels, i, r));
    MirrorUpdate(c, levels, i, levels[i] + [r]);
    assert MirrorLevel(c, levels[i] + [r]) == MirrorLevel(c, levels[i]) + [MirrorResting(c, r)];
    assert MirrorLevels(c, levels)[c.levels - 1 - i] == MirrorLevel(c, levels[i]);
  }

  lemma MirrorRest(c: Config, b: Book, o: Order, s: Swept)
    requires c.Valid() && c.Accepts(o.price) && |b.bids| == |b.asks| == c.levels
    ensures c.Accepts(Reflect(c, o.price))
    ensures var r := Rest(c, b, o, s);
            Rest(c, MirrorBook(c, b), MirrorOrder(c, o), s.(trades := MirrorTrades(c, s.trades))) ==
            Outcome(MirrorBook(c, r.book), MirrorTrades(c, r.trades), r.result)
  {
    MirrorIndex(c, o.price);
    MirrorCount(c, b);
    hide Config.PriceIndex, RestingCount, MirrorTrades, Added;
    MirrorAdded(c, b, o.side, c.PriceIndex(o.price), Resting(o.id, o.price, s.left));
  }

  /** One order: the mirrored order on the mirrored book has the mirrored outcome. */
  lemma MirrorStep(c: Config, b: Book, o: Order)
    requires c.Valid() && WellFormed(c, b)
    ensures WellFormed(c, MirrorBook(c, b))
    ensures var r := Step(c, b, o);
            Step(c, MirrorBook(c, b), MirrorOrder(c, o)) ==
            Outcome(MirrorBook(c, r.book), MirrorTrades(c, r.trades), r.result)
  {
    MirrorWellFormed(c, b);
    MirrorIndex(c, o.price);
    hide Config.PriceIndex, WellFormed, Rest, Sweep;
    if c.Accepts(o.price) {
      var maker := Opposite(o.side);
      assert |b.Side(maker)| == c.levels && AllPositive(b.Side(maker)) && |b.bids| == |b.asks| == c.levels by {
        Sizes(c, b, maker);
      }
      MirrorSweep(c, b.Side(maker), maker, Taker(o.id, o.price, o.remainingQuantity));
      var s := SweepFor(c, b, o);
      MirrorSide(c, b, maker, s.levels);
      MirrorRest(c, b.WithSide(maker, s.levels), o, s);
    } else {
      assert MirrorTrades(c, []) == [];
    }
  }

  lemma Sizes(c: Config, b: Book, side: OrderSide)
    requires WellFormed(c, b)
    ensures |b.bids| == |b.asks| == c.levels && |b.Side(side)| == c.levels && AllPositive(b.Side(side))
  {
  }

  function MirrorOrders(c: Config, os: seq<Order>): (r: seq<Order>)
    ensures |r| == |os| && forall k :: 0 <= k < |os| ==> r[k] == MirrorOrder(c, os[k])
  {
    seq(|os|, k requires 0 <= k < |os| => MirrorOrder(c, os[k]))
  }

  /** Any run: same result codes, mirrored trades, mirrored book. */
  lemma {:induction false} MirrorRun(c: Config, b: Book, orders: seq<Order>)
    requires c.Valid() && WellFormed(c, b)
    ensures WellFormed(c, MirrorBook(c, b))
    ensures var r := RunOrders(c, b, orders);
            RunOrders(c, MirrorBook(c, b), MirrorOrders(c, orders)) ==
            Run(MirrorBook(c, r.book), MirrorTrades(c, r.trades), r.results)
    decreases orders
  {
    MirrorWellFormed(c, b);
    if orders != [] {
      hide WellFormed, Step, MirrorBook;
      MirrorStep(c, b, orders[0]);
      var s := Step(c, b, orders[0]);
      MirrorRun(c, s.book, orders[1..]);
      RunFirst(c, b, orders);
      RunFirst(c, MirrorBook(c, b), MirrorOrders(c, orders));
      assert MirrorOrders(c, orders)[1..] == MirrorOrders(c, orders[1..]);
      MirrorTradesConcat(c, s.trades, RunOrders(c, s.book, orders[1..]).trades);
    }
  }
}
