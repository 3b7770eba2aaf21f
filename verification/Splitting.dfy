/** Splitting an order in two and sending the parts back to back changes nothing for the
    makers: same fills, same book on the other side, same quantity left at the taker's level. */
module Splitting {
  import opened Models
  import opened Sums
  import opened PriceTime
  import opened Conservation

  function Join(t: Trade, u: Trade): Trade {
    t.(quantity := t.quantity + u.quantity)
  }

  predicate SameFill(t: Trade, u: Trade) {
    t.price == u.price && t.makerOrderId == u.makerOrderId && t.takerOrderId == u.takerOrderId
  }

  /** The trades of the whole are those of the parts, in order; where the cut fell inside one
      maker's fill, the two pieces of that fill are one trade in the whole. */
  predicate Glued(first: seq<Trade>, second: seq<Trade>, whole: seq<Trade>) {
    || whole == first + second
    || (&& first != [] && second != [] && SameFill(first[|first| - 1], second[0])
        && whole == first[..|first| - 1] + [Join(first[|first| - 1], second[0])] + second[1..])
  }

  lemma GluedBehind(t: Trade, first: seq<Trade>, second: seq<Trade>, whole: seq<Trade>)
    requires Glued(first, second, whole)
    ensures Glued([t] + first, second, [t] + whole)
  {
    if whole == first + second {
      ConcatAssoc([t], first, second);
    } else {
      var n := |first|;
      assert ([t] + first)[..n] == [t] + first[..n - 1];
      assert [t] + whole == ([t] + first)[..n] + [Join(first[n - 1], second[0])] + second[1..];
    }
  }

  lemma GluedQty(first: seq<Trade>, second: seq<Trade>, whole: seq<Trade>, sel: Selection)
    requires Glued(first, second, whole)
    ensures MakerQty(whole, sel) == MakerQty(first, sel) + MakerQty(second, sel)
  {
    var w := MakerWeight(sel);
    if whole == first + second {
      SumConcat(first, second, w);
    } else {
      var n := |first| - 1;
      var j := Join(first[n], second[0]);
      assert first == first[..n] + [first[n]];
      SumConcat(first[..n], [first[n]], w);
      SumConcat(first[..n] + [j], second[1..], w);
      SumConcat(first[..n], [j], w);
      SumOne(j, w);
      SumOne(first[n], w);
    }
  }

  lemma ConsumedTwice(levels: Levels, b: nat, q: int, q': int)
    requires b < |levels| && levels[b] != [] && 0 < q < levels[b][0].qty && 0 < q' <= levels[b][0].qty - q
    ensures var levels' := levels[b := Consumed(levels[b], q)];
            && levels'[b] != [] && levels'[b][0] == levels[b][0].(qty := levels[b][0].qty - q)
            && levels'[b := Consumed(levels'[b], q')] == levels[b := Consumed(levels[b], q + q')]
  {
  }

  lemma ConsumedBest(levels: Levels, maker: OrderSide, q: int)
    requires Best(levels, maker) != -1
    ensures var b := Best(levels, maker);
            && 0 <= b < |levels| && levels[b] != []
            && (q != levels[b][0].qty ==> Best(levels[b := Consumed(levels[b], q)], maker) == b)
  {
    BestHasOrders(levels, maker);
    var b := Best(levels, maker);
    BestCharacterised(levels, maker, b);
    if q != levels[b][0].qty {
      BestCharacterised(levels[b := Consumed(levels[b], q)], maker, b);
    }
  }

  /** What the best maker has. */
  function HeadQty(levels: Levels, maker: OrderSide): int
    requires Best(levels, maker) != -1
  {
    BestHasOrders(levels, maker);
    levels[Best(levels, maker)][0].qty
  }

  /** Matching in two pieces inside one maker's fill is matching once. */
  lemma MatchTwice(levels: Levels, maker: OrderSide, minPrice: int, t: Taker, b: int)
    requires AllPositive(levels) && b > 0 && CanMatch(levels, maker, minPrice, t) && t.qty < HeadQty(levels, maker)
    ensures CanMatch(levels, maker, minPrice, t.(qty := t.qty + b))
    ensures var one := MatchOne(levels, maker, minPrice, t);
            && one.left == 0 && CanMatch(one.levels, maker, minPrice, t.(qty := b))
            && var two := MatchOne(one.levels, maker, minPrice, t.(qty := b));
               var both := MatchOne(levels, maker, minPrice, t.(qty := t.qty + b));
               && two.levels == both.levels && two.left == both.left
               && SameFill(one.trades[0], two.trades[0]) && both.trades == [Join(one.trades[0], two.trades[0])]
  {
    hide AllPositive;
    var best := Best(levels, maker);
    ConsumedBest(levels, maker, t.qty);
    var m := levels[best][0];
    ConsumedTwice(levels, best, t.qty, Min(b, m.qty - t.qty));
    hide Best, Consumed;
  }

  /** Matching a maker in full takes the same whatever more the taker wants. */
  lemma MatchFull(levels: Levels, maker: OrderSide, minPrice: int, t: Taker, b: int)
    requires AllPositive(levels) && b > 0 && CanMatch(levels, maker, minPrice, t) && HeadQty(levels, maker) <= t.qty
    ensures CanMatch(levels, maker, minPrice, t.(qty := t.qty + b))
    ensures var one := MatchOne(levels, maker, minPrice, t);
            var both := MatchOne(levels, maker, minPrice, t.(qty := t.qty + b));
            one.levels == both.levels && one.trades == both.trades && both.left == one.left + b
  {
  }

  /** The two parts of a split sweep, and the whole. */
  predicate SplitsTo(first: Swept, second: Swept, whole: Swept) {
    && whole.levels == second.levels && whole.left == first.left + second.left
    && Glued(first.trades, second.trades, whole.trades)
  }

  lemma GluedInside(one: seq<Trade>, two: seq<Trade>, rest: seq<Trade>)
    requires |one| == |two| == 1 && SameFill(one[0], two[0])
    ensures Glued(one, two + rest, [Join(one[0], two[0])] + rest)
  {
    assert (two + rest)[1..] == rest;
    assert one[..0] + [Join(one[0], two[0])] + rest == [Join(one[0], two[0])] + rest;
  }

  /** The cut falls inside the fill of the best maker. */
  lemma SplitInside(levels: Levels, maker: OrderSide, minPrice: int, t: Taker, b: int)
    requires AllPositive(levels) && b > 0 && CanMatch(levels, maker, minPrice, t) && t.qty < HeadQty(levels, maker)
    ensures var first := Sweep(levels, maker, minPrice, t);
            SplitsTo(first, Sweep(first.levels, maker, minPrice, t.(qty := b)),
                     Sweep(levels, maker, minPrice, t.(qty := t.qty + b)))
  {
    MatchTwice(levels, maker, minPrice, t, b);
    var one := MatchOne(levels, maker, minPrice, t);
    SweepUnfold(levels, maker, minPrice, t);
    SweepUnfold(one.levels, maker, minPrice, t.(qty := 0));
    SweepUnfold(one.levels, maker, minPrice, t.(qty := b));
    SweepUnfold(levels, maker, minPrice, t.(qty := t.qty + b));
    var two := MatchOne(one.levels, maker, minPrice, t.(qty := b));
    GluedInside(one.trades, two.trades, Sweep(two.levels, maker, minPrice, t.(qty := two.left)).trades);
    assert one.trades + [] == one.trades;
    hide Sweep, MatchOne, Glued, Best, AllPositive, HeadQty;
  }

  /** Sweeping with `t.qty + b` is sweeping with `t.qty` and then with `b`. */
  lemma {:induction false} SplitSweep(levels: Levels, maker: OrderSide, minPrice: int, t: Taker, b: int)
    requires AllPositive(levels) && t.qty >= 0 && b > 0
    ensures var first := Sweep(levels, maker, minPrice, t);
            SplitsTo(first, Sweep(first.levels, maker, minPrice, t.(qty := b)),
                     Sweep(levels, maker, minPrice, t.(qty := t.qty + b)))
    decreases t.qty
  {
    hide MatchOne, Glued, Best, AllPositive, HeadQty, Sweep, SplitsTo;
    SweepUnfold(levels, maker, minPrice, t);
    if !CanMatch(levels, maker, minPrice, t) {
      SplitNone(levels, maker, minPrice, t, b);
    } else if t.qty < HeadQty(levels, maker) {
      SplitInside(levels, maker, minPrice, t, b);
    } else {
      MatchFull(levels, maker, minPrice, t, b);
      SweepUnfold(levels, maker, minPrice, t.(qty := t.qty + b));
      var one := MatchOne(levels, maker, minPrice, t);
      SplitSweep(one.levels, maker, minPrice, t.(qty := one.left), b);
      var first := Sweep(one.levels, maker, minPrice, t.(qty := one.left));
      SplitBehind(one.trades, first, Sweep(first.levels, maker, minPrice, t.(qty := b)),
                  Sweep(one.levels, maker, minPrice, t.(qty := one.left + b)));
    }
  }

  lemma SplitBehind(one: seq<Trade>, first: Swept, second: Swept, whole: Swept)
    requires |one| == 1 && SplitsTo(first, second, whole)
    ensures SplitsTo(first.(trades := one + first.trades), second, whole.(trades := one + whole.trades))
  {
    GluedBehind(one[0], first.trades, second.trades, whole.trades);
    assert one == [one[0]];
  }

  /** The first part does not match: the second does what the whole does, with what the first left kept apart. */
  lemma SplitNone(levels: Levels, maker: OrderSide, minPrice: int, t: Taker, b: int)
    requires AllPositive(levels) && t.qty >= 0 && b > 0 && !CanMatch(levels, maker, minPrice, t)
    ensures SplitsTo(Swept(levels, [], t.qty), Sweep(levels, maker, minPrice, t.(qty := b)),
                     Sweep(levels, maker, minPrice, t.(qty := t.qty + b)))
  {
    SweepUnfold(levels, maker, minPrice, t.(qty := b));
    SweepUnfold(levels, maker, minPrice, t.(qty := t.qty + b));
    if t.qty > 0 {
      assert Glued([], [], []);
    } else {
      assert t.(qty := t.qty + b) == t.(qty := b);
    }
    hide Sweep, MatchOne, Best;
  }

  /** With a free slot an order in range is always accepted. */
  lemma StepWithRoom(c: Config, b: Book, o: Order)
    requires c.Valid() && WellFormed(c, b) && c.Accepts(o.price) && RestingCount(b) < c.capacity
    ensures var s, r := SweepFor(c, b, o), Step(c, b, o);
            var b1 := b.WithSide(Opposite(o.side), s.levels);
            && r == Outcome(if s.left <= 0 then b1
                            else Added(b1, o.side, c.PriceIndex(o.price), Resting(o.id, o.price, s.left)),
                            s.trades, Success)
            && RestingCount(r.book) <= RestingCount(b) + 1
  {
    var maker := Opposite(o.side);
    SweepCount(b.Side(maker), maker, c.minPrice, Taker(o.id, o.price, o.remainingQuantity));
    var s := SweepFor(c, b, o);
    var b1 := b.WithSide(maker, s.levels);
    if s.left > 0 {
      AddedCount(b1, o.side, c.PriceIndex(o.price), Resting(o.id, o.price, s.left));
    }
  }

  lemma AddedCount(b: Book, side: OrderSide, i: nat, r: Resting)
    requires i < |b.Side(side)|
    ensures RestingCount(Added(b, side, i, r)) == RestingCount(b) + 1
  {
    SumUpdate(b.Side(side), i, b.Side(side)[i] + [r], Length);
  }

  /** The book after a sweep, with what it left resting at level `i`. */
  function After(b: Book, s: Swept, o: Order, i: nat): Book
    requires i < |b.Side(o.side)|
  {
    var b1 := b.WithSide(Opposite(o.side), s.levels);
    if s.left <= 0 then b1 else Added(b1, o.side, i, Resting(o.id, o.price, s.left))
  }

  /** Same on the other side, same at every other level, and the same total at level `i`. */
  predicate SameButLevel(b: Book, b': Book, side: OrderSide, i: nat, sel: Selection) {
    && b.Side(Opposite(side)) == b'.Side(Opposite(side))
    && |b.Side(side)| == |b'.Side(side)|
    && (forall j :: 0 <= j < |b.Side(side)| && j != i ==> b.Side(side)[j] == b'.Side(side)[j])
    && RestingQty(b.Side(side), sel) == RestingQty(b'.Side(side), sel)
  }

  lemma SplitRest(b: Book, first: Swept, second: Swept, whole: Swept, o: Order, i: nat, sel: Selection)
    requires i < |b.Side(o.side)| && SplitsTo(first, second, whole) && first.left >= 0 && second.left >= 0
    ensures SameButLevel(After(b, whole, o, i), After(After(b, first, o, i), second, o, i), o.side, i, sel)
  {
    var own := b.Side(o.side);
    var after := if first.left > 0 then Append(own, i, Resting(o.id, o.price, first.left)) else own;
    AppendQty(own, i, Resting(o.id, o.price, whole.left), sel);
    AppendQty(own, i, Resting(o.id, o.price, first.left), sel);
    AppendQty(after, i, Resting(o.id, o.price, second.left), sel);
    hide RestingQty, Glued;
  }

  /** An order of `a + b` against the book, or `a` and then `b`, with two free slots: all are accepted, the
      makers' trades agree, the other side is identical, and on the taker's side only its own level may differ,
      in how the same total is cut into orders. */
  lemma SplitOrder(c: Config, book: Book, o: Order, a: int, b: int, sel: Selection)
    requires c.Valid() && WellFormed(c, book) && c.Accepts(o.price)
    requires a > 0 && b > 0 && RestingCount(book) + 2 <= c.capacity
    ensures var whole := Step(c, book, o.(remainingQuantity := a + b));
            var first := Step(c, book, o.(remainingQuantity := a));
            var second := Step(c, first.book, o.(remainingQuantity := b));
            && whole.result == first.result == second.result == Success
            && Glued(first.trades, second.trades, whole.trades)
            && MakerQty(whole.trades, sel) == MakerQty(first.trades, sel) + MakerQty(second.trades, sel)
            && SameButLevel(whole.book, second.book, o.side, c.PriceIndex(o.price), sel)
  {
    hide AllPositive, RestingCount, Sweep, Step, MakerQty, Glued, SameButLevel, Added, Config.PriceIndex;
    var maker := Opposite(o.side);
    var t := Taker(o.id, o.price, a);
    StepWithRoom(c, book, o.(remainingQuantity := a + b));
    StepWithRoom(c, book, o.(remainingQuantity := a));
    var mid := Step(c, book, o.(remainingQuantity := a)).book;
    StepWithRoom(c, mid, o.(remainingQuantity := b));
    SplitSweep(book.Side(maker), maker, c.minPrice, t, b);
    var first := Sweep(book.Side(maker), maker, c.minPrice, t);
    var second := Sweep(first.levels, maker, c.minPrice, t.(qty := b));
    var whole := Sweep(book.Side(maker), maker, c.minPrice, t.(qty := a + b));
    assert mid.Side(maker) == first.levels by {
      OtherSideAfter(book, first, o, c.PriceIndex(o.price));
    }
    GluedQty(first.trades, second.trades, whole.trades, sel);
    SweepConserves(book.Side(maker), maker, c.minPrice, t, sel);
    SweepConserves(first.levels, maker, c.minPrice, t.(qty := b), sel);
    SplitRest(book, first, second, whole, o, c.PriceIndex(o.price), sel);
  }

  lemma OtherSideAfter(b: Book, s: Swept, o: Order, i: nat)
    requires i < |b.Side(o.side)|
    ensures After(b, s, o, i).Side(Opposite(o.side)) == s.levels
  {
  }
}
