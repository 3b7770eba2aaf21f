/** Who rests in front of whom: an order at a better level, or earlier at the same level, stays in front of the other
    through every match and every order that joins, so when the other is served it has nothing resting any more. Two
    orders are followed by their ids through a run from the empty book: where each may rest, that neither is in the
    book before it arrived, and what the first has been filled whenever the second is a maker. */
module ArrivalOrder {
  import opened Models
  import opened Sums
  import opened PriceTime
  import opened Conservation
  import opened Invariants
  import opened Priority

  predicate DistinctIds(orders: seq<Order>) {
    forall p, q :: 0 <= p < q < |orders| ==> orders[p].id != orders[q].id
  }

  /** What an order was filled, as taker or as maker. */
  function Filled(trades: seq<Trade>, id: int): int {
    TakerQty(trades, OnlyId(id)) + MakerQty(trades, OnlyId(id))
  }

  /** Orders with this id rest at level `l` only. */
  predicate OnlyAt(levels: Levels, id: int, l: int) {
    forall m, k :: 0 <= m < |levels| && 0 <= k < |levels[m]| && levels[m][k].id == id ==> m == l
  }

  predicate Absent(levels: Levels, id: int) {
    forall m, k :: 0 <= m < |levels| && 0 <= k < |levels[m]| ==> levels[m][k].id != id
  }

  /** No order `z` rests in front of an order `a`. */
  predicate InOrder(level: seq<Resting>, a: int, z: int) {
    forall j, k :: 0 <= j < k < |level| ==> !(level[j].id == z && level[k].id == a)
  }

  /** Order `a` at level `la` comes before order `z` at level `lz`: the better price, or the same and in front. */
  predicate Precedes(levels: Levels, side: OrderSide, a: int, la: int, z: int, lz: int) {
    && OnlyAt(levels, a, la) && OnlyAt(levels, z, lz)
    && (la == lz ==> 0 <= la < |levels| ==> InOrder(levels[la], a, z))
    && (la != lz ==> if side.Sell? then la < lz else la > lz)
  }

  lemma {:induction false} AbsentQty(levels: Levels, id: int)
    requires Absent(levels, id)
    ensures RestingQty(levels, OnlyId(id)) == 0
  {
    forall m | 0 <= m < |levels|
      ensures LevelWeight(OnlyId(id))(levels[m]) == 0
    {
      AbsentLevel(levels[m], id);
    }
    ZeroSum(levels, LevelWeight(OnlyId(id)));
  }

  lemma {:induction false} ZeroSum<T>(xs: seq<T>, weight: T -> int)
    requires forall k :: 0 <= k < |xs| ==> weight(xs[k]) == 0
    ensures SumBy(xs, weight) == 0
  {
    if xs != [] {
      ZeroSum(xs[1..], weight);
    }
  }

  lemma AbsentLevel(level: seq<Resting>, id: int)
    requires forall k :: 0 <= k < |level| ==> level[k].id != id
    ensures LevelWeight(OnlyId(id))(level) == 0
  {
    ZeroSum(level, OrderWeight(OnlyId(id)));
  }

  /** When `z` is served, `a` rests no more. */
  lemma ServedLast(levels: Levels, side: OrderSide, a: int, la: int, z: int, lz: int)
    requires Precedes(levels, side, a, la, z, lz) && a != z
    requires Best(levels, side) != -1
    ensures 0 <= Best(levels, side) < |levels| && levels[Best(levels, side)] != []
    ensures levels[Best(levels, side)][0].id == z ==> Absent(levels, a)
  {
    BestHasOrders(levels, side);
    BestCharacterised(levels, side, Best(levels, side));
  }

  lemma ConsumedPrecedes(levels: Levels, side: OrderSide, b: nat, q: int, a: int, la: int, z: int, lz: int)
    requires Precedes(levels, side, a, la, z, lz) && b < |levels| && levels[b] != []
    ensures Precedes(levels[b := Consumed(levels[b], q)], side, a, la, z, lz)
  {
    var l := Consumed(levels[b], q);
    var d := if q == levels[b][0].qty then 1 else 0;
    assert forall k :: 0 <= k < |l| ==> l[k].id == levels[b][k + d].id;
  }

  /** In a sweep, whenever `z` is maker, `a` has been given all that rested of it. */
  lemma {:induction false} SweepInOrder(levels: Levels, side: OrderSide, minPrice: int, t: Taker,
                                        a: int, la: int, z: int, lz: int)
    requires AllPositive(levels) && Precedes(levels, side, a, la, z, lz) && a != z
    ensures var s := Sweep(levels, side, minPrice, t);
            && Precedes(s.levels, side, a, la, z, lz)
            && forall k :: 0 <= k < |s.trades| && s.trades[k].makerOrderId == z ==>
                 MakerQty(s.trades[..k], OnlyId(a)) == RestingQty(levels, OnlyId(a))
    decreases t.qty
  {
    if CanMatch(levels, side, minPrice, t) {
      ServedLast(levels, side, a, la, z, lz);
      var one := MatchOne(levels, side, minPrice, t);
      var b, trade := Best(levels, side), one.trades[0];
      ConsumedPrecedes(levels, side, b, trade.quantity, a, la, z, lz);
      ConsumedQty(levels, b, trade.quantity, OnlyId(a));
      SweepInOrder(one.levels, side, minPrice, t.(qty := one.left), a, la, z, lz);
      var rest := Sweep(one.levels, side, minPrice, t.(qty := one.left));
      var s := Sweep(levels, side, minPrice, t);
      forall k | 0 <= k < |s.trades| && s.trades[k].makerOrderId == z
        ensures MakerQty(s.trades[..k], OnlyId(a)) == RestingQty(levels, OnlyId(a))
      {
        if k == 0 {
          AbsentQty(levels, a);
        } else {
          assert s.trades[..k] == [trade] + rest.trades[..k - 1];
          SumConcat([trade], rest.trades[..k - 1], MakerWeight(OnlyId(a)));
          OneTrade(trade, OnlyId(a));
        }
      }
    }
  }

  lemma {:induction false} SweepAbsent(levels: Levels, side: OrderSide, minPrice: int, t: Taker, id: int)
    requires AllPositive(levels) && Absent(levels, id)
    ensures var s := Sweep(levels, side, minPrice, t);
            Absent(s.levels, id) && forall k :: 0 <= k < |s.trades| ==> s.trades[k].makerOrderId != id
    decreases t.qty
  {
    if CanMatch(levels, side, minPrice, t) {
      BestHasOrders(levels, side);
      var one := MatchOne(levels, side, minPrice, t);
      ConsumedAbsent(levels, Best(levels, side), one.trades[0].quantity, id);
      SweepAbsent(one.levels, side, minPrice, t.(qty := one.left), id);
    }
  }

  lemma ConsumedAbsent(levels: Levels, b: nat, q: int, id: int)
    requires Absent(levels, id) && b < |levels| && levels[b] != []
    ensures Absent(levels[b := Consumed(levels[b], q)], id)
  {
    var l := Consumed(levels[b], q);
    var d := if q == levels[b][0].qty then 1 else 0;
    assert forall k :: 0 <= k < |l| ==> l[k].id == levels[b][k + d].id;
  }

  lemma {:induction false} SweepTakers(levels: Levels, side: OrderSide, minPrice: int, t: Taker)
    requires AllPositive(levels)
    ensures var s := Sweep(levels, side, minPrice, t);
            forall k :: 0 <= k < |s.trades| ==> s.trades[k].takerOrderId == t.id
    decreases t.qty
  {
    if CanMatch(levels, side, minPrice, t) {
      var one := MatchOne(levels, side, minPrice, t);
      assert one.trades[0].takerOrderId == t.id;
      SweepTakers(one.levels, side, minPrice, t.(qty := one.left));
      SweepUnfold(levels, side, minPrice, t);
      hide Sweep, MatchOne;
    }
  }

  lemma TakerNone(trades: seq<Trade>, id: int)
    requires forall k :: 0 <= k < |trades| ==> trades[k].takerOrderId != id
    ensures TakerQty(trades, OnlyId(id)) == 0
  {
    ZeroSum(trades, TakerWeight(OnlyId(id)));
  }

  // ---------- Runs ----------

  /** Two orders of a run on the same side, of which `i` comes first: at a better price, or earlier at the same. */
  datatype Pair = Pair(side: OrderSide, i: nat, a: int, la: int, j: nat, z: int, lz: int)

  predicate PairOf(c: Config, orders: seq<Order>, p: Pair) {
    && p.i < |orders| && p.j < |orders| && orders[p.i].side == orders[p.j].side == p.side
    && orders[p.i].id == p.a && orders[p.j].id == p.z && p.a != p.z
    && c.PriceIndex(orders[p.i].price) == p.la && c.PriceIndex(orders[p.j].price) == p.lz
    && (if p.la == p.lz then p.i < p.j else if p.side.Sell? then p.la < p.lz else p.la > p.lz)
  }

  /** The book after the first `n` orders. */
  predicate Ranked(b: Book, p: Pair, n: nat) {
    && Precedes(b.Side(p.side), p.side, p.a, p.la, p.z, p.lz)
    && Absent(b.Side(Opposite(p.side)), p.a) && Absent(b.Side(Opposite(p.side)), p.z)
    && (n <= p.i ==> Absent(b.Side(p.side), p.a)) && (n <= p.j ==> Absent(b.Side(p.side), p.z))
  }

  lemma AppendAbsent(levels: Levels, l: nat, r: Resting, id: int)
    requires l < |levels| && Absent(levels, id) && r.id != id
    ensures Absent(Append(levels, l, r), id)
  {
  }

  lemma AppendOnlyAt(levels: Levels, l: nat, r: Resting, id: int, at: int)
    requires l < |levels| && OnlyAt(levels, id, at) && (r.id == id ==> l == at)
    ensures OnlyAt(Append(levels, l, r), id, at)
  {
  }

  lemma AppendPrecedes(levels: Levels, side: OrderSide, l: nat, r: Resting, a: int, la: int, z: int, lz: int)
    requires l < |levels| && Precedes(levels, side, a, la, z, lz) && a != z
    requires r.id == a ==> l == la && (la == lz ==> Absent(levels, z))
    requires r.id == z ==> l == lz
    ensures Precedes(Append(levels, l, r), side, a, la, z, lz)
  {
    AppendOnlyAt(levels, l, r, a, la);
    AppendOnlyAt(levels, l, r, z, lz);
    hide OnlyAt;
  }

  lemma AddedRanked(c: Config, b: Book, orders: seq<Order>, p: Pair, n: nat, qty: int)
    requires n < |orders| && DistinctIds(orders) && PairOf(c, orders, p) && Ranked(b, p, n)
    requires var o := orders[n]; 0 <= c.PriceIndex(o.price) < |b.Side(o.side)|
    ensures var o := orders[n]; Ranked(Added(b, o.side, c.PriceIndex(o.price), Resting(o.id, o.price, qty)), p, n + 1)
  {
    var o := orders[n];
    var l, r := c.PriceIndex(o.price), Resting(o.id, o.price, qty);
    assert o.id == p.a <==> n == p.i;
    assert o.id == p.z <==> n == p.j;
    if o.side == p.side {
      AppendPrecedes(b.Side(p.side), p.side, l, r, p.a, p.la, p.z, p.lz);
    }
    if o.side != p.side || n < p.i {
      AppendAbsent(b.Side(o.side), l, r, p.a);
    }
    if o.side != p.side || n < p.j {
      AppendAbsent(b.Side(o.side), l, r, p.z);
    }
    hide Precedes, Absent, Append, Config.PriceIndex;
  }

  lemma SweptRanked(c: Config, b: Book, o: Order, p: Pair, n: nat)
    requires c.Valid() && WellFormed(c, b) && Ranked(b, p, n) && p.a != p.z
    ensures var maker := Opposite(o.side);
            Ranked(b.WithSide(maker, SweepFor(c, b, o).levels), p, n)
  {
    var maker, t := Opposite(o.side), Taker(o.id, o.price, o.remainingQuantity);
    if maker == p.side {
      SweepInOrder(b.Side(maker), maker, c.minPrice, t, p.a, p.la, p.z, p.lz);
      if n <= p.i {
        SweepAbsent(b.Side(maker), maker, c.minPrice, t, p.a);
      }
      if n <= p.j {
        SweepAbsent(b.Side(maker), maker, c.minPrice, t, p.z);
      }
    } else {
      SweepAbsent(b.Side(maker), maker, c.minPrice, t, p.a);
      SweepAbsent(b.Side(maker), maker, c.minPrice, t, p.z);
    }
    hide Sweep, Absent, Precedes, AllPositive;
  }

  lemma StepRanked(c: Config, b: Book, orders: seq<Order>, p: Pair, n: nat)
    requires c.Valid() && WellFormed(c, b) && n < |orders| && DistinctIds(orders) && PairOf(c, orders, p)
    requires Ranked(b, p, n)
    ensures Ranked(Step(c, b, orders[n]).book, p, n + 1)
  {
    var o := orders[n];
    if c.Accepts(o.price) {
      SweptRanked(c, b, o, p, n);
      var s := SweepFor(c, b, o);
      var b1 := b.WithSide(Opposite(o.side), s.levels);
      AddedRanked(c, b1, orders, p, n, s.left);
    }
  }

  lemma StepTrades(c: Config, b: Book, o: Order)
    requires c.Valid() && WellFormed(c, b)
    ensures Step(c, b, o).trades == if c.Accepts(o.price) then SweepFor(c, b, o).trades else []
  {
  }

  lemma StepTakers(c: Config, b: Book, o: Order)
    requires c.Valid() && WellFormed(c, b)
    ensures var trades := Step(c, b, o).trades;
            forall k :: 0 <= k < |trades| ==> trades[k].takerOrderId == o.id
  {
    StepTrades(c, b, o);
    var maker, t := Opposite(o.side), Taker(o.id, o.price, o.remainingQuantity);
    SweepTakers(b.Side(maker), maker, c.minPrice, t);
    assert SweepFor(c, b, o) == Sweep(b.Side(maker), maker, c.minPrice, t);
    hide Step, Sweep, SweepFor;
    assert c.Accepts(o.price) ==> Step(c, b, o).trades == Sweep(b.Side(maker), maker, c.minPrice, t).trades;
  }

  /** What order `p.i` is filled in a step before `p.z` is served in it is all that rested of it. */
  lemma StepInOrder(c: Config, b: Book, orders: seq<Order>, p: Pair, n: nat, k: nat)
    requires c.Valid() && WellFormed(c, b) && p.i < n < |orders| && DistinctIds(orders) && PairOf(c, orders, p)
    requires Ranked(b, p, n)
    requires k < |Step(c, b, orders[n]).trades| && Step(c, b, orders[n]).trades[k].makerOrderId == p.z
    ensures Filled(Step(c, b, orders[n]).trades[..k], p.a) ==
            RestingQty(b.bids, OnlyId(p.a)) + RestingQty(b.asks, OnlyId(p.a))
  {
    var o := orders[n];
    var maker, t := Opposite(o.side), Taker(o.id, o.price, o.remainingQuantity);
    var trades := Step(c, b, o).trades;
    assert o.id != p.a;
    StepTrades(c, b, o);
    StepTakers(c, b, o);
    hide Step;
    TakerNone(trades[..k], p.a);
    AbsentQty(b.Side(Opposite(p.side)), p.a);
    if maker == p.side {
      SweepInOrder(b.Side(maker), maker, c.minPrice, t, p.a, p.la, p.z, p.lz);
    } else {
      SweepAbsent(b.Side(maker), maker, c.minPrice, t, p.z);
    }
    hide Sweep, Precedes, Absent, AllPositive;
  }

  /** Order `p.z` is maker only to orders that came after it. */
  lemma MakerArrived(c: Config, b: Book, orders: seq<Order>, p: Pair, n: nat)
    requires c.Valid() && WellFormed(c, b) && n < |orders| && Ranked(b, p, n) && n <= p.j
    ensures var trades := Step(c, b, orders[n]).trades;
            forall k :: 0 <= k < |trades| ==> trades[k].makerOrderId != p.z
  {
    var o := orders[n];
    StepTrades(c, b, o);
    hide Step;
    assert Absent(b.Side(Opposite(o.side)), p.z);
    SweepAbsent(b.Side(Opposite(o.side)), Opposite(o.side), c.minPrice,
                Taker(o.id, o.price, o.remainingQuantity), p.z);
  }

  lemma {:induction false} BroughtNone(orders: seq<Order>, results: seq<OrderResult>, side: OrderSide, id: int)
    requires |orders| == |results| && forall k :: 0 <= k < |orders| ==> orders[k].id != id
    ensures BroughtIn(orders, results, side, OnlyId(id)) == 0
  {
    if orders != [] {
      BroughtNone(orders[1..], results[1..], side, id);
    }
  }

  /** With distinct ids what an id brought in is what its one order brought in. */
  lemma {:induction false} BroughtOnce(orders: seq<Order>, results: seq<OrderResult>, i: nat)
    requires |orders| == |results| && i < |orders| && DistinctIds(orders)
    ensures var who := OnlyId(orders[i].id);
            BroughtIn(orders, results, Buy, who) + BroughtIn(orders, results, Sell, who)
            == AcceptedQty(orders[i], results[i], who)
  {
    var id := orders[i].id;
    if i == 0 {
      BroughtNone(orders[1..], results[1..], Buy, id);
      BroughtNone(orders[1..], results[1..], Sell, id);
    } else {
      assert orders[0].id != id;
      BroughtOnce(orders[1..], results[1..], i - 1);
    }
  }

  predicate TakerAfter(orders: seq<Order>, i: nat, id: int) {
    exists m :: i < m < |orders| && orders[m].id == id
  }

  /** Whenever order `p.z` is maker to a taker that came after order `p.i`, that order has been filled completely. */
  predicate ServedInTurn(orders: seq<Order>, trades: seq<Trade>, p: Pair, qty: int) {
    forall t :: 0 <= t < |trades| && trades[t].makerOrderId == p.z
                && TakerAfter(orders, p.i, trades[t].takerOrderId) ==>
      Filled(trades[..t], p.a) == qty
  }

  lemma FilledConcat(xs: seq<Trade>, ys: seq<Trade>, id: int)
    ensures Filled(xs + ys, id) == Filled(xs, id) + Filled(ys, id)
  {
    SumConcat(xs, ys, TakerWeight(OnlyId(id)));
    SumConcat(xs, ys, MakerWeight(OnlyId(id)));
  }

  predicate Arrived(orders: seq<Order>, trades: seq<Trade>, p: Pair) {
    forall t :: 0 <= t < |trades| && trades[t].makerOrderId == p.z ==> TakerAfter(orders, p.j, trades[t].takerOrderId)
  }

  /** The run after `n` orders: how the book is ranked, who was served in turn, and what order `p.i` was filled. */
  ghost predicate RunInTurn(c: Config, orders: seq<Order>, p: Pair, n: nat)
    requires c.Valid() && n <= |orders| && p.i < |orders|
  {
    && WellFormed(c, EmptyBook(c))
    && var r := RunOrders(c, EmptyBook(c), orders[..n]);
       && Ranked(r.book, p, n) && Arrived(orders, r.trades, p)
       && (n > p.i && r.results[p.i] == Success && orders[p.i].remainingQuantity > 0 ==>
             ServedInTurn(orders, r.trades, p, orders[p.i].remainingQuantity))
       && (n <= p.i ==> forall t :: 0 <= t < |r.trades| ==> !TakerAfter(orders, p.i, r.trades[t].takerOrderId))
  }

  lemma InTurnNext(orders: seq<Order>, trades: seq<Trade>, more: seq<Trade>, p: Pair, qty: int)
    requires ServedInTurn(orders, trades, p, qty)
    requires forall k ::
               (0 <= k < |more| && more[k].makerOrderId == p.z && TakerAfter(orders, p.i, more[k].takerOrderId)) ==>
               Filled(trades + more[..k], p.a) == qty
    ensures ServedInTurn(orders, trades + more, p, qty)
  {
    var all := trades + more;
    forall t | 0 <= t < |all| && all[t].makerOrderId == p.z && TakerAfter(orders, p.i, all[t].takerOrderId)
      ensures Filled(all[..t], p.a) == qty
    {
      if t < |trades| {
        assert all[..t] == trades[..t];
      } else {
        assert all[..t] == trades + more[..t - |trades|];
      }
    }
  }

  /** What order `p.i` was filled and what rests of it is its quantity. */
  lemma FilledPlusResting(c: Config, orders: seq<Order>, p: Pair, n: nat)
    requires c.Valid() && p.i < n <= |orders| && DistinctIds(orders) && orders[p.i].id == p.a
    ensures WellFormed(c, EmptyBook(c))
    ensures var r := RunOrders(c, EmptyBook(c), orders[..n]);
            r.results[p.i] == Success && orders[p.i].remainingQuantity > 0 ==>
              Filled(r.trades, p.a) + RestingQty(r.book.bids, OnlyId(p.a)) + RestingQty(r.book.asks, OnlyId(p.a))
              == orders[p.i].remainingQuantity
  {
    IdConserved(c, orders[..n], p.a);
    BroughtOnce(orders[..n], RunOrders(c, EmptyBook(c), orders[..n]).results, p.i);
    hide RunOrders, RestingQty, EmptyBook, WellFormed, TakerQty, MakerQty;
  }

  /** The next order's trades are in turn after what was traded so far. */
  lemma TurnsNext(c: Config, orders: seq<Order>, p: Pair, n: nat, r: Run)
    requires c.Valid() && p.i < n < |orders| && DistinctIds(orders) && PairOf(c, orders, p)
    requires WellFormed(c, EmptyBook(c)) && r == RunOrders(c, EmptyBook(c), orders[..n]) && Ranked(r.book, p, n)
    requires r.results[p.i] == Success && orders[p.i].remainingQuantity > 0
    requires ServedInTurn(orders, r.trades, p, orders[p.i].remainingQuantity)
    ensures ServedInTurn(orders, r.trades + Step(c, r.book, orders[n]).trades, p, orders[p.i].remainingQuantity)
  {
    hide *;
    var q, more := orders[p.i].remainingQuantity, Step(c, r.book, orders[n]).trades;
    PairId(c, orders, p);
    FilledPlusResting(c, orders, p, n);
    forall k | 0 <= k < |more| && more[k].makerOrderId == p.z && TakerAfter(orders, p.i, more[k].takerOrderId)
      ensures Filled(r.trades + more[..k], p.a) == q
    {
      StepInOrder(c, r.book, orders, p, n, k);
      FilledConcat(r.trades, more[..k], p.a);
    }
    InTurnNext(orders, r.trades, more, p, q);
  }

  lemma PairId(c: Config, orders: seq<Order>, p: Pair)
    requires PairOf(c, orders, p)
    ensures p.i < |orders| && orders[p.i].id == p.a
  {
  }

  /** Trades of takers that do not come after order `p.i` say nothing about turns. */
  lemma NoTurnsYet(orders: seq<Order>, trades: seq<Trade>, p: Pair, qty: int)
    requires forall t :: 0 <= t < |trades| ==> !TakerAfter(orders, p.i, trades[t].takerOrderId)
    ensures ServedInTurn(orders, trades, p, qty)
  {
  }

  lemma RunInTurnNext(c: Config, orders: seq<Order>, p: Pair, n: nat)
    requires c.Valid() && n < |orders| && DistinctIds(orders) && PairOf(c, orders, p) && RunInTurn(c, orders, p, n)
    ensures RunInTurn(c, orders, p, n + 1)
  {
    var r, o := RunOrders(c, EmptyBook(c), orders[..n]), orders[n];
    var s := Step(c, r.book, o);
    assert orders[..n + 1] == orders[..n] + [o];
    RunSnoc(c, EmptyBook(c), orders[..n], o);
    StepRanked(c, r.book, orders, p, n);
    StepTakers(c, r.book, o);
    if n <= p.j {
      MakerArrived(c, r.book, orders, p, n);
    }
    hide Step, RunOrders, Ranked, WellFormed, EmptyBook, PairOf, ServedInTurn;
    assert n <= p.i ==> !TakerAfter(orders, p.i, o.id);
    if n <= p.i {
      NoTurnsYet(orders, r.trades + s.trades, p, orders[p.i].remainingQuantity);
    } else if r.results[p.i] == Success && orders[p.i].remainingQuantity > 0 {
      TurnsNext(c, orders, p, n, r);
    }
  }

  lemma NothingRun(c: Config, orders: seq<Order>, p: Pair)
    requires c.Valid() && PairOf(c, orders, p)
    ensures RunInTurn(c, orders, p, 0)
  {
    EmptyBookWellFormed(c);
    RunNothing(c, EmptyBook(c));
    assert orders[..0] == [];
    hide WellFormed;
  }

  lemma {:induction false} RunsInTurn(c: Config, orders: seq<Order>, p: Pair, n: nat)
    requires c.Valid() && n <= |orders| && DistinctIds(orders) && PairOf(c, orders, p)
    ensures RunInTurn(c, orders, p, n)
  {
    if n == 0 {
      NothingRun(c, orders, p);
    } else {
      hide RunInTurn, PairOf, DistinctIds;
      RunsInTurn(c, orders, p, n - 1);
      RunInTurnNext(c, orders, p, n - 1);
    }
  }
}
