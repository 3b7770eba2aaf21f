/** What price-time priority means: the opposite side read as one queue, best price first
    and oldest first, and the taker served by walking down that queue. */
module Priority {
  import opened Models
  import opened Sums
  import opened PriceTime

  /** A resting order and the level it rests at. */
  datatype Entry = Entry(level: int, order: Resting)

  function Tagged(level: int, orders: seq<Resting>): (r: seq<Entry>)
    ensures |r| == |orders| && forall k :: 0 <= k < |r| ==> r[k] == Entry(level, orders[k])
  {
    seq(|orders|, k requires 0 <= k < |orders| => Entry(level, orders[k]))
  }

  /** The orders from rank `r` on, in priority order. */
  function QueueFrom(levels: Levels, maker: OrderSide, r: nat): seq<Entry>
    requires r <= |levels|
    decreases |levels| - r
  {
    if r == |levels| then []
    else
      var i := Rank(maker, |levels|, r);
      Tagged(i, levels[i]) + QueueFrom(levels, maker, r + 1)
  }

  function Queue(levels: Levels, maker: OrderSide): seq<Entry> {
    QueueFrom(levels, maker, 0)
  }

  /** Ordered by price, from rank `r` on. */
  predicate ByRank(es: seq<Entry>, maker: OrderSide, n: nat, r: nat) {
    && (forall k :: 0 <= k < |es| ==> r <= Rank(maker, n, es[k].level) < n)
    && (forall j, k :: 0 <= j < k < |es| ==> Rank(maker, n, es[j].level) <= Rank(maker, n, es[k].level))
  }

  lemma ByRankConcat(head: seq<Entry>, tail: seq<Entry>, maker: OrderSide, n: nat, r: nat)
    requires r < n && ByRank(tail, maker, n, r + 1)
    requires forall k :: 0 <= k < |head| ==> Rank(maker, n, head[k].level) == r
    ensures ByRank(head + tail, maker, n, r)
  {
  }

  lemma {:induction false} QueueOrdered(levels: Levels, maker: OrderSide, r: nat)
    requires r <= |levels|
    ensures ByRank(QueueFrom(levels, maker, r), maker, |levels|, r)
    decreases |levels| - r
  {
    if r < |levels| {
      QueueOrdered(levels, maker, r + 1);
      var i := Rank(maker, |levels|, r);
      assert Rank(maker, |levels|, i) == r;
      ByRankConcat(Tagged(i, levels[i]), QueueFrom(levels, maker, r + 1), maker, |levels|, r);
    }
  }

  lemma {:induction false} QueueLength(levels: Levels, maker: OrderSide, r: nat)
    requires r <= |levels|
    ensures |QueueFrom(levels, maker, r)| ==
            if maker.Sell? then SumBy(levels[r..], Length) else SumBy(levels[..|levels| - r], Length)
    decreases |levels| - r
  {
    var n := |levels|;
    if r < n {
      QueueLength(levels, maker, r + 1);
      if maker.Sell? {
        assert levels[r..] == [levels[r]] + levels[r + 1..];
      } else {
        var i := n - 1 - r;
        assert levels[..n - r] == levels[..i] + [levels[i]];
        SumConcat(levels[..i], [levels[i]], Length);
      }
    }
  }

  lemma QueueCounts(levels: Levels, maker: OrderSide)
    ensures |Queue(levels, maker)| == Count(levels)
  {
    QueueLength(levels, maker, 0);
    assert levels[0..] == levels && levels[..|levels|] == levels;
  }

  // ---------- The best order heads the queue ----------

  lemma {:induction false} QueueSame(levels: Levels, levels': Levels, maker: OrderSide, r: nat)
    requires r <= |levels| == |levels'|
    requires forall i :: 0 <= i < |levels| && Rank(maker, |levels|, i) >= r ==> levels'[i] == levels[i]
    ensures QueueFrom(levels', maker, r) == QueueFrom(levels, maker, r)
    decreases |levels| - r
  {
    if r < |levels| {
      QueueSame(levels, levels', maker, r + 1);
      assert Rank(maker, |levels|, Rank(maker, |levels|, r)) == r;
    }
  }

  /** Ranks better than `b` hold nothing, so the queue starts with level `b`. */
  lemma {:induction false} QueueSkips(levels: Levels, maker: OrderSide, b: nat, r: nat)
    requires b < |levels| && r <= Rank(maker, |levels|, b)
    requires forall i :: 0 <= i < |levels| && Better(maker, i, b) ==> levels[i] == []
    ensures QueueFrom(levels, maker, r) ==
            Tagged(b, levels[b]) + QueueFrom(levels, maker, Rank(maker, |levels|, b) + 1)
    decreases |levels| - r
  {
    if r < Rank(maker, |levels|, b) {
      QueueSkips(levels, maker, b, r + 1);
      var i := Rank(maker, |levels|, r);
      assert Better(maker, i, b);
      assert Tagged(i, levels[i]) == [];
    }
  }

  /** Changing the best level changes the front of the queue and nothing behind it. */
  lemma QueueFront(levels: Levels, maker: OrderSide, level: seq<Resting>)
    requires Best(levels, maker) != -1
    ensures var b := Best(levels, maker);
            && 0 <= b < |levels|
            && var rest := QueueFrom(levels, maker, Rank(maker, |levels|, b) + 1);
               && Queue(levels, maker) == Tagged(b, levels[b]) + rest
               && Queue(levels[b := level], maker) == Tagged(b, level) + rest
  {
    var b := Best(levels, maker);
    BestCharacterised(levels, maker, b);
    QueueSkips(levels, maker, b, 0);
    QueueSkips(levels[b := level], maker, b, 0);
    QueueSame(levels, levels[b := level], maker, Rank(maker, |levels|, b) + 1);
  }

  // ---------- Walking down the queue ----------

  datatype Walked = Walked(trades: seq<Trade>, rest: seq<Entry>, left: int)

  predicate Acceptable(e: Entry, maker: OrderSide, minPrice: int, t: Taker) {
    Crosses(maker, e.level + minPrice, t.limit)
  }

  function Fill(e: Entry, minPrice: int, q: int, takerId: int): Trade {
    Trade(e.level + minPrice, q, e.order.id, takerId)
  }

  /** Serve the taker from the front of the queue until it is filled or meets a price it does not accept. */
  function Walk(es: seq<Entry>, maker: OrderSide, minPrice: int, t: Taker): Walked {
    if es == [] || t.qty <= 0 || !Acceptable(es[0], maker, minPrice, t) then Walked([], es, t.qty)
    else if t.qty < es[0].order.qty then
      var e := es[0].(order := es[0].order.(qty := es[0].order.qty - t.qty));
      Walked([Fill(es[0], minPrice, t.qty, t.id)], [e] + es[1..], 0)
    else
      var w := Walk(es[1..], maker, minPrice, t.(qty := t.qty - es[0].order.qty));
      Walked([Fill(es[0], minPrice, es[0].order.qty, t.id)] + w.trades, w.rest, w.left)
  }

  lemma ConsumedQueue(b: int, level: seq<Resting>, rest: seq<Entry>, q: int)
    requires level != []
    ensures (Tagged(b, level) + rest) != [] && (Tagged(b, level) + rest)[0] == Entry(b, level[0])
    ensures q == level[0].qty ==> Tagged(b, Consumed(level, q)) + rest == (Tagged(b, level) + rest)[1..]
    ensures q != level[0].qty ==>
              Tagged(b, Consumed(level, q)) + rest ==
              [Entry(b, level[0].(qty := level[0].qty - q))] + (Tagged(b, level) + rest)[1..]
  {
  }

  lemma QueueEmpty(levels: Levels, maker: OrderSide)
    ensures Queue(levels, maker) == [] <==> Best(levels, maker) == -1
  {
    var b := Best(levels, maker);
    BestCharacterised(levels, maker, b);
    if b == -1 {
      AllEmptySum(levels, Length);
      QueueCounts(levels, maker);
    } else {
      QueueFront(levels, maker, levels[b]);
      ConsumedQueue(b, levels[b], QueueFrom(levels, maker, Rank(maker, |levels|, b) + 1), 0);
    }
  }

  lemma QueueHead(levels: Levels, maker: OrderSide)
    requires Queue(levels, maker) != []
    ensures Queue(levels, maker)[0].level == Best(levels, maker)
  {
    QueueEmpty(levels, maker);
    BestHasOrders(levels, maker);
    var b := Best(levels, maker);
    QueueFront(levels, maker, levels[b]);
    ConsumedQueue(b, levels[b], QueueFrom(levels, maker, Rank(maker, |levels|, b) + 1), 0);
  }

  lemma CanMatchHead(levels: Levels, maker: OrderSide, minPrice: int, t: Taker)
    ensures var es := Queue(levels, maker);
            CanMatch(levels, maker, minPrice, t) <==> es != [] && t.qty > 0 && Acceptable(es[0], maker, minPrice, t)
  {
    QueueEmpty(levels, maker);
    if Best(levels, maker) != -1 {
      QueueHead(levels, maker);
    }
  }

  /** One match serves the head of the queue. */
  lemma MatchOneServes(levels: Levels, maker: OrderSide, minPrice: int, t: Taker)
    requires AllPositive(levels) && CanMatch(levels, maker, minPrice, t)
    ensures var es, one := Queue(levels, maker), MatchOne(levels, maker, minPrice, t);
            && es != [] && Acceptable(es[0], maker, minPrice, t)
            && var q := Min(t.qty, es[0].order.qty);
               && one.trades == [Fill(es[0], minPrice, q, t.id)] && one.left == t.qty - q
               && Queue(one.levels, maker) ==
                  (if q == es[0].order.qty then es[1..]
                   else [es[0].(order := es[0].order.(qty := es[0].order.qty - q))] + es[1..])
  {
    var b := Best(levels, maker);
    BestHasOrders(levels, maker);
    var q := Min(t.qty, levels[b][0].qty);
    QueueFront(levels, maker, Consumed(levels[b], q));
    ConsumedQueue(b, levels[b], QueueFrom(levels, maker, Rank(maker, |levels|, b) + 1), q);
  }

  /** Sweeping the levels serves exactly as walking down the priority queue does, and leaves its rest. */
  lemma {:induction false} SweepWalks(levels: Levels, maker: OrderSide, minPrice: int, t: Taker)
    requires AllPositive(levels)
    ensures var s := Sweep(levels, maker, minPrice, t);
            Walk(Queue(levels, maker), maker, minPrice, t) == Walked(s.trades, Queue(s.levels, maker), s.left)
    decreases t.qty
  {
    hide Queue, Best, MatchOne, AllPositive;
    CanMatchHead(levels, maker, minPrice, t);
    if CanMatch(levels, maker, minPrice, t) {
      MatchOneServes(levels, maker, minPrice, t);
      var one := MatchOne(levels, maker, minPrice, t);
      SweepWalks(one.levels, maker, minPrice, t.(qty := one.left));
    }
  }

  // ---------- Closed form ----------

  /** Quantity resting in front of position `k`. */
  function Ahead(es: seq<Entry>, k: nat): int
    requires k <= |es|
  {
    if k == 0 then 0 else Ahead(es, k - 1) + es[k - 1].order.qty
  }

  /** What the `k`-th order in the queue gets from a taker: what the orders in front of it
      leave, but no more than its own quantity, and nothing at a price not accepted. */
  function Share(es: seq<Entry>, k: nat, maker: OrderSide, minPrice: int, t: Taker): int
    requires k < |es|
  {
    if Acceptable(es[k], maker, minPrice, t)
    then Max(0, Min(es[k].order.qty, t.qty - Ahead(es, k)))
    else 0
  }

  /** A queue as the book builds it: positive quantities, and once a price is not accepted no later one is. */
  predicate Ordered(es: seq<Entry>, maker: OrderSide, minPrice: int, t: Taker) {
    && (forall k :: 0 <= k < |es| ==> es[k].order.qty > 0)
    && (forall j, k :: 0 <= j < k < |es| && Acceptable(es[k], maker, minPrice, t) ==>
          Acceptable(es[j], maker, minPrice, t))
  }

  lemma {:induction false} AheadTail(es: seq<Entry>, k: nat)
    requires 0 < k <= |es|
    ensures Ahead(es, k) == es[0].order.qty + Ahead(es[1..], k - 1)
  {
    if k > 1 {
      AheadTail(es, k - 1);
    }
  }

  lemma {:induction false} AheadGrows(es: seq<Entry>, k: nat)
    requires k <= |es| && forall j :: 0 <= j < |es| ==> es[j].order.qty > 0
    ensures Ahead(es, k) >= 0
    ensures k > 0 ==> Ahead(es, k) >= es[0].order.qty
  {
    if k > 0 {
      AheadGrows(es, k - 1);
    }
  }

  lemma ShareTail(es: seq<Entry>, k: nat, maker: OrderSide, minPrice: int, t: Taker)
    requires 0 < k < |es|
    ensures Share(es, k, maker, minPrice, t) ==
            Share(es[1..], k - 1, maker, minPrice, t.(qty := t.qty - es[0].order.qty))
  {
    AheadTail(es, k);
  }

  /** The trades are the shares, in queue order, and the orders after the last trade get nothing. */
  predicate AreShares(trades: seq<Trade>, es: seq<Entry>, maker: OrderSide, minPrice: int, t: Taker) {
    && |trades| <= |es|
    && (forall k :: 0 <= k < |trades| ==>
          && Share(es, k, maker, minPrice, t) > 0
          && trades[k] == Fill(es[k], minPrice, Share(es, k, maker, minPrice, t), t.id))
    && (forall k :: |trades| <= k < |es| ==> Share(es, k, maker, minPrice, t) == 0)
  }

  lemma SharesTail(trades: seq<Trade>, es: seq<Entry>, maker: OrderSide, minPrice: int, t: Taker)
    requires es != [] && Acceptable(es[0], maker, minPrice, t) && 0 < es[0].order.qty <= t.qty
    requires AreShares(trades, es[1..], maker, minPrice, t.(qty := t.qty - es[0].order.qty))
    ensures AreShares([Fill(es[0], minPrice, es[0].order.qty, t.id)] + trades, es, maker, minPrice, t)
  {
    var t' := t.(qty := t.qty - es[0].order.qty);
    assert Share(es, 0, maker, minPrice, t) == es[0].order.qty;
    forall k | 1 <= k < |es|
      ensures Share(es, k, maker, minPrice, t) == Share(es[1..], k - 1, maker, minPrice, t')
    {
      ShareTail(es, k, maker, minPrice, t);
    }
    hide Share;
  }

  lemma NoShare(es: seq<Entry>, k: nat, maker: OrderSide, minPrice: int, t: Taker)
    requires Ordered(es, maker, minPrice, t) && k < |es|
    requires t.qty <= 0 || !Acceptable(es[0], maker, minPrice, t) || (k > 0 && t.qty < es[0].order.qty)
    ensures Share(es, k, maker, minPrice, t) == 0
  {
    AheadGrows(es, k);
  }

  lemma {:induction false} WalkShares(es: seq<Entry>, maker: OrderSide, minPrice: int, t: Taker)
    requires Ordered(es, maker, minPrice, t)
    ensures AreShares(Walk(es, maker, minPrice, t).trades, es, maker, minPrice, t)
    decreases es
  {
    if es == [] {
    } else if t.qty <= 0 || !Acceptable(es[0], maker, minPrice, t) {
      forall k | 0 <= k < |es| ensures Share(es, k, maker, minPrice, t) == 0 {
        NoShare(es, k, maker, minPrice, t);
      }
    } else if t.qty < es[0].order.qty {
      assert Ahead(es, 0) == 0;
      forall k | 1 <= k < |es| ensures Share(es, k, maker, minPrice, t) == 0 {
        NoShare(es, k, maker, minPrice, t);
      }
    } else {
      var t' := t.(qty := t.qty - es[0].order.qty);
      WalkShares(es[1..], maker, minPrice, t');
      SharesTail(Walk(es[1..], maker, minPrice, t').trades, es, maker, minPrice, t);
    }
  }

  /** A smaller rank is a price at least as good. */
  lemma RankCrosses(maker: OrderSide, n: nat, minPrice: int, i: int, j: int, limit: int)
    requires Rank(maker, n, i) <= Rank(maker, n, j)
    ensures Crosses(maker, i + minPrice, j + minPrice)
    ensures Crosses(maker, j + minPrice, limit) ==> Crosses(maker, i + minPrice, limit)
  {
  }

  lemma QueueIsOrdered(levels: Levels, maker: OrderSide, minPrice: int, t: Taker)
    requires AllPositive(levels)
    ensures Ordered(Queue(levels, maker), maker, minPrice, t)
  {
    QueueOrdered(levels, maker, 0);
    QueuePositive(levels, maker, 0);
    var es := Queue(levels, maker);
    forall j, k | 0 <= j < k < |es| && Acceptable(es[k], maker, minPrice, t)
      ensures Acceptable(es[j], maker, minPrice, t)
    {
      RankCrosses(maker, |levels|, minPrice, es[j].level, es[k].level, t.limit);
    }
  }

  lemma {:induction false} QueuePositive(levels: Levels, maker: OrderSide, r: nat)
    requires AllPositive(levels) && r <= |levels|
    ensures forall k :: 0 <= k < |QueueFrom(levels, maker, r)| ==> QueueFrom(levels, maker, r)[k].order.qty > 0
    decreases |levels| - r
  {
    if r < |levels| {
      QueuePositive(levels, maker, r + 1);
    }
  }

  /** Price-time priority of the book's sweep: the `k`-th trade fills the `k`-th order of the priority
      queue with exactly its share, in order; every other order gets nothing. */
  lemma SweepAllocates(levels: Levels, maker: OrderSide, minPrice: int, t: Taker)
    requires AllPositive(levels)
    ensures var es, trades := Queue(levels, maker), Sweep(levels, maker, minPrice, t).trades;
            AreShares(trades, es, maker, minPrice, t) && |es| == Count(levels)
  {
    SweepWalks(levels, maker, minPrice, t);
    QueueIsOrdered(levels, maker, minPrice, t);
    WalkShares(Queue(levels, maker), maker, minPrice, t);
    QueueCounts(levels, maker);
  }

  /** Trade prices move away from the best price and never pass the taker's limit. */
  lemma TradesMonotone(levels: Levels, maker: OrderSide, minPrice: int, t: Taker)
    requires AllPositive(levels)
    ensures var trades := Sweep(levels, maker, minPrice, t).trades;
            && (forall k :: 0 <= k < |trades| ==> Crosses(maker, trades[k].price, t.limit))
            && (forall j, k :: 0 <= j < k < |trades| ==> Crosses(maker, trades[j].price, trades[k].price))
            && (trades != [] ==> trades[0].price == Best(levels, maker) + minPrice)
  {
    SweepAllocates(levels, maker, minPrice, t);
    QueueOrdered(levels, maker, 0);
    var es, trades := Queue(levels, maker), Sweep(levels, maker, minPrice, t).trades;
    hide Queue, Sweep, Best, Count;
    forall j, k | 0 <= j < k < |trades|
      ensures Crosses(maker, trades[j].price, trades[k].price)
    {
      RankCrosses(maker, |levels|, minPrice, es[j].level, es[k].level, t.limit);
    }
    if trades != [] {
      QueueHead(levels, maker);
    }
  }
}
