/** The order book over the pool: price levels as index chains, with cached best
    levels and level counts. Every operation is proved against `PriceTime`. */
module Books {
  import opened Models
  import opened MachineInt
  import opened PriceTime
  import opened Invariants
  import opened Arena
  import opened Images
  import opened Pools

  /** Receives the trades, in order; stands for the trade callback. */
  class TradeLog {
    var trades: seq<Trade>

    constructor ()
      ensures trades == []
    {
      trades := [];
    }

    method OnTrade(t: Trade)
      modifies this
      ensures trades == old(trades) + [t]
    {
      trades := trades + [t];
    }
  }

  /** How many levels are at least as good as `best`; all of them when there is none. */
  function ScanPosition(n: nat, side: OrderSide, best: int): int {
    if best == -1 then n else Rank(side, n, best)
  }

  class OrderBook {
    const minPrice: int
    const maxPrice: int
    const priceLevels: int
    const bids: array<Level>
    const asks: array<Level>
    const pool: OrderPool
    var bidLevelCount: int
    var askLevelCount: int
    var bestBidIndex: int
    var bestAskIndex: int

    ghost var bidChains: seq<seq<int>>
    ghost var askChains: seq<seq<int>>
    ghost var places: seq<Place>
    ghost var scanSteps: nat  // levels looked at by all best-level scans so far

    ghost function Cfg(): Config {
      Config(minPrice, if priceLevels < 0 then 0 else priceLevels, pool.memory.Length)
    }

    ghost predicate Shape() {
      && Cfg().Valid() && maxPrice == Cfg().MaxPrice()
      && bids != asks && bids.Length == asks.Length == priceLevels
    }

    ghost function Img(): Image
      reads `bidChains, `askChains, `places, bids, asks, pool, pool.memory
    {
      Image(pool.memory[..], bids[..], asks[..], bidChains, askChains, places, pool.freeHead, pool.free)
    }

    ghost predicate Structure()
      reads `bidChains, `askChains, `places, bids, asks, pool, pool.memory
    {
      && Shape() && pool.Valid() && |bidChains| == |askChains| == priceLevels
      && Img().Structured(priceLevels)
    }

    ghost function SideView(side: OrderSide): Levels
      reads `bidChains, `askChains, `places, bids, asks, pool, pool.memory
    {
      Img().Side(side)
    }

    /** The resting book that the arrays represent. */
    ghost function Contents(): Book
      reads `bidChains, `askChains, `places, bids, asks, pool, pool.memory
    {
      Book(SideView(Buy), SideView(Sell))
    }

    ghost predicate Trackers()
      reads this, bids, asks, pool, pool.memory
    {
      && Tracked(SideView(Buy), Buy, bidLevelCount, bestBidIndex)
      && Tracked(SideView(Sell), Sell, askLevelCount, bestAskIndex)
    }

    ghost function BestIndex(side: OrderSide): int
      reads this
    {
      if side.Buy? then bestBidIndex else bestAskIndex
    }

    ghost predicate Valid()
      reads this, bids, asks, pool, pool.memory
    {
      && Structure() && Trackers()
      && (forall s :: 0 <= s < |places| ==> places[s] != Detached)
      && AllPositive(SideView(Buy)) && AllPositive(SideView(Sell))
      && |pool.free| + RestingCount(Contents()) == pool.memory.Length
    }

    constructor (minPrice: int, maxPrice: int, poolSize: nat)
      requires minPrice < maxPrice && maxPrice - minPrice + 1 < TWO_31
      requires IsInt64(minPrice) && IsInt64(maxPrice) && 1 <= poolSize
      ensures Valid() && fresh(bids) && fresh(asks) && fresh(pool) && fresh(pool.memory)
      ensures Cfg() == Config(minPrice, maxPrice - minPrice + 1, poolSize)
      ensures Contents() == EmptyBook(Cfg())
    {
      this.minPrice := minPrice;
      this.maxPrice := maxPrice;
      priceLevels := maxPrice - minPrice + 1;
      asks := new Level[maxPrice - minPrice + 1];
      bids := new Level[maxPrice - minPrice + 1];
      pool := new OrderPool(poolSize);
      new;
      Clear();
    }

    /** Back to the empty book, whatever the nodes still hold. */
    method Clear()
      requires Shape() && 1 <= pool.memory.Length
      modifies this, bids, asks, pool, pool.memory
      ensures Valid() && Contents() == EmptyBook(Cfg())
    {
      hide FreeLinked, EmptyLevels, Tracked, RestingCount, AllPositive;
      pool.Reset();
      ghost var mem := pool.memory[..];
      forall i | 0 <= i < bids.Length {
        bids[i] := EMPTY_LEVEL;
      }
      forall i | 0 <= i < asks.Length {
        asks[i] := EMPTY_LEVEL;
      }
      bidLevelCount := 0;
      askLevelCount := 0;
      bestAskIndex := -1;
      bestBidIndex := -1;
      bidChains := seq(priceLevels, _ => []);
      askChains := bidChains;
      places := seq(pool.memory.Length, _ => Free);
      forall s | 0 <= s < |places| ensures s in pool.free {
        FirstSlotsHave(pool.memory.Length, s);
      }
      assert pool.memory[..] == mem;
      assert Blank(Img(), priceLevels);
      hide Blank, Image.Structured;
      BlankStructured(Img(), priceLevels);
    }

    method UpdateBestAskIndex()
      requires asks.Length == priceLevels && 0 <= bestAskIndex < priceLevels
      requires forall i :: 0 <= i <= bestAskIndex ==> asks[i].head == -1
      modifies `bestAskIndex, `scanSteps
      ensures IsBestHead(asks[..], Sell, bestAskIndex)
      ensures scanSteps - old(scanSteps) <=
              ScanPosition(priceLevels, Sell, bestAskIndex) - ScanPosition(priceLevels, Sell, old(bestAskIndex))
    {
      var i := bestAskIndex + 1;
      while i < priceLevels
        invariant old(bestAskIndex) < i <= priceLevels
        invariant forall k :: 0 <= k < i ==> asks[k].head == -1
        invariant bestAskIndex == old(bestAskIndex)
        invariant scanSteps == old(scanSteps) + (i - old(bestAskIndex) - 1)
      {
        scanSteps := scanSteps + 1;
        if asks[i].head != -1 {
          bestAskIndex := i;
          return;
        }
        i := i + 1;
      }
      bestAskIndex := -1;
    }

    method UpdateBestBidIndex()
      requires bids.Length == priceLevels && 0 <= bestBidIndex < priceLevels
      requires forall i :: bestBidIndex <= i < priceLevels ==> bids[i].head == -1
      modifies `bestBidIndex, `scanSteps
      ensures IsBestHead(bids[..], Buy, bestBidIndex)
      ensures scanSteps - old(scanSteps) <=
              ScanPosition(priceLevels, Buy, bestBidIndex) - ScanPosition(priceLevels, Buy, old(bestBidIndex))
    {
      var i := bestBidIndex - 1;
      while i >= 0
        invariant -1 <= i < old(bestBidIndex)
        invariant forall k :: i < k < priceLevels ==> bids[k].head == -1
        invariant bestBidIndex == old(bestBidIndex)
        invariant scanSteps == old(scanSteps) + (old(bestBidIndex) - 1 - i)
      {
        scanSteps := scanSteps + 1;
        if bids[i].head != -1 {
          bestBidIndex := i;
          return;
        }
        i := i - 1;
      }
      bestBidIndex := -1;
    }

    /** The relinking half of `RemoveNode`: join the neighbours of position `k`. */
    method Unlink(book: array<Level>, priceIndex: int, nodeIdx: int, ghost chain: seq<int>, ghost k: nat)
      requires 0 <= priceIndex < book.Length && Linked(pool.memory[..], book[priceIndex], chain)
      requires k < |chain| && chain[k] == nodeIdx
      modifies book, pool.memory
      ensures pool.memory[..] == Unlinked(old(pool.memory[..]), chain, k)
      ensures book[..] == old(book[..])[priceIndex := UnlinkedLevel(old(book[priceIndex]), chain, k)]
    {
      var prev := pool.memory[nodeIdx].prev;
      var next := pool.memory[nodeIdx].next;
      if prev != -1 {
        pool.memory[prev] := pool.memory[prev].(next := next);
      } else {
        book[priceIndex] := book[priceIndex].(head := next);
      }
      if next != -1 {
        pool.memory[next] := pool.memory[next].(prev := prev);
      } else {
        book[priceIndex] := book[priceIndex].(tail := prev);
      }
    }

    /** Take the order at position `k` out of its level's chain; counts and best index are still the old ones. */
    method Detach(book: array<Level>, priceIndex: int, nodeIdx: int, isBid: bool, ghost k: nat)
      requires Structure() && book == (if isBid then bids else asks) && 0 <= priceIndex < priceLevels
      requires var side := if isBid then Buy else Sell;
               k < |Img().Chains(side)[priceIndex]| && nodeIdx == Img().Chains(side)[priceIndex][k]
      requires 0 <= nodeIdx < |places|
      modifies `bidChains, `askChains, `places, book, pool.memory
      ensures Structure() && places == old(places)[nodeIdx := Detached]
      ensures var side := if isBid then Buy else Sell;
              && SideView(side) == old(SideView(side))[priceIndex := Without(old(SideView(side))[priceIndex], k)]
              && SideView(Opposite(side)) == old(SideView(Opposite(side)))
    {
      hide Linked, Holds, SideLinked, FreeLinked, Known, Unlinked, UnlinkedLevel, View, Without;
      ghost var side := if isBid then Buy else Sell;
      ghost var im := Img();
      ghost var chain := im.Chains(side)[priceIndex];
      RemoveKeeps(im, side, priceIndex, k);
      Unlink(book, priceIndex, nodeIdx, chain, k);
      if isBid {
        bidChains := bidChains[priceIndex := Without(chain, k)];
      } else {
        askChains := askChains[priceIndex := Without(chain, k)];
      }
      places := places[nodeIdx := Detached];
      assert Img() == RemoveImage(im, side, priceIndex, k);
    }

    /** Bring a side's level count and best index up to date after an order left level `priceIndex`. */
    method LevelShrunk(book: array<Level>, priceIndex: int, isBid: bool, ghost before: Levels)
      requires Structure() && book == (if isBid then bids else asks) && 0 <= priceIndex < priceLevels
      requires var side := if isBid then Buy else Sell;
               && |before| == priceLevels && before[priceIndex] != []
               && SideView(side) == before[priceIndex := SideView(side)[priceIndex]]
               && (if isBid then Tracked(before, Buy, bidLevelCount, bestBidIndex)
                            else Tracked(before, Sell, askLevelCount, bestAskIndex))
      modifies `bidLevelCount, `askLevelCount, `bestBidIndex, `bestAskIndex, `scanSteps
      ensures isBid ==> Tracked(SideView(Buy), Buy, bidLevelCount, bestBidIndex)
                        && askLevelCount == old(askLevelCount) && bestAskIndex == old(bestAskIndex)
      ensures !isBid ==> Tracked(SideView(Sell), Sell, askLevelCount, bestAskIndex)
                         && bidLevelCount == old(bidLevelCount) && bestBidIndex == old(bestBidIndex)
      ensures var side := if isBid then Buy else Sell;
              scanSteps - old(scanSteps) <= ScanPosition(priceLevels, side, BestIndex(side))
                                          - ScanPosition(priceLevels, side, old(BestIndex(side)))
    {
      hide Depth, Best;
      ghost var side := if isBid then Buy else Sell;
      ghost var now := SideView(side);
      TrackShrunk(before, side, priceIndex, now[priceIndex]);
      HeadsTellSide(Img(), side);
      hide Image.Structured, View;
      if book[priceIndex].head == -1 {
        if isBid {
          bidLevelCount := bidLevelCount - 1;
          if priceIndex == bestBidIndex {
            UpdateBestBidIndex();
          }
        } else {
          askLevelCount := askLevelCount - 1;
          if priceIndex == bestAskIndex {
            UpdateBestAskIndex();
          }
        }
      }
    }

    /** Unlink the order at position `k` of a level; its slot is then in no chain. */
    method RemoveNode(book: array<Level>, priceIndex: int, nodeIdx: int, isBid: bool, ghost k: nat)
      requires Structure() && Trackers()
      requires book == (if isBid then bids else asks) && 0 <= priceIndex < priceLevels
      requires var side := if isBid then Buy else Sell;
               k < |Img().Chains(side)[priceIndex]| && nodeIdx == Img().Chains(side)[priceIndex][k]
      requires 0 <= nodeIdx < |places|
      modifies this, book, pool.memory
      ensures Structure() && Trackers()
      ensures places == old(places)[nodeIdx := Detached]
      ensures var side := if isBid then Buy else Sell;
              && SideView(side) == old(SideView(side))[priceIndex := Without(old(SideView(side))[priceIndex], k)]
              && SideView(Opposite(side)) == old(SideView(Opposite(side)))
              && scanSteps - old(scanSteps) <= ScanPosition(priceLevels, side, BestIndex(side))
                                             - ScanPosition(priceLevels, side, old(BestIndex(side)))
    {
      ghost var side := if isBid then Buy else Sell;
      ghost var before := SideView(side);
      hide Image.Structured, Depth, Best, Without, View, ScanPosition;
      Detach(book, priceIndex, nodeIdx, isBid, k);
      LevelShrunk(book, priceIndex, isBid, before);
    }

    /** Link an initialised node behind the tail of a level that has an order already. */
    method LinkLast(book: array<Level>, priceIndex: int, nodeIdx: int,
                    ghost mem: seq<OrderNode>, ghost node: OrderNode, ghost chain: seq<int>)
      requires 0 <= priceIndex < book.Length && Linked(mem, book[priceIndex], chain) && chain != []
      requires 0 <= nodeIdx < |mem| && nodeIdx !in chain
      requires pool.memory[..] == mem[nodeIdx := node.(next := -1, prev := -1)]
      modifies book, pool.memory
      ensures -1 <= old(book[priceIndex].tail) < |mem|
      ensures pool.memory[..] == Appended(mem, old(book[priceIndex].tail), nodeIdx, node)
      ensures book[..] == old(book[..])[priceIndex := GrownLevel(old(book[priceIndex]), chain, nodeIdx)]
    {
      var tail := book[priceIndex].tail;
      assert tail == chain[|chain| - 1];
      pool.memory[tail] := pool.memory[tail].(next := nodeIdx);
      pool.memory[nodeIdx] := pool.memory[nodeIdx].(prev := tail);
      book[priceIndex] := book[priceIndex].(tail := nodeIdx);
    }

    /** Fill in a rented node and link it at the end of its level; counts and best index are still the old ones. */
    method Attach(order: Order, priceIndex: int, nodeIdx: int) returns (wasEmpty: bool)
      requires Structure() && 0 <= priceIndex < priceLevels
      requires 0 <= nodeIdx < |places| && places[nodeIdx] == Detached
      modifies `bidChains, `askChains, `places, bids, asks, pool.memory
      ensures Structure() && places == old(places)[nodeIdx := At(order.side, priceIndex)]
      ensures Contents() == Added(old(Contents()), order.side, priceIndex,
                                  Resting(order.id, order.price, order.remainingQuantity))
      ensures wasEmpty <==> old(SideView(order.side))[priceIndex] == []
    {
      hide Linked, Holds, SideLinked, FreeLinked, Known, View, Appended;
      ghost var side, im := order.side, Img();
      ghost var node := OrderNode(order.id, order.price, order.remainingQuantity, SideByte(order.side), -1, -1);
      AppendKeeps(im, side, priceIndex, nodeIdx, node);
      HeadsTellSide(im, side);

      var isBuy := order.side == Buy;
      var book := if isBuy then bids else asks;
      pool.memory[nodeIdx] := OrderNode(order.id, order.price, order.remainingQuantity, SideByte(order.side), -1, -1);
      wasEmpty := book[priceIndex].head == -1;
      if wasEmpty {
        book[priceIndex] := Level(nodeIdx, nodeIdx);
      } else {
        LinkLast(book, priceIndex, nodeIdx, im.mem, node, im.Chains(side)[priceIndex]);
      }
      if isBuy {
        bidChains := bidChains[priceIndex := bidChains[priceIndex] + [nodeIdx]];
      } else {
        askChains := askChains[priceIndex := askChains[priceIndex] + [nodeIdx]];
      }
      places := places[nodeIdx := At(side, priceIndex)];
      hide GrownLevel;
      assert Img() == AppendImage(im, side, priceIndex, nodeIdx, node);
    }

    /** Bring a side's level count and best index up to date after level `priceIndex` got an order. */
    method LevelGrown(priceIndex: int, isBuy: bool, wasEmpty: bool, ghost before: Levels)
      requires 0 <= priceIndex < priceLevels && |before| == priceLevels && (wasEmpty <==> before[priceIndex] == [])
      requires var side := if isBuy then Buy else Sell;
               && |SideView(side)| == priceLevels && SideView(side)[priceIndex] != []
               && SideView(side) == before[priceIndex := SideView(side)[priceIndex]]
               && (if isBuy then Tracked(before, Buy, bidLevelCount, bestBidIndex)
                            else Tracked(before, Sell, askLevelCount, bestAskIndex))
      modifies `bidLevelCount, `askLevelCount, `bestBidIndex, `bestAskIndex
      ensures isBuy ==> Tracked(SideView(Buy), Buy, bidLevelCount, bestBidIndex)
                        && askLevelCount == old(askLevelCount) && bestAskIndex == old(bestAskIndex)
      ensures !isBuy ==> Tracked(SideView(Sell), Sell, askLevelCount, bestAskIndex)
                         && bidLevelCount == old(bidLevelCount) && bestBidIndex == old(bestBidIndex)
    {
      ghost var side := if isBuy then Buy else Sell;
      TrackGrown(before, side, priceIndex, SideView(side)[priceIndex]);
      hide Depth, Best, View, Image.Structured;
      if wasEmpty {
        if isBuy {
          bidLevelCount := bidLevelCount + 1;
          if bestBidIndex == -1 || priceIndex > bestBidIndex {
            bestBidIndex := priceIndex;
          }
        } else {
          askLevelCount := askLevelCount + 1;
          if bestAskIndex == -1 || priceIndex < bestAskIndex {
            bestAskIndex := priceIndex;
          }
        }
      }
    }

    /** Put an order into a rented node at the end of its level. */
    method PlaceNode(order: Order, priceIndex: int, nodeIdx: int)
      requires Structure() && Trackers() && 0 <= priceIndex < priceLevels
      requires 0 <= nodeIdx < |places| && places[nodeIdx] == Detached
      modifies this, bids, asks, pool.memory
      ensures Structure() && Trackers()
      ensures places == old(places)[nodeIdx := At(order.side, priceIndex)]
      ensures Contents() == Added(old(Contents()), order.side, priceIndex,
                                  Resting(order.id, order.price, order.remainingQuantity))
      ensures scanSteps == old(scanSteps)
    {
      hide Image.Structured, Depth, Best, View;
      ghost var before := SideView(order.side);
      var wasEmpty := Attach(order, priceIndex, nodeIdx);
      LevelGrown(priceIndex, order.side == Buy, wasEmpty, before);
    }

    /** Rest what remains of an order at the end of its price level; false when no slot is free. */
    method AddToBook(order: Order, priceIndex: int) returns (ok: bool)
      requires Valid() && 0 <= priceIndex < priceLevels && order.remainingQuantity > 0
      modifies this, bids, asks, pool, pool.memory
      ensures Valid()
      ensures ok <==> RestingCount(old(Contents())) < pool.memory.Length
      ensures Contents() ==
              if ok then Added(old(Contents()), order.side, priceIndex,
                               Resting(order.id, order.price, order.remainingQuantity))
              else old(Contents())
      ensures scanSteps == old(scanSteps)
    {
      hide Linked, Holds, SideLinked, FreeLinked, Known, View, Depth, Best, Append, AllPositive;
      ghost var im := Img();
      AppendPositive(SideView(order.side), priceIndex, Resting(order.id, order.price, order.remainingQuantity));
      var nodeIdx := pool.Rent();
      if nodeIdx == -1 {
        assert Img() == im;
        return false;
      }
      RentKeeps(im);
      places := places[nodeIdx := Detached];
      assert Img() == RentImage(im);
      PlaceNode(order, priceIndex, nodeIdx);
      return true;
    }

    /** Give an unlinked slot back to the pool. */
    method GiveBack(nodeIdx: int)
      requires Structure() && 0 <= nodeIdx < |places| && places[nodeIdx] == Detached
      modifies `places, pool, pool.memory
      ensures Structure() && places == old(places)[nodeIdx := Free] && |pool.free| == |old(pool.free)| + 1
      ensures SideView(Buy) == old(SideView(Buy)) && SideView(Sell) == old(SideView(Sell))
    {
      hide Linked, Holds, SideLinked, FreeLinked, Known, View;
      ghost var im := Img();
      ReturnKeeps(im, nodeIdx);
      pool.Return(nodeIdx);
      places := places[nodeIdx := Free];
      assert Img() == ReturnImage(im, nodeIdx);
    }

    /** Unlink the order at the head of a level and give its slot back to the pool. */
    method DropHead(book: array<Level>, bestIndex: int, headIdx: int, isBid: bool)
      requires Structure() && Trackers()
      requires book == (if isBid then bids else asks) && 0 <= bestIndex < priceLevels
      requires var side := if isBid then Buy else Sell;
               0 < |Img().Chains(side)[bestIndex]| && headIdx == Img().Chains(side)[bestIndex][0]
      requires 0 <= headIdx < |places|
      modifies this, book, pool, pool.memory
      ensures Structure() && Trackers()
      ensures places == old(places)[headIdx := Free] && |pool.free| == |old(pool.free)| + 1
      ensures var side := if isBid then Buy else Sell;
              && SideView(side) == old(SideView(side))[bestIndex := Without(old(SideView(side))[bestIndex], 0)]
              && SideView(Opposite(side)) == old(SideView(Opposite(side)))
              && scanSteps - old(scanSteps) <= ScanPosition(priceLevels, side, BestIndex(side))
                                             - ScanPosition(priceLevels, side, old(BestIndex(side)))
    {
      hide Image.Structured, View, Tracked, Without, ScanPosition, OrderPool.Valid, OrderBook.Shape;
      RemoveNode(book, bestIndex, headIdx, isBid, 0);
      GiveBack(headIdx);
    }

    /** Trade `q` against the order at the head of a level; an order that is used up
        leaves the level and its slot goes back to the pool. */
    method TakeFromHead(book: array<Level>, bestIndex: int, headIdx: int, isBid: bool, q: int)
      requires Valid() && 0 <= bestIndex < priceLevels && book == (if isBid then bids else asks)
      requires var side := if isBid then Buy else Sell;
               && SideView(side)[bestIndex] != [] && Img().Chains(side)[bestIndex] != []
               && headIdx == Img().Chains(side)[bestIndex][0] && 0 <= headIdx < |places|
               && 0 < q <= SideView(side)[bestIndex][0].qty
      modifies this, book, pool, pool.memory
      ensures Valid()
      ensures var side := if isBid then Buy else Sell;
              && SideView(side) == old(SideView(side))[bestIndex := Consumed(old(SideView(side))[bestIndex], q)]
              && SideView(Opposite(side)) == old(SideView(Opposite(side)))
              && scanSteps - old(scanSteps) <= ScanPosition(priceLevels, side, BestIndex(side))
                                             - ScanPosition(priceLevels, side, old(BestIndex(side)))
    {
      hide Linked, Holds, SideLinked, FreeLinked, Known, View, Depth, Best, AllPositive, Consumed, SetQuantity;
      hide Without, ScanPosition;
      ghost var side := if isBid then Buy else Sell;
      ghost var im := Img();
      FillKeeps(im, side, bestIndex, 0, im.mem[headIdx].quantity - q);
      FillThenDrop(im.Side(side), bestIndex, q);
      ConsumedPositive(im.Side(side), bestIndex, q);
      assert im.Side(side)[bestIndex][0].qty == im.mem[headIdx].quantity;
      pool.memory[headIdx] := pool.memory[headIdx].(quantity := pool.memory[headIdx].quantity - q);
      assert Img() == FillImage(im, headIdx, im.mem[headIdx].quantity - q);
      if pool.memory[headIdx].quantity == 0 {
        DropHead(book, bestIndex, headIdx, isBid);
      }
    }

    /** One round of the matching loop: trade with the oldest order at the best level. */
    method TradeAtBest(incoming: Order, remaining: int, bestIndex: int, log: TradeLog) returns (left: int)
      requires Valid()
      requires var maker := Opposite(incoming.side);
               && bestIndex == BestIndex(maker)
               && CanMatch(SideView(maker), maker, minPrice, Taker(incoming.id, incoming.price, remaining))
      modifies this, bids, asks, pool, pool.memory, log
      ensures Valid()
      ensures var maker := Opposite(incoming.side);
              var one := MatchOne(old(SideView(maker)), maker, minPrice, Taker(incoming.id, incoming.price, remaining));
              && SideView(maker) == one.levels && left == one.left && log.trades == old(log.trades) + one.trades
              && SideView(incoming.side) == old(SideView(incoming.side))
              && scanSteps - old(scanSteps) <= ScanPosition(priceLevels, maker, BestIndex(maker))
                                             - ScanPosition(priceLevels, maker, old(BestIndex(maker)))
    {
      hide Image.Structured, FreeLinked, Depth, Consumed, Rank, ScanPosition, Best, AllPositive, View;
      hide RestingCount;
      ghost var maker := Opposite(incoming.side);
      ghost var im := Img();
      var isBuy := incoming.side == Buy;
      var oppositeBook := if isBuy then asks else bids;
      ghost var one := MatchOne(im.Side(maker), maker, minPrice, Taker(incoming.id, incoming.price, remaining));
      BestHasOrders(im.Side(maker), maker);
      HeadOfLevel(im, maker, bestIndex);
      var headIdx := oppositeBook[bestIndex].head;
      var tradeQuantity := Min(remaining, pool.memory[headIdx].quantity);
      assert tradeQuantity == one.trades[0].quantity;
      log.OnTrade(Trade(bestIndex + minPrice, tradeQuantity, pool.memory[headIdx].id, incoming.id));
      left := remaining - tradeQuantity;
      TakeFromHead(oppositeBook, bestIndex, headIdx, !isBuy, tradeQuantity);
    }

    /** The matching loop: trade until the order is filled or nothing acceptable rests. */
    method MatchLoop(incoming: Order, log: TradeLog) returns (remaining: int)
      requires Valid()
      modifies this, bids, asks, pool, pool.memory, log
      ensures Valid()
      ensures var maker := Opposite(incoming.side);
              var s := Sweep(old(SideView(maker)), maker, minPrice,
                             Taker(incoming.id, incoming.price, incoming.remainingQuantity));
              && SideView(maker) == s.levels && remaining == s.left && log.trades == old(log.trades) + s.trades
              && SideView(incoming.side) == old(SideView(incoming.side))
      ensures scanSteps - old(scanSteps) <= priceLevels
    {
      hide Image.Structured, FreeLinked, Depth, Consumed, Sweep, MatchOne, Sweeping, Best;
      ghost var maker := Opposite(incoming.side);
      ghost var whole := Sweep(SideView(maker), maker, minPrice,
                               Taker(incoming.id, incoming.price, incoming.remainingQuantity));
      ghost var done: seq<Trade> := [];
      var isBuy := incoming.side == Buy;
      remaining := incoming.remainingQuantity;
      DepthTells(SideView(maker), maker);
      SweepingStart(SideView(maker), maker, minPrice, Taker(incoming.id, incoming.price, remaining));
      while remaining > 0 && (if isBuy then askLevelCount else bidLevelCount) > 0
        invariant Valid()
        invariant SideView(incoming.side) == old(SideView(incoming.side))
        invariant log.trades == old(log.trades) + done
        invariant Sweeping(whole, done, SideView(maker), maker, minPrice, Taker(incoming.id, incoming.price, remaining))
        invariant -1 <= BestIndex(maker) < priceLevels
        invariant scanSteps - old(scanSteps) <= ScanPosition(priceLevels, maker, BestIndex(maker))
        decreases remaining
      {
        ghost var levels, t := SideView(maker), Taker(incoming.id, incoming.price, remaining);
        SweepingStep(whole, done, levels, maker, minPrice, t);
        DepthTells(levels, maker);
        var bestIndex := if isBuy then bestAskIndex else bestBidIndex;
        if bestIndex == -1 {
          break;
        }
        var bestPrice := bestIndex + minPrice;
        var canMatch := if isBuy then bestPrice <= incoming.price else bestPrice >= incoming.price;
        if !canMatch {
          break;
        }
        ghost var one := MatchOne(levels, maker, minPrice, t);
        remaining := TradeAtBest(incoming, remaining, bestIndex, log);
        done := done + one.trades;
        DepthTells(SideView(maker), maker);
      }
      DepthTells(SideView(maker), maker);
      SweepingStep(whole, done, SideView(maker), maker, minPrice, Taker(incoming.id, incoming.price, remaining));
    }

    /** Match an order against the other side and rest what is left. */
    method ProcessOrder(incoming: Order, log: TradeLog) returns (result: OrderResult)
      requires Valid()
      modifies this, bids, asks, pool, pool.memory, log
      ensures Valid()
      ensures var o := Step(Cfg(), old(Contents()), incoming);
              Contents() == o.book && result == o.result && log.trades == old(log.trades) + o.trades
      ensures scanSteps - old(scanSteps) <= priceLevels
    {
      hide Image.Structured, FreeLinked, Depth, Best, Sweep, AllPositive, Append;
      var priceIndex := Wrap32(Wrap64(incoming.price - minPrice));
      if priceIndex < 0 || priceIndex >= priceLevels {
        return RejectedPriceOutOfRange;
      }
      var remaining := MatchLoop(incoming, log);
      if remaining > 0 {
        var ok := AddToBook(incoming.(remainingQuantity := remaining), priceIndex);
        if !ok {
          return RejectedPoolExhausted;
        }
      }
      return Success;
    }

    method GetDepths() returns (bidCount: int, askCount: int)
      requires Valid()
      ensures bidCount == Depth(SideView(Buy)) && askCount == Depth(SideView(Sell))
    {
      return bidLevelCount, askLevelCount;
    }

    method GetBestBidPrice() returns (price: int)
      requires Valid()
      ensures price == BestPrice(SideView(Buy), Buy, minPrice)
    {
      price := if bestBidIndex == -1 then -1 else bestBidIndex + minPrice;
    }

    method GetBestAskPrice() returns (price: int)
      requires Valid()
      ensures price == BestPrice(SideView(Sell), Sell, minPrice)
    {
      price := if bestAskIndex == -1 then -1 else bestAskIndex + minPrice;
    }

    /** Clear the book and run a sequence of orders through it: from whatever state the book was
        in, the outcome is that of the specification from the empty book. */
    method MatchOrders(orders: seq<Order>, log: TradeLog) returns (results: seq<OrderResult>)
      requires Shape() && 1 <= pool.memory.Length
      modifies this, bids, asks, pool, pool.memory, log
      ensures Valid() && WellFormed(Cfg(), EmptyBook(Cfg()))
      ensures var r := RunOrders(Cfg(), EmptyBook(Cfg()), orders);
              Contents() == r.book && results == r.results && log.trades == old(log.trades) + r.trades
      ensures Levelled(Cfg(), Contents())
    {
      hide OrderBook.Structure, OrderBook.Trackers, OrderBook.SideView, OrderBook.Contents;
      hide AllPositive, RestingCount, Step, RunOrders, WellFormed, EmptyBook;
      Clear();
      EmptyBookWellFormed(Cfg());
      ghost var c, start := Cfg(), EmptyBook(Cfg());
      results := [];
      var i := 0;
      RunNothing(c, start);
      while i < |orders|
        invariant 0 <= i <= |orders| && Valid()
        invariant var r := RunOrders(c, start, orders[..i]);
                  Contents() == r.book && results == r.results && log.trades == old(log.trades) + r.trades
      {
        RunSnoc(c, start, orders[..i], orders[i]);
        var result := ProcessOrder(orders[i], log);
        results := results + [result];
        assert orders[..i] + [orders[i]] == orders[..i + 1];
        i := i + 1;
      }
      assert orders[..i] == orders;
      FreshBookKeeps(c);
      RunLevelled(c, start, orders);
    }

    lemma ContentsWellFormed()
      requires Valid()
      ensures WellFormed(Cfg(), Contents())
    {
    }

    /** Between calls every slot of the pool is in exactly one chain: the free list or one level of one side. */
    lemma EverySlotInOneChain(s: int)
      requires Valid() && 0 <= s < pool.memory.Length
      ensures exists p :: InChain(Img(), s, p)
      ensures forall p, q :: InChain(Img(), s, p) && InChain(Img(), s, q) ==> p == q
    {
      OneChain(Img(), s);
    }

    /** Between calls the cached best indices and level counts are what a scan of the level arrays would give. */
    lemma TrackersMatchScan()
      requires Valid()
      ensures IsBestHead(bids[..], Buy, bestBidIndex) && IsBestHead(asks[..], Sell, bestAskIndex)
      ensures bidLevelCount == NonEmpty(bids[..]) && askLevelCount == NonEmpty(asks[..])
    {
      HeadsTellSide(Img(), Buy);
      HeadsTellSide(Img(), Sell);
      hide Image.Structured, View, Best, Depth;
      ScanTells(bids[..], SideView(Buy), Buy);
      ScanTells(asks[..], SideView(Sell), Sell);
    }

    /** Between calls each level is a doubly linked chain with its true ends, and each of its nodes has the level's
        side and a positive quantity. */
    lemma LevelLinked(side: OrderSide, i: nat)
      requires Valid() && i < priceLevels
      ensures |Img().Chains(side)| == |Img().Levels(side)| == priceLevels
      ensures var chain := Img().Chains(side)[i];
              && Linked(pool.memory[..], Img().Levels(side)[i], chain)
              && forall k :: 0 <= k < |chain| ==>
                   var node := pool.memory[..][chain[k]]; node.side == SideByte(side) && node.quantity > 0
    {
      Parts(Img(), side);
      assert SideView(side)[i] == HeldChain(pool.memory[..], Img().Chains(side)[i]);
    }

    /** After any run of orders each node's price selects the level it hangs in, and is the price of that level
        exactly when the cast did not fold it into the window. */
    lemma NodePrices(side: OrderSide, i: nat, k: nat)
      requires Valid() && Levelled(Cfg(), Contents()) && i < priceLevels
      requires |Img().Chains(side)| == priceLevels && k < |Img().Chains(side)[i]|
      ensures 0 <= Img().Chains(side)[i][k] < pool.memory.Length
      ensures var node := pool.memory[..][Img().Chains(side)[i][k]];
              && Cfg().PriceIndex(node.price) == i
              && (node.price == minPrice + i <==> !Aliased(Cfg(), node.price))
    {
      LevelLinked(side, i);
      var chain := Img().Chains(side)[i];
      assert SideView(side)[i] == HeldChain(pool.memory[..], chain);
      assert SideView(side)[i][k] == Held(pool.memory[..][chain[k]]);
      assert Contents().Side(side)[i][k].price == pool.memory[..][chain[k]].price;
      hide Image.Structured, Linked, View, AllPositive;
      AcceptedLevel(Cfg(), pool.memory[..][chain[k]].price);
    }
  }

  /** A book, or none when the price range is empty or a single price: the constructor throws then. */
  method CreateOrderBook(minPrice: int, maxPrice: int, poolSize: nat) returns (book: OrderBook?)
    requires minPrice < maxPrice ==> maxPrice - minPrice + 1 < TWO_31
    requires IsInt64(minPrice) && IsInt64(maxPrice) && 1 <= poolSize
    ensures book == null <==> minPrice >= maxPrice
    ensures book != null ==>
              && fresh(book) && book.Valid() && book.Cfg() == Config(minPrice, maxPrice - minPrice + 1, poolSize)
              && book.Contents() == EmptyBook(book.Cfg())
  {
    if minPrice >= maxPrice {
      return null;
    }
    book := new OrderBook(minPrice, maxPrice, poolSize);
  }
}
