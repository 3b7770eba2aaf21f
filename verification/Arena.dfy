/** Chains of slots threaded through one node array by index, as plain values: what it means for a chain to be well
    linked, and what one unlink or append does. The free list uses only the next index; a price level is linked both
    ways and has its two ends beside it. A place for every slot says which chain it is in, and keeps the chains
    apart: a write to a slot in one place leaves the chains of all other places alone. */
module Arena {
  import opened Models
  import opened PriceTime
  import opened Sums

  /** Head and tail slot of a price level, -1 for none. */
  datatype Level = Level(head: int, tail: int)

  const EMPTY_LEVEL := Level(-1, -1)

  /** Which chain a slot belongs to; a detached slot is in none. */
  datatype Place = Free | Detached | At(side: OrderSide, level: int)

  predicate Distinct(chain: seq<int>) {
    forall i, j :: 0 <= i < j < |chain| ==> chain[i] != chain[j]
  }

  predicate InRange(n: nat, chain: seq<int>) {
    forall k :: 0 <= k < |chain| ==> 0 <= chain[k] < n
  }

  /** The slot at position `k` of a chain, -1 beyond either end. */
  function Slot(chain: seq<int>, k: int): int {
    if 0 <= k < |chain| then chain[k] else -1
  }

  /** A doubly linked level: Next and Prev agree with the chain, Head and Tail are its ends. */
  predicate Linked(mem: seq<OrderNode>, l: Level, chain: seq<int>) {
    && InRange(|mem|, chain) && Distinct(chain)
    && l == Level(Slot(chain, 0), Slot(chain, |chain| - 1))
    && forall k :: 0 <= k < |chain| ==>
         mem[chain[k]].next == Slot(chain, k + 1) && mem[chain[k]].prev == Slot(chain, k - 1)
  }

  /** The free list uses only Next. */
  predicate FreeLinked(mem: seq<OrderNode>, head: int, chain: seq<int>) {
    && InRange(|mem|, chain) && Distinct(chain)
    && head == Slot(chain, 0)
    && forall k :: 0 <= k < |chain| ==> mem[chain[k]].next == Slot(chain, k + 1)
  }

  lemma PushFree(mem: seq<OrderNode>, head: int, chain: seq<int>, s: int)
    requires FreeLinked(mem, head, chain) && 0 <= s < |mem| && s !in chain
    ensures FreeLinked(mem[s := mem[s].(next := head)], s, [s] + chain)
  {
    var c, m := [s] + chain, mem[s := mem[s].(next := head)];
    forall k | 0 <= k < |c|
      ensures 0 <= c[k] < |m| && m[c[k]].next == Slot(c, k + 1)
    {
      if k > 0 {
        assert c[k] == chain[k - 1];
      }
    }
  }

  lemma PopFree(mem: seq<OrderNode>, head: int, chain: seq<int>, node: OrderNode)
    requires FreeLinked(mem, head, chain) && chain != []
    ensures chain[0] == head && 0 <= head < |mem|
    ensures FreeLinked(mem[head := node], mem[head].next, chain[1..])
  {
    var c := chain[1..];
    assert forall k :: 0 <= k < |c| ==> c[k] == chain[k + 1] && c[k] != head;
  }

  /** The chain holds exactly the slots whose place is `p`. */
  predicate Holds(places: seq<Place>, chain: seq<int>, p: Place) {
    && InRange(|places|, chain)
    && (forall k :: 0 <= k < |chain| ==> places[chain[k]] == p)
    && (forall s :: 0 <= s < |places| && places[s] == p ==> s in chain)
  }

  /** One side of the book: every level is linked, and holds exactly the slots placed there. */
  predicate SideLinked(mem: seq<OrderNode>, levels: seq<Level>, chains: seq<seq<int>>,
                       places: seq<Place>, side: OrderSide) {
    && |levels| == |chains| && |places| == |mem|
    && (forall i :: 0 <= i < |chains| ==> Linked(mem, levels[i], chains[i]))
    && (forall i :: 0 <= i < |chains| ==> Holds(places, chains[i], At(side, i)))
    && (forall i, k :: 0 <= i < |chains| && 0 <= k < |chains[i]| ==> mem[chains[i][k]].side == SideByte(side))
  }

  function Held(node: OrderNode): Resting {
    Resting(node.id, node.price, node.quantity)
  }

  /** The orders a chain holds; slots outside the array, which no linked chain has, hold nothing. */
  function HeldChain(mem: seq<OrderNode>, chain: seq<int>): (r: seq<Resting>)
    ensures |r| == |chain|
    ensures forall k :: 0 <= k < |chain| && 0 <= chain[k] < |mem| ==> r[k] == Held(mem[chain[k]])
  {
    seq(|chain|, k requires 0 <= k < |chain| =>
      if 0 <= chain[k] < |mem| then Held(mem[chain[k]]) else Resting(0, 0, 0))
  }

  /** The resting orders that one side of the array represents. */
  function View(mem: seq<OrderNode>, chains: seq<seq<int>>): (r: Levels)
    ensures |r| == |chains| && forall i :: 0 <= i < |chains| ==> r[i] == HeldChain(mem, chains[i])
  {
    seq(|chains|, i requires 0 <= i < |chains| => HeldChain(mem, chains[i]))
  }

  // ---------- Unlinking ----------

  function Without<T>(chain: seq<T>, k: nat): seq<T>
    requires k < |chain|
  {
    chain[..k] + chain[k + 1..]
  }

  function SetNext(mem: seq<OrderNode>, s: int, next: int): (r: seq<OrderNode>)
    requires 0 <= s < |mem|
    ensures |r| == |mem|
  {
    mem[s := mem[s].(next := next)]
  }

  function SetPrev(mem: seq<OrderNode>, s: int, prev: int): (r: seq<OrderNode>)
    requires 0 <= s < |mem|
    ensures |r| == |mem|
  {
    mem[s := mem[s].(prev := prev)]
  }

  /** The array after the neighbours of `s` have been joined. */
  function Bypassed(mem: seq<OrderNode>, prev: int, next: int): (r: seq<OrderNode>)
    requires -1 <= prev < |mem| && -1 <= next < |mem|
    ensures |r| == |mem|
  {
    var m := if prev != -1 then SetNext(mem, prev, next) else mem;
    if next != -1 then SetPrev(m, next, prev) else m
  }

  function BypassedLevel(l: Level, prev: int, next: int): Level {
    Level(if prev != -1 then l.head else next, if next != -1 then l.tail else prev)
  }

  lemma BypassedNode(mem: seq<OrderNode>, prev: int, next: int, s: int)
    requires -1 <= prev < |mem| && -1 <= next < |mem| && 0 <= s < |mem|
    ensures Bypassed(mem, prev, next)[s] ==
            mem[s].(next := if s == prev then next else mem[s].next, prev := if s == next then prev else mem[s].prev)
  {
  }

  lemma WithoutAt(chain: seq<int>, k: nat)
    requires Distinct(chain) && k < |chain|
    ensures Distinct(Without(chain, k))
    ensures forall j :: 0 <= j < |chain| - 1 ==> Without(chain, k)[j] == chain[if j < k then j else j + 1]
    ensures forall s :: s in Without(chain, k) <==> s in chain && s != chain[k]
  {
    var c := Without(chain, k);
    forall s | s in chain && s != chain[k]
      ensures s in c
    {
      var j :| 0 <= j < |chain| && chain[j] == s;
      assert c[if j < k then j else j - 1] == s;
    }
  }

  lemma SlotIs(chain: seq<int>, i: nat)
    requires i < |chain|
    ensures Slot(chain, i) == chain[i]
  {
  }

  lemma SlotWithout(chain: seq<int>, k: nat, j: int)
    requires k < |chain|
    ensures j < k ==> Slot(Without(chain, k), j) == Slot(chain, j)
    ensures j >= k ==> Slot(Without(chain, k), j) == Slot(chain, j + 1)
  {
  }

  /** The links of the slots that stay, after the neighbours of position `k` are joined. */
  lemma UnlinkLinks(mem: seq<OrderNode>, l: Level, chain: seq<int>, k: nat, i: nat)
    requires Linked(mem, l, chain) && k < |chain| && i < |chain| && i != k
    ensures var n := Bypassed(mem, Slot(chain, k - 1), Slot(chain, k + 1))[chain[i]];
            && n.next == Slot(chain, if i == k - 1 then k + 1 else i + 1)
            && n.prev == Slot(chain, if i == k + 1 then k - 1 else i - 1)
  {
    BypassedNode(mem, Slot(chain, k - 1), Slot(chain, k + 1), chain[i]);
  }

  lemma UnlinkNode(mem: seq<OrderNode>, l: Level, chain: seq<int>, k: nat, j: nat)
    requires Linked(mem, l, chain) && k < |chain| && j < |chain| - 1
    requires 0 <= Slot(Without(chain, k), j) < |mem|
    ensures var c := Without(chain, k);
            var n := Bypassed(mem, Slot(chain, k - 1), Slot(chain, k + 1))[Slot(c, j)];
            n.next == Slot(c, j + 1) && n.prev == Slot(c, j - 1)
  {
    hide Linked, Slot, Without, Bypassed;
    SlotIs(chain, if j < k then j else j + 1);
    SlotWithout(chain, k, j);
    SlotWithout(chain, k, j + 1);
    SlotWithout(chain, k, j - 1);
    if j < k {
      UnlinkLinks(mem, l, chain, k, j);
    } else {
      UnlinkLinks(mem, l, chain, k, j + 1);
    }
  }

  /** Joining the neighbours touches only the links of slots that stay in the chain. */
  lemma UnlinkFrame(mem: seq<OrderNode>, l: Level, chain: seq<int>, k: nat, s: nat)
    requires Linked(mem, l, chain) && k < |chain| && s < |mem|
    ensures var m := Bypassed(mem, Slot(chain, k - 1), Slot(chain, k + 1));
            && m[s] == mem[s].(next := m[s].next, prev := m[s].prev)
            && (s !in Without(chain, k) ==> m[s] == mem[s])
  {
    var prev, next := Slot(chain, k - 1), Slot(chain, k + 1);
    BypassedNode(mem, prev, next, s);
    WithoutAt(chain, k);
  }

  /** Unlinking position `k` of a chain takes exactly that slot out and touches no slot outside the chain. */
  lemma UnlinkChain(mem: seq<OrderNode>, l: Level, chain: seq<int>, k: nat)
    requires Linked(mem, l, chain) && k < |chain|
    ensures var prev, next := Slot(chain, k - 1), Slot(chain, k + 1);
            var m := Bypassed(mem, prev, next);
            && Linked(m, BypassedLevel(l, prev, next), Without(chain, k))
            && (forall s :: 0 <= s < |mem| && s !in Without(chain, k) ==> m[s] == mem[s])
            && (forall s :: 0 <= s < |mem| ==> m[s] == mem[s].(next := m[s].next, prev := m[s].prev))
  {
    var m := Bypassed(mem, Slot(chain, k - 1), Slot(chain, k + 1));
    var c := Without(chain, k);
    assert Distinct(c) && InRange(|mem|, c) by {
      WithoutAt(chain, k);
    }
    forall j | 0 <= j < |c|
      ensures m[c[j]].next == Slot(c, j + 1) && m[c[j]].prev == Slot(c, j - 1)
    {
      UnlinkNode(mem, l, chain, k, j);
    }
    forall s | 0 <= s < |mem|
      ensures m[s] == mem[s].(next := m[s].next, prev := m[s].prev)
      ensures s !in c ==> m[s] == mem[s]
    {
      UnlinkFrame(mem, l, chain, k, s);
    }
  }

  /** The array after slot `s` has been appended behind `tail`. */
  function Appended(mem: seq<OrderNode>, tail: int, s: int, node: OrderNode): (r: seq<OrderNode>)
    requires 0 <= s < |mem| && -1 <= tail < |mem|
    ensures |r| == |mem|
  {
    if tail == -1 then mem[s := node.(next := -1, prev := -1)]
    else SetNext(mem, tail, s)[s := node.(next := -1, prev := tail)]
  }

  lemma AppendChain(mem: seq<OrderNode>, l: Level, chain: seq<int>, s: int, node: OrderNode)
    requires Linked(mem, l, chain) && 0 <= s < |mem| && s !in chain
    ensures var m := Appended(mem, l.tail, s, node);
            && Linked(m, Level(if chain == [] then s else l.head, s), chain + [s])
            && (forall t :: 0 <= t < |mem| && t !in chain && t != s ==> m[t] == mem[t])
            && (forall t :: 0 <= t < |mem| && t != s ==> m[t] == mem[t].(next := m[t].next))
            && Held(m[s]) == Held(node)
  {
    var m := Appended(mem, l.tail, s, node);
    var c := chain + [s];
    forall j | 0 <= j < |c|
      ensures m[c[j]].next == Slot(c, j + 1) && m[c[j]].prev == Slot(c, j - 1)
    {
      if j < |chain| {
        assert c[j] == chain[j];
      }
    }
  }

  // ---------- Effect on a whole side ----------

  lemma ChainUntouched(mem: seq<OrderNode>, mem': seq<OrderNode>, l: Level, chain: seq<int>,
                       places: seq<Place>, places': seq<Place>, p: Place)
    requires Linked(mem, l, chain) && Holds(places, chain, p)
    requires |mem| == |mem'| == |places| == |places'|
    requires forall s :: 0 <= s < |mem| && places[s] == p ==> mem'[s] == mem[s]
    requires forall s :: 0 <= s < |mem| ==> (places[s] == p <==> places'[s] == p)
    ensures Linked(mem', l, chain) && Holds(places', chain, p)
    ensures HeldChain(mem', chain) == HeldChain(mem, chain)
    ensures forall k :: 0 <= k < |chain| ==> mem'[chain[k]] == mem[chain[k]]
  {
    forall k | 0 <= k < |chain|
      ensures mem'[chain[k]] == mem[chain[k]]
    {
      assert places[chain[k]] == p;
    }
  }

  /** A side that lies wholly outside the changed slots is unaffected. */
  lemma SideUntouched(mem: seq<OrderNode>, mem': seq<OrderNode>, levels: seq<Level>, chains: seq<seq<int>>,
                      places: seq<Place>, places': seq<Place>, side: OrderSide)
    requires SideLinked(mem, levels, chains, places, side)
    requires |mem'| == |mem| == |places'|
    requires forall s :: 0 <= s < |mem| && places[s].At? && places[s].side == side ==> mem'[s] == mem[s]
    requires forall s :: 0 <= s < |mem| && (places[s] != places'[s]) ==>
               !(places[s].At? && places[s].side == side) && !(places'[s].At? && places'[s].side == side)
    ensures SideLinked(mem', levels, chains, places', side)
    ensures View(mem', chains) == View(mem, chains)
  {
    forall i | 0 <= i < |chains|
      ensures Linked(mem', levels[i], chains[i]) && Holds(places', chains[i], At(side, i))
      ensures HeldChain(mem', chains[i]) == HeldChain(mem, chains[i])
    {
      assert Holds(places, chains[i], At(side, i));
      ChainUntouched(mem, mem', levels[i], chains[i], places, places', At(side, i));
    }
  }

  /** One level of a side changed; the others lie outside the changed slots. */
  lemma SideChanged(mem: seq<OrderNode>, mem': seq<OrderNode>, levels: seq<Level>, chains: seq<seq<int>>,
                    places: seq<Place>, places': seq<Place>, side: OrderSide, p: nat, l: Level, chain: seq<int>)
    requires SideLinked(mem, levels, chains, places, side) && p < |chains|
    requires |mem'| == |mem| == |places'|
    requires Linked(mem', l, chain) && Holds(places', chain, At(side, p))
    requires forall k :: 0 <= k < |chain| ==> mem'[chain[k]].side == SideByte(side)
    requires forall s :: 0 <= s < |mem| && places[s].At? && places[s] != At(side, p) ==> mem'[s] == mem[s]
    requires forall s :: 0 <= s < |mem| && places[s] != places'[s] ==>
               (!places[s].At? || places[s] == At(side, p)) && (!places'[s].At? || places'[s] == At(side, p))
    ensures SideLinked(mem', levels[p := l], chains[p := chain], places', side)
    ensures View(mem', chains[p := chain]) == View(mem, chains)[p := HeldChain(mem', chain)]
  {
    hide Holds;
    forall i | 0 <= i < |chains| && i != p
      ensures Linked(mem', levels[i], chains[i]) && Holds(places', chains[i], At(side, i))
      ensures HeldChain(mem', chains[i]) == HeldChain(mem, chains[i])
      ensures forall k :: 0 <= k < |chains[i]| ==> mem'[chains[i][k]].side == SideByte(side)
    {
      assert Holds(places, chains[i], At(side, i));
      ChainUntouched(mem, mem', levels[i], chains[i], places, places', At(side, i));
    }
  }

  /** What a scan of the level array for the best non-empty level must find. */
  predicate IsBestHead(levels: seq<Level>, side: OrderSide, b: int) {
    && (b == -1 || (0 <= b < |levels| && levels[b].head != -1))
    && (forall i :: 0 <= i < |levels| && (b == -1 || Better(side, i, b)) ==> levels[i].head == -1)
  }

  /** A level is empty exactly when its head says so, and so the scan finds the best level. */
  lemma HeadsTell(mem: seq<OrderNode>, levels: seq<Level>, chains: seq<seq<int>>, places: seq<Place>, side: OrderSide)
    requires SideLinked(mem, levels, chains, places, side)
    ensures |View(mem, chains)| == |levels|
    ensures forall i :: 0 <= i < |levels| ==> (levels[i].head == -1 <==> View(mem, chains)[i] == [])
    ensures forall b :: IsBestHead(levels, side, b) ==> b == Best(View(mem, chains), side)
  {
    var v := View(mem, chains);
    forall i | 0 <= i < |levels|
      ensures levels[i].head == -1 <==> v[i] == []
    {
      assert Linked(mem, levels[i], chains[i]);
    }
    forall b | IsBestHead(levels, side, b)
      ensures b == Best(v, side)
    {
      BestCharacterised(v, side, b);
    }
  }

  function HeadCounts(l: Level): int {
    if l.head == -1 then 0 else 1
  }

  /** How many levels of the array are not empty. */
  function NonEmpty(levels: seq<Level>): int {
    SumBy(levels, HeadCounts)
  }

  lemma {:induction false} SameWeights<S, T>(xs: seq<S>, ys: seq<T>, weight: S -> int, weight': T -> int)
    requires |xs| == |ys| && forall k :: 0 <= k < |xs| ==> weight(xs[k]) == weight'(ys[k])
    ensures SumBy(xs, weight) == SumBy(ys, weight')
  {
    if xs != [] {
      SameWeights(xs[1..], ys[1..], weight, weight');
    }
  }

  /** A scan of the array gives the depth and the best level of the orders it represents. */
  lemma ScanTells(levels: seq<Level>, orders: Levels, side: OrderSide)
    requires |levels| == |orders|
    requires forall i :: 0 <= i < |levels| ==> (levels[i].head == -1 <==> orders[i] == [])
    ensures NonEmpty(levels) == Depth(orders) && IsBestHead(levels, side, Best(orders, side))
  {
    SameWeights(levels, orders, HeadCounts, Presence);
    BestCharacterised(orders, side, Best(orders, side));
  }

  lemma EmptySide(mem: seq<OrderNode>, levels: seq<Level>, chains: seq<seq<int>>, places: seq<Place>, side: OrderSide)
    requires |levels| == |chains| && |places| == |mem|
    requires forall i :: 0 <= i < |levels| ==> levels[i] == EMPTY_LEVEL && chains[i] == []
    requires forall s :: 0 <= s < |places| ==> places[s] == Free
    ensures SideLinked(mem, levels, chains, places, side)
    ensures View(mem, chains) == EmptyLevels(|levels|)
    ensures Count(View(mem, chains)) == Depth(View(mem, chains)) == 0 && Best(View(mem, chains), side) == -1
  {
    assert View(mem, chains) == EmptyLevels(|levels|);
    AllEmptySum(View(mem, chains), Length);
    AllEmptySum(View(mem, chains), Presence);
    BestCharacterised(View(mem, chains), side, -1);
  }

  /** The array after position `k` of a chain has been unlinked. */
  function Unlinked(mem: seq<OrderNode>, chain: seq<int>, k: nat): (r: seq<OrderNode>)
    requires InRange(|mem|, chain)
    ensures |r| == |mem|
  {
    Bypassed(mem, Slot(chain, k - 1), Slot(chain, k + 1))
  }

  function UnlinkedLevel(l: Level, chain: seq<int>, k: nat): Level {
    BypassedLevel(l, Slot(chain, k - 1), Slot(chain, k + 1))
  }

  lemma RemoveFromChain(mem: seq<OrderNode>, l: Level, chain: seq<int>, places: seq<Place>, p: Place, side: int, k: nat)
    requires Linked(mem, l, chain) && Holds(places, chain, p) && |places| == |mem| && k < |chain| && p != Detached
    requires forall j :: 0 <= j < |chain| ==> mem[chain[j]].side == side
    ensures var m, c := Unlinked(mem, chain, k), Without(chain, k);
            && Linked(m, UnlinkedLevel(l, chain, k), c)
            && Holds(places[chain[k] := Detached], c, p)
            && HeldChain(m, c) == Without(HeldChain(mem, chain), k)
            && (forall j :: 0 <= j < |c| ==> m[c[j]].side == side)
            && (forall t :: 0 <= t < |mem| && (places[t] != p || t == chain[k]) ==> m[t] == mem[t])
  {
    UnlinkChain(mem, l, chain, k);
    RemovedHolds(places, chain, k, p);
    RemovedView(mem, Unlinked(mem, chain, k), chain, k);
    RemovedSides(mem, Unlinked(mem, chain, k), chain, k, side);
    hide Linked, Holds, Without, HeldChain, Slot, Bypassed;
  }

  /** Taking one order out of a level: the side stays well linked, and its view loses just that order. */
  lemma RemoveFromSide(mem: seq<OrderNode>, levels: seq<Level>, chains: seq<seq<int>>, places: seq<Place>,
                       side: OrderSide, p: nat, k: nat)
    requires SideLinked(mem, levels, chains, places, side)
    requires p < |chains| && k < |chains[p]|
    ensures Linked(mem, levels[p], chains[p])
    ensures var m, c := Unlinked(mem, chains[p], k), Without(chains[p], k);
            && SideLinked(m, levels[p := UnlinkedLevel(levels[p], chains[p], k)], chains[p := c],
                          places[chains[p][k] := Detached], side)
            && View(m, chains[p := c]) == View(mem, chains)[p := Without(View(mem, chains)[p], k)]
            && (forall t :: 0 <= t < |mem| && (places[t] != At(side, p) || t == chains[p][k]) ==> m[t] == mem[t])
  {
    hide Linked, BypassedLevel;
    var chain := chains[p];
    assert Linked(mem, levels[p], chain) && Holds(places, chain, At(side, p));
    RemoveFromChain(mem, levels[p], chain, places, At(side, p), SideByte(side), k);
    SideChanged(mem, Unlinked(mem, chain, k), levels, chains, places, places[chain[k] := Detached], side, p,
                UnlinkedLevel(levels[p], chain, k), Without(chain, k));
  }

  lemma RemovedHolds(places: seq<Place>, chain: seq<int>, k: nat, p: Place)
    requires Holds(places, chain, p) && Distinct(chain) && k < |chain| && p != Detached
    ensures Holds(places[chain[k] := Detached], Without(chain, k), p)
    ensures chain[k] !in Without(chain, k)
    ensures forall s :: s in Without(chain, k) ==> 0 <= s < |places| && places[s] == p
  {
    WithoutAt(chain, k);
  }

  lemma RemovedSides(mem: seq<OrderNode>, mem': seq<OrderNode>, chain: seq<int>, k: nat, side: int)
    requires InRange(|mem|, chain) && Distinct(chain) && k < |chain| && |mem'| == |mem|
    requires forall j :: 0 <= j < |chain| ==> mem[chain[j]].side == side
    requires forall s :: 0 <= s < |mem| ==> mem'[s] == mem[s].(next := mem'[s].next, prev := mem'[s].prev)
    ensures var c := Without(chain, k);
            InRange(|mem|, c) && forall j :: 0 <= j < |c| ==> mem'[c[j]].side == side
  {
    WithoutAt(chain, k);
  }

  lemma RemovedView(mem: seq<OrderNode>, mem': seq<OrderNode>, chain: seq<int>, k: nat)
    requires InRange(|mem|, chain) && k < |chain| && |mem'| == |mem|
    requires forall s :: 0 <= s < |mem| ==> mem'[s] == mem[s].(next := mem'[s].next, prev := mem'[s].prev)
    ensures InRange(|mem|, Without(chain, k))
    ensures HeldChain(mem', Without(chain, k)) == Without(HeldChain(mem, chain), k)
  {
  }

  // ---------- Filling and appending ----------

  function SetQuantity(levels: Levels, p: nat, k: nat, qty: int): Levels
    requires p < |levels| && k < |levels[p]|
  {
    levels[p := levels[p][k := levels[p][k].(qty := qty)]]
  }

  lemma FillChain(mem: seq<OrderNode>, l: Level, chain: seq<int>, k: nat, qty: int)
    requires Linked(mem, l, chain) && k < |chain|
    ensures var m := mem[chain[k] := mem[chain[k]].(quantity := qty)];
            && Linked(m, l, chain)
            && HeldChain(m, chain) == HeldChain(mem, chain)[k := HeldChain(mem, chain)[k].(qty := qty)]
            && (forall j :: 0 <= j < |chain| ==> m[chain[j]].side == mem[chain[j]].side)
  {
    hide Slot;
    var m := mem[chain[k] := mem[chain[k]].(quantity := qty)];
    assert forall j :: 0 <= j < |chain| && j != k ==> m[chain[j]] == mem[chain[j]];
  }

  /** Changing the quantity of one order shows only in that order. */
  lemma FillSide(mem: seq<OrderNode>, levels: seq<Level>, chains: seq<seq<int>>, places: seq<Place>,
                 side: OrderSide, p: nat, k: nat, qty: int)
    requires SideLinked(mem, levels, chains, places, side)
    requires p < |chains| && k < |chains[p]|
    ensures InRange(|mem|, chains[p]) && places[chains[p][k]] == At(side, p)
    ensures var m, v := mem[chains[p][k] := mem[chains[p][k]].(quantity := qty)], View(mem, chains);
            && SideLinked(m, levels, chains, places, side)
            && |v[p]| == |chains[p]| && View(m, chains) == SetQuantity(v, p, k, qty)
  {
    var chain := chains[p];
    assert Linked(mem, levels[p], chain) && Holds(places, chain, At(side, p));
    FillChain(mem, levels[p], chain, k, qty);
    UpdateElsewhere(mem, chain[k], mem[chain[k]].(quantity := qty));
    hide Linked, Holds;
    SideChanged(mem, mem[chain[k] := mem[chain[k]].(quantity := qty)], levels, chains, places, places, side, p,
                levels[p], chain);
    assert levels[p := levels[p]] == levels && chains[p := chain] == chains;
  }

  lemma AppendedHolds(places: seq<Place>, chain: seq<int>, s: int, p: Place)
    requires Holds(places, chain, p) && 0 <= s < |places| && places[s] == Detached && p != Detached
    ensures s !in chain && Holds(places[s := p], chain + [s], p)
  {
  }

  lemma AppendedView(mem: seq<OrderNode>, mem': seq<OrderNode>, chain: seq<int>, s: int)
    requires InRange(|mem|, chain) && |mem'| == |mem| && 0 <= s < |mem| && s !in chain
    requires forall t :: 0 <= t < |mem| && t != s ==> mem'[t] == mem[t].(next := mem'[t].next)
    ensures InRange(|mem'|, chain + [s])
    ensures HeldChain(mem', chain + [s]) == HeldChain(mem, chain) + [Held(mem'[s])]
  {
  }

  function GrownLevel(l: Level, chain: seq<int>, s: int): Level {
    Level(if chain == [] then s else l.head, s)
  }

  lemma AppendToChain(mem: seq<OrderNode>, l: Level, chain: seq<int>, places: seq<Place>, p: Place, s: int,
                      node: OrderNode)
    requires Linked(mem, l, chain) && Holds(places, chain, p) && |places| == |mem| && p != Detached
    requires 0 <= s < |mem| && places[s] == Detached
    requires forall j :: 0 <= j < |chain| ==> mem[chain[j]].side == node.side
    ensures -1 <= l.tail < |mem|
    ensures var m, c := Appended(mem, l.tail, s, node), chain + [s];
            && Linked(m, GrownLevel(l, chain, s), c) && Holds(places[s := p], c, p)
            && HeldChain(m, c) == HeldChain(mem, chain) + [Held(node)]
            && (forall j :: 0 <= j < |c| ==> m[c[j]].side == node.side)
            && (forall t :: 0 <= t < |mem| && places[t] != p && t != s ==> m[t] == mem[t])
  {
    AppendedHolds(places, chain, s, p);
    AppendChain(mem, l, chain, s, node);
    var m := Appended(mem, l.tail, s, node);
    AppendedView(mem, m, chain, s);
  }

  /** An order joins the end of one level. */
  lemma AppendToSide(mem: seq<OrderNode>, levels: seq<Level>, chains: seq<seq<int>>, places: seq<Place>,
                     side: OrderSide, p: nat, s: int, node: OrderNode)
    requires SideLinked(mem, levels, chains, places, side)
    requires p < |chains| && 0 <= s < |mem| && places[s] == Detached && node.side == SideByte(side)
    ensures -1 <= levels[p].tail < |mem|
    ensures Linked(mem, levels[p], chains[p])
    ensures var m, c := Appended(mem, levels[p].tail, s, node), chains[p] + [s];
            && SideLinked(m, levels[p := GrownLevel(levels[p], chains[p], s)], chains[p := c],
                          places[s := At(side, p)], side)
            && View(m, chains[p := c]) == View(mem, chains)[p := View(mem, chains)[p] + [Held(node)]]
            && (forall t :: 0 <= t < |mem| && places[t] != At(side, p) && t != s ==> m[t] == mem[t])
  {
    hide Linked, Appended, GrownLevel;
    var chain := chains[p];
    assert Linked(mem, levels[p], chain) && Holds(places, chain, At(side, p));
    AppendToChain(mem, levels[p], chain, places, At(side, p), s, node);
    SideChangedBy(mem, Appended(mem, levels[p].tail, s, node), levels, chains, places, side, p,
                  GrownLevel(levels[p], chain, s), chain + [s], s);
  }

  /** `SideChanged` for a change that places one detached slot. */
  lemma SideChangedBy(mem: seq<OrderNode>, mem': seq<OrderNode>, levels: seq<Level>, chains: seq<seq<int>>,
                      places: seq<Place>, side: OrderSide, p: nat, l: Level, chain: seq<int>, s: int)
    requires SideLinked(mem, levels, chains, places, side) && p < |chains| && |mem'| == |mem|
    requires 0 <= s < |places| && places[s] == Detached
    requires Linked(mem', l, chain) && Holds(places[s := At(side, p)], chain, At(side, p))
    requires forall k :: 0 <= k < |chain| ==> mem'[chain[k]].side == SideByte(side)
    requires forall t :: 0 <= t < |mem| && places[t] != At(side, p) && t != s ==> mem'[t] == mem[t]
    ensures SideLinked(mem', levels[p := l], chains[p := chain], places[s := At(side, p)], side)
    ensures View(mem', chains[p := chain]) == View(mem, chains)[p := HeldChain(mem', chain)]
  {
    hide Linked, Holds;
    SideChanged(mem, mem', levels, chains, places, places[s := At(side, p)], side, p, l, chain);
  }
}
