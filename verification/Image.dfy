/** The book's arrays together with the chains they hold, as one value, and the effect of each array operation on it:
    renting and returning a slot, linking a node behind a tail, changing a quantity in place, and unlinking any
    position of a level. Each keeps every chain well linked and every slot in its place, and changes the orders that
    the arrays represent exactly as the operation says. The methods of the book assign to the arrays and use these
    lemmas for what the assignments mean. */
module Images {
  import opened Models
  import opened PriceTime
  import opened Sums
  import opened Arena

  /** What has to be in order: each side, and the free list. */
  datatype Part = SidePart(side: OrderSide) | FreePart

  datatype Image = Image(mem: seq<OrderNode>, bids: seq<Level>, asks: seq<Level>,
                         bidChains: seq<seq<int>>, askChains: seq<seq<int>>,
                         places: seq<Place>, freeHead: int, free: seq<int>) {
    function Levels(side: OrderSide): seq<Level> {
      if side.Buy? then bids else asks
    }

    function Chains(side: OrderSide): seq<seq<int>> {
      if side.Buy? then bidChains else askChains
    }

    function With(side: OrderSide, levels: seq<Level>, chains: seq<seq<int>>): Image {
      if side.Buy? then this.(bids := levels, bidChains := chains) else this.(asks := levels, askChains := chains)
    }

    predicate SideOk(side: OrderSide) {
      SideLinked(mem, Levels(side), Chains(side), places, side)
    }

    predicate FreeOk() {
      Known(places, |bidChains|) && Holds(places, free, Free) && FreeLinked(mem, freeHead, free)
    }

    predicate Ok(part: Part) {
      match part
      case SidePart(side) => SideOk(side)
      case FreePart => FreeOk()
    }

    /** Every slot is in the chain of its place and in no other, and every chain is well linked. */
    ghost predicate Structured(n: nat) {
      && |bidChains| == |askChains| == |bids| == |asks| == n && |places| == |mem|
      && forall part: Part {:trigger Ok(part)} :: Ok(part)
    }

    function Side(side: OrderSide): (r: PriceTime.Levels)
      ensures |r| == |Chains(side)|
    {
      View(mem, Chains(side))
    }
  }

  /** A slot placed at a level is placed at one that exists. */
  predicate Known(places: seq<Place>, n: nat) {
    forall s :: 0 <= s < |places| && places[s].At? ==> 0 <= places[s].level < n
  }

  lemma Parts(im: Image, side: OrderSide)
    requires im.Structured(|im.bidChains|)
    ensures im.SideOk(side) && im.SideOk(Opposite(side)) && im.FreeOk()
  {
    assert im.Ok(SidePart(side)) && im.Ok(SidePart(Opposite(side))) && im.Ok(FreePart);
  }

  lemma Assemble(im: Image, side: OrderSide)
    requires |im.bidChains| == |im.askChains| == |im.bids| == |im.asks| && |im.places| == |im.mem|
    requires im.SideOk(side) && im.SideOk(Opposite(side)) && im.FreeOk()
    ensures im.Structured(|im.bidChains|)
  {
    hide Image.SideOk, Image.FreeOk;
    forall part: Part ensures im.Ok(part) {
      assert part.SidePart? ==> part.side == side || part.side == Opposite(side);
    }
  }

  /** Slot `s` is in the chain that `p` names. */
  predicate InChain(im: Image, s: int, p: Place) {
    match p
    case Free => s in im.free
    case Detached => false
    case At(side, i) => 0 <= i < |im.Chains(side)| && s in im.Chains(side)[i]
  }

  lemma InChainHere(im: Image, s: int, p: Place)
    requires im.Structured(|im.bidChains|) && 0 <= s < |im.places|
    ensures InChain(im, s, p) <==> p == im.places[s] && p != Detached
  {
    hide Linked, FreeLinked;
    Parts(im, if p.At? then p.side else Buy);
    if im.places[s].At? {
      Parts(im, im.places[s].side);
    }
    if p.At? && 0 <= p.level < |im.bidChains| {
      assert Holds(im.places, im.Chains(p.side)[p.level], At(p.side, p.level));
    }
  }

  /** Between calls, when no slot is detached, every slot is in exactly one chain: the free list or one level
      of one side. */
  lemma OneChain(im: Image, s: int)
    requires im.Structured(|im.bidChains|) && 0 <= s < |im.places| && im.places[s] != Detached
    ensures exists p :: InChain(im, s, p)
    ensures forall p, q :: InChain(im, s, p) && InChain(im, s, q) ==> p == q
  {
    hide InChain, Image.Structured;
    InChainHere(im, s, im.places[s]);
    forall p, q | InChain(im, s, p) && InChain(im, s, q) ensures p == q {
      InChainHere(im, s, p);
      InChainHere(im, s, q);
    }
  }

  /** Changing slots that are not free leaves the free list alone. */
  lemma FreeUntouched(mem: seq<OrderNode>, mem': seq<OrderNode>, places: seq<Place>, head: int, free: seq<int>)
    requires Holds(places, free, Free) && FreeLinked(mem, head, free) && |mem| == |mem'| == |places|
    requires forall s :: 0 <= s < |mem| && places[s] == Free ==> mem'[s] == mem[s]
    ensures FreeLinked(mem', head, free)
  {
  }

  lemma FreeHeld(places: seq<Place>, free: seq<int>, s: int, p: Place)
    requires Holds(places, free, Free) && 0 <= s < |places| && places[s] != Free && p != Free
    ensures Holds(places[s := p], free, Free)
  {
  }

  function RemoveImage(im: Image, side: OrderSide, p: nat, k: nat): Image
    requires p < |im.Chains(side)| == |im.Levels(side)| && k < |im.Chains(side)[p]|
    requires InRange(|im.mem|, im.Chains(side)[p]) && |im.places| == |im.mem|
  {
    var chain := im.Chains(side)[p];
    im.With(side, im.Levels(side)[p := UnlinkedLevel(im.Levels(side)[p], chain, k)],
                  im.Chains(side)[p := Without(chain, k)])
      .(mem := Unlinked(im.mem, chain, k), places := im.places[chain[k] := Detached])
  }

  lemma RemoveOther(im: Image, side: OrderSide, p: nat, k: nat)
    requires im.Structured(|im.bidChains|)
    requires p < |im.Chains(side)| && k < |im.Chains(side)[p]| && InRange(|im.mem|, im.Chains(side)[p])
    ensures var o, m, places' := Opposite(side), Unlinked(im.mem, im.Chains(side)[p], k),
                                 im.places[im.Chains(side)[p][k] := Detached];
            && SideLinked(m, im.Levels(o), im.Chains(o), places', o)
            && View(m, im.Chains(o)) == View(im.mem, im.Chains(o))
            && Holds(places', im.free, Free) && FreeLinked(m, im.freeHead, im.free)
  {
    hide Linked, FreeLinked;
    Parts(im, side);
    var chain := im.Chains(side)[p];
    RemoveFromSide(im.mem, im.Levels(side), im.Chains(side), im.places, side, p, k);
    assert Holds(im.places, chain, At(side, p));
    var o := Opposite(side);
    SideUntouched(im.mem, Unlinked(im.mem, chain, k), im.Levels(o), im.Chains(o), im.places,
                  im.places[chain[k] := Detached], o);
    FreeHeld(im.places, im.free, chain[k], Detached);
    FreeUntouched(im.mem, Unlinked(im.mem, chain, k), im.places, im.freeHead, im.free);
  }

  lemma RemoveKeeps(im: Image, side: OrderSide, p: nat, k: nat)
    requires im.Structured(|im.bidChains|)
    requires p < |im.Chains(side)| && k < |im.Chains(side)[p]|
    ensures Linked(im.mem, im.Levels(side)[p], im.Chains(side)[p])
    ensures InRange(|im.mem|, im.Chains(side)[p]) && |im.places| == |im.mem|
    ensures var im' := RemoveImage(im, side, p, k);
            && FreeLinked(im'.mem, im'.freeHead, im'.free) && im'.Structured(|im.bidChains|)
            && im'.Side(side) == im.Side(side)[p := Without(im.Side(side)[p], k)]
            && im'.Side(Opposite(side)) == im.Side(Opposite(side))
  {
    hide Linked, FreeLinked, BypassedLevel, Without;
    Parts(im, side);
    assert Holds(im.places, im.Chains(side)[p], At(side, p));
    assert Known(im.places[im.Chains(side)[p][k] := Detached], |im.bidChains|);
    hide Known, Holds;
    RemoveFromSide(im.mem, im.Levels(side), im.Chains(side), im.places, side, p, k);
    RemoveOther(im, side, p, k);
    Assemble(RemoveImage(im, side, p, k), side);
  }

  // ---------- Renting, returning, filling and appending ----------

  predicate SameSides(im: Image, im': Image) {
    im'.Side(Buy) == im.Side(Buy) && im'.Side(Sell) == im.Side(Sell)
  }

  /** A change confined to slots outside both sides leaves both sides as they were. */
  lemma SidesUntouched(im: Image, im': Image)
    requires im.Structured(|im.bidChains|) && |im'.mem| == |im'.places| == |im.mem|
    requires im'.bids == im.bids && im'.asks == im.asks
    requires im'.bidChains == im.bidChains && im'.askChains == im.askChains
    requires forall s :: 0 <= s < |im.mem| && im.places[s].At? ==> im'.mem[s] == im.mem[s]
    requires forall s :: 0 <= s < |im.mem| && im.places[s] != im'.places[s] ==>
               !im.places[s].At? && !im'.places[s].At?
    requires Holds(im'.places, im'.free, Free) && FreeLinked(im'.mem, im'.freeHead, im'.free)
    ensures im'.Structured(|im.bidChains|) && SameSides(im, im')
  {
    hide Linked, Holds, FreeLinked, View;
    Parts(im, Buy);
    SideUntouched(im.mem, im'.mem, im.bids, im.bidChains, im.places, im'.places, Buy);
    SideUntouched(im.mem, im'.mem, im.asks, im.askChains, im.places, im'.places, Sell);
    Assemble(im', Buy);
  }

  function RentImage(im: Image): Image
    requires im.free != [] && 0 <= im.free[0] < |im.mem| == |im.places|
  {
    var s := im.free[0];
    im.(mem := im.mem[s := im.mem[s].(next := -1, prev := -1)], places := im.places[s := Detached],
        freeHead := im.mem[s].next, free := im.free[1..])
  }

  lemma RentKeeps(im: Image)
    requires im.Structured(|im.bidChains|) && im.free != []
    ensures 0 <= im.free[0] < |im.mem| == |im.places|
    ensures var im' := RentImage(im);
            && FreeLinked(im'.mem, im'.freeHead, im'.free)
            && im'.Structured(|im.bidChains|) && SameSides(im, im')
  {
    hide SideLinked, View;
    Parts(im, Buy);
    var s := im.free[0];
    PopFree(im.mem, im.freeHead, im.free, im.mem[s].(next := -1, prev := -1));
    PoppedHolds(im.places, im.free);
    assert |im.places| == |im.mem| by {
      SideSizes(im, Buy);
    }
    hide Linked, Holds, FreeLinked;
    SidesUntouched(im, RentImage(im));
  }

  lemma SideSizes(im: Image, side: OrderSide)
    requires im.Structured(|im.bidChains|)
    ensures |im.Levels(side)| == |im.Chains(side)| == |im.bidChains| && |im.places| == |im.mem|
  {
    Parts(im, side);
  }

  lemma PoppedHolds(places: seq<Place>, free: seq<int>)
    requires Holds(places, free, Free) && Distinct(free) && free != []
    ensures places[free[0]] == Free && Holds(places[free[0] := Detached], free[1..], Free)
  {
    var c := free[1..];
    assert forall k :: 0 <= k < |c| ==> c[k] == free[k + 1];
    forall s | 0 <= s < |places| && s != free[0] && places[s] == Free
      ensures s in c
    {
      var k :| 0 <= k < |free| && free[k] == s;
      assert c[k - 1] == s;
    }
  }

  function ReturnImage(im: Image, s: int): Image
    requires 0 <= s < |im.mem| == |im.places|
  {
    im.(mem := im.mem[s := im.mem[s].(next := im.freeHead)], places := im.places[s := Free],
        freeHead := s, free := [s] + im.free)
  }

  lemma PushedHolds(places: seq<Place>, free: seq<int>, s: int)
    requires Holds(places, free, Free) && 0 <= s < |places| && places[s] == Detached
    ensures s !in free && Holds(places[s := Free], [s] + free, Free)
  {
  }

  lemma ReturnKeeps(im: Image, s: int)
    requires im.Structured(|im.bidChains|) && 0 <= s < |im.places| && im.places[s] == Detached
    ensures |im.mem| == |im.places| && s !in im.free
    ensures var im' := ReturnImage(im, s);
            && FreeLinked(im'.mem, im'.freeHead, im'.free)
            && im'.Structured(|im.bidChains|) && SameSides(im, im')
  {
    hide SideLinked, View, Linked;
    Parts(im, Buy);
    PushedHolds(im.places, im.free, s);
    PushFree(im.mem, im.freeHead, im.free, s);
    hide Holds, FreeLinked;
    SidesUntouched(im, ReturnImage(im, s));
  }

  function FillImage(im: Image, s: int, qty: int): Image
    requires 0 <= s < |im.mem|
  {
    im.(mem := im.mem[s := im.mem[s].(quantity := qty)])
  }

  lemma FillOther(im: Image, side: OrderSide, p: nat, s: int, qty: int)
    requires im.Structured(|im.bidChains|)
    requires 0 <= s < |im.mem| == |im.places| && im.places[s] == At(side, p)
    ensures var o, m := Opposite(side), FillImage(im, s, qty).mem;
            && SideLinked(m, im.Levels(o), im.Chains(o), im.places, o)
            && View(m, im.Chains(o)) == View(im.mem, im.Chains(o))
            && FreeLinked(m, im.freeHead, im.free)
  {
    var o := Opposite(side);
    hide Linked, Holds, FreeLinked, View, Known;
    Parts(im, side);
    var m := im.mem[s := im.mem[s].(quantity := qty)];
    UpdateElsewhere(im.mem, s, im.mem[s].(quantity := qty));
    FreeUntouched(im.mem, m, im.places, im.freeHead, im.free);
    SideUntouched(im.mem, m, im.Levels(o), im.Chains(o), im.places, im.places, o);
  }

  lemma FillKeeps(im: Image, side: OrderSide, p: nat, k: nat, qty: int)
    requires im.Structured(|im.bidChains|)
    requires p < |im.Chains(side)| && k < |im.Chains(side)[p]|
    ensures 0 <= im.Chains(side)[p][k] < |im.mem| == |im.places|
    ensures im.places[im.Chains(side)[p][k]] == At(side, p)
    ensures var im', v := FillImage(im, im.Chains(side)[p][k], qty), im.Side(side);
            && FreeLinked(im'.mem, im'.freeHead, im'.free) && im'.Structured(|im.bidChains|)
            && |v[p]| == |im.Chains(side)[p]| && im'.Side(side) == SetQuantity(v, p, k, qty)
            && im'.Side(Opposite(side)) == im.Side(Opposite(side))
  {
    Parts(im, side);
    hide Linked, FreeLinked, Holds, SetQuantity;
    FillSide(im.mem, im.Levels(side), im.Chains(side), im.places, side, p, k, qty);
    var s := im.Chains(side)[p][k];
    FillOther(im, side, p, s, qty);
    Assemble(FillImage(im, s, qty), side);
  }

  function AppendImage(im: Image, side: OrderSide, p: nat, s: int, node: OrderNode): Image
    requires p < |im.Chains(side)| == |im.Levels(side)| && 0 <= s < |im.mem| == |im.places|
    requires -1 <= im.Levels(side)[p].tail < |im.mem|
  {
    var l, chain := im.Levels(side)[p], im.Chains(side)[p];
    im.With(side, im.Levels(side)[p := GrownLevel(l, chain, s)], im.Chains(side)[p := chain + [s]])
      .(mem := Appended(im.mem, l.tail, s, node), places := im.places[s := At(side, p)])
  }

  lemma AppendOther(im: Image, side: OrderSide, p: nat, s: int, m: seq<OrderNode>)
    requires im.Structured(|im.bidChains|)
    requires p < |im.Chains(side)| && 0 <= s < |im.places| && im.places[s] == Detached && |m| == |im.mem|
    requires forall t :: 0 <= t < |im.mem| && im.places[t] != At(side, p) && t != s ==> m[t] == im.mem[t]
    ensures var o, places' := Opposite(side), im.places[s := At(side, p)];
            && SideLinked(m, im.Levels(o), im.Chains(o), places', o)
            && View(m, im.Chains(o)) == View(im.mem, im.Chains(o))
            && Holds(places', im.free, Free) && FreeLinked(m, im.freeHead, im.free)
  {
    var o := Opposite(side);
    Parts(im, side);
    FreeHeld(im.places, im.free, s, At(side, p));
    FreeUntouched(im.mem, m, im.places, im.freeHead, im.free);
    hide Linked, Holds, FreeLinked, View;
    SideUntouched(im.mem, m, im.Levels(o), im.Chains(o), im.places, im.places[s := At(side, p)], o);
  }

  lemma EmptyLevelTail(mem: seq<OrderNode>, l: Level, chain: seq<int>)
    requires Linked(mem, l, chain)
    ensures l.head == -1 <==> chain == []
    ensures l.head == -1 ==> l.tail == -1
  {
  }

  lemma AppendKeeps(im: Image, side: OrderSide, p: nat, s: int, node: OrderNode)
    requires im.Structured(|im.bidChains|)
    requires p < |im.Chains(side)| && 0 <= s < |im.mem| == |im.places|
    requires im.places[s] == Detached && node.side == SideByte(side)
    ensures |im.Levels(side)| == |im.Chains(side)| && -1 <= im.Levels(side)[p].tail < |im.mem|
    ensures Linked(im.mem, im.Levels(side)[p], im.Chains(side)[p]) && s !in im.Chains(side)[p]
    ensures im.Levels(side)[p].head == -1 <==> im.Chains(side)[p] == []
    ensures im.Levels(side)[p].head == -1 ==>
              && Appended(im.mem, im.Levels(side)[p].tail, s, node) == im.mem[s := node.(next := -1, prev := -1)]
              && GrownLevel(im.Levels(side)[p], im.Chains(side)[p], s) == Level(s, s)
    ensures var im', v := AppendImage(im, side, p, s, node), im.Side(side);
            && FreeLinked(im'.mem, im'.freeHead, im'.free) && im'.Structured(|im.bidChains|)
            && im'.Side(side) == v[p := v[p] + [Held(node)]]
            && im'.Side(Opposite(side)) == im.Side(Opposite(side))
  {
    Parts(im, side);
    assert Linked(im.mem, im.Levels(side)[p], im.Chains(side)[p]);
    AppendedHolds(im.places, im.Chains(side)[p], s, At(side, p));
    EmptyLevelTail(im.mem, im.Levels(side)[p], im.Chains(side)[p]);
    assert Known(im.places[s := At(side, p)], |im.bidChains|);
    hide Linked, FreeLinked, Known, HeldChain;
    AppendToSide(im.mem, im.Levels(side), im.Chains(side), im.places, side, p, s, node);
    hide Holds, View;
    AppendOther(im, side, p, s, Appended(im.mem, im.Levels(side)[p].tail, s, node));
    Assemble(AppendImage(im, side, p, s, node), side);
  }

  // ---------- Cached counts and best levels ----------

  /** The cached count and best level agree with a full scan of the level array. */
  predicate Tracked(levels: PriceTime.Levels, side: OrderSide, count: int, best: int) {
    count == Depth(levels) && best == Best(levels, side)
  }

  /** Shrinking a level that had an order: the count drops when it empties, and the best
      level moves only when it was the one that emptied. */
  lemma TrackShrunk(levels: PriceTime.Levels, side: OrderSide, p: nat, level: seq<Resting>)
    requires p < |levels| && levels[p] != []
    ensures var levels' := levels[p := level];
            && Depth(levels') == Depth(levels) - (if level == [] then 1 else 0)
            && (level != [] || p != Best(levels, side) ==> Best(levels', side) == Best(levels, side))
            && (level == [] && p == Best(levels, side) ==>
                  && (side.Sell? ==> forall i :: 0 <= i <= p ==> levels'[i] == [])
                  && (side.Buy? ==> forall i :: p <= i < |levels| ==> levels'[i] == []))
  {
    SumUpdate(levels, p, level, Presence);
    BestCharacterised(levels, side, Best(levels, side));
    BestCharacterised(levels[p := level], side, Best(levels, side));
  }

  /** An order joins a level: a level that was empty counts, and may become the best. */
  lemma TrackGrown(levels: PriceTime.Levels, side: OrderSide, p: nat, level: seq<Resting>)
    requires p < |levels| && level != []
    ensures var levels' := levels[p := level];
            && Depth(levels') == Depth(levels) + (if levels[p] == [] then 1 else 0)
            && Best(levels', side) ==
               if levels[p] == [] && (Best(levels, side) == -1 || Better(side, p, Best(levels, side)))
               then p else Best(levels, side)
  {
    SumUpdate(levels, p, level, Presence);
    var b := Best(levels, side);
    BestCharacterised(levels, side, b);
    var b' := if levels[p] == [] && (b == -1 || Better(side, p, b)) then p else b;
    BestCharacterised(levels[p := level], side, b');
  }

  lemma HeadsTellSide(im: Image, side: OrderSide)
    requires im.Structured(|im.bidChains|)
    ensures |im.Side(side)| == |im.Levels(side)|
    ensures forall i :: 0 <= i < |im.Levels(side)| ==> (im.Levels(side)[i].head == -1 <==> im.Side(side)[i] == [])
    ensures forall b :: IsBestHead(im.Levels(side), side, b) ==> b == Best(im.Side(side), side)
  {
    hide Linked, Holds, FreeLinked;
    Parts(im, side);
    HeadsTell(im.mem, im.Levels(side), im.Chains(side), im.places, side);
  }

  /** What `Clear` leaves: no level has an order and every slot is free. */
  predicate Blank(im: Image, n: nat) {
    && |im.bids| == |im.asks| == |im.bidChains| == |im.askChains| == n && |im.places| == |im.mem|
    && (forall i :: 0 <= i < n ==> im.bids[i] == im.asks[i] == EMPTY_LEVEL)
    && (forall i :: 0 <= i < n ==> im.bidChains[i] == im.askChains[i] == [])
    && (forall s :: 0 <= s < |im.places| ==> im.places[s] == Free)
    && (forall s :: 0 <= s < |im.places| ==> s in im.free)
    && FreeLinked(im.mem, im.freeHead, im.free)
  }

  lemma BlankStructured(im: Image, n: nat)
    requires Blank(im, n)
    ensures im.Structured(n)
    ensures im.Side(Buy) == im.Side(Sell) == EmptyLevels(n) && AllPositive(EmptyLevels(n))
    ensures Tracked(EmptyLevels(n), Buy, 0, -1) && Tracked(EmptyLevels(n), Sell, 0, -1)
    ensures RestingCount(Book(EmptyLevels(n), EmptyLevels(n))) == 0
  {
    EmptySide(im.mem, im.bids, im.bidChains, im.places, Buy);
    EmptySide(im.mem, im.asks, im.askChains, im.places, Sell);
    Assemble(im, Buy);
  }

  lemma ConsumedPositive(levels: PriceTime.Levels, b: nat, q: int)
    requires AllPositive(levels) && b < |levels| && levels[b] != [] && 0 < q <= levels[b][0].qty
    ensures AllPositive(levels[b := Consumed(levels[b], q)])
  {
    var c := Consumed(levels[b], q);
    assert forall k :: 0 <= k < |c| ==> c[k].qty > 0;
  }

  lemma AppendPositive(levels: PriceTime.Levels, p: nat, r: Resting)
    requires AllPositive(levels) && p < |levels| && r.qty > 0
    ensures AllPositive(Append(levels, p, r)) && Count(Append(levels, p, r)) == Count(levels) + 1
  {
    SumUpdate(levels, p, levels[p] + [r], Length);
  }

  /** What a fill does to a level: lower the oldest order, then drop it when nothing is left. */
  lemma FillThenDrop(levels: PriceTime.Levels, b: nat, q: int)
    requires b < |levels| && levels[b] != []
    ensures var filled := SetQuantity(levels, b, 0, levels[b][0].qty - q);
            && (q != levels[b][0].qty ==> filled == levels[b := Consumed(levels[b], q)])
            && (q == levels[b][0].qty ==> filled[b := Without(filled[b], 0)] == levels[b := Consumed(levels[b], q)])
            && |filled| == |levels| && filled[b] != [] && filled[b][0].qty == levels[b][0].qty - q
            && Depth(filled) == Depth(levels)
            && Best(filled, Buy) == Best(levels, Buy) && Best(filled, Sell) == Best(levels, Sell)
            && Count(levels[b := Consumed(levels[b], q)]) == Count(levels) - (if q == levels[b][0].qty then 1 else 0)
  {
    var filled := SetQuantity(levels, b, 0, levels[b][0].qty - q);
    SumUpdate(levels, b, filled[b], Presence);
    ConsumedCount(levels, b, q);
    BestCharacterised(levels, Buy, Best(levels, Buy));
    BestCharacterised(levels, Sell, Best(levels, Sell));
    BestCharacterised(filled, Buy, Best(levels, Buy));
    BestCharacterised(filled, Sell, Best(levels, Sell));
    if q == levels[b][0].qty {
      assert Without(filled[b], 0) == levels[b][1..];
    } else {
      assert filled[b] == Consumed(levels[b], q);
    }
  }

  lemma HeadOfLevel(im: Image, side: OrderSide, b: nat)
    requires im.Structured(|im.bidChains|) && b < |im.Side(side)| && im.Side(side)[b] != []
    ensures b < |im.Levels(side)| && im.Chains(side)[b] != []
    ensures var s := im.Levels(side)[b].head;
            && s == im.Chains(side)[b][0] && 0 <= s < |im.mem| == |im.places|
            && Held(im.mem[s]) == im.Side(side)[b][0]
  {
    hide Holds, FreeLinked;
    Parts(im, side);
    assert Linked(im.mem, im.Levels(side)[b], im.Chains(side)[b]);
  }
}
