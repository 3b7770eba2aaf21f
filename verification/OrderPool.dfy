/** The pre-allocated node array and the free list threaded through it. */
module Pools {
  import opened Models
  import opened Arena

  function FirstSlots(n: nat): (r: seq<int>)
    ensures |r| == n && forall k :: 0 <= k < n ==> r[k] == k
  {
    seq(n, k => k)
  }

  lemma FirstSlotsHave(n: nat, s: nat)
    requires s < n
    ensures s in FirstSlots(n)
  {
    assert FirstSlots(n)[s] == s;
  }

  lemma InIndexOrder(mem: seq<OrderNode>)
    requires mem != [] && mem[|mem| - 1].next == -1
    requires forall k :: 0 <= k < |mem| - 1 ==> mem[k].next == k + 1
    ensures FreeLinked(mem, 0, FirstSlots(|mem|))
  {
  }

  class OrderPool {
    const memory: array<OrderNode>
    var freeHead: int
    ghost var free: seq<int>  // the free slots, next to be rented first

    ghost predicate Valid()
      reads this, memory
    {
      1 <= memory.Length && FreeLinked(memory[..], freeHead, free)
    }

    constructor (size: nat)
      requires 1 <= size
      ensures Valid() && fresh(memory) && memory.Length == size
      ensures free == FirstSlots(size)
    {
      memory := new OrderNode[size];
      new;
      Reset();
    }

    /** Take the slot at the head of the free list; -1 when there is none. */
    method Rent() returns (index: int)
      requires Valid()
      modifies this, memory
      ensures Valid()
      ensures index == Slot(old(free), 0)
      ensures index == -1 <==> old(free) == []
      ensures old(free) == [] ==> free == [] && freeHead == old(freeHead) && memory[..] == old(memory[..])
      ensures old(free) != [] ==>
                && 0 <= index < memory.Length && free == old(free)[1..] && freeHead == old(memory[..])[index].next
                && memory[..] == old(memory[..])[index := old(memory[..])[index].(next := -1, prev := -1)]
    {
      if freeHead == -1 {
        return -1;
      }
      PopFree(memory[..], freeHead, free, memory[freeHead].(next := -1, prev := -1));
      index := freeHead;
      freeHead := memory[index].next;
      memory[index] := memory[index].(next := -1, prev := -1);
      free := free[1..];
    }

    /** Put a rented slot back at the head of the free list. */
    method Return(index: int)
      requires Valid() && 0 <= index < memory.Length && index !in free
      modifies this, memory
      ensures Valid()
      ensures free == [index] + old(free) && freeHead == index
      ensures memory[..] == old(memory[..])[index := old(memory[..])[index].(next := old(freeHead))]
    {
      hide FreeLinked;
      PushFree(memory[..], freeHead, free, index);
      memory[index] := memory[index].(next := freeHead);
      freeHead := index;
      free := [index] + free;
    }

    /** Chain all slots in index order, whatever they held. */
    method Reset()
      requires 1 <= memory.Length
      modifies this, memory
      ensures Valid()
      ensures free == FirstSlots(memory.Length)
    {
      freeHead := 0;
      var i := 0;
      while i < memory.Length - 1
        invariant 0 <= i <= memory.Length - 1 && freeHead == 0
        invariant forall k :: 0 <= k < i ==> memory[k].next == k + 1
      {
        memory[i] := memory[i].(next := i + 1);
        memory[i] := memory[i].(prev := -1);
        i := i + 1;
      }
      memory[memory.Length - 1] := memory[memory.Length - 1].(next := -1);
      memory[memory.Length - 1] := memory[memory.Length - 1].(prev := -1);
      free := FirstSlots(memory.Length);
      InIndexOrder(memory[..]);
    }
  }
}
