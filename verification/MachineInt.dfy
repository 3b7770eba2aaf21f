/** Two's-complement reduction, for the places where the engine relies on unchecked
    64-bit arithmetic or on a truncating cast to 32 bits. */
module MachineInt {
  const TWO_31: int := 0x8000_0000
  const TWO_32: int := 0x1_0000_0000
  const TWO_63: int := 0x8000_0000_0000_0000
  const TWO_64: int := 0x1_0000_0000_0000_0000

  predicate IsInt64(x: int) {
    -TWO_63 <= x < TWO_63
  }

  /** The value of the low 32 bits of `x` read as a signed number. */
  function Wrap32(x: int): (r: int)
    ensures -TWO_31 <= r < TWO_31
    ensures (x - r) % TWO_32 == 0
    ensures -TWO_31 <= x < TWO_31 ==> r == x
  {
    (x + TWO_31) % TWO_32 - TWO_31
  }

  /** The value of the low 64 bits of `x` read as a signed number. */
  function Wrap64(x: int): (r: int)
    ensures IsInt64(r)
    ensures (x - r) % TWO_64 == 0
    ensures IsInt64(x) ==> r == x
  {
    (x + TWO_63) % TWO_64 - TWO_63
  }

  /** There is one 32-bit signed number in each residue class modulo two to the 32. */
  lemma Wrap32Unique(x: int, r: int)
    requires -TWO_31 <= r < TWO_31
    requires (x - r) % TWO_32 == 0
    ensures Wrap32(x) == r
  {
  }

  /** Truncating to 32 bits forgets an earlier truncation to 64 bits. */
  lemma WrapTwice(x: int)
    ensures Wrap32(Wrap64(x)) == Wrap32(x)
  {
    Wrap32Unique(Wrap64(x), Wrap32(x));
  }
}
