/** The window arithmetic of common/bigint, with Go's machine-integer conversions written out. */
module BigInt {
  import opened Prelude

  const TWO_63: nat := 0x8000_0000_0000_0000
  const TWO_64: nat := 0x1_0000_0000_0000_0000

  /** big.Int.Uint64: the low 64 bits of the magnitude. */
  function Uint64(x: int): (u: nat)
    ensures u < TWO_64
  {
    Wrap64(if x < 0 then -x else x)
  }

  /** Unsigned 64-bit wrap-around: the residue of x in [0, 2^64). */
  function Wrap64(x: int): (u: nat)
    ensures u < TWO_64
    decreases if x < 0 then -x else x, x < 0
  {
    if x < 0 then (if x + TWO_64 < 0 then Wrap64(x + TWO_64) else x + TWO_64)
    else if x < TWO_64 then x
    else Wrap64(x - TWO_64)
  }

  /** int64(u) for a uint64 u. */
  function ToInt64(u: nat): int
    requires u < TWO_64
  {
    if u < TWO_63 then u else u - TWO_64
  }

  /** uint64 arithmetic: size - 1 wraps at zero, count + 1 wraps at the top. */
  function Clamp(start: int, end: int, size: nat): int
    requires size < TWO_64
  {
    var count := Wrap64(Uint64(end - start) + 1);
    if count <= size then end else start + ToInt64(Wrap64(size - 1))
  }

  lemma {:induction false} Wrap64IsResidue(x: nat)
    ensures Wrap64(x) == x % TWO_64
  {
    if x >= TWO_64 {
      Wrap64IsResidue(x - TWO_64);
    }
  }

  /**
   * The window is right exactly when it is short, or when size - 1 fits an int64 and the 64-bit count still exceeds
   * the size.  A count that wraps to something larger than the size does no harm.
   */
  lemma ClampExact(start: int, end: int, size: nat)
    requires start <= end && 1 <= size < TWO_64
    ensures Clamp(start, end, size) == Min(end, start + size - 1)
            <==> end - start < size || (size <= TWO_63 && size < (end - start + 1) % TWO_64)
  {
    var d := end - start;
    Wrap64IsResidue(d);
    Wrap64IsResidue(Uint64(d) + 1);
    assert (d % TWO_64 + 1) % TWO_64 == (d + 1) % TWO_64;
    if d + 1 < TWO_64 {
      assert Uint64(d) == d;
    }
  }

  /** Between heights an int64 can hold, the window is right for every positive size. */
  lemma ClampOnHeights(start: nat, end: nat, size: nat)
    requires start <= end < TWO_63 && 1 <= size < TWO_64
    ensures Clamp(start, end, size) == Min(end, start + size - 1)
  {
    ClampExact(start, end, size);
    assert Uint64(end - start) == end - start;
  }
}
