/** Signed 32-bit integers as C++ `int` holds them, and the two's-complement
    wrap-around that the generator's arithmetic relies on. */
module Int32 {

  const TWO31: int := 0x8000_0000
  const TWO32: int := 0x1_0000_0000

  /** The values of a C++ `int` on the targets the generator is written for. */
  type Int32 = x: int | -TWO31 <= x < TWO31

  /** The `int` that an exact integer result becomes under two's-complement
      wrap-around: the unique 32-bit value congruent to `x` modulo 2^32. */
  function Wrap32(x: int): (r: Int32)
    ensures r % TWO32 == x % TWO32
    ensures -TWO31 <= x < TWO31 ==> r == x
  {
    var m := x % TWO32;
    if m < TWO31 then m else m - TWO32
  }

  /** Wrap32 is determined by the residue modulo 2^32: two values it maps to
      the same residue class can only be the same 32-bit value. */
  lemma Wrap32Unique(x: int, r: int)
    requires -TWO31 <= r < TWO31
    requires r % TWO32 == x % TWO32
    ensures Wrap32(x) == r
  {
    if r >= 0 {
      assert r % TWO32 == r;
    } else {
      assert r % TWO32 == r + TWO32;
    }
  }

  /** A value written as a multiple of 2^31 plus a remainder in [0, 2^31)
      has that remainder as its residue modulo 2^31. */
  lemma ModTwo31(x: int, c: int, r: int)
    requires x == c * TWO31 + r
    requires 0 <= r < TWO31
    ensures x % TWO31 == r
  {
    var q := x / TWO31;
    assert x == q * TWO31 + x % TWO31;
    assert (q - c) * TWO31 == r - x % TWO31;
  }
}
