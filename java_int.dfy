/** Java's fixed-width integers, as far as the router uses them: `int`
    fields with their wrap-around `++`, and `short` ports and weights. */
module JavaInt {

  const INT_MIN: int := -0x8000_0000
  const INT_MAX: int := 0x7fff_ffff
  const SHORT_MAX: int := 0x7fff
  const INT_RANGE: int := 0x1_0000_0000

  /** A value of Java's `int`. */
  type Int32 = x: int | INT_MIN <= x <= INT_MAX

  /** A value of Java's `short`. */
  type Int16 = x: int | -0x8000 <= x <= SHORT_MAX

  /** Java's reduction of an exact integer result to `int` (two's complement). */
  function Wrap32(x: int): (r: Int32)
    ensures INT_MIN <= x <= INT_MAX ==> r == x
  {
    (x - INT_MIN) % INT_RANGE + INT_MIN
  }

  /** The wrapped value differs from the exact one by a multiple of 2^32. */
  lemma WrapCongruent(x: int)
    ensures (x - Wrap32(x)) % INT_RANGE == 0
  {
    var q := (x - INT_MIN) / INT_RANGE;
    assert x - INT_MIN == q * INT_RANGE + (x - INT_MIN) % INT_RANGE;
    assert x - Wrap32(x) == q * INT_RANGE;
  }

  /** Java's `x++` on an `int`. */
  function Inc32(x: Int32): (r: Int32)
    ensures x < INT_MAX ==> r == x + 1
    ensures x == INT_MAX ==> r == INT_MIN
  {
    Wrap32(x + 1)
  }

  /** Incrementing a wrapped value is wrapping the incremented value. */
  lemma Inc32OfWrap(x: int)
    ensures Inc32(Wrap32(x)) == Wrap32(x + 1)
  {
    var q := (x - INT_MIN) / INT_RANGE;
    assert x - INT_MIN == q * INT_RANGE + (x - INT_MIN) % INT_RANGE;
    var w := Wrap32(x);
    assert w == x - q * INT_RANGE;
    ModShift(x + 1 - INT_MIN, q);
  }

  /** Adding to a wrapped value and wrapping again is wrapping once. */
  lemma WrapShift(x: int, n: int)
    ensures Wrap32(Wrap32(x) + n) == Wrap32(x + n)
  {
    var q := (x - INT_MIN) / INT_RANGE;
    assert x - INT_MIN == q * INT_RANGE + (x - INT_MIN) % INT_RANGE;
    assert Wrap32(x) == x - q * INT_RANGE;
    ModShift(x + n - INT_MIN, q);
  }

  lemma ModShift(a: int, q: int)
    ensures (a - q * INT_RANGE) % INT_RANGE == a % INT_RANGE
  {
  }
}
