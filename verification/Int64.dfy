/** Machine integers: the wrap-around that 64-bit signed arithmetic performs. */
module Int64 {
  const MAX: int := 0x7FFF_FFFF_FFFF_FFFF
  const MIN: int := -0x8000_0000_0000_0000
  const MODULUS: int := 0x1_0000_0000_0000_0000

  type int64 = x: int | MIN <= x <= MAX

  predicate Fits(x: int) {
    MIN <= x <= MAX
  }

  /** The int64 that a computation with mathematical result `x` leaves behind. */
  function Wrap(x: int): (r: int64)
    ensures r == x <==> Fits(x)
    ensures (x - r) % MODULUS == 0
  {
    (x - MIN) % MODULUS + MIN
  }

  /** Congruent integers leave the same int64 behind. */
  lemma WrapCongruent(x: int, k: int)
    ensures Wrap(x + k * MODULUS) == Wrap(x)
  {
    var q, q' := (x - MIN) / MODULUS, (x + k * MODULUS - MIN) / MODULUS;
    assert x - MIN == q * MODULUS + (x - MIN) % MODULUS;
    assert x + k * MODULUS - MIN == q' * MODULUS + (x + k * MODULUS - MIN) % MODULUS;
  }

  /** Wrapping an intermediate sum changes nothing: only the last wrap shows. */
  lemma WrapSum(x: int, y: int)
    ensures Wrap(Wrap(x) + y) == Wrap(x + y)
  {
    var k := (x - Wrap(x)) / MODULUS;
    assert x == Wrap(x) + k * MODULUS;
    WrapCongruent(Wrap(x) + y, k);
  }
}
