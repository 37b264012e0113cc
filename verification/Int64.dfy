/** Go's int64: the range, wrapping multiplication and truncating division. */
module Int64 {
  import opened Arithmetic

  const MIN := -0x8000_0000_0000_0000
  const MAX := 0x7FFF_FFFF_FFFF_FFFF
  const MODULUS := 0x1_0000_0000_0000_0000

  predicate Fits(x: int) {
    MIN <= x <= MAX
  }

  /** The int64 congruent to x modulo 2^64. */
  function Wrap(x: int): (w: int)
    ensures Fits(w)
  {
    var m := x % MODULUS;
    if m > MAX then m - MODULUS else m
  }

  /** a / b for a positive b: truncated toward zero. */
  function Quo(a: int, b: int): int
    requires b > 0
  {
    if a >= 0 then a / b else -((-a) / b)
  }

  /** a % b for a positive b: the sign of a. */
  function Rem(a: int, b: int): int
    requires b > 0
  {
    if a >= 0 then a % b else -((-a) % b)
  }

  lemma QuoRem(a: int, b: int)
    requires b > 0
    ensures a == b * Quo(a, b) + Rem(a, b)
    ensures -b < Rem(a, b) < b
    ensures (a >= 0 ==> Rem(a, b) >= 0) && (a <= 0 ==> Rem(a, b) <= 0)
  {}

  /** Truncating and Euclidean remainders vanish together, and then the quotient
      is exact. */
  lemma ExactQuotient(a: int, b: int)
    requires b > 0
    ensures Rem(a, b) == 0 <==> a % b == 0
    ensures Rem(a, b) == 0 ==> Quo(a, b) * b == a
  {
    QuoRem(a, b);
    var q := a / b;
    assert a == b * q + a % b;
    if a % b == 0 {
      assert b * (q - Quo(a, b)) == Rem(a, b);
      SmallMultiple(b, q - Quo(a, b));
    } else if Rem(a, b) == 0 {
      assert b * (Quo(a, b) - q) == a % b;
      SmallMultiple(b, Quo(a, b) - q);
    }
  }

  lemma QuotientOfMultiple(c: int, m: int)
    requires m > 0
    ensures Quo(c * m, m) == c
  {
    var q := Quo(c * m, m);
    QuoRem(c * m, m);
    assert m * (c - q) == Rem(c * m, m);
    SmallMultiple(m, c - q);
  }

  lemma WrapIsCongruent(x: int)
    ensures (x - Wrap(x)) % MODULUS == 0
    ensures Fits(x) ==> Wrap(x) == x
    ensures !Fits(x) ==> x - Wrap(x) >= MODULUS || Wrap(x) - x >= MODULUS
  {}

  /** The divide-back check is exact: for a count and a unit that are int64
      themselves, dividing the wrapped product by the unit gives the count back
      if and only if the true product fits. */
  lemma DivideBackIsExact(count: int, unit: int)
    requires Fits(count) && 0 < unit <= MAX
    ensures Quo(Wrap(count * unit), unit) == count <==> Fits(count * unit)
  {
    var p := count * unit;
    var w := Wrap(p);
    WrapIsCongruent(p);
    if Fits(p) {
      QuotientOfMultiple(count, unit);
    } else if Quo(w, unit) == count {
      QuoRem(w, unit);
      assert false;
    }
  }
}
