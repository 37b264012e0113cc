/** Addresses and networks as net/netip has them, with prefix arithmetic. */
module Addresses {
  import opened Arithmetic

  datatype Family = V4 | V6

  function Width(f: Family): nat {
    if f.V4? then 32 else 128
  }

  function Pow2(n: nat): (p: nat)
    ensures p > 0
  {
    if n == 0 then 1 else 2 * Pow2(n - 1)
  }

  datatype RawAddr = RawAddr(family: Family, bits: nat, zone: string)

  type Addr = a: RawAddr | a.bits < Pow2(Width(a.family)) witness AnyAddr()

  function AnyAddr(): RawAddr {
    RawAddr(V4, 0, "")
  }

  datatype RawPrefix = RawPrefix(family: Family, bits: nat, length: nat)

  type Prefix = p: RawPrefix | p.bits < Pow2(Width(p.family)) && p.length <= Width(p.family)
    witness RawPrefix(V4, 0, 0)

  /** The leading length bits of a width-bit number. */
  function Leading(bits: nat, width: nat, length: nat): nat
    requires length <= width
  {
    Quotient(bits, Pow2(width - length))
  }

  function Quotient(a: nat, d: nat): nat
    requires d > 0
  {
    a / d
  }

  /** netip.Prefix.Contains: an address of the other family or with a zone is in
      no network. */
  predicate Contains(p: Prefix, a: Addr) {
    && p.family == a.family && a.zone == ""
    && Leading(p.bits, Width(p.family), p.length) == Leading(a.bits, Width(p.family), p.length)
  }

  /** netip.Prefix.Masked: the host bits cleared. */
  function Masked(p: Prefix): Prefix {
    p.(bits := ClearLow(p.bits, Pow2(Width(p.family) - p.length)))
  }

  function ClearLow(bits: nat, m: nat): (r: nat)
    requires m > 0
    ensures r <= bits
  {
    bits - bits % m
  }

  /** netip.Addr.Unmap: an IPv4 address written inside ::ffff:0:0/96. */
  function Unmap(a: Addr): Addr {
    assert Pow2(32) == 0x1_0000_0000 by { Pow2Of32(); }
    if a.family.V6? && a.bits / 0x1_0000_0000 == 0xffff
    then RawAddr(V4, a.bits % 0x1_0000_0000, "")
    else a
  }

  /** The IPv4-mapped form of an IPv4 address (section 2.5.5.2 of RFC 4291). */
  function Mapped4(a: Addr): RawAddr {
    RawAddr(V6, 0xffff_0000_0000 + a.bits, "")
  }

  /** Unmap undoes the mapped form, with or without a zone, and leaves every other
      address alone. */
  lemma UnmapUndoesMapping(a: Addr)
    ensures a.family.V4? ==> Unmap(a) == a
    ensures a.family.V6? && Unmap(a).family.V4? ==> a.(zone := "") == Mapped4(Unmap(a)) && Unmap(a).zone == ""
    ensures a.family.V6? && Unmap(a).family.V6? ==>
      Unmap(a) == a && forall b: Addr :: b.family.V4? ==> a.bits != Mapped4(b).bits
  {
    Pow2Of32();
    if a.family.V6? && Unmap(a).family.V6? {
      forall b: Addr | b.family.V4?
        ensures a.bits != Mapped4(b).bits
      {
        assert Mapped4(b).bits / 0x1_0000_0000 == 0xffff;
      }
    }
  }

  lemma Pow2Of32()
    ensures Pow2(32) == 0x1_0000_0000
  {
    assert Pow2(8) == 256;
    assert Pow2(16) == 256 * Pow2(8);
    assert Pow2(24) == 256 * Pow2(16);
    assert Pow2(32) == 256 * Pow2(24);
  }

  lemma {:induction false} Pow2Adds(m: nat, n: nat)
    ensures Pow2(m + n) == Pow2(m) * Pow2(n)
  {
    if n > 0 {
      Pow2Adds(m, n - 1);
    }
  }

  /** How many addresses each family has. */
  lemma AddressSpaces()
    ensures Pow2(Width(V4)) == 0x1_0000_0000
    ensures Pow2(Width(V6)) == 0x1_0000_0000_0000_0000_0000_0000_0000_0000
  {
    Pow2Of32();
    Pow2Adds(32, 32);
    Pow2Adds(64, 64);
  }

  /** Bit i of a width-bit number, counted from the most significant. */
  function Bit(bits: nat, width: nat, i: nat): nat
    requires i < width
  {
    bits / Pow2(width - 1 - i) % 2
  }

  lemma QuotientIs(a: nat, d: nat, q: nat, r: nat)
    requires d > 0 && r < d && a == d * q + r
    ensures a / d == q
  {
    var e := a / d;
    assert a == d * e + a % d;
    assert d * (q - e) == a % d - r;
    SmallMultiple(d, q - e);
  }

  lemma HalfQuotientIs(a: nat, m: nat, h: nat, b: nat, r: nat)
    requires r < m && b <= 1 && a == m * (2 * h + b) + r
    ensures a / (2 * m) == h
  {
    assert m * (2 * h + b) == 2 * m * h + m * b;
    if b == 0 {
      QuotientIs(a, 2 * m, h, r);
    } else {
      QuotientIs(a, 2 * m, h, m + r);
    }
  }

  lemma QuotientOfDouble(a: nat, m: nat)
    requires m > 0
    ensures a / (2 * m) == Quotient(a, m) / 2
  {
    var q := Quotient(a, m);
    HalfQuotientIs(a, m, q / 2, q % 2, a % m);
  }

  /** One more leading bit. */
  lemma LeadingGrows(bits: nat, width: nat, length: nat)
    requires length < width
    ensures Leading(bits, width, length + 1) == 2 * Leading(bits, width, length) + Bit(bits, width, length)
  {
    var m := Pow2(width - length - 1);
    assert Pow2(width - length) == 2 * m;
    QuotientOfDouble(bits, m);
  }

  /** Numbers share their leading bits exactly when those bits agree one by one. */
  lemma {:induction false} LeadingIsBitwise(x: nat, y: nat, width: nat, length: nat)
    requires length <= width && x < Pow2(width) && y < Pow2(width)
    ensures Leading(x, width, length) == Leading(y, width, length)
            <==> forall i :: 0 <= i < length ==> Bit(x, width, i) == Bit(y, width, i)
  {
    if length == 0 {
      QuotientIs(x, Pow2(width), 0, x);
      QuotientIs(y, Pow2(width), 0, y);
    } else {
      LeadingIsBitwise(x, y, width, length - 1);
      LeadingGrows(x, width, length - 1);
      LeadingGrows(y, width, length - 1);
    }
  }

  /** Prefix match as section 3.1 of RFC 4632 describes it: an address is in a
      network exactly when it has the network's family, no zone, and its first
      length bits. */
  lemma ContainsIsPrefixMatch(p: Prefix, a: Addr)
    ensures Contains(p, a) <==>
            && p.family == a.family && a.zone == ""
            && forall i :: 0 <= i < p.length ==> Bit(p.bits, Width(p.family), i) == Bit(a.bits, Width(p.family), i)
  {
    if p.family == a.family {
      LeadingIsBitwise(p.bits, a.bits, Width(p.family), p.length);
    }
  }

  lemma ClearLowKeepsQuotient(x: nat, m: nat)
    requires m > 0
    ensures Quotient(ClearLow(x, m), m) == Quotient(x, m)
  {
    assert x == m * (x / m) + x % m;
    QuotientIs(ClearLow(x, m), m, x / m, 0);
  }

  lemma ClearLowIsMultiple(x: nat, m: nat)
    requires m > 0
    ensures ClearLow(x, m) == Quotient(x, m) * m
  {}

  /** A masked network has no host bits: it is its leading bits alone. */
  lemma MaskedHasNoHostBits(p: Prefix)
    ensures Masked(p).length == p.length && Masked(p).family == p.family
    ensures Masked(p).bits == Leading(p.bits, Width(p.family), p.length) * Pow2(Width(p.family) - p.length)
  {
    ClearLowIsMultiple(p.bits, Pow2(Width(p.family) - p.length));
  }

  /** Clearing the host bits never changes what a network contains. */
  lemma MaskingIsIrrelevant(p: Prefix, a: Addr)
    ensures Contains(Masked(p), a) <==> Contains(p, a)
  {
    ClearLowKeepsQuotient(p.bits, Pow2(Width(p.family) - p.length));
  }
}
