/** IPv4 addresses and CIDR blocks (prefix notation of section 3.1 of RFC 4632).
    Masking and alignment are defined by halving, which keeps every proof linear;
    MaskIsRemainder and AlignedIsMultiple tie them to the usual arithmetic. */
module Cidr {

  const TWO32: int := 0x1_0000_0000

  type Addr = a: int | 0 <= a < 0x1_0000_0000
  type PrefixLen = n: int | 0 <= n <= 32

  function Pow2(n: nat): (r: int)
    ensures r > 0
  {
    if n == 0 then 1 else 2 * Pow2(n - 1)
  }

  lemma Pow2Adds(a: nat, b: nat)
    ensures Pow2(a + b) == Pow2(a) * Pow2(b)
  {
    if a > 0 {
      Pow2Adds(a - 1, b);
      assert Pow2(a + b) == 2 * Pow2(a - 1 + b);
      assert 2 * (Pow2(a - 1) * Pow2(b)) == (2 * Pow2(a - 1)) * Pow2(b);
    }
  }

  lemma Pow2Monotone(a: nat, b: nat)
    requires a <= b
    ensures Pow2(a) <= Pow2(b)
    ensures a < b ==> 2 * Pow2(a) <= Pow2(b)
    decreases b
  {
    if a < b { Pow2Monotone(a, b - 1); }
  }

  lemma Pow2At32()
    ensures Pow2(32) == TWO32 && 2 * Pow2(31) == TWO32
  {
    assert Pow2(8) == 256;
    Pow2Adds(8, 8);
    Pow2Adds(16, 16);
  }

  /** x with its e low bits cleared. */
  function ClearLow(x: int, e: nat): int
    decreases e
  {
    if e == 0 then x else 2 * ClearLow(x / 2, e - 1)
  }

  /** lo is a multiple of 2^e. */
  predicate Aligned(lo: int, e: nat)
    decreases e
  {
    e == 0 || (lo % 2 == 0 && Aligned(lo / 2, e - 1))
  }

  /** A source range as configuration spells it: a block whose host bits may be set,
      or a text that is no IPv4 block. */
  datatype Range =
    | Block(addr: Addr, bits: PrefixLen)
    | Malformed(text: string)

  /** First and last address of a block, host bits cleared and set. */
  function First(r: Range): int
    requires r.Block?
  {
    ClearLow(r.addr, 32 - r.bits)
  }

  function Last(r: Range): int
    requires r.Block?
  {
    First(r) + Pow2(32 - r.bits) - 1
  }

  predicate InRange(r: Range, v: int) {
    r.Block? && First(r) <= v <= Last(r)
  }

  predicate Inside(inner: Range, outer: Range)
    requires inner.Block? && outer.Block?
  {
    First(outer) <= First(inner) && Last(inner) <= Last(outer)
  }

  // ---- Masking ------------------------------------------------------------------------

  lemma {:induction false} ClearLowBounds(x: int, e: nat, n: nat)
    requires e <= n && 0 <= x < Pow2(n)
    ensures 0 <= ClearLow(x, e) <= x < ClearLow(x, e) + Pow2(e) <= Pow2(n)
    decreases e
  {
    if e > 0 { ClearLowBounds(x / 2, e - 1, n - 1); }
  }

  lemma BlockBounds(r: Range)
    requires r.Block?
    ensures 0 <= First(r) <= r.addr <= Last(r) < TWO32
  {
    Pow2At32();
    ClearLowBounds(r.addr, 32 - r.bits, 32);
  }

  /** Clearing the low bits of an aligned start plus a small offset gives the start. */
  lemma {:induction false} ClearLowFrom(lo: int, offset: int, e: nat)
    requires Aligned(lo, e) && 0 <= offset < Pow2(e)
    ensures ClearLow(lo + offset, e) == lo
    decreases e
  {
    if e > 0 {
      ClearLowFrom(lo / 2, offset / 2, e - 1);
      assert (lo + offset) / 2 == lo / 2 + offset / 2;
    }
  }

  /** Masking is the usual subtraction of the remainder. */
  lemma MaskIsRemainder(x: int, e: nat)
    ensures ClearLow(x, e) == x - x % Pow2(e)
  {
    var s, r := Pow2(e), x % Pow2(e);
    assert x - r == s * (x / s);
    MultipleAligned(s, x / s);
    AlignedIsMultiple(x - r, e);
    ClearLowFrom(x - r, r, e);
  }

  // ---- Alignment ----------------------------------------------------------------------

  lemma MultipleAligned(s: int, q: int)
    requires s > 0
    ensures (s * q) % s == 0 && (s * q) / s == q
  {
    var d, m := (s * q) / s, (s * q) % s;
    assert s * q == s * d + m;
    if d < q { MulSteps(s, d, q); }
    if q < d { MulSteps(s, q, d); }
  }

  lemma MulSteps(s: int, p: int, q: int)
    requires s > 0 && p < q
    ensures s * p + s <= s * q
    decreases q - p
  {
    if p + 1 < q { MulSteps(s, p, q - 1); }
    assert s * q == s * (q - 1) + s;
  }

  lemma {:induction false} AlignedIsMultiple(lo: int, e: nat)
    ensures Aligned(lo, e) <==> lo % Pow2(e) == 0
    decreases e
  {
    if e > 0 {
      AlignedIsMultiple(lo / 2, e - 1);
      HalfMultiple(lo, Pow2(e - 1));
    }
  }

  lemma HalfMultiple(lo: int, s: int)
    requires s > 0
    ensures lo % (2 * s) == 0 <==> lo % 2 == 0 && (lo / 2) % s == 0
  {
    if lo % (2 * s) == 0 {
      var q := lo / (2 * s);
      assert lo == (2 * s) * q == 2 * (s * q);
      MultipleAligned(s, q);
    }
    if lo % 2 == 0 && (lo / 2) % s == 0 {
      var q := (lo / 2) / s;
      assert lo == 2 * (s * q) == (2 * s) * q;
      MultipleAligned(2 * s, q);
    }
  }

  /** What is aligned to a power of two is aligned to every smaller one. */
  lemma AlignedDown(lo: int, a: nat, b: nat)
    requires a <= b && Aligned(lo, b)
    ensures Aligned(lo, a)
    decreases a
  {
    if a > 0 { AlignedDown(lo / 2, a - 1, b - 1); }
  }

  /** Adding 2^a keeps alignment to 2^a and flips alignment to 2^(a+1). */
  lemma AlignedAdd(lo: int, a: nat)
    requires Aligned(lo, a)
    ensures Aligned(lo + Pow2(a), a)
    ensures Aligned(lo + Pow2(a), a + 1) != Aligned(lo, a + 1)
    decreases a
  {
    if a > 0 {
      AlignedAdd(lo / 2, a - 1);
      assert (lo + Pow2(a)) / 2 == lo / 2 + Pow2(a - 1);
    }
  }

  lemma AlignedSub(lo: int, a: nat)
    requires Aligned(lo, a) && !Aligned(lo, a + 1)
    ensures Aligned(lo - Pow2(a), a + 1)
    decreases a
  {
    if a > 0 {
      AlignedSub(lo / 2, a - 1);
      assert (lo - Pow2(a)) / 2 == lo / 2 - Pow2(a - 1);
    }
  }

  // ---- Two blocks are nested or disjoint ----------------------------------------------

  lemma {:induction false} MaskedNested(x: int, a: nat, y: int, b: nat)
    requires a <= b
    ensures
      || (ClearLow(y, b) <= ClearLow(x, a) && ClearLow(x, a) + Pow2(a) <= ClearLow(y, b) + Pow2(b))
      || ClearLow(x, a) + Pow2(a) <= ClearLow(y, b)
      || ClearLow(y, b) + Pow2(b) <= ClearLow(x, a)
    decreases a
  {
    if a > 0 { MaskedNested(x / 2, a - 1, y / 2, b - 1); }
  }

  lemma NestedOrDisjoint(a: Range, b: Range)
    requires a.Block? && b.Block? && a.bits <= b.bits
    ensures Inside(b, a) || Last(b) < First(a) || Last(a) < First(b)
  {
    MaskedNested(b.addr, 32 - b.bits, a.addr, 32 - a.bits);
  }

  /** Blocks that share an address are nested, the longer prefix inside. */
  lemma SharingNests(a: Range, b: Range, v: int)
    requires InRange(a, v) && InRange(b, v) && a.bits <= b.bits
    ensures Inside(b, a)
  {
    NestedOrDisjoint(a, b);
  }

  /** The block of size 2^e around an aligned start. */
  lemma BlockFrom(lo: int, offset: int, e: nat)
    requires e <= 32 && Aligned(lo, e) && 0 <= offset < Pow2(e) && 0 <= lo + offset < TWO32
    ensures First(Block(lo + offset, 32 - e)) == lo
    ensures Last(Block(lo + offset, 32 - e)) == lo + Pow2(e) - 1
  {
    ClearLowFrom(lo, offset, e);
  }
}
