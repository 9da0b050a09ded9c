/** The greedy split of canonical intervals into aligned blocks: it tiles the coverage,
    every block is maximal, the list is the shortest one, and it determines the coverage. */
module Prefixes {
  import opened Options
  import opened Cidr
  import opened Intervals

  /** Largest exponent the inner loop reaches from b: the block must fit in n addresses
      and start on its own boundary. */
  function FitFrom(lo: int, n: int, b: nat): nat
    requires b <= 32
    decreases 32 - b, n
  {
    if b == 32 || Pow2(b + 1) > n || !Aligned(lo, b + 1) then b else FitFrom(lo, n, b + 1)
  }

  function Fit(lo: int, n: int): nat {
    FitFrom(lo, n, 0)
  }

  /** The exponent fits, is aligned, and the next one is not both. */
  lemma {:induction false} FitIsLargest(lo: int, n: int, b: nat)
    requires b <= 32 && Pow2(b) <= n && Aligned(lo, b)
    ensures b <= FitFrom(lo, n, b) <= 32
    ensures Pow2(FitFrom(lo, n, b)) <= n && Aligned(lo, FitFrom(lo, n, b))
    ensures FitFrom(lo, n, b) == 32 || Pow2(FitFrom(lo, n, b) + 1) > n || !Aligned(lo, FitFrom(lo, n, b) + 1)
    decreases 32 - b
  {
    if b < 32 && Pow2(b + 1) <= n && Aligned(lo, b + 1) { FitIsLargest(lo, n, b + 1); }
  }

  lemma FitBounds(lo: int, n: int)
    requires n >= 1
    ensures Fit(lo, n) <= 32 && Pow2(Fit(lo, n)) <= n && Aligned(lo, Fit(lo, n))
    ensures Fit(lo, n) == 32 || 2 * Pow2(Fit(lo, n)) > n || !Aligned(lo, Fit(lo, n) + 1)
  {
    FitIsLargest(lo, n, 0);
  }

  /** The blocks emitted for the n addresses from lo on. */
  function Split(lo: int, n: int): seq<Range>
    requires 0 <= lo && 0 <= n && lo + n <= TWO32
    decreases n
  {
    if n == 0 then []
    else
      FitBounds(lo, n);
      var b := Fit(lo, n);
      [Block(lo, 32 - b)] + Split(lo + Pow2(b), n - Pow2(b))
  }

  function PrefixesOf(ivs: seq<Interval>): seq<Range>
    requires Proper(ivs)
  {
    if ivs == [] then []
    else PrefixesOf(ivs[..|ivs| - 1]) + SplitInterval(ivs[|ivs| - 1])
  }

  function SplitInterval(iv: Interval): seq<Range>
    requires iv.lo <= iv.hi
  {
    Split(iv.lo, iv.hi - iv.lo + 1)
  }

  /** A block written with its host bits cleared. */
  predicate Masked(r: Range) {
    r.Block? && First(r) == r.addr
  }

  predicate AllMasked(rs: seq<Range>) {
    forall i :: 0 <= i < |rs| ==> Masked(rs[i])
  }

  /** Blocks laid end to end from lo up to, and not including, end. */
  predicate Tiles(bs: seq<Range>, lo: int, end: int) {
    if bs == [] then lo == end
    else Masked(bs[0]) && First(bs[0]) == lo && Tiles(bs[1..], Last(bs[0]) + 1, end)
  }

  predicate Ascending(bs: seq<Range>)
    requires AllBlocks(bs)
  {
    forall i, j :: 0 <= i < j < |bs| ==> Last(bs[i]) < First(bs[j])
  }

  lemma {:induction false} SplitTiles(lo: int, n: int)
    requires 0 <= lo && 0 <= n && lo + n <= TWO32
    ensures Tiles(Split(lo, n), lo, lo + n)
    decreases n
  {
    hide Aligned, ClearLow, Pow2, Fit;
    if n > 0 {
      FitBounds(lo, n);
      var b := Fit(lo, n);
      BlockFrom(lo, 0, b);
      var lo', n' := lo + Pow2(b), n - Pow2(b);
      SplitTiles(lo', n');
      assert Split(lo, n)[1..] == Split(lo', n');
      assert lo' + n' == lo + n && Last(Block(lo, 32 - b)) + 1 == lo';
    }
  }

  lemma {:induction false} TilesMeaning(bs: seq<Range>, lo: int, end: int)
    requires Tiles(bs, lo, end)
    ensures AllMasked(bs) && Ascending(bs)
    ensures lo <= end
    ensures forall i :: 0 <= i < |bs| ==> lo <= First(bs[i]) && Last(bs[i]) < end
    ensures forall v: int :: RangesCover(bs, v) <==> lo <= v < end
  {
    if bs != [] {
      var rest := bs[1..];
      TilesMeaning(rest, Last(bs[0]) + 1, end);
      forall i | 0 <= i < |bs| ensures Masked(bs[i]) && lo <= First(bs[i]) && Last(bs[i]) < end {
        assert i > 0 ==> bs[i] == rest[i - 1];
      }
      forall i, j | 0 <= i < j < |bs| ensures Last(bs[i]) < First(bs[j]) {
        assert bs[j] == rest[j - 1];
        assert i > 0 ==> bs[i] == rest[i - 1];
      }
      forall v ensures RangesCover(bs, v) <==> lo <= v < end {
        assert RangesCover(bs, v) <==> InRange(bs[0], v) || RangesCover(rest, v) by {
          RangesCoverAppend([bs[0]], rest, v);
          assert bs == [bs[0]] + rest;
          assert RangesCover([bs[0]], v) <==> InRange([bs[0]][0], v);
        }
      }
    }
  }

  lemma RangesCoverAppend(a: seq<Range>, b: seq<Range>, v: int)
    ensures RangesCover(a + b, v) <==> RangesCover(a, v) || RangesCover(b, v)
  {
    if RangesCover(a, v) {
      var i :| 0 <= i < |a| && InRange(a[i], v);
      assert (a + b)[i] == a[i];
    }
    if RangesCover(b, v) {
      var i :| 0 <= i < |b| && InRange(b[i], v);
      assert (a + b)[|a| + i] == b[i];
    }
  }

  /** All blocks end at or before the given address. */
  predicate EndsBy(bs: seq<Range>, last: int) {
    forall i :: 0 <= i < |bs| ==> bs[i].Block? && Last(bs[i]) <= last
  }

  lemma AppendBlocks(front: seq<Range>, tail: seq<Range>, lo: int, end: int)
    requires AllMasked(front) && Ascending(front) && EndsBy(front, lo - 1)
    requires Tiles(tail, lo, end)
    ensures AllMasked(front + tail) && Ascending(front + tail) && EndsBy(front + tail, end - 1)
  {
    hide Tiles, First, Last;
    TilesMeaning(tail, lo, end);
  }

  /** The list is masked, ascending and disjoint, and covers exactly the intervals. */
  lemma {:induction false} PrefixesTile(ivs: seq<Interval>)
    requires Normal(ivs)
    ensures AllMasked(PrefixesOf(ivs)) && Ascending(PrefixesOf(ivs))
    ensures forall v: int :: RangesCover(PrefixesOf(ivs), v) <==> Covers(ivs, v)
    ensures ivs != [] ==> EndsBy(PrefixesOf(ivs), ivs[|ivs| - 1].hi)
  {
    hide Split, Tiles, First, Last, RangesCover, Covers, EndsBy;
    if ivs != [] {
      var n := |ivs| - 1;
      var iv := ivs[n];
      var front, tail := PrefixesOf(ivs[..n]), SplitInterval(iv);
      PrefixesTile(ivs[..n]);
      SplitTiles(iv.lo, iv.hi - iv.lo + 1);
      TilesMeaning(tail, iv.lo, iv.hi + 1);
      EndsLater(ivs[..n], front, iv);
      AppendBlocks(front, tail, iv.lo, iv.hi + 1);
      forall v ensures RangesCover(PrefixesOf(ivs), v) <==> Covers(ivs, v) {
        RangesCoverAppend(front, tail, v);
        CoversSnoc(ivs[..n], iv, v);
        assert ivs == ivs[..n] + [iv];
      }
    } else {
      NoBlocks();
    }
  }

  lemma NoBlocks()
    ensures forall v: int :: !RangesCover([], v) && !Covers([], v)
  {
  }

  lemma EndsLater(before: seq<Interval>, bs: seq<Range>, iv: Interval)
    requires Normal(before + [iv]) && (before == [] ==> bs == [])
    requires before != [] ==> EndsBy(bs, before[|before| - 1].hi)
    ensures EndsBy(bs, iv.lo - 1)
  {
    if before != [] {
      assert (before + [iv])[|before| - 1].hi + 1 < (before + [iv])[|before|].lo;
    }
  }

  // ---- Maximality ---------------------------------------------------------------------

  /** The greedy invariant: whenever the remaining start is no multiple of twice a block
      size that would fit, its buddy block already reaches below the interval. */
  ghost predicate BuddiesBelow(start: int, lo: int, n: int) {
    forall e: nat :: e <= 32 && Pow2(e) <= n && Aligned(lo, e) && !Aligned(lo, e + 1)
      ==> lo == start || lo - Pow2(e) < start
  }

  /** The aligned block of twice the size around a block. */
  function Parent(r: Range): Range
    requires r.Block? && r.bits > 0
  {
    Block(r.addr, r.bits - 1)
  }

  /** r lies in [start, end) and is the whole space or has a parent that does not. */
  predicate MaximalIn(r: Range, start: int, end: int) {
    && r.Block? && start <= First(r) && Last(r) < end
    && (r.bits == 0 || First(Parent(r)) < start || end <= Last(Parent(r)))
  }

  lemma BuddiesStep(start: int, lo: int, n: int)
    requires 0 <= start <= lo && 1 <= n && lo + n <= TWO32
    requires BuddiesBelow(start, lo, n)
    ensures BuddiesBelow(start, lo + Pow2(Fit(lo, n)), n - Pow2(Fit(lo, n)))
  {
    hide Aligned, ClearLow, Pow2, Fit;
    FitBounds(lo, n);
    var c := Fit(lo, n);
    var lo', n' := lo + Pow2(c), n - Pow2(c);
    AlignedAdd(lo, c);
    Pow2At32();
    forall e: nat | e <= 32 && Pow2(e) <= n' && Aligned(lo', e) && !Aligned(lo', e + 1)
      ensures lo' == start || lo' - Pow2(e) < start
    {
      if c < 32 && !Aligned(lo, c + 1) {
        if e <= c { AlignedDown(lo', e + 1, c + 1); }
        Pow2Monotone(c, e);
      } else {
        if e < c { AlignedDown(lo', e + 1, c); } else { Pow2Monotone(c, e); }
      }
    }
  }

  lemma ParentStart(lo: int, c: nat)
    requires 0 <= lo < TWO32 && c < 32 && Aligned(lo, c)
    ensures First(Parent(Block(lo, 32 - c))) == if Aligned(lo, c + 1) then lo else lo - Pow2(c)
    ensures Last(Parent(Block(lo, 32 - c))) == First(Parent(Block(lo, 32 - c))) + 2 * Pow2(c) - 1
  {
    if Aligned(lo, c + 1) {
      BlockFrom(lo, 0, c + 1);
    } else {
      AlignedSub(lo, c);
      BlockFrom(lo - Pow2(c), Pow2(c), c + 1);
    }
  }

  lemma FirstBlockMaximal(start: int, lo: int, n: int)
    requires 0 <= start <= lo && 1 <= n && lo + n <= TWO32
    requires BuddiesBelow(start, lo, n)
    ensures Fit(lo, n) <= 32 && MaximalIn(Block(lo, 32 - Fit(lo, n)), start, lo + n)
  {
    hide Aligned, ClearLow, Pow2, Fit, Split;
    FitBounds(lo, n);
    var c := Fit(lo, n);
    BlockFrom(lo, 0, c);
    if c < 32 { ParentStart(lo, c); }
  }

  lemma {:induction false} SplitMaximal(start: int, lo: int, n: int)
    requires 0 <= start <= lo && 0 <= n && lo + n <= TWO32
    requires BuddiesBelow(start, lo, n)
    ensures forall i :: 0 <= i < |Split(lo, n)| ==> MaximalIn(Split(lo, n)[i], start, lo + n)
    decreases n
  {
    hide Aligned, ClearLow, Pow2, Fit, MaximalIn, BuddiesBelow;
    if n > 0 {
      FitBounds(lo, n);
      var b := Fit(lo, n);
      FirstBlockMaximal(start, lo, n);
      BuddiesStep(start, lo, n);
      SplitMaximal(start, lo + Pow2(b), n - Pow2(b));
    }
  }

  /** Every emitted block lies in one interval, and is maximal there. */
  lemma {:induction false} PrefixesMaximal(ivs: seq<Interval>, i: nat) returns (k: nat)
    requires Normal(ivs) && i < |PrefixesOf(ivs)|
    ensures k < |ivs| && MaximalIn(PrefixesOf(ivs)[i], ivs[k].lo, ivs[k].hi + 1)
  {
    hide Aligned, ClearLow, Pow2, Split, MaximalIn;
    var n := |ivs| - 1;
    var front := PrefixesOf(ivs[..n]);
    if i < |front| {
      k := PrefixesMaximal(ivs[..n], i);
    } else {
      SplitMaximal(ivs[n].lo, ivs[n].lo, ivs[n].hi - ivs[n].lo + 1);
      k := n;
    }
  }

  /** Any block inside the coverage that meets an emitted block lies inside it. */
  lemma EmittedBlocksAbsorb(ivs: seq<Interval>, i: nat, q: Range, v: int)
    requires Normal(ivs) && i < |PrefixesOf(ivs)|
    requires InRange(q, v) && InRange(PrefixesOf(ivs)[i], v)
    requires forall w: int :: InRange(q, w) ==> Covers(ivs, w)
    ensures Inside(q, PrefixesOf(ivs)[i])
  {
    var p := PrefixesOf(ivs)[i];
    if p.bits <= q.bits {
      SharingNests(p, q, v);
    } else {
      SharingNests(q, p, v);
      var k := PrefixesMaximal(ivs, i);
      var parent := Parent(p);
      BlockBounds(parent);
      SharingNests(q, parent, p.addr) by { BlockBounds(p); }
      NothingTouches(ivs, k, ivs[k].lo - 1);
      NothingTouches(ivs, k, ivs[k].hi + 1);
    }
  }

  // ---- The shortest list --------------------------------------------------------------

  predicate HoldsOneOf(b: Range, rs: seq<Range>)
    requires b.Block? && AllBlocks(rs)
  {
    exists j :: 0 <= j < |rs| && Inside(rs[j], b)
  }

  /** Pairwise disjoint blocks that each hold a block of the list number at most its length. */
  lemma {:induction false} Pigeonhole(bs: seq<Range>, rs: seq<Range>)
    requires AllBlocks(bs) && Ascending(bs) && AllBlocks(rs)
    requires forall i :: 0 <= i < |bs| ==> HoldsOneOf(bs[i], rs)
    ensures |bs| <= |rs|
  {
    if bs != [] {
      var n := |bs| - 1;
      assert HoldsOneOf(bs[n], rs);
      var j :| 0 <= j < |rs| && Inside(rs[j], bs[n]);
      var rest := rs[..j] + rs[j + 1..];
      forall i | 0 <= i < n ensures HoldsOneOf(bs[..n][i], rest) {
        assert HoldsOneOf(bs[i], rs);
        var k :| 0 <= k < |rs| && Inside(rs[k], bs[i]);
        BlockBounds(rs[k]);
        assert k != j;
        assert rs[k] == if k < j then rest[k] else rest[k - 1];
      }
      Pigeonhole(bs[..n], rest);
    }
  }

  /** No list of blocks with the same coverage is shorter. */
  lemma PrefixesShortest(ivs: seq<Interval>, rs: seq<Range>)
    requires Normal(ivs) && AllBlocks(rs)
    requires forall v: int :: RangesCover(rs, v) <==> Covers(ivs, v)
    ensures |PrefixesOf(ivs)| <= |rs|
  {
    var bs := PrefixesOf(ivs);
    PrefixesTile(ivs);
    MaskedAreBlocks(bs);
    forall i | 0 <= i < |bs| ensures HoldsOneOf(bs[i], rs) {
      var j := EmittedHoldsOne(ivs, rs, i);
    }
    Pigeonhole(bs, rs);
  }

  lemma EmittedHoldsOne(ivs: seq<Interval>, rs: seq<Range>, i: nat) returns (j: nat)
    requires Normal(ivs) && AllBlocks(rs) && i < |PrefixesOf(ivs)|
    requires forall v: int :: RangesCover(rs, v) <==> Covers(ivs, v)
    ensures PrefixesOf(ivs)[i].Block? && j < |rs| && Inside(rs[j], PrefixesOf(ivs)[i])
  {
    PrefixesTile(ivs);
    var b := PrefixesOf(ivs)[i];
    BlockBounds(b);
    assert InRange(b, b.addr) && RangesCover(PrefixesOf(ivs), b.addr) && Covers(ivs, b.addr);
    j :| 0 <= j < |rs| && InRange(rs[j], b.addr);
    forall w: int | InRange(rs[j], w) ensures Covers(ivs, w) { assert RangesCover(rs, w); }
    EmittedBlocksAbsorb(ivs, i, rs[j], b.addr);
  }

  // ---- At most 62 blocks per interval -------------------------------------------------

  /** Once the remainder is below the start's alignment, block sizes strictly fall. */
  lemma {:induction false} CountDown(lo: int, n: int, e: nat)
    requires 0 <= lo && 0 <= n < Pow2(e) && lo + n <= TWO32 && Aligned(lo, e)
    ensures |Split(lo, n)| <= e
    decreases n
  {
    hide Aligned, ClearLow, Pow2, Fit;
    if n > 0 {
      FitBounds(lo, n);
      var b := Fit(lo, n);
      Pow2At32();
      if b >= e { Pow2Monotone(e, b); }
      if b < e && !Aligned(lo, b + 1) { AlignedDown(lo, b + 1, e); }
      AlignedAdd(lo, b);
      CountDown(lo + Pow2(b), n - Pow2(b), b);
    }
  }

  /** While the start's alignment limits the size, block sizes strictly rise. */
  lemma {:induction false} CountUp(lo: int, n: int, a: nat)
    requires 0 < lo && 0 <= n && lo + n <= TWO32 && a <= 32 && Aligned(lo, a)
    ensures |Split(lo, n)| <= (if a <= 31 then 31 - a else 0) + 31
    decreases n
  {
    hide Aligned, ClearLow, Pow2, Fit;
    if n > 0 {
      FitBounds(lo, n);
      var b := Fit(lo, n);
      Pow2At32();
      AlignedAdd(lo, b);
      AlignedPositive(lo, b);
      var lo', n' := lo + Pow2(b), n - Pow2(b);
      assert Split(lo, n) == [Block(lo, 32 - b)] + Split(lo', n');
      if b >= 31 {
        Pow2Monotone(31, b);
        assert 2 * Pow2(31) == TWO32;
        assert n' == 0;
      } else if 2 * Pow2(b) > n {
        CountDown(lo', n', b);
      } else {
        if b < a { AlignedDown(lo, b + 1, a); }
        CountUp(lo', n', b + 1);
      }
    }
  }

  lemma AlignedPositive(lo: int, e: nat)
    requires Aligned(lo, e) && 0 < lo
    ensures Pow2(e) <= lo
    decreases e
  {
    if e > 0 { AlignedPositive(lo / 2, e - 1); }
  }

  lemma AtMost62Blocks(iv: Interval)
    requires iv.lo <= iv.hi
    ensures |SplitInterval(iv)| <= 62
  {
    hide Aligned, ClearLow, Pow2, Fit;
    var n := iv.hi - iv.lo + 1;
    if iv.lo > 0 {
      AlignedZero(iv.lo);
      CountUp(iv.lo, n, 0);
    } else {
      FitBounds(0, n);
      var b := Fit(0, n);
      ZeroAligned(b + 1);
      Pow2At32();
      assert Split(0, n) == [Block(0, 32 - b)] + Split(0 + Pow2(b), n - Pow2(b));
      if b < 32 { CountDown(Pow2(b), n - Pow2(b), b) by { AlignedAdd(0, b); } }
    }
  }

  // ---- The bound is reached -----------------------------------------------------------

  lemma PowerDoubles(e: nat)
    ensures Pow2(e) == if e == 0 then 1 else 2 * Pow2(e - 1)
  {
  }

  /** From an aligned start, one address short of the alignment: every size below it. */
  lemma {:induction false} CountDownExactly(lo: int, e: nat)
    requires 0 <= lo && lo + Pow2(e) - 1 <= TWO32 && Aligned(lo, e)
    ensures |Split(lo, Pow2(e) - 1)| == e
    decreases e
  {
    hide Aligned, ClearLow, Fit, Pow2;
    PowerDoubles(e);
    if e > 0 {
      var n := Pow2(e) - 1;
      FitBounds(lo, n);
      var b := Fit(lo, n);
      Pow2At32();
      if b >= e { Pow2Monotone(e, b); }
      if b < e - 1 {
        Pow2Monotone(b, e - 1);
        AlignedDown(lo, b + 1, e);
      }
      AlignedDown(lo, e - 1, e);
      AlignedAdd(lo, e - 1);
      CountDownExactly(lo + Pow2(e - 1), e - 1);
    }
  }

  /** From a power of two up to the last address but one: every size up to 2^30, then down. */
  lemma {:induction false} CountUpExactly(a: nat)
    requires a <= 31
    ensures Pow2(a) <= TWO32 - 1
    ensures |Split(Pow2(a), TWO32 - 1 - Pow2(a))| == (31 - a) + 31
    decreases 31 - a
  {
    hide Aligned, ClearLow, Fit;
    var lo := Pow2(a);
    Pow2At32();
    Pow2Monotone(a, 31);
    PowerAligned(a);
    if a == 31 {
      CountDownExactly(lo, 31);
    } else {
      Pow2Monotone(a, 30);
      var n := TWO32 - 1 - lo;
      FitBounds(lo, n);
      var b := Fit(lo, n);
      AlignedPositive(lo, b);
      if b > a { Pow2Monotone(a, b); }
      if b < a {
        Pow2Monotone(b, a);
        AlignedDown(lo, b + 1, a);
      }
      CountUpExactly(a + 1);
    }
  }

  lemma PowerAligned(a: nat)
    ensures Aligned(Pow2(a), a)
  {
    ZeroAligned(a);
    AlignedAdd(0, a);
  }

  /** Everything but the first and the last address takes all 62 blocks. */
  lemma SixtyTwoBlocksAreNeeded()
    ensures |SplitInterval(Interval(1, 0xFFFF_FFFE))| == 62
  {
    hide Split;
    assert Pow2(0) == 1;
    CountUpExactly(0);
  }

  lemma AlignedZero(lo: int)
    ensures Aligned(lo, 0)
  {
  }

  lemma ZeroAligned(b: nat)
    ensures Aligned(0, b)
  {
  }

  // ---- Round trip and injectivity -----------------------------------------------------

  lemma MaskedAreBlocks(rs: seq<Range>)
    requires AllMasked(rs)
    ensures AllBlocks(rs)
  {
  }

  /** Parsing the rendered prefixes gives back the set. */
  lemma RoundTrip(ivs: seq<Interval>)
    requires Normal(ivs)
    ensures ParseAll(PrefixesOf(ivs)) == Some(ivs)
  {
    PrefixesTile(ivs);
    ParseAllMeaning(PrefixesOf(ivs));
    CanonicalUnique(ParseAll(PrefixesOf(ivs)).value, ivs);
  }

  /** Equal prefixes exactly when equal coverage. */
  lemma PrefixesDecideCoverage(a: seq<Interval>, b: seq<Interval>)
    requires Normal(a) && Normal(b)
    ensures PrefixesOf(a) == PrefixesOf(b) <==> SameCoverage(a, b)
    ensures SameCoverage(a, b) <==> a == b
  {
    if PrefixesOf(a) == PrefixesOf(b) {
      RoundTrip(a);
      RoundTrip(b);
    }
    if SameCoverage(a, b) { CanonicalUnique(a, b); }
  }
}
