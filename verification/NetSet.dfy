/** The address set: an object holding intervals that normalization rewrites. */
module NetSet {
  import opened Options
  import opened Cidr
  import opened Intervals
  import opened Prefixes
  import Order

  newtype u32 = x: int | 0 <= x < 0x1_0000_0000
  newtype u64 = x: int | 0 <= x < 0x1_0000_0000_0000_0000

  /** A caller's address: IPv4, or anything else, which no set contains. */
  datatype Address = V4(addr: Addr) | Other

  predicate CoversAddress(ivs: seq<Interval>, a: Address) {
    a.V4? && Covers(ivs, a.addr)
  }

  /** 32-bit shift of one: a shift by 32 leaves nothing. */
  function ShiftOne32(k: nat): u32 {
    (Pow2(k) % 0x1_0000_0000) as u32
  }

  function Sub32(a: u32, b: u32): u32 {
    ((a as int - b as int) % 0x1_0000_0000) as u32
  }

  function Add32(a: u32, b: u32): u32 {
    ((a as int + b as int) % 0x1_0000_0000) as u32
  }

  /** 64-bit shift of one, for shifts that stay in range. */
  function ShiftOne64(k: nat): (r: u64)
    requires k <= 32
    ensures r as int == Pow2(k)
  {
    Pow2At32();
    Pow2Monotone(k, 32);
    Pow2(k) as u64
  }

  /** In wrapping 32-bit arithmetic the last address of every block comes out right,
      the whole space included, where the shift wraps to zero. */
  lemma LastAddressWraps(r: Range)
    requires r.Block?
    ensures 0 <= First(r) < TWO32
    ensures Add32(First(r) as u32, Sub32(ShiftOne32(32 - r.bits), 1)) as int == Last(r)
  {
    hide First, Last, Pow2, Sub32, Add32, ShiftOne32;
    BlockBounds(r);
    LastIsEnd(r);
    AddModulo(First(r), Pow2(32 - r.bits));
  }

  lemma LastIsEnd(r: Range)
    requires r.Block?
    ensures 1 <= Pow2(32 - r.bits) <= TWO32
    ensures Last(r) == First(r) + Pow2(32 - r.bits) - 1
    ensures ShiftOne32(32 - r.bits) as int == Pow2(32 - r.bits) % TWO32
  {
    hide ClearLow, Pow2;
    Pow2At32();
    Pow2Monotone(32 - r.bits, 32);
  }

  lemma AddModulo(a: int, n: int)
    requires 0 <= a < TWO32 && 1 <= n <= TWO32 && a + n - 1 < TWO32
    ensures Add32(a as u32, Sub32((n % TWO32) as u32, 1)) as int == a + n - 1
  {
    if n == TWO32 { assert a == 0; }
  }

  class Set {
    var intervals: seq<Interval>

    constructor ()
      ensures intervals == []
    {
      intervals := [];
    }

    /** Sort, then merge overlapping and adjacent neighbours. */
    method Normalize()
      requires Proper(intervals)
      modifies this
      ensures intervals == Canonical(old(intervals))
      ensures Normal(intervals) && SameCoverage(intervals, old(intervals))
    {
      hide Order.Sort, Covers;
      ghost var given := intervals;
      CanonicalMeaning(given);
      if |intervals| == 0 {
        NothingToMerge();
        return;
      }
      intervals := Order.Sort(intervals, Self, IntervalLe);
      Order.SortPermutes(given, Self, IntervalLe);
      var merged := [intervals[0]];
      assert intervals[..1] == [intervals[0]];
      var i := 1;
      while i < |intervals|
        invariant 1 <= i <= |intervals| && |merged| > 0
        invariant intervals == Order.Sort(given, Self, IntervalLe)
        invariant merged == MergeAll(intervals[..i])
      {
        var iv := intervals[i];
        var n := |merged| - 1;
        assert intervals[..i + 1] == intervals[..i] + [iv];
        // This is Absorb's condition, written so that no u32 sum leaves its range.
        if iv.lo <= merged[n].hi || (merged[n].hi != 0xFFFF_FFFF && iv.lo == merged[n].hi + 1) {
          if iv.hi > merged[n].hi {
            merged := merged[n := Interval(merged[n].lo, iv.hi)];
          }
        } else {
          merged := merged + [iv];
        }
        i := i + 1;
      }
      assert intervals[..i] == intervals;
      intervals := merged;
    }

    /** A malformed or non-IPv4 entry fails the whole parse; nothing is skipped. */
    static method Parse(ranges: seq<Range>) returns (s: Set?)
      ensures s != null <==> AllBlocks(ranges)
      ensures s != null ==> fresh(s) && Some(s.intervals) == ParseAll(ranges)
      ensures s != null ==> Normal(s.intervals)
      ensures s != null ==> forall v: int :: Covers(s.intervals, v) <==> RangesCover(ranges, v)
    {
      var out := new Set();
      for i := 0 to |ranges|
        invariant AllBlocks(ranges[..i]) && fresh(out)
        invariant out.intervals == IntervalsOf(ranges[..i])
      {
        var r := ranges[i];
        assert ranges[..i + 1][i] == r;
        if r.Malformed? {
          return null;
        }
        assert ranges[..i + 1] == ranges[..i] + [r];
        LastAddressWraps(r);
        var lo := First(r) as u32;
        var hi := Add32(lo, Sub32(ShiftOne32(32 - r.bits), 1));
        out.intervals := out.intervals + [Interval(lo as int, hi as int)];
      }
      assert ranges[..|ranges|] == ranges;
      IntervalsOfMeaning(ranges);
      out.Normalize();
      ParseAllMeaning(ranges);
      s := out;
    }

    static method Empty() returns (s: Set)
      ensures fresh(s) && s.intervals == []
    {
      s := new Set();
    }

    /** Every IPv4 address. */
    static method All() returns (s: Set)
      ensures fresh(s) && s.intervals == [Interval(0, 0xFFFF_FFFF)]
    {
      var p := Parse([Block(0, 0)]);
      WholeBlock();
      s := p;
    }

    static method Contains(s: Set?, a: Address) returns (b: bool)
      ensures b <==> s != null && CoversAddress(s.intervals, a)
    {
      if s == null || !a.V4? {
        return false;
      }
      for i := 0 to |s.intervals|
        invariant !Covers(s.intervals[..i], a.addr)
      {
        if s.intervals[i].lo <= a.addr <= s.intervals[i].hi {
          return true;
        }
        CoversSnoc(s.intervals[..i], s.intervals[i], a.addr);
        assert s.intervals[..i + 1] == s.intervals[..i] + [s.intervals[i]];
      }
      assert s.intervals[..|s.intervals|] == s.intervals;
      return false;
    }

    static method IsEmpty(s: Set?) returns (b: bool)
      requires s != null ==> Normal(s.intervals)
      ensures b <==> s == null || forall v: Addr :: !Covers(s.intervals, v)
    {
      b := s == null || |s.intervals| == 0;
      if s != null && s.intervals != [] {
        assert Covers(s.intervals, s.intervals[0].lo);
      }
    }

    static method CoversAll(s: Set?) returns (b: bool)
      requires s != null ==> Normal(s.intervals)
      ensures b <==> s != null && forall v: Addr :: Covers(s.intervals, v)
    {
      b := s != null && |s.intervals| == 1 && s.intervals[0].lo == 0 && s.intervals[0].hi == 0xFFFF_FFFF;
      if s != null { WholeSpace(s.intervals); }
    }

    static function View(s: Set?): seq<Interval>
      reads s
    {
      if s == null then [] else s.intervals
    }

    static method Union(s: Set?, o: Set?) returns (out: Set)
      requires Proper(View(s)) && Proper(View(o))
      ensures fresh(out) && out.intervals == UnionOf(View(s), View(o)) && Normal(out.intervals)
      ensures forall v: int :: Covers(out.intervals, v) <==> Covers(View(s), v) || Covers(View(o), v)
    {
      out := new Set();
      if s != null {
        out.intervals := out.intervals + s.intervals;
      }
      if o != null {
        out.intervals := out.intervals + o.intervals;
      }
      assert out.intervals == View(s) + View(o);
      ProperAppend(View(s), View(o));
      UnionIsPointwise(View(s), View(o));
      out.Normalize();
    }

    static method Intersect(s: Set?, o: Set?) returns (out: Set)
      ensures fresh(out) && out.intervals == IntersectOf(View(s), View(o)) && Normal(out.intervals)
      ensures forall v: int :: Covers(out.intervals, v) <==> Covers(View(s), v) && Covers(View(o), v)
    {
      hide Covers, Canonical;
      out := new Set();
      IntersectIsPointwise(View(s), View(o));
      if s == null || o == null {
        ClipWithNothing(View(s), View(o));
        return;
      }
      var a, b := s.intervals, o.intervals;
      for i := 0 to |a|
        invariant fresh(out) && out.intervals == ClipAll(a[..i], b)
      {
        out.AppendOverlaps(a[i], b);
        assert a[..i + 1] == a[..i] + [a[i]];
      }
      assert a[..|a|] == a;
      ClipAllMeaning(a, b, 0);
      out.Normalize();
    }

    /** The inner loop of the intersection: one interval against all of b. */
    method AppendOverlaps(a: Interval, b: seq<Interval>)
      modifies this
      ensures intervals == old(intervals) + ClipRow(a, b)
    {
      for j := 0 to |b|
        invariant intervals == old(intervals) + ClipRow(a, b[..j])
      {
        var lo, hi := a.lo, a.hi;
        if b[j].lo > lo {
          lo := b[j].lo;
        }
        if b[j].hi < hi {
          hi := b[j].hi;
        }
        assert b[..j + 1] == b[..j] + [b[j]];
        if lo <= hi {
          intervals := intervals + [Interval(lo, hi)];
        }
      }
      assert b[..|b|] == b;
    }

    /** The canonical block list, computed with 64-bit counters so that the loop ends
        even when the last address of the space is covered. */
    static method PrefixList(s: Set?) returns (out: seq<Range>)
      requires Normal(View(s))
      ensures out == PrefixesOf(View(s))
    {
      out := [];
      if s == null {
        return;
      }
      for i := 0 to |s.intervals|
        invariant out == PrefixesOf(s.intervals[..i])
      {
        var iv := s.intervals[i];
        assert s.intervals[..i + 1] == s.intervals[..i] + [iv];
        var blocks := IntervalBlocks(iv);
        out := out + blocks;
      }
      assert s.intervals[..|s.intervals|] == s.intervals;
    }

    static method IntervalBlocks(iv: Interval) returns (out: seq<Range>)
      requires iv.lo <= iv.hi
      ensures out == SplitInterval(iv)
    {
      hide Pow2, Aligned, Fit, Split;
      out := [];
      NothingToSplit(iv.hi + 1);
      var lo: u64, hi: u64 := iv.lo as u64, iv.hi as u64;
      while lo <= hi
        invariant iv.lo as int <= lo as int <= hi as int + 1 && hi as int == iv.hi
        invariant out + Split(lo as int, hi as int - lo as int + 1) == SplitInterval(iv)
        decreases hi as int - lo as int + 1
      {
        ghost var n := hi as int - lo as int + 1;
        SplitStep(lo as int, n);
        var bits := LargestFit(lo, hi);
        ghost var before := out;
        out := out + [Block(lo as int, bits)];
        assert out + Split(lo as int + Pow2(32 - bits), n - Pow2(32 - bits)) == before + Split(lo as int, n);
        lo := lo + ShiftOne64(32 - bits);
      }
    }

    /** The inner loop: the shortest prefix that starts at lo and fits below hi. */
    static method LargestFit(lo: u64, hi: u64) returns (bits: PrefixLen)
      requires lo <= hi < 0x1_0000_0000
      ensures bits == 32 - Fit(lo as int, hi as int - lo as int + 1)
    {
      hide Pow2, Aligned;
      ghost var n := hi as int - lo as int + 1;
      FitStarts(lo as int, n);
      bits := 32;
      var b := 0;
      while b <= 32
        invariant 0 <= b <= 33
        invariant b == 0 ==> bits == 32
        invariant b > 0 ==> bits == 33 - b && FitFrom(lo as int, n, b - 1) == Fit(lo as int, n)
      {
        var size: u64 := ShiftOne64(b);
        AlignedIsMultiple(lo as int, b);
        assert size > hi - lo + 1 || lo % size != 0 <==> Pow2(b) > n || !Aligned(lo as int, b);
        if size > hi - lo + 1 || lo % size != 0 {
          break;
        }
        bits := 32 - b;
        b := b + 1;
      }
    }

    /** Equal prefix lists decide equal coverage. */
    static method Equal(s: Set?, o: Set?) returns (eq: bool)
      requires Normal(View(s)) && Normal(View(o))
      ensures eq <==> SameCoverage(View(s), View(o))
    {
      hide PrefixesOf, SameCoverage, Covers;
      PrefixesDecideCoverage(View(s), View(o));
      var a := PrefixList(s);
      var b := PrefixList(o);
      if |a| != |b| {
        return false;
      }
      for i := 0 to |a|
        invariant a[..i] == b[..i]
      {
        if a[i] != b[i] {
          return false;
        }
      }
      return true;
    }
  }

  lemma NothingToMerge()
    ensures Canonical([]) == []
  {
  }

  lemma NothingToSplit(lo: int)
    requires 0 <= lo <= TWO32
    ensures Split(lo, 0) == []
  {
  }

  lemma SplitStep(lo: int, n: int)
    requires 0 <= lo && 1 <= n && lo + n <= TWO32
    ensures Fit(lo, n) <= 32 && Pow2(Fit(lo, n)) <= n
    ensures Split(lo, n) == [Block(lo, 32 - Fit(lo, n))] + Split(lo + Pow2(Fit(lo, n)), n - Pow2(Fit(lo, n)))
  {
    FitBounds(lo, n);
  }

  lemma FitStarts(lo: int, n: int)
    requires n >= 1
    ensures Fit(lo, n) == FitFrom(lo, n, 0)
    ensures Pow2(0) == 1 && Aligned(lo, 0)
  {
  }

  lemma WholeBlock()
    ensures AllBlocks([Block(0, 0)]) && ParseAll([Block(0, 0)]) == Some([Interval(0, 0xFFFF_FFFF)])
  {
    var rs, whole := [Block(0, 0)], [Interval(0, 0xFFFF_FFFF)];
    ParseAllMeaning(rs);
    BlockBounds(rs[0]);
    Pow2At32();
    forall v ensures Covers(ParseAll(rs).value, v) <==> Covers(whole, v) {
      assert RangesCover(rs, v) <==> InRange(rs[0], v);
      assert Covers(whole, v) <==> whole[0].lo <= v <= whole[0].hi;
    }
    CanonicalUnique(ParseAll(rs).value, whole);
  }

  lemma ClipWithNothing(a: seq<Interval>, b: seq<Interval>)
    requires a == [] || b == []
    ensures IntersectOf(a, b) == []
  {
    IntersectIsPointwise(a, b);
    var c := IntersectOf(a, b);
    forall v ensures Covers(c, v) <==> Covers([], v) {}
    CanonicalUnique(c, []);
  }
}
