/** Address intervals: coverage, the canonical form, and set operations on it. */
module Intervals {
  import opened Options
  import opened Cidr
  import Order

  datatype Interval = Interval(lo: Addr, hi: Addr)

  predicate IntervalLe(a: Interval, b: Interval) {
    if a.lo != b.lo then a.lo < b.lo else a.hi <= b.hi
  }

  function Self(iv: Interval): Interval { iv }

  predicate Covers(ivs: seq<Interval>, v: int) {
    exists i :: 0 <= i < |ivs| && ivs[i].lo <= v <= ivs[i].hi
  }

  predicate Proper(ivs: seq<Interval>) {
    forall i :: 0 <= i < |ivs| ==> ivs[i].lo <= ivs[i].hi
  }

  /** Sorted, disjoint and not even touching: the canonical form. */
  predicate Normal(ivs: seq<Interval>) {
    && Proper(ivs)
    && forall i, j :: 0 <= i < j < |ivs| ==> ivs[i].hi + 1 < ivs[j].lo
  }

  ghost predicate SameCoverage(a: seq<Interval>, b: seq<Interval>) {
    forall v: int :: Covers(a, v) <==> Covers(b, v)
  }

  // ---- The canonical form -------------------------------------------------------------

  function Absorb(merged: seq<Interval>, iv: Interval): seq<Interval> {
    if merged == [] then [iv]
    else
      var n := |merged| - 1;
      var last := merged[n];
      if iv.lo <= last.hi || (last.hi != 0xFFFF_FFFF && iv.lo == last.hi + 1) then
        if iv.hi > last.hi then merged[..n] + [Interval(last.lo, iv.hi)] else merged
      else merged + [iv]
  }

  function MergeAll(ivs: seq<Interval>): seq<Interval> {
    if ivs == [] then []
    else Absorb(MergeAll(ivs[..|ivs| - 1]), ivs[|ivs| - 1])
  }

  function Canonical(ivs: seq<Interval>): seq<Interval> {
    MergeAll(Order.Sort(ivs, Self, IntervalLe))
  }

  lemma IntervalOrder()
    ensures Order.TotalOrder(IntervalLe)
  {
  }

  lemma AbsorbCovers(merged: seq<Interval>, iv: Interval, v: int)
    requires merged != [] ==> merged[|merged| - 1].lo <= iv.lo
    requires iv.lo <= iv.hi
    ensures Covers(Absorb(merged, iv), v) <==> Covers(merged, v) || iv.lo <= v <= iv.hi
  {
    var out := Absorb(merged, iv);
    var n := |merged| - 1;
    if Covers(merged, v) {
      var i :| 0 <= i < |merged| && merged[i].lo <= v <= merged[i].hi;
      assert out[i].lo <= v <= out[i].hi;
    }
    if iv.lo <= v <= iv.hi {
      assert out[|out| - 1].lo <= v && (out == merged || v <= out[|out| - 1].hi);
      if out == merged { assert merged[n].lo <= v <= merged[n].hi; }
    }
    if Covers(out, v) {
      var i :| 0 <= i < |out| && out[i].lo <= v <= out[i].hi;
      if i < n || (i == n && v <= merged[n].hi) { assert merged[i].lo <= v <= merged[i].hi; }
    }
  }

  lemma AbsorbNormal(merged: seq<Interval>, iv: Interval)
    requires Normal(merged) && iv.lo <= iv.hi
    requires merged != [] ==> merged[|merged| - 1].lo <= iv.lo
    ensures Normal(Absorb(merged, iv))
    ensures Absorb(merged, iv)[|Absorb(merged, iv)| - 1].lo <= iv.lo
  {
  }

  lemma {:induction false} MergeAllMeaning(ivs: seq<Interval>)
    requires Proper(ivs) && Order.Sorted(ivs, Self, IntervalLe)
    ensures Normal(MergeAll(ivs)) && SameCoverage(MergeAll(ivs), ivs)
    ensures ivs != [] ==> MergeAll(ivs) != [] && MergeAll(ivs)[|MergeAll(ivs)| - 1].lo <= ivs[|ivs| - 1].lo
  {
    if ivs != [] {
      var n := |ivs| - 1;
      var front, iv := ivs[..n], ivs[n];
      MergeAllMeaning(front);
      assert n > 0 ==> IntervalLe(Self(front[n - 1]), Self(iv));
      AbsorbNormal(MergeAll(front), iv);
      AbsorbSameCoverage(front, MergeAll(front), iv);
      assert ivs == front + [iv];
    }
  }

  lemma AbsorbSameCoverage(front: seq<Interval>, merged: seq<Interval>, iv: Interval)
    requires SameCoverage(merged, front)
    requires merged != [] ==> merged[|merged| - 1].lo <= iv.lo
    requires iv.lo <= iv.hi
    ensures SameCoverage(Absorb(merged, iv), front + [iv])
  {
    hide Covers, Absorb;
    forall v ensures Covers(Absorb(merged, iv), v) <==> Covers(front + [iv], v) {
      AbsorbCovers(merged, iv, v);
      CoversSnoc(front, iv, v);
      assert Covers(merged, v) <==> Covers(front, v);
    }
  }

  lemma CoversSnoc(front: seq<Interval>, iv: Interval, v: int)
    ensures Covers(front + [iv], v) <==> Covers(front, v) || iv.lo <= v <= iv.hi
  {
    var all := front + [iv];
    if Covers(front, v) {
      var i :| 0 <= i < |front| && front[i].lo <= v <= front[i].hi;
      assert all[i] == front[i];
    }
    if iv.lo <= v <= iv.hi { assert all[|front|] == iv; }
  }

  lemma CoversMembers(a: seq<Interval>, b: seq<Interval>)
    requires forall x :: x in a <==> x in b
    ensures SameCoverage(a, b)
    ensures Proper(a) <==> Proper(b)
  {
    forall v | Covers(a, v) ensures Covers(b, v) {
      var i :| 0 <= i < |a| && a[i].lo <= v <= a[i].hi;
      assert a[i] in b;
    }
    forall v | Covers(b, v) ensures Covers(a, v) {
      var i :| 0 <= i < |b| && b[i].lo <= v <= b[i].hi;
      assert b[i] in a;
    }
    if Proper(a) { forall i | 0 <= i < |b| ensures b[i].lo <= b[i].hi { assert b[i] in a; } }
    if Proper(b) { forall i | 0 <= i < |a| ensures a[i].lo <= a[i].hi { assert a[i] in b; } }
  }

  /** Normalization keeps coverage and yields the canonical form. */
  lemma CanonicalMeaning(ivs: seq<Interval>)
    requires Proper(ivs)
    ensures Normal(Canonical(ivs)) && SameCoverage(Canonical(ivs), ivs)
  {
    var sorted := Order.Sort(ivs, Self, IntervalLe);
    IntervalOrder();
    Order.SortSorted(ivs, Self, IntervalLe);
    Order.SortKeepsMembers(ivs, Self, IntervalLe);
    CoversMembers(sorted, ivs);
    MergeAllMeaning(sorted);
    forall v ensures Covers(Canonical(ivs), v) <==> Covers(ivs, v) {
      assert Covers(sorted, v) <==> Covers(ivs, v);
    }
  }

  lemma CoversCons(iv: Interval, rest: seq<Interval>, v: int)
    ensures Covers([iv] + rest, v) <==> iv.lo <= v <= iv.hi || Covers(rest, v)
  {
    var all := [iv] + rest;
    if iv.lo <= v <= iv.hi { assert all[0] == iv; }
    if Covers(rest, v) {
      var i :| 0 <= i < |rest| && rest[i].lo <= v <= rest[i].hi;
      assert all[i + 1] == rest[i];
    }
    if Covers(all, v) {
      var i :| 0 <= i < |all| && all[i].lo <= v <= all[i].hi;
      if i > 0 { assert rest[i - 1] == all[i]; }
    }
  }

  /** Two canonical forms with the same coverage are the same list. */
  lemma {:induction false} CanonicalUnique(a: seq<Interval>, b: seq<Interval>)
    requires Normal(a) && Normal(b) && SameCoverage(a, b)
    ensures a == b
  {
    if a != [] { assert Covers(a, a[0].lo); }
    if b != [] { assert Covers(b, b[0].lo); }
    if a != [] {
      HeadBounds(a, b);
      HeadBounds(b, a);
      var a', b' := a[1..], b[1..];
      assert a == [a[0]] + a' && b == [b[0]] + b';
      forall v ensures Covers(a', v) <==> Covers(b', v) {
        CoversCons(a[0], a', v);
        CoversCons(b[0], b', v);
      }
      CanonicalUnique(a', b');
    }
  }

  lemma HeadBounds(a: seq<Interval>, b: seq<Interval>)
    requires Normal(a) && Normal(b) && SameCoverage(a, b) && a != [] && b != []
    ensures b[0].lo <= a[0].lo && a[0].hi <= b[0].hi
  {
    assert Covers(a, a[0].lo) && Covers(b, b[0].lo);
    var i :| 0 <= i < |b| && b[i].lo <= a[0].lo <= b[i].hi;
    var j :| 0 <= j < |a| && a[j].lo <= b[0].lo <= a[j].hi;
    if a[0].hi > b[0].hi {
      CoversAt(a, 0, b[0].hi + 1);
      NothingTouches(b, 0, b[0].hi + 1);
    }
  }

  lemma CoversAt(ivs: seq<Interval>, i: nat, v: int)
    requires i < |ivs| && ivs[i].lo <= v <= ivs[i].hi
    ensures Covers(ivs, v)
  {
  }

  /** The addresses right beside an interval of a canonical form are not covered. */
  lemma NothingTouches(ivs: seq<Interval>, k: nat, v: int)
    requires Normal(ivs) && k < |ivs| && (v == ivs[k].lo - 1 || v == ivs[k].hi + 1)
    ensures !Covers(ivs, v)
  {
  }

  /** Coverage decides the canonical form, whatever the spelling. */
  lemma CanonicalDependsOnCoverage(a: seq<Interval>, b: seq<Interval>)
    requires Proper(a) && Proper(b)
    ensures SameCoverage(a, b) <==> Canonical(a) == Canonical(b)
  {
    CanonicalMeaning(a);
    CanonicalMeaning(b);
    if SameCoverage(a, b) {
      forall v ensures Covers(Canonical(a), v) <==> Covers(Canonical(b), v) {
        assert Covers(a, v) <==> Covers(b, v);
      }
      CanonicalUnique(Canonical(a), Canonical(b));
    }
    if Canonical(a) == Canonical(b) {
      forall v ensures Covers(a, v) <==> Covers(b, v) {
        assert Covers(Canonical(a), v) <==> Covers(a, v);
        assert Covers(Canonical(b), v) <==> Covers(b, v);
      }
    }
  }

  /** The shape test for "every address" is exact on canonical forms. */
  lemma WholeSpace(ivs: seq<Interval>)
    requires Normal(ivs)
    ensures (|ivs| == 1 && ivs[0].lo == 0 && ivs[0].hi == 0xFFFF_FFFF) <==> forall v: Addr :: Covers(ivs, v)
  {
    var whole := [Interval(0, 0xFFFF_FFFF)];
    forall v: Addr ensures Covers(whole, v) { assert whole[0].lo <= v; }
    if forall v: Addr :: Covers(ivs, v) {
      forall v ensures Covers(ivs, v) <==> Covers(whole, v) {
        if 0 <= v <= 0xFFFF_FFFF { var a: Addr := v; assert Covers(ivs, a); }
      }
      CanonicalUnique(ivs, whole);
    }
    if |ivs| == 1 && ivs[0].lo == 0 && ivs[0].hi == 0xFFFF_FFFF {
      assert ivs == whole;
    }
  }

  // ---- Union and intersection ---------------------------------------------------------

  lemma CoversAppend(a: seq<Interval>, b: seq<Interval>, v: int)
    ensures Covers(a + b, v) <==> Covers(a, v) || Covers(b, v)
  {
    if Covers(a, v) {
      var i :| 0 <= i < |a| && a[i].lo <= v <= a[i].hi;
      assert (a + b)[i] == a[i];
    }
    if Covers(b, v) {
      var i :| 0 <= i < |b| && b[i].lo <= v <= b[i].hi;
      assert (a + b)[|a| + i] == b[i];
    }
  }

  function UnionOf(a: seq<Interval>, b: seq<Interval>): seq<Interval> {
    Canonical(a + b)
  }

  lemma UnionIsPointwise(a: seq<Interval>, b: seq<Interval>)
    requires Proper(a) && Proper(b)
    ensures Normal(UnionOf(a, b))
    ensures forall v: int :: Covers(UnionOf(a, b), v) <==> Covers(a, v) || Covers(b, v)
  {
    CanonicalMeaning(a + b);
    forall v: int ensures Covers(UnionOf(a, b), v) <==> Covers(a, v) || Covers(b, v) {
      CoversAppend(a, b, v);
      assert Covers(UnionOf(a, b), v) <==> Covers(a + b, v);
    }
  }

  function Clip(a: Interval, b: Interval): seq<Interval> {
    var lo := if b.lo > a.lo then b.lo else a.lo;
    var hi := if b.hi < a.hi then b.hi else a.hi;
    if lo <= hi then [Interval(lo, hi)] else []
  }

  function ClipRow(a: Interval, bs: seq<Interval>): seq<Interval> {
    if bs == [] then [] else ClipRow(a, bs[..|bs| - 1]) + Clip(a, bs[|bs| - 1])
  }

  function ClipAll(xs: seq<Interval>, bs: seq<Interval>): seq<Interval> {
    if xs == [] then [] else ClipAll(xs[..|xs| - 1], bs) + ClipRow(xs[|xs| - 1], bs)
  }

  function IntersectOf(a: seq<Interval>, b: seq<Interval>): seq<Interval> {
    Canonical(ClipAll(a, b))
  }

  lemma ProperAppend(a: seq<Interval>, b: seq<Interval>)
    ensures Proper(a + b) <==> Proper(a) && Proper(b)
  {
    if Proper(a + b) {
      forall i | 0 <= i < |a| ensures a[i].lo <= a[i].hi { assert (a + b)[i] == a[i]; }
      forall i | 0 <= i < |b| ensures b[i].lo <= b[i].hi { assert (a + b)[|a| + i] == b[i]; }
    }
  }

  lemma {:induction false} ClipRowMeaning(a: Interval, bs: seq<Interval>, v: int)
    ensures Proper(ClipRow(a, bs))
    ensures Covers(ClipRow(a, bs), v) <==> a.lo <= v <= a.hi && Covers(bs, v)
  {
    if bs != [] {
      var n := |bs| - 1;
      ClipRowMeaning(a, bs[..n], v);
      ProperAppend(ClipRow(a, bs[..n]), Clip(a, bs[n]));
      CoversAppend(ClipRow(a, bs[..n]), Clip(a, bs[n]), v);
      CoversSnoc(bs[..n], bs[n], v);
      assert bs == bs[..n] + [bs[n]];
      assert Covers(Clip(a, bs[n]), v) <==> a.lo <= v <= a.hi && bs[n].lo <= v <= bs[n].hi by {
        CoversSnoc([], if Clip(a, bs[n]) == [] then a else Clip(a, bs[n])[0], v);
      }
    }
  }

  lemma {:induction false} ClipAllMeaning(xs: seq<Interval>, bs: seq<Interval>, v: int)
    ensures Proper(ClipAll(xs, bs))
    ensures Covers(ClipAll(xs, bs), v) <==> Covers(xs, v) && Covers(bs, v)
  {
    if xs != [] {
      var n := |xs| - 1;
      ClipAllMeaning(xs[..n], bs, v);
      ClipRowMeaning(xs[n], bs, v);
      ProperAppend(ClipAll(xs[..n], bs), ClipRow(xs[n], bs));
      CoversAppend(ClipAll(xs[..n], bs), ClipRow(xs[n], bs), v);
      CoversSnoc(xs[..n], xs[n], v);
      assert xs == xs[..n] + [xs[n]];
    }
  }

  lemma IntersectIsPointwise(a: seq<Interval>, b: seq<Interval>)
    ensures Normal(IntersectOf(a, b))
    ensures forall v: int :: Covers(IntersectOf(a, b), v) <==> Covers(a, v) && Covers(b, v)
  {
    ClipAllMeaning(a, b, 0);
    CanonicalMeaning(ClipAll(a, b));
    forall v: int ensures Covers(IntersectOf(a, b), v) <==> Covers(a, v) && Covers(b, v) {
      ClipAllMeaning(a, b, v);
      assert Covers(IntersectOf(a, b), v) <==> Covers(ClipAll(a, b), v);
    }
  }

  // ---- From ranges --------------------------------------------------------------------

  predicate AllBlocks(rs: seq<Range>) {
    forall i :: 0 <= i < |rs| ==> rs[i].Block?
  }

  /** Some range of the list contains the address. */
  predicate RangesCover(rs: seq<Range>, v: int) {
    exists i :: 0 <= i < |rs| && InRange(rs[i], v)
  }

  function IntervalOf(r: Range): (iv: Interval)
    requires r.Block?
    ensures iv.lo <= iv.hi
    ensures forall v: int :: iv.lo <= v <= iv.hi <==> InRange(r, v)
  {
    BlockBounds(r);
    Interval(First(r), Last(r))
  }

  function IntervalsOf(rs: seq<Range>): seq<Interval>
    requires AllBlocks(rs)
  {
    if rs == [] then [] else IntervalsOf(rs[..|rs| - 1]) + [IntervalOf(rs[|rs| - 1])]
  }

  lemma {:induction false} IntervalsOfMeaning(rs: seq<Range>)
    requires AllBlocks(rs)
    ensures Proper(IntervalsOf(rs)) && |IntervalsOf(rs)| == |rs|
    ensures forall i :: 0 <= i < |rs| ==> IntervalsOf(rs)[i] == IntervalOf(rs[i])
    ensures forall v: int :: Covers(IntervalsOf(rs), v) <==> RangesCover(rs, v)
  {
    if rs != [] {
      var n := |rs| - 1;
      IntervalsOfMeaning(rs[..n]);
      assert forall i :: 0 <= i < n ==> rs[..n][i] == rs[i];
    }
  }

  /** What a list of ranges covers, canonically; undefined when any range is malformed. */
  function ParseAll(rs: seq<Range>): Option<seq<Interval>> {
    if AllBlocks(rs) then Some(Canonical(IntervalsOf(rs))) else None
  }

  lemma ParseAllMeaning(rs: seq<Range>)
    ensures ParseAll(rs).Some? <==> AllBlocks(rs)
    ensures AllBlocks(rs) ==> Normal(ParseAll(rs).value)
    ensures AllBlocks(rs) ==> forall v: int :: Covers(ParseAll(rs).value, v) <==> RangesCover(rs, v)
  {
    if AllBlocks(rs) {
      IntervalsOfMeaning(rs);
      CanonicalMeaning(IntervalsOf(rs));
    }
  }
}
