/** What the policy's comprehensions compute: exposure as coverage, and the exact
    meaning of the block-by-block admission test. */
module ExposureMeaning {
  import opened Options
  import opened Cidr
  import opened Intervals
  import opened Prefixes
  import opened Platform
  import opened Graph
  import opened Policy
  import A = Authz

  // ---- Buckets ------------------------------------------------------------------------

  lemma {:induction false} BucketGrantsMeaning(grants: seq<GrantEntry>, name: string)
    ensures forall g :: g in BucketGrants(grants, name) <==>
      exists e :: e in grants && e.grant == g && ReadsBucket(g, name)
  {
    if grants != [] {
      BucketGrantsMeaning(grants[1..], name);
      assert grants == [grants[0]] + grants[1..];
      forall g ensures g in BucketGrants(grants, name) <==>
        exists e :: e in grants && e.grant == g && ReadsBucket(g, name) {
        if e :| e in grants && e.grant == g && ReadsBucket(g, name) {
          assert e == grants[0] || e in grants[1..];
        }
      }
    }
  }

  ghost predicate SomeGrantCovers(gs: seq<Grant>, v: int) {
    exists g :: g in gs && RangesCover(g.sourceRanges, v)
  }

  lemma {:induction false} GrantSourcesMeaning(gs: seq<Grant>)
    ensures AllBlocks(GrantSources(gs)) <==> forall g :: g in gs ==> AllBlocks(g.sourceRanges)
    ensures forall v: int :: RangesCover(GrantSources(gs), v) <==> SomeGrantCovers(gs, v)
  {
    if gs != [] {
      var rest := gs[1..];
      GrantSourcesMeaning(rest);
      assert gs == [gs[0]] + rest;
      AllBlocksAppend(gs[0].sourceRanges, GrantSources(rest));
      forall v: int ensures RangesCover(GrantSources(gs), v) <==> SomeGrantCovers(gs, v) {
        RangesCoverAppend(gs[0].sourceRanges, GrantSources(rest), v);
        assert SomeGrantCovers(gs, v) <==> RangesCover(gs[0].sourceRanges, v) || SomeGrantCovers(rest, v);
      }
    }
  }

  lemma AllBlocksAppend(a: seq<Range>, b: seq<Range>)
    ensures AllBlocks(a + b) <==> AllBlocks(a) && AllBlocks(b)
  {
    if AllBlocks(a + b) {
      forall i | 0 <= i < |a| ensures a[i].Block? { assert (a + b)[i] == a[i]; }
      forall i | 0 <= i < |b| ensures b[i].Block? { assert (a + b)[|a| + i] == b[i]; }
    }
  }

  /** A bucket's exposure is computable exactly when it has read grants and none is
      malformed; it lists their principals and covers exactly their addresses. */
  lemma BucketExposureMeaning(doc: Document, name: string)
    ensures BucketExposure(doc, name).Some? <==>
      BucketGrants(doc.grants, name) != [] && forall g :: g in BucketGrants(doc.grants, name) ==>
        AllBlocks(g.sourceRanges)
    ensures BucketExposure(doc, name).Some? ==>
      var x := BucketExposure(doc, name).value;
      && AllMasked(x.sources)
      && (forall p :: p in x.principals <==> exists g :: g in BucketGrants(doc.grants, name) && p in g.principals)
      && forall v: int :: RangesCover(x.sources, v) <==> SomeGrantCovers(BucketGrants(doc.grants, name), v)
  {
    var gs := BucketGrants(doc.grants, name);
    GrantSourcesMeaning(gs);
    CidrMergeMeaning(GrantSources(gs));
  }

  // ---- Ports --------------------------------------------------------------------------

  lemma {:induction false} PortRulesMeaning(rules: seq<RuleEntry>, workload: string, port: string)
    ensures forall r :: r in PortRules(rules, workload, port) <==>
      exists e :: e in rules && e.rule == r && A.Permits(r, workload, port)
  {
    if rules != [] {
      PortRulesMeaning(rules[1..], workload, port);
      assert rules == [rules[0]] + rules[1..];
      forall r ensures r in PortRules(rules, workload, port) <==>
        exists e :: e in rules && e.rule == r && A.Permits(r, workload, port)
      {
        if e :| e in rules && e.rule == r && A.Permits(r, workload, port) {
          assert e == rules[0] || e in rules[1..];
        }
      }
    }
  }

  ghost predicate SomeRuleCovers(rs: seq<NetworkRule>, v: int) {
    exists r :: r in rs && RangesCover(r.sourceRanges, v)
  }

  lemma {:induction false} RuleSourcesMeaning(rs: seq<NetworkRule>)
    ensures AllBlocks(RuleSources(rs)) <==> forall r :: r in rs ==> AllBlocks(r.sourceRanges)
    ensures forall v: int :: RangesCover(RuleSources(rs), v) <==> SomeRuleCovers(rs, v)
  {
    if rs != [] {
      var rest := rs[1..];
      RuleSourcesMeaning(rest);
      assert rs == [rs[0]] + rest;
      AllBlocksAppend(rs[0].sourceRanges, RuleSources(rest));
      forall v: int ensures RangesCover(RuleSources(rs), v) <==> SomeRuleCovers(rs, v) {
        RangesCoverAppend(rs[0].sourceRanges, RuleSources(rest), v);
        assert SomeRuleCovers(rs, v) <==> RangesCover(rs[0].sourceRanges, v) || SomeRuleCovers(rest, v);
      }
    }
  }

  /** The intersection of two blocks is the set of addresses in both: blocks are nested
      or disjoint, so the narrower one is the whole intersection. */
  lemma IntersectionIsExact(a: Range, b: Range, v: int)
    requires a.Block? && b.Block?
    ensures Intersection(a, b).Some? ==> Intersection(a, b).value.Block?
    ensures Intersection(a, b).Some? && InRange(Intersection(a, b).value, v) <==> InRange(a, v) && InRange(b, v)
  {
    hide ClearLow, Pow2;
    if a.bits <= b.bits { NestedOrDisjoint(a, b); } else { NestedOrDisjoint(b, a); }
  }

  lemma RangesCoverCons(r: Range, rest: seq<Range>, v: int)
    ensures RangesCover([r] + rest, v) <==> InRange(r, v) || RangesCover(rest, v)
  {
    RangesCoverAppend([r], rest, v);
    assert RangesCover([r], v) <==> InRange([r][0], v);
  }

  lemma {:induction false} IntersectRowMeaning(p: Range, reach: seq<Range>, v: int)
    requires p.Block? && AllBlocks(reach)
    ensures AllBlocks(IntersectRow(p, reach))
    ensures RangesCover(IntersectRow(p, reach), v) <==> InRange(p, v) && RangesCover(reach, v)
  {
    if reach != [] {
      hide Intersection, InRange, RangesCover;
      var rest := reach[1..];
      IntersectRowMeaning(p, rest, v);
      IntersectionIsExact(p, reach[0], v);
      assert reach == [reach[0]] + rest;
      RangesCoverCons(reach[0], rest, v);
      var i := Intersection(p, reach[0]);
      if i.Some? { RangesCoverCons(i.value, IntersectRow(p, rest), v); }
    } else {
      NothingCovered(v);
    }
  }

  lemma NothingCovered(v: int)
    ensures !RangesCover([], v)
  {
  }

  lemma {:induction false} IntersectPairsMeaning(permitted: seq<Range>, reach: seq<Range>, v: int)
    requires AllBlocks(permitted) && AllBlocks(reach)
    ensures AllBlocks(IntersectPairs(permitted, reach))
    ensures RangesCover(IntersectPairs(permitted, reach), v) <==> RangesCover(permitted, v) && RangesCover(reach, v)
  {
    hide IntersectRow, InRange, RangesCover;
    if permitted != [] {
      var rest := permitted[1..];
      IntersectPairsMeaning(rest, reach, v);
      IntersectRowMeaning(permitted[0], reach, v);
      assert permitted == [permitted[0]] + rest;
      RangesCoverCons(permitted[0], rest, v);
      AllBlocksAppend(IntersectRow(permitted[0], reach), IntersectPairs(rest, reach));
      RangesCoverAppend(IntersectRow(permitted[0], reach), IntersectPairs(rest, reach), v);
    } else {
      NothingCovered(v);
    }
  }

  ghost predicate SomeSegmentHolds(segments: seq<Segment>, bind: Bind, v: int) {
    exists s :: s in segments && CidrContainsIp(s.cidr, bind) && InRange(s.cidr, v)
  }

  lemma {:induction false} SegmentsHoldingMeaning(segments: seq<Segment>, bind: Bind)
    ensures AllBlocks(SegmentsHolding(segments, bind))
    ensures forall v: int :: RangesCover(SegmentsHolding(segments, bind), v) <==> SomeSegmentHolds(segments, bind, v)
  {
    if segments != [] {
      var rest := segments[1..];
      SegmentsHoldingMeaning(rest, bind);
      assert segments == [segments[0]] + rest;
      forall v: int ensures RangesCover(SegmentsHolding(segments, bind), v) <==> SomeSegmentHolds(segments, bind, v) {
        RangesCoverCons(segments[0].cidr, SegmentsHolding(rest, bind), v);
        assert SomeSegmentHolds(segments, bind, v) <==>
          (CidrContainsIp(segments[0].cidr, bind) && InRange(segments[0].cidr, v)) || SomeSegmentHolds(rest, bind, v);
      }
    }
  }

  lemma EverywhereCovers(v: int)
    ensures InRange(EVERYWHERE, v) <==> 0 <= v < TWO32
  {
    BlockBounds(EVERYWHERE);
    Pow2At32();
  }

  /** The addresses a bind can serve, in the policy's account. */
  ghost predicate BindServes(segments: seq<Segment>, bind: Bind, v: int) {
    if bind == Ip(0) then 0 <= v < TWO32
    else !CidrContainsIp(LOOPBACK, bind) && SomeSegmentHolds(segments, bind, v)
  }

  lemma BindReachMeaning(segments: seq<Segment>, bind: Bind)
    ensures AllBlocks(BindReach(segments, bind))
    ensures forall v: int :: RangesCover(BindReach(segments, bind), v) <==> BindServes(segments, bind, v)
  {
    SegmentsHoldingMeaning(segments, bind);
    forall v: int ensures RangesCover([EVERYWHERE], v) <==> 0 <= v < TWO32 {
      EverywhereCovers(v);
      assert [EVERYWHERE] == [EVERYWHERE] + [];
      RangesCoverCons(EVERYWHERE, [], v);
    }
  }

  /** A port's exposure is computable exactly when none of its rules is malformed, and
      covers exactly what some rule permits and the bind can serve. */
  lemma PortExposureMeaning(doc: Document, workload: string, port: string, bind: Bind)
    ensures PortExposure(doc, workload, port, bind).Some? <==>
      forall r :: r in PortRules(doc.networkRules, workload, port) ==> AllBlocks(r.sourceRanges)
    ensures PortExposure(doc, workload, port, bind).Some? ==>
      var x := PortExposure(doc, workload, port, bind).value;
      && x.principals == {} && AllMasked(x.sources)
      && forall v: int :: RangesCover(x.sources, v) <==>
           SomeRuleCovers(PortRules(doc.networkRules, workload, port), v) && BindServes(doc.segments, bind, v)
  {
    hide BindReach, IntersectPairs, CidrMerge, AllMasked, AllBlocks, RangesCover, PortRules, RuleSources,
      BindServes, SomeRuleCovers;
    var rules := PortRules(doc.networkRules, workload, port);
    var reach := BindReach(doc.segments, bind);
    RuleSourcesMeaning(rules);
    CidrMergeMeaning(RuleSources(rules));
    BindReachMeaning(doc.segments, bind);
    if CidrMerge(RuleSources(rules)).Some? {
      var permitted := CidrMerge(RuleSources(rules)).value;
      var pairs := IntersectPairs(permitted, reach);
      IntersectPairsMeaning(permitted, reach, 0);
      CidrMergeMeaning(pairs);
      forall v: int ensures RangesCover(pairs, v) <==> RangesCover(RuleSources(rules), v) && RangesCover(reach, v) {
        IntersectPairsMeaning(permitted, reach, v);
      }
    }
  }

  // ---- The admission test -------------------------------------------------------------

  ghost predicate CoverageWithin(a: seq<Range>, b: seq<Range>) {
    forall v: int :: RangesCover(a, v) ==> RangesCover(b, v)
  }

  /** Block-by-block coverage always means address coverage. */
  lemma SourcesCoveredSound(got: seq<Range>, allowed: seq<Range>)
    requires SourcesCovered(got, allowed)
    ensures CoverageWithin(got, allowed)
  {
    forall v: int | RangesCover(got, v) ensures RangesCover(allowed, v) {
      var i :| 0 <= i < |got| && InRange(got[i], v);
      assert BlockAllowed(got[i], allowed);
      var j :| 0 <= j < |allowed| && CidrContains(allowed[j], got[i]);
      assert InRange(allowed[j], v);
    }
  }

  /** An entry that accepts its own merged form accepts whatever it covers: a covered block
      lies in one merged block, and that one in one block of the entry. */
  lemma SourcesCoveredComplete(got: seq<Range>, allowed: seq<Range>)
    requires AllBlocks(got) && AllBlocks(allowed)
    requires SourcesCovered(CidrMerge(allowed).value, allowed)
    requires CoverageWithin(got, allowed)
    ensures SourcesCovered(got, allowed)
  {
    ParseAllMeaning(allowed);
    var ivs := ParseAll(allowed).value;
    PrefixesTile(ivs);
    var merged := PrefixesOf(ivs);
    forall i | 0 <= i < |got| ensures BlockAllowed(got[i], allowed) {
      var q := got[i];
      BlockBounds(q);
      forall w: int | InRange(q, w) ensures Covers(ivs, w) { assert RangesCover(got, w); }
      assert RangesCover(merged, q.addr);
      var k :| 0 <= k < |merged| && InRange(merged[k], q.addr);
      EmittedBlocksAbsorb(ivs, k, q, q.addr);
      assert BlockAllowed(merged[k], allowed);
      var j :| 0 <= j < |allowed| && CidrContains(allowed[j], merged[k]);
      assert CidrContains(allowed[j], q);
    }
  }

  /** The condition is exact: the test decides address coverage for every computed
      exposure if and only if it accepts the entry's own merged form. */
  lemma SourcesCoveredExactIff(allowed: seq<Range>)
    requires AllBlocks(allowed)
    ensures SourcesCovered(CidrMerge(allowed).value, allowed) <==>
      forall got :: AllBlocks(got) && CoverageWithin(got, allowed) ==> SourcesCovered(got, allowed)
  {
    hide CidrMerge, SourcesCovered;
    CidrMergeMeaning(allowed);
    var merged := CidrMerge(allowed).value;
    if SourcesCovered(merged, allowed) {
      forall got | AllBlocks(got) && CoverageWithin(got, allowed) ensures SourcesCovered(got, allowed) {
        SourcesCoveredComplete(got, allowed);
      }
    }
    assert AllBlocks(merged) && CoverageWithin(merged, allowed);
  }

  /** Sources already in merged form meet the condition. */
  lemma MergedFormIsExact(allowed: seq<Range>, got: seq<Range>)
    requires AllBlocks(allowed) && AllBlocks(got)
    requires forall r :: r in CidrMerge(allowed).value ==> r in allowed
    ensures SourcesCovered(got, allowed) <==> CoverageWithin(got, allowed)
  {
    CidrMergeMeaning(allowed);
    var merged := CidrMerge(allowed).value;
    forall i | 0 <= i < |merged| ensures BlockAllowed(merged[i], allowed) {
      assert merged[i] in allowed;
      var j :| 0 <= j < |allowed| && allowed[j] == merged[i];
      assert CidrContains(allowed[j], merged[i]);
    }
    if CoverageWithin(got, allowed) { SourcesCoveredComplete(got, allowed); }
    if SourcesCovered(got, allowed) { SourcesCoveredSound(got, allowed); }
  }

  /** Without it the test can refuse what is covered: two halves of a block do not
      contain the whole. */
  lemma SplitEntryRefusesItsUnion()
    ensures
      var halves, whole := [Block(0, 1), Block(0x8000_0000, 1)], [Block(0, 0)];
      CoverageWithin(whole, halves) && !SourcesCovered(whole, halves)
  {
    var halves, whole := [Block(0, 1), Block(0x8000_0000, 1)], [Block(0, 0)];
    Pow2At32();
    BlockBounds(whole[0]);
    BlockBounds(halves[0]);
    BlockBounds(halves[1]);
    HalfBlocks();
    forall v: int | RangesCover(whole, v) ensures RangesCover(halves, v) {
      assert 0 <= v < TWO32;
      if v < 0x8000_0000 { assert InRange(halves[0], v); } else { assert InRange(halves[1], v); }
    }
    assert !CidrContains(halves[0], whole[0]) && !CidrContains(halves[1], whole[0]);
    assert !BlockAllowed(whole[0], halves);
  }

  lemma HalfBlocks()
    ensures First(Block(0, 1)) == 0 && Last(Block(0, 1)) == 0x7FFF_FFFF
    ensures First(Block(0x8000_0000, 1)) == 0x8000_0000 && Last(Block(0x8000_0000, 1)) == 0xFFFF_FFFF
  {
    Pow2At32();
    BlockBounds(Block(0, 1));
    MaskIsRemainder(0x8000_0000, 31);
  }
}
