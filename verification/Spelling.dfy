/** The policy computes, it does not match: two documents that spell the same access
    differently get the same result and the same rendered reachability. */
module Spelling {
  import opened Options
  import opened Cidr
  import opened Intervals
  import opened Prefixes
  import opened Platform
  import opened Graph
  import opened Policy
  import opened ExposureMeaning

  // ---- When two documents grant the same access ---------------------------------------

  ghost predicate Named(gs: seq<Grant>, p: string) {
    exists g :: g in gs && p in g.principals
  }

  ghost predicate GrantsReadable(gs: seq<Grant>) {
    forall g :: g in gs ==> AllBlocks(g.sourceRanges)
  }

  ghost predicate RulesReadable(rs: seq<NetworkRule>) {
    forall r :: r in rs ==> AllBlocks(r.sourceRanges)
  }

  /** The read grants of a bucket cover the same addresses. */
  ghost predicate SameBucketCoverage(a: Document, b: Document, name: string) {
    var x, y := BucketGrants(a.grants, name), BucketGrants(b.grants, name);
    && (x == [] <==> y == [])
    && (GrantsReadable(x) <==> GrantsReadable(y))
    && forall v: int :: SomeGrantCovers(x, v) <==> SomeGrantCovers(y, v)
  }

  /** The read grants of a bucket name the same principals. */
  ghost predicate SameNames(a: Document, b: Document, name: string) {
    forall p :: Named(BucketGrants(a.grants, name), p) <==> Named(BucketGrants(b.grants, name), p)
  }

  ghost predicate SameBucketAccess(a: Document, b: Document, name: string) {
    SameBucketCoverage(a, b, name) && SameNames(a, b, name)
  }

  /** The rules of a port cover the same addresses. */
  ghost predicate SamePortAccess(a: Document, b: Document, workload: string, port: string) {
    var x, y := PortRules(a.networkRules, workload, port), PortRules(b.networkRules, workload, port);
    && (RulesReadable(x) <==> RulesReadable(y))
    && forall v: int :: SomeRuleCovers(x, v) <==> SomeRuleCovers(y, v)
  }

  ghost predicate InputsReadable(d: Document) {
    && (forall e :: e in d.grants ==> AllBlocks(e.grant.sourceRanges))
    && (forall e :: e in d.networkRules ==> AllBlocks(e.rule.sourceRanges))
  }

  /** The same resources and segments, and the same coverage of each bucket and port. */
  ghost predicate SameCoverage(a: Document, b: Document) {
    && (forall s :: s in a.segments <==> s in b.segments)
    && (forall r :: r in a.resources <==> r in b.resources)
    && (forall r :: r in a.resources && r.kind == "bucket" ==> SameBucketCoverage(a, b, r.name))
    && (forall r, p :: r in a.resources && r.kind == "workload" && p in r.ports ==>
      SamePortAccess(a, b, r.name, p.name))
  }

  /** Alike for the policy, but for the principals that grants name. */
  ghost predicate AlikeButNames(a: Document, b: Document) {
    && a.contractVersion == b.contractVersion
    && (a.unknownResourceTypes == [] <==> b.unknownResourceTypes == [])
    && (a.unrecognizedFields == [] <==> b.unrecognizedFields == [])
    && (InputsReadable(a) <==> InputsReadable(b))
    && SameCoverage(a, b)
  }

  ghost predicate SameNamesThroughout(a: Document, b: Document) {
    forall r :: r in a.resources && r.kind == "bucket" ==> SameNames(a, b, r.name)
  }

  ghost predicate SameAccess(a: Document, b: Document) {
    AlikeButNames(a, b) && SameNamesThroughout(a, b)
  }

  // ---- Equal exposure -----------------------------------------------------------------

  /** Equal exposures, except perhaps in the identifiers they list. */
  predicate SameReach(x: Option<Exposure>, y: Option<Exposure>) {
    && (x.Some? <==> y.Some?)
    && (x.Some? ==> x.value.principals == y.value.principals && x.value.sources == y.value.sources)
  }

  lemma BucketsAgree(a: Document, b: Document, name: string)
    requires SameBucketAccess(a, b, name)
    ensures SameReach(BucketExposure(a, name), BucketExposure(b, name))
  {
    var x, y := BucketGrants(a.grants, name), BucketGrants(b.grants, name);
    BucketExposureMeaning(a, name);
    BucketExposureMeaning(b, name);
    if BucketExposure(a, name).Some? {
      GrantSourcesMeaning(x);
      GrantSourcesMeaning(y);
      assert GrantsReadable(x) && GrantsReadable(y);
      CidrMergeCanonical(GrantSources(x), GrantSources(y));
      forall p ensures p in BucketExposure(a, name).value.principals <==>
        p in BucketExposure(b, name).value.principals {
        assert Named(x, p) <==> Named(y, p);
      }
    } else {
      assert x == [] || !GrantsReadable(x);
    }
  }

  lemma BindServesAlike(a: Document, b: Document, bind: Bind, v: int)
    requires forall s :: s in a.segments <==> s in b.segments
    ensures BindServes(a.segments, bind, v) <==> BindServes(b.segments, bind, v)
  {
  }

  lemma PortsAgree(a: Document, b: Document, workload: string, port: string, bind: Bind)
    requires forall s :: s in a.segments <==> s in b.segments
    requires SamePortAccess(a, b, workload, port)
    ensures SameReach(PortExposure(a, workload, port, bind), PortExposure(b, workload, port, bind))
  {
    hide BindServes, SomeRuleCovers, RangesCover, PortRules, IntersectPairs, BindReach, CidrMerge;
    var x, y := PortRules(a.networkRules, workload, port), PortRules(b.networkRules, workload, port);
    PortExposureMeaning(a, workload, port, bind);
    PortExposureMeaning(b, workload, port, bind);
    RuleSourcesMeaning(x);
    RuleSourcesMeaning(y);
    if RulesReadable(x) {
      CidrMergeCanonical(RuleSources(x), RuleSources(y));
      CidrMergeMeaning(RuleSources(x));
      var permitted := CidrMerge(RuleSources(x)).value;
      var ra, rb := BindReach(a.segments, bind), BindReach(b.segments, bind);
      BindReachMeaning(a.segments, bind);
      BindReachMeaning(b.segments, bind);
      PairsAlike(permitted, ra, rb) by {
        forall v: int ensures RangesCover(ra, v) <==> RangesCover(rb, v) { BindServesAlike(a, b, bind, v); }
      }
    }
  }

  lemma PairsAlike(permitted: seq<Range>, ra: seq<Range>, rb: seq<Range>)
    requires AllBlocks(permitted) && AllBlocks(ra) && AllBlocks(rb)
    requires forall v: int :: RangesCover(ra, v) <==> RangesCover(rb, v)
    ensures CidrMerge(IntersectPairs(permitted, ra)) == CidrMerge(IntersectPairs(permitted, rb))
  {
    hide RangesCover, IntersectPairs, CidrMerge;
    var pa, pb := IntersectPairs(permitted, ra), IntersectPairs(permitted, rb);
    IntersectPairsMeaning(permitted, ra, 0);
    IntersectPairsMeaning(permitted, rb, 0);
    forall v: int ensures RangesCover(pa, v) <==> RangesCover(pb, v) {
      IntersectPairsMeaning(permitted, ra, v);
      IntersectPairsMeaning(permitted, rb, v);
    }
    CidrMergeCanonical(pa, pb);
  }

  // ---- Equal result -------------------------------------------------------------------

  /** Per resource: the same principals, the same sources, the same admitting rules. */
  lemma ResourcesAgree(a: Document, b: Document, allow: Allowlist)
    requires SameAccess(a, b)
    ensures forall r :: r in a.resources && r.kind == "bucket" ==>
      SameReach(BucketExposure(a, r.name), BucketExposure(b, r.name))
    ensures forall r, p :: r in a.resources && r.kind == "workload" && p in r.ports ==>
      SameReach(PortExposure(a, r.name, p.name, p.bind), PortExposure(b, r.name, p.name, p.bind))
  {
    hide SameBucketCoverage, SameNames, SamePortAccess, BucketExposure, PortExposure;
    forall r | r in a.resources && r.kind == "bucket"
      ensures SameReach(BucketExposure(a, r.name), BucketExposure(b, r.name))
    {
      BucketsAgree(a, b, r.name);
    }
    forall r, p | r in a.resources && r.kind == "workload" && p in r.ports
      ensures SameReach(PortExposure(a, r.name, p.name, p.bind), PortExposure(b, r.name, p.name, p.bind))
    {
      PortsAgree(a, b, r.name, p.name, p.bind);
    }
  }

  lemma ConformsTransfers(a: Document, b: Document, allow: Allowlist)
    requires SameAccess(a, b) && Conforms(a, allow)
    ensures Conforms(b, allow)
  {
    hide BucketGrants, BucketExposure, PortExposure, AdmitsBucket, AdmitsPort, SameBucketCoverage, SameNames,
      SamePortAccess;
    ResourcesAgree(a, b, allow);
    assert a.resources[0] in b.resources;
    assert InputsReadable(a) && InputsReadable(b);
    forall r | r in b.resources && r.kind == "bucket" && BucketGrants(b.grants, r.name) != []
      ensures BucketAdmitted(b, allow, r.name)
    {
      assert r in a.resources && SameBucketAccess(a, b, r.name);
      BucketAdmittedTransfers(a, b, allow, r.name);
    }
    forall r, p | r in b.resources && r.kind == "workload" && p in r.ports ensures PortAdmitted(b, allow, r, p) {
      assert r in a.resources && PortAdmitted(a, allow, r, p);
      PortAdmittedTransfers(a, b, allow, r, p);
    }
  }

  lemma BucketAdmittedTransfers(a: Document, b: Document, allow: Allowlist, name: string)
    requires SameBucketAccess(a, b, name) && BucketGrants(b.grants, name) != []
    requires BucketGrants(a.grants, name) != [] ==> BucketAdmitted(a, allow, name)
    ensures BucketAdmitted(b, allow, name)
  {
    BucketsAgree(a, b, name);
    var x, y := BucketExposure(a, name).value, BucketExposure(b, name).value;
    var e :| e in Entries(allow) && AdmitsBucket(e, x, name);
    assert AdmitsBucket(e, y, name);
  }

  lemma PortAdmittedTransfers(a: Document, b: Document, allow: Allowlist, r: Resource, p: Port)
    requires SameReach(PortExposure(a, r.name, p.name, p.bind), PortExposure(b, r.name, p.name, p.bind))
    requires PortAdmitted(a, allow, r, p)
    ensures PortAdmitted(b, allow, r, p)
  {
    var x, y := PortExposure(a, r.name, p.name, p.bind).value, PortExposure(b, r.name, p.name, p.bind).value;
    if x.sources != [] {
      var e :| e in Entries(allow) && AdmitsPort(e, x, r.name, p.name);
      assert AdmitsPort(e, y, r.name, p.name);
    }
  }

  lemma AdmittedAlike(a: Document, b: Document, allow: Allowlist, name: string)
    requires SameReach(BucketExposure(a, name), BucketExposure(b, name))
    ensures AdmittedBucket(a, allow, name) == AdmittedBucket(b, allow, name)
  {
  }

  lemma AdmittedPortAlike(a: Document, b: Document, allow: Allowlist, w: string, port: string, bind: Bind)
    requires SameReach(PortExposure(a, w, port, bind), PortExposure(b, w, port, bind))
    ensures AdmittedPort(a, allow, w, port, bind) == AdmittedPort(b, allow, w, port, bind)
  {
  }

  lemma RulesAtAgree(a: Document, b: Document, allow: Allowlist, key: string)
    requires SameAccess(a, b)
    ensures RulesAt(a, allow, key) == RulesAt(b, allow, key)
  {
    hide BucketExposure, PortExposure, AdmittedBucket, AdmittedPort, SameBucketCoverage, SameNames, SamePortAccess;
    ResourcesAgree(a, b, allow);
    forall r | r in a.resources && r.kind == "bucket"
      ensures AdmittedBucket(a, allow, r.name) == AdmittedBucket(b, allow, r.name)
    {
      AdmittedAlike(a, b, allow, r.name);
    }
    forall r, p | r in a.resources && r.kind == "workload" && p in r.ports
      ensures AdmittedPort(a, allow, r.name, p.name, p.bind) == AdmittedPort(b, allow, r.name, p.name, p.bind)
    {
      AdmittedPortAlike(a, b, allow, r.name, p.name, p.bind);
    }
  }

  lemma SameAccessSymmetric(a: Document, b: Document)
    requires SameAccess(a, b)
    ensures SameAccess(b, a)
  {
    hide BucketGrants, PortRules, SomeGrantCovers, SomeRuleCovers, GrantsReadable, RulesReadable;
    forall r | r in b.resources && r.kind == "bucket" ensures SameBucketAccess(b, a, r.name) {
      assert r in a.resources && SameBucketAccess(a, b, r.name);
    }
    forall r, p | r in b.resources && r.kind == "workload" && p in r.ports
      ensures SamePortAccess(b, a, r.name, p.name)
    {
      assert r in a.resources && SamePortAccess(a, b, r.name, p.name);
    }
  }

  lemma ConflictsAgree(a: Document, b: Document, allow: Allowlist)
    requires SameAccess(a, b)
    ensures Conflicts(a, allow) ==> Conflicts(b, allow)
  {
    hide SameBucketCoverage, SameNames, SamePortAccess, RulesAt;
    if key :| key in Keys(a) && |RulesAt(a, allow, key)| > 1 {
      RulesAtAgree(a, b, allow, key);
      assert key in Keys(b);
    }
  }

  /** The result depends on access alone. */
  lemma ResultIsSpellingIndependent(a: Document, b: Document, allow: Allowlist)
    requires SameAccess(a, b)
    ensures Decide(a, allow).Answer? <==> Decide(b, allow).Answer?
    ensures Decide(a, allow).Answer? ==> Decide(a, allow).result == Decide(b, allow).result
    ensures Admits(a, allow) <==> Admits(b, allow)
  {
    hide Conforms, Conflicts, Violations, Exposures, SameAccess;
    SameAccessSymmetric(a, b);
    ConflictsAgree(a, b, allow);
    ConflictsAgree(b, a, allow);
    AdmitsMeaning(a, allow);
    AdmitsMeaning(b, allow);
    if Conforms(a, allow) { ConformsTransfers(a, b, allow); }
    if Conforms(b, allow) { ConformsTransfers(b, a, allow); }
  }

  // ---- Equal reachability -------------------------------------------------------------

  /** Two exposures render the same reachability exactly when they agree up to whoever is
      named beside the anonymous principal. */
  lemma ReachabilityDecides(x: Exposure, y: Exposure)
    ensures RenderReachability(x) == RenderReachability(y) <==>
      x.sources == y.sources && (x.principals == y.principals || ("*" in x.principals && "*" in y.principals))
  {
    if "*" in x.principals && "*" !in y.principals { assert RenderReachability(x).principals == {"*"}; }
    if "*" in y.principals && "*" !in x.principals { assert RenderReachability(y).principals == {"*"}; }
  }

  /** What the decision reports as reachable: keys with their reachability. */
  function Reported(d: Document, allow: Allowlist): set<(string, Reachability)> {
    set row | row in Exposures(d, allow) :: (row.resource, row.reachability)
  }

  function ReachOf(x: Option<Exposure>): Option<Reachability> {
    match x case None => None case Some(e) => Some(RenderReachability(e))
  }

  ghost predicate BucketShows(d: Document, k: string, reach: Reachability) {
    exists r :: r in d.resources && r.kind == "bucket" && k == "bucket/" + r.name
        && ReachOf(BucketExposure(d, r.name)) == Some(reach)
  }

  ghost predicate PortShows(d: Document, k: string, reach: Reachability) {
    exists r, p :: r in d.resources && r.kind == "workload" && p in r.ports && k == PortKey(r, p)
      && ReachOf(PortExposure(d, r.name, p.name, p.bind)) == Some(reach)
  }

  lemma ReportedMeaning(d: Document, allow: Allowlist, k: string, reach: Reachability)
    ensures (k, reach) in Reported(d, allow) <==> BucketShows(d, k, reach) || PortShows(d, k, reach)
  {
    hide BucketExposure, PortExposure, RulesAt, RenderReachability, PortKey;
    if BucketShows(d, k, reach) {
      var r :| r in d.resources && r.kind == "bucket" && k == "bucket/" + r.name
        && ReachOf(BucketExposure(d, r.name)) == Some(reach);
      assert BucketRow(d, allow, r) in Exposures(d, allow);
    }
    if PortShows(d, k, reach) {
      var r, p :| r in d.resources && r.kind == "workload" && p in r.ports && k == PortKey(r, p)
        && ReachOf(PortExposure(d, r.name, p.name, p.bind)) == Some(reach);
      assert PortRow(d, allow, r, p) in Exposures(d, allow);
    }
  }

  /** The same names, or everyone on both sides. */
  ghost predicate NamesAlike(a: Document, b: Document, name: string) {
    SameNames(a, b, name) || (Named(BucketGrants(a.grants, name), "*") && Named(BucketGrants(b.grants, name), "*"))
  }

  lemma BucketReachIff(a: Document, b: Document, name: string)
    requires SameBucketCoverage(a, b, name)
    ensures ReachOf(BucketExposure(a, name)) == ReachOf(BucketExposure(b, name)) <==>
      (GrantsReadable(BucketGrants(a.grants, name)) ==> NamesAlike(a, b, name))
  {
    hide BucketExposure, BucketGrants, RangesCover, CidrMerge, RenderReachability;
    var x, y := BucketGrants(a.grants, name), BucketGrants(b.grants, name);
    BucketExposureMeaning(a, name);
    BucketExposureMeaning(b, name);
    if BucketExposure(a, name).Some? {
      var s, t := BucketExposure(a, name).value, BucketExposure(b, name).value;
      CoverageGivesSources(a, b, name);
      assert forall p :: p in s.principals <==> Named(x, p);
      assert forall p :: p in t.principals <==> Named(y, p);
      assert s.principals == t.principals <==> SameNames(a, b, name);
      ReachabilityDecides(s, t);
    }
  }

  lemma CoverageGivesSources(a: Document, b: Document, name: string)
    requires SameBucketCoverage(a, b, name) && BucketExposure(a, name).Some?
    ensures BucketExposure(b, name).Some?
      && BucketExposure(a, name).value.sources == BucketExposure(b, name).value.sources
  {
    hide BucketGrants, RangesCover, CidrMerge;
    var x, y := BucketGrants(a.grants, name), BucketGrants(b.grants, name);
    BucketExposureMeaning(a, name);
    BucketExposureMeaning(b, name);
    GrantSourcesMeaning(x);
    GrantSourcesMeaning(y);
    assert GrantsReadable(x) && GrantsReadable(y);
    CidrMergeCanonical(GrantSources(x), GrantSources(y));
  }

  ghost predicate NamesAlikeThroughout(a: Document, b: Document) {
    forall r :: r in a.resources && r.kind == "bucket" && GrantsReadable(BucketGrants(a.grants, r.name)) ==>
      NamesAlike(a, b, r.name)
  }

  lemma ReportedWithin(a: Document, b: Document, allowA: Allowlist, allowB: Allowlist)
    requires SameCoverage(a, b) && NamesAlikeThroughout(a, b)
    ensures Reported(a, allowA) <= Reported(b, allowB)
  {
    hide Reported, BucketGrants, BucketExposure, PortExposure, SameBucketCoverage, SamePortAccess, NamesAlike,
      RenderReachability, PortKey;
    forall row | row in Reported(a, allowA) ensures row in Reported(b, allowB) {
      var k, reach := row.0, row.1;
      ReportedMeaning(a, allowA, k, reach);
      ReportedMeaning(b, allowB, k, reach);
      if BucketShows(a, k, reach) {
        var r :| r in a.resources && r.kind == "bucket" && k == "bucket/" + r.name
          && ReachOf(BucketExposure(a, r.name)) == Some(reach);
        BucketReachIff(a, b, r.name);
      } else {
        var r, p :| r in a.resources && r.kind == "workload" && p in r.ports && k == PortKey(r, p)
          && ReachOf(PortExposure(a, r.name, p.name, p.bind)) == Some(reach);
        PortsAgree(a, b, r.name, p.name, p.bind);
        SameReachSameRendering(PortExposure(a, r.name, p.name, p.bind), PortExposure(b, r.name, p.name, p.bind));
      }
    }
  }

  lemma SameReachSameRendering(x: Option<Exposure>, y: Option<Exposure>)
    requires SameReach(x, y)
    ensures ReachOf(x) == ReachOf(y)
  {
    hide RenderReachability;
    if x.Some? { ReachabilityDecides(x.value, y.value); }
  }

  lemma SameCoverageSymmetric(a: Document, b: Document)
    requires SameCoverage(a, b)
    ensures SameCoverage(b, a)
    ensures NamesAlikeThroughout(a, b) ==> NamesAlikeThroughout(b, a)
  {
    hide BucketGrants, PortRules, SomeGrantCovers, SomeRuleCovers, GrantsReadable, RulesReadable, Named;
    forall r | r in b.resources && r.kind == "bucket" ensures SameBucketCoverage(b, a, r.name) {
      assert r in a.resources && SameBucketCoverage(a, b, r.name);
    }
    forall r, p | r in b.resources && r.kind == "workload" && p in r.ports
      ensures SamePortAccess(b, a, r.name, p.name)
    {
      assert r in a.resources && SamePortAccess(a, b, r.name, p.name);
    }
    if NamesAlikeThroughout(a, b) {
      forall r | r in b.resources && r.kind == "bucket" && GrantsReadable(BucketGrants(b.grants, r.name))
        ensures NamesAlike(b, a, r.name)
      {
        assert r in a.resources && SameBucketCoverage(a, b, r.name) && NamesAlike(a, b, r.name);
      }
    }
  }

  /** A bucket's key is reported by buckets of that name alone. */
  lemma BucketKeyIsItsOwn(d: Document, name: string, reach: Reachability)
    ensures BucketShows(d, "bucket/" + name, reach) ==> ReachOf(BucketExposure(d, name)) == Some(reach)
    ensures !PortShows(d, "bucket/" + name, reach)
  {
    hide BucketExposure, PortExposure, RenderReachability;
    var k := "bucket/" + name;
    forall r: Resource | k == "bucket/" + r.name ensures r.name == name {
      assert k[7..] == name && ("bucket/" + r.name)[7..] == r.name;
    }
    forall r: Resource, p: Port ensures PortKey(r, p) != k { assert PortKey(r, p)[0] == 'w' && k[0] == 'b'; }
  }

  /** Documents with the same coverage report the same reachability, under any two
      allowlists, if and only if each readable bucket names the same principals or both
      sides name everyone. */
  lemma ReachabilityIsSpellingIndependent(a: Document, b: Document, allowA: Allowlist, allowB: Allowlist)
    requires SameCoverage(a, b)
    ensures Reported(a, allowA) == Reported(b, allowB) <==> NamesAlikeThroughout(a, b)
  {
    hide Reported, BucketGrants, BucketExposure, PortExposure, SameBucketCoverage, SamePortAccess, NamesAlike,
      RenderReachability, PortShows;
    SameCoverageSymmetric(a, b);
    if NamesAlikeThroughout(a, b) {
      ReportedWithin(a, b, allowA, allowB);
      ReportedWithin(b, a, allowB, allowA);
    }
    if Reported(a, allowA) == Reported(b, allowB) {
      forall r | r in a.resources && r.kind == "bucket" && GrantsReadable(BucketGrants(a.grants, r.name))
        ensures NamesAlike(a, b, r.name)
      {
        BucketReachIff(a, b, r.name);
        SomeTogether(a, b, r.name);
        if BucketExposure(a, r.name).Some? {
          var reach := ReachOf(BucketExposure(a, r.name)).value;
          assert BucketShows(a, "bucket/" + r.name, reach);
          ReportedMeaning(a, allowA, "bucket/" + r.name, reach);
          ReportedMeaning(b, allowB, "bucket/" + r.name, reach);
          BucketKeyIsItsOwn(b, r.name, reach);
        }
      }
    }
  }

  lemma SomeTogether(a: Document, b: Document, name: string)
    requires SameBucketCoverage(a, b, name)
    ensures BucketExposure(a, name).Some? <==> BucketExposure(b, name).Some?
  {
    BucketExposureMeaning(a, name);
    BucketExposureMeaning(b, name);
    assert BucketExposure(a, name).Some? <==>
      BucketGrants(a.grants, name) != [] && GrantsReadable(BucketGrants(a.grants, name));
    assert BucketExposure(b, name).Some? <==>
      BucketGrants(b.grants, name) != [] && GrantsReadable(BucketGrants(b.grants, name));
  }

  // ---- An allowlist that tells names apart --------------------------------------------

  /** Nothing about the document alone denies it. */
  ghost predicate Clean(d: Document) {
    && d.contractVersion == "1" && |d.resources| > 0
    && d.unknownResourceTypes == [] && d.unrecognizedFields == []
    && InputsReadable(d)
    && forall r, p :: r in d.resources && r.kind == "workload" && p in r.ports ==> p.bind.Ip?
  }

  function AllPrincipals(gs: seq<Grant>): seq<string> {
    if gs == [] then [] else gs[0].principals + AllPrincipals(gs[1..])
  }

  lemma {:induction false} AllPrincipalsMeaning(gs: seq<Grant>, p: string)
    ensures p in AllPrincipals(gs) <==> Named(gs, p)
  {
    if gs != [] {
      AllPrincipalsMeaning(gs[1..], p);
      assert gs == [gs[0]] + gs[1..];
      assert forall g :: g in gs <==> g == gs[0] || g in gs[1..];
    }
  }

  const TAILORED := "tailored"

  function PortEntry(r: Resource, p: Port): Entry {
    Entry(TAILORED, "workload_port", r.name + ":" + p.name, [], [Block(0, 0)])
  }

  /** Entries that admit a resource from everywhere, and a bucket for its own readers only. */
  function OwnEntries(d: Document, r: Resource): seq<Entry> {
    if r.kind == "bucket" then
      [Entry(TAILORED, "bucket", r.name, AllPrincipals(BucketGrants(d.grants, r.name)), [Block(0, 0)])]
    else if r.kind == "workload" then
      seq(|r.ports|, i requires 0 <= i < |r.ports| => PortEntry(r, r.ports[i]))
    else []
  }

  function EntriesFor(d: Document, rs: seq<Resource>): seq<Entry> {
    if rs == [] then [] else OwnEntries(d, rs[0]) + EntriesFor(d, rs[1..])
  }

  lemma {:induction false} EntriesForMeaning(d: Document, rs: seq<Resource>)
    ensures forall e :: e in EntriesFor(d, rs) <==> exists r :: r in rs && e in OwnEntries(d, r)
  {
    hide OwnEntries;
    if rs != [] {
      EntriesForMeaning(d, rs[1..]);
      assert rs == [rs[0]] + rs[1..];
      assert forall r :: r in rs <==> r == rs[0] || r in rs[1..];
    }
  }

  function Tailored(d: Document): seq<Entry> {
    EntriesFor(d, d.resources)
  }

  lemma TailoredBucket(d: Document, r: Resource)
    requires Clean(d) && r in d.resources && r.kind == "bucket" && BucketGrants(d.grants, r.name) != []
    ensures BucketAdmitted(d, Some(Tailored(d)), r.name)
  {
    hide BucketGrants, BucketExposure, RangesCover, AllBlocks, AllPrincipals, SourcesCovered, EntriesFor;
    var gs := BucketGrants(d.grants, r.name);
    BucketGrantsMeaning(d.grants, r.name);
    BucketExposureMeaning(d, r.name);
    var x := BucketExposure(d, r.name).value;
    var e := OwnEntries(d, r)[0];
    EntriesForMeaning(d, d.resources);
    assert e in OwnEntries(d, r) && e in Entries(Some(Tailored(d)));
    EverythingAllowed(x.sources);
    forall p | p in x.principals ensures p in e.principals { AllPrincipalsMeaning(gs, p); }
    assert AdmitsBucket(e, x, r.name);
  }

  lemma TailoredPort(d: Document, r: Resource, p: Port)
    requires Clean(d) && r in d.resources && r.kind == "workload" && p in r.ports
    ensures PortAdmitted(d, Some(Tailored(d)), r, p)
  {
    hide PortExposure, PortRules, RangesCover, AllBlocks, SourcesCovered, EntriesFor;
    PortRulesMeaning(d.networkRules, r.name, p.name);
    PortExposureMeaning(d, r.name, p.name, p.bind);
    var x := PortExposure(d, r.name, p.name, p.bind).value;
    var i :| 0 <= i < |r.ports| && r.ports[i] == p;
    EntriesForMeaning(d, d.resources);
    assert OwnEntries(d, r)[i] == PortEntry(r, p);
    assert PortEntry(r, p) in OwnEntries(d, r) && PortEntry(r, p) in Entries(Some(Tailored(d)));
    EverythingAllowed(x.sources);
    assert AdmitsPort(PortEntry(r, p), x, r.name, p.name);
  }

  /** A clean document's own allowlist admits it. */
  lemma TailoredAdmits(d: Document)
    requires Clean(d)
    ensures Admits(d, Some(Tailored(d)))
  {
    hide Admits, Conflicts, BucketAdmitted, PortAdmitted, BucketGrants, AllBlocks, Tailored, OwnEntries;
    var allow: Allowlist := Some(Tailored(d));
    forall r | r in d.resources && r.kind == "bucket" && BucketGrants(d.grants, r.name) != []
      ensures BucketAdmitted(d, allow, r.name)
    {
      TailoredBucket(d, r);
    }
    forall r, p | r in d.resources && r.kind == "workload" && p in r.ports ensures PortAdmitted(d, allow, r, p) {
      TailoredPort(d, r, p);
    }
    TailoredRules(d);
    OneRuleNoConflict(d, Tailored(d), TAILORED);
    AdmitsMeaning(d, allow);
  }

  lemma TailoredRules(d: Document)
    ensures forall e :: e in Tailored(d) ==> e.rule == TAILORED
  {
    hide EntriesFor;
    EntriesForMeaning(d, d.resources);
  }

  /** And refuses every document with a reader more on one of its buckets. */
  lemma TailoredRefuses(a: Document, b: Document, r: Resource, p: string)
    requires r in a.resources && r.kind == "bucket"
    requires Named(BucketGrants(a.grants, r.name), p) && !Named(BucketGrants(b.grants, r.name), p)
    ensures !Admits(a, Some(Tailored(b)))
  {
    hide Admits, Conflicts, PortAdmitted, BucketGrants, AllBlocks, BucketExposure, SourcesCovered, EntriesFor,
      AllPrincipals;
    var allow: Allowlist := Some(Tailored(b));
    AdmitsMeaning(a, allow);
    BucketExposureMeaning(a, r.name);
    EntriesForMeaning(b, b.resources);
    AllPrincipalsMeaning(BucketGrants(b.grants, r.name), p);
    forall e | e in Tailored(b) && e.kind == "bucket" && e.name == r.name ensures p !in e.principals {
      var r' :| r' in b.resources && e in OwnEntries(b, r');
      assert r'.kind == "bucket" && r'.name == r.name;
    }
    assert BucketExposure(a, r.name).Some? ==> p in BucketExposure(a, r.name).value.principals;
    assert !BucketAdmitted(a, allow, r.name);
  }

  ghost predicate SameResult(a: Document, b: Document, allow: Allowlist) {
    && (Decide(a, allow).Answer? <==> Decide(b, allow).Answer?)
    && (Decide(a, allow).Answer? ==> Decide(a, allow).result == Decide(b, allow).result)
  }

  ghost predicate AdmittedTogether(a: Document, b: Document) {
    forall allow :: Admits(a, allow) <==> Admits(b, allow)
  }

  lemma CleanTogether(a: Document, b: Document)
    requires AlikeButNames(a, b)
    ensures Clean(a) <==> Clean(b)
  {
    hide AllBlocks, SameBucketCoverage, SamePortAccess;
    if a.resources != [] { assert a.resources[0] in b.resources; }
    if b.resources != [] { assert b.resources[0] in a.resources; }
  }

  lemma OnlyCleanIsAdmitted(d: Document, allow: Allowlist)
    requires Admits(d, allow)
    ensures Clean(d)
  {
    hide Admits, Conflicts, BucketAdmitted, AllBlocks, BucketGrants, PortExposure;
    AdmitsMeaning(d, allow);
    forall r, p | r in d.resources && r.kind == "workload" && p in r.ports ensures p.bind.Ip? {
      assert PortAdmitted(d, allow, r, p);
    }
  }

  /** Documents alike but for names are admitted by the same allowlists if and only if their
      buckets name the same principals, or nothing could admit either. */
  lemma ResultsAgreeIff(a: Document, b: Document)
    requires AlikeButNames(a, b)
    ensures AdmittedTogether(a, b) <==> !Clean(a) || SameNamesThroughout(a, b)
    ensures Clean(a) ==> ((forall allow :: SameResult(a, b, allow)) <==> SameNamesThroughout(a, b))
  {
    hide AlikeButNames, Admits, Clean, SameNames, Named, Tailored;
    CleanTogether(a, b);
    if SameNamesThroughout(a, b) {
      forall allow ensures (Admits(a, allow) <==> Admits(b, allow)) && SameResult(a, b, allow) {
        ResultIsSpellingIndependent(a, b, allow);
      }
    } else {
      if Clean(a) { DifferentNamesTellApart(a, b); }
    }
    if !Clean(a) {
      forall allow ensures !Admits(a, allow) && !Admits(b, allow) {
        if Admits(a, allow) { OnlyCleanIsAdmitted(a, allow); }
        if Admits(b, allow) { OnlyCleanIsAdmitted(b, allow); }
      }
    }
  }

  lemma DifferentNamesTellApart(a: Document, b: Document)
    requires AlikeButNames(a, b) && Clean(a) && Clean(b) && !SameNamesThroughout(a, b)
    ensures exists allow :: (Admits(a, allow) <==> !Admits(b, allow)) && !SameResult(a, b, allow)
  {
    hide Admits, Clean, Named, Tailored, BucketGrants, SameBucketCoverage, SamePortAccess, InputsReadable;
    var r :| r in a.resources && r.kind == "bucket" && !SameNames(a, b, r.name);
    var p :| Named(BucketGrants(a.grants, r.name), p) != Named(BucketGrants(b.grants, r.name), p);
    TailoredAdmits(a);
    TailoredAdmits(b);
    var allow: Allowlist := Some(if Named(BucketGrants(a.grants, r.name), p) then Tailored(b) else Tailored(a));
    if Named(BucketGrants(a.grants, r.name), p) {
      TailoredRefuses(a, b, r, p);
    } else {
      assert r in b.resources;
      TailoredRefuses(b, a, r, p);
    }
    ResultTellsAdmission(a, b, allow);
  }

  lemma ResultTellsAdmission(a: Document, b: Document, allow: Allowlist)
    ensures SameResult(a, b, allow) ==> (Admits(a, allow) <==> Admits(b, allow))
  {
    hide Decide;
  }

  // ---- The result does look beside the anonymous principal ----------------------------

  function PublicBucket(principals: seq<string>): Document {
    Document("1", "iac-plan", [Segment("internet", Block(0, 0))],
             [Resource("bucket", "b", "a", [], map["name" := Text("b")])],
             [GrantEntry(Grant("g", "bucket", "b", principals, ["read"], [Block(0, 0)]), "a")], [], [], [])
  }

  lemma PublicBucketGrants(principals: seq<string>)
    ensures BucketGrants(PublicBucket(principals).grants, "b")
         == [Grant("g", "bucket", "b", principals, ["read"], [Block(0, 0)])]
  {
    var grants := PublicBucket(principals).grants;
    assert grants[1..] == [];
  }

  /** An entry for everyone admits the grant to "*" and refuses the grant to "*" and a
      named principal, though both render the same reachability. */
  lemma ResultSeesNamedPrincipals()
    ensures
      var allow := Some([Entry("r", "bucket", "b", ["*"], [Block(0, 0)])]);
      var one, two := PublicBucket(["*"]), PublicBucket(["*", "x"]);
      && Admits(one, allow) && !Admits(two, allow)
      && BucketExposure(one, "b").Some? && BucketExposure(two, "b").Some?
      && RenderReachability(BucketExposure(one, "b").value) == RenderReachability(BucketExposure(two, "b").value)
  {
    hide Admits, Conflicts, PortAdmitted, BucketGrants, RangesCover;
    var entry := Entry("r", "bucket", "b", ["*"], [Block(0, 0)]);
    var allow: Allowlist := Some([entry]);
    var one, two := PublicBucket(["*"]), PublicBucket(["*", "x"]);
    PublicBucketGrants(["*"]);
    PublicBucketGrants(["*", "x"]);
    BucketExposureMeaning(one, "b");
    BucketExposureMeaning(two, "b");
    var g, h := BucketGrants(one.grants, "b")[0], BucketGrants(two.grants, "b")[0];
    var x, y := BucketExposure(one, "b").value, BucketExposure(two, "b").value;
    assert "*" in g.principals && "*" in x.principals;
    assert h.principals[0] == "*" && h.principals[1] == "x";
    assert "x" in y.principals && "*" in y.principals;
    SingleEntryAdmits(one, entry);
    AdmitsMeaning(two, allow);
    assert !PrincipalsCovered(y.principals, entry.principals);
    assert two.resources[0].kind == "bucket";
    assert !BucketAdmitted(two, allow, "b");
    assert GrantSources([g]) == g.sourceRanges && GrantSources([h]) == h.sourceRanges;
  }

  lemma SingleEntryAdmits(one: Document, entry: Entry)
    requires one == PublicBucket(["*"]) && entry == Entry("r", "bucket", "b", ["*"], [Block(0, 0)])
    ensures Admits(one, Some([entry]))
  {
    hide Admits, Conflicts, BucketAdmitted, PortAdmitted, BucketGrants;
    var allow: Allowlist := Some([entry]);
    PublicBucketAdmitted(one, entry);
    OneRuleNoConflict(one, [entry], entry.rule);
    AdmitsMeaning(one, allow);
  }

  lemma PublicBucketAdmitted(one: Document, entry: Entry)
    requires one == PublicBucket(["*"]) && entry == Entry("r", "bucket", "b", ["*"], [Block(0, 0)])
    ensures BucketAdmitted(one, Some([entry]), "b")
  {
    var allow: Allowlist := Some([entry]);
    PublicBucketGrants(["*"]);
    BucketExposureMeaning(one, "b");
    var x := BucketExposure(one, "b").value;
    EverythingAllowed(x.sources);
    assert AdmitsBucket(entry, x, "b");
    assert entry in Entries(allow);
  }

  lemma EverythingAllowed(sources: seq<Range>)
    requires AllMasked(sources)
    ensures SourcesCovered(sources, [Block(0, 0)])
  {
    hide ClearLow, Pow2;
    forall i | 0 <= i < |sources| ensures BlockAllowed(sources[i], [Block(0, 0)]) {
      BlockBounds(sources[i]);
      EverywhereCovers(First(sources[i]));
      EverywhereCovers(Last(sources[i]));
      assert CidrContains([Block(0, 0)][0], sources[i]);
    }
  }

  lemma OneRuleNoConflict(doc: Document, entries: seq<Entry>, rule: string)
    requires forall e :: e in entries ==> e.rule == rule
    ensures !Conflicts(doc, Some(entries))
  {
    hide AdmitsBucket, AdmitsPort, BucketExposure, PortExposure;
    forall key | key in Keys(doc) ensures |RulesAt(doc, Some(entries), key)| <= 1 {
      SubsetOfOne(RulesAt(doc, Some(entries), key), rule);
    }
  }

  lemma SubsetOfOne(s: set<string>, x: string)
    requires s <= {x}
    ensures |s| <= 1
  {
    if s != {} { assert s == {x}; }
  }
}
