/** The gate against the platform: what an admission of the live state promises about
    every request the platform authorizes, and where the two computations coincide. */
module Soundness {
  import opened Options
  import opened Cidr
  import opened Intervals
  import opened Prefixes
  import opened Platform
  import opened Graph
  import opened Policy
  import opened ExposureMeaning
  import opened NetSet
  import A = Authz
  import Order
  import Store
  import S = Spelling

  // ---- Reads --------------------------------------------------------------------------

  predicate Declared(st: State, bucket: string) {
    exists i :: 0 <= i < |st.buckets| && st.buckets[i].name == bucket
  }

  /** The entry names the bucket, covers the caller's address and admits the caller. */
  predicate CoversRead(e: Entry, c: Caller, bucket: string) {
    && e.kind == "bucket" && e.name == bucket
    && c.addr.V4? && RangesCover(e.sources, c.addr.addr)
    && (PrincipalOf(c) in e.principals || ANONYMOUS in e.principals)
  }

  lemma LiveBucketGrants(st: State, segments: seq<Segment>, name: string)
    ensures forall g :: g in BucketGrants(LiveDocument(st, segments).grants, name) <==>
      g in st.grants && ReadsBucket(g, name)
  {
    var doc := LiveDocument(st, segments);
    LiveDocumentMembers(st, segments);
    BucketGrantsMeaning(doc.grants, name);
    forall g | g in st.grants && ReadsBucket(g, name) ensures g in BucketGrants(doc.grants, name) {
      assert LiveGrant(g) in doc.grants;
    }
  }

  lemma DeclaredBucketResource(st: State, segments: seq<Segment>, bucket: string)
    requires Declared(st, bucket)
    ensures exists r :: r in LiveDocument(st, segments).resources && r.kind == "bucket" && r.name == bucket
  {
    LiveDocumentMembers(st, segments);
    var i :| 0 <= i < |st.buckets| && st.buckets[i].name == bucket;
    assert BucketResource(st.buckets[i]) in LiveDocument(st, segments).resources;
  }

  /** Every read the platform allows on a declared bucket of an admitted live state is
      covered by one allowlist entry for that bucket. */
  lemma AdmittedReadsAreAllowlisted(st: State, segments: seq<Segment>, allow: Allowlist, c: Caller,
      bucket: string, key: string)
    requires Admits(LiveDocument(st, segments), allow)
    requires Declared(st, bucket)
    requires A.ReadAllowed(st, c, bucket, key)
    ensures exists e :: e in Entries(allow) && CoversRead(e, c, bucket)
  {
    hide LiveDocument, BucketExposure, RangesCover, Conflicts, Admits;
    var doc := LiveDocument(st, segments);
    AdmitsMeaning(doc, allow);
    DeclaredBucketResource(st, segments, bucket);
    LiveBucketGrants(st, segments, bucket);
    var g :| g in st.grants && A.Names(g, KIND_BUCKET, bucket, ACTION_READ)
      && (exists p :: p in {PrincipalOf(c), ANONYMOUS} && p in g.principals)
      && c.addr.V4? && RangesCover(g.sourceRanges, c.addr.addr);
    assert g in BucketGrants(doc.grants, bucket);
    assert BucketAdmitted(doc, allow, bucket);
    BucketExposureMeaning(doc, bucket);
    var x := BucketExposure(doc, bucket).value;
    var e :| e in Entries(allow) && AdmitsBucket(e, x, bucket);
    var p :| p in {PrincipalOf(c), ANONYMOUS} && p in g.principals;
    assert p in x.principals && p in e.principals;
    assert SomeGrantCovers(BucketGrants(doc.grants, bucket), c.addr.addr);
    SourcesCoveredSound(x.sources, e.sources);
    assert RangesCover(x.sources, c.addr.addr);
    assert CoversRead(e, c, bucket);
  }

  // ---- Connects -----------------------------------------------------------------------

  predicate CoversConnect(e: Entry, c: Caller, workload: string, port: string) {
    && e.kind == "workload_port" && e.name == workload + ":" + port
    && c.addr.V4? && RangesCover(e.sources, c.addr.addr)
  }

  lemma LivePortRules(st: State, segments: seq<Segment>, workload: string, port: string)
    ensures forall r :: r in PortRules(LiveDocument(st, segments).networkRules, workload, port) <==>
      r in st.networkRules && A.Permits(r, workload, port)
  {
    var doc := LiveDocument(st, segments);
    LiveDocumentMembers(st, segments);
    PortRulesMeaning(doc.networkRules, workload, port);
    forall r | r in st.networkRules && A.Permits(r, workload, port)
      ensures r in PortRules(doc.networkRules, workload, port)
    {
      assert LiveRule(r) in doc.networkRules;
    }
  }

  lemma LiveRulesCover(st: State, segments: seq<Segment>, workload: string, port: string, v: int)
    ensures SomeRuleCovers(PortRules(LiveDocument(st, segments).networkRules, workload, port), v)
       <==> A.RuleAdmits(st.networkRules, workload, port, v)
  {
    hide LiveDocument, PortRules, RangesCover;
    LivePortRules(st, segments, workload, port);
    var rs := PortRules(LiveDocument(st, segments).networkRules, workload, port);
    if SomeRuleCovers(rs, v) {
      var r :| r in rs && RangesCover(r.sourceRanges, v);
      assert A.Permits(r, workload, port);
    }
    if A.RuleAdmits(st.networkRules, workload, port, v) {
      var r :| r in st.networkRules && A.Permits(r, workload, port) && RangesCover(r.sourceRanges, v);
      assert r in rs;
    }
  }

  lemma LoopbackAlike(a: Addr)
    ensures A.IsLoopback(a) <==> CidrContainsIp(LOOPBACK, Ip(a))
    ensures A.IsLoopback(0) == false
  {
    MaskIsRemainder(0x7F00_0000, 24);
    BlockBounds(LOOPBACK);
    TwentyFour();
  }

  lemma TwentyFour()
    ensures Pow2(24) == 0x100_0000
  {
    assert Pow2(8) == 256;
    Pow2Adds(8, 8);
    Pow2Adds(16, 8);
  }

  /** The platform's bind reach is within the policy's, whatever the segments. */
  lemma BindReachWithin(bind: Bind, segments: seq<Segment>, v: int)
    requires A.BindReachOf(bind, segments).Some? && Covers(A.BindReachOf(bind, segments).value, v)
    ensures BindServes(segments, bind, v)
  {
    var a := bind.addr;
    LoopbackAlike(a);
    if a != 0 && !A.IsLoopback(a) {
      A.SegmentReachMeaning(a, segments);
      var i :| 0 <= i < |segments| && InRange(segments[i].cidr, a)
        && (forall j :: 0 <= j < i ==> segments[j].cidr.Block? && !InRange(segments[j].cidr, a))
        && forall v: int :: Covers(A.SegmentReach(a, segments).value, v) <==> InRange(segments[i].cidr, v);
      assert segments[i] in segments && CidrContainsIp(segments[i].cidr, bind) && InRange(segments[i].cidr, v);
    }
  }

  lemma BindServesMembers(a: seq<Segment>, b: seq<Segment>, bind: Bind, v: int)
    requires forall s :: s in a <==> s in b
    ensures BindServes(a, bind, v) <==> BindServes(b, bind, v)
  {
  }

  lemma LiveWorkloadResource(st: State, segments: seq<Segment>, workload: string, p: Port)
    requires A.Declares(st.workloads, workload, p)
    ensures exists r :: r in LiveDocument(st, segments).resources && r.kind == "workload"
                        && r.name == workload && p in r.ports
  {
    LiveDocumentMembers(st, segments);
    var w :| w in st.workloads && w.name == workload && p in w.ports;
    var i :| 0 <= i < |st.workloads| && st.workloads[i] == w;
    assert WorkloadResource(st.workloads[i]) in LiveDocument(st, segments).resources;
  }

  /** Every connect the platform allows in an admitted live state, with the state's own
      segments, is covered by one allowlist entry for that port. */
  lemma AdmittedConnectsAreAllowlisted(st: State, allow: Allowlist, c: Caller, workload: string, port: string)
    requires Admits(LiveDocument(st, st.segments), allow)
    requires A.ConnectDecision(st, c, workload, port).0.allowed
    ensures exists e :: e in Entries(allow) && CoversConnect(e, c, workload, port)
  {
    hide LiveDocument, PortExposure, RangesCover, Conflicts, Admits, A.EffectiveIngressOf, A.Lookup,
      A.BindReachOf, BindServes, SomeRuleCovers, A.RuleAdmits;
    var doc := LiveDocument(st, st.segments);
    AdmitsMeaning(doc, allow);
    A.LookupIsDeclared(st.workloads, workload, port);
    A.ConnectAllowedMeaning(st, c, workload, port);
    var p := A.Lookup(st.workloads, workload, port).port.value;
    LiveWorkloadResource(st, st.segments, workload, p);
    var r :| r in doc.resources && r.kind == "workload" && r.name == workload && p in r.ports;
    assert PortAdmitted(doc, allow, r, p);
    var v := c.addr.addr;
    var x := PortExposure(doc, workload, port, p.bind).value;
    PortExposureMeaning(doc, workload, port, p.bind);
    LiveRulesCover(st, st.segments, workload, port, v);
    BindReachWithin(p.bind, st.segments, v);
    LiveDocumentMembers(st, st.segments);
    BindServesMembers(st.segments, doc.segments, p.bind, v);
    assert RangesCover(x.sources, v);
    if x.sources == [] { NothingCovered(v); }
    var e :| e in Entries(allow) && AdmitsPort(e, x, workload, port);
    SourcesCoveredSound(x.sources, e.sources);
    assert CoversConnect(e, c, workload, port);
  }

  // ---- Exactness of port exposure -----------------------------------------------------

  /** Both sides are computable together, and then cover the same addresses. */
  ghost predicate PortExact(st: State, workload: string, p: Port) {
    var platform := A.EffectiveIngressOf(st.networkRules, Workload(workload, "", []), p, st.segments);
    var gate := PortExposure(LiveDocument(st, st.segments), workload, p.name, p.bind);
    && (platform.Some? <==> gate.Some?)
    && (platform.Some? ==> forall v: int :: Covers(platform.value.0, v) <==> RangesCover(gate.value.sources, v))
  }

  ghost predicate NoneHolds(segments: seq<Segment>, a: Addr, n: int)
    requires n <= |segments|
  {
    forall j :: 0 <= j < n ==> !InRange(segments[j].cidr, a)
  }

  /** No malformed segment comes before the first one that contains the address. */
  ghost predicate ReadableToFirst(segments: seq<Segment>, a: Addr) {
    forall i :: 0 <= i < |segments| && NoneHolds(segments, a, i) ==> segments[i].cidr.Block?
  }

  ghost predicate FirstHolding(segments: seq<Segment>, a: Addr, i: int) {
    && 0 <= i < |segments| && InRange(segments[i].cidr, a)
    && forall j :: 0 <= j < i ==> !InRange(segments[j].cidr, a)
  }

  /** Among the segments that contain the address, the first is the widest. */
  ghost predicate FirstIsWidest(segments: seq<Segment>, a: Addr) {
    forall i, j :: FirstHolding(segments, a, i) && 0 <= j < |segments| && InRange(segments[j].cidr, a) ==>
      Inside(segments[j].cidr, segments[i].cidr)
  }

  ghost predicate ReachAgrees(bind: Bind, segments: seq<Segment>) {
    && A.BindReachOf(bind, segments).Some?
    && forall v: int :: Covers(A.BindReachOf(bind, segments).value, v) <==> BindServes(segments, bind, v)
  }

  lemma {:induction false} SegmentReachReadable(a: Addr, segments: seq<Segment>)
    ensures A.SegmentReach(a, segments).Some? <==> ReadableToFirst(segments, a)
  {
    if segments != [] {
      var first, rest := segments[0].cidr, segments[1..];
      ParseAllMeaning([first]);
      assert AllBlocks([first]) <==> first.Block?;
      SegmentReachReadable(a, rest);
      if !first.Block? {
        assert NoneHolds(segments, a, 0);
      } else if !InRange(first, a) {
        forall i | 0 <= i < |rest| ensures NoneHolds(rest, a, i) <==> NoneHolds(segments, a, i + 1) {
          assert forall j :: 0 <= j < i ==> rest[j] == segments[j + 1];
          assert forall j :: 0 < j <= i ==> segments[j] == rest[j - 1];
        }
        assert forall i :: 0 < i < |segments| ==> segments[i] == rest[i - 1];
      }
    }
  }

  /** The two accounts of a bind agree exactly when it is loopback or unspecified, or the
      first segment that contains it is its widest and can be found. */
  lemma ReachAgreesIff(a: Addr, segments: seq<Segment>)
    ensures ReachAgrees(Ip(a), segments) <==> AccountsAgree(segments, a)
  {
    hide ClearLow, Pow2;
    var bind := Ip(a);
    LoopbackAlike(a);
    SegmentReachReadable(a, segments);
    if !A.IsLoopback(a) && a != 0 && ReadableToFirst(segments, a) {
      A.SegmentReachMeaning(a, segments);
      if A.SegmentReach(a, segments).value == [] {
        assert forall v: int :: !BindServes(segments, bind, v);
        assert forall i :: !FirstHolding(segments, a, i);
      } else {
        var i :| 0 <= i < |segments| && InRange(segments[i].cidr, a)
          && (forall j :: 0 <= j < i ==> segments[j].cidr.Block? && !InRange(segments[j].cidr, a))
          && forall v: int :: Covers(A.SegmentReach(a, segments).value, v) <==> InRange(segments[i].cidr, v);
        SegmentReachIff(a, segments, i);
      }
    } else if !A.IsLoopback(a) && a == 0 {
      forall v: int ensures Covers([Interval(0, 0xFFFF_FFFF)], v) <==> BindServes(segments, bind, v) {
        CoversSnoc([], Interval(0, 0xFFFF_FFFF), v);
      }
    }
  }

  lemma SegmentReachIff(a: Addr, segments: seq<Segment>, i: nat)
    requires FirstHolding(segments, a, i)
    requires !A.IsLoopback(a) && a != 0
    requires A.SegmentReach(a, segments).Some?
    requires forall v: int :: Covers(A.SegmentReach(a, segments).value, v) <==> InRange(segments[i].cidr, v)
    ensures ReachAgrees(Ip(a), segments) <==> FirstIsWidest(segments, a)
  {
    hide ClearLow, Pow2, First, Last, Covers;
    var bind, first := Ip(a), segments[i].cidr;
    LoopbackAlike(a);
    assert forall k :: FirstHolding(segments, a, k) ==> k == i;
    if FirstIsWidest(segments, a) {
      forall v: int ensures InRange(first, v) <==> BindServes(segments, bind, v) {
        if InRange(first, v) { assert segments[i] in segments && CidrContainsIp(first, bind); }
        if BindServes(segments, bind, v) {
          var s :| s in segments && CidrContainsIp(s.cidr, bind) && InRange(s.cidr, v);
          var j :| 0 <= j < |segments| && segments[j] == s;
          assert Inside(segments[j].cidr, first);
        }
      }
    }
    if ReachAgrees(bind, segments) {
      forall j | 0 <= j < |segments| && InRange(segments[j].cidr, a) ensures Inside(segments[j].cidr, first) {
        var s := segments[j];
        BlockBounds(s.cidr);
        assert s in segments && CidrContainsIp(s.cidr, bind);
        assert BindServes(segments, bind, First(s.cidr)) && BindServes(segments, bind, Last(s.cidr));
        assert InRange(first, First(s.cidr)) && InRange(first, Last(s.cidr));
      }
    }
  }

  /** Rules never break the agreement: given it, every rule list is exact, the malformed
      ones by leaving both sides undefined. */
  lemma PortExactFromReach(st: State, workload: string, p: Port)
    requires ReachAgrees(p.bind, st.segments)
    ensures PortExact(st, workload, p)
  {
    hide LiveDocument, PortExposure, RangesCover, Covers, A.BindReachOf, BindServes, SomeRuleCovers,
      A.RuleAdmits, PortRules, IntersectOf, A.PermittedOf;
    var doc := LiveDocument(st, st.segments);
    A.PermittedMeaning(st.networkRules, workload, p.name);
    LivePortRules(st, st.segments, workload, p.name);
    LiveDocumentMembers(st, st.segments);
    PortExposureMeaning(doc, workload, p.name, p.bind);
    if A.PermittedOf(st.networkRules, workload, p.name).Some? {
      var permitted := A.PermittedOf(st.networkRules, workload, p.name).value.0;
      var reach := A.BindReachOf(p.bind, st.segments).value;
      IntersectIsPointwise(permitted, reach);
      forall v: int ensures Covers(IntersectOf(permitted, reach), v) <==>
        RangesCover(PortExposure(doc, workload, p.name, p.bind).value.sources, v)
      {
        LiveRulesCover(st, st.segments, workload, p.name, v);
        BindServesMembers(st.segments, doc.segments, p.bind, v);
      }
    }
  }

  /** Port exposure is exact in every state with these segments that declares the port if and
      only if the two accounts of the bind agree on them; for segments in a store's order,
      already in every such state a store can hold. */
  lemma PortExposureExactIff(segments: seq<Segment>, a: Addr, workload: string, port: string)
    ensures AccountsAgree(segments, a) <==>
      forall st :: DeclaresPort(st, segments, workload, port, a) ==> PortExact(st, workload, Port(port, 0, Ip(a)))
    ensures Order.Sorted(segments, Store.SegmentName, Order.StringLe) ==>
      (AccountsAgree(segments, a) <==>
       forall st :: DeclaresPort(st, segments, workload, port, a) && Store.Tidy(st) ==>
         PortExact(st, workload, Port(port, 0, Ip(a))))
  {
    ReachAgreesIff(a, segments);
    var p := Port(port, 0, Ip(a));
    if ReachAgrees(Ip(a), segments) {
      forall st | DeclaresPort(st, segments, workload, port, a) ensures PortExact(st, workload, p) {
        PortExactFromReach(st, workload, p);
      }
    } else {
      var open := Unrestricted(segments, workload, p);
      UnrestrictedTellsReach(segments, a, workload, port);
      UnrestrictedDeclares(segments, workload, p);
      assert DeclaresPort(open, segments, workload, port, a) && !PortExact(open, workload, p);
    }
  }

  ghost predicate AccountsAgree(segments: seq<Segment>, a: Addr) {
    A.IsLoopback(a) || a == 0 || (ReadableToFirst(segments, a) && FirstIsWidest(segments, a))
  }

  ghost predicate DeclaresPort(st: State, segments: seq<Segment>, workload: string, port: string, a: Addr) {
    st.segments == segments && A.Declares(st.workloads, workload, Port(port, 0, Ip(a)))
  }

  /** A state that declares one port, and whose one rule permits every address to it. */
  function Unrestricted(segments: seq<Segment>, workload: string, p: Port): State {
    State(segments, [], [], [], [], [Workload(workload, "", [p])],
          [NetworkRule("r", workload, p.name, [EVERYWHERE])], [])
  }

  lemma UnrestrictedDeclares(segments: seq<Segment>, workload: string, p: Port)
    ensures A.Declares(Unrestricted(segments, workload, p).workloads, workload, p)
    ensures Order.Sorted(segments, Store.SegmentName, Order.StringLe) ==>
      Store.Tidy(Unrestricted(segments, workload, p))
  {
    var w := Workload(workload, "", [p]);
    assert w in Unrestricted(segments, workload, p).workloads && w.ports[0] == p;
  }

  lemma UnrestrictedTellsReach(segments: seq<Segment>, a: Addr, workload: string, port: string)
    ensures
      var p := Port(port, 0, Ip(a));
      PortExact(Unrestricted(segments, workload, p), workload, p) ==> ReachAgrees(Ip(a), segments)
  {
    hide LiveDocument, PortExposure, Covers, A.BindReachOf, SomeRuleCovers, A.RuleAdmits, PortRules,
      IntersectOf, A.PermittedOf, CidrContainsIp;
    var p := Port(port, 0, Ip(a));
    var st := Unrestricted(segments, workload, p);
    assert forall r :: r in st.networkRules ==> r == st.networkRules[0] && r.sourceRanges == [EVERYWHERE];
    assert AllBlocks([EVERYWHERE]);
    LivePortRules(st, segments, workload, port);
    if PortExact(st, workload, p) {
      var doc := LiveDocument(st, segments);
      A.PermittedMeaning(st.networkRules, workload, port);
      PortExposureMeaning(doc, workload, port, p.bind);
      LiveDocumentMembers(st, segments);
      var permitted := A.PermittedOf(st.networkRules, workload, port).value.0;
      var reach := A.BindReachOf(p.bind, segments).value;
      IntersectIsPointwise(permitted, reach);
      forall v: int ensures Covers(reach, v) <==> BindServes(segments, p.bind, v) {
        LiveRulesCover(st, segments, workload, port, v);
        BindServesMembers(segments, doc.segments, p.bind, v);
        UnrestrictedAdmits(st, workload, port, v);
        InSpace(Ip(a), segments, v);
        BindServesInSpace(segments, Ip(a), v);
      }
    }
  }

  lemma UnrestrictedAdmits(st: State, workload: string, port: string, v: int)
    requires st.networkRules == [NetworkRule("r", workload, port, [EVERYWHERE])]
    ensures A.RuleAdmits(st.networkRules, workload, port, v) <==> 0 <= v < TWO32
  {
    EverywhereCovers(v);
    var r := st.networkRules[0];
    assert r in st.networkRules && A.Permits(r, workload, port);
    assert RangesCover(r.sourceRanges, v) <==> InRange(r.sourceRanges[0], v);
  }

  lemma InSpace(bind: Bind, segments: seq<Segment>, v: int)
    requires A.BindReachOf(bind, segments).Some?
    ensures Covers(A.BindReachOf(bind, segments).value, v) ==> 0 <= v < TWO32
  {
  }

  lemma BindServesInSpace(segments: seq<Segment>, bind: Bind, v: int)
    ensures BindServes(segments, bind, v) ==> 0 <= v < TWO32
  {
    if BindServes(segments, bind, v) && bind != Ip(0) {
      var s :| s in segments && CidrContainsIp(s.cidr, bind) && InRange(s.cidr, v);
      BlockBounds(s.cidr);
    }
  }

  lemma UpperHalfIsNoLoopback(a: Addr)
    requires a >= 0x8000_0000
    ensures !A.IsLoopback(a)
  {
    MaskIsRemainder(0x7F00_0000, 24);
    TwentyFour();
  }

  /** A state a store can hold on which the accounts differ, and in which the gate computes
      another exposure for a declared port than the platform's ingress: of two segments that
      contain the bind, the narrower one comes first in the store's order. */
  lemma NarrowSegmentFirstDisagrees(segments: seq<Segment>, st: State, p: Port)
    requires segments == [Segment("a", Block(0x8000_0000, 1)), Segment("b", EVERYWHERE)]
    requires p == Port("p", 0, Ip(0x8000_0000)) && st == Unrestricted(segments, "w", p)
    ensures Store.Tidy(st) && A.Declares(st.workloads, "w", p)
    ensures !ReachAgrees(p.bind, segments) && !PortExact(st, "w", p)
  {
    hide ReachAgrees, PortExact, First, Last, Pow2, Store.Tidy;
    var a: Addr := 0x8000_0000;
    HalfBlocks();
    EverywhereCovers(a);
    EverywhereCovers(0);
    UpperHalfIsNoLoopback(a);
    assert FirstHolding(segments, a, 0) && InRange(segments[1].cidr, a);
    assert !Inside(EVERYWHERE, segments[0].cidr);
    ReachAgreesIff(a, segments);
    UnrestrictedTellsReach(segments, a, "w", "p");
    assert Order.StringLe("a", "b");
    UnrestrictedDeclares(segments, "w", p);
  }

  /** In particular when at most one segment contains the address. */
  lemma OneSegmentIsWidest(segments: seq<Segment>, a: Addr)
    requires forall i, j :: 0 <= i < j < |segments| ==> !(InRange(segments[i].cidr, a) && InRange(segments[j].cidr, a))
    ensures FirstIsWidest(segments, a)
  {
  }

  // ---- What the gate does not look at -------------------------------------------------

  function WithGrant(st: State, g: Grant): State {
    st.(grants := st.grants + [g])
  }

  lemma GrantElsewhere(st: State, segments: seq<Segment>, g: Grant, name: string)
    requires !ReadsBucket(g, name)
    ensures S.SameBucketAccess(LiveDocument(st, segments), LiveDocument(WithGrant(st, g), segments), name)
  {
    hide LiveDocument, BucketGrants, RangesCover;
    LiveBucketGrants(st, segments, name);
    LiveBucketGrants(WithGrant(st, g), segments, name);
    var x := BucketGrants(LiveDocument(st, segments).grants, name);
    var y := BucketGrants(LiveDocument(WithGrant(st, g), segments).grants, name);
    SameMembersSameAccess(x, y);
  }

  lemma SameMembersSameAccess(x: seq<Grant>, y: seq<Grant>)
    requires forall g :: g in x <==> g in y
    ensures x == [] <==> y == []
    ensures S.GrantsReadable(x) <==> S.GrantsReadable(y)
    ensures forall p :: S.Named(x, p) <==> S.Named(y, p)
    ensures forall v: int :: SomeGrantCovers(x, v) <==> SomeGrantCovers(y, v)
  {
    if x != [] { assert x[0] in y; }
    if y != [] { assert y[0] in x; }
  }

  lemma LiveRulesUnchanged(st: State, segments: seq<Segment>, g: Grant)
    ensures LiveDocument(WithGrant(st, g), segments).networkRules == LiveDocument(st, segments).networkRules
    ensures LiveDocument(WithGrant(st, g), segments).resources == LiveDocument(st, segments).resources
    ensures LiveDocument(WithGrant(st, g), segments).segments == LiveDocument(st, segments).segments
  {
  }

  /** The gate is blind to a readable grant on a bucket the state does not declare. */
  lemma GateIgnoresUndeclaredBuckets(st: State, segments: seq<Segment>, allow: Allowlist, g: Grant)
    requires AllBlocks(g.sourceRanges)
    requires g.resourceKind == KIND_BUCKET ==> !Declared(st, g.resourceName)
    ensures Admits(LiveDocument(WithGrant(st, g), segments), allow) <==> Admits(LiveDocument(st, segments), allow)
  {
    hide LiveDocument, BucketGrants, PortRules, S.SameBucketCoverage, S.SameNames;
    var a, b := LiveDocument(st, segments), LiveDocument(WithGrant(st, g), segments);
    LiveDocumentMembers(st, segments);
    LiveDocumentMembers(WithGrant(st, g), segments);
    LiveRulesUnchanged(st, segments, g);
    LiveHeader(st, segments);
    LiveHeader(WithGrant(st, g), segments);
    forall r | r in a.resources && r.kind == "bucket" ensures S.SameBucketAccess(a, b, r.name) {
      var i :| 0 <= i < |st.buckets| && BucketResource(st.buckets[i]) == r;
      GrantElsewhere(st, segments, g, r.name);
    }
    InputsAlike(st, segments, g);
    S.ResultIsSpellingIndependent(a, b, allow);
  }

  lemma LiveHeader(st: State, segments: seq<Segment>)
    ensures LiveDocument(st, segments).contractVersion == CONTRACT_VERSION
    ensures LiveDocument(st, segments).unknownResourceTypes == [] && LiveDocument(st, segments).unrecognizedFields == []
  {
  }

  lemma InputsAlike(st: State, segments: seq<Segment>, g: Grant)
    requires AllBlocks(g.sourceRanges)
    ensures S.InputsReadable(LiveDocument(st, segments)) <==> S.InputsReadable(LiveDocument(WithGrant(st, g), segments))
  {
    hide LiveDocument, AllBlocks;
    var a, b := LiveDocument(st, segments), LiveDocument(WithGrant(st, g), segments);
    LiveDocumentMembers(st, segments);
    LiveDocumentMembers(WithGrant(st, g), segments);
    LiveRulesUnchanged(st, segments, g);
    forall e | e in a.grants ensures e in b.grants { assert e.grant in WithGrant(st, g).grants; }
    forall e | e in b.grants ensures e in a.grants || e == LiveGrant(g) {
      assert e.grant in st.grants || e.grant == g;
    }
  }

  /** So an undeclared bucket can be read by everyone in an admitted state. */
  lemma UndeclaredBucketEscapes(st: State, segments: seq<Segment>, allow: Allowlist, bucket: string,
      key: string, c: Caller)
    requires Admits(LiveDocument(st, segments), allow)
    requires !Declared(st, bucket) && A.HoldsObject(st, bucket, key)
    requires forall g :: g in st.grants && A.Names(g, KIND_BUCKET, bucket, ACTION_READ) ==> AllBlocks(g.sourceRanges)
    requires c.segment != "" && c.addr.V4?
    ensures
      var open := WithGrant(st, Grant("g", KIND_BUCKET, bucket, [ANONYMOUS], [ACTION_READ], [EVERYWHERE]));
      Admits(LiveDocument(open, segments), allow) && A.ReadAllowed(open, c, bucket, key)
  {
    hide LiveDocument, Admits, ClearLow, Pow2;
    var g := Grant("g", KIND_BUCKET, bucket, [ANONYMOUS], [ACTION_READ], [EVERYWHERE]);
    GateIgnoresUndeclaredBuckets(st, segments, allow, g);
    AnonymousGrantAdmits(st, g, bucket, c);
  }

  /** The caller and the object are such that a grant could let the one read the other. */
  ghost predicate Readable(st: State, c: Caller, bucket: string, key: string) {
    c.segment != "" && c.addr.V4? && A.HoldsObject(st, bucket, key)
  }

  ghost predicate Covered(allow: Allowlist, c: Caller, bucket: string) {
    exists e :: e in Entries(allow) && CoversRead(e, c, bucket)
  }

  /** The state with this grant is still admitted, and then allows the read. */
  ghost predicate EscapesBy(st: State, segments: seq<Segment>, allow: Allowlist, c: Caller, bucket: string,
      key: string, g: Grant) {
    Admits(LiveDocument(WithGrant(st, g), segments), allow) && A.ReadAllowed(WithGrant(st, g), c, bucket, key)
  }

  /** However one grant extends the state, if the gate still admits it and the platform then
      allows the read, an entry covers it. */
  ghost predicate StaysReviewed(st: State, segments: seq<Segment>, allow: Allowlist, c: Caller, bucket: string,
      key: string) {
    forall g :: EscapesBy(st, segments, allow, c, bucket, key, g) ==>
      Covered(allow, c, bucket)
  }

  /** Exactly when the bucket is declared does the gate stand between its readers and the
      allowlist, unless some entry covers the read anyway or no grant could allow it. */
  lemma StaysReviewedIff(st: State, segments: seq<Segment>, allow: Allowlist, c: Caller, bucket: string, key: string)
    requires Admits(LiveDocument(st, segments), allow)
    ensures StaysReviewed(st, segments, allow, c, bucket, key) <==>
      Declared(st, bucket) || Covered(allow, c, bucket) || !Readable(st, c, bucket, key)
  {
    hide LiveDocument, Admits, A.ReadAllowed, CoversRead, Readable;
    if Declared(st, bucket) {
      forall g | EscapesBy(st, segments, allow, c, bucket, key, g)
        ensures Covered(allow, c, bucket)
      {
        StillDeclared(st, g, bucket);
        AdmittedReadsAreAllowlisted(WithGrant(st, g), segments, allow, c, bucket, key);
      }
    } else if Readable(st, c, bucket, key) {
      AdmittedGrantsReadable(st, segments, allow);
      ReadableCaller(st, c, bucket, key);
      UndeclaredBucketEscapes(st, segments, allow, bucket, key, c);
      var g := Grant("g", KIND_BUCKET, bucket, [ANONYMOUS], [ACTION_READ], [EVERYWHERE]);
      assert EscapesBy(st, segments, allow, c, bucket, key, g);
    } else {
      forall g ensures !A.ReadAllowed(WithGrant(st, g), c, bucket, key) { Unreadable(st, g, c, bucket, key); }
    }
  }

  lemma StillDeclared(st: State, g: Grant, bucket: string)
    requires Declared(st, bucket)
    ensures Declared(WithGrant(st, g), bucket)
  {
    var i :| 0 <= i < |st.buckets| && st.buckets[i].name == bucket;
    assert WithGrant(st, g).buckets[i].name == bucket;
  }

  lemma ReadableCaller(st: State, c: Caller, bucket: string, key: string)
    requires Readable(st, c, bucket, key)
    ensures c.segment != "" && c.addr.V4? && A.HoldsObject(st, bucket, key)
  {
  }

  lemma Unreadable(st: State, g: Grant, c: Caller, bucket: string, key: string)
    requires !Readable(st, c, bucket, key)
    ensures !A.ReadAllowed(WithGrant(st, g), c, bucket, key)
  {
    assert A.HoldsObject(WithGrant(st, g), bucket, key) <==> A.HoldsObject(st, bucket, key);
  }

  lemma AdmittedGrantsReadable(st: State, segments: seq<Segment>, allow: Allowlist)
    requires Admits(LiveDocument(st, segments), allow)
    ensures forall g :: g in st.grants ==> AllBlocks(g.sourceRanges)
  {
    hide LiveDocument, Admits, Conflicts, AllBlocks, BucketAdmitted, PortAdmitted, BucketGrants;
    AdmitsMeaning(LiveDocument(st, segments), allow);
    LiveDocumentMembers(st, segments);
    forall g | g in st.grants ensures AllBlocks(g.sourceRanges) {
      assert LiveGrant(g) in LiveDocument(st, segments).grants;
    }
  }

  lemma AnonymousGrantAdmits(st: State, g: Grant, bucket: string, c: Caller)
    requires g == Grant("g", KIND_BUCKET, bucket, [ANONYMOUS], [ACTION_READ], [EVERYWHERE]) && c.addr.V4?
    ensures A.GrantAdmits(WithGrant(st, g).grants, KIND_BUCKET, bucket, ACTION_READ, {PrincipalOf(c), ANONYMOUS},
      c.addr)
  {
    EverywhereCovers(c.addr.addr);
    assert InRange(g.sourceRanges[0], c.addr.addr);
    assert RangesCover(g.sourceRanges, c.addr.addr);
    assert g in WithGrant(st, g).grants && ANONYMOUS in g.principals;
    assert ANONYMOUS in {PrincipalOf(c), ANONYMOUS};
  }
}
