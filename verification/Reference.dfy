/** Admission of a live state, defined again without the policy: no exposure, no merging,
    no intersection, only the state's own grants and rules against single entries. */
module Reference {
  import opened Options
  import opened Cidr
  import opened Intervals
  import opened Prefixes
  import opened Platform
  import opened Graph
  import opened Policy
  import opened ExposureMeaning
  import opened NetSet
  import A = Authz
  import S = Soundness
  import Store
  import Spelling

  /** The entry accepts its own merged form, for instance because it is in merged form. */
  ghost predicate Exact(e: Entry) {
    && AllBlocks(e.sources)
    && CidrMerge(e.sources).Some? && SourcesCovered(CidrMerge(e.sources).value, e.sources)
  }

  ghost predicate Reads(st: State, name: string) {
    exists g :: g in st.grants && ReadsBucket(g, name)
  }

  /** One entry covers every read grant of a bucket: its principals and its addresses. */
  ghost predicate BucketWithin(e: Entry, st: State, name: string) {
    && e.kind == "bucket" && e.name == name
    && forall g :: g in st.grants && ReadsBucket(g, name) ==>
         (forall p :: p in g.principals ==> p in e.principals) && CoverageWithin(g.sourceRanges, e.sources)
  }

  /** A listener on the bind hears the address: on the unspecified address it hears all, on
      loopback none, otherwise those that share a segment with it. */
  ghost predicate Hears(segments: seq<Segment>, bind: Bind, v: int) {
    && bind.Ip?
    && if bind.addr == 0 then 0 <= v < TWO32 else !A.IsLoopback(bind.addr) && ShareSegment(segments, bind.addr, v)
  }

  ghost predicate ShareSegment(segments: seq<Segment>, a: int, v: int) {
    exists s :: s in segments && InRange(s.cidr, a) && InRange(s.cidr, v)
  }

  /** The address reaches the port: some rule permits it and the listener hears it. */
  ghost predicate Reaches(st: State, segments: seq<Segment>, workload: string, p: Port, v: int) {
    A.RuleAdmits(st.networkRules, workload, p.name, v) && Hears(segments, p.bind, v)
  }

  ghost predicate PortWithin(e: Entry, st: State, segments: seq<Segment>, workload: string, p: Port) {
    && e.kind == "workload_port" && e.name == workload + ":" + p.name
    && forall v: int :: Reaches(st, segments, workload, p, v) ==> RangesCover(e.sources, v)
  }

  ghost predicate PortReviewed(st: State, segments: seq<Segment>, allow: Allowlist, workload: string, p: Port) {
    || (forall v: int :: !Reaches(st, segments, workload, p, v))
    || exists e :: e in Entries(allow) && PortWithin(e, st, segments, workload, p)
  }

  ghost predicate Readable(st: State) {
    && (forall g :: g in st.grants ==> AllBlocks(g.sourceRanges))
    && (forall r :: r in st.networkRules ==> AllBlocks(r.sourceRanges))
    && (forall w, p :: w in st.workloads && p in w.ports ==> p.bind.Ip?)
  }

  ghost predicate Reviewed(st: State, segments: seq<Segment>, allow: Allowlist) {
    && allow.Some? && (st.buckets != [] || st.objects != [] || st.workloads != [])
    && Readable(st)
    && (forall b :: b in st.buckets && Reads(st, b.name) ==>
      exists e :: e in Entries(allow) && BucketWithin(e, st, b.name))
    && (forall w, p :: w in st.workloads && p in w.ports ==> PortReviewed(st, segments, allow, w.name, p))
  }

  /** The entry covers what a key names: a bucket that someone reads, or a port. */
  ghost predicate Accepts(e: Entry, st: State, segments: seq<Segment>, key: string) {
    || (exists b :: b in st.buckets && key == "bucket/" + b.name && Reads(st, b.name) && BucketWithin(e, st, b.name))
    || (exists w, p :: w in st.workloads && p in w.ports && AcceptsPort(e, st, segments, key, w, p))
  }

  ghost predicate AcceptsPort(e: Entry, st: State, segments: seq<Segment>, key: string, w: Workload, p: Port) {
    key == PortName(w, p) && PortWithin(e, st, segments, w.name, p)
  }

  function PortName(w: Workload, p: Port): string {
    "workload/" + w.name + ":" + p.name
  }

  /** Entries that accept the same key carry the same rule. */
  ghost predicate RulesAgree(st: State, segments: seq<Segment>, allow: Allowlist) {
    forall key, e, f :: Accepting(st, segments, allow, key, e) && Accepting(st, segments, allow, key, f) ==>
      e.rule == f.rule
  }

  ghost predicate Accepting(st: State, segments: seq<Segment>, allow: Allowlist, key: string, e: Entry) {
    e in Entries(allow) && Accepts(e, st, segments, key)
  }

  lemma HearsAsPolicySays(segments: seq<Segment>, bind: Bind, v: int)
    ensures Hears(segments, bind, v) <==> BindServes(segments, bind, v)
  {
    if bind.Ip? { S.LoopbackAlike(bind.addr); }
    assert bind.Ip? ==> (ShareSegment(segments, bind.addr, v) <==> SomeSegmentHolds(segments, bind, v));
  }

  /** For an exact entry the block test is address inclusion. */
  lemma ExactDecides(got: seq<Range>, e: Entry)
    requires AllBlocks(got) && Exact(e)
    ensures SourcesCovered(got, e.sources) <==> CoverageWithin(got, e.sources)
  {
    hide CidrMerge, SourcesCovered, CoverageWithin;
    if SourcesCovered(got, e.sources) { SourcesCoveredSound(got, e.sources); }
    if CoverageWithin(got, e.sources) { SourcesCoveredComplete(got, e.sources); }
  }

  lemma EntryAdmitsBucketIff(st: State, segments: seq<Segment>, e: Entry, name: string)
    requires Readable(st) && Reads(st, name) && Exact(e)
    ensures BucketExposure(LiveDocument(st, segments), name).Some?
    ensures AdmitsBucket(e, BucketExposure(LiveDocument(st, segments), name).value, name) <==> BucketWithin(e, st, name)
  {
    hide LiveDocument, BucketExposure, BucketGrants, RangesCover, SourcesCovered, Exact, AllBlocks, AllMasked;
    var doc := LiveDocument(st, segments);
    S.LiveBucketGrants(st, segments, name);
    BucketExposureMeaning(doc, name);
    var gs := BucketGrants(doc.grants, name);
    var g :| g in st.grants && ReadsBucket(g, name);
    assert g in gs;
    var x := BucketExposure(doc, name).value;
    MaskedAreBlocks(x.sources);
    ExactDecides(x.sources, e);
    if BucketWithin(e, st, name) {
      forall v: int | RangesCover(x.sources, v) ensures RangesCover(e.sources, v) {
        var h :| h in gs && RangesCover(h.sourceRanges, v);
        assert CoverageWithin(h.sourceRanges, e.sources);
      }
    }
    if AdmitsBucket(e, x, name) {
      forall h | h in st.grants && ReadsBucket(h, name)
        ensures (forall p :: p in h.principals ==> p in e.principals) && CoverageWithin(h.sourceRanges, e.sources)
      {
        assert h in gs;
        forall p | p in h.principals ensures p in e.principals { assert p in x.principals; }
        forall v: int | RangesCover(h.sourceRanges, v) ensures RangesCover(e.sources, v) {
          assert SomeGrantCovers(gs, v);
        }
      }
    }
  }

  lemma PortExposureReaches(st: State, segments: seq<Segment>, workload: string, p: Port)
    requires Readable(st)
    ensures PortExposure(LiveDocument(st, segments), workload, p.name, p.bind).Some?
    ensures
      var sources := PortExposure(LiveDocument(st, segments), workload, p.name, p.bind).value.sources;
      && AllBlocks(sources)
      && (sources == [] <==> forall v: int :: !Reaches(st, segments, workload, p, v))
      && forall v: int :: RangesCover(sources, v) <==> Reaches(st, segments, workload, p, v)
  {
    hide LiveDocument, PortExposure, PortRules, RangesCover, AllMasked, BindServes, Hears, SomeRuleCovers, A.RuleAdmits;
    var doc := LiveDocument(st, segments);
    S.LivePortRules(st, segments, workload, p.name);
    PortExposureMeaning(doc, workload, p.name, p.bind);
    LiveDocumentMembers(st, segments);
    var sources := PortExposure(doc, workload, p.name, p.bind).value.sources;
    MaskedAreBlocks(sources);
    forall v: int ensures RangesCover(sources, v) <==> Reaches(st, segments, workload, p, v) {
      S.LiveRulesCover(st, segments, workload, p.name, v);
      S.BindServesMembers(doc.segments, segments, p.bind, v);
      HearsAsPolicySays(segments, p.bind, v);
    }
    if sources == [] {
      forall v: int ensures !Reaches(st, segments, workload, p, v) { NothingCovered(v); }
    } else {
      FirstIsCovered(sources);
      assert Reaches(st, segments, workload, p, First(sources[0]));
    }
  }

  lemma FirstIsCovered(rs: seq<Range>)
    requires rs != [] && AllBlocks(rs)
    ensures RangesCover(rs, First(rs[0]))
  {
    BlockBounds(rs[0]);
    assert InRange(rs[0], First(rs[0]));
  }

  lemma PortAdmittedIff(st: State, segments: seq<Segment>, allow: Allowlist, r: Resource, p: Port)
    requires Readable(st) && p.bind.Ip? && forall e :: e in Entries(allow) ==> Exact(e)
    ensures PortAdmitted(LiveDocument(st, segments), allow, r, p) <==> PortReviewed(st, segments, allow, r.name, p)
  {
    hide LiveDocument, PortExposure, RangesCover, SourcesCovered, Exact, AllBlocks, Reaches, Readable, Entries;
    var doc := LiveDocument(st, segments);
    PortExposureReaches(st, segments, r.name, p);
    var x := PortExposure(doc, r.name, p.name, p.bind).value;
    forall e | e in Entries(allow)
      ensures AdmitsPort(e, x, r.name, p.name) <==> PortWithin(e, st, segments, r.name, p)
    {
      ExactDecides(x.sources, e);
    }
  }

  lemma ReadsIffGrants(st: State, segments: seq<Segment>, name: string)
    ensures Reads(st, name) <==> BucketGrants(LiveDocument(st, segments).grants, name) != []
  {
    hide LiveDocument, BucketGrants, ReadsBucket;
    S.LiveBucketGrants(st, segments, name);
    var gs := BucketGrants(LiveDocument(st, segments).grants, name);
    if gs != [] { assert gs[0] in gs; }
  }

  lemma BucketAdmittedIff(st: State, segments: seq<Segment>, allow: Allowlist, name: string)
    requires Readable(st) && Reads(st, name) && forall e :: e in Entries(allow) ==> Exact(e)
    ensures BucketAdmitted(LiveDocument(st, segments), allow, name) <==>
      exists e :: e in Entries(allow) && BucketWithin(e, st, name)
  {
    hide LiveDocument, BucketExposure, Exact, Readable, Reads, BucketWithin, AdmitsBucket, Entries;
    forall e | e in Entries(allow)
      ensures BucketExposure(LiveDocument(st, segments), name).Some?
      ensures AdmitsBucket(e, BucketExposure(LiveDocument(st, segments), name).value, name) <==>
        BucketWithin(e, st, name)
    {
      EntryAdmitsBucketIff(st, segments, e, name);
    }
  }

  lemma LiveInputs(st: State, segments: seq<Segment>, r: Resource, p: Port)
    ensures r in LiveDocument(st, segments).resources && r.kind == "workload" && p in r.ports ==>
      exists w :: w in st.workloads && w.name == r.name && p in w.ports
  {
    hide LiveDocument;
    LiveDocumentMembers(st, segments);
  }

  lemma LiveReadable(st: State, segments: seq<Segment>, allow: Allowlist)
    requires Conforms(LiveDocument(st, segments), allow)
    ensures Readable(st)
  {
    hide LiveDocument, AllBlocks, BucketAdmitted, BucketGrants, PortExposure;
    var doc := LiveDocument(st, segments);
    LiveDocumentMembers(st, segments);
    forall g | g in st.grants ensures AllBlocks(g.sourceRanges) { assert LiveGrant(g) in doc.grants; }
    forall r | r in st.networkRules ensures AllBlocks(r.sourceRanges) { assert LiveRule(r) in doc.networkRules; }
    forall w, p | w in st.workloads && p in w.ports ensures p.bind.Ip? {
      S.LiveWorkloadResource(st, segments, w.name, p);
      var r :| r in doc.resources && r.kind == "workload" && r.name == w.name && p in r.ports;
      assert PortAdmitted(doc, allow, r, p);
    }
  }

  lemma LiveNonEmpty(st: State, segments: seq<Segment>)
    ensures |LiveDocument(st, segments).resources| > 0 <==> st.buckets != [] || st.objects != [] || st.workloads != []
  {
    hide LiveDocument;
    LiveDocumentMembers(st, segments);
    var rs := LiveDocument(st, segments).resources;
    if st.buckets != [] { assert BucketResource(st.buckets[0]) in rs; }
    if st.objects != [] { assert ObjectResource(st.objects[0]) in rs; }
    if st.workloads != [] { assert WorkloadResource(st.workloads[0]) in rs; }
    if |rs| > 0 { assert rs[0] in rs; }
  }

  lemma ConformsReviewed(st: State, segments: seq<Segment>, allow: Allowlist)
    requires Conforms(LiveDocument(st, segments), allow) && forall e :: e in Entries(allow) ==> Exact(e)
    ensures Reviewed(st, segments, allow)
  {
    hide LiveDocument, BucketGrants, BucketAdmitted, PortAdmitted, PortReviewed, Exact, Reads, BucketWithin,
      Entries, AllBlocks, Readable;
    var doc := LiveDocument(st, segments);
    LiveNonEmpty(st, segments);
    LiveReadable(st, segments, allow);
    LiveDocumentMembers(st, segments);
    forall b | b in st.buckets && Reads(st, b.name)
      ensures exists e :: e in Entries(allow) && BucketWithin(e, st, b.name)
    {
      var i :| 0 <= i < |st.buckets| && st.buckets[i] == b;
      ReadsIffGrants(st, segments, b.name);
      assert BucketResource(st.buckets[i]) in doc.resources;
      BucketAdmittedIff(st, segments, allow, b.name);
    }
    forall w, p | w in st.workloads && p in w.ports ensures PortReviewed(st, segments, allow, w.name, p) {
      S.LiveWorkloadResource(st, segments, w.name, p);
      var r :| r in doc.resources && r.kind == "workload" && r.name == w.name && p in r.ports;
      assert PortAdmitted(doc, allow, r, p);
      BindsReadable(st, w, p);
      PortAdmittedIff(st, segments, allow, r, p);
    }
  }

  lemma BindsReadable(st: State, w: Workload, p: Port)
    requires Readable(st) && w in st.workloads && p in w.ports
    ensures p.bind.Ip?
  {
  }

  lemma ReviewedConforms(st: State, segments: seq<Segment>, allow: Allowlist)
    requires Reviewed(st, segments, allow) && forall e :: e in Entries(allow) ==> Exact(e)
    ensures Conforms(LiveDocument(st, segments), allow)
  {
    hide LiveDocument, BucketGrants, BucketAdmitted, PortAdmitted, PortReviewed, Exact, Reads, BucketWithin,
      Entries, AllBlocks, Readable;
    var doc := LiveDocument(st, segments);
    LiveNonEmpty(st, segments);
    S.LiveHeader(st, segments);
    LiveGrantsReadable(st, segments);
    LiveDocumentMembers(st, segments);
    forall r | r in doc.resources && r.kind == "bucket" && BucketGrants(doc.grants, r.name) != []
      ensures BucketAdmitted(doc, allow, r.name)
    {
      var i :| 0 <= i < |st.buckets| && BucketResource(st.buckets[i]) == r;
      ReadsIffGrants(st, segments, r.name);
      assert st.buckets[i] in st.buckets;
      BucketAdmittedIff(st, segments, allow, r.name);
    }
    forall r, p | r in doc.resources && r.kind == "workload" && p in r.ports ensures PortAdmitted(doc, allow, r, p) {
      LiveInputs(st, segments, r, p);
      var w :| w in st.workloads && w.name == r.name && p in w.ports;
      BindsReadable(st, w, p);
      PortAdmittedIff(st, segments, allow, r, p);
    }
  }

  lemma LiveGrantsReadable(st: State, segments: seq<Segment>)
    requires Readable(st)
    ensures forall e :: e in LiveDocument(st, segments).grants ==> AllBlocks(e.grant.sourceRanges)
    ensures forall e :: e in LiveDocument(st, segments).networkRules ==> AllBlocks(e.rule.sourceRanges)
  {
    hide LiveDocument, AllBlocks;
    LiveDocumentMembers(st, segments);
  }

  // ---- Rules that conflict ------------------------------------------------------------

  lemma BucketRules(st: State, segments: seq<Segment>, allow: Allowlist, name: string, rule: string)
    requires Readable(st) && forall e :: e in Entries(allow) ==> Exact(e)
    ensures rule in AdmittedBucket(LiveDocument(st, segments), allow, name) <==>
      exists e :: e in Entries(allow) && e.rule == rule && Reads(st, name) && BucketWithin(e, st, name)
  {
    hide LiveDocument, BucketExposure, Exact, Readable, Reads, BucketWithin, AdmitsBucket, Entries, BucketGrants;
    var doc := LiveDocument(st, segments);
    ReadsIffGrants(st, segments, name);
    BucketExposureMeaning(doc, name);
    if Reads(st, name) {
      forall e | e in Entries(allow)
        ensures BucketExposure(doc, name).Some?
        ensures AdmitsBucket(e, BucketExposure(doc, name).value, name) <==> BucketWithin(e, st, name)
      {
        EntryAdmitsBucketIff(st, segments, e, name);
      }
    }
  }

  lemma PortRulesIff(st: State, segments: seq<Segment>, allow: Allowlist, workload: string, p: Port, rule: string)
    requires Readable(st) && forall e :: e in Entries(allow) ==> Exact(e)
    ensures rule in AdmittedPort(LiveDocument(st, segments), allow, workload, p.name, p.bind) <==>
      exists e :: e in Entries(allow) && e.rule == rule && PortWithin(e, st, segments, workload, p)
  {
    hide LiveDocument, PortExposure, RangesCover, SourcesCovered, Exact, AllBlocks, Reaches, Readable, Entries;
    PortExposureReaches(st, segments, workload, p);
    var x := PortExposure(LiveDocument(st, segments), workload, p.name, p.bind).value;
    forall e | e in Entries(allow)
      ensures AdmitsPort(e, x, workload, p.name) <==> PortWithin(e, st, segments, workload, p)
    {
      ExactDecides(x.sources, e);
    }
  }

  lemma LiveBucket(st: State, segments: seq<Segment>, r: Resource)
    requires r in LiveDocument(st, segments).resources && r.kind == "bucket"
    ensures exists b :: b in st.buckets && b.name == r.name
  {
    hide LiveDocument;
    LiveDocumentMembers(st, segments);
    var i :| 0 <= i < |st.buckets| && BucketResource(st.buckets[i]) == r;
    assert st.buckets[i] in st.buckets;
  }

  ghost predicate RecordsBucket(doc: Document, allow: Allowlist, r: Resource, key: string, rule: string) {
    key == "bucket/" + r.name && rule in AdmittedBucket(doc, allow, r.name)
  }

  lemma RecordedRule(st: State, segments: seq<Segment>, allow: Allowlist, key: string, rule: string)
    requires Readable(st) && forall e :: e in Entries(allow) ==> Exact(e)
    requires rule in RulesAt(LiveDocument(st, segments), allow, key)
    ensures exists e :: e in Entries(allow) && e.rule == rule && Accepts(e, st, segments, key)
  {
    hide LiveDocument, AdmittedBucket, AdmittedPort, Exact, Readable, Reads, BucketWithin, PortWithin, Entries;
    var doc := LiveDocument(st, segments);
    if r :| r in doc.resources && r.kind == "bucket" && RecordsBucket(doc, allow, r, key, rule) {
      LiveBucket(st, segments, r);
      BucketRules(st, segments, allow, r.name, rule);
    } else {
      var r, p :| r in doc.resources && r.kind == "workload" && p in r.ports && key == PortKey(r, p)
        && rule in AdmittedPort(doc, allow, r.name, p.name, p.bind);
      LiveInputs(st, segments, r, p);
      var w :| w in st.workloads && w.name == r.name && p in w.ports;
      PortRulesIff(st, segments, allow, r.name, p, rule);
      assert key == PortName(w, p);
    }
  }

  lemma AcceptedRule(st: State, segments: seq<Segment>, allow: Allowlist, e: Entry, key: string)
    requires Readable(st) && forall e :: e in Entries(allow) ==> Exact(e)
    requires e in Entries(allow) && Accepts(e, st, segments, key)
    ensures key in Keys(LiveDocument(st, segments)) && e.rule in RulesAt(LiveDocument(st, segments), allow, key)
  {
    hide LiveDocument, AdmittedBucket, AdmittedPort, Exact, Readable, Reads, BucketWithin, PortWithin, Entries;
    var doc := LiveDocument(st, segments);
    LiveDocumentMembers(st, segments);
    if b :| b in st.buckets && key == "bucket/" + b.name && Reads(st, b.name) && BucketWithin(e, st, b.name) {
      var i :| 0 <= i < |st.buckets| && st.buckets[i] == b;
      BucketRules(st, segments, allow, b.name, e.rule);
      assert BucketResource(st.buckets[i]) in doc.resources;
    } else {
      var w, p :| w in st.workloads && p in w.ports && AcceptsPort(e, st, segments, key, w, p);
      var i :| 0 <= i < |st.workloads| && st.workloads[i] == w;
      PortRulesIff(st, segments, allow, w.name, p, e.rule);
      assert WorkloadResource(st.workloads[i]) in doc.resources && key == PortKey(WorkloadResource(w), p);
    }
  }

  lemma MoreThanOne<T>(s: set<T>)
    ensures |s| > 1 <==> exists x, y :: x in s && y in s && x != y
  {
    if |s| > 1 {
      var x :| x in s;
      var rest := s - {x};
      assert |rest| > 0;
      var y :| y in rest;
    }
    if x, y :| x in s && y in s && x != y {
      assert |{x, y}| == 2 && {x, y} <= s;
      SubsetSize({x, y}, s);
    }
  }

  lemma SubsetSize<T>(a: set<T>, b: set<T>)
    requires a <= b
    ensures |a| <= |b|
  {
    assert b == a + (b - a);
  }

  lemma ConflictsIff(st: State, segments: seq<Segment>, allow: Allowlist)
    requires Readable(st) && forall e :: e in Entries(allow) ==> Exact(e)
    ensures Conflicts(LiveDocument(st, segments), allow) <==> !RulesAgree(st, segments, allow)
  {
    hide LiveDocument, RulesAt, Keys, Exact, Readable, Accepts, Entries;
    var doc := LiveDocument(st, segments);
    if Conflicts(doc, allow) {
      var key :| key in Keys(doc) && |RulesAt(doc, allow, key)| > 1;
      MoreThanOne(RulesAt(doc, allow, key));
      var x, y :| x in RulesAt(doc, allow, key) && y in RulesAt(doc, allow, key) && x != y;
      RecordedRule(st, segments, allow, key, x);
      RecordedRule(st, segments, allow, key, y);
      var e :| e in Entries(allow) && e.rule == x && Accepts(e, st, segments, key);
      var f :| f in Entries(allow) && f.rule == y && Accepts(f, st, segments, key);
      assert Accepting(st, segments, allow, key, e) && Accepting(st, segments, allow, key, f);
    }
    if !RulesAgree(st, segments, allow) {
      var key, e, f :| Accepting(st, segments, allow, key, e) && Accepting(st, segments, allow, key, f)
        && e.rule != f.rule;
      AcceptedRule(st, segments, allow, e, key);
      AcceptedRule(st, segments, allow, f, key);
      MoreThanOne(RulesAt(doc, allow, key));
    }
  }

  /** With exact entries, the gate admits a live state if and only if the state is readable,
      single entries cover every bucket's grants and every port's reach, and entries that
      accept one resource agree on their rule. */
  lemma LiveAdmissionIff(st: State, segments: seq<Segment>, allow: Allowlist)
    requires forall e :: e in Entries(allow) ==> Exact(e)
    ensures Admits(LiveDocument(st, segments), allow) <==>
      Reviewed(st, segments, allow) && RulesAgree(st, segments, allow)
  {
    hide LiveDocument, Admits, Conflicts, Conforms, Exact, RulesAgree, PortReviewed, BucketWithin, Readable;
    AdmitsMeaning(LiveDocument(st, segments), allow);
    if Conforms(LiveDocument(st, segments), allow) { ConformsReviewed(st, segments, allow); }
    if Reviewed(st, segments, allow) {
      ReviewedConforms(st, segments, allow);
      ConflictsIff(st, segments, allow);
    }
  }

  // ---- The theorems about reads and connects are not vacuous --------------------------

  /** A caller as the control plane makes it from an address: classified by the segments. */
  predicate Classified(st: State, c: Caller) {
    c.addr.V4? && c.segment == Store.SegmentFor(st.segments, c.addr)
  }

  function Internet(): seq<Segment> {
    [Segment("internet", EVERYWHERE)]
  }

  lemma EveryoneIsOnTheInternet(st: State, c: Caller)
    requires st.segments == Internet() && Classified(st, c)
    ensures c.segment == "internet"
  {
    EverywhereCovers(c.addr.addr);
  }

  function OneBucket(): State {
    State(Internet(), [], [Bucket("b", true, 0)], [Object("b", "k", "", 0, "", "")],
          [Grant("g", KIND_BUCKET, "b", [ANONYMOUS], [ACTION_READ], [EVERYWHERE])], [], [], [])
  }

  /** A state a store can hold that the gate admits, and in which everyone may read. */
  lemma SomeAdmittedStateAllowsReads(c: Caller, st: State, entry: Entry)
    requires st == OneBucket() && entry == Entry("r", "bucket", "b", [ANONYMOUS], [EVERYWHERE])
    requires Classified(st, c)
    ensures Store.Tidy(st) && S.Declared(st, "b")
    ensures Admits(LiveDocument(st, st.segments), Some([entry])) && A.ReadAllowed(st, c, "b", "k")
  {
    hide LiveDocument, Admits, Exact, Reviewed, A.ReadAllowed, RulesAgree, Classified;
    EverywhereIsExact(entry);
    OneBucketReviewed(st, entry);
    OneEntryAgrees(st, entry);
    LiveAdmissionIff(st, st.segments, Some([entry]));
    assert st.buckets[0].name == "b";
    OpenBucketReadable(c, st);
  }

  lemma OneEntryAgrees(st: State, entry: Entry)
    ensures RulesAgree(st, st.segments, Some([entry]))
  {
  }

  lemma EverywhereIsExact(entry: Entry)
    requires entry.sources == [EVERYWHERE]
    ensures Exact(entry)
  {
    hide CidrMerge, SourcesCovered;
    CidrMergeMeaning(entry.sources);
    Spelling.EverythingAllowed(CidrMerge(entry.sources).value);
  }

  lemma OneBucketReviewed(st: State, entry: Entry)
    requires st == OneBucket() && entry == Entry("r", "bucket", "b", [ANONYMOUS], [EVERYWHERE])
    ensures Reviewed(st, st.segments, Some([entry]))
  {
    assert BucketWithin(entry, st, "b");
    assert entry in Entries(Some([entry]));
  }

  lemma OpenBucketReadable(c: Caller, st: State)
    requires st.segments == Internet() && Classified(st, c)
    requires st.objects == [Object("b", "k", "", 0, "", "")]
    requires st.grants == [Grant("g", KIND_BUCKET, "b", [ANONYMOUS], [ACTION_READ], [EVERYWHERE])]
    ensures A.ReadAllowed(st, c, "b", "k")
  {
    EveryoneIsOnTheInternet(st, c);
    var g := st.grants[0];
    EverywhereListed(c.addr.addr);
    assert g in st.grants && RangesCover(g.sourceRanges, c.addr.addr);
    assert ANONYMOUS in {PrincipalOf(c), ANONYMOUS} && ANONYMOUS in g.principals;
    assert st.objects[0].bucket == "b" && st.objects[0].key == "k";
  }

  function OnePort(): State {
    State(Internet(), [], [], [], [], [Workload("w", "", [Port("p", 0, Ip(0))])],
          [NetworkRule("r", "w", "p", [EVERYWHERE])], [])
  }

  /** A state a store can hold that the gate admits, and in which everyone may connect. */
  lemma SomeAdmittedStateAllowsConnects(c: Caller, st: State, entry: Entry)
    requires st == OnePort() && entry == Entry("r", "workload_port", "w:p", [], [EVERYWHERE])
    requires Classified(st, c)
    ensures Store.Tidy(st)
    ensures Admits(LiveDocument(st, st.segments), Some([entry])) && A.ConnectDecision(st, c, "w", "p").0.allowed
  {
    hide LiveDocument, Admits, Exact, A.ConnectDecision, Reviewed, RulesAgree, Classified;
    EverywhereIsExact(entry);
    OnePortReviewed(st, entry);
    OneEntryAgrees(st, entry);
    LiveAdmissionIff(st, st.segments, Some([entry]));
    OnePortAllows(c, st);
  }

  lemma OnePortReviewed(st: State, entry: Entry)
    requires st == OnePort() && entry == Entry("r", "workload_port", "w:p", [], [EVERYWHERE])
    ensures Reviewed(st, st.segments, Some([entry]))
  {
    hide A.RuleAdmits, RangesCover;
    var p := Port("p", 0, Ip(0));
    assert "w" + ":" + p.name == "w:p";
    forall v: int | Reaches(st, st.segments, "w", p, v) ensures RangesCover(entry.sources, v) { EverywhereListed(v); }
    assert entry in Entries(Some([entry])) && PortWithin(entry, st, st.segments, "w", p);
    assert PortReviewed(st, st.segments, Some([entry]), "w", p);
  }

  lemma EverywhereListed(v: int)
    requires 0 <= v < TWO32
    ensures RangesCover([EVERYWHERE], v)
  {
    EverywhereCovers(v);
    assert InRange([EVERYWHERE][0], v);
  }

  lemma OnePortAllows(c: Caller, st: State)
    requires st == OnePort() && Classified(st, c)
    ensures A.ConnectDecision(st, c, "w", "p").0.allowed
  {
    hide RangesCover, A.ConnectDecision, Covers, A.IsLoopback;
    EveryoneIsOnTheInternet(st, c);
    var v, p := c.addr.addr, Port("p", 0, Ip(0));
    assert A.LastNamed(st.workloads[0].ports, "p", 0) && A.LastWorkload(st.workloads, "w", 0);
    assert A.LastDeclared(st.workloads, "w", "p", 0, 0);
    A.LookupMeaning(st.workloads, "w", "p");
    A.ConnectAllowedMeaning(st, c, "w", "p");
    EverywhereListed(v);
    assert st.networkRules[0] in st.networkRules && A.Permits(st.networkRules[0], "w", "p");
    S.LoopbackAlike(0);
    CoversAt([Interval(0, 0xFFFF_FFFF)], 0, v);
  }

  // ---- The condition "declared" of the theorem about reads cannot be dropped ----------

  function UndeclaredBucket(): State {
    State(Internet(), [], [Bucket("a", true, 0)], [Object("b", "k", "", 0, "", "")],
          [Grant("g", KIND_BUCKET, "b", [ANONYMOUS], [ACTION_READ], [EVERYWHERE])], [], [], [])
  }

  /** A state a store can hold that the gate admits, and in which everyone may read an object
      that no entry covers: its bucket is not declared, and the allowlist is empty. */
  lemma SomeAdmittedStateAllowsUncoveredReads(c: Caller, st: State)
    requires st == UndeclaredBucket() && Classified(st, c)
    ensures Store.Tidy(st)
    ensures Admits(LiveDocument(st, st.segments), Some([])) && A.ReadAllowed(st, c, "b", "k")
      && !S.Covered(Some([]), c, "b")
  {
    hide LiveDocument, Admits, A.ReadAllowed, Classified;
    assert Reviewed(st, st.segments, Some([]));
    LiveAdmissionIff(st, st.segments, Some([]));
    OpenBucketReadable(c, st);
  }
}
