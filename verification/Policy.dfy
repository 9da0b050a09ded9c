/** The deployment gate's policy: effective exposure, admission and violations. */
module Policy {
  import opened Options
  import opened Cidr
  import opened Intervals
  import opened Prefixes
  import opened Platform
  import opened Graph

  /** One reviewed allowlist entry. */
  datatype Entry = Entry(rule: string, kind: string, name: string,
                         principals: seq<string>, sources: seq<Range>)

  /** The allowlist data: absent when nothing was supplied. */
  type Allowlist = Option<seq<Entry>>

  // ---- The engine's address built-ins -------------------------------------------------

  /** The shortest block list with the same coverage; undefined on a malformed range. */
  function CidrMerge(rs: seq<Range>): Option<seq<Range>> {
    match ParseAll(rs)
    case None => None
    case Some(ivs) =>
      ParseAllMeaning(rs);
      Some(PrefixesOf(ivs))
  }

  /** Block containment; undefined, hence not satisfied, on a malformed operand. */
  predicate CidrContains(outer: Range, inner: Range) {
    outer.Block? && inner.Block? && Inside(inner, outer)
  }

  predicate CidrContainsIp(outer: Range, ip: Bind) {
    outer.Block? && ip.Ip? && InRange(outer, ip.addr)
  }

  lemma CidrMergeMeaning(rs: seq<Range>)
    ensures CidrMerge(rs).Some? <==> AllBlocks(rs)
    ensures CidrMerge(rs).Some? ==> AllMasked(CidrMerge(rs).value) && AllBlocks(CidrMerge(rs).value)
    ensures CidrMerge(rs).Some? ==> forall v: int :: RangesCover(CidrMerge(rs).value, v) <==> RangesCover(rs, v)
  {
    ParseAllMeaning(rs);
    if AllBlocks(rs) {
      PrefixesTile(ParseAll(rs).value);
      MaskedAreBlocks(CidrMerge(rs).value);
    }
  }

  /** Merging depends on coverage alone. */
  lemma CidrMergeCanonical(a: seq<Range>, b: seq<Range>)
    requires AllBlocks(a) && AllBlocks(b)
    requires forall v: int :: RangesCover(a, v) <==> RangesCover(b, v)
    ensures CidrMerge(a) == CidrMerge(b)
  {
    ParseAllMeaning(a);
    ParseAllMeaning(b);
    CanonicalUnique(ParseAll(a).value, ParseAll(b).value);
  }

  // ---- Effective exposure -------------------------------------------------------------

  /** Who can reach a resource, from where, and by which rules. */
  datatype Exposure = Exposure(principals: set<string>, sources: seq<Range>, rules: set<string>)

  predicate ReadsBucket(g: Grant, name: string) {
    g.resourceKind == "bucket" && g.resourceName == name && "read" in g.actions
  }

  function BucketGrants(grants: seq<GrantEntry>, name: string): seq<Grant> {
    if grants == [] then []
    else
      var rest := BucketGrants(grants[1..], name);
      if ReadsBucket(grants[0].grant, name) then [grants[0].grant] + rest else rest
  }

  function GrantSources(gs: seq<Grant>): seq<Range> {
    if gs == [] then [] else gs[0].sourceRanges + GrantSources(gs[1..])
  }

  function BucketExposure(doc: Document, name: string): Option<Exposure> {
    var gs := BucketGrants(doc.grants, name);
    if |gs| == 0 then None
    else match CidrMerge(GrantSources(gs))
      case None => None
      case Some(sources) =>
        Some(Exposure(set g, p | g in gs && p in g.principals :: p, sources, set g | g in gs :: g.id))
  }

  function PortRules(rules: seq<RuleEntry>, workload: string, port: string): seq<NetworkRule> {
    if rules == [] then []
    else
      var rest := PortRules(rules[1..], workload, port);
      var r := rules[0].rule;
      if r.workload == workload && r.port == port then [r] + rest else rest
  }

  function RuleSources(rs: seq<NetworkRule>): seq<Range> {
    if rs == [] then [] else rs[0].sourceRanges + RuleSources(rs[1..])
  }

  const EVERYWHERE := Block(0, 0)
  const LOOPBACK := Block(0x7F00_0000, 8)

  function SegmentsHolding(segments: seq<Segment>, bind: Bind): seq<Range> {
    if segments == [] then []
    else
      var rest := SegmentsHolding(segments[1..], bind);
      if CidrContainsIp(segments[0].cidr, bind) then [segments[0].cidr] + rest else rest
  }

  function BindReach(segments: seq<Segment>, bind: Bind): seq<Range> {
    if bind == Ip(0) then [EVERYWHERE]
    else if CidrContainsIp(LOOPBACK, bind) then []
    else SegmentsHolding(segments, bind)
  }

  /** The narrower of two nested blocks. */
  function Intersection(a: Range, b: Range): Option<Range> {
    if CidrContains(b, a) then Some(a)
    else if CidrContains(a, b) then Some(b)
    else None
  }

  function IntersectRow(p: Range, reach: seq<Range>): seq<Range> {
    if reach == [] then []
    else
      var rest := IntersectRow(p, reach[1..]);
      match Intersection(p, reach[0]) case None => rest case Some(i) => [i] + rest
  }

  function IntersectPairs(permitted: seq<Range>, reach: seq<Range>): seq<Range> {
    if permitted == [] then [] else IntersectRow(permitted[0], reach) + IntersectPairs(permitted[1..], reach)
  }

  function PortExposure(doc: Document, workload: string, port: string, bind: Bind): Option<Exposure> {
    var rules := PortRules(doc.networkRules, workload, port);
    match CidrMerge(RuleSources(rules))
    case None => None
    case Some(permitted) =>
      match CidrMerge(IntersectPairs(permitted, BindReach(doc.segments, bind)))
      case None => None
      case Some(sources) => Some(Exposure({}, sources, set r | r in rules :: r.id))
  }

  // ---- Admission ----------------------------------------------------------------------

  predicate PrincipalsCovered(got: set<string>, allowed: seq<string>) {
    forall p :: p in got ==> p in allowed
  }

  predicate BlockAllowed(c: Range, allowed: seq<Range>) {
    exists j :: 0 <= j < |allowed| && CidrContains(allowed[j], c)
  }

  /** Every computed block lies inside one allowed block. */
  predicate SourcesCovered(got: seq<Range>, allowed: seq<Range>) {
    forall i :: 0 <= i < |got| ==> BlockAllowed(got[i], allowed)
  }

  predicate AdmitsBucket(e: Entry, x: Exposure, name: string) {
    && e.kind == "bucket" && e.name == name
    && PrincipalsCovered(x.principals, e.principals)
    && SourcesCovered(x.sources, e.sources)
  }

  predicate AdmitsPort(e: Entry, x: Exposure, workload: string, port: string) {
    && e.kind == "workload_port" && e.name == workload + ":" + port
    && SourcesCovered(x.sources, e.sources)
  }

  function Entries(allow: Allowlist): seq<Entry> {
    if allow.Some? then allow.value else []
  }

  /** The rules of the entries that admit a bucket's exposure. */
  function AdmittedBucket(doc: Document, allow: Allowlist, name: string): set<string> {
    var x := BucketExposure(doc, name);
    set e | e in Entries(allow) && x.Some? && AdmitsBucket(e, x.value, name) :: e.rule
  }

  function AdmittedPort(doc: Document, allow: Allowlist, workload: string, port: string, bind: Bind): set<string> {
    var x := PortExposure(doc, workload, port, bind);
    set e | e in Entries(allow) && x.Some? && AdmitsPort(e, x.value, workload, port) :: e.rule
  }

  // ---- Violations ---------------------------------------------------------------------

  datatype Shown = Nothing | ShownRange(range: Range) | ShownBind(bind: Bind) | ShownExposure(exposure: Exposure)

  datatype Violation = Violation(class_: string, resource: string, shown: Shown)

  const ARTIFACT := "<artifact>"

  function PortKey(r: Resource, p: Port): string {
    "workload/" + r.name + ":" + p.name
  }

  function ArtifactViolations(doc: Document, allow: Allowlist): set<Violation> {
    (if doc.contractVersion != "1" then {Violation("contract_version_mismatch", ARTIFACT, Nothing)} else {})
    + (if |doc.resources| == 0 then {Violation("empty_artifact", ARTIFACT, Nothing)} else {})
    + (if allow.None? then {Violation("missing_allowlist", ARTIFACT, Nothing)} else {})
    + (set t | t in doc.unknownResourceTypes :: Violation("unknown_resource_type", t, Nothing))
    + (set f | f in doc.unrecognizedFields :: Violation("unrecognized_field", f, Nothing))
  }

  function InputViolations(doc: Document): set<Violation> {
    (set e, c | e in doc.grants && c in e.grant.sourceRanges && c.Malformed? ::
       Violation("unparsable_source_range", "grant/" + e.grant.id, ShownRange(c)))
    + (set e, c | e in doc.networkRules && c in e.rule.sourceRanges && c.Malformed? ::
         Violation("unparsable_source_range", "network_rule/" + e.rule.id, ShownRange(c)))
    + (set r, p | r in doc.resources && r.kind == "workload" && p in r.ports && p.bind.NoAddress? ::
         Violation("unparsable_bind_address", PortKey(r, p), ShownBind(p.bind)))
  }

  function BucketViolations(doc: Document, allow: Allowlist): set<Violation> {
    (set r | r in doc.resources && r.kind == "bucket" && |BucketGrants(doc.grants, r.name)| > 0
       && AdmittedBucket(doc, allow, r.name) == {} && BucketExposure(doc, r.name).Some? ::
       Violation("exposure_not_allowlisted", "bucket/" + r.name, ShownExposure(BucketExposure(doc, r.name).value)))
    + (set r | r in doc.resources && r.kind == "bucket" && |BucketGrants(doc.grants, r.name)| > 0
         && BucketExposure(doc, r.name).None? ::
         Violation("uncomputable_exposure", "bucket/" + r.name, Nothing))
  }

  function PortViolations(doc: Document, allow: Allowlist): set<Violation> {
    (set r, p | r in doc.resources && r.kind == "workload" && p in r.ports
       && PortExposure(doc, r.name, p.name, p.bind).Some?
       && |PortExposure(doc, r.name, p.name, p.bind).value.sources| > 0
       && AdmittedPort(doc, allow, r.name, p.name, p.bind) == {} ::
       Violation("exposure_not_allowlisted", PortKey(r, p),
                 ShownExposure(PortExposure(doc, r.name, p.name, p.bind).value)))
    + (set r, p | r in doc.resources && r.kind == "workload" && p in r.ports
         && PortExposure(doc, r.name, p.name, p.bind).None? ::
         Violation("uncomputable_exposure", PortKey(r, p), Nothing))
  }

  function Violations(doc: Document, allow: Allowlist): set<Violation> {
    ArtifactViolations(doc, allow) + InputViolations(doc) + BucketViolations(doc, allow) + PortViolations(doc, allow)
  }

  // ---- The decision -------------------------------------------------------------------

  /** Who can reach a resource from where, without the rules behind it. Both components
      are rendered sorted, so they are compared as collections. */
  datatype Reachability = Reachability(principals: set<string>, sources: seq<Range>)

  function RenderReachability(x: Exposure): Reachability {
    Reachability(if "*" in x.principals then {"*"} else x.principals, x.sources)
  }

  datatype Row = Row(resource: string, computed: Exposure, reachability: Reachability, admittedBy: set<string>)

  function BucketRow(doc: Document, allow: Allowlist, r: Resource): Row
    requires BucketExposure(doc, r.name).Some?
  {
    var x := BucketExposure(doc, r.name).value;
    var key := "bucket/" + r.name;
    Row(key, x, RenderReachability(x), RulesAt(doc, allow, key))
  }

  function PortRow(doc: Document, allow: Allowlist, r: Resource, p: Port): Row
    requires PortExposure(doc, r.name, p.name, p.bind).Some?
  {
    var x := PortExposure(doc, r.name, p.name, p.bind).value;
    Row(PortKey(r, p), x, RenderReachability(x), RulesAt(doc, allow, PortKey(r, p)))
  }

  /** Every rule the policy would record for one resource key. */
  function RulesAt(doc: Document, allow: Allowlist, key: string): set<string> {
    (set r, rule | r in doc.resources && r.kind == "bucket" && key == "bucket/" + r.name
       && rule in AdmittedBucket(doc, allow, r.name) :: rule)
    + (set r, p, rule | r in doc.resources && r.kind == "workload" && p in r.ports && key == PortKey(r, p)
         && rule in AdmittedPort(doc, allow, r.name, p.name, p.bind) :: rule)
  }

  function Exposures(doc: Document, allow: Allowlist): set<Row> {
    (set r | r in doc.resources && r.kind == "bucket" && BucketExposure(doc, r.name).Some? :: BucketRow(doc, allow, r))
    + (set r, p | r in doc.resources && r.kind == "workload" && p in r.ports
         && PortExposure(doc, r.name, p.name, p.bind).Some? :: PortRow(doc, allow, r, p))
  }

  function Keys(doc: Document): set<string> {
    (set r | r in doc.resources && r.kind == "bucket" :: "bucket/" + r.name)
    + (set r, p | r in doc.resources && r.kind == "workload" && p in r.ports :: PortKey(r, p))
  }

  /** A rule with two different values is an evaluation error of the engine. */
  predicate Conflicts(doc: Document, allow: Allowlist) {
    exists key :: key in Keys(doc) && |RulesAt(doc, allow, key)| > 1
  }

  datatype Answer =
    | EvaluationError
    | Answer(result: string, violations: set<Violation>, exposures: set<Row>)

  function Decide(doc: Document, allow: Allowlist): Answer {
    if Conflicts(doc, allow) then EvaluationError
    else
      var vs := Violations(doc, allow);
      Answer(if |vs| > 0 then "deny" else "admit", vs, Exposures(doc, allow))
  }

  predicate Admits(doc: Document, allow: Allowlist) {
    Decide(doc, allow).Answer? && Decide(doc, allow).result == "admit"
  }

  // ---- What an admission says ---------------------------------------------------------

  /** The conditions of admission, resource by resource. */
  ghost predicate Conforms(doc: Document, allow: Allowlist) {
    && doc.contractVersion == "1" && |doc.resources| > 0 && allow.Some?
    && doc.unknownResourceTypes == [] && doc.unrecognizedFields == []
    && (forall e :: e in doc.grants ==> AllBlocks(e.grant.sourceRanges))
    && (forall e :: e in doc.networkRules ==> AllBlocks(e.rule.sourceRanges))
    && (forall r :: r in doc.resources && r.kind == "bucket" && BucketGrants(doc.grants, r.name) != [] ==>
          BucketAdmitted(doc, allow, r.name))
    && (forall r, p :: r in doc.resources && r.kind == "workload" && p in r.ports ==> PortAdmitted(doc, allow, r, p))
  }

  ghost predicate BucketAdmitted(doc: Document, allow: Allowlist, name: string) {
    && BucketExposure(doc, name).Some?
    && exists e :: e in Entries(allow) && AdmitsBucket(e, BucketExposure(doc, name).value, name)
  }

  ghost predicate PortAdmitted(doc: Document, allow: Allowlist, r: Resource, p: Port) {
    && p.bind.Ip?
    && PortExposure(doc, r.name, p.name, p.bind).Some?
    && var x := PortExposure(doc, r.name, p.name, p.bind).value;
       x.sources == [] || exists e :: e in Entries(allow) && AdmitsPort(e, x, r.name, p.name)
  }

  lemma AdmittedBucketEmpty(doc: Document, allow: Allowlist, name: string)
    requires BucketExposure(doc, name).Some?
    ensures AdmittedBucket(doc, allow, name) == {} <==> !BucketAdmitted(doc, allow, name)
  {
    if BucketAdmitted(doc, allow, name) {
      var e :| e in Entries(allow) && AdmitsBucket(e, BucketExposure(doc, name).value, name);
      assert e.rule in AdmittedBucket(doc, allow, name);
    }
  }

  lemma AdmittedPortEmpty(doc: Document, allow: Allowlist, r: Resource, p: Port)
    requires PortExposure(doc, r.name, p.name, p.bind).Some?
    ensures AdmittedPort(doc, allow, r.name, p.name, p.bind) == {} <==>
      !exists e :: e in Entries(allow) && AdmitsPort(e, PortExposure(doc, r.name, p.name, p.bind).value, r.name, p.name)
  {
    if e :| e in Entries(allow) && AdmitsPort(e, PortExposure(doc, r.name, p.name, p.bind).value, r.name, p.name) {
      assert e.rule in AdmittedPort(doc, allow, r.name, p.name, p.bind);
    }
  }

  lemma ArtifactClean(doc: Document, allow: Allowlist)
    ensures ArtifactViolations(doc, allow) == {} <==>
      && doc.contractVersion == "1" && |doc.resources| > 0 && allow.Some?
      && doc.unknownResourceTypes == [] && doc.unrecognizedFields == []
  {
    var vs := ArtifactViolations(doc, allow);
    if doc.unknownResourceTypes != [] {
      assert Violation("unknown_resource_type", doc.unknownResourceTypes[0], Nothing) in vs;
    }
    if doc.unrecognizedFields != [] {
      assert Violation("unrecognized_field", doc.unrecognizedFields[0], Nothing) in vs;
    }
    if doc.contractVersion != "1" { assert Violation("contract_version_mismatch", ARTIFACT, Nothing) in vs; }
    if |doc.resources| == 0 { assert Violation("empty_artifact", ARTIFACT, Nothing) in vs; }
    if allow.None? { assert Violation("missing_allowlist", ARTIFACT, Nothing) in vs; }
  }

  lemma InputClean(doc: Document)
    ensures InputViolations(doc) == {} <==>
      && (forall e :: e in doc.grants ==> AllBlocks(e.grant.sourceRanges))
      && (forall e :: e in doc.networkRules ==> AllBlocks(e.rule.sourceRanges))
      && (forall r, p :: r in doc.resources && r.kind == "workload" && p in r.ports ==> p.bind.Ip?)
  {
    var vs := InputViolations(doc);
    if vs == {} {
      forall e, i | e in doc.grants && 0 <= i < |e.grant.sourceRanges| ensures e.grant.sourceRanges[i].Block? {
        var c := e.grant.sourceRanges[i];
        assert c.Malformed? ==> Violation("unparsable_source_range", "grant/" + e.grant.id, ShownRange(c)) in vs;
      }
      forall e, i | e in doc.networkRules && 0 <= i < |e.rule.sourceRanges| ensures e.rule.sourceRanges[i].Block? {
        var c := e.rule.sourceRanges[i];
        assert c.Malformed? ==> Violation("unparsable_source_range", "network_rule/" + e.rule.id, ShownRange(c)) in vs;
      }
      forall r, p | r in doc.resources && r.kind == "workload" && p in r.ports ensures p.bind.Ip? {
        assert p.bind.NoAddress? ==> Violation("unparsable_bind_address", PortKey(r, p), ShownBind(p.bind)) in vs;
      }
    }
  }

  lemma BucketViolates(doc: Document, allow: Allowlist, r: Resource)
    requires r in doc.resources && r.kind == "bucket" && BucketGrants(doc.grants, r.name) != []
    requires !BucketAdmitted(doc, allow, r.name)
    ensures BucketViolations(doc, allow) != {}
  {
    var x := BucketExposure(doc, r.name);
    if x.None? {
      assert Violation("uncomputable_exposure", "bucket/" + r.name, Nothing) in BucketViolations(doc, allow);
    } else {
      AdmittedBucketEmpty(doc, allow, r.name);
      assert Violation("exposure_not_allowlisted", "bucket/" + r.name, ShownExposure(x.value))
          in BucketViolations(doc, allow);
    }
  }

  lemma BucketsClean(doc: Document, allow: Allowlist)
    ensures BucketViolations(doc, allow) == {} <==>
      forall r :: r in doc.resources && r.kind == "bucket" && BucketGrants(doc.grants, r.name) != [] ==>
        BucketAdmitted(doc, allow, r.name)
  {
    forall r | r in doc.resources && r.kind == "bucket" && BucketGrants(doc.grants, r.name) != []
        && !BucketAdmitted(doc, allow, r.name)
      ensures BucketViolations(doc, allow) != {}
    {
      BucketViolates(doc, allow, r);
    }
    forall r | r in doc.resources && BucketExposure(doc, r.name).Some?
      ensures AdmittedBucket(doc, allow, r.name) == {} <==> !BucketAdmitted(doc, allow, r.name)
    {
      AdmittedBucketEmpty(doc, allow, r.name);
    }
  }

  lemma PortViolates(doc: Document, allow: Allowlist, r: Resource, p: Port)
    requires r in doc.resources && r.kind == "workload" && p in r.ports && p.bind.Ip?
    requires !PortAdmitted(doc, allow, r, p)
    ensures PortViolations(doc, allow) != {}
  {
    var x := PortExposure(doc, r.name, p.name, p.bind);
    if x.None? {
      assert Violation("uncomputable_exposure", PortKey(r, p), Nothing) in PortViolations(doc, allow);
    } else {
      AdmittedPortEmpty(doc, allow, r, p);
      assert Violation("exposure_not_allowlisted", PortKey(r, p), ShownExposure(x.value)) in PortViolations(doc, allow);
    }
  }

  lemma PortsClean(doc: Document, allow: Allowlist)
    requires forall r, p :: r in doc.resources && r.kind == "workload" && p in r.ports ==> p.bind.Ip?
    ensures PortViolations(doc, allow) == {} <==>
      forall r, p :: r in doc.resources && r.kind == "workload" && p in r.ports ==> PortAdmitted(doc, allow, r, p)
  {
    forall r, p | r in doc.resources && r.kind == "workload" && p in r.ports && !PortAdmitted(doc, allow, r, p)
      ensures PortViolations(doc, allow) != {}
    {
      PortViolates(doc, allow, r, p);
    }
    forall r, p | r in doc.resources && p in r.ports && PortExposure(doc, r.name, p.name, p.bind).Some?
      ensures AdmittedPort(doc, allow, r.name, p.name, p.bind) == {} <==>
        !exists e :: e in Entries(allow)
          && AdmitsPort(e, PortExposure(doc, r.name, p.name, p.bind).value, r.name, p.name)
    {
      AdmittedPortEmpty(doc, allow, r, p);
    }
  }

  /** The policy admits exactly the conforming documents without conflicting entries. */
  lemma AdmitsMeaning(doc: Document, allow: Allowlist)
    ensures Admits(doc, allow) <==> Conforms(doc, allow) && !Conflicts(doc, allow)
  {
    hide ArtifactViolations, InputViolations, BucketViolations, PortViolations;
    hide BucketAdmitted, BucketGrants, AllBlocks, Conflicts;
    ArtifactClean(doc, allow);
    InputClean(doc);
    BucketsClean(doc, allow);
    if InputViolations(doc) == {} { PortsClean(doc, allow); }
    var vs := Violations(doc, allow);
    NoneOfFour(ArtifactViolations(doc, allow), InputViolations(doc), BucketViolations(doc, allow),
      PortViolations(doc, allow));
    assert |vs| == 0 <==> vs == {};
  }

  lemma NoneOfFour<T>(a: set<T>, b: set<T>, c: set<T>, d: set<T>)
    ensures a + b + c + d == {} <==> a == {} && b == {} && c == {} && d == {}
  {
    assert a <= a + b + c + d && b <= a + b + c + d && c <= a + b + c + d && d <= a + b + c + d;
  }
}
