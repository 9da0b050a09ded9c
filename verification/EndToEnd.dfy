/** From the pipeline to the policy: what is known about the plan a gated run applies. */
module EndToEnd {
  import opened Cidr
  import opened Options
  import opened Intervals
  import opened Platform
  import opened Graph
  import opened Policy
  import opened ExposureMeaning
  import A = Authz
  import Approval
  import Plan
  import Engine
  import H = Harness
  import Order
  import S = Soundness

  /** What the gate works with: how a resolved plan's text decodes, how address texts are
      read, the segments, the allowlist file, and a policy engine. */
  datatype Gate = Gate(decode: string -> Plan.Artifact, reader: Plan.Reader, segments: seq<Segment>,
                       allow: Allowlist, allowlistExists: bool, engine: Document -> Engine.EngineRun)

  /** The engine evaluates the policy, or it fails in whatever way it likes. */
  ghost predicate Trustworthy(w: Gate) {
    forall doc :: w.engine(doc) == Engine.Faithful(doc, w.allow) || !Engine.CleanAdmission(w.engine(doc))
  }

  ghost function Decision(w: Gate, text: string): Engine.Decision {
    match Plan.DocumentOf(w.decode(text), w.segments, w.reader)
    case None => Engine.Denial(Engine.CLASS_UNPARSABLE)
    case Some(doc) => Engine.Evaluate(true, w.allowlistExists, w.engine(doc))
  }

  lemma AdmittedTextIsAdmittedDocument(w: Gate, text: string)
    requires Trustworthy(w) && !Engine.Denied(Decision(w, text))
    ensures Plan.DocumentOf(w.decode(text), w.segments, w.reader).Some?
    ensures Admits(Plan.DocumentOf(w.decode(text), w.segments, w.reader).value, w.allow)
  {
    hide Plan.DocumentOf, Engine.Faithful, Admits;
    var doc := Plan.DocumentOf(w.decode(text), w.segments, w.reader).value;
    Engine.OnlyCleanAdmissionAdmits(true, w.allowlistExists, w.engine(doc));
    Engine.OnlyCleanAdmissionAdmits(true, true, w.engine(doc));
    Engine.GateFollowsPolicy(doc, w.allow);
  }

  // ---- What an admission says about the elements of a document ------------------------

  ghost predicate ReadCovered(allow: Allowlist, name: string, who: string, v: int) {
    exists e :: e in Entries(allow) && e.kind == "bucket" && e.name == name && who in e.principals
      && RangesCover(e.sources, v)
  }

  ghost predicate ConnectCovered(allow: Allowlist, name: string, v: int) {
    exists e :: e in Entries(allow) && e.kind == "workload_port" && e.name == name && RangesCover(e.sources, v)
  }

  lemma AdmittedGrantIsCovered(doc: Document, allow: Allowlist, b: Resource, g: GrantEntry, who: string, v: int)
    requires Admits(doc, allow)
    requires b in doc.resources && b.kind == "bucket"
    requires g in doc.grants && ReadsBucket(g.grant, b.name) && who in g.grant.principals
      && RangesCover(g.grant.sourceRanges, v)
    ensures ReadCovered(allow, b.name, who, v)
  {
    hide BucketExposure, RangesCover, Conflicts, Admits;
    AdmitsMeaning(doc, allow);
    BucketGrantsMeaning(doc.grants, b.name);
    assert g.grant in BucketGrants(doc.grants, b.name);
    assert BucketAdmitted(doc, allow, b.name);
    BucketExposureMeaning(doc, b.name);
    var x := BucketExposure(doc, b.name).value;
    var e :| e in Entries(allow) && AdmitsBucket(e, x, b.name);
    assert who in x.principals;
    assert SomeGrantCovers(BucketGrants(doc.grants, b.name), v);
    SourcesCoveredSound(x.sources, e.sources);
  }

  lemma AdmittedRuleIsCovered(doc: Document, allow: Allowlist, w: Resource, p: Port, r: RuleEntry, v: int)
    requires Admits(doc, allow)
    requires w in doc.resources && w.kind == "workload" && p in w.ports
    requires r in doc.networkRules && r.rule.workload == w.name && r.rule.port == p.name
    requires RangesCover(r.rule.sourceRanges, v) && BindServes(doc.segments, p.bind, v)
    ensures ConnectCovered(allow, w.name + ":" + p.name, v)
  {
    hide PortExposure, RangesCover, Conflicts, Admits, BindServes;
    AdmitsMeaning(doc, allow);
    assert PortAdmitted(doc, allow, w, p);
    PortRulesMeaning(doc.networkRules, w.name, p.name);
    assert r.rule in PortRules(doc.networkRules, w.name, p.name);
    assert SomeRuleCovers(PortRules(doc.networkRules, w.name, p.name), v);
    PortExposureMeaning(doc, w.name, p.name, p.bind);
    var x := PortExposure(doc, w.name, p.name, p.bind).value;
    assert RangesCover(x.sources, v);
    if x.sources == [] { NothingCovered(v); }
    var e :| e in Entries(allow) && AdmitsPort(e, x, w.name, p.name);
    SourcesCoveredSound(x.sources, e.sources);
  }

  // ---- The planned tree ---------------------------------------------------------------

  ghost predicate InPlan(raw: Plan.Artifact, r: Plan.PlanResource) {
    raw.PlanDocument? && Plan.InTree(raw.root, r)
  }

  /** A list attribute has the text among its items. */
  ghost predicate Lists(values: map<string, Value>, key: string, s: string) {
    Plan.HasList(values, key) && exists i :: 0 <= i < |values[key].items| && Plan.ItemIs(values[key].items[i], s)
  }

  /** Some range in a list attribute, as the reader reads it, contains the address. */
  ghost predicate ListsAddress(values: map<string, Value>, key: string, rd: Plan.Reader, v: int) {
    exists s :: Lists(values, key, s) && InRange(rd.range(s), v)
  }

  ghost predicate PlannedBucket(b: Plan.PlanResource, name: string) {
    b.type_ == "democloud_bucket" && Plan.TextIs(b.values, "name", name)
  }

  ghost predicate GrantReads(g: Plan.PlanResource, rd: Plan.Reader, name: string, who: string, v: int) {
    && g.type_ == "democloud_grant"
    && Plan.TextIs(g.values, "resource_kind", "bucket") && Plan.TextIs(g.values, "resource_name", name)
    && Lists(g.values, "actions", "read") && Lists(g.values, "principals", who)
    && ListsAddress(g.values, "source_ranges", rd, v)
  }

  /** By its attributes, a planned grant lets a principal read a planned bucket from an address. */
  ghost predicate PlansRead(w: Gate, raw: Plan.Artifact, name: string, who: string, v: int) {
    && (exists b :: InPlan(raw, b) && PlannedBucket(b, name))
    && exists g :: InPlan(raw, g) && GrantReads(g, w.reader, name, who, v)
  }

  /** A planned workload has a port of this name, whose bind hears the address. */
  ghost predicate PlannedPort(x: Plan.PlanResource, w: Gate, workload: string, port: string, v: int) {
    && x.type_ == "democloud_workload" && Plan.TextIs(x.values, "name", workload)
    && Plan.HasList(x.values, "ports")
    && exists i :: 0 <= i < |x.values["ports"].items| && ItemHears(x.values["ports"].items[i], w, port, v)
  }

  ghost predicate ItemHears(m: Value, w: Gate, port: string, v: int) {
    && m.Record? && Plan.TextIs(m.fields, "name", port)
    && exists s :: Plan.TextIs(m.fields, "bind", s) && BindServes(w.segments, w.reader.bind(s), v)
  }

  ghost predicate RulePermits(n: Plan.PlanResource, rd: Plan.Reader, workload: string, port: string, v: int) {
    && n.type_ == "democloud_network_rule"
    && Plan.TextIs(n.values, "workload", workload) && Plan.TextIs(n.values, "port", port)
    && ListsAddress(n.values, "source_ranges", rd, v)
  }

  /** By its attributes, a planned rule lets an address that the bind hears reach a planned port. */
  ghost predicate PlansConnect(w: Gate, raw: Plan.Artifact, workload: string, port: string, v: int) {
    && (exists x :: InPlan(raw, x) && PlannedPort(x, w, workload, port, v))
    && exists n :: InPlan(raw, n) && RulePermits(n, w.reader, workload, port, v)
  }

  /** Everything in the tree is recognized, and every planned way in is allowlisted. */
  ghost predicate Reviewed(w: Gate, raw: Plan.Artifact) {
    && raw.PlanDocument?
    && (forall r :: InPlan(raw, r) ==>
          Plan.KnownAttributes(r.type_).Some? && r.values.Keys <= Plan.KnownAttributes(r.type_).value)
    && (forall name, who, v: int :: PlansRead(w, raw, name, who, v) ==> ReadCovered(w.allow, name, who, v))
    && (forall workload, port, v: int :: PlansConnect(w, raw, workload, port, v) ==>
          ConnectCovered(w.allow, workload + ":" + port, v))
  }

  // ---- From attributes to the document ------------------------------------------------

  lemma TextIsOne(values: map<string, Value>, key: string, s: string, t: string)
    requires Plan.TextIs(values, key, s) && Plan.TextIs(values, key, t)
    ensures s == t
  {
  }

  lemma ListedItem(values: map<string, Value>, key: string, list: seq<string>, s: string)
    requires Plan.ItemsAre(values, key, list)
    ensures Lists(values, key, s) <==> s in list
  {
    if Lists(values, key, s) {
      var i :| 0 <= i < |values[key].items| && Plan.ItemIs(values[key].items[i], s);
      assert list[i] == s;
    }
    if s in list {
      var i :| 0 <= i < |list| && list[i] == s;
      assert Plan.ItemIs(values[key].items[i], s);
    }
  }

  lemma ListedAddress(values: map<string, Value>, key: string, rd: Plan.Reader, ranges: seq<Range>, v: int)
    requires Plan.RangesAre(values, key, rd, ranges)
    ensures ListsAddress(values, key, rd, v) <==> RangesCover(ranges, v)
  {
    hide InRange;
    if ListsAddress(values, key, rd, v) {
      var s :| Lists(values, key, s) && InRange(rd.range(s), v);
      var i :| 0 <= i < |values[key].items| && Plan.ItemIs(values[key].items[i], s);
      assert Plan.RangeIs(values[key].items[i], rd, ranges[i]);
      assert ranges[i] == rd.range(s);
    }
    if RangesCover(ranges, v) {
      var i :| 0 <= i < |ranges| && InRange(ranges[i], v);
      assert Plan.RangeIs(values[key].items[i], rd, ranges[i]);
      var s :| Plan.ItemIs(values[key].items[i], s) && ranges[i] == rd.range(s);
      assert Lists(values, key, s);
    }
  }

  lemma GrantSays(g: Plan.PlanResource, rd: Plan.Reader, grant: Grant, name: string, who: string, v: int)
    requires Plan.GrantOf(g, rd, grant)
    ensures GrantReads(g, rd, name, who, v) <==>
      ReadsBucket(grant, name) && who in grant.principals && RangesCover(grant.sourceRanges, v)
  {
    hide Plan.TextIs, Plan.ItemsAre, Plan.RangesAre, Lists, ListsAddress, RangesCover;
    ListedItem(g.values, "actions", grant.actions, "read");
    ListedItem(g.values, "principals", grant.principals, who);
    ListedAddress(g.values, "source_ranges", rd, grant.sourceRanges, v);
    if GrantReads(g, rd, name, who, v) {
      TextIsOne(g.values, "resource_kind", "bucket", grant.resourceKind);
      TextIsOne(g.values, "resource_name", name, grant.resourceName);
    }
  }

  lemma RuleSays(n: Plan.PlanResource, rd: Plan.Reader, rule: NetworkRule, workload: string, port: string, v: int)
    requires Plan.RuleOf(n, rd, rule)
    ensures RulePermits(n, rd, workload, port, v) <==>
      rule.workload == workload && rule.port == port && RangesCover(rule.sourceRanges, v)
  {
    hide Plan.TextIs, Plan.RangesAre, ListsAddress, RangesCover;
    ListedAddress(n.values, "source_ranges", rd, rule.sourceRanges, v);
    if RulePermits(n, rd, workload, port, v) {
      TextIsOne(n.values, "workload", workload, rule.workload);
      TextIsOne(n.values, "port", port, rule.port);
    }
  }

  lemma PortSays(x: Plan.PlanResource, w: Gate, r: Resource, port: string, v: int)
    requires Plan.WorkloadOf(x, w.reader, r)
    ensures PlannedPort(x, w, r.name, port, v) <==>
      exists p :: p in r.ports && p.name == port && BindServes(w.segments, p.bind, v)
  {
    hide Plan.TextIs, Plan.PortsAt, BindServes, ItemHears;
    if Plan.HasList(x.values, "ports") {
      var items := x.values["ports"].items;
      var at :| Plan.PortsAt(items, w.reader, r.ports, at);
      ItemsHear(items, w, r.ports, at, port, v);
    }
  }

  lemma ItemsHear(items: seq<Value>, w: Gate, ports: seq<Port>, at: seq<nat>, port: string, v: int)
    requires Plan.PortsAt(items, w.reader, ports, at)
    ensures (exists i :: 0 <= i < |items| && ItemHears(items[i], w, port, v))
       <==> exists p :: p in ports && p.name == port && BindServes(w.segments, p.bind, v)
  {
    hide Plan.PortIs, ItemHears, BindServes;
    if i :| 0 <= i < |items| && ItemHears(items[i], w, port, v) {
      HearingIsRecord(items[i], w, port, v);
      var j :| 0 <= j < |at| && at[j] == i;
      SamePort(items[i], w, ports[j], port, v);
      assert ports[j] in ports;
    }
    if p :| p in ports && p.name == port && BindServes(w.segments, p.bind, v) {
      var j :| 0 <= j < |ports| && ports[j] == p;
      SamePort(items[at[j]], w, p, port, v);
    }
  }

  lemma HearingIsRecord(m: Value, w: Gate, port: string, v: int)
    requires ItemHears(m, w, port, v)
    ensures m.Record?
  {
  }

  lemma SamePort(m: Value, w: Gate, p: Port, port: string, v: int)
    requires Plan.PortIs(m, w.reader, p)
    ensures ItemHears(m, w, port, v) <==> p.name == port && BindServes(w.segments, p.bind, v)
  {
    hide BindServes, Plan.NumberIs;
  }

  /** The element of the document that describes a planned resource of a known type. */
  lemma Described(raw: Plan.Artifact, segments: seq<Segment>, rd: Plan.Reader, r: Plan.PlanResource)
    returns (e: Plan.Element)
    requires Plan.DocumentOf(raw, segments, rd).Some? && InPlan(raw, r) && Plan.KnownAttributes(r.type_).Some?
    ensures Plan.Holds(Plan.DocumentOf(raw, segments, rd).value, e) && Plan.Describes(r, rd, e)
  {
    hide Plan.DocumentOf, Plan.Holds, Plan.InTree, Plan.Describes, Plan.KnownAttributes;
    Plan.DocumentDescribesTree(raw, segments, rd);
    e :| Plan.Holds(Plan.DocumentOf(raw, segments, rd).value, e) && Plan.Describes(r, rd, e);
  }

  lemma PlannedReadInDocument(w: Gate, raw: Plan.Artifact, name: string, who: string, v: int)
    returns (b: Resource, g: GrantEntry)
    requires Plan.DocumentOf(raw, w.segments, w.reader).Some? && PlansRead(w, raw, name, who, v)
    ensures
      var doc := Plan.DocumentOf(raw, w.segments, w.reader).value;
      && b in doc.resources && b.kind == "bucket" && b.name == name
      && g in doc.grants && ReadsBucket(g.grant, name) && who in g.grant.principals
        && RangesCover(g.grant.sourceRanges, v)
  {
    hide Plan.DocumentOf, Plan.InTree, GrantReads, Plan.GrantOf, Plan.WorkloadOf, RangesCover, Plan.TextIs;
    var rb :| InPlan(raw, rb) && PlannedBucket(rb, name);
    var rg :| InPlan(raw, rg) && GrantReads(rg, w.reader, name, who, v);
    GrantIsKnown(rg, w.reader, name, who, v);
    var eb := Described(raw, w.segments, w.reader, rb);
    var eg := Described(raw, w.segments, w.reader, rg);
    KindOfDescription(rb, w.reader, eb);
    KindOfDescription(rg, w.reader, eg);
    b, g := eb.r, eg.g;
    TextIsOne(rb.values, "name", name, b.name);
    GrantSays(rg, w.reader, g.grant, name, who, v);
  }

  lemma GrantIsKnown(g: Plan.PlanResource, rd: Plan.Reader, name: string, who: string, v: int)
    requires GrantReads(g, rd, name, who, v)
    ensures g.type_ == "democloud_grant"
  {
  }

  lemma KindOfDescription(r: Plan.PlanResource, rd: Plan.Reader, e: Plan.Element)
    requires Plan.Describes(r, rd, e)
    ensures r.type_ == "democloud_bucket" ==> e.IsResource? && Plan.BucketOf(r, e.r)
    ensures r.type_ == "democloud_workload" ==> e.IsResource? && Plan.WorkloadOf(r, rd, e.r)
    ensures r.type_ == "democloud_grant" ==> e.IsGrant? && Plan.GrantOf(r, rd, e.g.grant)
    ensures r.type_ == "democloud_network_rule" ==> e.IsRule? && Plan.RuleOf(r, rd, e.n.rule)
  {
  }

  lemma PlannedConnectInDocument(w: Gate, raw: Plan.Artifact, workload: string, port: string, v: int)
      returns (x: Resource, p: Port, n: RuleEntry)
    requires Plan.DocumentOf(raw, w.segments, w.reader).Some? && PlansConnect(w, raw, workload, port, v)
    ensures
      var doc := Plan.DocumentOf(raw, w.segments, w.reader).value;
      && x in doc.resources && x.kind == "workload" && x.name == workload && p in x.ports && p.name == port
      && n in doc.networkRules && n.rule.workload == workload && n.rule.port == port
      && RangesCover(n.rule.sourceRanges, v) && BindServes(w.segments, p.bind, v)
  {
    hide Plan.DocumentOf, Plan.InTree, RulePermits, PlannedPort, Plan.RuleOf, Plan.GrantOf, RangesCover,
      Plan.TextIs, BindServes, Plan.PortsAre;
    var rx :| InPlan(raw, rx) && PlannedPort(rx, w, workload, port, v);
    var rn :| InPlan(raw, rn) && RulePermits(rn, w.reader, workload, port, v);
    TypesOfConnect(rx, rn, w, workload, port, v);
    var ex := Described(raw, w.segments, w.reader, rx);
    var en := Described(raw, w.segments, w.reader, rn);
    KindOfDescription(rx, w.reader, ex);
    KindOfDescription(rn, w.reader, en);
    x, n := ex.r, en.n;
    TextIsOne(rx.values, "name", workload, x.name);
    PortSays(rx, w, x, port, v);
    RuleSays(rn, w.reader, n.rule, workload, port, v);
    p :| p in x.ports && p.name == port && BindServes(w.segments, p.bind, v);
  }

  lemma TypesOfConnect(x: Plan.PlanResource, n: Plan.PlanResource, w: Gate, workload: string, port: string, v: int)
    requires PlannedPort(x, w, workload, port, v) && RulePermits(n, w.reader, workload, port, v)
    ensures x.type_ == "democloud_workload" && n.type_ == "democloud_network_rule"
    ensures Plan.TextIs(x.values, "name", workload)
  {
  }

  lemma DocumentSegments(raw: Plan.Artifact, segments: seq<Segment>, rd: Plan.Reader)
    requires Plan.DocumentOf(raw, segments, rd).Some?
    ensures raw.PlanDocument?
    ensures forall s :: s in Plan.DocumentOf(raw, segments, rd).value.segments <==> s in segments
  {
    var rs := Plan.Planned(raw.root);
    var added := Plan.AddedAll(Blank(SURFACE_IAC_PLAN, segments), rs, rd);
    Plan.AddedAllKeepsHeader(Blank(SURFACE_IAC_PLAN, segments), rs, rd);
    OrderedMeaning(added.(unknownResourceTypes := Order.SortedSet(Plan.UnknownTypes(rs)),
                          unrecognizedFields := Order.SortedSet(Plan.UnknownFields(rs))));
  }

  lemma AdmittedPlanIsReviewed(w: Gate, raw: Plan.Artifact)
    requires Plan.DocumentOf(raw, w.segments, w.reader).Some?
    requires Admits(Plan.DocumentOf(raw, w.segments, w.reader).value, w.allow)
    ensures Reviewed(w, raw)
  {
    hide Plan.DocumentOf, Plan.Planned, Plan.InTree, Plan.KnownAttributes, Admits, RangesCover, ReadCovered,
      ConnectCovered, BindServes, PlansRead, PlansConnect;
    var doc := Plan.DocumentOf(raw, w.segments, w.reader).value;
    DocumentSegments(raw, w.segments, w.reader);
    Plan.AdmittedPlansAreRecognized(raw, w.segments, w.reader, w.allow);
    forall r | InPlan(raw, r)
      ensures Plan.KnownAttributes(r.type_).Some? && r.values.Keys <= Plan.KnownAttributes(r.type_).value
    {
      Plan.PlannedIsInTree(raw.root, r);
    }
    forall name, who, v: int | PlansRead(w, raw, name, who, v) ensures ReadCovered(w.allow, name, who, v) {
      var b, g := PlannedReadInDocument(w, raw, name, who, v);
      AdmittedGrantIsCovered(doc, w.allow, b, g, who, v);
    }
    forall workload, port, v: int | PlansConnect(w, raw, workload, port, v)
      ensures ConnectCovered(w.allow, workload + ":" + port, v)
    {
      var x, p, n := PlannedConnectInDocument(w, raw, workload, port, v);
      S.BindServesMembers(doc.segments, w.segments, p.bind, v);
      AdmittedRuleIsCovered(doc, w.allow, x, p, n, v);
    }
  }

  /** The whole way: in a run under the gate, whatever the tools do and whatever happens to
      the plan file after approval, every plan that is applied resolves to a tree in which
      every type and attribute was recognized and every way in was reviewed. */
  lemma AppliedPlansAreReviewed(s: H.Scenario, t: H.Tools, platform: string, w: Gate)
    requires H.UnderTheGate(s) && Trustworthy(w)
    requires forall text :: t.evaluates(text) == Decision(w, text)
    ensures forall e :: e in H.RunRecord(s, t, platform).effects && e.Applied? ==>
      e.plan.PlanBytes? && t.resolves(e.plan.bytes).Some? && Reviewed(w, w.decode(t.resolves(e.plan.bytes).value))
  {
    hide H.RunRecord, Reviewed, Decision, Trustworthy, Plan.DocumentOf, Admits;
    H.AppliedIsAdmitted(s, t, platform);
    forall e | e in H.RunRecord(s, t, platform).effects && e.Applied?
      ensures e.plan.PlanBytes? && t.resolves(e.plan.bytes).Some?
        && Reviewed(w, w.decode(t.resolves(e.plan.bytes).value))
    {
      var text := t.resolves(e.plan.bytes).value;
      assert t.evaluates(text) == Decision(w, text);
      AdmittedTextIsAdmittedDocument(w, text);
      AdmittedPlanIsReviewed(w, w.decode(text));
    }
  }

  // ---- From the tree to the requests of a platform that holds it ----------------------

  /** The state holds nothing that the tree does not plan, and has the gate's segments. Its
      objects are unconstrained, and it may lack some of what is planned. */
  ghost predicate PlannedBy(st: State, w: Gate, raw: Plan.Artifact) {
    && (forall s :: s in st.segments <==> s in w.segments)
    && (forall b :: b in st.buckets ==> exists r :: InPlan(raw, r) && PlannedBucket(r, b.name))
    && (forall x :: x in st.workloads ==> exists r :: InPlan(raw, r) && PlannedWorkload(r, w.reader, x))
    && (forall g :: g in st.grants ==> exists r :: InPlan(raw, r) && Plan.GrantOf(r, w.reader, g))
    && (forall n :: n in st.networkRules ==> exists r :: InPlan(raw, r) && Plan.RuleOf(r, w.reader, n))
  }

  /** The workload's name and ports are those of the planned one. */
  ghost predicate PlannedWorkload(r: Plan.PlanResource, rd: Plan.Reader, x: Workload) {
    r.type_ == "democloud_workload" && Plan.TextIs(r.values, "name", x.name)
      && Plan.PortsAre(r.values, "ports", rd, x.ports)
  }

  lemma PlannedReadIsCovered(st: State, w: Gate, raw: Plan.Artifact, c: Caller, bucket: string, key: string)
    requires Reviewed(w, raw) && PlannedBy(st, w, raw)
    requires S.Declared(st, bucket) && A.ReadAllowed(st, c, bucket, key)
    ensures S.Covered(w.allow, c, bucket)
  {
    hide RangesCover, A.HoldsObject, Plan.InTree, Plan.KnownAttributes, PlannedBucket, Plan.GrantOf,
      Plan.RuleOf, PlannedWorkload, GrantReads;
    var i :| 0 <= i < |st.buckets| && st.buckets[i].name == bucket;
    assert st.buckets[i] in st.buckets;
    var g :| g in st.grants && A.Names(g, KIND_BUCKET, bucket, ACTION_READ)
      && (exists p :: p in {PrincipalOf(c), ANONYMOUS} && p in g.principals)
      && c.addr.V4? && RangesCover(g.sourceRanges, c.addr.addr);
    var p :| p in {PrincipalOf(c), ANONYMOUS} && p in g.principals;
    var r :| InPlan(raw, r) && Plan.GrantOf(r, w.reader, g);
    GrantSays(r, w.reader, g, bucket, p, c.addr.addr);
    assert PlansRead(w, raw, bucket, p, c.addr.addr);
    assert ReadCovered(w.allow, bucket, p, c.addr.addr);
    var entry :| entry in Entries(w.allow) && entry.kind == "bucket" && entry.name == bucket && p in entry.principals
      && RangesCover(entry.sources, c.addr.addr);
    assert S.CoversRead(entry, c, bucket);
  }

  ghost predicate ConnectIsCovered(allow: Allowlist, c: Caller, workload: string, port: string) {
    exists e :: e in Entries(allow) && S.CoversConnect(e, c, workload, port)
  }

  lemma PlannedConnectIsCovered(st: State, w: Gate, raw: Plan.Artifact, c: Caller, workload: string, port: string)
    requires Reviewed(w, raw) && PlannedBy(st, w, raw)
    requires A.ConnectDecision(st, c, workload, port).0.allowed
    ensures ConnectIsCovered(w.allow, c, workload, port)
  {
    hide RangesCover, A.EffectiveIngressOf, A.Lookup, A.BindReachOf, BindServes, Covers, Plan.InTree,
      Plan.KnownAttributes, PlannedBucket, Plan.GrantOf, Plan.RuleOf, PlannedPort, RulePermits, Plan.PortsAre,
      Plan.TextIs;
    A.LookupIsDeclared(st.workloads, workload, port);
    A.ConnectAllowedMeaning(st, c, workload, port);
    var p, v := A.Lookup(st.workloads, workload, port).port.value, c.addr.addr;
    var x :| x in st.workloads && x.name == workload && p in x.ports;
    var r :| InPlan(raw, r) && PlannedWorkload(r, w.reader, x);
    var n :| n in st.networkRules && A.Permits(n, workload, port) && RangesCover(n.sourceRanges, v);
    var rn :| InPlan(raw, rn) && Plan.RuleOf(rn, w.reader, n);
    S.BindReachWithin(p.bind, st.segments, v);
    S.BindServesMembers(st.segments, w.segments, p.bind, v);
    PortSays(r, w, Resource("workload", workload, r.address, x.ports, map[]), port, v);
    RuleSays(rn, w.reader, n, workload, port, v);
    assert PlansConnect(w, raw, workload, port, v);
    assert ConnectCovered(w.allow, workload + ":" + port, v);
    var entry :| entry in Entries(w.allow) && entry.kind == "workload_port" && entry.name == workload + ":" + port
      && RangesCover(entry.sources, v);
    assert S.CoversConnect(entry, c, workload, port);
  }

  /** The tree a plan file's bytes resolve to. */
  function TreeOf(t: H.Tools, w: Gate, plan: Approval.PlanFile): Plan.Artifact {
    if plan.PlanBytes? && t.resolves(plan.bytes).Some? then w.decode(t.resolves(plan.bytes).value) else Plan.NotJson
  }

  /** From the pipeline to the requests: after a run under the gate, on any platform that
      holds no more than an applied plan declares, every read from a declared bucket and
      every connect that is allowed is covered by one reviewed entry. */
  lemma RequestsAfterApplyAreCovered(s: H.Scenario, t: H.Tools, platform: string, w: Gate, e: H.Effect,
      st: State, c: Caller)
    requires H.UnderTheGate(s) && Trustworthy(w)
    requires forall text :: t.evaluates(text) == Decision(w, text)
    requires e in H.RunRecord(s, t, platform).effects && e.Applied?
    ensures TreeOf(t, w, e.plan).PlanDocument?
    ensures PlannedBy(st, w, TreeOf(t, w, e.plan)) ==>
      && (forall bucket, key :: S.Declared(st, bucket) && A.ReadAllowed(st, c, bucket, key) ==>
        S.Covered(w.allow, c, bucket))
      && (forall x, port :: A.ConnectDecision(st, c, x, port).0.allowed ==> ConnectIsCovered(w.allow, c, x, port))
  {
    AppliedTreeIsReviewed(s, t, platform, w, e);
    hide H.RunRecord, Reviewed, Decision, Trustworthy, PlannedBy, TreeOf, A.ReadAllowed, A.ConnectDecision,
      S.Declared, S.Covered, ConnectIsCovered;
    var raw := TreeOf(t, w, e.plan);
    if PlannedBy(st, w, raw) {
      forall bucket, key | S.Declared(st, bucket) && A.ReadAllowed(st, c, bucket, key)
        ensures S.Covered(w.allow, c, bucket)
      {
        PlannedReadIsCovered(st, w, raw, c, bucket, key);
      }
      forall x, port | A.ConnectDecision(st, c, x, port).0.allowed ensures ConnectIsCovered(w.allow, c, x, port) {
        PlannedConnectIsCovered(st, w, raw, c, x, port);
      }
    }
  }

  lemma AppliedTreeIsReviewed(s: H.Scenario, t: H.Tools, platform: string, w: Gate, e: H.Effect)
    requires H.UnderTheGate(s) && Trustworthy(w)
    requires forall text :: t.evaluates(text) == Decision(w, text)
    requires e in H.RunRecord(s, t, platform).effects && e.Applied?
    ensures TreeOf(t, w, e.plan).PlanDocument? && Reviewed(w, TreeOf(t, w, e.plan))
  {
    hide H.RunRecord, Reviewed, Decision, Trustworthy;
    AppliedPlansAreReviewed(s, t, platform, w);
    ReviewedIsDocument(w, TreeOf(t, w, e.plan));
  }

  lemma ReviewedIsDocument(w: Gate, raw: Plan.Artifact)
    ensures Reviewed(w, raw) ==> raw.PlanDocument?
  {
  }
}
