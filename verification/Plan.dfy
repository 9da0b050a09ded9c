/** The normalizer of a resolved plan: a walk over the module tree that loses nothing. */
module Plan {
  import opened Options
  import opened Cidr
  import opened Platform
  import opened Graph
  import opened Order
  import Policy

  datatype PlanResource = PlanResource(address: string, type_: string, values: map<string, Value>)

  datatype PlanModule = PlanModule(address: string, resources: seq<PlanResource>, children: seq<PlanModule>)

  /** A plan artifact as its JSON decodes, when it does. */
  datatype Artifact = NotJson | PlanDocument(formatVersion: string, root: PlanModule)

  /** How address texts are read: the syntax itself is outside the model. */
  datatype Reader = Reader(range: string -> Range, bind: string -> Bind)

  function KnownAttributes(type_: string): Option<set<string>> {
    match type_
    case "democloud_bucket" => Some({"name", "encrypted", "log_retention_days", "id"})
    case "democloud_object" => Some({"bucket", "key", "content_type", "content_base64", "id"})
    case "democloud_grant" => Some({"id", "resource_kind", "resource_name", "principals", "actions", "source_ranges"})
    case "democloud_workload" => Some({"name", "address", "ports", "id"})
    case "democloud_network_rule" => Some({"id", "workload", "port", "source_ranges"})
    case _ => None
  }

  // ---- Value conversions --------------------------------------------------------------

  function At(values: map<string, Value>, key: string): Value {
    if key in values then values[key] else OtherValue
  }

  function StringOf(v: Value): string {
    if v.Text? then v.text else ""
  }

  function StringsOf(v: Value): seq<string> {
    if v.List? then seq(|v.items|, i requires 0 <= i < |v.items| => StringOf(v.items[i])) else []
  }

  /** Truncation toward zero. */
  function Truncated(n: real): int {
    if n >= 0.0 then n.Floor else -((-n).Floor)
  }

  function PortsOf(v: Value, rd: Reader): seq<Port> {
    if v.List? then PortsIn(v.items, rd) else []
  }

  /** Entries that are no records are skipped. */
  function PortsIn(items: seq<Value>, rd: Reader): seq<Port> {
    if items == [] then []
    else
      var rest := PortsIn(items[1..], rd);
      if !items[0].Record? then rest
      else
        var m := items[0].fields;
        var number := if At(m, "number").Number? then Truncated(At(m, "number").number) else 0;
        [Port(StringOf(At(m, "name")), number, rd.bind(StringOf(At(m, "bind"))))] + rest
  }

  function RangesOf(v: Value, rd: Reader): seq<Range> {
    var texts := StringsOf(v);
    seq(|texts|, i requires 0 <= i < |texts| => rd.range(texts[i]))
  }

  /** A resource's attributes without the one that holds a body. */
  function AttributesOf(values: map<string, Value>): map<string, Value> {
    values - {"content_base64"}
  }

  // ---- One element per recognized resource --------------------------------------------

  datatype Element = IsResource(r: Resource) | IsGrant(g: GrantEntry) | IsRule(n: RuleEntry)

  function ElementOf(r: PlanResource, rd: Reader): Option<Element> {
    var v := r.values;
    match r.type_
    case "democloud_bucket" =>
      Some(IsResource(Resource("bucket", StringOf(At(v, "name")), r.address, [], AttributesOf(v))))
    case "democloud_object" =>
      Some(IsResource(Resource("object", StringOf(At(v, "bucket")) + "/" + StringOf(At(v, "key")), r.address,
                               [], map[])))
    case "democloud_grant" =>
      Some(IsGrant(GrantEntry(Grant(StringOf(At(v, "id")), StringOf(At(v, "resource_kind")),
                                    StringOf(At(v, "resource_name")),
                                    StringsOf(At(v, "principals")), StringsOf(At(v, "actions")),
                                    RangesOf(At(v, "source_ranges"), rd)), r.address)))
    case "democloud_workload" =>
      Some(IsResource(Resource("workload", StringOf(At(v, "name")), r.address, PortsOf(At(v, "ports"), rd), map[])))
    case "democloud_network_rule" =>
      Some(IsRule(RuleEntry(NetworkRule(StringOf(At(v, "id")), StringOf(At(v, "workload")), StringOf(At(v, "port")),
                                        RangesOf(At(v, "source_ranges"), rd)), r.address)))
    case _ => None
  }

  lemma RecognizedTypesHaveElements(r: PlanResource, rd: Reader)
    ensures KnownAttributes(r.type_).Some? <==> ElementOf(r, rd).Some?
  {
  }

  // ---- What an element says, in terms of the attributes -------------------------------

  /** The text under a key: the empty text when there is none. */
  ghost predicate TextIs(values: map<string, Value>, key: string, s: string) {
    if key in values && values[key].Text? then s == values[key].text else s == ""
  }

  /** An item of a list as a text: the empty text when it is none. */
  ghost predicate ItemIs(v: Value, s: string) {
    if v.Text? then s == v.text else s == ""
  }

  ghost predicate HasList(values: map<string, Value>, key: string) {
    key in values && values[key].List?
  }

  /** The list under a key, item by item: empty when there is none. */
  ghost predicate ItemsAre(values: map<string, Value>, key: string, list: seq<string>) {
    if !HasList(values, key) then list == []
    else |list| == |values[key].items| && forall i :: 0 <= i < |list| ==> ItemIs(values[key].items[i], list[i])
  }

  ghost predicate RangesAre(values: map<string, Value>, key: string, rd: Reader, ranges: seq<Range>) {
    if !HasList(values, key) then ranges == []
    else
      && |ranges| == |values[key].items|
      && forall i :: 0 <= i < |ranges| ==> RangeIs(values[key].items[i], rd, ranges[i])
  }

  ghost predicate RangeIs(v: Value, rd: Reader, r: Range) {
    exists s :: ItemIs(v, s) && r == rd.range(s)
  }

  /** The number under a key without its fraction: zero when there is none. */
  ghost predicate NumberIs(values: map<string, Value>, key: string, n: int) {
    if key in values && values[key].Number? then
      var x := values[key].number;
      if x >= 0.0 then n as real <= x < (n + 1) as real else (n - 1) as real < x <= n as real
    else n == 0
  }

  ghost predicate PortIs(v: Value, rd: Reader, p: Port) {
    && v.Record?
    && TextIs(v.fields, "name", p.name) && NumberIs(v.fields, "number", p.number)
    && exists s :: TextIs(v.fields, "bind", s) && p.bind == rd.bind(s)
  }

  /** The ports are those of the records among the items, in order: at holds their places. */
  ghost predicate PortsAt(items: seq<Value>, rd: Reader, ports: seq<Port>, at: seq<nat>) {
    && |at| == |ports|
    && (forall j :: 0 <= j < |at| ==> at[j] < |items| && PortIs(items[at[j]], rd, ports[j]))
    && (forall j, k :: 0 <= j < k < |at| ==> at[j] < at[k])
    && forall i :: 0 <= i < |items| && items[i].Record? ==> i in at
  }

  ghost predicate PortsAre(values: map<string, Value>, key: string, rd: Reader, ports: seq<Port>) {
    if !HasList(values, key) then ports == [] else exists at :: PortsAt(values[key].items, rd, ports, at)
  }

  ghost predicate BucketOf(r: PlanResource, x: Resource) {
    && r.type_ == "democloud_bucket" && x.kind == "bucket" && x.address == r.address && x.ports == []
    && TextIs(r.values, "name", x.name)
    && (forall k :: k in x.attributes <==> k in r.values && k != "content_base64")
    && forall k :: k in x.attributes ==> x.attributes[k] == r.values[k]
  }

  ghost predicate ObjectOf(r: PlanResource, x: Resource) {
    && r.type_ == "democloud_object"
    && exists b, k :: TextIs(r.values, "bucket", b) && TextIs(r.values, "key", k)
         && x == Resource("object", b + "/" + k, r.address, [], map[])
  }

  ghost predicate WorkloadOf(r: PlanResource, rd: Reader, x: Resource) {
    && r.type_ == "democloud_workload" && x.kind == "workload" && x.address == r.address && x.attributes == map[]
    && TextIs(r.values, "name", x.name) && PortsAre(r.values, "ports", rd, x.ports)
  }

  ghost predicate GrantOf(r: PlanResource, rd: Reader, g: Grant) {
    && r.type_ == "democloud_grant"
    && TextIs(r.values, "id", g.id)
    && TextIs(r.values, "resource_kind", g.resourceKind) && TextIs(r.values, "resource_name", g.resourceName)
    && ItemsAre(r.values, "principals", g.principals) && ItemsAre(r.values, "actions", g.actions)
    && RangesAre(r.values, "source_ranges", rd, g.sourceRanges)
  }

  ghost predicate RuleOf(r: PlanResource, rd: Reader, n: NetworkRule) {
    && r.type_ == "democloud_network_rule"
    && TextIs(r.values, "id", n.id)
    && TextIs(r.values, "workload", n.workload) && TextIs(r.values, "port", n.port)
    && RangesAre(r.values, "source_ranges", rd, n.sourceRanges)
  }

  /** The element says of the planned resource what its attributes say. */
  ghost predicate Describes(r: PlanResource, rd: Reader, e: Element) {
    match e
    case IsResource(x) => BucketOf(r, x) || ObjectOf(r, x) || WorkloadOf(r, rd, x)
    case IsGrant(g) => GrantOf(r, rd, g.grant) && g.address == r.address
    case IsRule(n) => RuleOf(r, rd, n.rule) && n.address == r.address
  }

  lemma TextAt(values: map<string, Value>, key: string)
    ensures TextIs(values, key, StringOf(At(values, key)))
  {
  }

  lemma ItemsAt(values: map<string, Value>, key: string, rd: Reader)
    ensures ItemsAre(values, key, StringsOf(At(values, key)))
    ensures RangesAre(values, key, rd, RangesOf(At(values, key), rd))
  {
    if HasList(values, key) {
      var items, texts := values[key].items, StringsOf(At(values, key));
      forall i | 0 <= i < |items| ensures ItemIs(items[i], texts[i]) && RangeIs(items[i], rd, rd.range(texts[i])) { }
    }
  }

  lemma NumberAt(values: map<string, Value>, key: string)
    ensures NumberIs(values, key, if At(values, key).Number? then Truncated(At(values, key).number) else 0)
  {
    if key in values && values[key].Number? {
      var x := values[key].number;
      if x >= 0.0 { FloorBounds(x); } else { FloorBounds(-x); }
    }
  }

  lemma FloorBounds(x: real)
    ensures x.Floor as real <= x < (x.Floor + 1) as real
  {
  }

  lemma {:induction false} PortsFound(items: seq<Value>, rd: Reader) returns (at: seq<nat>)
    ensures PortsAt(items, rd, PortsIn(items, rd), at)
  {
    hide PortIs, PortsAt, PortsIn;
    if items == [] {
      at := [];
      NoPorts(rd);
    } else {
      var rest := PortsFound(items[1..], rd);
      var ports := PortsIn(items[1..], rd);
      var later := Shifted(rest);
      assert items == [items[0]] + items[1..];
      if items[0].Record? {
        at := [0] + later;
        PortFound(items[0], rd);
        PlacesBehindRecord(items, rd, PortsIn([items[0]], rd)[0], ports, rest);
      } else {
        at := later;
        PortsInSkips(items, rd);
        PlacesBehindOther(items, rd, ports, rest);
      }
    }
  }

  lemma NoPorts(rd: Reader)
    ensures PortsAt([], rd, PortsIn([], rd), [])
  {
  }

  lemma PortsInSkips(items: seq<Value>, rd: Reader)
    requires items != [] && !items[0].Record?
    ensures PortsIn(items, rd) == PortsIn(items[1..], rd)
  {
  }

  ghost function Shifted(at: seq<nat>): seq<nat> {
    seq(|at|, j requires 0 <= j < |at| => at[j] + 1)
  }

  lemma PlacesBehindOther(items: seq<Value>, rd: Reader, ports: seq<Port>, rest: seq<nat>)
    requires items != [] && !items[0].Record? && PortsAt(items[1..], rd, ports, rest)
    ensures PortsAt(items, rd, ports, Shifted(rest))
  {
    hide PortIs;
    var at := Shifted(rest);
    assert forall j :: 0 <= j < |rest| ==> items[1..][rest[j]] == items[at[j]];
    forall i | 0 <= i < |items| && items[i].Record? ensures i in at {
      assert items[1..][i - 1] == items[i];
      var j :| 0 <= j < |rest| && rest[j] == i - 1;
      assert at[j] == i;
    }
  }

  lemma PlacesBehindRecord(items: seq<Value>, rd: Reader, p: Port, ports: seq<Port>, rest: seq<nat>)
    requires items != [] && PortIs(items[0], rd, p) && PortsAt(items[1..], rd, ports, rest)
    ensures PortsAt(items, rd, [p] + ports, [0] + Shifted(rest))
  {
    hide PortIs;
    var later := Shifted(rest);
    var at := [0] + later;
    forall j | 0 <= j < |at| ensures at[j] < |items| && PortIs(items[at[j]], rd, ([p] + ports)[j]) {
      if j > 0 { assert items[1..][rest[j - 1]] == items[at[j]]; }
    }
    forall i | 0 <= i < |items| && items[i].Record? ensures i in at {
      if i > 0 {
        assert items[1..][i - 1] == items[i];
        var j :| 0 <= j < |rest| && rest[j] == i - 1;
        assert at[j + 1] == i;
      } else {
        assert at[0] == 0;
      }
    }
  }

  lemma PortFound(v: Value, rd: Reader)
    requires v.Record?
    ensures PortsIn([v], rd) != [] && PortIs(v, rd, PortsIn([v], rd)[0])
    ensures forall rest :: PortsIn([v] + rest, rd) == [PortsIn([v], rd)[0]] + PortsIn(rest, rd)
  {
    TextAt(v.fields, "name");
    TextAt(v.fields, "bind");
    NumberAt(v.fields, "number");
    assert [v][1..] == [];
    forall rest ensures PortsIn([v] + rest, rd) == [PortsIn([v], rd)[0]] + PortsIn(rest, rd) {
      assert ([v] + rest)[1..] == rest && ([v] + rest)[0] == v;
    }
  }

  /** Whatever element a planned resource yields, it says what the attributes say. */
  lemma ElementDescribes(r: PlanResource, rd: Reader)
    ensures ElementOf(r, rd).Some? ==> Describes(r, rd, ElementOf(r, rd).value)
  {
    hide TextIs, ItemsAre, RangesAre, PortsAt, StringOf, StringsOf, RangesOf, At;
    var v := r.values;
    match r.type_ {
      case "democloud_bucket" => TextAt(v, "name");
      case "democloud_object" =>
        TextAt(v, "bucket");
        TextAt(v, "key");
      case "democloud_grant" =>
        TextAt(v, "id");
        TextAt(v, "resource_kind");
        TextAt(v, "resource_name");
        ItemsAt(v, "principals", rd);
        ItemsAt(v, "actions", rd);
        ItemsAt(v, "source_ranges", rd);
      case "democloud_workload" =>
        TextAt(v, "name");
        PortsDescribed(v, "ports", rd);
      case "democloud_network_rule" =>
        TextAt(v, "id");
        TextAt(v, "workload");
        TextAt(v, "port");
        ItemsAt(v, "source_ranges", rd);
      case _ =>
    }
  }

  lemma PortsDescribed(values: map<string, Value>, key: string, rd: Reader)
    ensures PortsAre(values, key, rd, PortsOf(At(values, key), rd))
  {
    hide PortsAt, PortsIn;
    if HasList(values, key) {
      var at := PortsFound(values[key].items, rd);
    }
  }

  function Added(d: Document, e: Element): Document {
    match e
    case IsResource(r) => d.(resources := d.resources + [r])
    case IsGrant(g) => d.(grants := d.grants + [g])
    case IsRule(n) => d.(networkRules := d.networkRules + [n])
  }

  /** The document after a list of planned resources, in order. */
  function AddedAll(d: Document, rs: seq<PlanResource>, rd: Reader): Document {
    if rs == [] then d
    else
      var before := AddedAll(d, rs[..|rs| - 1], rd);
      match ElementOf(rs[|rs| - 1], rd)
      case None => before
      case Some(e) => Added(before, e)
  }

  function UnknownTypes(rs: seq<PlanResource>): set<string> {
    set r | r in rs && KnownAttributes(r.type_).None? :: r.type_
  }

  function FieldsOf(r: PlanResource): set<string> {
    match KnownAttributes(r.type_)
    case None => {}
    case Some(known) => set a | a in r.values.Keys && a !in known :: r.address + "." + a
  }

  function UnknownFields(rs: seq<PlanResource>): set<string> {
    set r, f | r in rs && f in FieldsOf(r) :: f
  }

  // ---- The module tree ----------------------------------------------------------------

  /** Every planned resource of the tree, a module before its children. */
  function Planned(m: PlanModule): seq<PlanResource> {
    m.resources + PlannedIn(m.children)
  }

  function PlannedIn(ms: seq<PlanModule>): seq<PlanResource> {
    if ms == [] then [] else Planned(ms[0]) + PlannedIn(ms[1..])
  }

  /** Somewhere in the tree. */
  ghost predicate InTree(m: PlanModule, r: PlanResource) {
    r in m.resources || exists i :: 0 <= i < |m.children| && InTree(m.children[i], r)
  }

  lemma {:induction false} PlannedIsInTree(m: PlanModule, r: PlanResource)
    ensures r in Planned(m) <==> InTree(m, r)
    decreases m, 1
  {
    PlannedInChildren(m, m.children, r);
  }

  lemma {:induction false} PlannedInChildren(m: PlanModule, ms: seq<PlanModule>, r: PlanResource)
    requires |ms| <= |m.children| && ms == m.children[|m.children| - |ms|..]
    ensures r in PlannedIn(ms) <==> exists i :: 0 <= i < |ms| && InTree(ms[i], r)
    decreases m, 0, |ms|
  {
    if ms != [] {
      var k := |m.children| - |ms|;
      assert ms[0] == m.children[k];
      PlannedIsInTree(m.children[k], r);
      PlannedInChildren(m, ms[1..], r);
      assert forall i :: 0 < i < |ms| ==> ms[i] == ms[1..][i - 1];
      assert PlannedIn(ms) == Planned(ms[0]) + PlannedIn(ms[1..]);
    }
  }

  lemma {:induction false} PlannedInSnoc(ms: seq<PlanModule>, i: nat)
    requires i < |ms|
    ensures PlannedIn(ms[..i + 1]) == PlannedIn(ms[..i]) + Planned(ms[i])
  {
    if i == 0 {
      assert ms[..1] == [ms[0]] && ms[..0] == [];
      assert ms[..1][1..] == [];
      assert PlannedIn(ms[..1][1..]) == [];
    } else {
      PlannedInSnoc(ms[1..], i - 1);
      assert ms[..i + 1][1..] == ms[1..][..i] && ms[..i][1..] == ms[1..][..i - 1];
      assert ms[1..][i - 1] == ms[i];
    }
  }

  lemma {:induction false} AddedAllAppend(d: Document, a: seq<PlanResource>, b: seq<PlanResource>, rd: Reader)
    ensures AddedAll(d, a + b, rd) == AddedAll(AddedAll(d, a, rd), b, rd)
    decreases |b|
  {
    if b == [] {
      assert a + b == a;
    } else {
      var n := |b| - 1;
      AddedAllAppend(d, a, b[..n], rd);
      assert (a + b)[..|a + b| - 1] == a + b[..n];
    }
  }

  lemma UnknownAppend(a: seq<PlanResource>, b: seq<PlanResource>)
    ensures UnknownTypes(a + b) == UnknownTypes(a) + UnknownTypes(b)
    ensures UnknownFields(a + b) == UnknownFields(a) + UnknownFields(b)
  {
    hide KnownAttributes, FieldsOf;
    forall t ensures t in UnknownTypes(a + b) <==> t in UnknownTypes(a) + UnknownTypes(b) {}
    forall f ensures f in UnknownFields(a + b) <==> f in UnknownFields(a) + UnknownFields(b) {}
  }

  /** What the normalizer returns for an artifact; None on one it refuses. */
  ghost function DocumentOf(raw: Artifact, segments: seq<Segment>, rd: Reader): Option<Document> {
    if raw.NotJson? || raw.formatVersion == "" then None
    else
      var rs := Planned(raw.root);
      Some(Ordered(AddedAll(Blank(SURFACE_IAC_PLAN, segments), rs, rd).(
        unknownResourceTypes := SortedSet(UnknownTypes(rs)),
        unrecognizedFields := SortedSet(UnknownFields(rs)))))
  }

  // ---- The walk -----------------------------------------------------------------------

  /** Appends the element of one recognized resource. */
  method Add(g: Graph, r: PlanResource, rd: Reader)
    modifies g
    ensures g.doc == match ElementOf(r, rd) case None => old(g.doc) case Some(e) => Added(old(g.doc), e)
  {
    var e := ElementOf(r, rd);
    if e.Some? {
      match e.value {
        case IsResource(x) => g.doc := g.doc.(resources := g.doc.resources + [x]);
        case IsGrant(x) => g.doc := g.doc.(grants := g.doc.grants + [x]);
        case IsRule(x) => g.doc := g.doc.(networkRules := g.doc.networkRules + [x]);
      }
    }
  }

  /** The attributes of one resource, visited in no particular order. */
  method UnrecognizedIn(r: PlanResource, known: set<string>, sofar: set<string>) returns (fields: set<string>)
    requires KnownAttributes(r.type_) == Some(known)
    ensures fields == sofar + FieldsOf(r)
  {
    fields := sofar;
    var remaining := r.values.Keys;
    while remaining != {}
      invariant remaining <= r.values.Keys
      invariant fields == sofar + set a | a in r.values.Keys - remaining && a !in known :: r.address + "." + a
      decreases remaining
    {
      ghost var seen := r.values.Keys - remaining;
      var a :| a in remaining;
      remaining := remaining - {a};
      assert r.values.Keys - remaining == seen + {a};
      if a !in known {
        fields := fields + {r.address + "." + a};
      }
    }
  }

  method Walk(g: Graph, m: PlanModule, rd: Reader, unknown: set<string>, fields: set<string>)
    returns (unknown': set<string>, fields': set<string>)
    modifies g
    ensures g.doc == AddedAll(old(g.doc), Planned(m), rd)
    ensures unknown' == unknown + UnknownTypes(Planned(m))
    ensures fields' == fields + UnknownFields(Planned(m))
    decreases m
  {
    hide KnownAttributes, FieldsOf, ElementOf, UnknownTypes, UnknownFields, AddedAll, Added, Planned, PlannedIn;
    unknown', fields' := unknown, fields;
    NothingUnknown();
    AddedNothing(old(g.doc), rd);
    PlannedSplits(m);
    for i := 0 to |m.resources|
      invariant g.doc == AddedAll(old(g.doc), m.resources[..i], rd)
      invariant unknown' == unknown + UnknownTypes(m.resources[..i])
      invariant fields' == fields + UnknownFields(m.resources[..i])
    {
      var r := m.resources[i];
      assert m.resources[..i + 1] == m.resources[..i] + [r];
      UnknownAppend(m.resources[..i], [r]);
      UnknownOfOne(r);
      RecognizedTypesHaveElements(r, rd);
      AddedAllSnoc(old(g.doc), m.resources[..i], r, rd);
      var known := KnownAttributes(r.type_);
      if known.None? {
        unknown' := unknown' + {r.type_};
        continue;
      }
      fields' := UnrecognizedIn(r, known.value, fields');
      Add(g, r, rd);
    }
    assert m.resources[..|m.resources|] == m.resources;
    assert m.children[..0] == [] && m.resources + [] == m.resources;
    for i := 0 to |m.children|
      invariant g.doc == AddedAll(old(g.doc), m.resources + PlannedIn(m.children[..i]), rd)
      invariant unknown' == unknown + UnknownTypes(m.resources + PlannedIn(m.children[..i]))
      invariant fields' == fields + UnknownFields(m.resources + PlannedIn(m.children[..i]))
    {
      var child := m.children[i];
      ghost var before := m.resources + PlannedIn(m.children[..i]);
      PlannedInSnoc(m.children, i);
      assert m.resources + PlannedIn(m.children[..i + 1]) == before + Planned(child);
      UnknownAppend(before, Planned(child));
      AddedAllAppend(old(g.doc), before, Planned(child), rd);
      unknown', fields' := Walk(g, child, rd, unknown', fields');
    }
    assert m.children[..|m.children|] == m.children;
  }

  lemma AddedNothing(d: Document, rd: Reader)
    ensures AddedAll(d, [], rd) == d
  {
  }

  lemma AddedAllSnoc(d: Document, rs: seq<PlanResource>, r: PlanResource, rd: Reader)
    ensures AddedAll(d, rs + [r], rd)
         == match ElementOf(r, rd) case None => AddedAll(d, rs, rd) case Some(e) => Added(AddedAll(d, rs, rd), e)
  {
    hide ElementOf, Added;
    assert (rs + [r])[..|rs|] == rs;
  }

  lemma PlannedSplits(m: PlanModule)
    ensures Planned(m) == m.resources + PlannedIn(m.children) && PlannedIn([]) == []
  {
  }

  lemma NothingUnknown()
    ensures UnknownTypes([]) == {} && UnknownFields([]) == {}
  {
  }

  lemma UnknownOfOne(r: PlanResource)
    ensures UnknownTypes([r]) == if KnownAttributes(r.type_).None? then {r.type_} else {}
    ensures UnknownFields([r]) == FieldsOf(r)
    ensures KnownAttributes(r.type_).None? ==> FieldsOf(r) == {}
  {
    hide KnownAttributes;
    forall f ensures f in UnknownFields([r]) <==> f in FieldsOf(r) { assert r in [r]; }
    forall t ensures t in UnknownTypes([r]) <==> KnownAttributes(r.type_).None? && t == r.type_ { assert r in [r]; }
  }

  method FromPlan(raw: Artifact, segments: seq<Segment>, rd: Reader) returns (g: Graph?)
    ensures g == null <==> DocumentOf(raw, segments, rd).None?
    ensures g != null ==> fresh(g) && Some(g.doc) == DocumentOf(raw, segments, rd)
  {
    if raw.NotJson? {
      return null;
    }
    if raw.formatVersion == "" {
      return null;
    }
    var out := new Graph(SURFACE_IAC_PLAN, segments);
    var types, fields := Walk(out, raw.root, rd, {}, {});
    assert {} + UnknownTypes(Planned(raw.root)) == UnknownTypes(Planned(raw.root));
    assert {} + UnknownFields(Planned(raw.root)) == UnknownFields(Planned(raw.root));
    var typeList := SortedKeys(types);
    var fieldList := SortedKeys(fields);
    out.doc := out.doc.(unknownResourceTypes := typeList, unrecognizedFields := fieldList);
    out.SortAll();
    g := out;
  }

  // ---- Nothing is lost ----------------------------------------------------------------

  function Elements(rs: seq<PlanResource>, rd: Reader): seq<Element> {
    if rs == [] then []
    else
      var before := Elements(rs[..|rs| - 1], rd);
      match ElementOf(rs[|rs| - 1], rd) case None => before case Some(e) => before + [e]
  }

  /** How many planned resources have a type outside the contract. */
  function UnknownCount(rs: seq<PlanResource>): nat {
    if rs == [] then 0
    else UnknownCount(rs[..|rs| - 1]) + if KnownAttributes(rs[|rs| - 1].type_).None? then 1 else 0
  }

  function AsResource(r: Resource): Element { IsResource(r) }
  function AsGrant(g: GrantEntry): Element { IsGrant(g) }
  function AsRule(n: RuleEntry): Element { IsRule(n) }

  /** Everything a document holds, as one list. */
  function Listed(d: Document): seq<Element> {
    Map(AsResource, d.resources) + Map(AsGrant, d.grants) + Map(AsRule, d.networkRules)
  }

  /** How often a document holds an element. */
  ghost function Tally(d: Document, e: Element): nat {
    match e
    case IsResource(r) => multiset(d.resources)[r]
    case IsGrant(g) => multiset(d.grants)[g]
    case IsRule(n) => multiset(d.networkRules)[n]
  }

  lemma {:induction false} MapTally<T(!new)>(f: T -> Element, s: seq<T>)
    requires forall x, y :: f(x) == f(y) ==> x == y
    ensures forall x :: multiset(Map(f, s))[f(x)] == multiset(s)[x]
    ensures forall e :: (forall x :: f(x) != e) ==> multiset(Map(f, s))[e] == 0
  {
    if s != [] {
      var n := |s| - 1;
      MapTally(f, s[..n]);
      assert s == s[..n] + [s[n]];
      assert Map(f, s) == Map(f, s[..n]) + [f(s[n])];
    }
  }

  lemma ListedTally(d: Document, e: Element)
    ensures multiset(Listed(d))[e] == Tally(d, e)
  {
    hide Map;
    MapTally(AsResource, d.resources);
    MapTally(AsGrant, d.grants);
    MapTally(AsRule, d.networkRules);
    var rs, gs, ns := Map(AsResource, d.resources), Map(AsGrant, d.grants), Map(AsRule, d.networkRules);
    assert multiset(rs + gs + ns)[e] == multiset(rs)[e] + multiset(gs)[e] + multiset(ns)[e];
    match e {
      case IsResource(r) => assert e == AsResource(r) && multiset(rs)[AsResource(r)] == multiset(d.resources)[r];
      case IsGrant(g) => assert e == AsGrant(g) && multiset(gs)[AsGrant(g)] == multiset(d.grants)[g];
      case IsRule(n) => assert e == AsRule(n) && multiset(ns)[AsRule(n)] == multiset(d.networkRules)[n];
    }
  }

  predicate Holds(d: Document, e: Element) {
    match e
    case IsResource(r) => r in d.resources
    case IsGrant(g) => g in d.grants
    case IsRule(n) => n in d.networkRules
  }

  lemma TallyHolds(d: Document, e: Element)
    ensures Holds(d, e) <==> Tally(d, e) > 0
  {
  }

  lemma {:induction false} AddedAllTallies(d: Document, rs: seq<PlanResource>, rd: Reader, e: Element)
    ensures Tally(AddedAll(d, rs, rd), e) == Tally(d, e) + multiset(Elements(rs, rd))[e]
  {
    hide ElementOf;
    if rs != [] {
      var n := |rs| - 1;
      AddedAllTallies(d, rs[..n], rd, e);
      if ElementOf(rs[n], rd).Some? {
        AddedTallies(AddedAll(d, rs[..n], rd), ElementOf(rs[n], rd).value, e);
      }
    }
  }

  lemma AddedTallies(d: Document, x: Element, e: Element)
    ensures Tally(Added(d, x), e) == Tally(d, e) + if x == e then 1 else 0
  {
  }

  lemma {:induction false} AddedAllKeepsHeader(d: Document, rs: seq<PlanResource>, rd: Reader)
    ensures AddedAll(d, rs, rd).segments == d.segments && AddedAll(d, rs, rd).contractVersion == d.contractVersion
  {
    hide ElementOf;
    if rs != [] {
      AddedAllKeepsHeader(d, rs[..|rs| - 1], rd);
    }
  }

  /** The elements are those of the resources, one for each of a known type. */
  lemma {:induction false} ElementsMeaning(rs: seq<PlanResource>, rd: Reader)
    ensures |Elements(rs, rd)| + UnknownCount(rs) == |rs|
    ensures forall e :: e in Elements(rs, rd) <==> exists r :: r in rs && ElementOf(r, rd) == Some(e)
  {
    hide ElementOf, KnownAttributes;
    if rs != [] {
      var n := |rs| - 1;
      ElementsMeaning(rs[..n], rd);
      RecognizedTypesHaveElements(rs[n], rd);
      assert rs == rs[..n] + [rs[n]];
      assert forall r :: r in rs <==> r in rs[..n] || r == rs[n];
    }
  }

  lemma OrderedTallies(d: Document, e: Element)
    ensures Tally(Ordered(d), e) == Tally(d, e)
  {
    hide Sort;
    OrderedMeaning(d);
  }

  /** Conservation over the whole tree: the document holds, with multiplicity, exactly one
      element for each planned resource of a known type; every unknown type and attribute is
      listed, nothing else is, and the lists are ascending. */
  lemma NothingLost(raw: Artifact, segments: seq<Segment>, rd: Reader)
    requires DocumentOf(raw, segments, rd).Some?
    ensures
      var d, rs := DocumentOf(raw, segments, rd).value, Planned(raw.root);
      && multiset(Listed(d)) == multiset(Elements(rs, rd))
      && |Listed(d)| + UnknownCount(rs) == |rs|
      && (forall t :: t in d.unknownResourceTypes <==> exists r :: r in rs && r.type_ == t && KnownAttributes(t).None?)
      && (forall f :: f in d.unrecognizedFields <==>
        exists r, a :: r in rs && Strange(r, a) && f == r.address + "." + a)
      && Sorted(d.unknownResourceTypes, Identity, StringLe) && Sorted(d.unrecognizedFields, Identity, StringLe)
  {
    hide AddedAll, Ordered, ElementOf, KnownAttributes, UnknownTypes, UnknownFields, UnknownCount, Listed,
      Elements, Tally, Planned, SortedSet;
    var d, rs := DocumentOf(raw, segments, rd).value, Planned(raw.root);
    var blank := Blank(SURFACE_IAC_PLAN, segments);
    var added := AddedAll(blank, rs, rd);
    var listed := added.(unknownResourceTypes := SortedSet(UnknownTypes(rs)),
      unrecognizedFields := SortedSet(UnknownFields(rs)));
    forall e ensures multiset(Listed(d))[e] == multiset(Elements(rs, rd))[e] {
      ListedTally(d, e);
      OrderedTallies(listed, e);
      SameTally(added, listed, e);
      AddedAllTallies(blank, rs, rd, e);
      NothingInBlank(segments, e);
    }
    assert |Listed(d)| == |multiset(Listed(d))| == |multiset(Elements(rs, rd))| == |Elements(rs, rd)|;
    ElementsMeaning(rs, rd);
    SortedSetMeaning(UnknownTypes(rs));
    SortedSetMeaning(UnknownFields(rs));
    OrderedLists(listed);
    UnknownMeaning(rs);
  }

  /** An attribute that its resource's type does not have, on a type that is known. */
  ghost predicate Strange(r: PlanResource, a: string) {
    KnownAttributes(r.type_).Some? && a in r.values && a !in KnownAttributes(r.type_).value
  }

  lemma UnknownMeaning(rs: seq<PlanResource>)
    ensures forall t :: t in UnknownTypes(rs) <==> exists r :: r in rs && r.type_ == t && KnownAttributes(t).None?
    ensures forall f :: f in UnknownFields(rs) <==> exists r, a :: r in rs && Strange(r, a) && f == r.address + "." + a
  {
    hide KnownAttributes;
    forall f ensures f in UnknownFields(rs) <==> exists r, a :: r in rs && Strange(r, a) && f == r.address + "." + a {
      if f in UnknownFields(rs) {
        var r :| r in rs && f in FieldsOf(r);
        var a :| a in r.values.Keys && a !in KnownAttributes(r.type_).value && f == r.address + "." + a;
        assert Strange(r, a);
      }
      if r, a :| r in rs && Strange(r, a) && f == r.address + "." + a {
        assert f in FieldsOf(r);
      }
    }
  }

  /** The contract's table. What is known of a type is its identifier, what its element is made
      from, and five more: two settings of a bucket, the type and content of an object, and the
      address of a workload. */
  lemma ContractTable(type_: string, a: string)
    ensures KnownAttributes(type_).Some? <==>
      type_ in {"democloud_bucket", "democloud_object", "democloud_grant", "democloud_workload",
                "democloud_network_rule"}
    ensures KnownAttributes(type_).Some? ==>
      (a in KnownAttributes(type_).value <==>
        || a == "id"
        || (type_ in {"democloud_bucket", "democloud_workload"} && a == "name")
        || (type_ == "democloud_bucket" && a in {"encrypted", "log_retention_days"})
        || (type_ == "democloud_object" && a in {"bucket", "key", "content_type", "content_base64"})
        || (type_ == "democloud_grant" &&
            a in {"resource_kind", "resource_name", "principals", "actions", "source_ranges"})
        || (type_ == "democloud_workload" && a in {"address", "ports"})
        || (type_ == "democloud_network_rule" && a in {"workload", "port", "source_ranges"}))
  {
  }

  /** The document says of the tree what its attributes say: each element describes some
      resource in it, and each resource of a known type is described. */
  lemma DocumentDescribesTree(raw: Artifact, segments: seq<Segment>, rd: Reader)
    requires DocumentOf(raw, segments, rd).Some?
    ensures
      var d := DocumentOf(raw, segments, rd).value;
      && (forall e :: Holds(d, e) ==> exists r :: InTree(raw.root, r) && Describes(r, rd, e))
      && (forall r :: InTree(raw.root, r) && KnownAttributes(r.type_).Some? ==>
        exists e :: Holds(d, e) && Describes(r, rd, e))
  {
    hide DocumentOf, ElementOf, Holds, Planned, InTree, Describes, KnownAttributes;
    DocumentsAreTrees(raw, segments, rd);
    var d := DocumentOf(raw, segments, rd).value;
    forall e | Holds(d, e) ensures exists r :: InTree(raw.root, r) && Describes(r, rd, e) {
      HeldIsPlanned(raw, segments, rd, e);
      var r :| r in Planned(raw.root) && ElementOf(r, rd) == Some(e);
      PlannedIsInTree(raw.root, r);
      ElementDescribes(r, rd);
    }
    forall r | InTree(raw.root, r) && KnownAttributes(r.type_).Some?
      ensures exists e :: Holds(d, e) && Describes(r, rd, e)
    {
      PlannedIsInTree(raw.root, r);
      RecognizedTypesHaveElements(r, rd);
      var e := ElementOf(r, rd).value;
      HeldIsPlanned(raw, segments, rd, e);
      ElementDescribes(r, rd);
    }
  }

  lemma DocumentsAreTrees(raw: Artifact, segments: seq<Segment>, rd: Reader)
    ensures DocumentOf(raw, segments, rd).Some? <==> raw.PlanDocument? && raw.formatVersion != ""
  {
  }

  /** In particular, element by element. */
  lemma HeldIsPlanned(raw: Artifact, segments: seq<Segment>, rd: Reader, e: Element)
    requires DocumentOf(raw, segments, rd).Some?
    ensures Holds(DocumentOf(raw, segments, rd).value, e) <==>
      exists r :: r in Planned(raw.root) && ElementOf(r, rd) == Some(e)
  {
    hide AddedAll, Ordered, SortedSet, UnknownTypes, UnknownFields, ElementOf, Listed, Elements, Tally, Holds,
      Planned;
    var d, rs := DocumentOf(raw, segments, rd).value, Planned(raw.root);
    NothingLost(raw, segments, rd);
    ListedTally(d, e);
    TallyHolds(d, e);
    ElementsMeaning(rs, rd);
    assert e in multiset(Elements(rs, rd)) <==> e in Elements(rs, rd);
  }

  lemma NothingInBlank(segments: seq<Segment>, e: Element)
    ensures Tally(Blank(SURFACE_IAC_PLAN, segments), e) == 0
  {
  }

  lemma SameTally(a: Document, b: Document, e: Element)
    requires a.resources == b.resources && a.grants == b.grants && a.networkRules == b.networkRules
    ensures Tally(a, e) == Tally(b, e)
  {
  }

  lemma OrderedLists(d: Document)
    ensures Ordered(d).unknownResourceTypes == d.unknownResourceTypes
    ensures Ordered(d).unrecognizedFields == d.unrecognizedFields
    ensures Ordered(d).contractVersion == d.contractVersion
  {
  }

  /** So an admission vouches for the whole tree: every type and every attribute in it was
      recognized. */
  lemma AdmittedPlansAreRecognized(raw: Artifact, segments: seq<Segment>, rd: Reader, allow: Policy.Allowlist)
    requires DocumentOf(raw, segments, rd).Some?
    requires Policy.Admits(DocumentOf(raw, segments, rd).value, allow)
    ensures forall r :: r in Planned(raw.root) ==>
      KnownAttributes(r.type_).Some? && r.values.Keys <= KnownAttributes(r.type_).value
  {
    hide Policy.Admits, Policy.Conflicts, KnownAttributes, Planned, Ordered, AddedAll, SortedSet;
    var d, rs := DocumentOf(raw, segments, rd).value, Planned(raw.root);
    NothingLost(raw, segments, rd);
    Policy.AdmitsMeaning(d, allow);
    forall r | r in rs ensures KnownAttributes(r.type_).Some? && r.values.Keys <= KnownAttributes(r.type_).value {
      assert KnownAttributes(r.type_).None? ==> r.type_ in d.unknownResourceTypes;
      forall a | a in r.values.Keys ensures a in KnownAttributes(r.type_).value {
        assert Strange(r, a) ==> r.address + "." + a in d.unrecognizedFields;
      }
    }
  }
}
