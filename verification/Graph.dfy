/** Documents, which the policy decides, and the construction of one from a state. */
module Graph {
  import opened Cidr
  import opened Platform
  import Order

  const CONTRACT_VERSION := "1"
  const SURFACE_IAC_PLAN := "iac-plan"
  const SURFACE_PLATFORM_STATE := "platform-state"

  /** A decoded attribute value of a plan. */
  datatype Value =
    | Text(text: string)
    | Number(number: real)
    | List(items: seq<Value>)
    | Record(fields: map<string, Value>)
    | OtherValue

  datatype Resource = Resource(kind: string, name: string, address: string,
                               ports: seq<Port>, attributes: map<string, Value>)

  datatype GrantEntry = GrantEntry(grant: Grant, address: string)

  datatype RuleEntry = RuleEntry(rule: NetworkRule, address: string)

  /** One document: everything the policy may look at besides the allowlist. */
  datatype Document = Document(
    contractVersion: string,
    surface: string,
    segments: seq<Segment>,
    resources: seq<Resource>,
    grants: seq<GrantEntry>,
    networkRules: seq<RuleEntry>,
    unknownResourceTypes: seq<string>,
    unrecognizedFields: seq<string>)

  function AddressOf(r: Resource): string { r.address }
  function GrantId(g: GrantEntry): string { g.grant.id }
  function RuleId(r: RuleEntry): string { r.rule.id }
  function SegmentName(s: Segment): string { s.name }

  /** A document with its four collections in canonical order. */
  function Ordered(d: Document): Document {
    d.(resources := Order.Sort(d.resources, AddressOf, Order.StringLe),
       grants := Order.Sort(d.grants, GrantId, Order.StringLe),
       networkRules := Order.Sort(d.networkRules, RuleId, Order.StringLe),
       segments := Order.Sort(d.segments, SegmentName, Order.StringLe))
  }

  function Blank(surface: string, segments: seq<Segment>): Document {
    Document(CONTRACT_VERSION, surface, segments, [], [], [], [], [])
  }

  /** The graph under construction: an object its normalizers append to and sort. */
  class Graph {
    var doc: Document

    constructor (surface: string, segments: seq<Segment>)
      ensures doc == Blank(surface, segments)
    {
      doc := Blank(surface, segments);
    }

    method SortAll()
      modifies this
      ensures doc == Ordered(old(doc))
    {
      doc := doc.(resources := Order.Sort(doc.resources, AddressOf, Order.StringLe));
      doc := doc.(grants := Order.Sort(doc.grants, GrantId, Order.StringLe));
      doc := doc.(networkRules := Order.Sort(doc.networkRules, RuleId, Order.StringLe));
      doc := doc.(segments := Order.Sort(doc.segments, SegmentName, Order.StringLe));
    }
  }

  lemma OrderedMeaning(d: Document)
    ensures forall x :: x in Ordered(d).resources <==> x in d.resources
    ensures forall x :: x in Ordered(d).grants <==> x in d.grants
    ensures forall x :: x in Ordered(d).networkRules <==> x in d.networkRules
    ensures forall x :: x in Ordered(d).segments <==> x in d.segments
    ensures multiset(Ordered(d).resources) == multiset(d.resources)
    ensures multiset(Ordered(d).grants) == multiset(d.grants)
    ensures multiset(Ordered(d).networkRules) == multiset(d.networkRules)
    ensures multiset(Ordered(d).segments) == multiset(d.segments)
    ensures Order.Sorted(Ordered(d).resources, AddressOf, Order.StringLe)
    ensures Order.Sorted(Ordered(d).grants, GrantId, Order.StringLe)
    ensures Order.Sorted(Ordered(d).networkRules, RuleId, Order.StringLe)
    ensures Order.Sorted(Ordered(d).segments, SegmentName, Order.StringLe)
  {
    Order.StringOrder();
    Order.SortKeepsMembers(d.resources, AddressOf, Order.StringLe);
    Order.SortKeepsMembers(d.grants, GrantId, Order.StringLe);
    Order.SortKeepsMembers(d.networkRules, RuleId, Order.StringLe);
    Order.SortKeepsMembers(d.segments, SegmentName, Order.StringLe);
    Order.SortPermutes(d.resources, AddressOf, Order.StringLe);
    Order.SortPermutes(d.grants, GrantId, Order.StringLe);
    Order.SortPermutes(d.networkRules, RuleId, Order.StringLe);
    Order.SortPermutes(d.segments, SegmentName, Order.StringLe);
    Order.SortSorted(d.resources, AddressOf, Order.StringLe);
    Order.SortSorted(d.grants, GrantId, Order.StringLe);
    Order.SortSorted(d.networkRules, RuleId, Order.StringLe);
    Order.SortSorted(d.segments, SegmentName, Order.StringLe);
  }

  // ---- Live platform state ------------------------------------------------------------

  function BucketResource(b: Bucket): Resource {
    Resource("bucket", b.name, "platform/bucket/" + b.name, [], map["name" := Text(b.name)])
  }

  function ObjectResource(o: Object): Resource {
    var name := o.bucket + "/" + o.key;
    Resource("object", name, "platform/object/" + name, [], map[])
  }

  function WorkloadResource(w: Workload): Resource {
    Resource("workload", w.name, "platform/workload/" + w.name, w.ports, map[])
  }

  function LiveGrant(g: Grant): GrantEntry {
    GrantEntry(g, "platform/grant/" + g.id)
  }

  function LiveRule(r: NetworkRule): RuleEntry {
    RuleEntry(r, "platform/network_rule/" + r.id)
  }

  function Map<A, B>(f: A -> B, s: seq<A>): (r: seq<B>)
    ensures |r| == |s|
    ensures forall i :: 0 <= i < |s| ==> r[i] == f(s[i])
  {
    seq(|s|, i requires 0 <= i < |s| => f(s[i]))
  }

  lemma MapSnoc<A, B>(f: A -> B, s: seq<A>, i: nat)
    requires i < |s|
    ensures Map(f, s[..i + 1]) == Map(f, s[..i]) + [f(s[i])]
  {
  }

  /** What live state is in the contract: every element once, nothing else, in order. */
  function LiveDocument(st: State, segments: seq<Segment>): Document {
    Ordered(Blank(SURFACE_PLATFORM_STATE, segments).(
      resources := Map(BucketResource, st.buckets) + Map(ObjectResource, st.objects)
        + Map(WorkloadResource, st.workloads),
      grants := Map(LiveGrant, st.grants),
      networkRules := Map(LiveRule, st.networkRules)))
  }

  method FromPlatformState(st: State, segments: seq<Segment>) returns (g: Graph?)
    ensures g == null <==> |st.buckets| == 0 && |st.workloads| == 0
    ensures g != null ==> fresh(g) && g.doc == LiveDocument(st, segments)
  {
    if |st.buckets| == 0 && |st.workloads| == 0 {
      return null;
    }
    var out := new Graph(SURFACE_PLATFORM_STATE, segments);
    ghost var blank := Blank(SURFACE_PLATFORM_STATE, segments);
    for i := 0 to |st.buckets|
      invariant out.doc == blank.(resources := Map(BucketResource, st.buckets[..i]))
    {
      MapSnoc(BucketResource, st.buckets, i);
      out.doc := out.doc.(resources := out.doc.resources + [BucketResource(st.buckets[i])]);
    }
    ghost var buckets := Map(BucketResource, st.buckets);
    assert st.buckets[..|st.buckets|] == st.buckets;
    for i := 0 to |st.objects|
      invariant out.doc == blank.(resources := buckets + Map(ObjectResource, st.objects[..i]))
    {
      MapSnoc(ObjectResource, st.objects, i);
      out.doc := out.doc.(resources := out.doc.resources + [ObjectResource(st.objects[i])]);
    }
    ghost var objects := Map(ObjectResource, st.objects);
    assert st.objects[..|st.objects|] == st.objects;
    for i := 0 to |st.workloads|
      invariant out.doc == blank.(resources := buckets + objects + Map(WorkloadResource, st.workloads[..i]))
    {
      var w := st.workloads[i];
      var ports: seq<Port> := [];
      for j := 0 to |w.ports|
        invariant ports == w.ports[..j]
      {
        ports := ports + [w.ports[j]];
      }
      assert w.ports[..|w.ports|] == w.ports;
      MapSnoc(WorkloadResource, st.workloads, i);
      out.doc := out.doc.(resources := out.doc.resources
        + [Resource("workload", w.name, "platform/workload/" + w.name, ports, map[])]);
    }
    assert st.workloads[..|st.workloads|] == st.workloads;
    ghost var resources := buckets + objects + Map(WorkloadResource, st.workloads);
    for i := 0 to |st.grants|
      invariant out.doc == blank.(resources := resources, grants := Map(LiveGrant, st.grants[..i]))
    {
      MapSnoc(LiveGrant, st.grants, i);
      out.doc := out.doc.(grants := out.doc.grants + [LiveGrant(st.grants[i])]);
    }
    assert st.grants[..|st.grants|] == st.grants;
    ghost var grants := Map(LiveGrant, st.grants);
    for i := 0 to |st.networkRules|
      invariant out.doc == blank.(resources := resources, grants := grants,
                                  networkRules := Map(LiveRule, st.networkRules[..i]))
    {
      MapSnoc(LiveRule, st.networkRules, i);
      out.doc := out.doc.(networkRules := out.doc.networkRules + [LiveRule(st.networkRules[i])]);
    }
    assert st.networkRules[..|st.networkRules|] == st.networkRules;
    out.SortAll();
    g := out;
  }

  lemma MapMembers<A, B>(f: A -> B, s: seq<A>)
    ensures forall y :: y in Map(f, s) <==> exists i :: 0 <= i < |s| && f(s[i]) == y
  {
  }

  /** The live document holds one element for each of the state's, and the given segments,
      all with their multiplicity. */
  lemma LiveDocumentContents(st: State, segments: seq<Segment>)
    ensures
      var d := LiveDocument(st, segments);
      && multiset(d.resources)
         == multiset(Map(BucketResource, st.buckets)) + multiset(Map(ObjectResource, st.objects))
            + multiset(Map(WorkloadResource, st.workloads))
      && multiset(d.grants) == multiset(Map(LiveGrant, st.grants))
      && multiset(d.networkRules) == multiset(Map(LiveRule, st.networkRules))
      && multiset(d.segments) == multiset(segments)
      && |d.resources| == |st.buckets| + |st.objects| + |st.workloads|
  {
    hide Order.Sort;
    var raw := Blank(SURFACE_PLATFORM_STATE, segments).(
      resources := Map(BucketResource, st.buckets) + Map(ObjectResource, st.objects)
        + Map(WorkloadResource, st.workloads),
      grants := Map(LiveGrant, st.grants),
      networkRules := Map(LiveRule, st.networkRules));
    OrderedMeaning(raw);
    Order.SortPermutes(raw.resources, AddressOf, Order.StringLe);
  }

  /** The live document declares exactly the state's buckets, objects, workloads, grants
      and rules, and the segments it was given. */
  lemma LiveDocumentMembers(st: State, segments: seq<Segment>)
    ensures forall r :: r in LiveDocument(st, segments).resources <==>
      || (exists i :: 0 <= i < |st.buckets| && BucketResource(st.buckets[i]) == r)
      || (exists i :: 0 <= i < |st.objects| && ObjectResource(st.objects[i]) == r)
      || (exists i :: 0 <= i < |st.workloads| && WorkloadResource(st.workloads[i]) == r)
    ensures forall g :: g in st.grants <==> LiveGrant(g) in LiveDocument(st, segments).grants
    ensures forall e :: e in LiveDocument(st, segments).grants ==> e == LiveGrant(e.grant) && e.grant in st.grants
    ensures forall r :: r in st.networkRules <==> LiveRule(r) in LiveDocument(st, segments).networkRules
    ensures forall e :: e in LiveDocument(st, segments).networkRules ==>
      e == LiveRule(e.rule) && e.rule in st.networkRules
    ensures forall s :: s in LiveDocument(st, segments).segments <==> s in segments
  {
    hide Order.Sort;
    var raw := Blank(SURFACE_PLATFORM_STATE, segments).(
      resources := Map(BucketResource, st.buckets) + Map(ObjectResource, st.objects)
        + Map(WorkloadResource, st.workloads),
      grants := Map(LiveGrant, st.grants),
      networkRules := Map(LiveRule, st.networkRules));
    OrderedMeaning(raw);
    MapMembers(BucketResource, st.buckets);
    MapMembers(ObjectResource, st.objects);
    MapMembers(WorkloadResource, st.workloads);
    MapMembers(LiveGrant, st.grants);
    MapMembers(LiveRule, st.networkRules);
    forall g | g in st.grants ensures LiveGrant(g) in raw.grants {
      var i :| 0 <= i < |st.grants| && st.grants[i] == g;
    }
    forall r | r in st.networkRules ensures LiveRule(r) in raw.networkRules {
      var i :| 0 <= i < |st.networkRules| && st.networkRules[i] == r;
    }
  }

  // ---- The same, element by element ---------------------------------------------------

  ghost predicate StandsForBucket(r: Resource, b: Bucket) {
    && r.kind == "bucket" && r.name == b.name && r.address == "platform/bucket/" + b.name
    && r.ports == [] && r.attributes == map["name" := Text(b.name)]
  }

  ghost predicate StandsForObject(r: Resource, o: Object) {
    && r.kind == "object" && r.name == o.bucket + "/" + o.key
    && r.address == "platform/object/" + (o.bucket + "/" + o.key) && r.ports == [] && r.attributes == map[]
  }

  ghost predicate StandsForWorkload(r: Resource, w: Workload) {
    && r.kind == "workload" && r.name == w.name && r.address == "platform/workload/" + w.name
    && r.ports == w.ports && r.attributes == map[]
  }

  /** What a live document says of each element: its kind, name and address, the ports of a
      workload, and grants and rules as they are; with the header of the live surface and
      nothing unrecognized, ordered by address and by identifier. */
  lemma LiveDocumentSays(st: State, segments: seq<Segment>)
    ensures
      var d := LiveDocument(st, segments);
      && d.contractVersion == "1" && d.surface == "platform-state"
      && d.unknownResourceTypes == [] && d.unrecognizedFields == []
      && (forall r :: r in d.resources <==>
            || (exists b :: b in st.buckets && StandsForBucket(r, b))
            || (exists o :: o in st.objects && StandsForObject(r, o))
            || (exists w :: w in st.workloads && StandsForWorkload(r, w)))
      && (forall e :: e in d.grants <==> e.grant in st.grants && e.address == "platform/grant/" + e.grant.id)
      && (forall e :: e in d.networkRules <==>
            e.rule in st.networkRules && e.address == "platform/network_rule/" + e.rule.id)
      && (forall i, j :: 0 <= i < j < |d.resources| ==> Order.StringLe(d.resources[i].address, d.resources[j].address))
      && (forall i, j :: 0 <= i < j < |d.grants| ==> Order.StringLe(d.grants[i].grant.id, d.grants[j].grant.id))
      && (forall i, j :: 0 <= i < j < |d.networkRules| ==>
            Order.StringLe(d.networkRules[i].rule.id, d.networkRules[j].rule.id))
  {
    hide Order.Sort, Order.StringLe, Map;
    LiveDocumentMembers(st, segments);
    OrderedMeaning(Blank(SURFACE_PLATFORM_STATE, segments).(
      resources := Map(BucketResource, st.buckets) + Map(ObjectResource, st.objects)
        + Map(WorkloadResource, st.workloads),
      grants := Map(LiveGrant, st.grants),
      networkRules := Map(LiveRule, st.networkRules)));
    var d := LiveDocument(st, segments);
    forall r | r in d.resources
      ensures
        || (exists b :: b in st.buckets && StandsForBucket(r, b))
        || (exists o :: o in st.objects && StandsForObject(r, o))
        || (exists w :: w in st.workloads && StandsForWorkload(r, w))
    {
      if i :| 0 <= i < |st.buckets| && BucketResource(st.buckets[i]) == r {
        assert st.buckets[i] in st.buckets && StandsForBucket(r, st.buckets[i]);
      } else if i :| 0 <= i < |st.objects| && ObjectResource(st.objects[i]) == r {
        assert st.objects[i] in st.objects && StandsForObject(r, st.objects[i]);
      } else {
        var i :| 0 <= i < |st.workloads| && WorkloadResource(st.workloads[i]) == r;
        assert st.workloads[i] in st.workloads && StandsForWorkload(r, st.workloads[i]);
      }
    }
    forall r, b | b in st.buckets && StandsForBucket(r, b) ensures r in d.resources {
      assert r == BucketResource(b);
    }
    forall r, o | o in st.objects && StandsForObject(r, o) ensures r in d.resources {
      assert r == ObjectResource(o);
    }
    forall r, w | w in st.workloads && StandsForWorkload(r, w) ensures r in d.resources {
      assert r == WorkloadResource(w);
    }
  }
}
