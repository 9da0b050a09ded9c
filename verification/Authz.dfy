/** Request-time authorization: effective grants, effective ingress and bind reach, as
    functions over intervals, and the loops that compute them on address sets. */
module Authz {
  import opened Options
  import opened Cidr
  import opened Intervals
  import opened NetSet
  import opened Platform

  datatype Reason =
    | Allowed
    | NoGrant
    | NoRule
    | BindUnreachable
    | UnknownSegment
    | NotFound
    | Unparsable

  datatype Decision = Decision(allowed: bool, reason: Reason, rule: string)

  function Deny(reason: Reason): Decision {
    Decision(false, reason, "")
  }

  // ---- Grants -------------------------------------------------------------------------

  predicate Names(g: Grant, kind: string, name: string, action: string) {
    g.resourceKind == kind && g.resourceName == name && action in g.actions
  }

  /** What one grant contributes, as values. */
  datatype Reach = Reach(principals: seq<string>, sources: seq<Interval>, rule: string)

  function EffectiveGrantsOf(grants: seq<Grant>, kind: string, name: string, action: string): Option<seq<Reach>> {
    if grants == [] then Some([])
    else
      var n := |grants| - 1;
      var g := grants[n];
      match EffectiveGrantsOf(grants[..n], kind, name, action)
      case None => None
      case Some(front) =>
        if !Names(g, kind, name, action) then Some(front)
        else match ParseAll(g.sourceRanges)
          case None => None
          case Some(ivs) => Some(front + [Reach(g.principals, ivs, g.id)])
  }

  /** The computation fails exactly when a grant that applies is malformed, and otherwise
      lists, grant by grant, who is admitted from where. */
  lemma {:induction false} EffectiveGrantsMeaning(grants: seq<Grant>, kind: string, name: string, action: string)
    ensures EffectiveGrantsOf(grants, kind, name, action).Some?
       <==> forall g :: g in grants && Names(g, kind, name, action) ==> AllBlocks(g.sourceRanges)
    ensures EffectiveGrantsOf(grants, kind, name, action).Some? ==>
      forall e :: e in EffectiveGrantsOf(grants, kind, name, action).value <==>
        exists g :: g in grants && Names(g, kind, name, action) && AllBlocks(g.sourceRanges)
          && e == Reach(g.principals, ParseAll(g.sourceRanges).value, g.id)
  {
    if grants != [] {
      var n := |grants| - 1;
      EffectiveGrantsMeaning(grants[..n], kind, name, action);
      assert grants == grants[..n] + [grants[n]];
      assert forall g :: g in grants <==> g in grants[..n] || g == grants[n];
    }
  }

  /** Some grant for the resource and action admits the principal from the address. */
  ghost predicate GrantAdmits(grants: seq<Grant>, kind: string, name: string, action: string,
                              who: set<string>, a: Address) {
    exists g :: g in grants && Names(g, kind, name, action)
      && (exists p :: p in who && p in g.principals)
      && a.V4? && RangesCover(g.sourceRanges, a.addr)
  }

  predicate Matches(e: Reach, who: seq<string>, a: Address) {
    (exists i :: 0 <= i < |who| && who[i] in e.principals) && CoversAddress(e.sources, a)
  }

  /** The grant-by-grant search, as an existence statement about the grants. */
  lemma SearchMeaning(grants: seq<Grant>, kind: string, name: string, action: string, who: seq<string>, a: Address)
    requires EffectiveGrantsOf(grants, kind, name, action).Some?
    ensures (exists e :: e in EffectiveGrantsOf(grants, kind, name, action).value && Matches(e, who, a))
       <==> GrantAdmits(grants, kind, name, action, (set p | p in who), a)
  {
    EffectiveGrantsMeaning(grants, kind, name, action);
    var es := EffectiveGrantsOf(grants, kind, name, action).value;
    var people := set p | p in who;
    if e :| e in es && Matches(e, who, a) {
      var g :| g in grants && Names(g, kind, name, action) && AllBlocks(g.sourceRanges)
        && e == Reach(g.principals, ParseAll(g.sourceRanges).value, g.id);
      ParseAllMeaning(g.sourceRanges);
      var i :| 0 <= i < |who| && who[i] in e.principals;
      assert who[i] in people && who[i] in g.principals;
    }
    if GrantAdmits(grants, kind, name, action, people, a) {
      var g :| g in grants && Names(g, kind, name, action)
        && (exists p :: p in people && p in g.principals) && a.V4? && RangesCover(g.sourceRanges, a.addr);
      ParseAllMeaning(g.sourceRanges);
      var p :| p in people && p in g.principals;
      var i :| 0 <= i < |who| && who[i] == p;
      var e := Reach(g.principals, ParseAll(g.sourceRanges).value, g.id);
      assert e in es && Matches(e, who, a);
    }
  }

  /** One grant's contribution on an address set. */
  datatype Exposure = Exposure(principals: seq<string>, sources: Set, rule: string)

  ghost predicate Shows(out: seq<Exposure>, spec: seq<Reach>)
    reads set e | e in out :: e.sources
  {
    && |out| == |spec|
    && forall i :: 0 <= i < |out| ==>
      Reach(out[i].principals, out[i].sources.intervals, out[i].rule) == spec[i]
  }

  method EffectiveGrants(grants: seq<Grant>, kind: string, name: string, action: string)
    returns (r: Option<seq<Exposure>>)
    ensures r.Some? <==> EffectiveGrantsOf(grants, kind, name, action).Some?
    ensures r.Some? ==> Shows(r.value, EffectiveGrantsOf(grants, kind, name, action).value)
    ensures r.Some? ==> forall e :: e in r.value ==> fresh(e.sources)
  {
    var out: seq<Exposure> := [];
    for i := 0 to |grants|
      invariant EffectiveGrantsOf(grants[..i], kind, name, action).Some?
      invariant Shows(out, EffectiveGrantsOf(grants[..i], kind, name, action).value)
      invariant forall e :: e in out ==> fresh(e.sources)
    {
      var g := grants[i];
      assert grants[..i + 1][..i] == grants[..i] && grants[..i + 1][i] == g;
      if g.resourceKind != kind || g.resourceName != name {
        continue;
      }
      if action !in g.actions {
        continue;
      }
      var s := Set.Parse(g.sourceRanges);
      if s == null {
        ParseAllMeaning(g.sourceRanges);
        FailureIsFinal(grants, i + 1, kind, name, action);
        return None;
      }
      out := out + [Exposure(g.principals, s, g.id)];
    }
    assert grants[..|grants|] == grants;
    return Some(out);
  }

  lemma FailureIsFinal(grants: seq<Grant>, i: nat, kind: string, name: string, action: string)
    requires i <= |grants| && EffectiveGrantsOf(grants[..i], kind, name, action).None?
    ensures EffectiveGrantsOf(grants, kind, name, action).None?
    decreases |grants| - i
  {
    if i < |grants| {
      assert grants[..i + 1][..i] == grants[..i];
      FailureIsFinal(grants, i + 1, kind, name, action);
    } else {
      assert grants[..i] == grants;
    }
  }

  // ---- Bind reach ---------------------------------------------------------------------

  predicate IsLoopback(a: Addr) {
    InRange(Block(0x7F00_0000, 8), a)
  }

  /** The first declared segment that contains the address; undefined when a malformed
      segment comes before it. */
  function SegmentReach(a: Addr, segments: seq<Segment>): Option<seq<Interval>> {
    if segments == [] then Some([])
    else match ParseAll([segments[0].cidr])
      case None => None
      case Some(ivs) => if Covers(ivs, a) then Some(ivs) else SegmentReach(a, segments[1..])
  }

  function BindReachOf(bind: Bind, segments: seq<Segment>): Option<seq<Interval>> {
    match bind
    case NoAddress(_) => None
    case Ip(a) =>
      if IsLoopback(a) then Some([])
      else if a == 0 then Some([Interval(0, 0xFFFF_FFFF)])
      else SegmentReach(a, segments)
  }

  lemma {:induction false} SegmentReachMeaning(a: Addr, segments: seq<Segment>)
    ensures SegmentReach(a, segments).Some? ==> Normal(SegmentReach(a, segments).value)
    ensures SegmentReach(a, segments).Some? && SegmentReach(a, segments).value != [] ==>
      exists i :: 0 <= i < |segments| && InRange(segments[i].cidr, a)
        && (forall j :: 0 <= j < i ==> segments[j].cidr.Block? && !InRange(segments[j].cidr, a))
        && forall v: int :: Covers(SegmentReach(a, segments).value, v) <==> InRange(segments[i].cidr, v)
    ensures SegmentReach(a, segments) == Some([]) ==>
      forall i :: 0 <= i < |segments| ==> segments[i].cidr.Block? && !InRange(segments[i].cidr, a)
  {
    if segments != [] {
      var rs := [segments[0].cidr];
      ParseAllMeaning(rs);
      assert forall v: int :: RangesCover(rs, v) <==> InRange(rs[0], v);
      if AllBlocks(rs) && !InRange(rs[0], a) {
        var rest := segments[1..];
        SegmentReachMeaning(a, rest);
        if SegmentReach(a, rest).Some? && SegmentReach(a, rest).value != [] {
          var i :| 0 <= i < |rest| && InRange(rest[i].cidr, a)
            && (forall j :: 0 <= j < i ==> rest[j].cidr.Block? && !InRange(rest[j].cidr, a))
            && forall v: int :: Covers(SegmentReach(a, rest).value, v) <==> InRange(rest[i].cidr, v);
          assert segments[i + 1] == rest[i];
          forall j | 0 <= j < i + 1 ensures segments[j].cidr.Block? && !InRange(segments[j].cidr, a) {
            assert j > 0 ==> segments[j] == rest[j - 1];
          }
        }
        if SegmentReach(a, rest) == Some([]) {
          forall i | 0 <= i < |segments| ensures segments[i].cidr.Block? && !InRange(segments[i].cidr, a) {
            assert i > 0 ==> segments[i] == rest[i - 1];
          }
        }
      }
    }
  }

  method BindReach(bind: Bind, segments: seq<Segment>) returns (r: Set?)
    ensures r == null <==> BindReachOf(bind, segments).None?
    ensures r != null ==> fresh(r) && Some(r.intervals) == BindReachOf(bind, segments) && Normal(r.intervals)
  {
    if bind.NoAddress? {
      return null;
    }
    if IsLoopback(bind.addr) {
      r := Set.Empty();
      return;
    }
    if bind.addr == 0 {
      r := Set.All();
      return;
    }
    for i := 0 to |segments|
      invariant SegmentReach(bind.addr, segments) == SegmentReach(bind.addr, segments[i..])
    {
      assert segments[i..][1..] == segments[i + 1..];
      var s := Set.Parse([segments[i].cidr]);
      ParseAllMeaning([segments[i].cidr]);
      if s == null {
        return null;
      }
      var inside := Set.Contains(s, V4(bind.addr));
      if inside {
        return s;
      }
    }
    // SegmentReach is Some([]) here: the loop passed every segment.
    r := Set.Empty();
  }

  // ---- Ingress ------------------------------------------------------------------------

  predicate Permits(r: NetworkRule, workload: string, port: string) {
    r.workload == workload && r.port == port
  }

  function Joined(rule: string, id: string): string {
    if rule == "" then id else rule + "+" + id
  }

  /** Fold of the rules that name the port: one coverage, and their identifiers joined. */
  function PermittedOf(rules: seq<NetworkRule>, workload: string, port: string): Option<(seq<Interval>, string)> {
    if rules == [] then Some(([], ""))
    else
      var n := |rules| - 1;
      match PermittedOf(rules[..n], workload, port)
      case None => None
      case Some((front, rule)) =>
        if !Permits(rules[n], workload, port) then Some((front, rule))
        else match ParseAll(rules[n].sourceRanges)
          case None => None
          case Some(ivs) => Some((UnionOf(front, ivs), Joined(rule, rules[n].id)))
  }

  ghost predicate RuleAdmits(rules: seq<NetworkRule>, workload: string, port: string, v: int) {
    exists r :: r in rules && Permits(r, workload, port) && RangesCover(r.sourceRanges, v)
  }

  lemma {:induction false} PermittedMeaning(rules: seq<NetworkRule>, workload: string, port: string)
    ensures PermittedOf(rules, workload, port).Some?
       <==> forall r :: r in rules && Permits(r, workload, port) ==> AllBlocks(r.sourceRanges)
    ensures PermittedOf(rules, workload, port).Some? ==>
      && Normal(PermittedOf(rules, workload, port).value.0)
      && forall v: int :: Covers(PermittedOf(rules, workload, port).value.0, v) <==>
        RuleAdmits(rules, workload, port, v)
  {
    if rules != [] {
      var n := |rules| - 1;
      PermittedMeaning(rules[..n], workload, port);
      assert rules == rules[..n] + [rules[n]];
      assert forall r :: r in rules <==> r in rules[..n] || r == rules[n];
      if PermittedOf(rules, workload, port).Some? {
        forall v: int ensures RuleAdmits(rules, workload, port, v) <==>
          RuleAdmits(rules[..n], workload, port, v)
          || (Permits(rules[n], workload, port) && RangesCover(rules[n].sourceRanges, v)) {
        }
        if Permits(rules[n], workload, port) {
          ParseAllMeaning(rules[n].sourceRanges);
          UnionIsPointwise(PermittedOf(rules[..n], workload, port).value.0, ParseAll(rules[n].sourceRanges).value);
        }
      }
    }
  }

  function EffectiveIngressOf(rules: seq<NetworkRule>, w: Workload, p: Port, segments: seq<Segment>)
    : Option<(seq<Interval>, string)>
  {
    match PermittedOf(rules, w.name, p.name)
    case None => None
    case Some((permitted, rule)) =>
      match BindReachOf(p.bind, segments)
      case None => None
      case Some(reach) => Some((IntersectOf(permitted, reach), rule))
  }

  method EffectiveIngress(rules: seq<NetworkRule>, w: Workload, p: Port, segments: seq<Segment>)
    returns (s: Set?, rule: string)
    ensures s == null <==> EffectiveIngressOf(rules, w, p, segments).None?
    ensures s != null ==> fresh(s) && Some((s.intervals, rule)) == EffectiveIngressOf(rules, w, p, segments)
  {
    var permitted := Set.Empty();
    rule := "";
    for i := 0 to |rules|
      invariant fresh(permitted) && Normal(permitted.intervals)
      invariant PermittedOf(rules[..i], w.name, p.name) == Some((permitted.intervals, rule))
    {
      var r := rules[i];
      assert rules[..i + 1][..i] == rules[..i] && rules[..i + 1][i] == r;
      if r.workload != w.name || r.port != p.name {
        continue;
      }
      var parsed := Set.Parse(r.sourceRanges);
      if parsed == null {
        ParseAllMeaning(r.sourceRanges);
        MalformedRuleIsFinal(rules, i + 1, w.name, p.name);
        return null, "";
      }
      permitted := Set.Union(permitted, parsed);
      if rule == "" {
        rule := r.id;
      } else {
        rule := rule + "+" + r.id;
      }
    }
    assert rules[..|rules|] == rules;
    var reach := BindReach(p.bind, segments);
    if reach == null {
      return null, "";
    }
    s := Set.Intersect(permitted, reach);
  }

  lemma MalformedRuleIsFinal(rules: seq<NetworkRule>, i: nat, workload: string, port: string)
    requires i <= |rules| && PermittedOf(rules[..i], workload, port).None?
    ensures PermittedOf(rules, workload, port).None?
    decreases |rules| - i
  {
    if i < |rules| {
      assert rules[..i + 1][..i] == rules[..i];
      MalformedRuleIsFinal(rules, i + 1, workload, port);
    } else {
      assert rules[..i] == rules;
    }
  }

  // ---- Object reads -------------------------------------------------------------------

  predicate HoldsObject(st: State, bucket: string, key: string) {
    exists i :: 0 <= i < |st.objects| && st.objects[i].bucket == bucket && st.objects[i].key == key
  }

  ghost predicate AdmitsRead(g: Grant, bucket: string, c: Caller) {
    && g.resourceKind == "bucket" && g.resourceName == bucket && "read" in g.actions
    && (PrincipalOf(c) in g.principals || "*" in g.principals)
    && c.addr.V4? && RangesCover(g.sourceRanges, c.addr.addr)
  }

  ghost predicate FirstReader(grants: seq<Grant>, bucket: string, c: Caller, i: int) {
    && 0 <= i < |grants| && AdmitsRead(grants[i], bucket, c)
    && forall j :: 0 <= j < i ==> !AdmitsRead(grants[j], bucket, c)
  }

  /** Among what the grants contribute, the first match stems from the first grant that admits. */
  lemma {:induction false} FirstMatch(grants: seq<Grant>, bucket: string, c: Caller, i: nat)
    requires EffectiveGrantsOf(grants, KIND_BUCKET, bucket, ACTION_READ).Some?
    requires
      var es := EffectiveGrantsOf(grants, KIND_BUCKET, bucket, ACTION_READ).value;
      && i < |es| && Matches(es[i], [PrincipalOf(c), ANONYMOUS], c.addr)
      && forall j :: 0 <= j < i ==> !Matches(es[j], [PrincipalOf(c), ANONYMOUS], c.addr)
    ensures
      var es := EffectiveGrantsOf(grants, KIND_BUCKET, bucket, ACTION_READ).value;
      exists k :: FirstReader(grants, bucket, c, k) && grants[k].id == es[i].rule
  {
    var n := |grants| - 1;
    var es := EffectiveGrantsOf(grants, KIND_BUCKET, bucket, ACTION_READ).value;
    var front := EffectiveGrantsOf(grants[..n], KIND_BUCKET, bucket, ACTION_READ).value;
    assert |front| <= |es| && forall j :: 0 <= j < |front| ==> front[j] == es[j];
    if i < |front| {
      FirstMatch(grants[..n], bucket, c, i);
      var k :| FirstReader(grants[..n], bucket, c, k) && grants[..n][k].id == front[i].rule;
      assert FirstReader(grants, bucket, c, k);
    } else {
      NoMatchNoReader(grants[..n], bucket, c);
      MatchIsReader(grants[n], bucket, c);
      assert FirstReader(grants, bucket, c, n);
    }
  }

  lemma MatchIsReader(g: Grant, bucket: string, c: Caller)
    requires Names(g, KIND_BUCKET, bucket, ACTION_READ) && ParseAll(g.sourceRanges).Some?
    ensures Matches(Reach(g.principals, ParseAll(g.sourceRanges).value, g.id), [PrincipalOf(c), ANONYMOUS], c.addr)
       <==> AdmitsRead(g, bucket, c)
  {
    ParseAllMeaning(g.sourceRanges);
    var who := [PrincipalOf(c), ANONYMOUS];
    assert who[0] == PrincipalOf(c) && who[1] == ANONYMOUS;
  }

  lemma {:induction false} NoMatchNoReader(grants: seq<Grant>, bucket: string, c: Caller)
    requires EffectiveGrantsOf(grants, KIND_BUCKET, bucket, ACTION_READ).Some?
    requires
      var es := EffectiveGrantsOf(grants, KIND_BUCKET, bucket, ACTION_READ).value;
      forall j :: 0 <= j < |es| ==> !Matches(es[j], [PrincipalOf(c), ANONYMOUS], c.addr)
    ensures forall k :: 0 <= k < |grants| ==> !AdmitsRead(grants[k], bucket, c)
  {
    hide Matches, AdmitsRead;
    if grants != [] {
      var n := |grants| - 1;
      var es := EffectiveGrantsOf(grants, KIND_BUCKET, bucket, ACTION_READ).value;
      var front := EffectiveGrantsOf(grants[..n], KIND_BUCKET, bucket, ACTION_READ).value;
      assert forall j :: 0 <= j < |front| ==> es[j] == front[j];
      NoMatchNoReader(grants[..n], bucket, c);
      if Names(grants[n], KIND_BUCKET, bucket, ACTION_READ) {
        MatchIsReader(grants[n], bucket, c);
        assert es[|front|] == Reach(grants[n].principals, ParseAll(grants[n].sourceRanges).value, grants[n].id);
      } else {
        NotItsGrant(grants[n], bucket, c);
      }
      assert forall k :: 0 <= k < n ==> grants[..n][k] == grants[k];
    }
  }

  lemma NotItsGrant(g: Grant, bucket: string, c: Caller)
    requires !Names(g, KIND_BUCKET, bucket, ACTION_READ)
    ensures !AdmitsRead(g, bucket, c)
  {
  }

  method AuthorizeObjectRead(st: State, c: Caller, bucket: string, key: string) returns (d: Decision)
    ensures c.segment == "" ==> d == Deny(UnknownSegment)
    ensures c.segment != "" && !HoldsObject(st, bucket, key) ==> d == Deny(NotFound)
    ensures c.segment != "" && HoldsObject(st, bucket, key) ==>
      (EffectiveGrantsOf(st.grants, KIND_BUCKET, bucket, ACTION_READ).None? <==> d == Deny(Unparsable))
    ensures d.allowed <==> ReadAllowed(st, c, bucket, key)
    ensures !d.allowed ==> d == Deny(d.reason) && d.reason in {UnknownSegment, NotFound, Unparsable, NoGrant}
    ensures d.allowed ==> d.reason == Allowed
    ensures d.allowed ==> exists i :: FirstReader(st.grants, bucket, c, i) && d.rule == st.grants[i].id
  {
    if c.segment == "" {
      return Deny(UnknownSegment);
    }
    var found := false;
    for i := 0 to |st.objects|
      invariant !found
      invariant forall j :: 0 <= j < i ==> !(st.objects[j].bucket == bucket && st.objects[j].key == key)
    {
      if st.objects[i].bucket == bucket && st.objects[i].key == key {
        found := true;
        break;
      }
    }
    if !found {
      return Deny(NotFound);
    }
    var r := EffectiveGrants(st.grants, KIND_BUCKET, bucket, ACTION_READ);
    EffectiveGrantsMeaning(st.grants, KIND_BUCKET, bucket, ACTION_READ);
    if r.None? {
      return Deny(Unparsable);
    }
    var principal := if c.principal == "" then ANONYMOUS else c.principal;
    ghost var spec := EffectiveGrantsOf(st.grants, KIND_BUCKET, bucket, ACTION_READ).value;
    ghost var who := [principal, ANONYMOUS];
    SearchMeaning(st.grants, KIND_BUCKET, bucket, ACTION_READ, who, c.addr);
    ReadersOf(c);
    for i := 0 to |r.value|
      invariant Shows(r.value, spec)
      invariant forall j :: 0 <= j < i ==> !Matches(spec[j], who, c.addr)
    {
      var e := r.value[i];
      assert Matches(spec[i], who, c.addr) <==>
        (principal in e.principals || ANONYMOUS in e.principals) && CoversAddress(e.sources.intervals, c.addr) by {
        assert who[0] == principal && who[1] == ANONYMOUS;
      }
      if principal !in e.principals && ANONYMOUS !in e.principals {
        continue;
      }
      var inside := Set.Contains(e.sources, c.addr);
      if inside {
        assert spec[i] in spec;
        FirstMatch(st.grants, bucket, c, i);
        return Decision(true, Allowed, e.rule);
      }
    }
    return Deny(NoGrant);
  }

  lemma ReadersOf(c: Caller)
    ensures (set p | p in [PrincipalOf(c), ANONYMOUS]) == {PrincipalOf(c), ANONYMOUS}
  {
  }

  /** When a read is allowed, said without any search: the caller is in a known segment,
      the object exists, every applicable grant is readable, and one of them admits. */
  ghost predicate ReadAllowed(st: State, c: Caller, bucket: string, key: string) {
    && c.segment != ""
    && HoldsObject(st, bucket, key)
    && (forall g :: g in st.grants && Names(g, KIND_BUCKET, bucket, ACTION_READ) ==> AllBlocks(g.sourceRanges))
    && GrantAdmits(st.grants, KIND_BUCKET, bucket, ACTION_READ, {PrincipalOf(c), ANONYMOUS}, c.addr)
  }

  // ---- Connects -----------------------------------------------------------------------

  const NO_WORKLOAD := Workload("", "", [])
  const NO_PORT := Port("", 0, NoAddress(""))

  function LastPort(ports: seq<Port>, port: string, before: Option<Port>): Option<Port> {
    if ports == [] then before
    else
      var n := |ports| - 1;
      if ports[n].name == port then Some(ports[n]) else LastPort(ports[..n], port, before)
  }

  datatype Found = Found(workload: Option<Workload>, port: Option<Port>)

  /** The last workload of that name, and the last port of that name on any of them. */
  function Lookup(ws: seq<Workload>, workload: string, port: string): Found {
    if ws == [] then Found(None, None)
    else
      var n := |ws| - 1;
      var front := Lookup(ws[..n], workload, port);
      if ws[n].name != workload then front
      else Found(Some(ws[n]), LastPort(ws[n].ports, port, front.port))
  }

  ghost predicate LastNamed(ports: seq<Port>, port: string, j: int) {
    && 0 <= j < |ports| && ports[j].name == port
    && forall k :: j < k < |ports| ==> ports[k].name != port
  }

  lemma {:induction false} LastPortMeaning(ports: seq<Port>, port: string, before: Option<Port>)
    ensures forall j :: LastNamed(ports, port, j) ==> LastPort(ports, port, before) == Some(ports[j])
    ensures (forall j :: !LastNamed(ports, port, j)) ==> LastPort(ports, port, before) == before
    ensures (exists p :: p in ports && p.name == port) ==> exists j :: LastNamed(ports, port, j)
  {
    if ports != [] {
      var n := |ports| - 1;
      if ports[n].name == port {
        assert LastNamed(ports, port, n);
      } else {
        LastPortMeaning(ports[..n], port, before);
        assert forall j :: LastNamed(ports, port, j) <==> LastNamed(ports[..n], port, j);
        assert forall p :: p in ports ==> p in ports[..n] || p == ports[n];
      }
    }
  }

  ghost predicate Declares(ws: seq<Workload>, workload: string, p: Port) {
    exists w :: w in ws && w.name == workload && p in w.ports
  }

  ghost predicate LastWorkload(ws: seq<Workload>, workload: string, i: int) {
    && 0 <= i < |ws| && ws[i].name == workload
    && forall k :: i < k < |ws| ==> ws[k].name != workload
  }

  /** The last port of that name, on the last workload of that name that has one. */
  ghost predicate LastDeclared(ws: seq<Workload>, workload: string, port: string, i: int, j: int) {
    && 0 <= i < |ws| && ws[i].name == workload && LastNamed(ws[i].ports, port, j)
    && forall k, p :: i < k < |ws| && ws[k].name == workload && p in ws[k].ports ==> p.name != port
  }

  lemma {:induction false} WorkloadLookup(ws: seq<Workload>, workload: string, port: string)
    ensures Lookup(ws, workload, port).workload.Some? <==> exists i :: LastWorkload(ws, workload, i)
    ensures forall i :: LastWorkload(ws, workload, i) ==> Lookup(ws, workload, port).workload == Some(ws[i])
  {
    if ws != [] {
      var n := |ws| - 1;
      if ws[n].name == workload {
        assert LastWorkload(ws, workload, n);
      } else {
        WorkloadLookup(ws[..n], workload, port);
        assert forall i :: LastWorkload(ws, workload, i) <==> LastWorkload(ws[..n], workload, i);
      }
    }
  }

  lemma {:induction false} PortLookup(ws: seq<Workload>, workload: string, port: string)
    ensures Lookup(ws, workload, port).port.Some? <==> exists i, j :: LastDeclared(ws, workload, port, i, j)
    ensures forall i, j :: LastDeclared(ws, workload, port, i, j) ==>
      Lookup(ws, workload, port).port == Some(ws[i].ports[j])
  {
    hide LastPort, LastNamed;
    if ws != [] {
      var n := |ws| - 1;
      var ports := ws[n].ports;
      PortLookup(ws[..n], workload, port);
      if ws[n].name == workload && exists p :: p in ports && p.name == port {
        LastPortMeaning(ports, port, Lookup(ws[..n], workload, port).port);
        var j :| LastNamed(ports, port, j);
        assert LastDeclared(ws, workload, port, n, j);
        PortOnLast(ws, workload, port);
      } else {
        NoneNamed(ports, port, Lookup(ws[..n], workload, port).port);
        assert Lookup(ws, workload, port).port == Lookup(ws[..n], workload, port).port;
        SkipLast(ws, workload, port);
        if Lookup(ws, workload, port).port.Some? {
          var i, j :| LastDeclared(ws[..n], workload, port, i, j);
          assert LastDeclared(ws, workload, port, i, j);
        }
      }
    }
  }

  lemma NoneNamed(ports: seq<Port>, port: string, before: Option<Port>)
    ensures (forall p :: p in ports ==> p.name != port) ==> LastPort(ports, port, before) == before
  {
    LastPortMeaning(ports, port, before);
    assert forall j :: 0 <= j < |ports| ==> ports[j] in ports;
  }

  lemma PortOnLast(ws: seq<Workload>, workload: string, port: string)
    requires ws != [] && ws[|ws| - 1].name == workload && exists p :: p in ws[|ws| - 1].ports && p.name == port
    ensures forall i, j :: LastDeclared(ws, workload, port, i, j) ==> i == |ws| - 1 && LastNamed(ws[i].ports, port, j)
  {
  }

  /** Later declarations win, for workloads and for ports separately: the port may come
      from an earlier workload of the same name. */
  lemma LookupMeaning(ws: seq<Workload>, workload: string, port: string)
    ensures Lookup(ws, workload, port).workload.Some? <==> exists i :: LastWorkload(ws, workload, i)
    ensures forall i :: LastWorkload(ws, workload, i) ==> Lookup(ws, workload, port).workload == Some(ws[i])
    ensures Lookup(ws, workload, port).port.Some? <==> exists i, j :: LastDeclared(ws, workload, port, i, j)
    ensures forall i, j :: LastDeclared(ws, workload, port, i, j) ==>
      Lookup(ws, workload, port).port == Some(ws[i].ports[j])
  {
    hide Lookup, LastWorkload, LastDeclared;
    WorkloadLookup(ws, workload, port);
    PortLookup(ws, workload, port);
  }

  lemma SkipLast(ws: seq<Workload>, workload: string, port: string)
    requires ws != []
    requires ws[|ws| - 1].name == workload ==> forall p :: p in ws[|ws| - 1].ports ==> p.name != port
    ensures forall i, j :: LastDeclared(ws, workload, port, i, j) <==>
      LastDeclared(ws[..|ws| - 1], workload, port, i, j)
  {
  }

  lemma LookupIsDeclared(ws: seq<Workload>, workload: string, port: string)
    ensures Lookup(ws, workload, port).workload.Some? ==> Lookup(ws, workload, port).workload.value.name == workload
    ensures Lookup(ws, workload, port).port.Some? ==>
      Lookup(ws, workload, port).port.value.name == port
        && Declares(ws, workload, Lookup(ws, workload, port).port.value)
  {
    hide Lookup;
    LookupMeaning(ws, workload, port);
    var f := Lookup(ws, workload, port);
    if f.workload.Some? {
      var i :| LastWorkload(ws, workload, i);
    }
    if f.port.Some? {
      var i, j :| LastDeclared(ws, workload, port, i, j);
      assert ws[i] in ws && ws[i].ports[j] in ws[i].ports;
    }
  }

  function ConnectDecision(st: State, c: Caller, workload: string, port: string): (Decision, Workload, Port) {
    var f := Lookup(st.workloads, workload, port);
    if c.segment == "" then (Deny(UnknownSegment), NO_WORKLOAD, NO_PORT)
    else if f.workload.None? || f.port.None? then (Deny(NotFound), NO_WORKLOAD, NO_PORT)
    else
      var w, p := f.workload.value, f.port.value;
      match EffectiveIngressOf(st.networkRules, w, p, st.segments)
      case None => (Deny(Unparsable), w, p)
      case Some((ivs, rule)) =>
        if CoversAddress(ivs, c.addr) then (Decision(true, Allowed, rule), w, p)
        else match BindReachOf(p.bind, st.segments)
          case None => (Deny(Unparsable), w, p)
          case Some(reach) =>
            if !CoversAddress(reach, c.addr) then (Deny(BindUnreachable), w, p) else (Deny(NoRule), w, p)
  }

  method AuthorizeConnect(st: State, c: Caller, workload: string, port: string)
    returns (d: Decision, w: Workload, p: Port)
    ensures (d, w, p) == ConnectDecision(st, c, workload, port)
  {
    if c.segment == "" {
      return Deny(UnknownSegment), NO_WORKLOAD, NO_PORT;
    }
    w, p := NO_WORKLOAD, NO_PORT;
    var okWorkload, okPort := false, false;
    for i := 0 to |st.workloads|
      invariant Lookup(st.workloads[..i], workload, port)
             == Found(if okWorkload then Some(w) else None, if okPort then Some(p) else None)
    {
      var cand := st.workloads[i];
      assert st.workloads[..i + 1][..i] == st.workloads[..i];
      if cand.name != workload {
        continue;
      }
      w, okWorkload := cand, true;
      ghost var before := Lookup(st.workloads[..i], workload, port).port;
      for j := 0 to |cand.ports|
        invariant LastPort(cand.ports[..j], port, before) == if okPort then Some(p) else None
      {
        assert cand.ports[..j + 1][..j] == cand.ports[..j];
        if cand.ports[j].name == port {
          p, okPort := cand.ports[j], true;
        }
      }
      assert cand.ports[..|cand.ports|] == cand.ports;
    }
    assert st.workloads[..|st.workloads|] == st.workloads;
    if !okWorkload || !okPort {
      return Deny(NotFound), NO_WORKLOAD, NO_PORT;
    }
    var permitted, rule := EffectiveIngress(st.networkRules, w, p, st.segments);
    if permitted == null {
      return Deny(Unparsable), w, p;
    }
    var inside := Set.Contains(permitted, c.addr);
    if inside {
      return Decision(true, Allowed, rule), w, p;
    }
    var reach := BindReach(p.bind, st.segments);
    if reach == null {
      return Deny(Unparsable), w, p;
    }
    inside := Set.Contains(reach, c.addr);
    if !inside {
      return Deny(BindUnreachable), w, p;
    }
    return Deny(NoRule), w, p;
  }

  /** A connect is allowed from an address exactly when some permitting rule names it and
      the bind's reach covers it, and nothing on the way is malformed. */
  lemma ConnectAllowedMeaning(st: State, c: Caller, workload: string, port: string)
    requires Lookup(st.workloads, workload, port).workload.Some? && Lookup(st.workloads, workload, port).port.Some?
    ensures ConnectDecision(st, c, workload, port).0.allowed <==>
      var p := Lookup(st.workloads, workload, port).port.value;
      && c.segment != "" && c.addr.V4?
      && (forall r :: r in st.networkRules && Permits(r, workload, port) ==> AllBlocks(r.sourceRanges))
      && RuleAdmits(st.networkRules, workload, port, c.addr.addr)
      && BindReachOf(p.bind, st.segments).Some?
      && Covers(BindReachOf(p.bind, st.segments).value, c.addr.addr)
  {
    hide RangesCover, IntersectOf, PermittedOf, BindReachOf, RuleAdmits, Lookup, Permits, Covers;
    LookupIsDeclared(st.workloads, workload, port);
    var p := Lookup(st.workloads, workload, port).port.value;
    PermittedMeaning(st.networkRules, workload, port);
    if PermittedOf(st.networkRules, workload, port).Some? && BindReachOf(p.bind, st.segments).Some? {
      var reach := BindReachOf(p.bind, st.segments).value;
      IntersectIsPointwise(PermittedOf(st.networkRules, workload, port).value.0, reach);
    }
  }
}
