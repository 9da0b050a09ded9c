/** The answers to requests: what the workload, the port, the reason and the rule that come
    with a decision are, said over the state without any search. */
module Requests {
  import opened Options
  import opened Cidr
  import opened Intervals
  import opened Platform
  import opened NetSet
  import opened Authz
  import S = Soundness

  // ---- Binds --------------------------------------------------------------------------

  /** The bind is an address, and if it takes segments to say whom it hears, they can be read
      up to the first that contains it. */
  ghost predicate BindReadable(bind: Bind, segments: seq<Segment>) {
    bind.Ip? && (IsLoopback(bind.addr) || bind.addr == 0 || S.ReadableToFirst(segments, bind.addr))
  }

  /** Loopback hears nobody, the unspecified address everybody, any other bind the first
      segment that contains it. */
  ghost predicate BindHears(bind: Bind, segments: seq<Segment>, v: int) {
    && bind.Ip? && !IsLoopback(bind.addr)
    && if bind.addr == 0 then 0 <= v < TWO32 else FirstSegmentHears(segments, bind.addr, v)
  }

  ghost predicate FirstSegmentHears(segments: seq<Segment>, a: Addr, v: int) {
    exists i :: S.FirstHolding(segments, a, i) && InRange(segments[i].cidr, v)
  }

  lemma ReachOfBind(bind: Bind, segments: seq<Segment>)
    ensures BindReachOf(bind, segments).Some? <==> BindReadable(bind, segments)
    ensures BindReachOf(bind, segments).Some? ==>
      forall v: int :: Covers(BindReachOf(bind, segments).value, v) <==> BindHears(bind, segments, v)
  {
    hide ParseAll, InRange;
    if bind.Ip? {
      var a := bind.addr;
      ZeroIsNoLoopback();
      S.SegmentReachReadable(a, segments);
      if a == 0 {
        forall v: int ensures Covers([Interval(0, 0xFFFF_FFFF)], v) <==> 0 <= v < TWO32 { OneInterval(v); }
      } else if !IsLoopback(a) && S.ReadableToFirst(segments, a) {
        SegmentReachIs(a, segments);
      }
    }
  }

  lemma ZeroIsNoLoopback()
    ensures !IsLoopback(0)
  {
    S.LoopbackAlike(0);
  }

  lemma OneInterval(v: int)
    ensures Covers([Interval(0, 0xFFFF_FFFF)], v) <==> 0 <= v < TWO32
  {
    CoversSnoc([], Interval(0, 0xFFFF_FFFF), v);
  }

  lemma SegmentReachIs(a: Addr, segments: seq<Segment>)
    requires SegmentReach(a, segments).Some?
    ensures forall v: int :: Covers(SegmentReach(a, segments).value, v) <==> FirstSegmentHears(segments, a, v)
  {
    hide InRange, SegmentReach;
    SegmentReachMeaning(a, segments);
    if SegmentReach(a, segments).value != [] {
      var i :| 0 <= i < |segments| && InRange(segments[i].cidr, a)
        && (forall j :: 0 <= j < i ==> segments[j].cidr.Block? && !InRange(segments[j].cidr, a))
        && forall v: int :: Covers(SegmentReach(a, segments).value, v) <==> InRange(segments[i].cidr, v);
      assert S.FirstHolding(segments, a, i);
      assert forall k :: S.FirstHolding(segments, a, k) ==> k == i;
    } else {
      assert forall k :: !S.FirstHolding(segments, a, k);
    }
  }

  // ---- The rule that is reported ------------------------------------------------------

  /** The identifiers of the rules for a port, in the order of the rules. */
  function PermittingIds(rules: seq<NetworkRule>, workload: string, port: string): seq<string> {
    if rules == [] then []
    else
      var n := |rules| - 1;
      PermittingIds(rules[..n], workload, port)
      + if rules[n].workload == workload && rules[n].port == port then [rules[n].id] else []
  }

  function WithoutLeadingEmpty(ids: seq<string>): seq<string> {
    if ids != [] && ids[0] == "" then WithoutLeadingEmpty(ids[1..]) else ids
  }

  function JoinedByPlus(ids: seq<string>): string {
    if ids == [] then ""
    else if |ids| == 1 then ids[0]
    else ids[0] + "+" + JoinedByPlus(ids[1..])
  }

  lemma {:induction false} JoinSnoc(ids: seq<string>, id: string)
    requires ids != []
    ensures JoinedByPlus(ids + [id]) == JoinedByPlus(ids) + "+" + id
  {
    if |ids| == 1 {
      assert ids + [id] == [ids[0], id] && (ids + [id])[1..] == [id];
    } else {
      JoinSnoc(ids[1..], id);
      assert (ids + [id])[1..] == ids[1..] + [id];
      assert JoinedByPlus(ids + [id]) == ids[0] + "+" + (JoinedByPlus(ids[1..]) + "+" + id);
      assert ids[0] + "+" + (JoinedByPlus(ids[1..]) + "+" + id) == (ids[0] + "+" + JoinedByPlus(ids[1..])) + "+" + id;
    }
  }

  lemma {:induction false} DropSnoc(ids: seq<string>, id: string)
    ensures WithoutLeadingEmpty(ids + [id])
         == if WithoutLeadingEmpty(ids) != [] then WithoutLeadingEmpty(ids) + [id] else WithoutLeadingEmpty([id])
    ensures WithoutLeadingEmpty(ids) != [] ==> WithoutLeadingEmpty(ids)[0] != ""
  {
    if ids == [] {
      assert ids + [id] == [id];
    } else if ids[0] == "" {
      DropSnoc(ids[1..], id);
      assert (ids + [id])[1..] == ids[1..] + [id];
    }
  }

  lemma {:induction false} ReportedRule(rules: seq<NetworkRule>, workload: string, port: string)
    requires PermittedOf(rules, workload, port).Some?
    ensures PermittedOf(rules, workload, port).value.1
         == JoinedByPlus(WithoutLeadingEmpty(PermittingIds(rules, workload, port)))
  {
    hide UnionOf, ParseAll, JoinedByPlus, WithoutLeadingEmpty;
    NothingJoined();
    if rules != [] {
      var n := |rules| - 1;
      var ids := PermittingIds(rules[..n], workload, port);
      ReportedRule(rules[..n], workload, port);
      if Permits(rules[n], workload, port) {
        AddedId(ids, rules[n].id);
      } else {
        assert ids + [] == ids;
      }
    }
  }

  lemma NothingJoined()
    ensures JoinedByPlus(WithoutLeadingEmpty([])) == ""
  {
  }

  lemma AddedId(ids: seq<string>, id: string)
    ensures JoinedByPlus(WithoutLeadingEmpty(ids + [id])) == Joined(JoinedByPlus(WithoutLeadingEmpty(ids)), id)
  {
    var kept := WithoutLeadingEmpty(ids);
    DropSnoc(ids, id);
    if kept != [] {
      JoinSnoc(kept, id);
      assert JoinedByPlus(kept) != "" by { assert kept[0] != ""; }
    } else {
      assert [id][1..] == [];
    }
  }

  // ---- Connects -----------------------------------------------------------------------

  ghost predicate PortFound(ws: seq<Workload>, workload: string, port: string) {
    (exists i :: LastWorkload(ws, workload, i)) && exists i, j :: LastDeclared(ws, workload, port, i, j)
  }

  /** Everything a connect needs to read is readable. */
  ghost predicate ConnectReadable(st: State, workload: string, port: string, bind: Bind) {
    && (forall r :: r in st.networkRules && r.workload == workload && r.port == port ==> AllBlocks(r.sourceRanges))
    && BindReadable(bind, st.segments)
  }

  ghost predicate Heard(st: State, c: Caller, bind: Bind) {
    c.addr.V4? && BindHears(bind, st.segments, c.addr.addr)
  }

  ghost predicate Permitted(st: State, c: Caller, workload: string, port: string) {
    c.addr.V4? && exists r :: r in st.networkRules && r.workload == workload && r.port == port
                              && RangesCover(r.sourceRanges, c.addr.addr)
  }

  /** What the reason of an answer says once the port is found. */
  ghost predicate ReasonIs(st: State, c: Caller, workload: string, port: string, bind: Bind, reason: Reason) {
    match reason
    case Unparsable => !ConnectReadable(st, workload, port, bind)
    case BindUnreachable => ConnectReadable(st, workload, port, bind) && !Heard(st, c, bind)
    case NoRule => ConnectReadable(st, workload, port, bind) && Heard(st, c, bind) && !Permitted(st, c, workload, port)
    case Allowed => ConnectReadable(st, workload, port, bind) && Heard(st, c, bind) && Permitted(st, c, workload, port)
    case _ => false
  }

  /** The answer to a connect: for each reason the exact condition, with every answer about a
      port that port and its workload, and with an allowed one the rules that permit it. */
  lemma ConnectAnswer(st: State, c: Caller, workload: string, port: string)
    ensures
      var (d, w, p) := ConnectDecision(st, c, workload, port);
      && (d.reason.UnknownSegment? <==> c.segment == "")
      && (d.reason.NotFound? <==> c.segment != "" && !PortFound(st.workloads, workload, port))
      && (d.reason.UnknownSegment? || d.reason.NotFound? ==> w == NO_WORKLOAD && p == NO_PORT)
      && (!d.reason.UnknownSegment? && !d.reason.NotFound? ==>
            && (exists i :: LastWorkload(st.workloads, workload, i) && w == st.workloads[i])
            && (exists i, j :: LastDeclared(st.workloads, workload, port, i, j) && p == st.workloads[i].ports[j])
            && ReasonIs(st, c, workload, port, p.bind, d.reason))
      && (d.allowed <==> d.reason.Allowed?)
      && (d.allowed ==> d.rule == JoinedByPlus(WithoutLeadingEmpty(PermittingIds(st.networkRules, workload, port))))
      && (!d.allowed ==> d.rule == "")
  {
    hide Lookup, LastWorkload, LastDeclared, PermittedOf, BindReachOf, BindHears, BindReadable, RangesCover,
      Covers, JoinedByPlus, WithoutLeadingEmpty, PermittingIds, IntersectOf;
    LookupMeaning(st.workloads, workload, port);
    LookupIsDeclared(st.workloads, workload, port);
    var f := Lookup(st.workloads, workload, port);
    if c.segment != "" && f.workload.Some? && f.port.Some? {
      var w, p := f.workload.value, f.port.value;
      PermittedMeaning(st.networkRules, workload, port);
      ReachOfBind(p.bind, st.segments);
      if PermittedOf(st.networkRules, workload, port).Some? {
        ReportedRule(st.networkRules, workload, port);
        if BindReachOf(p.bind, st.segments).Some? {
          var reach := BindReachOf(p.bind, st.segments).value;
          IntersectIsPointwise(PermittedOf(st.networkRules, workload, port).value.0, reach);
        }
      }
      PlacesFound(st, workload, port, w, p);
    }
  }

  lemma PlacesFound(st: State, workload: string, port: string, w: Workload, p: Port)
    requires Lookup(st.workloads, workload, port) == Found.Found(Some(w), Some(p))
    ensures exists i :: LastWorkload(st.workloads, workload, i) && w == st.workloads[i]
    ensures exists i, j :: LastDeclared(st.workloads, workload, port, i, j) && p == st.workloads[i].ports[j]
  {
    hide Lookup;
    LookupMeaning(st.workloads, workload, port);
    var i :| LastWorkload(st.workloads, workload, i);
    var k, j :| LastDeclared(st.workloads, workload, port, k, j);
    assert p == st.workloads[k].ports[j];
  }
}
