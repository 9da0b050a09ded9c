/** Reconciliation: what the clients observed against what the allowlist makes public, and
    the comparison of observation sets with each other. */
module Reconcile {
  import opened Options
  import opened Cidr
  import opened Intervals
  import opened Order
  import opened Platform
  import opened Graph
  import opened Policy
  import opened NetSet
  import A = Authz
  import R = Reference
  import S = Soundness
  import Store

  const SEGMENT_INTERNET := "internet"
  const OBSERVATION_DOCUMENT := "planless.observations"

  /** The public-segment probe's address, 198.51.100.50. */
  const PROBE: Addr := 0xC633_6432

  datatype Observation = Observation(segment: string, resource: string, reachable: bool, status: int, digest: string)

  predicate FromInternet(o: Observation) {
    o.segment == SEGMENT_INTERNET
  }

  predicate SeenFromInternet(o: Observation) {
    FromInternet(o) && o.reachable
  }

  // ---- The allowlist's public entries -------------------------------------------------

  predicate Public(e: Entry) {
    RangesCover(e.sources, PROBE) && (e.kind == "bucket" ==> ANONYMOUS in e.principals)
  }

  function Spelled(e: Entry): string {
    e.kind + "/" + e.name
  }

  /** Non-empty, and every entry's ranges are readable. */
  ghost predicate Readable(entries: seq<Entry>) {
    entries != [] && forall e :: e in entries ==> AllBlocks(e.sources)
  }

  function PublicNames(entries: seq<Entry>): seq<string> {
    if entries == [] then []
    else
      var n := |entries| - 1;
      PublicNames(entries[..n]) + if Public(entries[n]) then [Spelled(entries[n])] else []
  }

  /** The entry lets everyone in from 198.51.100.50. */
  ghost predicate OpenToAll(e: Entry) {
    RangesCover(e.sources, ((198 * 256 + 51) * 256 + 100) * 256 + 50) && (e.kind == "bucket" ==> "*" in e.principals)
  }

  ghost predicate NamesResource(e: Entry, x: string) {
    x == e.kind + "/" + e.name
  }

  lemma {:induction false} PublicNamesMeaning(entries: seq<Entry>)
    ensures forall x :: x in PublicNames(entries) <==> exists e :: e in entries && OpenToAll(e) && NamesResource(e, x)
  {
    if entries != [] {
      var n := |entries| - 1;
      PublicNamesMeaning(entries[..n]);
      assert entries == entries[..n] + [entries[n]];
      assert forall e :: e in entries <==> e in entries[..n] || e == entries[n];
      assert Public(entries[n]) <==> OpenToAll(entries[n]);
      assert NamesResource(entries[n], Spelled(entries[n]));
    }
  }

  method Anonymous(principals: seq<string>) returns (b: bool)
    ensures b <==> ANONYMOUS in principals
  {
    for i := 0 to |principals|
      invariant ANONYMOUS !in principals[..i]
    {
      if principals[i] == "*" {
        return true;
      }
    }
    assert principals[..|principals|] == principals;
    return false;
  }

  method PublicEntries(entries: seq<Entry>) returns (r: Option<seq<string>>)
    ensures r.Some? <==> Readable(entries)
    ensures r.Some? ==> r.value == Sort(PublicNames(entries), Identity, StringLe)
  {
    if |entries| == 0 {
      return None;
    }
    var out: seq<string> := [];
    for i := 0 to |entries|
      invariant out == PublicNames(entries[..i])
      invariant forall k :: 0 <= k < i ==> AllBlocks(entries[k].sources)
    {
      var e := entries[i];
      assert entries[..i + 1][..i] == entries[..i] && entries[..i + 1][i] == e;
      var set_ := Set.Parse(e.sources);
      if set_ == null {
        assert e in entries;
        return None;
      }
      var holds := Set.Contains(set_, V4(PROBE));
      if !holds {
        continue;
      }
      if e.kind == "bucket" {
        var anyone := Anonymous(e.principals);
        if !anyone {
          continue;
        }
      }
      out := out + [e.kind + "/" + e.name];
    }
    assert entries[..|entries|] == entries;
    r := Some(Sort(out, Identity, StringLe));
  }

  // ---- Reconciliation -----------------------------------------------------------------

  datatype Verdict = Pass | Fail

  datatype Reconciliation = Reconciliation(verdict: Verdict, publiclyReachable: seq<string>,
                                           allowedPublic: seq<string>, unreviewed: seq<string>)

  function ReachedFrom(obs: seq<Observation>): seq<string> {
    if obs == [] then []
    else
      var n := |obs| - 1;
      ReachedFrom(obs[..n]) + if SeenFromInternet(obs[n]) then [obs[n].resource] else []
  }

  function NotIn(list: seq<string>, allowed: seq<string>): seq<string> {
    if list == [] then []
    else
      var n := |list| - 1;
      NotIn(list[..n], allowed) + if list[n] in allowed then [] else [list[n]]
  }

  lemma {:induction false} ReachedFromMeaning(obs: seq<Observation>)
    ensures forall x :: x in ReachedFrom(obs) <==> exists o :: o in obs && SeenFromInternet(o) && o.resource == x
  {
    if obs != [] {
      var n := |obs| - 1;
      ReachedFromMeaning(obs[..n]);
      assert obs == obs[..n] + [obs[n]];
      assert forall o :: o in obs <==> o in obs[..n] || o == obs[n];
    }
  }

  lemma {:induction false} NotInMeaning(list: seq<string>, allowed: seq<string>)
    ensures forall x :: x in NotIn(list, allowed) <==> x in list && x !in allowed
  {
    if list != [] {
      var n := |list| - 1;
      NotInMeaning(list[..n], allowed);
      assert list == list[..n] + [list[n]];
      assert forall x :: x in list <==> x in list[..n] || x == list[n];
    }
  }

  function Place(o: Observation): (string, string) { (o.segment, o.resource) }

  function ReconcileOf(entries: seq<Entry>, obs: seq<Observation>): Reconciliation {
    var allowed := Sort(PublicNames(entries), Identity, StringLe);
    var reachable := Sort(ReachedFrom(Sort(obs, Place, PairLe)), Identity, StringLe);
    var unreviewed := NotIn(reachable, allowed);
    Reconciliation(if |unreviewed| > 0 then Fail else Pass, reachable, allowed, unreviewed)
  }

  /** No verdict at all when the allowlist cannot be read. */
  method Reconcile(entries: seq<Entry>, obs: seq<Observation>, expected: Verdict, passed: bool)
    returns (r: Option<Reconciliation>, passed': bool)
    ensures r.Some? <==> Readable(entries)
    ensures r.Some? ==> r.value == ReconcileOf(entries, obs)
    ensures passed' <==> passed && (r.Some? ==> r.value.verdict == expected)
  {
    passed' := passed;
    var observations := Sort(obs, Place, PairLe);
    var allowed := PublicEntries(entries);
    if allowed.None? {
      return None, passed';
    }
    var reachable: seq<string> := [];
    for i := 0 to |observations|
      invariant reachable == ReachedFrom(observations[..i])
    {
      var o := observations[i];
      assert observations[..i + 1][..i] == observations[..i] && observations[..i + 1][i] == o;
      if o.segment != SEGMENT_INTERNET || !o.reachable {
        continue;
      }
      reachable := reachable + [o.resource];
    }
    assert observations[..|observations|] == observations;
    reachable := Sort(reachable, Identity, StringLe);
    var unreviewed: seq<string> := [];
    for i := 0 to |reachable|
      invariant unreviewed == NotIn(reachable[..i], allowed.value)
    {
      assert reachable[..i + 1][..i] == reachable[..i] && reachable[..i + 1][i] == reachable[i];
      if reachable[i] !in allowed.value {
        unreviewed := unreviewed + [reachable[i]];
      }
    }
    assert reachable[..|reachable|] == reachable;
    var verdict := Pass;
    if |unreviewed| > 0 {
      verdict := Fail;
    }
    r := Some(Reconciliation(verdict, reachable, allowed.value, unreviewed));
    passed' := passed' && verdict == expected;
  }

  /** Some observation from the internet reached the resource. */
  ghost predicate Reached(obs: seq<Observation>, x: string) {
    exists o :: o in obs && o.segment == "internet" && o.reachable && o.resource == x
  }

  ghost predicate Reviewed(entries: seq<Entry>, x: string) {
    exists e :: e in entries && OpenToAll(e) && NamesResource(e, x)
  }

  ghost predicate Unreviewed(entries: seq<Entry>, obs: seq<Observation>, x: string) {
    Reached(obs, x) && !Reviewed(entries, x)
  }

  /** The verdict is FAIL exactly when some resource reached from the internet has the
      spelling of no public entry, and exactly those resources are listed; the other two lists
      are sorted and are what was reached and what is public. */
  lemma ReconcileMeaning(entries: seq<Entry>, obs: seq<Observation>)
    ensures ReconcileOf(entries, obs).verdict.Fail? <==> exists x :: Unreviewed(entries, obs, x)
    ensures forall x :: x in ReconcileOf(entries, obs).unreviewed <==> Unreviewed(entries, obs, x)
    ensures forall x :: x in ReconcileOf(entries, obs).publiclyReachable <==> Reached(obs, x)
    ensures forall x :: x in ReconcileOf(entries, obs).allowedPublic <==> Reviewed(entries, x)
    ensures Sorted(ReconcileOf(entries, obs).publiclyReachable, Identity, StringLe)
    ensures Sorted(ReconcileOf(entries, obs).allowedPublic, Identity, StringLe)
  {
    hide Sort, PublicNames, ReachedFrom, NotIn, RangesCover, OpenToAll;
    StringOrder();
    SortSorted(PublicNames(entries), Identity, StringLe);
    SortSorted(ReachedFrom(Sort(obs, Place, PairLe)), Identity, StringLe);
    var r := ReconcileOf(entries, obs);
    var sorted := Sort(obs, Place, PairLe);
    PublicNamesMeaning(entries);
    SortKeepsMembers(PublicNames(entries), Identity, StringLe);
    SortKeepsMembers(obs, Place, PairLe);
    ReachedFromMeaning(sorted);
    SortKeepsMembers(ReachedFrom(sorted), Identity, StringLe);
    NotInMeaning(r.publiclyReachable, r.allowedPublic);
    assert forall x :: x in r.publiclyReachable <==> Reached(obs, x);
    assert forall x :: x in r.unreviewed <==> Unreviewed(entries, obs, x);
    if |r.unreviewed| > 0 {
      assert r.unreviewed[0] in r.unreviewed;
    }
  }

  // ---- Against the gate ---------------------------------------------------------------

  function BucketResourceName(bucket: string): string {
    "bucket/" + bucket
  }

  predicate AtProbe(c: Caller) {
    PrincipalOf(c) == ANONYMOUS && c.addr == V4(PROBE)
  }

  /** A bucket observed as reachable was read by an anonymous caller at the probe, from a
      bucket the state declares. */
  ghost predicate BucketsSeenTruly(st: State, obs: seq<Observation>) {
    forall o, b :: o in obs && SeenFromInternet(o) && o.resource == BucketResourceName(b) ==>
      S.Declared(st, b) && exists c, key :: AtProbe(c) && A.ReadAllowed(st, c, b, key)
  }

  lemma PubliclyReadIsPublic(st: State, segments: seq<Segment>, entries: seq<Entry>, c: Caller, bucket: string,
      key: string)
    requires Admits(LiveDocument(st, segments), Some(entries))
    requires S.Declared(st, bucket) && AtProbe(c) && A.ReadAllowed(st, c, bucket, key)
    ensures Reviewed(entries, BucketResourceName(bucket))
  {
    hide Admits, LiveDocument, RangesCover, A.ReadAllowed;
    S.AdmittedReadsAreAllowlisted(st, segments, Some(entries), c, bucket, key);
    var e :| e in Entries(Some(entries)) && S.CoversRead(e, c, bucket);
    assert e in entries && OpenToAll(e);
    assert NamesResource(e, "bucket/" + bucket) by { assert "bucket" + "/" == "bucket/"; }
  }

  /** Clean live state has no unreviewed public bucket: whatever the verdict, an admitted
      state observed truly never has a bucket among the unreviewed resources. */
  lemma NoBucketIsUnreviewed(st: State, segments: seq<Segment>, entries: seq<Entry>, obs: seq<Observation>,
      bucket: string)
    requires Admits(LiveDocument(st, segments), Some(entries))
    requires BucketsSeenTruly(st, obs)
    ensures BucketResourceName(bucket) !in ReconcileOf(entries, obs).unreviewed
  {
    hide Admits, LiveDocument, RangesCover, A.ReadAllowed, ReconcileOf, Public;
    ReconcileMeaning(entries, obs);
    var x := BucketResourceName(bucket);
    if Unreviewed(entries, obs, x) {
      var o :| o in obs && SeenFromInternet(o) && o.resource == x;
      assert S.Declared(st, bucket) && exists c, key :: AtProbe(c) && A.ReadAllowed(st, c, bucket, key);
      var c, key :| AtProbe(c) && A.ReadAllowed(st, c, bucket, key);
      PubliclyReadIsPublic(st, segments, entries, c, bucket, key);
    }
  }

  /** Ports never match: an entry of either kind the gate uses spells no observed port, so
      a port seen from the public segment always fails the reconciliation. */
  lemma ReachedPortFails(entries: seq<Entry>, obs: seq<Observation>, o: Observation, port: string)
    requires forall e :: e in entries ==> e.kind == "bucket" || e.kind == "workload_port"
    requires o in obs && SeenFromInternet(o) && o.resource == "workload/" + port
    ensures ReconcileOf(entries, obs).verdict.Fail? && o.resource in ReconcileOf(entries, obs).unreviewed
  {
    hide ReconcileOf, OpenToAll;
    forall e | e in entries ensures !NamesResource(e, o.resource) {
      assert o.resource[0] == 'w' && o.resource[8] == '/';
      if e.kind == "bucket" {
        assert (e.kind + "/" + e.name)[0] == 'b';
      } else {
        assert (e.kind + "/" + e.name)[8] == '_';
      }
    }
    ReconcileMeaning(entries, obs);
    assert Unreviewed(entries, obs, o.resource);
  }

  ghost predicate NamesPort(o: Observation) {
    exists port: string :: o.resource == "workload/" + port
  }

  ghost predicate NamesBucket(o: Observation) {
    exists bucket: string :: o.resource == BucketResourceName(bucket)
  }

  /** For an admitted state whose buckets are observed truly, with clients that report
      buckets and ports, the verdict is FAIL if and only if some port was reached. */
  lemma FailsIffPortReached(st: State, segments: seq<Segment>, entries: seq<Entry>, obs: seq<Observation>)
    requires Admits(LiveDocument(st, segments), Some(entries)) && BucketsSeenTruly(st, obs)
    requires forall e :: e in entries ==> e.kind == "bucket" || e.kind == "workload_port"
    requires forall o :: o in obs && SeenFromInternet(o) ==> NamesPort(o) || NamesBucket(o)
    ensures ReconcileOf(entries, obs).verdict.Fail? <==> exists o :: o in obs && SeenFromInternet(o) && NamesPort(o)
  {
    hide Admits, LiveDocument, ReconcileOf, Public, BucketsSeenTruly;
    ReconcileMeaning(entries, obs);
    if ReconcileOf(entries, obs).verdict.Fail? {
      var x :| Unreviewed(entries, obs, x);
      var o :| o in obs && SeenFromInternet(o) && o.resource == x;
      if NamesBucket(o) {
        var bucket: string :| o.resource == BucketResourceName(bucket);
        NoBucketIsUnreviewed(st, segments, entries, obs, bucket);
      }
    }
    if o :| o in obs && SeenFromInternet(o) && NamesPort(o) {
      var port: string :| o.resource == "workload/" + port;
      ReachedPortFails(entries, obs, o, port);
    }
  }

  /** One such run: the gate admits the port, the platform lets the probe connect, and the
      reconciliation fails. */
  lemma AdmittedPortFails(c: Caller, st: State, entry: Entry, o: Observation)
    requires st == R.OnePort() && entry == Entry("r", "workload_port", "w:p", [], [EVERYWHERE])
    requires AtProbe(c) && R.Classified(st, c)
    requires o == Observation(c.segment, "workload/" + "w:p", true, 200, "")
    ensures Store.Tidy(st)
    ensures Admits(LiveDocument(st, st.segments), Some([entry])) && A.ConnectDecision(st, c, "w", "p").0.allowed
    ensures ReconcileOf([entry], [o]).verdict.Fail?
  {
    hide Admits, LiveDocument, A.ConnectDecision, ReconcileOf, R.Classified, Store.Tidy;
    R.EveryoneIsOnTheInternet(st, c);
    R.SomeAdmittedStateAllowsConnects(c, st, entry);
    ReachedPortFails([entry], [o], o, "w:p");
  }

  // ---- Comparing observation sets -----------------------------------------------------

  /** One document on the stream: undecodable, or an observation set. */
  datatype Item = Undecodable | ObservationSet(document: string, observations: seq<Observation>)

  /** The map a set induces: for each resource seen from the internet, its last word on it. */
  function Induced(obs: seq<Observation>): map<string, bool> {
    if obs == [] then map[]
    else
      var n := |obs| - 1;
      if FromInternet(obs[n]) then Induced(obs[..n])[obs[n].resource := obs[n].reachable] else Induced(obs[..n])
  }

  ghost predicate LastWord(obs: seq<Observation>, x: string, i: int) {
    && 0 <= i < |obs| && obs[i].segment == "internet" && obs[i].resource == x
    && forall j :: i < j < |obs| ==> !(obs[j].segment == "internet" && obs[j].resource == x)
  }

  lemma {:induction false} InducedMeaning(obs: seq<Observation>, x: string)
    ensures x in Induced(obs) <==> exists i :: LastWord(obs, x, i)
    ensures forall i :: LastWord(obs, x, i) ==> Induced(obs)[x] == obs[i].reachable
  {
    if obs != [] {
      var n := |obs| - 1;
      InducedMeaning(obs[..n], x);
      if FromInternet(obs[n]) && obs[n].resource == x {
        assert LastWord(obs, x, n);
        assert forall i :: LastWord(obs, x, i) ==> i == n;
      } else {
        forall i ensures LastWord(obs, x, i) <==> LastWord(obs[..n], x, i) {
        }
      }
    }
  }

  ghost predicate Reports(item: Item) {
    item.ObservationSet? && item.document == OBSERVATION_DOCUMENT && Induced(item.observations) != map[]
  }

  /** At least two sets, each with something to say, all saying the same. */
  ghost predicate Agree(stream: seq<Item>) {
    && |stream| >= 2
    && (forall i :: 0 <= i < |stream| ==> Reports(stream[i]))
    && forall i, j :: 0 <= i < |stream| && 0 <= j < |stream| ==>
         Induced(stream[i].observations) == Induced(stream[j].observations)
  }

  ghost predicate AgreeSoFar(stream: seq<Item>, n: nat, first: map<string, bool>)
    requires n <= |stream|
  {
    forall i :: 0 <= i < n ==> Reports(stream[i]) && Induced(stream[i].observations) == first
  }

  lemma SubmapOfEqualSize<K, V>(a: map<K, V>, b: map<K, V>)
    requires |a| == |b| && forall k :: k in a ==> k in b && b[k] == a[k]
    ensures a == b
  {
    assert a.Keys <= b.Keys;
    assert |a.Keys| == |a| && |b.Keys| == |b|;
    SubsetOfEqualSize(a.Keys, b.Keys);
    assert forall k :: k in b <==> k in b.Keys;
  }

  lemma SubsetOfEqualSize<K>(a: set<K>, b: set<K>)
    requires a <= b && |a| == |b|
    ensures a == b
  {
    assert b == a + (b - a);
    assert |b| == |a| + |b - a|;
  }

  method InternetView(obs: seq<Observation>) returns (current: map<string, bool>)
    ensures current == Induced(obs)
  {
    current := map[];
    for i := 0 to |obs|
      invariant current == Induced(obs[..i])
    {
      assert obs[..i + 1][..i] == obs[..i] && obs[..i + 1][i] == obs[i];
      if obs[i].segment != SEGMENT_INTERNET {
        continue;
      }
      current := current[obs[i].resource := obs[i].reachable];
    }
    assert obs[..|obs|] == obs;
  }

  /** Sizes, and one direction only. */
  method SameReachability(first: map<string, bool>, current: map<string, bool>) returns (same: bool)
    ensures same <==> first == current
  {
    if |first| != |current| {
      return false;
    }
    var left := current.Keys;
    while left != {}
      invariant left <= current.Keys
      invariant forall k :: k in current && k !in left ==> k in first && first[k] == current[k]
    {
      var k :| k in left;
      if k !in first {
        assert k in current;
        return false;
      }
      if first[k] != current[k] {
        return false;
      }
      left := left - {k};
    }
    SubmapOfEqualSize(current, first);
    return true;
  }

  method CompareReachability(stream: seq<Item>) returns (accepted: bool)
    ensures accepted <==> Agree(stream)
  {
    hide Induced;
    var first: map<string, bool> := map[];
    var seen := 0;
    for i := 0 to |stream|
      invariant seen == i
      invariant i > 0 ==> Reports(stream[0]) && first == Induced(stream[0].observations)
      invariant AgreeSoFar(stream, i, first)
    {
      var item := stream[i];
      if item.Undecodable? || item.document != OBSERVATION_DOCUMENT {
        assert !Reports(stream[i]);
        return false;
      }
      var current := InternetView(item.observations);
      if |current| == 0 {
        assert !Reports(stream[i]);
        return false;
      }
      seen := seen + 1;
      if seen == 1 {
        first := current;
        continue;
      }
      var same := SameReachability(first, current);
      if !same {
        assert Induced(stream[i].observations) != Induced(stream[0].observations);
        return false;
      }
    }
    accepted := seen >= 2;
  }

  /** Acceptance depends on which sets are on the stream, not on their order. */
  lemma AgreementIgnoresOrder(a: seq<Item>, b: seq<Item>)
    requires multiset(a) == multiset(b)
    ensures Agree(a) <==> Agree(b)
  {
    AgreementMoves(a, b);
    AgreementMoves(b, a);
  }

  lemma AgreementMoves(a: seq<Item>, b: seq<Item>)
    requires multiset(a) == multiset(b)
    ensures Agree(a) ==> Agree(b)
  {
    hide Induced;
    assert |a| == |multiset(a)| == |multiset(b)| == |b|;
    if Agree(a) {
      forall j | 0 <= j < |b| ensures Reports(b[j]) && Induced(b[j].observations) == Induced(a[0].observations) {
        assert b[j] in multiset(b);
        assert b[j] in multiset(a);
        var i :| 0 <= i < |a| && a[i] == b[j];
      }
    }
  }
}
