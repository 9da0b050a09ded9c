/** The control plane's store: typed operations over sorted collections. */
module Store {
  import opened Options
  import opened Cidr
  import opened Intervals
  import opened Order
  import opened Platform
  import NetSet
  import Digests

  function SegmentName(s: Segment): string { s.name }
  function PrincipalName(p: Principal): string { p.name }
  function BucketName(b: Bucket): string { b.name }
  function ObjectKey(o: Object): (string, string) { (o.bucket, o.key) }
  function GrantId(g: Grant): string { g.id }
  function WorkloadName(w: Workload): string { w.name }
  function RuleId(r: NetworkRule): string { r.id }
  function SeqOf(e: LedgerEntry): int { e.seqNo }

  // ---- Operations as functions --------------------------------------------------------

  /** Every collection in its canonical order. */
  function Normalized(st: State): State {
    State(Sort(st.segments, SegmentName, StringLe),
          Sort(st.principals, PrincipalName, StringLe),
          Sort(st.buckets, BucketName, StringLe),
          Sort(st.objects, ObjectKey, PairLe),
          Sort(st.grants, GrantId, StringLe),
          Sort(st.workloads, WorkloadName, StringLe),
          Sort(st.networkRules, RuleId, StringLe),
          Sort(st.ledger, SeqOf, IntLe))
  }

  function Stored(o: Object, body: string): Object {
    o.(body := body, size := |body|, contentDigest := Digests.Digest(body))
  }

  /** Split at the first slash. */
  function CutSlash(id: string): Option<(string, string)> {
    if id == "" then None
    else if id[0] == '/' then Some(("", id[1..]))
    else match CutSlash(id[1..])
      case None => None
      case Some((b, k)) => Some(([id[0]] + b, k))
  }

  /** The identifier is the bucket, the slash and the key, and the bucket ends before the
      first slash. */
  ghost predicate SlashSplit(id: string, bucket: string, key: string) {
    id == bucket + "/" + key && '/' !in bucket
  }

  lemma CutSlashMeaning(id: string)
    ensures forall b, k :: CutSlash(id) == Some((b, k)) <==> SlashSplit(id, b, k)
    ensures CutSlash(id) == None <==> '/' !in id
  {
    hide CutSlash, SlashSplit;
    forall b, k ensures CutSlash(id) == Some((b, k)) <==> SlashSplit(id, b, k) { CutSlashAt(id, b, k); }
    CutSlashFails(id);
  }

  lemma {:induction false} CutSlashFails(id: string)
    ensures CutSlash(id) == None <==> '/' !in id
  {
    if id != "" {
      assert id == [id[0]] + id[1..];
      CutSlashFails(id[1..]);
    }
  }

  lemma {:induction false} CutSlashAt(id: string, b: string, k: string)
    ensures CutSlash(id) == Some((b, k)) <==> SlashSplit(id, b, k)
  {
    if id == "" || id[0] == '/' {
      assert b == "" ==> (b + "/" + k)[1..] == k;
      assert b != "" ==> (b + "/" + k)[0] == b[0] && b[0] in b;
      assert id != "" ==> "" + "/" + id[1..] == id;
    } else if b == "" {
      assert (b + "/" + k)[0] == '/';
      assert CutSlash(id) != Some((b, k));
    } else {
      CutSlashAt(id[1..], b[1..], k);
      assert b == [b[0]] + b[1..];
      assert b + "/" + k == [b[0]] + (b[1..] + "/" + k);
      assert id == [id[0]] + id[1..];
      if CutSlash(id) == Some((b, k)) {
        assert b == [id[0]] + CutSlash(id[1..]).value.0;
        assert b[1..] == CutSlash(id[1..]).value.0;
      }
    }
  }

  datatype Op =
    | PutBucket(b: Bucket)
    | PutObject(o: Object, body: string)
    | PutGrant(g: Grant)
    | PutWorkload(w: Workload)
    | PutRule(r: NetworkRule)
    | PutPrincipal(p: Principal)
    | Delete(kind: string, id: string)
    | Record(action: string, resource: string, caller: Caller, detail: string)

  /** The state with one resource removed; None when there is no such resource. */
  function Deleted(st: State, kind: string, id: string): Option<State> {
    match kind
    case "bucket" =>
      var l := Without(st.buckets, id, BucketName);
      if |l| == |st.buckets| then None else Some(Normalized(st.(buckets := l)))
    case "grant" =>
      var l := Without(st.grants, id, GrantId);
      if |l| == |st.grants| then None else Some(Normalized(st.(grants := l)))
    case "network_rule" =>
      var l := Without(st.networkRules, id, RuleId);
      if |l| == |st.networkRules| then None else Some(Normalized(st.(networkRules := l)))
    case "workload" =>
      var l := Without(st.workloads, id, WorkloadName);
      if |l| == |st.workloads| then None else Some(Normalized(st.(workloads := l)))
    case "object" =>
      (match CutSlash(id)
       case None => None
       case Some(bk) =>
         var l := Without(st.objects, bk, ObjectKey);
         if |l| == |st.objects| then None else Some(Normalized(st.(objects := l))))
    case _ => None
  }

  function Row(seqNo: int, op: Op): LedgerEntry
    requires op.Record?
  {
    LedgerEntry(seqNo, op.action, op.resource, PrincipalOf(op.caller), op.caller.segment, op.detail)
  }

  /** The store's whole content: its state and its last sequence number. */
  datatype Content = Content(state: State, seqNo: int)

  function Apply(c: Content, op: Op): Content {
    var st := c.state;
    match op
    case PutBucket(b) => c.(state := Normalized(st.(buckets := Upserted(st.buckets, b, BucketName))))
    case PutObject(o, body) => c.(state := Normalized(st.(objects := Upserted(st.objects, Stored(o, body), ObjectKey))))
    case PutGrant(g) => c.(state := Normalized(st.(grants := Upserted(st.grants, g, GrantId))))
    case PutWorkload(w) => c.(state := Normalized(st.(workloads := Upserted(st.workloads, w, WorkloadName))))
    case PutRule(r) => c.(state := Normalized(st.(networkRules := Upserted(st.networkRules, r, RuleId))))
    case PutPrincipal(p) => c.(state := Normalized(st.(principals := Upserted(st.principals, p, PrincipalName))))
    case Delete(kind, id) => (match Deleted(st, kind, id) case None => c case Some(s) => c.(state := s))
    case Record(_, _, _, _) => Content(st.(ledger := st.ledger + [Row(c.seqNo + 1, op)]), c.seqNo + 1)
  }

  function LargestSeq(ledger: seq<LedgerEntry>): int {
    if ledger == [] then 0
    else
      var n := |ledger| - 1;
      var before := LargestSeq(ledger[..n]);
      if ledger[n].seqNo > before then ledger[n].seqNo else before
  }

  // ---- The class ----------------------------------------------------------------------

  /** Replace in place or append. */
  method Upsert<T, K(==)>(list: seq<T>, v: T, key: T -> K) returns (r: seq<T>)
    ensures r == Upserted(list, v, key)
  {
    for i := 0 to |list|
      invariant Upserted(list, v, key) == list[..i] + Upserted(list[i..], v, key)
    {
      if key(list[i]) == key(v) {
        return list[i := v];
      }
      assert list[i..][1..] == list[i + 1..] && list[..i + 1] == list[..i] + [list[i]];
    }
    assert list[|list|..] == [] && list[..|list|] == list;
    return list + [v];
  }

  class Store {
    var state: State
    var seqNo: int

    ghost function Contents(): Content
      reads this
    {
      Content(state, seqNo)
    }

    constructor New(segments: seq<Segment>)
      ensures state == Normalized(State(segments, [], [], [], [], [], [], [])) && seqNo == 0
    {
      state := Normalized(State(segments, [], [], [], [], [], [], []));
      seqNo := 0;
    }

    method Normalize()
      modifies this`state
      ensures state == Normalized(old(state))
    {
      state := state.(segments := Sort(state.segments, SegmentName, StringLe));
      state := state.(principals := Sort(state.principals, PrincipalName, StringLe));
      state := state.(buckets := Sort(state.buckets, BucketName, StringLe));
      state := state.(objects := Sort(state.objects, ObjectKey, PairLe));
      state := state.(grants := Sort(state.grants, GrantId, StringLe));
      state := state.(workloads := Sort(state.workloads, WorkloadName, StringLe));
      state := state.(networkRules := Sort(state.networkRules, RuleId, StringLe));
      state := state.(ledger := Sort(state.ledger, SeqOf, IntLe));
    }

    /** Forgets the old content; the counter restarts at the largest number in the new ledger. */
    method Load(st: State)
      modifies this
      ensures state == Normalized(st) && seqNo == LargestSeq(st.ledger)
    {
      state := st;
      seqNo := 0;
      for i := 0 to |state.ledger|
        invariant state == st && seqNo == LargestSeq(st.ledger[..i])
      {
        assert st.ledger[..i + 1][..i] == st.ledger[..i];
        if state.ledger[i].seqNo > seqNo {
          seqNo := state.ledger[i].seqNo;
        }
      }
      assert st.ledger[..|st.ledger|] == st.ledger;
      Normalize();
    }

    method PutObject(o: Object, body: string)
      modifies this`state
      ensures Contents() == Apply(old(Contents()), Op.PutObject(o, body))
      ensures Object(o.bucket, o.key, o.contentType, |body|, Digests.Digest(body), body) in state.objects
    {
      var stored := o.(body := body, size := |body|, contentDigest := Digests.Digest(body));
      var list := Upsert(state.objects, stored, ObjectKey);
      state := state.(objects := list);
      UpsertedHas(old(state).objects, stored, ObjectKey);
      SortKeepsMembers(list, ObjectKey, PairLe);
      Normalize();
    }

    method PutBucket(b: Bucket)
      modifies this`state
      ensures Contents() == Apply(old(Contents()), Op.PutBucket(b))
    {
      var list := Upsert(state.buckets, b, BucketName);
      state := state.(buckets := list);
      Normalize();
    }

    method PutGrant(g: Grant)
      modifies this`state
      ensures Contents() == Apply(old(Contents()), Op.PutGrant(g))
    {
      var list := Upsert(state.grants, g, GrantId);
      state := state.(grants := list);
      Normalize();
    }

    method PutWorkload(w: Workload)
      modifies this`state
      ensures Contents() == Apply(old(Contents()), Op.PutWorkload(w))
    {
      var list := Upsert(state.workloads, w, WorkloadName);
      state := state.(workloads := list);
      Normalize();
    }

    method PutNetworkRule(r: NetworkRule)
      modifies this`state
      ensures Contents() == Apply(old(Contents()), Op.PutRule(r))
    {
      var list := Upsert(state.networkRules, r, RuleId);
      state := state.(networkRules := list);
      Normalize();
    }

    method PutPrincipal(p: Principal)
      modifies this`state
      ensures Contents() == Apply(old(Contents()), Op.PutPrincipal(p))
    {
      var list := Upsert(state.principals, p, PrincipalName);
      state := state.(principals := list);
      Normalize();
    }

    /** Removes one resource; not found changes nothing. */
    method Delete(kind: string, id: string) returns (ok: bool)
      modifies this`state
      ensures ok <==> Deleted(old(state), kind, id).Some?
      ensures Contents() == Apply(old(Contents()), Op.Delete(kind, id))
    {
      if kind == "bucket" {
        var before := |state.buckets|;
        var left := Without(state.buckets, id, BucketName);
        if |left| == before { return false; }
        state := state.(buckets := left);
      } else if kind == "grant" {
        var before := |state.grants|;
        var left := Without(state.grants, id, GrantId);
        if |left| == before { return false; }
        state := state.(grants := left);
      } else if kind == "network_rule" {
        var before := |state.networkRules|;
        var left := Without(state.networkRules, id, RuleId);
        if |left| == before { return false; }
        state := state.(networkRules := left);
      } else if kind == "workload" {
        var before := |state.workloads|;
        var left := Without(state.workloads, id, WorkloadName);
        if |left| == before { return false; }
        state := state.(workloads := left);
      } else if kind == "object" {
        var cut := CutSlash(id);
        if cut.None? { return false; }
        var before := |state.objects|;
        var left := Without(state.objects, cut.value, ObjectKey);
        if |left| == before { return false; }
        state := state.(objects := left);
      } else {
        return false;
      }
      Normalize();
      return true;
    }

    /** Numbers the row with the incremented counter and returns it. */
    method Record(action: string, resource: string, c: Caller, detail: string) returns (e: LedgerEntry)
      modifies this
      ensures Contents() == Apply(old(Contents()), Op.Record(action, resource, c, detail))
      ensures e == state.ledger[|state.ledger| - 1]
      ensures e == LedgerEntry(old(seqNo) + 1, action, resource, if c.principal == "" then "*" else c.principal,
                               c.segment, detail)
    {
      seqNo := seqNo + 1;
      var principal := if c.principal == "" then ANONYMOUS else c.principal;
      e := LedgerEntry(seqNo, action, resource, principal, c.segment, detail);
      state := state.(ledger := state.ledger + [e]);
    }

    /** The first readable segment that contains the address, or none. */
    method SegmentOf(a: NetSet.Address) returns (name: string)
      ensures name == SegmentFor(state.segments, a)
    {
      for i := 0 to |state.segments|
        invariant SegmentFor(state.segments, a) == SegmentFor(state.segments[i..], a)
      {
        var seg := state.segments[i];
        assert state.segments[i..][1..] == state.segments[i + 1..];
        var s := NetSet.Set.Parse([seg.cidr]);
        ParseAllMeaning([seg.cidr]);
        assert forall v: int :: RangesCover([seg.cidr], v) <==> InRange([seg.cidr][0], v);
        if s == null {
          continue;
        }
        var inside := NetSet.Set.Contains(s, a);
        if inside {
          return seg.name;
        }
      }
      return "";
    }
  }

  function SegmentFor(segments: seq<Segment>, a: NetSet.Address): string {
    if segments == [] then ""
    else if a.V4? && InRange(segments[0].cidr, a.addr) then segments[0].name
    else SegmentFor(segments[1..], a)
  }

  /** The segment of an address is the first one that is readable and contains it, and the
      empty text stands for none. */
  lemma SegmentMeaning(segments: seq<Segment>, a: NetSet.Address)
    ensures (forall s :: s in segments ==> !HasAddress(s, a)) ==> SegmentFor(segments, a) == ""
    ensures forall i :: FirstWith(segments, a, i) ==> SegmentFor(segments, a) == segments[i].name
  {
    hide HasAddress, SegmentFor;
    if forall s :: s in segments ==> !HasAddress(s, a) { NoSegment(segments, a); }
    forall i | FirstWith(segments, a, i) ensures SegmentFor(segments, a) == segments[i].name {
      FirstSegment(segments, a, i);
    }
  }

  lemma {:induction false} NoSegment(segments: seq<Segment>, a: NetSet.Address)
    requires forall s :: s in segments ==> !HasAddress(s, a)
    ensures SegmentFor(segments, a) == ""
  {
    if segments != [] {
      assert !HasAddress(segments[0], a);
      NoSegment(segments[1..], a);
    }
  }

  lemma {:induction false} FirstSegment(segments: seq<Segment>, a: NetSet.Address, i: nat)
    requires FirstWith(segments, a, i)
    ensures SegmentFor(segments, a) == segments[i].name
  {
    if i > 0 {
      var rest := segments[1..];
      forall j | 0 <= j < i - 1 ensures !HasAddress(rest[j], a) { assert rest[j] == segments[j + 1]; }
      assert !HasAddress(segments[0], a);
      FirstSegment(rest, a, i - 1);
    }
  }

  ghost predicate FirstWith(segments: seq<Segment>, a: NetSet.Address, i: int) {
    0 <= i < |segments| && HasAddress(segments[i], a) && forall j :: 0 <= j < i ==> !HasAddress(segments[j], a)
  }

  ghost predicate HasAddress(s: Segment, a: NetSet.Address) {
    s.cidr.Block? && a.V4? && First(s.cidr) <= a.addr <= Last(s.cidr)
  }

  // ---- The invariant: sorted tables ---------------------------------------------------

  ghost predicate Tidy(st: State) {
    && Sorted(st.segments, SegmentName, StringLe)
    && Sorted(st.principals, PrincipalName, StringLe) && Unique(st.principals, PrincipalName)
    && Sorted(st.buckets, BucketName, StringLe) && Unique(st.buckets, BucketName)
    && Sorted(st.objects, ObjectKey, PairLe) && Unique(st.objects, ObjectKey)
    && Sorted(st.grants, GrantId, StringLe) && Unique(st.grants, GrantId)
    && Sorted(st.workloads, WorkloadName, StringLe) && Unique(st.workloads, WorkloadName)
    && Sorted(st.networkRules, RuleId, StringLe) && Unique(st.networkRules, RuleId)
    && Sorted(st.ledger, SeqOf, IntLe)
  }

  ghost predicate UniqueKeys(st: State) {
    && Unique(st.principals, PrincipalName) && Unique(st.buckets, BucketName)
    && Unique(st.objects, ObjectKey) && Unique(st.grants, GrantId)
    && Unique(st.workloads, WorkloadName) && Unique(st.networkRules, RuleId)
  }

  /** The finite maps a state denotes. */
  datatype Maps = Maps(
    principals: map<string, Principal>,
    buckets: map<string, Bucket>,
    objects: map<(string, string), Object>,
    grants: map<string, Grant>,
    workloads: map<string, Workload>,
    rules: map<string, NetworkRule>)

  ghost function MapsOf(st: State): Maps {
    Maps(AsMap(st.principals, PrincipalName), AsMap(st.buckets, BucketName), AsMap(st.objects, ObjectKey),
         AsMap(st.grants, GrantId), AsMap(st.workloads, WorkloadName), AsMap(st.networkRules, RuleId))
  }

  /** Which collection and key an operation writes; Nowhere for a ledger row and for a
      deletion that names nothing. */
  datatype Target = InPrincipals(n: string) | InBuckets(n: string) | InObjects(k: (string, string))
                  | InGrants(n: string) | InWorkloads(n: string) | InRules(n: string) | Nowhere

  function DeleteTarget(kind: string, id: string): Target {
    match kind
    case "bucket" => InBuckets(id)
    case "grant" => InGrants(id)
    case "network_rule" => InRules(id)
    case "workload" => InWorkloads(id)
    case "object" => (match CutSlash(id) case None => Nowhere case Some(bk) => InObjects(bk))
    case _ => Nowhere
  }

  function TargetOf(op: Op): Target {
    match op
    case PutBucket(b) => InBuckets(b.name)
    case PutObject(o, _) => InObjects((o.bucket, o.key))
    case PutGrant(g) => InGrants(g.id)
    case PutWorkload(w) => InWorkloads(w.name)
    case PutRule(r) => InRules(r.id)
    case PutPrincipal(p) => InPrincipals(p.name)
    case Delete(kind, id) => DeleteTarget(kind, id)
    case Record(_, _, _, _) => Nowhere
  }

  ghost function Cleared(m: Maps, t: Target): Maps {
    match t
    case InPrincipals(n) => m.(principals := m.principals - {n})
    case InBuckets(n) => m.(buckets := m.buckets - {n})
    case InObjects(k) => m.(objects := m.objects - {k})
    case InGrants(n) => m.(grants := m.grants - {n})
    case InWorkloads(n) => m.(workloads := m.workloads - {n})
    case InRules(n) => m.(rules := m.rules - {n})
    case Nowhere => m
  }

  ghost function ApplyMaps(m: Maps, op: Op): Maps {
    match op
    case PutBucket(b) => m.(buckets := m.buckets[b.name := b])
    case PutObject(o, body) => m.(objects := m.objects[(o.bucket, o.key) := Stored(o, body)])
    case PutGrant(g) => m.(grants := m.grants[g.id := g])
    case PutWorkload(w) => m.(workloads := m.workloads[w.name := w])
    case PutRule(r) => m.(rules := m.rules[r.id := r])
    case PutPrincipal(p) => m.(principals := m.principals[p.name := p])
    case Delete(kind, id) => Cleared(m, DeleteTarget(kind, id))
    case Record(_, _, _, _) => m
  }

  lemma Orders()
    ensures TotalOrder(StringLe) && TotalOrder(PairLe) && TotalOrder(IntLe)
  {
    StringOrder();
    PairOrder();
  }

  /** Normalization tidies any state with unique keys and keeps what it denotes. */
  lemma NormalizedIsTidy(st: State)
    requires UniqueKeys(st)
    ensures Tidy(Normalized(st)) && MapsOf(Normalized(st)) == MapsOf(st)
  {
    hide Sort, AsMap, StringLe, PairLe, TotalOrder, Sorted, Unique;
    Orders();
    SortSorted(st.segments, SegmentName, StringLe);
    SortKeepsTable(st.principals, PrincipalName, StringLe);
    SortKeepsTable(st.buckets, BucketName, StringLe);
    SortKeepsTable(st.objects, ObjectKey, PairLe);
    SortKeepsTable(st.grants, GrantId, StringLe);
    SortKeepsTable(st.workloads, WorkloadName, StringLe);
    SortKeepsTable(st.networkRules, RuleId, StringLe);
    SortSorted(st.ledger, SeqOf, IntLe);
  }

  lemma NothingRemoved<T(!new), K(!new)>(s: seq<T>, k: K, key: T -> K, le: (K, K) -> bool)
    requires Sorted(s, key, le) && Unique(s, key)
    ensures |Without(s, k, key)| == |s| <==> k !in AsMap(s, key)
  {
    WithoutKeepsOrder(s, k, key, le);
    AsMapEntries(s, key);
    if k in AsMap(s, key) { assert AsMap(s, key)[k] in s; }
  }

  /** Removing a key from a table: tidy, and the map without the key, whether or not the
      store reports it missing. */
  lemma RemovalMaps<T(!new), K(!new)>(s: seq<T>, k: K, key: T -> K, le: (K, K) -> bool)
    requires Sorted(s, key, le) && Unique(s, key)
    ensures Unique(Without(s, k, key), key) && AsMap(Without(s, k, key), key) == AsMap(s, key) - {k}
    ensures |Without(s, k, key)| == |s| ==> AsMap(s, key) - {k} == AsMap(s, key)
  {
    WithoutMap(s, k, key);
    NothingRemoved(s, k, key, le);
  }

  lemma DeleteRefines(c: Content, kind: string, id: string)
    requires Tidy(c.state)
    ensures Tidy(Apply(c, Delete(kind, id)).state)
    ensures MapsOf(Apply(c, Delete(kind, id)).state) == ApplyMaps(MapsOf(c.state), Delete(kind, id))
  {
    hide Without, AsMap, Sorted, Unique, Normalized, StringLe, PairLe;
    var st := c.state;
    match kind
    case "bucket" =>
      RemovalMaps(st.buckets, id, BucketName, StringLe);
      NormalizedIsTidy(st.(buckets := Without(st.buckets, id, BucketName)));
    case "grant" =>
      RemovalMaps(st.grants, id, GrantId, StringLe);
      NormalizedIsTidy(st.(grants := Without(st.grants, id, GrantId)));
    case "network_rule" =>
      RemovalMaps(st.networkRules, id, RuleId, StringLe);
      NormalizedIsTidy(st.(networkRules := Without(st.networkRules, id, RuleId)));
    case "workload" =>
      RemovalMaps(st.workloads, id, WorkloadName, StringLe);
      NormalizedIsTidy(st.(workloads := Without(st.workloads, id, WorkloadName)));
    case "object" =>
      var cut := CutSlash(id);
      if cut.Some? {
        RemovalMaps(st.objects, cut.value, ObjectKey, PairLe);
        NormalizedIsTidy(st.(objects := Without(st.objects, cut.value, ObjectKey)));
      }
    case _ =>
  }

  ghost predicate SeqInvariant(c: Content) {
    forall e :: e in c.state.ledger ==> e.seqNo <= c.seqNo
  }

  /** One operation on the store is one operation on the maps, and keeps it tidy. */
  lemma OperationRefines(c: Content, op: Op)
    requires Tidy(c.state) && SeqInvariant(c)
    ensures Tidy(Apply(c, op).state)
    ensures MapsOf(Apply(c, op).state) == ApplyMaps(MapsOf(c.state), op)
  {
    hide Upserted, AsMap, Unique, Normalized, StringLe, PairLe, Deleted;
    var st := c.state;
    match op
    case PutBucket(b) =>
      UpsertedMap(st.buckets, b, BucketName);
      NormalizedIsTidy(st.(buckets := Upserted(st.buckets, b, BucketName)));
    case PutObject(o, body) =>
      UpsertedMap(st.objects, Stored(o, body), ObjectKey);
      NormalizedIsTidy(st.(objects := Upserted(st.objects, Stored(o, body), ObjectKey)));
    case PutGrant(g) =>
      UpsertedMap(st.grants, g, GrantId);
      NormalizedIsTidy(st.(grants := Upserted(st.grants, g, GrantId)));
    case PutWorkload(w) =>
      UpsertedMap(st.workloads, w, WorkloadName);
      NormalizedIsTidy(st.(workloads := Upserted(st.workloads, w, WorkloadName)));
    case PutRule(r) =>
      UpsertedMap(st.networkRules, r, RuleId);
      NormalizedIsTidy(st.(networkRules := Upserted(st.networkRules, r, RuleId)));
    case PutPrincipal(p) =>
      UpsertedMap(st.principals, p, PrincipalName);
      NormalizedIsTidy(st.(principals := Upserted(st.principals, p, PrincipalName)));
    case Delete(kind, id) =>
      DeleteRefines(c, kind, id);
    case Record(_, _, _, _) =>
      AppendKeepsLedgerSorted(c, op);
  }

  lemma AppendKeepsLedgerSorted(c: Content, op: Op)
    requires op.Record? && Sorted(c.state.ledger, SeqOf, IntLe) && SeqInvariant(c)
    ensures Sorted(c.state.ledger + [Row(c.seqNo + 1, op)], SeqOf, IntLe)
  {
    var l := c.state.ledger;
    forall i | 0 <= i < |l| ensures SeqOf(l[i]) <= c.seqNo { assert l[i] in l; }
  }

  lemma LedgerUntouched(c: Content, op: Op)
    requires Tidy(c.state) && !op.Record?
    ensures Apply(c, op).state.ledger == c.state.ledger && Apply(c, op).seqNo == c.seqNo
    ensures Apply(c, op).state.segments == c.state.segments
  {
    hide Sort, StringLe, Sorted, Unique, Upserted, Without;
    Orders();
    SortFixpoint(c.state.ledger, SeqOf, IntLe);
    SortFixpoint(c.state.segments, SegmentName, StringLe);
  }

  lemma SeqInvariantKept(c: Content, op: Op)
    requires Tidy(c.state) && SeqInvariant(c)
    ensures SeqInvariant(Apply(c, op))
  {
    if !op.Record? { LedgerUntouched(c, op); }
  }

  // ---- Whole runs ---------------------------------------------------------------------

  function Run(c: Content, ops: seq<Op>): Content
    decreases |ops|
  {
    if ops == [] then c else Run(Apply(c, ops[0]), ops[1..])
  }

  ghost function RunMaps(m: Maps, ops: seq<Op>): Maps
    decreases |ops|
  {
    if ops == [] then m else RunMaps(ApplyMaps(m, ops[0]), ops[1..])
  }

  /** Every sequence of operations keeps every collection a sorted table, and the maps it
      denotes are those of the abstract run. */
  lemma {:induction false} RunRefinesMaps(c: Content, ops: seq<Op>)
    requires Tidy(c.state) && SeqInvariant(c)
    ensures Tidy(Run(c, ops).state) && SeqInvariant(Run(c, ops))
    ensures MapsOf(Run(c, ops).state) == RunMaps(MapsOf(c.state), ops)
    ensures Run(c, ops).state.segments == c.state.segments
    decreases |ops|
  {
    hide Apply, ApplyMaps, MapsOf, Tidy, SeqInvariant;
    if ops != [] {
      OperationRefines(c, ops[0]);
      SeqInvariantKept(c, ops[0]);
      SegmentsUntouched(c, ops[0]);
      RunRefinesMaps(Apply(c, ops[0]), ops[1..]);
    }
  }

  lemma SegmentsUntouched(c: Content, op: Op)
    requires Tidy(c.state)
    ensures Apply(c, op).state.segments == c.state.segments
  {
    if !op.Record? { LedgerUntouched(c, op); }
  }

  /** A fresh store, and a store loaded from unique keys, start tidy. */
  lemma StartsTidy(st: State)
    requires UniqueKeys(st)
    ensures Tidy(Normalized(st)) && SeqInvariant(Content(Normalized(st), LargestSeq(st.ledger)))
  {
    NormalizedIsTidy(st);
    SortKeepsMembers(st.ledger, SeqOf, IntLe);
    LargestSeqBounds(st.ledger);
  }

  /** The counter resumes at the largest number there is, or at zero. */
  lemma {:induction false} LargestSeqBounds(ledger: seq<LedgerEntry>)
    ensures 0 <= LargestSeq(ledger) && forall e :: e in ledger ==> e.seqNo <= LargestSeq(ledger)
    ensures LargestSeq(ledger) == 0 || exists e :: e in ledger && e.seqNo == LargestSeq(ledger)
  {
    if ledger != [] {
      var n := |ledger| - 1;
      LargestSeqBounds(ledger[..n]);
      assert ledger == ledger[..n] + [ledger[n]];
    }
  }

  /** The configured view: everything but the ledger, which is what is digested. */
  function Configured(st: State): State {
    st.(ledger := [])
  }

  /** Tidy states that denote the same maps hold the same sequences. */
  lemma TidyCanonical(a: State, b: State)
    requires Tidy(a) && Tidy(b) && MapsOf(a) == MapsOf(b) && a.segments == b.segments
    ensures Configured(a) == Configured(b)
  {
    hide AsMap, Sorted, Unique, StringLe, PairLe, TotalOrder;
    Orders();
    TableCanonical(a.principals, b.principals, PrincipalName, StringLe);
    TableCanonical(a.buckets, b.buckets, BucketName, StringLe);
    TableCanonical(a.objects, b.objects, ObjectKey, PairLe);
    TableCanonical(a.grants, b.grants, GrantId, StringLe);
    TableCanonical(a.workloads, b.workloads, WorkloadName, StringLe);
    TableCanonical(a.networkRules, b.networkRules, RuleId, StringLe);
  }

  /** Two runs with the same final maps reach the same configured state. */
  lemma SameMapsSameState(c: Content, xs: seq<Op>, ys: seq<Op>)
    requires Tidy(c.state) && SeqInvariant(c)
    ensures RunMaps(MapsOf(c.state), xs) == RunMaps(MapsOf(c.state), ys)
       <==> Configured(Run(c, xs).state) == Configured(Run(c, ys).state)
  {
    hide Tidy, SeqInvariant, Run, RunMaps;
    RunRefinesMaps(c, xs);
    RunRefinesMaps(c, ys);
    var a, b := Run(c, xs).state, Run(c, ys).state;
    if MapsOf(a) == MapsOf(b) { TidyCanonical(a, b); }
    if Configured(a) == Configured(b) { SameConfiguredSameMaps(a, b); }
  }

  lemma SameConfiguredSameMaps(a: State, b: State)
    requires Configured(a) == Configured(b)
    ensures MapsOf(a) == MapsOf(b)
  {
  }

  /** What an operation does to one of the maps. */
  datatype Edit<K, V> = Keep | Assign(k: K, v: V) | Drop(k: K)

  ghost function Edited<K, V>(m: map<K, V>, e: Edit<K, V>): map<K, V> {
    match e case Keep => m case Assign(k, v) => m[k := v] case Drop(k) => m - {k}
  }

  lemma EditsCommute<K, V>(m: map<K, V>, x: Edit<K, V>, y: Edit<K, V>)
    requires x.Keep? || y.Keep? || x.k != y.k
    ensures Edited(Edited(m, x), y) == Edited(Edited(m, y), x)
  {
  }

  datatype Edits = Edits(
    principals: Edit<string, Principal>,
    buckets: Edit<string, Bucket>,
    objects: Edit<(string, string), Object>,
    grants: Edit<string, Grant>,
    workloads: Edit<string, Workload>,
    rules: Edit<string, NetworkRule>)

  function ClearingEdits(t: Target): Edits {
    var none := Edits(Keep, Keep, Keep, Keep, Keep, Keep);
    match t
    case InPrincipals(n) => none.(principals := Drop(n))
    case InBuckets(n) => none.(buckets := Drop(n))
    case InObjects(k) => none.(objects := Drop(k))
    case InGrants(n) => none.(grants := Drop(n))
    case InWorkloads(n) => none.(workloads := Drop(n))
    case InRules(n) => none.(rules := Drop(n))
    case Nowhere => none
  }

  function EditsOf(op: Op): Edits {
    var none := Edits(Keep, Keep, Keep, Keep, Keep, Keep);
    match op
    case PutBucket(b) => none.(buckets := Assign(b.name, b))
    case PutObject(o, body) => none.(objects := Assign((o.bucket, o.key), Stored(o, body)))
    case PutGrant(g) => none.(grants := Assign(g.id, g))
    case PutWorkload(w) => none.(workloads := Assign(w.name, w))
    case PutRule(r) => none.(rules := Assign(r.id, r))
    case PutPrincipal(p) => none.(principals := Assign(p.name, p))
    case Delete(kind, id) => ClearingEdits(DeleteTarget(kind, id))
    case Record(_, _, _, _) => none
  }

  ghost function EditAll(m: Maps, e: Edits): Maps {
    Maps(Edited(m.principals, e.principals), Edited(m.buckets, e.buckets), Edited(m.objects, e.objects),
         Edited(m.grants, e.grants), Edited(m.workloads, e.workloads), Edited(m.rules, e.rules))
  }

  lemma ClearedByEdits(m: Maps, t: Target)
    ensures Cleared(m, t) == EditAll(m, ClearingEdits(t))
  {
  }

  lemma ApplyByEdits(m: Maps, op: Op)
    ensures ApplyMaps(m, op) == EditAll(m, EditsOf(op))
  {
    hide DeleteTarget, Cleared, ClearingEdits, Stored;
    if op.Delete? {
      ClearedByEdits(m, DeleteTarget(op.kind, op.id));
    }
  }

  lemma DifferentTargets(x: Op, y: Op)
    requires TargetOf(x) != TargetOf(y) || TargetOf(x).Nowhere?
    ensures
      var e, f := EditsOf(x), EditsOf(y);
      && (e.principals.Keep? || f.principals.Keep? || e.principals.k != f.principals.k)
      && (e.buckets.Keep? || f.buckets.Keep? || e.buckets.k != f.buckets.k)
      && (e.objects.Keep? || f.objects.Keep? || e.objects.k != f.objects.k)
      && (e.grants.Keep? || f.grants.Keep? || e.grants.k != f.grants.k)
      && (e.workloads.Keep? || f.workloads.Keep? || e.workloads.k != f.workloads.k)
      && (e.rules.Keep? || f.rules.Keep? || e.rules.k != f.rules.k)
  {
    hide DeleteTarget;
  }

  lemma MapsCommute(m: Maps, x: Op, y: Op)
    requires TargetOf(x) != TargetOf(y) || TargetOf(x).Nowhere?
    ensures ApplyMaps(ApplyMaps(m, x), y) == ApplyMaps(ApplyMaps(m, y), x)
  {
    hide ApplyMaps, EditsOf, Edited, TargetOf;
    DifferentTargets(x, y);
    ApplyByEdits(m, x);
    ApplyByEdits(m, y);
    ApplyByEdits(ApplyMaps(m, x), y);
    ApplyByEdits(ApplyMaps(m, y), x);
    var e, f := EditsOf(x), EditsOf(y);
    EditsCommute(m.principals, e.principals, f.principals);
    EditsCommute(m.buckets, e.buckets, f.buckets);
    EditsCommute(m.objects, e.objects, f.objects);
    EditsCommute(m.grants, e.grants, f.grants);
    EditsCommute(m.workloads, e.workloads, f.workloads);
    EditsCommute(m.rules, e.rules, f.rules);
  }

  /** Operations on different keys commute. */
  lemma DifferentKeysCommute(c: Content, x: Op, y: Op)
    requires Tidy(c.state) && SeqInvariant(c)
    requires TargetOf(x) != TargetOf(y) || TargetOf(x).Nowhere?
    ensures Configured(Apply(Apply(c, x), y).state) == Configured(Apply(Apply(c, y), x).state)
  {
    hide Tidy, SeqInvariant, Apply, ApplyMaps, MapsOf;
    MapsCommute(MapsOf(c.state), x, y);
    OperationRefines(c, x);
    OperationRefines(c, y);
    SeqInvariantKept(c, x);
    SeqInvariantKept(c, y);
    OperationRefines(Apply(c, x), y);
    OperationRefines(Apply(c, y), x);
    SegmentsUntouched(c, x);
    SegmentsUntouched(c, y);
    SegmentsUntouched(Apply(c, x), y);
    SegmentsUntouched(Apply(c, y), x);
    TidyCanonical(Apply(Apply(c, x), y).state, Apply(Apply(c, y), x).state);
  }

  /** A ledger row never changes the configured view. */
  lemma RecordKeepsConfigured(c: Content, op: Op)
    requires op.Record?
    ensures Configured(Apply(c, op).state) == Configured(c.state)
    ensures Apply(c, op).state.ledger != c.state.ledger
  {
    assert |Apply(c, op).state.ledger| == |c.state.ledger| + 1;
  }
}
