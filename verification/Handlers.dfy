/** What one handler does when it runs by itself, said over its request and the collections
    of the store alone. */
module Handlers {
  import opened Options
  import opened Intervals
  import opened Order
  import opened Platform
  import opened Server
  import Digests
  import Store
  import A = Authz

  // ---- Authority ----------------------------------------------------------------------

  ghost function Who(c: Caller): string {
    if c.principal == "" then "*" else c.principal
  }

  ghost predicate WriteGrant(st: State, g: Grant, kind: string, name: string) {
    g in st.grants && g.resourceKind == kind && g.resourceName == name && "write" in g.actions
  }

  /** The caller may write the resource: its write grants are all readable, and one names the
      caller and covers its address. */
  ghost predicate Authorized(st: State, c: Caller, kind: string, name: string) {
    && (forall g :: WriteGrant(st, g, kind, name) ==> AllBlocks(g.sourceRanges))
    && c.addr.V4?
    && exists g :: WriteGrant(st, g, kind, name) && Who(c) in g.principals && RangesCover(g.sourceRanges, c.addr.addr)
  }

  lemma AuthorityAlike(st: State, c: Caller, kind: string, name: string)
    ensures MayWrite(st, c, kind, name) <==> Authorized(st, c, kind, name)
  {
    hide MayWrite, AllBlocks, RangesCover;
    MayWriteMeaning(st, c, kind, name);
    forall g ensures (g in st.grants && A.Names(g, kind, name, ACTION_WRITE)) <==> WriteGrant(st, g, kind, name) { }
    if Authorized(st, c, kind, name) {
      var g :| WriteGrant(st, g, kind, name) && Who(c) in g.principals && RangesCover(g.sourceRanges, c.addr.addr);
      assert A.Names(g, kind, name, ACTION_WRITE) && PrincipalOf(c) in {PrincipalOf(c)};
    }
  }

  // ---- Puts ---------------------------------------------------------------------------

  /** The payload holds an element of the kind with nothing empty that identifies it or the
      resource that guards it; what guards it, and how the ledger names it. */
  ghost predicate Guards(kind: string, p: Payload, guardKind: string, guardName: string, identity: string) {
    match kind
    case "bucket" =>
      && p.bucket.Some? && guardKind == "bucket"
      && guardName == p.bucket.value.name == identity && identity != ""
    case "object" =>
      && p.object_.Some? && guardKind == "bucket"
      && guardName == p.object_.value.bucket && guardName != "" && p.object_.value.key != ""
      && identity == guardName + "/" + p.object_.value.key
    case "grant" =>
      && p.grant.Some? && guardKind == p.grant.value.resourceKind
      && guardName == p.grant.value.resourceName && guardName != "" && identity == p.grant.value.id && identity != ""
    case "workload" =>
      && p.workload.Some? && guardKind == "workload"
      && guardName == p.workload.value.name == identity && identity != ""
    case "network_rule" =>
      && p.rule.Some? && guardKind == "workload"
      && guardName == p.rule.value.workload && guardName != "" && identity == p.rule.value.id && identity != ""
    case _ => false
  }

  /** Only an object's body can fail to decode so late. */
  ghost predicate Decodes(kind: string, p: Payload) {
    kind == "object" ==> p.object_.Some? && p.object_.value.body.Some?
  }

  /** The payload's element is in its collection as it was sent, in place of the one with its
      key if there was one; nothing else has changed, and the ledger has one row more. */
  ghost predicate StoredAsSent(kind: string, p: Payload, st: State, st': State) {
    match kind
    case "bucket" =>
      && p.bucket.Some? && st' == st.(buckets := st'.buckets)
      && forall b :: b in st'.buckets <==> b == p.bucket.value || (b in st.buckets && b.name != p.bucket.value.name)
    case "object" =>
      && p.object_.Some? && p.object_.value.body.Some? && st' == st.(objects := st'.objects)
      && forall o :: o in st'.objects <==>
           o == AsSent(p.object_.value)
           || (o in st.objects && !(o.bucket == p.object_.value.bucket && o.key == p.object_.value.key))
    case "grant" =>
      && p.grant.Some? && st' == st.(grants := st'.grants)
      && forall g :: g in st'.grants <==> g == p.grant.value || (g in st.grants && g.id != p.grant.value.id)
    case "workload" =>
      && p.workload.Some? && st' == st.(workloads := st'.workloads)
      && forall w :: w in st'.workloads <==>
           w == p.workload.value || (w in st.workloads && w.name != p.workload.value.name)
    case "network_rule" =>
      && p.rule.Some? && st' == st.(networkRules := st'.networkRules)
      && forall r :: r in st'.networkRules <==> r == p.rule.value || (r in st.networkRules && r.id != p.rule.value.id)
    case _ => false
  }

  /** The object of a payload: its own bucket, key, type and body, measured and digested. */
  ghost function AsSent(o: ObjectPayload): Object
    requires o.body.Some?
  {
    Object(o.bucket, o.key, o.contentType, |o.body.value|, Digests.Digest(o.body.value), o.body.value)
  }

  lemma TargetAlike(kind: string, p: Payload, t: Target)
    ensures Server.TargetOf(kind, p) == Some(t) <==> Guards(kind, p, t.kind, t.name, t.identity)
  {
  }

  lemma OthersUntouched(c: Store.Content, op: Store.Op)
    requires Store.Tidy(c.state) && !op.Record?
    ensures
      var st, st' := c.state, Store.Apply(c, op).state;
      && (!(op.PutBucket? || (op.Delete? && op.kind == "bucket")) ==> st'.buckets == st.buckets)
      && (!(op.PutObject? || (op.Delete? && op.kind == "object")) ==> st'.objects == st.objects)
      && (!(op.PutGrant? || (op.Delete? && op.kind == "grant")) ==> st'.grants == st.grants)
      && (!(op.PutWorkload? || (op.Delete? && op.kind == "workload")) ==> st'.workloads == st.workloads)
      && (!(op.PutRule? || (op.Delete? && op.kind == "network_rule")) ==> st'.networkRules == st.networkRules)
      && (!op.PutPrincipal? ==> st'.principals == st.principals)
      && st'.segments == st.segments && st'.ledger == st.ledger && Store.Apply(c, op).seqNo == c.seqNo
  {
    hide Sort, Sorted, Unique, Upserted, Without, StringLe, PairLe, TotalOrder, Store.CutSlash;
    var st := c.state;
    Store.Orders();
    SortFixpoint(st.segments, Store.SegmentName, StringLe);
    SortFixpoint(st.principals, Store.PrincipalName, StringLe);
    SortFixpoint(st.buckets, Store.BucketName, StringLe);
    SortFixpoint(st.objects, Store.ObjectKey, PairLe);
    SortFixpoint(st.grants, Store.GrantId, StringLe);
    SortFixpoint(st.workloads, Store.WorkloadName, StringLe);
    SortFixpoint(st.networkRules, Store.RuleId, StringLe);
    SortFixpoint(st.ledger, Store.SeqOf, IntLe);
  }

  lemma PutOpStores(kind: string, p: Payload, c: Store.Content, t: Target)
    requires Store.Tidy(c.state) && Guards(kind, p, t.kind, t.name, t.identity) && Decodes(kind, p)
    ensures PutOp(kind, p).Some? && StoredAsSent(kind, p, c.state, Store.Apply(c, PutOp(kind, p).value).state)
    ensures Store.Apply(c, PutOp(kind, p).value).seqNo == c.seqNo
  {
    hide Store.Apply, Store.Tidy, Digests.Digest;
    var op := PutOp(kind, p).value;
    OthersUntouched(c, op);
    MembersAfterPut(c, op);
  }

  // ---- The steps, wherever other handlers stand ---------------------------------------

  /** Only handler i has moved, to this phase. */
  ghost predicate Moved(w: World, w': World, i: nat, p: Phase)
    requires i < |w.handlers|
  {
    w'.handlers == w.handlers[i := Handler(w.handlers[i].caller, w.handlers[i].request, p)]
  }

  /** One row more in the ledger, numbered next, and nothing else. */
  ghost predicate Logged(c: Store.Content, c': Store.Content, action: string, resource: string, caller: Caller,
                         detail: string) {
    && c'.seqNo == c.seqNo + 1
    && c'.state == c.state.(ledger := c.state.ledger
         + [LedgerEntry(c.seqNo + 1, action, resource, Who(caller), caller.segment, detail)])
  }

  lemma PutChecks(w: World, i: nat, kind: string, p: Payload)
    requires i < |w.handlers| && w.handlers[i].request == Put(kind, p) && w.handlers[i].phase == Start
    ensures Step(w, i).content == w.content
    ensures forall t :: Moved(w, Step(w, i), i, Checked(t)) <==>
      Guards(kind, p, t.kind, t.name, t.identity) && Authorized(w.content.state, w.handlers[i].caller, t.kind, t.name)
    ensures (forall t :: !Moved(w, Step(w, i), i, Checked(t))) ==> Moved(w, Step(w, i), i, Done(false))
  {
    hide MayWrite, Authorized, Server.TargetOf, Guards;
    var target := Server.TargetOf(kind, p);
    forall t ensures target == Some(t) <==> Guards(kind, p, t.kind, t.name, t.identity) { TargetAlike(kind, p, t); }
    if target.Some? {
      AuthorityAlike(w.content.state, w.handlers[i].caller, target.value.kind, target.value.name);
      assert Step(w, i).handlers[i].phase in {Checked(target.value), Done(false)};
    }
    forall t | Moved(w, Step(w, i), i, Checked(t)) ensures target == Some(t) {
      assert Step(w, i).handlers[i].phase == Checked(t);
    }
  }

  lemma PutMutates(w: World, i: nat, kind: string, p: Payload, t: Target)
    requires i < |w.handlers| && w.handlers[i].request == Put(kind, p) && w.handlers[i].phase == Checked(t)
    requires Store.Tidy(w.content.state) && Guards(kind, p, t.kind, t.name, t.identity)
    ensures Decodes(kind, p) ==>
      && StoredAsSent(kind, p, w.content.state, Step(w, i).content.state)
      && Step(w, i).content.seqNo == w.content.seqNo && Moved(w, Step(w, i), i, Mutated(t))
    ensures !Decodes(kind, p) ==> Step(w, i).content == w.content && Moved(w, Step(w, i), i, Done(false))
  {
    hide Store.Apply, Store.Tidy, StoredAsSent;
    if Decodes(kind, p) { PutOpStores(kind, p, w.content, t); }
  }

  lemma MutationIsLogged(w: World, i: nat, t: Target)
    requires i < |w.handlers| && w.handlers[i].phase == Mutated(t) && !w.handlers[i].request.Connect?
    ensures
      var h, c, c' := w.handlers[i], w.content, Step(w, i).content;
      && (h.request.Put? ==> Logged(c, c', "resource.put", h.request.kind + "/" + t.identity, h.caller, ""))
      && (h.request.Remove? ==> Logged(c, c', "resource.delete", h.request.kind + "/" + h.request.id, h.caller, ""))
    ensures Moved(w, Step(w, i), i, Done(true))
  {
  }

  // ---- A put by itself ----------------------------------------------------------------

  /** An authorized put that decodes stores what was sent and is told in the ledger. */
  lemma PutStores(w: World, i: nat, kind: string, p: Payload, guardKind: string, guardName: string, identity: string)
    requires i < |w.handlers| && w.handlers[i].request == Put(kind, p) && w.handlers[i].phase == Start
    requires Store.Tidy(w.content.state) && Store.SeqInvariant(w.content)
    requires Guards(kind, p, guardKind, guardName, identity) && Decodes(kind, p)
    requires Authorized(w.content.state, w.handlers[i].caller, guardKind, guardName)
    ensures
      var c, c', h := w.content, Run(w, [i, i, i]).content, w.handlers[i];
      && Moved(w, Run(w, [i, i, i]), i, Done(true))
      && StoredAsSent(kind, p, c.state, c'.state.(ledger := c.state.ledger))
      && Logged(c.(state := c'.state.(ledger := c.state.ledger)), c', "resource.put", kind + "/" + identity,
        h.caller, "")
  {
    hide Store.Tidy, Store.SeqInvariant, Step, Guards, Authorized, Decodes, StoredAsSent;
    var t := Target(guardKind, guardName, identity);
    Thrice(w, i);
    var w1, w2 := Step(w, i), Step(Step(w, i), i);
    PutChecks(w, i, kind, p);
    assert Moved(w, w1, i, Checked(t));
    PutMutates(w1, i, kind, p, t);
    MutationIsLogged(w2, i, t);
    StoredKeepsLedger(kind, p, w.content.state, w2.content.state);
  }

  lemma StoredKeepsLedger(kind: string, p: Payload, st: State, st': State)
    requires StoredAsSent(kind, p, st, st')
    ensures st'.ledger == st.ledger
  {
  }

  lemma Thrice(w: World, i: nat)
    requires i < |w.handlers|
    ensures |Step(w, i).handlers| == |Step(Step(w, i), i).handlers| == |w.handlers|
    ensures Run(w, [i, i, i]) == Step(Step(Step(w, i), i), i)
  {
    hide Step;
    StepKeepsHandlers(w, i);
    StepKeepsHandlers(Step(w, i), i);
    assert [i, i, i][1..] == [i, i] && [i, i][1..] == [i] && [i][1..] == [];
    assert Run(w, [i, i, i]) == Run(Step(w, i), [i, i]);
    assert Run(Step(w, i), [i, i]) == Run(Step(Step(w, i), i), [i]);
  }

  /** Any other put ends refused with the store as it was. */
  lemma PutRefused(w: World, i: nat, kind: string, p: Payload)
    requires i < |w.handlers| && w.handlers[i].request == Put(kind, p) && w.handlers[i].phase == Start
    requires Store.Tidy(w.content.state) && Store.SeqInvariant(w.content)
    requires forall t: Target :: Guards(kind, p, t.kind, t.name, t.identity) && Decodes(kind, p) ==>
      !Authorized(w.content.state, w.handlers[i].caller, t.kind, t.name)
    ensures Run(w, [i, i, i]).content == w.content && Moved(w, Run(w, [i, i, i]), i, Done(false))
  {
    hide Store.Tidy, Store.SeqInvariant, Step, Guards, Authorized, Decodes, StoredAsSent;
    Thrice(w, i);
    var w1, w2 := Step(w, i), Step(Step(w, i), i);
    PutChecks(w, i, kind, p);
    if t :| Moved(w, w1, i, Checked(t)) {
      PutMutates(w1, i, kind, p, t);
    } else {
      EndStays(w1, i);
    }
    EndStays(w2, i);
  }

  /** A handler that has come to its end makes no further step. */
  lemma EndStays(w: World, i: nat)
    requires i < |w.handlers| && w.handlers[i].phase.Done?
    ensures Step(w, i) == w
  {
  }

  // ---- A delete by itself -------------------------------------------------------------

  /** What guards an existing resource: itself, the bucket of an object's identifier, or what
      the grant or the rule of this identifier is about. */
  ghost predicate GuardsExisting(st: State, kind: string, id: string, guardKind: string, guardName: string) {
    match kind
    case "bucket" => guardKind == "bucket" && guardName == id
    case "workload" => guardKind == "workload" && guardName == id
    case "object" => guardKind == "bucket" && exists key: string :: Store.SlashSplit(id, guardName, key)
    case "grant" =>
      exists g :: g in st.grants && g.id == id && g.resourceKind == guardKind && g.resourceName == guardName
    case "network_rule" =>
      guardKind == "workload" && exists r :: r in st.networkRules && r.id == id && r.workload == guardName
    case _ => false
  }

  /** The resource is out of its collection, and nothing else has changed. */
  ghost predicate Removed(kind: string, id: string, st: State, st': State) {
    match kind
    case "bucket" =>
      && st' == st.(buckets := st'.buckets)
      && forall b :: b in st'.buckets <==> b in st.buckets && b.name != id
    case "object" =>
      && st' == st.(objects := st'.objects)
      && forall o :: o in st'.objects <==> o in st.objects && !Store.SlashSplit(id, o.bucket, o.key)
    case "grant" =>
      && st' == st.(grants := st'.grants)
      && forall g :: g in st'.grants <==> g in st.grants && g.id != id
    case "workload" =>
      && st' == st.(workloads := st'.workloads)
      && forall w :: w in st'.workloads <==> w in st.workloads && w.name != id
    case "network_rule" =>
      && st' == st.(networkRules := st'.networkRules)
      && forall r :: r in st'.networkRules <==> r in st.networkRules && r.id != id
    case _ => false
  }

  ghost predicate Present(kind: string, id: string, st: State) {
    match kind
    case "bucket" => exists b :: b in st.buckets && b.name == id
    case "object" => exists o :: o in st.objects && Store.SlashSplit(id, o.bucket, o.key)
    case "grant" => exists g :: g in st.grants && g.id == id
    case "workload" => exists w :: w in st.workloads && w.name == id
    case "network_rule" => exists r :: r in st.networkRules && r.id == id
    case _ => false
  }

  lemma DeletedMeaning(c: Store.Content, kind: string, id: string)
    requires Store.Tidy(c.state)
    ensures Store.Deleted(c.state, kind, id).Some? <==> Present(kind, id, c.state)
    ensures Present(kind, id, c.state) ==> Removed(kind, id, c.state, Store.Apply(c, Store.Delete(kind, id)).state)
    ensures Store.Apply(c, Store.Delete(kind, id)).seqNo == c.seqNo
  {
    DeletedIff(c.state, kind, id);
    hide Store.Tidy, Store.Deleted, Store.CutSlash, Store.SlashSplit;
    Store.CutSlashMeaning(id);
    OthersUntouched(c, Store.Delete(kind, id));
    if Present(kind, id, c.state) { MembersAfterDelete(c, kind, id); }
  }

  lemma DeletedIff(st: State, kind: string, id: string)
    requires Store.Tidy(st)
    ensures Store.Deleted(st, kind, id).Some? <==> Present(kind, id, st)
  {
    hide Sort, Without, Unique, StringLe, PairLe, Sorted, Store.CutSlash, Store.Normalized, Store.SlashSplit;
    match kind {
      case "bucket" => WithoutKeepsOrder(st.buckets, id, Store.BucketName, StringLe);
      case "grant" => WithoutKeepsOrder(st.grants, id, Store.GrantId, StringLe);
      case "network_rule" => WithoutKeepsOrder(st.networkRules, id, Store.RuleId, StringLe);
      case "workload" => WithoutKeepsOrder(st.workloads, id, Store.WorkloadName, StringLe);
      case "object" =>
        Store.CutSlashMeaning(id);
        if Store.CutSlash(id).Some? {
          WithoutKeepsOrder(st.objects, Store.CutSlash(id).value, Store.ObjectKey, PairLe);
        }
      case _ =>
    }
  }

  lemma ExistingAlike(st: State, kind: string, id: string)
    requires Store.Tidy(st)
    ensures forall t :: TargetOfExisting(st, kind, id) == Some(t) ==> t.identity == id
    ensures forall k, n :: TargetOfExisting(st, kind, id) == Some(Target(k, n, id)) <==>
      GuardsExisting(st, kind, id, k, n)
  {
    hide Store.CutSlash, FindGrant, FindRule, Store.Tidy, Store.SlashSplit;
    match kind {
      case "object" => Store.CutSlashMeaning(id);
      case "grant" =>
        FindGrantMeaning(st.grants, id);
        forall g | g in st.grants && g.id == id ensures FindGrant(st.grants, id) == Some(g) {
          GrantIsFound(st.grants, g);
          UniqueGrant(st, id, g);
        }
      case "network_rule" =>
        FindRuleMeaning(st.networkRules, id);
        forall r | r in st.networkRules && r.id == id ensures FindRule(st.networkRules, id) == Some(r) {
          RuleIsFound(st.networkRules, r);
          UniqueRule(st, id, r);
        }
      case _ =>
    }
  }

  lemma GrantIsFound(grants: seq<Grant>, g: Grant)
    requires g in grants
    ensures FindGrant(grants, g.id).Some?
  {
    if g != grants[0] { GrantIsFound(grants[1..], g); }
  }

  lemma RuleIsFound(rules: seq<NetworkRule>, r: NetworkRule)
    requires r in rules
    ensures FindRule(rules, r.id).Some?
  {
    if r != rules[0] { RuleIsFound(rules[1..], r); }
  }

  lemma RemoveLocates(w: World, i: nat, kind: string, id: string)
    requires i < |w.handlers| && w.handlers[i].request == Remove(kind, id) && w.handlers[i].phase == Start
    requires Store.Tidy(w.content.state)
    ensures Step(w, i).content == w.content
    ensures forall k, n :: GuardsExisting(w.content.state, kind, id, k, n) ==>
      Moved(w, Step(w, i), i, Located(Target(k, n, id)))
    ensures (forall k, n :: !GuardsExisting(w.content.state, kind, id, k, n)) ==> Moved(w, Step(w, i), i, Done(false))
  {
    hide TargetOfExisting, GuardsExisting, Store.Tidy;
    ExistingAlike(w.content.state, kind, id);
    var target := TargetOfExisting(w.content.state, kind, id);
    if target.Some? { assert target.value == Target(target.value.kind, target.value.name, id); }
  }

  lemma RemoveChecks(w: World, i: nat, kind: string, id: string, t: Target)
    requires i < |w.handlers| && w.handlers[i].request == Remove(kind, id) && w.handlers[i].phase == Located(t)
    ensures Step(w, i).content == w.content
    ensures Moved(w, Step(w, i), i,
                  if Authorized(w.content.state, w.handlers[i].caller, t.kind, t.name) then Checked(t) else Done(false))
  {
    hide MayWrite, Authorized;
    AuthorityAlike(w.content.state, w.handlers[i].caller, t.kind, t.name);
  }

  lemma RemoveMutates(w: World, i: nat, kind: string, id: string, t: Target)
    requires i < |w.handlers| && w.handlers[i].request == Remove(kind, id) && w.handlers[i].phase == Checked(t)
    requires Store.Tidy(w.content.state)
    ensures Present(kind, id, w.content.state) ==>
      && Removed(kind, id, w.content.state, Step(w, i).content.state)
      && Step(w, i).content.seqNo == w.content.seqNo && Moved(w, Step(w, i), i, Mutated(t))
    ensures !Present(kind, id, w.content.state) ==>
      Step(w, i).content == w.content && Moved(w, Step(w, i), i, Done(false))
  {
    hide Store.Apply, Store.Tidy, Store.Deleted, Removed, Present;
    DeletedMeaning(w.content, kind, id);
  }

  lemma FourTimes(w: World, i: nat)
    requires i < |w.handlers|
    ensures |Step(w, i).handlers| == |Step(Step(w, i), i).handlers| == |w.handlers|
    ensures |Step(Step(Step(w, i), i), i).handlers| == |w.handlers|
    ensures Run(w, [i, i, i, i]) == Step(Step(Step(Step(w, i), i), i), i)
  {
    hide Step;
    StepKeepsHandlers(w, i);
    Thrice(Step(w, i), i);
    assert [i, i, i, i][1..] == [i, i, i];
  }

  /** An authorized delete of a resource that is there removes it and is told in the ledger. */
  lemma RemoveRemoves(w: World, i: nat, kind: string, id: string, guardKind: string, guardName: string)
    requires i < |w.handlers| && w.handlers[i].request == Remove(kind, id) && w.handlers[i].phase == Start
    requires Store.Tidy(w.content.state)
    requires Present(kind, id, w.content.state) && GuardsExisting(w.content.state, kind, id, guardKind, guardName)
    requires Authorized(w.content.state, w.handlers[i].caller, guardKind, guardName)
    ensures
      var c, c', h := w.content, Run(w, [i, i, i, i]).content, w.handlers[i];
      && Moved(w, Run(w, [i, i, i, i]), i, Done(true))
      && Removed(kind, id, c.state, c'.state.(ledger := c.state.ledger))
      && Logged(c.(state := c'.state.(ledger := c.state.ledger)), c', "resource.delete", kind + "/" + id, h.caller, "")
  {
    hide Store.Tidy, Step, GuardsExisting, Authorized, Removed, Present;
    FourTimes(w, i);
    var t := Target(guardKind, guardName, id);
    var w1, w2, w3 := Step(w, i), Step(Step(w, i), i), Step(Step(Step(w, i), i), i);
    RemoveLocates(w, i, kind, id);
    RemoveChecks(w1, i, kind, id, t);
    RemoveMutates(w2, i, kind, id, t);
    MutationIsLogged(w3, i, t);
    RemovedKeepsLedger(kind, id, w.content.state, w3.content.state);
  }

  lemma RemovedKeepsLedger(kind: string, id: string, st: State, st': State)
    requires Removed(kind, id, st, st')
    ensures st'.ledger == st.ledger
  {
  }

  /** Any other delete ends refused with the store as it was. */
  lemma RemoveRefused(w: World, i: nat, kind: string, id: string)
    requires i < |w.handlers| && w.handlers[i].request == Remove(kind, id) && w.handlers[i].phase == Start
    requires Store.Tidy(w.content.state)
    requires !Present(kind, id, w.content.state) || forall k, n :: GuardsExisting(w.content.state, kind, id, k, n) ==>
      !Authorized(w.content.state, w.handlers[i].caller, k, n)
    ensures Run(w, [i, i, i, i]).content == w.content && Moved(w, Run(w, [i, i, i, i]), i, Done(false))
  {
    hide Store.Tidy, Step, GuardsExisting, Authorized, Removed, Present;
    FourTimes(w, i);
    var w1, w2, w3 := Step(w, i), Step(Step(w, i), i), Step(Step(Step(w, i), i), i);
    RemoveLocates(w, i, kind, id);
    if k, n :| GuardsExisting(w.content.state, kind, id, k, n) {
      var t := Target(k, n, id);
      RemoveChecks(w1, i, kind, id, t);
      if Authorized(w.content.state, w.handlers[i].caller, k, n) {
        RemoveMutates(w2, i, kind, id, t);
      } else {
        EndStays(w2, i);
      }
    } else {
      EndStays(w1, i);
      EndStays(w2, i);
    }
    EndStays(w3, i);
  }

  // ---- A connect by itself ------------------------------------------------------------

  /** The workload reported a change of its own: answered below 300, to a verb that may write. */
  ghost predicate ReportsChange(verb: string, reply: Reply) {
    reply.Answered? && reply.change != "" && reply.status < 300 && verb != "GET" && verb != "HEAD"
  }

  /** An allowed connect is forwarded, and a change the workload reports is told in the ledger;
      one that is not allowed leaves no trace in the store. */
  lemma ConnectRuns(w: World, i: nat, workload: string, port: string, verb: string, reply: Reply)
    requires i < |w.handlers| && w.handlers[i].phase == Start
    requires w.handlers[i].request == Connect(workload, port, verb, reply)
    ensures
      var c, c', h := w.content, Run(w, [i, i]).content, w.handlers[i];
      var allowed := A.ConnectDecision(c.state, h.caller, workload, port).0.allowed;
      && Moved(w, Run(w, [i, i]), i, Done(allowed))
      && if allowed && ReportsChange(verb, reply) then
           Logged(c, c', "workload.change", workload + ":" + port, h.caller, reply.change)
         else c' == c
  {
    hide A.ConnectDecision;
    StepKeepsHandlers(w, i);
    assert [i, i][1..] == [i] && [i][1..] == [];
    assert Run(w, [i, i]) == Run(Step(w, i), [i]) == Step(Step(w, i), i);
  }
}
