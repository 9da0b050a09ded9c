/** The control plane's handlers as interleaved steps over the store. Each step is one
    lock acquisition: authority is checked, the store mutated and the ledger row written
    in separate steps, and other handlers may run in between. */
module Server {
  import opened Options
  import opened Cidr
  import opened Intervals
  import opened Order
  import opened NetSet
  import opened Platform
  import Store
  import A = Authz

  // ---- Requests -----------------------------------------------------------------------

  /** An object to store; no body when its base64 text does not decode. */
  datatype ObjectPayload = ObjectPayload(bucket: string, key: string, contentType: string, body: Option<string>)

  datatype Payload = Payload(
    bucket: Option<Bucket>,
    object_: Option<ObjectPayload>,
    grant: Option<Grant>,
    workload: Option<Workload>,
    rule: Option<NetworkRule>)

  /** What the workload behind a port answered to a forwarded request. */
  datatype Reply = NotReached | Answered(change: string, status: int)

  datatype Request =
    | Put(kind: string, payload: Payload)
    | Remove(kind: string, id: string)
    | Connect(workload: string, port: string, verb: string, reply: Reply)

  /** The resource whose write grants decide a request, and the identity recorded. */
  datatype Target = Target(kind: string, name: string, identity: string)

  function TargetOf(kind: string, p: Payload): Option<Target> {
    match kind
    case "bucket" =>
      if p.bucket.None? || p.bucket.value.name == "" then None
      else Some(Target(KIND_BUCKET, p.bucket.value.name, p.bucket.value.name))
    case "object" =>
      if p.object_.None? || p.object_.value.bucket == "" || p.object_.value.key == "" then None
      else Some(Target(KIND_BUCKET, p.object_.value.bucket, p.object_.value.bucket + "/" + p.object_.value.key))
    case "grant" =>
      if p.grant.None? || p.grant.value.id == "" || p.grant.value.resourceName == "" then None
      else Some(Target(p.grant.value.resourceKind, p.grant.value.resourceName, p.grant.value.id))
    case "workload" =>
      if p.workload.None? || p.workload.value.name == "" then None
      else Some(Target(KIND_WORKLOAD, p.workload.value.name, p.workload.value.name))
    case "network_rule" =>
      if p.rule.None? || p.rule.value.id == "" || p.rule.value.workload == "" then None
      else Some(Target(KIND_WORKLOAD, p.rule.value.workload, p.rule.value.id))
    case _ => None
  }

  function FindGrant(grants: seq<Grant>, id: string): Option<Grant> {
    if grants == [] then None
    else if grants[0].id == id then Some(grants[0])
    else FindGrant(grants[1..], id)
  }

  function FindRule(rules: seq<NetworkRule>, id: string): Option<NetworkRule> {
    if rules == [] then None
    else if rules[0].id == id then Some(rules[0])
    else FindRule(rules[1..], id)
  }

  function TargetOfExisting(st: State, kind: string, id: string): Option<Target> {
    match kind
    case "bucket" => Some(Target(KIND_BUCKET, id, id))
    case "workload" => Some(Target(KIND_WORKLOAD, id, id))
    case "object" =>
      (match Store.CutSlash(id)
       case None => None
       case Some((bucket, _)) => Some(Target(KIND_BUCKET, bucket, id)))
    case "grant" =>
      (match FindGrant(st.grants, id)
       case None => None
       case Some(g) => Some(Target(g.resourceKind, g.resourceName, id)))
    case "network_rule" =>
      (match FindRule(st.networkRules, id)
       case None => None
       case Some(r) => Some(Target(KIND_WORKLOAD, r.workload, id)))
    case _ => None
  }

  /** Write authority: some write grant on the resource names exactly this principal and
      covers the address, and none of the resource's write grants is malformed. */
  predicate MayWrite(st: State, c: Caller, kind: string, name: string) {
    var es := A.EffectiveGrantsOf(st.grants, kind, name, ACTION_WRITE);
    es.Some? && exists i :: 0 <= i < |es.value| && A.Matches(es.value[i], [PrincipalOf(c)], c.addr)
  }

  /** The store operation of a put; None when the body does not decode. */
  function PutOp(kind: string, p: Payload): Option<Store.Op> {
    match kind
    case "bucket" => if p.bucket.Some? then Some(Store.PutBucket(p.bucket.value)) else None
    case "object" =>
      if p.object_.Some? && p.object_.value.body.Some? then
        var o := p.object_.value;
        Some(Store.PutObject(Object(o.bucket, o.key, o.contentType, 0, "", ""), o.body.value))
      else None
    case "grant" => if p.grant.Some? then Some(Store.PutGrant(p.grant.value)) else None
    case "workload" => if p.workload.Some? then Some(Store.PutWorkload(p.workload.value)) else None
    case "network_rule" => if p.rule.Some? then Some(Store.PutRule(p.rule.value)) else None
    case _ => None
  }

  // ---- Handlers as state machines -----------------------------------------------------

  /** Where a handler stands between two lock acquisitions. */
  datatype Phase =
    | Start
    | Located(t: Target)
    | Checked(t: Target)
    | Mutated(t: Target)
    | Forwarded
    | Done(applied: bool)

  datatype Handler = Handler(caller: Caller, request: Request, phase: Phase)

  /** The ledger row a finished mutation owes: its action and resource. */
  function Owed(r: Request, t: Target): (string, string)
    requires !r.Connect?
  {
    match r
    case Put(kind, _) => ("resource.put", kind + "/" + t.identity)
    case Remove(kind, id) => ("resource.delete", kind + "/" + id)
  }

  /** Store and handlers together, with a history of the mutations and of the keys they put. */
  datatype World = World(
    content: Store.Content,
    handlers: seq<Handler>,
    made: multiset<(string, string)>,
    grantPuts: set<string>,
    rulePuts: set<string>)

  function Goto(w: World, i: nat, p: Phase): World
    requires i < |w.handlers|
  {
    w.(handlers := w.handlers[i := w.handlers[i].(phase := p)])
  }

  function Mutate(w: World, i: nat, op: Store.Op, t: Target): World
    requires i < |w.handlers| && !w.handlers[i].request.Connect?
  {
    Goto(w, i, Mutated(t)).(
      content := Store.Apply(w.content, op),
      made := w.made + multiset{Owed(w.handlers[i].request, t)},
      grantPuts := w.grantPuts + (if op.PutGrant? then {op.g.id} else {}),
      rulePuts := w.rulePuts + (if op.PutRule? then {op.r.id} else {}))
  }

  function PutStep(w: World, i: nat): World
    requires i < |w.handlers| && w.handlers[i].request.Put?
  {
    var h := w.handlers[i];
    var kind, payload := h.request.kind, h.request.payload;
    match h.phase
    case Start =>
      (match TargetOf(kind, payload)
       case None => Goto(w, i, Done(false))
       case Some(t) => 
         Goto(w, i, if MayWrite(w.content.state, h.caller, t.kind, t.name) then Checked(t) else Done(false)))
    case Checked(t) =>
      (match PutOp(kind, payload)
       case None => Goto(w, i, Done(false))
       case Some(op) => Mutate(w, i, op, t))
    case Mutated(t) =>
      var row := Owed(h.request, t);
      Goto(w, i, Done(true)).(content := Store.Apply(w.content, Store.Record(row.0, row.1, h.caller, "")))
    case _ => w
  }

  function RemoveStep(w: World, i: nat): World
    requires i < |w.handlers| && w.handlers[i].request.Remove?
  {
    var h := w.handlers[i];
    var kind, id := h.request.kind, h.request.id;
    match h.phase
    case Start =>
      (match TargetOfExisting(w.content.state, kind, id)
       case None => Goto(w, i, Done(false))
       case Some(t) => Goto(w, i, Located(t)))
    case Located(t) =>
      Goto(w, i, if MayWrite(w.content.state, h.caller, t.kind, t.name) then Checked(t) else Done(false))
    case Checked(t) =>
      if Store.Deleted(w.content.state, kind, id).None? then Goto(w, i, Done(false))
      else Mutate(w, i, Store.Delete(kind, id), t)
    case Mutated(t) =>
      var row := Owed(h.request, t);
      Goto(w, i, Done(true)).(content := Store.Apply(w.content, Store.Record(row.0, row.1, h.caller, "")))
    case _ => w
  }

  predicate ChangesWorkload(r: Request) {
    r.Connect? && r.reply.Answered? && r.reply.change != "" && r.reply.status < 300 && r.verb != "GET"
      && r.verb != "HEAD"
  }

  function ConnectStep(w: World, i: nat): World
    requires i < |w.handlers| && w.handlers[i].request.Connect?
  {
    var h := w.handlers[i];
    var r := h.request;
    match h.phase
    case Start =>
      var allowed := A.ConnectDecision(w.content.state, h.caller, r.workload, r.port).0.allowed;
      Goto(w, i, if allowed then Forwarded else Done(false))
    case Forwarded =>
      if ChangesWorkload(r) then
        Goto(w, i, Done(true)).(content := Store.Apply(w.content,
          Store.Record("workload.change", r.workload + ":" + r.port, h.caller, r.reply.change)))
      else Goto(w, i, Done(true))
    case _ => w
  }

  /** One atomic step of one handler. */
  function Step(w: World, i: nat): World
    requires i < |w.handlers|
  {
    match w.handlers[i].request
    case Put(_, _) => PutStep(w, i)
    case Remove(_, _) => RemoveStep(w, i)
    case Connect(_, _, _, _) => ConnectStep(w, i)
  }

  /** A schedule: which handler moves next, for any number of moves. */
  predicate Schedule(w: World, moves: seq<nat>) {
    forall k :: 0 <= k < |moves| ==> moves[k] < |w.handlers|
  }

  function Run(w: World, moves: seq<nat>): World
    requires Schedule(w, moves)
    decreases |moves|
  {
    if moves == [] then w
    else
      var next := Step(w, moves[0]);
      StepKeepsHandlers(w, moves[0]);
      Run(next, moves[1..])
  }

  lemma StepKeepsHandlers(w: World, i: nat)
    requires i < |w.handlers|
    ensures |Step(w, i).handlers| == |w.handlers|
  {
  }

  ghost predicate Fresh(w: World) {
    && (forall i :: 0 <= i < |w.handlers| ==> w.handlers[i].phase == Start)
    && w.made == multiset{} && w.grantPuts == {} && w.rulePuts == {}
    && Store.Tidy(w.content.state) && Store.SeqInvariant(w.content)
  }

  // ---- Scope --------------------------------------------------------------------------

  ghost predicate InScope(st: State, kind: string, name: string) {
    exists g :: g in st.grants && g.resourceKind == kind && g.resourceName == name && ACTION_WRITE in g.actions
  }

  /** Write authority, without the search: every write grant on the resource is readable,
      and one of them names exactly this principal and covers the address. Unlike a read,
      a grant to everyone does not do. */
  lemma MayWriteMeaning(st: State, c: Caller, kind: string, name: string)
    ensures MayWrite(st, c, kind, name) <==>
      && (forall g :: g in st.grants && A.Names(g, kind, name, ACTION_WRITE) ==> AllBlocks(g.sourceRanges))
      && A.GrantAdmits(st.grants, kind, name, ACTION_WRITE, {PrincipalOf(c)}, c.addr)
  {
    hide A.EffectiveGrantsOf, A.Matches, A.GrantAdmits, AllBlocks;
    A.EffectiveGrantsMeaning(st.grants, kind, name, ACTION_WRITE);
    assert (set p | p in [PrincipalOf(c)]) == {PrincipalOf(c)};
    if A.EffectiveGrantsOf(st.grants, kind, name, ACTION_WRITE).Some? {
      A.SearchMeaning(st.grants, kind, name, ACTION_WRITE, [PrincipalOf(c)], c.addr);
    }
  }

  lemma AuthorityNeedsGrant(st: State, c: Caller, kind: string, name: string)
    requires MayWrite(st, c, kind, name)
    ensures InScope(st, kind, name)
  {
    hide A.EffectiveGrantsOf;
    var es := A.EffectiveGrantsOf(st.grants, kind, name, ACTION_WRITE).value;
    A.SearchMeaning(st.grants, kind, name, ACTION_WRITE, [PrincipalOf(c)], c.addr);
    var i :| 0 <= i < |es| && A.Matches(es[i], [PrincipalOf(c)], c.addr);
    assert es[i] in es;
  }

  /** The operation stays inside the scope of the resource it was authorized for. */
  ghost predicate Within(op: Store.Op, t: Target) {
    match op
    case PutBucket(b) => t.kind == KIND_BUCKET && t.name == b.name
    case PutObject(o, _) => t.kind == KIND_BUCKET && t.name == o.bucket
    case PutGrant(g) => t.kind == g.resourceKind && t.name == g.resourceName
    case PutWorkload(w) => t.kind == KIND_WORKLOAD && t.name == w.name
    case PutRule(r) => t.kind == KIND_WORKLOAD && t.name == r.workload
    case PutPrincipal(_) => false
    case Delete(kind, id) =>
      (kind == "bucket" ==> t.kind == KIND_BUCKET && t.name == id)
      && (kind == "workload" ==> t.kind == KIND_WORKLOAD && t.name == id)
      && (kind == "object" && Store.CutSlash(id).Some? ==>
        t.kind == KIND_BUCKET && t.name == Store.CutSlash(id).value.0)
    case Record(_, _, _, _) => true
  }

  lemma PutOpWithin(kind: string, p: Payload)
    requires TargetOf(kind, p).Some? && PutOp(kind, p).Some?
    ensures Within(PutOp(kind, p).value, TargetOf(kind, p).value)
    ensures !PutOp(kind, p).value.Record? && !PutOp(kind, p).value.Delete?
  {
  }

  lemma FindGrantMeaning(grants: seq<Grant>, id: string)
    ensures FindGrant(grants, id).Some? ==>
      FindGrant(grants, id).value in grants && FindGrant(grants, id).value.id == id
  {
  }

  lemma FindRuleMeaning(rules: seq<NetworkRule>, id: string)
    ensures FindRule(rules, id).Some? ==> FindRule(rules, id).value in rules && FindRule(rules, id).value.id == id
  {
  }

  /** Removing the named resource is within the target found for it, whatever else has
      happened since; for a grant or a rule, that is what the two guards below say. */
  lemma DeleteWithin(st: State, kind: string, id: string)
    requires TargetOfExisting(st, kind, id).Some?
    ensures Within(Store.Delete(kind, id), TargetOfExisting(st, kind, id).value)
  {
  }

  /** No grant outside the starting scope has this identifier. */
  ghost predicate IdInScope(start: State, st: State, id: string) {
    forall g :: g in st.grants && g.id == id ==> InScope(start, g.resourceKind, g.resourceName)
  }

  ghost predicate RuleIdInScope(start: State, st: State, id: string) {
    forall r :: r in st.networkRules && r.id == id ==> InScope(start, KIND_WORKLOAD, r.workload)
  }

  /** What a handler knows while it waits: its target matches its request, and once
      checked it lies in the starting scope. */
  ghost predicate HandlerInvariant(start: State, st: State, h: Handler) {
    match h.phase
    case Start => true
    case Done(_) => true
    case Forwarded => h.request.Connect?
    case Mutated(_) => !h.request.Connect?
    case Located(t) =>
      && h.request.Remove?
      && Within(Store.Delete(h.request.kind, h.request.id), t)
      && (InScope(start, t.kind, t.name) ==> DeletesInScope(start, st, h.request))
    case Checked(t) =>
      && InScope(start, t.kind, t.name)
      && (h.request.Put? ==> TargetOf(h.request.kind, h.request.payload) == Some(t))
      && (h.request.Remove? ==>
            Within(Store.Delete(h.request.kind, h.request.id), t) && DeletesInScope(start, st, h.request))
      && !h.request.Connect?
  }

  ghost predicate DeletesInScope(start: State, st: State, r: Request)
    requires r.Remove?
  {
    && (r.kind == "grant" ==> IdInScope(start, st, r.id))
    && (r.kind == "network_rule" ==> RuleIdInScope(start, st, r.id))
  }

  /** The resources outside the starting scope: grants and rules are the starting ones
      that no put has overwritten, the rest is exactly what it was. */
  ghost predicate OutsideUnchanged(start: State, st: State, grantPuts: set<string>, rulePuts: set<string>) {
    && (forall g: Grant :: !InScope(start, g.resourceKind, g.resourceName) ==>
          (g in st.grants <==> g in start.grants && g.id !in grantPuts))
    && (forall r: NetworkRule :: !InScope(start, KIND_WORKLOAD, r.workload) ==>
          (r in st.networkRules <==> r in start.networkRules && r.id !in rulePuts))
    && (forall b: Bucket :: !InScope(start, KIND_BUCKET, b.name) ==> (b in st.buckets <==> b in start.buckets))
    && (forall o: Object :: !InScope(start, KIND_BUCKET, o.bucket) ==> (o in st.objects <==> o in start.objects))
    && (forall w: Workload :: !InScope(start, KIND_WORKLOAD, w.name) ==> (w in st.workloads <==> w in start.workloads))
    && st.principals == start.principals
  }

  ghost predicate Safe(start: State, w: World) {
    && Store.Tidy(w.content.state) && Store.SeqInvariant(w.content)
    && OutsideUnchanged(start, w.content.state, w.grantPuts, w.rulePuts)
    && forall i :: 0 <= i < |w.handlers| ==> HandlerInvariant(start, w.content.state, w.handlers[i])
  }

  lemma ScopeNeverGrew(start: State, st: State, gp: set<string>, rp: set<string>, kind: string, name: string)
    requires OutsideUnchanged(start, st, gp, rp) && InScope(st, kind, name)
    ensures InScope(start, kind, name)
  {
    var g :| g in st.grants && g.resourceKind == kind && g.resourceName == name && ACTION_WRITE in g.actions;
    if !InScope(start, kind, name) { assert g in start.grants; }
  }

  // ---- Each operation, seen from outside its scope ------------------------------------

  /** Membership after an operation on a tidy state. */
  lemma MembersAfterPut(c: Store.Content, op: Store.Op)
    requires Store.Tidy(c.state) && !op.Delete? && !op.Record?
    ensures
      var st, st' := c.state, Store.Apply(c, op).state;
      && (forall b :: b in st'.buckets <==>
            if op.PutBucket? then b == op.b || (b in st.buckets && b.name != op.b.name) else b in st.buckets)
      && (forall o :: o in st'.objects <==>
            if op.PutObject? then o == Store.Stored(op.o, op.body)
              || (o in st.objects && Store.ObjectKey(o) != Store.ObjectKey(Store.Stored(op.o, op.body)))
            else o in st.objects)
      && (forall g :: g in st'.grants <==>
            if op.PutGrant? then g == op.g || (g in st.grants && g.id != op.g.id) else g in st.grants)
      && (forall w :: w in st'.workloads <==>
            if op.PutWorkload? then w == op.w || (w in st.workloads && w.name != op.w.name) else w in st.workloads)
      && (forall r :: r in st'.networkRules <==>
            if op.PutRule? then r == op.r || (r in st.networkRules && r.id != op.r.id) else r in st.networkRules)
      && (!op.PutPrincipal? ==> st'.principals == st.principals)
  {
    hide Sort, Upserted, Unique, StringLe, PairLe;
    var st := c.state;
    match op {
      case PutBucket(b) =>
        UpsertedMembers(st.buckets, b, Store.BucketName);
        NormalizedMembers(st.(buckets := Upserted(st.buckets, b, Store.BucketName)));
      case PutObject(o, body) =>
        UpsertedMembers(st.objects, Store.Stored(o, body), Store.ObjectKey);
        NormalizedMembers(st.(objects := Upserted(st.objects, Store.Stored(o, body), Store.ObjectKey)));
      case PutGrant(g) =>
        UpsertedMembers(st.grants, g, Store.GrantId);
        NormalizedMembers(st.(grants := Upserted(st.grants, g, Store.GrantId)));
      case PutWorkload(w) =>
        UpsertedMembers(st.workloads, w, Store.WorkloadName);
        NormalizedMembers(st.(workloads := Upserted(st.workloads, w, Store.WorkloadName)));
      case PutRule(r) =>
        UpsertedMembers(st.networkRules, r, Store.RuleId);
        NormalizedMembers(st.(networkRules := Upserted(st.networkRules, r, Store.RuleId)));
      case PutPrincipal(p) =>
        NormalizedMembers(st.(principals := Upserted(st.principals, p, Store.PrincipalName)));
    }
    if !op.PutPrincipal? { PrincipalsStay(st); }
  }

  lemma PrincipalsStay(st: State)
    requires Store.Tidy(st)
    ensures Sort(st.principals, Store.PrincipalName, StringLe) == st.principals
  {
    StringOrder();
    SortFixpoint(st.principals, Store.PrincipalName, StringLe);
  }

  lemma NormalizedMembers(st: State)
    ensures forall b :: b in Store.Normalized(st).buckets <==> b in st.buckets
    ensures forall o :: o in Store.Normalized(st).objects <==> o in st.objects
    ensures forall g :: g in Store.Normalized(st).grants <==> g in st.grants
    ensures forall w :: w in Store.Normalized(st).workloads <==> w in st.workloads
    ensures forall r :: r in Store.Normalized(st).networkRules <==> r in st.networkRules
  {
    hide Sort;
    SortKeepsMembers(st.buckets, Store.BucketName, StringLe);
    SortKeepsMembers(st.objects, Store.ObjectKey, PairLe);
    SortKeepsMembers(st.grants, Store.GrantId, StringLe);
    SortKeepsMembers(st.workloads, Store.WorkloadName, StringLe);
    SortKeepsMembers(st.networkRules, Store.RuleId, StringLe);
  }

  lemma MembersAfterDelete(c: Store.Content, kind: string, id: string)
    requires Store.Tidy(c.state) && Store.Deleted(c.state, kind, id).Some?
    ensures
      var st, st' := c.state, Store.Apply(c, Store.Delete(kind, id)).state;
      && (forall b :: b in st'.buckets <==> b in st.buckets && !(kind == "bucket" && b.name == id))
      && (forall o :: o in st'.objects <==>
            o in st.objects && !(kind == "object" && Store.CutSlash(id) == Some((o.bucket, o.key))))
      && (forall g :: g in st'.grants <==> g in st.grants && !(kind == "grant" && g.id == id))
      && (forall w :: w in st'.workloads <==> w in st.workloads && !(kind == "workload" && w.name == id))
      && (forall r :: r in st'.networkRules <==> r in st.networkRules && !(kind == "network_rule" && r.id == id))
      && st'.principals == st.principals
  {
    hide Sort, Without, Unique, StringLe, PairLe;
    var st := c.state;
    PrincipalsStay(st);
    match kind {
      case "bucket" =>
        WithoutMembers(st.buckets, id, Store.BucketName);
        NormalizedMembers(st.(buckets := Without(st.buckets, id, Store.BucketName)));
      case "grant" =>
        WithoutMembers(st.grants, id, Store.GrantId);
        NormalizedMembers(st.(grants := Without(st.grants, id, Store.GrantId)));
      case "network_rule" =>
        WithoutMembers(st.networkRules, id, Store.RuleId);
        NormalizedMembers(st.(networkRules := Without(st.networkRules, id, Store.RuleId)));
      case "workload" =>
        WithoutMembers(st.workloads, id, Store.WorkloadName);
        NormalizedMembers(st.(workloads := Without(st.workloads, id, Store.WorkloadName)));
      case "object" =>
        var key := Store.CutSlash(id).value;
        WithoutMembers(st.objects, key, Store.ObjectKey);
        NormalizedMembers(st.(objects := Without(st.objects, key, Store.ObjectKey)));
      case _ =>
    }
  }

  lemma PutStaysOutside(start: State, c: Store.Content, op: Store.Op, t: Target, gp: set<string>, rp: set<string>)
    requires Store.Tidy(c.state) && !op.Delete? && !op.Record?
    requires OutsideUnchanged(start, c.state, gp, rp)
    requires Within(op, t) && InScope(start, t.kind, t.name)
    ensures OutsideUnchanged(start, Store.Apply(c, op).state,
                             gp + (if op.PutGrant? then {op.g.id} else {}),
                             rp + (if op.PutRule? then {op.r.id} else {}))
  {
    hide InScope, Store.Apply, Store.Tidy, Store.Stored;
    MembersAfterPut(c, op);
    if op.PutObject? { StoredKey(op.o, op.body); }
  }

  lemma StoredKey(o: Object, body: string)
    ensures Store.Stored(o, body).bucket == o.bucket && Store.ObjectKey(Store.Stored(o, body)) == Store.ObjectKey(o)
  {
  }

  lemma DeleteStaysOutside(start: State, c: Store.Content, r: Request, t: Target, gp: set<string>, rp: set<string>)
    requires Store.Tidy(c.state) && r.Remove? && Store.Deleted(c.state, r.kind, r.id).Some?
    requires OutsideUnchanged(start, c.state, gp, rp)
    requires Within(Store.Delete(r.kind, r.id), t) && InScope(start, t.kind, t.name)
    requires DeletesInScope(start, c.state, r)
    ensures OutsideUnchanged(start, Store.Apply(c, Store.Delete(r.kind, r.id)).state, gp, rp)
  {
    hide InScope, Store.Apply, Store.Tidy, Store.Deleted, Store.CutSlash;
    MembersAfterDelete(c, r.kind, r.id);
  }

  /** What the other handlers know survives: an operation within scope adds no grant or
      rule outside it. */
  lemma KnowledgeSurvives(start: State, st: State, st': State, h: Handler)
    requires HandlerInvariant(start, st, h)
    requires forall g :: g in st'.grants ==> g in st.grants || InScope(start, g.resourceKind, g.resourceName)
    requires forall r :: r in st'.networkRules ==> r in st.networkRules || InScope(start, KIND_WORKLOAD, r.workload)
    ensures HandlerInvariant(start, st', h)
  {
    hide InScope, Within, TargetOf;
  }

  lemma PutAddsInScope(start: State, c: Store.Content, op: Store.Op, t: Target)
    requires Store.Tidy(c.state) && !op.Delete? && !op.Record?
    requires Within(op, t) && InScope(start, t.kind, t.name)
    ensures forall g :: g in Store.Apply(c, op).state.grants ==>
      g in c.state.grants || InScope(start, g.resourceKind, g.resourceName)
    ensures forall r :: r in Store.Apply(c, op).state.networkRules ==>
      r in c.state.networkRules || InScope(start, KIND_WORKLOAD, r.workload)
  {
    hide InScope, Store.Apply, Store.Tidy, Store.Stored;
    MembersAfterPut(c, op);
  }

  lemma DeleteAddsNothing(c: Store.Content, kind: string, id: string)
    requires Store.Tidy(c.state) && Store.Deleted(c.state, kind, id).Some?
    ensures forall g :: g in Store.Apply(c, Store.Delete(kind, id)).state.grants ==> g in c.state.grants
    ensures forall r :: r in Store.Apply(c, Store.Delete(kind, id)).state.networkRules ==> r in c.state.networkRules
  {
    hide Store.Apply, Store.Tidy, Store.Deleted, Store.CutSlash;
    MembersAfterDelete(c, kind, id);
  }

  lemma UniqueGrant(st: State, id: string, g: Grant)
    requires Store.Tidy(st) && FindGrant(st.grants, id).Some? && g in st.grants && g.id == id
    ensures g == FindGrant(st.grants, id).value
  {
    FindGrantMeaning(st.grants, id);
    SameKeySameElement(st.grants, Store.GrantId, g, FindGrant(st.grants, id).value);
  }

  lemma UniqueRule(st: State, id: string, r: NetworkRule)
    requires Store.Tidy(st) && FindRule(st.networkRules, id).Some? && r in st.networkRules && r.id == id
    ensures r == FindRule(st.networkRules, id).value
  {
    FindRuleMeaning(st.networkRules, id);
    SameKeySameElement(st.networkRules, Store.RuleId, r, FindRule(st.networkRules, id).value);
  }

  lemma SameKeySameElement<T(!new), K>(s: seq<T>, key: T -> K, x: T, y: T)
    requires Unique(s, key) && x in s && y in s && key(x) == key(y)
    ensures x == y
  {
    var i :| 0 <= i < |s| && s[i] == x;
    var j :| 0 <= j < |s| && s[j] == y;
  }

  lemma LookupKnows(start: State, st: State, h: Handler)
    requires Store.Tidy(st) && h.request.Remove?
    requires TargetOfExisting(st, h.request.kind, h.request.id).Some?
    ensures HandlerInvariant(start, st, h.(phase := Located(TargetOfExisting(st, h.request.kind, h.request.id).value)))
  {
    hide InScope, Store.Tidy, FindGrant, FindRule, Store.CutSlash;
    var kind, id := h.request.kind, h.request.id;
    DeleteWithin(st, kind, id);
    if kind == "grant" {
      forall g | g in st.grants && g.id == id ensures g == FindGrant(st.grants, id).value { UniqueGrant(st, id, g); }
    }
    if kind == "network_rule" {
      forall r | r in st.networkRules && r.id == id ensures r == FindRule(st.networkRules, id).value {
        UniqueRule(st, id, r);
      }
    }
  }

  // ---- Every step is safe -------------------------------------------------------------

  lemma GotoSafe(start: State, w: World, i: nat, p: Phase)
    requires Safe(start, w) && i < |w.handlers|
    requires HandlerInvariant(start, w.content.state, w.handlers[i].(phase := p))
    ensures Safe(start, Goto(w, i, p))
  {
    hide HandlerInvariant, OutsideUnchanged, Store.Tidy, Store.SeqInvariant;
  }

  lemma AuthorityInStart(start: State, w: World, c: Caller, t: Target)
    requires Safe(start, w) && MayWrite(w.content.state, c, t.kind, t.name)
    ensures InScope(start, t.kind, t.name)
  {
    hide InScope, OutsideUnchanged, MayWrite, HandlerInvariant;
    AuthorityNeedsGrant(w.content.state, c, t.kind, t.name);
    ScopeNeverGrew(start, w.content.state, w.grantPuts, w.rulePuts, t.kind, t.name);
  }

  lemma MutateSafe(start: State, w: World, i: nat, op: Store.Op, t: Target)
    requires Safe(start, w) && i < |w.handlers| && w.handlers[i].phase == Checked(t)
    requires
      || (w.handlers[i].request.Put? && PutOp(w.handlers[i].request.kind, w.handlers[i].request.payload) == Some(op))
      || (w.handlers[i].request.Remove? && op == Store.Delete(w.handlers[i].request.kind, w.handlers[i].request.id)
          && Store.Deleted(w.content.state, op.kind, op.id).Some?)
    ensures Safe(start, Mutate(w, i, op, t))
  {
    hide InScope, OutsideUnchanged, Store.Tidy, Store.SeqInvariant, Store.Apply, Store.Deleted, TargetOf, PutOp,
      DeletesInScope, Within;
    var h := w.handlers[i];
    assert HandlerInvariant(start, w.content.state, h);
    var c, c' := w.content, Store.Apply(w.content, op);
    if h.request.Put? {
      PutOpWithin(h.request.kind, h.request.payload);
      PutStaysOutside(start, c, op, t, w.grantPuts, w.rulePuts);
      PutAddsInScope(start, c, op, t);
    } else {
      DeleteStaysOutside(start, c, h.request, t, w.grantPuts, w.rulePuts);
      DeleteAddsNothing(c, op.kind, op.id);
      assert w.grantPuts + {} == w.grantPuts && w.rulePuts + {} == w.rulePuts;
    }
    Store.OperationRefines(c, op);
    Store.SeqInvariantKept(c, op);
    var w' := Mutate(w, i, op, t);
    forall k | 0 <= k < |w'.handlers| ensures HandlerInvariant(start, c'.state, w'.handlers[k]) {
      if k != i {
        assert HandlerInvariant(start, c.state, w.handlers[k]);
        KnowledgeSurvives(start, c.state, c'.state, w.handlers[k]);
      }
    }
  }

  lemma RecordSafe(start: State, w: World, i: nat, op: Store.Op)
    requires Safe(start, w) && i < |w.handlers| && op.Record?
    ensures Safe(start, Goto(w, i, Done(true)).(content := Store.Apply(w.content, op)))
  {
    hide InScope, Store.Tidy, Store.SeqInvariant, Within, TargetOf;
    Store.OperationRefines(w.content, op);
    Store.SeqInvariantKept(w.content, op);
    var w' := Goto(w, i, Done(true)).(content := Store.Apply(w.content, op));
    forall k | 0 <= k < |w'.handlers| ensures HandlerInvariant(start, w'.content.state, w'.handlers[k]) {
      if k != i {
        assert HandlerInvariant(start, w.content.state, w.handlers[k]);
        KnowledgeSurvives(start, w.content.state, w'.content.state, w.handlers[k]);
      }
    }
  }

  lemma PutStepSafe(start: State, w: World, i: nat)
    requires Safe(start, w) && i < |w.handlers| && w.handlers[i].request.Put?
    ensures Safe(start, PutStep(w, i))
  {
    hide Safe, Mutate, Goto, InScope, TargetOf, PutOp, MayWrite, Store.Apply;
    var h := w.handlers[i];
    match h.phase {
      case Start =>
        var t := TargetOf(h.request.kind, h.request.payload);
        if t.Some? && MayWrite(w.content.state, h.caller, t.value.kind, t.value.name) {
          AuthorityInStart(start, w, h.caller, t.value);
          GotoSafe(start, w, i, Checked(t.value));
        } else {
          GotoSafe(start, w, i, Done(false));
        }
      case Checked(t) =>
        var op := PutOp(h.request.kind, h.request.payload);
        if op.Some? { MutateSafe(start, w, i, op.value, t); } else { GotoSafe(start, w, i, Done(false)); }
      case Mutated(t) =>
        var row := Owed(h.request, t);
        RecordSafe(start, w, i, Store.Record(row.0, row.1, h.caller, ""));
      case _ =>
    }
  }

  lemma RemoveStepSafe(start: State, w: World, i: nat)
    requires Safe(start, w) && i < |w.handlers| && w.handlers[i].request.Remove?
    ensures Safe(start, RemoveStep(w, i))
  {
    hide Mutate, Goto, InScope, TargetOfExisting, MayWrite, Store.Apply, Store.Deleted, OutsideUnchanged,
      Store.Tidy, Within, DeletesInScope;
    var h := w.handlers[i];
    assert HandlerInvariant(start, w.content.state, h);
    match h.phase {
      case Start =>
        if TargetOfExisting(w.content.state, h.request.kind, h.request.id).Some? {
          LookupKnows(start, w.content.state, h);
          GotoSafe(start, w, i, Located(TargetOfExisting(w.content.state, h.request.kind, h.request.id).value));
        } else {
          GotoSafe(start, w, i, Done(false));
        }
      case Located(t) =>
        if MayWrite(w.content.state, h.caller, t.kind, t.name) {
          AuthorityInStart(start, w, h.caller, t);
          GotoSafe(start, w, i, Checked(t));
        } else {
          GotoSafe(start, w, i, Done(false));
        }
      case Checked(t) =>
        if Store.Deleted(w.content.state, h.request.kind, h.request.id).Some? {
          MutateSafe(start, w, i, Store.Delete(h.request.kind, h.request.id), t);
        } else {
          GotoSafe(start, w, i, Done(false));
        }
      case Mutated(t) =>
        var row := Owed(h.request, t);
        RecordSafe(start, w, i, Store.Record(row.0, row.1, h.caller, ""));
      case _ =>
    }
  }

  lemma ConnectStepSafe(start: State, w: World, i: nat)
    requires Safe(start, w) && i < |w.handlers| && w.handlers[i].request.Connect?
    ensures Safe(start, ConnectStep(w, i))
  {
    hide Safe, Goto, InScope, Store.Apply, A.ConnectDecision;
    var h := w.handlers[i];
    match h.phase {
      case Start =>
        GotoSafe(start, w, i, Forwarded);
        GotoSafe(start, w, i, Done(false));
      case Forwarded =>
        GotoSafe(start, w, i, Done(true));
        if ChangesWorkload(h.request) {
          RecordSafe(start, w, i, Store.Record("workload.change", h.request.workload + ":" + h.request.port,
            h.caller, h.request.reply.change));
        }
      case _ =>
    }
  }

  lemma StepSafe(start: State, w: World, i: nat)
    requires Safe(start, w) && i < |w.handlers|
    ensures Safe(start, Step(w, i))
  {
    hide Safe, PutStep, RemoveStep, ConnectStep;
    match w.handlers[i].request {
      case Put(_, _) => PutStepSafe(start, w, i);
      case Remove(_, _) => RemoveStepSafe(start, w, i);
      case Connect(_, _, _, _) => ConnectStepSafe(start, w, i);
    }
  }

  lemma {:induction false} RunSafe(start: State, w: World, moves: seq<nat>)
    requires Safe(start, w) && Schedule(w, moves)
    ensures Safe(start, Run(w, moves))
    decreases |moves|
  {
    hide Safe, Step;
    if moves != [] {
      StepSafe(start, w, moves[0]);
      StepKeepsHandlers(w, moves[0]);
      RunSafe(start, Step(w, moves[0]), moves[1..]);
    }
  }

  lemma FreshIsSafe(w: World)
    requires Fresh(w)
    ensures Safe(w.content.state, w)
  {
  }

  /** Over every interleaving: no resource gains its first write grant; everything outside
      the starting scope is as it was, except grants and rules whose identifier a put
      reused, and exactly those are gone. */
  lemma WriteScopeNeverGrows(w: World, moves: seq<nat>)
    requires Fresh(w) && Schedule(w, moves)
    ensures
      var start, end := w.content.state, Run(w, moves);
      && (forall kind, name :: InScope(end.content.state, kind, name) ==> InScope(start, kind, name))
      && OutsideUnchanged(start, end.content.state, end.grantPuts, end.rulePuts)
  {
    hide Fresh, Safe, InScope, OutsideUnchanged, Run;
    var start, end := w.content.state, Run(w, moves);
    FreshIsSafe(w);
    RunSafe(start, w, moves);
    SafeSaysOutside(start, end);
    forall kind, name | InScope(end.content.state, kind, name) ensures InScope(start, kind, name) {
      ScopeNeverGrew(start, end.content.state, end.grantPuts, end.rulePuts, kind, name);
    }
  }

  lemma SafeSaysOutside(start: State, w: World)
    requires Safe(start, w)
    ensures OutsideUnchanged(start, w.content.state, w.grantPuts, w.rulePuts)
  {
  }

  // ---- The ledger ---------------------------------------------------------------------

  predicate IsResourceRow(e: LedgerEntry) {
    e.action == "resource.put" || e.action == "resource.delete"
  }

  /** The resource rows of a ledger, as action and resource. */
  function ResourceRows(ledger: seq<LedgerEntry>): multiset<(string, string)> {
    if ledger == [] then multiset{}
    else
      var e := ledger[|ledger| - 1];
      var before := ResourceRows(ledger[..|ledger| - 1]);
      if IsResourceRow(e) then before + multiset{(e.action, e.resource)} else before
  }

  /** The rows owed by handlers that have mutated the store and not yet recorded it. */
  function Pending(hs: seq<Handler>): multiset<(string, string)> {
    if hs == [] then multiset{}
    else OwedBy(hs[0]) + Pending(hs[1..])
  }

  function OwedBy(h: Handler): multiset<(string, string)> {
    if h.phase.Mutated? && !h.request.Connect? then multiset{Owed(h.request, h.phase.t)} else multiset{}
  }

  lemma {:induction false} PendingUpdate(hs: seq<Handler>, i: nat, h: Handler)
    requires i < |hs|
    ensures Pending(hs[i := h]) + OwedBy(hs[i]) == Pending(hs) + OwedBy(h)
  {
    hide OwedBy;
    var hs' := hs[i := h];
    if i == 0 {
      assert hs'[1..] == hs[1..];
      assert Pending(hs') == OwedBy(h) + Pending(hs[1..]);
    } else {
      PendingUpdate(hs[1..], i - 1, h);
      assert hs'[1..] == hs[1..][i - 1 := h];
      AddToBoth(OwedBy(hs[0]), Pending(hs[1..]), Pending(hs'[1..]), OwedBy(hs[i]), OwedBy(h));
    }
  }

  lemma AddToBoth<T>(a: multiset<T>, p: multiset<T>, p': multiset<T>, o: multiset<T>, o': multiset<T>)
    requires p' + o == p + o'
    ensures (a + p') + o == (a + p) + o'
  {
    forall x ensures ((a + p') + o)[x] == ((a + p) + o')[x] { assert (p' + o)[x] == (p + o')[x]; }
  }

  /** Mutations made are mutations recorded plus mutations about to be recorded. */
  ghost predicate Balanced(start: State, w: World) {
    ResourceRows(w.content.state.ledger) + Pending(w.handlers) == ResourceRows(start.ledger) + w.made
  }

  /** Moving what is owed between the two sides of the balance. */
  lemma Rebalance<T>(rows: multiset<T>, pending: multiset<T>, rows0: multiset<T>, made: multiset<T>,
                     pending': multiset<T>, owed: multiset<T>, owed': multiset<T>)
    requires rows + pending == rows0 + made
    requires pending' + owed == pending + owed'
    ensures (rows + owed) + pending' == rows0 + (made + owed')
  {
    forall x ensures ((rows + owed) + pending')[x] == (rows0 + (made + owed'))[x] {
      assert (rows + pending)[x] == (rows0 + made)[x];
      assert (pending' + owed)[x] == (pending + owed')[x];
    }
  }

  function RowOf(op: Store.Op): multiset<(string, string)>
    requires op.Record?
  {
    if op.action == "resource.put" || op.action == "resource.delete" 
    then multiset{(op.action, op.resource)}
    else multiset{}
  }

  lemma RowRecorded(c: Store.Content, op: Store.Op)
    requires op.Record?
    ensures ResourceRows(Store.Apply(c, op).state.ledger) == ResourceRows(c.state.ledger) + RowOf(op)
  {
    var l := c.state.ledger;
    var l' := Store.Apply(c, op).state.ledger;
    assert l'[..|l|] == l;
  }

  lemma GotoBalanced(start: State, w: World, i: nat, p: Phase)
    requires Balanced(start, w) && i < |w.handlers| && !p.Mutated? && !w.handlers[i].phase.Mutated?
    ensures Balanced(start, Goto(w, i, p))
  {
    hide ResourceRows, Pending;
    PendingUpdate(w.handlers, i, w.handlers[i].(phase := p));
    Rebalance(ResourceRows(w.content.state.ledger), Pending(w.handlers), ResourceRows(start.ledger), w.made,
              Pending(Goto(w, i, p).handlers), multiset{}, multiset{});
    assert ResourceRows(w.content.state.ledger) + multiset{} == ResourceRows(w.content.state.ledger);
    assert w.made + multiset{} == w.made;
  }

  lemma MutateBalanced(start: State, w: World, i: nat, op: Store.Op, t: Target)
    requires Balanced(start, w) && i < |w.handlers| && !w.handlers[i].request.Connect? && !w.handlers[i].phase.Mutated?
    requires Store.Tidy(w.content.state) && !op.Record?
    ensures Balanced(start, Mutate(w, i, op, t))
  {
    hide Store.Apply, Store.Tidy, ResourceRows, Pending, Owed;
    var w' := Mutate(w, i, op, t);
    PendingUpdate(w.handlers, i, w.handlers[i].(phase := Mutated(t)));
    Store.LedgerUntouched(w.content, op);
    var rows := ResourceRows(w.content.state.ledger);
    Rebalance(rows, Pending(w.handlers), ResourceRows(start.ledger), w.made,
              Pending(w'.handlers), multiset{}, multiset{Owed(w.handlers[i].request, t)});
    assert rows + multiset{} == rows;
  }

  lemma RecordBalanced(start: State, w: World, i: nat, op: Store.Op)
    requires Balanced(start, w) && i < |w.handlers| && op.Record?
    requires OwedBy(w.handlers[i]) == RowOf(op)
    ensures Balanced(start, Goto(w, i, Done(true)).(content := Store.Apply(w.content, op)))
  {
    hide Store.Apply, ResourceRows, Pending, RowOf;
    var w' := Goto(w, i, Done(true)).(content := Store.Apply(w.content, op));
    PendingUpdate(w.handlers, i, w.handlers[i].(phase := Done(true)));
    RowRecorded(w.content, op);
    Rebalance(ResourceRows(w.content.state.ledger), Pending(w.handlers), ResourceRows(start.ledger), w.made,
              Pending(w'.handlers), RowOf(op), multiset{});
    assert w.made + multiset{} == w.made;
  }

  lemma StepBalanced(start: State, w: World, i: nat)
    requires Safe(start, w) && Balanced(start, w) && i < |w.handlers|
    ensures Balanced(start, Step(w, i))
  {
    hide Balanced, Mutate, Goto, InScope, TargetOf, TargetOfExisting, MayWrite, Store.Apply, Store.Deleted,
      Store.Tidy, OutsideUnchanged, A.ConnectDecision, Within, DeletesInScope;
    var h := w.handlers[i];
    assert HandlerInvariant(start, w.content.state, h);
    forall p: Phase | !p.Mutated? && !h.phase.Mutated? ensures Balanced(start, Goto(w, i, p)) {
      GotoBalanced(start, w, i, p);
    }
    match h.request {
      case Put(kind, payload) =>
        if h.phase.Checked? && PutOp(kind, payload).Some? {
          MutateBalanced(start, w, i, PutOp(kind, payload).value, h.phase.t) by { PutOpWithin(kind, payload); }
        } else if h.phase.Mutated? {
          var row := Owed(h.request, h.phase.t);
          RecordBalanced(start, w, i, Store.Record(row.0, row.1, h.caller, ""));
        }
      case Remove(kind, id) =>
        if h.phase.Checked? && Store.Deleted(w.content.state, kind, id).Some? {
          MutateBalanced(start, w, i, Store.Delete(kind, id), h.phase.t);
        } else if h.phase.Mutated? {
          var row := Owed(h.request, h.phase.t);
          RecordBalanced(start, w, i, Store.Record(row.0, row.1, h.caller, ""));
        }
      case Connect(workload, port, verb, reply) =>
        if h.phase.Forwarded? && ChangesWorkload(h.request) {
          RecordBalanced(start, w, i, Store.Record("workload.change", workload + ":" + port, h.caller, reply.change));
        }
    }
  }

  lemma {:induction false} RunBalanced(start: State, w: World, moves: seq<nat>)
    requires Safe(start, w) && Balanced(start, w) && Schedule(w, moves)
    ensures Balanced(start, Run(w, moves))
    decreases |moves|
  {
    hide Safe, Step, Balanced;
    if moves != [] {
      StepSafe(start, w, moves[0]);
      StepBalanced(start, w, moves[0]);
      StepKeepsHandlers(w, moves[0]);
      RunBalanced(start, Step(w, moves[0]), moves[1..]);
    }
  }

  lemma {:induction false} NothingPending(hs: seq<Handler>)
    requires forall i :: 0 <= i < |hs| ==> hs[i].phase == Start
    ensures Pending(hs) == multiset{}
  {
    if hs != [] { NothingPending(hs[1..]); }
  }

  /** At every reachable state the resource rows written since the start, together with
      the rows in-flight handlers still owe, are exactly the mutations made. */
  lemma LedgerConserved(w: World, moves: seq<nat>)
    requires Fresh(w) && Schedule(w, moves)
    ensures Balanced(w.content.state, Run(w, moves))
  {
    hide Run, Safe;
    FreshIsSafe(w);
    NothingPending(w.handlers);
    assert Balanced(w.content.state, w);
    RunBalanced(w.content.state, w, moves);
  }

  /** Sequence numbers count the rows: strictly increasing, without a gap, from one. */
  ghost predicate Numbered(c: Store.Content) {
    && c.seqNo == |c.state.ledger|
    && forall i :: 0 <= i < |c.state.ledger| ==> c.state.ledger[i].seqNo == i + 1
  }

  lemma ApplyNumbered(c: Store.Content, op: Store.Op)
    requires Store.Tidy(c.state) && Numbered(c)
    ensures Numbered(Store.Apply(c, op))
  {
    if op.Record? { RecordNumbered(c, op); } else { Store.LedgerUntouched(c, op); }
  }

  lemma RecordNumbered(c: Store.Content, op: Store.Op)
    requires Numbered(c) && op.Record?
    ensures Numbered(Store.Apply(c, op))
  {
  }

  lemma StepNumbered(start: State, w: World, i: nat)
    requires Safe(start, w) && Numbered(w.content) && i < |w.handlers|
    ensures Numbered(Step(w, i).content)
  {
    hide Numbered, InScope, TargetOf, TargetOfExisting, MayWrite, Store.Apply, Store.Deleted, Store.Tidy,
      OutsideUnchanged, A.ConnectDecision, HandlerInvariant, PutOp;
    forall op: Store.Op ensures Numbered(Store.Apply(w.content, op)) { ApplyNumbered(w.content, op); }
  }

  lemma {:induction false} RunNumbered(start: State, w: World, moves: seq<nat>)
    requires Safe(start, w) && Numbered(w.content) && Schedule(w, moves)
    ensures Numbered(Run(w, moves).content)
    decreases |moves|
  {
    hide Safe, Step, Numbered;
    if moves != [] {
      StepSafe(start, w, moves[0]);
      StepNumbered(start, w, moves[0]);
      StepKeepsHandlers(w, moves[0]);
      RunNumbered(start, Step(w, moves[0]), moves[1..]);
    }
  }

  /** From an empty ledger, every interleaving numbers the rows 1, 2, 3, ... */
  lemma LedgerGapFree(w: World, moves: seq<nat>)
    requires Fresh(w) && w.content.state.ledger == [] && w.content.seqNo == 0 && Schedule(w, moves)
    ensures Numbered(Run(w, moves).content)
  {
    hide Fresh, Safe, Run;
    FreshIsSafe(w);
    RunNumbered(w.content.state, w, moves);
  }

  // ---- The handlers on the store object -----------------------------------------------

  class ControlPlane {
    var store: Store.Store
    var handlers: seq<Handler>
    ghost var made: multiset<(string, string)>
    ghost var grantPuts: set<string>
    ghost var rulePuts: set<string>

    ghost function Now(): World
      reads this, store
    {
      World(store.Contents(), handlers, made, grantPuts, rulePuts)
    }

    constructor (store: Store.Store, requests: seq<(Caller, Request)>)
      ensures this.store == store
      ensures Now() == World(store.Contents(), seq(|requests|, i requires 0 <= i < |requests| =>
                             Handler(requests[i].0, requests[i].1, Start)), multiset{}, {}, {})
    {
      this.store := store;
      handlers := seq(|requests|, i requires 0 <= i < |requests| => Handler(requests[i].0, requests[i].1, Start));
      made, grantPuts, rulePuts := multiset{}, {}, {};
    }

    /** The authority check of the write handlers. */
    method AuthorizeWrite(c: Caller, kind: string, name: string) returns (ok: bool)
      ensures ok <==> MayWrite(store.state, c, kind, name)
    {
      var st := store.state;
      var r := A.EffectiveGrants(st.grants, kind, name, ACTION_WRITE);
      if r.None? {
        return false;
      }
      var principal := if c.principal == "" then ANONYMOUS else c.principal;
      ghost var spec := A.EffectiveGrantsOf(st.grants, kind, name, ACTION_WRITE).value;
      for i := 0 to |r.value|
        invariant A.Shows(r.value, spec)
        invariant forall j :: 0 <= j < i ==> !A.Matches(spec[j], [principal], c.addr)
      {
        var e := r.value[i];
        if principal !in e.principals {
          continue;
        }
        assert [principal][0] in spec[i].principals;
        var inside := Set.Contains(e.sources, c.addr);
        if inside {
          return true;
        }
      }
      return false;
    }

    method Locate(kind: string, id: string) returns (t: Option<Target>)
      ensures t == TargetOfExisting(store.state, kind, id)
    {
      t := TargetOfExisting(store.state, kind, id);
    }

    /** The mutation a checked put performs on the store. */
    method Write(op: Store.Op)
      requires !op.Delete? && !op.Record?
      modifies store
      ensures store.Contents() == Store.Apply(old(store.Contents()), op)
    {
      match op {
        case PutBucket(b) => store.PutBucket(b);
        case PutObject(o, body) => store.PutObject(o, body);
        case PutGrant(g) => store.PutGrant(g);
        case PutWorkload(w) => store.PutWorkload(w);
        case PutRule(r) => store.PutNetworkRule(r);
        case PutPrincipal(p) => store.PutPrincipal(p);
      }
    }

    method AdvancePut(i: nat)
      requires i < |handlers| && handlers[i].request.Put?
      modifies this, store
      ensures store == old(store) && Now() == PutStep(old(Now()), i)
    {
      var h := handlers[i];
      var kind, payload := h.request.kind, h.request.payload;
      match h.phase {
        case Start =>
          var target := TargetOf(kind, payload);
          if target.None? {
            handlers := handlers[i := h.(phase := Done(false))];
            return;
          }
          var allowed := AuthorizeWrite(h.caller, target.value.kind, target.value.name);
          handlers := handlers[i := h.(phase := if allowed then Checked(target.value) else Done(false))];
        case Checked(t) =>
          var op := PutOp(kind, payload);
          if op.None? {
            handlers := handlers[i := h.(phase := Done(false))];
            return;
          }
          Write(op.value);
          handlers := handlers[i := h.(phase := Mutated(t))];
          made := made + multiset{Owed(h.request, t)};
          grantPuts := grantPuts + (if op.value.PutGrant? then {op.value.g.id} else {});
          rulePuts := rulePuts + (if op.value.PutRule? then {op.value.r.id} else {});
        case Mutated(t) =>
          var _ := store.Record("resource.put", kind + "/" + t.identity, h.caller, "");
          handlers := handlers[i := h.(phase := Done(true))];
        case _ =>
      }
    }

    method AdvanceRemove(i: nat)
      requires i < |handlers| && handlers[i].request.Remove?
      modifies this, store
      ensures store == old(store) && Now() == RemoveStep(old(Now()), i)
    {
      var h := handlers[i];
      var kind, id := h.request.kind, h.request.id;
      match h.phase {
        case Start =>
          var target := Locate(kind, id);
          handlers := handlers[i := h.(phase := if target.None? then Done(false) else Located(target.value))];
        case Located(t) =>
          var allowed := AuthorizeWrite(h.caller, t.kind, t.name);
          handlers := handlers[i := h.(phase := if allowed then Checked(t) else Done(false))];
        case Checked(t) =>
          var removed := store.Delete(kind, id);
          if !removed {
            handlers := handlers[i := h.(phase := Done(false))];
            return;
          }
          handlers := handlers[i := h.(phase := Mutated(t))];
          made := made + multiset{Owed(h.request, t)};
        case Mutated(t) =>
          var _ := store.Record("resource.delete", kind + "/" + id, h.caller, "");
          handlers := handlers[i := h.(phase := Done(true))];
        case _ =>
      }
    }

    method AdvanceConnect(i: nat)
      requires i < |handlers| && handlers[i].request.Connect?
      modifies this, store
      ensures store == old(store) && Now() == ConnectStep(old(Now()), i)
    {
      var h := handlers[i];
      var r := h.request;
      match h.phase {
        case Start =>
          var d, _, _ := A.AuthorizeConnect(store.state, h.caller, r.workload, r.port);
          handlers := handlers[i := h.(phase := if d.allowed then Forwarded else Done(false))];
        case Forwarded =>
          if r.reply.Answered? && r.reply.change != "" && r.reply.status < 300 && r.verb != "GET" && r.verb != "HEAD" {
            var _ := store.Record("workload.change", r.workload + ":" + r.port, h.caller, r.reply.change);
          }
          handlers := handlers[i := h.(phase := Done(true))];
        case _ =>
      }
    }

    /** One atomic step of handler i, on the real objects. */
    method Advance(i: nat)
      requires i < |handlers|
      modifies this, store
      ensures store == old(store) && Now() == Step(old(Now()), i)
    {
      match handlers[i].request {
        case Put(_, _) => AdvancePut(i);
        case Remove(_, _) => AdvanceRemove(i);
        case Connect(_, _, _, _) => AdvanceConnect(i);
      }
    }

    /** Any schedule of handlers, run on the real objects. */
    method Interleave(moves: seq<nat>)
      requires forall k :: 0 <= k < |moves| ==> moves[k] < |handlers|
      modifies this, store
      ensures Schedule(old(Now()), moves) && Now() == Run(old(Now()), moves)
    {
      ghost var w := Now();
      for k := 0 to |moves|
        invariant store == old(store) && |handlers| == |w.handlers|
        invariant Schedule(Now(), moves[k..]) && Schedule(w, moves)
        invariant Run(Now(), moves[k..]) == Run(w, moves)
      {
        assert moves[k..][0] == moves[k] && moves[k..][1..] == moves[k + 1..];
        StepKeepsHandlers(Now(), moves[k]);
        Advance(moves[k]);
      }
    }
  }
}
