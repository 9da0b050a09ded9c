# planless: a verified model

planless answers one question, "who can reach what, from where", in two independent ways. The
platform decides each request against interval sets; a deny-by-default policy computes effective
exposure over a graph and compares it with a reviewed allowlist. Around the two stand a control
plane whose handlers interleave, a pipeline that carries a plan from the gate to an apply, and a
reconciliation of what clients observed with what was reviewed.

This project models those parts in Dafny and proves how they relate. The code that works by
changing things is modelled as classes and loops, each tied to a function of its inputs or of its
old state; the promises are then proved about those functions, for every input, every schedule and
every behaviour of the tools. `dafny verify dfyconfig.toml` checks everything.

## Layout

| files | what they hold |
|---|---|
| `Cidr`, `Intervals`, `Prefixes`, `NetSet` | IPv4 blocks, the canonical form of address sets, the greedy split into blocks, and the mutable set with its 32- and 64-bit arithmetic |
| `Platform`, `Authz`, `Store`, `Server` | the control plane's data, request-time authorization, the store over sorted collections, and the interleaved handlers |
| `Requests`, `Handlers` | what a connect is answered and why, and what one handler does by itself to the store and the ledger |
| `Graph`, `Plan`, `Policy`, `ExposureMeaning` | the policy's input, the normalizers that build it from live state and from a plan tree, the policy, and what its comprehensions mean |
| `Answers` | the policy's whole answer, violation by violation and row by row |
| `Soundness`, `Reference`, `Spelling`, `EndToEnd` | the gate against the platform, admission defined again without the policy, independence of spelling, and the way from the pipeline to the policy |
| `Engine`, `Approval`, `Harness`, `Outcomes`, `Reconcile` | the fail-closed reading of the engine, the approval binding, the pipeline, what its runs do and when they pass, and the reconciliation |
| `Canon`, `Digests`, `Sources`, `Order`, `Options` | the canonical printer, digests, the block extractor, orders and keyed tables |

## How the foreign parts are modelled

- SHA-256 is an injective function whose values are one line of text (`Digests`); nothing else
  about it is used.
- The engine's `net.cidr_merge` is the shortest list of blocks with the same coverage, which is
  the function `PrefixesOf`; on a malformed range it is undefined, and `net.cidr_contains` on a
  malformed operand is not satisfied. Two rules that give one policy function two different
  values are an evaluation error of the engine, and so a denial. Its sorted list of violations
  compares them by class first, which is all that is used of that order.
- Every tool of the pipeline (the planner, the renderer, the engine, the file writes, the
  platform's own API) is an oracle that may fail and may answer anything. One oracle stands for
  any change to the plan file between approval and verification.
- Library sorting is a stable sort; wherever the result depends on it, the keys are unique or
  equal keys mean equal elements, except where "Left out" says otherwise.
- A source range is a block, possibly with host bits set, or a malformed text; a bind address is
  an IPv4 address or a text that is none.

## Where the code and its description part

- The gate's promise to the platform needs the bucket to be declared. The policy looks at declared
  buckets only, while the platform serves any stored object. `StaysReviewedIff` gives the exact
  condition: extending an admitted state by one grant keeps the promise for a read if and only if
  the bucket is declared, or an entry covers the read anyway, or no grant could allow it.
  `SomeAdmittedStateAllowsUncoveredReads` is an admitted state in which the promise fails for every
  caller the control plane can make.
- The two accounts of a bind agree exactly when the bind is loopback or unspecified, or the first
  segment that contains the address is the widest that does and no malformed one comes before it:
  the platform takes the first, the policy unites all (`ReachAgreesIff`, `PortExposureExactIff`;
  `NarrowSegmentFirstDisagrees` is a state, in the store's order, where they differ).
- `sources_covered` compares one block with one block. It is sound always, and decides coverage
  exactly when the entry accepts its own merged form (`SourcesCoveredExactIff`;
  `SplitEntryRefusesItsUnion` is an entry that does not).
- The policy's result, unlike the reachability it renders, does see who is named beside `*`:
  `ResultsAgreeIff` is the exact condition, `ResultSeesNamedPrincipals` a pair of documents.
- A port observed from the public segment is spelled differently from every allowlist entry. An
  admitted, truly observed state fails the reconciliation if and only if a port was reached
  (`FailsIffPortReached`; `AdmittedPortFails` is one such run).
- The extractor misses a candidate if and only if some top-level candidate up to it is never
  closed; an unclosed one inside a closed block hides nothing (`InsideIff`; `ClosedBlockIsMissed`
  is a text in which a closed block is missed).
- On the manifest surface the state is read back even when the run was told to skip the remote. The
  two recorded states of a refused run without a second path are equal if and only if the run did
  not skip the remote, or was not on manifests, or could not read the state (`StatesMatchIff`;
  `ManifestStatesDiffer` is a scenario where they differ). No enumerated scenario sets both flags:
  `offline-init` alone skips the remote (internal/tofu/scenario.go:113), and it has no manifest.

## Model

| member | source | states |
|---|---|---|
| Cidr.NestedOrDisjoint | policy/rego/gate.rego:83-87 | Two blocks are nested, longer prefix inside, or disjoint |
| Cidr.MaskIsRemainder | internal/netset/netset.go:31-48 | Clearing the host bits is subtracting the remainder modulo the block size |
| Cidr.AlignedIsMultiple | internal/netset/netset.go:175-195 | The bitwise alignment test is divisibility by the block size |
| Intervals.CanonicalMeaning | internal/netset/netset.go:74-97 | Normalization keeps coverage and yields sorted intervals that do not even touch |
| Intervals.CanonicalUnique | internal/netset/netset.go:74-97 | Two canonical lists with the same coverage are the same list |
| Intervals.CanonicalDependsOnCoverage | internal/netset/netset.go:74-97 | Same coverage if and only if same canonical list, however the set was spelled |
| Intervals.WholeSpace | internal/netset/netset.go:116-120 | On canonical lists the one-interval shape test holds if and only if every address is contained |
| Intervals.UnionIsPointwise | internal/netset/netset.go:123-133 | The union is canonical and contains an address if and only if one side does |
| Intervals.IntersectIsPointwise | internal/netset/netset.go:136-157 | The intersection is canonical and contains an address if and only if both sides do |
| Intervals.ParseAllMeaning | internal/netset/netset.go:31-48 | Parsing succeeds if and only if no range is malformed, and then covers exactly the ranges |
| Prefixes.SplitTiles | internal/netset/netset.go:175-195 | The split of an interval lays aligned blocks end to end over exactly its addresses |
| Prefixes.PrefixesTile | internal/netset/netset.go:175-195 | The list is masked, ascending and disjoint, and covers exactly the set |
| Prefixes.PrefixesMaximal | internal/netset/netset.go:175-195 | No emitted block can be widened inside the interval it lies in |
| Prefixes.EmittedBlocksAbsorb | internal/netset/netset.go:175-195 | Any block inside the coverage that meets an emitted block lies inside it |
| Prefixes.PrefixesShortest | internal/netset/netset.go:175-195 | No block list with the same coverage is shorter |
| Prefixes.AtMost62Blocks | internal/netset/netset.go:175-195 | One interval never needs more than 62 blocks |
| Prefixes.SixtyTwoBlocksAreNeeded | internal/netset/netset.go:175-195 | Everything but the first and the last address takes all 62, so the bound is tight |
| Prefixes.RoundTrip | internal/netset/netset.go:159-195 | Parsing the rendered prefixes gives back the very set |
| Prefixes.PrefixesDecideCoverage | internal/netset/netset.go:159-171 | Equal prefix lists, equal coverage and equal interval lists are one and the same |
| NetSet.LastAddressWraps | internal/netset/netset.go:31-48 | In wrapping 32-bit arithmetic the last address of every block comes out right, `/0` included |
| NetSet.Set.Parse | internal/netset/netset.go:31-48 | Fails if and only if a range is malformed; otherwise the canonical set of exactly the ranges |
| NetSet.Set.Normalize | internal/netset/netset.go:74-97 | In place: the canonical list of the old intervals, same coverage |
| NetSet.Set.Contains | internal/netset/netset.go:100-112 | True if and only if the address is IPv4 and covered |
| NetSet.Set.IsEmpty | internal/netset/netset.go:114-114 | True if and only if no address is covered |
| NetSet.Set.CoversAll | internal/netset/netset.go:116-120 | True if and only if every address is covered |
| NetSet.Set.Union | internal/netset/netset.go:123-133 | A canonical set, pointwise or |
| NetSet.Set.Intersect | internal/netset/netset.go:136-157 | A canonical set, pointwise and |
| NetSet.Set.PrefixList | internal/netset/netset.go:175-195 | With 64-bit counters that stay in range, ends for every set and yields the specified list |
| NetSet.Set.LargestFit | internal/netset/netset.go:180-190 | The inner loop finds the largest block that starts here and fits |
| NetSet.Set.Equal | internal/netset/netset.go:160-171 | Comparing prefix lists decides equality of coverage |
| Authz.EffectiveGrantsMeaning | internal/platform/authz.go:50-66 | Fails if and only if an applicable grant is malformed; otherwise one entry per applicable grant |
| Authz.EffectiveGrants | internal/platform/authz.go:50-66 | The loop over grants builds address sets that show exactly the specified entries |
| Authz.SegmentReachMeaning | internal/platform/authz.go:103-128 | The reach of a bind is its first containing segment, with no malformed one before it; empty only if none contains it |
| Authz.BindReach | internal/platform/authz.go:103-128 | Loopback, unspecified, malformed and segment cases of a bind, as an address set |
| Authz.PermittedMeaning | internal/platform/authz.go:71-88 | The union of permitting rules admits an address if and only if some rule does |
| Authz.EffectiveIngress | internal/platform/authz.go:71-94 | The union of permitting rules capped by the bind's reach, with the joined rule identifiers |
| Authz.SearchMeaning | internal/platform/authz.go:131-162 | The grant-by-grant search succeeds if and only if some grant admits one of the principals from the address |
| Authz.AuthorizeObjectRead | internal/platform/authz.go:131-162 | Each refusal and its reason; allowed if and only if a readable grant admits the caller or everyone, and the rule reported is that of the first grant that does |
| Authz.FirstMatch | internal/platform/authz.go:148-160 | The grant-by-grant search stops at the first grant of the bucket that is for reading, covers the address and names the caller or everyone |
| Authz.AuthorizeConnect | internal/platform/authz.go:166-202 | The loops over workloads, ports, rules and segments give the specified decision, workload and port |
| Authz.LookupMeaning | internal/platform/authz.go:166-185 | Later declarations win: the last workload of the name, and the last port of the name on the last such workload that has one; none if and only if there is none |
| Authz.ConnectAllowedMeaning | internal/platform/authz.go:166-202 | Allowed if and only if a rule permits the address, the bind serves it, and nothing on the way is malformed |
| Requests.ConnectAnswer | internal/platform/authz.go:166-202 | For each reason the condition under which it is given, if and only if; whenever there is a place, the workload is the last of the name and the port the last of the name that was declared, and an allowed connect reports the joined identifiers of the permitting rules |
| Requests.ReportedRule | internal/platform/authz.go:71-88 | The reported rule joins exactly the identifiers of the rules of the port, in order |
| Requests.ReachOfBind | internal/platform/authz.go:103-128 | A bind is readable, and hears an address, by its own text and its first containing segment |
| ExposureMeaning.BucketExposureMeaning | policy/rego/gate.rego:39-56 | Computable if and only if there are read grants and none is malformed; then exactly their principals and addresses |
| ExposureMeaning.IntersectionIsExact | policy/rego/gate.rego:83-92 | The narrower of two nested blocks is their set intersection; otherwise they share no address |
| ExposureMeaning.BindReachMeaning | policy/rego/gate.rego:68-81 | What a bind serves in the policy's account, address by address |
| ExposureMeaning.PortExposureMeaning | policy/rego/gate.rego:62-107 | Computable if and only if no rule is malformed; then exactly what some rule permits and the bind serves |
| ExposureMeaning.SourcesCoveredSound | policy/rego/gate.rego:119-124 | Block-by-block coverage implies address coverage |
| ExposureMeaning.SourcesCoveredComplete | policy/rego/gate.rego:119-124 | And conversely when the entry accepts its own merged form |
| ExposureMeaning.SourcesCoveredExactIff | policy/rego/gate.rego:119-124 | That condition holds if and only if the test decides coverage for every exposure |
| ExposureMeaning.MergedFormIsExact | policy/rego/gate.rego:119-124 | Entries that list their merged blocks meet the condition |
| ExposureMeaning.SplitEntryRefusesItsUnion | policy/rego/gate.rego:119-124 | Two halves of the space refuse the whole, though they cover it |
| Policy.CidrMergeMeaning | policy/rego/gate.rego:46-56 | Merging is defined if and only if nothing is malformed, and keeps coverage |
| Policy.CidrMergeCanonical | policy/rego/gate.rego:94-107 | Merging depends on coverage alone |
| Policy.AdmitsMeaning | policy/rego/gate.rego:126-321 | An admission means: known contract, nothing unrecognized, nothing malformed, every read bucket and reachable port admitted by an entry, and no conflicting entries; and conversely |
| Answers.ViolationsAre | policy/rego/gate.rego:147-265 | A violation is in the answer if and only if it is warranted: nine classes and no other, each with its own condition on the document and the allowlist, its resource and what it shows |
| Answers.BucketExposureIs | policy/rego/gate.rego:39-56 | A bucket has an exposure if and only if it has read grants and all are readable, and it is then their principals, their identifiers and the blocks of their union |
| Answers.PortExposureIs | policy/rego/gate.rego:62-107 | A port has an exposure if and only if its rules are readable, and it is then their identifiers and the blocks of their union as far as the bind hears it |
| Answers.DenialIsWarranted | policy/rego/gate.rego:308-321 | The result is "deny" if and only if some violation is warranted, and otherwise "admit" |
| Answers.NoAnswerIff | policy/rego/gate.rego:126-141 | The engine has no answer if and only if entries with different rules admit one declared resource |
| Answers.RowsAre | policy/rego/gate.rego:267-306 | A row is in the answer if and only if its resource is declared and has that exposure, it renders who and from where, and it carries the rules of exactly the entries that admit the resource |
| Soundness.AdmittedReadsAreAllowlisted | policy/rego/gate.rego:219-242 | If the live state is admitted, every read the platform allows on a declared bucket is covered by one entry naming the bucket, the caller's address, and the caller or everyone |
| Soundness.AdmittedConnectsAreAllowlisted | policy/rego/gate.rego:244-265 | The same for every connect the platform allows, with the state's own segments |
| Soundness.BindReachWithin | internal/platform/authz.go:103-128 | The platform's account of a bind is always within the policy's |
| Soundness.ReachAgreesIff | policy/rego/gate.rego:68-81 | For any segments, the accounts agree if and only if the bind is loopback or unspecified, or its first segment is its widest with no malformed one before it |
| Soundness.PortExactFromReach | policy/rego/gate.rego:94-107 | Where they agree, the gate's pairwise intersections and the platform's effective ingress are undefined together or cover the same addresses, for any rules |
| Soundness.PortExposureExactIff | policy/rego/gate.rego:94-107 | So they are in every state with these segments that declares the port, if and only if the accounts agree; for segments in the store's order, already in every such state a store can hold |
| Soundness.NarrowSegmentFirstDisagrees | internal/platform/authz.go:103-128 | A state a store can hold, with a declared port, in which the accounts differ and so do exposure and ingress |
| Soundness.OneSegmentIsWidest | internal/platform/authz.go:103-128 | The condition on widths holds when at most one segment contains the address |
| Soundness.GateIgnoresUndeclaredBuckets | policy/rego/gate.rego:222-242 | A readable grant on an undeclared bucket changes no result, in any state |
| Soundness.UndeclaredBucketEscapes | internal/platform/authz.go:131-162 | Any admitted state with an undeclared bucket's object has an extension by one grant that is still admitted and in which the caller reads it |
| Soundness.StaysReviewedIff | policy/rego/gate.rego:222-242 | For an admitted state: every admitted extension by one grant in which the caller may read the object has an entry that covers the read, if and only if the bucket is declared, or an entry covers it already, or no grant could allow it |
| Reference.LiveAdmissionIff | policy/rego/gate.rego:39-141 | With exact entries a live state is admitted if and only if it is readable and, by an independent definition over its own grants, rules and segments, single entries cover each bucket's grants and each port's reach, and entries that accept one resource agree on their rule |
| Reference.ConflictsIff | policy/rego/gate.rego:126-141 | Entries conflict in the policy if and only if two with different rules accept one resource |
| Reference.EntryAdmitsBucketIff | policy/rego/gate.rego:126-133 | An exact entry admits a bucket if and only if it covers the principals and addresses of each of its read grants |
| Reference.PortAdmittedIff | policy/rego/gate.rego:135-141 | A port is admitted if and only if nothing reaches it or one entry covers everything that does |
| Reference.SomeAdmittedStateAllowsReads | internal/platform/authz.go:131-162 | A state a store can hold that is admitted, and in which every caller the control plane can make may read |
| Reference.SomeAdmittedStateAllowsConnects | internal/platform/authz.go:166-202 | The same for a connect |
| Reference.SomeAdmittedStateAllowsUncoveredReads | policy/rego/gate.rego:222-242 | A state a store can hold that is admitted, and in which every caller the control plane can make reads an object of an undeclared bucket that no entry covers |
| Spelling.ResultIsSpellingIndependent | policy/rego/gate.rego:308-321 | Documents whose grants and rules give the same principals and coverage get the same result |
| Spelling.ReachabilityIsSpellingIndependent | policy/rego/gate.rego:267-287 | Two documents with the same resources and the same coverage per bucket and port report the same reachability for every resource, if and only if each readable bucket names the same principals on both sides or everyone on both sides |
| Spelling.BucketReachIff | policy/rego/gate.rego:39-56 | The same, bucket by bucket, from the grants |
| Spelling.ReachabilityDecides | policy/rego/gate.rego:267-287 | Two exposures render alike if and only if sources agree and principals agree up to names beside everyone |
| Spelling.ResultsAgreeIff | policy/rego/gate.rego:113-133 | Documents alike but for names are admitted by the same allowlists if and only if their buckets name the same principals, or nothing could admit either |
| Spelling.TailoredAdmits | policy/rego/gate.rego:126-141 | A clean document is admitted by an allowlist made from it |
| Spelling.TailoredRefuses | policy/rego/gate.rego:113-133 | Which refuses every document that names one reader more on one of its buckets |
| Spelling.ResultSeesNamedPrincipals | policy/rego/gate.rego:113-133 | A concrete pair with one reachability and two results |
| Graph.FromPlatformState | internal/graph/platform.go:64-132 | Refuses if and only if there is neither bucket nor workload; otherwise a fresh graph holding the specified document |
| Graph.LiveDocumentContents | internal/graph/platform.go:64-132 | That document holds, with multiplicity, one element for each of the state's buckets, objects, workloads, grants and rules, and the given segments |
| Graph.LiveDocumentMembers | internal/graph/platform.go:64-132 | As sets: an element is in the document if and only if the state has what it stands for |
| Graph.LiveDocumentSays | internal/graph/platform.go:64-132 | Element by element: the kind, name, address, ports and attributes each resource has in the document, grants and rules as they are, the header, and the order |
| Graph.OrderedMeaning | internal/graph/normalize.go:190-195 | Sorting keeps every element with its multiplicity and orders each collection by its key |
| Graph.Graph.SortAll | internal/graph/normalize.go:190-195 | In place: each collection ordered |
| Plan.Walk | internal/graph/normalize.go:112-127 | The recursive walk adds every planned resource of the module tree, in order, and collects what is unknown |
| Plan.Add | internal/graph/normalize.go:149-187 | The element that stands for a recognized resource is appended to its collection, nothing else changed |
| Plan.FromPlan | internal/graph/normalize.go:90-143 | Refuses undecodable artifacts and those without a format version; otherwise a fresh graph with the document that `DocumentDescribesTree` and `NothingLost` are about |
| Plan.ElementDescribes | internal/graph/normalize.go:149-187 | For each type, from the planned attributes alone: which attribute each field of the element comes from, principals and actions item by item, ranges by index, and name, number and bind of every port |
| Plan.DocumentDescribesTree | internal/graph/normalize.go:90-187 | Everything in the document describes some resource somewhere in the module tree, and every resource of a known type there is described in it |
| Plan.PlannedIsInTree | internal/graph/normalize.go:112-127 | The walk reaches exactly the resources of the root module and of its descendants |
| Plan.ContractTable | internal/graph/normalize.go:12-20 | Which attributes of which types are known, name by name |
| Plan.RecognizedTypesHaveElements | internal/graph/normalize.go:149-187 | A type is known if and only if it yields an element |
| Plan.NothingLost | internal/graph/normalize.go:90-143 | For any tree the document holds, with multiplicity, exactly one element per planned resource of a known type; elements plus unknown resources count all of it; exactly the unknown types and attributes are listed, in order |
| Plan.HeldIsPlanned | internal/graph/normalize.go:149-187 | An element is in the document if and only if some planned resource yields it |
| Plan.AdmittedPlansAreRecognized | policy/rego/gate.rego:175-187 | An admitted plan has no unknown type or attribute anywhere in its tree |
| Engine.OnlyCleanAdmissionAdmits | internal/gate/gate.go:197-293 | Anything but a well-formed admission without violations denies |
| Engine.EvaluateMeaning | internal/gate/gate.go:197-293 | For each way an evaluation can go: the decision passed on as it is, or a denial whose class names the reason |
| Engine.ListedMeaning | policy/rego/gate.rego:308-313 | The list passed on has a violation for each of the policy's and no other, one of the least class first |
| Engine.GateFollowsPolicy | internal/gate/gate.go:197-293 | With an engine that evaluates the policy, the gate admits if and only if the policy does |
| Approval.RunIdInjective | internal/tofu/approval.go:37-39 | The newline-joined run identity determines scenario and artifact digest |
| Approval.LastNewlineSplits | internal/tofu/approval.go:37-39 | Joining with a newline is injective when the second part has none |
| Approval.AcceptedExactlyWhereIssued | internal/tofu/approval.go:76-99 | An approval is accepted for exactly the scenario and the bytes it was issued for |
| Approval.AcceptanceMeaning | internal/tofu/approval.go:51-99 | Whatever the file holds, acceptance means this artifact's digest and this run |
| Approval.RefusalClasses | internal/tofu/approval.go:51-99 | The condition of each of the four refusal classes, and of acceptance, if and only if |
| Harness.Run | internal/tofu/harness.go:53-254 | Unavailable scenarios do nothing; otherwise the transcript, the platform and the effects are those of the specified run, and it passes if and only if it completed and met its outcome |
| Harness.RunPlan | internal/tofu/harness.go:92-219 | The plan surface of the run, up to the gate and around it |
| Harness.RunGated | internal/tofu/harness.go:220-254 | Decide, approve by digest, verify, finish |
| Harness.Transcript.RehearseBinding | internal/tofu/harness.go:258-281 | Each way the binding is broken, as what it leaves in the approval and plan files |
| Harness.Transcript.Finish | internal/tofu/harness.go:322-390 | What is applied, recorded, read back and mutated, for every flag combination and tool outcome |
| Harness.Transcript.Assert | internal/tofu/harness.go:394-454 | The declared outcome, field by field |
| Harness.Transcript.Refuse | internal/tofu/harness.go:469-481 | One audit event, the generic result, the stage |
| Harness.Transcript.RunManifest | internal/tofu/manifest_run.go:19-101 | The manifest surface of the run |
| Harness.EveryRunIsConsistent | internal/tofu/harness.go:322-390 | On both surfaces: at most one audit event, a stage if and only if one, never beside a deployment, applied beside one only out of band, and a refusal that is not out of band leaves the platform untouched |
| Harness.StatesMatchIff | internal/tofu/manifest_run.go:84-91 | The recorded states of a refused run without a second path are equal if and only if the remote was not skipped, or the run was not on manifests, or no state could be read |
| Harness.ManifestStatesDiffer | internal/tofu/manifest_run.go:84-91 | A scenario on manifests that skips the remote, is denied, and records a state after and none before |
| Harness.DriftFollowsApply | internal/tofu/harness.go:362-383 | A direct change happens only in the drift scenario, once, right after an apply |
| Harness.RefusedExactly | internal/tofu/harness.go:438-451 | A completed run meets the outcome "refused" if and only if it was refused and no second path applied it |
| Harness.AppliedIsAdmitted | internal/tofu/harness.go:223-254 | Under the gate, whatever the tools do, what is applied are bytes whose resolved form was admitted |
| Harness.UnderTheGateExactly | internal/tofu/harness.go:223-281 | With working tools: refused at the policy if and only if denied, and passed on if and only if admitted, bound and unchanged |
| Outcomes.GatedRunAppliesIff | internal/tofu/harness.go:220-333 | Under the gate the plan made is applied if and only if the decision admits, the approval is written and holds for the file found, and nothing says to skip it; nothing else is ever applied |
| Outcomes.ProceedingRunApplies | internal/tofu/harness.go:164-390 | A run that nothing refuses, with a scan, a denylist, no gate, an ignored denial or an admission, applies the plan it made and reports it, unless told to skip it or evaluating a stored artifact; with the platform, effects, states and drift it ends with |
| Outcomes.DenialIsTold | internal/tofu/harness.go:220-230 | A denial that is obeyed leaves one event with the class of its first violation, and an apply if and only if a second path makes one |
| Outcomes.BreakIsTold | internal/tofu/harness.go:245-254 | The same for a broken binding, with the class of the break |
| Outcomes.OtherwiseStopped | internal/tofu/harness.go:76-254 | In every other case the run has told and done nothing and is not complete |
| Outcomes.DecisionIsNoted | internal/tofu/harness.go:164-230 | Which decision, scan and denylist report the transcript notes, and when it says that a denial was ignored |
| Outcomes.AppliedPassesIff | internal/tofu/harness.go:404-437 | A run declared applied passes if and only if it proceeds with its own plan, the apply settles or is skipped, and what its flags are there to show is shown |
| Outcomes.RefusedPassesIff | internal/tofu/harness.go:438-451 | A run declared refused passes if and only if the policy or the binding refuses it, without a second path |
| Outcomes.OutOfBandPassesIff | internal/tofu/harness.go:394-402 | A run declared applied out of band passes if and only if a denied plan is refused and a second path applies what it finds |
| Outcomes.ManifestRun | internal/tofu/manifest_run.go:63-101 | Manifests are applied unless the run is gated and the decision denies; the event, the states and the result of either |
| Outcomes.ManifestRunStops | internal/tofu/manifest_run.go:19-62 | A run on manifests that a tool stops before the decision has told and done nothing |
| Outcomes.ManifestsPassIff | internal/tofu/harness.go:394-454 | When a run on manifests passes, for each declared outcome |
| Outcomes.AuditNamesLeastClass | internal/tofu/harness.go:486-491 | With an engine that evaluates the policy, the audit event carries the least class of the warranted violations, or the engine's own where the policy has no answer |
| EndToEnd.AppliedPlansAreReviewed | internal/tofu/harness.go:223-254 | Under the gate with an engine that evaluates the policy or fails, every applied plan resolves to a tree that is recognized throughout and whose every planned read and reachable port is covered by an entry |
| EndToEnd.RequestsAfterApplyAreCovered | internal/platform/authz.go:131-202 | On any platform that then holds no more than an applied plan declares, every allowed read from a declared bucket and every allowed connect is covered by one entry |
| EndToEnd.AdmittedPlanIsReviewed | internal/graph/normalize.go:90-187 | The same for an admitted plan document, in terms of its module tree |
| EndToEnd.AdmittedTextIsAdmittedDocument | internal/tofu/harness.go:283-304 | A gate decision that does not deny comes from a document the policy admits |
| Store.Store.New | internal/platform/store.go:28-33 | Empty collections, the given segments in order |
| Store.Store.Load | internal/platform/store.go:37-48 | The whole state replaced, in order, resuming after the largest sequence number |
| Store.Store.PutObject | internal/platform/store.go:135-147 | One object replaced or added, with the size and content digest of the body, the body, and the rest as given |
| Store.Store.PutBucket | internal/platform/store.go:149-154 | One bucket replaced or added, in order |
| Store.Store.PutGrant | internal/platform/store.go:156-161 | One grant replaced or added by identifier |
| Store.Store.PutWorkload | internal/platform/store.go:163-168 | One workload replaced or added |
| Store.Store.PutNetworkRule | internal/platform/store.go:170-175 | One rule replaced or added by identifier |
| Store.Store.PutPrincipal | internal/platform/store.go:177-182 | One principal replaced or added |
| Store.Store.Delete | internal/platform/store.go:185-229 | One resource removed; not found, changing nothing, if and only if there is none |
| Store.Store.Record | internal/platform/store.go:232-250 | One row appended with the next sequence number, the action, resource, caller and detail given, and everyone's name for a caller without one |
| Store.Store.Normalize | internal/platform/store.go:292-306 | In place: each collection sorted by its key |
| Store.Upsert | internal/platform/store.go:252-260 | Replace the first element with the key, or append |
| Store.Store.SegmentOf | internal/platform/store.go:95-108 | The first readable segment that contains the address, or none |
| Store.SegmentMeaning | internal/platform/store.go:95-108 | The first segment that is readable and contains the address names it; the empty text if and only if none does |
| Store.CutSlashMeaning | internal/platform/store.go:214-218 | An identifier is split at its first slash, and is refused if and only if it has none |
| Store.LargestSeqBounds | internal/platform/store.go:37-48 | The number to resume after is the largest there is, or zero |
| Store.OperationRefines | internal/platform/store.go:135-250 | One operation is the same operation on finite maps, and keeps every collection sorted with unique keys |
| Store.RunRefinesMaps | internal/platform/store.go:135-250 | So is every sequence of operations |
| Store.StartsTidy | internal/platform/store.go:28-48 | A fresh store, and one loaded from unique keys, start sorted with unique keys |
| Store.TidyCanonical | internal/platform/store.go:292-306 | Such states that denote the same maps hold the same sequences |
| Store.SameMapsSameState | internal/platform/store.go:57-86 | Two runs reach the same digested view if and only if they reach the same maps |
| Store.DifferentKeysCommute | internal/platform/store.go:135-229 | Operations on different keys commute |
| Store.RecordKeepsConfigured | internal/platform/store.go:57-86 | A ledger row never changes the digested view |
| Server.MayWriteMeaning | internal/api/server.go:314-333 | Write authority if and only if a write grant names exactly this principal and covers the address, and none on the resource is malformed; a grant to everyone does not do |
| Server.DeleteWithin | internal/api/server.go:291-312 | A deletion stays inside the resource it was authorized for, whatever happened since the lookup |
| Server.WriteScopeNeverGrows | internal/api/server.go:241-312 | Over every interleaving no resource gains its first write grant; everything outside the starting scope is unchanged, except grants and rules whose identifier a put reused, and exactly those are gone |
| Server.LedgerConserved | internal/api/server.go:241-312 | At every reachable state the mutations made are the rows recorded plus the rows in-flight handlers still owe |
| Server.LedgerGapFree | internal/platform/store.go:232-250 | From an empty ledger every interleaving numbers the rows 1, 2, 3, and so on |
| Server.ControlPlane.AuthorizeWrite | internal/api/server.go:314-333 | The loop decides write authority |
| Handlers.PutStores | internal/api/server.go:241-289 | From its start an authorized put that names and decodes its element ends applied: the element is in its collection as it was sent, in place of one with its key, nothing else has changed, and the ledger has the row with kind, identity, caller and segment |
| Handlers.PutRefused | internal/api/server.go:241-289 | Any other put ends refused with the store as it was |
| Handlers.PutMutates | internal/api/server.go:260-284 | Wherever the other handlers stand, the step that writes stores what was sent and nothing else |
| Handlers.RemoveRemoves | internal/api/server.go:291-312 | An authorized delete of a resource that is there ends applied: it is out of its collection, nothing else has changed, and the ledger has the row |
| Handlers.RemoveRefused | internal/api/server.go:291-312 | Any other delete ends refused with the store as it was |
| Handlers.ConnectRuns | internal/api/server.go:168-221 | An allowed connect is forwarded and leaves a row if and only if the workload reports a change below 300 to a verb other than GET and HEAD; any other leaves no trace |
| Handlers.AuthorityAlike | internal/api/server.go:314-333 | The write authority of the handlers, as a statement about the grants and the caller |
| Server.ControlPlane.AdvancePut | internal/api/server.go:241-289 | On the real store, each step between two lock acquisitions of a put is the step that `PutStores` and `PutRefused` are about |
| Server.ControlPlane.AdvanceRemove | internal/api/server.go:291-312 | The same for each step of a delete |
| Server.ControlPlane.AdvanceConnect | internal/api/server.go:168-221 | Authorization, then the row for an accepted change |
| Server.ControlPlane.Interleave | internal/api/server.go:241-312 | Any schedule of handlers on the real store is the specified run |
| Canon.Write | internal/canon/canon.go:49-104 | Appends exactly the tree's encoding to the shared buffer |
| Canon.WriteArray | internal/canon/canon.go:70-79 | Items in order, separated by commas |
| Canon.WriteObject | internal/canon/canon.go:80-101 | Members in key order, whatever order the keys were visited in |
| Canon.KeysAscend | internal/canon/canon.go:80-101 | The ascending enumeration of the keys is the one order the members are written in |
| Canon.DigestOf | internal/canon/canon.go:117-129 | The digest of the canonical bytes |
| Canon.StringReads | internal/canon/canon.go:106-112 | Every escaped string reads back, and stops at its closing quote |
| Canon.EscapeShape | internal/canon/canon.go:106-112 | Which escape each character gets: two characters for seven of them, six with lower-case digits for the other controls and the two separators, itself otherwise |
| Canon.RoundTrip | internal/canon/canon.go:49-104 | A parser recovers every tree from its encoding and stops right behind it |
| Canon.EncodingIsPrefixFree | internal/canon/canon.go:49-104 | Encodings followed by a delimiter are equal only if the trees and the rests are |
| Canon.DigestDecidesTree | internal/canon/canon.go:18-37 | Equal bytes, equal digests and equal trees are one and the same |
| Reconcile.PublicEntries | internal/tofu/reconcile.go:40-72 | Fails if and only if there is no entry or a malformed one; otherwise the sorted names of the public entries |
| Reconcile.PublicNamesMeaning | internal/tofu/reconcile.go:58-69 | A name is listed if and only if an entry of that kind and name covers 198.51.100.50, and for buckets names everyone |
| Reconcile.Reconcile | internal/tofu/reconcile.go:89-136 | The specified verdict and lists, none without a readable allowlist; passing also needs the expected verdict |
| Reconcile.ReconcileMeaning | internal/tofu/reconcile.go:105-132 | FAIL if and only if something seen from the public segment is spelled by no public entry; exactly those are reported, and the two other lists are sorted and hold what was reached and what is public |
| Reconcile.NoBucketIsUnreviewed | internal/tofu/reconcile.go:40-136 | An admitted live state whose buckets were observed truly never has an unreviewed bucket |
| Reconcile.ReachedPortFails | internal/tofu/reconcile.go:58-127 | A port seen from the public segment always fails, whatever entries of the gate's kinds there are |
| Reconcile.FailsIffPortReached | internal/tofu/reconcile.go:89-136 | An admitted state, observed truly by clients that report buckets and ports, fails if and only if a port was reached |
| Reconcile.AdmittedPortFails | internal/tofu/reconcile.go:105-127 | A concrete run on such a state: the port is admitted, the probe, classified by the state's segments, connects, the verdict is FAIL |
| Reconcile.CompareReachability | internal/tofu/reconcile.go:359-407 | Accepts if and only if there are at least two sets, each with a public entry, all inducing the same map |
| Reconcile.SameReachability | internal/tofu/reconcile.go:391-401 | Sizes and one direction decide equality of the maps |
| Reconcile.InducedMeaning | internal/tofu/reconcile.go:376-382 | The map holds the last word on each resource observed from the public segment |
| Reconcile.AgreementIgnoresOrder | internal/tofu/reconcile.go:359-407 | Acceptance depends on which sets are on the stream, not on their order |
| Sources.ResourceBlockBodies | internal/tofu/sources.go:37-76 | The scan by index ends and returns the bodies of the specified blocks |
| Sources.BlocksMeaning | internal/tofu/sources.go:37-76 | In order and disjoint, each from a candidate's first brace to the brace that matches it |
| Sources.CloseOfMatches | internal/tofu/sources.go:54-68 | The depth scan finds the matching brace, and reports none only if there is none |
| Sources.CandidateMeaning | internal/tofu/sources.go:37-52 | A block starts where the ten characters of the keyword stand at the start of the file or behind white space of four kinds |
| Sources.BalanceCounts | internal/tofu/sources.go:54-68 | Depth is the number of opening less the number of closing braces |
| Sources.FindEnd | internal/tofu/sources.go:53-68 | The depth loop, with its early exit |
| Sources.InsideIff | internal/tofu/sources.go:37-76 | A candidate lies in a returned block if and only if every top-level candidate up to it is closed |
| Sources.ClosedBlockIsMissed | internal/tofu/sources.go:66-70 | A text whose closed block is missed behind an unclosed candidate |
| Sources.EveryCandidateIsInside | internal/tofu/sources.go:37-76 | If every candidate is closed, each starts a returned block or lies inside one |
| Sources.SkipKeyword | internal/tofu/sources.go:44-47 | Skipping a keyword that is no candidate, and one character more, skips no candidate |

## Left out

- HTTP, sockets, JSON decoding of requests, files and processes: oracles with an outcome.
- The address syntax itself, white space around ranges and IPv6: a range is a block or malformed.
- UTF-8: strings are sequences of code points, so the replacement of invalid bytes by the printer is not modelled.
- Canon.RoundTrip: number texts are only required to start with a digit or a minus sign and to go on with number characters, which every decoded number does.
- Nil against empty slices: results about the store speak of element sequences, not of the digest of an emptied collection against one never filled.
- Slices shared between a caller and the store: fields are immutable sequences.
- Harness.AppliedIsAdmitted: changes to the plan file between verification and apply, and to the approval file, are outside the oracle for change.
- Server.ControlPlane.AdvanceConnect: sending the request to the address and port of `Requests.ConnectAnswer` is an oracle with an outcome.
- Harness.Transcript.Refuse: correlation identifiers, warnings, source layout findings and value origins are not recorded.
- Graph.OrderedMeaning: elements with equal keys keep their order, which the library sort does not promise.
- Store.SameMapsSameState: segments with equal names keep their order when they are sorted again, which the library sort does not promise.
- Store.DifferentKeysCommute: the same.
- Store.Store.Load: loaded ledger rows with equal numbers keep their order as well.
- Policy.AdmitsMeaning: the reason texts of violations and the rendered text of exposures are replaced by the values they render.
- Plan.NothingLost: provenance of values is not part of a document.
- Reconcile.Reconcile: the stream of one transcript and several observation sets is already split; the allowlist of the scenario is a parameter.
- The comparisons of observations, builds, exposures and applications: the same loop shape over simpler data.
- Manifest normalization, the source, manifest and denylist scans, the drift report, tables and rendering: flat matching or output.
- The Terraform provider, the command line programs, fixtures and self checks: plumbing.
