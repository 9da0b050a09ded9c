/** The pipeline: one scenario from plan to apply, as an object that records its
    transcript while it acts on an environment of files and a platform. */
module Harness {
  import opened Options
  import opened Digests
  import opened Approval
  import Engine

  const DEPLOYED := "DEPLOYED"
  const REFUSED := "DEPLOY_REFUSED"
  const STAGE_POLICY := "policy"
  const STAGE_BINDING := "binding"

  datatype Binding = Honest | Unapproved | Stale | Modified

  datatype Expectation = ExpectApplied | ExpectRefused | ExpectOutOfBand | ExpectUnknown

  /** The flags of a run that some branch of the model reads. */
  datatype Scenario = Scenario(
    id: string, allowlist: string, expectation: Expectation, artifact: string, gated: bool, binding: Binding,
    scan: bool, manifest: string, denylist: bool, advisory: bool, outOfBand: bool, driftMutation: bool,
    vulnerable: bool, skipApply: bool, skipRemote: bool)

  /** Only a scenario flagged vulnerable asks anything of the surface and the acknowledgement. */
  predicate Available(s: Scenario, surface: string, acknowledgement: string) {
    s.vulnerable ==> surface == "vulnerable" && acknowledgement == "true"
  }

  function AllowlistOf(s: Scenario): string {
    if s.allowlist == "" then "default.json" else s.allowlist
  }

  /** What a foreign operation on the platform leaves behind, and whether it succeeded. */
  datatype Outcome = Outcome(platform: string, ok: bool)

  datatype DenylistReport = DenylistReport(findings: nat, rules: nat)

  /** The tools, as oracles: each may fail, and each may answer anything. */
  datatype Tools = Tools(
    readsState: bool,
    prepares: bool,
    initializes: bool,
    validates: bool,
    plans: Option<string>,
    resolves: string -> Option<string>,
    readsArtifact: Option<string>,
    scans: Option<nat>,
    denies: Option<DenylistReport>,
    evaluates: string -> Engine.Decision,
    writesApproval: bool,
    meddles: PlanFile -> PlanFile,
    applies: (string, PlanFile) -> Outcome,
    readsStateAfter: bool,
    mutates: string -> Outcome,
    readsStateAfterDrift: bool,
    detectsDrift: Option<bool>,
    renders: Option<string>,
    scansManifests: Option<nat>,
    appliesManifests: string -> Outcome)

  datatype AuditEvent = AuditEvent(scenario: string, class_: string, rule: string, stage: string)

  datatype Enforcement = Enforcement(applied: bool, operatorResult: string, refusedAtStage: string,
                                     advisory: bool, outOfBand: bool)

  datatype Effect = Applied(plan: PlanFile) | AppliedManifests | MutatedDirectly

  /** The class an audit event carries for a denial; a denial may list no violation. */
  function ClassOf(d: Engine.Decision): string {
    if |d.violations| == 0 then d.class_ else d.violations[0].class_
  }

  // ---- The control path as a function -------------------------------------------------

  /** Where a run stops before its last stage: on a tool error, or at the end, refused or
      not. The plan file is what the last stage finds. */
  datatype Reached =
    | Stopped
    | Finishing(refusal: Option<AuditEvent>, plan: PlanFile)

  /** The text handed to the gate; None when a tool on the way to it failed. */
  function Evaluated(s: Scenario, t: Tools): Option<string> {
    if s.artifact != "" then t.readsArtifact
    else if !t.initializes || !t.validates || t.plans.None? then None
    else t.resolves(t.plans.value)
  }

  function PlanFileOf(s: Scenario, t: Tools): PlanFile {
    if s.artifact == "" && t.plans.Some? then PlanBytes(t.plans.value) else NoPlan
  }

  function PlanDigestOf(s: Scenario, t: Tools): string {
    if s.artifact == "" && t.plans.Some? then Digest(t.plans.value) else ""
  }

  function Approved(s: Scenario, t: Tools, resolved: string): Approval {
    Issue(s.id, PlanDigestOf(s, t), Digest(resolved), AllowlistOf(s))
  }

  /** The files after the rehearsed binding; None when writing failed. */
  function Rehearsed(s: Scenario, t: Tools, a: Approval, plan: PlanFile): Option<(ApprovalFile, PlanFile)> {
    match s.binding
    case Unapproved => Some((NoFile, plan))
    case Stale =>
      if t.writesApproval then Some((Holds(a.(runId := RunId("some-other-run", a.planArtifactDigest))), plan)) else None
    case Modified =>
      if !t.writesApproval || plan.NoPlan? then None
      else Some((Holds(a), PlanBytes(plan.bytes + [0 as char])))
    case Honest => if t.writesApproval then Some((Holds(a), plan)) else None
  }

  function Event(s: Scenario, class_: string, rule: string, stage: string): AuditEvent {
    AuditEvent(s.id, class_, rule, stage)
  }

  /** The plan surface up to its last stage. */
  function PlanSurface(s: Scenario, t: Tools): Reached {
    if !t.prepares || Evaluated(s, t).None? then Stopped
    else
      var resolved, plan := Evaluated(s, t).value, PlanFileOf(s, t);
      if s.scan then (if t.scans.None? then Stopped else Finishing(None, plan))
      else if s.denylist then (if t.denies.None? then Stopped else Finishing(None, plan))
      else if !s.gated then Finishing(None, plan)
      else
        var d := t.evaluates(resolved);
        if Engine.Denied(d) && !s.advisory then
          Finishing(Some(Event(s, ClassOf(d), "deny-by-default", STAGE_POLICY)), plan)
        else
          match Rehearsed(s, t, Approved(s, t, resolved), plan)
          case None => Stopped
          case Some((file, plan')) =>
            var found := t.meddles(plan');
            var class_ := VerifyApproval(file, found, s.id);
            Finishing(if class_ == "" then None else Some(Event(s, class_, "gate-to-apply-binding", STAGE_BINDING)),
                      found)
  }

  /** What the transcript notes about the decision and the other controls. */
  datatype Notes = Notes(decision: Option<Engine.Decision>, wouldHaveDecided: Option<Engine.Decision>,
                         scan: Option<nat>, denylist: Option<DenylistReport>, drift: Option<bool>, appliedState: string)

  const NO_NOTES := Notes(None, None, None, None, None, "")

  function PlanNotes(s: Scenario, t: Tools): Notes {
    if !t.prepares || Evaluated(s, t).None? then NO_NOTES
    else
      var d := Some(t.evaluates(Evaluated(s, t).value));
      if s.scan then (if t.scans.None? then NO_NOTES else NO_NOTES.(scan := t.scans, wouldHaveDecided := d))
      else if s.denylist then 
        (if t.denies.None? then NO_NOTES else NO_NOTES.(denylist := t.denies, wouldHaveDecided := d))
      else if !s.gated then NO_NOTES.(wouldHaveDecided := d)
      else NO_NOTES.(decision := d)
  }

  /** Whether a denial was noted and not obeyed. */
  predicate Ignored(s: Scenario, t: Tools) {
    s.advisory && PlanNotes(s, t).decision.Some? && Engine.Denied(PlanNotes(s, t).decision.value)
  }

  /** The record a run leaves: what was enforced, what was audited, what was done. */
  datatype Record = Record(enforcement: Enforcement, audit: seq<AuditEvent>, effects: seq<Effect>,
                           platform: string, stateBefore: string, stateAfter: string, notes: Notes, complete: bool)

  function StartRecord(platform: string): Record {
    Record(Enforcement(false, REFUSED, "", false, false), [], [], platform, "", "", NO_NOTES, false)
  }

  function WithRefusal(r: Record, refusal: Option<AuditEvent>): Record {
    if refusal.None? then r
    else r.(audit := r.audit + [refusal.value],
            enforcement := r.enforcement.(applied := false, operatorResult := REFUSED,
              refusedAtStage := refusal.value.stage))
  }

  /** Whether the last stage applies the plan. */
  predicate Applies(s: Scenario, refused: bool) {
    if refused then s.outOfBand else !s.skipApply
  }

  /** The last stage: apply, read the state back, and make the drift scenario's one direct
      change. */
  function FinishRecord(s: Scenario, t: Tools, r: Record, plan: PlanFile): Record {
    var refused := |r.audit| > 0;
    if !refused && s.artifact != "" then r
    else
      var o := if Applies(s, refused) then t.applies(r.platform, plan) else Outcome(r.platform, true);
      var effects := if Applies(s, refused) then r.effects + [Applied(plan)] else r.effects;
      var e := r.enforcement.(
        applied := r.enforcement.applied || Applies(s, refused),
        operatorResult := if refused then r.enforcement.operatorResult else DEPLOYED,
        outOfBand := r.enforcement.outOfBand || (refused && s.outOfBand));
      if !o.ok then r.(effects := effects, platform := o.platform)
      else DriftRecord(s, t, r.(effects := effects, platform := o.platform, enforcement := e))
  }

  function DriftRecord(s: Scenario, t: Tools, r: Record): Record {
    if !s.skipRemote && !t.readsStateAfter then r
    else
      var now := Digest(r.platform);
      var r1 := if s.skipRemote then r
                else r.(stateAfter := now,
                  notes := if r.enforcement.applied then r.notes.(appliedState := now) else r.notes);
      if !(s.driftMutation && r1.enforcement.applied) then r1.(complete := true)
      else
        var o := t.mutates(r1.platform);
        var r2 := r1.(effects := r1.effects + [MutatedDirectly], platform := o.platform);
        if !o.ok || !t.readsStateAfterDrift then r2
        else if t.detectsDrift.None? then r2.(stateAfter := Digest(r2.platform))
        else r2.(stateAfter := Digest(r2.platform), notes := r2.notes.(drift := t.detectsDrift), complete := true)
  }

  /** The record of a run on manifests, up to its decision. Nothing is approved or verified
      here: the decision is obeyed directly. */
  function ManifestRecord(s: Scenario, t: Tools, r: Record): Record {
    if !t.prepares || t.renders.None? || (s.scan && t.scansManifests.None?) then r
    else
      var d := t.evaluates(t.renders.value);
      var noted := r.(notes := r.notes.(scan := if s.scan then t.scansManifests else r.notes.scan,
                                        decision := if s.gated then Some(d) else r.notes.decision,
                                        wouldHaveDecided := if s.gated then r.notes.wouldHaveDecided else Some(d)));
      ManifestObeyed(s, t, noted, d)
  }

  function ManifestObeyed(s: Scenario, t: Tools, r: Record, d: Engine.Decision): Record {
    if s.gated && Engine.Denied(d) then
      ManifestReadBack(t, WithRefusal(r, Some(Event(s, ClassOf(d), "deny-by-default", STAGE_POLICY))))
    else
      var o := t.appliesManifests(r.platform);
      var r1 := r.(effects := r.effects + [AppliedManifests], platform := o.platform);
      if !o.ok then r1
      else ManifestReadBack(t, r1.(enforcement := r1.enforcement.(applied := true, operatorResult := DEPLOYED)))
  }

  function ManifestReadBack(t: Tools, r: Record): Record {
    var now := Digest(r.platform);
    if !t.readsStateAfter then r
    else r.(stateAfter := now, notes := if r.enforcement.applied then r.notes.(appliedState := now) else r.notes,
      complete := true)
  }

  /** The whole run. */
  function RunRecord(s: Scenario, t: Tools, platform: string): Record {
    var r0 := StartRecord(platform);
    if !s.skipRemote && !t.readsState then r0
    else
      var r := if s.skipRemote then r0 else r0.(stateBefore := Digest(platform), stateAfter := Digest(platform));
      if s.manifest != "" then ManifestRecord(s, t, r)
      else PlanRecord(s, t, r)
  }

  /** The plan surface's part of the run's record. */
  function PlanRecord(s: Scenario, t: Tools, r: Record): Record {
    var noted := r.(notes := PlanNotes(s, t), enforcement := r.enforcement.(advisory := Ignored(s, t)));
    match PlanSurface(s, t)
    case Stopped => noted
    case Finishing(refusal, plan) => FinishRecord(s, t, WithRefusal(noted, refusal), plan)
  }

  /** What each expectation asks of a record. */
  predicate Meets(s: Scenario, r: Record) {
    match s.expectation
    case ExpectOutOfBand =>
      r.enforcement.outOfBand && r.enforcement.applied && r.enforcement.operatorResult == REFUSED && |r.audit| == 1
      && r.notes.decision.Some? && Engine.Denied(r.notes.decision.value)
    case ExpectApplied =>
      r.enforcement.operatorResult == DEPLOYED &&
      (if s.driftMutation then
         r.notes.decision.Some? && !Engine.Denied(r.notes.decision.value) && r.notes.drift == Some(true)
         && r.notes.appliedState != r.stateAfter
       else if s.scan then
         r.notes.scan == Some(0) && r.notes.wouldHaveDecided.Some? && Engine.Denied(r.notes.wouldHaveDecided.value)
       else if s.manifest != "" then r.notes.decision.Some? && !Engine.Denied(r.notes.decision.value)
       else if s.denylist then
         r.notes.denylist.Some? && r.notes.denylist.value.findings == 0 && r.notes.denylist.value.rules > 0
         && r.notes.wouldHaveDecided.Some? && Engine.Denied(r.notes.wouldHaveDecided.value)
       else if s.advisory then
         r.enforcement.advisory && r.notes.decision.Some? && Engine.Denied(r.notes.decision.value)
         && |r.notes.decision.value.violations| >= 2
       else true)
    case ExpectRefused =>
      r.enforcement.operatorResult == REFUSED && !r.enforcement.applied && |r.audit| == 1
      && (s.skipRemote || r.stateBefore == r.stateAfter)
    case ExpectUnknown => false
  }

  // ---- The objects --------------------------------------------------------------------

  /** The working files, the platform, and what has been done to it. */
  class Environment {
    var plan: PlanFile
    var approval: ApprovalFile
    var platform: string
    ghost var effects: seq<Effect>

    constructor (platform: string)
      ensures plan == NoPlan && approval == NoFile && this.platform == platform && effects == []
    {
      plan, approval := NoPlan, NoFile;
      this.platform := platform;
      effects := [];
    }

    /** The toolchain's apply, on whatever the plan file holds. */
    method Apply(t: Tools) returns (ok: bool)
      modifies this`platform, this`effects
      ensures Outcome(platform, ok) == t.applies(old(platform), plan)
      ensures effects == old(effects) + [Applied(plan)]
    {
      var o := t.applies(platform, plan);
      platform := o.platform;
      effects := effects + [Applied(plan)];
      ok := o.ok;
    }

    method MutateDirectly(t: Tools) returns (ok: bool)
      modifies this`platform, this`effects
      ensures Outcome(platform, ok) == t.mutates(old(platform))
      ensures effects == old(effects) + [MutatedDirectly]
    {
      var o := t.mutates(platform);
      platform := o.platform;
      effects := effects + [MutatedDirectly];
      ok := o.ok;
    }

    method ApplyManifests(t: Tools) returns (ok: bool)
      modifies this`platform, this`effects
      ensures Outcome(platform, ok) == t.appliesManifests(old(platform))
      ensures effects == old(effects) + [AppliedManifests]
    {
      var o := t.appliesManifests(platform);
      platform := o.platform;
      effects := effects + [AppliedManifests];
      ok := o.ok;
    }
  }

  class Transcript {
    const scenario: Scenario
    var enforcement: Enforcement
    var audit: seq<AuditEvent>
    var decision: Option<Engine.Decision>
    var wouldHaveDecided: Option<Engine.Decision>
    var scan: Option<nat>
    var denylist: Option<DenylistReport>
    var drift: Option<bool>
    var planArtifact: string
    var appliedState: string
    var stateBefore: string
    var stateAfter: string
    var passed: bool
    /** Set when the run reached its end without a tool error. */
    ghost var complete: bool

    constructor (s: Scenario)
      ensures scenario == s
      ensures enforcement == Enforcement(false, REFUSED, "", false, false) && audit == []
      ensures decision == None && wouldHaveDecided == None && scan == None && denylist == None && drift == None
      ensures planArtifact == "" && appliedState == "" && stateBefore == "" && stateAfter == "" && !passed && !complete
    {
      scenario := s;
      enforcement := Enforcement(false, REFUSED, "", false, false);
      audit, decision, wouldHaveDecided, scan, denylist, drift := [], None, None, None, None, None;
      planArtifact, appliedState, stateBefore, stateAfter, passed := "", "", "", "", false;
      complete := false;
    }

    ghost function Noted(): Notes
      reads this
    {
      Notes(decision, wouldHaveDecided, scan, denylist, drift, appliedState)
    }

    /** What the record says so far. */
    ghost function Shows(env: Environment): Record
      reads this, env
    {
      Record(enforcement, audit, env.effects, env.platform, stateBefore, stateAfter, Noted(), complete)
    }

    /** Grows the audit by one event and leaves the other flags of the enforcement alone. */
    method Refuse(stage: string, class_: string, rule: string)
      modifies this`enforcement, this`audit
      ensures audit == old(audit) + [Event(scenario, class_, rule, stage)]
      ensures enforcement == old(enforcement).(applied := false, operatorResult := REFUSED, refusedAtStage := stage)
    {
      enforcement := enforcement.(applied := false, operatorResult := REFUSED, refusedAtStage := stage);
      audit := audit + [Event(scenario, class_, rule, stage)];
    }

    /** Leaves in the environment's files what Rehearsed says; false on a failed write. */
    method RehearseBinding(t: Tools, a: Approval, env: Environment) returns (ok: bool)
      requires env.approval == NoFile
      modifies env`plan, env`approval
      ensures ok <==> Rehearsed(scenario, t, a, old(env.plan)).Some?
      ensures ok ==> Rehearsed(scenario, t, a, old(env.plan)) == Some((env.approval, env.plan))
      ensures !ok ==> env.plan == old(env.plan)
    {
      match scenario.binding {
        case Unapproved =>
          return true;
        case Stale =>
          if !t.writesApproval { return false; }
          env.approval := Holds(a.(runId := RunId("some-other-run", a.planArtifactDigest)));
          return true;
        case Modified =>
          if !t.writesApproval { return false; }
          env.approval := Holds(a);
          // The approval in the environment now names a digest the plan no longer has.
          if env.plan.NoPlan? { return false; }
          env.plan := PlanBytes(env.plan.bytes + [0 as char]);
          return true;
        case Honest =>
          if !t.writesApproval { return false; }
          env.approval := Holds(a);
          return true;
      }
    }

    /** Decides Meets by early returns over the transcript's fields. */
    method Assert(env: Environment) returns (ok: bool)
      ensures ok <==> Meets(scenario, Shows(env))
    {
      var s, e := scenario, enforcement;
      match s.expectation {
        case ExpectOutOfBand =>
          return e.outOfBand && e.applied && e.operatorResult == REFUSED && |audit| == 1
              && decision.Some? && Engine.Denied(decision.value);
        case ExpectApplied =>
          if e.operatorResult != DEPLOYED { return false; }
          if s.driftMutation {
            return decision.Some? && !Engine.Denied(decision.value) && drift == Some(true)
              && appliedState != stateAfter;
          }
          if s.scan {
            return scan == Some(0) && wouldHaveDecided.Some? && Engine.Denied(wouldHaveDecided.value);
          }
          if s.manifest != "" {
            return decision.Some? && !Engine.Denied(decision.value);
          }
          if s.denylist {
            return denylist.Some? && denylist.value.findings == 0 && denylist.value.rules > 0
                && wouldHaveDecided.Some? && Engine.Denied(wouldHaveDecided.value);
          }
          if s.advisory {
            return e.advisory && decision.Some? && Engine.Denied(decision.value) && |decision.value.violations| >= 2;
          }
          return true;
        case ExpectRefused =>
          if e.operatorResult != REFUSED || e.applied { return false; }
          if |audit| != 1 { return false; }
          return s.skipRemote || stateBefore == stateAfter;
        case ExpectUnknown =>
          return false;
      }
    }

    /** The imperative form of FinishRecord; passed is set only when it was complete. */
    method Finish(t: Tools, env: Environment) returns (ok: bool)
      requires !enforcement.applied && !complete && !passed
      modifies this, env`platform, env`effects
      ensures Shows(env) == FinishRecord(scenario, t, old(Shows(env)), env.plan)
      ensures ok == passed && (passed <==> complete && Meets(scenario, Shows(env)))
    {
      hide Digest, DriftRecord, Meets;
      var s := scenario;
      var refused := |audit| > 0;
      if !refused && s.artifact != "" {
        return false;
      }
      if !refused && !s.skipApply {
        var good := env.Apply(t);
        if !good {
          return false;
        }
        enforcement := enforcement.(applied := true);
        enforcement := enforcement.(operatorResult := DEPLOYED);
      }
      // The operator's result is left as Refuse set it.
      if refused && s.outOfBand {
        var good := env.Apply(t);
        if !good {
          return false;
        }
        enforcement := enforcement.(applied := true);
        enforcement := enforcement.(outOfBand := true);
      }
      if !refused && s.skipApply {
        enforcement := enforcement.(operatorResult := DEPLOYED);
      }
      ok := ReadBack(t, env);
    }

    /** Reads the state back and makes the drift scenario's one direct change. */
    method ReadBack(t: Tools, env: Environment) returns (ok: bool)
      requires !complete && !passed
      modifies this, env`platform, env`effects
      ensures Shows(env) == DriftRecord(scenario, t, old(Shows(env)))
      ensures ok == passed && (passed <==> complete && Meets(scenario, Shows(env)))
    {
      hide Digest;
      var s := scenario;
      if !s.skipRemote {
        if !t.readsStateAfter {
          return false;
        }
        stateAfter := Digest(env.platform);
        if enforcement.applied {
          appliedState := stateAfter;
        }
      }
      if s.driftMutation && enforcement.applied {
        var good := env.MutateDirectly(t);
        if !good || !t.readsStateAfterDrift {
          return false;
        }
        stateAfter := Digest(env.platform);
        if t.detectsDrift.None? {
          return false;
        }
        drift := t.detectsDrift;
      }
      complete := true;
      ok := Assert(env);
      passed := ok;
    }

    /** The imperative form of ManifestRecord. */
    method RunManifest(t: Tools, env: Environment) returns (ok: bool)
      requires !enforcement.applied && !complete && !passed
      modifies this, env`platform, env`effects
      ensures Shows(env) == ManifestRecord(scenario, t, old(Shows(env)))
      ensures ok == passed && (passed <==> complete && Meets(scenario, Shows(env)))
    {
      hide Digest, Meets, ManifestObeyed;
      var s := scenario;
      if !t.prepares || t.renders.None? {
        return false;
      }
      if s.scan {
        if t.scansManifests.None? {
          return false;
        }
        scan := t.scansManifests;
      }
      var d := t.evaluates(t.renders.value);
      if s.gated {
        decision := Some(d);
      } else {
        wouldHaveDecided := Some(d);
      }
      ok := ObeyManifest(t, env, d);
    }

    /** Refuses, or applies, what the manifest decision says. */
    method ObeyManifest(t: Tools, env: Environment, d: Engine.Decision) returns (ok: bool)
      requires !enforcement.applied && !complete && !passed
      modifies this, env`platform, env`effects
      ensures Shows(env) == ManifestObeyed(scenario, t, old(Shows(env)), d)
      ensures ok == passed && (passed <==> complete && Meets(scenario, Shows(env)))
    {
      hide Digest, Meets, ManifestReadBack;
      var s := scenario;
      if s.gated && Engine.Denied(d) {
        Refuse(STAGE_POLICY, ClassOf(d), "deny-by-default");
      } else {
        var good := env.ApplyManifests(t);
        if !good {
          return false;
        }
        enforcement := enforcement.(applied := true);
        enforcement := enforcement.(operatorResult := DEPLOYED);
      }
      ok := ReadManifestState(t, env);
    }

    method ReadManifestState(t: Tools, env: Environment) returns (ok: bool)
      requires !complete && !passed
      modifies this
      ensures Shows(env) == ManifestReadBack(t, old(Shows(env)))
      ensures ok == passed && (passed <==> complete && Meets(scenario, Shows(env)))
    {
      hide Digest;
      if !t.readsStateAfter {
        return false;
      }
      stateAfter := Digest(env.platform);
      if enforcement.applied {
        appliedState := stateAfter;
      }
      complete := true;
      ok := Assert(env);
      passed := ok;
    }

    /** Leaves a plan in the environment, if there is to be one, and returns Evaluated. */
    method Produce(t: Tools, env: Environment) returns (evaluated: Option<string>)
      requires env.plan == NoPlan && planArtifact == ""
      modifies this`planArtifact, env`plan
      ensures evaluated == Evaluated(scenario, t)
      ensures evaluated.Some? ==> env.plan == PlanFileOf(scenario, t) && planArtifact == PlanDigestOf(scenario, t)
    {
      if scenario.artifact == "" {
        if !t.initializes || !t.validates || t.plans.None? {
          return None;
        }
        env.plan := PlanBytes(t.plans.value);
        planArtifact := Digest(env.plan.bytes);
        return t.resolves(env.plan.bytes);
      }
      return t.readsArtifact;
    }
  }

  /** The imperative form of RunRecord; a null transcript when the scenario is not available. */
  method Run(s: Scenario, t: Tools, env: Environment, surface: string, acknowledgement: string)
    returns (tr: Transcript?, ok: bool)
    requires env.plan == NoPlan && env.approval == NoFile && env.effects == []
    modifies env
    ensures tr == null <==> s.vulnerable && !(surface == "vulnerable" && acknowledgement == "true")
    ensures tr == null ==> !ok && env.effects == [] && env.platform == old(env.platform)
    ensures tr != null ==> fresh(tr) && tr.scenario == s && tr.Shows(env) == RunRecord(s, t, old(env.platform))
    ensures tr != null ==> ok == tr.passed
    ensures tr != null ==> (tr.passed <==> tr.complete && Meets(s, RunRecord(s, t, old(env.platform))))
  {
    if !Available(s, surface, acknowledgement) {
      return null, false;
    }
    ok := false;
    var x := new Transcript(s);
    tr := x;
    if !s.skipRemote {
      if !t.readsState {
        return;
      }
      x.stateBefore := Digest(env.platform);
      x.stateAfter := x.stateBefore;
    }
    if s.manifest != "" {
      ok := x.RunManifest(t, env);
      return;
    }
    ok := RunPlan(x, t, env);
  }

  /** The plan surface of a run whose transcript has just been opened. */
  method RunPlan(x: Transcript, t: Tools, env: Environment) returns (ok: bool)
    requires env.plan == NoPlan && env.approval == NoFile
    requires x.enforcement == Enforcement(false, REFUSED, "", false, false) && x.audit == [] && x.planArtifact == ""
    requires !x.complete && !x.passed && x.Noted() == NO_NOTES
    modifies x, env
    ensures x.Shows(env) == PlanRecord(x.scenario, t, old(x.Shows(env)))
    ensures ok == x.passed && (x.passed <==> x.complete && Meets(x.scenario, x.Shows(env)))
  {
    hide Digest, VerifyApproval, FinishRecord, Rehearsed, Evaluated, Meets, ClassOf, PlanFileOf, PlanDigestOf,
      Approved, Event, RunId, Engine.Denied;
    var s := x.scenario;
    ok := false;
    if !t.prepares {
      return;
    }
    var evaluated := x.Produce(t, env);
    if evaluated.None? {
      return;
    }
    if s.scan {
      if t.scans.None? {
        return;
      }
      x.scan := t.scans;
      x.wouldHaveDecided := Some(t.evaluates(evaluated.value));
      ok := x.Finish(t, env);
      return;
    }
    if s.denylist {
      if t.denies.None? {
        return;
      }
      x.denylist := t.denies;
      x.wouldHaveDecided := Some(t.evaluates(evaluated.value));
      ok := x.Finish(t, env);
      return;
    }
    if !s.gated {
      x.wouldHaveDecided := Some(t.evaluates(evaluated.value));
      ok := x.Finish(t, env);
      return;
    }
    ok := RunGated(x, t, env, evaluated.value);
  }

  /** The gate itself: decide, approve by digest, verify, finish. */
  method RunGated(x: Transcript, t: Tools, env: Environment, resolved: string) returns (ok: bool)
    requires t.prepares && Evaluated(x.scenario, t) == Some(resolved)
    requires x.scenario.gated && !x.scenario.scan && !x.scenario.denylist
    requires env.plan == PlanFileOf(x.scenario, t) && env.approval == NoFile
      && x.planArtifact == PlanDigestOf(x.scenario, t)
    requires x.enforcement == Enforcement(false, REFUSED, "", false, false) && x.audit == []
    requires !x.complete && !x.passed && x.Noted() == NO_NOTES
    modifies x, env
    ensures x.Shows(env) == PlanRecord(x.scenario, t, old(x.Shows(env)))
    ensures ok == x.passed && (x.passed <==> x.complete && Meets(x.scenario, x.Shows(env)))
  {
    hide Digest, VerifyApproval, FinishRecord, Rehearsed, Evaluated, RunId, Meets, ClassOf, PlanFileOf,
      PlanDigestOf, Engine.Denied;
    var s := x.scenario;
    ok := false;
    var d := t.evaluates(resolved);
    x.decision := Some(d);
    if Engine.Denied(d) && s.advisory {
      x.enforcement := x.enforcement.(advisory := true);
    } else if Engine.Denied(d) {
      x.Refuse(STAGE_POLICY, ClassOf(d), "deny-by-default");
      ok := x.Finish(t, env);
      return;
    }
    var approval := Approval(RunId(s.id, x.planArtifact), s.id, x.planArtifact, Digest(resolved), AllowlistOf(s));
    assert approval == Approved(s, t, resolved);
    var wrote := x.RehearseBinding(t, approval, env);
    if !wrote {
      return;
    }
    // Anything may touch the plan file between approval and verification.
    env.plan := t.meddles(env.plan);
    var class_ := VerifyApproval(env.approval, env.plan, s.id);
    if class_ != "" {
      x.Refuse(STAGE_BINDING, class_, "gate-to-apply-binding");
    }
    ok := x.Finish(t, env);
  }

  // ---- What every run keeps -----------------------------------------------------------

  /** The record's own consistency, for every scenario and every behaviour of the tools:
      one refusal at most, told exactly once, never beside a deployment, and effectless
      unless a second path applied. */
  ghost predicate Consistent(s: Scenario, r: Record, platform: string) {
    && |r.audit| <= 1
    && (r.enforcement.refusedAtStage != "" <==> |r.audit| == 1)
    && (|r.audit| == 1 ==> r.audit[0].stage == r.enforcement.refusedAtStage && r.audit[0].scenario == s.id)
    && (r.enforcement.operatorResult == DEPLOYED || r.enforcement.operatorResult == REFUSED)
    && (r.enforcement.operatorResult == DEPLOYED ==> r.audit == [])
    && (r.enforcement.applied && r.audit != [] ==> r.enforcement.outOfBand)
    && (r.enforcement.outOfBand ==> s.outOfBand && r.audit != [] && r.enforcement.applied)
    && (r.audit != [] && !s.outOfBand ==> r.effects == [] && r.platform == platform)
    && (r.audit != [] && !s.outOfBand && !s.skipRemote ==> r.stateAfter == r.stateBefore)
    && (r.effects == [] ==> r.platform == platform && !r.enforcement.applied)
  }

  lemma EveryRunIsConsistent(s: Scenario, t: Tools, platform: string)
    ensures Consistent(s, RunRecord(s, t, platform), platform)
  {
    hide Digest, PlanSurface, FinishRecord, ManifestRecord, Consistent, Evaluated, PlanNotes, Ignored;
    var r0 := StartRecord(platform);
    var r := if s.skipRemote then r0 else r0.(stateBefore := Digest(platform), stateAfter := Digest(platform));
    var noted := r.(notes := PlanNotes(s, t), enforcement := r.enforcement.(advisory := Ignored(s, t)));
    OpenedIsConsistent(s, noted, platform);
    OpenedIsConsistent(s, r0, platform);
    PlanSurfaceRefusals(s, t);
    ManifestConsistent(s, t, r, platform);
    var reached := PlanSurface(s, t);
    if reached.Finishing? {
      FinishConsistent(s, t, noted, reached.refusal, reached.plan, platform);
    }
  }

  /** A record nothing has been written to yet, apart from the state read before and the
      note of an ignored denial. */
  ghost predicate Opened(s: Scenario, r: Record, platform: string) {
    && r.audit == [] && r.effects == [] && r.platform == platform
    && r.enforcement == Enforcement(false, REFUSED, "", r.enforcement.advisory, false)
    && r.stateAfter == r.stateBefore && (!s.skipRemote ==> r.stateBefore == Digest(platform) || r.stateBefore == "")
  }

  lemma OpenedIsConsistent(s: Scenario, r: Record, platform: string)
    requires Opened(s, r, platform)
    ensures Consistent(s, r, platform)
  {
    hide Digest;
  }

  /** Reading back keeps a record consistent. */
  lemma DriftRecordConsistent(s: Scenario, t: Tools, r: Record, platform: string)
    requires Consistent(s, r, platform) && (!s.skipRemote ==> r.stateBefore == Digest(platform))
    ensures Consistent(s, DriftRecord(s, t, r), platform)
  {
    hide Digest;
  }

  lemma FinishConsistent(s: Scenario, t: Tools, r: Record, refusal: Option<AuditEvent>, plan: PlanFile,
      platform: string)
    requires Opened(s, r, platform) && (!s.skipRemote ==> r.stateBefore == Digest(platform))
    requires refusal.Some? ==> refusal.value.scenario == s.id && refusal.value.stage != ""
    ensures Consistent(s, FinishRecord(s, t, WithRefusal(r, refusal), plan), platform)
  {
    hide Digest, DriftRecord;
    var q, refused := WithRefusal(r, refusal), refusal.Some?;
    if refused || s.artifact == "" {
      var o := if Applies(s, refused) then t.applies(q.platform, plan) else Outcome(q.platform, true);
      var e := q.enforcement.(
        applied := q.enforcement.applied || Applies(s, refused),
        operatorResult := if refused then q.enforcement.operatorResult else DEPLOYED,
        outOfBand := q.enforcement.outOfBand || (refused && s.outOfBand));
      var effects := if Applies(s, refused) then q.effects + [Applied(plan)] else q.effects;
      if o.ok {
        DriftRecordConsistent(s, t, q.(effects := effects, platform := o.platform, enforcement := e), platform);
      }
    }
  }

  lemma ManifestConsistent(s: Scenario, t: Tools, r: Record, platform: string)
    requires Opened(s, r, platform) && (!s.skipRemote ==> r.stateBefore == Digest(platform))
    ensures Consistent(s, ManifestRecord(s, t, r), platform)
  {
    hide Digest;
  }

  lemma PlanSurfaceRefusals(s: Scenario, t: Tools)
    ensures PlanSurface(s, t).Finishing? && PlanSurface(s, t).refusal.Some? ==>
      var e := PlanSurface(s, t).refusal.value;
      e.scenario == s.id && (e.stage == STAGE_POLICY || e.stage == STAGE_BINDING)
  {
    hide Digest, VerifyApproval, Rehearsed, Evaluated;
  }

  /** The two recorded states of a refused run without a second path are the same, unless the
      run was on manifests, skipped the remote and yet read a state afterwards: then there is
      no state before to compare it with. */
  lemma StatesMatchIff(s: Scenario, t: Tools, platform: string)
    requires RunRecord(s, t, platform).audit != [] && !SecondPath(s)
    ensures RunRecord(s, t, platform).stateAfter == RunRecord(s, t, platform).stateBefore <==>
      !s.skipRemote || s.manifest == "" || !t.readsStateAfter
  {
    hide Digest, PlanSurface, Evaluated, PlanNotes, Ignored, FinishRecord, ManifestRecord;
    var r0 := StartRecord(platform);
    var r := if s.skipRemote then r0 else r0.(stateBefore := Digest(platform), stateAfter := Digest(platform));
    DigestIsOneLine(platform);
    if s.manifest != "" {
      RefusedManifestStates(s, t, r);
    } else if PlanSurface(s, t).Finishing? {
      var reached := PlanSurface(s, t);
      var noted := r.(notes := PlanNotes(s, t), enforcement := r.enforcement.(advisory := Ignored(s, t)));
      RefusedPlanStates(s, t, WithRefusal(noted, reached.refusal), reached.plan);
    }
  }

  lemma RefusedManifestStates(s: Scenario, t: Tools, r: Record)
    requires r.audit == [] && r.stateAfter == r.stateBefore == (if s.skipRemote then "" else Digest(r.platform))
    requires ManifestRecord(s, t, r).audit != []
    ensures ManifestRecord(s, t, r).stateBefore == r.stateBefore
    ensures ManifestRecord(s, t, r).stateAfter == if t.readsStateAfter then Digest(r.platform) else r.stateAfter
  {
    hide Digest;
  }

  lemma RefusedPlanStates(s: Scenario, t: Tools, r: Record, plan: PlanFile)
    requires !s.outOfBand && !r.enforcement.applied
    requires r.stateAfter == r.stateBefore == (if s.skipRemote then "" else Digest(r.platform))
    ensures FinishRecord(s, t, r, plan).audit == r.audit
    ensures r.audit != [] ==>
      var f := FinishRecord(s, t, r, plan);
      f.stateAfter == f.stateBefore == r.stateBefore
  {
    hide Digest;
  }

  /** A gated scenario on manifests that is told to skip the remote. */
  function OfflineManifests(): Scenario {
    Scenario("offline-manifests", "", ExpectRefused, "", true, Honest, false, "exposed",
             false, false, false, false, false, false, true)
  }

  /** It falls into the exception whenever the decision denies and the tools work. */
  lemma ManifestStatesDiffer(s: Scenario, t: Tools, platform: string)
    requires s == OfflineManifests()
    requires t.prepares && t.renders.Some? && t.readsStateAfter && Engine.Denied(t.evaluates(t.renders.value))
    ensures RunRecord(s, t, platform).audit != [] && RunRecord(s, t, platform).complete
    ensures RunRecord(s, t, platform).stateBefore == ""
      && RunRecord(s, t, platform).stateAfter == Digest(platform) != ""
  {
    hide Digest;
    DigestIsOneLine(platform);
  }

  /** A direct change is only ever made after an apply. */
  lemma DriftFollowsApply(s: Scenario, t: Tools, platform: string)
    ensures DriftLast(s, RunRecord(s, t, platform).effects)
  {
    hide Digest, PlanSurface, VerifyApproval, Evaluated, FinishRecord, ManifestRecord, PlanNotes, Ignored;
    var r0 := StartRecord(platform);
    var r := if s.skipRemote then r0 else r0.(stateBefore := Digest(platform), stateAfter := Digest(platform));
    ManifestsNeverDrift(s, t, r);
    if PlanSurface(s, t).Finishing? {
      var f := PlanSurface(s, t);
      var noted := r.(notes := PlanNotes(s, t), enforcement := r.enforcement.(advisory := Ignored(s, t)));
      FinishDriftsLast(s, t, WithRefusal(noted, f.refusal), f.plan);
    }
  }

  predicate DriftLast(s: Scenario, effects: seq<Effect>) {
    MutatedDirectly in effects ==>
      s.driftMutation && |effects| == 2 && effects[0].Applied? && effects[1] == MutatedDirectly
  }

  lemma FinishDriftsLast(s: Scenario, t: Tools, r: Record, plan: PlanFile)
    requires r.effects == [] && !r.enforcement.applied
    ensures DriftLast(s, FinishRecord(s, t, r, plan).effects)
  {
    hide Digest, DriftRecord, DriftLast;
    NothingDrifts(s, r.effects);
    NothingDrifts(s, [Applied(plan)]);
    var refused := |r.audit| > 0;
    if refused || s.artifact == "" {
      var o := if Applies(s, refused) then t.applies(r.platform, plan) else Outcome(r.platform, true);
      var e := r.enforcement.(
        applied := r.enforcement.applied || Applies(s, refused),
        operatorResult := if refused then r.enforcement.operatorResult else DEPLOYED,
        outOfBand := r.enforcement.outOfBand || (refused && s.outOfBand));
      var effects := if Applies(s, refused) then r.effects + [Applied(plan)] else r.effects;
      assert r.effects + [Applied(plan)] == [Applied(plan)];
      DriftRecordDriftsLast(s, t, r.(effects := effects, platform := o.platform, enforcement := e));
    }
  }

  lemma NothingDrifts(s: Scenario, effects: seq<Effect>)
    requires MutatedDirectly !in effects
    ensures DriftLast(s, effects)
  {
  }

  /** Reading back mutates at most once, and only a record that has just applied. */
  lemma DriftRecordDriftsLast(s: Scenario, t: Tools, r: Record)
    requires if r.enforcement.applied then |r.effects| == 1 && r.effects[0].Applied? else r.effects == []
    ensures DriftLast(s, DriftRecord(s, t, r).effects)
  {
    hide Digest;
  }

  lemma ManifestsNeverDrift(s: Scenario, t: Tools, r: Record)
    requires r.effects == []
    ensures MutatedDirectly !in ManifestRecord(s, t, r).effects
  {
    hide Digest;
  }

  /** The flag has a meaning on the plan surface alone. */
  predicate SecondPath(s: Scenario) {
    s.outOfBand && s.manifest == ""
  }

  /** A completed run meets the declared outcome "refused" exactly when it was refused and
      no second path applied it; the checks on results and states add nothing to that. */
  lemma RefusedExactly(s: Scenario, t: Tools, platform: string)
    requires s.expectation.ExpectRefused? && RunRecord(s, t, platform).complete
    ensures Meets(s, RunRecord(s, t, platform)) <==> RunRecord(s, t, platform).audit != [] && !SecondPath(s)
  {
    hide Digest, PlanSurface, Evaluated, PlanNotes, Ignored, FinishRecord, ManifestRecord;
    EveryRunIsConsistent(s, t, platform);
    var r0 := StartRecord(platform);
    var r := if s.skipRemote then r0 else r0.(stateBefore := Digest(platform), stateAfter := Digest(platform));
    RefusedManifests(s, t, r);
    var reached := PlanSurface(s, t);
    if reached.Finishing? {
      var noted := r.(notes := PlanNotes(s, t), enforcement := r.enforcement.(advisory := Ignored(s, t)));
      SecondPathApplies(s, t, WithRefusal(noted, reached.refusal), reached.plan);
    }
  }

  lemma RefusedManifests(s: Scenario, t: Tools, r: Record)
    requires !r.complete && r.audit == [] && !r.enforcement.applied
    requires !s.skipRemote ==> r.stateBefore == Digest(r.platform)
    ensures ManifestRecord(s, t, r).complete && ManifestRecord(s, t, r).audit != [] ==>
      && !ManifestRecord(s, t, r).enforcement.applied
      && (s.skipRemote || ManifestRecord(s, t, r).stateAfter == ManifestRecord(s, t, r).stateBefore)
  {
    hide Digest;
  }

  lemma SecondPathApplies(s: Scenario, t: Tools, r: Record, plan: PlanFile)
    requires !r.complete
    ensures FinishRecord(s, t, r, plan).complete && r.audit != [] && s.outOfBand ==>
      FinishRecord(s, t, r, plan).enforcement.applied
    ensures FinishRecord(s, t, r, plan).audit == r.audit
  {
    hide Digest;
  }

  /** A run under the deployment gate, obeyed, with one path to apply. */
  predicate UnderTheGate(s: Scenario) {
    s.manifest == "" && s.gated && !s.advisory && !s.outOfBand && !s.scan && !s.denylist
  }

  /** What is applied is what was admitted: under the gate, whatever the tools do and
      whatever happens to the plan file after approval, an apply consumes bytes whose
      resolved form the policy admitted. */
  lemma AppliedIsAdmitted(s: Scenario, t: Tools, platform: string)
    requires UnderTheGate(s)
    ensures forall e :: e in RunRecord(s, t, platform).effects && e.Applied? ==>
      e.plan.PlanBytes? && t.resolves(e.plan.bytes).Some? && !Engine.Denied(t.evaluates(t.resolves(e.plan.bytes).value))
  {
    hide Digest, VerifyApproval, Evaluated;
    EffectsOfPlanSurface(s, t, platform);
    var reached := PlanSurface(s, t);
    if reached.Finishing? && reached.refusal.None? && s.artifact == "" { AdmittedPlanReachesApply(s, t); }
  }

  lemma EffectsOfPlanSurface(s: Scenario, t: Tools, platform: string)
    requires UnderTheGate(s)
    ensures forall e :: e in RunRecord(s, t, platform).effects && e.Applied? ==>
      PlanSurface(s, t).Finishing? && PlanSurface(s, t).refusal.None? && s.artifact == ""
        && e.plan == PlanSurface(s, t).plan
  {
    hide Digest, PlanSurface, VerifyApproval, Evaluated;
  }

  lemma AdmittedPlanReachesApply(s: Scenario, t: Tools)
    requires UnderTheGate(s)
    requires PlanSurface(s, t).Finishing? && PlanSurface(s, t).refusal.None? && s.artifact == ""
    ensures
      var plan := PlanSurface(s, t).plan;
      plan.PlanBytes? && t.resolves(plan.bytes).Some? && !Engine.Denied(t.evaluates(t.resolves(plan.bytes).value))
  {
    hide Digest, VerifyApproval;
    var resolved := Evaluated(s, t).value;
    var files := Rehearsed(s, t, Approved(s, t, resolved), PlanFileOf(s, t)).value;
    var found := t.meddles(files.1);
    AcceptanceMeaning(files.0, found, s.id);
    DigestInjective(found.bytes, t.plans.value);
  }

  /** And exactly then: with tools that work, a run under the gate that plans is refused
      at the policy when the decision denies, at the binding when the rehearsal or a
      change to the plan file breaks it, and otherwise passes the planned bytes on to its
      last stage. */
  lemma UnderTheGateExactly(s: Scenario, t: Tools)
    requires UnderTheGate(s) && s.artifact == ""
    requires t.prepares && Evaluated(s, t).Some? && t.writesApproval
    ensures
      var d, planned := t.evaluates(Evaluated(s, t).value), PlanBytes(t.plans.value);
      var reached := PlanSurface(s, t);
      && reached.Finishing?
      && (Engine.Denied(d) <==> reached.refusal.Some? && reached.refusal.value.stage == STAGE_POLICY)
      && (reached.refusal.None? <==>
            !Engine.Denied(d)
            && (s.binding.Honest? || (s.binding.Stale? && s.id == "some-other-run") || s.binding.Modified?)
            && t.meddles(if s.binding.Modified? then PlanBytes(t.plans.value + [0 as char]) else planned) == planned)
  {
    hide Digest, VerifyApproval;
    var resolved := Evaluated(s, t).value;
    var planned := t.plans.value;
    var a := Approved(s, t, resolved);
    var files := Rehearsed(s, t, a, PlanBytes(planned)).value;
    var found := t.meddles(files.1);
    VerifyRehearsed(s, a, planned, files.0, found, Digest(resolved));
  }

  lemma VerifyRehearsed(s: Scenario, a: Approval, planned: string, file: ApprovalFile, found: PlanFile,
      resolvedDigest: string)
    requires a == Issue(s.id, Digest(planned), resolvedDigest, AllowlistOf(s))
    requires file == match s.binding
                     case Unapproved => NoFile
                     case Stale => Holds(a.(runId := RunId("some-other-run", a.planArtifactDigest)))
                     case _ => Holds(a)
    ensures VerifyApproval(file, found, s.id) == "" <==>
      found == PlanBytes(planned) && !s.binding.Unapproved? && (s.binding.Stale? ==> s.id == "some-other-run")
  {
    hide Digest, VerifyApproval;
    AcceptanceMeaning(file, found, s.id);
    if found.PlanBytes? {
      DigestInjective(planned, found.bytes);
      DigestIsOneLine(planned);
      DigestIsOneLine(found.bytes);
      RunIdInjective("some-other-run", Digest(planned), s.id, Digest(found.bytes));
      RunIdInjective(s.id, Digest(planned), s.id, Digest(found.bytes));
    }
  }
}
