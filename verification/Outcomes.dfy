/** What a run does, for each way it can go, said over the scenario and the tools alone. */
module Outcomes {
  import opened Options
  import opened Digests
  import opened Approval
  import opened Harness
  import Engine
  import Policy
  import Graph
  import Order
  import Answers

  // ---- How a run begins ---------------------------------------------------------------

  /** The tools get as far as something to decide: the resolved form of a plan that was made,
      or a stored artifact, in which case there is no plan. */
  ghost predicate Begins(s: Scenario, t: Tools, made: PlanFile, resolved: string) {
    && s.manifest == "" && (s.skipRemote || t.readsState) && t.prepares
    && if s.artifact != "" then made == NoPlan && t.readsArtifact == Some(resolved)
       else
         && t.initializes && t.validates
         && made.PlanBytes? && t.plans == Some(made.bytes) && t.resolves(made.bytes) == Some(resolved)
  }

  /** Whether the run goes under the gate: a scan and a denylist take its place. */
  predicate Gated(s: Scenario) {
    s.gated && !s.scan && !s.denylist
  }

  /** The control that takes the gate's place, if any, answers. */
  predicate ControlAnswers(s: Scenario, t: Tools) {
    (s.scan ==> t.scans.Some?) && (!s.scan && s.denylist ==> t.denies.Some?)
  }

  ghost predicate RefusedByPolicy(s: Scenario, t: Tools, resolved: string) {
    Gated(s) && !s.advisory && t.evaluates(resolved).result != "admit"
  }

  /** The run comes to the verification of its approval. */
  ghost predicate Verifies(s: Scenario, t: Tools, made: PlanFile, resolved: string) {
    && Gated(s) && (s.advisory || t.evaluates(resolved).result == "admit")
    && (s.binding.Unapproved? || (t.writesApproval && (s.binding.Modified? ==> made.PlanBytes?)))
  }

  /** The plan file when it is verified: one byte longer if the scenario modifies it, and then
      whatever anything else made of it. */
  ghost function Found(s: Scenario, t: Tools, made: PlanFile): PlanFile
    requires s.binding.Modified? && Gated(s) ==> made.PlanBytes?
  {
    if !Gated(s) then made
    else t.meddles(if s.binding.Modified? then PlanBytes(made.bytes + "\0") else made)
  }

  /** The binding holds: an approval is there, of this run, and the file is the plan made. */
  ghost predicate Holding(s: Scenario, t: Tools, made: PlanFile)
    requires s.binding.Modified? ==> made.PlanBytes?
  {
    && made.PlanBytes? && !s.binding.Unapproved? && (s.binding.Stale? ==> s.id == "some-other-run")
    && t.meddles(if s.binding.Modified? then PlanBytes(made.bytes + "\0") else made) == made
  }

  /** Why it does not hold, in the order of the checks. */
  ghost predicate Breaks(s: Scenario, made: PlanFile, found: PlanFile, class_: string) {
    class_ ==
      if found.NoPlan? || s.binding.Unapproved? then "plan_artifact_not_approved"
      else if made.NoPlan? then "approval_unreadable"
      else if found != made then "plan_artifact_changed_after_approval"
      else "approval_issued_for_another_run"
  }

  ghost predicate RefusedAtBinding(s: Scenario, t: Tools, made: PlanFile, resolved: string) {
    Verifies(s, t, made, resolved) && !Holding(s, t, made)
  }

  /** Nothing refuses the run and no tool stops it. */
  ghost predicate Proceeds(s: Scenario, t: Tools, made: PlanFile, resolved: string) {
    if Gated(s) then Verifies(s, t, made, resolved) && Holding(s, t, made) else ControlAnswers(s, t)
  }

  // ---- How a run ends -----------------------------------------------------------------

  /** A plan was applied, and then, in the drift scenario, one direct change made. */
  ghost predicate EndsApplying(s: Scenario, t: Tools, platform: string, plan: PlanFile, r: Record) {
    var o := t.applies(platform, plan);
    var drifts := o.ok && s.driftMutation && (s.skipRemote || t.readsStateAfter);
    var m := t.mutates(o.platform);
    && r.effects == (if drifts then [Applied(plan), MutatedDirectly] else [Applied(plan)])
    && r.platform == (if drifts then m.platform else o.platform)
    && (r.enforcement.applied <==> o.ok)
    && StatesAfter(s, t, platform, o, drifts && m.ok && t.readsStateAfterDrift, r)
    && r.notes.drift == (if drifts && m.ok && t.readsStateAfterDrift then t.detectsDrift else None)
    && (r.complete <==> Settles(s, t, platform, plan))
  }

  /** The apply, the reading back and, in the drift scenario, the change and its detection. */
  ghost predicate Settles(s: Scenario, t: Tools, platform: string, plan: PlanFile) {
    var o := t.applies(platform, plan);
    && o.ok && (s.skipRemote || t.readsStateAfter)
    && (s.driftMutation ==> t.mutates(o.platform).ok && t.readsStateAfterDrift && t.detectsDrift.Some?)
  }

  /** The states a run with an apply records: before it, after it, and after a drift. */
  ghost predicate StatesAfter(s: Scenario, t: Tools, platform: string, o: Outcome, drifted: bool, r: Record) {
    var before := if s.skipRemote then "" else Digest(platform);
    var read := o.ok && !s.skipRemote && t.readsStateAfter;
    && r.stateBefore == before
    && r.stateAfter == (if drifted then Digest(r.platform) else if read then Digest(o.platform) else before)
    && r.notes.appliedState == (if read then Digest(o.platform) else "")
  }

  ghost predicate EndsUntouched(s: Scenario, platform: string, r: Record) {
    && r.effects == [] && r.platform == platform && !r.enforcement.applied && !r.enforcement.outOfBand
    && r.stateBefore == r.stateAfter == (if s.skipRemote then "" else Digest(platform))
    && r.notes.appliedState == "" && r.notes.drift == None
  }

  /** A refusal: told once, and applied only where a second path is. */
  ghost predicate EndsRefused(s: Scenario, t: Tools, platform: string, plan: PlanFile, r: Record) {
    && |r.audit| == 1 && r.audit[0].scenario == s.id
    && r.enforcement.operatorResult == "DEPLOY_REFUSED" && r.enforcement.refusedAtStage == r.audit[0].stage
    && (r.enforcement.outOfBand <==> s.outOfBand && t.applies(platform, plan).ok)
    && if s.outOfBand then EndsApplying(s, t, platform, plan, r)
       else EndsUntouched(s, platform, r) && (r.complete <==> s.skipRemote || t.readsStateAfter)
  }

  // ---- The theorems -------------------------------------------------------------------

  /** A run nothing refuses applies the plan it made, unless it is told not to; one on a
      stored artifact has nothing to apply and does not complete. */
  lemma ProceedingRunApplies(s: Scenario, t: Tools, platform: string, made: PlanFile, resolved: string)
    requires Begins(s, t, made, resolved) && Proceeds(s, t, made, resolved)
    ensures
      var r := RunRecord(s, t, platform);
      && r.audit == [] && r.enforcement.refusedAtStage == "" && !r.enforcement.outOfBand
      && if s.artifact != "" then
           EndsUntouched(s, platform, r) && r.enforcement.operatorResult == "DEPLOY_REFUSED" && !r.complete
         else if s.skipApply then
           && EndsUntouched(s, platform, r) && r.enforcement.operatorResult == "DEPLOYED"
           && (r.complete <==> s.skipRemote || t.readsStateAfter)
         else
           && EndsApplying(s, t, platform, made, r)
           && r.enforcement.operatorResult == (if t.applies(platform, made).ok then "DEPLOYED" else "DEPLOY_REFUSED")
  {
    hide Digest, RunId;
    ProceedingSurface(s, t, made, resolved);
    hide PlanSurface, PlanNotes, FinishRecord, EndsApplying, Ignored;
    var before := if s.skipRemote then "" else Digest(platform);
    var r0 := StartRecord(platform).(stateBefore := before, stateAfter := before);
    var noted := r0.(notes := PlanNotes(s, t), enforcement := r0.enforcement.(advisory := Ignored(s, t)));
    assert RunRecord(s, t, platform) == FinishRecord(s, t, noted, made);
    if s.artifact != "" {
      FinishStops(s, t, noted, made);
    } else if s.skipApply {
      FinishSkips(s, t, platform, noted, made);
    } else {
      FinishApplies(s, t, platform, noted, made);
    }
  }

  /** A record on which nothing has been done yet. */
  ghost predicate Waiting(s: Scenario, platform: string, r: Record) {
    EndsUntouched(s, platform, r) && !r.complete && r.enforcement.operatorResult == "DEPLOY_REFUSED"
  }

  lemma FinishStops(s: Scenario, t: Tools, r: Record, plan: PlanFile)
    requires r.audit == [] && s.artifact != ""
    ensures FinishRecord(s, t, r, plan) == r
  {
    hide DriftRecord;
  }

  lemma FinishSkips(s: Scenario, t: Tools, platform: string, r: Record, plan: PlanFile)
    requires Waiting(s, platform, r)
    requires if r.audit == [] then s.skipApply && s.artifact == "" else !s.outOfBand
    ensures
      var f := FinishRecord(s, t, r, plan);
      && EndsUntouched(s, platform, f) && (f.complete <==> s.skipRemote || t.readsStateAfter) && f.audit == r.audit
      && f.enforcement.operatorResult == (if r.audit == [] then "DEPLOYED" else "DEPLOY_REFUSED")
      && f.enforcement.refusedAtStage == r.enforcement.refusedAtStage
  {
    hide Digest, DriftRecord;
    var e := r.enforcement.(operatorResult := if r.audit == [] then "DEPLOYED" else "DEPLOY_REFUSED");
    ReadBackUntouched(s, t, platform, r.(enforcement := e));
    assert FinishRecord(s, t, r, plan) == DriftRecord(s, t, r.(enforcement := e));
  }

  lemma FinishApplies(s: Scenario, t: Tools, platform: string, r: Record, plan: PlanFile)
    requires Waiting(s, platform, r)
    requires if r.audit == [] then !s.skipApply && s.artifact == "" else s.outOfBand
    ensures
      var f, ok := FinishRecord(s, t, r, plan), t.applies(platform, plan).ok;
      && EndsApplying(s, t, platform, plan, f) && f.audit == r.audit
      && f.enforcement.operatorResult == (if r.audit == [] && ok then "DEPLOYED" else "DEPLOY_REFUSED")
      && f.enforcement.refusedAtStage == r.enforcement.refusedAtStage
      && (f.enforcement.outOfBand <==> r.audit != [] && ok)
  {
    hide Digest, DriftRecord;
    var o := t.applies(platform, plan);
    assert r.effects + [Applied(plan)] == [Applied(plan)];
    if o.ok {
      var e := r.enforcement.(applied := true, outOfBand := r.audit != [],
                              operatorResult := if r.audit == [] then "DEPLOYED" else "DEPLOY_REFUSED");
      var q := r.(effects := [Applied(plan)], platform := o.platform, enforcement := e);
      hide EndsApplying;
      ReadBackApplied(s, t, platform, plan, q);
      assert FinishRecord(s, t, r, plan) == DriftRecord(s, t, q);
    }
  }

  lemma ReadBackUntouched(s: Scenario, t: Tools, platform: string, r: Record)
    requires EndsUntouched(s, platform, r) && !r.complete
    ensures
      var f := DriftRecord(s, t, r);
      && EndsUntouched(s, platform, f) && (f.complete <==> s.skipRemote || t.readsStateAfter)
      && f.audit == r.audit && f.enforcement == r.enforcement
  {
    hide Digest;
  }

  lemma ReadBackApplied(s: Scenario, t: Tools, platform: string, plan: PlanFile, r: Record)
    requires t.applies(platform, plan) == Outcome(r.platform, true)
    requires r.effects == [Applied(plan)] && r.enforcement.applied && !r.complete
    requires r.stateBefore == r.stateAfter == (if s.skipRemote then "" else Digest(platform))
    requires r.notes.appliedState == "" && r.notes.drift == None
    ensures
      var f := DriftRecord(s, t, r);
      EndsApplying(s, t, platform, plan, f) && f.audit == r.audit && f.enforcement == r.enforcement
  {
    hide Digest;
    assert r.effects + [MutatedDirectly] == [Applied(plan), MutatedDirectly];
  }

  lemma ProceedingSurface(s: Scenario, t: Tools, made: PlanFile, resolved: string)
    requires Begins(s, t, made, resolved) && Proceeds(s, t, made, resolved)
    ensures PlanSurface(s, t) == Finishing(None, made)
    ensures PlanNotes(s, t).appliedState == "" && PlanNotes(s, t).drift == None
  {
    hide Digest, RunId, VerifyApproval;
    if Gated(s) {
      var files := Rehearsed(s, t, Approved(s, t, resolved), made).value;
      BindingVerdict(s, t, made, resolved, files.0, t.meddles(files.1));
    }
  }

  /** The verdict on the files a rehearsal leaves. */
  lemma BindingVerdict(s: Scenario, t: Tools, made: PlanFile, resolved: string, file: ApprovalFile, found: PlanFile)
    requires Begins(s, t, made, resolved) && Verifies(s, t, made, resolved)
    requires Rehearsed(s, t, Approved(s, t, resolved), made).Some?
    requires Rehearsed(s, t, Approved(s, t, resolved), made).value.0 == file
    requires found == Found(s, t, made)
    ensures VerifyApproval(file, found, s.id) == "" <==> Holding(s, t, made)
    ensures !Holding(s, t, made) ==> Breaks(s, made, found, VerifyApproval(file, found, s.id))
  {
    hide Digest;
    if made.PlanBytes? {
      DigestIsOneLine(made.bytes);
      DigestIsOneLine(s.id + "\n" + Digest(made.bytes));
      DigestIsOneLine("some-other-run" + "\n" + Digest(made.bytes));
      RunIdInjective("some-other-run", Digest(made.bytes), s.id, Digest(made.bytes));
      if found.PlanBytes? { DigestInjective(made.bytes, found.bytes); }
    }
  }

  /** A denial that is obeyed is told once with the class of its first violation. */
  lemma DenialIsTold(s: Scenario, t: Tools, platform: string, made: PlanFile, resolved: string)
    requires Begins(s, t, made, resolved) && RefusedByPolicy(s, t, resolved)
    ensures
      var r, d := RunRecord(s, t, platform), t.evaluates(resolved);
      && EndsRefused(s, t, platform, made, r)
      && r.audit[0].stage == "policy" && r.audit[0].rule == "deny-by-default"
      && (d.violations != [] ==> r.audit[0].class_ == d.violations[0].class_)
      && (d.violations == [] ==> r.audit[0].class_ == d.class_)
  {
    DeniedSurface(s, t, made, resolved);
    RefusedEnds(s, t, platform);
  }

  lemma DeniedSurface(s: Scenario, t: Tools, made: PlanFile, resolved: string)
    requires Begins(s, t, made, resolved) && RefusedByPolicy(s, t, resolved)
    ensures PlanSurface(s, t).Finishing? && PlanSurface(s, t).plan == made && PlanSurface(s, t).refusal.Some?
    ensures
      var e, d := PlanSurface(s, t).refusal.value, t.evaluates(resolved);
      && e.scenario == s.id && e.stage == "policy" && e.rule == "deny-by-default"
      && (d.violations != [] ==> e.class_ == d.violations[0].class_)
      && (d.violations == [] ==> e.class_ == d.class_)
  {
    hide Digest, RunId, VerifyApproval, Rehearsed;
  }

  /** A refusal on the plan surface ends the run as a refusal does. */
  lemma RefusedEnds(s: Scenario, t: Tools, platform: string)
    requires s.manifest == "" && (s.skipRemote || t.readsState)
    requires PlanSurface(s, t).Finishing? && PlanSurface(s, t).refusal.Some?
    requires PlanSurface(s, t).refusal.value.scenario == s.id
    ensures
      var r := RunRecord(s, t, platform);
      EndsRefused(s, t, platform, PlanSurface(s, t).plan, r) && r.audit == [PlanSurface(s, t).refusal.value]
  {
    hide Digest, PlanSurface, PlanNotes, Evaluated;
    NotesStart(s, t);
    var f := PlanSurface(s, t);
    var before := if s.skipRemote then "" else Digest(platform);
    var r0 := StartRecord(platform).(stateBefore := before, stateAfter := before);
    var noted := r0.(notes := PlanNotes(s, t), enforcement := r0.enforcement.(advisory := Ignored(s, t)));
    assert RunRecord(s, t, platform) == FinishRecord(s, t, WithRefusal(noted, f.refusal), f.plan);
    FinishRefused(s, t, platform, WithRefusal(noted, f.refusal), f.plan);
  }

  lemma NotesStart(s: Scenario, t: Tools)
    ensures PlanNotes(s, t).appliedState == "" && PlanNotes(s, t).drift == None
  {
    hide Evaluated;
  }

  lemma FinishRefused(s: Scenario, t: Tools, platform: string, r: Record, plan: PlanFile)
    requires |r.audit| == 1 && r.audit[0].scenario == s.id && Waiting(s, platform, r)
    requires r.enforcement.refusedAtStage == r.audit[0].stage
    ensures EndsRefused(s, t, platform, plan, FinishRecord(s, t, r, plan))
    ensures FinishRecord(s, t, r, plan).audit == r.audit
  {
    hide Digest, FinishRecord, EndsApplying;
    if s.outOfBand { FinishApplies(s, t, platform, r, plan); } else { FinishSkips(s, t, platform, r, plan); }
  }

  /** A broken binding is told once with the class of the break. */
  lemma BreakIsTold(s: Scenario, t: Tools, platform: string, made: PlanFile, resolved: string)
    requires Begins(s, t, made, resolved) && RefusedAtBinding(s, t, made, resolved)
    ensures
      var r, found := RunRecord(s, t, platform), Found(s, t, made);
      && EndsRefused(s, t, platform, found, r)
      && r.audit[0].stage == "binding" && r.audit[0].rule == "gate-to-apply-binding"
      && Breaks(s, made, found, r.audit[0].class_)
  {
    BrokenSurface(s, t, made, resolved);
    RefusedEnds(s, t, platform);
  }

  lemma BrokenSurface(s: Scenario, t: Tools, made: PlanFile, resolved: string)
    requires Begins(s, t, made, resolved) && RefusedAtBinding(s, t, made, resolved)
    ensures PlanSurface(s, t).Finishing? && PlanSurface(s, t).plan == Found(s, t, made)
    ensures PlanSurface(s, t).refusal.Some?
    ensures
      var e := PlanSurface(s, t).refusal.value;
      && e.scenario == s.id && e.stage == "binding" && e.rule == "gate-to-apply-binding"
      && Breaks(s, made, Found(s, t, made), e.class_)
  {
    hide Digest, RunId, VerifyApproval;
    var files := Rehearsed(s, t, Approved(s, t, resolved), made).value;
    BindingVerdict(s, t, made, resolved, files.0, t.meddles(files.1));
  }

  /** In every other case a tool stopped the run, which has then done and told nothing. */
  lemma OtherwiseStopped(s: Scenario, t: Tools, platform: string)
    requires s.manifest == ""
    requires forall made, resolved :: Begins(s, t, made, resolved) ==>
      && !Proceeds(s, t, made, resolved) && !RefusedByPolicy(s, t, resolved)
      && !RefusedAtBinding(s, t, made, resolved)
    ensures
      var r := RunRecord(s, t, platform);
      && r.audit == [] && r.effects == [] && r.platform == platform && !r.complete
      && !r.enforcement.applied && !r.enforcement.outOfBand && r.enforcement.operatorResult == "DEPLOY_REFUSED"
  {
    hide Digest, RunId, VerifyApproval;
    if t.prepares && Evaluated(s, t).Some? && (s.skipRemote || t.readsState) {
      assert Begins(s, t, PlanFileOf(s, t), Evaluated(s, t).value);
    }
  }

  /** What the transcript notes of the decision: the one obeyed, or the one that would have
      been made where another control, or none, stood in the gate's place. */
  lemma DecisionIsNoted(s: Scenario, t: Tools, platform: string, made: PlanFile, resolved: string)
    requires Begins(s, t, made, resolved)
    ensures
      var r, d := RunRecord(s, t, platform), t.evaluates(resolved);
      && (Gated(s) ==> r.notes.decision == Some(d) && r.notes.wouldHaveDecided == None)
      && (!Gated(s) && ControlAnswers(s, t) ==> r.notes.decision == None && r.notes.wouldHaveDecided == Some(d))
      && r.notes.scan == (if s.scan then t.scans else None)
      && r.notes.denylist == (if s.denylist && !s.scan then t.denies else None)
      && (r.enforcement.advisory <==> Gated(s) && s.advisory && d.result != "admit")
  {
    hide Digest, PlanSurface, FinishRecord;
    var before := if s.skipRemote then "" else Digest(platform);
    var r0 := StartRecord(platform).(stateBefore := before, stateAfter := before);
    var noted := r0.(notes := PlanNotes(s, t), enforcement := r0.enforcement.(advisory := Ignored(s, t)));
    if PlanSurface(s, t).Finishing? {
      FinishKeepsNotes(s, t, WithRefusal(noted, PlanSurface(s, t).refusal), PlanSurface(s, t).plan);
    }
  }

  lemma FinishKeepsNotes(s: Scenario, t: Tools, r: Record, plan: PlanFile)
    ensures
      var f := FinishRecord(s, t, r, plan);
      f.notes == r.notes.(drift := f.notes.drift, appliedState := f.notes.appliedState)
        && f.enforcement.advisory == r.enforcement.advisory
  {
    hide Digest;
  }

  /** Under the gate, obeyed and with one path to apply: the plan made is applied exactly when
      the decision admits, the approval is written and holds, and nothing says to skip it; and
      nothing else ever is. */
  lemma GatedRunAppliesIff(s: Scenario, t: Tools, platform: string, made: PlanFile, resolved: string)
    requires Begins(s, t, made, resolved) && Gated(s) && !s.advisory && !s.outOfBand && s.artifact == ""
    ensures Applied(made) in RunRecord(s, t, platform).effects <==>
      t.evaluates(resolved).result == "admit" && t.writesApproval && Holding(s, t, made) && !s.skipApply
    ensures forall plan :: Applied(plan) in RunRecord(s, t, platform).effects ==> plan == made
  {
    hide RunRecord;
    if Proceeds(s, t, made, resolved) {
      ProceedingRunApplies(s, t, platform, made, resolved);
    } else if RefusedByPolicy(s, t, resolved) {
      DenialIsTold(s, t, platform, made, resolved);
    } else if RefusedAtBinding(s, t, made, resolved) {
      BreakIsTold(s, t, platform, made, resolved);
    } else {
      StoppedHere(s, t, platform, made, resolved);
    }
  }

  lemma StoppedHere(s: Scenario, t: Tools, platform: string, made: PlanFile, resolved: string)
    requires Begins(s, t, made, resolved)
    requires !Proceeds(s, t, made, resolved) && !RefusedByPolicy(s, t, resolved)
    requires !RefusedAtBinding(s, t, made, resolved)
    ensures RunRecord(s, t, platform).effects == [] && !RunRecord(s, t, platform).complete
    ensures RunRecord(s, t, platform).platform == platform && RunRecord(s, t, platform).audit == []
  {
    hide RunRecord;
    forall m, text | Begins(s, t, m, text) ensures m == made && text == resolved {
      BeginsOnce(s, t, made, resolved, m, text);
    }
    OtherwiseStopped(s, t, platform);
  }

  lemma BeginsOnce(s: Scenario, t: Tools, made: PlanFile, resolved: string, m: PlanFile, text: string)
    requires Begins(s, t, made, resolved) && Begins(s, t, m, text)
    ensures m == made && text == resolved
  {
  }

  // ---- When a run passes --------------------------------------------------------------

  ghost predicate Passes(s: Scenario, t: Tools, platform: string) {
    RunRecord(s, t, platform).complete && Meets(s, RunRecord(s, t, platform))
  }

  /** A run declared refused passes exactly when it is, with no second path. */
  lemma RefusedPassesIff(s: Scenario, t: Tools, platform: string, made: PlanFile, resolved: string)
    requires Begins(s, t, made, resolved) && s.expectation.ExpectRefused?
    ensures Passes(s, t, platform) <==>
      && (RefusedByPolicy(s, t, resolved) || RefusedAtBinding(s, t, made, resolved))
      && !s.outOfBand && (s.skipRemote || t.readsStateAfter)
  {
    hide RunRecord, Digest, Breaks;
    EveryCase(s, t, platform, made, resolved);
  }

  /** A run declared applied out of band passes exactly when a denied plan is refused and a
      second path applies what it finds. */
  lemma OutOfBandPassesIff(s: Scenario, t: Tools, platform: string, made: PlanFile, resolved: string)
    requires Begins(s, t, made, resolved) && s.expectation.ExpectOutOfBand?
    ensures Passes(s, t, platform) <==>
      && s.outOfBand && t.evaluates(resolved).result != "admit"
      && ((RefusedByPolicy(s, t, resolved) && Settles(s, t, platform, made))
          || (RefusedAtBinding(s, t, made, resolved) && Settles(s, t, platform, Found(s, t, made))))
  {
    hide RunRecord, Digest, Breaks;
    EveryCase(s, t, platform, made, resolved);
    DecisionIsNoted(s, t, platform, made, resolved);
  }

  /** A run declared applied passes exactly when it proceeds with a plan of its own, that plan
      is applied or skipped, and what its flags are there to show is shown. */
  lemma AppliedPassesIff(s: Scenario, t: Tools, platform: string, made: PlanFile, resolved: string)
    requires Begins(s, t, made, resolved) && s.expectation.ExpectApplied?
    ensures Passes(s, t, platform) <==>
      && s.artifact == "" && Proceeds(s, t, made, resolved)
      && (if s.skipApply then s.skipRemote || t.readsStateAfter else Settles(s, t, platform, made))
      && Shown(s, t, platform, made, t.evaluates(resolved))
  {
    hide RunRecord, Digest, Breaks;
    EveryCase(s, t, platform, made, resolved);
    DecisionIsNoted(s, t, platform, made, resolved);
    var o := t.applies(platform, made);
    DigestInjective(o.platform, t.mutates(o.platform).platform);
    DigestIsOneLine(t.mutates(o.platform).platform);
    DigestIsOneLine(o.platform);
  }

  /** A drift that is detected; a scan or a denylist that finds nothing in what the policy
      would deny; a denial of two violations that is not obeyed. */
  ghost predicate Shown(s: Scenario, t: Tools, platform: string, made: PlanFile, d: Engine.Decision) {
    if s.driftMutation then
      var o := t.applies(platform, made);
      && Gated(s) && d.result == "admit" && !s.skipApply && t.detectsDrift == Some(true)
      && (s.skipRemote || t.mutates(o.platform).platform != o.platform)
    else if s.scan then t.scans == Some(0) && d.result != "admit"
    else if s.denylist then
      t.denies.Some? && t.denies.value.findings == 0 && t.denies.value.rules > 0 && d.result != "admit"
    else s.advisory ==> s.gated && d.result != "admit" && |d.violations| >= 2
  }

  /** The four ways of a run that begins, together. */
  lemma EveryCase(s: Scenario, t: Tools, platform: string, made: PlanFile, resolved: string)
    requires Begins(s, t, made, resolved)
    ensures
      var r := RunRecord(s, t, platform);
      if Proceeds(s, t, made, resolved) then
        && r.audit == [] && !r.enforcement.outOfBand
        && if s.artifact != "" then !r.complete
           else if s.skipApply then
             && EndsUntouched(s, platform, r) && r.enforcement.operatorResult == "DEPLOYED"
             && (r.complete <==> s.skipRemote || t.readsStateAfter)
           else
             && EndsApplying(s, t, platform, made, r)
             && (t.applies(platform, made).ok ==> r.enforcement.operatorResult == "DEPLOYED")
      else if RefusedByPolicy(s, t, resolved) then EndsRefused(s, t, platform, made, r)
      else if RefusedAtBinding(s, t, made, resolved) then EndsRefused(s, t, platform, Found(s, t, made), r)
      else !r.complete
  {
    hide RunRecord, EndsApplying, EndsUntouched, EndsRefused;
    if Proceeds(s, t, made, resolved) {
      ProceedingRunApplies(s, t, platform, made, resolved);
    } else if RefusedByPolicy(s, t, resolved) {
      DenialIsTold(s, t, platform, made, resolved);
    } else if RefusedAtBinding(s, t, made, resolved) {
      BreakIsTold(s, t, platform, made, resolved);
    } else {
      StoppedHere(s, t, platform, made, resolved);
    }
  }

  // ---- Runs on manifests --------------------------------------------------------------

  /** The tools get as far as rendered manifests, and past their scan if there is one. */
  predicate ManifestsBegin(s: Scenario, t: Tools, rendered: string) {
    && s.manifest != "" && (s.skipRemote || t.readsState) && t.prepares && t.renders == Some(rendered)
    && (s.scan ==> t.scansManifests.Some?)
  }

  /** Manifests are applied unless the run is gated and the decision denies; no other flag of
      the scenario changes that, and no approval is asked for. */
  lemma ManifestRun(s: Scenario, t: Tools, platform: string, rendered: string)
    requires ManifestsBegin(s, t, rendered)
    ensures
      var r, d, o := RunRecord(s, t, platform), t.evaluates(rendered), t.appliesManifests(platform);
      var before := if s.skipRemote then "" else Digest(platform);
      && r.notes.decision == (if s.gated then Some(d) else None)
      && r.notes.wouldHaveDecided == (if s.gated then None else Some(d))
      && r.notes.scan == (if s.scan then t.scansManifests else None)
      && r.stateBefore == before && !r.enforcement.outOfBand
      && if s.gated && d.result != "admit" then
           && |r.audit| == 1 && r.audit[0].scenario == s.id && r.audit[0].stage == "policy"
           && r.audit[0].rule == "deny-by-default"
           && r.audit[0].class_ == (if d.violations != [] then d.violations[0].class_ else d.class_)
           && r.enforcement.operatorResult == "DEPLOY_REFUSED" && !r.enforcement.applied
           && r.effects == [] && r.platform == platform && (r.complete <==> t.readsStateAfter)
           && r.stateAfter == (if t.readsStateAfter then Digest(platform) else before) && r.notes.appliedState == ""
         else
           && r.audit == [] && r.effects == [AppliedManifests] && r.platform == o.platform
           && (r.enforcement.applied <==> o.ok)
           && r.enforcement.operatorResult == (if o.ok then "DEPLOYED" else "DEPLOY_REFUSED")
           && (r.complete <==> o.ok && t.readsStateAfter)
           && r.stateAfter == (if r.complete then Digest(o.platform) else before)
           && r.notes.appliedState == (if r.complete then Digest(o.platform) else "")
  {
    hide Digest;
    assert [] + [AppliedManifests] == [AppliedManifests];
  }

  lemma ManifestRunStops(s: Scenario, t: Tools, platform: string)
    requires s.manifest != "" && !exists rendered :: ManifestsBegin(s, t, rendered)
    ensures
      var r := RunRecord(s, t, platform);
      && r.audit == [] && r.effects == [] && r.platform == platform && !r.complete
      && !r.enforcement.applied && r.enforcement.operatorResult == "DEPLOY_REFUSED"
  {
    hide Digest;
    if t.renders.Some? { assert !ManifestsBegin(s, t, t.renders.value); }
  }

  /** When a run on manifests passes, for each declared outcome. */
  lemma ManifestsPassIff(s: Scenario, t: Tools, platform: string, rendered: string)
    requires ManifestsBegin(s, t, rendered)
    ensures Passes(s, t, platform) <==>
      t.readsStateAfter && AsDeclared(s, t, t.evaluates(rendered), t.appliesManifests(platform))
  {
    hide RunRecord, Digest;
    ManifestRun(s, t, platform, rendered);
    ManifestsNoDrift(s, t, platform);
  }

  /** Refused where a refusal is declared; applied where an apply is, and then the gate admitted
      or, with a scan in its place, the scan missed what the policy would deny. */
  ghost predicate AsDeclared(s: Scenario, t: Tools, d: Engine.Decision, o: Outcome) {
    match s.expectation
    case ExpectRefused => s.gated && d.result != "admit"
    case ExpectApplied =>
      && (s.gated ==> d.result == "admit") && o.ok && !s.driftMutation
      && if s.scan then !s.gated && t.scansManifests == Some(0) && d.result != "admit" else s.gated
    case _ => false
  }

  lemma ManifestsNoDrift(s: Scenario, t: Tools, platform: string)
    requires s.manifest != ""
    ensures RunRecord(s, t, platform).notes.drift == None && RunRecord(s, t, platform).notes.denylist == None
  {
    hide Digest;
  }

  // ---- What the audit says of a policy's denial ---------------------------------------

  /** With an engine that evaluates the policy, the event's class is the least class of the
      violations there are, or the engine's own where the policy has no answer. */
  lemma AuditNamesLeastClass(s: Scenario, t: Tools, platform: string, made: PlanFile, resolved: string,
      d: Graph.Document, allow: Policy.Allowlist)
    requires Begins(s, t, made, resolved) && RefusedByPolicy(s, t, resolved)
    requires t.evaluates(resolved) == Engine.Evaluate(true, true, Engine.Faithful(d, allow))
    ensures
      var r := RunRecord(s, t, platform);
      && |r.audit| == 1
      && (Answers.Quarrel(d, allow) ==> r.audit[0].class_ == "policy_engine_error")
      && (!Answers.Quarrel(d, allow) ==>
            && (exists v :: Answers.Warranted(d, allow, v) && v.class_ == r.audit[0].class_)
            && forall v :: Answers.Warranted(d, allow, v) ==> Order.StringLe(r.audit[0].class_, v.class_))
  {
    hide RunRecord, Policy.Decide, Answers.Warranted, Answers.Quarrel, EndsRefused;
    DenialIsTold(s, t, platform, made, resolved);
    assert |RunRecord(s, t, platform).audit| == 1 by { RefusalTellsOnce(s, t, platform, made); }
    Answers.NoAnswerIff(d, allow);
    if !Answers.Quarrel(d, allow) { FaithfulClass(d, allow); }
  }

  lemma RefusalTellsOnce(s: Scenario, t: Tools, platform: string, made: PlanFile)
    requires EndsRefused(s, t, platform, made, RunRecord(s, t, platform))
    ensures |RunRecord(s, t, platform).audit| == 1
  {
    hide RunRecord;
  }

  lemma FaithfulClass(d: Graph.Document, allow: Policy.Allowlist)
    requires Policy.Decide(d, allow).Answer?
    requires Engine.Evaluate(true, true, Engine.Faithful(d, allow)).result != "admit"
    ensures
      var vs := Engine.Evaluate(true, true, Engine.Faithful(d, allow)).violations;
      && vs != []
      && (exists v :: Answers.Warranted(d, allow, v) && v.class_ == vs[0].class_)
      && forall v :: Answers.Warranted(d, allow, v) ==> Order.StringLe(vs[0].class_, v.class_)
  {
    hide Policy.Violations, Policy.Exposures, Policy.Conflicts, Engine.Listed, Answers.Warranted;
    var vs := Policy.Violations(d, allow);
    Engine.ListedMeaning(vs);
    Engine.ListedSize(vs);
    forall v ensures v in vs <==> Answers.Warranted(d, allow, v) { Answers.ViolationsAre(d, allow, v); }
  }
}
