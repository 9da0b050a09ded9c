/** The gate-to-apply binding: approvals that name one artifact by digest. */
module Approval {
  import opened Options
  import opened Digests

  const CLASS_NO_APPROVAL := "plan_artifact_not_approved"
  const CLASS_DIGEST_MISMATCH := "plan_artifact_changed_after_approval"
  const CLASS_OTHER_RUN := "approval_issued_for_another_run"
  const CLASS_UNUSABLE := "approval_unreadable"

  datatype Approval = Approval(runId: string, scenario: string, planArtifactDigest: string,
                               resolvedDigest: string, allowlist: string)

  /** An approval file: absent, not decodable, or holding an approval. */
  datatype ApprovalFile = NoFile | Garbage | Holds(approval: Approval)

  datatype PlanFile = NoPlan | PlanBytes(bytes: string)

  function RunId(scenario: string, planDigest: string): string {
    Digest(scenario + "\n" + planDigest)
  }

  datatype ReadResult = Read(approval: Approval) | Absent | Unusable

  function ReadApproval(f: ApprovalFile): ReadResult {
    match f
    case NoFile => Absent
    case Garbage => Unusable
    case Holds(a) => if a.runId == "" || a.planArtifactDigest == "" then Unusable else Read(a)
  }

  /** The class of a refusal, or the empty string to proceed. */
  function VerifyApproval(f: ApprovalFile, plan: PlanFile, scenario: string): string {
    if plan.NoPlan? then CLASS_NO_APPROVAL
    else
      var digest := Digest(plan.bytes);
      match ReadApproval(f)
      case Absent => CLASS_NO_APPROVAL
      case Unusable => CLASS_UNUSABLE
      case Read(a) =>
        if a.planArtifactDigest != digest then CLASS_DIGEST_MISMATCH
        else if a.runId != RunId(scenario, digest) then CLASS_OTHER_RUN
        else ""
  }

  /** The approval an admitted decision produces. */
  function Issue(scenario: string, planDigest: string, resolvedDigest: string, allowlist: string): Approval {
    Approval(RunId(scenario, planDigest), scenario, planDigest, resolvedDigest, allowlist)
  }

  /** A text splits in one way at its last newline. */
  lemma LastNewlineSplits(a: string, b: string, c: string, d: string)
    requires a + "\n" + b == c + "\n" + d && '\n' !in b && '\n' !in d
    ensures a == c && b == d
  {
    if |a| < |c| { ShorterHeadHasNewlineAfter(a, b, c, d); }
    if |c| < |a| { ShorterHeadHasNewlineAfter(c, d, a, b); }
    var s := a + "\n" + b;
    assert s[..|a|] == a && s[|a| + 1..] == b;
    assert (c + "\n" + d)[..|c|] == c && (c + "\n" + d)[|c| + 1..] == d;
  }

  lemma ShorterHeadHasNewlineAfter(a: string, b: string, c: string, d: string)
    requires a + "\n" + b == c + "\n" + d && |a| < |c|
    ensures '\n' in b
  {
    assert (a + "\n" + b)[|c|] == (c + "\n" + d)[|c|] == '\n';
    assert b[|c| - |a| - 1] == '\n';
  }

  /** The run identity determines the scenario and the artifact digest. */
  lemma RunIdInjective(s: string, d: string, s': string, d': string)
    requires '\n' !in d && '\n' !in d'
    ensures RunId(s, d) == RunId(s', d') <==> s == s' && d == d'
  {
    if RunId(s, d) == RunId(s', d') {
      DigestInjective(s + "\n" + d, s' + "\n" + d');
      LastNewlineSplits(s, d, s', d');
    }
  }

  /** What was issued for one scenario and one text is accepted for these two and nothing
      else, whatever the resolved digest and the allowlist in it. */
  lemma AcceptedExactlyWhereIssued(s: string, issued: string, resolved: string, allow: string, s': string,
      plan: PlanFile)
    ensures VerifyApproval(Holds(Issue(s, Digest(issued), resolved, allow)), plan, s') == "" <==>
      plan == PlanBytes(issued) && s' == s
  {
    DigestIsOneLine(issued);
    DigestIsOneLine(s + "\n" + Digest(issued));
    if plan.PlanBytes? {
      DigestIsOneLine(plan.bytes);
      DigestInjective(issued, plan.bytes);
      RunIdInjective(s, Digest(issued), s', Digest(plan.bytes));
    }
  }

  /** Whatever the file holds, acceptance means the artifact has the approved digest and
      the approval is of this run; and no plan, no approval. */
  lemma AcceptanceMeaning(f: ApprovalFile, plan: PlanFile, scenario: string)
    ensures VerifyApproval(f, plan, scenario) == "" <==>
      && plan.PlanBytes? && f.Holds?
      && f.approval.planArtifactDigest == Digest(plan.bytes)
      && f.approval.runId == RunId(scenario, Digest(plan.bytes))
  {
    if plan.PlanBytes? {
      DigestIsOneLine(plan.bytes);
      DigestIsOneLine(scenario + "\n" + Digest(plan.bytes));
    }
  }

  /** The class of every refusal: no plan or no approval; an approval that does not decode or
      lacks what is compared; another digest; another run. */
  lemma RefusalClasses(f: ApprovalFile, plan: PlanFile, scenario: string)
    ensures
      var class_ := VerifyApproval(f, plan, scenario);
      && (class_ == "plan_artifact_not_approved" <==> plan.NoPlan? || f.NoFile?)
      && (class_ == "approval_unreadable" <==> plan.PlanBytes? && (f.Garbage? || (f.Holds? && Lacks(f.approval))))
      && (class_ == "plan_artifact_changed_after_approval" <==>
            Comparable(f, plan) && f.approval.planArtifactDigest != Digest(plan.bytes))
      && (class_ == "approval_issued_for_another_run" <==>
            Comparable(f, plan) && f.approval.planArtifactDigest == Digest(plan.bytes)
            && f.approval.runId != Digest(scenario + "\n" + Digest(plan.bytes)))
      && (class_ == "" <==>
            Comparable(f, plan) && f.approval.planArtifactDigest == Digest(plan.bytes)
            && f.approval.runId == Digest(scenario + "\n" + Digest(plan.bytes)))
  {
    hide Digest;
  }

  ghost predicate Lacks(a: Approval) {
    a.runId == "" || a.planArtifactDigest == ""
  }

  ghost predicate Comparable(f: ApprovalFile, plan: PlanFile) {
    plan.PlanBytes? && f.Holds? && !Lacks(f.approval)
  }
}
