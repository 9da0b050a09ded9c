/** The fail-closed reading of the policy engine's answer. */
module Engine {
  import opened Options
  import Policy
  import Graph
  import Order

  const RESULT_ADMIT := "admit"
  const RESULT_DENY := "deny"
  const CLASS_ENGINE_ERROR := "policy_engine_error"
  const CLASS_NO_DECISION := "no_decision"
  const CLASS_UNPARSABLE := "unparsable_artifact"
  const CLASS_MALFORMED := "malformed_decision"

  datatype Violation = Violation(class_: string, resource: string)

  datatype Decision = Decision(result: string, class_: string, violations: seq<Violation>)

  predicate Denied(d: Decision) {
    d.result != RESULT_ADMIT
  }

  function Denial(class_: string): Decision {
    Decision(RESULT_DENY, class_, [Violation(class_, "<artifact>")])
  }

  /** One answered expression: decodable as a decision or not; a missing list decodes to none. */
  datatype Expression = Undecodable | Decoded(result: string, class_: string, violations: Option<seq<Violation>>)

  /** The engine's output document: results, each a list of expressions. */
  datatype Output = Unreadable | Results(results: seq<seq<Expression>>)

  datatype EngineRun = CouldNotStart | ExitedWithError | TimedOut | Finished(output: Output)

  function Parse(o: Output): Decision {
    if o.Unreadable? then Denial(CLASS_MALFORMED)
    else if |o.results| == 0 || |o.results[0]| == 0 then Denial(CLASS_NO_DECISION)
    else
      var e := o.results[0][0];
      if e.Undecodable? then Denial(CLASS_MALFORMED)
      else if e.result != RESULT_ADMIT && e.result != RESULT_DENY then Denial(CLASS_MALFORMED)
      else if e.result == RESULT_ADMIT && e.violations.Some? && |e.violations.value| > 0 then Denial(CLASS_MALFORMED)
      else Decision(e.result, e.class_, if e.violations.None? then [] else e.violations.value)
  }

  function Evaluate(inputIsJson: bool, allowlistExists: bool, run: EngineRun): Decision {
    if !inputIsJson then Denial(CLASS_UNPARSABLE)
    else if !allowlistExists then Denial(CLASS_ENGINE_ERROR)
    else if !run.Finished? then Denial(CLASS_ENGINE_ERROR)
    else Parse(run.output)
  }

  /** The engine answered, first of all, a well-formed admission without violations. */
  predicate CleanAdmission(run: EngineRun) {
    && run.Finished? && run.output.Results?
    && |run.output.results| > 0 && |run.output.results[0]| > 0
    && run.output.results[0][0].Decoded?
    && run.output.results[0][0].result == RESULT_ADMIT
    && (run.output.results[0][0].violations.None? || run.output.results[0][0].violations.value == [])
  }

  /** Everything that is not a clean admission denies, and every denial says why or is the
      engine's own. */
  lemma OnlyCleanAdmissionAdmits(inputIsJson: bool, allowlistExists: bool, run: EngineRun)
    ensures !Denied(Evaluate(inputIsJson, allowlistExists, run)) <==>
      inputIsJson && allowlistExists && CleanAdmission(run)
    ensures !Denied(Evaluate(inputIsJson, allowlistExists, run)) ==>
      Evaluate(inputIsJson, allowlistExists, run).violations == []
    ensures Evaluate(inputIsJson, allowlistExists, run).result in {RESULT_ADMIT, RESULT_DENY}
  {
  }

  /** Where a decision comes from, for each way it can come about: the engine's first
      expression is passed on as it is exactly when it is a decision that may be obeyed, and
      otherwise the class names the reason. */
  lemma EvaluateMeaning(inputIsJson: bool, allowlistExists: bool, run: EngineRun)
    ensures
      var d := Evaluate(inputIsJson, allowlistExists, run);
      && (!inputIsJson ==> d == Refusal("unparsable_artifact"))
      && (inputIsJson && (!allowlistExists || !run.Finished?) ==> d == Refusal("policy_engine_error"))
      && (inputIsJson && allowlistExists && run.Finished? ==>
            && (run.output.Results? && (run.output.results == [] || run.output.results[0] == []) ==>
              d == Refusal("no_decision"))
            && (run.output.Unreadable? ==> d == Refusal("malformed_decision"))
            && (run.output.Results? && run.output.results != [] && run.output.results[0] != [] ==>
                  if Obeyable(run.output.results[0][0]) then IsPassedOn(run.output.results[0][0], d)
                  else d == Refusal("malformed_decision")))
  {
  }

  /** A denial of the gate's own: one violation, about the artifact as a whole. */
  ghost function Refusal(class_: string): Decision {
    Decision("deny", class_, [Violation(class_, "<artifact>")])
  }

  ghost predicate Obeyable(e: Expression) {
    && e.Decoded? && (e.result == "admit" || e.result == "deny")
    && (e.result == "admit" ==> e.violations == None || e.violations == Some([]))
  }

  ghost predicate IsPassedOn(e: Expression, d: Decision)
    requires Obeyable(e)
  {
    && d.result == e.result && d.class_ == e.class_
    && (e.violations.Some? ==> d.violations == e.violations.value) && (e.violations.None? ==> d.violations == [])
  }

  // ---- An engine that evaluates the policy --------------------------------------------

  ghost function Listed(vs: set<Policy.Violation>): seq<Violation> {
    if vs == {} then [] else
      SomeIsLeast(vs);
      var v :| v in vs && LeastClass(vs, v.class_);
      [Violation(v.class_, v.resource)] + Listed(vs - {v})
  }

  ghost predicate LeastClass(vs: set<Policy.Violation>, class_: string) {
    forall u :: u in vs ==> Order.StringLe(class_, u.class_)
  }

  lemma {:induction false} SomeIsLeast(vs: set<Policy.Violation>)
    requires vs != {}
    ensures exists v :: v in vs && LeastClass(vs, v.class_)
  {
    Order.StringOrder();
    var x :| x in vs;
    var rest := vs - {x};
    if rest == {} {
      assert vs == {x};
      assert LeastClass(vs, x.class_);
    } else {
      SomeIsLeast(rest);
      var y :| y in rest && LeastClass(rest, y.class_);
      var v := if Order.StringLe(x.class_, y.class_) then x else y;
      assert v in vs && LeastClass(vs, v.class_);
    }
  }

  /** The engine sorts its list, and the class is what it sorts by first: the list starts with
      a violation of the least class, and has a violation for each of the set and no other. */
  lemma {:induction false} ListedMeaning(vs: set<Policy.Violation>)
    ensures forall x :: x in Listed(vs) <==> exists v :: v in vs && x == Violation(v.class_, v.resource)
    ensures vs != {} ==> exists v :: v in vs && LeastClass(vs, v.class_)
                           && Listed(vs)[0] == Violation(v.class_, v.resource)
  {
    if vs != {} {
      var l := Listed(vs);
      SomeIsLeast(vs);
      var v :| v in vs && LeastClass(vs, v.class_) && l == [Violation(v.class_, v.resource)] + Listed(vs - {v});
      ListedMeaning(vs - {v});
      assert vs == (vs - {v}) + {v};
    }
  }

  /** What such an engine answers for a document: an evaluation error fails the process. */
  ghost function Faithful(doc: Graph.Document, allow: Policy.Allowlist): EngineRun {
    match Policy.Decide(doc, allow)
    case EvaluationError => ExitedWithError
    case Answer(result, violations, _) => Finished(Results([[Decoded(result, "evaluated", Some(Listed(violations)))]]))
  }

  lemma {:induction false} ListedSize(vs: set<Policy.Violation>)
    ensures |Listed(vs)| == |vs|
  {
    if vs != {} {
      var l := Listed(vs);
      SomeIsLeast(vs);
      var v :| v in vs && LeastClass(vs, v.class_) && l == [Violation(v.class_, v.resource)] + Listed(vs - {v});
      ListedSize(vs - {v});
    }
  }

  /** The gate's decision is the policy's: nothing turns a denial into an admission, and
      no admission is lost on the way. */
  lemma GateFollowsPolicy(doc: Graph.Document, allow: Policy.Allowlist)
    ensures !Denied(Evaluate(true, true, Faithful(doc, allow))) <==> Policy.Admits(doc, allow)
  {
    hide Policy.Violations, Policy.Exposures, Policy.Conflicts, Listed;
    ListedSize(Policy.Violations(doc, allow));
    OnlyCleanAdmissionAdmits(true, true, Faithful(doc, allow));
  }
}
