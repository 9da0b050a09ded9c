/** What the policy answers, violation by violation and row by row, said over the document
    and the allowlist and not over the rules that compute it. */
module Answers {
  import opened Options
  import opened Cidr
  import opened Intervals
  import opened Prefixes
  import opened Platform
  import opened Graph
  import opened Policy
  import opened ExposureMeaning
  import A = Authz
  import R = Reference

  // ---- Exposures ----------------------------------------------------------------------

  ghost predicate ReadGrant(d: Document, name: string, g: Grant) {
    (exists e :: e in d.grants && e.grant == g) && g.resourceKind == "bucket" && g.resourceName == name
      && "read" in g.actions
  }

  ghost predicate PortRule(d: Document, workload: string, port: string, r: NetworkRule) {
    (exists e :: e in d.networkRules && e.rule == r) && r.workload == workload && r.port == port
  }

  /** The blocks are those of the canonical intervals with this coverage, which are unique. */
  ghost predicate Spells(blocks: seq<Range>, coverage: iset<int>) {
    exists ivs :: Normal(ivs) && blocks == PrefixesOf(ivs) && forall v: int :: Covers(ivs, v) <==> v in coverage
  }

  ghost predicate BucketComputable(d: Document, name: string) {
    (exists g :: ReadGrant(d, name, g)) && forall g :: ReadGrant(d, name, g) ==> AllBlocks(g.sourceRanges)
  }

  /** The union of the read grants: their principals, their addresses, their identifiers. */
  ghost predicate BucketExposed(d: Document, name: string, x: Exposure) {
    && BucketComputable(d, name)
    && (forall p :: p in x.principals <==> exists g :: ReadGrant(d, name, g) && p in g.principals)
    && (forall id :: id in x.rules <==> exists g :: ReadGrant(d, name, g) && g.id == id)
    && Spells(x.sources, iset v: int | GrantCovers(d, name, v))
  }

  ghost predicate GrantCovers(d: Document, name: string, v: int) {
    exists g :: ReadGrant(d, name, g) && RangesCover(g.sourceRanges, v)
  }

  ghost predicate PortComputable(d: Document, workload: string, port: string) {
    forall r :: PortRule(d, workload, port, r) ==> AllBlocks(r.sourceRanges)
  }

  ghost predicate RuleCovers(d: Document, workload: string, port: string, v: int) {
    exists r :: PortRule(d, workload, port, r) && RangesCover(r.sourceRanges, v)
  }

  /** The union of the rules, as far as the bind hears it. */
  ghost predicate PortExposed(d: Document, workload: string, p: Port, x: Exposure) {
    && PortComputable(d, workload, p.name)
    && x.principals == {}
    && (forall id :: id in x.rules <==> exists r :: PortRule(d, workload, p.name, r) && r.id == id)
    && Spells(x.sources, iset v: int | RuleCovers(d, workload, p.name, v) && R.Hears(d.segments, p.bind, v))
  }

  lemma SpellsOnce(a: seq<Range>, b: seq<Range>, coverage: iset<int>)
    requires Spells(a, coverage) && Spells(b, coverage)
    ensures a == b
  {
    var x :| Normal(x) && a == PrefixesOf(x) && forall v: int :: Covers(x, v) <==> v in coverage;
    var y :| Normal(y) && b == PrefixesOf(y) && forall v: int :: Covers(y, v) <==> v in coverage;
    CanonicalUnique(x, y);
  }

  lemma MergedSpells(rs: seq<Range>, coverage: iset<int>)
    requires AllBlocks(rs) && forall v: int :: RangesCover(rs, v) <==> v in coverage
    ensures CidrMerge(rs).Some? && Spells(CidrMerge(rs).value, coverage)
  {
    hide RangesCover, PrefixesOf, Covers;
    ParseAllMeaning(rs);
  }

  lemma BucketExposureIs(d: Document, name: string, x: Exposure)
    ensures BucketExposure(d, name) == Some(x) <==> BucketExposed(d, name, x)
    ensures BucketExposure(d, name).Some? <==> BucketComputable(d, name)
  {
    hide BucketGrants, RangesCover, Spells, CidrMerge, AllBlocks, GrantSources;
    var gs := BucketGrants(d.grants, name);
    BucketGrantsMeaning(d.grants, name);
    assert forall g :: g in gs <==> ReadGrant(d, name, g);
    GrantSourcesMeaning(gs);
    CidrMergeMeaning(GrantSources(gs));
    assert gs != [] <==> exists g :: ReadGrant(d, name, g) by { if gs != [] { assert gs[0] in gs; } }
    if BucketComputable(d, name) {
      var coverage := iset v: int | GrantCovers(d, name, v);
      forall v: int ensures RangesCover(GrantSources(gs), v) <==> v in coverage {
        assert SomeGrantCovers(gs, v) <==> GrantCovers(d, name, v);
      }
      MergedSpells(GrantSources(gs), coverage);
      var y := BucketExposure(d, name).value;
      if BucketExposed(d, name, x) {
        SpellsOnce(x.sources, y.sources, coverage);
        assert x.principals == y.principals && x.rules == y.rules;
      }
    }
  }

  lemma PortExposureIs(d: Document, workload: string, p: Port, x: Exposure)
    ensures PortExposure(d, workload, p.name, p.bind) == Some(x) <==> PortExposed(d, workload, p, x)
    ensures PortExposure(d, workload, p.name, p.bind).Some? <==> PortComputable(d, workload, p.name)
  {
    hide PortRules, RangesCover, Spells, CidrMerge, AllBlocks, RuleSources, IntersectPairs, BindReach,
      BindServes, R.Hears, RuleCovers;
    var rs := PortRules(d.networkRules, workload, p.name);
    PortRulesMeaning(d.networkRules, workload, p.name);
    assert forall r :: r in rs <==> PortRule(d, workload, p.name, r);
    PortExposureMeaning(d, workload, p.name, p.bind);
    RuleSourcesMeaning(rs);
    CidrMergeMeaning(RuleSources(rs));
    if PortComputable(d, workload, p.name) {
      var coverage := iset v: int | RuleCovers(d, workload, p.name, v) && R.Hears(d.segments, p.bind, v);
      PortSourcesSpell(d, workload, p, coverage);
      var y := PortExposure(d, workload, p.name, p.bind).value;
      if PortExposed(d, workload, p, x) {
        SpellsOnce(x.sources, y.sources, coverage);
        assert x.rules == y.rules;
      }
    }
  }

  lemma PortSourcesSpell(d: Document, workload: string, p: Port, coverage: iset<int>)
    requires PortComputable(d, workload, p.name)
    requires forall v: int :: v in coverage <==> RuleCovers(d, workload, p.name, v) && R.Hears(d.segments, p.bind, v)
    ensures PortExposure(d, workload, p.name, p.bind).Some?
    ensures Spells(PortExposure(d, workload, p.name, p.bind).value.sources, coverage)
  {
    hide RangesCover, Spells, PortRules, CidrMerge, RuleSources, IntersectPairs, BindReach, BindServes, R.Hears,
      AllBlocks;
    var rs := PortRules(d.networkRules, workload, p.name);
    var reach := BindReach(d.segments, p.bind);
    PortRulesMeaning(d.networkRules, workload, p.name);
    RuleSourcesMeaning(rs);
    assert AllBlocks(RuleSources(rs)) by {
      forall r | r in rs ensures AllBlocks(r.sourceRanges) { assert PortRule(d, workload, p.name, r); }
    }
    CidrMergeMeaning(RuleSources(rs));
    BindReachMeaning(d.segments, p.bind);
    var permitted := CidrMerge(RuleSources(rs)).value;
    IntersectPairsMeaning(permitted, reach, 0);
    forall v: int ensures RangesCover(IntersectPairs(permitted, reach), v) <==> v in coverage {
      IntersectPairsMeaning(permitted, reach, v);
      R.HearsAsPolicySays(d.segments, p.bind, v);
      RuleCoversAlike(d, workload, p.name, v);
    }
    MergedSpells(IntersectPairs(permitted, reach), coverage);
  }

  lemma RuleCoversAlike(d: Document, workload: string, port: string, v: int)
    ensures RuleCovers(d, workload, port, v) <==> SomeRuleCovers(PortRules(d.networkRules, workload, port), v)
  {
    hide RangesCover, PortRules;
    PortRulesMeaning(d.networkRules, workload, port);
    var rs := PortRules(d.networkRules, workload, port);
    assert forall r :: r in rs <==> PortRule(d, workload, port, r);
  }

  // ---- Admission ----------------------------------------------------------------------

  /** The entry covers the exposure: every principal is named, every block lies in one block. */
  ghost predicate Holds(e: Entry, x: Exposure) {
    && (forall p :: p in x.principals ==> p in e.principals)
    && forall i :: 0 <= i < |x.sources| ==> LiesInOne(x.sources[i], e.sources)
  }

  ghost predicate LiesInOne(r: Range, outer: seq<Range>) {
    r.Block? && exists j :: 0 <= j < |outer| && outer[j].Block? && Inside(r, outer[j])
  }

  ghost predicate AdmitsName(e: Entry, x: Exposure, kind: string, name: string) {
    e.kind == kind && e.name == name && Holds(e, x)
  }

  lemma AdmissionAlike(e: Entry, x: Exposure, name: string, workload: string, port: string)
    ensures AdmitsName(e, x, "bucket", name) <==> AdmitsBucket(e, x, name)
    ensures x.principals == {} ==>
      (AdmitsName(e, x, "workload_port", workload + ":" + port) <==> AdmitsPort(e, x, workload, port))
  {
    hide Inside;
    forall i | 0 <= i < |x.sources|
      ensures LiesInOne(x.sources[i], e.sources) <==> BlockAllowed(x.sources[i], e.sources)
    {
    }
  }

  /** The entry admits what a key names: a declared bucket or a declared port. */
  ghost predicate AdmitsKey(d: Document, e: Entry, key: string) {
    || (exists r, x :: DeclaresBucket(d, r, key) && BucketExposed(d, r.name, x) && AdmitsName(e, x, "bucket", r.name))
    || (exists r, p, x :: DeclaresPort(d, r, p, key) && PortExposed(d, r.name, p, x) && AdmitsPortName(e, x, r, p))
  }

  ghost predicate AdmitsPortName(e: Entry, x: Exposure, r: Resource, p: Port) {
    AdmitsName(e, x, "workload_port", r.name + ":" + p.name)
  }

  ghost predicate DeclaresBucket(d: Document, r: Resource, key: string) {
    r in d.resources && r.kind == "bucket" && key == "bucket/" + r.name
  }

  ghost predicate DeclaresPort(d: Document, r: Resource, p: Port, key: string) {
    r in d.resources && r.kind == "workload" && p in r.ports && key == "workload/" + r.name + ":" + p.name
  }

  lemma AdmittedBucketRule(d: Document, allow: Allowlist, name: string, rule: string)
    requires rule in AdmittedBucket(d, allow, name)
    ensures BucketExposure(d, name).Some?
    ensures exists e :: e in Entries(allow) && AdmitsBucket(e, BucketExposure(d, name).value, name) && e.rule == rule
  {
    hide BucketExposure, AdmitsBucket, Entries;
  }

  lemma AdmittedPortRule(d: Document, allow: Allowlist, r: Resource, p: Port, rule: string)
    requires rule in AdmittedPort(d, allow, r.name, p.name, p.bind)
    ensures PortExposure(d, r.name, p.name, p.bind).Some?
    ensures exists e :: e in Entries(allow) && e.rule == rule
              && AdmitsPort(e, PortExposure(d, r.name, p.name, p.bind).value, r.name, p.name)
  {
    hide PortExposure, AdmitsPort, Entries;
  }

  lemma RulesAtAre(d: Document, allow: Allowlist, key: string, rule: string)
    ensures rule in RulesAt(d, allow, key) <==>
      exists e :: e in Entries(allow) && e.rule == rule && AdmitsKey(d, e, key)
  {
    hide BucketExposure, PortExposure, BucketExposed, PortExposed, AdmitsBucket, AdmitsPort, AdmitsName,
      Entries, AdmittedBucket, AdmittedPort;
    if rule in RulesAt(d, allow, key) {
      if r :| DeclaresBucket(d, r, key) && rule in AdmittedBucket(d, allow, r.name) {
        AdmittedBucketRule(d, allow, r.name, rule);
        var x := BucketExposure(d, r.name).value;
        var e :| e in Entries(allow) && AdmitsBucket(e, x, r.name) && e.rule == rule;
        BucketExposureIs(d, r.name, x);
        AdmissionAlike(e, x, r.name, "", "");
        assert AdmitsKey(d, e, key);
      } else {
        var r, p :| DeclaresPort(d, r, p, key) && rule in AdmittedPort(d, allow, r.name, p.name, p.bind);
        AdmittedPortRule(d, allow, r, p, rule);
        var x := PortExposure(d, r.name, p.name, p.bind).value;
        var e :| e in Entries(allow) && AdmitsPort(e, x, r.name, p.name) && e.rule == rule;
        PortExposureIs(d, r.name, p, x);
        PortHasNoPrincipals(d, r.name, p, x);
        AdmissionAlike(e, x, "", r.name, p.name);
        assert AdmitsKey(d, e, key);
      }
    }
    if e :| e in Entries(allow) && e.rule == rule && AdmitsKey(d, e, key) {
      KeyRule(d, allow, e, key);
    }
  }

  lemma PortHasNoPrincipals(d: Document, workload: string, p: Port, x: Exposure)
    requires PortExposed(d, workload, p, x)
    ensures x.principals == {}
  {
  }

  lemma KeyRule(d: Document, allow: Allowlist, e: Entry, key: string)
    requires e in Entries(allow) && AdmitsKey(d, e, key)
    ensures e.rule in RulesAt(d, allow, key) && key in Keys(d)
  {
    hide BucketExposure, PortExposure, BucketExposed, PortExposed, AdmitsBucket, AdmitsPort, AdmitsName, Entries;
    if r, x :| DeclaresBucket(d, r, key) && BucketExposed(d, r.name, x) && AdmitsName(e, x, "bucket", r.name) {
      BucketExposureIs(d, r.name, x);
      AdmissionAlike(e, x, r.name, "", "");
      assert e.rule in AdmittedBucket(d, allow, r.name);
    } else {
      var r, p, x :| DeclaresPort(d, r, p, key) && PortExposed(d, r.name, p, x) && AdmitsPortName(e, x, r, p);
      PortExposureIs(d, r.name, p, x);
      PortHasNoPrincipals(d, r.name, p, x);
      AdmissionAlike(e, x, "", r.name, p.name);
      assert e.rule in AdmittedPort(d, allow, r.name, p.name, p.bind);
      assert key == PortKey(r, p);
    }
  }

  ghost predicate Quarrel(d: Document, allow: Allowlist) {
    exists key, e, f :: e in Entries(allow) && f in Entries(allow) && Both(d, e, f, key)
  }

  /** Two entries with different rules admit one key. */
  ghost predicate Both(d: Document, e: Entry, f: Entry, key: string) {
    AdmitsKey(d, e, key) && AdmitsKey(d, f, key) && e.rule != f.rule
  }

  /** No answer at all exactly when entries with different rules admit one resource. */
  lemma NoAnswerIff(d: Document, allow: Allowlist)
    ensures Decide(d, allow).EvaluationError? <==> Quarrel(d, allow)
  {
    hide RulesAt, Keys, AdmitsKey, Violations, Exposures, Entries;
    if Conflicts(d, allow) {
      var key :| key in Keys(d) && |RulesAt(d, allow, key)| > 1;
      R.MoreThanOne(RulesAt(d, allow, key));
      var x, y :| x in RulesAt(d, allow, key) && y in RulesAt(d, allow, key) && x != y;
      RulesAtAre(d, allow, key, x);
      RulesAtAre(d, allow, key, y);
      var e :| e in Entries(allow) && e.rule == x && AdmitsKey(d, e, key);
      var f :| f in Entries(allow) && f.rule == y && AdmitsKey(d, f, key);
      assert Both(d, e, f, key);
    }
    if Quarrel(d, allow) {
      var key, e, f :| e in Entries(allow) && f in Entries(allow) && Both(d, e, f, key);
      KeyRule(d, allow, e, key);
      KeyRule(d, allow, f, key);
      R.MoreThanOne(RulesAt(d, allow, key));
    }
  }

  // ---- Violations ---------------------------------------------------------------------

  /** An exposure is not reviewed: the bucket or the port has it, and no entry admits it. */
  ghost predicate Unreviewed(d: Document, allow: Allowlist, resource: string, x: Exposure) {
    || (exists r :: DeclaresBucket(d, r, resource) && BucketExposed(d, r.name, x)
          && forall e :: e in Entries(allow) ==> !AdmitsName(e, x, "bucket", r.name))
    || (exists r, p :: DeclaresPort(d, r, p, resource) && PortExposed(d, r.name, p, x) && x.sources != []
          && forall e :: e in Entries(allow) ==> !AdmitsPortName(e, x, r, p))
  }

  ghost predicate Uncomputable(d: Document, resource: string) {
    || (exists r :: DeclaresBucket(d, r, resource) && (exists g :: ReadGrant(d, r.name, g))
          && !BucketComputable(d, r.name))
    || (exists r, p :: DeclaresPort(d, r, p, resource) && !PortComputable(d, r.name, p.name))
  }

  ghost predicate BadRange(d: Document, resource: string, c: Range) {
    && c.Malformed?
    && (|| (exists e :: e in d.grants && resource == "grant/" + e.grant.id && c in e.grant.sourceRanges)
        || (exists e :: e in d.networkRules && resource == "network_rule/" + e.rule.id && c in e.rule.sourceRanges))
  }

  ghost predicate BadBind(d: Document, resource: string, b: Bind) {
    b.NoAddress? && exists r, p :: DeclaresPort(d, r, p, resource) && p.bind == b
  }

  /** The nine classes, each with what it means for a violation of that class to be there. */
  ghost predicate Warranted(d: Document, allow: Allowlist, v: Violation) {
    match v.class_
    case "contract_version_mismatch" => d.contractVersion != "1" && v.resource == "<artifact>" && v.shown == Nothing
    case "empty_artifact" => d.resources == [] && v.resource == "<artifact>" && v.shown == Nothing
    case "missing_allowlist" => allow.None? && v.resource == "<artifact>" && v.shown == Nothing
    case "unknown_resource_type" => v.resource in d.unknownResourceTypes && v.shown == Nothing
    case "unrecognized_field" => v.resource in d.unrecognizedFields && v.shown == Nothing
    case "unparsable_source_range" => v.shown.ShownRange? && BadRange(d, v.resource, v.shown.range)
    case "unparsable_bind_address" => v.shown.ShownBind? && BadBind(d, v.resource, v.shown.bind)
    case "exposure_not_allowlisted" => v.shown.ShownExposure? && Unreviewed(d, allow, v.resource, v.shown.exposure)
    case "uncomputable_exposure" => v.shown == Nothing && Uncomputable(d, v.resource)
    case _ => false
  }

  predicate AboutArtifact(class_: string) {
    class_ in
      {"contract_version_mismatch", "empty_artifact", "missing_allowlist", "unknown_resource_type",
       "unrecognized_field"}
  }

  lemma ArtifactViolationsAre(d: Document, allow: Allowlist, v: Violation)
    ensures v in ArtifactViolations(d, allow) <==> Warranted(d, allow, v) && AboutArtifact(v.class_)
  {
    hide Unreviewed, Uncomputable, BadRange, BadBind;
  }

  lemma InputViolationsAre(d: Document, allow: Allowlist, v: Violation)
    ensures v in InputViolations(d) <==>
      Warranted(d, allow, v) && v.class_ in {"unparsable_source_range", "unparsable_bind_address"}
  {
    hide Unreviewed, Uncomputable;
    if v in InputViolations(d) { InputViolationIs(d, allow, v); }
    if v.class_ == "unparsable_bind_address" && v.shown.ShownBind? && BadBind(d, v.resource, v.shown.bind) {
      var r, p :| DeclaresPort(d, r, p, v.resource) && p.bind == v.shown.bind;
      assert v == Violation("unparsable_bind_address", PortKey(r, p), ShownBind(p.bind));
    }
  }

  lemma InputViolationIs(d: Document, allow: Allowlist, v: Violation)
    requires v in InputViolations(d)
    ensures v.class_ in {"unparsable_source_range", "unparsable_bind_address"} && Warranted(d, allow, v)
  {
    hide Unreviewed, Uncomputable;
    if v.class_ == "unparsable_bind_address" {
      var r, p :| r in d.resources && p in r.ports && r.kind == "workload" && v.resource == PortKey(r, p)
        && v.shown == ShownBind(p.bind);
      assert DeclaresPort(d, r, p, v.resource);
    }
  }

  ghost predicate IsBucketViolation(d: Document, allow: Allowlist, v: Violation) {
    exists r :: DeclaresBucket(d, r, v.resource) && BucketFault(d, allow, r, v)
  }

  ghost predicate BucketFault(d: Document, allow: Allowlist, r: Resource, v: Violation) {
    || (v.class_ == "exposure_not_allowlisted" && v.shown.ShownExposure? && BucketExposed(d, r.name, v.shown.exposure)
        && forall e :: e in Entries(allow) ==> !AdmitsName(e, v.shown.exposure, "bucket", r.name))
    || (v.class_ == "uncomputable_exposure" && v.shown == Nothing
        && (exists g :: ReadGrant(d, r.name, g)) && !BucketComputable(d, r.name))
  }

  lemma BucketViolationsAre(d: Document, allow: Allowlist, v: Violation)
    ensures v in BucketViolations(d, allow) <==> IsBucketViolation(d, allow, v)
  {
    hide BucketExposure, BucketExposed, BucketComputable, BucketGrants, BucketFault, AdmittedBucket;
    if r :| DeclaresBucket(d, r, v.resource) && BucketFault(d, allow, r, v) { BucketFaultIsListed(d, allow, r, v); }
    if v in BucketViolations(d, allow) {
      var r :| r in d.resources && r.kind == "bucket" && v.resource == "bucket/" + r.name
        && BucketListed(d, allow, r, v);
      ListedBucketIsFault(d, allow, r, v);
      assert DeclaresBucket(d, r, v.resource);
    }
  }

  ghost predicate BucketListed(d: Document, allow: Allowlist, r: Resource, v: Violation) {
    && BucketGrants(d.grants, r.name) != []
    && match BucketExposure(d, r.name)
       case Some(x) => v.class_ == "exposure_not_allowlisted" && v.shown == ShownExposure(x)
         && AdmittedBucket(d, allow, r.name) == {}
       case None => v.class_ == "uncomputable_exposure" && v.shown == Nothing
  }

  lemma BucketFaultIsListed(d: Document, allow: Allowlist, r: Resource, v: Violation)
    requires DeclaresBucket(d, r, v.resource) && BucketFault(d, allow, r, v)
    ensures v in BucketViolations(d, allow)
  {
    hide BucketExposure, BucketExposed, BucketComputable, BucketGrants, AdmittedBucket, AdmitsName, Entries, ReadGrant;
    BucketFacts(d, allow, r.name);
    if v.shown.ShownExposure? {
      BucketExposureIs(d, r.name, v.shown.exposure);
      ExposedHasGrant(d, r.name, v.shown.exposure);
    }
  }

  lemma ListedBucketIsFault(d: Document, allow: Allowlist, r: Resource, v: Violation)
    requires BucketListed(d, allow, r, v)
    ensures BucketFault(d, allow, r, v)
  {
    hide BucketExposure, BucketExposed, BucketComputable, BucketGrants, AdmittedBucket, AdmitsName, Entries, ReadGrant;
    BucketFacts(d, allow, r.name);
  }

  lemma ExposedHasGrant(d: Document, name: string, x: Exposure)
    requires BucketExposed(d, name, x)
    ensures exists g :: ReadGrant(d, name, g)
  {
  }

  lemma BucketFacts(d: Document, allow: Allowlist, name: string)
    ensures |BucketGrants(d.grants, name)| > 0 <==> exists g :: ReadGrant(d, name, g)
    ensures BucketExposure(d, name).Some? <==> BucketComputable(d, name)
    ensures BucketExposure(d, name).Some? ==>
      && BucketExposed(d, name, BucketExposure(d, name).value)
      && (AdmittedBucket(d, allow, name) == {} <==>
            forall e :: e in Entries(allow) ==> !AdmitsName(e, BucketExposure(d, name).value, "bucket", name))
  {
    hide BucketExposure, BucketExposed, BucketComputable, AdmitsBucket, AdmitsName, Entries, BucketGrants;
    var gs := BucketGrants(d.grants, name);
    BucketGrantsMeaning(d.grants, name);
    assert forall g :: g in gs <==> ReadGrant(d, name, g);
    if gs != [] { assert gs[0] in gs; }
    var x := if BucketExposure(d, name).Some? then BucketExposure(d, name).value else Exposure({}, [], {});
    BucketExposureIs(d, name, x);
    forall e ensures AdmitsName(e, x, "bucket", name) <==> AdmitsBucket(e, x, name) {
      AdmissionAlike(e, x, name, "", "");
    }
    if BucketExposure(d, name).Some? { AdmittedBucketNone(d, allow, name); }
  }

  lemma AdmittedBucketNone(d: Document, allow: Allowlist, name: string)
    requires BucketExposure(d, name).Some?
    ensures AdmittedBucket(d, allow, name) == {} <==>
      forall e :: e in Entries(allow) ==> !AdmitsBucket(e, BucketExposure(d, name).value, name)
  {
    hide BucketExposure, AdmitsBucket, Entries;
    if e :| e in Entries(allow) && AdmitsBucket(e, BucketExposure(d, name).value, name) {
      assert e.rule in AdmittedBucket(d, allow, name);
    }
  }

  lemma AdmittedPortNone(d: Document, allow: Allowlist, r: Resource, p: Port)
    requires PortExposure(d, r.name, p.name, p.bind).Some?
    ensures AdmittedPort(d, allow, r.name, p.name, p.bind) == {} <==>
      forall e :: e in Entries(allow) ==> !AdmitsPort(e, PortExposure(d, r.name, p.name, p.bind).value, r.name, p.name)
  {
    hide PortExposure, AdmitsPort, Entries;
    if e :| e in Entries(allow) && AdmitsPort(e, PortExposure(d, r.name, p.name, p.bind).value, r.name, p.name) {
      assert e.rule in AdmittedPort(d, allow, r.name, p.name, p.bind);
    }
  }

  lemma PortFacts(d: Document, allow: Allowlist, r: Resource, p: Port)
    ensures PortExposure(d, r.name, p.name, p.bind).Some? <==> PortComputable(d, r.name, p.name)
    ensures PortExposure(d, r.name, p.name, p.bind).Some? ==>
      && PortExposed(d, r.name, p, PortExposure(d, r.name, p.name, p.bind).value)
      && (AdmittedPort(d, allow, r.name, p.name, p.bind) == {} <==>
            forall e :: e in Entries(allow) ==> !AdmitsPortName(e, PortExposure(d, r.name, p.name, p.bind).value, r, p))
  {
    hide PortExposure, PortExposed, PortComputable, AdmitsPort, AdmitsName, Entries;
    var computed := PortExposure(d, r.name, p.name, p.bind);
    var x := if computed.Some? then computed.value else Exposure({}, [], {});
    PortExposureIs(d, r.name, p, x);
    if PortExposure(d, r.name, p.name, p.bind).Some? {
      PortHasNoPrincipals(d, r.name, p, x);
      forall e ensures AdmitsPortName(e, x, r, p) <==> AdmitsPort(e, x, r.name, p.name) {
        AdmissionAlike(e, x, "", r.name, p.name);
      }
      AdmittedPortNone(d, allow, r, p);
    }
  }

  ghost predicate IsPortViolation(d: Document, allow: Allowlist, v: Violation) {
    exists r, p :: DeclaresPort(d, r, p, v.resource) && PortFault(d, allow, r, p, v)
  }

  ghost predicate PortFault(d: Document, allow: Allowlist, r: Resource, p: Port, v: Violation) {
    || (v.class_ == "exposure_not_allowlisted" && v.shown.ShownExposure? && PortExposed(d, r.name, p, v.shown.exposure)
        && v.shown.exposure.sources != []
        && forall e :: e in Entries(allow) ==> !AdmitsPortName(e, v.shown.exposure, r, p))
    || (v.class_ == "uncomputable_exposure" && v.shown == Nothing && !PortComputable(d, r.name, p.name))
  }

  lemma PortViolationsAre(d: Document, allow: Allowlist, v: Violation)
    ensures v in PortViolations(d, allow) <==> IsPortViolation(d, allow, v)
  {
    hide PortExposure, PortExposed, PortComputable, PortFault, AdmittedPort;
    if r, p :| DeclaresPort(d, r, p, v.resource) && PortFault(d, allow, r, p, v) {
      PortFaultIsListed(d, allow, r, p, v);
    }
    if v in PortViolations(d, allow) {
      var r, p :| r in d.resources && p in r.ports && r.kind == "workload" && v.resource == PortKey(r, p)
        && PortListed(d, allow, r, p, v);
      ListedPortIsFault(d, allow, r, p, v);
      assert DeclaresPort(d, r, p, v.resource);
    }
  }

  ghost predicate PortListed(d: Document, allow: Allowlist, r: Resource, p: Port, v: Violation) {
    match PortExposure(d, r.name, p.name, p.bind)
    case Some(x) =>
      && v.class_ == "exposure_not_allowlisted" && v.shown == ShownExposure(x) && x.sources != []
      && AdmittedPort(d, allow, r.name, p.name, p.bind) == {}
    case None => v.class_ == "uncomputable_exposure" && v.shown == Nothing
  }

  lemma PortFaultIsListed(d: Document, allow: Allowlist, r: Resource, p: Port, v: Violation)
    requires DeclaresPort(d, r, p, v.resource) && PortFault(d, allow, r, p, v)
    ensures v in PortViolations(d, allow)
  {
    hide PortExposure, PortExposed, PortComputable, AdmittedPort, AdmitsPortName, Entries;
    PortFacts(d, allow, r, p);
    if v.shown.ShownExposure? { PortExposureIs(d, r.name, p, v.shown.exposure); }
  }

  lemma ListedPortIsFault(d: Document, allow: Allowlist, r: Resource, p: Port, v: Violation)
    requires PortListed(d, allow, r, p, v)
    ensures PortFault(d, allow, r, p, v)
  {
    hide PortExposure, PortExposed, PortComputable, AdmittedPort, AdmitsPortName, Entries;
    PortFacts(d, allow, r, p);
  }

  /** The answer's violations are the warranted ones, each of its own class and resource, and
      it admits exactly when there is none. */
  lemma ViolationsAre(d: Document, allow: Allowlist, v: Violation)
    requires Decide(d, allow).Answer?
    ensures v in Decide(d, allow).violations <==> Warranted(d, allow, v)
    ensures Warranted(d, allow, v) ==> Decide(d, allow).result == "deny"
  {
    hide ArtifactViolations, InputViolations, BucketViolations, PortViolations, Exposures, Unreviewed,
      Uncomputable, BadRange, BadBind, IsBucketViolation, IsPortViolation, Conflicts;
    ArtifactViolationsAre(d, allow, v);
    InputViolationsAre(d, allow, v);
    BucketViolationsAre(d, allow, v);
    PortViolationsAre(d, allow, v);
    TwoWays(d, allow, v);
    if v in Violations(d, allow) { assert |Violations(d, allow)| > 0; }
  }

  lemma TwoWays(d: Document, allow: Allowlist, v: Violation)
    ensures IsBucketViolation(d, allow, v) || IsPortViolation(d, allow, v) <==>
      Warranted(d, allow, v) && v.class_ in {"exposure_not_allowlisted", "uncomputable_exposure"}
  {
    hide BucketExposed, BucketComputable, PortExposed, PortComputable, AdmitsName, AdmitsPortName, Entries,
      ReadGrant, DeclaresBucket, DeclaresPort;
  }

  /** It denies exactly when some violation is warranted, and otherwise admits. */
  lemma DenialIsWarranted(d: Document, allow: Allowlist)
    requires Decide(d, allow).Answer?
    ensures Decide(d, allow).result == "deny" <==> exists v :: Warranted(d, allow, v)
    ensures Decide(d, allow).result == "admit" <==> !exists v :: Warranted(d, allow, v)
  {
    hide Violations, Exposures, Warranted, Conflicts;
    var vs := Violations(d, allow);
    if v :| v in vs { ViolationsAre(d, allow, v); } else { assert vs == {}; }
    forall v | Warranted(d, allow, v) ensures v in vs { ViolationsAre(d, allow, v); }
  }

  // ---- Rows ---------------------------------------------------------------------------

  /** A row of the answer: a declared resource, its exposure, what that lets show, and the
      rules of the entries that admit the resource. */
  ghost predicate IsRow(d: Document, allow: Allowlist, row: Row) {
    && (|| (exists r :: DeclaresBucket(d, r, row.resource) && BucketExposed(d, r.name, row.computed))
        || (exists r, p :: DeclaresPort(d, r, p, row.resource) && PortExposed(d, r.name, p, row.computed)))
    && row.reachability.sources == row.computed.sources
    && row.reachability.principals == (if "*" in row.computed.principals then {"*"} else row.computed.principals)
    && forall rule :: rule in row.admittedBy <==>
      exists e :: e in Entries(allow) && e.rule == rule && AdmitsKey(d, e, row.resource)
  }

  ghost predicate IsBucketRow(d: Document, allow: Allowlist, r: Resource, row: Row) {
    r.kind == "bucket" && BucketExposure(d, r.name).Some? && row == BucketRow(d, allow, r)
  }

  lemma RowsAre(d: Document, allow: Allowlist, row: Row)
    requires Decide(d, allow).Answer?
    ensures row in Decide(d, allow).exposures <==> IsRow(d, allow, row)
  {
    hide BucketExposure, PortExposure, BucketExposed, PortExposed, RulesAt, AdmitsKey, Entries, Violations, Conflicts;
    RulesOfRow(d, allow, row);
    if row in Exposures(d, allow) {
      if r :| r in d.resources && IsBucketRow(d, allow, r, row) {
        BucketExposureIs(d, r.name, row.computed);
        assert DeclaresBucket(d, r, row.resource);
      } else {
        var r, p :| r in d.resources && r.kind == "workload" && p in r.ports
          && PortExposure(d, r.name, p.name, p.bind).Some? && row == PortRow(d, allow, r, p);
        PortExposureIs(d, r.name, p, row.computed);
        assert DeclaresPort(d, r, p, row.resource);
      }
    }
    if IsRow(d, allow, row) {
      if r :| DeclaresBucket(d, r, row.resource) && BucketExposed(d, r.name, row.computed) {
        BucketExposureIs(d, r.name, row.computed);
        assert row == BucketRow(d, allow, r);
      } else {
        var r, p :| DeclaresPort(d, r, p, row.resource) && PortExposed(d, r.name, p, row.computed);
        PortExposureIs(d, r.name, p, row.computed);
        assert row == PortRow(d, allow, r, p);
      }
    }
  }

  lemma RulesOfRow(d: Document, allow: Allowlist, row: Row)
    ensures row.admittedBy == RulesAt(d, allow, row.resource) <==>
      forall rule :: rule in row.admittedBy <==>
        exists e :: e in Entries(allow) && e.rule == rule && AdmitsKey(d, e, row.resource)
  {
    hide RulesAt, AdmitsKey, Entries;
    forall rule
      ensures rule in RulesAt(d, allow, row.resource) <==>
        exists e :: e in Entries(allow) && e.rule == rule && AdmitsKey(d, e, row.resource)
    {
      RulesAtAre(d, allow, row.resource, rule);
    }
  }
}
