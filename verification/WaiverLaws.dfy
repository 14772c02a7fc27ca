/** The waiver pass read off a single finding: what adjudication is offered, what is removed, what stays,
    and what the waiver step reports. */
module WaiverLaws {
  import opened Seqs
  import opened Findings
  import opened Waivers
  import opened Gates

  /** What adjudication sees of one step: pack findings and substantiveness findings where they are,
      coverage findings at line 1, and nothing else. */
  ghost predicate OfferedBy(s: StepResult, f: Finding) {
    match s.stepName
    case PackEngines => exists v :: v in s.violations && f == Finding(v.rule, v.file, v.line, v.severity)
    case TestSubstantiveness => exists v :: v in s.violations && f == Finding(v.rule, v.file, v.line, v.severity)
    case CoverageThreshold => exists v :: v in s.violations && f == Finding(v.rule, v.file, 1, v.severity)
    case _ => false
  }

  lemma OfferedMeaning(results: seq<StepResult>, f: Finding)
    ensures f in Offered(results) <==> exists s :: s in results && OfferedBy(s, f)
  {
    FlatMapMember(SURFACE, results, f);
    forall s | s in results ensures f in SURFACE(s) <==> OfferedBy(s, f) {
      OfferedOne(s, f);
    }
  }

  lemma OfferedOne(s: StepResult, f: Finding)
    ensures f in SURFACE(s) <==> OfferedBy(s, f)
  {
    if OnSurface(s.stepName) {
      var fs := Map(AsFinding(s.stepName), s.violations);
      if f in fs {
        var i :| 0 <= i < |fs| && fs[i] == f;
        assert s.violations[i] in s.violations;
      }
      if v :| v in s.violations && AsFinding(s.stepName)(v) == f {
        var i :| 0 <= i < |s.violations| && s.violations[i] == v;
        assert fs[i] in fs;
      }
    }
  }

  /** Adjudication suppressed a finding of that step at its place. */
  ghost predicate SuppressedIn(step: StepName, suppressed: seq<Finding>, v: Violation) {
    match step
    case PackEngines => exists f :: f in suppressed && f.file == v.file && f.line == v.line && f.rule == v.rule
    case TestSubstantiveness => exists f :: f in suppressed && f.file == v.file && f.line == v.line && f.rule == v.rule
    case CoverageThreshold => exists f :: f in suppressed && f.file == v.file && f.line == 1 && f.rule == v.rule
    case _ => false
  }

  lemma SuppressedMeaning(step: StepName, suppressed: seq<Finding>, v: Violation)
    requires OnSurface(step)
    ensures KeyOf(step, v) in Suppressions(suppressed) <==> SuppressedIn(step, suppressed, v)
  {
  }

  function Unhint(v: Violation): Violation {
    v.(waiverHint := "")
  }

  /** It is still reported, perhaps with a hint for its author. */
  ghost predicate StillReported(s: StepResult, v: Violation) {
    exists u :: u in s.violations && Unhint(u) == Unhint(v)
  }

  lemma HintsOnly(step: StepName, prefill: (StepName, Violation) -> Option<string>, v: Violation)
    ensures Unhint(Hinted(step, prefill)(v)) == Unhint(v)
  {
  }

  /** After the pass a finding of pack_engines or test_substantiveness remains iff nothing suppressed has
      its file, line and rule; one of coverage_threshold, iff nothing suppressed has its file, its rule
      and line 1; a finding of any other step always remains. */
  lemma RemainsExactly(cfg: Config, results: seq<StepResult>, i: nat, v: Violation)
    requires i < |results| && v in results[i].violations
    ensures var suppressed := cfg.waiver.adjudicate(Offered(results)).suppressed;
      StillReported(WaivedResults(cfg, results)[i], v) <==> !SuppressedIn(results[i].stepName, suppressed, v)
  {
    var s, sup := results[i], SuppressedKeys(cfg, results);
    if OnSurface(s.stepName) {
      RemainsOnSurface(s, sup, cfg.waiver.prefill, v);
      SuppressedMeaning(s.stepName, Adjudicated(cfg, results).suppressed, v);
    } else {
      assert WaivedResults(cfg, results)[i] == s;
    }
  }

  lemma RemainsOnSurface(s: StepResult, sup: set<Key>, prefill: (StepName, Violation) -> Option<string>, v: Violation)
    requires OnSurface(s.stepName) && v in s.violations
    ensures StillReported(WaivedStep(s, sup, prefill), v) <==> KeyOf(s.stepName, v) !in sup
  {
    var left, kept := Remaining(s, sup), WaivedStep(s, sup, prefill).violations;
    FilterMembers(Survives(s.stepName, sup), s.violations);
    if u :| u in kept && Unhint(u) == Unhint(v) {
      var j :| 0 <= j < |kept| && kept[j] == u;
      HintsOnly(s.stepName, prefill, left[j]);
      SameKey(s.stepName, left[j], v);
      assert left[j] in left;
    }
    if v in left {
      var j :| 0 <= j < |left| && left[j] == v;
      HintsOnly(s.stepName, prefill, v);
      assert kept[j] in kept;
    }
  }

  lemma SameKey(step: StepName, v: Violation, w: Violation)
    requires Unhint(v) == Unhint(w)
    ensures KeyOf(step, v) == KeyOf(step, w)
  {
    assert v.file == Unhint(v).file && v.line == Unhint(v).line && v.rule == Unhint(v).rule;
    assert w.file == Unhint(w).file && w.line == Unhint(w).line && w.rule == Unhint(w).rule;
  }

  /** Nothing is invented: whatever a step reports after the pass it reported before, up to its hint. */
  lemma NothingInvented(cfg: Config, results: seq<StepResult>, i: nat, u: Violation)
    requires i < |results| && u in WaivedResults(cfg, results)[i].violations
    ensures exists v :: v in results[i].violations && Unhint(v) == Unhint(u)
  {
    var s, sup := results[i], SuppressedKeys(cfg, results);
    if OnSurface(s.stepName) {
      var left, kept := Remaining(s, sup), WaivedStep(s, sup, cfg.waiver.prefill).violations;
      FilterMembers(Survives(s.stepName, sup), s.violations);
      var j :| 0 <= j < |kept| && kept[j] == u;
      HintsOnly(s.stepName, cfg.waiver.prefill, left[j]);
      assert left[j] in left;
    }
  }

  /** Steps other than the three are left exactly as they were. */
  lemma OthersUntouched(cfg: Config, results: seq<StepResult>, i: nat)
    requires i < |results| && results[i].stepName !in [PackEngines, TestSubstantiveness, CoverageThreshold]
    ensures WaivedResults(cfg, results)[i] == results[i]
  {
  }

  /** On the three, a step that failed on its blocking findings fails afterwards iff one of them was not
      suppressed. */
  lemma FailsIffUnsuppressed(cfg: Config, results: seq<StepResult>, i: nat)
    requires i < |results| && !results[i].configErr
    requires results[i].status == Fail <==> exists v :: v in results[i].violations && BlocksVerdict(v)
    ensures var suppressed := cfg.waiver.adjudicate(Offered(results)).suppressed;
      WaivedResults(cfg, results)[i].status == Fail <==>
        exists v :: v in results[i].violations && BlocksVerdict(v) && !SuppressedIn(results[i].stepName, suppressed, v)
  {
    var s, sup := results[i], SuppressedKeys(cfg, results);
    WaivingStaysHonest(s, sup, cfg.waiver.prefill);
    if OnSurface(s.stepName) {
      FilterMembers(Survives(s.stepName, sup), s.violations);
      var suppressed := Adjudicated(cfg, results).suppressed;
      forall v ensures KeyOf(s.stepName, v) in sup <==> SuppressedIn(s.stepName, suppressed, v) {
        SuppressedMeaning(s.stepName, suppressed, v);
      }
    }
  }

  /** The waiver step reports malformed and non-waivable tokens as errors, unbound ones as warnings, each
      where it stands, and so fails iff there is one of the first two kinds. */
  lemma DiagnosticsMeaning(adj: Adjudication, unbound: seq<Diagnostic>, d: Diagnostic, severity: string)
    ensures Report(d.rule, d.file, Text(d.message), severity).(line := d.line) in WaiverStep(adj, unbound).violations
       <==>
         (|| (severity == "error" && (d in adj.malformed || d in adj.nonWaivable))
          || (severity == "warning" && d in unbound))
  {
    var v := Report(d.rule, d.file, Text(d.message), severity).(line := d.line);
    ReportedAs(adj.malformed, "error", d, severity);
    ReportedAs(adj.nonWaivable, "error", d, severity);
    ReportedAs(unbound, "warning", d, severity);
    var a, b := Map(AsViolation("error"), adj.malformed), Map(AsViolation("error"), adj.nonWaivable);
    var c := Map(AsViolation("warning"), unbound);
    assert v in WaiverStep(adj, unbound).violations <==> v in a || v in b || v in c;
  }

  lemma ReportedAs(ds: seq<Diagnostic>, written: string, d: Diagnostic, severity: string)
    ensures Report(d.rule, d.file, Text(d.message), severity).(line := d.line) in Map(AsViolation(written), ds)
       <==> d in ds && severity == written
  {
    var vs, v := Map(AsViolation(written), ds), Report(d.rule, d.file, Text(d.message), severity).(line := d.line);
    if v in vs {
      var i :| 0 <= i < |vs| && vs[i] == v;
      assert ds[i] == Diagnostic(v.rule, v.file, v.line, v.message.text);
    }
    if d in ds && severity == written {
      var i :| 0 <= i < |ds| && ds[i] == d;
      assert vs[i] in vs;
    }
  }

  lemma WaiverStepFails(adj: Adjudication, unbound: seq<Diagnostic>)
    ensures WaiverStep(adj, unbound).status == Fail <==> adj.malformed != [] || adj.nonWaivable != []
    ensures WaiverStep(adj, unbound).status == Pass <==> adj.malformed == [] && adj.nonWaivable == [] && unbound == []
  {
    var vs := Diagnostics(adj, unbound);
    StepVerdictMeaning(vs);
    var a, b := Map(AsViolation("error"), adj.malformed), Map(AsViolation("error"), adj.nonWaivable);
    var c := Map(AsViolation("warning"), unbound);
    forall v ensures v in vs <==> v in a || v in b || v in c {}
    forall v | v in a || v in b ensures BlocksVerdict(v) { ErrorBlocks(v); }
    forall v | v in c ensures !BlocksVerdict(v) { ErrorBlocks(v); }
    if adj.malformed != [] { assert a[0] in a; }
    if adj.nonWaivable != [] { assert b[0] in b; }
  }

  /** What remains carries the token its author can paste, when there is one. */
  lemma HintsGiven(cfg: Config, results: seq<StepResult>, i: nat, v: Violation)
    requires i < |results| && v in results[i].violations
    requires results[i].stepName in [PackEngines, TestSubstantiveness, CoverageThreshold]
    requires !SuppressedIn(results[i].stepName, cfg.waiver.adjudicate(Offered(results)).suppressed, v)
    ensures var token := cfg.waiver.prefill(results[i].stepName, v);
      (if token.Some? then v.(waiverHint := token.value) else v) in WaivedResults(cfg, results)[i].violations
  {
    var s, sup := results[i], SuppressedKeys(cfg, results);
    SuppressedMeaning(s.stepName, Adjudicated(cfg, results).suppressed, v);
    FilterMembers(Survives(s.stepName, sup), s.violations);
    MapMember(Hinted(s.stepName, cfg.waiver.prefill), Remaining(s, sup), Hinted(s.stepName, cfg.waiver.prefill)(v));
  }
}
