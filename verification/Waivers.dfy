/** The waiver reconciliation pass on accumulated step results (pkg/gate/step_waiver.go). */
module Waivers {
  import opened Seqs
  import opened Findings

  datatype Finding = Finding(rule: Rule, file: string, line: int, severity: string)
  datatype Waiver = Waiver(rule: Rule, reason: string, expiry: int)
  datatype Diagnostic = Diagnostic(rule: Rule, file: string, line: int, message: string)

  datatype Adjudication = Adjudication(suppressed: seq<Finding>, active: seq<Waiver>,
                                       malformed: seq<Diagnostic>, nonWaivable: seq<Diagnostic>)

  /** The runtime inputs of the pass.  Adjudication (source bytes, clock, declared tier) and
      the pre-filled token are arbitrary functions; `unbound` is the tree-driven scan. */
  datatype Inputs = Inputs(adjudicate: seq<Finding> -> Adjudication,
                           unbound: seq<Diagnostic>,
                           prefill: (StepName, Violation) -> Option<string>)

  /** findingKey */
  datatype Key = Key(file: string, line: int, rule: Rule)

  const ANNOTATION_LINE := 1

  predicate WaivableDimension(step: StepName) {
    step.PackEngines? || step.TestSubstantiveness?
  }

  /** The waivable surface: code-located dimensions, and coverage through its first line. */
  predicate OnSurface(step: StepName) {
    WaivableDimension(step) || step.CoverageThreshold?
  }

  function KeyLine(step: StepName, v: Violation): int {
    if WaivableDimension(step) then v.line else ANNOTATION_LINE
  }

  function KeyOf(step: StepName, v: Violation): Key {
    Key(v.file, KeyLine(step, v), v.rule)
  }

  function AsFinding(step: StepName): Violation -> Finding {
    (v: Violation) => Finding(v.rule, v.file, KeyLine(step, v), v.severity)
  }

  const SURFACE: StepResult -> seq<Finding> :=
    (s: StepResult) => if OnSurface(s.stepName) then Map(AsFinding(s.stepName), s.violations) else []

  /** Everything adjudication gets to see. */
  function Offered(steps: seq<StepResult>): seq<Finding> {
    FlatMap(SURFACE, steps)
  }

  function Suppressions(fs: seq<Finding>): set<Key> {
    set f | f in fs :: Key(f.file, f.line, f.rule)
  }

  function Survives(step: StepName, sup: set<Key>): Violation -> bool {
    v => KeyOf(step, v) !in sup
  }

  function Hinted(step: StepName, prefill: (StepName, Violation) -> Option<string>): Violation -> Violation {
    (v: Violation) =>
      var token := prefill(step, v);
      if token.Some? then v.(waiverHint := token.value) else v
  }

  function Remaining(s: StepResult, sup: set<Key>): seq<Violation> {
    Filter(Survives(s.stepName, sup), s.violations)
  }

  function WaivedStep(s: StepResult, sup: set<Key>, prefill: (StepName, Violation) -> Option<string>): StepResult {
    if !OnSurface(s.stepName) then s
    else
      var kept := Map(Hinted(s.stepName, prefill), Remaining(s, sup));
      s.(violations := kept,
         status := if kept == [] && s.status.Fail? then Pass
                   else if |kept| < |s.violations| && s.status.Fail? && !s.configErr then StepVerdict(kept)
                   else s.status)
  }

  function Waived(sup: set<Key>, prefill: (StepName, Violation) -> Option<string>): StepResult -> StepResult {
    s => WaivedStep(s, sup, prefill)
  }

  function AsViolation(severity: string): Diagnostic -> Violation {
    (d: Diagnostic) => Report(d.rule, d.file, Text(d.message), severity).(line := d.line)
  }

  function Diagnostics(adj: Adjudication, unbound: seq<Diagnostic>): seq<Violation> {
    Map(AsViolation("error"), adj.malformed) + Map(AsViolation("error"), adj.nonWaivable)
    + Map(AsViolation("warning"), unbound)
  }

  function WaiverStep(adj: Adjudication, unbound: seq<Diagnostic>): StepResult {
    Produced(WaiverResolution, StepVerdict(Diagnostics(adj, unbound)), Diagnostics(adj, unbound))
  }

  // ---------------------------------------------------------------- the loops of the pass

  method CollectFindings(steps: seq<StepResult>) returns (findings: seq<Finding>)
    ensures findings == Offered(steps)
  {
    findings := [];
    for i := 0 to |steps|
      invariant findings == Offered(steps[..i])
    {
      PrefixStep(steps, i);
      FlatMapSnoc(SURFACE, steps[..i], steps[i]);
      if OnSurface(steps[i].stepName) {
        var offered := FindingsOf(steps[i].stepName, steps[i].violations);
        findings := findings + offered;
      }
    }
    assert steps[..|steps|] == steps;
  }

  method FindingsOf(step: StepName, vs: seq<Violation>) returns (fs: seq<Finding>)
    ensures fs == Map(AsFinding(step), vs)
  {
    fs := [];
    for j := 0 to |vs|
      invariant fs == Map(AsFinding(step), vs[..j])
    {
      PrefixStep(vs, j);
      var line := if WaivableDimension(step) then vs[j].line else ANNOTATION_LINE;
      fs := fs + [Finding(vs[j].rule, vs[j].file, line, vs[j].severity)];
    }
    assert vs[..|vs|] == vs;
  }

  method CollectSuppressions(fs: seq<Finding>) returns (sup: set<Key>)
    ensures sup == Suppressions(fs)
  {
    sup := {};
    for i := 0 to |fs|
      invariant sup == Suppressions(fs[..i])
    {
      PrefixStep(fs, i);
      sup := sup + {Key(fs[i].file, fs[i].line, fs[i].rule)};
    }
    assert fs[..|fs|] == fs;
  }

  method SubtractFrom(s: StepResult, sup: set<Key>, prefill: (StepName, Violation) -> Option<string>)
    returns (r: StepResult)
    ensures r == WaivedStep(s, sup, prefill)
  {
    if !OnSurface(s.stepName) {
      return s;
    }
    var kept: seq<Violation> := [];
    for i := 0 to |s.violations|
      invariant kept == Map(Hinted(s.stepName, prefill), Filter(Survives(s.stepName, sup), s.violations[..i]))
    {
      var v := s.violations[i];
      PrefixStep(s.violations, i);
      FilterSnoc(Survives(s.stepName, sup), s.violations[..i], v);
      if KeyOf(s.stepName, v) in sup {
        continue;
      }
      MapSnoc(Hinted(s.stepName, prefill), Filter(Survives(s.stepName, sup), s.violations[..i]), v);
      var token := prefill(s.stepName, v);
      if token.Some? {
        v := v.(waiverHint := token.value);
      }
      kept := kept + [v];
    }
    assert s.violations[..|s.violations|] == s.violations;
    var removed := |kept| < |s.violations|;
    r := s.(violations := kept);
    if |kept| == 0 && s.status.Fail? {
      r := r.(status := Pass);
    } else if removed && s.status.Fail? && !s.configErr {
      r := r.(status := StepVerdict(kept));
    }
  }

  method CollectDiagnostics(adj: Adjudication, unbound: seq<Diagnostic>) returns (wv: seq<Violation>)
    ensures wv == Diagnostics(adj, unbound)
  {
    var malformed := ConvertDiagnostics(adj.malformed, "error");
    var nonWaivable := ConvertDiagnostics(adj.nonWaivable, "error");
    var loud := ConvertDiagnostics(unbound, "warning");
    wv := malformed + nonWaivable + loud;
  }

  method ConvertDiagnostics(ds: seq<Diagnostic>, severity: string) returns (vs: seq<Violation>)
    ensures vs == Map(AsViolation(severity), ds)
  {
    vs := [];
    for i := 0 to |ds|
      invariant vs == Map(AsViolation(severity), ds[..i])
    {
      PrefixStep(ds, i);
      vs := vs + [Report(ds[i].rule, ds[i].file, Text(ds[i].message), severity).(line := ds[i].line)];
    }
    assert ds[..|ds|] == ds;
  }

  // ---------------------------------------------------------------- what the pass keeps

  /** The step contract of every producer: a step fails iff it holds a blocking finding. */
  ghost predicate Honest(s: StepResult) {
    s.status == Fail <==> HasBlocking(s.violations)
  }

  lemma HintsDoNotBlock(step: StepName, prefill: (StepName, Violation) -> Option<string>, vs: seq<Violation>)
    ensures HasBlocking(Map(Hinted(step, prefill), vs)) <==> HasBlocking(vs)
  {
    var ws := Map(Hinted(step, prefill), vs);
    if HasBlocking(ws) {
      var w :| w in ws && BlocksVerdict(w);
      var i :| 0 <= i < |ws| && ws[i] == w;
      assert vs[i] in vs && BlocksVerdict(vs[i]);
    }
    if HasBlocking(vs) {
      var v :| v in vs && BlocksVerdict(v);
      var i :| 0 <= i < |vs| && vs[i] == v;
      assert ws[i] in ws && BlocksVerdict(ws[i]);
    }
  }

  lemma {:induction false} FilterShrinks<T>(p: T -> bool, s: seq<T>)
    ensures |Filter(p, s)| <= |s|
    ensures |Filter(p, s)| == |s| ==> Filter(p, s) == s
  {
    if s != [] {
      FilterShrinks(p, s[..|s| - 1]);
      assert s == s[..|s| - 1] + [s[|s| - 1]];
    }
  }

  /** Waiving keeps "fails iff a blocking finding remains" on every step it rewrites. */
  lemma WaivingStaysHonest(s: StepResult, sup: set<Key>, prefill: (StepName, Violation) -> Option<string>)
    requires Honest(s) && !s.configErr
    ensures Honest(WaivedStep(s, sup, prefill))
    ensures OnSurface(s.stepName) ==>
      (WaivedStep(s, sup, prefill).status == Fail <==> HasBlocking(Remaining(s, sup)))
  {
    if OnSurface(s.stepName) {
      var left := Remaining(s, sup);
      HintsDoNotBlock(s.stepName, prefill, left);
      StepVerdictMeaning(Map(Hinted(s.stepName, prefill), left));
      FilterShrinks(Survives(s.stepName, sup), s.violations);
      FilterMembers(Survives(s.stepName, sup), s.violations);
    }
  }

  /** For a step that starts at the verdict on its findings: whether the pass leaves it at the
      verdict on what remains.  It does not in exactly two cases.  A warning step waived empty
      keeps its warning, and a config error reduced to warnings keeps its fail. */
  lemma WaivedStatusExact(s: StepResult, sup: set<Key>, prefill: (StepName, Violation) -> Option<string>)
    requires OnSurface(s.stepName) && s.status == StepVerdict(s.violations)
    ensures var w, left := WaivedStep(s, sup, prefill), Remaining(s, sup);
      w.status == StepVerdict(w.violations) <==>
        (&& !(s.status == Warning && left == [])
         && !(s.status == Fail && s.configErr && left != [] && !HasBlocking(left)))
  {
    var left := Remaining(s, sup);
    HintsDoNotBlock(s.stepName, prefill, left);
    StepVerdictMeaning(s.violations);
    StepVerdictMeaning(Map(Hinted(s.stepName, prefill), left));
    FilterShrinks(Survives(s.stepName, sup), s.violations);
    FilterMembers(Survives(s.stepName, sup), s.violations);
  }

  /** One waived warning: the step still says warning, with nothing left to show for it. */
  lemma WaivedWarningStaysWarning(v: Violation, prefill: (StepName, Violation) -> Option<string>)
    requires !BlocksVerdict(v)
    ensures
      var s := Produced(PackEngines, StepVerdict([v]), [v]);
      var w := WaivedStep(s, {KeyOf(PackEngines, v)}, prefill);
      s.status == Warning && w.violations == [] && w.status == Warning && StepVerdict(w.violations) == Pass
  {
    var s := Produced(PackEngines, StepVerdict([v]), [v]);
    StepVerdictMeaning([v]);
    FilterSnoc(Survives(PackEngines, {KeyOf(PackEngines, v)}), [], v);
    assert [] + [v] == [v];
    assert Remaining(s, {KeyOf(PackEngines, v)}) == [];
  }
}
