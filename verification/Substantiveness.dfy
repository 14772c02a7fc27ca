/** The substantiveness step: routing, the no-target join in two passes, and the evidence
    refusal (pkg/gate/substantiveness_join.go, cmd/backstop/gate.go). */
module Substantiveness {
  import opened Seqs
  import opened Paths
  import opened Findings
  import opened Scopes
  import opened Artifacts
  import opened Dispatch
  import StatusDrift

  // ---------------------------------------------------------------- routing

  function Property(v: Violation, key: string): string {
    if key in v.properties then v.properties[key] else ""
  }

  const ROLE := "substantiveness_role"
  const HOLLOW := "hollow"
  const REFERENCED := "referenced-symbol"

  function WithRole(role: string): Violation -> bool {
    (v: Violation) => Property(v, ROLE) == role
  }

  /** RouteSubstantivenessFindings */
  method RouteSubstantivenessFindings(vs: seq<Violation>) returns (hollow: seq<Violation>, extraction: seq<Violation>)
    ensures hollow == Filter(WithRole(HOLLOW), vs) && extraction == Filter(WithRole(REFERENCED), vs)
  {
    hollow, extraction := [], [];
    for i := 0 to |vs|
      invariant hollow == Filter(WithRole(HOLLOW), vs[..i]) && extraction == Filter(WithRole(REFERENCED), vs[..i])
    {
      PrefixStep(vs, i);
      FilterSnoc(WithRole(HOLLOW), vs[..i], vs[i]);
      FilterSnoc(WithRole(REFERENCED), vs[..i], vs[i]);
      var role := Property(vs[i], ROLE);
      if role == HOLLOW {
        assert |HOLLOW| != |REFERENCED|;
        hollow := hollow + [vs[i]];
      } else if role == REFERENCED {
        extraction := extraction + [vs[i]];
      }
    }
    assert vs[..|vs|] == vs;
  }

  /** The text before the first occurrence of a token. */
  function Before(s: string, token: string): string {
    if token <= s || s == "" then "" else [s[0]] + Before(s[1..], token)
  }

  function TrimRight(s: string): string {
    if s != "" && (s[|s| - 1] == ' ' || s[|s| - 1] == '\t') then TrimRight(s[..|s| - 1]) else s
  }

  function StripFuncToken(m: Message): Message {
    if m.Text? then Text(TrimRight(Before(Before(m.text, " func="), " symbol="))) else m
  }

  /** HollowFindingsToViolations, on one finding: severity and line are forwarded. */
  const HOLLOWED: Violation -> Violation :=
    (v: Violation) =>
      Report(OfStep(TestSubstantiveness), NormalizePath("", v.file), StripFuncToken(v.message), v.severity)
        .(line := v.line)

  function InHollowScope(scope: Scope): Violation -> bool {
    (v: Violation) => Whole(scope) || v.file == "" || Contains(scope, v.file)
  }

  method HollowViolations(hollow: seq<Violation>, scope: Scope) returns (vs: seq<Violation>)
    ensures vs == Filter(InHollowScope(scope), Map(HOLLOWED, hollow))
  {
    vs := [];
    for i := 0 to |hollow|
      invariant vs == Filter(InHollowScope(scope), Map(HOLLOWED, hollow[..i]))
    {
      PrefixStep(hollow, i);
      MapSnoc(HOLLOWED, hollow[..i], hollow[i]);
      FilterSnoc(InHollowScope(scope), Map(HOLLOWED, hollow[..i]), HOLLOWED(hollow[i]));
      var v := HOLLOWED(hollow[i]);
      if !Whole(scope) && v.file != "" && !Contains(scope, v.file) {
        continue;
      }
      vs := vs + [v];
    }
    assert hollow[..|hollow|] == hollow;
  }

  // ---------------------------------------------------------------- the no-target decision table

  predicate SameFile(a: string, b: string) {
    a != "" && b != "" && (Clean(a) == Clean(b) || Base(Clean(a)) == Base(Clean(b)))
  }

  /** testFileColocatedWithTarget */
  predicate Colocated(filePath: string, targetPkg: string) {
    targetPkg != "" && Base(Dir(filePath)) == targetPkg
  }

  predicate Refers(mt: MandatedTest, v: Violation) {
    SameFile(v.file, mt.filePath) && Property(v, "func") == mt.funcName && Property(v, "symbol") != ""
  }

  function Referenced(extraction: seq<Violation>, mt: MandatedTest): set<string> {
    set v | v in extraction && Refers(mt, v) :: Property(v, "symbol")
  }

  /** ReferencedSetForTest */
  method ReferencedSetForTest(extraction: seq<Violation>, mt: MandatedTest) returns (symbols: set<string>)
    ensures symbols == Referenced(extraction, mt)
  {
    symbols := {};
    for i := 0 to |extraction|
      invariant symbols == Referenced(extraction[..i], mt)
    {
      PrefixStep(extraction, i);
      var v := extraction[i];
      if !SameFile(v.file, mt.filePath) {
        continue;
      }
      if Property(v, "func") != mt.funcName {
        continue;
      }
      if Property(v, "symbol") != "" {
        symbols := symbols + {Property(v, "symbol")};
      }
    }
    assert extraction[..|extraction|] == extraction;
  }

  /** NoTargetViolation */
  function NoTargetViolation(funcName: string, targetPkg: string, referenced: set<string>,
                             samePackage: bool): Option<Violation> {
    if targetPkg == "" then None
    else if samePackage then None
    else if targetPkg in referenced then None
    else Some(Report(OfStep(TestSubstantiveness), "", NoTarget(funcName, targetPkg), "error"))
  }

  function NoTargetViolationForTest(mt: MandatedTest, referenced: set<string>, samePackage: bool): Option<Violation> {
    if mt.isAbsence then None else NoTargetViolation(mt.funcName, mt.targetPkg, referenced, samePackage)
  }

  /** JoinEligibleForNoTarget: would an empty evidence set raise? */
  predicate JoinEligible(mt: MandatedTest) {
    NoTargetViolationForTest(mt, {}, Colocated(mt.filePath, mt.targetPkg)).Some?
  }

  /** The reference: judge every resolved, in-scope test directly. */
  function Judged(extraction: seq<Violation>): MandatedTest -> seq<Violation> {
    (mt: MandatedTest) =>
      var verdict := NoTargetViolationForTest(mt, Referenced(extraction, mt), Colocated(mt.filePath, mt.targetPkg));
      if verdict.Some? then [verdict.value.(file := mt.filePath)] else []
  }

  function Considered(scope: Scope): MandatedTest -> bool {
    (mt: MandatedTest) => mt.filePath != "" && (Whole(scope) || Contains(scope, mt.filePath))
  }

  function SinglePass(mandated: seq<MandatedTest>, extraction: seq<Violation>, scope: Scope): seq<Violation> {
    FlatMap(Judged(extraction), Filter(Considered(scope), mandated))
  }

  const ELIGIBLE: MandatedTest -> bool := (mt: MandatedTest) => JoinEligible(mt)

  /** SubstantivenessEvidenceRefusal */
  function EvidenceRefusal(eligible: nat, extraction: nat, hollow: nat): Option<Violation> {
    if eligible < 1 || extraction > 0 || hollow > 0 then None
    else Some(Report(OfStep(TestSubstantiveness), "", Message.EvidenceRefusal(eligible), "error"))
  }

  // ---------------------------------------------------------------- the join

  /** The join as the single pass would define it: with no evidence of any kind and a verdict
      at stake it refuses, naming how many; otherwise it reports everything. */
  function JoinOutcome(flat: seq<Violation>, mandated: seq<MandatedTest>, scope: Scope): StepResult {
    var hollow, extraction := Filter(WithRole(HOLLOW), flat), Filter(WithRole(REFERENCED), flat);
    var raised := SinglePass(mandated, extraction, scope);
    if hollow == [] && extraction == [] && raised != [] then
      Produced(TestSubstantiveness, Fail,
               [Report(OfStep(TestSubstantiveness), "", Message.EvidenceRefusal(|raised|), "error")])
        .(configErr := true)
    else
      var vs := Filter(InHollowScope(scope), Map(HOLLOWED, hollow)) + raised;
      Produced(TestSubstantiveness, StepVerdict(vs), vs)
  }

  lemma EligibleRaises(extraction: seq<Violation>, mt: MandatedTest)
    ensures !JoinEligible(mt) ==> Judged(extraction)(mt) == []
    ensures JoinEligible(mt) && extraction == [] ==> |Judged(extraction)(mt)| == 1
  {
  }

  lemma {:induction false} OneEach(tests: seq<MandatedTest>)
    requires forall mt :: mt in tests ==> JoinEligible(mt)
    ensures |FlatMap(Judged([]), tests)| == |tests|
  {
    if tests != [] {
      assert forall mt :: mt in tests[..|tests| - 1] ==> mt in tests;
      assert tests[|tests| - 1] in tests;
      OneEach(tests[..|tests| - 1]);
      EligibleRaises([], tests[|tests| - 1]);
    }
  }

  /** Collecting eligible tests first is the single pass, and with no extraction evidence their
      number is the number it would have raised. */
  lemma TwoPassesAreOne(mandated: seq<MandatedTest>, extraction: seq<Violation>, scope: Scope)
    ensures var eligible := Filter(ELIGIBLE, Filter(Considered(scope), mandated));
      && FlatMap(Judged(extraction), eligible) == SinglePass(mandated, extraction, scope)
      && (extraction == [] ==> |eligible| == |SinglePass(mandated, extraction, scope)|)
  {
    var considered := Filter(Considered(scope), mandated);
    forall mt | mt in considered && !ELIGIBLE(mt) ensures Judged(extraction)(mt) == [] {
      EligibleRaises(extraction, mt);
    }
    FlatMapFilter(Judged(extraction), ELIGIBLE, considered);
    FilterMembers(ELIGIBLE, considered);
    if extraction == [] { OneEach(Filter(ELIGIBLE, considered)); }
  }

  function EligibleIn(scope: Scope): MandatedTest -> bool {
    (mt: MandatedTest) => Considered(scope)(mt) && ELIGIBLE(mt)
  }

  method CollectEligible(mandated: seq<MandatedTest>, scope: Scope) returns (eligible: seq<MandatedTest>)
    ensures eligible == Filter(ELIGIBLE, Filter(Considered(scope), mandated))
  {
    eligible := [];
    for i := 0 to |mandated|
      invariant eligible == Filter(EligibleIn(scope), mandated[..i])
    {
      PrefixStep(mandated, i);
      var mt := mandated[i];
      FilterSnoc(EligibleIn(scope), mandated[..i], mt);
      if mt.filePath == "" {
        continue;
      }
      if !Whole(scope) && !Contains(scope, mt.filePath) {
        continue;
      }
      if JoinEligible(mt) {
        eligible := eligible + [mt];
      }
    }
    assert mandated[..|mandated|] == mandated;
    FilterTwice(Considered(scope), ELIGIBLE, EligibleIn(scope), mandated);
  }

  method RaiseNoTargets(eligible: seq<MandatedTest>, extraction: seq<Violation>) returns (vs: seq<Violation>)
    ensures vs == FlatMap(Judged(extraction), eligible)
  {
    vs := [];
    for i := 0 to |eligible|
      invariant vs == FlatMap(Judged(extraction), eligible[..i])
    {
      PrefixStep(eligible, i);
      var mt := eligible[i];
      FlatMapSnoc(Judged(extraction), eligible[..i], mt);
      var referenced := ReferencedSetForTest(extraction, mt);
      var verdict := NoTargetViolationForTest(mt, referenced, Colocated(mt.filePath, mt.targetPkg));
      if verdict.Some? {
        vs := vs + [verdict.value.(file := mt.filePath)];
      }
    }
    assert eligible[..|eligible|] == eligible;
  }

  /** The step body after dispatch.  Its contract is the single-pass definition, so the two-pass
      form loses no verdict, keeps their order, and refuses with the exact count. */
  method JoinInTwoPasses(flat: seq<Violation>, mandated: seq<MandatedTest>, scope: Scope) returns (r: StepResult)
    ensures r == JoinOutcome(flat, mandated, scope)
  {
    var hollow, extraction := RouteSubstantivenessFindings(flat);
    var violations := HollowViolations(hollow, scope);
    var eligible := CollectEligible(mandated, scope);
    TwoPassesAreOne(mandated, extraction, scope);
    var refusal := EvidenceRefusal(|eligible|, |extraction|, |hollow|);
    if refusal.Some? {
      return Produced(TestSubstantiveness, Fail, [refusal.value]).(configErr := true);
    }
    var raised := RaiseNoTargets(eligible, extraction);
    r := Produced(TestSubstantiveness, StepVerdict(violations + raised), violations + raised);
    NoRefusalNoLoss(flat, mandated, scope, |eligible|);
  }

  lemma NoRefusalNoLoss(flat: seq<Violation>, mandated: seq<MandatedTest>, scope: Scope, eligible: nat)
    requires var hollow, extraction := Filter(WithRole(HOLLOW), flat), Filter(WithRole(REFERENCED), flat);
      && EvidenceRefusal(eligible, |extraction|, |hollow|).None?
      && (extraction == [] ==> eligible == |SinglePass(mandated, extraction, scope)|)
    ensures !JoinOutcome(flat, mandated, scope).configErr
  {
  }

  /** A refusal never discards a hollow verdict, and it happens exactly when engines gave no
      finding of either role while some verdict was at stake. */
  lemma RefusalDiscardsNoHollow(flat: seq<Violation>, mandated: seq<MandatedTest>, scope: Scope)
    ensures var hollow, extraction := Filter(WithRole(HOLLOW), flat), Filter(WithRole(REFERENCED), flat);
      && (JoinOutcome(flat, mandated, scope).configErr <==>
            hollow == [] && extraction == []
            && exists mt :: mt in mandated && Considered(scope)(mt) && JoinEligible(mt))
      && (JoinOutcome(flat, mandated, scope).configErr ==> Map(HOLLOWED, hollow) == [])
  {
    var extraction := Filter(WithRole(REFERENCED), flat);
    var considered := Filter(Considered(scope), mandated);
    FilterMembers(Considered(scope), mandated);
    TwoPassesAreOne(mandated, extraction, scope);
    FilterMembers(ELIGIBLE, considered);
    if Filter(ELIGIBLE, considered) != [] {
      assert Filter(ELIGIBLE, considered)[0] in Filter(ELIGIBLE, considered);
    }
  }

  // ---------------------------------------------------------------- the step

  /** ContractsAreDue: only an implemented spec's promises are held. */
  const DUE: MandatedTest -> bool := (mt: MandatedTest) => mt.status == "implemented"

  function Failure(prefix: string, cause: string): StepResult {
    Produced(TestSubstantiveness, Fail, [Report(OfStep(TestSubstantiveness), "", Text(prefix + cause), "error")])
  }

  function DispatchFailure(errs: seq<EngineError>): StepResult {
    Produced(TestSubstantiveness, Fail,
             [Report(OfStep(TestSubstantiveness), "", DispatchFailed(Map(CAUSE, errs)), "error")]).(configErr := true)
  }

  /** After dispatch.  An engine failure discards the partial stream: no verdict is founded on it. */
  ghost function Dispatched(packs: seq<Manifest>, run: Call -> RunResult, mandated: seq<MandatedTest>, scope: Scope)
    : StepResult
  {
    if SomeEngineFails(packs, run) then
      DispatchFailure(FlatMap(Errors(run), Calls(packs))).(nativeSandbox := SomeSandboxed(packs, run))
    else
      var joined := JoinOutcome(FlatMap(Output(run), Calls(packs)), mandated, scope);
      if joined.configErr then joined else joined.(nativeSandbox := SomeSandboxed(packs, run))
  }

  method JudgeDispatched(packs: seq<Manifest>, run: Call -> RunResult, mandated: seq<MandatedTest>, scope: Scope)
    returns (r: StepResult)
    ensures r == Dispatched(packs, run, mandated, scope)
  {
    var flat, errs, applied := DispatchPackEngines(packs, run);
    if errs != [] {
      r := DispatchFailure(errs);
      return r.(nativeSandbox := applied);
    }
    r := JoinInTwoPasses(flat, mandated, scope);
    if !r.configErr {
      r := r.(nativeSandbox := applied);
    }
  }

  /** The whole step, from what was extracted, found and installed. */
  ghost function SubstantivenessOutcome(extracted: Attempt<seq<MandatedTest>>, found: map<string, string>,
                                        installed: Attempt<seq<Manifest>>, run: Call -> RunResult, scope: Scope)
    : StepResult
  {
    if extracted.Lost? then Failure("failed to extract mandated tests: ", extracted.cause)
    else if installed.Lost? then Failure("resolving substantiveness pack: ", installed.cause).(configErr := true)
    else if installed.value == [] then Produced(TestSubstantiveness, Pass, [])
    else Dispatched(installed.value, run, Map(StatusDrift.Located(found), Filter(DUE, extracted.value)), scope)
  }

  /** buildTestSubstantivenessStepWithSandbox */
  method TestSubstantivenessStep(extracted: Attempt<seq<MandatedTest>>, found: map<string, string>,
                                 installed: Attempt<seq<Manifest>>, run: Call -> RunResult, scope: Scope)
    returns (r: StepResult)
    ensures r == SubstantivenessOutcome(extracted, found, installed, run, scope)
  {
    if extracted.Lost? {
      return Failure("failed to extract mandated tests: ", extracted.cause);
    }
    var due := DueTests(extracted.value);
    var mandated := StatusDrift.ResolveMandatedTestPaths(due, found);
    if installed.Lost? {
      return Failure("resolving substantiveness pack: ", installed.cause).(configErr := true);
    }
    if installed.value == [] {
      return Produced(TestSubstantiveness, Pass, []);
    }
    r := JudgeDispatched(installed.value, run, mandated, scope);
  }

  method DueTests(tests: seq<MandatedTest>) returns (due: seq<MandatedTest>)
    ensures due == Filter(DUE, tests)
  {
    due := [];
    for i := 0 to |tests|
      invariant due == Filter(DUE, tests[..i])
    {
      PrefixStep(tests, i);
      if tests[i].status == "implemented" {
        due := due + [tests[i]];
      }
    }
    assert tests[..|tests|] == tests;
  }
}
