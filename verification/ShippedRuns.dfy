/** The chain the command line assembles (cmd/backstop/gate.go): its order, the contracts of the
    producers on its waivable surface, and the run-level laws on it. */
module ShippedRuns {
  import opened Seqs
  import opened Findings
  import opened Scopes
  import opened Baseline
  import opened Artifacts
  import opened Waivers
  import opened Gates
  import opened GateLaws
  import opened SeverityLaws
  import opened TwoRuns
  import EarlyBaselines
  import Coverage
  import CoverageLaws
  import Dispatch
  import Polarity
  import Substantiveness
  import StatusDrift

  // ---------------------------------------------------------------- the shipped step order

  /** The steps buildGateStepsWithSandbox assembles, by name: with installed packs the lock and
      dispatch steps go around artifact validation; a missing toolchain adds a warning step. */
  function ShippedBefore(packed: bool): seq<StepName> {
    (if packed then [PackLockVerification, ArtifactValidation, PackEngines] else [ArtifactValidation])
    + [TestVerification, TestSubstantiveness, CoverageThreshold, ContractSignature,
       StatusDrift, StatusDriftAdvisory, Traceability, TraceabilityAdvisory]
  }

  function ShippedAfter(toolchainMissing: bool): seq<StepName> {
    [BaselineComparison, LedgerIntegrity] + if toolchainMissing then [Other("toolchain_enforcement")] else []
  }

  function ShippedOrder(packed: bool, toolchainMissing: bool): seq<StepName> {
    ShippedBefore(packed) + [WaiverResolution] + ShippedAfter(toolchainMissing)
  }

  ghost predicate Named(steps: seq<StepResult>, names: seq<StepName>) {
    |steps| == |names| && forall i :: 0 <= i < |steps| ==> steps[i].stepName == names[i]
  }

  lemma ShippedSides(name: StepName, packed: bool, toolchainMissing: bool)
    ensures name in ShippedBefore(packed) ==> !name.WaiverResolution? && !name.BaselineComparison?
    ensures name in ShippedAfter(toolchainMissing) ==> !name.WaiverResolution? && !OnSurface(name)
  {
  }

  /** Every run in the shipped order has its waivers in place, with no waivable step after them. */
  lemma ShippedOrderFits(cfg: Config, produced: seq<StepResult>, packed: bool, toolchainMissing: bool)
    requires cfg.waiverEnabled && Named(produced, ShippedOrder(packed, toolchainMissing))
    ensures var k := |ShippedBefore(packed)|;
      && k < |produced|
      && WaiversInPlace(cfg, produced[..k], produced[k], produced[k + 1..])
      && forall s :: s in produced[k + 1..] ==> !OnSurface(s.stepName)
  {
    var before, after := ShippedBefore(packed), ShippedAfter(toolchainMissing);
    var k := |before|;
    NamesSplit(produced, before, after);
    forall s | s in produced[..k] ensures !s.stepName.WaiverResolution? && !s.stepName.BaselineComparison? {
      NamedMember(produced[..k], before, s);
      ShippedSides(s.stepName, packed, toolchainMissing);
    }
    forall s | s in produced[k + 1..] ensures !s.stepName.WaiverResolution? && !OnSurface(s.stepName) {
      NamedMember(produced[k + 1..], after, s);
      ShippedSides(s.stepName, packed, toolchainMissing);
    }
  }

  lemma NamedMember(steps: seq<StepResult>, names: seq<StepName>, s: StepResult)
    requires Named(steps, names) && s in steps
    ensures s.stepName in names
  {
    var i :| 0 <= i < |steps| && steps[i] == s;
    assert names[i] == s.stepName;
  }

  lemma NamesSplit(produced: seq<StepResult>, before: seq<StepName>, after: seq<StepName>)
    requires Named(produced, before + [WaiverResolution] + after)
    ensures |before| < |produced| && produced[|before|].stepName == WaiverResolution
    ensures Named(produced[..|before|], before) && Named(produced[|before| + 1..], after)
  {
  }

  // ---------------------------------------------------------------- the producers keep their contract

  lemma VerdictIsHonest(s: StepResult)
    requires s.status == StepVerdict(s.violations)
    ensures Honest(s)
  {
    StepVerdictMeaning(s.violations);
  }

  lemma OneErrorIsHonest(s: StepResult, v: Violation)
    requires s.status == Fail && s.violations == [v] && v.severity == "error"
    ensures Honest(s)
  {
    ErrorBlocks(v);
    assert v in s.violations;
  }

  /** Every pack_engines step fails iff it holds a blocking finding. */
  lemma PackStepIsHonest(provisioned: Attempt<()>, packs: seq<Dispatch.Manifest>,
                         run: Dispatch.Call -> Dispatch.RunResult,
                         scope: Scope)
    ensures Honest(Dispatch.PackStep(provisioned, packs, run, scope))
  {
    var s := Dispatch.PackStep(provisioned, packs, run, scope);
    if provisioned.Lost? { OneErrorIsHonest(s, s.violations[0]); } else { VerdictIsHonest(s); }
  }

  lemma JoinIsHonest(flat: seq<Violation>, mandated: seq<MandatedTest>, scope: Scope)
    ensures Honest(Substantiveness.JoinOutcome(flat, mandated, scope))
  {
    var s := Substantiveness.JoinOutcome(flat, mandated, scope);
    if s.configErr { OneErrorIsHonest(s, s.violations[0]); } else { VerdictIsHonest(s); }
  }

  lemma DispatchedIsHonest(packs: seq<Dispatch.Manifest>, run: Dispatch.Call -> Dispatch.RunResult,
                           mandated: seq<MandatedTest>, scope: Scope)
    ensures Honest(Substantiveness.Dispatched(packs, run, mandated, scope))
  {
    var s := Substantiveness.Dispatched(packs, run, mandated, scope);
    if Dispatch.SomeEngineFails(packs, run) {
      OneErrorIsHonest(s, s.violations[0]);
    } else {
      JoinIsHonest(FlatMap(Dispatch.Output(run), Dispatch.Calls(packs)), mandated, scope);
    }
  }

  /** Every test_substantiveness step does. */
  lemma SubstantivenessIsHonest(extracted: Attempt<seq<MandatedTest>>, found: map<string, string>,
                                installed: Attempt<seq<Dispatch.Manifest>>,
                                run: Dispatch.Call -> Dispatch.RunResult, scope: Scope)
    ensures Honest(Substantiveness.SubstantivenessOutcome(extracted, found, installed, run, scope))
  {
    var s := Substantiveness.SubstantivenessOutcome(extracted, found, installed, run, scope);
    if extracted.Lost? || installed.Lost? {
      OneErrorIsHonest(s, s.violations[0]);
    } else if installed.value == [] {
      VerdictIsHonest(s);
    } else {
      var due := Map(StatusDrift.Located(found), Filter(Substantiveness.DUE, extracted.value));
      DispatchedIsHonest(installed.value, run, due, scope);
    }
  }

  ghost predicate FromPackDispatch(s: StepResult) {
    exists provisioned, packs, run, scope :: s == Dispatch.PackStep(provisioned, packs, run, scope)
  }

  ghost predicate FromSubstantiveness(s: StepResult) {
    exists extracted, found, installed, run, scope ::
      s == Substantiveness.SubstantivenessOutcome(extracted, found, installed, run, scope)
  }

  ghost predicate FromCoverage(s: StepResult) {
    exists floor, specs, producer, scope, classifier, onDisk ::
      Coverage.BuiltCoverage(floor, specs, producer, scope, classifier, onDisk) == Some(s)
  }

  /** The step behind its capability check: what the check puts in its place, or the analyzer's own. */
  ghost predicate Checked(s: StepResult, dim: Dimension, name: StepName, delegate: StepResult) {
    exists packs, toolchain, stack :: s == Polarity.Wrapped(packs, toolchain, dim, name, stack, delegate)
  }

  /** A step of the waivable surface is what its own producer, behind its own check, yields on some input. */
  ghost predicate FromProducer(s: StepResult) {
    match s.stepName
    case PackEngines => FromPackDispatch(s)
    case TestSubstantiveness =>
      exists d :: FromSubstantiveness(d) && Checked(s, DimSubstantiveness, TestSubstantiveness, d)
    case CoverageThreshold => exists d :: FromCoverage(d) && Checked(s, DimCoverage, CoverageThreshold, d)
    case _ => false
  }

  lemma CheckedIsHonest(s: StepResult, dim: Dimension, name: StepName, delegate: StepResult)
    requires Checked(s, dim, name, delegate) && Honest(delegate)
    ensures Honest(s)
  {
    var packs, toolchain, stack :| s == Polarity.Wrapped(packs, toolchain, dim, name, stack, delegate);
    var cap := Polarity.CapabilityFrom(Dispatch.Declares(packs, Polarity.NameOf(dim)), dim, stack);
    Polarity.PolarityIsHonest(name, dim, Polarity.ClassOf(toolchain, dim, cap), toolchain, cap);
  }

  /** Every step of the waivable surface, whichever return its producer or its check takes, fails iff it
      holds a blocking finding. */
  lemma ProducersAreHonest(s: StepResult)
    requires OnSurface(s.stepName) && FromProducer(s)
    ensures Honest(s)
  {
    match s.stepName {
      case PackEngines =>
        var provisioned, packs, run, scope :| s == Dispatch.PackStep(provisioned, packs, run, scope);
        PackStepIsHonest(provisioned, packs, run, scope);
      case TestSubstantiveness =>
        var d :| FromSubstantiveness(d) && Checked(s, DimSubstantiveness, TestSubstantiveness, d);
        var extracted, found, installed, run, scope :|
          d == Substantiveness.SubstantivenessOutcome(extracted, found, installed, run, scope);
        SubstantivenessIsHonest(extracted, found, installed, run, scope);
        CheckedIsHonest(s, DimSubstantiveness, TestSubstantiveness, d);
      case CoverageThreshold =>
        var d :| FromCoverage(d) && Checked(s, DimCoverage, CoverageThreshold, d);
        var floor, specs, producer, scope, classifier, onDisk :|
          Coverage.BuiltCoverage(floor, specs, producer, scope, classifier, onDisk) == Some(d);
        CoverageLaws.BuiltCoverageIsHonest(floor, specs, producer, scope, classifier, onDisk);
        CheckedIsHonest(s, DimCoverage, CoverageThreshold, d);
    }
  }

  // ---------------------------------------------------------------- two shipped runs

  /** The same step of two shipped runs: producers on the waivable surface may have seen different
      inputs, every other step yields the same. */
  ghost predicate ProducedAlike(a: StepResult, b: StepResult) {
    if OnSurface(a.stepName) then FromProducer(a) && FromProducer(b) && a.configErr == b.configErr else a == b
  }

  /** Two shipped runs, producer for producer, whose waivers leave the same findings standing. */
  ghost predicate ShippedAlike(cfg: Config, cfg': Config, produced: seq<StepResult>, produced': seq<StepResult>,
                               packed: bool, toolchainMissing: bool)
  {
    var k := |ShippedBefore(packed)|;
    && cfg.waiverEnabled && SameButWaivers(cfg, cfg')
    && Named(produced, ShippedOrder(packed, toolchainMissing))
    && Named(produced', ShippedOrder(packed, toolchainMissing))
    && (forall i :: 0 <= i < |produced| ==> ProducedAlike(produced[i], produced'[i]))
    && (!SomeHalts(cfg, produced[..k]) ==> AgreeOnRemains(cfg, produced[..k], cfg', produced'[..k]))
  }

  /** They exit alike, whatever their producers found and their waivers suppressed. */
  lemma ShippedNonInterference(cfg: Config, cfg': Config, active: seq<Waiver>,
                               produced: seq<StepResult>, produced': seq<StepResult>,
                               packed: bool, toolchainMissing: bool)
    ensures ShippedAlike(cfg, cfg', produced, produced', packed, toolchainMissing) ==>
      Outcome(cfg, active, produced).1 == Outcome(cfg', active, produced').1
  {
    if ShippedAlike(cfg, cfg', produced, produced', packed, toolchainMissing) {
      var k := |ShippedBefore(packed)|;
      ShippedOrderFits(cfg, produced, packed, toolchainMissing);
      ShippedOrderFits(cfg', produced', packed, toolchainMissing);
      forall i | 0 <= i < k ensures Paired(cfg, produced[i], produced'[i]) {
        AlikePaired(cfg, produced[i], produced'[i]);
      }
      SameAfterWaivers(produced, produced', packed, toolchainMissing);
      AroundIndex(produced, k);
      AroundIndex(produced', k);
      WaiverNonInterference(cfg, cfg', active, produced[..k], produced'[..k], produced[k], produced[k + 1..]);
    }
  }

  lemma AlikePaired(cfg: Config, a: StepResult, b: StepResult)
    ensures a.stepName == b.stepName && ProducedAlike(a, b) ==> Paired(cfg, a, b)
  {
    if a.stepName == b.stepName && ProducedAlike(a, b) && OnSurface(a.stepName) {
      ProducersAreHonest(a);
      ProducersAreHonest(b);
    }
  }

  lemma SameAfterWaivers(produced: seq<StepResult>, produced': seq<StepResult>, packed: bool, toolchainMissing: bool)
    requires Named(produced, ShippedOrder(packed, toolchainMissing))
    requires Named(produced', ShippedOrder(packed, toolchainMissing))
    requires forall i :: 0 <= i < |produced| ==> ProducedAlike(produced[i], produced'[i])
    ensures var k := |ShippedBefore(packed)|;
      && k < |produced| == |produced'|
      && produced[k] == produced'[k] && produced[k + 1..] == produced'[k + 1..]
  {
    var before, after := ShippedBefore(packed), ShippedAfter(toolchainMissing);
    var k := |before|;
    NamesSplit(produced, before, after);
    forall i | k < i < |produced| ensures produced[i] == produced'[i] {
      assert produced[i].stepName == after[i - k - 1] && after[i - k - 1] in after;
      ShippedSides(produced[i].stepName, packed, toolchainMissing);
    }
  }

  // ---------------------------------------------------------------- two runs, one of them all waived

  const ONE_PACK := Dispatch.Manifest("org/pack", [Dispatch.EngineRule("rule", "engine")], ["findings"])

  function Finds(vs: seq<Violation>): Dispatch.Call -> Dispatch.RunResult {
    call => Dispatch.Finished(false, vs)
  }

  function ScanOf(vs: seq<Violation>): StepResult {
    Produced(PackEngines, StepVerdict(vs), vs)
  }

  /** A shipped run whose one pack finds these, and whose other steps pass. */
  function FindingRun(vs: seq<Violation>): seq<StepResult> {
    var names := ShippedOrder(true, false);
    seq(|names|, i requires 0 <= i < |names| =>
      if names[i].PackEngines? then ScanOf(vs) else Produced(names[i], Pass, []))
  }

  lemma OneCall()
    ensures Dispatch.Calls([ONE_PACK]) == [Dispatch.Call("org/pack", "engine", ONE_PACK.rules)]
  {
    var call := Dispatch.Call("org/pack", "engine", ONE_PACK.rules);
    assert ONE_PACK.rules[..0] == [];
    assert Dispatch.EngineOrder(ONE_PACK.rules) == ["engine"];
    FilterAll(Dispatch.OfEngine("engine"), ONE_PACK.rules);
    assert Dispatch.CALLS(ONE_PACK) == [call];
    FlatMapOne(Dispatch.CALLS, ONE_PACK);
  }

  lemma ScanIsProduced(vs: seq<Violation>)
    ensures Dispatch.PackStep(Got(()), [ONE_PACK], Finds(vs), None) == ScanOf(vs)
  {
    OneCall();
    FlatMapOne(Dispatch.Output(Finds(vs)), Dispatch.Call("org/pack", "engine", ONE_PACK.rules));
    FilterAll(KeptBy(None), vs);
  }

  lemma PassingSubstantiveness()
    ensures FromSubstantiveness(Produced(TestSubstantiveness, Pass, []))
  {
    assert Produced(TestSubstantiveness, Pass, [])
        == Substantiveness.SubstantivenessOutcome(Got([]), map[], Got([]), Finds([]), None);
  }

  lemma PassingCoverage()
    ensures FromCoverage(Produced(CoverageThreshold, Pass, []))
  {
    var nowhere := Coverage.Classifier(true, path => false);
    assert Coverage.CoverageRun([], [], None, nowhere, path => false, 0) == Some(Produced(CoverageThreshold, Pass, []));
    assert Coverage.BuiltCoverage(Got(0), Got([]), None, None, nowhere, path => false)
        == Some(Produced(CoverageThreshold, Pass, []));
  }

  lemma PassingSurface()
    ensures FromProducer(Produced(TestSubstantiveness, Pass, []))
    ensures FromProducer(Produced(CoverageThreshold, Pass, []))
  {
    PassingSubstantiveness();
    PassingCoverage();
    Unchecked(Produced(TestSubstantiveness, Pass, []), DimSubstantiveness, TestSubstantiveness);
    Unchecked(Produced(CoverageThreshold, Pass, []), DimCoverage, CoverageThreshold);
  }

  lemma Unchecked(s: StepResult, dim: Dimension, name: StepName)
    ensures Checked(s, dim, name, s)
  {
    var provider := Dispatch.Manifest("org/pack", [], [Polarity.NameOf(dim)]);
    assert provider in [provider];
    Polarity.WrapperMeaning([provider], [], dim, name, "", s);
    assert s == Polarity.Wrapped([provider], [], dim, name, "", s);
  }

  lemma FindingRunIsProduced(vs: seq<Violation>, i: nat)
    requires i < |FindingRun(vs)|
    ensures OnSurface(FindingRun(vs)[i].stepName) ==> FromProducer(FindingRun(vs)[i])
  {
    match FindingRun(vs)[i].stepName {
      case PackEngines => ScanIsProduced(vs);
      case TestSubstantiveness => PassingSurface();
      case CoverageThreshold => PassingSurface();
      case _ =>
    }
  }

  /** Runs that find anything and anything else, and waive all of it, are alike: one may hold blocking
      findings where the other holds none. */
  lemma WaivedRunsAlike(cfg: Config, vs: seq<Violation>, ws: seq<Violation>)
    requires cfg.waiverEnabled && cfg.waiver == EarlyBaselines.WAIVE_ALL
    ensures ShippedAlike(cfg, cfg, FindingRun(vs), FindingRun(ws), true, false)
  {
    var produced, produced' := FindingRun(vs), FindingRun(ws);
    var k := |ShippedBefore(true)|;
    forall i | 0 <= i < |produced| ensures ProducedAlike(produced[i], produced'[i]) {
      FindingRunIsProduced(vs, i);
      FindingRunIsProduced(ws, i);
    }
    forall i | 0 <= i < k && OnSurface(produced[i].stepName)
      ensures Remaining(produced[..k][i], SuppressedKeys(cfg, produced[..k])) == []
      ensures Remaining(produced'[..k][i], SuppressedKeys(cfg, produced'[..k])) == []
    {
      EarlyBaselines.AllWaived(cfg, produced[..k], i);
      EarlyBaselines.AllWaived(cfg, produced'[..k], i);
    }
  }

  /** So, whatever the pack finds, the exit code is that of a run that finds nothing. */
  lemma WaivedRunsExitAlike(cfg: Config, active: seq<Waiver>, vs: seq<Violation>)
    requires cfg.waiverEnabled && cfg.waiver == EarlyBaselines.WAIVE_ALL
    ensures Outcome(cfg, active, FindingRun(vs)).1 == Outcome(cfg, active, FindingRun([])).1
  {
    WaivedRunsAlike(cfg, vs, []);
    ShippedNonInterference(cfg, cfg, active, FindingRun(vs), FindingRun([]), true, false);
  }

  // ---------------------------------------------------------------- a quiet shipped run

  /** A produced finding that no waiver suppresses is new against the loaded baseline. */
  ghost predicate StandingNew(cfg: Config, pre: seq<StepResult>) {
    cfg.recorded.Some? && exists s :: s in pre && HoldsNew(cfg, pre, s)
  }

  ghost predicate HoldsNew(cfg: Config, pre: seq<StepResult>, s: StepResult)
    requires cfg.recorded.Some?
  {
    exists v :: v in s.violations && StandsIn(cfg, pre, s, v)
  }

  ghost predicate StandsIn(cfg: Config, pre: seq<StepResult>, s: StepResult, v: Violation)
    requires cfg.recorded.Some?
  {
    && Baselined(s.stepName)
    && (OnSurface(s.stepName) ==> KeyOf(s.stepName, v) !in SuppressedKeys(cfg, pre))
    && NewIn(Ids(cfg.recorded.value), Options(cfg))(v)
  }

  lemma HintedIsNew(recorded: set<Identity>, o: CompareOptions, step: StepName,
                    prefill: (StepName, Violation) -> Option<string>, v: Violation)
    ensures NewIn(recorded, o)(Hinted(step, prefill)(v)) == NewIn(recorded, o)(v)
  {
    var w := Hinted(step, prefill)(v);
    HintFree(v, w);
    NewInByIdentity(recorded, o, v, w);
  }

  lemma HintedSome(step: StepName, prefill: (StepName, Violation) -> Option<string>, p: Violation -> bool,
                   vs: seq<Violation>)
    requires forall v :: p(Hinted(step, prefill)(v)) == p(v)
    ensures (exists w :: w in Map(Hinted(step, prefill), vs) && p(w)) <==> exists v :: v in vs && p(v)
  {
    var ws := Map(Hinted(step, prefill), vs);
    if w :| w in ws && p(w) {
      var i :| 0 <= i < |ws| && ws[i] == w;
      assert vs[i] in vs && p(vs[i]);
    }
    if v :| v in vs && p(v) {
      var i :| 0 <= i < |vs| && vs[i] == v;
      assert ws[i] in ws && p(ws[i]);
    }
  }

  ghost predicate Contributes(s: StepResult, p: Violation -> bool) {
    exists v :: v in CONTRIBUTION(s) && p(v)
  }

  /** What a waived step of the surface holds that is new, the produced one holds unsuppressed. */
  lemma SurfaceContribution(cfg: Config, s: StepResult, sup: set<Key>, p: Violation -> bool)
    requires OnSurface(s.stepName) && forall v :: p(Hinted(s.stepName, cfg.waiver.prefill)(v)) == p(v)
    ensures Contributes(WaivedStep(s, sup, cfg.waiver.prefill), p)
       <==> exists v :: v in s.violations && KeyOf(s.stepName, v) !in sup && p(v)
  {
    FilterMembers(Survives(s.stepName, sup), s.violations);
    HintedSome(s.stepName, cfg.waiver.prefill, p, Remaining(s, sup));
  }

  /** One waived step contributes a new finding iff the produced one holds it unsuppressed. */
  lemma WaivedContribution(cfg: Config, pre: seq<StepResult>, s: StepResult)
    requires cfg.recorded.Some?
    ensures var w := WaivedStep(s, SuppressedKeys(cfg, pre), cfg.waiver.prefill);
      Contributes(w, NewIn(Ids(cfg.recorded.value), Options(cfg))) <==> HoldsNew(cfg, pre, s)
  {
    var sup, ids := SuppressedKeys(cfg, pre), Ids(cfg.recorded.value);
    if OnSurface(s.stepName) {
      forall v
        ensures NewIn(ids, Options(cfg))(Hinted(s.stepName, cfg.waiver.prefill)(v)) == NewIn(ids, Options(cfg))(v)
      {
        HintedIsNew(ids, Options(cfg), s.stepName, cfg.waiver.prefill, v);
      }
      SurfaceContribution(cfg, s, sup, NewIn(ids, Options(cfg)));
    }
  }

  lemma AccumulatedSome(steps: seq<StepResult>, p: Violation -> bool)
    ensures (exists v :: v in Accumulated(steps) && p(v)) <==> exists s :: s in steps && Contributes(s, p)
  {
    if v :| v in Accumulated(steps) && p(v) { FlatMapMember(CONTRIBUTION, steps, v); }
    if s :| s in steps && Contributes(s, p) {
      var v :| v in CONTRIBUTION(s) && p(v);
      FlatMapMember(CONTRIBUTION, steps, v);
    }
  }

  lemma StandsNewAfterWaivers(cfg: Config, pre: seq<StepResult>, step: StepResult)
    requires step.stepName.WaiverResolution?
    ensures StandsNew(cfg, WaivedResults(cfg, pre) + [step]) <==> StandingNew(cfg, pre)
  {
    if cfg.recorded.Some? {
      var left, p := WaivedResults(cfg, pre), NewIn(Ids(cfg.recorded.value), Options(cfg));
      AccumulatedSome(left + [step], p);
      forall i | 0 <= i < |pre| ensures Contributes(left[i], p) <==> HoldsNew(cfg, pre, pre[i]) {
        WaivedContribution(cfg, pre, pre[i]);
      }
      SomeAlong(pre, left, step, s => HoldsNew(cfg, pre, s), s => Contributes(s, p));
    }
  }

  lemma SomeAlong(steps: seq<StepResult>, steps': seq<StepResult>, last: StepResult,
                  p: StepResult -> bool, q: StepResult -> bool)
    requires |steps| == |steps'| && !q(last)
    requires forall i :: 0 <= i < |steps| ==> q(steps'[i]) == p(steps[i])
    ensures (exists s :: s in steps && p(s)) <==> exists s :: s in steps' + [last] && q(s)
  {
    if s :| s in steps && p(s) {
      var i :| 0 <= i < |steps| && steps[i] == s;
      assert steps'[i] in steps' + [last];
    }
    if s :| s in steps' + [last] && q(s) {
      var i :| 0 <= i < |steps'| && steps'[i] == s;
      assert steps[i] in steps;
    }
  }

  /** A shipped run in which nothing blocks exits 1 iff no policy is set, a baseline is loaded and
      enabled, and a produced finding that no waiver suppresses is new against it. */
  lemma ShippedQuietExit(cfg: Config, active: seq<Waiver>, produced: seq<StepResult>, packed: bool,
                         toolchainMissing: bool)
    requires !cfg.configErr && cfg.waiverEnabled && Named(produced, ShippedOrder(packed, toolchainMissing))
    requires QuietSteps(produced) && !HasBlocking(DiagnosticsOf(cfg, produced[..|ShippedBefore(packed)|]))
    ensures Outcome(cfg, active, produced).1
         == if cfg.policy == map[] && cfg.baselineEnabled && StandingNew(cfg, produced[..|ShippedBefore(packed)|])
            then 1 else 0
  {
    ShippedQuietDiagnostics(cfg, active, produced, packed, toolchainMissing);
    NonBlockingExit(cfg, active, produced);
    ShippedMeetsNew(cfg, active, produced, packed, toolchainMissing);
  }

  lemma ShippedMeetsNew(cfg: Config, active: seq<Waiver>, produced: seq<StepResult>, packed: bool,
                        toolchainMissing: bool)
    requires cfg.waiverEnabled && Named(produced, ShippedOrder(packed, toolchainMissing)) && QuietSteps(produced)
    ensures MeetsNew(cfg, active, produced)
       <==> cfg.baselineEnabled && StandingNew(cfg, produced[..|ShippedBefore(packed)|])
  {
    var k := |ShippedBefore(packed)|;
    ShippedBaselineAt(produced, packed, toolchainMissing);
    if cfg.baselineEnabled {
      ShippedThroughWaivers(cfg, active, produced, packed, toolchainMissing);
      assert Computed(cfg, produced[k + 1]);
    }
  }

  lemma ShippedBaselineAt(produced: seq<StepResult>, packed: bool, toolchainMissing: bool)
    requires Named(produced, ShippedOrder(packed, toolchainMissing))
    ensures var k := |ShippedBefore(packed)|;
      && k + 1 < |produced|
      && forall i :: 0 <= i < |produced| ==> (produced[i].stepName.BaselineComparison? <==> i == k + 1)
  {
  }

  /** Ahead of its waiver step a quiet shipped run holds just what was produced. */
  lemma ShippedUpToWaivers(cfg: Config, active: seq<Waiver>, produced: seq<StepResult>, packed: bool,
                           toolchainMissing: bool)
    requires cfg.waiverEnabled && Named(produced, ShippedOrder(packed, toolchainMissing)) && QuietSteps(produced)
    ensures var k := |ShippedBefore(packed)|;
      var pre := produced[..k];
      && k < |produced|
      && Chain(cfg, active, produced[..k + 1]).results
         == WaivedResults(cfg, pre) + [WaiverStep(Adjudicated(cfg, pre), cfg.waiver.unbound)]
  {
    var k := |ShippedBefore(packed)|;
    ShippedOrderFits(cfg, produced, packed, toolchainMissing);
    ShippedBaselineAt(produced, packed, toolchainMissing);
    var pre, w := produced[..k], produced[k];
    assert forall s :: s in pre ==> s in produced;
    NeverHalts(cfg, active, pre);
    PlainChain(cfg, active, pre);
    forall i | 0 <= i < k ensures Chain(cfg, active, pre).results[i] == pre[i] {
      assert StandsFor(cfg, pre[i], Chain(cfg, active, pre).results[i]);
    }
    assert Chain(cfg, active, pre).results == pre;
    PrefixStep(produced, k);
    ChainSnoc(cfg, active, pre, w);
  }

  lemma ShippedThroughWaivers(cfg: Config, active: seq<Waiver>, produced: seq<StepResult>, packed: bool,
                              toolchainMissing: bool)
    requires cfg.waiverEnabled && Named(produced, ShippedOrder(packed, toolchainMissing)) && QuietSteps(produced)
    ensures var k := |ShippedBefore(packed)|;
      && k + 1 < |produced|
      && (StandsNew(cfg, Chain(cfg, active, produced[..k + 1]).results) <==> StandingNew(cfg, produced[..k]))
  {
    var pre := produced[..|ShippedBefore(packed)|];
    ShippedBaselineAt(produced, packed, toolchainMissing);
    ShippedUpToWaivers(cfg, active, produced, packed, toolchainMissing);
    StandsNewAfterWaivers(cfg, pre, WaiverStep(Adjudicated(cfg, pre), cfg.waiver.unbound));
  }

  lemma AdvanceAppends(cfg: Config, st: RunState, s: StepResult)
    requires !s.stepName.WaiverResolution?
    ensures st.results <= Advance(cfg, st, s).results
  {
  }

  lemma PrefixOfPrefix<T>(xs: seq<T>, ys: seq<T>, zs: seq<T>)
    requires xs <= ys && ys <= zs
    ensures xs <= zs
  {
  }

  /** After the last waiver step results only accumulate. */
  lemma {:induction false} ChainAppends(cfg: Config, active: seq<Waiver>, pre: seq<StepResult>, post: seq<StepResult>)
    requires forall s :: s in post ==> !s.stepName.WaiverResolution?
    ensures Chain(cfg, active, pre).results <= Chain(cfg, active, pre + post).results
  {
    if post == [] {
      assert pre + post == pre;
    } else {
      var init, last := post[..|post| - 1], post[|post| - 1];
      assert post == init + [last] && last in post;
      assert forall s :: s in init ==> s in post;
      ChainAppends(cfg, active, pre, init);
      AppendAssoc(pre, init, [last]);
      ChainSnoc(cfg, active, pre + init, last);
      AdvanceAppends(cfg, Chain(cfg, active, pre + init), last);
      PrefixOfPrefix(Chain(cfg, active, pre).results, Chain(cfg, active, pre + init).results,
                     Chain(cfg, active, pre + post).results);
    }
  }

  lemma ShippedWaiverStep(cfg: Config, active: seq<Waiver>, produced: seq<StepResult>, packed: bool,
                          toolchainMissing: bool)
    requires cfg.waiverEnabled && Named(produced, ShippedOrder(packed, toolchainMissing)) && QuietSteps(produced)
    ensures var k, results := |ShippedBefore(packed)|, Chain(cfg, active, produced).results;
      k < |results| && results[k].violations == DiagnosticsOf(cfg, produced[..k])
  {
    var k := |ShippedBefore(packed)|;
    var pre := produced[..k];
    ShippedUpToWaivers(cfg, active, produced, packed, toolchainMissing);
    NoLaterWaivers(cfg, active, produced, packed, toolchainMissing);
    LastOfPrefix(WaivedResults(cfg, pre), WaiverStep(Adjudicated(cfg, pre), cfg.waiver.unbound),
                 Chain(cfg, active, produced).results);
  }

  lemma NoLaterWaivers(cfg: Config, active: seq<Waiver>, produced: seq<StepResult>, packed: bool,
                       toolchainMissing: bool)
    requires cfg.waiverEnabled && Named(produced, ShippedOrder(packed, toolchainMissing))
    ensures var k := |ShippedBefore(packed)|;
      k < |produced| && Chain(cfg, active, produced[..k + 1]).results <= Chain(cfg, active, produced).results
  {
    var k := |ShippedBefore(packed)|;
    ShippedOrderFits(cfg, produced, packed, toolchainMissing);
    assert produced == produced[..k + 1] + produced[k + 1..];
    ChainAppends(cfg, active, produced[..k + 1], produced[k + 1..]);
  }

  lemma LastOfPrefix<T>(xs: seq<T>, x: T, ys: seq<T>)
    requires xs + [x] <= ys
    ensures |xs| < |ys| && ys[|xs|] == x
  {
    assert (xs + [x])[|xs|] == x;
  }

  lemma {:induction false} ActiveStays(cfg: Config, active: seq<Waiver>, pre: seq<StepResult>, post: seq<StepResult>)
    requires forall s :: s in post ==> !s.stepName.WaiverResolution?
    ensures Chain(cfg, active, pre + post).active == Chain(cfg, active, pre).active
  {
    if post == [] {
      assert pre + post == pre;
    } else {
      var init, last := post[..|post| - 1], post[|post| - 1];
      assert post == init + [last] && last in post;
      assert forall s :: s in init ==> s in post;
      ActiveStays(cfg, active, pre, init);
      AppendAssoc(pre, init, [last]);
      ChainSnoc(cfg, active, pre + init, last);
    }
  }

  lemma ActiveAtWaivers(cfg: Config, active: seq<Waiver>, pre: seq<StepResult>, w: StepResult)
    requires WaiversInPlace(cfg, pre, w, []) && forall s :: s in pre ==> !s.configErr
    ensures Chain(cfg, active, pre + [w]).active == Adjudicated(cfg, pre).active
  {
    NeverHalts(cfg, active, pre);
    PlainChain(cfg, active, pre);
    SameOffer(cfg, pre, Chain(cfg, active, pre).results);
    ChainSnoc(cfg, active, pre, w);
  }

  /** The waivers a result feeds on are the ones adjudicated active in the run, if it got that far. */
  lemma ShippedActiveWaivers(cfg: Config, active: seq<Waiver>, produced: seq<StepResult>, packed: bool,
                             toolchainMissing: bool)
    requires !cfg.configErr && cfg.waiverEnabled && Named(produced, ShippedOrder(packed, toolchainMissing))
    requires forall s :: s in produced ==> !s.configErr
    ensures var pre := produced[..|ShippedBefore(packed)|];
      Outcome(cfg, active, produced).0.activeWaivers == cfg.waiver.adjudicate(Offered(pre)).active
  {
    var k := |ShippedBefore(packed)|;
    ShippedOrderFits(cfg, produced, packed, toolchainMissing);
    ActiveAtWaivers(cfg, active, produced[..k], produced[k]);
    ActiveStays(cfg, active, produced[..k] + [produced[k]], produced[k + 1..]);
    AroundIndex(produced, k);
  }

  lemma ShippedQuietDiagnostics(cfg: Config, active: seq<Waiver>, produced: seq<StepResult>, packed: bool,
                                toolchainMissing: bool)
    requires cfg.waiverEnabled && Named(produced, ShippedOrder(packed, toolchainMissing)) && QuietSteps(produced)
    requires !HasBlocking(DiagnosticsOf(cfg, produced[..|ShippedBefore(packed)|]))
    ensures QuietDiagnostics(Chain(cfg, active, produced).results)
  {
    ShippedWaiverStep(cfg, active, produced, packed, toolchainMissing);
    OneWaiverStep(cfg, active, produced, packed, toolchainMissing);
  }

  lemma OneWaiverStep(cfg: Config, active: seq<Waiver>, produced: seq<StepResult>, packed: bool, toolchainMissing: bool)
    requires Named(produced, ShippedOrder(packed, toolchainMissing))
    ensures var results := Chain(cfg, active, produced).results;
      forall i :: 0 <= i < |results| && results[i].stepName.WaiverResolution? ==> i == |ShippedBefore(packed)|
  {
    ChainStops(cfg, active, produced);
    forall i | 0 <= i < |produced| && produced[i].stepName.WaiverResolution? ensures i == |ShippedBefore(packed)| {
      OneWaiverName(packed, toolchainMissing, i);
    }
  }

  lemma OneWaiverName(packed: bool, toolchainMissing: bool, i: nat)
    requires i < |ShippedOrder(packed, toolchainMissing)| && ShippedOrder(packed, toolchainMissing)[i].WaiverResolution?
    ensures i == |ShippedBefore(packed)|
  {
    var before, after := ShippedBefore(packed), ShippedAfter(toolchainMissing);
    if i < |before| {
      assert ShippedOrder(packed, toolchainMissing)[i] == before[i] && before[i] in before;
      ShippedSides(before[i], packed, toolchainMissing);
    } else if i > |before| {
      var j := i - |before| - 1;
      assert ShippedOrder(packed, toolchainMissing)[i] == after[j] && after[j] in after;
      ShippedSides(after[j], packed, toolchainMissing);
    }
  }

  /** The order in full, with packs installed and no toolchain among them. */
  lemma ShippedInFull()
    ensures ShippedOrder(true, true) ==
      [PackLockVerification, ArtifactValidation, PackEngines, TestVerification, TestSubstantiveness, CoverageThreshold,
       ContractSignature, StepName.StatusDrift, StatusDriftAdvisory, StepName.Traceability, TraceabilityAdvisory,
       WaiverResolution, BaselineComparison, LedgerIntegrity, Other("toolchain_enforcement")]
    ensures ShippedOrder(false, false) ==
      [ArtifactValidation, TestVerification, TestSubstantiveness, CoverageThreshold,
       ContractSignature, StepName.StatusDrift, StatusDriftAdvisory, StepName.Traceability, TraceabilityAdvisory,
       WaiverResolution, BaselineComparison, LedgerIntegrity]
  {
  }
}
