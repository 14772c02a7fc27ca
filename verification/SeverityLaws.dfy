/** Severity at run level: the exact exit code of a run in which nothing blocks. */
module SeverityLaws {
  import opened Seqs
  import opened Findings
  import opened Baseline
  import opened Policies
  import opened PolicyLaws
  import opened Waivers
  import opened Gates
  import opened GateLaws

  /** Neither failing nor holding anything that blocks. */
  ghost predicate Quiet(s: StepResult) {
    s.status != Fail && !HasBlocking(s.violations)
  }

  ghost predicate QuietButBaseline(cfg: Config, results: seq<StepResult>) {
    forall s :: s in results && !Computed(cfg, s) ==> Quiet(s)
  }

  /** No waiver step among these results holds a blocking diagnostic. */
  ghost predicate QuietDiagnostics(results: seq<StepResult>) {
    forall s :: s in results && s.stepName.WaiverResolution? ==> !HasBlocking(s.violations)
  }

  /** A finding still standing is new against the loaded baseline. */
  ghost predicate StandsNew(cfg: Config, results: seq<StepResult>) {
    && cfg.recorded.Some?
    && exists v :: v in Accumulated(results) && NewIn(Ids(cfg.recorded.value), Options(cfg))(v)
  }

  /** Some baseline step of the run meets such a finding. */
  ghost predicate MeetsNew(cfg: Config, active: seq<Waiver>, produced: seq<StepResult>) {
    exists k :: 0 <= k < |produced| && Computed(cfg, produced[k])
             && StandsNew(cfg, Chain(cfg, active, produced[..k]).results)
  }

  lemma BaselineStepFails(cfg: Config, results: seq<StepResult>)
    ensures BaselineStep(cfg, results).status == Fail <==> StandsNew(cfg, results)
  {
    if cfg.recorded.Some? {
      MappedEmpty(NewIn(Ids(cfg.recorded.value), Options(cfg)), Accumulated(results));
    }
  }

  lemma WaivingStaysQuiet(s: StepResult, sup: set<Key>, prefill: (StepName, Violation) -> Option<string>)
    requires Quiet(s)
    ensures Quiet(WaivedStep(s, sup, prefill))
  {
    HintsDoNotBlock(s.stepName, prefill, Remaining(s, sup));
    FilterMembers(Survives(s.stepName, sup), s.violations);
  }

  /** A waiver pass leaves every step off the waivable surface where and as it was. */
  lemma SurvivesAdvance(cfg: Config, st: RunState, last: StepResult, s: StepResult)
    requires s in st.results && !OnSurface(s.stepName)
    ensures s in Advance(cfg, st, last).results
  {
    var i :| 0 <= i < |st.results| && st.results[i] == s;
    var next := Advance(cfg, st, last);
    assert next.results[i] == s;
  }

  lemma QuietWaived(cfg: Config, s: StepResult, sup: set<Key>)
    requires Computed(cfg, s) || Quiet(s)
    ensures var w := WaivedStep(s, sup, cfg.waiver.prefill);
      (Computed(cfg, w) || Quiet(w)) && (w.status == Fail <==> s.status == Fail)
  {
    if !Computed(cfg, s) { WaivingStaysQuiet(s, sup, cfg.waiver.prefill); }
  }

  lemma QuietWaiving(cfg: Config, results: seq<StepResult>)
    requires QuietButBaseline(cfg, results)
    ensures QuietButBaseline(cfg, WaivedResults(cfg, results))
    ensures SomeFails(WaivedResults(cfg, results)) <==> SomeFails(results)
  {
    var sup, waived := SuppressedKeys(cfg, results), WaivedResults(cfg, results);
    forall i | 0 <= i < |results|
      ensures Computed(cfg, waived[i]) || Quiet(waived[i])
      ensures waived[i].status == Fail <==> results[i].status == Fail
    {
      assert results[i] in results;
      QuietWaived(cfg, results[i], sup);
    }
    SameFailures(results, waived);
  }

  lemma QuietSnoc(cfg: Config, results: seq<StepResult>, s: StepResult)
    requires QuietButBaseline(cfg, results) && (Computed(cfg, s) || Quiet(s))
    ensures QuietButBaseline(cfg, results + [s])
    ensures SomeFails(results + [s]) <==> SomeFails(results) || s.status == Fail
  {
    assert s in results + [s];
    forall r | r in results ensures r in results + [s] {}
  }

  /** One turn of a quiet run: it can only start to fail at a baseline step that meets a new finding. */
  lemma QuietAdvance(cfg: Config, before: RunState, last: StepResult)
    requires !before.halted && Quiet(last) && QuietButBaseline(cfg, before.results)
    requires QuietDiagnostics(Advance(cfg, before, last).results)
    ensures var after := Advance(cfg, before, last).results;
      && QuietButBaseline(cfg, after)
      && (SomeFails(after) <==> SomeFails(before.results) || (Computed(cfg, last) && StandsNew(cfg, before.results)))
  {
    if cfg.waiverEnabled && last.stepName.WaiverResolution? {
      var step := WaiverStep(Adjudicated(cfg, before.results), cfg.waiver.unbound);
      QuietWaiving(cfg, before.results);
      assert step in Advance(cfg, before, last).results;
      StepVerdictMeaning(step.violations);
      QuietSnoc(cfg, WaivedResults(cfg, before.results), step);
    } else if Computed(cfg, last) {
      BaselineStepFails(cfg, before.results);
      QuietSnoc(cfg, before.results, BaselineStep(cfg, before.results));
    } else {
      QuietSnoc(cfg, before.results, last);
    }
  }

  lemma MeetsNewSnoc(cfg: Config, active: seq<Waiver>, init: seq<StepResult>, last: StepResult)
    ensures MeetsNew(cfg, active, init + [last]) <==>
      MeetsNew(cfg, active, init) || (Computed(cfg, last) && StandsNew(cfg, Chain(cfg, active, init).results))
  {
    var all := init + [last];
    assert all[..|init|] == init && all[|init|] == last;
    forall k | 0 <= k < |init| ensures all[..k] == init[..k] && all[k] == init[k] {}
  }

  ghost predicate QuietSteps(produced: seq<StepResult>) {
    forall s :: s in produced ==> Honest(s) && !s.configErr && !HasBlocking(s.violations)
  }

  lemma NeverHalts(cfg: Config, active: seq<Waiver>, produced: seq<StepResult>)
    requires forall s :: s in produced ==> !s.configErr
    ensures !Chain(cfg, active, produced).halted
  {
    ChainStops(cfg, active, produced);
  }

  lemma QuietDiagnosticsBefore(cfg: Config, before: RunState, last: StepResult)
    requires QuietDiagnostics(Advance(cfg, before, last).results)
    ensures QuietDiagnostics(before.results)
  {
    forall s | s in before.results && s.stepName.WaiverResolution? ensures !HasBlocking(s.violations) {
      SurvivesAdvance(cfg, before, last, s);
    }
  }

  lemma {:induction false} QuietChain(cfg: Config, active: seq<Waiver>, produced: seq<StepResult>)
    requires QuietSteps(produced) && QuietDiagnostics(Chain(cfg, active, produced).results)
    ensures var results := Chain(cfg, active, produced).results;
      QuietButBaseline(cfg, results) && (SomeFails(results) <==> MeetsNew(cfg, active, produced))
  {
    if produced != [] {
      var init, last := produced[..|produced| - 1], produced[|produced| - 1];
      assert produced == init + [last] && last in produced;
      assert QuietSteps(init);
      var before := Chain(cfg, active, init);
      NeverHalts(cfg, active, init);
      QuietDiagnosticsBefore(cfg, before, last);
      QuietChain(cfg, active, init);
      QuietAdvance(cfg, before, last);
      MeetsNewSnoc(cfg, active, init, last);
    }
  }

  lemma QuietAfterPolicy(cfg: Config, s: StepResult)
    requires cfg.policy != map[] && (s.stepName.BaselineComparison? || Quiet(s))
    ensures PoliciedStep(cfg.policy, cfg.recorded, cfg.scope, s).status != Fail
  {
    if !s.stepName.BaselineComparison? && Reaches(cfg.policy, s) {
      PolicyOnlyRelaxes(cfg.policy, cfg.recorded, cfg.scope, s);
      StepVerdictMeaning(s.violations);
    }
  }

  lemma QuietFinal(cfg: Config, st: RunState)
    requires QuietButBaseline(cfg, st.results)
    ensures SomeFails(Final(cfg, st)) <==> cfg.policy == map[] && SomeFails(st.results)
  {
    if cfg.policy != map[] {
      var final := Final(cfg, st);
      forall s | s in final ensures s.status != Fail {
        var i :| 0 <= i < |final| && final[i] == s;
        assert st.results[i] in st.results;
        QuietAfterPolicy(cfg, st.results[i]);
      }
    }
  }

  /** When no step and no waiver diagnostic of the run blocks and nothing is a config error, the run
      exits 1 iff no policy is set and some baseline step meets a standing finding that is new. */
  lemma NonBlockingExit(cfg: Config, active: seq<Waiver>, produced: seq<StepResult>)
    requires !cfg.configErr && QuietSteps(produced)
    requires QuietDiagnostics(Chain(cfg, active, produced).results)
    ensures Outcome(cfg, active, produced).1 == if cfg.policy == map[] && MeetsNew(cfg, active, produced) then 1 else 0
  {
    var st := Chain(cfg, active, produced);
    NeverHalts(cfg, active, produced);
    QuietChain(cfg, active, produced);
    QuietFinal(cfg, st);
    TallyMeaning(Final(cfg, st), Fail);
  }

  /** So with a policy, or without a loaded and enabled baseline, non-blocking findings never fail. */
  lemma NonBlockingNeverFails(cfg: Config, active: seq<Waiver>, produced: seq<StepResult>)
    requires !cfg.configErr && QuietSteps(produced)
    requires QuietDiagnostics(Chain(cfg, active, produced).results)
    requires cfg.policy != map[] || !cfg.baselineEnabled || cfg.recorded.None?
    ensures Outcome(cfg, active, produced).1 == 0
  {
    NonBlockingExit(cfg, active, produced);
  }

  const LATE_BASELINE := Produced(BaselineComparison, Skipped, [])

  /** A bare gate: an empty baseline, no policy, no waivers, no scope. */
  function BareBaseline(waiver: Inputs): Config {
    Config(false, None, true, Some([]), false, {}, map[], false, waiver)
  }

  const STYLE_WARNING := Report(PackRule("style"), "a.go", Text("long line"), "warning")
  const STYLE_STEP := Produced(PackEngines, Warning, [STYLE_WARNING])

  /** A single warning fails such a gate, although no step and no diagnostic blocks. */
  lemma WarningOnlyRunFails(waiver: Inputs, active: seq<Waiver>)
    ensures QuietSteps([STYLE_STEP, LATE_BASELINE])
    ensures QuietDiagnostics(Chain(BareBaseline(waiver), active, [STYLE_STEP, LATE_BASELINE]).results)
    ensures Outcome(BareBaseline(waiver), active, [STYLE_STEP, LATE_BASELINE]).1 == 1
  {
    var cfg, produced := BareBaseline(waiver), [STYLE_STEP, LATE_BASELINE];
    ErrorBlocks(STYLE_WARNING);
    ChainNames(cfg, active, produced);
    WarningStands(waiver, active);
    assert produced[..1] == [STYLE_STEP] && Computed(cfg, produced[1]);
    NonBlockingExit(cfg, active, produced);
  }

  lemma WarningStands(waiver: Inputs, active: seq<Waiver>)
    ensures StandsNew(BareBaseline(waiver), Chain(BareBaseline(waiver), active, [STYLE_STEP]).results)
  {
    var cfg := BareBaseline(waiver);
    assert [STYLE_STEP][..0] == [];
    assert Chain(cfg, active, [STYLE_STEP]).results == [] + [STYLE_STEP];
    FlatMapSnoc(CONTRIBUTION, [], STYLE_STEP);
    assert STYLE_WARNING in Accumulated([] + [STYLE_STEP]);
    assert NewIn(Ids([]), Options(cfg))(STYLE_WARNING);
  }

  lemma ChainNames(cfg: Config, active: seq<Waiver>, produced: seq<StepResult>)
    requires forall s :: s in produced ==> !s.stepName.WaiverResolution?
    ensures QuietDiagnostics(Chain(cfg, active, produced).results)
  {
    ChainStops(cfg, active, produced);
    var results := Chain(cfg, active, produced).results;
    forall s | s in results ensures !s.stepName.WaiverResolution? {
      var i :| 0 <= i < |results| && results[i] == s;
      assert produced[i] in produced;
    }
  }
}
