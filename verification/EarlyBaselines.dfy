/** Why the waiver step must come ahead of the baseline step: with the two swapped, a baseline
    loaded and no policy set, a waived finding still decides the exit code. */
module EarlyBaselines {
  import opened Seqs
  import opened Findings
  import opened Baseline
  import opened Waivers
  import opened Gates
  import opened GateLaws
  import opened SeverityLaws
  import opened TwoRuns

  /** Every finding on the surface is waived, silently. */
  const WAIVE_ALL: Inputs := Inputs(fs => Adjudication(fs, [], [], []), [], (step, v) => None)

  const BASELINE_PLACEHOLDER := Produced(BaselineComparison, Skipped, [])
  const WAIVER_PLACEHOLDER := Produced(WaiverResolution, Pass, [])

  function Scan(vs: seq<Violation>): StepResult {
    Produced(PackEngines, StepVerdict(vs), vs)
  }

  function EarlyBaseline(vs: seq<Violation>): seq<StepResult> {
    [Scan(vs), BASELINE_PLACEHOLDER]
  }

  ghost function Scanned(cfg: Config, vs: seq<Violation>): seq<StepResult> {
    [Scan(vs), BaselineStep(cfg, [Scan(vs)])]
  }

  lemma ScanChain(cfg: Config, active: seq<Waiver>, vs: seq<Violation>)
    ensures Chain(cfg, active, [Scan(vs)]) == RunState([Scan(vs)], active, false)
  {
    ChainSnoc(cfg, active, [], Scan(vs));
    assert [] + [Scan(vs)] == [Scan(vs)];
  }

  lemma BaselineAdvance(cfg: Config, st: RunState)
    requires cfg.baselineEnabled && !st.halted
    ensures Advance(cfg, st, BASELINE_PLACEHOLDER)
         == RunState(st.results + [BaselineStep(cfg, st.results)], st.active, false)
  {
  }

  lemma ScannedChain(cfg: Config, active: seq<Waiver>, vs: seq<Violation>)
    requires cfg.baselineEnabled
    ensures Chain(cfg, active, EarlyBaseline(vs)) == RunState(Scanned(cfg, vs), active, false)
  {
    ScanChain(cfg, active, vs);
    BaselineAdvance(cfg, RunState([Scan(vs)], active, false));
    assert EarlyBaseline(vs)[..1] == [Scan(vs)];
  }

  lemma WaivedChain(cfg: Config, active: seq<Waiver>, produced: seq<StepResult>)
    requires cfg.waiverEnabled && !Chain(cfg, active, produced).halted
    ensures var st, rs := Chain(cfg, active, produced + [WAIVER_PLACEHOLDER]), Chain(cfg, active, produced).results;
      !st.halted && st.results == WaivedResults(cfg, rs) + [WaiverStep(Adjudicated(cfg, rs), cfg.waiver.unbound)]
  {
    ChainSnoc(cfg, active, produced, WAIVER_PLACEHOLDER);
  }

  lemma NothingRemains(step: StepName, vs: seq<Violation>, sup: set<Key>)
    requires forall v :: v in vs ==> KeyOf(step, v) in sup
    ensures Filter(Survives(step, sup), vs) == []
  {
    FilterNothing(Survives(step, sup), vs);
  }

  lemma BareExit(cfg: Config, active: seq<Waiver>, produced: seq<StepResult>)
    requires !cfg.configErr && cfg.policy == map[] && !Chain(cfg, active, produced).halted
    ensures Outcome(cfg, active, produced).1 == if SomeFails(Chain(cfg, active, produced).results) then 1 else 0
  {
    TallyMeaning(Chain(cfg, active, produced).results, Fail);
  }

  ghost predicate WaivesAll(cfg: Config) {
    cfg.waiver == WAIVE_ALL && cfg.waiverEnabled && cfg.baselineEnabled && cfg.policy == map[] && !cfg.configErr
  }

  /** Such a run fails exactly when the early baseline step does. */
  lemma EarlyBaselineExit(cfg: Config, active: seq<Waiver>, vs: seq<Violation>)
    requires WaivesAll(cfg)
    ensures Outcome(cfg, active, EarlyBaseline(vs) + [WAIVER_PLACEHOLDER]).1
         == if BaselineStep(cfg, [Scan(vs)]).status == Fail then 1 else 0
  {
    ScannedChain(cfg, active, vs);
    WaivedChain(cfg, active, EarlyBaseline(vs));
    BareExit(cfg, active, EarlyBaseline(vs) + [WAIVER_PLACEHOLDER]);
    WaivedScan(cfg, vs, BaselineStep(cfg, [Scan(vs)]));
  }

  lemma WaivedScan(cfg: Config, vs: seq<Violation>, b: StepResult)
    requires WaivesAll(cfg) && b.stepName.BaselineComparison?
    ensures var rs := [Scan(vs), b];
      SomeFails(WaivedResults(cfg, rs) + [WaiverStep(Adjudicated(cfg, rs), cfg.waiver.unbound)]) <==> b.status == Fail
  {
    var rs := [Scan(vs), b];
    var left := WaivedResults(cfg, rs);
    AllWaived(cfg, rs, 0);
    SilentWaiverStep(cfg, rs);
    assert left[0] == WaivedStep(rs[0], SuppressedKeys(cfg, rs), cfg.waiver.prefill);
    assert left[1] == b;
    OneMayFail(left, WaiverStep(Adjudicated(cfg, rs), cfg.waiver.unbound));
  }

  lemma SilentWaiverStep(cfg: Config, rs: seq<StepResult>)
    requires cfg.waiver == WAIVE_ALL
    ensures WaiverStep(Adjudicated(cfg, rs), cfg.waiver.unbound).status != Fail
  {
    assert Diagnostics(Adjudicated(cfg, rs), cfg.waiver.unbound) == [];
  }

  lemma OneMayFail(rs: seq<StepResult>, s: StepResult)
    requires |rs| == 2 && rs[0].status != Fail && s.status != Fail
    ensures SomeFails(rs + [s]) <==> rs[1].status == Fail
  {
    assert rs[1] in rs + [s];
  }

  lemma AllWaived(cfg: Config, rs: seq<StepResult>, k: nat)
    requires cfg.waiver == WAIVE_ALL && k < |rs| && OnSurface(rs[k].stepName)
    ensures var w := WaivedStep(rs[k], SuppressedKeys(cfg, rs), cfg.waiver.prefill);
      Remaining(rs[k], SuppressedKeys(cfg, rs)) == [] && w.violations == [] && w.status != Fail
  {
    var s, sup := rs[k], SuppressedKeys(cfg, rs);
    forall v | v in s.violations ensures KeyOf(s.stepName, v) in sup {
      var i :| 0 <= i < |s.violations| && s.violations[i] == v;
      var f := AsFinding(s.stepName)(v);
      assert SURFACE(s)[i] == f;
      assert s in rs && f in SURFACE(s);
      FlatMapMember(SURFACE, rs, f);
    }
    NothingRemains(s.stepName, s.violations, sup);
  }

  /** Non-interference needs the order.  With a baseline loaded, no policy, and the baseline step
      ahead of the waiver step, a finding that is new and waived still fails the run, and a run
      without that finding, leaving the same nothing standing, passes. */
  lemma EarlyBaselineInterferes(cfg: Config, active: seq<Waiver>, v: Violation)
    requires WaivesAll(cfg) && cfg.recorded.Some? && NewIn(Ids(cfg.recorded.value), Options(cfg))(v)
    ensures AllPaired(cfg, EarlyBaseline([v]), EarlyBaseline([]))
    ensures AgreeOnRemains(cfg, EarlyBaseline([v]), cfg, EarlyBaseline([]))
    ensures Outcome(cfg, active, EarlyBaseline([v]) + [WAIVER_PLACEHOLDER]).1 == 1
    ensures Outcome(cfg, active, EarlyBaseline([]) + [WAIVER_PLACEHOLDER]).1 == 0
  {
    EarlyBaselineExit(cfg, active, [v]);
    EarlyBaselineExit(cfg, active, []);
    assert v in [v];
    ScanIsNew(cfg, [v]);
    ScanIsNew(cfg, []);
    ScansAgree(cfg, [v], []);
  }

  lemma ScanIsNew(cfg: Config, vs: seq<Violation>)
    requires cfg.recorded.Some?
    ensures BaselineStep(cfg, [Scan(vs)]).status == Fail
       <==> exists v :: v in vs && NewIn(Ids(cfg.recorded.value), Options(cfg))(v)
  {
    ScanAccumulates(vs);
    BaselineStepFails(cfg, [Scan(vs)]);
  }

  lemma ScanAccumulates(vs: seq<Violation>)
    ensures Accumulated([Scan(vs)]) == vs
  {
    FlatMapSnoc(CONTRIBUTION, [], Scan(vs));
    assert [] + [Scan(vs)] == [Scan(vs)];
  }

  lemma ScansAgree(cfg: Config, vs: seq<Violation>, ws: seq<Violation>)
    requires WaivesAll(cfg)
    ensures AllPaired(cfg, EarlyBaseline(vs), EarlyBaseline(ws))
    ensures AgreeOnRemains(cfg, EarlyBaseline(vs), cfg, EarlyBaseline(ws))
  {
    ScansPaired(cfg, vs, ws);
    AllWaived(cfg, EarlyBaseline(vs), 0);
    AllWaived(cfg, EarlyBaseline(ws), 0);
  }

  lemma ScansPaired(cfg: Config, vs: seq<Violation>, ws: seq<Violation>)
    ensures AllPaired(cfg, EarlyBaseline(vs), EarlyBaseline(ws))
  {
    StepVerdictMeaning(vs);
    StepVerdictMeaning(ws);
    assert Paired(cfg, Scan(vs), Scan(ws)) && Paired(cfg, BASELINE_PLACEHOLDER, BASELINE_PLACEHOLDER);
  }

  // ---------------------------------------------------------------- exactly when the order matters

  /** Two runs of any order that differ only in their waivers and in steps those waivers even out. */
  ghost predicate EvenedOut(cfg: Config, cfg': Config, pre: seq<StepResult>, pre': seq<StepResult>, w: StepResult,
                            post: seq<StepResult>)
  {
    && SameButWaivers(cfg, cfg') && AllPaired(cfg, pre, pre') && w.stepName.WaiverResolution?
    && (forall s :: s in pre + pre' + post ==> !s.stepName.WaiverResolution?)
    && (!SomeHalts(cfg, pre) ==> AgreeOnRemains(cfg, pre, cfg', pre'))
  }

  ghost predicate ExitAlike(cfg: Config, cfg': Config, active: seq<Waiver>, pre: seq<StepResult>, pre': seq<StepResult>,
                            w: StepResult, post: seq<StepResult>)
  {
    Outcome(cfg, active, pre + [w] + post).1 == Outcome(cfg', active, pre' + [w] + post).1
  }

  /** Under this configuration, with whatever waivers, such runs exit alike in every order. */
  ghost predicate OrderFree(cfg: Config) {
    forall waiver, waiver', active, pre, pre', w, post ::
      EvenedOut(cfg.(waiver := waiver), cfg.(waiver := waiver'), pre, pre', w, post) ==>
        ExitAlike(cfg.(waiver := waiver), cfg.(waiver := waiver'), active, pre, pre', w, post)
  }

  lemma UndecidedInPlace(cfg: Config, pre: seq<StepResult>, w: StepResult, post: seq<StepResult>)
    requires cfg.waiverEnabled && !BaselineDecides(cfg) && w.stepName.WaiverResolution?
    requires forall s :: s in pre + post ==> !s.stepName.WaiverResolution?
    ensures WaiversInPlace(cfg, pre, w, post)
  {
    forall s | s in pre ensures s in pre + post {}
    forall s | s in post ensures s in pre + post {}
  }

  lemma UndecidedExitAlike(cfg: Config, cfg': Config, active: seq<Waiver>, pre: seq<StepResult>, pre': seq<StepResult>,
                           w: StepResult, post: seq<StepResult>)
    requires cfg.waiverEnabled && !BaselineDecides(cfg) && EvenedOut(cfg, cfg', pre, pre', w, post)
    ensures ExitAlike(cfg, cfg', active, pre, pre', w, post)
  {
    forall s | s in pre + post ensures s in pre + pre' + post {}
    forall s | s in pre' + post ensures s in pre + pre' + post {}
    UndecidedInPlace(cfg, pre, w, post);
    UndecidedInPlace(cfg', pre', w, post);
    WaiverNonInterference(cfg, cfg', active, pre, pre', w, post);
  }

  lemma ScansEvenOut(cfg: Config, vs: seq<Violation>, ws: seq<Violation>)
    requires WaivesAll(cfg)
    ensures EvenedOut(cfg, cfg, EarlyBaseline(vs), EarlyBaseline(ws), WAIVER_PLACEHOLDER, [])
  {
    ScansAgree(cfg, vs, ws);
    NoWaiverIn(vs);
    NoWaiverIn(ws);
  }

  lemma NoWaiverIn(vs: seq<Violation>)
    ensures forall s :: s in EarlyBaseline(vs) ==> !s.stepName.WaiverResolution?
  {
  }

  lemma InterferingRuns(cfg: Config, v: Violation)
    requires WaivesAll(cfg) && cfg.recorded.Some? && NewIn(Ids(cfg.recorded.value), Options(cfg))(v)
    ensures EvenedOut(cfg, cfg, EarlyBaseline([v]), EarlyBaseline([]), WAIVER_PLACEHOLDER, [])
    ensures !ExitAlike(cfg, cfg, [], EarlyBaseline([v]), EarlyBaseline([]), WAIVER_PLACEHOLDER, [])
  {
    ScansEvenOut(cfg, [v], []);
    EarlyBaselineInterferes(cfg, [], v);
    NoTail(EarlyBaseline([v]) + [WAIVER_PLACEHOLDER]);
    NoTail(EarlyBaseline([]) + [WAIVER_PLACEHOLDER]);
  }

  lemma NoTail<T>(s: seq<T>)
    ensures s + [] == s
  {
  }

  lemma DecidingBreaks(cfg: Config)
    requires cfg.waiverEnabled && !cfg.configErr && BaselineDecides(cfg)
    ensures !OrderFree(cfg)
  {
    var c := cfg.(waiver := WAIVE_ALL);
    NovelIsNew(c.recorded.value, Options(c));
    InterferingRuns(c, Novel(c.recorded.value));
  }

  /** Waiver non-interference holds in every order of the steps iff no baseline step can decide. */
  lemma OrderMattersExactly(cfg: Config)
    requires cfg.waiverEnabled && !cfg.configErr
    ensures OrderFree(cfg) <==> !BaselineDecides(cfg)
  {
    if BaselineDecides(cfg) {
      DecidingBreaks(cfg);
    } else {
      forall waiver, waiver', active, pre, pre', w, post |
        EvenedOut(cfg.(waiver := waiver), cfg.(waiver := waiver'), pre, pre', w, post)
        ensures ExitAlike(cfg.(waiver := waiver), cfg.(waiver := waiver'), active, pre, pre', w, post)
      {
        UndecidedExitAlike(cfg.(waiver := waiver), cfg.(waiver := waiver'), active, pre, pre', w, post);
      }
    }
  }
}
