/** The run loop of the gate (pkg/gate/gate.go) and the result summary (pkg/gate/result.go). */
module Gates {
  import opened Seqs
  import opened Findings
  import opened Scopes
  import opened Baseline
  import opened Policies
  import opened Waivers

  /** What the options attach to a gate. */
  datatype Config = Config(
    configErr: bool,
    scope: Scope,
    baselineEnabled: bool,
    recorded: Recorded,
    seeding: bool,
    changed: set<string>,
    policy: Policy,
    waiverEnabled: bool,
    waiver: Inputs)

  datatype Totals = Totals(totalViolations: nat, totalWarnings: nat,
                           passed: nat, failed: nat, skipped: nat, warned: nat)

  datatype GateResult = GateResult(scope: Scope, pass: bool, counts: Totals, nativeSandbox: bool,
                                   steps: seq<StepResult>, activeWaivers: seq<Waiver>)

  // ---------------------------------------------------------------- one step of a run

  datatype RunState = RunState(results: seq<StepResult>, active: seq<Waiver>, halted: bool)

  function Options(cfg: Config): CompareOptions {
    CompareOptions(cfg.scope, cfg.seeding, cfg.changed)
  }

  /** computeBaselineResult: any new finding fails the step, whatever its severity. */
  ghost function BaselineStep(cfg: Config, results: seq<StepResult>): StepResult {
    if cfg.recorded.None? then Produced(BaselineComparison, Skipped, [])
    else
      var c := Compared(Accumulated(results), cfg.recorded, Options(cfg));
      StepResult(BaselineComparison, if c.newViolations == [] then Pass else Fail,
                 c.newViolations, c.newViolations, c.fixedViolations, c.seededViolations, false, false)
  }

  function Adjudicated(cfg: Config, results: seq<StepResult>): Adjudication {
    cfg.waiver.adjudicate(Offered(results))
  }

  function SuppressedKeys(cfg: Config, results: seq<StepResult>): set<Key> {
    Suppressions(Adjudicated(cfg, results).suppressed)
  }

  function WaivedResults(cfg: Config, results: seq<StepResult>): seq<StepResult> {
    Map(Waived(SuppressedKeys(cfg, results), cfg.waiver.prefill), results)
  }

  ghost function Advance(cfg: Config, st: RunState, produced: StepResult): RunState {
    if st.halted then st
    else if cfg.waiverEnabled && produced.stepName.WaiverResolution? then
      RunState(WaivedResults(cfg, st.results) + [WaiverStep(Adjudicated(cfg, st.results), cfg.waiver.unbound)],
               Adjudicated(cfg, st.results).active, false)
    else if cfg.baselineEnabled && produced.stepName.BaselineComparison? then
      st.(results := st.results + [BaselineStep(cfg, st.results)])
    else
      st.(results := st.results + [produced], halted := produced.configErr)
  }

  ghost function Chain(cfg: Config, active: seq<Waiver>, produced: seq<StepResult>): RunState {
    if produced == [] then RunState([], active, false)
    else Advance(cfg, Chain(cfg, active, produced[..|produced| - 1]), produced[|produced| - 1])
  }

  // ---------------------------------------------------------------- the summary

  ghost function EnrichedStep(s: StepResult): StepResult {
    s.(violations := Map(ENRICH, s.violations),
       newViolations := Map(ENRICH, s.newViolations),
       fixedViolations := Image(ENRICH, s.fixedViolations),
       seededViolations := Map(ENRICH, s.seededViolations))
  }

  ghost const ENRICHED: StepResult -> StepResult := (s: StepResult) => EnrichedStep(s)
  const REPORTED: StepResult -> seq<Violation> := (s: StepResult) => s.violations
  const LOUD: Violation -> bool := (v: Violation) => !BlocksVerdict(v)

  function WithStatus(status: Status): StepResult -> bool {
    (s: StepResult) => s.status == status
  }

  function Tally(steps: seq<StepResult>, status: Status): nat {
    |Filter(WithStatus(status), steps)|
  }

  function Reported(steps: seq<StepResult>): seq<Violation> {
    FlatMap(REPORTED, steps)
  }

  function CountsOf(steps: seq<StepResult>): Totals {
    Totals(|Filter(BLOCKS, Reported(steps))|, |Filter(LOUD, Reported(steps))|,
           Tally(steps, Pass), Tally(steps, Fail), Tally(steps, Skipped), Tally(steps, Warning))
  }

  ghost predicate SomeSandboxed(steps: seq<StepResult>) {
    exists s :: s in steps && s.nativeSandbox
  }

  ghost function Summary(steps: seq<StepResult>, scope: Scope): GateResult {
    GateResult(scope, Tally(steps, Fail) == 0, CountsOf(steps), SomeSandboxed(steps), Map(ENRICHED, steps), [])
  }

  method TallyBySeverity(vs: seq<Violation>) returns (blocking: nat, warnings: nat)
    ensures blocking == |Filter(BLOCKS, vs)| && warnings == |Filter(LOUD, vs)|
    ensures blocking + warnings == |vs|
  {
    blocking, warnings := 0, 0;
    for i := 0 to |vs|
      invariant blocking == |Filter(BLOCKS, vs[..i])| && warnings == |Filter(LOUD, vs[..i])|
      invariant blocking + warnings == i
    {
      PrefixStep(vs, i);
      if BlocksVerdict(vs[i]) {
        blocking := blocking + 1;
      } else {
        warnings := warnings + 1;
      }
    }
    assert vs[..|vs|] == vs;
  }

  function One(b: bool): nat {
    if b then 1 else 0
  }

  function CountedIn(c: Totals, s: StepResult): Totals {
    Totals(c.totalViolations + |Filter(BLOCKS, s.violations)|, c.totalWarnings + |Filter(LOUD, s.violations)|,
           c.passed + One(s.status.Pass?), c.failed + One(s.status.Fail?),
           c.skipped + One(s.status.Skipped?), c.warned + One(s.status.Warning?))
  }

  lemma TallySnoc(steps: seq<StepResult>, s: StepResult, status: Status)
    ensures Tally(steps + [s], status) == Tally(steps, status) + One(s.status == status)
  {
    FilterSnoc(WithStatus(status), steps, s);
  }

  lemma CountsSnoc(steps: seq<StepResult>, s: StepResult)
    ensures CountsOf(steps + [s]) == CountedIn(CountsOf(steps), s)
  {
    TallySnoc(steps, s, Pass);
    TallySnoc(steps, s, Fail);
    TallySnoc(steps, s, Skipped);
    TallySnoc(steps, s, Warning);
    FlatMapSnoc(REPORTED, steps, s);
    FilterConcat(BLOCKS, Reported(steps), s.violations);
    FilterConcat(LOUD, Reported(steps), s.violations);
  }

  /** NewGateResultWithScope */
  method NewGateResult(steps: seq<StepResult>, scope: Scope) returns (r: GateResult)
    ensures r == Summary(steps, scope)
  {
    var pass, counts, sandboxed, enriched := true, Totals(0, 0, 0, 0, 0, 0), false, [];
    for i := 0 to |steps|
      invariant pass == (Tally(steps[..i], Fail) == 0)
      invariant counts == CountsOf(steps[..i])
      invariant sandboxed <==> SomeSandboxed(steps[..i])
      invariant enriched == Map(ENRICHED, steps[..i])
    {
      PrefixStep(steps, i);
      CountsSnoc(steps[..i], steps[i]);
      MapSnoc(ENRICHED, steps[..i], steps[i]);
      var s := EnrichStep(steps[i]);
      counts := CountStep(counts, steps[i]);
      pass := pass && !steps[i].status.Fail?;
      sandboxed := sandboxed || steps[i].nativeSandbox;
      enriched := enriched + [s];
    }
    assert steps[..|steps|] == steps;
    r := GateResult(scope, pass, counts, sandboxed, enriched, []);
  }

  method CountStep(c: Totals, s: StepResult) returns (r: Totals)
    ensures r == CountedIn(c, s)
  {
    var passed, failed, skipped, warned := c.passed, c.failed, c.skipped, c.warned;
    match s.status {
      case Pass => passed := passed + 1;
      case Fail => failed := failed + 1;
      case Skipped => skipped := skipped + 1;
      case Warning => warned := warned + 1;
    }
    var blocking, warnings := TallyBySeverity(s.violations);
    r := Totals(c.totalViolations + blocking, c.totalWarnings + warnings, passed, failed, skipped, warned);
  }

  method EnrichStep(s: StepResult) returns (r: StepResult)
    ensures r == EnrichedStep(s)
  {
    var violations := EnrichEach(s.violations);
    var newViolations := EnrichEach(s.newViolations);
    var fixed := EnrichBag(s.fixedViolations);
    var seeded := EnrichEach(s.seededViolations);
    r := s.(violations := violations, newViolations := newViolations, fixedViolations := fixed,
            seededViolations := seeded);
  }

  method EnrichBag(vs: multiset<Violation>) returns (r: multiset<Violation>)
    ensures r == Image(ENRICH, vs)
  {
    r := multiset{};
    var todo := vs;
    ghost var done: multiset<Violation> := multiset{};
    while todo != multiset{}
      invariant done + todo == vs
      invariant r == Image(ENRICH, done)
      decreases |todo|
    {
      var v :| v in todo;
      todo := todo - multiset{v};
      ImageAdd(ENRICH, done, v);
      done := done + multiset{v};
      r := r + multiset{Enrich(v)};
    }
    assert done == vs;
  }

  // ---------------------------------------------------------------- a whole run

  ghost function Final(cfg: Config, st: RunState): seq<StepResult> {
    Policied(st.results, cfg.recorded, cfg.policy, cfg.scope)
  }

  function Refused(scope: Scope): GateResult {
    GateResult(scope, false, Totals(0, 0, 0, 0, 0, 0), false, [], [])
  }

  ghost function Outcome(cfg: Config, active: seq<Waiver>, produced: seq<StepResult>): (GateResult, nat) {
    if cfg.configErr then (Refused(cfg.scope), 2)
    else
      var st := Chain(cfg, active, produced);
      var result := Summary(Final(cfg, st), cfg.scope).(activeWaivers := st.active);
      (result, if st.halted then 2 else if result.pass then 0 else 1)
  }

  lemma {:induction false} HaltedStays(cfg: Config, active: seq<Waiver>, produced: seq<StepResult>, k: nat)
    requires k <= |produced| && Chain(cfg, active, produced[..k]).halted
    ensures Chain(cfg, active, produced) == Chain(cfg, active, produced[..k])
  {
    if k == |produced| {
      assert produced[..k] == produced;
    } else {
      assert produced[..|produced| - 1][..k] == produced[..k];
      HaltedStays(cfg, active, produced[..|produced| - 1], k);
    }
  }

  class Gate {
    const cfg: Config
    const steps: seq<StepResult>
    var results: seq<StepResult>
    var activeWaivers: seq<Waiver>

    /** `steps` are what the step functions yield, in order. */
    constructor (cfg: Config, steps: seq<StepResult>)
      ensures this.cfg == cfg && this.steps == steps && results == [] && activeWaivers == []
    {
      this.cfg, this.steps := cfg, steps;
      results, activeWaivers := [], [];
    }

    /** computeWaiverResult: rewrites the accumulated results in place. */
    method ComputeWaiverResult() returns (step: StepResult)
      modifies this`results, this`activeWaivers
      ensures results == WaivedResults(cfg, old(results))
      ensures activeWaivers == Adjudicated(cfg, old(results)).active
      ensures step == WaiverStep(Adjudicated(cfg, old(results)), cfg.waiver.unbound)
    {
      var findings := CollectFindings(results);
      var res := cfg.waiver.adjudicate(findings);
      var sup := CollectSuppressions(res.suppressed);
      SubtractAll(sup);
      activeWaivers := res.active;
      var wv := CollectDiagnostics(res, cfg.waiver.unbound);
      step := Produced(WaiverResolution, StepVerdict(wv), wv);
    }

    /** The subtraction: every accumulated step rewritten where it stands. */
    method SubtractAll(sup: set<Key>)
      modifies this`results
      ensures results == Map(Waived(sup, cfg.waiver.prefill), old(results))
    {
      for i := 0 to |results|
        invariant |results| == |old(results)|
        invariant forall j :: 0 <= j < i ==> results[j] == WaivedStep(old(results)[j], sup, cfg.waiver.prefill)
        invariant forall j :: i <= j < |results| ==> results[j] == old(results)[j]
      {
        var s := SubtractFrom(results[i], sup, cfg.waiver.prefill);
        results := results[i := s];
      }
    }

    method ComputeBaselineResult() returns (step: StepResult)
      ensures step == BaselineStep(cfg, results)
    {
      if cfg.recorded.None? {
        return Produced(BaselineComparison, Skipped, []);
      }
      var current := AccumulatedViolations(results);
      var c := CompareBaseline(current, cfg.recorded, Options(cfg));
      if |c.newViolations| == 0 {
        return StepResult(BaselineComparison, Pass, [], [], c.fixedViolations, c.seededViolations, false, false);
      }
      step := StepResult(BaselineComparison, Fail, c.newViolations, c.newViolations,
                         c.fixedViolations, c.seededViolations, false, false);
    }

    /** One turn of the run loop. */
    method RunStep(produced: StepResult) returns (halted: bool)
      modifies this`results, this`activeWaivers
      ensures RunState(results, activeWaivers, halted)
           == Advance(cfg, RunState(old(results), old(activeWaivers), false), produced)
    {
      var step := produced;
      if cfg.waiverEnabled && step.stepName.WaiverResolution? {
        step := ComputeWaiverResult();
      }
      if cfg.baselineEnabled && step.stepName.BaselineComparison? {
        step := ComputeBaselineResult();
      }
      results := results + [step];
      halted := step.configErr;
    }

    /** Run */
    method Run() returns (result: GateResult, exit: nat)
      modifies this
      ensures (result, exit) == Outcome(cfg, old(activeWaivers), steps)
    {
      if cfg.configErr {
        return Refused(cfg.scope), 2;
      }
      results := [];
      var halted := RunSteps();
      results := ApplyPolicy(results, cfg.recorded, cfg.policy, cfg.scope);
      result := NewGateResult(results, cfg.scope);
      result := result.(activeWaivers := activeWaivers);
      exit := if halted then 2 else if result.pass then 0 else 1;
    }

    method RunSteps() returns (halted: bool)
      requires results == []
      modifies this`results, this`activeWaivers
      ensures RunState(results, activeWaivers, halted) == Chain(cfg, old(activeWaivers), steps)
    {
      for i := 0 to |steps|
        invariant Chain(cfg, old(activeWaivers), steps[..i]) == RunState(results, activeWaivers, false)
      {
        PrefixStep(steps, i);
        halted := RunStep(steps[i]);
        if halted {
          HaltedStays(cfg, old(activeWaivers), steps, i + 1);
          return;
        }
      }
      assert steps[..|steps|] == steps;
      halted := false;
    }
  }
}
