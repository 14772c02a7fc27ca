/** Whole runs: where a run stops, what it exits with and what it shows. */
module GateLaws {
  import opened Seqs
  import opened Findings
  import opened Scopes
  import opened Baseline
  import opened PolicyLaws
  import opened Waivers
  import opened Gates

  // ---------------------------------------------------------------- run semantics

  /** A baseline step whose result the run computes itself. */
  predicate Computed(cfg: Config, s: StepResult) {
    cfg.baselineEnabled && s.stepName.BaselineComparison?
  }

  /** The run computes this step itself. */
  predicate Replaced(cfg: Config, s: StepResult) {
    (cfg.waiverEnabled && s.stepName.WaiverResolution?) || Computed(cfg, s)
  }

  /** A produced config error that the run really sees: the waiver and baseline steps are
      replaced before their flag is looked at. */
  predicate Halts(cfg: Config, s: StepResult) {
    s.configErr && !Replaced(cfg, s)
  }

  ghost predicate SomeHalts(cfg: Config, produced: seq<StepResult>) {
    exists s :: s in produced && Halts(cfg, s)
  }

  /** `n` steps were run: all of them, or through the first one that halts. */
  ghost predicate RanThrough(cfg: Config, produced: seq<StepResult>, n: nat) {
    && n <= |produced|
    && (SomeHalts(cfg, produced) ==> n > 0 && Halts(cfg, produced[n - 1]))
    && (!SomeHalts(cfg, produced) ==> n == |produced|)
    && forall i :: 0 <= i < n - 1 ==> !Halts(cfg, produced[i])
  }

  ghost predicate Stops(cfg: Config, produced: seq<StepResult>, st: RunState) {
    && RanThrough(cfg, produced, |st.results|)
    && (st.halted <==> SomeHalts(cfg, produced))
    && (forall i :: 0 <= i < |st.results| ==> st.results[i].stepName == produced[i].stepName)
    && (st.halted ==> st.results[|st.results| - 1] == produced[|st.results| - 1])
  }

  lemma AdvanceShape(cfg: Config, st: RunState, produced: StepResult)
    requires !st.halted
    ensures var next := Advance(cfg, st, produced);
      && |next.results| == |st.results| + 1
      && next.halted == Halts(cfg, produced)
      && (forall i :: 0 <= i < |st.results| ==> next.results[i].stepName == st.results[i].stepName)
      && next.results[|st.results|].stepName == produced.stepName
      && (next.halted ==> next.results[|st.results|] == produced)
  {
  }

  lemma StopsSnoc(cfg: Config, init: seq<StepResult>, last: StepResult, st: RunState, next: RunState)
    requires Stops(cfg, init, st) && !st.halted
    requires |next.results| == |st.results| + 1 && next.halted == Halts(cfg, last)
    requires forall i :: 0 <= i < |st.results| ==> next.results[i].stepName == st.results[i].stepName
    requires next.results[|st.results|].stepName == last.stepName
    requires next.halted ==> next.results[|st.results|] == last
    ensures Stops(cfg, init + [last], next)
  {
    assert SomeHalts(cfg, init + [last]) <==> Halts(cfg, last);
    forall i | 0 <= i < |init| ensures !Halts(cfg, (init + [last])[i]) { assert init[i] in init; }
  }

  lemma StopsStays(cfg: Config, init: seq<StepResult>, last: StepResult, st: RunState)
    requires Stops(cfg, init, st) && st.halted
    ensures Stops(cfg, init + [last], st)
  {
    var s :| s in init && Halts(cfg, s);
    assert s in init + [last];
  }

  lemma {:induction false} ChainStops(cfg: Config, active: seq<Waiver>, produced: seq<StepResult>)
    ensures Stops(cfg, produced, Chain(cfg, active, produced))
  {
    if produced != [] {
      var init, last := produced[..|produced| - 1], produced[|produced| - 1];
      var before := Chain(cfg, active, init);
      ChainStops(cfg, active, init);
      assert produced == init + [last];
      if before.halted {
        StopsStays(cfg, init, last, before);
      } else {
        AdvanceShape(cfg, before, last);
        StopsSnoc(cfg, init, last, before, Advance(cfg, before, last));
      }
    }
  }

  lemma TallyMeaning(steps: seq<StepResult>, status: Status)
    ensures Tally(steps, status) == 0 <==> forall s :: s in steps ==> s.status != status
  {
    FilterMembers(WithStatus(status), steps);
    if Tally(steps, status) != 0 {
      assert Filter(WithStatus(status), steps)[0] in Filter(WithStatus(status), steps);
    }
  }

  lemma {:induction false} BlockingAndLoud(vs: seq<Violation>)
    ensures |Filter(BLOCKS, vs)| + |Filter(LOUD, vs)| == |vs|
  {
    if vs != [] { BlockingAndLoud(vs[..|vs| - 1]); }
  }

  ghost predicate SomeFails(steps: seq<StepResult>) {
    exists s :: s in steps && s.status == Fail
  }

  lemma SameFailures(steps: seq<StepResult>, steps': seq<StepResult>)
    requires |steps| == |steps'|
    requires forall i :: 0 <= i < |steps| ==> (steps[i].status == Fail <==> steps'[i].status == Fail)
    ensures SomeFails(steps) <==> SomeFails(steps')
  {
    if s :| s in steps && s.status == Fail {
      var i :| 0 <= i < |steps| && steps[i] == s;
      assert steps'[i] in steps';
    }
    if s :| s in steps' && s.status == Fail {
      var i :| 0 <= i < |steps'| && steps'[i] == s;
      assert steps[i] in steps;
    }
  }

  lemma ReportedSnoc(steps: seq<StepResult>, s: StepResult)
    ensures |Reported(steps + [s])| == |Reported(steps)| + |s.violations|
  {
    FlatMapSnoc(REPORTED, steps, s);
  }

  lemma {:induction false} SameReports(steps: seq<StepResult>, steps': seq<StepResult>)
    requires |steps| == |steps'|
    requires forall i :: 0 <= i < |steps| ==> |steps[i].violations| == |steps'[i].violations|
    ensures |Reported(steps)| == |Reported(steps')|
  {
    if steps != [] {
      var n := |steps| - 1;
      SameReports(steps[..n], steps'[..n]);
      ReportedSnoc(steps[..n], steps[n]);
      ReportedSnoc(steps'[..n], steps'[n]);
      assert steps == steps[..n] + [steps[n]] && steps' == steps'[..n] + [steps'[n]];
    }
  }

  /** The result shows exactly the steps run, under their own names. */
  lemma RunShowsPrefix(cfg: Config, active: seq<Waiver>, produced: seq<StepResult>)
    requires !cfg.configErr
    ensures var steps := Outcome(cfg, active, produced).0.steps;
      && RanThrough(cfg, produced, |steps|)
      && (forall i :: 0 <= i < |steps| ==> steps[i].stepName == produced[i].stepName)
  {
    ChainStops(cfg, active, produced);
    FinalKeeps(cfg, Chain(cfg, active, produced));
  }

  /** Exit 2 iff some step halts the run, else 1 iff a final step fails, else 0. */
  lemma RunExit(cfg: Config, active: seq<Waiver>, produced: seq<StepResult>)
    requires !cfg.configErr
    ensures var (r, exit) := Outcome(cfg, active, produced);
      && exit == (if SomeHalts(cfg, produced) then 2 else if SomeFails(r.steps) then 1 else 0)
      && (r.pass <==> !SomeFails(r.steps))
  {
    ChainStops(cfg, active, produced);
    SummaryMeaning(Final(cfg, Chain(cfg, active, produced)), cfg.scope);
  }

  ghost predicate SomeFlagged(produced: seq<StepResult>) {
    exists s :: s in produced && s.configErr
  }

  /** Exit 2 says that some produced step is flagged a config error, except exactly when some are and
      every one of them is a waiver or baseline placeholder the run replaces. */
  lemma FlagDecidesExit(cfg: Config, active: seq<Waiver>, produced: seq<StepResult>)
    requires !cfg.configErr
    ensures (Outcome(cfg, active, produced).1 == 2 <==> SomeFlagged(produced)) <==>
      !(SomeFlagged(produced) && forall s :: s in produced && s.configErr ==> Replaced(cfg, s))
  {
    RunExit(cfg, active, produced);
  }

  const UNLOADED := Produced(BaselineComparison, Skipped, [])
  const FLAGGED := UNLOADED.(configErr := true)

  /** Baseline comparison enabled, and no baseline to compare with. */
  function Unbased(waiver: Inputs): Config {
    Config(false, None, true, None, false, {}, map[], false, waiver)
  }

  /** A flagged baseline placeholder, with no baseline loaded: exit 0. */
  lemma FlaggedPlaceholderPasses(waiver: Inputs, active: seq<Waiver>)
    ensures Outcome(Unbased(waiver), active, [FLAGGED]).1 == 0
  {
    var cfg := Unbased(waiver);
    assert [FLAGGED][..0] == [];
    assert Advance(cfg, RunState([], active, false), FLAGGED) == RunState([] + [UNLOADED], active, false);
    assert Chain(cfg, active, [FLAGGED]) == RunState([UNLOADED], active, false);
    TallyMeaning([UNLOADED], Fail);
  }

  /** The two totals of a run partition everything it reports. */
  lemma RunTotals(cfg: Config, active: seq<Waiver>, produced: seq<StepResult>)
    requires !cfg.configErr
    ensures var r := Outcome(cfg, active, produced).0;
      r.counts.totalViolations + r.counts.totalWarnings == |Reported(r.steps)|
  {
    SummaryMeaning(Final(cfg, Chain(cfg, active, produced)), cfg.scope);
  }

  /** The step that halted a run keeps its findings, neither waived nor grandfathered. */
  lemma HaltingStepKept(cfg: Config, active: seq<Waiver>, produced: seq<StepResult>)
    requires !cfg.configErr && SomeHalts(cfg, produced)
    ensures var steps := Outcome(cfg, active, produced).0.steps;
      var n := |steps|;
      && 0 < n <= |produced|
      && (!produced[n - 1].stepName.BaselineComparison? ==> steps[n - 1] == EnrichedStep(produced[n - 1]))
  {
    ChainStops(cfg, active, produced);
    FinalKeeps(cfg, Chain(cfg, active, produced));
  }

  lemma FinalKeeps(cfg: Config, st: RunState)
    ensures var final := Final(cfg, st);
      && |final| == |st.results|
      && (forall i :: 0 <= i < |final| ==> final[i].stepName == st.results[i].stepName)
      && (forall i :: 0 <= i < |final| ==>
            (st.results[i].configErr && !st.results[i].stepName.BaselineComparison? ==> final[i] == st.results[i]))
  {
    PolicyIdempotent(st.results, cfg.recorded, cfg.policy, cfg.scope);
  }

  lemma SummaryMeaning(steps: seq<StepResult>, scope: Scope)
    ensures var r := Summary(steps, scope);
      && (r.pass <==> !SomeFails(r.steps))
      && r.counts.totalViolations + r.counts.totalWarnings == |Reported(r.steps)|
  {
    TallyMeaning(steps, Fail);
    SameFailures(steps, Map(ENRICHED, steps));
    BlockingAndLoud(Reported(steps));
    SameReports(steps, Map(ENRICHED, steps));
  }

  /** A comparison's fixed findings are already enriched: showing them changes nothing. */
  lemma FixedShownAsIs(current: seq<Violation>, recorded: seq<Violation>, scope: Scope)
    ensures var fixed := multiset(FixedSet(current, recorded, scope)); Image(ENRICH, fixed) == fixed
  {
    var fixed := multiset(FixedSet(current, recorded, scope));
    forall v | v in fixed ensures Enrich(v) == v {
      var id :| id in Index(recorded) && Index(recorded)[id] == v;
      IndexEnriched(recorded, id);
    }
    ImageFixed(ENRICH, fixed);
  }

  // ---------------------------------------------------------------- the numbers and lists shown

  /** How many steps of a result have that status. */
  ghost function StepsWith(steps: seq<StepResult>, status: Status): nat {
    |Places((s: StepResult) => s.status == status, steps)|
  }

  /** How many findings do, or do not, block. */
  ghost function FindingsThat(vs: seq<Violation>, block: bool): nat {
    |Places((v: Violation) => BlocksVerdict(v) == block, vs)|
  }

  /** Each counter counts what it says. */
  lemma CountersMean(steps: seq<StepResult>, scope: Scope)
    ensures var c := Summary(steps, scope).counts;
      && c.passed == StepsWith(steps, Pass) && c.failed == StepsWith(steps, Fail)
      && c.skipped == StepsWith(steps, Skipped) && c.warned == StepsWith(steps, Warning)
      && c.totalViolations == FindingsThat(Reported(steps), true)
      && c.totalWarnings == FindingsThat(Reported(steps), false)
  {
    StepCounter(steps, Pass);
    StepCounter(steps, Fail);
    StepCounter(steps, Skipped);
    StepCounter(steps, Warning);
    FindingCounter(Reported(steps));
  }

  lemma StepCounter(steps: seq<StepResult>, status: Status)
    ensures Tally(steps, status) == StepsWith(steps, status)
  {
    var has := (s: StepResult) => s.status == status;
    FilterSame(WithStatus(status), has, steps);
    FilterPlaces(has, steps);
  }

  lemma FindingCounter(vs: seq<Violation>)
    ensures |Filter(BLOCKS, vs)| == FindingsThat(vs, true)
    ensures |Filter(LOUD, vs)| == FindingsThat(vs, false)
  {
    var does, not := (v: Violation) => BlocksVerdict(v) == true, (v: Violation) => BlocksVerdict(v) == false;
    FilterSame(BLOCKS, does, vs);
    FilterSame(LOUD, not, vs);
    FilterPlaces(does, vs);
    FilterPlaces(not, vs);
  }

  /** Reported are the findings of every step. */
  lemma ReportedMeaning(steps: seq<StepResult>, v: Violation)
    ensures v in Reported(steps) <==> exists s :: s in steps && v in s.violations
  {
    FlatMapMember(REPORTED, steps, v);
  }

  /** A shown step keeps its name, status and flags, and shows each of its findings enriched, in its own
      list and place. */
  lemma ShownSteps(steps: seq<StepResult>, scope: Scope, i: nat)
    requires i < |steps|
    ensures var r := Summary(steps, scope);
      && r.scope == scope && |r.steps| == |steps|
      && (r.nativeSandbox <==> exists s :: s in steps && s.nativeSandbox)
      && var was, now := steps[i], r.steps[i];
         && now.stepName == was.stepName && now.status == was.status
         && now.configErr == was.configErr && now.nativeSandbox == was.nativeSandbox
         && ShownEnriched(was.violations, now.violations)
         && ShownEnriched(was.newViolations, now.newViolations)
         && ShownEnriched(was.seededViolations, now.seededViolations)
         && |now.fixedViolations| == |was.fixedViolations|
         && (forall v :: v in was.fixedViolations ==> Enrich(v) in now.fixedViolations)
  {
    ImageOf(ENRICH, steps[i].fixedViolations);
  }

  ghost predicate ShownEnriched(was: seq<Violation>, now: seq<Violation>) {
    |now| == |was| && forall j :: 0 <= j < |was| ==> now[j] == Enrich(was[j])
  }

  /** The baseline step: skipped without a baseline; else the comparison of everything accumulated under the
      run's own scope, seeding and changed files, failing iff something is new. */
  lemma BaselineStepMeaning(cfg: Config, results: seq<StepResult>)
    ensures var r := BaselineStep(cfg, results);
      && r.stepName == BaselineComparison && !r.configErr
      && (cfg.recorded.None? ==> r.status == Skipped && r.violations == [])
      && (cfg.recorded.Some? ==>
            var c := Compared(Accumulated(results), cfg.recorded, CompareOptions(cfg.scope, cfg.seeding, cfg.changed));
            && r.violations == c.newViolations && r.newViolations == c.newViolations
            && r.fixedViolations == c.fixedViolations && r.seededViolations == c.seededViolations
            && (r.status == Fail <==> c.newViolations != []) && (r.status == Pass <==> c.newViolations == []))
  {
  }
}
