/** Per-dimension enforcement policy (pkg/gate/policy.go). */
module Policies {
  import opened Seqs
  import opened Findings
  import opened Scopes
  import opened Baseline

  datatype Level = Unset | Off | Warn | Block
  datatype AppliesTo = Everything | NewCode

  /** What counts and how hard; an empty applies-to means all code. */
  datatype Enforcement = Enforcement(level: Level, appliesTo: AppliesTo)

  /** The dimension's own enforcement and its per-source overrides. */
  datatype DimensionPolicy = DimensionPolicy(own: Enforcement, sources: map<string, Enforcement>)

  type Policy = map<StepName, DimensionPolicy>

  function LevelOf(e: Enforcement): Level {
    if e.level.Unset? then Block else e.level
  }

  function Effective(p: DimensionPolicy, source: string): Enforcement {
    if source in p.sources then p.sources[source] else p.own
  }

  predicate MetaStep(name: StepName) {
    name.WaiverResolution? || name.LedgerIntegrity? || name.PackLockVerification?
  }

  /** The steps a policy entry actually reaches. */
  predicate Reaches(policy: Policy, s: StepResult) {
    s.stepName in policy && !MetaStep(s.stepName) && !s.configErr && !s.status.Skipped?
  }

  function Plain(scope: Scope): CompareOptions {
    CompareOptions(scope, false, {})
  }

  // ---------------------------------------------------------------- the dimension-only path

  ghost function Counted(e: Enforcement, vs: seq<Violation>, recorded: Recorded, scope: Scope): seq<Violation> {
    if e.appliesTo.NewCode? && recorded.Some? then NewOf(vs, recorded.value, Plain(scope)) else vs
  }

  function VerdictAt(level: Level, counted: seq<Violation>): Status {
    if level.Off? then Pass
    else if level.Warn? then if counted == [] then Pass else Warning
    else StepVerdict(counted)
  }

  /** What the dimension-only path says of a list of findings; off counts as a pass. */
  ghost function DimensionVerdict(e: Enforcement, vs: seq<Violation>, recorded: Recorded, scope: Scope): Status {
    VerdictAt(LevelOf(e), Counted(e, vs, recorded, scope))
  }

  ghost function DimensionStep(s: StepResult, e: Enforcement, recorded: Recorded, scope: Scope): StepResult {
    var judged := s.(status := DimensionVerdict(e, s.violations, recorded, scope));
    if e.appliesTo.NewCode? && recorded.Some? then
      judged.(newViolations := NewOf(s.violations, recorded.value, Plain(scope)),
              fixedViolations := multiset(FixedSet(s.violations, recorded.value, scope)))
    else judged
  }

  // ---------------------------------------------------------------- the per-source path

  ghost function NewIds(vs: seq<Violation>, recorded: Recorded, scope: Scope): set<Identity> {
    if recorded.Some? then Ids(NewOf(vs, recorded.value, Plain(scope))) else {}
  }

  predicate Counts(p: DimensionPolicy, newIds: set<Identity>, based: bool, v: Violation) {
    var e := Effective(p, v.sourcePack);
    && !LevelOf(e).Off?
    && (e.appliesTo.NewCode? && based ==> IdOf(v) in newIds)
  }

  predicate Warned(p: DimensionPolicy, v: Violation) {
    LevelOf(Effective(p, v.sourcePack)).Warn? || !BlocksVerdict(v)
  }

  function BlockedBy(p: DimensionPolicy, newIds: set<Identity>, based: bool): Violation -> bool {
    v => Counts(p, newIds, based, v) && !Warned(p, v)
  }

  function WarnedBy(p: DimensionPolicy, newIds: set<Identity>, based: bool): Violation -> bool {
    v => Counts(p, newIds, based, v) && Warned(p, v)
  }

  function VerdictOf(blocking: seq<Violation>, warned: nat): Status {
    if blocking != [] then Fail else if warned > 0 then Warning else Pass
  }

  ghost function ScopedBlocking(vs: seq<Violation>, p: DimensionPolicy, recorded: Recorded,
                                scope: Scope): seq<Violation> {
    Filter(BlockedBy(p, NewIds(vs, recorded, scope), recorded.Some?), vs)
  }

  ghost function ScopedWarned(vs: seq<Violation>, p: DimensionPolicy, recorded: Recorded,
                              scope: Scope): seq<Violation> {
    Filter(WarnedBy(p, NewIds(vs, recorded, scope), recorded.Some?), vs)
  }

  ghost function ScopedVerdict(vs: seq<Violation>, p: DimensionPolicy, recorded: Recorded, scope: Scope): Status {
    VerdictOf(ScopedBlocking(vs, p, recorded, scope), |ScopedWarned(vs, p, recorded, scope)|)
  }

  ghost function ScopedStep(s: StepResult, p: DimensionPolicy, recorded: Recorded, scope: Scope): StepResult {
    s.(status := ScopedVerdict(s.violations, p, recorded, scope),
       newViolations := ScopedBlocking(s.violations, p, recorded, scope),
       fixedViolations := if recorded.Some? then multiset(FixedSet(s.violations, recorded.value, scope))
                          else s.fixedViolations)
  }

  /** applyScopedPolicy */
  method ApplyScopedPolicy(s: StepResult, p: DimensionPolicy, recorded: Recorded, scope: Scope) returns (r: StepResult)
    ensures r == ScopedStep(s, p, recorded, scope)
  {
    r := s;
    var newSet: set<Identity> := {};
    if recorded.Some? {
      var cmp := CompareBaseline(s.violations, recorded, Plain(scope));
      newSet := IdentitySet(cmp.newViolations);
      r := r.(fixedViolations := cmp.fixedViolations);
    }
    var blocking, warned := SortByLevel(s.violations, p, newSet, recorded.Some?);
    r := r.(newViolations := blocking, status := VerdictOf(blocking, warned));
  }

  method IdentitySet(vs: seq<Violation>) returns (ids: set<Identity>)
    ensures ids == Ids(vs)
  {
    ids := {};
    for i := 0 to |vs|
      invariant ids == Ids(vs[..i])
    {
      PrefixStep(vs, i);
      IdsSnoc(vs[..i], vs[i]);
      ids := ids + {Enrich(vs[i]).identity.value};
    }
    assert vs[..|vs|] == vs;
  }

  method SortByLevel(vs: seq<Violation>, p: DimensionPolicy, newSet: set<Identity>, based: bool)
    returns (blocking: seq<Violation>, warned: nat)
    ensures blocking == Filter(BlockedBy(p, newSet, based), vs)
    ensures warned == |Filter(WarnedBy(p, newSet, based), vs)|
  {
    blocking, warned := [], 0;
    for i := 0 to |vs|
      invariant blocking == Filter(BlockedBy(p, newSet, based), vs[..i])
      invariant warned == |Filter(WarnedBy(p, newSet, based), vs[..i])|
    {
      var v := vs[i];
      PrefixStep(vs, i);
      FilterSnoc(BlockedBy(p, newSet, based), vs[..i], v);
      FilterSnoc(WarnedBy(p, newSet, based), vs[..i], v);
      var eff := if v.sourcePack in p.sources then p.sources[v.sourcePack] else p.own;
      if LevelOf(eff).Off? {
        continue;
      }
      var counts := true;
      if eff.appliesTo.NewCode? && based {
        counts := Enrich(v).identity.value in newSet;
      }
      if !counts {
        continue;
      }
      if LevelOf(eff).Warn? || !BlocksVerdict(v) {
        warned := warned + 1;
        continue;
      }
      blocking := blocking + [v];
    }
    assert vs[..|vs|] == vs;
  }

  // ---------------------------------------------------------------- the whole pass

  ghost function PoliciedStep(policy: Policy, recorded: Recorded, scope: Scope, s: StepResult): StepResult {
    if s.stepName.BaselineComparison? then s.(status := Skipped, violations := [])
    else if !Reaches(policy, s) then s
    else
      var p := policy[s.stepName];
      if LevelOf(p.own).Off? then s.(status := Skipped, violations := [], newViolations := [])
      else if p.sources != map[] then ScopedStep(s, p, recorded, scope)
      else DimensionStep(s, p.own, recorded, scope)
  }

  ghost function PolicyPass(policy: Policy, recorded: Recorded, scope: Scope): StepResult -> StepResult {
    s => PoliciedStep(policy, recorded, scope, s)
  }

  /** An empty policy leaves every step alone. */
  ghost function Policied(steps: seq<StepResult>, recorded: Recorded, policy: Policy, scope: Scope): seq<StepResult> {
    if policy == map[] then steps else Map(PolicyPass(policy, recorded, scope), steps)
  }

  /** ApplyPolicy */
  method ApplyPolicy(steps: seq<StepResult>, recorded: Recorded, policy: Policy, scope: Scope)
    returns (out: seq<StepResult>)
    ensures out == Policied(steps, recorded, policy, scope)
  {
    if policy == map[] {
      return steps;
    }
    out := [];
    for i := 0 to |steps|
      invariant out == Map(PolicyPass(policy, recorded, scope), steps[..i])
    {
      PrefixStep(steps, i);
      MapSnoc(PolicyPass(policy, recorded, scope), steps[..i], steps[i]);
      var s := steps[i];
      if s.stepName.BaselineComparison? {
        s := s.(status := Skipped, violations := []);
      } else if Reaches(policy, s) {
        var p := policy[s.stepName];
        if LevelOf(p.own).Off? {
          s := s.(status := Skipped, violations := [], newViolations := []);
        } else if p.sources != map[] {
          s := ApplyScopedPolicy(s, p, recorded, scope);
        } else {
          s := JudgeDimension(s, p.own, recorded, scope);
        }
      }
      out := out + [s];
    }
    assert steps[..|steps|] == steps;
  }

  method JudgeDimension(s: StepResult, e: Enforcement, recorded: Recorded, scope: Scope) returns (r: StepResult)
    requires !LevelOf(e).Off?
    ensures r == DimensionStep(s, e, recorded, scope)
  {
    r := s;
    var counted := s.violations;
    if e.appliesTo.NewCode? && recorded.Some? {
      var cmp := CompareBaseline(s.violations, recorded, Plain(scope));
      counted := cmp.newViolations;
      r := r.(newViolations := cmp.newViolations, fixedViolations := cmp.fixedViolations);
    }
    var countedBlocking := BlockingViolations(counted);
    var status := Pass;
    if LevelOf(e).Warn? {
      if |counted| > 0 {
        status := Warning;
      }
    } else {
      if |counted| > 0 {
        status := Warning;
      }
      if |countedBlocking| > 0 {
        status := Fail;
      }
    }
    r := r.(status := status);
  }
}
