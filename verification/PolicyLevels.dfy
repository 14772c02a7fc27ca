/** What each enforcement level means for a step, read off the policy entry itself. */
module PolicyLevels {
  import opened Seqs
  import opened Findings
  import opened Scopes
  import opened Baseline
  import opened Policies
  import opened PolicyLaws

  // ---------------------------------------------------------------- which steps a policy touches

  /** A step with an entry, outside the three meta steps and the baseline step, neither halted nor skipped. */
  predicate Touched(policy: Policy, s: StepResult) {
    && s.stepName in policy && !s.configErr && s.status != Skipped
    && s.stepName !in [WaiverResolution, LedgerIntegrity, PackLockVerification, BaselineComparison]
  }

  /** Every other step keeps its result, except that the baseline step is silenced. */
  lemma UntouchedStays(policy: Policy, recorded: Recorded, scope: Scope, s: StepResult)
    requires !Touched(policy, s)
    ensures s.stepName != BaselineComparison ==> PoliciedStep(policy, recorded, scope, s) == s
    ensures s.stepName == BaselineComparison ==>
      PoliciedStep(policy, recorded, scope, s) == s.(status := Skipped, violations := [])
  {
  }

  // ---------------------------------------------------------------- what counts

  /** Judged on its own: all code, or no baseline to compare with, or new against it. */
  ghost predicate New(e: Enforcement, recorded: Recorded, scope: Scope, v: Violation) {
    e.appliesTo == NewCode && recorded.Some? ==> NewIn(Ids(recorded.value), CompareOptions(scope, false, {}))(v)
  }

  ghost predicate SomeNew(e: Enforcement, recorded: Recorded, scope: Scope, vs: seq<Violation>) {
    exists v :: v in vs && New(e, recorded, scope, v)
  }

  ghost predicate SomeNewBlocks(e: Enforcement, recorded: Recorded, scope: Scope, vs: seq<Violation>) {
    exists v :: v in vs && New(e, recorded, scope, v) && BlocksVerdict(v)
  }

  /** Without overrides: off skips the step and shows nothing; warn never fails, and warns iff something
      counts; block, and a level left unset, fails iff something that counts blocks, else warns iff
      something counts. */
  lemma LevelWithoutOverrides(policy: Policy, recorded: Recorded, scope: Scope, s: StepResult)
    requires Touched(policy, s) && policy[s.stepName].sources == map[]
    ensures
      var e, r := policy[s.stepName].own, PoliciedStep(policy, recorded, scope, s);
      match e.level
      case Off => r == s.(status := Skipped, violations := [], newViolations := [])
      case Warn => r.status == if SomeNew(e, recorded, scope, s.violations) then Warning else Pass
      case Block => r.status == Pressed(e, recorded, scope, s.violations)
      case Unset => r.status == Pressed(e, recorded, scope, s.violations)
  {
    DimensionMeaning(policy[s.stepName].own, s.violations, recorded, scope);
    SameNew(policy[s.stepName].own, recorded, scope, s.violations);
  }

  ghost function Pressed(e: Enforcement, recorded: Recorded, scope: Scope, vs: seq<Violation>): Status {
    if SomeNewBlocks(e, recorded, scope, vs) then Fail else if SomeNew(e, recorded, scope, vs) then Warning else Pass
  }

  lemma SameNew(e: Enforcement, recorded: Recorded, scope: Scope, vs: seq<Violation>)
    ensures forall v :: v in vs ==> (New(e, recorded, scope, v) <==> CountsAlone(e, recorded, scope, v))
  {
  }

  // ---------------------------------------------------------------- per source

  /** The enforcement of a finding: its source's override, else the step's own. */
  function Governing(p: DimensionPolicy, v: Violation): Enforcement {
    if v.sourcePack in p.sources then p.sources[v.sourcePack] else p.own
  }

  /** Its identity is carried by a finding of the step that is new. */
  ghost predicate NewByIdentity(recorded: Recorded, scope: Scope, vs: seq<Violation>, v: Violation) {
    recorded.Some? ==>
      exists w :: w in vs && IdOf(w) == IdOf(v) && NewIn(Ids(recorded.value), CompareOptions(scope, false, {}))(w)
  }

  /** It counts: its source is not off, and all code counts there or it is new by identity. */
  ghost predicate CountsAt(p: DimensionPolicy, recorded: Recorded, scope: Scope, vs: seq<Violation>, v: Violation) {
    && Governing(p, v).level != Off
    && (Governing(p, v).appliesTo == NewCode ==> NewByIdentity(recorded, scope, vs, v))
  }

  /** It blocks: it counts, its source does not merely warn, and its severity is not a warning. */
  ghost predicate BlocksAt(p: DimensionPolicy, recorded: Recorded, scope: Scope, vs: seq<Violation>, v: Violation) {
    CountsAt(p, recorded, scope, vs, v) && Governing(p, v).level != Warn && BlocksVerdict(v)
  }

  lemma CountsAtMeaning(p: DimensionPolicy, recorded: Recorded, scope: Scope, vs: seq<Violation>, v: Violation)
    ensures var ids := NewIds(vs, recorded, scope);
      && (Counts(p, ids, recorded.Some?, v) <==> CountsAt(p, recorded, scope, vs, v))
      && (Counts(p, ids, recorded.Some?, v) && !Warned(p, v) <==> BlocksAt(p, recorded, scope, vs, v))
  {
    if recorded.Some? { NewIdsMeaning(vs, recorded, scope, IdOf(v)); }
  }

  /** With overrides: off on the step itself still skips it; otherwise the blocking findings reported are
      exactly those that block at their own source, and the step fails iff there is one, else warns iff
      something counts. */
  lemma LevelsWithOverrides(policy: Policy, recorded: Recorded, scope: Scope, s: StepResult)
    requires Touched(policy, s) && policy[s.stepName].sources != map[]
    ensures
      var p, vs, r := policy[s.stepName], s.violations, PoliciedStep(policy, recorded, scope, s);
      if p.own.level == Off then r == s.(status := Skipped, violations := [], newViolations := [])
      else
        && (forall v :: v in r.newViolations <==> v in vs && BlocksAt(p, recorded, scope, vs, v))
        && r.status == if SomeAt(p, recorded, scope, vs, true) then Fail
                       else if SomeAt(p, recorded, scope, vs, false) then Warning else Pass
  {
    var p, vs := policy[s.stepName], s.violations;
    var ids := NewIds(vs, recorded, scope);
    forall v | v in vs
      ensures Counts(p, ids, recorded.Some?, v) <==> CountsAt(p, recorded, scope, vs, v)
      ensures Counts(p, ids, recorded.Some?, v) && !Warned(p, v) <==> BlocksAt(p, recorded, scope, vs, v)
    {
      CountsAtMeaning(p, recorded, scope, vs, v);
    }
    FilterMembers(BlockedBy(p, ids, recorded.Some?), vs);
    ScopedMeaning(vs, p, recorded, scope);
  }

  ghost predicate SomeAt(p: DimensionPolicy, recorded: Recorded, scope: Scope, vs: seq<Violation>, blocking: bool) {
    exists v :: v in vs && if blocking then BlocksAt(p, recorded, scope, vs, v) else CountsAt(p, recorded, scope, vs, v)
  }

  /** So a finding whose own source says warn or off is never among the blocking ones. */
  lemma QuietSourcesNeverBlock(policy: Policy, recorded: Recorded, scope: Scope, s: StepResult, v: Violation)
    requires Touched(policy, s) && v in PoliciedStep(policy, recorded, scope, s).newViolations
    requires v.sourcePack in policy[s.stepName].sources
    ensures policy[s.stepName].sources[v.sourcePack].level !in [Warn, Off]
  {
    LevelsWithOverrides(policy, recorded, scope, s);
  }

  // ---------------------------------------------------------------- what a policied step shows

  /** Policy moves verdicts and the new and fixed lists, never the findings a step holds: unless it is off,
      the findings stay; judged on new code against a baseline, the new ones are listed, and the recorded
      ones that are gone. */
  lemma ListsUnderPolicy(policy: Policy, recorded: Recorded, scope: Scope, s: StepResult)
    requires Touched(policy, s) && policy[s.stepName].own.level != Off
    ensures
      var p, r := policy[s.stepName], PoliciedStep(policy, recorded, scope, s);
      && r.violations == s.violations && r.seededViolations == s.seededViolations
      && (p.sources == map[] && p.own.appliesTo == NewCode && recorded.Some? ==>
            r.newViolations == NewOf(s.violations, recorded.value, CompareOptions(scope, false, {})))
      && (p.sources == map[] && (p.own.appliesTo == Everything || recorded.None?) ==>
            r.newViolations == s.newViolations && r.fixedViolations == s.fixedViolations)
      && (recorded.Some? && (p.sources != map[] || p.own.appliesTo == NewCode) ==>
            r.fixedViolations == multiset(FixedSet(s.violations, recorded.value, scope)))
  {
  }
}
