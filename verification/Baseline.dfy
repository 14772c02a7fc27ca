/** Baseline identity and the file-level ratchet (pkg/gate/baseline.go). */
module Baseline {
  import opened Seqs
  import opened Paths
  import opened Findings
  import opened Scopes

  // ---------------------------------------------------------------- identity

  /** Rule, canonical file and region: the text the source concatenates and hashes. */
  function IdOf(v: Violation): Identity {
    Identity(v.rule, NormalizePath("", v.file),
             if v.region.NoRegion? then Derived(v.message, v.severity, v.sourcePack) else v.region)
  }

  /** EnrichViolationIdentity */
  function Enrich(v: Violation): Violation {
    v.(file := IdOf(v).file, region := IdOf(v).region, identity := Some(IdOf(v)))
  }

  const ENRICH: Violation -> Violation := v => Enrich(v)

  ghost function Ids(vs: seq<Violation>): set<Identity> {
    set v | v in vs :: IdOf(v)
  }

  lemma EnrichIdempotent(v: Violation)
    ensures Enrich(Enrich(v)) == Enrich(v)
    ensures IdOf(Enrich(v)) == IdOf(v)
  {
    NormalizeIdempotent("", v.file);
  }

  /** Line, hint, routing and payload never move a finding's identity; rule, text, severity and
      pack always do when no region is given. */
  lemma IdentityIgnoresPresentation(v: Violation, w: Violation)
    requires v.region.NoRegion? && w.region.NoRegion?
    ensures IdOf(v) == IdOf(w) <==>
      (&& v.rule == w.rule && NormalizePath("", v.file) == NormalizePath("", w.file)
       && v.message == w.message && v.severity == w.severity && v.sourcePack == w.sourcePack)
  {
  }

  // ---------------------------------------------------------------- comparison

  datatype CompareOptions = CompareOptions(scope: Scope, seeding: bool, changed: set<string>)

  datatype Comparison = Comparison(newViolations: seq<Violation>,
                                   fixedViolations: multiset<Violation>,
                                   seededViolations: seq<Violation>)

  /** The recorded findings of a baseline artifact; None when no baseline is loaded. */
  type Recorded = Option<seq<Violation>>

  /** scopeTouches: the file was named by an explicit diff or file scope. */
  predicate Touches(scope: Scope, file: string) {
    scope.Some? && scope.value.mode != All && Contains(scope, file)
  }

  /** isExistingCodeViolation, on an enriched finding */
  predicate ExistingCode(v: Violation, changed: set<string>) {
    changed == {} || (v.file != "" && v.file !in changed)
  }

  predicate Grandfathered(recorded: set<Identity>, scope: Scope, v: Violation) {
    IdOf(v) in recorded && !Touches(scope, v.file)
  }

  predicate Seedable(o: CompareOptions, v: Violation) {
    o.seeding && o.scope.Some? && o.scope.value.mode == All && ExistingCode(Enrich(v), o.changed)
  }

  ghost function NewIn(recorded: set<Identity>, o: CompareOptions): Violation -> bool {
    v => Kept(o.scope, v) && !Grandfathered(recorded, o.scope, v) && !Seedable(o, v)
  }

  ghost function SeededIn(recorded: set<Identity>, o: CompareOptions): Violation -> bool {
    v => Kept(o.scope, v) && !Grandfathered(recorded, o.scope, v) && Seedable(o, v)
  }

  ghost function NewOf(current: seq<Violation>, recorded: seq<Violation>, o: CompareOptions): seq<Violation> {
    Map(ENRICH, Filter(NewIn(Ids(recorded), o), current))
  }

  ghost function SeededOf(current: seq<Violation>, recorded: seq<Violation>, o: CompareOptions): seq<Violation> {
    Map(ENRICH, Filter(SeededIn(Ids(recorded), o), current))
  }

  /** The recorded finding that stands for an identity is the last one that carries it. */
  function Index(vs: seq<Violation>): map<Identity, Violation> {
    if vs == [] then map[]
    else Index(vs[..|vs| - 1])[IdOf(vs[|vs| - 1]) := Enrich(vs[|vs| - 1])]
  }

  /** A recorded finding counts as fixable when the scope looks at its file. */
  predicate InView(scope: Scope, v: Violation) {
    Whole(scope) || (v.file != "" && Contains(scope, v.file))
  }

  ghost function FixedAmong(index: map<Identity, Violation>, ids: set<Identity>, seen: set<Identity>,
                            scope: Scope): set<Violation>
    requires ids <= index.Keys
  {
    set id | id in ids && id !in seen && InView(scope, index[id]) :: index[id]
  }

  ghost function FixedSet(current: seq<Violation>, recorded: seq<Violation>, scope: Scope): set<Violation> {
    var index := Index(recorded);
    FixedAmong(index, index.Keys, Ids(Filter(KeptBy(scope), current)), scope)
  }

  ghost function Compared(current: seq<Violation>, recorded: Recorded, o: CompareOptions): Comparison {
    if recorded.None? then Comparison([], multiset{}, [])
    else Comparison(NewOf(current, recorded.value, o),
                    multiset(FixedSet(current, recorded.value, o.scope)),
                    SeededOf(current, recorded.value, o))
  }

  lemma {:induction false} IndexKeys(vs: seq<Violation>)
    ensures Index(vs).Keys == Ids(vs)
  {
    if vs != [] {
      var init, last := vs[..|vs| - 1], vs[|vs| - 1];
      IndexKeys(init);
      MapUpdateKeys(Index(init), IdOf(last), Enrich(last));
      IdsLast(vs);
    }
  }

  lemma MapUpdateKeys<K, V>(m: map<K, V>, k: K, v: V)
    ensures m[k := v].Keys == m.Keys + {k}
  {
  }

  lemma IdsLast(vs: seq<Violation>)
    requires vs != []
    ensures Ids(vs) == Ids(vs[..|vs| - 1]) + {IdOf(vs[|vs| - 1])}
  {
    assert vs == vs[..|vs| - 1] + [vs[|vs| - 1]];
    IdsSnoc(vs[..|vs| - 1], vs[|vs| - 1]);
  }

  lemma {:induction false} IndexEntry(vs: seq<Violation>, id: Identity)
    requires id in Index(vs)
    ensures Index(vs)[id].identity == Some(id)
    ensures IdOf(Index(vs)[id]) == id && Index(vs)[id].file == id.file
  {
    var last := vs[|vs| - 1];
    if id == IdOf(last) {
      EnrichIdempotent(last);
    } else {
      IndexEntry(vs[..|vs| - 1], id);
    }
  }

  lemma {:induction false} IndexEnriched(vs: seq<Violation>, id: Identity)
    requires id in Index(vs)
    ensures Enrich(Index(vs)[id]) == Index(vs)[id]
  {
    var last := vs[|vs| - 1];
    if id == IdOf(last) {
      EnrichIdempotent(last);
    } else {
      IndexEnriched(vs[..|vs| - 1], id);
    }
  }

  lemma IdsSnoc(vs: seq<Violation>, v: Violation)
    ensures Ids(vs + [v]) == Ids(vs) + {IdOf(v)}
  {
  }

  /** The first filter of the source loop and its two `continue`s, as one filter. */
  lemma InScopeFirst(recorded: set<Identity>, o: CompareOptions, current: seq<Violation>)
    ensures Filter(NewIn(recorded, o), Filter(KeptBy(o.scope), current)) == Filter(NewIn(recorded, o), current)
    ensures Filter(SeededIn(recorded, o), Filter(KeptBy(o.scope), current)) == Filter(SeededIn(recorded, o), current)
  {
    FilterTwice(KeptBy(o.scope), NewIn(recorded, o), NewIn(recorded, o), current);
    FilterTwice(KeptBy(o.scope), SeededIn(recorded, o), SeededIn(recorded, o), current);
  }

  /** CompareBaseline */
  method CompareBaseline(current: seq<Violation>, recorded: Recorded, o: CompareOptions) returns (c: Comparison)
    ensures c == Compared(current, recorded, o)
  {
    if recorded.None? {
      return Comparison([], multiset{}, []);
    }
    var currentInScope := FilterViolations(o.scope, current);
    var baselineSet := BuildBaselineSet(recorded.value);
    IndexKeys(recorded.value);
    FilterMembers(KeptBy(o.scope), current);
    forall id | id in baselineSet ensures baselineSet[id].identity == Some(id) {
      IndexEntry(recorded.value, id);
    }
    var currentIds, newViolations, seeded := SortCurrent(currentInScope, baselineSet.Keys, o);
    var fixed := CollectFixed(baselineSet, currentIds, o.scope);
    InScopeFirst(Ids(recorded.value), o, current);
    c := Comparison(newViolations, fixed, seeded);
  }

  method BuildBaselineSet(recorded: seq<Violation>) returns (index: map<Identity, Violation>)
    ensures index == Index(recorded)
  {
    index := map[];
    for i := 0 to |recorded|
      invariant index == Index(recorded[..i])
    {
      PrefixStep(recorded, i);
      var enriched := Enrich(recorded[i]);
      index := index[enriched.identity.value := enriched];
    }
    assert recorded[..|recorded|] == recorded;
  }

  lemma SortStep(done: seq<Violation>, recorded: set<Identity>, o: CompareOptions, v: Violation)
    requires Kept(o.scope, v)
    ensures Ids(done + [v]) == Ids(done) + {IdOf(v)}
    ensures Map(ENRICH, Filter(NewIn(recorded, o), done + [v])) == Map(ENRICH, Filter(NewIn(recorded, o), done))
      + (if Grandfathered(recorded, o.scope, v) || Seedable(o, v) then [] else [Enrich(v)])
    ensures Map(ENRICH, Filter(SeededIn(recorded, o), done + [v])) == Map(ENRICH, Filter(SeededIn(recorded, o), done))
      + (if !Grandfathered(recorded, o.scope, v) && Seedable(o, v) then [Enrich(v)] else [])
  {
    MapFilterSnoc(ENRICH, NewIn(recorded, o), done, v);
    MapFilterSnoc(ENRICH, SeededIn(recorded, o), done, v);
    IdsSnoc(done, v);
  }

  method SortCurrent(current: seq<Violation>, recorded: set<Identity>, o: CompareOptions)
    returns (ids: set<Identity>, newViolations: seq<Violation>, seeded: seq<Violation>)
    requires forall v :: v in current ==> Kept(o.scope, v)
    ensures ids == Ids(current)
    ensures newViolations == Map(ENRICH, Filter(NewIn(recorded, o), current))
    ensures seeded == Map(ENRICH, Filter(SeededIn(recorded, o), current))
  {
    ids, newViolations, seeded := {}, [], [];
    for i := 0 to |current|
      invariant ids == Ids(current[..i])
      invariant newViolations == Map(ENRICH, Filter(NewIn(recorded, o), current[..i]))
      invariant seeded == Map(ENRICH, Filter(SeededIn(recorded, o), current[..i]))
    {
      var v := current[i];
      PrefixStep(current, i);
      SortStep(current[..i], recorded, o, v);
      ids := ids + {IdOf(v)};
      if Grandfathered(recorded, o.scope, v) {
        continue;
      }
      if Seedable(o, v) {
        seeded := seeded + [Enrich(v)];
        continue;
      }
      newViolations := newViolations + [Enrich(v)];
    }
    assert current[..|current|] == current;
  }

  lemma FixedAmongSnoc(index: map<Identity, Violation>, ids: set<Identity>, seen: set<Identity>, scope: Scope,
                       id: Identity)
    requires ids <= index.Keys && id in index && id !in ids
    requires forall k :: k in index ==> index[k].identity == Some(k)
    ensures var before, after := FixedAmong(index, ids, seen, scope), FixedAmong(index, ids + {id}, seen, scope);
      if id !in seen && InView(scope, index[id]) then index[id] !in before && after == before + {index[id]}
      else after == before
  {
  }

  method CollectFixed(index: map<Identity, Violation>, seen: set<Identity>, scope: Scope)
    returns (fixed: multiset<Violation>)
    requires forall id :: id in index ==> index[id].identity == Some(id)
    ensures fixed == multiset(FixedAmong(index, index.Keys, seen, scope))
  {
    fixed := multiset{};
    var todo := index.Keys;
    ghost var done: set<Identity> := {};
    while todo != {}
      invariant done !! todo && done + todo == index.Keys
      invariant fixed == multiset(FixedAmong(index, done, seen, scope))
      decreases todo
    {
      var id :| id in todo;
      todo := todo - {id};
      FixedAmongSnoc(index, done, seen, scope, id);
      if id !in seen && InView(scope, index[id]) {
        fixed := fixed + multiset{index[id]};
      }
      done := done + {id};
    }
    assert done == index.Keys;
  }

  // ---------------------------------------------------------------- the ratchet, in closed form

  /** What a diff or file run still forgives: a recorded project-wide finding on a file the
      scope does not name. */
  ghost predicate Forgiven(recorded: set<Identity>, scope: Scope, v: Violation) {
    v.projectWide && IdOf(v) in recorded && !Contains(scope, v.file)
  }

  ghost function NotForgiven(recorded: set<Identity>, scope: Scope): Violation -> bool {
    v => Kept(scope, v) && !Forgiven(recorded, scope, v)
  }

  lemma RatchetClosedForm(current: seq<Violation>, recorded: seq<Violation>, o: CompareOptions)
    requires o.scope.Some? && o.scope.value.mode != All
    ensures Compared(current, Some(recorded), o).newViolations
         == Map(ENRICH, Filter(NotForgiven(Ids(recorded), o.scope), current))
    ensures Compared(current, Some(recorded), o).seededViolations == []
  {
    FilterSame(NewIn(Ids(recorded), o), NotForgiven(Ids(recorded), o.scope), current);
    FilterNothing(SeededIn(Ids(recorded), o), current);
  }

  lemma IdsOfMapped(p: Violation -> bool, vs: seq<Violation>)
    ensures Ids(Map(ENRICH, Filter(p, vs))) == IdsWhere(p, vs)
  {
    var kept := Filter(p, vs);
    FilterMembers(p, vs);
    var mapped := Map(ENRICH, kept);
    forall id | id in Ids(mapped) ensures id in IdsWhere(p, vs) {
      var w :| w in mapped && IdOf(w) == id;
      var i :| 0 <= i < |mapped| && mapped[i] == w;
      EnrichIdempotent(kept[i]);
      assert kept[i] in kept;
    }
    forall id | id in IdsWhere(p, vs) ensures id in Ids(mapped) {
      var v :| v in vs && p(v) && IdOf(v) == id;
      var i :| 0 <= i < |kept| && kept[i] == v;
      EnrichIdempotent(v);
      assert mapped[i] in mapped;
    }
  }

  ghost function IdsOfSet(vs: set<Violation>): set<Identity> {
    set v | v in vs :: IdOf(v)
  }

  lemma WholeRunFixed(current: seq<Violation>, recorded: seq<Violation>, scope: Scope)
    requires Whole(scope)
    ensures IdsOfSet(FixedSet(current, recorded, scope)) == Ids(recorded) - Ids(current)
  {
    var index, fixed := Index(recorded), FixedSet(current, recorded, scope);
    FilterAll(KeptBy(scope), current);
    IndexKeys(recorded);
    forall id | id in index ensures IdOf(index[id]) == id { IndexEntry(recorded, id); }
    forall id | id in Ids(recorded) - Ids(current) ensures id in IdsOfSet(fixed) {
      assert index[id] in fixed;
    }
  }

  lemma SeedableByIdentity(o: CompareOptions, v: Violation, w: Violation)
    requires IdOf(v) == IdOf(w)
    ensures Seedable(o, v) == Seedable(o, w)
  {
  }

  /** Whole-tree runs: every identity of baseline and current lands in exactly one of
      grandfathered, fixed, new and seeded. */
  lemma WholeRunPartition(current: seq<Violation>, recorded: seq<Violation>, o: CompareOptions)
    requires Whole(o.scope)
    ensures
      var c := Compared(current, Some(recorded), o);
      var kept, fixed := Ids(current) * Ids(recorded), IdsOfSet(FixedSet(current, recorded, o.scope));
      var added, seeded := Ids(c.newViolations), Ids(c.seededViolations);
      && kept + fixed + added + seeded == Ids(current) + Ids(recorded)
      && kept !! fixed !! added !! seeded
      && fixed == Ids(recorded) - Ids(current)
  {
    WholeRunFixed(current, recorded, o.scope);
    WholeRunFindings(current, Ids(recorded), o);
    IdsOfMapped(NewIn(Ids(recorded), o), current);
    IdsOfMapped(SeededIn(Ids(recorded), o), current);
  }

  ghost function IdsWhere(p: Violation -> bool, vs: seq<Violation>): set<Identity> {
    set v | v in vs && p(v) :: IdOf(v)
  }

  lemma WholeRunFindings(current: seq<Violation>, recorded: set<Identity>, o: CompareOptions)
    requires Whole(o.scope)
    ensures var added, seeded := IdsWhere(NewIn(recorded, o), current), IdsWhere(SeededIn(recorded, o), current);
      added + seeded == Ids(current) - recorded && added !! seeded
  {
    var p, q := NewIn(recorded, o), SeededIn(recorded, o);
    var added, seeded := IdsWhere(p, current), IdsWhere(q, current);
    forall id | id in Ids(current) - recorded ensures id in added + seeded {
      var v :| v in current && IdOf(v) == id;
      assert p(v) || q(v);
    }
    forall id | id in added ensures id in Ids(current) - recorded && id !in seeded {
      var v :| v in current && p(v) && IdOf(v) == id;
      forall w | w in current && q(w) ensures IdOf(w) != id {
        if IdOf(w) == id { SeedableByIdentity(o, v, w); }
      }
    }
    forall id | id in seeded ensures id in Ids(current) - recorded {
      var w :| w in current && q(w) && IdOf(w) == id;
    }
  }

  /** "Fixed" is never said of an identity some current finding still carries, even one the
      scope filter dropped: canonicalising without the root and testing membership against
      the root commute. */
  lemma FixedIsSound(current: seq<Violation>, recorded: seq<Violation>, scope: Scope, fixed: Violation, v: Violation)
    requires fixed in FixedSet(current, recorded, scope)
    requires v in current
    ensures IdOf(v) != IdOf(fixed)
  {
    var index := Index(recorded);
    var id :| id in index && index[id] == fixed && id !in Ids(Filter(KeptBy(scope), current))
          && InView(scope, index[id]);
    IndexEntry(recorded, id);
    FilterMembers(KeptBy(scope), current);
    if IdOf(v) == id {
      assert Enrich(v).file == fixed.file;
      ContainsCanonical(scope, v.file);
      NormalizeEmpty("", v.file);
      assert Kept(scope, v);
    }
  }

  // ---------------------------------------------------------------- monotonicity

  /** A larger baseline never reports a finding as new that a smaller one forgave. */
  lemma LargerBaselineOnlyForgives(current: seq<Violation>, small: seq<Violation>, large: seq<Violation>,
                                   o: CompareOptions)
    requires Ids(small) <= Ids(large)
    ensures multiset(NewOf(current, large, o)) <= multiset(NewOf(current, small, o))
  {
    MapFilterMono(ENRICH, NewIn(Ids(large), o), NewIn(Ids(small), o), current);
  }

  /** Naming more files in a diff scope never hides a new finding. */
  lemma LargerDiffOnlyReveals(current: seq<Violation>, recorded: seq<Violation>, o: CompareOptions, wider: GateScope)
    requires o.scope.Some? && o.scope.value.mode != All
    requires wider.mode == o.scope.value.mode && wider.root == o.scope.value.root
    requires o.scope.value.fileSet <= wider.fileSet
    ensures multiset(NewOf(current, recorded, o)) <= multiset(NewOf(current, recorded, o.(scope := Some(wider))))
  {
    var o' := o.(scope := Some(wider));
    forall v | NewIn(Ids(recorded), o)(v) ensures NewIn(Ids(recorded), o')(v) {
      assert Contains(o.scope, v.file) ==> Contains(o'.scope, v.file);
    }
    MapFilterMono(ENRICH, NewIn(Ids(recorded), o), NewIn(Ids(recorded), o'), current);
  }

  // ---------------------------------------------------------------- what can be new at all

  /** Seeding a whole-tree run with no list of changed files takes every finding for existing code. */
  predicate SeedsEverything(o: CompareOptions) {
    o.seeding && o.scope.Some? && o.scope.value.mode == All && o.changed == {}
  }

  /** A pack rule longer than any recorded one. */
  function LongestRule(recorded: seq<Violation>): (n: nat)
    ensures forall v :: v in recorded && v.rule.PackRule? ==> |v.rule.id| <= n
  {
    if recorded == [] then 0
    else
      var n, last := LongestRule(recorded[..|recorded| - 1]), recorded[|recorded| - 1];
      assert recorded == recorded[..|recorded| - 1] + [last];
      if last.rule.PackRule? && |last.rule.id| > n then |last.rule.id| else n
  }

  /** A finding no recorded one shares its identity with, attributed to no file. */
  function Novel(recorded: seq<Violation>): Violation {
    Report(PackRule(seq(LongestRule(recorded) + 1, _ => 'x')), "", Text(""), "error").(projectWide := true)
  }

  lemma NovelIsUnrecorded(recorded: seq<Violation>)
    ensures IdOf(Novel(recorded)) !in Ids(recorded)
  {
    forall v | v in recorded ensures IdOf(v) != IdOf(Novel(recorded)) {
      assert IdOf(v).rule == v.rule && IdOf(Novel(recorded)).rule == Novel(recorded).rule;
    }
  }

  lemma NovelIsNew(recorded: seq<Violation>, o: CompareOptions)
    requires !SeedsEverything(o)
    ensures NewIn(Ids(recorded), o)(Novel(recorded))
  {
    NovelIsUnrecorded(recorded);
  }

  /** Some finding would be new against a baseline iff the run does not seed everything. */
  lemma SomethingCanBeNew(recorded: seq<Violation>, o: CompareOptions)
    ensures (exists v :: NewIn(Ids(recorded), o)(v)) <==> !SeedsEverything(o)
  {
    if !SeedsEverything(o) { NovelIsNew(recorded, o); }
  }

  // ---------------------------------------------------------------- generating, storing, reloading

  predicate Baselined(step: StepName) {
    !(step.BaselineComparison? || step.WaiverResolution? || step.LedgerIntegrity?)
  }

  /** accumulatedViolations */
  function Accumulated(steps: seq<StepResult>): seq<Violation> {
    FlatMap(CONTRIBUTION, steps)
  }

  const CONTRIBUTION: StepResult -> seq<Violation> :=
    (s: StepResult) => if Baselined(s.stepName) then s.violations else []

  method AccumulatedViolations(steps: seq<StepResult>) returns (vs: seq<Violation>)
    ensures vs == Accumulated(steps)
  {
    vs := [];
    for i := 0 to |steps|
      invariant vs == Accumulated(steps[..i])
    {
      PrefixStep(steps, i);
      FlatMapSnoc(CONTRIBUTION, steps[..i], steps[i]);
      if !Baselined(steps[i].stepName) {
        continue;
      }
      vs := vs + steps[i].violations;
    }
    assert steps[..|steps|] == steps;
  }

  /** A stored baseline: where it came from, how much each step and rule contributed, and the findings. */
  datatype Artifact = Artifact(schema: string, generatedAt: string, gitSha: string, version: string,
                               stepCounts: map<StepName, nat>, ruleCounts: map<StepName, map<Rule, nat>>,
                               violations: seq<Violation>)

  const SCHEMA_V1 := "baseline/v1"

  function OfRule(rule: Rule): Violation -> bool {
    (v: Violation) => v.rule == rule
  }

  function CountOf(counts: map<Rule, nat>, rule: Rule): nat {
    if rule in counts then counts[rule] else 0
  }

  /** Each rule that occurs is counted, and no other has an entry. */
  ghost predicate TalliesRules(counts: map<Rule, nat>, vs: seq<Violation>) {
    forall rule ::
      CountOf(counts, rule) == |Filter(OfRule(rule), vs)| && (rule in counts <==> CountOf(counts, rule) > 0)
  }

  /** The last step of that name that contributes to a baseline. */
  function LastNamed(steps: seq<StepResult>, name: StepName): Option<StepResult> {
    if steps == [] || !Baselined(name) then None
    else if steps[|steps| - 1].stepName == name then Some(steps[|steps| - 1])
    else LastNamed(steps[..|steps| - 1], name)
  }

  ghost predicate TalliesStep(a: Artifact, steps: seq<StepResult>, name: StepName) {
    var last := LastNamed(steps, name);
    && (name in a.stepCounts <==> last.Some?)
    && (name in a.ruleCounts <==> last.Some?)
    && (last.Some? ==> a.stepCounts[name] == |last.value.violations|
                       && TalliesRules(a.ruleCounts[name], last.value.violations))
  }

  lemma TalliesSnoc(a: Artifact, next: Artifact, steps: seq<StepResult>, s: StepResult, rules: map<Rule, nat>)
    requires forall name :: TalliesStep(a, steps, name)
    requires Baselined(s.stepName) && TalliesRules(rules, s.violations)
    requires next.stepCounts == a.stepCounts[s.stepName := |s.violations|]
    requires next.ruleCounts == a.ruleCounts[s.stepName := rules]
    ensures forall name :: TalliesStep(next, steps + [s], name)
  {
    assert (steps + [s])[..|steps|] == steps;
    forall name ensures TalliesStep(next, steps + [s], name) { assert TalliesStep(a, steps, name); }
  }

  lemma TalliesSkip(a: Artifact, steps: seq<StepResult>, s: StepResult)
    requires (forall name :: TalliesStep(a, steps, name)) && !Baselined(s.stepName)
    ensures forall name :: TalliesStep(a, steps + [s], name)
  {
    assert (steps + [s])[..|steps|] == steps;
    forall name ensures TalliesStep(a, steps + [s], name) { assert TalliesStep(a, steps, name); }
  }

  method TallyRules(vs: seq<Violation>) returns (counts: map<Rule, nat>)
    ensures TalliesRules(counts, vs)
  {
    counts := map[];
    for i := 0 to |vs|
      invariant TalliesRules(counts, vs[..i])
    {
      PrefixStep(vs, i);
      ghost var before := counts;
      var rule := vs[i].rule;
      counts := counts[rule := CountOf(counts, rule) + 1];
      forall r
        ensures CountOf(counts, r) == |Filter(OfRule(r), vs[..i + 1])| && (r in counts <==> CountOf(counts, r) > 0)
      {
        FilterSnoc(OfRule(r), vs[..i], vs[i]);
        assert CountOf(before, r) == |Filter(OfRule(r), vs[..i])| && (r in before <==> CountOf(before, r) > 0);
      }
    }
    assert vs[..|vs|] == vs;
  }

  /** NewBaselineArtifactFromSteps */
  method NewBaselineArtifactFromSteps(steps: seq<StepResult>, generatedAt: string, gitSha: string, version: string)
    returns (a: Artifact)
    ensures a.violations == Map(ENRICH, Accumulated(steps))
    ensures forall name :: TalliesStep(a, steps, name)
    ensures a.schema == SCHEMA_V1 && a.generatedAt == generatedAt && a.gitSha == gitSha && a.version == version
  {
    a := Artifact(SCHEMA_V1, generatedAt, gitSha, version, map[], map[], []);
    for i := 0 to |steps|
      invariant a.violations == Map(ENRICH, Accumulated(steps[..i]))
      invariant forall name :: TalliesStep(a, steps[..i], name)
      invariant a.schema == SCHEMA_V1 && a.generatedAt == generatedAt && a.gitSha == gitSha && a.version == version
    {
      PrefixStep(steps, i);
      FlatMapSnoc(CONTRIBUTION, steps[..i], steps[i]);
      if !Baselined(steps[i].stepName) {
        TalliesSkip(a, steps[..i], steps[i]);
        continue;
      }
      var enriched := EnrichEach(steps[i].violations);
      MapConcat(ENRICH, Accumulated(steps[..i]), steps[i].violations);
      var rules := TallyRules(steps[i].violations);
      var next := a.(violations := a.violations + enriched,
                     stepCounts := a.stepCounts[steps[i].stepName := |steps[i].violations|],
                     ruleCounts := a.ruleCounts[steps[i].stepName := rules]);
      TalliesSnoc(a, next, steps[..i], steps[i], rules);
      a := next;
    }
    assert steps[..|steps|] == steps;
  }

  method EnrichEach(vs: seq<Violation>) returns (r: seq<Violation>)
    ensures r == Map(ENRICH, vs)
  {
    r := [];
    for j := 0 to |vs|
      invariant r == Map(ENRICH, vs[..j])
    {
      PrefixStep(vs, j);
      r := r + [Enrich(vs[j])];
    }
    assert vs[..|vs|] == vs;
  }

  /** The JSON form drops what is tagged `json:"-"`. */
  function Serialized(v: Violation): Violation {
    v.(projectWide := false, gateType := "", line := 0, waiverHint := "")
  }

  /** WriteBaseline enriches, the file keeps the serialized fields, LoadBaseline enriches. */
  function Stored(v: Violation): Violation {
    Enrich(Serialized(Enrich(v)))
  }

  const STORED: Violation -> Violation := v => Stored(v)

  lemma StoringKeepsIdentity(v: Violation)
    ensures IdOf(Stored(v)) == IdOf(v)
    ensures Stored(Stored(v)) == Stored(v)
  {
    NormalizeIdempotent("", v.file);
  }

  lemma SameIds(vs: seq<Violation>, ws: seq<Violation>)
    requires |vs| == |ws| && forall i :: 0 <= i < |vs| ==> IdOf(vs[i]) == IdOf(ws[i])
    ensures Ids(vs) == Ids(ws)
  {
    forall v | v in vs ensures IdOf(v) in Ids(ws) {
      var i :| 0 <= i < |vs| && vs[i] == v;
      assert ws[i] in ws;
    }
    forall w | w in ws ensures IdOf(w) in Ids(vs) {
      var i :| 0 <= i < |ws| && ws[i] == w;
      assert vs[i] in vs;
    }
  }

  /** A run compared with the baseline it generated, written out and read back, has nothing
      new, nothing seeded and nothing fixed. */
  lemma SelfBaselineRoundTrip(steps: seq<StepResult>, o: CompareOptions)
    requires Whole(o.scope)
    ensures Compared(Accumulated(steps), Some(Map(STORED, Map(ENRICH, Accumulated(steps)))), o)
         == Comparison([], multiset{}, [])
  {
    var current := Accumulated(steps);
    var generated := Map(ENRICH, current);
    var recorded := Map(STORED, generated);
    forall i | 0 <= i < |current| ensures IdOf(recorded[i]) == IdOf(current[i]) {
      EnrichIdempotent(current[i]);
      StoringKeepsIdentity(generated[i]);
    }
    SameIds(recorded, current);
    WholeRunPartition(current, recorded, o);
    NoIdentityNoElement(NewOf(current, recorded, o));
    NoIdentityNoElement(SeededOf(current, recorded, o));
    NoIdentityNoFixed(FixedSet(current, recorded, o.scope));
  }

  lemma NoIdentityNoFixed(vs: set<Violation>)
    ensures IdsOfSet(vs) == {} ==> vs == {}
  {
    if vs != {} {
      var v :| v in vs;
      assert IdOf(v) in IdsOfSet(vs);
    }
  }

  lemma NoIdentityNoElement(vs: seq<Violation>)
    ensures Ids(vs) == {} ==> vs == []
  {
    if vs != [] { assert vs[0] in vs; assert IdOf(vs[0]) in Ids(vs); }
  }
}
