/** What a plan owes: declared tests, and tests derived from its tasks' claims on a source
    artifact (pkg/gate/artifact_status.go). */
module Drift {
  import opened Seqs
  import opened Artifacts

  datatype Task = Task(id: string, testNames: seq<string>, claims: seq<string>)

  /** A plan file: its phases' tasks in document order. */
  datatype PlanFile = PlanFile(planId: string, specId: string, status: string, path: string, phases: seq<seq<Task>>)

  // ---------------------------------------------------------------- the source claim index

  datatype ClaimKey = ClaimKey(source: string, claim: string)
  type ClaimIndex = map<ClaimKey, seq<string>>

  function TestsUnder(index: ClaimIndex, key: ClaimKey): seq<string> {
    if key in index then index[key] else []
  }

  function NamesUnder(id: string, tests: seq<MandatedTest>, key: ClaimKey): seq<string> {
    if id != key.source || key.claim == "" then [] else Map(NAME, Filter(UnderClaim(key.claim), tests))
  }

  const NAME: MandatedTest -> string := (mt: MandatedTest) => mt.funcName

  function UnderClaim(claim: string): MandatedTest -> bool {
    (mt: MandatedTest) => mt.claimId == claim
  }

  function OwedBy(key: ClaimKey): Record -> seq<string> {
    (rec: Record) => if rec.cls.RetiredTerminal? then [] else NamesUnder(rec.id, rec.mandated, key)
  }

  /** The test names the non-retired records mandate under a (source, claim) pair, in order. */
  function Owed(records: seq<Record>, key: ClaimKey): seq<string> {
    FlatMap(OwedBy(key), records)
  }

  ghost predicate Indexes(index: ClaimIndex, records: seq<Record>) {
    forall key :: TestsUnder(index, key) == Owed(records, key)
  }

  /** buildSourceClaimIndex */
  method BuildSourceClaimIndex(records: seq<Record>) returns (index: ClaimIndex)
    ensures Indexes(index, records)
  {
    index := map[];
    for i := 0 to |records|
      invariant Indexes(index, records[..i])
    {
      PrefixStep(records, i);
      ghost var before := index;
      if !records[i].cls.RetiredTerminal? {
        index := IndexRecord(index, records[i]);
      }
      forall key ensures TestsUnder(index, key) == Owed(records[..i + 1], key) {
        FlatMapSnoc(OwedBy(key), records[..i], records[i]);
        assert TestsUnder(before, key) == Owed(records[..i], key);
      }
    }
    assert records[..|records|] == records;
  }

  method IndexRecord(before: ClaimIndex, rec: Record) returns (index: ClaimIndex)
    ensures forall key :: TestsUnder(index, key) == TestsUnder(before, key) + NamesUnder(rec.id, rec.mandated, key)
  {
    index := before;
    for i := 0 to |rec.mandated|
      invariant forall key ::
        TestsUnder(index, key) == TestsUnder(before, key) + NamesUnder(rec.id, rec.mandated[..i], key)
    {
      PrefixStep(rec.mandated, i);
      var mt := rec.mandated[i];
      ghost var was := index;
      if mt.claimId != "" {
        var key := ClaimKey(rec.id, mt.claimId);
        index := index[key := TestsUnder(index, key) + [mt.funcName]];
      }
      forall key
        ensures TestsUnder(index, key) == TestsUnder(before, key) + NamesUnder(rec.id, rec.mandated[..i + 1], key)
      {
        NamesUnderSnoc(rec.id, rec.mandated[..i], mt, key);
        AppendAssoc(TestsUnder(before, key), NamesUnder(rec.id, rec.mandated[..i], key), NamesUnder(rec.id, [mt], key));
        assert TestsUnder(index, key) == TestsUnder(was, key) + NamesUnder(rec.id, [mt], key) by {
          OneUnder(rec.id, mt, key);
        }
      }
    }
    assert rec.mandated[..|rec.mandated|] == rec.mandated;
  }

  lemma OneUnder(id: string, mt: MandatedTest, key: ClaimKey)
    ensures NamesUnder(id, [mt], key)
         == if key == ClaimKey(id, mt.claimId) && mt.claimId != "" then [mt.funcName] else []
  {
    MapFilterSnoc(NAME, UnderClaim(key.claim), [], mt);
    assert [] + [mt] == [mt];
  }

  lemma NamesUnderSnoc(id: string, tests: seq<MandatedTest>, mt: MandatedTest, key: ClaimKey)
    ensures NamesUnder(id, tests + [mt], key) == NamesUnder(id, tests, key) + NamesUnder(id, [mt], key)
  {
    MapFilterSnoc(NAME, UnderClaim(key.claim), tests, mt);
    OneUnder(id, mt, key);
  }

  /** Some non-retired record of the source mandates the test under the claim. */
  ghost predicate Owes(records: seq<Record>, key: ClaimKey, name: string) {
    exists rec, mt :: && rec in records && !rec.cls.RetiredTerminal? && rec.id == key.source
                      && mt in rec.mandated && mt.claimId == key.claim && key.claim != "" && mt.funcName == name
  }

  lemma OwedMeaning(records: seq<Record>, key: ClaimKey, name: string)
    ensures name in Owed(records, key) <==> Owes(records, key, name)
  {
    FlatMapMember(OwedBy(key), records, name);
    forall rec | rec in records
      ensures name in OwedBy(key)(rec) <==>
        (&& !rec.cls.RetiredTerminal? && rec.id == key.source && key.claim != ""
         && exists mt :: mt in rec.mandated && mt.claimId == key.claim && mt.funcName == name)
    {
      MappedMember(UnderClaim(key.claim), rec.mandated, name);
    }
  }

  lemma MappedMember(p: MandatedTest -> bool, tests: seq<MandatedTest>, name: string)
    ensures name in Map(NAME, Filter(p, tests)) <==> exists mt :: mt in tests && p(mt) && mt.funcName == name
  {
    var kept := Filter(p, tests);
    FilterMembers(p, tests);
    if name in Map(NAME, kept) {
      var i :| 0 <= i < |kept| && Map(NAME, kept)[i] == name;
      assert kept[i] in kept;
    }
    if mt :| mt in tests && p(mt) && mt.funcName == name {
      var i :| 0 <= i < |kept| && kept[i] == mt;
      assert Map(NAME, kept)[i] in Map(NAME, kept);
    }
  }

  // ---------------------------------------------------------------- what a plan owes

  function Explicit(plan: PlanFile, task: Task): string -> MandatedTest {
    (name: string) => MandatedTest(name, "", plan.path, "", plan.planId, task.id, "", false)
  }

  function DeclaredOn(plan: PlanFile): Task -> seq<MandatedTest> {
    (task: Task) => Map(Explicit(plan, task), task.testNames)
  }

  const PHASE: seq<Task> -> seq<Task> := (phase: seq<Task>) => phase

  function Tasks(plan: PlanFile): seq<Task> {
    FlatMap(PHASE, plan.phases)
  }

  function DerivedTest(plan: PlanFile, claim: string): string -> MandatedTest {
    (name: string) => MandatedTest(name, "", plan.path, "", plan.planId, claim, "", false)
  }

  function DerivedFor(plan: PlanFile, sources: seq<Record>): string -> seq<MandatedTest> {
    (claim: string) => Map(DerivedTest(plan, claim), Owed(sources, ClaimKey(plan.specId, claim)))
  }

  function DerivedOn(plan: PlanFile, sources: seq<Record>): Task -> seq<MandatedTest> {
    (task: Task) => FlatMap(DerivedFor(plan, sources), task.claims)
  }

  /** The tests declared on the plan's tasks, in document order. */
  function TaskTests(plan: PlanFile): seq<MandatedTest> {
    FlatMap(DeclaredOn(plan), Tasks(plan))
  }

  /** The tests its tasks owe through claims, in document order; none without a source artifact. */
  function ClaimTests(plan: PlanFile, sources: seq<Record>): seq<MandatedTest> {
    if plan.specId == "" then [] else FlatMap(DerivedOn(plan, sources), Tasks(plan))
  }

  /** planTaskMandatedTests */
  method PlanTaskMandatedTests(plan: PlanFile) returns (out: seq<MandatedTest>)
    ensures out == TaskTests(plan)
  {
    out := [];
    for i := 0 to |plan.phases|
      invariant out == FlatMap(DeclaredOn(plan), FlatMap(PHASE, plan.phases[..i]))
    {
      PrefixStep(plan.phases, i);
      FlatMapSnoc(PHASE, plan.phases[..i], plan.phases[i]);
      FlatMapConcat(DeclaredOn(plan), FlatMap(PHASE, plan.phases[..i]), plan.phases[i]);
      var declared := DeclaredInPhase(plan, plan.phases[i]);
      out := out + declared;
    }
    assert plan.phases[..|plan.phases|] == plan.phases;
  }

  method DeclaredInPhase(plan: PlanFile, tasks: seq<Task>) returns (out: seq<MandatedTest>)
    ensures out == FlatMap(DeclaredOn(plan), tasks)
  {
    out := [];
    for i := 0 to |tasks|
      invariant out == FlatMap(DeclaredOn(plan), tasks[..i])
    {
      PrefixStep(tasks, i);
      FlatMapSnoc(DeclaredOn(plan), tasks[..i], tasks[i]);
      var declared := DeclaredInTask(plan, tasks[i]);
      out := out + declared;
    }
    assert tasks[..|tasks|] == tasks;
  }

  method DeclaredInTask(plan: PlanFile, task: Task) returns (out: seq<MandatedTest>)
    ensures out == Map(Explicit(plan, task), task.testNames)
  {
    out := [];
    for j := 0 to |task.testNames|
      invariant out == Map(Explicit(plan, task), task.testNames[..j])
    {
      PrefixStep(task.testNames, j);
      out := out + [MandatedTest(task.testNames[j], "", plan.path, "", plan.planId, task.id, "", false)];
    }
    assert task.testNames[..|task.testNames|] == task.testNames;
  }

  /** planClaimDerivedMandatedTests */
  method PlanClaimDerivedMandatedTests(plan: PlanFile, index: ClaimIndex, ghost sources: seq<Record>)
    returns (out: seq<MandatedTest>)
    requires Indexes(index, sources)
    ensures out == ClaimTests(plan, sources)
  {
    if plan.specId == "" {
      return [];
    }
    out := [];
    for i := 0 to |plan.phases|
      invariant out == FlatMap(DerivedOn(plan, sources), FlatMap(PHASE, plan.phases[..i]))
    {
      PrefixStep(plan.phases, i);
      FlatMapSnoc(PHASE, plan.phases[..i], plan.phases[i]);
      FlatMapConcat(DerivedOn(plan, sources), FlatMap(PHASE, plan.phases[..i]), plan.phases[i]);
      var derived := DerivedInPhase(plan, index, plan.phases[i], sources);
      out := out + derived;
    }
    assert plan.phases[..|plan.phases|] == plan.phases;
  }

  method DerivedInPhase(plan: PlanFile, index: ClaimIndex, tasks: seq<Task>, ghost sources: seq<Record>)
    returns (out: seq<MandatedTest>)
    requires Indexes(index, sources)
    ensures out == FlatMap(DerivedOn(plan, sources), tasks)
  {
    out := [];
    for i := 0 to |tasks|
      invariant out == FlatMap(DerivedOn(plan, sources), tasks[..i])
    {
      PrefixStep(tasks, i);
      FlatMapSnoc(DerivedOn(plan, sources), tasks[..i], tasks[i]);
      var derived := DerivedInTask(plan, index, tasks[i], sources);
      out := out + derived;
    }
    assert tasks[..|tasks|] == tasks;
  }

  method DerivedInTask(plan: PlanFile, index: ClaimIndex, task: Task, ghost sources: seq<Record>)
    returns (out: seq<MandatedTest>)
    requires Indexes(index, sources)
    ensures out == FlatMap(DerivedFor(plan, sources), task.claims)
  {
    out := [];
    for i := 0 to |task.claims|
      invariant out == FlatMap(DerivedFor(plan, sources), task.claims[..i])
    {
      PrefixStep(task.claims, i);
      var claim := task.claims[i];
      FlatMapSnoc(DerivedFor(plan, sources), task.claims[..i], claim);
      var names := TestsUnder(index, ClaimKey(plan.specId, claim));
      assert names == Owed(sources, ClaimKey(plan.specId, claim));
      var derived := DerivedFromClaim(plan, claim, names);
      out := out + derived;
    }
    assert task.claims[..|task.claims|] == task.claims;
  }

  method DerivedFromClaim(plan: PlanFile, claim: string, names: seq<string>) returns (out: seq<MandatedTest>)
    ensures out == Map(DerivedTest(plan, claim), names)
  {
    out := [];
    for j := 0 to |names|
      invariant out == Map(DerivedTest(plan, claim), names[..j])
    {
      PrefixStep(names, j);
      out := out + [MandatedTest(names[j], "", plan.path, "", plan.planId, claim, "", false)];
    }
    assert names[..|names|] == names;
  }

  // ---------------------------------------------------------------- the union

  function NamesOf(tests: seq<MandatedTest>): set<string> {
    set mt | mt in tests :: mt.funcName
  }

  /** The derived entries that bring a name neither declared nor derived before. */
  function Added(declared: seq<MandatedTest>, derived: seq<MandatedTest>): seq<MandatedTest> {
    if derived == [] then []
    else
      var before, mt := Added(declared, derived[..|derived| - 1]), derived[|derived| - 1];
      if mt.funcName in NamesOf(declared) + NamesOf(before) then before else before + [mt]
  }

  /** unionPlanMandatedTests */
  method UnionPlanMandatedTests(declared: seq<MandatedTest>, derived: seq<MandatedTest>)
    returns (out: seq<MandatedTest>)
    ensures out == declared + Added(declared, derived)
  {
    if derived == [] {
      return declared;
    }
    var taken: set<string> := {};
    for i := 0 to |declared|
      invariant taken == NamesOf(declared[..i])
    {
      PrefixStep(declared, i);
      NamesSnoc(declared[..i], declared[i]);
      taken := taken + {declared[i].funcName};
    }
    assert declared[..|declared|] == declared;
    out := declared;
    for i := 0 to |derived|
      invariant out == declared + Added(declared, derived[..i])
      invariant taken == NamesOf(declared) + NamesOf(Added(declared, derived[..i]))
    {
      PrefixStep(derived, i);
      if derived[i].funcName in taken {
        continue;
      }
      NamesSnoc(Added(declared, derived[..i]), derived[i]);
      taken := taken + {derived[i].funcName};
      out := out + [derived[i]];
    }
    assert derived[..|derived|] == derived;
  }

  lemma NamesSnoc(tests: seq<MandatedTest>, mt: MandatedTest)
    ensures NamesOf(tests + [mt]) == NamesOf(tests) + {mt.funcName}
  {
  }

  lemma NamesConcat(a: seq<MandatedTest>, b: seq<MandatedTest>)
    ensures NamesOf(a + b) == NamesOf(a) + NamesOf(b)
  {
  }

  ghost predicate DistinctNames(tests: seq<MandatedTest>) {
    forall i, j :: 0 <= i < j < |tests| ==> tests[i].funcName != tests[j].funcName
  }

  lemma DistinctSnoc(tests: seq<MandatedTest>, mt: MandatedTest)
    requires DistinctNames(tests) && mt.funcName !in NamesOf(tests)
    ensures DistinctNames(tests + [mt])
  {
    forall i | 0 <= i < |tests| ensures tests[i].funcName != mt.funcName { assert tests[i] in tests; }
  }

  lemma {:induction false} AddedOnce(declared: seq<MandatedTest>, derived: seq<MandatedTest>)
    ensures DistinctNames(Added(declared, derived))
    ensures forall mt :: mt in Added(declared, derived) ==> mt in derived && mt.funcName !in NamesOf(declared)
  {
    if derived != [] {
      var init, mt := derived[..|derived| - 1], derived[|derived| - 1];
      assert derived == init + [mt];
      AddedOnce(declared, init);
      if mt.funcName !in NamesOf(declared) + NamesOf(Added(declared, init)) {
        DistinctSnoc(Added(declared, init), mt);
      }
    }
  }

  lemma {:induction false} AddedNames(declared: seq<MandatedTest>, derived: seq<MandatedTest>)
    ensures NamesOf(declared) + NamesOf(Added(declared, derived)) == NamesOf(declared) + NamesOf(derived)
  {
    if derived != [] {
      var init, mt := derived[..|derived| - 1], derived[|derived| - 1];
      assert derived == init + [mt];
      AddedNames(declared, init);
      NamesSnoc(init, mt);
      NamesSnoc(Added(declared, init), mt);
    }
  }

  /** Explicit entries stay an unchanged prefix; each derived name not declared explicitly is added
      exactly once, and nothing else is. */
  lemma UnionMeaning(declared: seq<MandatedTest>, derived: seq<MandatedTest>)
    ensures var out := declared + Added(declared, derived);
      && declared <= out && DistinctNames(out[|declared|..])
      && (forall mt :: mt in out[|declared|..] ==> mt in derived && mt.funcName !in NamesOf(declared))
      && NamesOf(out) == NamesOf(declared) + NamesOf(derived)
  {
    assert (declared + Added(declared, derived))[|declared|..] == Added(declared, derived);
    AddedOnce(declared, derived);
    AddedNames(declared, derived);
    NamesConcat(declared, Added(declared, derived));
  }

  // ---------------------------------------------------------------- which names

  /** The name is declared on one of the plan's tasks. */
  ghost predicate Declares(plan: PlanFile, name: string) {
    exists task :: task in Tasks(plan) && name in task.testNames
  }

  /** The name is owed through a task's claim on a non-retired source artifact. */
  ghost predicate OwesThroughClaim(plan: PlanFile, sources: seq<Record>, name: string) {
    && plan.specId != ""
    && exists task :: task in Tasks(plan) && TaskOwes(plan, sources, task, name)
  }

  ghost predicate TaskOwes(plan: PlanFile, sources: seq<Record>, task: Task, name: string) {
    exists claim :: claim in task.claims && Owes(sources, ClaimKey(plan.specId, claim), name)
  }

  lemma FlatMapNames<A>(f: A -> seq<MandatedTest>, xs: seq<A>, name: string)
    ensures name in NamesOf(FlatMap(f, xs)) <==> exists x :: x in xs && name in NamesOf(f(x))
  {
    if name in NamesOf(FlatMap(f, xs)) {
      var mt :| mt in FlatMap(f, xs) && mt.funcName == name;
      FlatMapMember(f, xs, mt);
    }
    if x :| x in xs && name in NamesOf(f(x)) {
      var mt :| mt in f(x) && mt.funcName == name;
      FlatMapMember(f, xs, mt);
    }
  }

  lemma MapNames(f: string -> MandatedTest, names: seq<string>, name: string)
    requires forall n :: f(n).funcName == n
    ensures name in NamesOf(Map(f, names)) <==> name in names
  {
    if name in NamesOf(Map(f, names)) {
      var mt :| mt in Map(f, names) && mt.funcName == name;
      var i :| 0 <= i < |names| && Map(f, names)[i] == mt;
      assert names[i] == name;
    }
    if name in names {
      var i :| 0 <= i < |names| && names[i] == name;
      assert Map(f, names)[i] in Map(f, names);
    }
  }

  lemma DeclaredNames(plan: PlanFile, name: string)
    ensures name in NamesOf(TaskTests(plan)) <==> Declares(plan, name)
  {
    FlatMapNames(DeclaredOn(plan), Tasks(plan), name);
    forall task | task in Tasks(plan) ensures name in NamesOf(DeclaredOn(plan)(task)) <==> name in task.testNames {
      MapNames(Explicit(plan, task), task.testNames, name);
    }
  }

  lemma DerivedTaskNames(plan: PlanFile, sources: seq<Record>, task: Task, name: string)
    ensures name in NamesOf(DerivedOn(plan, sources)(task)) <==> TaskOwes(plan, sources, task, name)
  {
    FlatMapNames(DerivedFor(plan, sources), task.claims, name);
    forall claim | claim in task.claims
      ensures name in NamesOf(DerivedFor(plan, sources)(claim)) <==> Owes(sources, ClaimKey(plan.specId, claim), name)
    {
      MapNames(DerivedTest(plan, claim), Owed(sources, ClaimKey(plan.specId, claim)), name);
      OwedMeaning(sources, ClaimKey(plan.specId, claim), name);
    }
  }

  lemma DerivedNames(plan: PlanFile, sources: seq<Record>, name: string)
    ensures name in NamesOf(ClaimTests(plan, sources)) <==> OwesThroughClaim(plan, sources, name)
  {
    if plan.specId != "" {
      FlatMapNames(DerivedOn(plan, sources), Tasks(plan), name);
      forall task | task in Tasks(plan)
        ensures name in NamesOf(DerivedOn(plan, sources)(task)) <==> TaskOwes(plan, sources, task, name)
      {
        DerivedTaskNames(plan, sources, task, name);
      }
    }
  }

  /** A plan's tasks are those of all its phases. */
  lemma TasksMeaning(plan: PlanFile, task: Task)
    ensures task in Tasks(plan) <==> exists phase :: phase in plan.phases && task in phase
  {
    FlatMapMember(PHASE, plan.phases, task);
  }

  /** Declared tests are owed by the plan, under the task that declares them. */
  lemma TaskTestsMeaning(plan: PlanFile, mt: MandatedTest)
    ensures mt in TaskTests(plan) <==>
      exists task, name :: task in Tasks(plan) && name in task.testNames
                        && mt == MandatedTest(name, "", plan.path, "", plan.planId, task.id, "", false)
  {
    FlatMapMember(DeclaredOn(plan), Tasks(plan), mt);
    forall task ensures mt in DeclaredOn(plan)(task) <==>
      exists name :: name in task.testNames
                  && mt == MandatedTest(name, "", plan.path, "", plan.planId, task.id, "", false)
    {
      MapMember(Explicit(plan, task), task.testNames, mt);
    }
  }

  /** Derived tests are owed by the plan, under the claim they come from. */
  lemma ClaimTestsMeaning(plan: PlanFile, sources: seq<Record>, mt: MandatedTest)
    requires plan.specId != ""
    ensures mt in ClaimTests(plan, sources)
       <==> exists task :: task in Tasks(plan) && DerivesIn(plan, sources, task, mt)
  {
    FlatMapMember(DerivedOn(plan, sources), Tasks(plan), mt);
    forall task ensures mt in DerivedOn(plan, sources)(task) <==> DerivesIn(plan, sources, task, mt) {
      FlatMapMember(DerivedFor(plan, sources), task.claims, mt);
      forall claim ensures mt in DerivedFor(plan, sources)(claim) <==> DerivesFrom(plan, sources, claim, mt) {
        MapMember(DerivedTest(plan, claim), Owed(sources, ClaimKey(plan.specId, claim)), mt);
        var key := ClaimKey(plan.specId, claim);
        forall name ensures name in Owed(sources, key) <==> Owes(sources, key, name) {
          OwedMeaning(sources, key, name);
        }
      }
    }
  }

  ghost predicate DerivesIn(plan: PlanFile, sources: seq<Record>, task: Task, mt: MandatedTest) {
    exists claim :: claim in task.claims && DerivesFrom(plan, sources, claim, mt)
  }

  ghost predicate DerivesFrom(plan: PlanFile, sources: seq<Record>, claim: string, mt: MandatedTest) {
    && Owes(sources, ClaimKey(plan.specId, claim), mt.funcName)
    && mt == MandatedTest(mt.funcName, "", plan.path, "", plan.planId, claim, "", false)
  }
}
