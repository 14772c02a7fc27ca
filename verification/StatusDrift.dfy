/** Resolving records plan by plan, the present-name set, and the drift verdict. */
module StatusDrift {
  import opened Seqs
  import opened Paths
  import opened Findings
  import opened Artifacts
  import opened Drift

  // ---------------------------------------------------------------- resolution

  /** The record of a plan: held to what its tasks declare and to what its source's claims mandate. */
  function PlanRecord(sources: seq<Record>): PlanFile -> Record {
    (plan: PlanFile) =>
      Record(plan.planId, Plan, plan.status, ClassifyArtifactStatus(Plan, plan.status), plan.path,
             TaskTests(plan) + Added(TaskTests(plan), ClaimTests(plan, sources)), plan.specId, "", [])
  }

  /** Every record, and the plan that delivers an artifact. */
  datatype Resolution = Resolution(records: seq<Record>, plansBySpec: map<string, Record>)

  /** BackingPlan */
  function BackingPlan(plansBySpec: map<string, Record>, id: string): Option<Record> {
    if id in plansBySpec then Some(plansBySpec[id]) else None
  }

  /** The last plan file that names the artifact as its source. */
  function LastPlanFor(plans: seq<PlanFile>, id: string): Option<PlanFile> {
    if plans == [] || id == "" then None
    else if plans[|plans| - 1].specId == id then Some(plans[|plans| - 1])
    else LastPlanFor(plans[..|plans| - 1], id)
  }

  ghost function Planned(sources: seq<Record>, plan: Option<PlanFile>): Option<Record> {
    if plan.None? then None else Some(PlanRecord(sources)(plan.value))
  }

  ghost predicate Backs(plansBySpec: map<string, Record>, sources: seq<Record>, plans: seq<PlanFile>) {
    forall id :: BackingPlan(plansBySpec, id) == Planned(sources, LastPlanFor(plans, id))
  }

  lemma LastPlanSnoc(plans: seq<PlanFile>, plan: PlanFile, id: string)
    ensures LastPlanFor(plans + [plan], id)
         == if id != "" && plan.specId == id then Some(plan) else LastPlanFor(plans, id)
  {
    assert (plans + [plan])[..|plans|] == plans;
  }

  lemma BacksSnoc(plansBySpec: map<string, Record>, sources: seq<Record>, plans: seq<PlanFile>, plan: PlanFile)
    requires Backs(plansBySpec, sources, plans)
    ensures
      var next := if plan.specId == "" then plansBySpec else plansBySpec[plan.specId := PlanRecord(sources)(plan)];
      Backs(next, sources, plans + [plan])
  {
    var rec := PlanRecord(sources)(plan);
    var next := if plan.specId == "" then plansBySpec else plansBySpec[plan.specId := rec];
    forall id ensures BackingPlan(next, id) == Planned(sources, LastPlanFor(plans + [plan], id)) {
      LastPlanSnoc(plans, plan, id);
      assert BackingPlan(plansBySpec, id) == Planned(sources, LastPlanFor(plans, id));
    }
  }

  method ResolvePlan(plan: PlanFile, index: ClaimIndex, ghost sources: seq<Record>) returns (rec: Record)
    requires Indexes(index, sources)
    ensures rec == PlanRecord(sources)(plan)
  {
    var declared := PlanTaskMandatedTests(plan);
    var derived := PlanClaimDerivedMandatedTests(plan, index, sources);
    var mandated := UnionPlanMandatedTests(declared, derived);
    rec := Record(plan.planId, Plan, plan.status, ClassifyArtifactStatus(Plan, plan.status), plan.path,
                  mandated, plan.specId, "", []);
  }

  /** ResolveArtifactStatus, from parsed files.  The claim index is folded from the records
      already appended, so the plan walk comes last. */
  method ResolveArtifactStatus(specs: seq<Record>, bundles: seq<Record>, issues: seq<Record>, directives: seq<Record>,
                               plans: seq<PlanFile>)
    returns (res: Resolution)
    ensures var sources := specs + bundles + issues + directives;
      && res.records == sources + Map(PlanRecord(sources), plans)
      && Backs(res.plansBySpec, sources, plans)
  {
    var records := specs + bundles + issues + directives;
    ghost var sources := records;
    var index := BuildSourceClaimIndex(records);
    var plansBySpec: map<string, Record> := map[];
    for i := 0 to |plans|
      invariant records == sources + Map(PlanRecord(sources), plans[..i])
      invariant Backs(plansBySpec, sources, plans[..i])
    {
      PrefixStep(plans, i);
      var rec := ResolvePlan(plans[i], index, sources);
      MapSnoc(PlanRecord(sources), plans[..i], plans[i]);
      AppendAssoc(sources, Map(PlanRecord(sources), plans[..i]), [rec]);
      BacksSnoc(plansBySpec, sources, plans[..i], plans[i]);
      records := records + [rec];
      if plans[i].specId != "" {
        plansBySpec := plansBySpec[plans[i].specId := rec];
      }
    }
    assert plans[..|plans|] == plans;
    res := Resolution(records, plansBySpec);
  }

  /** A plan is held to exactly the names its tasks declare or owe, and to no path before the sweep. */
  lemma PlanRecordMeaning(plan: PlanFile, sources: seq<Record>, name: string)
    ensures var rec := PlanRecord(sources)(plan);
      && (name in NamesOf(rec.mandated) <==> Declares(plan, name) || OwesThroughClaim(plan, sources, name))
      && (rec.cls.SuccessTerminal? <==> plan.status == "completed")
  {
    UnionMeaning(TaskTests(plan), ClaimTests(plan, sources));
    DeclaredNames(plan, name);
    DerivedNames(plan, sources, name);
    ClassMeaning(Plan, plan.status);
  }

  lemma TaskTestPath(plan: PlanFile, mt: MandatedTest)
    requires mt in TaskTests(plan)
    ensures mt.filePath == ""
  {
    FlatMapMember(DeclaredOn(plan), Tasks(plan), mt);
  }

  lemma ClaimTestPath(plan: PlanFile, sources: seq<Record>, mt: MandatedTest)
    requires mt in ClaimTests(plan, sources)
    ensures mt.filePath == ""
  {
    FlatMapMember(DerivedOn(plan, sources), Tasks(plan), mt);
    var task :| task in Tasks(plan) && mt in DerivedOn(plan, sources)(task);
    FlatMapMember(DerivedFor(plan, sources), task.claims, mt);
  }

  lemma UnresolvedPaths(plan: PlanFile, sources: seq<Record>, mt: MandatedTest)
    requires mt in PlanRecord(sources)(plan).mandated
    ensures mt.filePath == ""
  {
    AddedOnce(TaskTests(plan), ClaimTests(plan, sources));
    if mt in TaskTests(plan) { TaskTestPath(plan, mt); } else { ClaimTestPath(plan, sources, mt); }
  }

  // ---------------------------------------------------------------- presence

  function Located(found: map<string, string>): MandatedTest -> MandatedTest {
    (mt: MandatedTest) => if mt.funcName in found then mt.(filePath := found[mt.funcName]) else mt
  }

  const MANDATED: Record -> seq<MandatedTest> := (rec: Record) => rec.mandated

  /** Found in source, or declared by an installed pack. */
  predicate Evidenced(claims: map<string, string>, mt: MandatedTest) {
    mt.filePath != "" || mt.funcName in claims
  }

  function PresentAmong(tests: seq<MandatedTest>, claims: map<string, string>): set<string> {
    set mt | mt in tests && Evidenced(claims, mt) :: mt.funcName
  }

  /** ResolvePresentTestNames */
  method ResolvePresentTestNames(tests: seq<MandatedTest>, claims: map<string, string>) returns (present: set<string>)
    ensures present == PresentAmong(tests, claims)
  {
    present := {};
    for i := 0 to |tests|
      invariant present == PresentAmong(tests[..i], claims)
    {
      PrefixStep(tests, i);
      if tests[i].filePath != "" || tests[i].funcName in claims {
        present := present + {tests[i].funcName};
      }
    }
    assert tests[..|tests|] == tests;
  }

  /** ResolveMandatedTestPaths */
  method ResolveMandatedTestPaths(tests: seq<MandatedTest>, found: map<string, string>) returns (r: seq<MandatedTest>)
    ensures r == Map(Located(found), tests)
  {
    r := tests;
    for i := 0 to |tests|
      invariant |r| == |tests|
      invariant forall j :: 0 <= j < i ==> r[j] == Located(found)(tests[j])
      invariant forall j :: i <= j < |tests| ==> r[j] == tests[j]
    {
      if r[i].funcName in found {
        r := r[i := r[i].(filePath := found[r[i].funcName])];
      }
    }
    assert r == Map(Located(found), tests);
  }

  // ---------------------------------------------------------------- the verdict

  function Broken(rec: Record, mt: MandatedTest): Violation {
    Report(OfStep(StepName.StatusDrift), rec.path,
           BrokenPromise(rec.id, rec.status, rec.cls, mt.funcName, mt.claimId), "error")
  }

  function BrokenBy(rec: Record, present: set<string>): MandatedTest -> seq<Violation> {
    (mt: MandatedTest) => if mt.funcName in present then [] else [Broken(rec, mt)]
  }

  function Delivered(rec: Record): Violation {
    Report(OfStep(StatusDriftAdvisory), rec.path, Message.LooksDelivered(rec.id, rec.status, rec.cls), "warning")
  }

  predicate AllPresent(rec: Record, present: set<string>) {
    rec.mandated != [] && forall mt :: mt in rec.mandated ==> mt.funcName in present
  }

  function DriftOf(present: set<string>): Record -> seq<Violation> {
    (rec: Record) =>
      match rec.cls
      case RetiredTerminal => []
      case SuccessTerminal => FlatMap(BrokenBy(rec, present), rec.mandated)
      case NonTerminal => if AllPresent(rec, present) then [Delivered(rec)] else []
  }

  method LooksDelivered(rec: Record, present: set<string>) returns (b: bool)
    ensures b <==> AllPresent(rec, present)
  {
    if |rec.mandated| == 0 {
      return false;
    }
    for i := 0 to |rec.mandated|
      invariant forall j :: 0 <= j < i ==> rec.mandated[j].funcName in present
    {
      if rec.mandated[i].funcName !in present {
        assert rec.mandated[i] in rec.mandated;
        return false;
      }
    }
    return true;
  }

  /** ClassifyStatusDrift */
  method ClassifyStatusDrift(records: seq<Record>, present: set<string>) returns (r: StepResult)
    ensures r == Produced(StepName.StatusDrift, VerdictOn(multiset(FlatMap(DriftOf(present), records))),
                          FlatMap(DriftOf(present), records))
  {
    var violations: seq<Violation> := [];
    for i := 0 to |records|
      invariant violations == FlatMap(DriftOf(present), records[..i])
    {
      var rec := records[i];
      PrefixStep(records, i);
      FlatMapSnoc(DriftOf(present), records[..i], rec);
      match rec.cls {
        case RetiredTerminal =>
        case SuccessTerminal =>
          var broken := BrokenPromises(rec, present);
          violations := violations + broken;
        case NonTerminal =>
          var delivered := LooksDelivered(rec, present);
          if delivered {
            violations := violations + [Delivered(rec)];
          }
      }
    }
    assert records[..|records|] == records;
    var status := SeverityStatus(violations);
    r := Produced(StepName.StatusDrift, status, violations);
  }

  method BrokenPromises(rec: Record, present: set<string>) returns (vs: seq<Violation>)
    ensures vs == FlatMap(BrokenBy(rec, present), rec.mandated)
  {
    vs := [];
    for i := 0 to |rec.mandated|
      invariant vs == FlatMap(BrokenBy(rec, present), rec.mandated[..i])
    {
      PrefixStep(rec.mandated, i);
      FlatMapSnoc(BrokenBy(rec, present), rec.mandated[..i], rec.mandated[i]);
      if rec.mandated[i].funcName in present {
        continue;
      }
      vs := vs + [Broken(rec, rec.mandated[i])];
    }
    assert rec.mandated[..|rec.mandated|] == rec.mandated;
  }

  function PresentNames(records: seq<Record>, found: map<string, string>, claims: map<string, string>): set<string> {
    PresentAmong(Map(Located(found), FlatMap(MANDATED, records)), claims)
  }

  function Relocated(root: string): Violation -> Violation {
    (v: Violation) => v.(file := NormalizePath(root, v.file))
  }

  /** Everything drift reports, at project-relative paths. */
  ghost function DriftReports(root: string, records: seq<Record>, found: map<string, string>,
                              claims: map<string, string>)
    : seq<Violation>
  {
    Map(Relocated(root), FlatMap(DriftOf(PresentNames(records, found, claims)), records))
  }

  /** computeDriftSurfaces: one resolution, split into the policied block step and the
      advisory step no policy can reach. */
  method ComputeDriftSurfaces(root: string, records: seq<Record>, found: map<string, string>,
                              claims: map<string, string>)
    returns (block: StepResult, advisory: StepResult)
    ensures
      var vs := DriftReports(root, records, found, claims);
      var errors, rest := Filter(Severe(true), vs), Filter(Severe(false), vs);
      && block == Produced(StepName.StatusDrift, VerdictOn(multiset(errors)), errors)
      && advisory == Produced(StatusDriftAdvisory, VerdictOn(multiset(rest)), rest)
      && advisory.status != Fail
  {
    var all: seq<MandatedTest> := [];
    for i := 0 to |records|
      invariant all == FlatMap(MANDATED, records[..i])
    {
      PrefixStep(records, i);
      FlatMapSnoc(MANDATED, records[..i], records[i]);
      all := all + records[i].mandated;
    }
    assert records[..|records|] == records;
    all := ResolveMandatedTestPaths(all, found);
    var present := ResolvePresentTestNames(all, claims);
    var combined := ClassifyStatusDrift(records, present);
    var vs := RelocateAll(root, combined.violations);
    var errors, rest := SplitResult(vs);
    SplitVerdicts(vs);
    var blockStatus := SeverityStatus(errors);
    var advisoryStatus := SeverityStatus(rest);
    block := Produced(StepName.StatusDrift, blockStatus, errors);
    advisory := Produced(StatusDriftAdvisory, advisoryStatus, rest);
  }

  method RelocateAll(root: string, vs: seq<Violation>) returns (r: seq<Violation>)
    ensures r == Map(Relocated(root), vs)
  {
    r := vs;
    for i := 0 to |vs|
      invariant |r| == |vs|
      invariant forall j :: 0 <= j < i ==> r[j] == Relocated(root)(vs[j])
      invariant forall j :: i <= j < |vs| ==> r[j] == vs[j]
    {
      r := r[i := r[i].(file := NormalizePath(root, r[i].file))];
    }
    assert r == Map(Relocated(root), vs);
  }

  // ---------------------------------------------------------------- drift, end to end

  /** What resolution leaves: no mandated test carries a path before the source sweep. */
  ghost predicate Unswept(records: seq<Record>) {
    forall rec, mt :: rec in records && mt in rec.mandated ==> mt.filePath == ""
  }

  lemma PresenceMeaning(records: seq<Record>, found: map<string, string>, claims: map<string, string>, name: string)
    requires Unswept(records) && name in NamesOf(FlatMap(MANDATED, records))
    requires forall n :: n in found ==> found[n] != ""
    ensures name in PresentNames(records, found, claims) <==> name in found || name in claims
  {
    var all := FlatMap(MANDATED, records);
    forall mt | mt in all ensures mt.filePath == "" { FlatMapMember(MANDATED, records, mt); }
    SweptPresence(all, found, claims, name);
  }

  lemma SweptPresence(all: seq<MandatedTest>, found: map<string, string>, claims: map<string, string>, name: string)
    requires name in NamesOf(all) && (forall mt :: mt in all ==> mt.filePath == "")
    requires forall n :: n in found ==> found[n] != ""
    ensures name in PresentAmong(Map(Located(found), all), claims) <==> name in found || name in claims
  {
    var swept := Map(Located(found), all);
    var mt :| mt in all && mt.funcName == name;
    var i :| 0 <= i < |all| && all[i] == mt;
    assert swept[i] in swept && swept[i] == Located(found)(mt);
    if name in PresentAmong(swept, claims) {
      var s :| s in swept && Evidenced(claims, s) && s.funcName == name;
      var j :| 0 <= j < |swept| && swept[j] == s;
      assert all[j] in all;
    }
  }

  /** `v` is a broken promise about the named test, located at that path. */
  ghost predicate BreaksFor(v: Violation, path: string, name: string) {
    v.file == path && v.message.BrokenPromise? && v.message.test == name
  }

  ghost predicate BreaksPromise(rec: Record, present: set<string>, name: string) {
    rec.cls.SuccessTerminal? && name in NamesOf(rec.mandated) && name !in present
  }

  /** What one record contributes: a broken promise per absent test, or the one delivered-but-open note. */
  lemma RecordReports(r: Record, present: set<string>, v: Violation)
    ensures v in DriftOf(present)(r) <==>
      (|| (r.cls.SuccessTerminal? && exists mt :: mt in r.mandated && mt.funcName !in present && v == Broken(r, mt))
       || (r.cls.NonTerminal? && AllPresent(r, present) && v == Delivered(r)))
  {
    FlatMapMember(BrokenBy(r, present), r.mandated, v);
  }

  lemma RecordBreaks(r: Record, present: set<string>, path: string, name: string)
    ensures (exists v :: v in DriftOf(present)(r) && BreaksFor(v, path, name)) <==>
      r.path == path && BreaksPromise(r, present, name)
  {
    if v :| v in DriftOf(present)(r) && BreaksFor(v, path, name) {
      RecordReports(r, present, v);
    }
    if r.path == path && BreaksPromise(r, present, name) {
      var mt :| mt in r.mandated && mt.funcName == name;
      RecordReports(r, present, Broken(r, mt));
      assert BreaksFor(Broken(r, mt), path, name);
    }
  }

  /** Relocating and splitting lose no broken promise and invent none. */
  lemma BlockSurfaceKeeps(root: string, vs: seq<Violation>, path: string, name: string)
    requires forall v :: v in vs && v.message.BrokenPromise? ==> v.severity == "error"
    ensures (exists v :: v in Filter(Severe(true), Map(Relocated(root), vs)) && BreaksFor(v, path, name)) <==>
      exists v :: v in vs && BreaksFor(v, v.file, name) && NormalizePath(root, v.file) == path
  {
    var moved := Map(Relocated(root), vs);
    FilterMembers(Severe(true), moved);
    if v :| v in Filter(Severe(true), moved) && BreaksFor(v, path, name) {
      var i :| 0 <= i < |moved| && moved[i] == v;
      assert vs[i] in vs && BreaksFor(vs[i], vs[i].file, name);
    }
    if v :| v in vs && BreaksFor(v, v.file, name) && NormalizePath(root, v.file) == path {
      var i :| 0 <= i < |vs| && vs[i] == v;
      assert moved[i] in moved && BreaksFor(moved[i], path, name);
      assert Severe(true)(moved[i]);
    }
  }

  lemma BrokenIsError(records: seq<Record>, present: set<string>, v: Violation)
    requires v in FlatMap(DriftOf(present), records) && v.message.BrokenPromise?
    ensures v.severity == "error"
  {
    FlatMapMember(DriftOf(present), records, v);
    var r :| r in records && v in DriftOf(present)(r);
    RecordReports(r, present, v);
  }

  /** The block surface reports a broken promise about a test at a path iff some record filed there
      breaks it. */
  lemma BlockSurfaceMeaning(root: string, records: seq<Record>, found: map<string, string>, claims: map<string, string>,
                            path: string, name: string)
    ensures (exists v :: v in Filter(Severe(true), DriftReports(root, records, found, claims))
                      && BreaksFor(v, path, name))
      <==> exists r :: r in records && NormalizePath(root, r.path) == path
                    && BreaksPromise(r, PresentNames(records, found, claims), name)
  {
    var present := PresentNames(records, found, claims);
    var vs := FlatMap(DriftOf(present), records);
    forall v | v in vs && v.message.BrokenPromise? ensures v.severity == "error" { BrokenIsError(records, present, v); }
    BlockSurfaceKeeps(root, vs, path, name);
    if v :| v in vs && BreaksFor(v, v.file, name) && NormalizePath(root, v.file) == path {
      FlatMapMember(DriftOf(present), records, v);
      var r :| r in records && v in DriftOf(present)(r);
      RecordBreaks(r, present, v.file, name);
    }
    if r :| r in records && NormalizePath(root, r.path) == path && BreaksPromise(r, present, name) {
      RecordBreaks(r, present, r.path, name);
      var v :| v in DriftOf(present)(r) && BreaksFor(v, r.path, name);
      FlatMapMember(DriftOf(present), records, v);
    }
  }

  /** What a plan must have been, for its file to be reported about a name. */
  ghost predicate PlanBreaks(plan: PlanFile, sources: seq<Record>, found: map<string, string>,
                             claims: map<string, string>,
                             name: string)
  {
    && plan.status == "completed"
    && (Declares(plan, name) || OwesThroughClaim(plan, sources, name))
    && name !in found && name !in claims
  }

  /** No other record is filed at the path of this one. */
  ghost predicate FiledAlone(root: string, records: seq<Record>, rec: Record) {
    forall r :: r in records && NormalizePath(root, r.path) == NormalizePath(root, rec.path) ==> r == rec
  }

  /** Of a plan filed alone, a report about the name is made at its path iff the plan breaks it. */
  ghost predicate ReportedExactly(root: string, sources: seq<Record>, plans: seq<PlanFile>, plan: PlanFile,
                                  found: map<string, string>, claims: map<string, string>, reports: seq<Violation>,
                                  name: string)
  {
    FiledAlone(root, sources + Map(PlanRecord(sources), plans), PlanRecord(sources)(plan)) ==>
      ((exists v :: v in reports && BreaksFor(v, NormalizePath(root, plan.path), name))
       <==> PlanBreaks(plan, sources, found, claims, name))
  }

  /** The block surface of a resolved corpus reports a plan broken for a test name iff the plan is
      completed, the name is declared on its tasks or owed through a claim on a non-retired source,
      and neither vocabulary has it. */
  lemma PlanDriftEndToEnd(root: string, sources: seq<Record>, plans: seq<PlanFile>, plan: PlanFile,
                          found: map<string, string>, claims: map<string, string>, name: string)
    requires Unswept(sources) && forall n :: n in found ==> found[n] != ""
    requires plan in plans
    ensures var records := sources + Map(PlanRecord(sources), plans);
      ReportedExactly(root, sources, plans, plan, found, claims,
                      Filter(Severe(true), DriftReports(root, records, found, claims)), name)
  {
    var records, rec := sources + Map(PlanRecord(sources), plans), PlanRecord(sources)(plan);
    PlanFiled(sources, plans, plan);
    BlockSurfaceMeaning(root, records, found, claims, NormalizePath(root, plan.path), name);
    PlanPromise(sources, plans, plan, found, claims, name);
  }

  lemma PlanFiled(sources: seq<Record>, plans: seq<PlanFile>, plan: PlanFile)
    requires plan in plans
    ensures PlanRecord(sources)(plan) in sources + Map(PlanRecord(sources), plans)
  {
    var i :| 0 <= i < |plans| && plans[i] == plan;
    assert Map(PlanRecord(sources), plans)[i] == PlanRecord(sources)(plan);
  }

  lemma PlanPromise(sources: seq<Record>, plans: seq<PlanFile>, plan: PlanFile,
                    found: map<string, string>, claims: map<string, string>, name: string)
    requires Unswept(sources) && plan in plans && forall n :: n in found ==> found[n] != ""
    ensures var records := sources + Map(PlanRecord(sources), plans);
      BreaksPromise(PlanRecord(sources)(plan), PresentNames(records, found, claims), name)
      <==> PlanBreaks(plan, sources, found, claims, name)
  {
    var records, rec := sources + Map(PlanRecord(sources), plans), PlanRecord(sources)(plan);
    PlanRecordMeaning(plan, sources, name);
    if name in NamesOf(rec.mandated) {
      PlanFiled(sources, plans, plan);
      ResolvedUnswept(sources, plans);
      var mt :| mt in rec.mandated && mt.funcName == name;
      FlatMapMember(MANDATED, records, mt);
      PresenceMeaning(records, found, claims, name);
    }
  }

  lemma ResolvedUnswept(sources: seq<Record>, plans: seq<PlanFile>)
    requires Unswept(sources)
    ensures Unswept(sources + Map(PlanRecord(sources), plans))
  {
    var planned := Map(PlanRecord(sources), plans);
    forall rec, mt | rec in sources + planned && mt in rec.mandated ensures mt.filePath == "" {
      if rec !in sources {
        var i :| 0 <= i < |planned| && planned[i] == rec;
        UnresolvedPaths(plans[i], sources, mt);
      }
    }
  }

  /** buildStatusDriftSteps: a resolution failure is a config error of the block step, and leaves the
      advisory clean. */
  method StatusDriftSteps(root: string, failure: Option<string>, specs: seq<Record>, bundles: seq<Record>,
                          issues: seq<Record>, directives: seq<Record>, plans: seq<PlanFile>,
                          found: map<string, string>, claims: map<string, string>)
    returns (block: StepResult, advisory: StepResult)
    requires forall n :: n in found ==> found[n] != ""
    ensures block.stepName == StepName.StatusDrift && advisory.stepName == StatusDriftAdvisory
    ensures block.configErr <==> failure.Some?
    ensures failure.Some? ==> block.status == Fail
    ensures advisory.status != Fail && !advisory.configErr
    ensures var sources := specs + bundles + issues + directives;
      failure.None? && Unswept(sources) ==>
        forall plan, name :: plan in plans ==>
          ReportedExactly(root, sources, plans, plan, found, claims, block.violations, name)
  {
    if failure.Some? {
      block := Produced(StepName.StatusDrift, Fail,
                        [Report(OfStep(StepName.StatusDrift), "", Text(failure.value), "error")]).(configErr := true);
      advisory := Produced(StatusDriftAdvisory, Pass, []);
      return;
    }
    var res := ResolveArtifactStatus(specs, bundles, issues, directives, plans);
    block, advisory := ComputeDriftSurfaces(root, res.records, found, claims);
    ghost var sources := specs + bundles + issues + directives;
    forall plan, name | Unswept(sources) && plan in plans
      ensures ReportedExactly(root, sources, plans, plan, found, claims, block.violations, name)
    {
      PlanDriftEndToEnd(root, sources, plans, plan, found, claims, name);
    }
  }

  ghost predicate SomePromiseBroken(records: seq<Record>, present: set<string>) {
    exists rec, mt :: rec in records && rec.cls.SuccessTerminal? && mt in rec.mandated && mt.funcName !in present
  }

  ghost predicate SomeLooksDelivered(records: seq<Record>, present: set<string>) {
    exists rec :: rec in records && rec.cls.NonTerminal? && rec.mandated != [] && NamesOf(rec.mandated) <= present
  }

  lemma AllPresentMeaning(rec: Record, present: set<string>)
    ensures AllPresent(rec, present) <==> rec.mandated != [] && NamesOf(rec.mandated) <= present
  {
    forall mt | mt in rec.mandated ensures mt.funcName in NamesOf(rec.mandated) {}
  }

  lemma DriftCause(records: seq<Record>, present: set<string>, v: Violation)
    requires v in FlatMap(DriftOf(present), records)
    ensures v.severity == "error" ==> SomePromiseBroken(records, present)
    ensures v.severity == "warning" ==> SomeLooksDelivered(records, present)
  {
    FlatMapMember(DriftOf(present), records, v);
    var rec :| rec in records && v in DriftOf(present)(rec);
    RecordReports(rec, present, v);
    AllPresentMeaning(rec, present);
    assert "error" != "warning";
  }

  lemma DriftShows(records: seq<Record>, present: set<string>)
    ensures var reports := FlatMap(DriftOf(present), records);
      && (SomePromiseBroken(records, present) ==> exists v :: v in reports && v.severity == "error")
      && (SomeLooksDelivered(records, present) ==> exists v :: v in reports && v.severity == "warning")
  {
    if SomePromiseBroken(records, present) {
      var rec, mt :| rec in records && rec.cls.SuccessTerminal? && mt in rec.mandated && mt.funcName !in present;
      RecordReports(rec, present, Broken(rec, mt));
      FlatMapMember(DriftOf(present), records, Broken(rec, mt));
    }
    if SomeLooksDelivered(records, present) {
      var rec :| rec in records && rec.cls.NonTerminal? && rec.mandated != [] && NamesOf(rec.mandated) <= present;
      AllPresentMeaning(rec, present);
      RecordReports(rec, present, Delivered(rec));
      FlatMapMember(DriftOf(present), records, Delivered(rec));
    }
  }

  /** Fails iff a success-terminal record mandates an absent test; warns iff it does not fail
      and an open record has every mandated test present; retired records say nothing. */
  lemma ExactDriftVerdict(records: seq<Record>, present: set<string>)
    ensures var status := VerdictOn(multiset(FlatMap(DriftOf(present), records)));
      && (status == Fail <==> SomePromiseBroken(records, present))
      && (status == Warning <==> status != Fail && SomeLooksDelivered(records, present))
  {
    var reports := FlatMap(DriftOf(present), records);
    HoldsIn(reports, "error");
    HoldsIn(reports, "warning");
    DriftShows(records, present);
    if v :| v in reports && v.severity == "error" { DriftCause(records, present, v); }
    if v :| v in reports && v.severity == "warning" { DriftCause(records, present, v); }
  }

  /** Everything drift says: of a finished record, each mandated test that is absent, with its claim; of an
      open one with all its tests present, that it looks delivered. */
  lemma DriftSaid(records: seq<Record>, present: set<string>, v: Violation)
    ensures v in FlatMap(DriftOf(present), records) <==>
      exists rec :: rec in records && (BrokenSaid(rec, present, v) || DeliveredSaid(rec, present, v))
  {
    FlatMapMember(DriftOf(present), records, v);
    forall rec ensures v in DriftOf(present)(rec) <==> BrokenSaid(rec, present, v) || DeliveredSaid(rec, present, v) {
      RecordReports(rec, present, v);
      AllPresentMeaning(rec, present);
    }
  }

  ghost predicate BrokenSaid(rec: Record, present: set<string>, v: Violation) {
    && rec.cls == SuccessTerminal
    && exists mt :: && mt in rec.mandated && mt.funcName !in present
                    && v == Report(OfStep(StepName.StatusDrift), rec.path,
                                   BrokenPromise(rec.id, rec.status, rec.cls, mt.funcName, mt.claimId), "error")
  }

  ghost predicate DeliveredSaid(rec: Record, present: set<string>, v: Violation) {
    && rec.cls == NonTerminal && rec.mandated != [] && NamesOf(rec.mandated) <= present
    && v == Report(OfStep(StatusDriftAdvisory), rec.path,
                   Message.LooksDelivered(rec.id, rec.status, rec.cls), "warning")
  }
}
