/** The coverage-threshold step (pkg/gate/step_coverage.go). */
module Coverage {
  import opened Seqs
  import opened Paths
  import opened Findings
  import opened Scopes
  import Sorting

  datatype CoverageRecord = CoverageRecord(path: string, covered: nat, total: nat, excluded: bool,
                                           justification: string, metric: string)

  datatype SpecVerification = SpecVerification(threshold: int, metricThresholds: map<string, int>,
                                               file: string, package_: string)

  /** Pack-declared globs, as what they decide about a project-relative path. */
  datatype Classifier = Classifier(hasSourceGlobs: bool, measurable: string -> bool)

  // ---------------------------------------------------------------- the (path, metric) index

  datatype Slot = Slot(path: string, metric: string)

  function PathOf(r: CoverageRecord): string {
    NormalizePath("", r.path)
  }

  function SlotOf(r: CoverageRecord): Slot {
    Slot(PathOf(r), r.metric)
  }

  function PathsOf(records: seq<CoverageRecord>): set<string> {
    set r | r in records :: PathOf(r)
  }

  lemma PathsOfSnoc(records: seq<CoverageRecord>, r: CoverageRecord)
    ensures PathsOf(records + [r]) == PathsOf(records) + {PathOf(r)}
  {
  }

  type MetricMap = map<string, CoverageRecord>
  type PathIndex = map<string, MetricMap>

  function MetricsAt(index: PathIndex, path: string): MetricMap {
    if path in index then index[path] else map[]
  }

  function Entered(index: PathIndex, r: CoverageRecord): PathIndex {
    var inner := MetricsAt(index, PathOf(r));
    index[PathOf(r) := if r.metric in inner then inner else inner[r.metric := r]]
  }

  function IndexOf(records: seq<CoverageRecord>): PathIndex {
    if records == [] then map[] else Entered(IndexOf(records[..|records| - 1]), records[|records| - 1])
  }

  /** The slots met again after their first record, once per repetition. */
  function Repeats(records: seq<CoverageRecord>): seq<Slot> {
    if records == [] then []
    else
      var init, r := records[..|records| - 1], records[|records| - 1];
      Repeats(init) + if r.metric in MetricsAt(IndexOf(init), PathOf(r)) then [SlotOf(r)] else []
  }

  /** indexCoverageByPathMetric: the first record of a slot is kept, later ones are reported. */
  method IndexCoverageByPathMetric(records: seq<CoverageRecord>) returns (index: PathIndex, dups: seq<Slot>)
    ensures index == IndexOf(records) && dups == Repeats(records)
  {
    index, dups := map[], [];
    for i := 0 to |records|
      invariant index == IndexOf(records[..i]) && dups == Repeats(records[..i])
    {
      PrefixStep(records, i);
      var r := records[i];
      var path := NormalizePath("", r.path);
      var inner := if path in index then index[path] else map[];
      if r.metric in inner {
        dups := dups + [Slot(path, r.metric)];
        index := index[path := inner];
      } else {
        index := index[path := inner[r.metric := r]];
      }
    }
    assert records[..|records|] == records;
  }

  // ---------------------------------------------------------------- resolving a path

  predicate HasSuffix(s: string, suffix: string) {
    |suffix| <= |s| && s[|s| - |suffix|..] == suffix
  }

  function Qualified(keys: set<string>, path: string): set<string> {
    set k | k in keys && HasSuffix(k, "/" + path)
  }

  /** The index key that answers for a path: itself, or the one qualified form of it. */
  ghost predicate Answers(keys: set<string>, path: string, key: string) {
    if path in keys then key == path else '/' in path && Qualified(keys, path) == {key}
  }

  ghost predicate Resolvable(keys: set<string>, path: string) {
    exists key :: Answers(keys, path, key)
  }

  lemma AnswersUnique(keys: set<string>, path: string, a: string, b: string)
    requires Answers(keys, path, a) && Answers(keys, path, b)
    ensures a == b && a in keys
  {
    if path !in keys {
      assert a in Qualified(keys, path) && b in Qualified(keys, path);
    }
  }

  ghost function Resolved(index: PathIndex, path: string): Option<MetricMap> {
    if key :| Answers(index.Keys, path, key) then
      AnswersUnique(index.Keys, path, key, key);
      Some(index[key])
    else None
  }

  lemma ResolvedBy(index: PathIndex, path: string, key: string)
    requires Answers(index.Keys, path, key)
    ensures key in index && Resolved(index, path) == Some(index[key])
  {
    var k :| Answers(index.Keys, path, k) && Resolved(index, path) == Some(index[k]);
    AnswersUnique(index.Keys, path, k, key);
  }

  /** resolveCoverageRecordsForPath */
  method ResolveCoverageRecordsForPath(index: PathIndex, path: string) returns (r: Option<MetricMap>)
    ensures r == Resolved(index, path)
  {
    if path in index {
      ResolvedBy(index, path, path);
      return Some(index[path]);
    }
    if '/' !in path {
      return None;
    }
    var found, matched := CountQualified(index.Keys, path);
    if found == 1 {
      OneElement(Qualified(index.Keys, path), matched);
      ResolvedBy(index, path, matched);
      return Some(index[matched]);
    }
    forall key ensures !Answers(index.Keys, path, key) {
      assert |{key}| == 1;
    }
    return None;
  }

  method CountQualified(keys: set<string>, path: string) returns (found: nat, matched: string)
    ensures found == |Qualified(keys, path)|
    ensures found > 0 ==> matched in Qualified(keys, path)
  {
    var suffix := "/" + path;
    matched, found := "", 0;
    var todo := keys;
    ghost var done: set<string> := {};
    while todo != {}
      invariant done !! todo && done + todo == keys
      invariant found == |Qualified(done, path)|
      invariant found > 0 ==> matched in Qualified(done, path)
      decreases todo
    {
      var recPath :| recPath in todo;
      todo := todo - {recPath};
      QualifiedAdd(done, path, recPath);
      if HasSuffix(recPath, suffix) {
        matched := recPath;
        found := found + 1;
      }
      done := done + {recPath};
    }
    assert done == keys;
  }

  lemma QualifiedAdd(keys: set<string>, path: string, k: string)
    requires k !in keys
    ensures Qualified(keys + {k}, path) == Qualified(keys, path) + if HasSuffix(k, "/" + path) then {k} else {}
    ensures k !in Qualified(keys, path)
  {
  }

  lemma OneElement<T>(s: set<T>, x: T)
    requires |s| == 1 && x in s
    ensures s == {x}
  {
    assert |s - {x}| == 0;
  }

  // ---------------------------------------------------------------- governing thresholds

  function TrimSlashes(s: string): string {
    if s != "" && s[0] == '/' then TrimSlashes(s[1..])
    else if s != "" && s[|s| - 1] == '/' then TrimSlashes(s[..|s| - 1])
    else s
  }

  predicate PackagePathMatches(changedDir: string, specPackage: string) {
    var bare := TrimSlashes(specPackage);
    var trimmed := if "./" <= bare then bare[2..] else bare;
    if changedDir == "" || trimmed == "" then changedDir == trimmed
    else changedDir == trimmed || trimmed + "/" <= changedDir || changedDir + "/" <= trimmed
  }

  /** coverageSpecRelevantToFile */
  predicate RelevantToFile(spec: SpecVerification, file: string, includeRoot: bool) {
    var dir := if Dir(file) == "." then "" else Dir(file);
    if spec.package_ != "" then PackagePathMatches(dir, spec.package_) else includeRoot
  }

  function Governs(spec: SpecVerification, includeRoot: bool): string -> bool {
    (f: string) => RelevantToFile(spec, NormalizePath("", f), includeRoot)
  }

  /** coverageSpecRelevantToCodeScope */
  function RelevantTo(files: seq<string>, includeRoot: bool): SpecVerification -> bool {
    (spec: SpecVerification) => exists f :: f in files && Governs(spec, includeRoot)(f)
  }

  function OwnFileIn(scope: Scope): SpecVerification -> bool {
    (spec: SpecVerification) => spec.file != "" && Contains(scope, spec.file)
  }

  datatype Selection = Selection(specs: seq<SpecVerification>, collapsed: bool, threshold: int)

  function Max(a: int, b: int): int {
    if a < b then b else a
  }

  function MaxThreshold(specs: seq<SpecVerification>): int {
    if specs == [] then 0 else Max(MaxThreshold(specs[..|specs| - 1]), specs[|specs| - 1].threshold)
  }

  function SelectionFor(specs: seq<SpecVerification>, scope: Scope, floor: int): Selection {
    if Whole(scope) then Selection(specs, false, 0)
    else
      var own := Filter(OwnFileIn(scope), specs);
      if own != [] then Selection(own, false, 0)
      else
        var specific := Filter(RelevantTo(scope.value.files, false), specs);
        var governing := if specific != [] then specific else Filter(RelevantTo(scope.value.files, true), specs);
        var max := MaxThreshold(governing);
        Selection([], true, if max == 0 then floor else max)
  }

  /** coverageThresholdsForScope */
  method CoverageThresholdsForScope(specs: seq<SpecVerification>, scope: Scope, floor: int) returns (sel: Selection)
    ensures sel == SelectionFor(specs, scope, floor)
  {
    if Whole(scope) {
      return Selection(specs, false, 0);
    }
    var selected: seq<SpecVerification> := [];
    for i := 0 to |specs|
      invariant selected == Filter(OwnFileIn(scope), specs[..i])
    {
      PrefixStep(specs, i);
      if specs[i].file != "" && Contains(scope, specs[i].file) {
        selected := selected + [specs[i]];
      }
    }
    assert specs[..|specs|] == specs;
    if selected != [] {
      return Selection(selected, false, 0);
    }
    var max, any := MaxRelevant(specs, scope.value.files, false);
    if !any {
      max, any := MaxRelevant(specs, scope.value.files, true);
    }
    sel := Selection([], true, if max == 0 then floor else max);
  }

  method MaxRelevant(specs: seq<SpecVerification>, files: seq<string>, includeRoot: bool) returns (max: int, any: bool)
    ensures max == MaxThreshold(Filter(RelevantTo(files, includeRoot), specs))
    ensures any <==> Filter(RelevantTo(files, includeRoot), specs) != []
  {
    max, any := 0, false;
    for i := 0 to |specs|
      invariant max == MaxThreshold(Filter(RelevantTo(files, includeRoot), specs[..i]))
      invariant any <==> Filter(RelevantTo(files, includeRoot), specs[..i]) != []
    {
      PrefixStep(specs, i);
      FilterSnoc(RelevantTo(files, includeRoot), specs[..i], specs[i]);
      var relevant := AnyFile(files, Governs(specs[i], includeRoot));
      if !relevant {
        assert Filter(RelevantTo(files, includeRoot), specs[..i + 1])
            == Filter(RelevantTo(files, includeRoot), specs[..i]);
        continue;
      }
      MaxSnoc(Filter(RelevantTo(files, includeRoot), specs[..i]), specs[i]);
      any := true;
      if specs[i].threshold > max {
        max := specs[i].threshold;
      }
    }
    assert specs[..|specs|] == specs;
  }

  lemma MaxSnoc(specs: seq<SpecVerification>, spec: SpecVerification)
    ensures MaxThreshold(specs + [spec]) == Max(MaxThreshold(specs), spec.threshold)
  {
    assert (specs + [spec])[..|specs|] == specs;
  }

  method AnyFile(files: seq<string>, p: string -> bool) returns (b: bool)
    ensures b <==> exists f :: f in files && p(f)
  {
    for i := 0 to |files|
      invariant forall j :: 0 <= j < i ==> !p(files[j])
    {
      if p(files[i]) {
        return true;
      }
    }
    return false;
  }

  function Applicable(spec: SpecVerification, metric: string): int {
    if metric in spec.metricThresholds then spec.metricThresholds[metric] else spec.threshold
  }

  function Strictest(specs: seq<SpecVerification>, metric: string): int {
    if specs == [] then 0 else Max(Strictest(specs[..|specs| - 1], metric), Applicable(specs[|specs| - 1], metric))
  }

  function ThresholdFor(sel: Selection, metric: string): int {
    if sel.collapsed then sel.threshold else Strictest(sel.specs, metric)
  }

  /** The governing threshold is the largest applicable one, or zero when none is positive. */
  lemma {:induction false} StrictestMeaning(specs: seq<SpecVerification>, metric: string)
    ensures forall s :: s in specs ==> Applicable(s, metric) <= Strictest(specs, metric)
    ensures Strictest(specs, metric) == 0 || exists s :: s in specs && Applicable(s, metric) == Strictest(specs, metric)
    ensures Strictest(specs, metric) >= 0
  {
    if specs != [] {
      StrictestMeaning(specs[..|specs| - 1], metric);
      assert specs == specs[..|specs| - 1] + [specs[|specs| - 1]];
      assert specs[|specs| - 1] in specs;
    }
  }

  /** coverageThresholdForMetric */
  method CoverageThresholdForMetric(sel: Selection, metric: string) returns (max: int)
    ensures max == ThresholdFor(sel, metric)
  {
    if sel.collapsed {
      return sel.threshold;
    }
    max := 0;
    for i := 0 to |sel.specs|
      invariant max == Strictest(sel.specs[..i], metric)
    {
      PrefixStep(sel.specs, i);
      var applicable := sel.specs[i].threshold;
      if metric in sel.specs[i].metricThresholds {
        applicable := sel.specs[i].metricThresholds[metric];
      }
      if applicable > max {
        max := applicable;
      }
    }
    assert sel.specs[..|sel.specs|] == sel.specs;
  }

  function Declared(specs: seq<SpecVerification>): set<string> {
    set s, m | s in specs && m in s.metricThresholds :: m
  }

  /** declaredCoverageMetrics */
  method DeclaredCoverageMetrics(sel: Selection) returns (metrics: seq<string>)
    ensures metrics == Sorting.Sorted(Declared(sel.specs))
  {
    var names: set<string> := {};
    for i := 0 to |sel.specs|
      invariant names == Declared(sel.specs[..i])
    {
      PrefixStep(sel.specs, i);
      DeclaredSnoc(sel.specs[..i], sel.specs[i]);
      names := names + sel.specs[i].metricThresholds.Keys;
    }
    assert sel.specs[..|sel.specs|] == sel.specs;
    metrics := Sorting.SortStrings(names);
  }

  lemma DeclaredSnoc(specs: seq<SpecVerification>, spec: SpecVerification)
    ensures Declared(specs + [spec]) == Declared(specs) + spec.metricThresholds.Keys
  {
    forall m | m in spec.metricThresholds ensures m in Declared(specs + [spec]) { assert spec in specs + [spec]; }
    forall m | m in Declared(specs) ensures m in Declared(specs + [spec]) {
      var s :| s in specs && m in s.metricThresholds;
      assert s in specs + [spec];
    }
  }

  // ---------------------------------------------------------------- the evaluated paths

  predicate Measured(scope: GateScope, classifier: Classifier, onDisk: string -> bool, path: string) {
    classifier.measurable(NormalizePath("", path)) && (scope.root != "" ==> onDisk(path))
  }

  function PathSet(records: seq<CoverageRecord>, scope: GateScope, classifier: Classifier,
                   onDisk: string -> bool): set<string> {
    if scope.mode == All then PathsOf(records)
    else set f | f in scope.files && Measured(scope, classifier, onDisk, NormalizePath(scope.root, f))
           :: NormalizePath(scope.root, f)
  }

  /** coveragePathsInScope; `onDisk` answers for the file under the project root. */
  method CoveragePathsInScope(records: seq<CoverageRecord>, scope: GateScope, classifier: Classifier,
                              onDisk: string -> bool)
    returns (paths: seq<string>)
    ensures paths == Sorting.Sorted(PathSet(records, scope, classifier, onDisk))
  {
    var found: set<string> := {};
    if scope.mode == All {
      for i := 0 to |records|
        invariant found == PathsOf(records[..i])
      {
        PrefixStep(records, i);
        PathsOfSnoc(records[..i], records[i]);
        found := found + {NormalizePath("", records[i].path)};
      }
      assert records[..|records|] == records;
    } else {
      for i := 0 to |scope.files|
        invariant found == set f | f in scope.files[..i]
                             && Measured(scope, classifier, onDisk, NormalizePath(scope.root, f))
                             :: NormalizePath(scope.root, f)
      {
        PrefixStep(scope.files, i);
        var clean := NormalizePath(scope.root, scope.files[i]);
        if !classifier.measurable(NormalizePath("", clean)) {
          continue;
        }
        if scope.root != "" && !onDisk(clean) {
          continue;
        }
        found := found + {clean};
      }
      assert scope.files[..|scope.files|] == scope.files;
    }
    paths := Sorting.SortStrings(found);
  }

  // ---------------------------------------------------------------- reports

  /** coverageBelowThreshold */
  predicate BelowThreshold(covered: nat, total: nat, threshold: int) {
    covered * 100 < total * threshold
  }

  function MetricLabel(r: CoverageRecord): string {
    if r.metric == "" then "unlabeled" else r.metric
  }

  function ExclusionReason(r: CoverageRecord): string {
    if r.justification != "" then ": " + r.justification
    else if r.metric != "" then " (declared metric: " + r.metric + ")"
    else " (pack-declared exclusion)"
  }

  datatype Context = Context(index: PathIndex, sel: Selection, scope: GateScope)

  predicate InDiff(scope: GateScope, path: string) {
    scope.mode != All && Contains(Some(scope), path)
  }

  function CollisionReport(scope: GateScope): Slot -> Violation {
    (s: Slot) =>
      Report(CoverageCollision, NormalizePath(scope.root, s.path), MetricCollision(s.path, s.metric), "error")
  }

  function UnmeasuredReport(scope: GateScope, path: string): Violation {
    Report(CoverageUnmeasured, NormalizePath(scope.root, path), Unmeasured(path), "error")
  }

  function MissingReports(scope: GateScope, path: string, metrics: MetricMap): string -> seq<Violation> {
    (m: string) => if m in metrics then []
      else [Report(CoverageMetricMissing, NormalizePath(scope.root, path), MetricMissing(path, m), "error")]
  }

  predicate FailsThreshold(sel: Selection, r: CoverageRecord) {
    && !r.excluded && r.total != 0
    && ThresholdFor(sel, r.metric) > 0 && BelowThreshold(r.covered, r.total, ThresholdFor(sel, r.metric))
  }

  function RecordReport(c: Context, path: string, r: CoverageRecord): seq<Violation> {
    if r.excluded then
      if InDiff(c.scope, path)
      then [Report(CoverageExclusion, NormalizePath(c.scope.root, path),
                   Excluded(path, MetricLabel(r), ExclusionReason(r)), "warning")]
      else []
    else if FailsThreshold(c.sel, r)
    then [Report(CoverageBelow, NormalizePath(c.scope.root, path),
                 Below(path, r.covered, r.total, MetricLabel(r), ThresholdFor(c.sel, r.metric)), "error")]
    else []
  }

  function MetricReports(c: Context, path: string, metrics: MetricMap): string -> seq<Violation> {
    (m: string) => if m in metrics then RecordReport(c, path, metrics[m]) else []
  }

  ghost function MeasuredReports(c: Context, path: string, metrics: MetricMap): seq<Violation> {
    (if InDiff(c.scope, path)
     then FlatMap(MissingReports(c.scope, path, metrics), Sorting.Sorted(Declared(c.sel.specs))) else [])
    + FlatMap(MetricReports(c, path, metrics), Sorting.Sorted(metrics.Keys))
  }

  ghost function PathReports(c: Context): string -> seq<Violation> {
    (path: string) =>
      if Resolved(c.index, path).None? then [UnmeasuredReport(c.scope, path)]
      else MeasuredReports(c, path, Resolved(c.index, path).value)
  }

  ghost function AllReports(c: Context, dups: seq<Slot>, paths: seq<string>): seq<Violation> {
    Map(CollisionReport(c.scope), dups) + FlatMap(PathReports(c), paths)
  }

  ghost predicate HasError(vs: seq<Violation>) {
    exists v :: v in vs && v.severity == "error"
  }

  const CAPABILITY_ABSENT := Produced(CoverageThreshold, Warning,
                                      [Report(CapabilityAbsent(DimCoverage), "", NoClassification, "warning")])

  ghost function CoverageStep(records: seq<CoverageRecord>, specs: seq<SpecVerification>, scope: GateScope,
                              classifier: Classifier, onDisk: string -> bool, floor: int): StepResult {
    var paths := PathSet(records, scope, classifier, onDisk);
    if !classifier.hasSourceGlobs && scope.mode != All && scope.files != [] then CAPABILITY_ABSENT
    else if paths == {} then Produced(CoverageThreshold, Pass, [])
    else Evaluated(Context(IndexOf(records), SelectionFor(specs, Some(scope), floor), scope), Repeats(records), paths)
  }

  ghost function Evaluated(c: Context, dups: seq<Slot>, paths: set<string>): StepResult {
    var vs := AllReports(c, dups, Sorting.Sorted(paths));
    Produced(CoverageThreshold, if HasError(vs) then Fail else Pass, vs)
  }

  const WHOLE_TREE := GateScope(All, [], "", {})

  /** The step under an optional scope.  Without one it is the whole-tree step as long as there is
      nothing to report; the first report dereferences the missing scope, and no result comes back. */
  ghost function CoverageRun(records: seq<CoverageRecord>, specs: seq<SpecVerification>, scope: Scope,
                             classifier: Classifier, onDisk: string -> bool, floor: int): Option<StepResult> {
    var r := CoverageStep(records, specs, SiteOf(scope), classifier, onDisk, floor);
    if scope.None? && r.violations != [] then None else Some(r)
  }

  function SiteOf(scope: Scope): GateScope {
    if scope.Some? then scope.value else WHOLE_TREE
  }

  /** StepCoverageThresholdScopedFunc */
  method StepCoverageThreshold(records: seq<CoverageRecord>, specs: seq<SpecVerification>, scope: Scope,
                               classifier: Classifier, onDisk: string -> bool, floor: int)
    returns (r: Option<StepResult>)
    ensures r == CoverageRun(records, specs, scope, classifier, onDisk, floor)
  {
    if !classifier.hasSourceGlobs && scope.Some? && scope.value.mode != All && scope.value.files != [] {
      return Some(CAPABILITY_ABSENT);
    }
    var site := SiteOf(scope);
    var sel := CoverageThresholdsForScope(specs, Some(site), floor);
    var index, dups := IndexCoverageByPathMetric(records);
    var paths := CoveragePathsInScope(records, site, classifier, onDisk);
    Sorting.ListingEmpty(paths, PathSet(records, site, classifier, onDisk));
    if |paths| == 0 {
      return Some(Produced(CoverageThreshold, Pass, []));
    }
    var collisions := ReportCollisions(site, dups);
    var reports := ReportPaths(Context(index, sel, site), paths);
    var violations := collisions + reports;
    if scope.None? && violations != [] {
      return None;
    }
    var failed := AnyError(violations);
    r := Some(Produced(CoverageThreshold, if failed then Fail else Pass, violations));
  }

  // ---------------------------------------------------------------- the step the command line installs

  /** What the record producer yields, and whether it ran in the native sandbox. */
  datatype Production = Production(records: Attempt<seq<CoverageRecord>>, nativeSandbox: bool)

  /** An error entry of the step carries the same rule as a shortfall. */
  function CoverageFailure(prefix: string, cause: string): StepResult {
    Produced(CoverageThreshold, Fail, [Report(CoverageBelow, "", Text(prefix + cause), "error")])
  }

  /** A floor that did not load, specs that did not parse and records that could not be produced each
      fail the step; otherwise it is the threshold step, flagged with how its records were made. */
  ghost function BuiltCoverage(floor: Attempt<int>, specs: Attempt<seq<SpecVerification>>, producer: Option<Production>,
                               scope: Scope, classifier: Classifier, onDisk: string -> bool): Option<StepResult>
  {
    if floor.Lost? then
      Some(CoverageFailure("failed to load the coverage floor from backstop.yml: ", floor.cause).(configErr := true))
    else if specs.Lost? then
      Some(CoverageFailure("failed to extract spec verifications: ", specs.cause))
    else if producer.Some? && producer.value.records.Lost? then
      Some(CoverageFailure("failed to produce coverage records: ", producer.value.records.cause)
             .(configErr := true, nativeSandbox := producer.value.nativeSandbox))
    else
      var records := if producer.Some? then producer.value.records.value else [];
      Flagged(CoverageRun(records, specs.value, scope, classifier, onDisk, floor.value),
              producer.Some? && producer.value.nativeSandbox)
  }

  function Flagged(r: Option<StepResult>, sandboxed: bool): Option<StepResult> {
    if r.Some? then Some(r.value.(nativeSandbox := sandboxed)) else None
  }

  /** buildCoverageStep */
  method BuildCoverageStep(floor: Attempt<int>, specs: Attempt<seq<SpecVerification>>, producer: Option<Production>,
                           scope: Scope, classifier: Classifier, onDisk: string -> bool)
    returns (r: Option<StepResult>)
    ensures r == BuiltCoverage(floor, specs, producer, scope, classifier, onDisk)
  {
    if floor.Lost? {
      r := Some(CoverageFailure("failed to load the coverage floor from backstop.yml: ", floor.cause)
                  .(configErr := true));
      return;
    }
    if specs.Lost? {
      return Some(CoverageFailure("failed to extract spec verifications: ", specs.cause));
    }
    var records: seq<CoverageRecord>, sandboxed := [], false;
    if producer.Some? {
      sandboxed := producer.value.nativeSandbox;
      if producer.value.records.Lost? {
        r := Some(CoverageFailure("failed to produce coverage records: ", producer.value.records.cause)
                    .(configErr := true, nativeSandbox := sandboxed));
        return;
      }
      records := producer.value.records.value;
    }
    r := StepCoverageThreshold(records, specs.value, scope, classifier, onDisk, floor.value);
    r := Flagged(r, sandboxed);
  }

  method AnyError(vs: seq<Violation>) returns (b: bool)
    ensures b <==> HasError(vs)
  {
    b := false;
    for i := 0 to |vs|
      invariant b <==> exists j :: 0 <= j < i && vs[j].severity == "error"
    {
      if vs[i].severity == "error" {
        b := true;
      }
    }
  }

  method ReportCollisions(scope: GateScope, dups: seq<Slot>) returns (vs: seq<Violation>)
    ensures vs == Map(CollisionReport(scope), dups)
  {
    vs := [];
    for i := 0 to |dups|
      invariant vs == Map(CollisionReport(scope), dups[..i])
    {
      PrefixStep(dups, i);
      vs := vs + [Report(CoverageCollision, NormalizePath(scope.root, dups[i].path),
                         MetricCollision(dups[i].path, dups[i].metric), "error")];
    }
    assert dups[..|dups|] == dups;
  }

  method ReportPaths(c: Context, paths: seq<string>) returns (vs: seq<Violation>)
    ensures vs == FlatMap(PathReports(c), paths)
  {
    vs := [];
    for i := 0 to |paths|
      invariant vs == FlatMap(PathReports(c), paths[..i])
    {
      PrefixStep(paths, i);
      FlatMapSnoc(PathReports(c), paths[..i], paths[i]);
      var resolved := ResolveCoverageRecordsForPath(c.index, paths[i]);
      if resolved.None? {
        vs := vs + [UnmeasuredReport(c.scope, paths[i])];
        continue;
      }
      var reports := ReportMeasured(c, paths[i], resolved.value);
      vs := vs + reports;
    }
    assert paths[..|paths|] == paths;
  }

  method ReportMeasured(c: Context, path: string, metrics: MetricMap) returns (vs: seq<Violation>)
    ensures vs == MeasuredReports(c, path, metrics)
  {
    vs := [];
    if InDiff(c.scope, path) {
      var declared := DeclaredCoverageMetrics(c.sel);
      vs := ReportMissing(c.scope, path, metrics, declared);
    }
    var labels := Sorting.SortStrings(metrics.Keys);
    var verdicts := ReportMetrics(c, path, metrics, labels);
    vs := vs + verdicts;
  }

  method ReportMissing(scope: GateScope, path: string, metrics: MetricMap,
                       declared: seq<string>) returns (vs: seq<Violation>)
    ensures vs == FlatMap(MissingReports(scope, path, metrics), declared)
  {
    vs := [];
    for i := 0 to |declared|
      invariant vs == FlatMap(MissingReports(scope, path, metrics), declared[..i])
    {
      PrefixStep(declared, i);
      FlatMapSnoc(MissingReports(scope, path, metrics), declared[..i], declared[i]);
      if declared[i] !in metrics {
        vs := vs + [Report(CoverageMetricMissing, NormalizePath(scope.root, path),
                           MetricMissing(path, declared[i]), "error")];
      }
    }
    assert declared[..|declared|] == declared;
  }

  method ReportMetrics(c: Context, path: string, metrics: MetricMap, labels: seq<string>) returns (vs: seq<Violation>)
    requires forall m :: m in labels ==> m in metrics
    ensures vs == FlatMap(MetricReports(c, path, metrics), labels)
  {
    vs := [];
    for i := 0 to |labels|
      invariant vs == FlatMap(MetricReports(c, path, metrics), labels[..i])
    {
      PrefixStep(labels, i);
      FlatMapSnoc(MetricReports(c, path, metrics), labels[..i], labels[i]);
      assert labels[i] in metrics;
      var report := ReportRecord(c, path, metrics[labels[i]]);
      vs := vs + report;
    }
    assert labels[..|labels|] == labels;
  }

  method ReportRecord(c: Context, path: string, r: CoverageRecord) returns (vs: seq<Violation>)
    ensures vs == RecordReport(c, path, r)
  {
    if r.excluded {
      if InDiff(c.scope, path) {
        return [Report(CoverageExclusion, NormalizePath(c.scope.root, path),
                       Excluded(path, MetricLabel(r), ExclusionReason(r)), "warning")];
      }
      return [];
    }
    if r.total == 0 {
      return [];
    }
    var threshold := CoverageThresholdForMetric(c.sel, r.metric);
    if threshold <= 0 {
      return [];
    }
    if BelowThreshold(r.covered, r.total, threshold) {
      return [Report(CoverageBelow, NormalizePath(c.scope.root, path),
                     Below(path, r.covered, r.total, MetricLabel(r), threshold), "error")];
    }
    return [];
  }
}
