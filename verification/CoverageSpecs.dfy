/** The coverage step read off its inputs: which threshold governs, which records answer for a path, which
    paths are looked at, and what fails. */
module CoverageSpecs {
  import opened Seqs
  import opened Paths
  import opened Findings
  import opened Scopes
  import opened Coverage
  import opened CoverageLaws
  import Sorting

  // ---------------------------------------------------------------- packages and directories

  function Slashes(n: nat): string {
    if n == 0 then "" else "/" + Slashes(n - 1)
  }

  predicate SlashEnded(s: string) {
    s != "" && (s[0] == '/' || s[|s| - 1] == '/')
  }

  lemma {:induction false} TrimFront(n: nat, rest: string)
    ensures TrimSlashes(Slashes(n) + rest) == TrimSlashes(rest)
  {
    var s := Slashes(n) + rest;
    if n == 0 {
      assert s == rest;
    } else {
      assert s[0] == '/' && s[1..] == Slashes(n - 1) + rest;
      TrimFront(n - 1, rest);
    }
  }

  lemma {:induction false} TrimBack(body: string, m: nat)
    requires !SlashEnded(body) && body != ""
    ensures TrimSlashes(body + Slashes(m)) == body
  {
    var s := body + Slashes(m);
    if m == 0 {
      assert s == body;
    } else {
      SlashesEnd(m);
      assert s[0] == body[0] && s[|s| - 1] == '/';
      assert s[..|s| - 1] == body + Slashes(m - 1);
      TrimBack(body, m - 1);
    }
  }

  lemma TrimAround(n: nat, body: string, m: nat)
    requires !SlashEnded(body) && body != ""
    ensures TrimSlashes(Slashes(n) + body + Slashes(m)) == body
  {
    Seqs.AppendAssoc(Slashes(n), body, Slashes(m));
    TrimFront(n, body + Slashes(m));
    TrimBack(body, m);
  }

  lemma {:induction false} SlashesEnd(m: nat)
    ensures |Slashes(m)| == m
    ensures m > 0 ==> Slashes(m)[m - 1] == '/' && Slashes(m)[..m - 1] == Slashes(m - 1)
  {
    if m > 0 {
      SlashesEnd(m - 1);
      if m > 1 {
        assert Slashes(m)[..m - 1] == "/" + Slashes(m - 1)[..m - 2];
      }
    }
  }

  lemma {:induction false} TrimAll(n: nat)
    ensures TrimSlashes(Slashes(n)) == ""
  {
    if n > 0 {
      assert Slashes(n)[1..] == Slashes(n - 1);
      TrimAll(n - 1);
    }
  }

  /** The same directory, or one inside the other; the root is only related to itself. */
  predicate Related(dir: string, other: string) {
    if dir == "" || other == "" then dir == other
    else dir == other || other + "/" <= dir || dir + "/" <= other
  }

  function Plain(body: string): string {
    if "./" <= body then body[2..] else body
  }

  ghost predicate Spelled(package_: string, n: nat, body: string, m: nat) {
    package_ == Slashes(n) + body + Slashes(m) && !SlashEnded(body)
  }

  /** The directory a package text names: slashes around it and one "./" in front do not count. */
  ghost predicate Names(package_: string, dir: string) {
    exists n: nat, body, m: nat :: Spelled(package_, n, body, m) && dir == Plain(body)
  }

  lemma {:induction false} SlashesAdd(n: nat, m: nat)
    ensures Slashes(n) + Slashes(m) == Slashes(n + m)
  {
    if n > 0 { SlashesAdd(n - 1, m); }
  }

  lemma SpelledTrims(package_: string, n: nat, body: string, m: nat)
    requires Spelled(package_, n, body, m)
    ensures TrimSlashes(package_) == body
  {
    if body == "" {
      SlashesAdd(n, m);
      assert package_ == Slashes(n + m);
      TrimAll(n + m);
    } else {
      TrimAround(n, body, m);
    }
  }

  lemma SpelledFront(s: string, n: nat, body: string, m: nat)
    requires s != "" && s[0] == '/' && Spelled(s[1..], n, body, m)
    ensures Spelled(s, n + 1, body, m)
  {
    assert s == "/" + s[1..];
    Seqs.AppendAssoc("/", Slashes(n), body);
    Seqs.AppendAssoc("/", Slashes(n) + body, Slashes(m));
  }

  lemma SpelledBack(s: string, n: nat, body: string, m: nat)
    requires s != "" && s[|s| - 1] == '/' && Spelled(s[..|s| - 1], n, body, m)
    ensures Spelled(s, n, body, m + 1)
  {
    assert s == s[..|s| - 1] + "/";
    SlashesAdd(m, 1);
    assert Slashes(1) == "/" + Slashes(0) == "/";
    Seqs.AppendAssoc(Slashes(n) + body, Slashes(m), "/");
  }

  lemma {:induction false} TrimSpells(package_: string)
    ensures exists n: nat, m: nat :: Spelled(package_, n, TrimSlashes(package_), m)
    decreases |package_|
  {
    var s := package_;
    if s != "" && s[0] == '/' {
      TrimSpells(s[1..]);
      var n: nat, m: nat :| Spelled(s[1..], n, TrimSlashes(s[1..]), m);
      SpelledFront(s, n, TrimSlashes(s), m);
    } else if s != "" && s[|s| - 1] == '/' {
      TrimSpells(s[..|s| - 1]);
      var n: nat, m: nat :| Spelled(s[..|s| - 1], n, TrimSlashes(s[..|s| - 1]), m);
      SpelledBack(s, n, TrimSlashes(s), m);
    } else {
      assert Slashes(0) == "" && s == "" + s + "";
      assert Spelled(s, 0, TrimSlashes(s), 0);
    }
  }

  /** A package matches a directory iff the directory it names is related to it. */
  lemma PackageMeaning(dir: string, package_: string)
    ensures PackagePathMatches(dir, package_) <==> exists d :: Names(package_, d) && Related(dir, d)
  {
    TrimSpells(package_);
    var bare := TrimSlashes(package_);
    var n: nat, m: nat :| Spelled(package_, n, bare, m);
    assert Names(package_, Plain(bare));
    forall d | Names(package_, d) ensures d == Plain(bare) {
      var n', body, m' :| Spelled(package_, n', body, m') && d == Plain(body);
      SpelledTrims(package_, n', body, m');
    }
    assert PackagePathMatches(dir, package_) <==> Related(dir, Plain(bare));
  }

  // ---------------------------------------------------------------- the governing threshold

  /** The directory of a changed file; the root is the empty one. */
  function ChangedDir(file: string): string {
    var dir := Dir(NormalizePath("", file));
    if dir == "." then "" else dir
  }

  /** A spec with a package that names a directory related to that of a changed file. */
  ghost predicate PackageGoverns(files: seq<string>, s: SpecVerification) {
    s.package_ != "" && exists f :: f in files && InPackage(f, s.package_)
  }

  ghost predicate InPackage(file: string, package_: string) {
    exists d :: Names(package_, d) && Related(ChangedDir(file), d)
  }

  ghost predicate SomePackageGoverns(specs: seq<SpecVerification>, files: seq<string>) {
    exists s :: s in specs && PackageGoverns(files, s)
  }

  /** Specs without a package govern any change, but only when no packaged one does. */
  ghost predicate GovernsChange(specs: seq<SpecVerification>, files: seq<string>, s: SpecVerification) {
    if SomePackageGoverns(specs, files) then PackageGoverns(files, s) else s.package_ == "" && files != []
  }

  /** The largest governing threshold when one is positive, else the floor. */
  ghost predicate Governing(specs: seq<SpecVerification>, files: seq<string>, floor: int, t: int) {
    if exists s :: s in specs && GovernsChange(specs, files, s) && s.threshold > 0 then
      && (exists s :: s in specs && GovernsChange(specs, files, s) && s.threshold == t)
      && forall s :: s in specs && GovernsChange(specs, files, s) ==> s.threshold <= t
    else t == floor
  }

  /** The specs whose own file changed, in order. */
  function OwnChanged(specs: seq<SpecVerification>, scope: GateScope): seq<SpecVerification> {
    Filter(OwnFile(scope), specs)
  }

  function OwnFile(scope: GateScope): SpecVerification -> bool {
    (s: SpecVerification) => s.file != "" && NormalizePath(scope.root, s.file) in scope.fileSet
  }

  lemma {:induction false} MaxMeaning(specs: seq<SpecVerification>)
    ensures MaxThreshold(specs) >= 0
    ensures forall s :: s in specs ==> s.threshold <= MaxThreshold(specs)
    ensures MaxThreshold(specs) > 0 ==> exists s :: s in specs && s.threshold == MaxThreshold(specs)
  {
    if specs != [] {
      MaxMeaning(specs[..|specs| - 1]);
      assert specs == specs[..|specs| - 1] + [specs[|specs| - 1]];
    }
  }

  lemma RelevantMeaning(files: seq<string>, s: SpecVerification)
    ensures RelevantTo(files, false)(s) <==> PackageGoverns(files, s)
    ensures RelevantTo(files, true)(s) <==> PackageGoverns(files, s) || (s.package_ == "" && files != [])
  {
    forall f | f in files ensures s.package_ != "" ==>
      (InPackage(f, s.package_) <==> PackagePathMatches(ChangedDir(f), s.package_))
    {
      PackageMeaning(ChangedDir(f), s.package_);
    }
    assert files != [] ==> files[0] in files;
  }

  lemma GoverningSpecs(specs: seq<SpecVerification>, files: seq<string>)
    ensures var packaged := Filter(RelevantTo(files, false), specs);
      var governing := if packaged != [] then packaged else Filter(RelevantTo(files, true), specs);
      && (packaged != [] <==> SomePackageGoverns(specs, files))
      && forall s :: s in governing <==> s in specs && GovernsChange(specs, files, s)
  {
    forall s | s in specs
      ensures RelevantTo(files, false)(s) <==> PackageGoverns(files, s)
      ensures RelevantTo(files, true)(s) <==> PackageGoverns(files, s) || (s.package_ == "" && files != [])
    {
      RelevantMeaning(files, s);
    }
    FilterMembers(RelevantTo(files, false), specs);
    FilterMembers(RelevantTo(files, true), specs);
    var packaged := Filter(RelevantTo(files, false), specs);
    if packaged != [] { assert packaged[0] in packaged; }
  }

  lemma OwnMeaning(specs: seq<SpecVerification>, scope: GateScope)
    requires scope.mode != All
    ensures Filter(OwnFileIn(Some(scope)), specs) == OwnChanged(specs, scope)
  {
    FilterSame(OwnFileIn(Some(scope)), OwnFile(scope), specs);
  }

  lemma CollapsedMeaning(specs: seq<SpecVerification>, files: seq<string>, floor: int)
    ensures var packaged := Filter(RelevantTo(files, false), specs);
      var max := MaxThreshold(if packaged != [] then packaged else Filter(RelevantTo(files, true), specs));
      Governing(specs, files, floor, if max == 0 then floor else max)
  {
    var packaged := Filter(RelevantTo(files, false), specs);
    GoverningSpecs(specs, files);
    MaxMeaning(if packaged != [] then packaged else Filter(RelevantTo(files, true), specs));
  }

  /** In a diff or file scope: the specs whose own file changed, each for itself; when there is none, one
      threshold for everything, drawn from the packages the change touches. */
  lemma SelectionMeaning(specs: seq<SpecVerification>, scope: GateScope, floor: int)
    requires scope.mode != All
    ensures var sel := SelectionFor(specs, Some(scope), floor);
      if OwnChanged(specs, scope) != [] then sel == Selection(OwnChanged(specs, scope), false, 0)
      else sel.specs == [] && sel.collapsed && Governing(specs, scope.files, floor, sel.threshold)
  {
    OwnMeaning(specs, scope);
    CollapsedMeaning(specs, scope.files, floor);
  }

  // ---------------------------------------------------------------- what falls short

  /** What a spec asks of a metric: its own threshold for it, else its general one. */
  function Asks(s: SpecVerification, metric: string): int {
    if metric in s.metricThresholds then s.metricThresholds[metric] else s.threshold
  }

  /** A record that is measured, not excluded, and below a positive percentage. */
  ghost predicate Below(r: CoverageRecord, percent: int) {
    !r.excluded && r.total > 0 && percent > 0 && r.covered * 100 < r.total * percent
  }

  /** Some spec's own ask is missed. */
  ghost predicate MissesSome(specs: seq<SpecVerification>, r: CoverageRecord) {
    exists s :: s in specs && Below(r, Asks(s, r.metric))
  }

  lemma StrictestMisses(specs: seq<SpecVerification>, r: CoverageRecord)
    ensures FailsThreshold(Selection(specs, false, 0), r) <==> MissesSome(specs, r)
  {
    StrictestMeaning(specs, r.metric);
    forall s | s in specs && Below(r, Asks(s, r.metric)) ensures FailsThreshold(Selection(specs, false, 0), r) {
      LargerAsk(r.total, Asks(s, r.metric), Strictest(specs, r.metric));
    }
  }

  lemma LargerAsk(total: nat, a: int, b: int)
    requires a <= b
    ensures total * a <= total * b
  {
  }

  // ---------------------------------------------------------------- which records answer

  /** The recorded path ends in this one, below a directory of its own. */
  ghost predicate EndsIn(key: string, path: string) {
    exists above :: key == above + "/" + path
  }

  lemma EndsMeaning(key: string, path: string)
    ensures HasSuffix(key, "/" + path) <==> EndsIn(key, path)
  {
    if HasSuffix(key, "/" + path) {
      var above := key[..|key| - |path| - 1];
      assert key == above + ("/" + path) == above + "/" + path;
    }
    if above :| key == above + "/" + path {
      assert key == above + ("/" + path);
      assert key[|key| - |"/" + path|..] == "/" + path;
    }
  }

  /** A path nobody recorded is answered for by the one recorded path that ends in it; a bare file name,
      or two such paths, by none. */
  lemma AnswersMeaning(keys: set<string>, path: string, key: string)
    requires path !in keys
    ensures Answers(keys, path, key) <==>
      (&& '/' in path && key in keys && EndsIn(key, path)
       && forall k :: k in keys && EndsIn(k, path) ==> k == key)
  {
    forall k ensures k in Qualified(keys, path) <==> k in keys && EndsIn(k, path) { EndsMeaning(k, path); }
    if key in keys && EndsIn(key, path) && forall k :: k in keys && EndsIn(k, path) ==> k == key {
      assert Qualified(keys, path) == {key};
    }
    if Qualified(keys, path) == {key} {
      assert key in Qualified(keys, path);
      forall k | k in keys && EndsIn(k, path) ensures k == key { assert k in Qualified(keys, path); }
    }
  }

  lemma RecordedAnswers(keys: set<string>, path: string, key: string)
    requires path in keys
    ensures Answers(keys, path, key) <==> key == path
  {
  }

  // ---------------------------------------------------------------- which paths are looked at

  /** The whole tree is every recorded path; a change is its named files, in normal form, that are
      measurable source and, under a known root, still on disk. */
  lemma EvaluatedMeaning(records: seq<CoverageRecord>, scope: GateScope, classifier: Classifier,
                         onDisk: string -> bool, path: string)
    ensures path in PathSet(records, scope, classifier, onDisk) <==>
      if scope.mode == All then exists r :: r in records && NormalizePath("", r.path) == path
      else exists f :: f in scope.files && NormalizePath(scope.root, f) == path
                       && classifier.measurable(NormalizePath("", path)) && (scope.root == "" || onDisk(path))
  {
  }

  // ---------------------------------------------------------------- the verdict

  /** A record filed at that path misses what is asked of it. */
  ghost predicate Misses(records: seq<CoverageRecord>, specs: seq<SpecVerification>, scope: GateScope, t: int,
                         key: string) {
    exists r :: r in records && NormalizePath("", r.path) == key
             && if OwnChanged(specs, scope) != [] then MissesSome(OwnChanged(specs, scope), r) else Below(r, t)
  }

  /** A metric some changed spec sets a threshold for has no record at that path. */
  ghost predicate Unrecorded(records: seq<CoverageRecord>, specs: seq<SpecVerification>, scope: GateScope,
                             key: string) {
    exists s, m :: s in OwnChanged(specs, scope) && m in s.metricThresholds && NoRecord(records, key, m)
  }

  ghost predicate NoRecord(records: seq<CoverageRecord>, key: string, metric: string) {
    forall r :: r in records && NormalizePath("", r.path) == key ==> r.metric != metric
  }

  ghost predicate ChangeFails(records: seq<CoverageRecord>, specs: seq<SpecVerification>, scope: GateScope, t: int,
                              path: string) {
    || !Resolvable(PathsOf(records), path)
    || exists key :: Answers(PathsOf(records), path, key)
                  && (Unrecorded(records, specs, scope, key) || Misses(records, specs, scope, t, key))
  }

  lemma ChangeMeaning(records: seq<CoverageRecord>, specs: seq<SpecVerification>, scope: GateScope, floor: int,
                      t: int, path: string)
    requires scope.mode != All && (OwnChanged(specs, scope) == [] ==> Governing(specs, scope.files, floor, t))
    ensures ChangedFileFails(records, SelectionFor(specs, Some(scope), floor), path)
       <==> ChangeFails(records, specs, scope, t, path)
  {
    var sel := SelectionFor(specs, Some(scope), floor);
    SelectionMeaning(specs, scope, floor);
    forall key
      ensures LacksMetric(records, sel, key) <==> Unrecorded(records, specs, scope, key)
      ensures FallsShort(records, sel, key) <==> Misses(records, specs, scope, t, key)
    {
      LacksMeaning(records, sel, OwnChanged(specs, scope), key);
      ShortMeaning(records, specs, scope, floor, t, key);
    }
  }

  lemma GoverningUnique(specs: seq<SpecVerification>, files: seq<string>, floor: int, a: int, b: int)
    requires Governing(specs, files, floor, a) && Governing(specs, files, floor, b)
    ensures a == b
  {
  }

  lemma LacksMeaning(records: seq<CoverageRecord>, sel: Selection, specs: seq<SpecVerification>, key: string)
    requires sel.specs == specs
    ensures LacksMetric(records, sel, key) <==>
      exists s, m :: s in specs && m in s.metricThresholds && NoRecord(records, key, m)
  {
    forall m ensures HasSlot(records, Slot(key, m)) <==> !NoRecord(records, key, m) { SlotMeaning(records, key, m); }
  }

  lemma SlotMeaning(records: seq<CoverageRecord>, key: string, metric: string)
    ensures HasSlot(records, Slot(key, metric)) <==> !NoRecord(records, key, metric)
  {
    forall r ensures SlotOf(r) == Slot(key, metric) <==> NormalizePath("", r.path) == key && r.metric == metric {}
  }

  lemma ShortMeaning(records: seq<CoverageRecord>, specs: seq<SpecVerification>, scope: GateScope, floor: int,
                     t: int, key: string)
    requires scope.mode != All && (OwnChanged(specs, scope) == [] ==> Governing(specs, scope.files, floor, t))
    ensures FallsShort(records, SelectionFor(specs, Some(scope), floor), key) <==> Misses(records, specs, scope, t, key)
  {
    var sel, own := SelectionFor(specs, Some(scope), floor), OwnChanged(specs, scope);
    SelectionMeaning(specs, scope, floor);
    if own == [] { GoverningUnique(specs, scope.files, floor, t, sel.threshold); }
    forall r ensures FailsThreshold(sel, r) <==> if own != [] then MissesSome(own, r) else Below(r, t) {
      if own != [] { StrictestMisses(own, r); }
    }
  }

  /** In a diff or file run with source globs declared and something to look at: fails iff a (path, metric)
      was measured twice, or a changed file has no record that answers for it, or lacks a metric a changed
      spec names, or misses the threshold that governs it: that of a changed spec, else the largest of the
      packages the change touches, else the floor. */
  lemma DiffVerdictOnSpecs(records: seq<CoverageRecord>, specs: seq<SpecVerification>, scope: GateScope,
                           classifier: Classifier, onDisk: string -> bool, floor: int, t: int)
    requires Scopes.Valid(scope) && scope.mode != All && classifier.hasSourceGlobs
    requires PathSet(records, scope, classifier, onDisk) != {}
    requires OwnChanged(specs, scope) == [] ==> Governing(specs, scope.files, floor, t)
    ensures CoverageStep(records, specs, scope, classifier, onDisk, floor).status == Fail <==>
      (|| Duplicated(records)
       || exists p :: p in PathSet(records, scope, classifier, onDisk) && ChangeFails(records, specs, scope, t, p))
  {
    ExactDiffVerdict(records, specs, scope, classifier, onDisk, floor);
    forall p
      ensures ChangedFileFails(records, SelectionFor(specs, Some(scope), floor), p)
         <==> ChangeFails(records, specs, scope, t, p)
    {
      ChangeMeaning(records, specs, scope, floor, t, p);
    }
  }

  /** Some threshold always governs. */
  lemma GoverningExists(specs: seq<SpecVerification>, scope: GateScope, floor: int)
    requires scope.mode != All && OwnChanged(specs, scope) == []
    ensures Governing(specs, scope.files, floor, SelectionFor(specs, Some(scope), floor).threshold)
  {
    SelectionMeaning(specs, scope, floor);
  }

  predicate Evaluable(scope: GateScope, classifier: Classifier) {
    classifier.hasSourceGlobs || scope.mode == All || scope.files == []
  }

  /** Nothing to look at passes; a change that cannot be classified warns, and says so. */
  lemma QuietVerdicts(records: seq<CoverageRecord>, specs: seq<SpecVerification>, scope: GateScope,
                      classifier: Classifier, onDisk: string -> bool, floor: int)
    ensures var r := CoverageStep(records, specs, scope, classifier, onDisk, floor);
      && (scope.mode != All && scope.files != [] && !classifier.hasSourceGlobs ==>
            r.status == Warning
            && r.violations == [Report(CapabilityAbsent(DimCoverage), "", NoClassification, "warning")])
      && (Evaluable(scope, classifier) && PathSet(records, scope, classifier, onDisk) == {} ==>
            r.status == Pass && r.violations == [])
  {
  }

  /** A declared exclusion never fails: on a changed file it is a warning, elsewhere it is silent. */
  lemma ExclusionsWarn(c: Context, path: string, r: CoverageRecord)
    requires r.excluded
    ensures if c.scope.mode != All && NormalizePath(c.scope.root, path) in c.scope.fileSet
      then |RecordReport(c, path, r)| == 1 && RecordReport(c, path, r)[0].severity == "warning"
           && RecordReport(c, path, r)[0].rule == CoverageExclusion
      else RecordReport(c, path, r) == []
  {
  }

  lemma MissingLocated(scope: GateScope, path: string, metrics: MetricMap, declared: seq<string>, v: Violation)
    requires v in FlatMap(MissingReports(scope, path, metrics), declared)
    ensures v.file == NormalizePath(scope.root, path)
  {
    FlatMapMember(MissingReports(scope, path, metrics), declared, v);
  }

  lemma RecordLocated(c: Context, path: string, r: CoverageRecord, v: Violation)
    requires v in RecordReport(c, path, r)
    ensures v.file == NormalizePath(c.scope.root, path)
  {
  }

  lemma MetricLocated(c: Context, path: string, metrics: MetricMap, labels: seq<string>, v: Violation)
    requires v in FlatMap(MetricReports(c, path, metrics), labels)
    ensures v.file == NormalizePath(c.scope.root, path)
  {
    FlatMapMember(MetricReports(c, path, metrics), labels, v);
    var m :| m in labels && v in MetricReports(c, path, metrics)(m);
    RecordLocated(c, path, metrics[m], v);
  }

  /** Everything said of a path is located at that path, relative to the root. */
  lemma ReportsLocated(c: Context, path: string, v: Violation)
    requires v in PathReports(c)(path)
    ensures v.file == NormalizePath(c.scope.root, path)
  {
    if Resolved(c.index, path).Some? {
      var metrics := Resolved(c.index, path).value;
      var labels := Sorting.Sorted(metrics.Keys);
      if v in FlatMap(MetricReports(c, path, metrics), labels) {
        MetricLocated(c, path, metrics, labels, v);
      } else {
        MissingLocated(c.scope, path, metrics, Sorting.Sorted(Declared(c.sel.specs)), v);
      }
    }
  }

  lemma LastRepeats(records: seq<CoverageRecord>, r: CoverageRecord)
    requires records != [] && r in records[..|records| - 1] && SlotOf(r) == SlotOf(records[|records| - 1])
    ensures SlotOf(r) in Repeats(records)
  {
    RepeatsGrow(records);
    IndexSlots(records[..|records| - 1], SlotOf(r));
  }

  lemma {:induction false} SlotRepeats(records: seq<CoverageRecord>, i: nat, j: nat)
    requires i < j < |records| && SlotOf(records[i]) == SlotOf(records[j])
    ensures SlotOf(records[j]) in Repeats(records)
  {
    var init := records[..|records| - 1];
    assert init[i] == records[i] && init[i] in init;
    if j < |init| {
      assert init[j] == records[j];
      SlotRepeats(init, i, j);
      RepeatsGrow(records);
    } else {
      LastRepeats(records, records[i]);
    }
  }

  /** A (path, metric) measured twice is named as a collision. */
  lemma CollisionNamed(records: seq<CoverageRecord>, i: nat, j: nat)
    requires i < j < |records|
    requires NormalizePath("", records[i].path) == NormalizePath("", records[j].path)
    requires records[i].metric == records[j].metric
    ensures Slot(NormalizePath("", records[j].path), records[j].metric) in Repeats(records)
  {
    SlotRepeats(records, i, j);
  }

  lemma RepeatsGrow(records: seq<CoverageRecord>)
    requires records != []
    ensures var init, slot := records[..|records| - 1], SlotOf(records[|records| - 1]);
      && (forall s :: s in Repeats(init) ==> s in Repeats(records))
      && (slot.metric in MetricsAt(IndexOf(init), slot.path) ==> slot in Repeats(records))
  {
  }

  /** Inputs of the installed step that could not be had: floor and records make a config error, specs a
      plain failure; the sandbox flag is that of the record producer. */
  lemma LostInputs(floor: Attempt<int>, specs: Attempt<seq<SpecVerification>>, producer: Option<Production>,
                   scope: Scope, classifier: Classifier, onDisk: string -> bool)
    ensures var r := BuiltCoverage(floor, specs, producer, scope, classifier, onDisk);
      && (floor.Lost? ==> r.Some? && r.value.status == Fail && r.value.configErr)
      && (floor.Got? && specs.Lost? ==> r.Some? && r.value.status == Fail && !r.value.configErr)
      && (floor.Got? && specs.Got? && producer.Some? ==>
            && (producer.value.records.Lost? ==> r.Some? && r.value.status == Fail && r.value.configErr)
            && (r.Some? ==> r.value.nativeSandbox == producer.value.nativeSandbox)
            && (producer.value.records.Got? && r.Some? ==> !r.value.configErr))
  {
  }
}
