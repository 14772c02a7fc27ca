/** The exact coverage verdict and its indifference to the order of the records. */
module CoverageLaws {
  import opened Seqs
  import opened Paths
  import opened Findings
  import opened Scopes
  import opened Coverage
  import Sorting

  // ---------------------------------------------------------------- what the index holds

  lemma EnteredPaths(index: PathIndex, r: CoverageRecord)
    ensures Entered(index, r).Keys == index.Keys + {PathOf(r)}
  {
  }

  lemma {:induction false} IndexPaths(records: seq<CoverageRecord>)
    ensures IndexOf(records).Keys == PathsOf(records)
  {
    if records != [] {
      var init, last := records[..|records| - 1], records[|records| - 1];
      IndexPaths(init);
      EnteredPaths(IndexOf(init), last);
      PathsOfSnoc(init, last);
      assert records == init + [last];
    }
  }

  ghost predicate HasSlot(records: seq<CoverageRecord>, slot: Slot) {
    exists r :: r in records && SlotOf(r) == slot
  }

  lemma HasSlotSnoc(records: seq<CoverageRecord>, last: CoverageRecord, slot: Slot)
    ensures HasSlot(records + [last], slot) <==> HasSlot(records, slot) || SlotOf(last) == slot
  {
    assert last in records + [last];
  }

  /** Entering a record fills its own slot when that is free, and touches no other. */
  lemma EnteredSlot(index: PathIndex, r: CoverageRecord, slot: Slot)
    ensures var was, now := MetricsAt(index, slot.path), MetricsAt(Entered(index, r), slot.path);
      && (slot.metric in now <==> slot.metric in was || SlotOf(r) == slot)
      && (slot.metric in now ==> now[slot.metric] == if slot.metric in was then was[slot.metric] else r)
  {
  }

  lemma {:induction false} IndexSlots(records: seq<CoverageRecord>, slot: Slot)
    ensures var metrics := MetricsAt(IndexOf(records), slot.path);
      && (slot.metric in metrics <==> HasSlot(records, slot))
      && (slot.metric in metrics ==> metrics[slot.metric] in records && SlotOf(metrics[slot.metric]) == slot)
  {
    if records != [] {
      var init, last := records[..|records| - 1], records[|records| - 1];
      assert records == init + [last];
      IndexSlots(init, slot);
      HasSlotSnoc(init, last, slot);
      EnteredSlot(IndexOf(init), last, slot);
    }
  }

  /** Some (path, metric) was measured twice. */
  ghost predicate Duplicated(records: seq<CoverageRecord>) {
    exists i, j :: 0 <= i < j < |records| && SlotOf(records[i]) == SlotOf(records[j])
  }

  lemma RepeatsLast(records: seq<CoverageRecord>)
    requires records != []
    ensures var init, slot := records[..|records| - 1], SlotOf(records[|records| - 1]);
      Repeats(records) != [] <==> Repeats(init) != [] || slot.metric in MetricsAt(IndexOf(init), slot.path)
  {
  }

  lemma {:induction false} RepeatsMeaning(records: seq<CoverageRecord>)
    ensures Repeats(records) != [] <==> Duplicated(records)
  {
    if records != [] {
      var init, last := records[..|records| - 1], records[|records| - 1];
      assert records == init + [last];
      RepeatsMeaning(init);
      DuplicatedSnoc(init, last);
      RepeatsLast(records);
      IndexSlots(init, SlotOf(last));
    }
  }

  lemma DuplicatedSnoc(init: seq<CoverageRecord>, last: CoverageRecord)
    ensures Duplicated(init + [last]) <==> Duplicated(init) || HasSlot(init, SlotOf(last))
  {
    var records := init + [last];
    if Duplicated(init) {
      var i, j :| 0 <= i < j < |init| && SlotOf(init[i]) == SlotOf(init[j]);
      assert SlotOf(records[i]) == SlotOf(records[j]);
    }
    if HasSlot(init, SlotOf(last)) {
      var r :| r in init && SlotOf(r) == SlotOf(last);
      var i :| 0 <= i < |init| && init[i] == r;
      assert SlotOf(records[i]) == SlotOf(records[|init|]);
    }
    if Duplicated(records) {
      var i, j :| 0 <= i < j < |records| && SlotOf(records[i]) == SlotOf(records[j]);
      if j < |init| {
        assert SlotOf(init[i]) == SlotOf(init[j]);
      } else {
        assert init[i] in init;
      }
    }
  }

  lemma SameSlotSameRecord(records: seq<CoverageRecord>, a: CoverageRecord, b: CoverageRecord)
    requires !Duplicated(records) && a in records && b in records && SlotOf(a) == SlotOf(b)
    ensures a == b
  {
    var i :| 0 <= i < |records| && records[i] == a;
    var j :| 0 <= j < |records| && records[j] == b;
    if i < j {
      assert SlotOf(records[i]) == SlotOf(records[j]);
    } else if j < i {
      assert SlotOf(records[j]) == SlotOf(records[i]);
    }
  }

  // ---------------------------------------------------------------- the exact verdict

  /** The ratio the integer test stands for. */
  lemma BelowIsRatio(covered: nat, total: nat, threshold: int)
    requires total > 0
    ensures BelowThreshold(covered, total, threshold) <==>
      covered as real / total as real < threshold as real / 100.0
  {
    var q, t := covered as real / total as real, total as real;
    assert q * t == covered as real;
    if q < threshold as real / 100.0 {
      assert q * t < threshold as real / 100.0 * t;
    } else {
      assert q * t >= threshold as real / 100.0 * t;
    }
    assert threshold as real / 100.0 * t * 100.0 == (total * threshold) as real;
  }

  ghost predicate LacksMetric(records: seq<CoverageRecord>, sel: Selection, key: string) {
    exists m :: m in Declared(sel.specs) && !HasSlot(records, Slot(key, m))
  }

  ghost predicate FallsShort(records: seq<CoverageRecord>, sel: Selection, key: string) {
    exists r :: r in records && PathOf(r) == key && FailsThreshold(sel, r)
  }

  /** A path fails when no record answers for it, when it is a changed file without a declared
      metric, or when a record that answers for it is below its governing threshold. */
  ghost predicate PathFails(records: seq<CoverageRecord>, sel: Selection, scope: GateScope, path: string) {
    var keys := PathsOf(records);
    || !Resolvable(keys, path)
    || exists key :: Answers(keys, path, key) && KeyFails(records, sel, scope, path, key)
  }

  ghost predicate KeyFails(records: seq<CoverageRecord>, sel: Selection, scope: GateScope, path: string, key: string) {
    (InDiff(scope, path) && LacksMetric(records, sel, key)) || FallsShort(records, sel, key)
  }

  lemma MissingErrors(scope: GateScope, path: string, metrics: MetricMap, declared: set<string>)
    ensures HasError(FlatMap(MissingReports(scope, path, metrics), Sorting.Sorted(declared)))
       <==> exists m :: m in declared && m !in metrics
  {
    var f, labels := MissingReports(scope, path, metrics), Sorting.Sorted(declared);
    if HasError(FlatMap(f, labels)) {
      var v: Violation :| v in FlatMap(f, labels) && v.severity == "error";
      FlatMapMember(f, labels, v);
    }
    if m :| m in declared && m !in metrics {
      var v := f(m)[0];
      assert m in labels && v in f(m);
      FlatMapMember(f, labels, v);
    }
  }

  lemma RecordErrors(c: Context, path: string, r: CoverageRecord)
    ensures HasError(RecordReport(c, path, r)) <==> FailsThreshold(c.sel, r)
  {
    var vs := RecordReport(c, path, r);
    assert vs != [] ==> vs[0] in vs;
    assert "error" != "warning";
  }

  lemma MetricErrors(c: Context, path: string, metrics: MetricMap)
    ensures HasError(FlatMap(MetricReports(c, path, metrics), Sorting.Sorted(metrics.Keys)))
       <==> exists m :: m in metrics && FailsThreshold(c.sel, metrics[m])
  {
    var f, labels := MetricReports(c, path, metrics), Sorting.Sorted(metrics.Keys);
    if HasError(FlatMap(f, labels)) {
      var v: Violation :| v in FlatMap(f, labels) && v.severity == "error";
      FlatMapMember(f, labels, v);
      var m :| m in labels && v in f(m);
      RecordErrors(c, path, metrics[m]);
    }
    if m :| m in metrics && FailsThreshold(c.sel, metrics[m]) {
      RecordErrors(c, path, metrics[m]);
      var v :| v in RecordReport(c, path, metrics[m]) && v.severity == "error";
      assert m in labels && v in f(m);
      FlatMapMember(f, labels, v);
    }
  }

  lemma ErrorConcat(a: seq<Violation>, b: seq<Violation>)
    ensures HasError(a + b) <==> HasError(a) || HasError(b)
  {
    forall v ensures v in a + b <==> v in a || v in b {}
  }

  lemma MeasuredErrors(c: Context, path: string, metrics: MetricMap)
    ensures HasError(MeasuredReports(c, path, metrics)) <==>
      || (InDiff(c.scope, path) && exists m :: m in Declared(c.sel.specs) && m !in metrics)
      || exists m :: m in metrics && FailsThreshold(c.sel, metrics[m])
  {
    MissingErrors(c.scope, path, metrics, Declared(c.sel.specs));
    MetricErrors(c, path, metrics);
    var missing := if InDiff(c.scope, path)
      then FlatMap(MissingReports(c.scope, path, metrics), Sorting.Sorted(Declared(c.sel.specs))) else [];
    ErrorConcat(missing, FlatMap(MetricReports(c, path, metrics), Sorting.Sorted(metrics.Keys)));
  }

  ghost function ContextFor(records: seq<CoverageRecord>, sel: Selection, scope: GateScope): Context {
    Context(IndexOf(records), sel, scope)
  }

  lemma KeyErrors(records: seq<CoverageRecord>, sel: Selection, key: string)
    requires key in IndexOf(records)
    ensures var metrics := IndexOf(records)[key];
      && ((exists m :: m in Declared(sel.specs) && m !in metrics) <==> LacksMetric(records, sel, key))
      && ((exists m :: m in metrics && FailsThreshold(sel, metrics[m])) ==> FallsShort(records, sel, key))
      && (FallsShort(records, sel, key) && !Duplicated(records) ==>
            exists m :: m in metrics && FailsThreshold(sel, metrics[m]))
  {
    var metrics := IndexOf(records)[key];
    forall m ensures m in metrics <==> HasSlot(records, Slot(key, m)) { IndexSlots(records, Slot(key, m)); }
    if m :| m in metrics && FailsThreshold(sel, metrics[m]) {
      IndexSlots(records, Slot(key, m));
    }
    if FallsShort(records, sel, key) && !Duplicated(records) {
      var r :| r in records && PathOf(r) == key && FailsThreshold(sel, r);
      IndexSlots(records, SlotOf(r));
      assert HasSlot(records, SlotOf(r));
      SameSlotSameRecord(records, r, metrics[r.metric]);
    }
  }

  lemma ResolvedErrors(records: seq<CoverageRecord>, sel: Selection, scope: GateScope, path: string, key: string)
    requires Answers(PathsOf(records), path, key)
    ensures var c := ContextFor(records, sel, scope);
      && (HasError(PathReports(c)(path)) ==> KeyFails(records, sel, scope, path, key))
      && (KeyFails(records, sel, scope, path, key) && !Duplicated(records) ==> HasError(PathReports(c)(path)))
  {
    var c := ContextFor(records, sel, scope);
    IndexPaths(records);
    ResolvedBy(c.index, path, key);
    KeyErrors(records, sel, key);
    MeasuredErrors(c, path, c.index[key]);
  }

  lemma UnresolvedErrors(records: seq<CoverageRecord>, sel: Selection, scope: GateScope, path: string)
    requires !Resolvable(PathsOf(records), path)
    ensures HasError(PathReports(ContextFor(records, sel, scope))(path))
  {
    IndexPaths(records);
    assert UnmeasuredReport(scope, path) in PathReports(ContextFor(records, sel, scope))(path);
  }

  lemma PathErrors(records: seq<CoverageRecord>, sel: Selection, scope: GateScope, path: string)
    ensures var c := ContextFor(records, sel, scope);
      && (HasError(PathReports(c)(path)) ==> PathFails(records, sel, scope, path))
      && (PathFails(records, sel, scope, path) && !Duplicated(records) ==> HasError(PathReports(c)(path)))
  {
    if Resolvable(PathsOf(records), path) {
      var key :| Answers(PathsOf(records), path, key);
      ResolvedErrors(records, sel, scope, path, key);
      forall k | Answers(PathsOf(records), path, k) ensures k == key { AnswersUnique(PathsOf(records), path, k, key); }
    } else {
      UnresolvedErrors(records, sel, scope, path);
    }
  }

  lemma CollisionErrors(scope: GateScope, dups: seq<Slot>)
    ensures HasError(Map(CollisionReport(scope), dups)) <==> dups != []
  {
    var vs := Map(CollisionReport(scope), dups);
    if dups != [] { assert vs[0] in vs; }
  }

  lemma PathsErrors(c: Context, paths: set<string>)
    ensures HasError(FlatMap(PathReports(c), Sorting.Sorted(paths)))
       <==> exists p :: p in paths && HasError(PathReports(c)(p))
  {
    var f, listed := PathReports(c), Sorting.Sorted(paths);
    if HasError(FlatMap(f, listed)) {
      var v: Violation :| v in FlatMap(f, listed) && v.severity == "error";
      FlatMapMember(f, listed, v);
      var p :| p in listed && v in f(p);
      assert p in paths && HasError(f(p));
    }
    if p :| p in paths && HasError(f(p)) {
      var v :| v in f(p) && v.severity == "error";
      assert p in listed;
      FlatMapMember(f, listed, v);
    }
  }

  ghost predicate Evaluates(records: seq<CoverageRecord>, scope: GateScope, classifier: Classifier,
                            onDisk: string -> bool) {
    && (classifier.hasSourceGlobs || scope.mode == All || scope.files == [])
    && PathSet(records, scope, classifier, onDisk) != {}
  }

  /** The step fails iff some slot was measured twice or some evaluated path fails. */
  lemma ExactCoverageVerdict(records: seq<CoverageRecord>, specs: seq<SpecVerification>, scope: GateScope,
                             classifier: Classifier, onDisk: string -> bool, floor: int)
    requires Evaluates(records, scope, classifier, onDisk)
    ensures var sel := SelectionFor(specs, Some(scope), floor);
      CoverageStep(records, specs, scope, classifier, onDisk, floor).status == Fail <==>
        (|| Duplicated(records)
         || exists p :: p in PathSet(records, scope, classifier, onDisk) && PathFails(records, sel, scope, p))
  {
    var sel, paths := SelectionFor(specs, Some(scope), floor), PathSet(records, scope, classifier, onDisk);
    var c := ContextFor(records, sel, scope);
    RepeatsMeaning(records);
    CollisionErrors(scope, Repeats(records));
    PathsErrors(c, paths);
    ErrorConcat(Map(CollisionReport(scope), Repeats(records)), FlatMap(PathReports(c), Sorting.Sorted(paths)));
    forall p | p in paths
      ensures HasError(PathReports(c)(p)) ==> PathFails(records, sel, scope, p)
      ensures PathFails(records, sel, scope, p) && !Duplicated(records) ==> HasError(PathReports(c)(p))
    {
      PathErrors(records, sel, scope, p);
    }
  }

  /** In a diff or file scope every evaluated path is a changed file, so a declared metric is
      owed by each of them. */
  lemma EvaluatedPathsAreChanged(records: seq<CoverageRecord>, scope: GateScope, classifier: Classifier,
                                 onDisk: string -> bool, path: string)
    requires Valid(scope) && scope.mode != All && path in PathSet(records, scope, classifier, onDisk)
    ensures InDiff(scope, path) && path in scope.fileSet
  {
    var f :| f in scope.files && path == NormalizePath(scope.root, f);
    FilesContained(scope, f);
    NormalizeIdempotent(scope.root, f);
  }

  /** What a changed file can fail on. */
  ghost predicate ChangedFileFails(records: seq<CoverageRecord>, sel: Selection, path: string) {
    var keys := PathsOf(records);
    || !Resolvable(keys, path)
    || exists key :: Answers(keys, path, key) && (LacksMetric(records, sel, key) || FallsShort(records, sel, key))
  }

  /** The exact verdict of a diff or file run with source globs declared. */
  lemma ExactDiffVerdict(records: seq<CoverageRecord>, specs: seq<SpecVerification>, scope: GateScope,
                         classifier: Classifier, onDisk: string -> bool, floor: int)
    requires Valid(scope) && scope.mode != All && classifier.hasSourceGlobs
    requires PathSet(records, scope, classifier, onDisk) != {}
    ensures var sel := SelectionFor(specs, Some(scope), floor);
      CoverageStep(records, specs, scope, classifier, onDisk, floor).status == Fail <==>
        (|| Duplicated(records)
         || exists p :: p in PathSet(records, scope, classifier, onDisk) && ChangedFileFails(records, sel, p))
  {
    var sel := SelectionFor(specs, Some(scope), floor);
    ExactCoverageVerdict(records, specs, scope, classifier, onDisk, floor);
    forall p | p in PathSet(records, scope, classifier, onDisk)
      ensures PathFails(records, sel, scope, p) <==> ChangedFileFails(records, sel, p)
    {
      EvaluatedPathsAreChanged(records, scope, classifier, onDisk, p);
    }
  }

  // ---------------------------------------------------------------- record order

  function InSlot(slot: Slot): CoverageRecord -> bool {
    (r: CoverageRecord) => SlotOf(r) == slot
  }

  lemma {:induction false} FilterCount<T>(p: T -> bool, s: seq<T>)
    ensures |Filter(p, s)| >= 1 <==> exists i :: 0 <= i < |s| && p(s[i])
    ensures |Filter(p, s)| >= 2 <==> exists i, j :: 0 <= i < j < |s| && p(s[i]) && p(s[j])
  {
    if s != [] {
      var n := |s| - 1;
      FilterCount(p, s[..n]);
      assert forall i :: 0 <= i < n ==> s[..n][i] == s[i];
    }
  }

  lemma DuplicatedCount(records: seq<CoverageRecord>)
    ensures Duplicated(records) <==> exists slot :: |Filter(InSlot(slot), records)| >= 2
  {
    if Duplicated(records) {
      var i, j :| 0 <= i < j < |records| && SlotOf(records[i]) == SlotOf(records[j]);
      FilterCount(InSlot(SlotOf(records[i])), records);
      assert |Filter(InSlot(SlotOf(records[i])), records)| >= 2;
    }
    if slot :| |Filter(InSlot(slot), records)| >= 2 {
      FilterCount(InSlot(slot), records);
    }
  }

  lemma DuplicatedOrderFree(records: seq<CoverageRecord>, records': seq<CoverageRecord>)
    requires multiset(records) == multiset(records')
    ensures Duplicated(records) <==> Duplicated(records')
  {
    DuplicatedCount(records);
    DuplicatedCount(records');
    forall slot ensures |Filter(InSlot(slot), records)| == |Filter(InSlot(slot), records')| {
      FilterPermutation(InSlot(slot), records, records');
    }
  }

  lemma PathFailsOrderFree(records: seq<CoverageRecord>, records': seq<CoverageRecord>, sel: Selection,
                           scope: GateScope, path: string)
    requires forall r :: r in records <==> r in records'
    ensures PathFails(records, sel, scope, path) <==> PathFails(records', sel, scope, path)
  {
    assert PathsOf(records) == PathsOf(records');
    forall slot ensures HasSlot(records, slot) <==> HasSlot(records', slot) {}
    forall key
      ensures LacksMetric(records, sel, key) <==> LacksMetric(records', sel, key)
      ensures FallsShort(records, sel, key) <==> FallsShort(records', sel, key)
    {
    }
  }

  /** The status never depends on record order, even though the index keeps the first of two
      records for one slot. */
  lemma StatusIgnoresRecordOrder(records: seq<CoverageRecord>, records': seq<CoverageRecord>,
                                 specs: seq<SpecVerification>,
                                 scope: GateScope, classifier: Classifier, onDisk: string -> bool, floor: int)
    requires multiset(records) == multiset(records')
    ensures CoverageStep(records, specs, scope, classifier, onDisk, floor).status
         == CoverageStep(records', specs, scope, classifier, onDisk, floor).status
  {
    PermutationMembers(records, records');
    assert PathsOf(records) == PathsOf(records');
    if Evaluates(records, scope, classifier, onDisk) {
      var sel := SelectionFor(specs, Some(scope), floor);
      ExactCoverageVerdict(records, specs, scope, classifier, onDisk, floor);
      ExactCoverageVerdict(records', specs, scope, classifier, onDisk, floor);
      DuplicatedOrderFree(records, records');
      forall p ensures PathFails(records, sel, scope, p) <==> PathFails(records', sel, scope, p) {
        PathFailsOrderFree(records, records', sel, scope, p);
      }
    }
  }

  lemma IndexOrderFree(records: seq<CoverageRecord>, records': seq<CoverageRecord>)
    requires multiset(records) == multiset(records') && !Duplicated(records)
    ensures IndexOf(records) == IndexOf(records')
  {
    PermutationMembers(records, records');
    IndexPaths(records);
    IndexPaths(records');
    var index, index' := IndexOf(records), IndexOf(records');
    assert PathsOf(records) == PathsOf(records');
    forall p | p in index ensures index[p] == index'[p] { MetricsOrderFree(records, records', p); }
  }

  lemma MetricsOrderFree(records: seq<CoverageRecord>, records': seq<CoverageRecord>, path: string)
    requires (forall r :: r in records <==> r in records') && !Duplicated(records)
    ensures MetricsAt(IndexOf(records), path) == MetricsAt(IndexOf(records'), path)
  {
    var metrics, metrics' := MetricsAt(IndexOf(records), path), MetricsAt(IndexOf(records'), path);
    forall m
      ensures m in metrics <==> m in metrics'
      ensures m in metrics ==> metrics[m] == metrics'[m]
    {
      IndexSlots(records, Slot(path, m));
      IndexSlots(records', Slot(path, m));
      if m in metrics { SameSlotSameRecord(records, metrics[m], metrics'[m]); }
    }
  }

  /** Without duplicates the whole result is the same for every order of the records. */
  lemma ResultIgnoresRecordOrder(records: seq<CoverageRecord>, records': seq<CoverageRecord>,
                                 specs: seq<SpecVerification>,
                                 scope: GateScope, classifier: Classifier, onDisk: string -> bool, floor: int)
    requires multiset(records) == multiset(records') && !Duplicated(records)
    ensures CoverageStep(records, specs, scope, classifier, onDisk, floor)
         == CoverageStep(records', specs, scope, classifier, onDisk, floor)
  {
    PermutationMembers(records, records');
    assert PathsOf(records) == PathsOf(records');
    IndexOrderFree(records, records');
    DuplicatedOrderFree(records, records');
    RepeatsMeaning(records);
    RepeatsMeaning(records');
  }

  // ---------------------------------------------------------------- the two guards never overlap

  lemma RecordRules(c: Context, path: string, r: CoverageRecord, v: Violation)
    requires v in RecordReport(c, path, r)
    ensures v.rule == CoverageExclusion || v.rule == CoverageBelow
  {
  }

  lemma MetricRules(c: Context, path: string, metrics: MetricMap, labels: seq<string>, v: Violation)
    requires v in FlatMap(MetricReports(c, path, metrics), labels)
    ensures v.rule == CoverageExclusion || v.rule == CoverageBelow
  {
    FlatMapMember(MetricReports(c, path, metrics), labels, v);
    var m :| m in labels && v in MetricReports(c, path, metrics)(m);
    RecordRules(c, path, metrics[m], v);
  }

  /** A path nothing answers for is reported unmeasured and nothing else. */
  lemma UnmeasuredAlone(c: Context, path: string, v: Violation)
    requires v in PathReports(c)(path)
    ensures v.rule == CoverageUnmeasured ==> PathReports(c)(path) == [v]
    ensures v.rule == CoverageUnmeasured <==> !Resolvable(c.index.Keys, path)
  {
    if Resolvable(c.index.Keys, path) {
      var key :| Answers(c.index.Keys, path, key);
      ResolvedBy(c.index, path, key);
      MeasuredNames(c, path, c.index[key], v);
    }
  }

  lemma MissingNames(c: Context, path: string, v: Violation)
    requires v in PathReports(c)(path)
    ensures v.rule == CoverageMetricMissing ==> v.message.MetricMissing? && v.message.path == path
    ensures v.rule == CoverageUnmeasured ==> v.message == Unmeasured(path)
  {
    if Resolvable(c.index.Keys, path) {
      var key :| Answers(c.index.Keys, path, key);
      ResolvedBy(c.index, path, key);
      MeasuredNames(c, path, c.index[key], v);
    }
  }

  lemma MeasuredNames(c: Context, path: string, metrics: MetricMap, v: Violation)
    requires v in MeasuredReports(c, path, metrics)
    ensures v.rule != CoverageUnmeasured
    ensures v.rule == CoverageMetricMissing ==> v.message.MetricMissing? && v.message.path == path
  {
    var declared, labels := Sorting.Sorted(Declared(c.sel.specs)), Sorting.Sorted(metrics.Keys);
    if v in FlatMap(MetricReports(c, path, metrics), labels) {
      MetricRules(c, path, metrics, labels, v);
    } else {
      FlatMapMember(MissingReports(c.scope, path, metrics), declared, v);
    }
  }

  lemma ReportOrigin(c: Context, dups: seq<Slot>, paths: seq<string>, v: Violation)
    requires v in AllReports(c, dups, paths) && v.rule != CoverageCollision
    ensures exists p :: p in paths && v in PathReports(c)(p)
  {
    var collisions := Map(CollisionReport(c.scope), dups);
    forall u | u in collisions ensures u.rule == CoverageCollision {
      var i :| 0 <= i < |collisions| && collisions[i] == u;
    }
    FlatMapMember(PathReports(c), paths, v);
  }

  /** No file is reported both as unmeasured and as missing a declared metric. */
  lemma GuardsNeverOverlap(c: Context, dups: seq<Slot>, paths: seq<string>)
    ensures var reports := AllReports(c, dups, paths);
      forall v, w :: (&& v in reports && v.rule == CoverageUnmeasured && v.message.Unmeasured?
                      && w in reports && w.rule == CoverageMetricMissing && w.message.MetricMissing?)
                 ==> v.message.path != w.message.path
  {
    var reports := AllReports(c, dups, paths);
    forall v, w | && v in reports && v.rule == CoverageUnmeasured && v.message.Unmeasured?
                  && w in reports && w.rule == CoverageMetricMissing && w.message.MetricMissing?
      ensures v.message.path != w.message.path
    {
      ReportOrigin(c, dups, paths, v);
      ReportOrigin(c, dups, paths, w);
      var p :| p in paths && v in PathReports(c)(p);
      var q :| q in paths && w in PathReports(c)(q);
      MissingNames(c, p, v);
      MissingNames(c, q, w);
      UnmeasuredAlone(c, p, v);
      if p == q { assert PathReports(c)(p) == [v]; }
    }
  }

  // ---------------------------------------------------------------- severities

  lemma MetricSeverity(c: Context, path: string, metrics: MetricMap, labels: seq<string>, v: Violation)
    requires v in FlatMap(MetricReports(c, path, metrics), labels)
    ensures v.severity == "error" || (v.severity == "warning" && c.scope.mode != All)
  {
    FlatMapMember(MetricReports(c, path, metrics), labels, v);
  }

  lemma PathSeverity(c: Context, path: string, v: Violation)
    requires v in PathReports(c)(path)
    ensures v.severity == "error" || (v.severity == "warning" && c.scope.mode != All)
  {
    if Resolved(c.index, path).Some? {
      var metrics := Resolved(c.index, path).value;
      var declared, labels := Sorting.Sorted(Declared(c.sel.specs)), Sorting.Sorted(metrics.Keys);
      if v in FlatMap(MetricReports(c, path, metrics), labels) {
        MetricSeverity(c, path, metrics, labels, v);
      } else {
        FlatMapMember(MissingReports(c.scope, path, metrics), declared, v);
      }
    }
  }

  /** Every report is an error or a warning, and over the whole tree there are only errors. */
  lemma ReportSeverity(c: Context, dups: seq<Slot>, paths: seq<string>, v: Violation)
    requires v in AllReports(c, dups, paths)
    ensures v.severity == "error" || (v.severity == "warning" && c.scope.mode != All)
  {
    var collisions := Map(CollisionReport(c.scope), dups);
    if v in collisions {
      var i :| 0 <= i < |collisions| && collisions[i] == v;
    } else {
      FlatMapMember(PathReports(c), paths, v);
      var p :| p in paths && v in PathReports(c)(p);
      PathSeverity(c, p, v);
    }
  }

  /** A coverage step fails iff it holds a blocking finding. */
  lemma CoverageIsHonest(records: seq<CoverageRecord>, specs: seq<SpecVerification>, scope: GateScope,
                         classifier: Classifier, onDisk: string -> bool, floor: int)
    ensures var r := CoverageStep(records, specs, scope, classifier, onDisk, floor);
      (r.status == Fail <==> HasBlocking(r.violations)) && !r.configErr
  {
    var r := CoverageStep(records, specs, scope, classifier, onDisk, floor);
    var c := ContextFor(records, SelectionFor(specs, Some(scope), floor), scope);
    forall v | v in r.violations ensures BlocksVerdict(v) <==> v.severity == "error" {
      ErrorBlocks(v);
      if Evaluates(records, scope, classifier, onDisk) {
        ReportSeverity(c, Repeats(records), Sorting.Sorted(PathSet(records, scope, classifier, onDisk)), v);
      }
    }
  }

  // ---------------------------------------------------------------- without a scope

  /** Without a scope the step returns its whole-tree result unless that would fail. */
  lemma UnscopedIsWholeTree(records: seq<CoverageRecord>, specs: seq<SpecVerification>,
                            classifier: Classifier, onDisk: string -> bool, floor: int)
    ensures var whole := CoverageStep(records, specs, WHOLE_TREE, classifier, onDisk, floor);
      CoverageRun(records, specs, None, classifier, onDisk, floor) == if whole.status == Fail then None else Some(whole)
  {
    var whole := CoverageStep(records, specs, WHOLE_TREE, classifier, onDisk, floor);
    var c := ContextFor(records, SelectionFor(specs, Some(WHOLE_TREE), floor), WHOLE_TREE);
    if whole.violations != [] {
      assert whole.violations[0] in whole.violations;
      ReportSeverity(c, Repeats(records), Sorting.Sorted(PathSet(records, WHOLE_TREE, classifier, onDisk)),
                     whole.violations[0]);
    }
  }

  ghost predicate SomeShort(records: seq<CoverageRecord>, specs: seq<SpecVerification>) {
    exists r :: r in records && FailsThreshold(Selection(specs, false, 0), r)
  }

  lemma WholeTreePathFails(records: seq<CoverageRecord>, specs: seq<SpecVerification>, path: string)
    requires path in PathsOf(records)
    ensures var sel := Selection(specs, false, 0);
      PathFails(records, sel, WHOLE_TREE, path) <==> FallsShort(records, sel, path)
  {
    assert Answers(PathsOf(records), path, path);
  }

  lemma WholeTreeFails(records: seq<CoverageRecord>, specs: seq<SpecVerification>,
                       classifier: Classifier, onDisk: string -> bool, floor: int)
    ensures CoverageStep(records, specs, WHOLE_TREE, classifier, onDisk, floor).status == Fail
       <==> Duplicated(records) || SomeShort(records, specs)
  {
    var sel := Selection(specs, false, 0);
    assert records != [] ==> PathOf(records[0]) in PathsOf(records);
    if records != [] {
      ExactCoverageVerdict(records, specs, WHOLE_TREE, classifier, onDisk, floor);
      SomePathFails(records, specs);
    }
  }

  lemma SomePathFails(records: seq<CoverageRecord>, specs: seq<SpecVerification>)
    ensures (exists p :: p in PathsOf(records) && PathFails(records, Selection(specs, false, 0), WHOLE_TREE, p))
       <==> SomeShort(records, specs)
  {
    var sel := Selection(specs, false, 0);
    if p :| p in PathsOf(records) && PathFails(records, sel, WHOLE_TREE, p) {
      WholeTreePathFails(records, specs, p);
    }
    if r :| r in records && FailsThreshold(sel, r) {
      assert PathOf(r) in PathsOf(records) && FallsShort(records, sel, PathOf(r));
      WholeTreePathFails(records, specs, PathOf(r));
    }
  }

  /** Without a scope no result comes back iff a slot was measured twice, or some record is below the
      strictest threshold any spec sets for its metric. */
  lemma UnscopedReturnsIffClean(records: seq<CoverageRecord>, specs: seq<SpecVerification>,
                                classifier: Classifier, onDisk: string -> bool, floor: int)
    ensures CoverageRun(records, specs, None, classifier, onDisk, floor).None?
       <==> Duplicated(records) || SomeShort(records, specs)
  {
    UnscopedIsWholeTree(records, specs, classifier, onDisk, floor);
    WholeTreeFails(records, specs, classifier, onDisk, floor);
  }

  const UNCOVERED := CoverageRecord("a.go", 0, 1, false, "", "line")
  const HALF := SpecVerification(50, map[], "", "")

  /** One uncovered line under a threshold of 50 percent: no result. */
  lemma UnscopedShortfall(classifier: Classifier, onDisk: string -> bool, floor: int)
    ensures CoverageRun([UNCOVERED], [HALF], None, classifier, onDisk, floor) == None
  {
    assert [HALF][..0] == [];
    assert Strictest([HALF], "line") == 50;
    assert UNCOVERED in [UNCOVERED] && FailsThreshold(Selection([HALF], false, 0), UNCOVERED);
    UnscopedReturnsIffClean([UNCOVERED], [HALF], classifier, onDisk, floor);
  }

  // ---------------------------------------------------------------- the installed step

  /** The step the command line installs fails iff it holds a blocking finding, on every return. */
  lemma BuiltCoverageIsHonest(floor: Attempt<int>, specs: Attempt<seq<SpecVerification>>, producer: Option<Production>,
                              scope: Scope, classifier: Classifier, onDisk: string -> bool)
    ensures var r := BuiltCoverage(floor, specs, producer, scope, classifier, onDisk);
      r.Some? ==> (r.value.status == Fail <==> HasBlocking(r.value.violations)) && r.value.stepName == CoverageThreshold
  {
    var r := BuiltCoverage(floor, specs, producer, scope, classifier, onDisk);
    if floor.Lost? || specs.Lost? || (producer.Some? && producer.value.records.Lost?) {
      ErrorBlocks(r.value.violations[0]);
      assert r.value.violations[0] in r.value.violations;
    } else {
      var records := if producer.Some? then producer.value.records.value else [];
      CoverageIsHonest(records, specs.value, SiteOf(scope), classifier, onDisk, floor.value);
    }
  }
}
