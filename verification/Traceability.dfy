/** The requirement-traceability classifier (pkg/gate/requirement_traceability.go). */
module Traceability {
  import opened Seqs
  import opened Paths
  import opened Findings
  import opened Artifacts
  import opened Versions

  datatype TraceRef = TraceRef(bundle: string, req: string, pin: string, citing: string)

  /** The three lookups the classifier builds; a later record replaces an earlier one. */
  datatype Corpus = Corpus(bundles: map<string, Record>, citers: map<string, Record>, specs: map<string, Record>)

  function Enter(c: Corpus, rec: Record): Corpus {
    match rec.kind
    case Bundle => if rec.bundleName != "" then c.(bundles := c.bundles[rec.bundleName := rec]) else c
    case Spec => c.(citers := c.citers[NormalizePath("", rec.path) := rec], specs := c.specs[rec.id := rec])
    case Issue => c.(citers := c.citers[NormalizePath("", rec.path) := rec])
    case Plan => c
    case Directive => c
  }

  function CorpusOf(records: seq<Record>): Corpus {
    if records == [] then Corpus(map[], map[], map[])
    else Enter(CorpusOf(records[..|records| - 1]), records[|records| - 1])
  }

  /** The lookups agree with their keys. */
  predicate Keyed(c: Corpus) {
    && (forall n :: n in c.bundles ==> c.bundles[n].bundleName == n && c.bundles[n].kind.Bundle?)
    && (forall k :: k in c.citers ==> c.citers[k].kind.Spec? || c.citers[k].kind.Issue?)
    && (forall k :: k in c.specs ==> c.specs[k].id == k)
  }

  lemma {:induction false} CorpusKeyed(records: seq<Record>)
    ensures Keyed(CorpusOf(records))
  {
    if records != [] { CorpusKeyed(records[..|records| - 1]); }
  }

  // ---------------------------------------------------------------- one supports ref

  predicate SupportsCoverage(kind: Kind, cls: Class) {
    kind.Spec? && cls.SuccessTerminal?
  }

  function VersionOf(reqs: seq<ReqVersion>, req: string): string {
    if reqs == [] then "" else if reqs[0].reqId == req then reqs[0].version else VersionOf(reqs[1..], req)
  }

  method BundleReqVersion(bundle: Record, req: string) returns (version: string)
    ensures version == VersionOf(bundle.bundleReqs, req)
  {
    for i := 0 to |bundle.bundleReqs|
      invariant VersionOf(bundle.bundleReqs, req) == VersionOf(bundle.bundleReqs[i..], req)
    {
      if bundle.bundleReqs[i].reqId == req {
        return bundle.bundleReqs[i].version;
      }
    }
    return "";
  }

  predicate Resolves(c: Corpus, ref: TraceRef) {
    ref.bundle in c.bundles && NormalizePath("", ref.citing) in c.citers && !c.bundles[ref.bundle].cls.RetiredTerminal?
  }

  function CiterOf(c: Corpus, ref: TraceRef): Record
    requires Resolves(c, ref)
  {
    c.citers[NormalizePath("", ref.citing)]
  }

  predicate Live(c: Corpus, ref: TraceRef) {
    Resolves(c, ref) && !CiterOf(c, ref).cls.RetiredTerminal?
  }

  function Current(c: Corpus, ref: TraceRef): string
    requires Live(c, ref)
  {
    VersionOf(c.bundles[ref.bundle].bundleReqs, ref.req)
  }

  predicate IsStale(c: Corpus, ref: TraceRef) {
    Live(c, ref) && Stale(ref.pin, Current(c, ref))
  }

  predicate Covers(c: Corpus, ref: TraceRef) {
    Live(c, ref) && SupportsCoverage(CiterOf(c, ref).kind, CiterOf(c, ref).cls) && !IsStale(c, ref)
  }

  predicate Lapses(c: Corpus, ref: TraceRef) {
    Resolves(c, ref) && CiterOf(c, ref).cls.RetiredTerminal? && CiterOf(c, ref).kind.Spec?
  }

  predicate CitedTooEarly(c: Corpus, ref: TraceRef) {
    && Live(c, ref)
    && c.bundles[ref.bundle].cls.SuccessTerminal?
    && CiterOf(c, ref).kind.Spec? && !CiterOf(c, ref).cls.SuccessTerminal?
  }

  datatype Req = Req(bundle: string, id: string)

  function ReqOf(ref: TraceRef): Req {
    Req(ref.bundle, ref.req)
  }

  function Covered(c: Corpus, refs: seq<TraceRef>): set<Req> {
    set r | r in refs && Covers(c, r) :: ReqOf(r)
  }

  function Lapsed(c: Corpus, refs: seq<TraceRef>): set<Req> {
    set r | r in refs && Lapses(c, r) :: ReqOf(r)
  }

  // ---------------------------------------------------------------- the four reports

  function EarlyCite(c: Corpus, ref: TraceRef): Violation
    requires CitedTooEarly(c, ref)
  {
    var bundle, citer := c.bundles[ref.bundle], CiterOf(c, ref);
    Report(OfStep(StepName.Traceability), ref.citing, SpecNotImplemented(ref.bundle, citer.id, citer.status), "error")
      .(trace := Some(Trace(ref.bundle, bundle.status, ref.req, Current(c, ref), SpecUnfinished, ImplementSpec,
                            "", Unstated, citer.id, "")))
  }

  function EarlyCites(c: Corpus): TraceRef -> seq<Violation> {
    ref => if CitedTooEarly(c, ref) then [EarlyCite(c, ref)] else []
  }

  predicate StaleUncovered(c: Corpus, covered: set<Req>, ref: TraceRef) {
    IsStale(c, ref) && ReqOf(ref) !in covered
  }

  function StaleReport(c: Corpus, ref: TraceRef): Violation
    requires IsStale(c, ref)
  {
    var bundle, citer := c.bundles[ref.bundle], CiterOf(c, ref);
    Report(OfStep(StepName.Traceability), ref.citing,
           PinOutdated(ref.bundle, ref.req, ref.pin, Current(c, ref)), "error")
      .(trace := Some(Trace(ref.bundle, bundle.status, ref.req, Current(c, ref), StalePin,
                            if bundle.cls.SuccessTerminal? then NewSpec else RePin,
                            ref.pin, BumpOf(ref.pin, Current(c, ref)), citer.id, "")))
  }

  function StaleReports(c: Corpus, covered: set<Req>): TraceRef -> seq<Violation> {
    ref => if StaleUncovered(c, covered, ref) then [StaleReport(c, ref)] else []
  }

  datatype Origin = Origin(bundle: string, req: string, version: string)

  /** Which specs hold a stale, uncovered pin, and the last one seen for each. */
  function StaleSpecs(c: Corpus, covered: set<Req>, refs: seq<TraceRef>): map<string, Origin> {
    if refs == [] then map[]
    else
      var rest, ref := StaleSpecs(c, covered, refs[..|refs| - 1]), refs[|refs| - 1];
      if StaleUncovered(c, covered, ref) && CiterOf(c, ref).kind.Spec?
      then rest[CiterOf(c, ref).id := Origin(ref.bundle, ref.req, Current(c, ref))]
      else rest
  }

  predicate Outruns(c: Corpus, stale: set<string>, rec: Record) {
    rec.kind.Plan? && !rec.cls.RetiredTerminal? && rec.specId in c.specs && rec.specId in stale
  }

  function StatusOf(c: Corpus, bundle: string): string {
    if bundle in c.bundles then c.bundles[bundle].status else ""
  }

  function ChainReport(c: Corpus, rec: Record, origin: Origin): Violation {
    Report(OfStep(StepName.Traceability), rec.path, ChainOutrun(rec.id, rec.specId), "error")
      .(trace := Some(Trace(origin.bundle, StatusOf(c, origin.bundle), origin.req, origin.version,
                            ChainBroken, ResolveUpstream, "", Unstated, "", rec.specId)))
  }

  function ChainReports(c: Corpus, stale: map<string, Origin>): Record -> seq<Violation> {
    rec => if Outruns(c, stale.Keys, rec) then [ChainReport(c, rec, stale[rec.specId])] else []
  }

  function GapReport(bundle: Record, lapsed: set<Req>, req: ReqVersion): Violation {
    var delivered := bundle.cls.SuccessTerminal?;
    var lapse := Req(bundle.bundleName, req.reqId) in lapsed;
    Report(OfStep(if delivered then StepName.Traceability else TraceabilityAdvisory), bundle.path,
           NoCoverage(bundle.bundleName, req.reqId), if delivered then "error" else "warning")
      .(trace := Some(Trace(bundle.bundleName, bundle.status, req.reqId, req.version,
                            if lapse then CoverageLapsed else Uncovered,
                            if lapse then RestateSupports else AuthorSpec, "", Unstated, "", "")))
  }

  function GapReports(bundle: Record, covered: set<Req>, lapsed: set<Req>): ReqVersion -> seq<Violation> {
    (req: ReqVersion) => if Req(bundle.bundleName, req.reqId) in covered then [] else [GapReport(bundle, lapsed, req)]
  }

  function Gaps(bundle: Record, covered: set<Req>, lapsed: set<Req>): seq<Violation> {
    if bundle.cls.RetiredTerminal? then [] else FlatMap(GapReports(bundle, covered, lapsed), bundle.bundleReqs)
  }

  // ---------------------------------------------------------------- everything reported

  /** The parts whose order the code fixes. */
  function Ordered(c: Corpus, records: seq<Record>, refs: seq<TraceRef>): seq<Violation> {
    var covered := Covered(c, refs);
    FlatMap(EarlyCites(c), refs)
    + FlatMap(StaleReports(c, covered), refs)
    + FlatMap(ChainReports(c, StaleSpecs(c, covered, refs)), records)
  }

  function GapsUnder(c: Corpus, covered: set<Req>, lapsed: set<Req>): string -> multiset<Violation> {
    name => if name in c.bundles then multiset(Gaps(c.bundles[name], covered, lapsed)) else multiset{}
  }

  ghost function Reports(records: seq<Record>, refs: seq<TraceRef>): multiset<Violation> {
    var c := CorpusOf(records);
    multiset(Ordered(c, records, refs)) + SumOver(GapsUnder(c, Covered(c, refs), Lapsed(c, refs)), c.bundles.Keys)
  }

  /** A report without its trace payload. */
  datatype Brief = Brief(rule: Rule, file: string, message: Message, severity: string)

  const BRIEF: Violation -> Brief := (v: Violation) => Brief(v.rule, v.file, v.message, v.severity)

  function BriefGaps(c: Corpus, covered: set<Req>, lapsed: set<Req>): string -> multiset<Brief> {
    name => if name in c.bundles then multiset(Map(BRIEF, Gaps(c.bundles[name], covered, lapsed))) else multiset{}
  }

  ghost function Briefs(records: seq<Record>, refs: seq<TraceRef>): multiset<Brief> {
    var c := CorpusOf(records);
    multiset(Map(BRIEF, Ordered(c, records, refs)))
    + SumOver(BriefGaps(c, Covered(c, refs), Lapsed(c, refs)), c.bundles.Keys)
  }

  // ---------------------------------------------------------------- the classifier's loops

  method BuildCorpus(records: seq<Record>) returns (c: Corpus)
    ensures c == CorpusOf(records)
  {
    var bundles, citers, specs := map[], map[], map[];
    for i := 0 to |records|
      invariant Corpus(bundles, citers, specs) == CorpusOf(records[..i])
    {
      PrefixStep(records, i);
      var rec := records[i];
      match rec.kind {
        case Bundle =>
          if rec.bundleName != "" {
            bundles := bundles[rec.bundleName := rec];
          }
        case Spec =>
          citers := citers[NormalizePath("", rec.path) := rec];
          specs := specs[rec.id := rec];
        case Issue =>
          citers := citers[NormalizePath("", rec.path) := rec];
        case Plan =>
        case Directive =>
      }
    }
    assert records[..|records|] == records;
    c := Corpus(bundles, citers, specs);
  }

  lemma CoveredSnoc(c: Corpus, refs: seq<TraceRef>, ref: TraceRef)
    ensures Covered(c, refs + [ref]) == Covered(c, refs) + if Covers(c, ref) then {ReqOf(ref)} else {}
    ensures Lapsed(c, refs + [ref]) == Lapsed(c, refs) + if Lapses(c, ref) then {ReqOf(ref)} else {}
  {
  }

  function StaleIn(c: Corpus): TraceRef -> bool {
    ref => IsStale(c, ref)
  }

  method ScanRefs(c: Corpus, refs: seq<TraceRef>)
    returns (early: seq<Violation>, stale: seq<TraceRef>, covered: set<Req>, lapsed: set<Req>)
    ensures early == FlatMap(EarlyCites(c), refs)
    ensures stale == Filter(StaleIn(c), refs)
    ensures covered == Covered(c, refs) && lapsed == Lapsed(c, refs)
  {
    early, stale, covered, lapsed := [], [], {}, {};
    for i := 0 to |refs|
      invariant early == FlatMap(EarlyCites(c), refs[..i])
      invariant stale == Filter(StaleIn(c), refs[..i])
      invariant covered == Covered(c, refs[..i]) && lapsed == Lapsed(c, refs[..i])
    {
      var ref := refs[i];
      PrefixStep(refs, i);
      FlatMapSnoc(EarlyCites(c), refs[..i], ref);
      FilterSnoc(StaleIn(c), refs[..i], ref);
      CoveredSnoc(c, refs[..i], ref);
      if !Resolves(c, ref) {
        continue;
      }
      var bundle, citer := c.bundles[ref.bundle], CiterOf(c, ref);
      if citer.cls.RetiredTerminal? {
        if citer.kind.Spec? {
          lapsed := lapsed + {ReqOf(ref)};
        }
        continue;
      }
      var current := BundleReqVersion(bundle, ref.req);
      var bump, isStale := StalePinVerdict(ref.pin, current);
      if isStale {
        stale := stale + [ref];
      }
      if bundle.cls.SuccessTerminal? && citer.kind.Spec? && !citer.cls.SuccessTerminal? {
        early := early + [EarlyCite(c, ref)];
      }
      if SupportsCoverage(citer.kind, citer.cls) && !isStale {
        covered := covered + {ReqOf(ref)};
      }
    }
    assert refs[..|refs|] == refs;
  }

  method ReportStale(c: Corpus, refs: seq<TraceRef>, covered: set<Req>)
    returns (vs: seq<Violation>, origins: map<string, Origin>)
    requires forall r :: r in refs ==> IsStale(c, r)
    ensures vs == FlatMap(StaleReports(c, covered), refs)
    ensures origins == StaleSpecs(c, covered, refs)
  {
    vs, origins := [], map[];
    for i := 0 to |refs|
      invariant vs == FlatMap(StaleReports(c, covered), refs[..i])
      invariant origins == StaleSpecs(c, covered, refs[..i])
    {
      var ref := refs[i];
      PrefixStep(refs, i);
      assert ref in refs && IsStale(c, ref);
      FlatMapSnoc(StaleReports(c, covered), refs[..i], ref);
      StaleSpecsSnoc(c, covered, refs[..i], ref);
      if ReqOf(ref) in covered {
        continue;
      }
      assert StaleUncovered(c, covered, ref);
      if CiterOf(c, ref).kind.Spec? {
        origins := origins[CiterOf(c, ref).id := Origin(ref.bundle, ref.req, Current(c, ref))];
      }
      vs := vs + [StaleReport(c, ref)];
    }
    assert refs[..|refs|] == refs;
  }

  /** Collecting the stale refs first loses nothing: the others report nothing here. */
  lemma {:induction false} StaleFirst(c: Corpus, covered: set<Req>, refs: seq<TraceRef>)
    ensures FlatMap(StaleReports(c, covered), Filter(StaleIn(c), refs)) == FlatMap(StaleReports(c, covered), refs)
    ensures StaleSpecs(c, covered, Filter(StaleIn(c), refs)) == StaleSpecs(c, covered, refs)
  {
    if refs != [] {
      var init, last := refs[..|refs| - 1], refs[|refs| - 1];
      StaleFirst(c, covered, init);
      if IsStale(c, last) {
        FlatMapSnoc(StaleReports(c, covered), Filter(StaleIn(c), init), last);
        StaleSpecsSnoc(c, covered, Filter(StaleIn(c), init), last);
      } else {
        assert Filter(StaleIn(c), refs) == Filter(StaleIn(c), init);
      }
    }
  }

  lemma StaleSpecsSnoc(c: Corpus, covered: set<Req>, refs: seq<TraceRef>, ref: TraceRef)
    ensures StaleSpecs(c, covered, refs + [ref]) ==
      if StaleUncovered(c, covered, ref) && CiterOf(c, ref).kind.Spec?
      then StaleSpecs(c, covered, refs)[CiterOf(c, ref).id := Origin(ref.bundle, ref.req, Current(c, ref))]
      else StaleSpecs(c, covered, refs)
  {
    assert (refs + [ref])[..|refs|] == refs;
  }

  method ReportChains(c: Corpus, records: seq<Record>, origins: map<string, Origin>) returns (vs: seq<Violation>)
    requires Keyed(c)
    ensures vs == FlatMap(ChainReports(c, origins), records)
  {
    vs := [];
    for i := 0 to |records|
      invariant vs == FlatMap(ChainReports(c, origins), records[..i])
    {
      var rec := records[i];
      PrefixStep(records, i);
      FlatMapSnoc(ChainReports(c, origins), records[..i], rec);
      if !rec.kind.Plan? || rec.cls.RetiredTerminal? {
        continue;
      }
      if rec.specId in c.specs && c.specs[rec.specId].id in origins {
        vs := vs + [ChainReport(c, rec, origins[c.specs[rec.specId].id])];
      }
    }
    assert records[..|records|] == records;
  }

  method ReportGaps(bundle: Record, covered: set<Req>, lapsed: set<Req>) returns (vs: seq<Violation>)
    ensures vs == Gaps(bundle, covered, lapsed)
  {
    vs := [];
    if bundle.cls.RetiredTerminal? {
      return;
    }
    for i := 0 to |bundle.bundleReqs|
      invariant vs == FlatMap(GapReports(bundle, covered, lapsed), bundle.bundleReqs[..i])
    {
      var req := bundle.bundleReqs[i];
      PrefixStep(bundle.bundleReqs, i);
      FlatMapSnoc(GapReports(bundle, covered, lapsed), bundle.bundleReqs[..i], req);
      if Req(bundle.bundleName, req.reqId) in covered {
        continue;
      }
      vs := vs + [GapReport(bundle, lapsed, req)];
    }
    assert bundle.bundleReqs[..|bundle.bundleReqs|] == bundle.bundleReqs;
  }

  lemma GapsStep(c: Corpus, covered: set<Req>, lapsed: set<Req>, done: set<string>, name: string,
                 vs: seq<Violation>, gaps: seq<Violation>)
    requires name in c.bundles && name !in done && gaps == Gaps(c.bundles[name], covered, lapsed)
    requires multiset(vs) == SumOver(GapsUnder(c, covered, lapsed), done)
    requires multiset(Map(BRIEF, vs)) == SumOver(BriefGaps(c, covered, lapsed), done)
    ensures multiset(vs + gaps) == SumOver(GapsUnder(c, covered, lapsed), done + {name})
    ensures multiset(Map(BRIEF, vs + gaps)) == SumOver(BriefGaps(c, covered, lapsed), done + {name})
  {
    SumOverAdd(GapsUnder(c, covered, lapsed), done, name);
    SumOverAdd(BriefGaps(c, covered, lapsed), done, name);
    MapConcat(BRIEF, vs, gaps);
  }

  /** Ranges over the bundle map in whatever order it yields. */
  method ReportAllGaps(c: Corpus, covered: set<Req>, lapsed: set<Req>) returns (vs: seq<Violation>)
    ensures multiset(vs) == SumOver(GapsUnder(c, covered, lapsed), c.bundles.Keys)
    ensures multiset(Map(BRIEF, vs)) == SumOver(BriefGaps(c, covered, lapsed), c.bundles.Keys)
  {
    vs := [];
    var todo := c.bundles.Keys;
    ghost var done: set<string> := {};
    while todo != {}
      invariant done !! todo && done + todo == c.bundles.Keys
      invariant multiset(vs) == SumOver(GapsUnder(c, covered, lapsed), done)
      invariant multiset(Map(BRIEF, vs)) == SumOver(BriefGaps(c, covered, lapsed), done)
      decreases todo
    {
      var name :| name in todo;
      var gaps := ReportGaps(c.bundles[name], covered, lapsed);
      GapsStep(c, covered, lapsed, done, name, vs, gaps);
      vs := vs + gaps;
      todo := todo - {name};
      done := done + {name};
    }
    assert done == c.bundles.Keys;
  }

  /** ClassifyRequirementTraceability */
  method ClassifyRequirementTraceability(records: seq<Record>, refs: seq<TraceRef>) returns (r: StepResult)
    ensures r.stepName == StepName.Traceability && !r.configErr
    ensures multiset(r.violations) == Reports(records, refs)
    ensures multiset(Map(BRIEF, r.violations)) == Briefs(records, refs)
    ensures r.status == VerdictOn(Reports(records, refs))
  {
    var c := BuildCorpus(records);
    CorpusKeyed(records);
    var early, stale, covered, lapsed := ScanRefs(c, refs);
    FilterMembers(StaleIn(c), refs);
    var outdated, origins := ReportStale(c, stale, covered);
    StaleFirst(c, covered, refs);
    var chains := ReportChains(c, records, origins);
    var gaps := ReportAllGaps(c, covered, lapsed);
    var violations := early + outdated + chains + gaps;
    MapConcat(BRIEF, early + outdated + chains, gaps);
    var status := SeverityStatus(violations);
    r := Produced(StepName.Traceability, status, violations);
  }
}
