/** The traceability verdict and everything it says, read off the records and refs themselves. */
module TraceabilityRecords {
  import opened Seqs
  import opened Paths
  import opened Findings
  import opened Artifacts
  import opened Versions
  import opened Traceability
  import opened TraceabilityLaws

  // ---------------------------------------------------------------- looking records up

  /** The last record that qualifies. */
  function LastOf(records: seq<Record>, p: Record -> bool): Option<Record> {
    if records == [] then None
    else if p(records[|records| - 1]) then Some(records[|records| - 1])
    else LastOf(records[..|records| - 1], p)
  }

  /** The bundle a ref names: the last bundle record of that name. */
  function Cited(records: seq<Record>, name: string): Option<Record> {
    LastOf(records, NamedBundle(name))
  }

  /** The artifact a ref stands in: the last spec or issue record filed at that path. */
  function Citing(records: seq<Record>, file: string): Option<Record> {
    LastOf(records, CitingFile(NormalizePath("", file)))
  }

  lemma {:induction false} LookupIsLast(records: seq<Record>, key: string)
    ensures var c := CorpusOf(records);
      && Entry(c.bundles, key) == LastOf(records, NamedBundle(key))
      && Entry(c.citers, key) == LastOf(records, CitingFile(key))
      && Entry(c.specs, key) == LastOf(records, SpecWithId(key))
  {
    if records != [] {
      LookupIsLast(records[..|records| - 1], key);
      EnterEntry(CorpusOf(records[..|records| - 1]), records[|records| - 1], key);
    }
  }

  /** The current version of a requirement: that of its first declaration, or none. */
  lemma {:induction false} FirstDeclaration(reqs: seq<ReqVersion>, req: string)
    ensures (forall i :: 0 <= i < |reqs| ==> reqs[i].reqId != req) ==> VersionOf(reqs, req) == ""
    ensures forall i :: 0 <= i < |reqs| && reqs[i].reqId == req && (forall j :: 0 <= j < i ==> reqs[j].reqId != req) ==>
      VersionOf(reqs, req) == reqs[i].version
  {
    if reqs != [] {
      FirstDeclaration(reqs[1..], req);
      forall i | 0 < i < |reqs| ensures reqs[1..][i - 1] == reqs[i] {}
      forall i | 0 <= i < |reqs| && reqs[i].reqId == req && (forall j :: 0 <= j < i ==> reqs[j].reqId != req)
        ensures VersionOf(reqs, req) == reqs[i].version
      {
        if i > 0 {
          assert reqs[0].reqId != req;
          assert reqs[1..][i - 1].reqId == req;
          assert forall j :: 0 <= j < i - 1 ==> reqs[1..][j].reqId == reqs[j + 1].reqId;
        }
      }
    }
  }

  // ---------------------------------------------------------------- the conditions, on records

  /** Both versions read as releases, and they are different ones. */
  predicate Outdated(pin: string, current: string) {
    Release(pin).Some? && Release(current).Some? && Release(pin) != Release(current)
  }

  /** Both ends of the ref are known, and neither is retired. */
  predicate BetweenLive(records: seq<Record>, r: TraceRef) {
    var bundle, citing := Cited(records, r.bundle), Citing(records, r.citing);
    bundle.Some? && citing.Some? && bundle.value.cls != RetiredTerminal && citing.value.cls != RetiredTerminal
  }

  predicate PinsOutdated(records: seq<Record>, r: TraceRef) {
    BetweenLive(records, r) && Outdated(r.pin, VersionOf(Cited(records, r.bundle).value.bundleReqs, r.req))
  }

  /** It stands in an implemented spec, and its pin is not outdated. */
  predicate Supports(records: seq<Record>, r: TraceRef) {
    && BetweenLive(records, r) && !PinsOutdated(records, r)
    && Citing(records, r.citing).value.kind == Spec && Citing(records, r.citing).value.cls == SuccessTerminal
  }

  /** It stands in a spec that is neither implemented nor retired, and cites a delivered bundle. */
  predicate TooEarly(records: seq<Record>, r: TraceRef) {
    && BetweenLive(records, r) && Cited(records, r.bundle).value.cls == SuccessTerminal
    && Citing(records, r.citing).value.kind == Spec && Citing(records, r.citing).value.cls == NonTerminal
  }

  ghost predicate SupportedReq(records: seq<Record>, refs: seq<TraceRef>, bundle: string, req: string) {
    exists r :: r in refs && r.bundle == bundle && r.req == req && Supports(records, r)
  }

  /** Some bundle in that state declares a requirement nothing supports. */
  ghost predicate Unsupported(records: seq<Record>, refs: seq<TraceRef>, state: Class) {
    exists name :: UnsupportedIn(records, refs, state, name)
  }

  ghost predicate UnsupportedIn(records: seq<Record>, refs: seq<TraceRef>, state: Class, name: string) {
    && Cited(records, name).Some? && Cited(records, name).value.cls == state
    && exists q :: q in Cited(records, name).value.bundleReqs && !SupportedReq(records, refs, name, q.reqId)
  }

  ghost predicate SomeTooEarly(records: seq<Record>, refs: seq<TraceRef>) {
    exists r :: r in refs && TooEarly(records, r)
  }

  ghost predicate SomeOutdated(records: seq<Record>, refs: seq<TraceRef>) {
    exists r :: r in refs && PinsOutdated(records, r) && !SupportedReq(records, refs, r.bundle, r.req)
  }

  // ---------------------------------------------------------------- they are what the classifier asks

  lemma RefMeaning(records: seq<Record>, r: TraceRef)
    ensures var c := CorpusOf(records);
      && (Live(c, r) <==> BetweenLive(records, r))
      && (Live(c, r) ==> Cited(records, r.bundle) == Some(c.bundles[r.bundle]))
      && (Live(c, r) ==> Citing(records, r.citing) == Some(CiterOf(c, r)))
      && (IsStale(c, r) <==> PinsOutdated(records, r))
  {
    var c := CorpusOf(records);
    LookupIsLast(records, r.bundle);
    LookupIsLast(records, NormalizePath("", r.citing));
    if Live(c, r) { StaleMeaning(r.pin, Current(c, r)); }
  }

  lemma {:induction false} CitersCite(records: seq<Record>, file: string)
    ensures var citing := Citing(records, file); citing.Some? ==> citing.value.kind in [Spec, Issue]
  {
    if records != [] { CitersCite(records[..|records| - 1], file); }
  }

  lemma RefRoles(records: seq<Record>, r: TraceRef)
    ensures Covers(CorpusOf(records), r) <==> Supports(records, r)
    ensures CitedTooEarly(CorpusOf(records), r) <==> TooEarly(records, r)
  {
    RefMeaning(records, r);
  }

  lemma ReqMeaning(records: seq<Record>, refs: seq<TraceRef>, bundle: string, req: string)
    ensures TraceabilityLaws.Uncovered(CorpusOf(records), refs, bundle, req)
       <==> !SupportedReq(records, refs, bundle, req)
  {
    forall r | r in refs ensures Covers(CorpusOf(records), r) <==> Supports(records, r) { RefRoles(records, r); }
  }

  lemma GapMeaning(records: seq<Record>, refs: seq<TraceRef>, state: Class, name: string)
    ensures var c := CorpusOf(records);
      HasGap(c, refs, name) && c.bundles[name].cls == state <==> UnsupportedIn(records, refs, state, name)
  {
    LookupIsLast(records, name);
    forall req
      ensures TraceabilityLaws.Uncovered(CorpusOf(records), refs, name, req)
         <==> !SupportedReq(records, refs, name, req)
    {
      ReqMeaning(records, refs, name, req);
    }
  }

  /** On the records: fails iff a delivered bundle declares a requirement nothing supports, or a spec still
      in flight cites a delivered bundle, or a live ref pins an outdated version of a requirement nothing
      supports; warns iff it does not fail and a bundle in flight declares one nothing supports. */
  lemma VerdictOnRecords(records: seq<Record>, refs: seq<TraceRef>)
    ensures var status := VerdictOn(Reports(records, refs));
      && (status == Fail <==>
            || Unsupported(records, refs, SuccessTerminal)
            || SomeTooEarly(records, refs) || SomeOutdated(records, refs))
      && (status == Warning <==> status != Fail && Unsupported(records, refs, NonTerminal))
  {
    ExactTraceabilityVerdict(records, refs);
    GapsAsked(records, refs);
    RefsAsked(records, refs);
  }

  lemma GapsAsked(records: seq<Record>, refs: seq<TraceRef>)
    ensures DeliveredGap(CorpusOf(records), refs) <==> Unsupported(records, refs, SuccessTerminal)
    ensures InFlightGap(CorpusOf(records), refs) <==> Unsupported(records, refs, NonTerminal)
  {
    forall name
      ensures var c := CorpusOf(records);
        HasGap(c, refs, name) && c.bundles[name].cls == SuccessTerminal
        <==> UnsupportedIn(records, refs, SuccessTerminal, name)
      ensures var c := CorpusOf(records);
        HasGap(c, refs, name) && c.bundles[name].cls == NonTerminal <==> UnsupportedIn(records, refs, NonTerminal, name)
    {
      GapMeaning(records, refs, SuccessTerminal, name);
      GapMeaning(records, refs, NonTerminal, name);
    }
  }

  lemma RefsAsked(records: seq<Record>, refs: seq<TraceRef>)
    ensures DeliveredCitedEarly(CorpusOf(records), refs) <==> SomeTooEarly(records, refs)
    ensures StaleAndUncovered(CorpusOf(records), refs) <==> SomeOutdated(records, refs)
  {
    var c := CorpusOf(records);
    forall r | r in refs
      ensures CitedTooEarly(c, r) <==> TooEarly(records, r)
      ensures IsStale(c, r) <==> PinsOutdated(records, r)
      ensures TraceabilityLaws.Uncovered(c, refs, r.bundle, r.req) <==> !SupportedReq(records, refs, r.bundle, r.req)
    {
      RefRoles(records, r);
      RefMeaning(records, r);
      ReqMeaning(records, refs, r.bundle, r.req);
    }
  }

  // ---------------------------------------------------------------- what is said, and where

  ghost predicate Said(records: seq<Record>, refs: seq<TraceRef>, file: string, message: Message, severity: string) {
    exists v :: v in Reports(records, refs) && v.file == file && v.message == message && v.severity == severity
  }

  /** Each kind of report comes from its own phase. */
  lemma PhaseOf(records: seq<Record>, refs: seq<TraceRef>, v: Violation)
    requires v in Reports(records, refs)
    ensures var c := CorpusOf(records);
      && (v.message.SpecNotImplemented? ==> exists r :: r in refs && CitedTooEarly(c, r) && v == EarlyCite(c, r))
      && (v.message.PinOutdated? ==>
            exists r :: r in refs && StaleUncovered(c, Covered(c, refs), r) && v == StaleReport(c, r))
      && (v.message.ChainOutrun? ==> v in FlatMap(ChainReports(c, StaleSpecs(c, Covered(c, refs), refs)), records))
      && (v.message.NoCoverage? ==>
            exists name :: name in c.bundles && v in Gaps(c.bundles[name], Covered(c, refs), Lapsed(c, refs)))
  {
    var c := CorpusOf(records);
    ReportsMember(records, refs, v);
    FlatMapMember(ChainReports(c, StaleSpecs(c, Covered(c, refs), refs)), records, v);
    forall name | name in c.bundles && v in Gaps(c.bundles[name], Covered(c, refs), Lapsed(c, refs))
      ensures v.message.NoCoverage?
    {
      GapsMember(c.bundles[name], Covered(c, refs), Lapsed(c, refs), v);
    }
  }

  predicate EarlyOf(records: seq<Record>, r: TraceRef, file: string, bundle: string, citer: string, status: string) {
    && TooEarly(records, r) && r.citing == file && r.bundle == bundle
    && Citing(records, r.citing).value.id == citer && Citing(records, r.citing).value.status == status
  }

  /** A spec in flight is told, at its own file, of the delivered bundle it cites. */
  lemma EarlySaid(records: seq<Record>, refs: seq<TraceRef>, file: string, bundle: string, citer: string,
                  status: string)
    ensures Said(records, refs, file, SpecNotImplemented(bundle, citer, status), "error") <==>
      exists r :: r in refs && EarlyOf(records, r, file, bundle, citer, status)
  {
    var c := CorpusOf(records);
    forall r | r in refs
      ensures CitedTooEarly(c, r) <==> TooEarly(records, r)
      ensures Live(c, r) ==> Citing(records, r.citing) == Some(CiterOf(c, r))
    {
      RefRoles(records, r);
      RefMeaning(records, r);
    }
    if Said(records, refs, file, SpecNotImplemented(bundle, citer, status), "error") {
      var v :| v in Reports(records, refs) && v.file == file && v.message == SpecNotImplemented(bundle, citer, status);
      PhaseOf(records, refs, v);
    }
    if r :| r in refs && EarlyOf(records, r, file, bundle, citer, status) {
      ReportsMember(records, refs, EarlyCite(c, r));
    }
  }

  predicate OutdatedOf(records: seq<Record>, r: TraceRef, file: string, bundle: string, req: string, pin: string,
                       current: string)
  {
    && PinsOutdated(records, r) && r.citing == file && r.bundle == bundle && r.req == req && r.pin == pin
    && VersionOf(Cited(records, bundle).value.bundleReqs, req) == current
  }

  /** The holder of an outdated pin is told, at its own file, what it pins and what is current. */
  lemma OutdatedSaid(records: seq<Record>, refs: seq<TraceRef>, file: string, bundle: string, req: string,
                     pin: string, current: string)
    ensures Said(records, refs, file, PinOutdated(bundle, req, pin, current), "error") <==>
      !SupportedReq(records, refs, bundle, req)
      && exists r :: r in refs && OutdatedOf(records, r, file, bundle, req, pin, current)
  {
    var c := CorpusOf(records);
    forall r | r in refs
      ensures IsStale(c, r) <==> PinsOutdated(records, r)
      ensures Live(c, r) ==> Cited(records, r.bundle) == Some(c.bundles[r.bundle])
    {
      RefMeaning(records, r);
    }
    ReqMeaning(records, refs, bundle, req);
    UncoveredMeaning(c, refs, bundle, req);
    if Said(records, refs, file, PinOutdated(bundle, req, pin, current), "error") {
      var v :| v in Reports(records, refs) && v.file == file && v.message == PinOutdated(bundle, req, pin, current);
      PhaseOf(records, refs, v);
    }
    if r :| r in refs && OutdatedOf(records, r, file, bundle, req, pin, current) {
      if !SupportedReq(records, refs, bundle, req) {
        StaleBelongs(c, records, refs, r);
        ReportsMember(records, refs, StaleReport(c, r));
      }
    }
  }

  /** Some spec of that id holds an outdated pin on a requirement nothing supports. */
  ghost predicate SpecOutdated(records: seq<Record>, refs: seq<TraceRef>, id: string) {
    exists r :: r in refs && OutdatesSpec(records, refs, r, id)
  }

  ghost predicate OutdatesSpec(records: seq<Record>, refs: seq<TraceRef>, r: TraceRef, id: string) {
    && PinsOutdated(records, r) && !SupportedReq(records, refs, r.bundle, r.req)
    && Citing(records, r.citing).value.kind == Spec && Citing(records, r.citing).value.id == id
  }

  lemma OutdatesSpecMeaning(records: seq<Record>, refs: seq<TraceRef>, r: TraceRef, id: string)
    ensures var c := CorpusOf(records);
      StaleUncovered(c, Covered(c, refs), r) && CiterOf(c, r).kind.Spec? && CiterOf(c, r).id == id
      <==> OutdatesSpec(records, refs, r, id)
  {
    RefMeaning(records, r);
    ReqMeaning(records, refs, r.bundle, r.req);
    UncoveredMeaning(CorpusOf(records), refs, r.bundle, r.req);
  }

  lemma SpecOutdatedMeaning(records: seq<Record>, refs: seq<TraceRef>, id: string)
    ensures var c := CorpusOf(records); id in StaleSpecs(c, Covered(c, refs), refs) <==> SpecOutdated(records, refs, id)
  {
    var c := CorpusOf(records);
    StaleSpecsMeaning(c, Covered(c, refs), refs, id);
    if id in StaleSpecs(c, Covered(c, refs), refs) {
      var r :| r in refs && StaleUncovered(c, Covered(c, refs), r) && CiterOf(c, r).kind.Spec?
            && CiterOf(c, r).id == id;
      OutdatesSpecMeaning(records, refs, r, id);
    }
    if r :| r in refs && OutdatesSpec(records, refs, r, id) { OutdatesSpecMeaning(records, refs, r, id); }
  }

  predicate PlanFor(rec: Record, file: string, plan: string, spec: string) {
    rec.kind == Plan && rec.cls != RetiredTerminal && rec.id == plan && rec.specId == spec && rec.path == file
  }

  lemma ChainListed(c: Corpus, origins: map<string, Origin>, records: seq<Record>, file: string, plan: string,
                    spec: string)
    ensures (exists v :: v in FlatMap(ChainReports(c, origins), records) && v.file == file
                      && v.message == ChainOutrun(plan, spec))
       <==> spec in origins && spec in c.specs && exists rec :: rec in records && PlanFor(rec, file, plan, spec)
  {
    if v :| v in FlatMap(ChainReports(c, origins), records) && v.file == file && v.message == ChainOutrun(plan, spec) {
      FlatMapMember(ChainReports(c, origins), records, v);
      var rec :| rec in records && v in ChainReports(c, origins)(rec);
      assert PlanFor(rec, file, plan, spec);
    }
    if rec :| rec in records && PlanFor(rec, file, plan, spec) {
      if spec in origins && spec in c.specs {
        var v := ChainReport(c, rec, origins[spec]);
        assert v in ChainReports(c, origins)(rec);
        FlatMapMember(ChainReports(c, origins), records, v);
      }
    }
  }

  lemma ChainReported(records: seq<Record>, refs: seq<TraceRef>, file: string, plan: string, spec: string)
    ensures var c := CorpusOf(records);
      var chains := FlatMap(ChainReports(c, StaleSpecs(c, Covered(c, refs), refs)), records);
      Said(records, refs, file, ChainOutrun(plan, spec), "error")
      <==> exists v :: v in chains && v.file == file && v.message == ChainOutrun(plan, spec)
  {
    var c := CorpusOf(records);
    var origins := StaleSpecs(c, Covered(c, refs), refs);
    if Said(records, refs, file, ChainOutrun(plan, spec), "error") {
      var v :| v in Reports(records, refs) && v.file == file && v.message == ChainOutrun(plan, spec);
      PhaseOf(records, refs, v);
    }
    if v :| v in FlatMap(ChainReports(c, origins), records) && v.file == file && v.message == ChainOutrun(plan, spec) {
      ChainSeverity(c, records, origins, v);
      ReportsMember(records, refs, v);
    }
  }

  /** A plan that is not retired is told, at its own file, when the known spec it implements holds one. */
  lemma ChainSaid(records: seq<Record>, refs: seq<TraceRef>, file: string, plan: string, spec: string)
    ensures Said(records, refs, file, ChainOutrun(plan, spec), "error") <==>
      (&& SpecOutdated(records, refs, spec) && LastOf(records, SpecWithId(spec)).Some?
       && exists rec :: rec in records && PlanFor(rec, file, plan, spec))
  {
    var c := CorpusOf(records);
    ChainReported(records, refs, file, plan, spec);
    ChainListed(c, StaleSpecs(c, Covered(c, refs), refs), records, file, plan, spec);
    SpecOutdatedMeaning(records, refs, spec);
    LookupIsLast(records, spec);
  }

  /** One bundle's own reports. */
  lemma GapListed(bundle: Record, covered: set<Req>, lapsed: set<Req>, file: string, req: string, severity: string)
    ensures (exists v :: v in Gaps(bundle, covered, lapsed) && v.file == file && v.severity == severity
                      && v.message == NoCoverage(bundle.bundleName, req)) <==>
      (&& bundle.path == file && Req(bundle.bundleName, req) !in covered
       && (exists q :: q in bundle.bundleReqs && q.reqId == req)
       && ((bundle.cls == SuccessTerminal && severity == "error")
           || (bundle.cls == NonTerminal && severity == "warning")))
  {
    forall v ensures v in Gaps(bundle, covered, lapsed) <==>
      (&& !bundle.cls.RetiredTerminal?
       && exists q :: q in bundle.bundleReqs && Req(bundle.bundleName, q.reqId) !in covered
                   && v == GapReport(bundle, lapsed, q))
    {
      GapsMember(bundle, covered, lapsed, v);
    }
    if q :| q in bundle.bundleReqs && q.reqId == req {
      assert GapReport(bundle, lapsed, q).message == NoCoverage(bundle.bundleName, req);
    }
  }

  lemma GapReported(records: seq<Record>, refs: seq<TraceRef>, file: string, bundle: string, req: string,
                    severity: string)
    ensures var c := CorpusOf(records);
      Said(records, refs, file, NoCoverage(bundle, req), severity) <==>
        bundle in c.bundles
        && exists v :: v in Gaps(c.bundles[bundle], Covered(c, refs), Lapsed(c, refs)) && v.file == file
                    && v.severity == severity && v.message == NoCoverage(bundle, req)
  {
    var c := CorpusOf(records);
    CorpusKeyed(records);
    if Said(records, refs, file, NoCoverage(bundle, req), severity) {
      var v :| v in Reports(records, refs) && v.file == file && v.message == NoCoverage(bundle, req)
            && v.severity == severity;
      PhaseOf(records, refs, v);
      var name :| name in c.bundles && v in Gaps(c.bundles[name], Covered(c, refs), Lapsed(c, refs));
      GapsMember(c.bundles[name], Covered(c, refs), Lapsed(c, refs), v);
    }
    if bundle in c.bundles {
      forall v | v in Gaps(c.bundles[bundle], Covered(c, refs), Lapsed(c, refs)) ensures v in Reports(records, refs) {
        ReportsMember(records, refs, v);
      }
    }
  }

  /** A bundle is told, at its own file, of each declared requirement nothing supports: an error once it is
      delivered, a warning while it is in flight, nothing once it is retired. */
  lemma GapSaid(records: seq<Record>, refs: seq<TraceRef>, file: string, bundle: string, req: string, severity: string)
    ensures Said(records, refs, file, NoCoverage(bundle, req), severity) <==>
      (&& Cited(records, bundle).Some? && Cited(records, bundle).value.path == file
       && (exists q :: q in Cited(records, bundle).value.bundleReqs && q.reqId == req)
       && !SupportedReq(records, refs, bundle, req)
       && ((Cited(records, bundle).value.cls == SuccessTerminal && severity == "error")
           || (Cited(records, bundle).value.cls == NonTerminal && severity == "warning")))
  {
    var c := CorpusOf(records);
    CorpusKeyed(records);
    LookupIsLast(records, bundle);
    ReqMeaning(records, refs, bundle, req);
    UncoveredMeaning(c, refs, bundle, req);
    GapReported(records, refs, file, bundle, req, severity);
    if bundle in c.bundles {
      GapListed(c.bundles[bundle], Covered(c, refs), Lapsed(c, refs), file, req, severity);
    }
  }

  // ---------------------------------------------------------------- why, and what to do about it

  /** A retired spec still cites the requirement of a bundle that is not retired. */
  predicate LapsedRef(records: seq<Record>, r: TraceRef) {
    var bundle, citing := Cited(records, r.bundle), Citing(records, r.citing);
    && bundle.Some? && citing.Some? && bundle.value.cls != RetiredTerminal
    && citing.value.kind == Spec && citing.value.cls == RetiredTerminal
  }

  ghost predicate LapsedReq(records: seq<Record>, refs: seq<TraceRef>, bundle: string, req: string) {
    exists r :: r in refs && r.bundle == bundle && r.req == req && LapsedRef(records, r)
  }

  lemma LapsedMeaning(records: seq<Record>, refs: seq<TraceRef>, bundle: string, req: string)
    ensures Req(bundle, req) in Lapsed(CorpusOf(records), refs) <==> LapsedReq(records, refs, bundle, req)
  {
    forall r | r in refs ensures Lapses(CorpusOf(records), r) <==> LapsedRef(records, r) {
      LookupIsLast(records, r.bundle);
      LookupIsLast(records, NormalizePath("", r.citing));
    }
  }

  /** The gap a report names, and the remedy it asks for. */
  ghost predicate Explains(records: seq<Record>, refs: seq<TraceRef>, v: Violation) {
    && v.trace.Some?
    && v.rule == OfStep(if v.severity == "warning" then TraceabilityAdvisory else StepName.Traceability)
    && var t := v.trace.value;
       match v.message
       case SpecNotImplemented(b, _, _) => t.gap == SpecUnfinished && t.remedy == ImplementSpec && t.bundle == b
       case PinOutdated(b, req, pin, current) =>
         && t.gap == StalePin && t.bundle == b && t.req == req && t.pinned == pin && t.version == current
         && t.bump == BumpOf(pin, current)
         && Cited(records, b).Some?
         && t.remedy == if Cited(records, b).value.cls == SuccessTerminal then NewSpec else RePin
       case ChainOutrun(_, spec) => t.gap == ChainBroken && t.remedy == ResolveUpstream && t.via == spec
       case NoCoverage(b, req) =>
         && t.bundle == b && t.req == req
         && t.gap == (if LapsedReq(records, refs, b, req) then CoverageLapsed else Findings.Uncovered)
         && t.remedy == if LapsedReq(records, refs, b, req) then RestateSupports else AuthorSpec
       case _ => false
  }

  lemma GapExplains(records: seq<Record>, refs: seq<TraceRef>, name: string, v: Violation)
    requires var c := CorpusOf(records);
      name in c.bundles && v in Gaps(c.bundles[name], Covered(c, refs), Lapsed(c, refs))
    ensures Explains(records, refs, v)
  {
    var c := CorpusOf(records);
    GapsMember(c.bundles[name], Covered(c, refs), Lapsed(c, refs), v);
    LapsedMeaning(records, refs, v.message.bundle, v.message.req);
  }

  lemma ChainExplains(records: seq<Record>, refs: seq<TraceRef>, origins: map<string, Origin>, v: Violation)
    requires v in FlatMap(ChainReports(CorpusOf(records), origins), records)
    ensures Explains(records, refs, v)
  {
    FlatMapMember(ChainReports(CorpusOf(records), origins), records, v);
  }

  /** Every report explains itself: an unfinished spec is to be implemented; an outdated pin on a delivered
      bundle needs a new spec, any other is re-pinned; a plan is resolved upstream; a requirement a retired
      spec once cited is to be restated, any other needs a spec. */
  lemma ReportsExplain(records: seq<Record>, refs: seq<TraceRef>, v: Violation)
    requires v in Reports(records, refs)
    ensures Explains(records, refs, v)
  {
    var c := CorpusOf(records);
    ReportsMember(records, refs, v);
    if r :| r in refs && StaleUncovered(c, Covered(c, refs), r) && v == StaleReport(c, r) {
      RefMeaning(records, r);
    } else if v in FlatMap(ChainReports(c, StaleSpecs(c, Covered(c, refs), refs)), records) {
      ChainExplains(records, refs, StaleSpecs(c, Covered(c, refs), refs), v);
    } else if name :| name in c.bundles && v in Gaps(c.bundles[name], Covered(c, refs), Lapsed(c, refs)) {
      GapExplains(records, refs, name, v);
    }
  }
}
