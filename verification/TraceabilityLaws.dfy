/** The exact traceability verdict, its indifference to ref order, and its monotonicity. */
module TraceabilityLaws {
  import opened Seqs
  import opened Paths
  import opened Findings
  import opened Artifacts
  import opened Traceability

  // ---------------------------------------------------------------- what the lookups hold

  ghost predicate LastWith(records: seq<Record>, p: Record -> bool, r: Record) {
    exists i :: 0 <= i < |records| && records[i] == r && p(r) && forall j :: i < j < |records| ==> !p(records[j])
  }

  /** A lookup holds the last record that qualifies, or nothing qualifies. */
  ghost predicate Looks(records: seq<Record>, p: Record -> bool, entry: Option<Record>) {
    if entry.Some? then LastWith(records, p, entry.value) else forall r :: r in records ==> !p(r)
  }

  function Entry(m: map<string, Record>, key: string): Option<Record> {
    if key in m then Some(m[key]) else None
  }

  function NamedBundle(name: string): Record -> bool {
    (r: Record) => r.kind.Bundle? && r.bundleName == name && name != ""
  }

  function CitingFile(path: string): Record -> bool {
    (r: Record) => (r.kind.Spec? || r.kind.Issue?) && NormalizePath("", r.path) == path
  }

  function SpecWithId(id: string): Record -> bool {
    (r: Record) => r.kind.Spec? && r.id == id
  }

  lemma LooksSnoc(records: seq<Record>, p: Record -> bool, entry: Option<Record>, r: Record)
    requires Looks(records, p, entry)
    ensures Looks(records + [r], p, if p(r) then Some(r) else entry)
  {
    var all := records + [r];
    if p(r) {
      assert all[|records|] == r;
    } else if entry.Some? {
      var i :| 0 <= i < |records| && records[i] == entry.value && p(entry.value)
            && forall j :: i < j < |records| ==> !p(records[j]);
      assert all[i] == entry.value;
    }
  }

  lemma EnterEntry(c: Corpus, rec: Record, key: string)
    ensures Entry(Enter(c, rec).bundles, key) == if NamedBundle(key)(rec) then Some(rec) else Entry(c.bundles, key)
    ensures Entry(Enter(c, rec).citers, key) == if CitingFile(key)(rec) then Some(rec) else Entry(c.citers, key)
    ensures Entry(Enter(c, rec).specs, key) == if SpecWithId(key)(rec) then Some(rec) else Entry(c.specs, key)
  {
  }

  lemma {:induction false} CorpusMeaning(records: seq<Record>, key: string)
    ensures var c := CorpusOf(records);
      && Looks(records, NamedBundle(key), Entry(c.bundles, key))
      && Looks(records, CitingFile(key), Entry(c.citers, key))
      && Looks(records, SpecWithId(key), Entry(c.specs, key))
  {
    if records != [] {
      var init, last := records[..|records| - 1], records[|records| - 1];
      var c := CorpusOf(init);
      CorpusMeaning(init, key);
      assert records == init + [last];
      EnterEntry(c, last, key);
      LooksSnoc(init, NamedBundle(key), Entry(c.bundles, key), last);
      LooksSnoc(init, CitingFile(key), Entry(c.citers, key), last);
      LooksSnoc(init, SpecWithId(key), Entry(c.specs, key), last);
    }
  }

  // ---------------------------------------------------------------- the exact verdict

  ghost predicate Uncovered(c: Corpus, refs: seq<TraceRef>, name: string, req: string) {
    forall r :: r in refs && r.bundle == name && r.req == req ==> !Covers(c, r)
  }

  ghost predicate HasGap(c: Corpus, refs: seq<TraceRef>, name: string) {
    name in c.bundles && exists q :: q in c.bundles[name].bundleReqs && Uncovered(c, refs, name, q.reqId)
  }

  /** A delivered bundle has a requirement no fresh ref of an implemented spec covers. */
  ghost predicate DeliveredGap(c: Corpus, refs: seq<TraceRef>) {
    exists name :: name in c.bundles && c.bundles[name].cls.SuccessTerminal? && HasGap(c, refs, name)
  }

  ghost predicate InFlightGap(c: Corpus, refs: seq<TraceRef>) {
    exists name :: name in c.bundles && c.bundles[name].cls.NonTerminal? && HasGap(c, refs, name)
  }

  /** A delivered bundle is cited by a live spec that is not implemented. */
  ghost predicate DeliveredCitedEarly(c: Corpus, refs: seq<TraceRef>) {
    exists r :: r in refs && CitedTooEarly(c, r)
  }

  /** A live ref pins an outdated version of a requirement nothing fresh covers. */
  ghost predicate StaleAndUncovered(c: Corpus, refs: seq<TraceRef>) {
    exists r :: r in refs && IsStale(c, r) && Uncovered(c, refs, r.bundle, r.req)
  }

  lemma UncoveredMeaning(c: Corpus, refs: seq<TraceRef>, name: string, req: string)
    ensures Req(name, req) !in Covered(c, refs) <==> Uncovered(c, refs, name, req)
  {
  }

  lemma GapsMember(bundle: Record, covered: set<Req>, lapsed: set<Req>, v: Violation)
    ensures v in Gaps(bundle, covered, lapsed) <==>
      (&& !bundle.cls.RetiredTerminal?
       && exists q :: q in bundle.bundleReqs && Req(bundle.bundleName, q.reqId) !in covered
                   && v == GapReport(bundle, lapsed, q))
  {
    FlatMapMember(GapReports(bundle, covered, lapsed), bundle.bundleReqs, v);
  }

  ghost predicate Member(c: Corpus, records: seq<Record>, refs: seq<TraceRef>, v: Violation) {
    var covered, lapsed := Covered(c, refs), Lapsed(c, refs);
    || (exists r :: r in refs && CitedTooEarly(c, r) && v == EarlyCite(c, r))
    || (exists r :: r in refs && StaleUncovered(c, covered, r) && v == StaleReport(c, r))
    || v in FlatMap(ChainReports(c, StaleSpecs(c, covered, refs)), records)
    || (exists name :: name in c.bundles && v in Gaps(c.bundles[name], covered, lapsed))
  }

  lemma EarlyMember(c: Corpus, refs: seq<TraceRef>, v: Violation)
    ensures v in FlatMap(EarlyCites(c), refs) <==> exists r :: r in refs && CitedTooEarly(c, r) && v == EarlyCite(c, r)
  {
    FlatMapMember(EarlyCites(c), refs, v);
  }

  lemma StaleMember(c: Corpus, covered: set<Req>, refs: seq<TraceRef>, v: Violation)
    ensures v in FlatMap(StaleReports(c, covered), refs)
       <==> exists r :: r in refs && StaleUncovered(c, covered, r) && v == StaleReport(c, r)
  {
    FlatMapMember(StaleReports(c, covered), refs, v);
  }

  lemma GapMember(c: Corpus, covered: set<Req>, lapsed: set<Req>, v: Violation)
    ensures v in SumOver(GapsUnder(c, covered, lapsed), c.bundles.Keys)
       <==> exists name :: name in c.bundles && v in Gaps(c.bundles[name], covered, lapsed)
  {
    SumOverMember(GapsUnder(c, covered, lapsed), c.bundles.Keys, v);
    forall name | name in c.bundles
      ensures v in GapsUnder(c, covered, lapsed)(name) <==> v in Gaps(c.bundles[name], covered, lapsed)
    {
    }
  }

  lemma JoinedMember(a: seq<Violation>, b: seq<Violation>, d: seq<Violation>, m: multiset<Violation>, v: Violation)
    ensures v in multiset(a + b + d) + m <==> v in a || v in b || v in d || v in m
  {
    assert v in multiset(a + b + d) <==> v in a + b + d;
  }

  lemma ReportsMember(records: seq<Record>, refs: seq<TraceRef>, v: Violation)
    ensures v in Reports(records, refs) <==> Member(CorpusOf(records), records, refs, v)
  {
    var c := CorpusOf(records);
    var covered, lapsed := Covered(c, refs), Lapsed(c, refs);
    JoinedMember(FlatMap(EarlyCites(c), refs), FlatMap(StaleReports(c, covered), refs),
                 FlatMap(ChainReports(c, StaleSpecs(c, covered, refs)), records),
                 SumOver(GapsUnder(c, covered, lapsed), c.bundles.Keys), v);
    EarlyMember(c, refs, v);
    StaleMember(c, covered, refs, v);
    GapMember(c, covered, lapsed, v);
  }

  lemma {:induction false} StaleSpecsMeaning(c: Corpus, covered: set<Req>, refs: seq<TraceRef>, id: string)
    ensures id in StaleSpecs(c, covered, refs) <==>
      exists r :: r in refs && StaleUncovered(c, covered, r) && CiterOf(c, r).kind.Spec? && CiterOf(c, r).id == id
  {
    if refs != [] {
      var init, last := refs[..|refs| - 1], refs[|refs| - 1];
      StaleSpecsMeaning(c, covered, init, id);
      assert refs == init + [last];
    }
  }

  /** A broken chain always has a stale pin behind it, so it never fails a run on its own. */
  lemma ChainHasCause(c: Corpus, records: seq<Record>, refs: seq<TraceRef>, v: Violation)
    requires v in FlatMap(ChainReports(c, StaleSpecs(c, Covered(c, refs), refs)), records)
    ensures StaleAndUncovered(c, refs)
  {
    var covered := Covered(c, refs);
    FlatMapMember(ChainReports(c, StaleSpecs(c, covered, refs)), records, v);
    var rec :| rec in records && v in ChainReports(c, StaleSpecs(c, covered, refs))(rec);
    StaleSpecsMeaning(c, covered, refs, rec.specId);
    var r :| r in refs && StaleUncovered(c, covered, r) && CiterOf(c, r).kind.Spec? && CiterOf(c, r).id == rec.specId;
    UncoveredMeaning(c, refs, r.bundle, r.req);
  }

  lemma GapWitness(c: Corpus, refs: seq<TraceRef>, name: string)
    requires Keyed(c) && HasGap(c, refs, name) && !c.bundles[name].cls.RetiredTerminal?
    ensures exists v :: v in Gaps(c.bundles[name], Covered(c, refs), Lapsed(c, refs))
                     && v.severity == if c.bundles[name].cls.SuccessTerminal? then "error" else "warning"
  {
    var bundle := c.bundles[name];
    var q :| q in bundle.bundleReqs && Uncovered(c, refs, name, q.reqId);
    UncoveredMeaning(c, refs, name, q.reqId);
    GapsMember(bundle, Covered(c, refs), Lapsed(c, refs), GapReport(bundle, Lapsed(c, refs), q));
  }

  lemma GapCause(c: Corpus, refs: seq<TraceRef>, name: string, v: Violation)
    requires Keyed(c) && name in c.bundles && v in Gaps(c.bundles[name], Covered(c, refs), Lapsed(c, refs))
    ensures HasGap(c, refs, name) && !c.bundles[name].cls.RetiredTerminal?
    ensures v.severity == if c.bundles[name].cls.SuccessTerminal? then "error" else "warning"
  {
    var bundle := c.bundles[name];
    GapsMember(bundle, Covered(c, refs), Lapsed(c, refs), v);
    var q :| q in bundle.bundleReqs && Req(bundle.bundleName, q.reqId) !in Covered(c, refs)
          && v == GapReport(bundle, Lapsed(c, refs), q);
    UncoveredMeaning(c, refs, name, q.reqId);
  }

  lemma ErrorCause(records: seq<Record>, refs: seq<TraceRef>, v: Violation)
    requires v in Reports(records, refs)
    ensures var c := CorpusOf(records);
      && (v.severity == "error" ==> DeliveredGap(c, refs) || DeliveredCitedEarly(c, refs) || StaleAndUncovered(c, refs))
      && (v.severity == "warning" ==> InFlightGap(c, refs))
  {
    var c := CorpusOf(records);
    CorpusKeyed(records);
    ReportsMember(records, refs, v);
    if name :| name in c.bundles && v in Gaps(c.bundles[name], Covered(c, refs), Lapsed(c, refs)) {
      GapCause(c, refs, name, v);
      assert "error" != "warning";
    } else if v in FlatMap(ChainReports(c, StaleSpecs(c, Covered(c, refs), refs)), records) {
      ChainHasCause(c, records, refs, v);
      ChainSeverity(c, records, StaleSpecs(c, Covered(c, refs), refs), v);
    } else if r :| r in refs && StaleUncovered(c, Covered(c, refs), r) && v == StaleReport(c, r) {
      UncoveredMeaning(c, refs, r.bundle, r.req);
    }
  }

  lemma ChainSeverity(c: Corpus, records: seq<Record>, origins: map<string, Origin>, v: Violation)
    requires v in FlatMap(ChainReports(c, origins), records)
    ensures v.severity == "error"
  {
    FlatMapMember(ChainReports(c, origins), records, v);
  }

  lemma EarlyShows(records: seq<Record>, refs: seq<TraceRef>)
    requires DeliveredCitedEarly(CorpusOf(records), refs)
    ensures Holds(Reports(records, refs), "error")
  {
    var c := CorpusOf(records);
    var r :| r in refs && CitedTooEarly(c, r);
    ReportsMember(records, refs, EarlyCite(c, r));
  }

  lemma StaleBelongs(c: Corpus, records: seq<Record>, refs: seq<TraceRef>, r: TraceRef)
    requires r in refs && IsStale(c, r) && Req(r.bundle, r.req) !in Covered(c, refs)
    ensures Member(c, records, refs, StaleReport(c, r))
  {
  }

  lemma StaleShows(records: seq<Record>, refs: seq<TraceRef>)
    requires StaleAndUncovered(CorpusOf(records), refs)
    ensures Holds(Reports(records, refs), "error")
  {
    var c := CorpusOf(records);
    var r :| r in refs && IsStale(c, r) && Uncovered(c, refs, r.bundle, r.req);
    UncoveredMeaning(c, refs, r.bundle, r.req);
    StaleBelongs(c, records, refs, r);
    ReportsMember(records, refs, StaleReport(c, r));
  }

  lemma GapShows(records: seq<Record>, refs: seq<TraceRef>, name: string)
    requires var c := CorpusOf(records); HasGap(c, refs, name) && !c.bundles[name].cls.RetiredTerminal?
    ensures Holds(Reports(records, refs),
                  if CorpusOf(records).bundles[name].cls.SuccessTerminal? then "error" else "warning")
  {
    var c := CorpusOf(records);
    CorpusKeyed(records);
    GapWitness(c, refs, name);
    var v :| v in Gaps(c.bundles[name], Covered(c, refs), Lapsed(c, refs))
          && v.severity == if c.bundles[name].cls.SuccessTerminal? then "error" else "warning";
    ReportsMember(records, refs, v);
  }

  /** Fails iff one of the three promises is broken; warns iff it does not fail and an
      in-flight bundle has a gap. */
  lemma ExactTraceabilityVerdict(records: seq<Record>, refs: seq<TraceRef>)
    ensures var c, status := CorpusOf(records), VerdictOn(Reports(records, refs));
      && (status == Fail <==> DeliveredGap(c, refs) || DeliveredCitedEarly(c, refs) || StaleAndUncovered(c, refs))
      && (status == Warning <==> status != Fail && InFlightGap(c, refs))
  {
    var c := CorpusOf(records);
    if DeliveredCitedEarly(c, refs) { EarlyShows(records, refs); }
    if StaleAndUncovered(c, refs) { StaleShows(records, refs); }
    if DeliveredGap(c, refs) {
      var name :| name in c.bundles && c.bundles[name].cls.SuccessTerminal? && HasGap(c, refs, name);
      GapShows(records, refs, name);
    }
    if InFlightGap(c, refs) {
      var name :| name in c.bundles && c.bundles[name].cls.NonTerminal? && HasGap(c, refs, name);
      GapShows(records, refs, name);
    }
    if Holds(Reports(records, refs), "error") {
      var v :| v in Reports(records, refs) && v.severity == "error";
      ErrorCause(records, refs, v);
    }
    if Holds(Reports(records, refs), "warning") {
      var v :| v in Reports(records, refs) && v.severity == "warning";
      ErrorCause(records, refs, v);
    }
  }

  // ---------------------------------------------------------------- order and monotonicity

  lemma {:induction false} ChainBriefs(c: Corpus, o: map<string, Origin>, o': map<string, Origin>, records: seq<Record>)
    requires o.Keys == o'.Keys
    ensures Map(BRIEF, FlatMap(ChainReports(c, o), records)) == Map(BRIEF, FlatMap(ChainReports(c, o'), records))
  {
    if records != [] {
      var init, last := records[..|records| - 1], records[|records| - 1];
      ChainBriefs(c, o, o', init);
      MapConcat(BRIEF, FlatMap(ChainReports(c, o), init), ChainReports(c, o)(last));
      MapConcat(BRIEF, FlatMap(ChainReports(c, o'), init), ChainReports(c, o')(last));
    }
  }

  lemma {:induction false} FewerChains(c: Corpus, o: map<string, Origin>, o': map<string, Origin>, records: seq<Record>)
    requires o.Keys <= o'.Keys
    ensures multiset(Map(BRIEF, FlatMap(ChainReports(c, o), records)))
         <= multiset(Map(BRIEF, FlatMap(ChainReports(c, o'), records)))
  {
    if records != [] {
      var init, last := records[..|records| - 1], records[|records| - 1];
      FewerChains(c, o, o', init);
      MapConcat(BRIEF, FlatMap(ChainReports(c, o), init), ChainReports(c, o)(last));
      MapConcat(BRIEF, FlatMap(ChainReports(c, o'), init), ChainReports(c, o')(last));
      OneChain(c, o, o', last);
      MultisetMono(multiset(Map(BRIEF, FlatMap(ChainReports(c, o), init))),
                   multiset(Map(BRIEF, FlatMap(ChainReports(c, o'), init))),
                   multiset(Map(BRIEF, ChainReports(c, o)(last))), multiset(Map(BRIEF, ChainReports(c, o')(last))));
    }
  }

  lemma OneChain(c: Corpus, o: map<string, Origin>, o': map<string, Origin>, rec: Record)
    requires o.Keys <= o'.Keys
    ensures multiset(Map(BRIEF, ChainReports(c, o)(rec))) <= multiset(Map(BRIEF, ChainReports(c, o')(rec)))
  {
    if Outruns(c, o.Keys, rec) {
      MapOne(ChainReport(c, rec, o[rec.specId]));
      MapOne(ChainReport(c, rec, o'[rec.specId]));
    }
  }

  lemma MapOne(v: Violation)
    ensures Map(BRIEF, [v]) == [BRIEF(v)]
  {
  }

  lemma {:induction false} BriefMap(f: TraceRef -> seq<Violation>, g: TraceRef -> seq<Brief>, refs: seq<TraceRef>)
    requires forall r :: r in refs ==> Map(BRIEF, f(r)) == g(r)
    ensures Map(BRIEF, FlatMap(f, refs)) == FlatMap(g, refs)
  {
    if refs != [] {
      var init, last := refs[..|refs| - 1], refs[|refs| - 1];
      assert forall r :: r in init ==> r in refs;
      assert last in refs;
      BriefMap(f, g, init);
      MapConcat(BRIEF, FlatMap(f, init), f(last));
    }
  }

  function Briefly(f: TraceRef -> seq<Violation>): TraceRef -> seq<Brief> {
    r => Map(BRIEF, f(r))
  }

  /** The ordered parts, brief by brief. */
  lemma BriefOrdered(c: Corpus, records: seq<Record>, refs: seq<TraceRef>)
    ensures multiset(Map(BRIEF, Ordered(c, records, refs)))
         == multiset(FlatMap(Briefly(EarlyCites(c)), refs))
          + multiset(FlatMap(Briefly(StaleReports(c, Covered(c, refs))), refs))
          + multiset(Map(BRIEF, FlatMap(ChainReports(c, StaleSpecs(c, Covered(c, refs), refs)), records)))
  {
    var covered := Covered(c, refs);
    var a, b := FlatMap(EarlyCites(c), refs), FlatMap(StaleReports(c, covered), refs);
    var d := FlatMap(ChainReports(c, StaleSpecs(c, covered, refs)), records);
    BriefMap(EarlyCites(c), Briefly(EarlyCites(c)), refs);
    BriefMap(StaleReports(c, covered), Briefly(StaleReports(c, covered)), refs);
    MapConcat(BRIEF, a + b, d);
    MapConcat(BRIEF, a, b);
  }

  lemma SameStaleSpecs(c: Corpus, covered: set<Req>, refs: seq<TraceRef>, refs': seq<TraceRef>)
    requires multiset(refs) == multiset(refs')
    ensures StaleSpecs(c, covered, refs).Keys == StaleSpecs(c, covered, refs').Keys
  {
    PermutationMembers(refs, refs');
    forall id ensures id in StaleSpecs(c, covered, refs) <==> id in StaleSpecs(c, covered, refs') {
      StaleSpecsMeaning(c, covered, refs, id);
      StaleSpecsMeaning(c, covered, refs', id);
    }
  }

  /** Permuting the refs leaves what is reported unchanged, although the origin kept for a
      stale spec is the last one written. */
  lemma RefOrderIsIrrelevant(records: seq<Record>, refs: seq<TraceRef>, refs': seq<TraceRef>)
    requires multiset(refs) == multiset(refs')
    ensures Briefs(records, refs) == Briefs(records, refs')
  {
    var c := CorpusOf(records);
    PermutationMembers(refs, refs');
    assert Covered(c, refs) == Covered(c, refs') && Lapsed(c, refs) == Lapsed(c, refs');
    var covered := Covered(c, refs);
    BriefOrdered(c, records, refs);
    BriefOrdered(c, records, refs');
    FlatMapPermutation(Briefly(EarlyCites(c)), refs, refs');
    FlatMapPermutation(Briefly(StaleReports(c, covered)), refs, refs');
    SameStaleSpecs(c, covered, refs, refs');
    ChainBriefs(c, StaleSpecs(c, covered, refs), StaleSpecs(c, covered, refs'), records);
  }

  // One more fresh ref of an implemented spec.

  lemma FewerStale(c: Corpus, covered: set<Req>, covered': set<Req>, refs: seq<TraceRef>)
    requires covered <= covered'
    ensures multiset(FlatMap(Briefly(StaleReports(c, covered')), refs))
         <= multiset(FlatMap(Briefly(StaleReports(c, covered)), refs))
    ensures StaleSpecs(c, covered', refs).Keys <= StaleSpecs(c, covered, refs).Keys
  {
    forall r | r in refs
      ensures multiset(Briefly(StaleReports(c, covered'))(r)) <= multiset(Briefly(StaleReports(c, covered))(r))
    {
    }
    FlatMapMono(Briefly(StaleReports(c, covered')), Briefly(StaleReports(c, covered)), refs);
    forall id | id in StaleSpecs(c, covered', refs) ensures id in StaleSpecs(c, covered, refs) {
      StaleSpecsMeaning(c, covered', refs, id);
      StaleSpecsMeaning(c, covered, refs, id);
    }
  }

  lemma {:induction false} FewerGapsIn(bundle: Record, covered: set<Req>, covered': set<Req>, lapsed: set<Req>,
                                       reqs: seq<ReqVersion>)
    requires covered <= covered'
    ensures multiset(Map(BRIEF, FlatMap(GapReports(bundle, covered', lapsed), reqs)))
         <= multiset(Map(BRIEF, FlatMap(GapReports(bundle, covered, lapsed), reqs)))
  {
    if reqs != [] {
      var init, last := reqs[..|reqs| - 1], reqs[|reqs| - 1];
      var g, g' := GapReports(bundle, covered, lapsed), GapReports(bundle, covered', lapsed);
      FewerGapsIn(bundle, covered, covered', lapsed, init);
      MapConcat(BRIEF, FlatMap(g, init), g(last));
      MapConcat(BRIEF, FlatMap(g', init), g'(last));
      MultisetMono(multiset(Map(BRIEF, FlatMap(g', init))), multiset(Map(BRIEF, FlatMap(g, init))),
                   multiset(Map(BRIEF, g'(last))), multiset(Map(BRIEF, g(last))));
    }
  }

  lemma FewerGaps(c: Corpus, covered: set<Req>, covered': set<Req>, lapsed: set<Req>)
    requires covered <= covered'
    ensures SumOver(BriefGaps(c, covered', lapsed), c.bundles.Keys)
         <= SumOver(BriefGaps(c, covered, lapsed), c.bundles.Keys)
  {
    forall name | name in c.bundles.Keys
      ensures BriefGaps(c, covered', lapsed)(name) <= BriefGaps(c, covered, lapsed)(name)
    {
      FewerGapsIn(c.bundles[name], covered, covered', lapsed, c.bundles[name].bundleReqs);
    }
    SumOverMono(BriefGaps(c, covered', lapsed), BriefGaps(c, covered, lapsed), c.bundles.Keys);
  }

  /** A further covering ref reports nothing of its own and only removes reports. */
  lemma CoveringRefOnlyRemoves(records: seq<Record>, refs: seq<TraceRef>, ref: TraceRef)
    requires Covers(CorpusOf(records), ref)
    ensures Briefs(records, refs + [ref]) <= Briefs(records, refs)
  {
    var c := CorpusOf(records);
    var covered, covered', lapsed := Covered(c, refs), Covered(c, refs + [ref]), Lapsed(c, refs);
    CoveredSnoc(c, refs, ref);
    assert Lapsed(c, refs + [ref]) == lapsed;
    BriefOrdered(c, records, refs);
    BriefOrdered(c, records, refs + [ref]);
    FlatMapSnoc(Briefly(EarlyCites(c)), refs, ref);
    FlatMapSnoc(Briefly(StaleReports(c, covered')), refs, ref);
    StaleSpecsSnoc(c, covered', refs, ref);
    FewerStale(c, covered, covered', refs);
    FewerChains(c, StaleSpecs(c, covered', refs), StaleSpecs(c, covered, refs), records);
    FewerGaps(c, covered, covered', lapsed);
  }
}
