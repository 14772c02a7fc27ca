/** Comparing two runs that differ in what is waived: leaving less standing never exits
    worse, so runs that leave the same standing exit alike, under every baseline, policy
    and scope. */
module TwoRuns {
  import opened Seqs
  import opened Findings
  import opened Scopes
  import opened Baseline
  import opened Policies
  import opened PolicyLaws
  import opened Waivers
  import opened Gates
  import opened GateLaws

  // ---------------------------------------------------------------- findings up to their hints

  /** The hint carries a date and is presentation only. */
  function Unhinted(v: Violation): Violation {
    v.(waiverHint := "")
  }

  /** Every finding on the left is on the right, up to its hint. */
  ghost predicate Within(vs: seq<Violation>, ws: seq<Violation>) {
    forall v :: v in vs ==> exists w :: w in ws && Unhinted(v) == Unhinted(w)
  }

  lemma HintFree(v: Violation, w: Violation)
    requires Unhinted(v) == Unhinted(w)
    ensures IdOf(v) == IdOf(w) && v.projectWide == w.projectWide && v.file == w.file
    ensures BlocksVerdict(v) == BlocksVerdict(w) && v.sourcePack == w.sourcePack
  {
    var common := Unhinted(v);
    assert IdOf(v) == IdOf(common) && IdOf(w) == IdOf(common);
    assert v.projectWide == common.projectWide && w.projectWide == common.projectWide;
    assert v.file == common.file && w.file == common.file;
    assert v.severity == common.severity && w.severity == common.severity;
    assert v.sourcePack == common.sourcePack && w.sourcePack == common.sourcePack;
  }

  lemma Counterpart(vs: seq<Violation>, ws: seq<Violation>, v: Violation) returns (w: Violation)
    requires Within(vs, ws) && v in vs
    ensures w in ws && Unhinted(v) == Unhinted(w)
    ensures IdOf(v) == IdOf(w) && v.projectWide == w.projectWide && v.file == w.file
    ensures BlocksVerdict(v) == BlocksVerdict(w) && v.sourcePack == w.sourcePack
  {
    w :| w in ws && Unhinted(v) == Unhinted(w);
    HintFree(v, w);
  }

  lemma BlockingWithin(vs: seq<Violation>, ws: seq<Violation>)
    requires Within(vs, ws) && HasBlocking(vs)
    ensures HasBlocking(ws)
  {
    var v :| v in vs && BlocksVerdict(v);
    var w := Counterpart(vs, ws, v);
  }

  // ---------------------------------------------------------------- policy is monotone

  lemma DimensionWithin(e: Enforcement, vs: seq<Violation>, ws: seq<Violation>, recorded: Recorded, scope: Scope)
    requires Within(vs, ws) && DimensionVerdict(e, vs, recorded, scope) == Fail
    ensures DimensionVerdict(e, ws, recorded, scope) == Fail
  {
    DimensionMeaning(e, vs, recorded, scope);
    DimensionMeaning(e, ws, recorded, scope);
    var v :| v in vs && CountsAlone(e, recorded, scope, v) && BlocksVerdict(v);
    var w := Counterpart(vs, ws, v);
    NetNewByIdentity(recorded, scope, v, w);
    assert w in ws && CountsAlone(e, recorded, scope, w) && BlocksVerdict(w);
  }

  lemma NewIdsWithin(vs: seq<Violation>, ws: seq<Violation>, recorded: Recorded, scope: Scope, id: Identity)
    requires Within(vs, ws) && id in NewIds(vs, recorded, scope)
    ensures id in NewIds(ws, recorded, scope)
  {
    NewIdsMeaning(vs, recorded, scope, id);
    NewIdsMeaning(ws, recorded, scope, id);
    var v :| v in vs && NetNew(recorded, scope, v) && IdOf(v) == id;
    var w := Counterpart(vs, ws, v);
    NetNewByIdentity(recorded, scope, v, w);
  }

  lemma ScopedWithin(p: DimensionPolicy, vs: seq<Violation>, ws: seq<Violation>, recorded: Recorded, scope: Scope)
    requires Within(vs, ws) && ScopedVerdict(vs, p, recorded, scope) == Fail
    ensures ScopedVerdict(ws, p, recorded, scope) == Fail
  {
    var ids, ids' := NewIds(vs, recorded, scope), NewIds(ws, recorded, scope);
    ScopedMeaning(vs, p, recorded, scope);
    ScopedMeaning(ws, p, recorded, scope);
    var v :| v in vs && Policies.Counts(p, ids, recorded.Some?, v) && !Warned(p, v);
    var w := Counterpart(vs, ws, v);
    if IdOf(v) in ids { NewIdsWithin(vs, ws, recorded, scope, IdOf(v)); }
    assert w in ws && Policies.Counts(p, ids', recorded.Some?, w) && !Warned(p, w);
  }

  /** The left result of a step can only end as badly as the right one. */
  ghost predicate NoWorse(a: StepResult, b: StepResult) {
    && a.stepName == b.stepName && a.configErr == b.configErr
    && Within(a.violations, b.violations)
    && (a.status == Fail ==> b.status == Fail)
    && (b.status == Skipped ==> a.status == Skipped || !HasBlocking(b.violations))
  }

  lemma NoWorseSelf(s: StepResult)
    ensures NoWorse(s, s)
  {
  }

  lemma ReachesToo(policy: Policy, a: StepResult, b: StepResult)
    requires NoWorse(a, b) && Reaches(policy, a) && StepVerdict(a.violations) == Fail
    ensures Reaches(policy, b)
  {
    StepVerdictMeaning(a.violations);
    BlockingWithin(a.violations, b.violations);
  }

  lemma PolicyMonotone(policy: Policy, recorded: Recorded, scope: Scope, a: StepResult, b: StepResult)
    requires NoWorse(a, b) && PoliciedStep(policy, recorded, scope, a).status == Fail
    ensures PoliciedStep(policy, recorded, scope, b).status == Fail
  {
    if Reaches(policy, a) {
      PolicyOnlyRelaxes(policy, recorded, scope, a);
      ReachesToo(policy, a, b);
      var p := policy[a.stepName];
      if p.sources != map[] {
        ScopedWithin(p, a.violations, b.violations, recorded, scope);
      } else {
        DimensionWithin(p.own, a.violations, b.violations, recorded, scope);
      }
    }
  }

  /** A set policy silences the baseline step, whatever it held. */
  predicate Silenced(cfg: Config, name: StepName) {
    cfg.policy != map[] && name.BaselineComparison?
  }

  ghost predicate NoWorseIn(cfg: Config, a: StepResult, b: StepResult) {
    && a.stepName == b.stepName && a.configErr == b.configErr
    && (Silenced(cfg, a.stepName) || NoWorse(a, b))
  }

  ghost predicate NoneWorse(cfg: Config, rs: seq<StepResult>, rs': seq<StepResult>) {
    |rs| == |rs'| && forall i :: 0 <= i < |rs| ==> NoWorseIn(cfg, rs[i], rs'[i])
  }

  /** Two configurations that may differ only in what their waivers say. */
  ghost predicate SameButWaivers(cfg: Config, cfg': Config) {
    && cfg.configErr == cfg'.configErr && cfg.scope == cfg'.scope
    && cfg.baselineEnabled == cfg'.baselineEnabled && cfg.recorded == cfg'.recorded
    && cfg.seeding == cfg'.seeding && cfg.changed == cfg'.changed && cfg.policy == cfg'.policy
    && cfg.waiverEnabled == cfg'.waiverEnabled
  }

  lemma FinalMonotone(cfg: Config, cfg': Config, st: RunState, st': RunState)
    requires SameButWaivers(cfg, cfg') && NoneWorse(cfg, st.results, st'.results)
    requires SomeFails(Final(cfg, st))
    ensures SomeFails(Final(cfg', st'))
  {
    var final, final' := Final(cfg, st), Final(cfg', st');
    var s :| s in final && s.status == Fail;
    var i :| 0 <= i < |final| && final[i] == s;
    assert NoWorseIn(cfg, st.results[i], st'.results[i]);
    if cfg.policy != map[] && !st.results[i].stepName.BaselineComparison? {
      PolicyMonotone(cfg.policy, cfg.recorded, cfg.scope, st.results[i], st'.results[i]);
    }
    assert final'[i] in final';
  }

  // ---------------------------------------------------------------- the chain is monotone

  lemma AccumulatedWithin(cfg: Config, rs: seq<StepResult>, rs': seq<StepResult>)
    requires NoneWorse(cfg, rs, rs')
    ensures Within(Accumulated(rs), Accumulated(rs'))
  {
    forall v | v in Accumulated(rs) ensures exists w :: w in Accumulated(rs') && Unhinted(v) == Unhinted(w) {
      FlatMapMember(CONTRIBUTION, rs, v);
      var s :| s in rs && v in CONTRIBUTION(s);
      var i :| 0 <= i < |rs| && rs[i] == s;
      assert NoWorseIn(cfg, rs[i], rs'[i]);
      var w := Counterpart(rs[i].violations, rs'[i].violations, v);
      assert rs'[i] in rs' && w in CONTRIBUTION(rs'[i]);
      FlatMapMember(CONTRIBUTION, rs', w);
    }
  }

  lemma NewInByIdentity(recorded: set<Identity>, o: CompareOptions, v: Violation, w: Violation)
    requires IdOf(v) == IdOf(w) && v.projectWide == w.projectWide && v.file == w.file
    ensures NewIn(recorded, o)(v) == NewIn(recorded, o)(w)
  {
    SeedableByIdentity(o, v, w);
  }

  lemma NewWithin(vs: seq<Violation>, ws: seq<Violation>, recorded: seq<Violation>, o: CompareOptions)
    requires Within(vs, ws)
    ensures Within(NewOf(vs, recorded, o), NewOf(ws, recorded, o))
  {
    var p := NewIn(Ids(recorded), o);
    var a, b := NewOf(vs, recorded, o), NewOf(ws, recorded, o);
    FilterMembers(p, vs);
    FilterMembers(p, ws);
    forall v | v in a ensures exists w :: w in b && Unhinted(v) == Unhinted(w) {
      var i :| 0 <= i < |a| && a[i] == v;
      var raw := Filter(p, vs)[i];
      assert raw in Filter(p, vs);
      var other := Counterpart(vs, ws, raw);
      NewInByIdentity(Ids(recorded), o, raw, other);
      var j :| 0 <= j < |Filter(p, ws)| && Filter(p, ws)[j] == other;
      EnrichHints(raw, other);
      assert b[j] in b;
    }
  }

  lemma EnrichHints(v: Violation, w: Violation)
    requires Unhinted(v) == Unhinted(w)
    ensures Unhinted(Enrich(v)) == Unhinted(Enrich(w))
  {
    assert Unhinted(Enrich(v)) == Enrich(Unhinted(v));
    assert Unhinted(Enrich(w)) == Enrich(Unhinted(w));
  }

  lemma BaselineStepMonotone(cfg: Config, cfg': Config, rs: seq<StepResult>, rs': seq<StepResult>)
    requires SameButWaivers(cfg, cfg') && NoneWorse(cfg, rs, rs')
    ensures NoWorse(BaselineStep(cfg, rs), BaselineStep(cfg', rs'))
  {
    AccumulatedWithin(cfg, rs, rs');
    if cfg.recorded.Some? {
      var a, b := BaselineStep(cfg, rs), BaselineStep(cfg', rs');
      NewWithin(Accumulated(rs), Accumulated(rs'), cfg.recorded.value, Options(cfg));
      if a.violations != [] {
        var w := Counterpart(a.violations, b.violations, a.violations[0]);
      }
    }
  }

  ghost predicate NoWorseState(cfg: Config, st: RunState, st': RunState) {
    st.halted == st'.halted && (st.halted || NoneWorse(cfg, st.results, st'.results))
  }

  lemma AdvanceMonotone(cfg: Config, cfg': Config, st: RunState, st': RunState, s: StepResult)
    requires SameButWaivers(cfg, cfg') && NoWorseState(cfg, st, st') && !s.stepName.WaiverResolution?
    ensures NoWorseState(cfg, Advance(cfg, st, s), Advance(cfg', st', s))
  {
    if !st.halted {
      if cfg.baselineEnabled && s.stepName.BaselineComparison? {
        var a, b := BaselineStep(cfg, st.results), BaselineStep(cfg', st'.results);
        BaselineStepMonotone(cfg, cfg', st.results, st'.results);
        NoneWorseSnoc(cfg, st.results, st'.results, a, b);
      } else {
        NoWorseSelf(s);
        NoneWorseSnoc(cfg, st.results, st'.results, s, s);
      }
    }
  }

  lemma {:induction false} ChainMonotone(cfg: Config, cfg': Config, active: seq<Waiver>,
                                         pre: seq<StepResult>, pre': seq<StepResult>, post: seq<StepResult>)
    requires SameButWaivers(cfg, cfg')
    requires NoWorseState(cfg, Chain(cfg, active, pre), Chain(cfg', active, pre'))
    requires forall s :: s in post ==> !s.stepName.WaiverResolution?
    ensures NoWorseState(cfg, Chain(cfg, active, pre + post), Chain(cfg', active, pre' + post))
  {
    if post == [] {
      assert pre + post == pre && pre' + post == pre';
    } else {
      var init, last := post[..|post| - 1], post[|post| - 1];
      assert forall s :: s in init ==> s in post;
      assert last in post;
      ChainMonotone(cfg, cfg', active, pre, pre', init);
      ChainSnoc(cfg, active, pre + init, last);
      ChainSnoc(cfg', active, pre' + init, last);
      assert pre + post == pre + init + [last] && pre' + post == pre' + init + [last];
      AdvanceMonotone(cfg, cfg', Chain(cfg, active, pre + init), Chain(cfg', active, pre' + init), last);
    }
  }

  lemma ChainSnoc(cfg: Config, active: seq<Waiver>, produced: seq<StepResult>, s: StepResult)
    ensures Chain(cfg, active, produced + [s]) == Advance(cfg, Chain(cfg, active, produced), s)
  {
    assert (produced + [s])[..|produced|] == produced;
  }

  // ---------------------------------------------------------------- up to the waiver step

  /** Nothing reported, and no failure. */
  predicate Harmless(s: StepResult) {
    s.violations == [] && s.status != Fail
  }

  /** The same step in the two runs: on the waivable surface only the producer's contract is
      assumed, a silenced baseline may hold anything, and any other step is identical or harmless. */
  ghost predicate Paired(cfg: Config, a: StepResult, b: StepResult) {
    && a.stepName == b.stepName && a.configErr == b.configErr
    && (if OnSurface(a.stepName) then Honest(a) && Honest(b)
        else a == b || Silenced(cfg, a.stepName) || (Harmless(a) && Harmless(b)))
  }

  /** A computed baseline step can decide the exit code: no policy silences it, a baseline is
      loaded, and the run does not seed everything it finds. */
  predicate BaselineDecides(cfg: Config) {
    cfg.policy == map[] && cfg.baselineEnabled && cfg.recorded.Some? && !SeedsEverything(Options(cfg))
  }

  ghost predicate AllPaired(cfg: Config, pre: seq<StepResult>, pre': seq<StepResult>) {
    |pre| == |pre'| && forall i :: 0 <= i < |pre| ==> Paired(cfg, pre[i], pre'[i])
  }

  /** Ahead of the waiver step comes no other, and no baseline step that could decide. */
  ghost predicate BeforeWaivers(cfg: Config, pre: seq<StepResult>) {
    forall s :: s in pre ==> !s.stepName.WaiverResolution? && (Computed(cfg, s) ==> !BaselineDecides(cfg))
  }

  ghost function DiagnosticsOf(cfg: Config, pre: seq<StepResult>): seq<Violation> {
    Diagnostics(Adjudicated(cfg, pre), cfg.waiver.unbound)
  }

  /** Whatever the left waivers leave standing or complain about, so do the right ones. */
  ghost predicate LeavesLess(cfg: Config, pre: seq<StepResult>, cfg': Config, pre': seq<StepResult>)
    requires |pre| == |pre'|
  {
    && Included(DiagnosticsOf(cfg, pre), DiagnosticsOf(cfg', pre'))
    && forall i :: 0 <= i < |pre| && OnSurface(pre[i].stepName) ==>
         Included(Remaining(pre[i], SuppressedKeys(cfg, pre)), Remaining(pre'[i], SuppressedKeys(cfg', pre')))
  }

  ghost predicate Included(vs: seq<Violation>, ws: seq<Violation>) {
    forall v :: v in vs ==> v in ws
  }

  /** What the run puts in the place of a produced step, ahead of the waiver step. */
  ghost predicate StandsFor(cfg: Config, s: StepResult, r: StepResult) {
    if !Computed(cfg, s) then r == s
    else r.stepName == s.stepName && !r.configErr
         && (cfg.policy == map[] && !BaselineDecides(cfg) ==> Harmless(r))
  }

  ghost predicate StandFor(cfg: Config, pre: seq<StepResult>, rs: seq<StepResult>) {
    |pre| == |rs| && forall i :: 0 <= i < |pre| ==> StandsFor(cfg, pre[i], rs[i])
  }

  lemma UndecidedIsHarmless(cfg: Config, results: seq<StepResult>)
    requires cfg.policy == map[] && cfg.baselineEnabled && !BaselineDecides(cfg)
    ensures Harmless(BaselineStep(cfg, results))
  {
    if cfg.recorded.Some? {
      SomethingCanBeNew(cfg.recorded.value, Options(cfg));
      FilterNothing(NewIn(Ids(cfg.recorded.value), Options(cfg)), Accumulated(results));
    }
  }

  ghost function Stand(cfg: Config, results: seq<StepResult>, s: StepResult): StepResult {
    if Computed(cfg, s) then BaselineStep(cfg, results) else s
  }

  lemma AdvanceStands(cfg: Config, st: RunState, s: StepResult)
    requires !st.halted && !s.stepName.WaiverResolution?
    ensures var r := Stand(cfg, st.results, s);
      && StandsFor(cfg, s, r)
      && Advance(cfg, st, s) == RunState(st.results + [r], st.active, Halts(cfg, s))
  {
    if Computed(cfg, s) && cfg.policy == map[] && !BaselineDecides(cfg) { UndecidedIsHarmless(cfg, st.results); }
  }

  lemma StandForSnoc(cfg: Config, pre: seq<StepResult>, rs: seq<StepResult>, s: StepResult, r: StepResult)
    requires StandFor(cfg, pre, rs) && StandsFor(cfg, s, r)
    ensures StandFor(cfg, pre + [s], rs + [r])
  {
  }

  lemma {:induction false} PlainChain(cfg: Config, active: seq<Waiver>, pre: seq<StepResult>)
    requires forall s :: s in pre ==> !s.stepName.WaiverResolution?
    ensures var st := Chain(cfg, active, pre);
      !st.halted ==> st.active == active && StandFor(cfg, pre, st.results)
  {
    if pre != [] {
      var init, last := pre[..|pre| - 1], pre[|pre| - 1];
      assert last in pre && forall s :: s in init ==> s in pre;
      PlainChain(cfg, active, init);
      var before := Chain(cfg, active, init);
      if !before.halted {
        AdvanceStands(cfg, before, last);
        StandForSnoc(cfg, init, before.results, last, Stand(cfg, before.results, last));
        assert pre == init + [last];
      }
    }
  }

  /** Nothing on the waivable surface has moved, so adjudication sees the same findings. */
  lemma SameOffer(cfg: Config, pre: seq<StepResult>, rs: seq<StepResult>)
    requires StandFor(cfg, pre, rs)
    ensures Adjudicated(cfg, rs) == Adjudicated(cfg, pre)
  {
    forall i | 0 <= i < |pre| ensures SURFACE(pre[i]) == SURFACE(rs[i]) { assert StandsFor(cfg, pre[i], rs[i]); }
    FlatMapPointwise(SURFACE, rs, pre);
  }

  lemma StandingPaired(cfg: Config, cfg': Config, pre: seq<StepResult>, pre': seq<StepResult>,
                       rs: seq<StepResult>, rs': seq<StepResult>)
    requires SameButWaivers(cfg, cfg') && AllPaired(cfg, pre, pre') && BeforeWaivers(cfg, pre)
    requires StandFor(cfg, pre, rs) && StandFor(cfg', pre', rs')
    ensures AllPaired(cfg, rs, rs')
  {
    forall i | 0 <= i < |pre| ensures Paired(cfg, rs[i], rs'[i]) {
      assert Paired(cfg, pre[i], pre'[i]) && StandsFor(cfg, pre[i], rs[i]) && StandsFor(cfg', pre'[i], rs'[i]);
      assert pre[i] in pre;
    }
  }

  lemma StandsUnmoved(cfg: Config, s: StepResult, r: StepResult)
    requires StandsFor(cfg, s, r)
    ensures r.stepName == s.stepName && (OnSurface(s.stepName) ==> r == s)
  {
  }

  lemma StandingLeavesLess(cfg: Config, cfg': Config, pre: seq<StepResult>, pre': seq<StepResult>,
                           rs: seq<StepResult>, rs': seq<StepResult>)
    requires |pre| == |pre'| && LeavesLess(cfg, pre, cfg', pre')
    requires StandFor(cfg, pre, rs) && StandFor(cfg', pre', rs')
    requires forall i :: 0 <= i < |pre| ==> pre[i].stepName == pre'[i].stepName
    ensures LeavesLess(cfg, rs, cfg', rs')
  {
    SameOffer(cfg, pre, rs);
    SameOffer(cfg', pre', rs');
    forall i | 0 <= i < |rs| && OnSurface(rs[i].stepName)
      ensures OnSurface(pre[i].stepName) && rs[i] == pre[i] && rs'[i] == pre'[i]
    {
      StandsUnmoved(cfg, pre[i], rs[i]);
      StandsUnmoved(cfg', pre'[i], rs'[i]);
    }
  }

  lemma NoStandingConfigErr(cfg: Config, pre: seq<StepResult>, rs: seq<StepResult>, i: nat)
    requires StandFor(cfg, pre, rs) && i < |rs| && !SomeHalts(cfg, pre)
    requires forall s :: s in pre ==> !s.stepName.WaiverResolution?
    ensures !rs[i].configErr
  {
    assert pre[i] in pre && StandsFor(cfg, pre[i], rs[i]);
  }

  lemma SubsetWithin(vs: seq<Violation>, ws: seq<Violation>)
    requires Included(vs, ws)
    ensures Within(vs, ws)
  {
  }

  lemma HintedWithin(step: StepName, f: (StepName, Violation) -> Option<string>,
                     g: (StepName, Violation) -> Option<string>,
                     vs: seq<Violation>, ws: seq<Violation>)
    requires Included(vs, ws)
    ensures Within(Map(Hinted(step, f), vs), Map(Hinted(step, g), ws))
  {
    var a, b := Map(Hinted(step, f), vs), Map(Hinted(step, g), ws);
    forall v | v in a ensures exists w :: w in b && Unhinted(v) == Unhinted(w) {
      var i :| 0 <= i < |a| && a[i] == v;
      assert vs[i] in vs;
      var j :| 0 <= j < |ws| && ws[j] == vs[i];
      assert b[j] in b;
    }
  }

  lemma WaivedMonotone(cfg: Config, cfg': Config, a: StepResult, b: StepResult, sup: set<Key>, sup': set<Key>)
    requires Paired(cfg, a, b) && !a.configErr
    requires OnSurface(a.stepName) ==> Included(Remaining(a, sup), Remaining(b, sup'))
    ensures NoWorseIn(cfg, WaivedStep(a, sup, cfg.waiver.prefill), WaivedStep(b, sup', cfg'.waiver.prefill))
  {
    if OnSurface(a.stepName) {
      WaivingStaysHonest(a, sup, cfg.waiver.prefill);
      WaivingStaysHonest(b, sup', cfg'.waiver.prefill);
      HintedWithin(a.stepName, cfg.waiver.prefill, cfg'.waiver.prefill, Remaining(a, sup), Remaining(b, sup'));
    } else if a == b {
      NoWorseSelf(a);
    }
  }

  lemma DiagnosticsMonotone(adj: Adjudication, unbound: seq<Diagnostic>, adj': Adjudication, unbound': seq<Diagnostic>)
    requires Included(Diagnostics(adj, unbound), Diagnostics(adj', unbound'))
    ensures NoWorse(WaiverStep(adj, unbound), WaiverStep(adj', unbound'))
  {
    SubsetWithin(Diagnostics(adj, unbound), Diagnostics(adj', unbound'));
    StepVerdictMeaning(Diagnostics(adj, unbound));
    StepVerdictMeaning(Diagnostics(adj', unbound'));
  }

  lemma WaiverStepMonotone(cfg: Config, cfg': Config, active: seq<Waiver>, rs: seq<StepResult>, rs': seq<StepResult>,
                           w: StepResult)
    requires SameButWaivers(cfg, cfg') && cfg.waiverEnabled && w.stepName.WaiverResolution?
    requires AllPaired(cfg, rs, rs') && LeavesLess(cfg, rs, cfg', rs')
    requires forall i :: 0 <= i < |rs| ==> !rs[i].configErr
    ensures NoWorseState(cfg, Advance(cfg, RunState(rs, active, false), w),
                         Advance(cfg', RunState(rs', active, false), w))
  {
    var sup, sup' := SuppressedKeys(cfg, rs), SuppressedKeys(cfg', rs');
    var left, left' := WaivedResults(cfg, rs), WaivedResults(cfg', rs');
    forall i | 0 <= i < |left| ensures NoWorseIn(cfg, left[i], left'[i]) {
      WaivedMonotone(cfg, cfg', rs[i], rs'[i], sup, sup');
    }
    DiagnosticsMonotone(Adjudicated(cfg, rs), cfg.waiver.unbound, Adjudicated(cfg', rs'), cfg'.waiver.unbound);
    NoneWorseSnoc(cfg, left, left', WaiverStep(Adjudicated(cfg, rs), cfg.waiver.unbound),
                  WaiverStep(Adjudicated(cfg', rs'), cfg'.waiver.unbound));
  }

  lemma NoneWorseSnoc(cfg: Config, rs: seq<StepResult>, rs': seq<StepResult>, a: StepResult, b: StepResult)
    requires NoneWorse(cfg, rs, rs') && NoWorse(a, b)
    ensures NoneWorse(cfg, rs + [a], rs' + [b])
  {
  }

  lemma HaltsPaired(cfg: Config, cfg': Config, pre: seq<StepResult>, pre': seq<StepResult>)
    requires SameButWaivers(cfg, cfg') && AllPaired(cfg, pre, pre')
    ensures SomeHalts(cfg, pre) <==> SomeHalts(cfg', pre')
  {
    forall i | 0 <= i < |pre| ensures Halts(cfg, pre[i]) == Halts(cfg', pre'[i]) {
      assert Paired(cfg, pre[i], pre'[i]);
    }
    if s :| s in pre && Halts(cfg, s) {
      var i :| 0 <= i < |pre| && pre[i] == s;
      assert pre'[i] in pre';
    }
    if s :| s in pre' && Halts(cfg', s) {
      var i :| 0 <= i < |pre'| && pre'[i] == s;
      assert pre[i] in pre;
    }
  }

  /** A chain with its one waiver step after every step it may rewrite, and ahead of a baseline
      step whose verdict counts. */
  ghost predicate WaiversInPlace(cfg: Config, pre: seq<StepResult>, w: StepResult, post: seq<StepResult>) {
    && cfg.waiverEnabled && BeforeWaivers(cfg, pre) && w.stepName.WaiverResolution?
    && forall s :: s in post ==> !s.stepName.WaiverResolution?
  }

  /** Leaving less standing never exits worse. */
  lemma WaivingMoreNeverHurts(cfg: Config, cfg': Config, active: seq<Waiver>,
                              pre: seq<StepResult>, pre': seq<StepResult>, w: StepResult, post: seq<StepResult>)
    requires SameButWaivers(cfg, cfg') && AllPaired(cfg, pre, pre')
    requires WaiversInPlace(cfg, pre, w, post) && WaiversInPlace(cfg', pre', w, post)
    requires !SomeHalts(cfg, pre) ==> LeavesLess(cfg, pre, cfg', pre')
    ensures Outcome(cfg, active, pre + [w] + post).1 <= Outcome(cfg', active, pre' + [w] + post).1
  {
    ThroughWaivers(cfg, cfg', active, pre, pre', w);
    ChainMonotone(cfg, cfg', active, pre + [w], pre' + [w], post);
    ExitMonotone(cfg, cfg', active, pre + [w] + post, pre' + [w] + post);
  }

  lemma ThroughWaivers(cfg: Config, cfg': Config, active: seq<Waiver>,
                       pre: seq<StepResult>, pre': seq<StepResult>, w: StepResult)
    requires SameButWaivers(cfg, cfg') && AllPaired(cfg, pre, pre')
    requires WaiversInPlace(cfg, pre, w, []) && WaiversInPlace(cfg', pre', w, [])
    requires !SomeHalts(cfg, pre) ==> LeavesLess(cfg, pre, cfg', pre')
    ensures NoWorseState(cfg, Chain(cfg, active, pre + [w]), Chain(cfg', active, pre' + [w]))
  {
    var st, st' := Chain(cfg, active, pre), Chain(cfg', active, pre');
    PlainChain(cfg, active, pre);
    PlainChain(cfg', active, pre');
    HaltsPaired(cfg, cfg', pre, pre');
    ChainHalts(cfg, active, pre);
    ChainHalts(cfg', active, pre');
    ChainSnoc(cfg, active, pre, w);
    ChainSnoc(cfg', active, pre', w);
    if !st.halted {
      StandingPaired(cfg, cfg', pre, pre', st.results, st'.results);
      forall i | 0 <= i < |pre| ensures pre[i].stepName == pre'[i].stepName { assert Paired(cfg, pre[i], pre'[i]); }
      StandingLeavesLess(cfg, cfg', pre, pre', st.results, st'.results);
      forall i | 0 <= i < |pre| ensures !st.results[i].configErr { NoStandingConfigErr(cfg, pre, st.results, i); }
      WaiverStepMonotone(cfg, cfg', active, st.results, st'.results, w);
    }
  }

  lemma ChainHalts(cfg: Config, active: seq<Waiver>, produced: seq<StepResult>)
    ensures Chain(cfg, active, produced).halted <==> SomeHalts(cfg, produced)
  {
    ChainStops(cfg, active, produced);
  }

  lemma ExitMonotone(cfg: Config, cfg': Config, active: seq<Waiver>, produced: seq<StepResult>,
                     produced': seq<StepResult>)
    requires SameButWaivers(cfg, cfg')
    requires NoWorseState(cfg, Chain(cfg, active, produced), Chain(cfg', active, produced'))
    ensures Outcome(cfg, active, produced).1 <= Outcome(cfg', active, produced').1
  {
    var st, st' := Chain(cfg, active, produced), Chain(cfg', active, produced');
    if !st.halted {
      TallyMeaning(Final(cfg, st), Fail);
      TallyMeaning(Final(cfg', st'), Fail);
      if SomeFails(Final(cfg, st)) { FinalMonotone(cfg, cfg', st, st'); }
    }
  }

  /** The waivers leave the same set of findings standing, and report the same diagnostics. */
  ghost predicate AgreeOnRemains(cfg: Config, pre: seq<StepResult>, cfg': Config, pre': seq<StepResult>)
    requires |pre| == |pre'|
  {
    && SameFindings(DiagnosticsOf(cfg, pre), DiagnosticsOf(cfg', pre'))
    && forall i :: 0 <= i < |pre| && OnSurface(pre[i].stepName) ==>
         SameFindings(Remaining(pre[i], SuppressedKeys(cfg, pre)), Remaining(pre'[i], SuppressedKeys(cfg', pre')))
  }

  /** The same set of findings, in any order and number. */
  ghost predicate SameFindings(vs: seq<Violation>, ws: seq<Violation>) {
    Included(vs, ws) && Included(ws, vs)
  }

  /** Two runs whose waivers leave the same findings standing return the same exit code. */
  lemma WaiverNonInterference(cfg: Config, cfg': Config, active: seq<Waiver>,
                              pre: seq<StepResult>, pre': seq<StepResult>, w: StepResult, post: seq<StepResult>)
    requires SameButWaivers(cfg, cfg') && AllPaired(cfg, pre, pre')
    requires WaiversInPlace(cfg, pre, w, post) && WaiversInPlace(cfg', pre', w, post)
    requires !SomeHalts(cfg, pre) ==> AgreeOnRemains(cfg, pre, cfg', pre')
    ensures Outcome(cfg, active, pre + [w] + post).1 == Outcome(cfg', active, pre' + [w] + post).1
  {
    HaltsPaired(cfg, cfg', pre, pre');
    if !SomeHalts(cfg, pre) {
      AgreeLeavesLess(cfg, pre, cfg', pre');
    }
    WaivingMoreNeverHurts(cfg, cfg', active, pre, pre', w, post);
    PairedSymmetric(cfg, cfg', pre, pre');
    WaivingMoreNeverHurts(cfg', cfg, active, pre', pre, w, post);
  }

  lemma PairedSymmetric(cfg: Config, cfg': Config, pre: seq<StepResult>, pre': seq<StepResult>)
    requires SameButWaivers(cfg, cfg') && AllPaired(cfg, pre, pre')
    ensures AllPaired(cfg', pre', pre)
  {
    forall i | 0 <= i < |pre| ensures Paired(cfg', pre'[i], pre[i]) { assert Paired(cfg, pre[i], pre'[i]); }
  }

  lemma AgreeLeavesLess(cfg: Config, pre: seq<StepResult>, cfg': Config, pre': seq<StepResult>)
    requires AllPaired(cfg, pre, pre') && AgreeOnRemains(cfg, pre, cfg', pre')
    ensures LeavesLess(cfg, pre, cfg', pre') && LeavesLess(cfg', pre', cfg, pre)
  {
    forall i | 0 <= i < |pre| ensures pre[i].stepName == pre'[i].stepName { assert Paired(cfg, pre[i], pre'[i]); }
  }
}
