/** What the policy pass promises: the per-source path refines the dimension-only path, a
    policy only relaxes, a missing baseline is never laxer, and the pass is idempotent. */
module PolicyLaws {
  import opened Seqs
  import opened Paths
  import opened Findings
  import opened Scopes
  import opened Baseline
  import opened Policies

  // ---------------------------------------------------------------- finding by finding

  /** Net-new against a loaded baseline, judged on this finding alone. */
  ghost predicate NetNew(recorded: Recorded, scope: Scope, v: Violation) {
    recorded.Some? ==> NewIn(Ids(recorded.value), Plain(scope))(v)
  }

  ghost predicate CountsAlone(e: Enforcement, recorded: Recorded, scope: Scope, v: Violation) {
    e.appliesTo.NewCode? ==> NetNew(recorded, scope, v)
  }

  lemma NetNewByIdentity(recorded: Recorded, scope: Scope, v: Violation, w: Violation)
    requires IdOf(v) == IdOf(w) && v.projectWide == w.projectWide
    ensures NetNew(recorded, scope, v) == NetNew(recorded, scope, w)
  {
    ContainsCanonical(scope, v.file);
    ContainsCanonical(scope, w.file);
    NormalizeEmpty("", v.file);
    NormalizeEmpty("", w.file);
    assert NormalizePath("", v.file) == NormalizePath("", w.file);
  }

  lemma NewIdsMeaning(vs: seq<Violation>, recorded: Recorded, scope: Scope, id: Identity)
    requires recorded.Some?
    ensures id in NewIds(vs, recorded, scope)
       <==> exists w :: w in vs && NetNew(recorded, scope, w) && IdOf(w) == id
  {
    IdsOfMapped(NewIn(Ids(recorded.value), Plain(scope)), vs);
  }

  lemma CountedMeaning(e: Enforcement, vs: seq<Violation>, recorded: Recorded, scope: Scope)
    ensures Counted(e, vs, recorded, scope) == [] <==> forall v :: v in vs ==> !CountsAlone(e, recorded, scope, v)
    ensures HasBlocking(Counted(e, vs, recorded, scope))
       <==> exists v :: v in vs && CountsAlone(e, recorded, scope, v) && BlocksVerdict(v)
  {
    if e.appliesTo.NewCode? && recorded.Some? {
      var p := NewIn(Ids(recorded.value), Plain(scope));
      FilterMembers(p, vs);
      MappedBlocking(Filter(p, vs));
      MappedEmpty(p, vs);
    } else {
      assert vs != [] ==> vs[0] in vs;
    }
  }

  lemma MappedEmpty(p: Violation -> bool, vs: seq<Violation>)
    ensures Filter(p, vs) == [] <==> forall v :: v in vs ==> !p(v)
  {
    FilterMembers(p, vs);
    if Filter(p, vs) != [] {
      assert Filter(p, vs)[0] in Filter(p, vs);
    }
  }

  lemma MappedBlocking(vs: seq<Violation>)
    ensures HasBlocking(Map(ENRICH, vs)) <==> HasBlocking(vs)
  {
    var ws := Map(ENRICH, vs);
    if HasBlocking(ws) {
      var w :| w in ws && BlocksVerdict(w);
      var i :| 0 <= i < |ws| && ws[i] == w;
      assert vs[i] in vs && BlocksVerdict(vs[i]);
    }
    if HasBlocking(vs) {
      var v :| v in vs && BlocksVerdict(v);
      var i :| 0 <= i < |vs| && vs[i] == v;
      assert ws[i] in ws && BlocksVerdict(ws[i]);
    }
  }

  lemma DimensionMeaning(e: Enforcement, vs: seq<Violation>, recorded: Recorded, scope: Scope)
    ensures var d := DimensionVerdict(e, vs, recorded, scope);
      && (d == Fail <==> (LevelOf(e).Block?
           && exists v :: v in vs && CountsAlone(e, recorded, scope, v) && BlocksVerdict(v)))
      && (d == Pass <==> LevelOf(e).Off? || forall v :: v in vs ==> !CountsAlone(e, recorded, scope, v))
      && d != Skipped
  {
    CountedMeaning(e, vs, recorded, scope);
    StepVerdictMeaning(Counted(e, vs, recorded, scope));
  }

  lemma ScopedMeaning(vs: seq<Violation>, p: DimensionPolicy, recorded: Recorded, scope: Scope)
    ensures var ids, d := NewIds(vs, recorded, scope), ScopedVerdict(vs, p, recorded, scope);
      && (d == Fail <==> exists v :: v in vs && Counts(p, ids, recorded.Some?, v) && !Warned(p, v))
      && (d == Pass <==> forall v :: v in vs ==> !Counts(p, ids, recorded.Some?, v))
      && d != Skipped
  {
    var ids := NewIds(vs, recorded, scope);
    MappedEmpty(BlockedBy(p, ids, recorded.Some?), vs);
    MappedEmpty(WarnedBy(p, ids, recorded.Some?), vs);
  }

  // ---------------------------------------------------------------- per-source refines dimension-only

  /** Whenever a project-wide finding shares its identity with one that is not, the latter's
      own source also reports that identity project-wide, and no less severely. */
  ghost predicate SpokenFor(vs: seq<Violation>) {
    forall w, v :: w in vs && v in vs && IdOf(w) == IdOf(v) && w.projectWide && !v.projectWide ==> HasSpeaker(vs, v)
  }

  ghost predicate HasSpeaker(vs: seq<Violation>, v: Violation) {
    exists u :: u in vs && SpeaksFor(u, v)
  }

  ghost predicate SpeaksFor(u: Violation, v: Violation) {
    u.projectWide && IdOf(u) == IdOf(v) && u.sourcePack == v.sourcePack && (BlocksVerdict(v) ==> BlocksVerdict(u))
  }

  ghost predicate DistinctIdentities(vs: seq<Violation>) {
    forall i, j :: 0 <= i < j < |vs| ==> IdOf(vs[i]) != IdOf(vs[j])
  }

  lemma DistinctIsSpokenFor(vs: seq<Violation>)
    requires DistinctIdentities(vs)
    ensures SpokenFor(vs)
  {
    forall v, w | v in vs && w in vs && IdOf(v) == IdOf(w) ensures v == w {
      var i :| 0 <= i < |vs| && vs[i] == v;
      var j :| 0 <= j < |vs| && vs[j] == w;
      assert i == j;
    }
  }

  function FromSource(source: string): Violation -> bool {
    (v: Violation) => v.sourcePack == source
  }

  /** What the dimension-only path gives one source's findings under that source's policy. */
  ghost function SourceVerdict(p: DimensionPolicy, source: string, vs: seq<Violation>, recorded: Recorded,
                               scope: Scope): Status {
    DimensionVerdict(Effective(p, source), Filter(FromSource(source), vs), recorded, scope)
  }

  ghost function SourceVerdicts(p: DimensionPolicy, vs: seq<Violation>, recorded: Recorded, scope: Scope): set<Status> {
    set v | v in vs :: SourceVerdict(p, v.sourcePack, vs, recorded, scope)
  }

  ghost function Strictest(verdicts: set<Status>): Status {
    if Fail in verdicts then Fail else if Warning in verdicts then Warning else Pass
  }

  /** A net-new identity is net-new on each of its project-wide findings. */
  lemma NetNewOnWide(recorded: Recorded, scope: Scope, v: Violation, w: Violation)
    requires IdOf(v) == IdOf(w) && NetNew(recorded, scope, v) && w.projectWide
    ensures NetNew(recorded, scope, w)
  {
    NetNewByIdentity(recorded, scope, v.(projectWide := true), w);
  }

  lemma LocalCounts(p: DimensionPolicy, vs: seq<Violation>, recorded: Recorded, scope: Scope, v: Violation)
    requires v in vs && CountsHere(p, recorded, scope, v)
    ensures Counts(p, NewIds(vs, recorded, scope), recorded.Some?, v)
  {
    if recorded.Some? { NewIdsMeaning(vs, recorded, scope, IdOf(v)); }
  }

  /** A finding that counts by its identity counts itself, or its speaker does. */
  lemma CountsIsLocal(p: DimensionPolicy, vs: seq<Violation>, recorded: Recorded, scope: Scope, v: Violation)
    requires SpokenFor(vs) && v in vs && Counts(p, NewIds(vs, recorded, scope), recorded.Some?, v)
    ensures exists u :: u in vs && CountsHere(p, recorded, scope, u) && (Warned(p, u) ==> Warned(p, v))
  {
    if !CountsHere(p, recorded, scope, v) {
      NewIdsMeaning(vs, recorded, scope, IdOf(v));
      var w :| w in vs && NetNew(recorded, scope, w) && IdOf(w) == IdOf(v);
      if v.projectWide { NetNewOnWide(recorded, scope, w, v); }
      if w.projectWide == v.projectWide { NetNewByIdentity(recorded, scope, w, v); }
      assert HasSpeaker(vs, v);
      var u :| u in vs && SpeaksFor(u, v);
      NetNewOnWide(recorded, scope, w, u);
      assert CountsHere(p, recorded, scope, u);
    }
  }

  lemma SourceMeaning(p: DimensionPolicy, source: string, vs: seq<Violation>, recorded: Recorded, scope: Scope)
    ensures var e, d := Effective(p, source), SourceVerdict(p, source, vs, recorded, scope);
      && (d == Fail <==> (LevelOf(e).Block?
           && exists v :: v in vs && v.sourcePack == source && CountsAlone(e, recorded, scope, v) && BlocksVerdict(v)))
      && (d == Pass <==> (LevelOf(e).Off?
           || forall v :: v in vs && v.sourcePack == source ==> !CountsAlone(e, recorded, scope, v)))
      && d != Skipped
  {
    DimensionMeaning(Effective(p, source), Filter(FromSource(source), vs), recorded, scope);
    FilterMembers(FromSource(source), vs);
  }

  /** The per-source verdict is the strictest of the sources' own dimension-only verdicts. */
  ghost predicate Refines(p: DimensionPolicy, vs: seq<Violation>, recorded: Recorded, scope: Scope) {
    ScopedVerdict(vs, p, recorded, scope) == Strictest(SourceVerdicts(p, vs, recorded, scope))
  }

  lemma ScopedRefinesDimension(p: DimensionPolicy, vs: seq<Violation>, recorded: Recorded, scope: Scope)
    requires SpokenFor(vs)
    ensures Refines(p, vs, recorded, scope)
  {
    ScopedIsLocal(p, vs, recorded, scope);
    StrictestLocally(p, vs, recorded, scope);
  }

  lemma StrictestLocally(p: DimensionPolicy, vs: seq<Violation>, recorded: Recorded, scope: Scope)
    ensures var d := Strictest(SourceVerdicts(p, vs, recorded, scope));
      && (d == Fail <==> SomeBlocks(p, vs, recorded, scope))
      && (d == Pass <==> !SomeCounts(p, vs, recorded, scope))
      && d != Skipped
  {
    SomeSourceFails(p, vs, recorded, scope);
    AllSourcesPass(p, vs, recorded, scope);
    StrictestMeaning(SourceVerdicts(p, vs, recorded, scope));
  }

  lemma StrictestMeaning(verdicts: set<Status>)
    requires Skipped !in verdicts
    ensures Strictest(verdicts) == Fail <==> Fail in verdicts
    ensures Strictest(verdicts) == Pass <==> verdicts <= {Pass}
  {
    if Strictest(verdicts) == Pass {
      forall d | d in verdicts ensures d == Pass {}
    }
  }

  ghost predicate SomeCounts(p: DimensionPolicy, vs: seq<Violation>, recorded: Recorded, scope: Scope) {
    exists v :: v in vs && CountsHere(p, recorded, scope, v)
  }

  ghost predicate SomeBlocks(p: DimensionPolicy, vs: seq<Violation>, recorded: Recorded, scope: Scope) {
    exists v :: v in vs && CountsHere(p, recorded, scope, v) && !Warned(p, v)
  }

  lemma CountsSomewhere(p: DimensionPolicy, vs: seq<Violation>, recorded: Recorded, scope: Scope, v: Violation)
    requires SpokenFor(vs) && v in vs && Counts(p, NewIds(vs, recorded, scope), recorded.Some?, v)
    ensures SomeCounts(p, vs, recorded, scope) && (!Warned(p, v) ==> SomeBlocks(p, vs, recorded, scope))
  {
    CountsIsLocal(p, vs, recorded, scope, v);
  }

  lemma ScopedIsLocal(p: DimensionPolicy, vs: seq<Violation>, recorded: Recorded, scope: Scope)
    requires SpokenFor(vs)
    ensures var d := ScopedVerdict(vs, p, recorded, scope);
      && (d == Fail <==> SomeBlocks(p, vs, recorded, scope))
      && (d == Pass <==> !SomeCounts(p, vs, recorded, scope))
      && d != Skipped
  {
    ScopedMeaning(vs, p, recorded, scope);
    if v :| v in vs && CountsHere(p, recorded, scope, v) { LocalCounts(p, vs, recorded, scope, v); }
    if v :| v in vs && CountsHere(p, recorded, scope, v) && !Warned(p, v) { LocalCounts(p, vs, recorded, scope, v); }
    var ids := NewIds(vs, recorded, scope);
    if v :| v in vs && Counts(p, ids, recorded.Some?, v) { CountsSomewhere(p, vs, recorded, scope, v); }
    if v :| v in vs && Counts(p, ids, recorded.Some?, v) && !Warned(p, v) {
      CountsSomewhere(p, vs, recorded, scope, v);
    }
  }

  // A finding nobody speaks for: an empty diff, a baseline of everything else, and a policy
  // that blocks its source on new code and switches the others off.

  const EMPTY_DIFF: Scope := Some(GateScope(Diff, [], "", {}))

  function OtherThan(id: Identity): Violation -> bool {
    (v: Violation) => IdOf(v) != id
  }

  function Sources(vs: seq<Violation>): set<string> {
    set v | v in vs :: v.sourcePack
  }

  ghost function OnlySource(vs: seq<Violation>, source: string): DimensionPolicy {
    DimensionPolicy(Enforcement(Block, NewCode),
                    map s | s in Sources(vs) :: Enforcement(if s == source then Block else Off, NewCode))
  }

  lemma NetNewThere(vs: seq<Violation>, id: Identity, v: Violation)
    requires v in vs
    ensures NetNew(Some(Filter(OtherThan(id), vs)), EMPTY_DIFF, v) <==> IdOf(v) == id && v.projectWide
  {
    FilterMembers(OtherThan(id), vs);
  }

  lemma CountsThere(vs: seq<Violation>, v: Violation, u: Violation)
    requires u in vs
    ensures CountsHere(OnlySource(vs, v.sourcePack), AllBut(vs, v), EMPTY_DIFF, u)
       <==> u.projectWide && IdOf(u) == IdOf(v) && u.sourcePack == v.sourcePack
    ensures Warned(OnlySource(vs, v.sourcePack), u) <==> !BlocksVerdict(u)
  {
    NetNewThere(vs, IdOf(v), u);
  }

  ghost function AllBut(vs: seq<Violation>, v: Violation): Recorded {
    Some(Filter(OtherThan(IdOf(v)), vs))
  }

  lemma UnspokenScoped(vs: seq<Violation>, w: Violation, v: Violation)
    requires w in vs && v in vs && IdOf(w) == IdOf(v) && w.projectWide
    ensures var d := ScopedVerdict(vs, OnlySource(vs, v.sourcePack), AllBut(vs, v), EMPTY_DIFF);
      d != Pass && (BlocksVerdict(v) ==> d == Fail)
  {
    var p, recorded := OnlySource(vs, v.sourcePack), AllBut(vs, v);
    NetNewThere(vs, IdOf(v), w);
    NewIdsMeaning(vs, recorded, EMPTY_DIFF, IdOf(v));
    assert Counts(p, NewIds(vs, recorded, EMPTY_DIFF), true, v);
    ScopedMeaning(vs, p, recorded, EMPTY_DIFF);
  }

  lemma UnspokenAlone(vs: seq<Violation>, v: Violation)
    requires v in vs && !HasSpeaker(vs, v)
    ensures var p, recorded := OnlySource(vs, v.sourcePack), AllBut(vs, v);
      && !SomeBlocks(p, vs, recorded, EMPTY_DIFF)
      && (SomeCounts(p, vs, recorded, EMPTY_DIFF) ==> BlocksVerdict(v))
  {
    forall u | u in vs ensures !SpeaksFor(u, v) {}
    forall u | u in vs
      ensures CountsHere(OnlySource(vs, v.sourcePack), AllBut(vs, v), EMPTY_DIFF, u)
          ==> BlocksVerdict(v) && Warned(OnlySource(vs, v.sourcePack), u)
    {
      CountsThere(vs, v, u);
    }
  }

  lemma UnspokenBreaks(vs: seq<Violation>, w: Violation, v: Violation)
    requires w in vs && v in vs && IdOf(w) == IdOf(v) && w.projectWide && !HasSpeaker(vs, v)
    ensures !Refines(OnlySource(vs, v.sourcePack), vs, AllBut(vs, v), EMPTY_DIFF)
  {
    UnspokenScoped(vs, w, v);
    UnspokenAlone(vs, v);
    StrictestLocally(OnlySource(vs, v.sourcePack), vs, AllBut(vs, v), EMPTY_DIFF);
  }

  predicate HasOverrides(p: DimensionPolicy) {
    p.sources != map[] && !LevelOf(p.own).Off?
  }

  ghost predicate AlwaysRefines(vs: seq<Violation>) {
    forall p: DimensionPolicy, recorded: Recorded, scope: Scope :: HasOverrides(p) ==> Refines(p, vs, recorded, scope)
  }

  lemma SpokenForRefines(vs: seq<Violation>)
    requires SpokenFor(vs)
    ensures AlwaysRefines(vs)
  {
    forall p: DimensionPolicy, recorded: Recorded, scope: Scope | HasOverrides(p)
      ensures Refines(p, vs, recorded, scope)
    {
      ScopedRefinesDimension(p, vs, recorded, scope);
    }
  }

  lemma OnlySourceOverrides(vs: seq<Violation>, v: Violation)
    requires v in vs
    ensures HasOverrides(OnlySource(vs, v.sourcePack))
  {
    assert v.sourcePack in OnlySource(vs, v.sourcePack).sources;
  }

  /** The two paths agree on a step's findings under every policy that has overrides, every
      baseline and every scope iff those findings are spoken for. */
  lemma RefinementExact(vs: seq<Violation>)
    ensures AlwaysRefines(vs) <==> SpokenFor(vs)
  {
    if SpokenFor(vs) {
      SpokenForRefines(vs);
    } else {
      var w, v :| w in vs && v in vs && IdOf(w) == IdOf(v) && w.projectWide && !v.projectWide && !HasSpeaker(vs, v);
      UnspokenBreaks(vs, w, v);
      OnlySourceOverrides(vs, v);
    }
  }

  /** Without that premise the refinement fails.  One pack reports one fingerprint twice: as a
      project-wide warning, and as an error on a file the scope leaves out.  The warning makes the
      identity net-new, and the error rides in on it. */
  lemma SharedIdentityBreaksRefinement(wide: Violation, scope: Scope)
    requires wide.projectWide && wide.region.Given? && wide.severity == "warning"
    requires scope.Some? && scope.value.mode != All && !Contains(scope, wide.file)
    ensures
      var e := Enforcement(Block, NewCode);
      var p := DimensionPolicy(e, map[wide.sourcePack := e]);
      var vs := [wide, wide.(projectWide := false, severity := "error")];
      && ScopedVerdict(vs, p, Some([]), scope) == Fail
      && Strictest(SourceVerdicts(p, vs, Some([]), scope)) == Warning
  {
    var e := Enforcement(Block, NewCode);
    var p := DimensionPolicy(e, map[wide.sourcePack := e]);
    var copy := wide.(projectWide := false, severity := "error");
    ErrorBlocks(wide);
    ErrorBlocks(copy);
    CopyRidesIn(wide, copy, p, scope);
    CopyAlone(wide, copy, p, scope);
  }

  /** Each source judged alone: the scope drops the error and keeps the warning. */
  lemma CopyAlone(wide: Violation, copy: Violation, p: DimensionPolicy, scope: Scope)
    requires wide.projectWide && !copy.projectWide && !BlocksVerdict(wide) && copy.sourcePack == wide.sourcePack
    requires Effective(p, wide.sourcePack) == Enforcement(Block, NewCode)
    requires scope.Some? && scope.value.mode != All && !Contains(scope, copy.file)
    ensures Strictest(SourceVerdicts(p, [wide, copy], Some([]), scope)) == Warning
  {
    var vs, recorded := [wide, copy], Some([]);
    assert wide in vs && NetNew(recorded, scope, wide) && !NetNew(recorded, scope, copy);
    assert CountsHere(p, recorded, scope, wide) && !CountsHere(p, recorded, scope, copy);
    StrictestLocally(p, vs, recorded, scope);
  }

  lemma WideIsNew(wide: Violation, scope: Scope)
    requires wide.projectWide && scope.Some? && scope.value.mode != All
    ensures NetNew(Some([]), scope, wide)
  {
  }

  lemma NewIdentityBlocks(p: DimensionPolicy, vs: seq<Violation>, recorded: Recorded, scope: Scope, v: Violation)
    requires v in vs && BlocksVerdict(v) && IdOf(v) in NewIds(vs, recorded, scope)
    requires Effective(p, v.sourcePack) == Enforcement(Block, NewCode)
    ensures ScopedVerdict(vs, p, recorded, scope) == Fail
  {
    ScopedMeaning(vs, p, recorded, scope);
    assert Counts(p, NewIds(vs, recorded, scope), recorded.Some?, v) && !Warned(p, v);
  }

  lemma CopyRidesIn(wide: Violation, copy: Violation, p: DimensionPolicy, scope: Scope)
    requires wide.projectWide && BlocksVerdict(copy) && IdOf(wide) == IdOf(copy)
    requires Effective(p, copy.sourcePack) == Enforcement(Block, NewCode)
    requires scope.Some? && scope.value.mode != All
    ensures ScopedVerdict([wide, copy], p, Some([]), scope) == Fail
  {
    var vs := [wide, copy];
    assert wide in vs && copy in vs;
    WideIsNew(wide, scope);
    NewIdsMeaning(vs, Some([]), scope, IdOf(copy));
    NewIdentityBlocks(p, vs, Some([]), scope, copy);
  }

  ghost predicate CountsHere(p: DimensionPolicy, recorded: Recorded, scope: Scope, v: Violation) {
    !LevelOf(Effective(p, v.sourcePack)).Off? && CountsAlone(Effective(p, v.sourcePack), recorded, scope, v)
  }

  lemma SomeSourceFails(p: DimensionPolicy, vs: seq<Violation>, recorded: Recorded, scope: Scope)
    ensures Fail in SourceVerdicts(p, vs, recorded, scope) <==> SomeBlocks(p, vs, recorded, scope)
  {
    if Fail in SourceVerdicts(p, vs, recorded, scope) {
      var u :| u in vs && SourceVerdict(p, u.sourcePack, vs, recorded, scope) == Fail;
      SourceMeaning(p, u.sourcePack, vs, recorded, scope);
      var v :| v in vs && v.sourcePack == u.sourcePack
            && CountsAlone(Effective(p, u.sourcePack), recorded, scope, v) && BlocksVerdict(v);
      assert v in vs && CountsHere(p, recorded, scope, v) && !Warned(p, v);
    }
    forall v | v in vs && CountsHere(p, recorded, scope, v) && !Warned(p, v)
      ensures SourceVerdict(p, v.sourcePack, vs, recorded, scope) == Fail
    {
      SourceMeaning(p, v.sourcePack, vs, recorded, scope);
    }
  }

  /** A source passes iff none of its findings counts. */
  lemma SourcePasses(p: DimensionPolicy, source: string, vs: seq<Violation>, recorded: Recorded, scope: Scope)
    ensures SourceVerdict(p, source, vs, recorded, scope) != Skipped
    ensures SourceVerdict(p, source, vs, recorded, scope) == Pass
       <==> forall v :: v in vs && v.sourcePack == source ==> !CountsHere(p, recorded, scope, v)
  {
    SourceMeaning(p, source, vs, recorded, scope);
  }

  lemma AllSourcesPass(p: DimensionPolicy, vs: seq<Violation>, recorded: Recorded, scope: Scope)
    ensures SourceVerdicts(p, vs, recorded, scope) <= {Pass} <==> !SomeCounts(p, vs, recorded, scope)
    ensures Skipped !in SourceVerdicts(p, vs, recorded, scope)
  {
    var verdicts := SourceVerdicts(p, vs, recorded, scope);
    forall d | d in verdicts
      ensures d != Skipped
      ensures !SomeCounts(p, vs, recorded, scope) ==> d == Pass
    {
      var v :| v in vs && SourceVerdict(p, v.sourcePack, vs, recorded, scope) == d;
      SourcePasses(p, v.sourcePack, vs, recorded, scope);
    }
    forall v | v in vs && CountsHere(p, recorded, scope, v) ensures !(verdicts <= {Pass}) {
      SourcePasses(p, v.sourcePack, vs, recorded, scope);
      assert SourceVerdict(p, v.sourcePack, vs, recorded, scope) in verdicts;
    }
  }

  function NotFrom(source: string): Violation -> bool {
    (v: Violation) => v.sourcePack != source
  }

  /** Changing one source's override never changes which findings of the others block. */
  lemma OverridesAreIndependent(p: DimensionPolicy, q: DimensionPolicy, source: string, vs: seq<Violation>,
                                recorded: Recorded, scope: Scope)
    requires p.own == q.own
    requires forall other :: other != source ==> Effective(p, other) == Effective(q, other)
    ensures Filter(NotFrom(source), ScopedBlocking(vs, p, recorded, scope))
         == Filter(NotFrom(source), ScopedBlocking(vs, q, recorded, scope))
  {
    var ids := NewIds(vs, recorded, scope);
    var both: Violation -> bool := v => BlockedBy(p, ids, recorded.Some?)(v) && v.sourcePack != source;
    FilterTwice(BlockedBy(p, ids, recorded.Some?), NotFrom(source), both, vs);
    FilterTwice(BlockedBy(q, ids, recorded.Some?), NotFrom(source), both, vs);
  }

  // ---------------------------------------------------------------- only relaxes

  lemma DimensionRelaxes(e: Enforcement, vs: seq<Violation>, recorded: Recorded, scope: Scope)
    ensures Rank(DimensionVerdict(e, vs, recorded, scope)) <= Rank(StepVerdict(vs))
  {
    DimensionMeaning(e, vs, recorded, scope);
    StepVerdictMeaning(vs);
  }

  lemma ScopedRelaxes(vs: seq<Violation>, p: DimensionPolicy, recorded: Recorded, scope: Scope)
    ensures Rank(ScopedVerdict(vs, p, recorded, scope)) <= Rank(StepVerdict(vs))
  {
    ScopedMeaning(vs, p, recorded, scope);
    StepVerdictMeaning(vs);
  }

  /** A policied step never ends stricter than the verdict on everything it reported; block
      on all code, without overrides, is exactly that verdict. */
  lemma PolicyOnlyRelaxes(policy: Policy, recorded: Recorded, scope: Scope, s: StepResult)
    requires Reaches(policy, s) && !s.stepName.BaselineComparison?
    ensures Rank(PoliciedStep(policy, recorded, scope, s).status) <= Rank(StepVerdict(s.violations))
    ensures
      var p := policy[s.stepName];
      LevelOf(p.own).Block? && p.own.appliesTo.Everything? && p.sources == map[] ==>
        PoliciedStep(policy, recorded, scope, s) == s.(status := StepVerdict(s.violations))
  {
    DimensionRelaxes(policy[s.stepName].own, s.violations, recorded, scope);
    ScopedRelaxes(s.violations, policy[s.stepName], recorded, scope);
  }

  /** Losing the baseline never turns a policied step greener, whatever the baseline said. */
  lemma MissingBaselineIsStrictest(policy: Policy, recorded: seq<Violation>, scope: Scope, s: StepResult)
    requires Reaches(policy, s)
    ensures Rank(PoliciedStep(policy, Some(recorded), scope, s).status)
         <= Rank(PoliciedStep(policy, None, scope, s).status)
  {
    DimensionStrictest(policy[s.stepName].own, s.violations, recorded, scope);
    ScopedStrictest(policy[s.stepName], s.violations, recorded, scope);
  }

  lemma DimensionStrictest(e: Enforcement, vs: seq<Violation>, recorded: seq<Violation>, scope: Scope)
    ensures Rank(DimensionVerdict(e, vs, Some(recorded), scope)) <= Rank(DimensionVerdict(e, vs, None, scope))
  {
    DimensionMeaning(e, vs, Some(recorded), scope);
    DimensionMeaning(e, vs, None, scope);
  }

  lemma ScopedStrictest(p: DimensionPolicy, vs: seq<Violation>, recorded: seq<Violation>, scope: Scope)
    ensures Rank(ScopedVerdict(vs, p, Some(recorded), scope)) <= Rank(ScopedVerdict(vs, p, None, scope))
  {
    ScopedMeaning(vs, p, Some(recorded), scope);
    ScopedMeaning(vs, p, None, scope);
  }

  lemma PoliciedStepIdempotent(policy: Policy, recorded: Recorded, scope: Scope, s: StepResult)
    ensures PoliciedStep(policy, recorded, scope, PoliciedStep(policy, recorded, scope, s))
         == PoliciedStep(policy, recorded, scope, s)
    ensures PoliciedStep(policy, recorded, scope, s).stepName == s.stepName
    ensures PoliciedStep(policy, recorded, scope, s).configErr == s.configErr
  {
    if !s.stepName.BaselineComparison? && Reaches(policy, s) {
      JudgedTwice(s, policy[s.stepName].own, recorded, scope);
      SortedTwice(s, policy[s.stepName], recorded, scope);
    }
  }

  lemma JudgedTwice(s: StepResult, e: Enforcement, recorded: Recorded, scope: Scope)
    ensures DimensionStep(DimensionStep(s, e, recorded, scope), e, recorded, scope)
         == DimensionStep(s, e, recorded, scope)
    ensures DimensionStep(s, e, recorded, scope).stepName == s.stepName
    ensures DimensionStep(s, e, recorded, scope).configErr == s.configErr
  {
  }

  lemma SortedTwice(s: StepResult, p: DimensionPolicy, recorded: Recorded, scope: Scope)
    ensures ScopedStep(ScopedStep(s, p, recorded, scope), p, recorded, scope) == ScopedStep(s, p, recorded, scope)
    ensures ScopedStep(s, p, recorded, scope).stepName == s.stepName
    ensures ScopedStep(s, p, recorded, scope).configErr == s.configErr
  {
  }

  /** Applying the policy twice is applying it once; steps keep their number, order and names. */
  lemma PolicyIdempotent(steps: seq<StepResult>, recorded: Recorded, policy: Policy, scope: Scope)
    ensures var once := Policied(steps, recorded, policy, scope);
      && Policied(once, recorded, policy, scope) == once
      && |once| == |steps|
      && forall i :: 0 <= i < |steps| ==> once[i].stepName == steps[i].stepName
  {
    forall i | 0 <= i < |steps|
      ensures policy != map[] ==>
        PoliciedStep(policy, recorded, scope, PoliciedStep(policy, recorded, scope, steps[i]))
        == PoliciedStep(policy, recorded, scope, steps[i])
      ensures PoliciedStep(policy, recorded, scope, steps[i]).stepName == steps[i].stepName
    {
      PoliciedStepIdempotent(policy, recorded, scope, steps[i]);
    }
  }
}
