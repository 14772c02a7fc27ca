/** The ratchet read off a single finding: what its identity is made of, whether it is grandfathered,
    new or seeded, and what is reported fixed and stored. */
module BaselineLaws {
  import opened Seqs
  import opened Paths
  import opened Findings
  import opened Scopes
  import opened Baseline

  // ---------------------------------------------------------------- identity

  /** A finding that brings its own region is identified by rule, canonical file and that region, and
      never confused with one that brings none. */
  lemma IdentityWithRegion(v: Violation, w: Violation)
    requires v.region.Given?
    ensures IdOf(v) == IdOf(w) <==>
      v.rule == w.rule && NormalizePath("", v.file) == NormalizePath("", w.file) && v.region == w.region
  {
  }

  /** Enriching makes the file canonical and fills in region and identity; nothing else moves. */
  lemma EnrichMoves(v: Violation)
    ensures Enrich(v) == v.(file := NormalizePath("", v.file), region := Enrich(v).region, identity := Some(IdOf(v)))
    ensures Enrich(v).region ==
      if v.region == NoRegion then Derived(v.message, v.severity, v.sourcePack) else v.region
    ensures IdOf(v) == Identity(v.rule, NormalizePath("", v.file), Enrich(v).region)
  {
  }

  /** Equal identities name the same file up to canonical form. */
  lemma SameIdentitySameFile(v: Violation, w: Violation)
    requires IdOf(v) == IdOf(w)
    ensures NormalizePath("", v.file) == NormalizePath("", w.file)
  {
  }

  // ---------------------------------------------------------------- new, seeded, grandfathered

  lemma EnrichedIn(p: Violation -> bool, vs: seq<Violation>, v: Violation)
    requires v in vs && forall w :: w in vs && Enrich(w) == Enrich(v) ==> p(w) == p(v)
    ensures Enrich(v) in Map(ENRICH, Filter(p, vs)) <==> p(v)
  {
    var kept := Filter(p, vs);
    FilterMembers(p, vs);
    if Enrich(v) in Map(ENRICH, kept) {
      var i :| 0 <= i < |kept| && Map(ENRICH, kept)[i] == Enrich(v);
      assert kept[i] in kept;
    }
    if p(v) {
      var i :| 0 <= i < |kept| && kept[i] == v;
      assert Map(ENRICH, kept)[i] == Enrich(v);
    }
  }

  /** What a run asks about each finding. */
  ghost predicate Asked(o: CompareOptions) {
    o.scope.Some? && o.scope.value.mode == All && o.seeding
  }

  /** In a whole-tree run an unrecorded finding is reported new unless seeding is on and takes it for
      existing code: no changed files are given, or its file is a named one that did not change.  A
      recorded one is neither. */
  lemma WholeTreeFinding(current: seq<Violation>, recorded: seq<Violation>, o: CompareOptions, v: Violation)
    requires Whole(o.scope) && v in current
    ensures
      var c, known := Compared(current, Some(recorded), o), IdOf(v) in Ids(recorded);
      var existing := o.changed == {} || (v.file != "" && NormalizePath("", v.file) !in o.changed);
      && (Enrich(v) in c.newViolations <==> !known && !(Asked(o) && existing))
      && (Enrich(v) in c.seededViolations <==> !known && Asked(o) && existing)
  {
    NormalizeEmpty("", v.file);
    forall w | w in current && Enrich(w) == Enrich(v)
      ensures NewIn(Ids(recorded), o)(w) == NewIn(Ids(recorded), o)(v)
      ensures SeededIn(Ids(recorded), o)(w) == SeededIn(Ids(recorded), o)(v)
    {
      assert IdOf(w) == IdOf(v);
      SeedableByIdentity(o, v, w);
    }
    EnrichedIn(NewIn(Ids(recorded), o), current, v);
    EnrichedIn(SeededIn(Ids(recorded), o), current, v);
  }

  /** Without seeding, or without a scope that says whole tree, nothing is seeded. */
  lemma NothingSeeded(current: seq<Violation>, recorded: seq<Violation>, o: CompareOptions)
    requires !Asked(o)
    ensures SeededOf(current, recorded, o) == []
  {
    FilterNothing(SeededIn(Ids(recorded), o), current);
  }

  /** In a diff or file scope: a finding is reported new iff it is kept by the scope and it is
      unrecorded, or its file is one the scope names. */
  lemma ScopedFinding(current: seq<Violation>, recorded: seq<Violation>, o: CompareOptions, v: Violation)
    requires o.scope.Some? && o.scope.value.mode != All && v in current
    ensures
      var s := o.scope.value;
      var named := NormalizePath(s.root, v.file) in s.fileSet;
      Enrich(v) in NewOf(current, recorded, o) <==>
        (v.projectWide || (v.file != "" && named)) && (IdOf(v) !in Ids(recorded) || named)
  {
    forall w | w in current && Enrich(w) == Enrich(v) ensures NewIn(Ids(recorded), o)(w) == NewIn(Ids(recorded), o)(v) {
      assert IdOf(w) == IdOf(v) && Enrich(w).projectWide == Enrich(v).projectWide;
      SameIdentitySameFile(v, w);
      NormalizeCommutes(o.scope.value.root, v.file);
      NormalizeCommutes(o.scope.value.root, w.file);
      NormalizeEmpty("", v.file);
      NormalizeEmpty("", w.file);
    }
    EnrichedIn(NewIn(Ids(recorded), o), current, v);
  }

  // ---------------------------------------------------------------- fixed

  /** The last recorded finding that carries an identity stands for it. */
  ghost predicate LastRecorded(recorded: seq<Violation>, v: Violation) {
    exists i :: 0 <= i < |recorded| && recorded[i] == v
             && forall j :: i < j < |recorded| ==> IdOf(recorded[j]) != IdOf(v)
  }

  lemma {:induction false} IndexHoldsLast(recorded: seq<Violation>, v: Violation)
    requires LastRecorded(recorded, v)
    ensures IdOf(v) in Index(recorded) && Index(recorded)[IdOf(v)] == Enrich(v)
  {
    var i :| 0 <= i < |recorded| && recorded[i] == v && forall j :: i < j < |recorded| ==> IdOf(recorded[j]) != IdOf(v);
    if i < |recorded| - 1 {
      var init := recorded[..|recorded| - 1];
      assert init[i] == v && forall j :: i < j < |init| ==> IdOf(init[j]) != IdOf(v);
      IndexHoldsLast(init, v);
    }
  }

  /** A recorded finding is reported fixed iff the scope looks at its file and no finding the scope
      keeps carries its identity. */
  lemma FixedMeaning(current: seq<Violation>, recorded: seq<Violation>, scope: Scope, v: Violation)
    requires LastRecorded(recorded, v)
    ensures Enrich(v) in FixedSet(current, recorded, scope) <==>
      (&& (|| scope.None? || scope.value.mode == All
           || (v.file != "" && NormalizePath(scope.value.root, v.file) in scope.value.fileSet))
       && forall w :: w in current && Kept(scope, w) ==> IdOf(w) != IdOf(v))
  {
    IndexHoldsLast(recorded, v);
    FilterMembers(KeptBy(scope), current);
    NormalizeEmpty("", v.file);
    ContainsCanonical(scope, v.file);
    EnrichIdempotent(v);
    var index := Index(recorded);
    forall id | id in index && index[id] == Enrich(v) ensures id == IdOf(v) {
      IndexEntry(recorded, id);
    }
  }

  // ---------------------------------------------------------------- what a baseline is made of

  /** Findings of every step count towards a baseline, but those of the three bookkeeping steps. */
  lemma AccumulatedMeaning(steps: seq<StepResult>, v: Violation)
    ensures v in Accumulated(steps) <==>
      exists s :: s in steps && v in s.violations
               && s.stepName !in [BaselineComparison, WaiverResolution, LedgerIntegrity]
  {
    FlatMapMember(CONTRIBUTION, steps, v);
  }

  /** A stored finding has lost its reach, gate, line and hint, and is otherwise the enriched one. */
  lemma StoredFields(v: Violation)
    ensures Stored(v) == Enrich(v).(projectWide := false, gateType := "", line := 0, waiverHint := "")
  {
    NormalizeIdempotent("", v.file);
  }
}
