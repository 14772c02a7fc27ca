/** The substantiveness step read off the tests and the findings: which tests are reported, which hollow
    findings survive, and when the step refuses. */
module SubstantivenessLaws {
  import opened Seqs
  import opened Paths
  import opened Findings
  import opened Scopes
  import opened Artifacts
  import opened Substantiveness
  import Dispatch

  /** A property a producer did not set reads as empty. */
  function Read(v: Violation, key: string): string {
    if key in v.properties then v.properties[key] else ""
  }

  /** Two paths that both name a file name the same one, at least by their last name. */
  predicate SamePlace(a: string, b: string) {
    a != "" && b != "" && (Clean(a) == Clean(b) || Base(Clean(a)) == Base(Clean(b)))
  }

  /** Extraction saw that test use that symbol. */
  ghost predicate Uses(findings: seq<Violation>, mt: MandatedTest, symbol: string) {
    exists v :: && v in findings && Read(v, "substantiveness_role") == "referenced-symbol"
                && SamePlace(v.file, mt.filePath) && Read(v, "func") == mt.funcName && Read(v, "symbol") == symbol
  }

  predicate InScope(scope: Scope, file: string) {
    scope.None? || scope.value.mode == All || NormalizePath(scope.value.root, file) in scope.value.fileSet
  }

  /** A test a verdict is due for: found, in scope, not about an absence, with a target package that is not
      the one it sits in. */
  predicate Due(scope: Scope, mt: MandatedTest) {
    && mt.filePath != "" && InScope(scope, mt.filePath) && !mt.isAbsence
    && mt.targetPkg != "" && Base(Dir(mt.filePath)) != mt.targetPkg
  }

  lemma DueMeaning(scope: Scope, mt: MandatedTest)
    ensures Considered(scope)(mt) && JoinEligible(mt) <==> Due(scope, mt)
  {
  }

  lemma UsesMeaning(findings: seq<Violation>, mt: MandatedTest)
    requires mt.targetPkg != ""
    ensures mt.targetPkg in Referenced(Filter(WithRole(REFERENCED), findings), mt) <==> Uses(findings, mt, mt.targetPkg)
  {
    FilterMembers(WithRole(REFERENCED), findings);
  }

  /** A verdict is due, and extraction never saw the test use its target. */
  ghost predicate Misses(findings: seq<Violation>, scope: Scope, mt: MandatedTest) {
    Due(scope, mt) && !Uses(findings, mt, mt.targetPkg)
  }

  function Miss(mt: MandatedTest): Violation {
    Report(OfStep(TestSubstantiveness), mt.filePath, NoTarget(mt.funcName, mt.targetPkg), "error")
  }

  lemma JudgedMeaning(findings: seq<Violation>, scope: Scope, mt: MandatedTest)
    requires Considered(scope)(mt)
    ensures Judged(Filter(WithRole(REFERENCED), findings))(mt) == if Misses(findings, scope, mt) then [Miss(mt)] else []
  {
    DueMeaning(scope, mt);
    if mt.targetPkg != "" { UsesMeaning(findings, mt); }
  }

  /** What the single pass reports: each test a verdict is due for, at its file, when extraction never saw
      it use its target. */
  lemma NoTargetSaid(mandated: seq<MandatedTest>, findings: seq<Violation>, scope: Scope, v: Violation)
    ensures v in SinglePass(mandated, Filter(WithRole(REFERENCED), findings), scope) <==>
      exists mt :: mt in mandated && Misses(findings, scope, mt) && v == Miss(mt)
  {
    var extraction := Filter(WithRole(REFERENCED), findings);
    var considered := Filter(Considered(scope), mandated);
    FilterMembers(Considered(scope), mandated);
    FlatMapMember(Judged(extraction), considered, v);
    forall mt | mt in considered
      ensures Judged(extraction)(mt) == if Misses(findings, scope, mt) then [Miss(mt)] else []
    {
      JudgedMeaning(findings, scope, mt);
    }
    forall mt | mt in mandated && Misses(findings, scope, mt) ensures mt in considered { DueMeaning(scope, mt); }
  }

  // ---------------------------------------------------------------- hollow findings

  /** A hollow finding as the step reports it: at its canonical file, with its own severity and line. */
  function Hollow(h: Violation): Violation {
    Report(OfStep(TestSubstantiveness), NormalizePath("", h.file), StripFuncToken(h.message), h.severity)
      .(line := h.line)
  }

  ghost predicate HollowIn(findings: seq<Violation>, v: Violation) {
    exists h :: h in findings && HollowAs(h, v)
  }

  ghost predicate HollowAs(h: Violation, v: Violation) {
    Read(h, "substantiveness_role") == "hollow" && v == Hollow(h)
  }

  lemma HollowMapped(findings: seq<Violation>, v: Violation)
    ensures v in Map(HOLLOWED, Filter(WithRole(HOLLOW), findings)) <==> HollowIn(findings, v)
  {
    MapMember(HOLLOWED, Filter(WithRole(HOLLOW), findings), v);
    FilterMembers(WithRole(HOLLOW), findings);
    forall h ensures WithRole(HOLLOW)(h) && HOLLOWED(h) == v <==> HollowAs(h, v) { HollowShape(h); }
  }

  lemma HollowShape(h: Violation)
    ensures HOLLOWED(h) == Hollow(h)
    ensures WithRole(HOLLOW)(h) <==> Read(h, "substantiveness_role") == "hollow"
  {
  }

  /** Reported as hollow are exactly the hollow findings located in scope, or nowhere. */
  lemma HollowSaid(findings: seq<Violation>, scope: Scope, v: Violation)
    ensures v in Filter(InHollowScope(scope), Map(HOLLOWED, Filter(WithRole(HOLLOW), findings))) <==>
      HollowIn(findings, v) && (v.file == "" || InScope(scope, v.file))
  {
    HollowMapped(findings, v);
    FilterMember(InHollowScope(scope), Map(HOLLOWED, Filter(WithRole(HOLLOW), findings)), v);
  }

  // ---------------------------------------------------------------- the refusal

  ghost predicate NonePlays(findings: seq<Violation>, role: string) {
    forall v :: v in findings ==> Read(v, "substantiveness_role") != role
  }

  /** The join refuses iff no finding plays either role while a verdict is due. */
  lemma RefusalMeaning(findings: seq<Violation>, mandated: seq<MandatedTest>, scope: Scope)
    ensures JoinOutcome(findings, mandated, scope).configErr <==>
      (&& NonePlays(findings, "hollow") && NonePlays(findings, "referenced-symbol")
       && exists mt :: mt in mandated && Due(scope, mt))
  {
    RefusalDiscardsNoHollow(findings, mandated, scope);
    NoneWith(findings, HOLLOW);
    NoneWith(findings, REFERENCED);
    SomeDue(mandated, scope);
  }

  lemma SomeDue(mandated: seq<MandatedTest>, scope: Scope)
    ensures (exists mt :: mt in mandated && Considered(scope)(mt) && JoinEligible(mt))
       <==> exists mt :: mt in mandated && Due(scope, mt)
  {
    if mt :| mt in mandated && Considered(scope)(mt) && JoinEligible(mt) { DueMeaning(scope, mt); }
    if mt :| mt in mandated && Due(scope, mt) { DueMeaning(scope, mt); }
  }

  lemma NoneWith(findings: seq<Violation>, role: string)
    ensures Filter(WithRole(role), findings) == [] <==> NonePlays(findings, role)
  {
    FilterMembers(WithRole(role), findings);
    if Filter(WithRole(role), findings) != [] {
      assert Filter(WithRole(role), findings)[0] in Filter(WithRole(role), findings);
    }
  }

  /** Only tests of implemented specs have any effect. */
  lemma OnlyImplementedCount(tests: seq<MandatedTest>, found: map<string, string>,
                             installed: Attempt<seq<Dispatch.Manifest>>,
                             run: Dispatch.Call -> Dispatch.RunResult, scope: Scope)
    ensures var implemented := (mt: MandatedTest) => mt.status == "implemented";
      SubstantivenessOutcome(Got(tests), found, installed, run, scope)
      == SubstantivenessOutcome(Got(Filter(implemented, tests)), found, installed, run, scope)
  {
    var implemented := (mt: MandatedTest) => mt.status == "implemented";
    FilterSame(DUE, implemented, tests);
    FilterMembers(implemented, tests);
    FilterAll(DUE, Filter(implemented, tests));
  }

  // ---------------------------------------------------------------- the text of a hollow finding

  lemma {:induction false} BeforeFirst(a: string, token: string, b: string)
    requires token != "" && forall i :: 0 <= i < |a| ==> !(token <= (a + token + b)[i..])
    ensures Before(a + token + b, token) == a
  {
    var s := a + token + b;
    if a != "" {
      assert s[0..] == s;
      assert s[1..] == a[1..] + token + b;
      forall i | 0 <= i < |a[1..]| ensures !(token <= (a[1..] + token + b)[i..]) {
        assert (a[1..] + token + b)[i..] == s[i + 1..];
      }
      BeforeFirst(a[1..], token, b);
    } else {
      assert s == token + b;
    }
  }

  lemma {:induction false} BeforeNone(s: string, token: string)
    requires token != "" && forall i :: 0 <= i < |s| ==> !(token <= s[i..])
    ensures Before(s, token) == s
  {
    if s != "" {
      assert s[0..] == s;
      forall i | 0 <= i < |s[1..]| ensures !(token <= s[1..][i..]) { assert s[1..][i..] == s[i + 1..]; }
      BeforeNone(s[1..], token);
    }
  }

  /** Cut at the first " func=", then at the first " symbol=", then free of trailing blanks. */
  lemma StrippedText(text: string)
    ensures StripFuncToken(Text(text)).Text?
    ensures var kept := StripFuncToken(Text(text)).text;
      && kept <= Before(Before(text, " func="), " symbol=")
      && (kept != "" ==> kept[|kept| - 1] !in " \t")
      && forall i :: |kept| <= i < |Before(Before(text, " func="), " symbol=")| ==>
           Before(Before(text, " func="), " symbol=")[i] in " \t"
  {
    TrimKeeps(Before(Before(text, " func="), " symbol="));
  }

  lemma {:induction false} TrimKeeps(s: string)
    ensures var kept := TrimRight(s);
      && kept <= s && (kept != "" ==> kept[|kept| - 1] !in " \t")
      && forall i :: |kept| <= i < |s| ==> s[i] in " \t"
  {
    if s != "" && (s[|s| - 1] == ' ' || s[|s| - 1] == '\t') { TrimKeeps(s[..|s| - 1]); }
  }

  // ---------------------------------------------------------------- the other returns of the step

  /** Tests that cannot be read fail the step plainly; packs that cannot be resolved, or an engine that fails,
      make it a config error that shows no finding; without a pack it passes. */
  lemma OtherReturns(extracted: Attempt<seq<MandatedTest>>, found: map<string, string>,
                     installed: Attempt<seq<Dispatch.Manifest>>, run: Dispatch.Call -> Dispatch.RunResult, scope: Scope)
    ensures var r := SubstantivenessOutcome(extracted, found, installed, run, scope);
      && (extracted.Lost? ==> r.status == Fail && !r.configErr)
      && (extracted.Got? && installed.Lost? ==> r.status == Fail && r.configErr)
      && (extracted.Got? && installed == Got([]) ==> r.status == Pass && r.violations == [])
      && (extracted.Got? && installed.Got? && Dispatch.SomeEngineFails(installed.value, run) ==>
            r.status == Fail && r.configErr && |r.violations| == 1 && r.violations[0].severity == "error")
  {
    if installed.Got? && installed.value == [] { assert Dispatch.Calls([]) == []; }
  }
}
