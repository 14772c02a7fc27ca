/** Resolved artifact records (pkg/gate/artifact_status.go) and the verdict the corpus
    classifiers share. */
module Artifacts {
  import opened Seqs
  import opened Findings

  datatype Kind = Issue | Spec | Plan | Directive | Bundle

  datatype MandatedTest = MandatedTest(funcName: string, filePath: string, specFile: string, targetPkg: string,
                                       specId: string, claimId: string, status: string, isAbsence: bool)

  datatype ReqVersion = ReqVersion(reqId: string, version: string)

  datatype Record = Record(id: string, kind: Kind, status: string, cls: Class, path: string,
                           mandated: seq<MandatedTest>, specId: string,
                           bundleName: string, bundleReqs: seq<ReqVersion>)

  predicate RetiredWord(status: string) {
    status == "replaced" || status == "canceled" || status == "deprecated" || status == "obsoleted"
  }

  function SuccessWord(kind: Kind): string {
    match kind
    case Issue => "closed"
    case Spec => "implemented"
    case Directive => "done"
    case Plan => "completed"
    case Bundle => "delivered"
  }

  /** ClassifyArtifactStatus */
  function ClassifyArtifactStatus(kind: Kind, status: string): Class {
    if RetiredWord(status) then RetiredTerminal
    else if status == SuccessWord(kind) then SuccessTerminal
    else NonTerminal
  }

  /** Each kind has exactly one success status, and no kind's success is another's. */
  lemma ClassMeaning(kind: Kind, status: string)
    ensures ClassifyArtifactStatus(kind, status) == SuccessTerminal <==> status == SuccessWord(kind)
    ensures ClassifyArtifactStatus(kind, status) == RetiredTerminal <==> RetiredWord(status)
    ensures forall other :: other != kind ==> ClassifyArtifactStatus(other, SuccessWord(kind)) == NonTerminal
  {
    forall other ensures !RetiredWord(SuccessWord(other)) {
      match other {
        case Issue => assert "closed"[0] == 'c' && "canceled"[1] == 'a' && "closed"[1] == 'l';
        case Spec =>
        case Directive =>
        case Plan =>
        case Bundle => assert "delivered"[1] == 'e' && |"delivered"| == 9;
      }
    }
    forall a, b: Kind | a != b ensures SuccessWord(a) != SuccessWord(b) {
      var x, y := SuccessWord(a), SuccessWord(b);
      assert |x| == |y| ==> x[0] != y[0];
    }
  }

  /** The vocabulary: what finishes each kind, and what retires any. */
  lemma StatusWords(status: string)
    ensures ClassifyArtifactStatus(Issue, status) == SuccessTerminal <==> status == "closed"
    ensures ClassifyArtifactStatus(Spec, status) == SuccessTerminal <==> status == "implemented"
    ensures ClassifyArtifactStatus(Directive, status) == SuccessTerminal <==> status == "done"
    ensures ClassifyArtifactStatus(Plan, status) == SuccessTerminal <==> status == "completed"
    ensures ClassifyArtifactStatus(Bundle, status) == SuccessTerminal <==> status == "delivered"
    ensures forall kind :: ClassifyArtifactStatus(kind, status) == RetiredTerminal <==>
      status in ["replaced", "canceled", "deprecated", "obsoleted"]
  {
    forall kind { ClassMeaning(kind, status); }
    ClassMeaning(Issue, status);
    ClassMeaning(Spec, status);
    ClassMeaning(Directive, status);
    ClassMeaning(Plan, status);
    ClassMeaning(Bundle, status);
  }

  // ---------------------------------------------------------------- verdict by severity

  /** driftStepResult and traceabilityStepResult: an error fails, else a warning warns. */
  ghost function VerdictOn(reports: multiset<Violation>): Status {
    if Holds(reports, "error") then Fail else if Holds(reports, "warning") then Warning else Pass
  }

  ghost predicate Holds(reports: multiset<Violation>, severity: string) {
    exists v :: v in reports && v.severity == severity
  }

  lemma HoldsIn(vs: seq<Violation>, severity: string)
    ensures Holds(multiset(vs), severity) <==> exists v :: v in vs && v.severity == severity
  {
    if v :| v in vs && v.severity == severity { assert v in multiset(vs); }
    if Holds(multiset(vs), severity) {
      var v :| v in multiset(vs) && v.severity == severity;
      assert v in vs;
    }
  }

  method SeverityStatus(vs: seq<Violation>) returns (status: Status)
    ensures status == VerdictOn(multiset(vs))
  {
    status := Pass;
    var warned := false;
    for i := 0 to |vs|
      invariant status == Pass
      invariant forall j :: 0 <= j < i ==> vs[j].severity != "error"
      invariant warned <==> exists j :: 0 <= j < i && vs[j].severity == "warning"
    {
      if vs[i].severity == "error" {
        status := Fail;
        HoldsIn(vs, "error");
        return;
      }
      if vs[i].severity == "warning" {
        warned := true;
      }
    }
    HoldsIn(vs, "error");
    HoldsIn(vs, "warning");
    if warned {
      status := Warning;
    }
  }

  function Severe(wanted: bool): Violation -> bool {
    (v: Violation) => (v.severity == "error") == wanted
  }

  /** SplitDriftResult and SplitTraceabilityResult: errors go to the policied step, the rest
      to the advisory twin. */
  method SplitResult(vs: seq<Violation>) returns (block: seq<Violation>, advisory: seq<Violation>)
    ensures block == Filter(Severe(true), vs) && advisory == Filter(Severe(false), vs)
    ensures multiset(block) + multiset(advisory) == multiset(vs)
  {
    block, advisory := [], [];
    for i := 0 to |vs|
      invariant block == Filter(Severe(true), vs[..i]) && advisory == Filter(Severe(false), vs[..i])
    {
      PrefixStep(vs, i);
      FilterSnoc(Severe(true), vs[..i], vs[i]);
      FilterSnoc(Severe(false), vs[..i], vs[i]);
      if vs[i].severity == "error" {
        block := block + [vs[i]];
      } else {
        advisory := advisory + [vs[i]];
      }
    }
    assert vs[..|vs|] == vs;
    SplitConserves(vs);
  }

  lemma {:induction false} SplitConserves(vs: seq<Violation>)
    ensures multiset(Filter(Severe(true), vs)) + multiset(Filter(Severe(false), vs)) == multiset(vs)
  {
    if vs != [] {
      var init, v := vs[..|vs| - 1], vs[|vs| - 1];
      assert vs == init + [v];
      SplitConserves(init);
      FilterSnoc(Severe(true), init, v);
      FilterSnoc(Severe(false), init, v);
      SnocCounts(init, v);
      SnocCounts(Filter(Severe(true), init), v);
      SnocCounts(Filter(Severe(false), init), v);
    }
  }

  lemma SnocCounts<T>(s: seq<T>, x: T)
    ensures multiset(s + [x]) == multiset(s) + multiset{x}
    ensures s + [] == s
  {
  }

  /** The advisory surface can never fail, and the block surface fails iff the whole does. */
  lemma SplitVerdicts(vs: seq<Violation>)
    ensures VerdictOn(multiset(Filter(Severe(false), vs))) != Fail
    ensures VerdictOn(multiset(Filter(Severe(true), vs))) == Fail <==> VerdictOn(multiset(vs)) == Fail
  {
    FilterMembers(Severe(true), vs);
    FilterMembers(Severe(false), vs);
    HoldsIn(vs, "error");
    HoldsIn(Filter(Severe(true), vs), "error");
    HoldsIn(Filter(Severe(false), vs), "error");
  }
}
