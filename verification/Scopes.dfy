/** The file scope of a gate run (pkg/gate/scope.go). */
module Scopes {
  import opened Seqs
  import opened Paths
  import opened Findings
  import Sorting

  datatype Mode = All | Diff | File

  datatype GateScope = GateScope(mode: Mode, files: seq<string>, root: string, fileSet: set<string>)

  /** No scope at all is nil in the source. */
  type Scope = Option<GateScope>

  /** What newGateScope establishes. */
  ghost predicate Valid(s: GateScope) {
    && s.files == Sorting.Sorted(s.fileSet)
    && "" !in s.fileSet
    && forall f :: f in s.fileSet ==> NormalizePath(s.root, f) == f
  }

  predicate Whole(scope: Scope) {
    scope.None? || scope.value.mode == All
  }

  /** GateScope.Contains */
  predicate Contains(scope: Scope, path: string) {
    Whole(scope) || NormalizePath(scope.value.root, path) in scope.value.fileSet
  }

  method NewGateScope(root: string, mode: Mode, files: seq<string>) returns (s: GateScope)
    ensures Valid(s) && s.mode == mode && s.root == root
    ensures s.fileSet == set f | f in files && f != "" :: NormalizePath(root, f)
    ensures mode != All ==>
      forall path :: Contains(Some(s), path) <==>
        exists f :: f in files && f != "" && NormalizePath(root, f) == NormalizePath(root, path)
  {
    var fileSet: set<string> := {};
    for i := 0 to |files|
      invariant fileSet == set f | f in files[..i] && f != "" :: NormalizePath(root, f)
    {
      PrefixStep(files, i);
      NormalizeEmpty(root, files[i]);
      var normalized := NormalizePath(root, files[i]);
      if normalized != "" {
        fileSet := fileSet + {normalized};
      }
    }
    assert files[..|files|] == files;
    var stable := Sorting.SortStrings(fileSet);
    s := GateScope(mode, stable, root, fileSet);
    forall f | f in fileSet ensures f != "" && NormalizePath(root, f) == f {
      var g :| g in files && g != "" && f == NormalizePath(root, g);
      NormalizeEmpty(root, g);
      NormalizeIdempotent(root, g);
    }
  }

  predicate Kept(scope: Scope, v: Violation) {
    Whole(scope) || v.projectWide || (v.file != "" && Contains(scope, v.file))
  }

  function KeptBy(scope: Scope): Violation -> bool {
    v => Kept(scope, v)
  }

  /** filterViolations */
  method FilterViolations(scope: Scope, vs: seq<Violation>) returns (filtered: seq<Violation>)
    ensures filtered == Filter(KeptBy(scope), vs)
  {
    if Whole(scope) {
      FilterAll(KeptBy(scope), vs);
      return vs;
    }
    filtered := [];
    for i := 0 to |vs|
      invariant filtered == Filter(KeptBy(scope), vs[..i])
    {
      PrefixStep(vs, i);
      if vs[i].projectWide {
        filtered := filtered + [vs[i]];
      } else if vs[i].file != "" && Contains(scope, vs[i].file) {
        filtered := filtered + [vs[i]];
      }
    }
    assert vs[..|vs|] == vs;
  }

  /** Membership is decided on the canonical path, so canonicalising first changes nothing. */
  lemma ContainsCanonical(scope: Scope, file: string)
    ensures Contains(scope, NormalizePath("", file)) <==> Contains(scope, file)
  {
    if !Whole(scope) { NormalizeCommutes(scope.value.root, file); }
  }

  /** The empty path is in no diff or file scope. */
  lemma ContainsNoFile(scope: Scope)
    requires scope.Some? && Valid(scope.value) && scope.value.mode != All
    ensures !Contains(scope, "")
  {
  }

  /** Every listed file of a scope is in it. */
  lemma FilesContained(s: GateScope, f: string)
    requires Valid(s)
    ensures f in s.files <==> f in s.fileSet
    ensures f in s.files ==> Contains(Some(s), f)
  {
  }

  /** What a scope made from named files keeps: project-wide findings, and those located in a file
      some named one is; no scope and a whole-tree scope keep everything. */
  lemma KeptByNamedFiles(s: GateScope, files: seq<string>, vs: seq<Violation>, v: Violation)
    requires s.fileSet == set f | f in files && f != "" :: NormalizePath(s.root, f)
    ensures v in Filter(KeptBy(None), vs) <==> v in vs
    ensures v in Filter(KeptBy(Some(s)), vs) <==>
      (&& v in vs
       && (|| s.mode == All || v.projectWide
           || (v.file != "" && exists f :: f in files && f != ""
                                       && NormalizePath(s.root, f) == NormalizePath(s.root, v.file))))
  {
    FilterMember(KeptBy(None), vs, v);
    FilterMember(KeptBy(Some(s)), vs, v);
  }
}
