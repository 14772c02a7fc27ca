/** The capability check in front of the traceability dimensions (pkg/gate/traceability_polarity.go,
    cmd/backstop/gate.go). */
module Polarity {
  import opened Findings
  import Dispatch

  /** One declared toolchain entry; an empty gate type declares nothing. */
  datatype Entry = Entry(gateType: string, waived: bool)

  datatype Capability = Capability(present: bool, working: bool, packOrCommand: string, detail: string, stack: string)

  datatype PolarityClass = Proceed | Broken | Absent | Unmet

  function NameOf(dim: Dimension): string {
    match dim
    case DimSubstantiveness => "substantiveness"
    case DimCoverage => "coverage"
    case DimContracts => "contracts"
  }

  // ---------------------------------------------------------------- what is declared

  ghost predicate Declared(toolchain: seq<Entry>, dim: Dimension) {
    exists e :: e in toolchain && e.gateType == NameOf(dim)
  }

  ghost predicate DeclaredWaived(toolchain: seq<Entry>, dim: Dimension) {
    exists e :: e in toolchain && e.gateType == NameOf(dim) && e.waived
  }

  predicate Known(gateType: string) {
    gateType == NameOf(DimSubstantiveness) || gateType == NameOf(DimCoverage) || gateType == NameOf(DimContracts)
  }

  /** Some entry names a gate type that is no dimension. */
  ghost predicate Misdeclared(toolchain: seq<Entry>) {
    exists e :: e in toolchain && e.gateType != "" && !Known(e.gateType)
  }

  method DeclaredDimension(toolchain: seq<Entry>, dim: Dimension) returns (b: bool)
    ensures b <==> Declared(toolchain, dim)
  {
    for i := 0 to |toolchain|
      invariant forall j :: 0 <= j < i ==> toolchain[j].gateType != NameOf(dim)
    {
      if toolchain[i].gateType == NameOf(dim) {
        return true;
      }
    }
    return false;
  }

  method WaivedDimension(toolchain: seq<Entry>, dim: Dimension) returns (b: bool)
    ensures b <==> DeclaredWaived(toolchain, dim)
  {
    for i := 0 to |toolchain|
      invariant forall j :: 0 <= j < i ==> !(toolchain[j].gateType == NameOf(dim) && toolchain[j].waived)
    {
      if toolchain[i].gateType == NameOf(dim) && toolchain[i].waived {
        return true;
      }
    }
    return false;
  }

  method HasUnknownGateType(toolchain: seq<Entry>) returns (b: bool)
    ensures b <==> Misdeclared(toolchain)
  {
    for i := 0 to |toolchain|
      invariant forall j :: 0 <= j < i ==> toolchain[j].gateType == "" || Known(toolchain[j].gateType)
    {
      if toolchain[i].gateType == "" {
        continue;
      }
      if !Known(toolchain[i].gateType) {
        return true;
      }
    }
    return false;
  }

  // ---------------------------------------------------------------- the class of a dimension

  ghost function ClassOf(toolchain: seq<Entry>, dim: Dimension, cap: Capability): PolarityClass {
    if Misdeclared(toolchain) then Broken
    else if Declared(toolchain, dim) then if !cap.present then Unmet else if !cap.working then Broken else Proceed
    else if !cap.present then Absent
    else Proceed
  }

  /** ClassifyDimension */
  method ClassifyDimension(toolchain: seq<Entry>, dim: Dimension, cap: Capability) returns (c: PolarityClass)
    ensures c == ClassOf(toolchain, dim, cap)
  {
    var unknown := HasUnknownGateType(toolchain);
    if unknown {
      return Broken;
    }
    var declared := DeclaredDimension(toolchain, dim);
    if declared {
      if !cap.present {
        return Unmet;
      }
      if !cap.working {
        return Broken;
      }
      return Proceed;
    }
    if !cap.present {
      return Absent;
    }
    return Proceed;
  }

  // ---------------------------------------------------------------- the result of a class

  function Label(cap: Capability): string {
    if cap.packOrCommand != "" then cap.packOrCommand else "the required capability"
  }

  function StackOf(cap: Capability): string {
    if cap.stack == "" then "unspecified" else cap.stack
  }

  function DetailOf(cap: Capability): string {
    if cap.detail == "" then "the declared command failed or its output was unparseable" else cap.detail
  }

  /** PolarityStepResult */
  ghost function PolarityStep(name: StepName, dim: Dimension, c: PolarityClass, toolchain: seq<Entry>, cap: Capability)
    : StepResult
  {
    match c
    case Broken =>
      Produced(name, Fail, [Report(BrokenDeclared(dim), "",
                                   BrokenCommand(dim, StackOf(cap), Label(cap), DetailOf(cap)), "error")])
        .(configErr := true)
    case Unmet =>
      Produced(name, Fail, [Report(DeclaredIntentUnmet(dim), "",
                                   CapabilityMissing(dim, StackOf(cap), Label(cap)), "error")]).(configErr := true)
    case Absent =>
      if DeclaredWaived(toolchain, dim) then Produced(name, Pass, [])
      else Produced(name, Warning, [Report(CapabilityAbsent(dim), "",
                                           NothingWired(dim, StackOf(cap), Label(cap)), "warning")])
    case Proceed => Produced(name, Pass, [])
  }

  method PolarityStepResult(name: StepName, dim: Dimension, c: PolarityClass, toolchain: seq<Entry>, cap: Capability)
    returns (r: StepResult)
    ensures r == PolarityStep(name, dim, c, toolchain, cap)
  {
    match c {
      case Broken =>
        var v := Report(BrokenDeclared(dim), "", BrokenCommand(dim, StackOf(cap), Label(cap), DetailOf(cap)), "error");
        r := Produced(name, Fail, [v]).(configErr := true);
      case Unmet =>
        var v := Report(DeclaredIntentUnmet(dim), "", CapabilityMissing(dim, StackOf(cap), Label(cap)), "error");
        r := Produced(name, Fail, [v]).(configErr := true);
      case Absent =>
        var waived := WaivedDimension(toolchain, dim);
        if waived {
          return Produced(name, Pass, []);
        }
        var v := Report(CapabilityAbsent(dim), "", NothingWired(dim, StackOf(cap), Label(cap)), "warning");
        r := Produced(name, Warning, [v]);
      case Proceed =>
        r := Produced(name, Pass, []);
    }
  }

  // ---------------------------------------------------------------- the wrapper

  /** What the installed packs provide: a dimension is present, and works, iff an engine declares it. */
  function CapabilityFrom(provided: bool, dim: Dimension, stack: string): Capability {
    if provided
    then Capability(true, true, "the installed pack declaring a " + NameOf(dim) + " engine", "", stack)
    else Capability(false, false,
                    "a pack declaring a " + NameOf(dim) + " engine (install it: `backstop pack add`)", "", stack)
  }

  ghost function Wrapped(packs: seq<Dispatch.Manifest>, toolchain: seq<Entry>, dim: Dimension, name: StepName,
                         stack: string, delegate: StepResult): StepResult
  {
    var cap := CapabilityFrom(Dispatch.Declares(packs, NameOf(dim)), dim, stack);
    var c := ClassOf(toolchain, dim, cap);
    if c.Proceed? then delegate else PolarityStep(name, dim, c, toolchain, cap)
  }

  /** wrapTraceabilityStep; `delegate` is what the wrapped step yields when it is reached. */
  method WrapTraceabilityStep(packs: seq<Dispatch.Manifest>, toolchain: seq<Entry>, dim: Dimension, name: StepName,
                              stack: string, delegate: StepResult) returns (r: StepResult)
    ensures r == Wrapped(packs, toolchain, dim, name, stack, delegate)
  {
    var provided := Dispatch.DeclaresGateType(packs, NameOf(dim));
    var cap := CapabilityFrom(provided, dim, stack);
    var c := ClassifyDimension(toolchain, dim, cap);
    if !c.Proceed? {
      r := PolarityStepResult(name, dim, c, toolchain, cap);
      return;
    }
    return delegate;
  }

  /** The analyzer is reached iff no entry is misdeclared and a pack provides the dimension; a
      misdeclared entry, or a declared dimension nobody provides, is a config error; and an
      undeclared dimension nobody provides is never more than a warning. */
  lemma WrapperMeaning(packs: seq<Dispatch.Manifest>, toolchain: seq<Entry>, dim: Dimension, name: StepName,
                       stack: string, delegate: StepResult)
    ensures
      var r := Wrapped(packs, toolchain, dim, name, stack, delegate);
      var provided := Dispatch.Declares(packs, NameOf(dim));
      && (!Misdeclared(toolchain) && provided ==> r == delegate)
      && (Misdeclared(toolchain) || (!provided && Declared(toolchain, dim)) ==> r.configErr && r.status == Fail)
      && (!Misdeclared(toolchain) && !provided && !Declared(toolchain, dim) ==>
            !r.configErr && r.status == Warning && !HasBlocking(r.violations))
  {
    var cap := CapabilityFrom(Dispatch.Declares(packs, NameOf(dim)), dim, stack);
    WaiveNeedsDeclaration(toolchain, dim, cap);
    ResultOfClass(name, dim, ClassOf(toolchain, dim, cap), toolchain, cap);
  }

  /** How hard each class presses. */
  lemma ResultOfClass(name: StepName, dim: Dimension, c: PolarityClass, toolchain: seq<Entry>, cap: Capability)
    ensures var r := PolarityStep(name, dim, c, toolchain, cap);
      && (c.Broken? || c.Unmet? ==> r.configErr && r.status == Fail)
      && (c.Absent? ==> !r.configErr && !HasBlocking(r.violations)
                        && r.status == if DeclaredWaived(toolchain, dim) then Pass else Warning)
  {
    ErrorBlocks(Report(CapabilityAbsent(dim), "", NothingWired(dim, StackOf(cap), Label(cap)), "warning"));
  }

  /** A waived entry declares its dimension, so the advisory a waive would silence is never due. */
  lemma WaiveNeedsDeclaration(toolchain: seq<Entry>, dim: Dimension, cap: Capability)
    ensures DeclaredWaived(toolchain, dim) ==> Declared(toolchain, dim) && !ClassOf(toolchain, dim, cap).Absent?
  {
  }

  /** So through the check no waive has any effect: only what entries declare counts. */
  lemma WaivesAreIgnored(packs: seq<Dispatch.Manifest>, toolchain: seq<Entry>, toolchain': seq<Entry>, dim: Dimension,
                         name: StepName, stack: string, delegate: StepResult)
    requires |toolchain| == |toolchain'|
    requires forall i :: 0 <= i < |toolchain| ==> toolchain[i].gateType == toolchain'[i].gateType
    ensures Wrapped(packs, toolchain, dim, name, stack, delegate)
         == Wrapped(packs, toolchain', dim, name, stack, delegate)
  {
    var cap := CapabilityFrom(Dispatch.Declares(packs, NameOf(dim)), dim, stack);
    SameClass(toolchain, toolchain', dim, cap);
    WaiveNeedsDeclaration(toolchain, dim, cap);
    WaiveNeedsDeclaration(toolchain', dim, cap);
    SameResult(name, dim, ClassOf(toolchain, dim, cap), toolchain, toolchain', cap);
  }

  lemma SameClass(toolchain: seq<Entry>, toolchain': seq<Entry>, dim: Dimension, cap: Capability)
    requires |toolchain| == |toolchain'|
    requires forall i :: 0 <= i < |toolchain| ==> toolchain[i].gateType == toolchain'[i].gateType
    ensures ClassOf(toolchain, dim, cap) == ClassOf(toolchain', dim, cap)
  {
    SameDeclarations(toolchain, toolchain', dim);
    SameDeclarations(toolchain', toolchain, dim);
  }

  lemma SameResult(name: StepName, dim: Dimension, c: PolarityClass, toolchain: seq<Entry>, toolchain': seq<Entry>,
                   cap: Capability)
    requires c.Absent? ==> !DeclaredWaived(toolchain, dim) && !DeclaredWaived(toolchain', dim)
    ensures PolarityStep(name, dim, c, toolchain, cap) == PolarityStep(name, dim, c, toolchain', cap)
  {
  }

  lemma SameDeclarations(toolchain: seq<Entry>, toolchain': seq<Entry>, dim: Dimension)
    requires |toolchain| == |toolchain'|
    requires forall i :: 0 <= i < |toolchain| ==> toolchain[i].gateType == toolchain'[i].gateType
    ensures Declared(toolchain, dim) ==> Declared(toolchain', dim)
    ensures Misdeclared(toolchain) ==> Misdeclared(toolchain')
  {
    if e :| e in toolchain && e.gateType == NameOf(dim) {
      var i :| 0 <= i < |toolchain| && toolchain[i] == e;
      assert toolchain'[i] in toolchain';
    }
    if e :| e in toolchain && e.gateType != "" && !Known(e.gateType) {
      var i :| 0 <= i < |toolchain| && toolchain[i] == e;
      assert toolchain'[i] in toolchain';
    }
  }

  /** Waiving a dimension nobody provides blocks it, where saying nothing would only warn. */
  lemma WaiveBlocks(dim: Dimension, name: StepName, stack: string, delegate: StepResult)
    ensures Wrapped([], [Entry(NameOf(dim), true)], dim, name, stack, delegate).configErr
    ensures Wrapped([], [], dim, name, stack, delegate).status == Warning
  {
    var waived := [Entry(NameOf(dim), true)];
    assert waived[0] in waived;
    WrapperMeaning([], waived, dim, name, stack, delegate);
    WrapperMeaning([], [], dim, name, stack, delegate);
  }

  lemma OneFinding(v: Violation)
    ensures v.severity == "error" ==> HasBlocking([v])
    ensures v.severity == "warning" ==> !HasBlocking([v])
  {
    ErrorBlocks(v);
    assert v in [v];
  }

  /** Every result of the check fails iff it holds a blocking finding. */
  lemma PolarityIsHonest(name: StepName, dim: Dimension, c: PolarityClass, toolchain: seq<Entry>, cap: Capability)
    ensures var r := PolarityStep(name, dim, c, toolchain, cap); r.status == Fail <==> HasBlocking(r.violations)
    ensures PolarityStep(name, dim, c, toolchain, cap).stepName == name
  {
    match c {
      case Broken =>
        OneFinding(Report(BrokenDeclared(dim), "",
                          BrokenCommand(dim, StackOf(cap), Label(cap), DetailOf(cap)), "error"));
      case Unmet =>
        OneFinding(Report(DeclaredIntentUnmet(dim), "", CapabilityMissing(dim, StackOf(cap), Label(cap)), "error"));
      case Absent =>
        OneFinding(Report(CapabilityAbsent(dim), "", NothingWired(dim, StackOf(cap), Label(cap)), "warning"));
      case Proceed =>
    }
  }

  /** The dimensions by name, and that no other name is one. */
  lemma DimensionNames(gateType: string)
    ensures NameOf(DimSubstantiveness) == "substantiveness" && NameOf(DimCoverage) == "coverage"
    ensures NameOf(DimContracts) == "contracts"
    ensures Known(gateType) <==> gateType in ["substantiveness", "coverage", "contracts"]
  {
  }

  /** The whole table: a misdeclared entry breaks every dimension; a declared one breaks if it does not work
      and is unmet if it is absent; an undeclared one is absent, or goes ahead. */
  lemma ClassTable(toolchain: seq<Entry>, dim: Dimension, cap: Capability)
    ensures var c := ClassOf(toolchain, dim, cap);
      && (c == Broken <==> Misdeclared(toolchain) || (Declared(toolchain, dim) && cap.present && !cap.working))
      && (c == Unmet <==> !Misdeclared(toolchain) && Declared(toolchain, dim) && !cap.present)
      && (c == Absent <==> !Misdeclared(toolchain) && !Declared(toolchain, dim) && !cap.present)
  {
  }

  /** Each class says so under its own rule. */
  lemma RuleOfClass(name: StepName, dim: Dimension, c: PolarityClass, toolchain: seq<Entry>, cap: Capability)
    ensures var vs := PolarityStep(name, dim, c, toolchain, cap).violations;
      && (c.Broken? ==> |vs| == 1 && vs[0].rule == BrokenDeclared(dim) && vs[0].severity == "error")
      && (c.Unmet? ==> |vs| == 1 && vs[0].rule == DeclaredIntentUnmet(dim) && vs[0].severity == "error")
      && (c.Absent? ==> if DeclaredWaived(toolchain, dim) then vs == []
                        else |vs| == 1 && vs[0].rule == CapabilityAbsent(dim) && vs[0].severity == "warning")
      && (c.Proceed? ==> vs == [])
  {
  }
}
