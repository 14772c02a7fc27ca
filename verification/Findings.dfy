/** Findings and step results (pkg/gate/result.go). */
module Findings {
  import opened Seqs

  /** Canonical step names; a dynamically wired step is `Other`. */
  datatype StepName =
    | ArtifactValidation | TestVerification | TestSubstantiveness | CoverageThreshold
    | ContractSignature | BaselineComparison | WaiverResolution | LedgerIntegrity
    | StatusDrift | StatusDriftAdvisory | Traceability | TraceabilityAdvisory
    | PackEngines | PackLockVerification | Other(tag: string)

  /** The three dimensions whose step runs behind a capability check. */
  datatype Dimension = DimSubstantiveness | DimCoverage | DimContracts

  datatype Status = Pass | Fail | Skipped | Warning

  datatype Rule =
    | OfStep(step: StepName)
    | CoverageCollision | CoverageUnmeasured | CoverageMetricMissing | CoverageExclusion
    | CoverageBelow
    | BrokenDeclared(dim: Dimension) | DeclaredIntentUnmet(dim: Dimension) | CapabilityAbsent(dim: Dimension)
    | PackRule(id: string)

  datatype Class = NonTerminal | SuccessTerminal | RetiredTerminal

  /** A message by its template and arguments; the prose is rendering. */
  datatype Message =
    | Text(text: string)
    | SpecNotImplemented(bundle: string, citer: string, citerStatus: string)
    | PinOutdated(bundle: string, req: string, pin: string, current: string)
    | ChainOutrun(plan: string, spec: string)
    | NoCoverage(bundle: string, req: string)
    | BrokenPromise(artifact: string, status: string, cls: Class, test: string, claim: string)
    | LooksDelivered(artifact: string, status: string, cls: Class)
    | NoTarget(test: string, target: string)
    | EvidenceRefusal(eligible: nat)
    | EngineFailed(pack: string, engine: string, cause: string)
    | MetricCollision(path: string, metric: string)
    | Unmeasured(path: string)
    | MetricMissing(path: string, metric: string)
    | Excluded(path: string, metric: string, why: string)
    | Below(path: string, covered: int, total: int, metric: string, threshold: int)
    | NoClassification
    | BrokenCommand(dim: Dimension, stack: string, capability: string, detail: string)
    | CapabilityMissing(dim: Dimension, stack: string, capability: string)
    | NothingWired(dim: Dimension, stack: string, capability: string)
    | DispatchFailed(causes: seq<string>)

  datatype Gap = Uncovered | CoverageLapsed | SpecUnfinished | StalePin | ChainBroken
  datatype Remedy = AuthorSpec | RestateSupports | ImplementSpec | RePin | NewSpec | ResolveUpstream
  datatype Bump = Unstated | SameVersion | PatchBump | MinorBump | MajorBump | UnknownBump

  datatype Trace = Trace(bundle: string, maturity: string, req: string, version: string,
                         gap: Gap, remedy: Remedy, pinned: string, bump: Bump,
                         citing: string, via: string)

  /** The region component of an identity: absent, supplied by the producer, or the
      digest of the finding's own text.  Digests are taken to be injective. */
  datatype Region =
    | NoRegion
    | Given(hash: string)
    | Derived(message: Message, severity: string, pack: string)

  datatype Identity = Identity(rule: Rule, file: string, region: Region)

  datatype Violation = Violation(
    rule: Rule, file: string, message: Message, severity: string, sourcePack: string,
    projectWide: bool, gateType: string, line: int, waiverHint: string,
    trace: Option<Trace>, properties: map<string, string>,
    region: Region, identity: Option<Identity>)

  /** FixedViolations is filled by ranging over a map, so its order means nothing. */
  datatype StepResult = StepResult(
    stepName: StepName, status: Status, violations: seq<Violation>,
    newViolations: seq<Violation>, fixedViolations: multiset<Violation>,
    seededViolations: seq<Violation>, configErr: bool, nativeSandbox: bool)

  /** A violation literal that names only rule, file, message and severity. */
  function Report(rule: Rule, file: string, message: Message, severity: string): Violation {
    Violation(rule, file, message, severity, "", false, "", 0, "", None, map[], NoRegion, None)
  }

  /** A step literal that names only step, status and findings. */
  function Produced(step: StepName, status: Status, violations: seq<Violation>): StepResult {
    StepResult(step, status, violations, [], multiset{}, [], false, false)
  }

  // ---------------------------------------------------------------- severity

  function Lower(c: char): char {
    if 'A' <= c <= 'Z' then (c as int + 32) as char else c
  }

  predicate EqualFold(a: string, b: string) {
    |a| == |b| && forall i :: 0 <= i < |a| ==> Lower(a[i]) == Lower(b[i])
  }

  /** Only an explicit "warning", in any letter case, is exempt: an unset severity blocks. */
  predicate BlocksVerdict(v: Violation) {
    !EqualFold(v.severity, "warning")
  }

  const BLOCKS: Violation -> bool := v => BlocksVerdict(v)

  ghost predicate HasBlocking(vs: seq<Violation>) {
    exists v :: v in vs && BlocksVerdict(v)
  }

  method BlockingViolations(vs: seq<Violation>) returns (blocking: seq<Violation>)
    ensures blocking == Filter(BLOCKS, vs)
    ensures blocking != [] <==> HasBlocking(vs)
  {
    blocking := [];
    for i := 0 to |vs|
      invariant blocking == Filter(BLOCKS, vs[..i])
    {
      PrefixStep(vs, i);
      if BlocksVerdict(vs[i]) {
        blocking := blocking + [vs[i]];
      }
    }
    assert vs[..|vs|] == vs;
    BlockingNonempty(vs);
  }

  lemma BlockingNonempty(vs: seq<Violation>)
    ensures Filter(BLOCKS, vs) != [] <==> HasBlocking(vs)
  {
    FilterMembers(BLOCKS, vs);
    if Filter(BLOCKS, vs) != [] {
      assert Filter(BLOCKS, vs)[0] in Filter(BLOCKS, vs);
    }
  }

  /** StepVerdict */
  function StepVerdict(vs: seq<Violation>): Status {
    if vs == [] then Pass else if Filter(BLOCKS, vs) != [] then Fail else Warning
  }

  /** How hard a status presses on the exit code. */
  function Rank(s: Status): nat {
    match s case Fail => 2 case Warning => 1 case Pass => 0 case Skipped => 0
  }

  lemma StepVerdictMeaning(vs: seq<Violation>)
    ensures StepVerdict(vs) == Fail <==> HasBlocking(vs)
    ensures StepVerdict(vs) == Pass <==> vs == []
    ensures StepVerdict(vs) != Skipped
  {
    BlockingNonempty(vs);
  }

  lemma ErrorBlocks(v: Violation)
    ensures v.severity == "error" ==> BlocksVerdict(v)
    ensures v.severity == "warning" ==> !BlocksVerdict(v)
    ensures v.severity == "" ==> BlocksVerdict(v)
  {
  }

  /** Exactly the seven letters of "warning", each in either case, do not block. */
  lemma OnlyWarningIsExempt(v: Violation)
    ensures !BlocksVerdict(v) <==>
      (&& |v.severity| == 7 && v.severity[0] in "wW" && v.severity[1] in "aA" && v.severity[2] in "rR"
       && v.severity[3] in "nN" && v.severity[4] in "iI" && v.severity[5] in "nN" && v.severity[6] in "gG")
  {
    if |v.severity| == 7 {
      CasedLetter(v.severity[0], 'w', 'W');
      CasedLetter(v.severity[1], 'a', 'A');
      CasedLetter(v.severity[2], 'r', 'R');
      CasedLetter(v.severity[3], 'n', 'N');
      CasedLetter(v.severity[4], 'i', 'I');
      CasedLetter(v.severity[5], 'n', 'N');
      CasedLetter(v.severity[6], 'g', 'G');
    }
  }

  lemma CasedLetter(c: char, small: char, big: char)
    requires 'a' <= small <= 'z' && big as int == small as int - 32
    ensures Lower(c) == small <==> c in [small, big]
  {
  }

  lemma RankOrders()
    ensures Rank(Fail) > Rank(Warning) > Rank(Pass) && Rank(Pass) == Rank(Skipped)
  {
  }
}
