# The gate's verdict engine, modelled and proved in Dafny

Backstop's gate runs an ordered chain of checks, lets inline waivers subtract findings, compares
what is left with a stored baseline, applies a per-dimension policy and turns all of it into one
exit code: 0 green, 1 failures, 2 configuration error. This project models that engine and proves
what it promises over every input, every run and every pair of runs.

How the modules follow the program:

| module | what it holds |
|---|---|
| `Seqs`, `Sorting` | order-preserving list operations, permutations, sorted listings of a set |
| `Paths`, `Scopes` | path cleaning and relativising on real path text, scope membership, the scope filter |
| `Findings` | violations, step results, severity, the step verdict |
| `Baseline`, `BaselineLaws` | identity, the ratchet, generating, storing and reloading a baseline; what happens to one finding |
| `Policies`, `PolicyLaws`, `PolicyLevels` | the dimension-only and the per-source policy path, their laws, and what each level means |
| `Waivers`, `WaiverLaws`, `Gates` | the in-place waiver pass, what it removes, the run loop (class `Gate`), the result summary |
| `GateLaws`, `SeverityLaws` | laws of one whole run: where it stops, what it exits with, when warnings fail it |
| `TwoRuns`, `EarlyBaselines` | two runs that differ in what is waived, and why the waiver step comes first |
| `ShippedRuns` | the chain the command line assembles, its producers' contracts, the run laws on it |
| `Artifacts`, `Versions`, `Traceability`, `TraceabilityLaws`, `TraceabilityRecords` | the requirement-traceability classifier, and its verdict and reports on the records |
| `Drift`, `StatusDrift` | plan derivation, the present-name set, status drift |
| `Polarity` | the capability check in front of the traceability dimensions |
| `Substantiveness`, `SubstantivenessLaws` | the two-pass no-target join and its refusal, test by test |
| `Dispatch` | pack-engine dispatch that continues past failures |
| `Coverage`, `CoverageLaws`, `CoverageSpecs` | the coverage step, its exact verdict, its indifference to record order, and the verdict on the specs |

Every loop of the source is a method with a loop, proved equal to a specification function; the
laws are lemmas about those functions. The decision tables behind them are stated a second time on the
raw inputs, without naming the functions that compute them (`PolicyLevels`, `BaselineLaws`, `WaiverLaws`,
`TraceabilityRecords`, `CoverageSpecs`, `SubstantivenessLaws`). `Gate` is a class because the source's gate rewrites its
accumulated results and its active waivers while it runs. What the source collects by ranging over
a Go map has no order, and is a multiset here (fixed findings, requirement gaps).

How values are represented: a finding's identity is the tuple (rule, canonical file, region), with
digests taken to be injective and fields trimmed and free of the joining `|`. Paths are strings,
cleaned and relativised by a concrete definition of the library functions on a slash-separated file
system. Messages are a template with its arguments; the prose is rendering. Step names, rules,
statuses, gaps, remedies and bumps are datatypes; severity is text, compared without regard to
letter case. Integers are unbounded; coverage counts are non-negative.

Where a promise does not hold of the code as it stands, the code is followed, an input is exhibited
and the exact condition is proved:

- The baseline comparison fails on any new finding whatever its severity, so a run of warnings can
  fail: `SeverityLaws.WarningOnlyRunFails`. When nothing blocks, a run exits 1 iff no policy is set and
  a baseline step meets a standing finding that is new (`SeverityLaws.NonBlockingExit`; in the shipped
  order, read off the produced steps, `ShippedRuns.ShippedQuietExit`).
- A waived step is not always left at the verdict on what remains: a warning step waived empty keeps its
  warning (`Waivers.WaivedWarningStaysWarning`). `Waivers.WaivedStatusExact` says when it is.
- The per-source policy decides "net-new" by identity over the whole step, the dimension-only policy
  finding by finding. They disagree on a pack that reports one fingerprint as a project-wide warning and
  as an error outside the scope (`PolicyLaws.SharedIdentityBreaksRefinement`); `PolicyLaws.RefinementExact`
  gives the exact condition on a step's findings, which pairwise distinct identities satisfy.
- Waiver non-interference needs the waiver step ahead of a baseline step that can decide the exit code:
  no policy set, a baseline enabled and loaded, and not a whole-tree run that seeds everything (seeding on,
  no changed files given). With the two swapped a waived finding decides
  (`EarlyBaselines.EarlyBaselineInterferes`); outside that configuration, and only there, the order is
  immaterial (`EarlyBaselines.OrderMattersExactly`).
- A step's config-error flag halts a run only where the run loop still sees it: waiver and baseline
  placeholders are replaced first, so a flagged one can exit 0 (`GateLaws.FlaggedPlaceholderPasses`).
  `GateLaws.FlagDecidesExit` says when exit 2 and a flagged step coincide.
- The coverage step without a scope dereferences it at its first report. One uncovered line under a
  threshold brings no result back (`CoverageLaws.UnscopedShortfall`); this happens iff a slot is measured
  twice or a record is below the strictest threshold of its metric (`CoverageLaws.UnscopedReturnsIffClean`).
- A waived toolchain entry is meant to silence the advisory about an absent capability, but any entry
  declares its dimension, so waiving blocks where saying nothing would warn (`Polarity.WaiveBlocks`), and
  the waived flag never matters (`Polarity.WaivesAreIgnored`).

## Model

| member | source | states |
|---|---|---|
| `Paths.CleanIdempotent` | pkg/gate/scope.go:206-217 | cleaning a path twice is cleaning it once, for every string |
| `Paths.NormalizeCommutes` | pkg/gate/scope.go:198-217 | canonicalising without a root and then against a root is canonicalising against the root: the identity path and the scope path of a file agree |
| `Paths.NormalizeIdempotent` | pkg/gate/scope.go:198-217 | a normalised path is a fixed point of normalising, with its root and without any |
| `Paths.NormalizeEmpty` | pkg/gate/scope.go:206-217 | only the empty path normalises to the empty path |
| `Paths.RelativeResolves` | pkg/gate/scope.go:206-217 | the relative form, resolved against the root, names the absolute file it came from |
| `Paths.NormalizeInjective` | pkg/gate/scope.go:206-217 | under one root, two absolute files share a normal form iff they clean to the same path |
| `Paths.DirAndBase` | pkg/gate/substantiveness_join.go:375-384 | the directory and last name of a path, of a bare name, and of a path with a trailing slash |
| `Sorting.SortStrings` | pkg/gate/scope.go:183-196 | the sorted listing of a set: every member once, in increasing order |
| `Sorting.ListingUnique` | pkg/gate/step_coverage.go:411-418 | a set has one increasing listing, so the order in which a map was ranged over cannot show |
| `Sorting.LessMeaning` | pkg/gate/scope.go:183-196 | the listing order is by the first differing character, shorter first |
| `Scopes.NewGateScope` | pkg/gate/scope.go:183-196 | the file set is the normal forms of the named files, sorted and without the empty path; a diff scope contains a path iff some named file has the same normal form |
| `Scopes.FilterViolations` | pkg/gate/scope.go:302-326 | keeps, in order, exactly the project-wide findings and those located in a scoped file; a whole-tree or absent scope keeps all |
| `Scopes.ContainsCanonical` | pkg/gate/scope.go:171-177 | membership does not change when the path is canonicalised first |
| `Scopes.ContainsNoFile` | pkg/gate/scope.go:171-177 | the empty path is in no diff or file scope |
| `Scopes.FilesContained` | pkg/gate/scope.go:171-196 | listed files and the membership set agree |
| `Scopes.KeptByNamedFiles` | pkg/gate/scope.go:302-326 | a scope made from named files keeps a finding iff it is project-wide or located in a file some named one is; no scope and whole tree keep all |
| `Findings.BlockingViolations` | pkg/gate/policy.go:87-95 | the blocking findings in order; some exist iff some finding is not a warning |
| `Findings.ErrorBlocks` | pkg/gate/policy.go:80-82 | an error and an unset severity block, a warning does not |
| `Findings.OnlyWarningIsExempt` | pkg/gate/policy.go:80-82 | exactly the seven letters of "warning", each in either case, do not block |
| `Findings.StepVerdictMeaning` | pkg/gate/policy.go:125-133 | fail iff a blocking finding is present, pass iff there is no finding |
| `Baseline.EnrichIdempotent` | pkg/gate/baseline.go:203-224 | enriching an enriched finding changes nothing, so its identity is stable |
| `Baseline.IdentityIgnoresPresentation` | pkg/gate/baseline.go:203-224 | without a given region, identities agree iff rule, canonical file, message, severity and pack agree: line, hint, routing and payload never matter |
| `BaselineLaws.IdentityWithRegion` | pkg/gate/baseline.go:203-224 | with a given region, identities agree iff rule, canonical file and region agree |
| `BaselineLaws.EnrichMoves` | pkg/gate/baseline.go:203-224 | enriching makes the file canonical, fills region and identity, and moves nothing else |
| `Baseline.CompareBaseline` | pkg/gate/baseline.go:115-175 | new, fixed and seeded are the set differences of the ratchet; without a baseline all three are empty |
| `Baseline.BuildBaselineSet` | pkg/gate/baseline.go:123-127 | one recorded finding per identity, the last one winning |
| `Baseline.SortCurrent` | pkg/gate/baseline.go:128-154 | every in-scope finding is grandfathered, seeded or new, in order, and its identity is remembered |
| `Baseline.CollectFixed` | pkg/gate/baseline.go:155-164 | exactly the recorded findings in view whose identity no current finding carries, each once, whatever the map order |
| `Baseline.RatchetClosedForm` | pkg/gate/baseline.go:115-189 | in a diff or file scope the new set is the scope-filtered findings minus those that are project-wide, recorded and on an untouched file; nothing is seeded |
| `BaselineLaws.ScopedFinding` | pkg/gate/baseline.go:128-189 | in a diff or file scope one finding is new iff it is project-wide or located in a named file, and it is unrecorded or its file is named |
| `BaselineLaws.WholeTreeFinding` | pkg/gate/baseline.go:128-201 | in a whole-tree run an unrecorded finding is new unless seeding is on and either no changed files are given or its file is not one of them; then it is seeded; a recorded one is neither |
| `BaselineLaws.NothingSeeded` | pkg/gate/baseline.go:145-152 | nothing is seeded with seeding off or without a whole-tree scope |
| `Baseline.WholeRunPartition` | pkg/gate/baseline.go:115-175 | in a whole-tree run the identities of baseline and current split disjointly into grandfathered, fixed, new and seeded, and fixed is recorded minus current |
| `Baseline.FixedIsSound` | pkg/gate/baseline.go:119-164 | an identity reported fixed is carried by no current finding, not even one the scope filter dropped |
| `BaselineLaws.FixedMeaning` | pkg/gate/baseline.go:155-164 | the last recorded finding of an identity is reported fixed iff the scope looks at its file and no kept finding carries that identity |
| `Baseline.LargerBaselineOnlyForgives` | pkg/gate/baseline.go:128-154 | a larger baseline never adds a new finding |
| `Baseline.LargerDiffOnlyReveals` | pkg/gate/baseline.go:115-189 | naming more files in a diff never removes a new finding |
| `Baseline.SomethingCanBeNew` | pkg/gate/baseline.go:128-201 | some finding would be new against a baseline iff the run is not a whole-tree one that seeds with no changed files |
| `Baseline.AccumulatedViolations` | pkg/gate/gate.go:214-226 | the findings of all steps but the three meta steps, in order |
| `BaselineLaws.AccumulatedMeaning` | pkg/gate/gate.go:214-226 | a finding counts towards a baseline iff some step outside the three bookkeeping ones holds it |
| `Baseline.NewBaselineArtifactFromSteps` | pkg/gate/baseline.go:29-53 | the findings are the accumulated ones, enriched; each contributing step is counted once, by its last occurrence, in total and per rule; provenance is kept |
| `Baseline.StoringKeepsIdentity` | pkg/gate/baseline.go:67-113 | writing and reloading drops fields but never moves an identity, and is idempotent |
| `BaselineLaws.StoredFields` | pkg/gate/baseline.go:67-113 | a stored finding is the enriched one without reach, gate, line and hint |
| `Baseline.SelfBaselineRoundTrip` | pkg/gate/baseline.go:29-113 | a run compared with the baseline it generated, written and reloaded, has nothing new, seeded or fixed |
| `Policies.ApplyPolicy` | pkg/gate/policy.go:174-249 | every step rewritten on its own: baseline silenced, unreached steps untouched, off skipped, the rest judged by their path; an empty policy changes nothing |
| `Policies.JudgeDimension` | pkg/gate/policy.go:206-246 | the verdict at the dimension's level over what counts, with new and fixed recorded when new code is judged against a baseline |
| `Policies.ApplyScopedPolicy` | pkg/gate/policy.go:268-321 | the verdict over findings sorted by each source's own enforcement |
| `Policies.SortByLevel` | pkg/gate/policy.go:278-309 | the blocking findings in order and the number warned, by effective level, applies-to and severity |
| `PolicyLevels.UntouchedStays` | pkg/gate/policy.go:137-191 | a step without an entry, a meta step, a config error and a skipped step stay as they are; the baseline step is silenced |
| `PolicyLevels.LevelWithoutOverrides` | pkg/gate/policy.go:193-246 | off skips the step; warn never fails and warns iff something counts; block, and no level at all, fail iff something that counts blocks, else warn iff something counts |
| `PolicyLevels.LevelsWithOverrides` | pkg/gate/policy.go:268-321 | the blocking findings shown are exactly those whose own source neither warns nor is off, that count there and whose severity blocks; the step fails iff there is one, else warns iff something counts |
| `PolicyLevels.QuietSourcesNeverBlock` | pkg/gate/policy.go:285-309 | a finding whose own source says warn or off is never among the blocking ones |
| `PolicyLevels.ListsUnderPolicy` | pkg/gate/policy.go:217-321 | unless it is off a policied step keeps its findings; its new and fixed lists are those of the comparison when new code is judged against a baseline |
| `PolicyLaws.NetNewByIdentity` | pkg/gate/policy.go:278-303 | whether a finding is net-new depends only on its identity and its reach |
| `PolicyLaws.ScopedRefinesDimension` | pkg/gate/policy.go:268-321 | the per-source verdict is the strictest of the verdicts the dimension-only path gives each source's findings alone under its own policy |
| `PolicyLaws.DistinctIsSpokenFor` | pkg/gate/policy.go:278-303 | pairwise distinct identities meet the condition of that refinement |
| `PolicyLaws.RefinementExact` | pkg/gate/policy.go:206-321 | the two paths agree under every policy with overrides, every baseline and every scope iff each finding that shares its identity with a project-wide one is matched, in its own source and at its own severity, by a project-wide one |
| `PolicyLaws.SharedIdentityBreaksRefinement` | pkg/gate/policy.go:268-303 | one pack, one fingerprint, a project-wide warning and a scoped-out error: per-source fails, the strictest dimension verdict is warning |
| `PolicyLaws.OverridesAreIndependent` | pkg/gate/policy.go:285-309 | changing one source's override never changes which findings of the others block |
| `PolicyLaws.PolicyOnlyRelaxes` | pkg/gate/policy.go:174-321 | a policied step never ends stricter than the verdict on all it reported; block on all code without overrides is that verdict |
| `PolicyLaws.MissingBaselineIsStrictest` | pkg/gate/policy.go:217-303 | a policied step without a baseline is at least as strict as with any baseline |
| `PolicyLaws.PolicyIdempotent` | pkg/gate/policy.go:174-249 | applying the policy twice is applying it once; number, order and names of steps stay |
| `Waivers.CollectFindings` | pkg/gate/step_waiver.go:98-111 | adjudication sees exactly the findings of the waivable surface, coverage ones at the annotation line |
| `Waivers.CollectSuppressions` | pkg/gate/step_waiver.go:115-118 | the keys of all suppressed findings |
| `Waivers.SubtractFrom` | pkg/gate/step_waiver.go:122-157 | drops the suppressed findings of one step, hints the rest in order, and rewrites a fail only |
| `Waivers.CollectDiagnostics` | pkg/gate/step_waiver.go:171-180 | malformed and non-waivable tokens become errors, unbound ones warnings, in that order |
| `Waivers.WaivingStaysHonest` | pkg/gate/step_waiver.go:120-157 | a step that fails iff it holds a blocking finding still does after waiving, and on the surface it fails iff a blocking finding remains |
| `Waivers.WaivedStatusExact` | pkg/gate/step_waiver.go:146-157 | a step that starts at the verdict on its findings ends at the verdict on what remains, except exactly when a warning step is waived empty or a config error is reduced to warnings |
| `Waivers.WaivedWarningStaysWarning` | pkg/gate/step_waiver.go:146-157 | every single waived warning leaves its step warning with nothing to show |
| `WaiverLaws.OfferedMeaning` | pkg/gate/step_waiver.go:98-111 | adjudication is offered pack and substantiveness findings at their lines, coverage findings at line 1, and nothing else |
| `WaiverLaws.RemainsExactly` | pkg/gate/step_waiver.go:115-142 | a pack or substantiveness finding remains iff nothing suppressed has its file, line and rule; a coverage finding iff nothing suppressed has its file, its rule and line 1 |
| `WaiverLaws.HintsGiven` | pkg/gate/step_waiver.go:134-142 | what remains carries the pre-filled token, when there is one |
| `WaiverLaws.NothingInvented` | pkg/gate/step_waiver.go:131-142 | whatever a step reports after the pass it reported before, up to its hint |
| `WaiverLaws.OthersUntouched` | pkg/gate/step_waiver.go:122-130 | every other step is left exactly as it was |
| `WaiverLaws.FailsIffUnsuppressed` | pkg/gate/step_waiver.go:146-157 | a step that failed on its blocking findings fails afterwards iff one of them was not suppressed |
| `WaiverLaws.DiagnosticsMeaning` | pkg/gate/step_waiver.go:171-211 | malformed and non-waivable tokens are reported as errors and unbound ones as warnings, each where it stands |
| `WaiverLaws.WaiverStepFails` | pkg/gate/step_waiver.go:171-190 | the waiver step fails iff a token is malformed or non-waivable, and passes iff there is nothing to say |
| `Gates.Gate.ComputeWaiverResult` | pkg/gate/step_waiver.go:93-190 | rewrites every accumulated result in place, keeps the active waivers, and yields the waiver step |
| `Gates.Gate.SubtractAll` | pkg/gate/step_waiver.go:122-157 | every accumulated step is rewritten in place by its own subtraction |
| `Gates.Gate.ComputeBaselineResult` | pkg/gate/gate.go:186-212 | skipped without a baseline, else pass iff nothing is new, carrying the comparison |
| `GateLaws.BaselineStepMeaning` | pkg/gate/gate.go:186-212 | skipped without a baseline; else the comparison of everything accumulated, under the run's own scope, seeding and changed files, failing iff something is new |
| `Gates.Gate.RunStep` | pkg/gate/gate.go:151-171 | one turn of the loop: waiver and baseline steps are replaced, the result is appended, a config error halts |
| `Gates.Gate.RunSteps` | pkg/gate/gate.go:148-171 | the loop computes the fold of those turns and stops at the first halt |
| `Gates.Gate.Run` | pkg/gate/gate.go:136-184 | the result and exit code of a whole run, from configuration, active waivers and produced steps |
| `Gates.HaltedStays` | pkg/gate/gate.go:166-170 | nothing after a halt changes the run |
| `Gates.TallyBySeverity` | pkg/gate/result.go:229-238 | counts blocking and warning findings; together they are all of them |
| `Gates.NewGateResult` | pkg/gate/result.go:250-309 | passes iff no step fails, counts steps by status and findings by severity, carries the scope, is sandboxed iff a step is, and enriches all four finding lists |
| `GateLaws.ChainStops` | pkg/gate/gate.go:148-171 | the chain holds exactly the prefix through the first halting step, names kept, that step untouched |
| `GateLaws.RunShowsPrefix` | pkg/gate/gate.go:136-184 | the result shows exactly the steps through the first halting one, under their own names |
| `GateLaws.RunExit` | pkg/gate/gate.go:136-184 | exit 2 iff some step halts, else 1 iff a final step fails, else 0 |
| `GateLaws.FlagDecidesExit` | pkg/gate/gate.go:151-171 | exit 2 and some produced step being flagged a config error coincide, except exactly when some are flagged and each of them is a placeholder the run replaces |
| `GateLaws.FlaggedPlaceholderPasses` | pkg/gate/gate.go:162-164 | a flagged baseline placeholder with no baseline loaded exits 0 |
| `GateLaws.RunTotals` | pkg/gate/result.go:229-309 | blocking plus warning totals are all reported findings |
| `GateLaws.CountersMean` | pkg/gate/result.go:229-309 | each counter is the number of steps of its status, or of findings that block or do not |
| `GateLaws.ReportedMeaning` | pkg/gate/result.go:250-309 | reported is what some step holds |
| `GateLaws.ShownSteps` | pkg/gate/result.go:250-309 | a shown step keeps name, status and flags and shows each finding enriched, in its own list and place |
| `GateLaws.HaltingStepKept` | pkg/gate/policy.go:187-191 | the step that halted keeps its findings, unwaived and ungrandfathered |
| `GateLaws.FixedShownAsIs` | pkg/gate/result.go:277-279 | enriching a comparison's fixed findings for display changes nothing |
| `SeverityLaws.NonBlockingExit` | pkg/gate/gate.go:136-212 | if no step and no waiver diagnostic of the run blocks and nothing is a config error, the run exits 1 iff no policy is set and some baseline step meets a standing finding that is new, else 0 |
| `SeverityLaws.NonBlockingNeverFails` | pkg/gate/gate.go:136-212 | so with a policy, or without a loaded and enabled baseline, such a run exits 0 |
| `SeverityLaws.WarningOnlyRunFails` | pkg/gate/gate.go:198-211 | an empty baseline, no policy and one warning: exit 1, with no blocking step or diagnostic |
| `TwoRuns.PolicyMonotone` | pkg/gate/policy.go:174-321 | a step holding fewer findings is never failed by a policy that lets the larger one through |
| `TwoRuns.WaivingMoreNeverHurts` | pkg/gate/step_waiver.go:93-190 | leaving less standing never exits worse, for every baseline, policy and scope; a baseline step that can decide the exit code is to come after the waiver step |
| `TwoRuns.WaiverNonInterference` | pkg/gate/step_waiver.go:93-190 | two runs that leave the same set of findings standing and report the same set of waiver diagnostics return the same exit code, for every baseline, policy and scope; same premise on the order |
| `EarlyBaselines.EarlyBaselineInterferes` | cmd/backstop/gate.go:1085-1091 | with a baseline loaded, no policy and the baseline step first, for every new finding: a run that waives it exits 1 and a run without it, leaving the same, exits 0 |
| `EarlyBaselines.OrderMattersExactly` | cmd/backstop/gate.go:1085-1091 | waiver non-interference holds in every order of the steps iff a policy is set, the baseline is not enabled or not loaded, or the run is a whole-tree one that seeds with no changed files |
| `ShippedRuns.ShippedOrderFits` | cmd/backstop/gate.go:1075-1105 | every chain in the shipped order has its waiver step after all waivable steps and ahead of the baseline step |
| `ShippedRuns.ShippedInFull` | cmd/backstop/gate.go:1075-1246 | the step order in full, with packs and without |
| `ShippedRuns.PackStepIsHonest` | cmd/backstop/gate.go:1134-1229 | every pack_engines step fails iff it holds a blocking finding, on every return |
| `ShippedRuns.SubstantivenessIsHonest` | cmd/backstop/gate.go:1491-1683 | every test_substantiveness step does, on every return |
| `ShippedRuns.ProducersAreHonest` | cmd/backstop/gate.go:1060-1064 | so does every step of the waivable surface, whichever return its producer or the capability check in front of it takes |
| `ShippedRuns.ShippedNonInterference` | cmd/backstop/gate.go:1060-1105 | two shipped runs whose surface steps come from their producers, behind their capability checks, on any inputs, and that leave the same standing, exit alike |
| `ShippedRuns.WaivedRunsAlike` | cmd/backstop/gate.go:1060-1105 | such runs exist and differ: any findings of a pack, all waived, against any others |
| `ShippedRuns.WaivedRunsExitAlike` | pkg/gate/step_waiver.go:93-190 | a shipped run that waives all its pack finds exits like one whose pack finds nothing |
| `ShippedRuns.ShippedQuietExit` | cmd/backstop/gate.go:1075-1105 | a shipped run in which no step and no waiver diagnostic on the produced steps blocks exits 1 iff no policy is set, a baseline is enabled and loaded, and a produced, unsuppressed finding is new against it |
| `ShippedRuns.ShippedActiveWaivers` | pkg/gate/gate.go:173-178 | the active waivers shown are those adjudicated on what was produced ahead of the waiver step |
| `Artifacts.ClassMeaning` | pkg/gate/artifact_status.go:81-115 | each kind has one success status, four words retire any kind, and one kind's success is open work for every other |
| `Artifacts.StatusWords` | pkg/gate/artifact_status.go:81-115 | the word that finishes each kind, and the four that retire any |
| `Artifacts.SeverityStatus` | pkg/gate/status_drift.go:92-116 | fails iff an error is held, else warns iff a warning is held |
| `Artifacts.SplitResult` | pkg/gate/status_drift.go:132-143 | errors to the block surface, the rest to the advisory one, in order; nothing lost or doubled |
| `Artifacts.SplitVerdicts` | pkg/gate/status_drift.go:118-143 | the advisory surface never fails, and the block surface fails iff the whole does |
| `Versions.ParseNonNegativeInt` | pkg/gate/requirement_traceability.go:346-358 | the value of a non-empty digit string, and nothing for any other text |
| `Versions.SemverMajorMinor` | pkg/gate/requirement_traceability.go:330-344 | major and minor of three dotted numerals, and nothing otherwise |
| `Versions.StalePinVerdict` | pkg/gate/requirement_traceability.go:29-45 | the bump between pin and current, and whether it is stale |
| `Versions.StaleMeaning` | pkg/gate/requirement_traceability.go:24-45 | stale iff both versions parse and differ in major or minor; symmetric in the two |
| `Versions.DecimalReads` | pkg/gate/requirement_traceability.go:346-358 | a decimal numeral reads back as its number |
| `Versions.PinsOnText` | pkg/gate/requirement_traceability.go:29-45 | on written versions: stale iff major or minor moved, and which bump is named |
| `Versions.UnreadableIsNeverStale` | pkg/gate/requirement_traceability.go:330-344 | a version holding anything but digits and dots outdates no pin and is outdated by none |
| `Traceability.BuildCorpus` | pkg/gate/requirement_traceability.go:50-79 | the three lookups of the classifier |
| `Traceability.BundleReqVersion` | pkg/gate/requirement_traceability.go:321-328 | the version of the first requirement with that id, or empty |
| `Traceability.ScanRefs` | pkg/gate/requirement_traceability.go:81-128 | one pass yields the early citations, the stale refs, and the covered and lapsed requirements |
| `Traceability.ReportStale` | pkg/gate/requirement_traceability.go:130-162 | one report per stale ref nothing fresh covers, and the origin kept for each stale spec |
| `Traceability.ReportChains` | pkg/gate/requirement_traceability.go:164-187 | one report per live plan that outruns a stale spec |
| `Traceability.ReportGaps` | pkg/gate/requirement_traceability.go:189-224 | one report per uncovered requirement of a bundle, severe iff it is delivered |
| `Traceability.ReportAllGaps` | pkg/gate/requirement_traceability.go:189-224 | the same over all bundles, whatever the map order |
| `Traceability.ClassifyRequirementTraceability` | pkg/gate/requirement_traceability.go:50-227 | the four reports together, and their verdict |
| `TraceabilityLaws.CorpusMeaning` | pkg/gate/requirement_traceability.go:50-79 | each lookup holds the last record with that bundle name, citing file or spec id, and nothing when there is none |
| `TraceabilityLaws.ChainHasCause` | pkg/gate/requirement_traceability.go:164-187 | a broken chain always has a stale, uncovered pin behind it |
| `TraceabilityLaws.ExactTraceabilityVerdict` | pkg/gate/requirement_traceability.go:50-227 | fails iff a delivered bundle has a gap, a delivered bundle is cited by a live unimplemented spec, or a live ref has a stale pin nothing fresh covers; warns iff it does not fail and an in-flight bundle has a gap |
| `TraceabilityRecords.LookupIsLast` | pkg/gate/requirement_traceability.go:50-79 | a ref's bundle, its citing artifact and a plan's spec are the last records that qualify |
| `TraceabilityRecords.FirstDeclaration` | pkg/gate/requirement_traceability.go:321-328 | the current version of a requirement is that of its first declaration |
| `TraceabilityRecords.VerdictOnRecords` | pkg/gate/requirement_traceability.go:17-227 | the verdict on records and refs: a delivered bundle with a requirement no implemented spec supports by an up-to-date pin, a spec in flight citing a delivered bundle, or a live outdated pin nothing supports fails; else a bundle in flight with such a requirement warns |
| `TraceabilityRecords.EarlySaid` | pkg/gate/requirement_traceability.go:105-124 | a spec in flight is told, at its file, of the delivered bundle it cites, and only then |
| `TraceabilityRecords.OutdatedSaid` | pkg/gate/requirement_traceability.go:130-162 | the holder of an outdated pin nothing makes up for is told, at its file, what it pins and what is current, and only then |
| `TraceabilityRecords.ChainSaid` | pkg/gate/requirement_traceability.go:164-187 | a plan that is not retired is told, at its file, iff the known spec it implements holds such a pin |
| `TraceabilityRecords.GapSaid` | pkg/gate/requirement_traceability.go:189-224 | a bundle is told, at its file, of each declared requirement nothing supports: an error once delivered, a warning in flight, nothing when retired |
| `TraceabilityRecords.ReportsExplain` | pkg/gate/requirement_traceability.go:105-224 | every report names its gap and the remedy that fits it |
| `TraceabilityLaws.RefOrderIsIrrelevant` | pkg/gate/requirement_traceability.go:81-187 | permuting the refs leaves the multiset of (rule, file, message, severity) unchanged, though stale-spec origins are last-write-wins |
| `TraceabilityLaws.CoveringRefOnlyRemoves` | pkg/gate/requirement_traceability.go:81-224 | one more fresh ref of an implemented spec only removes reports |
| `Drift.BuildSourceClaimIndex` | pkg/gate/artifact_status.go:421-436 | under each (source, claim): the names the non-retired records of that id mandate under that claim, in order |
| `Drift.OwedMeaning` | pkg/gate/artifact_status.go:405-436 | a name is there iff some non-retired record of that id mandates it under that non-empty claim |
| `Drift.PlanTaskMandatedTests` | pkg/gate/artifact_status.go:388-403 | the tests declared on the plan's tasks, in document order |
| `Drift.TasksMeaning` | pkg/gate/artifact_status.go:388-403 | a plan's tasks are those of all its phases |
| `Drift.PlanClaimDerivedMandatedTests` | pkg/gate/artifact_status.go:452-472 | the tests its tasks' claims owe through the index; none without a source artifact |
| `Drift.UnionPlanMandatedTests` | pkg/gate/artifact_status.go:483-501 | explicit entries, then the derived entries that bring a name not taken yet |
| `Drift.UnionMeaning` | pkg/gate/artifact_status.go:474-501 | explicit entries stay an unchanged prefix, each derived name not declared is added exactly once, and the names are the union |
| `Drift.DeclaredNames` | pkg/gate/artifact_status.go:388-403 | a name is in the declared list iff some task declares it |
| `Drift.TaskTestsMeaning` | pkg/gate/artifact_status.go:388-403 | each declared test is owed by the plan, under its task |
| `Drift.DerivedNames` | pkg/gate/artifact_status.go:452-472 | a name is in the derived list iff some task owes it through a claim |
| `Drift.ClaimTestsMeaning` | pkg/gate/artifact_status.go:452-472 | each derived test is owed by the plan, under the claim it comes from |
| `StatusDrift.ResolveArtifactStatus` | pkg/gate/artifact_status.go:180-288 | sources first and unchanged, then one fully determined record per plan; an artifact is backed by the last plan that names it |
| `StatusDrift.PlanRecordMeaning` | pkg/gate/artifact_status.go:263-288 | a plan record mandates exactly the names its tasks declare or owe, and is success-terminal iff completed |
| `StatusDrift.ResolvePresentTestNames` | pkg/gate/pack_claims.go:53-61 | a name is present iff a mandated test of it has a path or a pack claims it |
| `StatusDrift.ResolveMandatedTestPaths` | pkg/gate/step_testverify.go:788-796 | a found test gets its path, every other stays as it was |
| `StatusDrift.LooksDelivered` | pkg/gate/status_drift.go:75-85 | true iff something is mandated and all of it is present |
| `StatusDrift.ClassifyStatusDrift` | pkg/gate/status_drift.go:31-71 | broken promises and delivered-but-open records in order, with their verdict |
| `StatusDrift.ComputeDriftSurfaces` | cmd/backstop/gate.go:1332-1346 | one classification split into a block surface and an advisory surface that cannot fail |
| `StatusDrift.PlanDriftEndToEnd` | pkg/gate/artifact_status.go:255-288 | on the block surface of a resolved corpus, relocated and split, a plan filed alone is reported for a test name iff it is completed, the name is declared or owed through a claim on a non-retired source, and neither the sources nor the packs know it |
| `StatusDrift.BlockSurfaceMeaning` | pkg/gate/status_drift.go:31-143 | the block surface reports a broken promise at a path iff some record filed there breaks it |
| `StatusDrift.StatusDriftSteps` | cmd/backstop/gate.go:1281-1346 | resolving and computing end to end: that iff for every plan and name; a resolution failure is a config error of the block step alone |
| `StatusDrift.ExactDriftVerdict` | pkg/gate/status_drift.go:31-71 | fails iff a success-terminal record mandates an absent test; warns iff it does not fail and an open record has all its tests present |
| `StatusDrift.DriftSaid` | pkg/gate/status_drift.go:31-85 | everything drift says: each absent test of a finished record with its claim, and that an open record with all its tests present looks delivered |
| `Substantiveness.RouteSubstantivenessFindings` | pkg/gate/substantiveness_join.go:247-257 | two partitions by declared role, in order; findings of no role are dropped |
| `Substantiveness.HollowViolations` | pkg/gate/substantiveness_join.go:314-353 | one violation per in-scope hollow finding, severity and line forwarded |
| `Substantiveness.ReferencedSetForTest` | pkg/gate/substantiveness_join.go:270-284 | the symbols extraction reports for that test in that file |
| `Substantiveness.TwoPassesAreOne` | pkg/gate/substantiveness_join.go:94-143 | raising over the eligible tests is judging every considered test directly, same violations in the same order; without extraction evidence the eligible count is the number raised |
| `Substantiveness.CollectEligible` | cmd/backstop/gate.go:1581-1598 | the resolved, in-scope tests an empty evidence set would raise, in order |
| `Substantiveness.JoinInTwoPasses` | cmd/backstop/gate.go:1569-1682 | the two-pass join is the single-pass definition: refuses with the exact count or loses no verdict |
| `Substantiveness.TestSubstantivenessStep` | cmd/backstop/gate.go:1491-1683 | the whole step: extraction failure, missing pack, engine failure that discards the partial stream, else the join over due tests |
| `Substantiveness.RefusalDiscardsNoHollow` | pkg/gate/substantiveness_join.go:201-223 | refuses iff no finding of either role came back while some in-scope test was eligible; then no hollow finding existed |
| `SubstantivenessLaws.NoTargetSaid` | pkg/gate/substantiveness_join.go:94-143 | reported are exactly the found, in-scope tests, not about an absence, whose target is another package that extraction never saw them use |
| `SubstantivenessLaws.HollowSaid` | pkg/gate/substantiveness_join.go:314-353 | reported as hollow are exactly the findings of that role located in scope or nowhere, at their canonical file, with their severity and line |
| `SubstantivenessLaws.RefusalMeaning` | pkg/gate/substantiveness_join.go:201-223 | the join refuses iff no finding plays either role while a verdict is due for some test |
| `SubstantivenessLaws.OtherReturns` | cmd/backstop/gate.go:1491-1565 | unreadable tests fail plainly; unresolved packs or a failed engine are a config error that shows no finding; without a pack it passes |
| `SubstantivenessLaws.OnlyImplementedCount` | pkg/gate/step_testverify.go:209-211 | tests of specs that are not implemented have no effect on the step |
| `SubstantivenessLaws.BeforeFirst` | pkg/gate/substantiveness_join.go:359-366 | a text is cut at the first occurrence of a token |
| `SubstantivenessLaws.StrippedText` | pkg/gate/substantiveness_join.go:359-366 | after the cuts only trailing blanks are lost |
| `Dispatch.GroupByEngine` | cmd/backstop/pack_gate.go:325-333 | each engine's group is its own rules in order, and the order lists the engines |
| `Dispatch.EngineListed` | cmd/backstop/pack_gate.go:325-333 | an engine is listed iff some rule names it |
| `Dispatch.FirstAppearanceOrder` | cmd/backstop/pack_gate.go:325-333 | engines are listed once each, in order of first appearance |
| `Dispatch.EveryRuleInItsGroup` | cmd/backstop/pack_gate.go:325-333 | every rule is in the group of its engine and in no other |
| `Dispatch.DispatchPackEngines` | cmd/backstop/pack_gate.go:312-376 | the output is the in-order concatenation of each engine's findings or its one error entry; an error is returned iff some engine failed; sandbox evidence is kept |
| `Dispatch.DispatchSaid` | cmd/backstop/pack_gate.go:302-376 | reported are the findings of each finished call and one project-wide error per call that did not finish, naming pack, engine and cause |
| `Dispatch.FailureIsLocal` | cmd/backstop/pack_gate.go:312-376 | changing how one engine ends changes its own output and nothing before or after it |
| `Dispatch.ErrorsSurviveScoping` | cmd/backstop/pack_gate.go:286-310 | the error entry of every failed engine survives every scope filter |
| `Dispatch.HasStepRuleViolation` | cmd/backstop/gate.go:1251-1258 | true iff some finding carries the step's own rule |
| `Dispatch.PackEnginesStep` | cmd/backstop/gate.go:1134-1229 | a config error iff a tool is missing or an engine failed, still showing every in-scope finding, at their verdict; on success the test-gate findings are published ahead of the scope filter, with whether any engine declares that gate |
| `Dispatch.FailureShows` | cmd/backstop/gate.go:1186-1211 | after an engine failure the filtered findings name it and their verdict is fail, so the fallback entry is never needed |
| `Dispatch.SandboxMeaning` | cmd/backstop/pack_gate.go:345-376 | the step was sandboxed iff some engine that ran was |
| `Dispatch.UnprovisionedFails` | cmd/backstop/gate.go:1159-1166 | a missing tool is a config error of its own, before any engine runs |
| `Dispatch.RouteTestVerdictFindings` | pkg/gate/test_verdict_join.go:50-58 | the findings declared for the test gate, in order |
| `Dispatch.PublishedMeaning` | pkg/gate/test_verdict_join.go:41-58 | published are the findings whose gate type is test |
| `Dispatch.DeclaresGateType` | cmd/backstop/gate.go:622-691 | true iff some engine of some pack declares the gate type |
| `Coverage.IndexCoverageByPathMetric` | pkg/gate/step_coverage.go:316-335 | the first record of each (path, metric), and every later repetition |
| `Coverage.ResolveCoverageRecordsForPath` | pkg/gate/step_coverage.go:355-377 | the exact path, else for a path with a directory the one qualified path that ends in it, else nothing |
| `Coverage.CoverageThresholdsForScope` | pkg/gate/step_coverage.go:552-590 | all specs, or those whose own file changed, or the largest governing scalar with the floor as fallback |
| `Coverage.CoverageThresholdForMetric` | pkg/gate/step_coverage.go:519-537 | the strictest applicable threshold of the selection |
| `Coverage.StrictestMeaning` | pkg/gate/step_coverage.go:519-537 | it bounds every applicable threshold and is one of them, or zero |
| `Coverage.DeclaredCoverageMetrics` | pkg/gate/step_coverage.go:393-406 | the sorted listing of every explicitly declared metric |
| `Coverage.CoveragePathsInScope` | pkg/gate/step_coverage.go:425-467 | the sorted listing of all record paths, or of the changed measurable files still on disk |
| `Coverage.ReportRecord` | pkg/gate/step_coverage.go:201-243 | a changed exclusion warns, an empty total and an absent threshold stay quiet, a shortfall errs |
| `Coverage.StepCoverageThreshold` | pkg/gate/step_coverage.go:96-259 | collisions, then per sorted path the unmeasured report alone or its missing metrics and shortfalls; fails iff one is an error; without a scope, no result once there is a report |
| `CoverageLaws.IndexSlots` | pkg/gate/step_coverage.go:316-335 | a slot is indexed iff some record fills it, and by one of those records |
| `CoverageLaws.RepeatsMeaning` | pkg/gate/step_coverage.go:316-335 | repetitions are reported iff two records share a slot |
| `CoverageLaws.BelowIsRatio` | pkg/gate/step_coverage.go:261-267 | the integer cross-multiplication is the comparison of the exact ratio |
| `CoverageLaws.ExactCoverageVerdict` | pkg/gate/step_coverage.go:96-259 | in every scope that evaluates a path, fails iff a slot is duplicated or an evaluated path fails |
| `CoverageLaws.ExactDiffVerdict` | pkg/gate/step_coverage.go:96-259 | in a diff scope with globs, fails iff a slot is duplicated or a changed file has no resolvable record, lacks a declared metric, or has a counted record below its positive threshold |
| `CoverageSpecs.PackageMeaning` | pkg/gate/step_coverage.go:616-635 | a package matches a directory iff the directory it names is the same, above or below it; surrounding slashes and one leading ./ do not count |
| `CoverageSpecs.SelectionMeaning` | pkg/gate/step_coverage.go:552-602 | the specs whose own file changed govern; when there is none, the largest threshold of the packages the change touches, of package-less specs only when no package is touched, and the floor exactly when none of these is positive |
| `CoverageSpecs.StrictestMisses` | pkg/gate/step_coverage.go:519-537 | a record is below the strictest threshold iff it misses some spec's own ask for its metric |
| `CoverageSpecs.AnswersMeaning` | pkg/gate/step_coverage.go:355-377 | an unrecorded path is answered for by the one recorded path that ends in it below a directory; a bare name or two such paths by none |
| `CoverageSpecs.EvaluatedMeaning` | pkg/gate/step_coverage.go:425-467 | looked at are all recorded paths, or the changed files that are measurable source and still on disk |
| `CoverageSpecs.DiffVerdictOnSpecs` | pkg/gate/step_coverage.go:96-259 | the diff verdict on specs and records: a doubled measurement, or a changed file without records, without a metric a changed spec names, or below the threshold that governs it |
| `CoverageSpecs.QuietVerdicts` | pkg/gate/step_coverage.go:108-137 | a change that cannot be classified warns and says so; nothing to look at passes |
| `CoverageSpecs.ExclusionsWarn` | pkg/gate/step_coverage.go:204-220 | an exclusion of a changed file is a warning, of any other silent |
| `CoverageSpecs.ReportsLocated` | pkg/gate/step_coverage.go:157-243 | everything said of a path is located at it, relative to the root |
| `CoverageSpecs.CollisionNamed` | pkg/gate/step_coverage.go:316-335 | a (path, metric) measured twice is named as a collision |
| `CoverageSpecs.LostInputs` | cmd/backstop/gate.go:1789-1828 | a lost floor or lost records are a config error, lost specs a plain failure; the sandbox flag is that of the producer |
| `CoverageLaws.EvaluatedPathsAreChanged` | pkg/gate/step_coverage.go:425-506 | every path evaluated in a diff scope is a changed file |
| `CoverageLaws.StatusIgnoresRecordOrder` | pkg/gate/step_coverage.go:96-259 | the status is the same for every order of the records, duplicates included |
| `CoverageLaws.ResultIgnoresRecordOrder` | pkg/gate/step_coverage.go:96-259 | without duplicates the whole result is the same for every order |
| `CoverageLaws.UnmeasuredAlone` | pkg/gate/step_coverage.go:157-176 | a path is reported unmeasured iff nothing resolves for it, and then nothing else is said of it |
| `CoverageLaws.GuardsNeverOverlap` | pkg/gate/step_coverage.go:157-198 | over a whole report no file is both unmeasured and missing a metric |
| `CoverageLaws.CoverageIsHonest` | pkg/gate/step_coverage.go:96-259 | every coverage step fails iff it holds a blocking finding |
| `CoverageLaws.UnscopedReturnsIffClean` | pkg/gate/step_coverage.go:58-157 | without a scope no result comes back iff two records share a slot or some record is below the strictest threshold of its metric |
| `CoverageLaws.UnscopedIsWholeTree` | pkg/gate/step_coverage.go:58-60 | when one does come back it is the whole-tree result |
| `CoverageLaws.UnscopedShortfall` | pkg/gate/step_coverage.go:235-243 | one uncovered line under a threshold of 50: no result |
| `Coverage.BuildCoverageStep` | cmd/backstop/gate.go:1789-1828 | a floor, specs or records that could not be had each fail the step, the second without a config error; otherwise the threshold step, flagged with how its records were made |
| `CoverageLaws.BuiltCoverageIsHonest` | cmd/backstop/gate.go:1789-1828 | the installed step fails iff it holds a blocking finding, on every return |
| `Polarity.DeclaredDimension` | pkg/gate/traceability_polarity.go:100-110 | true iff an entry names exactly that dimension |
| `Polarity.HasUnknownGateType` | pkg/gate/traceability_polarity.go:116-129 | true iff a non-empty gate type names no dimension |
| `Polarity.WaivedDimension` | pkg/gate/traceability_polarity.go:190-200 | true iff an entry of exactly that dimension is waived |
| `Polarity.ClassifyDimension` | pkg/gate/traceability_polarity.go:145-184 | the class of a dimension by what is declared, present and working; a misdeclared entry wins |
| `Polarity.ClassTable` | pkg/gate/traceability_polarity.go:145-184 | the whole table, class by class |
| `Polarity.DimensionNames` | pkg/gate/traceability_polarity.go:16-35 | the three dimension names, and no other is one |
| `Polarity.PolarityStepResult` | pkg/gate/traceability_polarity.go:229-295 | the four results: two config errors, a warning or its waived pass, and a plain pass |
| `Polarity.RuleOfClass` | pkg/gate/traceability_polarity.go:229-295 | each class says so under its own rule and severity |
| `Polarity.WrapTraceabilityStep` | cmd/backstop/gate.go:783-794 | the analyzer's own result, or what the check puts in its place |
| `Polarity.WrapperMeaning` | cmd/backstop/gate.go:729-794 | with no misdeclared entry a provided dimension reaches its analyzer; a misdeclared entry, or a declared dimension nobody provides, is a config error; an undeclared one nobody provides only warns |
| `Polarity.WaivesAreIgnored` | pkg/gate/traceability_polarity.go:145-200 | changing waived flags never changes the result |
| `Polarity.WaiveBlocks` | pkg/gate/traceability_polarity.go:160-180 | waiving a dimension nobody provides is a config error, where no entry at all is a warning |
| `Polarity.PolarityIsHonest` | pkg/gate/traceability_polarity.go:229-295 | every result of the check fails iff it holds a blocking finding |

## Left out

- The inside of waiver adjudication, the pre-filled token and the unbound-token scan: arbitrary
  functions of their inputs here, so the laws hold for every one of them.
- The step functions themselves (artifact validation, test verification, contract signatures, ledger
  integrity, pack lock): a run takes the results they produce, in order.
- Engine execution, sandboxing and tool lookup: how a call ends is an arbitrary function of
  (pack, engine, rules), and whether tools are present is an input.
- Git, file walks, clocks, durations and the baseline's age: their outputs are inputs.
- The label of a technology stack: text passed through to a message.
- YAML, JSON and SARIF decoding, globs and regular expressions: parsed records and an abstract
  "is measurable source" and "is on disk".
- Rendering, reason texts, command-line wiring and the option setters of the gate: no verdict reads them.
- Trimming of white space, Unicode case folding and other path separators.
- Machine-integer overflow in coverage counts and version numbers.
- The choice of which rules have a dedicated step: the packs a dispatch step is given are its own.
- StatusDrift.PlanDriftEndToEnd: the plan's file holds no other record, no source test carries a path
  before the sweep, and the sweep never finds a test at an empty path, as extraction and the directory
  walk guarantee. For a shared file, StatusDrift.BlockSurfaceMeaning says what is reported.
- TwoRuns.WaiverNonInterference: steps outside the waivable surface and steps after the waiver step are
  the same in both runs; on the surface only the producers' contract is assumed.
