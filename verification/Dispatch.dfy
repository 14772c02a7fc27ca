/** Pack-engine dispatch that continues past failures (cmd/backstop/pack_gate.go) and the
    pack_engines step over it (cmd/backstop/gate.go). */
module Dispatch {
  import opened Seqs
  import opened Findings
  import opened Scopes

  datatype EngineRule = EngineRule(id: string, engine: string)

  /** A pack: its rules, and the gate types its engine bindings declare. */
  datatype Manifest = Manifest(name: string, rules: seq<EngineRule>, gateTypes: seq<string>)

  /** One engine over one pack's rules: what dispatch would run. */
  datatype Call = Call(pack: string, engine: string, rules: seq<EngineRule>)

  /** How a call ends.  A lookup miss ran nothing; a failed run's partial output is dropped. */
  datatype RunResult =
    | Missing(cause: string)
    | Failed(applied: bool, cause: string)
    | Finished(applied: bool, findings: seq<Violation>)

  datatype EngineError = EngineError(pack: string, engine: string, cause: string)

  // ---------------------------------------------------------------- grouping

  function OfEngine(engine: string): EngineRule -> bool {
    (r: EngineRule) => r.engine == engine
  }

  /** Engines in order of first appearance. */
  function EngineOrder(rules: seq<EngineRule>): seq<string> {
    if rules == [] then []
    else
      var before, engine := EngineOrder(rules[..|rules| - 1]), rules[|rules| - 1].engine;
      if engine in before then before else before + [engine]
  }

  ghost predicate FirstUse(rules: seq<EngineRule>, engine: string, i: nat) {
    i < |rules| && rules[i].engine == engine && forall j :: 0 <= j < i ==> rules[j].engine != engine
  }

  lemma {:induction false} EngineListed(rules: seq<EngineRule>, engine: string)
    ensures engine in EngineOrder(rules) <==> exists r :: r in rules && r.engine == engine
  {
    if rules != [] {
      var init, last := rules[..|rules| - 1], rules[|rules| - 1];
      EngineListed(init, engine);
      assert rules == init + [last];
      assert last in rules;
    }
  }

  /** Engines are listed once each, in order of first appearance. */
  lemma {:induction false} FirstAppearanceOrder(rules: seq<EngineRule>, i: nat, j: nat, m: nat, n: nat)
    requires i < j < |EngineOrder(rules)|
    ensures EngineOrder(rules)[i] != EngineOrder(rules)[j]
    ensures FirstUse(rules, EngineOrder(rules)[i], m) && FirstUse(rules, EngineOrder(rules)[j], n) ==> m < n
  {
    var init, last := rules[..|rules| - 1], rules[|rules| - 1];
    var before, order := EngineOrder(init), EngineOrder(rules);
    assert rules == init + [last];
    if j < |before| {
      FirstAppearanceOrder(init, i, j, m, n);
      EngineListed(init, before[i]);
      EngineListed(init, before[j]);
      assert before[i] in before && before[j] in before;
      if FirstUse(rules, order[i], m) && FirstUse(rules, order[j], n) {
        FirstUseEarly(init, last, order[i], m);
        FirstUseEarly(init, last, order[j], n);
      }
    } else {
      assert before[i] in before;
      EngineListed(init, before[i]);
      EngineListed(init, last.engine);
      forall k | 0 <= k < |init| ensures init[k].engine != last.engine { assert init[k] in init; }
      if FirstUse(rules, order[i], m) && FirstUse(rules, order[j], n) {
        FirstUseEarly(init, last, order[i], m);
      }
    }
  }

  lemma FirstUseEarly(init: seq<EngineRule>, last: EngineRule, engine: string, i: nat)
    requires (exists r :: r in init && r.engine == engine) && FirstUse(init + [last], engine, i)
    ensures FirstUse(init, engine, i)
  {
    var r :| r in init && r.engine == engine;
    var k :| 0 <= k < |init| && init[k] == r;
    assert (init + [last])[k] == r;
    forall j | 0 <= j < i ensures init[j].engine != engine { assert (init + [last])[j] == init[j]; }
  }

  /** Every rule is in the group of its own engine and in no other. */
  lemma EveryRuleInItsGroup(rules: seq<EngineRule>, rule: EngineRule, engine: string)
    requires rule in rules
    ensures rule.engine in EngineOrder(rules)
    ensures rule in Filter(OfEngine(engine), rules) <==> engine == rule.engine
  {
    EngineListed(rules, rule.engine);
    FilterMember(OfEngine(engine), rules, rule);
  }

  method GroupByEngine(rules: seq<EngineRule>) returns (grouped: map<string, seq<EngineRule>>, order: seq<string>)
    ensures order == EngineOrder(rules)
    ensures forall e :: e in grouped <==> e in order
    ensures forall e :: e in grouped ==> grouped[e] == Filter(OfEngine(e), rules)
  {
    grouped, order := map[], [];
    for i := 0 to |rules|
      invariant order == EngineOrder(rules[..i])
      invariant forall e :: e in grouped <==> e in order
      invariant forall e :: e in grouped ==> grouped[e] == Filter(OfEngine(e), rules[..i])
      invariant forall e :: e !in grouped ==> Filter(OfEngine(e), rules[..i]) == []
    {
      PrefixStep(rules, i);
      var rule := rules[i];
      forall e ensures Filter(OfEngine(e), rules[..i + 1])
                    == Filter(OfEngine(e), rules[..i]) + if rule.engine == e then [rule] else []
      {
        FilterSnoc(OfEngine(e), rules[..i], rule);
      }
      if rule.engine !in grouped {
        order := order + [rule.engine];
        grouped := grouped[rule.engine := [rule]];
      } else {
        grouped := grouped[rule.engine := grouped[rule.engine] + [rule]];
      }
    }
    assert rules[..|rules|] == rules;
  }

  // ---------------------------------------------------------------- dispatch

  function CallOf(m: Manifest): string -> Call {
    (engine: string) => Call(m.name, engine, Filter(OfEngine(engine), m.rules))
  }

  const CALLS: Manifest -> seq<Call> := (m: Manifest) => Map(CallOf(m), EngineOrder(m.rules))

  /** Every engine call, pack by pack. */
  function Calls(packs: seq<Manifest>): seq<Call> {
    FlatMap(CALLS, packs)
  }

  function ErrorViolation(e: EngineError): Violation {
    Report(OfStep(PackEngines), "", EngineFailed(e.pack, e.engine, e.cause), "error").(projectWide := true)
  }

  function ErrorOf(call: Call, result: RunResult): seq<EngineError> {
    if result.Finished? then [] else [EngineError(call.pack, call.engine, result.cause)]
  }

  function Errors(run: Call -> RunResult): Call -> seq<EngineError> {
    call => ErrorOf(call, run(call))
  }

  /** The engine's findings, or its one error entry. */
  function Output(run: Call -> RunResult): Call -> seq<Violation> {
    call => if run(call).Finished? then run(call).findings
            else [ErrorViolation(EngineError(call.pack, call.engine, run(call).cause))]
  }

  predicate Applied(result: RunResult) {
    !result.Missing? && result.applied
  }

  method DispatchPack(m: Manifest, run: Call -> RunResult)
    returns (violations: seq<Violation>, errs: seq<EngineError>, applied: bool)
    ensures violations == FlatMap(Output(run), CALLS(m)) && errs == FlatMap(Errors(run), CALLS(m))
    ensures applied <==> exists c :: c in CALLS(m) && Applied(run(c))
  {
    var grouped, order := GroupByEngine(m.rules);
    violations, errs, applied := [], [], false;
    for i := 0 to |order|
      invariant violations == FlatMap(Output(run), CALLS(m)[..i]) && errs == FlatMap(Errors(run), CALLS(m)[..i])
      invariant applied <==> exists c :: c in CALLS(m)[..i] && Applied(run(c))
    {
      assert order[i] in order;
      var call := Call(m.name, order[i], grouped[order[i]]);
      assert call == CALLS(m)[i];
      PrefixStep(CALLS(m), i);
      FlatMapSnoc(Output(run), CALLS(m)[..i], call);
      FlatMapSnoc(Errors(run), CALLS(m)[..i], call);
      var vs, es, did := RunCall(call, run);
      violations, errs, applied := violations + vs, errs + es, applied || did;
    }
    assert CALLS(m)[..|order|] == CALLS(m);
  }

  /** One engine: a failure is recorded and its partial output dropped. */
  method RunCall(call: Call, run: Call -> RunResult) returns (vs: seq<Violation>, es: seq<EngineError>, did: bool)
    ensures vs == Output(run)(call) && es == Errors(run)(call) && did == Applied(run(call))
  {
    var result := run(call);
    match result {
      case Missing(cause) =>
        es := [EngineError(call.pack, call.engine, cause)];
        vs, did := [ErrorViolation(es[0])], false;
      case Failed(applied, cause) =>
        es := [EngineError(call.pack, call.engine, cause)];
        vs, did := [ErrorViolation(es[0])], applied;
      case Finished(applied, findings) =>
        vs, es, did := findings, [], applied;
    }
  }

  /** dispatchPackEnginesWithEvidence */
  method DispatchPackEngines(packs: seq<Manifest>, run: Call -> RunResult)
    returns (violations: seq<Violation>, errs: seq<EngineError>, applied: bool)
    ensures violations == FlatMap(Output(run), Calls(packs))
    ensures errs == FlatMap(Errors(run), Calls(packs))
    ensures errs != [] <==> exists c :: c in Calls(packs) && !run(c).Finished?
    ensures applied <==> exists c :: c in Calls(packs) && Applied(run(c))
  {
    violations, errs, applied := [], [], false;
    for i := 0 to |packs|
      invariant violations == FlatMap(Output(run), Calls(packs[..i])) && errs == FlatMap(Errors(run), Calls(packs[..i]))
      invariant applied <==> exists c :: c in Calls(packs[..i]) && Applied(run(c))
    {
      PrefixStep(packs, i);
      FlatMapSnoc(CALLS, packs[..i], packs[i]);
      FlatMapConcat(Output(run), Calls(packs[..i]), CALLS(packs[i]));
      FlatMapConcat(Errors(run), Calls(packs[..i]), CALLS(packs[i]));
      var vs, es, did := DispatchPack(packs[i], run);
      violations, errs, applied := violations + vs, errs + es, applied || did;
    }
    assert packs[..|packs|] == packs;
    ErrorsMeaning(run, Calls(packs));
  }

  lemma ErrorsMeaning(run: Call -> RunResult, calls: seq<Call>)
    ensures FlatMap(Errors(run), calls) != [] <==> exists c :: c in calls && !run(c).Finished?
  {
    if FlatMap(Errors(run), calls) != [] {
      var e := FlatMap(Errors(run), calls)[0];
      FlatMapMember(Errors(run), calls, e);
    }
    if c :| c in calls && !run(c).Finished? {
      var e := EngineError(c.pack, c.engine, run(c).cause);
      assert e in Errors(run)(c);
      FlatMapMember(Errors(run), calls, e);
    }
  }

  // ---------------------------------------------------------------- failures stay local and visible

  /** Changing how one call ends changes that call's own output and nothing around it. */
  lemma FailureIsLocal(packs: seq<Manifest>, run: Call -> RunResult, run': Call -> RunResult, k: nat)
    requires k < |Calls(packs)|
    requires forall j :: 0 <= j < |Calls(packs)| && j != k ==> run(Calls(packs)[j]) == run'(Calls(packs)[j])
    ensures var calls := Calls(packs);
      var ahead, behind := FlatMap(Output(run), calls[..k]), FlatMap(Output(run), calls[k + 1..]);
      && FlatMap(Output(run), calls) == ahead + Output(run)(calls[k]) + behind
      && FlatMap(Output(run'), calls) == ahead + Output(run')(calls[k]) + behind
  {
    var calls := Calls(packs);
    FlatMapAround(Output(run), calls, k);
    FlatMapAround(Output(run'), calls, k);
    FlatMapSame(Output(run), Output(run'), calls[..k]);
    FlatMapSame(Output(run), Output(run'), calls[k + 1..]);
  }

  /** Whatever the scope, the error entry of every failed call is still reported. */
  lemma ErrorsSurviveScoping(packs: seq<Manifest>, run: Call -> RunResult, scope: Scope, c: Call)
    requires c in Calls(packs) && !run(c).Finished?
    ensures ErrorViolation(EngineError(c.pack, c.engine, run(c).cause))
         in Filter(KeptBy(scope), FlatMap(Output(run), Calls(packs)))
  {
    var v := ErrorViolation(EngineError(c.pack, c.engine, run(c).cause));
    assert v in Output(run)(c);
    FlatMapMember(Output(run), Calls(packs), v);
    FilterMember(KeptBy(scope), FlatMap(Output(run), Calls(packs)), v);
  }

  method HasStepRuleViolation(vs: seq<Violation>, step: StepName) returns (b: bool)
    ensures b <==> exists v :: v in vs && v.rule == OfStep(step)
  {
    for i := 0 to |vs|
      invariant forall j :: 0 <= j < i ==> vs[j].rule != OfStep(step)
    {
      if vs[i].rule == OfStep(step) {
        return true;
      }
    }
    return false;
  }

  // ---------------------------------------------------------------- the pack_engines step

  ghost predicate SomeEngineFails(packs: seq<Manifest>, run: Call -> RunResult) {
    exists c :: c in Calls(packs) && !run(c).Finished?
  }

  ghost predicate SomeSandboxed(packs: seq<Manifest>, run: Call -> RunResult) {
    exists c :: c in Calls(packs) && Applied(run(c))
  }

  const CAUSE: EngineError -> string := (e: EngineError) => e.cause

  /** The findings an engine declared for the test gate. */
  const FOR_TESTS: Violation -> bool := (v: Violation) => v.gateType == "test"

  function Unprovisioned(cause: string): StepResult {
    Produced(PackEngines, Fail, [Report(OfStep(PackEngines), "", Text(cause), "error")]).(configErr := true)
  }

  /** A missing tool is a config error of its own; a failed engine makes the step a config error
      that still shows every in-scope finding. */
  ghost function PackStep(provisioned: Attempt<()>, packs: seq<Manifest>, run: Call -> RunResult,
                          scope: Scope): StepResult {
    if provisioned.Lost? then Unprovisioned(provisioned.cause)
    else
      var vs := Filter(KeptBy(scope), FlatMap(Output(run), Calls(packs)));
      Produced(PackEngines, StepVerdict(vs), vs)
        .(configErr := SomeEngineFails(packs, run), nativeSandbox := SomeSandboxed(packs, run))
  }

  /** What the step publishes to test verification: the findings declared for the test gate, and
      whether any engine could have yielded one. */
  datatype TestVerdicts = TestVerdicts(findings: seq<Violation>, engineDeclared: bool)

  /** Some engine of some pack declares the gate type. */
  predicate Declares(packs: seq<Manifest>, gateType: string) {
    exists m :: m in packs && gateType in m.gateTypes
  }

  /** The step and, on success, what it publishes, taken ahead of the scope filter. */
  method PackEnginesStep(provisioned: Attempt<()>, packs: seq<Manifest>, run: Call -> RunResult, scope: Scope)
    returns (r: StepResult, published: Option<TestVerdicts>)
    ensures r == PackStep(provisioned, packs, run, scope)
    ensures published ==
      if r.configErr then None
      else Some(TestVerdicts(Filter(FOR_TESTS, FlatMap(Output(run), Calls(packs))), Declares(packs, "test")))
  {
    if provisioned.Lost? {
      return Unprovisioned(provisioned.cause), None;
    }
    var dispatched, errs, applied := DispatchPackEngines(packs, run);
    var violations := FilterViolations(scope, dispatched);
    if errs != [] {
      FailureShows(packs, run, scope);
      var named := HasStepRuleViolation(violations, PackEngines);
      if !named {
        var causes := CausesOf(errs);
        violations := violations + [Report(OfStep(PackEngines), "", DispatchFailed(causes), "error")];
      }
      r := Produced(PackEngines, Fail, violations).(configErr := true, nativeSandbox := applied);
      return r, None;
    }
    var routed := RouteTestVerdictFindings(dispatched);
    r := Produced(PackEngines, StepVerdict(violations), violations).(nativeSandbox := applied);
    var declared := DeclaresGateType(packs, "test");
    return r, Some(TestVerdicts(routed, declared));
  }

  /** So a failed engine's step names its failure without the fallback entry, and its verdict is fail. */
  lemma FailureShows(packs: seq<Manifest>, run: Call -> RunResult, scope: Scope)
    requires SomeEngineFails(packs, run)
    ensures var vs := Filter(KeptBy(scope), FlatMap(Output(run), Calls(packs)));
      StepVerdict(vs) == Fail && exists v :: v in vs && v.rule == OfStep(PackEngines)
  {
    var c :| c in Calls(packs) && !run(c).Finished?;
    var v := ErrorViolation(EngineError(c.pack, c.engine, run(c).cause));
    ErrorsSurviveScoping(packs, run, scope, c);
    ErrorBlocks(v);
    StepVerdictMeaning(Filter(KeptBy(scope), FlatMap(Output(run), Calls(packs))));
  }

  method CausesOf(errs: seq<EngineError>) returns (causes: seq<string>)
    ensures causes == Map(CAUSE, errs)
  {
    causes := [];
    for i := 0 to |errs|
      invariant causes == Map(CAUSE, errs[..i])
    {
      PrefixStep(errs, i);
      causes := causes + [errs[i].cause];
    }
    assert errs[..|errs|] == errs;
  }

  /** declaresTestVerdictEngine and packDeclaresGateType */
  method DeclaresGateType(packs: seq<Manifest>, gateType: string) returns (b: bool)
    ensures b <==> Declares(packs, gateType)
  {
    for i := 0 to |packs|
      invariant forall j :: 0 <= j < i ==> gateType !in packs[j].gateTypes
    {
      if gateType in packs[i].gateTypes {
        return true;
      }
    }
    return false;
  }

  /** RouteTestVerdictFindings */
  method RouteTestVerdictFindings(vs: seq<Violation>) returns (routed: seq<Violation>)
    ensures routed == Filter(FOR_TESTS, vs)
  {
    routed := [];
    for i := 0 to |vs|
      invariant routed == Filter(FOR_TESTS, vs[..i])
    {
      PrefixStep(vs, i);
      if vs[i].gateType == "test" {
        routed := routed + [vs[i]];
      }
    }
    assert vs[..|vs|] == vs;
  }

  /** What dispatch reports: the findings of each call that finished, and for each that did not one
      project-wide error of the step, naming pack, engine and cause. */
  lemma DispatchSaid(packs: seq<Manifest>, run: Call -> RunResult, v: Violation)
    ensures v in FlatMap(Output(run), Calls(packs)) <==>
      exists c :: c in Calls(packs) && SaidBy(run, c, v)
  {
    FlatMapMember(Output(run), Calls(packs), v);
    forall c ensures v in Output(run)(c) <==> SaidBy(run, c, v) {}
  }

  predicate SaidBy(run: Call -> RunResult, c: Call, v: Violation) {
    match run(c)
    case Finished(_, findings) => v in findings
    case Missing(cause) => v == Failure(c, cause)
    case Failed(_, cause) => v == Failure(c, cause)
  }

  function Failure(c: Call, cause: string): Violation {
    Violation(OfStep(PackEngines), "", EngineFailed(c.pack, c.engine, cause), "error", "", true, "", 0, "",
              None, map[], NoRegion, None)
  }

  /** Published to test verification are the findings of the test gate. */
  lemma PublishedMeaning(vs: seq<Violation>, v: Violation)
    ensures v in Filter(FOR_TESTS, vs) <==> v in vs && v.gateType == "test"
  {
    FilterMember(FOR_TESTS, vs, v);
  }

  /** The step was sandboxed iff some engine that ran was. */
  lemma SandboxMeaning(packs: seq<Manifest>, run: Call -> RunResult, scope: Scope)
    ensures PackStep(Got(()), packs, run, scope).nativeSandbox <==>
      exists c :: c in Calls(packs) && RanSandboxed(run(c))
  {
    forall c ensures Applied(run(c)) <==> RanSandboxed(run(c)) {}
  }

  predicate RanSandboxed(r: RunResult) {
    match r
    case Missing(_) => false
    case Failed(applied, _) => applied
    case Finished(applied, _) => applied
  }

  /** A missing tool fails the step as a config error, before any engine runs. */
  lemma UnprovisionedFails(cause: string, packs: seq<Manifest>, run: Call -> RunResult, scope: Scope)
    ensures var r := PackStep(Lost(cause), packs, run, scope);
      r.status == Fail && r.configErr && !r.nativeSandbox && |r.violations| == 1 && r.violations[0].severity == "error"
  {
  }
}
