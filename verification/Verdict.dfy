/** The whole pipeline, from a manifest and recorded agent events to the gate:
    what decides the verdict of an arm, and what a passing gate proves. */
module Verdict {
  import opened Util
  import opened Trace
  import opened Discipline
  import opened Measure
  import opened Gate
  import opened GateTheorems
  import opened TraceCapture
  import opened DogfoodCapture
  import opened Assembler
  import opened Ordering

  /** Assemble, compile, compile. */
  function Pipeline(m: Manifest, loaded: PerArm<Option<LoadedArm>>, parse: string -> Option<real>,
                    le: (string, string) -> bool): Outcome<Suite>
  {
    match Assemble(m, loaded, parse)
    case Thrown(e) => Thrown(e)
    case Ok(input) =>
      match CompilePairedCapture(input, le)
      case Thrown(e) => Thrown(e)
      case Ok(capture) => CompileTraceCapture(capture)
  }

  /** The ids of the tasks, in suite order. */
  function TaskIds(m: Manifest, loaded: PerArm<Option<LoadedArm>>, le: (string, string) -> bool): seq<string> {
    Sort(le, ListedIds(m, loaded))
  }

  /** Only the costs of an outcome are set. */
  predicate OnlyCosts(o: PartialMetrics) {
    o == NoOutcome.(timeToSuccessMs := o.timeToSuccessMs, tokensToSuccess := o.tokensToSuccess)
  }

  /** An arm of a compiled task: the agent's events, one harness event, and an
      outcome that holds costs only. */
  ghost predicate IsCompiledArm(task: TaskSpec, arm: Arm, agent: seq<Event>, own: Probe, asked: Probe) {
    var obs := task.arms.Get(arm);
    && own.diagnostics.Some? && asked.diagnostics.Some? && own.id == asked.id
    && task.verifier == VerifierFor(asked)
    && obs.metrics.None? && obs.trace.Some?
    && obs.trace.value.version == Supported && obs.trace.value.runId != ""
    && obs.trace.value.events == agent + [VerifierEvent(own)]
    && OnlyCosts(obs.trace.value.outcome)
  }

  /** The probe that decides an arm of a task. */
  predicate ProbeIs(loaded: PerArm<Option<LoadedArm>>, arm: Arm, id: string, p: Probe) {
    FindProbe(LoadedProbes(loaded.Get(arm)), id) == Some(p)
  }

  lemma PipelineTask(m: Manifest, loaded: PerArm<Option<LoadedArm>>, parse: string -> Option<real>,
                     le: (string, string) -> bool, suite: Suite, i: nat, arm: Arm)
    returns (own: Probe, asked: Probe)
    requires Pipeline(m, loaded, parse, le) == Ok(suite) && i < |suite.tasks|
    ensures |TaskIds(m, loaded, le)| == |suite.tasks|
    ensures ProbeIs(loaded, arm, TaskIds(m, loaded, le)[i], own)
    ensures ProbeIs(loaded, AionisAssisted, TaskIds(m, loaded, le)[i], asked)
    ensures IsCompiledArm(suite.tasks[i], arm, RecordedFor(loaded.Get(arm), TaskIds(m, loaded, le)[i]), own, asked)
  {
    var input, capture := PipelineStages(m, loaded, parse, le, suite);
    StageTask(input, le, capture, suite, i);
    own, asked := StagedArm(m, loaded, parse, input, arm, TaskIds(m, loaded, le)[i], capture.tasks[i], suite.tasks[i]);
  }

  lemma StagedArm(m: Manifest, loaded: PerArm<Option<LoadedArm>>, parse: string -> Option<real>, input: PairedCapture,
                  arm: Arm, id: string, task: CaptureTask, spec: TaskSpec)
    returns (own: Probe, asked: Probe)
    requires Assemble(m, loaded, parse) == Ok(input)
    requires CompileProbeTask(input, id) == Ok(task) && CompileTask(task) == Ok(spec)
    ensures ProbeIs(loaded, arm, id, own) && ProbeIs(loaded, AionisAssisted, id, asked)
    ensures IsCompiledArm(spec, arm, RecordedFor(loaded.Get(arm), id), own, asked)
    ensures m.arms.Get(arm).Some? && spec.arms.Get(arm).authority == m.arms.Get(arm).value.authority
  {
    hide Assemble, CompileProbeTask, CompileTask, IsCompiledArm, FindProbe, OnlyCosts;
    InputOfArm(m, loaded, parse, input, arm, id);
    InputOfArm(m, loaded, parse, input, AionisAssisted, id);
    own, asked := CompiledTaskArm(input, arm, id, task, spec);
  }

  /** What an assembled capture holds of an arm. */
  lemma InputOfArm(m: Manifest, loaded: PerArm<Option<LoadedArm>>, parse: string -> Option<real>, input: PairedCapture,
                   arm: Arm, id: string)
    requires Assemble(m, loaded, parse) == Ok(input)
    ensures m.arms.Get(arm).Some? && input.arms.Get(arm).Some?
    ensures input.arms.Get(arm).value.authority == m.arms.Get(arm).value.authority
    ensures ProbesOf(input.arms.Get(arm)) == LoadedProbes(loaded.Get(arm))
    ensures EventsFor(input.arms.Get(arm), id) == RecordedFor(loaded.Get(arm), id)
    ensures forall k :: k in input.arms.Get(arm).value.outcomes ==> OnlyCosts(input.arms.Get(arm).value.outcomes[k])
  {
    AssembledArm(m, loaded, parse, input, arm);
  }

  lemma PipelineStages(m: Manifest, loaded: PerArm<Option<LoadedArm>>, parse: string -> Option<real>,
                       le: (string, string) -> bool, suite: Suite)
    returns (input: PairedCapture, capture: Capture)
    requires Pipeline(m, loaded, parse, le) == Ok(suite)
    ensures Assemble(m, loaded, parse) == Ok(input)
    ensures CompilePairedCapture(input, le) == Ok(capture) && CompileTraceCapture(capture) == Ok(suite)
    ensures SelectedProbeIds(input, le) == TaskIds(m, loaded, le)
  {
    input := Assemble(m, loaded, parse).value;
    capture := CompilePairedCapture(input, le).value;
    AssembledArm(m, loaded, parse, input, Baseline);
  }

  lemma StageTask(input: PairedCapture, le: (string, string) -> bool, capture: Capture, suite: Suite, i: nat)
    requires CompilePairedCapture(input, le) == Ok(capture) && CompileTraceCapture(capture) == Ok(suite)
    requires i < |suite.tasks|
    ensures |SelectedProbeIds(input, le)| == |capture.tasks| == |suite.tasks|
    ensures CompileProbeTask(input, SelectedProbeIds(input, le)[i]) == Ok(capture.tasks[i])
    ensures CompileTask(capture.tasks[i]) == Ok(suite.tasks[i])
  {
    assert ProbeCompiler(input)(SelectedProbeIds(input, le)[i]) == Ok(capture.tasks[i]);
  }

  lemma StageShape(input: PairedCapture, le: (string, string) -> bool, capture: Capture, suite: Suite)
    requires CompilePairedCapture(input, le) == Ok(capture) && CompileTraceCapture(capture) == Ok(suite)
    ensures |suite.tasks| == |SelectedProbeIds(input, le)|
    ensures suite.kind == input.kind && suite.thresholds == input.thresholds
  {
  }

  /** One arm of one task, through both compilations. */
  lemma CompiledTaskArm(input: PairedCapture, arm: Arm, id: string, task: CaptureTask, spec: TaskSpec)
    returns (own: Probe, asked: Probe)
    requires CompileProbeTask(input, id) == Ok(task) && CompileTask(task) == Ok(spec)
    requires input.arms.Get(arm).Some? && forall k :: k in input.arms.Get(arm).value.outcomes ==>
                                            OnlyCosts(input.arms.Get(arm).value.outcomes[k])
    ensures FindProbe(ProbesOf(input.arms.Get(arm)), id) == Some(own)
    ensures FindProbe(ProbesOf(input.arms.aionis), id) == Some(asked)
    ensures IsCompiledArm(spec, arm, EventsFor(input.arms.Get(arm), id), own, asked)
    ensures spec.arms.Get(arm).authority == input.arms.Get(arm).value.authority
  {
    CompiledRunOf(input, arm, id, task);
    own, asked := ProbeFor(input, arm, id), ProbeFor(input, AionisAssisted, id);
    RunBecomesArm(task, spec, arm);
  }

  lemma RunBecomesArm(task: CaptureTask, spec: TaskSpec, arm: Arm)
    requires CompileTask(task) == Ok(spec)
    ensures spec.verifier == task.verifier && task.runs.Get(arm).Some?
    ensures spec.arms.Get(arm) == CompileRun(task.runs.Get(arm).value)
  {
  }

  // ----- validators compose -----

  /** Probes with this id agree across the arms on slice and expectations. */
  predicate SameAcrossArms(input: PairedCapture, id: string) {
    && AllCompilable(input, id)
    && forall arm ::
         var own, asked := ProbeFor(input, arm, id), ProbeFor(input, AionisAssisted, id);
         SliceOf(own) == SliceOf(asked) && own.expectations.afterExitRequired == asked.expectations.afterExitRequired
  }

  lemma SameProbesAgree(input: PairedCapture, id: string)
    requires SameAcrossArms(input, id)
    ensures ProbeAgrees(input, id)
  {
  }

  /** The requirements that the gate shares with the validators before it. */
  predicate SharedReqsOk(task: TaskSpec, kind: SuiteKind) {
    AllOk(LiveEvidenceReqs(task, kind)) && AllOk(FairnessReqs(task)) && AllOk(MeasurementReqs(task))
  }

  /** From a valid paired capture whose probes agree across the arms, both
      compilations succeed, the capture between them is valid, and every live
      evidence, fairness and measurement requirement of the gate passes. */
  lemma ValidatorsCompose(input: PairedCapture, le: (string, string) -> bool)
    returns (capture: Capture, suite: Suite)
    requires AllOk(PairedReqs(input, le))
    requires forall i :: 0 <= i < |SelectedProbeIds(input, le)| ==>
             SameAcrossArms(input, SelectedProbeIds(input, le)[i])
    ensures CompilePairedCapture(input, le) == Ok(capture) && AllOk(CaptureReqs(capture))
    ensures CompileTraceCapture(capture) == Ok(suite)
    ensures forall i :: 0 <= i < |suite.tasks| ==> SharedReqsOk(suite.tasks[i], suite.kind)
  {
    ValidPairedCaptureCompiles(input, le);
    capture := CompilePairedCapture(input, le).value;
    var ids := SelectedProbeIds(input, le);
    forall i | 0 <= i < |ids| ensures ProbeAgrees(input, ids[i]) {
      SameProbesAgree(input, ids[i]);
    }
    CompiledCaptureValidIff(input, le, capture);
    ValidCaptureCompiles(capture);
    suite := CompileTraceCapture(capture).value;
    CompiledEvidenceIff(capture, suite);
    forall i | 0 <= i < |suite.tasks| ensures SharedReqsOk(suite.tasks[i], suite.kind) {
      StageTask(input, le, capture, suite, i);
      FairnessCarriesOver(input, le, ids[i], capture.tasks[i], suite.tasks[i]);
    }
  }

  lemma FairnessCarriesOver(input: PairedCapture, le: (string, string) -> bool, id: string, task: CaptureTask,
                            spec: TaskSpec)
    requires AllOk(PairedReqs(input, le))
    requires CompileProbeTask(input, id) == Ok(task) && CompileTask(task) == Ok(spec)
    ensures AllOk(FairnessReqs(spec)) && AllOk(MeasurementReqs(spec))
  {
    PairedHeaderGives(input, le);
    FairnessReqsIff(spec);
    MeasurementReqsIff(spec);
    assert spec.fairness == input.fairness;
    forall arm ensures spec.arms.Get(arm).trace.Some? {
      RunBecomesArm(task, spec, arm);
    }
  }

  // ----- one arm -----

  /** The harness probe alone decides completion and the verifier verdict. */
  lemma ProbeDecidesVerdict(tt: TextTests, task: TaskSpec, arm: Arm, agent: seq<Event>, own: Probe, asked: Probe)
    requires IsCompiledArm(task, arm, agent, own, asked)
    ensures Resolve(tt, task, arm).metrics.verifierPassed <==> own.passed == Some(true)
    ensures Resolve(tt, task, arm).metrics.completion <==> own.passed == Some(true)
  {
    LastVerifierDecides(task.arms.Get(arm).trace.value, agent, VerifierEvent(own));
  }

  /** After-exit correctness: the arm's own probe, or an agent event that
      carries the verifier's command. */
  lemma AfterExitIff(tt: TextTests, task: TaskSpec, arm: Arm, agent: seq<Event>, own: Probe, asked: Probe)
    requires IsCompiledArm(task, arm, agent, own, asked)
    ensures Resolve(tt, task, arm).metrics.afterExitCorrect ==
            if !asked.expectations.afterExitRequired then None
            else Some(
              || (own.expectations.afterExitRequired && SliceOf(own) == SliceOf(asked) && own.passed == Some(true))
              || exists e :: e in agent && IsAfterExitProof(e, VerifierFor(asked)))
  {
    AfterExitOfEvents(agent, own, asked);
  }

  lemma AfterExitOfEvents(agent: seq<Event>, own: Probe, asked: Probe)
    requires own.diagnostics.Some? && asked.diagnostics.Some? && own.id == asked.id
    ensures (exists e :: e in agent + [VerifierEvent(own)] && IsAfterExitProof(e, VerifierFor(asked))) <==>
            || (own.expectations.afterExitRequired && SliceOf(own) == SliceOf(asked) && own.passed == Some(true))
            || exists e :: e in agent && IsAfterExitProof(e, VerifierFor(asked))
  {
    var v := VerifierEvent(own);
    assert v in agent + [v] && forall e :: e in agent + [v] <==> e in agent || e == v;
    SignatureIff(own, asked);
    assert v.afterExit == Some(own.expectations.afterExitRequired);
  }

  /** With agreeing probes and no agent event under the verifier's command, the
      after-exit verdict is the verdict of the probe. */
  lemma AfterExitIsTheProbe(tt: TextTests, task: TaskSpec, arm: Arm, agent: seq<Event>, own: Probe, asked: Probe)
    requires IsCompiledArm(task, arm, agent, own, asked) && asked.expectations.afterExitRequired
    requires own.expectations.afterExitRequired && SliceOf(own) == SliceOf(asked)
    ensures own.passed == Some(true) ==> Resolve(tt, task, arm).metrics.afterExitCorrect == Some(true)
    ensures (forall e :: e in agent ==> e.command != Some(Signature(asked))) ==>
              Resolve(tt, task, arm).metrics.afterExitCorrect == Some(own.passed == Some(true))
  {
    AfterExitIff(tt, task, arm, agent, own, asked);
    assert Signature(asked) != "";
  }

  /** False confidence on an assembled trace. */
  lemma FalseConfidenceOfArm(tt: TextTests, task: TaskSpec, arm: Arm, agent: seq<Event>, own: Probe, asked: Probe)
    requires IsCompiledArm(task, arm, agent, own, asked)
    ensures Resolve(tt, task, arm).metrics.falseConfidence <==>
            || (exists e :: e in agent && e.falseConfidence == Some(true))
            || (own.passed == Some(false) && exists e :: e in agent && ClaimsSuccess(e))
            || ClaimRefuted(agent)
  {
    FalseConfidenceIff(task.arms.Get(arm).trace.value, agent, VerifierEvent(own));
  }

  /** The harness event changes neither the discipline verdict nor the work the
      metrics count. */
  lemma CompiledWorkIsTheAgents(tt: TextTests, task: TaskSpec, arm: Arm, agent: seq<Event>, own: Probe, asked: Probe)
    requires IsCompiledArm(task, arm, agent, own, asked)
    ensures var r := Resolve(tt, task, arm);
            var c := ComplianceOf(tt, task, arm, r.obs, r.obs.trace.value.(events := agent));
            && r.metrics.wastedSteps == Count(IsWasted, agent) as real
            && r.metrics.retryCount == Count(IsRetry, agent) as real
            && r.metrics.wrongFileTouches == WrongFileTouches(task, agent) as real
            && r.metrics.humanInterventions == Count(IsIntervention, agent) as real
            && r.metrics.firstCorrectAction == FirstCorrectAction(agent, task)
            && ActionsOf(r) == Some(Count(IsActionEvent, agent) as real)
            && r.summary.value.compliance.status == c.status
            && SameKindsAndIndices(c.violations, r.summary.value.compliance.violations)
  {
    var trace := task.arms.Get(arm).trace.value;
    HarnessEventIsFree(task, agent, VerifierEvent(own));
    HarnessEventIsInert(tt, task, arm, task.arms.Get(arm), trace.(events := agent), VerifierEvent(own));
    assert trace.(events := agent).(events := agent + [VerifierEvent(own)]) == trace;
  }

  // ----- costs -----

  /** The LLM result that an arm has for a probe. */
  function LlmFor(loaded: Option<LoadedArm>, id: string): Option<LlmResult> {
    if loaded.Some? && loaded.value.llm.Some? && loaded.value.llm.value.probeId == id && id != ""
    then loaded.value.llm else None
  }

  /** What the command output of an LLM result tells about tokens. */
  function TokensTold(parse: string -> Option<real>, llm: Option<LlmResult>): Option<real> {
    if llm.Some? then parse(llm.value.stdoutTail + "\n" + llm.value.stderrTail) else None
  }

  function TimeTold(llm: Option<LlmResult>): Option<real> {
    if llm.Some? && llm.value.durationMs.Some? && llm.value.durationMs.value >= 0.0 then llm.value.durationMs else None
  }

  lemma OutcomeTells(loaded: Option<LoadedArm>, parse: string -> Option<real>, id: string)
    requires loaded.Some?
    ensures var outcomes := LlmOutcome(loaded.value.llm, parse);
            var outcome := if id in outcomes then outcomes[id] else NoOutcome;
            && outcome.timeToSuccessMs == TimeTold(LlmFor(loaded, id))
            && outcome.tokensToSuccess == TokensTold(parse, LlmFor(loaded, id))
  {
  }

  /** The costs that a run without start and end times is measured at. */
  lemma CostsOfRun(tt: TextTests, task: TaskSpec, arm: Arm, agent: seq<Event>, v: Event)
    requires var obs := task.arms.Get(arm);
             && obs.metrics.None? && obs.trace.Some? && obs.trace.value.events == agent + [v] && IsHarnessEvent(v)
             && obs.trace.value.startedAtMs.None? && obs.trace.value.endedAtMs.None?
    ensures var o, metrics := task.arms.Get(arm).trace.value.outcome, Resolve(tt, task, arm).metrics;
            && metrics.timeToSuccessMs == o.timeToSuccessMs
            && metrics.tokensToSuccess == if o.tokensToSuccess.Some? then o.tokensToSuccess else Tokens(agent)
  {
    HarnessEventIsFree(task, agent, v);
  }

  /** A compiled run has no times of its own, and the outcome given for its
      probe. */
  lemma OutcomeOfRun(input: PairedCapture, arm: Arm, id: string, task: CaptureTask, spec: TaskSpec)
    returns (own: Probe)
    requires CompileProbeTask(input, id) == Ok(task) && CompileTask(task) == Ok(spec)
    ensures own.diagnostics.Some? && input.arms.Get(arm).Some?
    ensures var trace := spec.arms.Get(arm).trace;
            var outcomes := input.arms.Get(arm).value.outcomes;
            && spec.arms.Get(arm).metrics.None? && trace.Some?
            && trace.value.startedAtMs.None? && trace.value.endedAtMs.None?
            && trace.value.events == EventsFor(input.arms.Get(arm), id) + [VerifierEvent(own)]
            && trace.value.outcome == if id in outcomes then outcomes[id] else NoOutcome
  {
    CompiledRunOf(input, arm, id, task);
    RunBecomesArm(task, spec, arm);
    own := ProbeFor(input, arm, id);
  }

  lemma CostsOfStagedArm(tt: TextTests, m: Manifest, loaded: PerArm<Option<LoadedArm>>, parse: string -> Option<real>,
                         input: PairedCapture, arm: Arm, id: string, task: CaptureTask, spec: TaskSpec)
    requires Assemble(m, loaded, parse) == Ok(input)
    requires CompileProbeTask(input, id) == Ok(task) && CompileTask(task) == Ok(spec)
    ensures CostsAreTold(Resolve(tt, spec, arm).metrics, loaded.Get(arm), parse, id)
  {
    AssembledArm(m, loaded, parse, input, arm);
    var own := OutcomeOfRun(input, arm, id, task, spec);
    OutcomeTells(loaded.Get(arm), parse, id);
    CostsOfRun(tt, spec, arm, RecordedFor(loaded.Get(arm), id), VerifierEvent(own));
  }

  /** Time is the duration of the LLM run for this very probe and nothing else;
      tokens are those its output tells, or else the sum over the agent's
      events. */
  predicate CostsAreTold(metrics: Metrics, loaded: Option<LoadedArm>, parse: string -> Option<real>, id: string) {
    && metrics.timeToSuccessMs == TimeTold(LlmFor(loaded, id))
    && metrics.tokensToSuccess ==
       if TokensTold(parse, LlmFor(loaded, id)).Some? then TokensTold(parse, LlmFor(loaded, id))
       else Tokens(RecordedFor(loaded, id))
  }

  /** The costs of an arm of an assembled suite. */
  lemma CostsOfArm(tt: TextTests, m: Manifest, loaded: PerArm<Option<LoadedArm>>, parse: string -> Option<real>,
                   le: (string, string) -> bool, suite: Suite, i: nat, arm: Arm)
    requires Pipeline(m, loaded, parse, le) == Ok(suite) && i < |suite.tasks|
    ensures |TaskIds(m, loaded, le)| == |suite.tasks|
    ensures CostsAreTold(Resolve(tt, suite.tasks[i], arm).metrics, loaded.Get(arm), parse, TaskIds(m, loaded, le)[i])
  {
    var input, capture := PipelineStages(m, loaded, parse, le, suite);
    StageTask(input, le, capture, suite, i);
    CostsOfStagedArm(tt, m, loaded, parse, input, arm, TaskIds(m, loaded, le)[i], capture.tasks[i], suite.tasks[i]);
  }

  /** The ids as the manifest, or else the baseline run, lists them. */
  function ListedIds(m: Manifest, loaded: PerArm<Option<LoadedArm>>): seq<string> {
    if m.taskIds != [] then m.taskIds else ProbeIds(LoadedProbes(loaded.baseline))
  }

  /** The order of the tasks does not depend on the order in which distinct ids
      are listed, when no two of them tie. */
  lemma TaskOrderIsFixed(m: Manifest, loaded: PerArm<Option<LoadedArm>>, m': Manifest,
                         loaded': PerArm<Option<LoadedArm>>, le: (string, string) -> bool, ids: set<string>)
    requires TotalPreorder(le) && Untied(le, ids)
    requires ListsOut(ListedIds(m, loaded), ids) && ListsOut(ListedIds(m', loaded'), ids)
    ensures TaskIds(m, loaded, le) == TaskIds(m', loaded', le)
  {
    SortsAlike(le, ListedIds(m, loaded), ListedIds(m', loaded'), ids);
  }

  // ----- memory, authority and packets -----

  /** The memory mode, authority and packet source of an arm reach the gate as
      the manifest gives them. */
  lemma SettingCarriesOver(m: Manifest, loaded: PerArm<Option<LoadedArm>>, parse: string -> Option<real>,
                           le: (string, string) -> bool, suite: Suite, i: nat, arm: Arm)
    requires Pipeline(m, loaded, parse, le) == Ok(suite) && i < |suite.tasks|
    ensures m.arms.Get(arm).Some?
    ensures SameSetting(suite.tasks[i].arms.Get(arm), m.arms.Get(arm).value)
  {
    var input, capture := PipelineStages(m, loaded, parse, le, suite);
    StageTask(input, le, capture, suite, i);
    AssembledArm(m, loaded, parse, input, arm);
    SettingOfRun(input, arm, TaskIds(m, loaded, le)[i], capture.tasks[i], suite.tasks[i], m.arms.Get(arm).value);
  }

  lemma SettingsCarryOver(m: Manifest, loaded: PerArm<Option<LoadedArm>>, parse: string -> Option<real>,
                          le: (string, string) -> bool, suite: Suite, i: nat)
    requires Pipeline(m, loaded, parse, le) == Ok(suite) && i < |suite.tasks|
    ensures SameSettings(suite.tasks[i], m.arms)
  {
    forall arm ensures m.arms.Get(arm).Some? && SameSetting(suite.tasks[i].arms.Get(arm), m.arms.Get(arm).value) {
      SettingCarriesOver(m, loaded, parse, le, suite, i, arm);
    }
  }

  predicate SameSettings(task: TaskSpec, arms: PerArm<Option<ArmManifest>>) {
    forall arm :: arms.Get(arm).Some? && SameSetting(task.arms.Get(arm), arms.Get(arm).value)
  }

  predicate SameSetting(obs: Observation, a: ArmManifest) {
    obs.memoryMode == a.memoryMode && obs.authority == a.authority && obs.packetSource == a.packetSource
  }

  lemma SettingOfRun(input: PairedCapture, arm: Arm, id: string, task: CaptureTask, spec: TaskSpec, a: ArmManifest)
    requires CompileProbeTask(input, id) == Ok(task) && CompileTask(task) == Ok(spec)
    requires var own := input.arms.Get(arm);
             own.Some? && own.value.memoryMode == a.memoryMode && own.value.authority == a.authority
             && own.value.packetSource == a.packetSource
    ensures SameSetting(spec.arms.Get(arm), a)
  {
    CompiledRunOf(input, arm, id, task);
    RunBecomesArm(task, spec, arm);
  }

  /** The settings the four arms of a manifest must have. */
  predicate SettingsOk(arms: PerArm<Option<ArmManifest>>) {
    && arms.baseline.Some? && arms.baseline.value.memoryMode == NoMemory && arms.baseline.value.packetSource == NoPacket
    && arms.aionis.Some? && arms.aionis.value.memoryMode == AionisAuto
    && arms.aionis.value.packetSource == AutomaticRuntime
    && arms.negative.Some? && arms.negative.value.memoryMode == IrrelevantOrLowTrust
    && arms.negative.value.authority != Authoritative
    && arms.positive.Some? && arms.positive.value.memoryMode == OracleHandoff
    && arms.positive.value.packetSource == OraclePacket
  }

  /** The gate's semantics requirements on an assembled suite are conditions on
      the manifest alone. */
  lemma SemanticsIffManifest(m: Manifest, loaded: PerArm<Option<LoadedArm>>, parse: string -> Option<real>,
                             le: (string, string) -> bool, suite: Suite, i: nat)
    requires Pipeline(m, loaded, parse, le) == Ok(suite) && i < |suite.tasks|
    ensures AllOk(SemanticsReqs(suite.tasks[i])) <==> SettingsOk(m.arms)
  {
    SettingsCarryOver(m, loaded, parse, le, suite, i);
    SettingsDecide(suite.tasks[i], m.arms);
  }

  lemma SettingsDecide(task: TaskSpec, arms: PerArm<Option<ArmManifest>>)
    requires SameSettings(task, arms)
    ensures AllOk(SemanticsReqs(task)) <==> SettingsOk(arms)
  {
    SemanticsReqsIff(task);
    assert SameSetting(task.arms.Get(Baseline), arms.Get(Baseline).value);
    assert SameSetting(task.arms.Get(AionisAssisted), arms.Get(AionisAssisted).value);
    assert SameSetting(task.arms.Get(NegativeControl), arms.Get(NegativeControl).value);
    assert SameSetting(task.arms.Get(PositiveControl), arms.Get(PositiveControl).value);
  }

  // ----- the whole suite -----

  lemma PipelineAfterExit(tt: TextTests, m: Manifest, loaded: PerArm<Option<LoadedArm>>, parse: string -> Option<real>,
                          le: (string, string) -> bool, suite: Suite)
    requires Pipeline(m, loaded, parse, le) == Ok(suite)
    ensures AfterExitOnlyWhereRequired(tt, suite)
  {
    forall i | 0 <= i < |suite.tasks|
      ensures Resolve(tt, suite.tasks[i], AionisAssisted).metrics.afterExitCorrect.Some? ==>
                suite.tasks[i].verifier.afterExitRequired
    {
      var own, asked := PipelineTask(m, loaded, parse, le, suite, i, AionisAssisted);
      AfterExitIff(tt, suite.tasks[i], AionisAssisted,
                   RecordedFor(loaded.Get(AionisAssisted), TaskIds(m, loaded, le)[i]), own, asked);
    }
  }

  /** The gate on an assembled suite is a matter of the tasks and the
      efficiency signal. */
  lemma AssembledGateIff(tt: TextTests, m: Manifest, loaded: PerArm<Option<LoadedArm>>, parse: string -> Option<real>,
                         le: (string, string) -> bool, suite: Suite)
    requires Pipeline(m, loaded, parse, le) == Ok(suite)
    ensures var tasks := TaskResults(tt, suite.tasks, suite.kind);
            GatePasses(tt, suite) <==>
            && suite.tasks != []
            && (forall i :: 0 <= i < |tasks| ==> tasks[i].Passes())
            && EfficiencyOk(SummaryOf(tasks), ResolveThresholds(suite.thresholds))
  {
    PipelineAfterExit(tt, m, loaded, parse, le, suite);
    AfterExitClauseFollows(tt, suite);
  }

  /** The treatment's probe passed wherever the baseline's did; and where exit
      had to be survived it passed, unless an agent event has every mark of an
      after-exit proof under the verifier's command. */
  predicate ProbesFavour(baseline: Probe, treatment: Probe, ours: seq<Event>) {
    && (baseline.passed == Some(true) ==> treatment.passed == Some(true))
    && treatment.diagnostics.Some?
    && (treatment.expectations.afterExitRequired ==>
          treatment.passed == Some(true) || exists e :: e in ours && IsAfterExitProof(e, VerifierFor(treatment)))
  }

  /** What one passing task proves about the probes of its arms. */
  lemma PassingTaskProves(tt: TextTests, task: TaskSpec, theirs: seq<Event>, ours: seq<Event>,
                          baseline: Probe, treatment: Probe)
    requires Resolve(tt, task, Baseline).metrics.completion ==> Resolve(tt, task, AionisAssisted).metrics.completion
    requires task.verifier.afterExitRequired ==>
             Resolve(tt, task, AionisAssisted).metrics.afterExitCorrect == Some(true)
    requires IsCompiledArm(task, Baseline, theirs, baseline, treatment)
    requires IsCompiledArm(task, AionisAssisted, ours, treatment, treatment)
    ensures ProbesFavour(baseline, treatment, ours)
  {
    ProbeDecidesVerdict(tt, task, Baseline, theirs, baseline, treatment);
    ProbeDecidesVerdict(tt, task, AionisAssisted, ours, treatment, treatment);
    AfterExitNeedsProof(tt, task, AionisAssisted, ours, treatment, treatment);
  }

  lemma AfterExitNeedsProof(tt: TextTests, task: TaskSpec, arm: Arm, agent: seq<Event>, own: Probe, asked: Probe)
    requires IsCompiledArm(task, arm, agent, own, asked)
    ensures task.verifier.afterExitRequired <==> asked.expectations.afterExitRequired
    ensures Resolve(tt, task, arm).metrics.afterExitCorrect == Some(true) ==>
              own.passed == Some(true) || exists e :: e in agent && IsAfterExitProof(e, VerifierFor(asked))
  {
    AfterExitIff(tt, task, arm, agent, own, asked);
  }

  lemma GatePassesTask(tt: TextTests, suite: Suite, i: nat)
    requires GatePasses(tt, suite) && i < |suite.tasks|
    ensures BuildTaskResult(tt, suite.tasks[i], suite.kind).Passes()
  {
    GateDecomposition(tt, suite);
    TaskResultAt(tt, suite.tasks, suite.kind, i);
  }

  /** The probes and recorded events behind one task of an assembled suite. */
  ghost predicate Behind(m: Manifest, loaded: PerArm<Option<LoadedArm>>, task: TaskSpec, id: string,
                         baseline: Probe, treatment: Probe)
  {
    && ProbeIs(loaded, Baseline, id, baseline) && ProbeIs(loaded, AionisAssisted, id, treatment)
    && IsCompiledArm(task, Baseline, RecordedFor(loaded.baseline, id), baseline, treatment)
    && IsCompiledArm(task, AionisAssisted, RecordedFor(loaded.aionis, id), treatment, treatment)
    && m.arms.negative.Some? && task.arms.negative.authority == m.arms.negative.value.authority
  }

  lemma PipelineProbes(m: Manifest, loaded: PerArm<Option<LoadedArm>>, parse: string -> Option<real>,
                       le: (string, string) -> bool, suite: Suite, i: nat)
    returns (baseline: Probe, treatment: Probe)
    requires Pipeline(m, loaded, parse, le) == Ok(suite) && i < |suite.tasks|
    ensures |TaskIds(m, loaded, le)| == |suite.tasks|
    ensures Behind(m, loaded, suite.tasks[i], TaskIds(m, loaded, le)[i], baseline, treatment)
  {
    var input, capture := PipelineStages(m, loaded, parse, le, suite);
    StageTask(input, le, capture, suite, i);
    baseline, treatment := StagedProbes(m, loaded, parse, input, TaskIds(m, loaded, le)[i], capture.tasks[i],
                                        suite.tasks[i]);
  }

  lemma StagedProbes(m: Manifest, loaded: PerArm<Option<LoadedArm>>, parse: string -> Option<real>,
                     input: PairedCapture, id: string, task: CaptureTask, spec: TaskSpec)
    returns (baseline: Probe, treatment: Probe)
    requires Assemble(m, loaded, parse) == Ok(input)
    requires CompileProbeTask(input, id) == Ok(task) && CompileTask(task) == Ok(spec)
    ensures Behind(m, loaded, spec, id, baseline, treatment)
  {
    var asked;
    baseline, asked := StagedArm(m, loaded, parse, input, Baseline, id, task, spec);
    treatment, asked := StagedArm(m, loaded, parse, input, AionisAssisted, id, task, spec);
    var _, _ := StagedArm(m, loaded, parse, input, NegativeControl, id, task, spec);
  }

  lemma PassingTaskFavours(tt: TextTests, m: Manifest, loaded: PerArm<Option<LoadedArm>>, task: TaskSpec,
                           kind: SuiteKind, id: string, baseline: Probe, treatment: Probe)
    requires Behind(m, loaded, task, id, baseline, treatment)
    requires BuildTaskResult(tt, task, kind).Passes()
    ensures ProbesFavour(baseline, treatment, RecordedFor(loaded.aionis, id))
    ensures m.arms.negative.Some? && m.arms.negative.value.authority != Authoritative
  {
    PassingOutcome(tt, task, kind);
    PassingSemantics(tt, task, kind);
    PassingTaskProves(tt, task, RecordedFor(loaded.baseline, id), RecordedFor(loaded.aionis, id), baseline, treatment);
  }

  /** What a passing gate proves about the recorded probes of every task,
      whatever the agents wrote into their events; and no negative control held
      authority. */
  lemma PassingGateProves(tt: TextTests, m: Manifest, loaded: PerArm<Option<LoadedArm>>, parse: string -> Option<real>,
                          le: (string, string) -> bool, suite: Suite, i: nat)
    returns (baseline: Probe, treatment: Probe)
    requires Pipeline(m, loaded, parse, le) == Ok(suite) && GatePasses(tt, suite) && i < |suite.tasks|
    ensures |TaskIds(m, loaded, le)| == |suite.tasks|
    ensures var id := TaskIds(m, loaded, le)[i];
            && ProbeIs(loaded, Baseline, id, baseline) && ProbeIs(loaded, AionisAssisted, id, treatment)
            && ProbesFavour(baseline, treatment, RecordedFor(loaded.aionis, id))
            && m.arms.negative.Some? && m.arms.negative.value.authority != Authoritative
  {
    GatePassesTask(tt, suite, i);
    baseline, treatment := PipelineProbes(m, loaded, parse, le, suite, i);
    PassingTaskFavours(tt, m, loaded, suite.tasks[i], suite.kind, TaskIds(m, loaded, le)[i], baseline, treatment);
  }
}
