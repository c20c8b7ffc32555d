/** The trace capture: its validator, and its compilation to the suite that the
    gate judges. */
module TraceCapture {
  import opened Util
  import opened Trace
  import opened Gate

  datatype ArmRun = ArmRun(
    runId: string,
    memoryMode: MemoryMode,
    authority: Authority,
    packetSource: PacketSource,
    startedAtMs: Option<real>,
    endedAtMs: Option<real>,
    events: seq<Event>,
    outcome: PartialMetrics)

  datatype CaptureTask = CaptureTask(
    id: string,
    title: string,
    family: string,
    prompt: string,
    fairness: seq<(string, bool)>,
    verifier: VerifierSpec,
    targetFiles: seq<string>,
    acceptanceChecks: seq<string>,
    runs: PerArm<Option<ArmRun>>)

  datatype Capture = Capture(
    version: Version,
    suiteId: string,
    kind: SuiteKind,
    thresholds: PartialThresholds,
    tasks: seq<CaptureTask>)

  // ----- the validator -----

  function CaptureHeaderReqs(input: Capture): seq<Requirement> {
    [Requirement(OfSuite, VersionSupported, input.version == Supported),
     Requirement(OfSuite, KindSupported, input.kind == PilotRealTrace || input.kind == ProductRealTrace)]
  }

  function RunEvents(run: Option<ArmRun>): seq<Event> {
    if run.Some? then run.value.events else []
  }

  function ArmRunReqs(task: CaptureTask, arm: Arm): seq<Requirement> {
    var run := task.runs.Get(arm);
    var events := RunEvents(run);
    var subject := OfTaskArm(task.id, arm);
    [Requirement(subject, TracePresent, run.Some?),
     Requirement(subject, RunIdPresent, run.Some? && run.value.runId != ""),
     Requirement(subject, EventsPresent, events != []),
     Requirement(subject, VerifierPresent, HasVerifier(events))]
    + (if ProbeRequired(task.verifier) then
         [Requirement(subject, ExternalProbePresent, HasExternalProbe(events, task.verifier))]
       else [])
    + (if task.verifier.afterExitRequired then
         [Requirement(subject, AfterExitPresent, HasAfterExitVerifier(events)),
          Requirement(subject, FreshShellPresent, HasFreshShellVerifier(events))]
       else [])
  }

  function RunReqs(task: CaptureTask): Arm -> seq<Requirement> {
    (arm: Arm) => ArmRunReqs(task, arm)
  }

  function CaptureTaskReqs(task: CaptureTask): seq<Requirement> {
    FlatMap(RunReqs(task), RequiredArms)
  }

  function CaptureReqs(input: Capture): seq<Requirement> {
    CaptureHeaderReqs(input) + FlatMap(CaptureTaskReqs, input.tasks)
  }

  /** The inner loop, over the arms of one task. */
  method PushRunReqs(task: CaptureTask) returns (requirements: seq<Requirement>)
    ensures requirements == CaptureTaskReqs(task)
  {
    requirements := [];
    ghost var f := RunReqs(task);
    for k := 0 to |RequiredArms|
      invariant requirements == FlatMap(f, RequiredArms[..k])
    {
      var run := ArmRunReqs(task, RequiredArms[k]);
      assert run == f(RequiredArms[k]);
      FlatMapStep(f, RequiredArms, k);
      requirements := requirements + run;
    }
    assert RequiredArms[..|RequiredArms|] == RequiredArms;
  }

  /** The outer loop, over the tasks. */
  method ValidateTraceCapture(input: Capture) returns (requirements: seq<Requirement>)
    ensures requirements == CaptureReqs(input)
  {
    var header := CaptureHeaderReqs(input);
    requirements := header;
    for i := 0 to |input.tasks|
      invariant requirements == header + FlatMap(CaptureTaskReqs, input.tasks[..i])
    {
      var pushed := PushRunReqs(input.tasks[i]);
      requirements := requirements + pushed;
      FlatMapStep(CaptureTaskReqs, input.tasks, i);
    }
    assert input.tasks[..|input.tasks|] == input.tasks;
  }

  // ----- compilation -----

  function CompileRun(run: ArmRun): Observation {
    Observation(run.memoryMode, run.authority, run.packetSource, None,
                Some(RunTrace(Supported, run.runId, run.startedAtMs, run.endedAtMs, run.events, run.outcome)))
  }

  function CompileTask(task: CaptureTask): Outcome<TaskSpec> {
    var r := task.runs;
    if r.baseline.None? || r.aionis.None? || r.negative.None? || r.positive.None? then Thrown(UndefinedAccess)
    else
      Ok(TaskSpec(task.id, task.title, task.family, task.prompt, task.fairness, task.verifier,
                  task.targetFiles, task.acceptanceChecks,
                  PerArm(CompileRun(r.baseline.value), CompileRun(r.aionis.value),
                         CompileRun(r.negative.value), CompileRun(r.positive.value))))
  }

  function CompileTraceCapture(input: Capture): Outcome<Suite> {
    match Traverse(CompileTask, input.tasks)
    case Thrown(e) => Thrown(e)
    case Ok(tasks) => Ok(Suite(input.suiteId, input.kind, input.thresholds, tasks))
  }

  // ----- the validator and the gate ask for the same evidence -----

  /** The evidence that both the capture and the gate require of a run. */
  predicate EvidenceComplete(runId: string, events: seq<Event>, verifier: VerifierSpec) {
    && runId != "" && events != [] && HasVerifier(events)
    && (ProbeRequired(verifier) ==> HasExternalProbe(events, verifier))
    && (verifier.afterExitRequired ==> HasAfterExitVerifier(events) && HasFreshShellVerifier(events))
  }

  /** Four requirements, one more for probes, two more for after-exit tasks. */
  lemma EvidenceReqsIff(a: Requirement, b: Requirement, c: Requirement, d: Requirement,
                        probe: bool, p: Requirement, afterExit: bool, q: Requirement, r: Requirement)
    ensures AllOk([a, b, c, d] + (if probe then [p] else []) + (if afterExit then [q, r] else [])) <==>
            a.ok && b.ok && c.ok && d.ok && (probe ==> p.ok) && (afterExit ==> q.ok && r.ok)
  {
    AllOkAppend([a, b, c, d] + (if probe then [p] else []), if afterExit then [q, r] else []);
    AllOkAppend([a, b, c, d], if probe then [p] else []);
    assert AllOk([a, b, c, d]) <==> a.ok && b.ok && c.ok && d.ok by {
      var s := [a, b, c, d];
      assert s[0] in s && s[1] in s && s[2] in s && s[3] in s;
    }
    assert AllOk([p]) <==> p.ok by { assert [p][0] in [p]; }
    assert AllOk([q, r]) <==> q.ok && r.ok by { assert [q, r][0] in [q, r] && [q, r][1] in [q, r]; }
  }

  lemma ArmRunReqsIff(task: CaptureTask, arm: Arm)
    ensures AllOk(ArmRunReqs(task, arm)) <==>
            var run := task.runs.Get(arm);
            run.Some? && EvidenceComplete(run.value.runId, run.value.events, task.verifier)
  {
    var run := task.runs.Get(arm);
    var events := RunEvents(run);
    var subject := OfTaskArm(task.id, arm);
    EvidenceReqsIff(
      Requirement(subject, TracePresent, run.Some?),
      Requirement(subject, RunIdPresent, run.Some? && run.value.runId != ""),
      Requirement(subject, EventsPresent, events != []),
      Requirement(subject, VerifierPresent, HasVerifier(events)),
      ProbeRequired(task.verifier),
      Requirement(subject, ExternalProbePresent, HasExternalProbe(events, task.verifier)),
      task.verifier.afterExitRequired,
      Requirement(subject, AfterExitPresent, HasAfterExitVerifier(events)),
      Requirement(subject, FreshShellPresent, HasFreshShellVerifier(events)));
  }

  lemma LiveEvidenceOfArmIff(task: TaskSpec, arm: Arm)
    ensures AllOk(LiveEvidenceOfArm(task, arm)) <==>
            var trace := task.arms.Get(arm).trace;
            && trace.Some? && trace.value.version == Supported
            && EvidenceComplete(trace.value.runId, trace.value.events, task.verifier)
  {
    var trace := task.arms.Get(arm).trace;
    var subject := OfTaskArm(task.id, arm);
    var events := if trace.Some? then trace.value.events else [];
    EvidenceReqsIff(
      Requirement(subject, TracePresent, trace.Some? && trace.value.version == Supported),
      Requirement(subject, RunIdPresent, trace.Some? && trace.value.runId != ""),
      Requirement(subject, EventsPresent, events != []),
      Requirement(subject, VerifierPresent, HasVerifier(events)),
      ProbeRequired(task.verifier),
      Requirement(subject, ExternalProbePresent, HasExternalProbe(events, task.verifier)),
      task.verifier.afterExitRequired,
      Requirement(subject, AfterExitPresent, HasAfterExitVerifier(events)),
      Requirement(subject, FreshShellPresent, HasFreshShellVerifier(events)));
  }

  lemma SameEvidence(task: CaptureTask, spec: TaskSpec, arm: Arm)
    requires CompileTask(task) == Ok(spec)
    ensures AllOk(ArmEvidence(spec)(arm)) <==> AllOk(RunReqs(task)(arm))
  {
    ArmRunReqsIff(task, arm);
    LiveEvidenceOfArmIff(spec, arm);
    assert spec.arms.Get(arm) == CompileRun(task.runs.Get(arm).value);
  }

  /** On a compiled task the gate's evidence requirements pass exactly when the
      capture's requirements did. */
  lemma LiveEvidenceIffCapture(task: CaptureTask, spec: TaskSpec, kind: SuiteKind)
    requires CompileTask(task) == Ok(spec) && kind != HarnessCalibration
    ensures AllOk(LiveEvidenceReqs(spec, kind)) <==> AllOk(CaptureTaskReqs(task))
  {
    AllOkForArms(ArmEvidence(spec));
    AllOkForArms(RunReqs(task));
    forall arm ensures AllOk(ArmEvidence(spec)(arm)) <==> AllOk(RunReqs(task)(arm)) {
      SameEvidence(task, spec, arm);
    }
  }

  lemma CaptureReqsIff(input: Capture)
    ensures AllOk(CaptureReqs(input)) <==>
            && input.version == Supported
            && (input.kind == PilotRealTrace || input.kind == ProductRealTrace)
            && forall i :: 0 <= i < |input.tasks| ==> AllOk(CaptureTaskReqs(input.tasks[i]))
  {
    var h := CaptureHeaderReqs(input);
    assert h[0] in h && h[1] in h;
    AllOkAppend(h, FlatMap(CaptureTaskReqs, input.tasks));
    AllOkFlatMap(CaptureTaskReqs, input.tasks);
  }

  /** A valid capture always compiles. */
  lemma ValidCaptureCompiles(input: Capture)
    requires AllOk(CaptureReqs(input))
    ensures CompileTraceCapture(input).Ok?
  {
    CaptureReqsIff(input);
    forall i | 0 <= i < |input.tasks| ensures CompileTask(input.tasks[i]).Ok? {
      TaskReqsGiveRuns(input.tasks[i]);
    }
    TraverseOk(CompileTask, input.tasks);
  }

  /** A compiled capture is valid exactly when its kind and version are, and the
      gate finds complete live evidence in every task of the suite. */
  lemma CompiledEvidenceIff(input: Capture, suite: Suite)
    requires CompileTraceCapture(input) == Ok(suite)
    ensures AllOk(CaptureReqs(input)) <==>
            && input.version == Supported && input.kind != HarnessCalibration
            && forall i :: 0 <= i < |suite.tasks| ==> AllOk(LiveEvidenceReqs(suite.tasks[i], suite.kind))
  {
    CaptureReqsIff(input);
    if input.kind != HarnessCalibration {
      forall i | 0 <= i < |suite.tasks|
        ensures AllOk(LiveEvidenceReqs(suite.tasks[i], suite.kind)) <==> AllOk(CaptureTaskReqs(input.tasks[i]))
      {
        LiveEvidenceIffCapture(input.tasks[i], suite.tasks[i], input.kind);
      }
    }
  }

  lemma TaskReqsGiveRuns(task: CaptureTask)
    requires AllOk(CaptureTaskReqs(task))
    ensures CompileTask(task).Ok?
  {
    AllOkForArms(RunReqs(task));
    forall arm ensures task.runs.Get(arm).Some? {
      ArmReqsGiveRun(task, arm);
    }
    FourRunsCompile(task);
  }

  lemma FourRunsCompile(task: CaptureTask)
    requires forall arm :: task.runs.Get(arm).Some?
    ensures CompileTask(task).Ok?
  {
    var r := task.runs;
    assert r.Get(Baseline).Some? && r.Get(AionisAssisted).Some? && r.Get(NegativeControl).Some?
        && r.Get(PositiveControl).Some?;
  }

  lemma ArmReqsGiveRun(task: CaptureTask, arm: Arm)
    ensures AllOk(RunReqs(task)(arm)) ==> task.runs.Get(arm).Some?
  {
    ArmRunReqsIff(task, arm);
  }
}
