/** Small bodies of evidence that go through the whole pipeline, for any text
    tests, order of names and token parser: one that passes the gate as it
    should, and one for each way in which the stages promise less than their
    names. */
module Sample {
  import opened Util
  import opened Trace
  import opened Measure
  import opened Gate
  import opened TraceCapture
  import opened DogfoodCapture
  import opened Assembler
  import opened Fairness
  import opened Verdict
  import opened TaskVerdict

  const Unrecorded: Provenance := Provenance(None, None, None)

  const Step: Event := Blank(Action).(text := Some("a"), correct := Some(true))

  function ProbeWith(slice: string, passed: bool, service: bool, afterExit: bool): Probe {
    Probe("p", "f", "t", "q", Some(passed), "o", Some(Diagnostics(Some("c"), slice, "", "")),
          Expectations([], service, afterExit, []), Unrecorded)
  }

  function LoadedOf(r: Record): LoadedArm {
    LoadedArm(DogfoodRun(Supported, [r.own], Unrecorded), Wrapped(map["p" := r.agent]), None)
  }

  function EvidenceOf(rs: PerArm<Record>): PerArm<Option<LoadedArm>> {
    PerArm(Some(LoadedOf(rs.baseline)), Some(LoadedOf(rs.aionis)), Some(LoadedOf(rs.negative)),
           Some(LoadedOf(rs.positive)))
  }

  const TheManifest: Manifest :=
    Manifest(Supported, "m", PilotRealTrace, PartialThresholds(None, None, None, None), [], None, ["p"],
             PerArm(Some(ArmManifest("r", NoMemory, NoAuthority, NoPacket, "x", "y", false)),
                    Some(ArmManifest("r", AionisAuto, Advisory, AutomaticRuntime, "x", "y", false)),
                    Some(ArmManifest("r", IrrelevantOrLowTrust, Observational, IrrelevantLowTrust, "x", "y", false)),
                    Some(ArmManifest("r", OracleHandoff, Advisory, OraclePacket, "x", "y", false))))

  // ----- any usable records go through the pipeline -----

  predicate Usable(r: Record) {
    && r.own.id == "p" && r.own.passed.Some? && r.own.diagnostics.Some?
    && r.own.diagnostics.value.command.GetOr("") != ""
    && Count(IsActionEvent, r.agent) > 0
  }

  predicate AllUsable(rs: PerArm<Record>) {
    Usable(rs.baseline) && Usable(rs.aionis) && Usable(rs.negative) && Usable(rs.positive)
  }

  lemma ArmOf(rs: PerArm<Record>, arm: Arm)
    requires AllUsable(rs)
    ensures Usable(rs.Get(arm)) && EvidenceOf(rs).Get(arm) == Some(LoadedOf(rs.Get(arm)))
    ensures LoadedProbes(EvidenceOf(rs).Get(arm)) == [rs.Get(arm).own]
    ensures RecordedFor(EvidenceOf(rs).Get(arm), "p") == rs.Get(arm).agent
    ensures FindProbe(LoadedProbes(EvidenceOf(rs).Get(arm)), "p") == Some(rs.Get(arm).own)
  {
  }

  lemma LoadedIsFine(rs: PerArm<Record>, arm: Arm)
    requires AllUsable(rs)
    ensures AllOk(AssemblerArmReqs(TheManifest, EvidenceOf(rs))(arm))
  {
    ArmOf(rs, arm);
    var loaded := EvidenceOf(rs).Get(arm);
    var f := RecordedReqs(arm, loaded);
    AllOkFlatMap(f, LoadedProbes(loaded));
    AllOkAppend(LoadedArmReqs(arm, TheManifest.arms.Get(arm), loaded), FlatMap(f, LoadedProbes(loaded)));
  }

  lemma InputsAreValid(rs: PerArm<Record>)
    requires AllUsable(rs)
    ensures AllOk(AssemblerReqs(TheManifest, EvidenceOf(rs)))
  {
    var f := AssemblerArmReqs(TheManifest, EvidenceOf(rs));
    forall arm ensures AllOk(f(arm)) {
      LoadedIsFine(rs, arm);
    }
    AllOkForArms(f);
    AllOkAppend(ManifestHeaderReqs(TheManifest) + FairnessManifestReqs(TheManifest, EvidenceOf(rs)),
                FlatMap(f, RequiredArms));
  }

  lemma OneTask(rs: PerArm<Record>, le: (string, string) -> bool)
    ensures TaskIds(TheManifest, EvidenceOf(rs), le) == ["p"]
  {
    assert ["p"][..0] == [];
  }

  lemma OneIsSelected(rs: PerArm<Record>, parse: string -> Option<real>, le: (string, string) -> bool,
                      input: PairedCapture)
    requires Assemble(TheManifest, EvidenceOf(rs), parse) == Ok(input)
    ensures SelectedProbeIds(input, le) == ["p"]
  {
    assert input.taskIds == ["p"];
    assert ["p"][..0] == [];
  }

  predicate AllComplete(loaded: PerArm<Option<LoadedArm>>, ids: seq<string>) {
    forall arm, i | 0 <= i < |ids| :: ProbeComplete(loaded.Get(arm), ids[i])
  }

  /** Complete evidence assembles to a valid capture. */
  lemma CompleteIsValid(m: Manifest, loaded: PerArm<Option<LoadedArm>>, parse: string -> Option<real>,
                        le: (string, string) -> bool, input: PairedCapture, ids: seq<string>)
    requires AllOk(AssemblerReqs(m, loaded)) && Assemble(m, loaded, parse) == Ok(input)
    requires SelectedProbeIds(input, le) == ids && AllComplete(loaded, ids)
    ensures AllOk(PairedReqs(input, le))
  {
    AssembledCaptureValidIff(m, loaded, parse, le, input);
  }

  lemma ProbesAreComplete(rs: PerArm<Record>)
    requires AllUsable(rs)
    ensures AllComplete(EvidenceOf(rs), ["p"])
  {
    forall arm ensures ProbeComplete(EvidenceOf(rs).Get(arm), "p") {
      ArmOf(rs, arm);
    }
  }

  lemma CaptureIsValid(rs: PerArm<Record>, parse: string -> Option<real>, le: (string, string) -> bool)
    returns (input: PairedCapture)
    requires AllUsable(rs)
    ensures Assemble(TheManifest, EvidenceOf(rs), parse) == Ok(input)
    ensures AllOk(PairedReqs(input, le)) && SelectedProbeIds(input, le) == ["p"]
  {
    hide *;
    InputsAreValid(rs);
    ValidInputsAssemble(TheManifest, EvidenceOf(rs), parse);
    input := Assemble(TheManifest, EvidenceOf(rs), parse).value;
    OneIsSelected(rs, parse, le, input);
    ProbesAreComplete(rs);
    CompleteIsValid(TheManifest, EvidenceOf(rs), parse, le, input, ["p"]);
  }

  lemma StagesGive(m: Manifest, loaded: PerArm<Option<LoadedArm>>, parse: string -> Option<real>,
                   le: (string, string) -> bool, input: PairedCapture, capture: Capture, suite: Suite)
    requires Assemble(m, loaded, parse) == Ok(input) && CompilePairedCapture(input, le) == Ok(capture)
    requires CompileTraceCapture(capture) == Ok(suite)
    ensures Pipeline(m, loaded, parse, le) == Ok(suite) && suite.kind == m.kind && suite.thresholds == m.thresholds
  {
  }

  lemma StagesSucceed(rs: PerArm<Record>, parse: string -> Option<real>, le: (string, string) -> bool)
    returns (input: PairedCapture, capture: Capture, suite: Suite)
    requires AllUsable(rs)
    ensures Assemble(TheManifest, EvidenceOf(rs), parse) == Ok(input) && AllOk(PairedReqs(input, le))
    ensures SelectedProbeIds(input, le) == ["p"]
    ensures CompilePairedCapture(input, le) == Ok(capture) && CompileTraceCapture(capture) == Ok(suite)
    ensures Pipeline(TheManifest, EvidenceOf(rs), parse, le) == Ok(suite) && |suite.tasks| == 1
  {
    hide *;
    input := CaptureIsValid(rs, parse, le);
    ValidPairedCaptureCompiles(input, le);
    capture := CompilePairedCapture(input, le).value;
    CompiledCaptureCompiles(input, le, capture);
    suite := CompileTraceCapture(capture).value;
    StageShape(input, le, capture, suite);
    StagesGive(TheManifest, EvidenceOf(rs), parse, le, input, capture, suite);
  }

  lemma RecordsAre(rs: PerArm<Record>)
    requires AllUsable(rs)
    ensures RecordsOf(EvidenceOf(rs), "p", rs)
  {
    forall arm
      ensures ProbeIs(EvidenceOf(rs), arm, "p", rs.Get(arm).own)
              && rs.Get(arm).agent == RecordedFor(EvidenceOf(rs).Get(arm), "p")
    {
      ArmOf(rs, arm);
    }
  }

  /** The one task is compiled from the records, and passes as they say. */
  lemma TheTask(tt: TextTests, rs: PerArm<Record>, parse: string -> Option<real>, le: (string, string) -> bool,
                suite: Suite)
    requires AllUsable(rs) && Pipeline(TheManifest, EvidenceOf(rs), parse, le) == Ok(suite) && |suite.tasks| == 1
    ensures CompiledFrom(suite.tasks[0], rs)
    ensures BuildTaskResult(tt, suite.tasks[0], suite.kind).Passes() <==>
            InputsHold(tt, TheManifest, suite.tasks[0], rs)
  {
    hide *;
    OneTask(rs, le);
    RecordsAre(rs);
    var compiled := RecordsBehind(TheManifest, EvidenceOf(rs), parse, le, suite, 0);
    RecordsAreUnique(EvidenceOf(rs), "p", rs, compiled);
    var same := AssembledTaskPassesIff(tt, TheManifest, EvidenceOf(rs), parse, le, suite, 0);
    RecordsAreUnique(EvidenceOf(rs), "p", rs, same);
  }

  lemma NoWasteRecorded(tt: TextTests, task: TaskSpec, arm: Arm, r: Record, asked: Probe)
    requires IsCompiledArm(task, arm, r.agent, r.own, asked) && Count(IsWasted, r.agent) == 0
    ensures Resolve(tt, task, arm).metrics.wastedSteps == 0.0
  {
    CompiledWorkIsTheAgents(tt, task, arm, r.agent, r.own, asked);
  }

  lemma OneTaskWithoutWaste(tasks: seq<TaskResult>, t: Thresholds)
    requires |tasks| == 1 && tasks[0].arms.baseline.metrics.wastedSteps == 0.0
    requires tasks[0].arms.aionis.metrics.wastedSteps == 0.0
    ensures EfficiencyOk(SummaryOf(tasks), t)
  {
    var arms := Column(ArmsOf, tasks);
    assert Column(WastedOf, Column(BaselineOf, arms)) == [0.0];
    assert Column(WastedOf, Column(TreatmentOf, arms)) == [0.0];
    assert Sum([0.0]) == 0.0 by { assert [0.0][1..] == []; }
    NoWasteIsEfficient(arms, t);
  }

  lemma OnlyTaskDecides(tt: TextTests, suite: Suite)
    requires |suite.tasks| == 1 && BuildTaskResult(tt, suite.tasks[0], suite.kind).Passes()
    requires Resolve(tt, suite.tasks[0], Baseline).metrics.wastedSteps == 0.0
    requires Resolve(tt, suite.tasks[0], AionisAssisted).metrics.wastedSteps == 0.0
    ensures var tasks := TaskResults(tt, suite.tasks, suite.kind);
            && (forall i :: 0 <= i < |tasks| ==> tasks[i].Passes())
            && EfficiencyOk(SummaryOf(tasks), ResolveThresholds(suite.thresholds))
  {
    TaskResultAt(tt, suite.tasks, suite.kind, 0);
    OneTaskWithoutWaste(TaskResults(tt, suite.tasks, suite.kind), ResolveThresholds(suite.thresholds));
  }

  /** With no wasted step the gate passes as soon as the inputs hold. */
  lemma GatePassesWith(tt: TextTests, rs: PerArm<Record>, parse: string -> Option<real>, le: (string, string) -> bool,
                       suite: Suite)
    requires AllUsable(rs) && Pipeline(TheManifest, EvidenceOf(rs), parse, le) == Ok(suite) && |suite.tasks| == 1
    requires InputsHold(tt, TheManifest, suite.tasks[0], rs)
    requires Count(IsWasted, rs.baseline.agent) == 0 && Count(IsWasted, rs.aionis.agent) == 0
    ensures GatePasses(tt, suite)
  {
    hide *;
    TheTask(tt, rs, parse, le, suite);
    RecordIsCompiled(suite.tasks[0], rs, Baseline);
    RecordIsCompiled(suite.tasks[0], rs, AionisAssisted);
    ArmsByName(rs);
    NoWasteRecorded(tt, suite.tasks[0], Baseline, rs.baseline, rs.aionis.own);
    NoWasteRecorded(tt, suite.tasks[0], AionisAssisted, rs.aionis, rs.aionis.own);
    OnlyTaskDecides(tt, suite);
    AssembledGateIff(tt, TheManifest, EvidenceOf(rs), parse, le, suite);
  }

  lemma ArmsByName<T>(p: PerArm<T>)
    ensures p.Get(Baseline) == p.baseline && p.Get(AionisAssisted) == p.aionis
    ensures p.Get(NegativeControl) == p.negative && p.Get(PositiveControl) == p.positive
  {
  }

  lemma OneStep()
    ensures Count(IsActionEvent, [Step]) == 1 && Count(IsWasted, [Step]) == 0
    ensures Filter(IsActionEvent, [Step]) == [Step]
  {
    assert [Step][1..] == [];
  }

  // ----- evidence that passes -----

  /** All arms alike: one action each, every probe passed. */
  const Good: Record := Record(ProbeWith("s", true, false, false), [Step])

  const AllGood: PerArm<Record> := PerArm(Good, Good, Good, Good)

  lemma GoodIsUsable()
    ensures AllUsable(AllGood)
    ensures Count(IsWasted, AllGood.baseline.agent) == 0 && Count(IsWasted, AllGood.aionis.agent) == 0
  {
    OneStep();
  }

  lemma GoodHolds(tt: TextTests, task: TaskSpec)
    ensures InputsHold(tt, TheManifest, task, AllGood)
  {
    forall arm ensures EvidenceOfRecord(AllGood.Get(arm), AllGood.aionis.own) {
      assert AllGood.Get(arm) == Good;
    }
  }

  /** Passing every validator, compiling, and passing the gate is possible. */
  lemma SomeEvidencePasses(tt: TextTests, parse: string -> Option<real>, le: (string, string) -> bool)
    returns (suite: Suite)
    ensures AllOk(AssemblerReqs(TheManifest, EvidenceOf(AllGood)))
    ensures Pipeline(TheManifest, EvidenceOf(AllGood), parse, le) == Ok(suite) && |suite.tasks| == 1
    ensures GatePasses(tt, suite)
  {
    hide *;
    GoodIsUsable();
    InputsAreValid(AllGood);
    var input, capture;
    input, capture, suite := StagesSucceed(AllGood, parse, le);
    GoodHolds(tt, suite.tasks[0]);
    GatePassesWith(tt, AllGood, parse, le, suite);
  }

  // ----- a valid capture that compiles to an invalid one -----

  const Visible: Record := Record(ProbeWith("s", true, true, false), [Step])

  /** As the others, but its probe ran in another slice. */
  const OtherSlice: Record := Record(ProbeWith("t", true, true, false), [Step])

  const Mismatched: PerArm<Record> := PerArm(OtherSlice, Visible, Visible, Visible)

  lemma BaselineDisagrees(parse: string -> Option<real>, input: PairedCapture)
    requires Assemble(TheManifest, EvidenceOf(Mismatched), parse) == Ok(input) && AllUsable(Mismatched)
    ensures !EvidenceAgrees(input, Baseline, "p")
  {
    ArmOf(Mismatched, Baseline);
    ArmOf(Mismatched, AionisAssisted);
    AssembledArm(TheManifest, EvidenceOf(Mismatched), parse, input, Baseline);
    AssembledArm(TheManifest, EvidenceOf(Mismatched), parse, input, AionisAssisted);
    assert EventsFor(input.arms.Get(Baseline), "p") == [Step];
    assert !EvidenceMeets([Step], OtherSlice.own, Visible.own) by {
      assert "s" != "t";
    }
  }

  /** A paired capture with every requirement met, compiled to a trace capture
      that fails its own validator. */
  lemma ValidCaptureTurnsInvalid(parse: string -> Option<real>, le: (string, string) -> bool)
    returns (input: PairedCapture, capture: Capture)
    ensures AllOk(PairedReqs(input, le)) && CompilePairedCapture(input, le) == Ok(capture)
    ensures !AllOk(CaptureReqs(capture))
  {
    OneStep();
    var suite;
    input, capture, suite := StagesSucceed(Mismatched, parse, le);
    BaselineDisagrees(parse, input);
    CompiledCaptureValidIff(input, le, capture);
    assert SelectedProbeIds(input, le)[0] == "p";
  }

  // ----- an agent event that vouches for survival -----

  const FailedProbe: Probe := ProbeWith("s", false, false, true)

  /** An event under the verifier's own signature, written by the agent. */
  const Vouching: Event :=
    Blank(Verification).(command := Some(Signature(FailedProbe)), success := Some(true), afterExit := Some(true))

  const Failed: Record := Record(FailedProbe, [Step])

  const Vouched: Record := Record(FailedProbe, [Step, Vouching])

  const AllFailed: PerArm<Record> := PerArm(Failed, Vouched, Failed, Failed)

  lemma TwoEvents()
    ensures Count(IsActionEvent, [Step, Vouching]) == 1 && Count(IsWasted, [Step, Vouching]) == 0
    ensures Filter(IsActionEvent, [Step, Vouching]) == [Step]
  {
    OneStep();
    assert [Step, Vouching][1..] == [Vouching] && [Vouching][1..] == [];
  }

  lemma VouchingProves()
    ensures IsAfterExitProof(Vouching, VerifierFor(FailedProbe)) && Vouching in Vouched.agent
  {
    assert Vouched.agent[1] == Vouching;
  }

  lemma NobodyIsConfident()
    ensures !Failed.FalselyConfident() && !Vouched.FalselyConfident()
  {
    assert forall e :: e in Failed.agent ==> e == Step;
    assert forall e :: e in Vouched.agent ==> e == Step || e == Vouching;
  }

  lemma FailedHolds(tt: TextTests, task: TaskSpec)
    ensures InputsHold(tt, TheManifest, task, AllFailed)
  {
    OneStep();
    VouchingProves();
    NobodyIsConfident();
    forall arm ensures EvidenceOfRecord(AllFailed.Get(arm), AllFailed.aionis.own) {
      assert AllFailed.Get(arm).own == FailedProbe;
    }
  }

  /** The after-exit verdict, and with it the gate, can pass although the
      treatment's probe failed on a task that asks to survive exit. */
  lemma AgentVouchesForExit(tt: TextTests, parse: string -> Option<real>, le: (string, string) -> bool)
    returns (suite: Suite)
    ensures AllOk(AssemblerReqs(TheManifest, EvidenceOf(AllFailed)))
    ensures Pipeline(TheManifest, EvidenceOf(AllFailed), parse, le) == Ok(suite) && |suite.tasks| == 1
    ensures AllFailed.aionis.own.passed == Some(false) && AllFailed.aionis.own.expectations.afterExitRequired
    ensures var metrics := Resolve(tt, suite.tasks[0], AionisAssisted).metrics;
            metrics.afterExitCorrect == Some(true) && !metrics.verifierPassed && !metrics.completion
    ensures GatePasses(tt, suite)
  {
    hide *;
    FailedIsUsable();
    InputsAreValid(AllFailed);
    var input, capture;
    input, capture, suite := StagesSucceed(AllFailed, parse, le);
    FailedHolds(tt, suite.tasks[0]);
    GatePassesWith(tt, AllFailed, parse, le, suite);
    TheTask(tt, AllFailed, parse, le, suite);
    TreatmentMetrics(tt, suite.tasks[0]);
  }

  lemma FailedIsUsable()
    ensures AllUsable(AllFailed)
    ensures AllFailed.aionis.own.passed == Some(false) && AllFailed.aionis.own.expectations.afterExitRequired
    ensures Count(IsWasted, AllFailed.baseline.agent) == 0 && Count(IsWasted, AllFailed.aionis.agent) == 0
  {
    OneStep();
    TwoEvents();
  }

  lemma TreatmentMetrics(tt: TextTests, task: TaskSpec)
    requires CompiledFrom(task, AllFailed)
    ensures var metrics := Resolve(tt, task, AionisAssisted).metrics;
            metrics.afterExitCorrect == Some(true) && !metrics.verifierPassed && !metrics.completion
  {
    RecordIsCompiled(task, AllFailed, AionisAssisted);
    VouchingProves();
    AfterExitIff(tt, task, AionisAssisted, Vouched.agent, FailedProbe, FailedProbe);
    ProbeDecidesVerdict(tt, task, AionisAssisted, Vouched.agent, FailedProbe, FailedProbe);
  }

  // ----- a frozen comparison that compares nothing -----

  const BlankEnvironment: Environment := Environment(None, None, None, None, None, None, None)

  function FrozenArm(root: string): LoadedArm {
    var p := Provenance(Some(Supported), Some(root), Some(true));
    LoadedArm(DogfoodRun(Supported, [Good.own.(provenance := p)], p), Wrapped(map["p" := [Step]]),
              Some(LlmResult("p", None, "", "", Some(BlankEnvironment))))
  }

  const FrozenProtocol: FairnessManifest :=
    FairnessManifest(Supported, ["p"], [("verifier", true)], None, None, None,
                     PerArm(NoPacket, AutomaticRuntime, IrrelevantLowTrust, OraclePacket), true)

  const FrozenManifest: Manifest := TheManifest.(fairnessManifest := Some(FrozenProtocol))

  const FrozenEvidence: PerArm<Option<LoadedArm>> :=
    PerArm(Some(FrozenArm("v")), Some(FrozenArm("w")), Some(FrozenArm("v")), Some(FrozenArm("v")))

  lemma FrozenArmsAre(arm: Arm)
    ensures EnvironmentOf(FrozenEvidence.Get(arm)) == Some(BlankEnvironment)
    ensures IsVersioned(RunProvenance(FrozenEvidence.Get(arm)))
    ensures RunProvenance(FrozenEvidence.Get(arm)).workspaceRoot.Some?
    ensures |LoadedProbes(FrozenEvidence.Get(arm))| == 1
    ensures IsFreshShell(LoadedProbes(FrozenEvidence.Get(arm))[0].provenance)
  {
  }

  lemma FrozenRunsAreFair()
    ensures ProvenanceFair(FrozenProtocol, FrozenEvidence)
  {
    forall arm
      ensures IsVersioned(RunProvenance(FrozenEvidence.Get(arm)))
              && RunProvenance(FrozenEvidence.Get(arm)).workspaceRoot.Some?
    {
      FrozenArmsAre(arm);
    }
    FrozenArmsAre(Baseline);
    FrozenArmsAre(AionisAssisted);
    FrozenArmsAre(NegativeControl);
    FrozenArmsAre(PositiveControl);
    assert FrozenEvidence.Get(Baseline) == FrozenEvidence.baseline
        && FrozenEvidence.Get(AionisAssisted) == FrozenEvidence.aionis
        && FrozenEvidence.Get(NegativeControl) == FrozenEvidence.negative
        && FrozenEvidence.Get(PositiveControl) == FrozenEvidence.positive;
    assert LoadedProbes(FrozenEvidence.baseline)[0] in AllProbes(FrozenEvidence);
  }

  lemma FrozenEnvironmentsAreFair()
    ensures EnvironmentsFair(FrozenProtocol, FrozenEvidence)
    ensures forall arm :: !Records(FrozenEvidence, InitialWorkspaceOf, arm)
  {
    forall arm ensures EnvironmentOf(FrozenEvidence.Get(arm)) == Some(BlankEnvironment) {
      FrozenArmsAre(arm);
    }
  }

  /** Every requirement of the assembler, those of the fairness manifest among
      them, passes although no arm recorded
      the hash of its initial workspace, and the verifier ran in different
      workspaces where one was promised. */
  lemma FrozenPromisesLess()
    ensures AllOk(AssemblerReqs(FrozenManifest, FrozenEvidence)) && FrozenProtocol.sameVerifierWorkspace
    ensures forall arm :: !Records(FrozenEvidence, InitialWorkspaceOf, arm)
    ensures RunProvenance(FrozenEvidence.baseline).workspaceRoot != RunProvenance(FrozenEvidence.aionis).workspaceRoot
  {
    FrozenInputsAreValid();
    FrozenEnvironmentsAreFair();
    assert "v" != "w";
  }

  lemma FrozenArmIsFine(arm: Arm)
    ensures AllOk(AssemblerArmReqs(FrozenManifest, FrozenEvidence)(arm))
  {
    OneStep();
    var loaded := FrozenEvidence.Get(arm);
    assert RecordedFor(loaded, "p") == [Step] && LoadedProbes(loaded)[0].id == "p";
    var f := RecordedReqs(arm, loaded);
    AllOkFlatMap(f, LoadedProbes(loaded));
    AllOkAppend(LoadedArmReqs(arm, FrozenManifest.arms.Get(arm), loaded), FlatMap(f, LoadedProbes(loaded)));
  }

  lemma FrozenInputsAreValid()
    ensures AllOk(AssemblerReqs(FrozenManifest, FrozenEvidence))
  {
    var f := AssemblerArmReqs(FrozenManifest, FrozenEvidence);
    forall arm ensures AllOk(f(arm)) {
      FrozenArmIsFine(arm);
    }
    AllOkForArms(f);
    FrozenRequirementsHold();
    FrozenHeaderIsFine();
    AllOkAppend(ManifestHeaderReqs(FrozenManifest), FairnessManifestReqs(FrozenManifest, FrozenEvidence));
    AllOkAppend(ManifestHeaderReqs(FrozenManifest) + FairnessManifestReqs(FrozenManifest, FrozenEvidence),
                FlatMap(f, RequiredArms));
  }

  lemma FrozenHeaderIsFine()
    ensures AllOk(ManifestHeaderReqs(FrozenManifest))
  {
  }

  lemma FrozenRequirementsHold()
    ensures AllOk(FairnessManifestReqs(FrozenManifest, FrozenEvidence))
  {
    hide *;
    FrozenRunsAreFair();
    FrozenEnvironmentsAreFair();
    FrozenFieldsAreFair();
    FrozenReqsIff(FrozenProtocol, FrozenManifest, FrozenEvidence);
  }

  lemma FrozenFieldsAreFair()
    ensures FrozenProtocol.version == Supported && (forall entry :: entry in FrozenProtocol.frozen ==> entry.1)
    ensures forall x :: x in FrozenProtocol.taskIds <==> x in FrozenManifest.taskIds
    ensures PacketsMatch(FrozenProtocol, FrozenManifest.arms)
    ensures !(FrozenManifest.arms.aionis.Some? && FrozenManifest.arms.aionis.value.hinted)
    ensures FairnessManifestReqs(FrozenManifest, FrozenEvidence)
            == FrozenReqs(FrozenProtocol, FrozenManifest, FrozenEvidence)
  {
  }
}
