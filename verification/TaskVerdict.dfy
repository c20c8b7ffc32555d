/** Exactly when a task of an assembled suite passes, as a condition on the
    manifest, the recorded probes and the recorded agent events. */
module TaskVerdict {
  import opened Util
  import opened Trace
  import opened Discipline
  import opened Measure
  import opened Gate
  import opened GateTheorems
  import opened TraceCapture
  import opened DogfoodCapture
  import opened Assembler
  import opened Verdict

  /** What was recorded of one arm for one probe id. */
  datatype Record = Record(own: Probe, agent: seq<Event>) {
    predicate Passed() { own.passed == Some(true) }

    predicate FalselyConfident() {
      || (exists e :: e in agent && e.falseConfidence == Some(true))
      || (own.passed == Some(false) && exists e :: e in agent && ClaimsSuccess(e))
      || ClaimRefuted(agent)
    }
  }

  /** The task is compiled from these records; the treatment's probe is the one
      that asks. */
  ghost predicate CompiledFrom(task: TaskSpec, rs: PerArm<Record>) {
    forall arm :: IsCompiledArm(task, arm, rs.Get(arm).agent, rs.Get(arm).own, rs.aionis.own)
  }

  // ----- the six groups of requirements -----

  predicate EvidenceOfRecord(r: Record, asked: Probe) {
    r.own.diagnostics.Some? && asked.diagnostics.Some? && EvidenceMeets(r.agent, r.own, asked)
  }

  lemma EvidenceOfArmIs(task: TaskSpec, arm: Arm, r: Record, asked: Probe)
    requires IsCompiledArm(task, arm, r.agent, r.own, asked)
    ensures AllOk(LiveEvidenceOfArm(task, arm)) <==> EvidenceOfRecord(r, asked)
  {
    LiveEvidenceOfArmIff(task, arm);
    HarnessEvidenceIff(r.agent, r.own, asked);
  }

  lemma EvidenceIff(task: TaskSpec, rs: PerArm<Record>, kind: SuiteKind)
    requires CompiledFrom(task, rs)
    ensures AllOk(LiveEvidenceReqs(task, kind)) <==>
            kind == HarnessCalibration || forall arm :: EvidenceOfRecord(rs.Get(arm), rs.aionis.own)
  {
    LiveEvidenceReqsIff(task, kind);
    forall arm ensures AllOk(LiveEvidenceOfArm(task, arm)) <==> EvidenceOfRecord(rs.Get(arm), rs.aionis.own) {
      EvidenceOfArmIs(task, arm, rs.Get(arm), rs.aionis.own);
    }
  }

  lemma Measured(task: TaskSpec, rs: PerArm<Record>)
    requires CompiledFrom(task, rs)
    ensures AllOk(MeasurementReqs(task))
  {
    MeasurementReqsIff(task);
    forall arm ensures task.arms.Get(arm).trace.Some? {
      assert IsCompiledArm(task, arm, rs.Get(arm).agent, rs.Get(arm).own, rs.aionis.own);
    }
  }

  /** A locked treatment complied, on the agent's events alone. */
  predicate Complies(tt: TextTests, task: TaskSpec, r: Record) {
    IsLocked(AionisAssisted, task.arms.aionis) ==> ComplianceBy(JudgeFor(tt, task), true, r.agent).status == Pass
  }

  lemma DisciplineIff(tt: TextTests, task: TaskSpec, r: Record, kind: SuiteKind)
    requires IsCompiledArm(task, AionisAssisted, r.agent, r.own, r.own)
    ensures AllOk(DisciplineReqs(task, Resolve(tt, task, AionisAssisted), kind)) <==>
            kind == HarnessCalibration || Complies(tt, task, r)
  {
    var treatment := Resolve(tt, task, AionisAssisted);
    CompiledWorkIsTheAgents(tt, task, AionisAssisted, r.agent, r.own, r.own);
    LockedReqIff(task, treatment, kind);
  }

  lemma LockedReqIff(task: TaskSpec, treatment: Resolved, kind: SuiteKind)
    requires treatment.summary.Some?
    ensures AllOk(DisciplineReqs(task, treatment, kind)) <==>
            kind == HarnessCalibration
            || (IsLocked(AionisAssisted, treatment.obs) ==> treatment.summary.value.compliance.status == Pass)
  {
    var rs := DisciplineReqs(task, treatment, kind);
    if kind != HarnessCalibration { assert rs[0] in rs; }
  }

  lemma MetricsOfRecord(tt: TextTests, task: TaskSpec, arm: Arm, r: Record, asked: Probe)
    requires IsCompiledArm(task, arm, r.agent, r.own, asked)
    ensures var metrics := Resolve(tt, task, arm).metrics;
            && metrics.completion == r.Passed()
            && metrics.falseConfidence == r.FalselyConfident()
            && metrics.firstCorrectAction == FirstCorrectAction(r.agent, task)
  {
    ProbeDecidesVerdict(tt, task, arm, r.agent, r.own, asked);
    FalseConfidenceOfArm(tt, task, arm, r.agent, r.own, asked);
    CompiledWorkIsTheAgents(tt, task, arm, r.agent, r.own, asked);
  }

  /** The treatment survived exit where that is asked: by its probe, or by an
      agent event with every mark of a proof. */
  predicate SurvivesExit(r: Record) {
    && r.own.diagnostics.Some?
    && (r.own.expectations.afterExitRequired ==>
          r.Passed() || exists e :: e in r.agent && IsAfterExitProof(e, VerifierFor(r.own)))
  }

  lemma AfterExitOfRecord(tt: TextTests, task: TaskSpec, r: Record)
    requires IsCompiledArm(task, AionisAssisted, r.agent, r.own, r.own)
    ensures (task.verifier.afterExitRequired ==>
               Resolve(tt, task, AionisAssisted).metrics.afterExitCorrect == Some(true)) <==> SurvivesExit(r)
  {
    AfterExitIff(tt, task, AionisAssisted, r.agent, r.own, r.own);
  }

  /** The treatment is not worse than the baseline, and the positive control is
      at least as good. */
  predicate OutcomesFavour(task: TaskSpec, rs: PerArm<Record>) {
    && (rs.baseline.Passed() ==> rs.aionis.Passed())
    && (rs.aionis.FalselyConfident() ==> rs.baseline.FalselyConfident())
    && (rs.baseline.Passed() ==> rs.positive.Passed())
    && (FirstCorrectAction(rs.baseline.agent, task) ==> FirstCorrectAction(rs.positive.agent, task))
    && SurvivesExit(rs.aionis)
  }

  lemma OutcomeIff(tt: TextTests, task: TaskSpec, rs: PerArm<Record>)
    requires CompiledFrom(task, rs)
    ensures AllOk(OutcomeReqs(task, ResolveArms(tt, task))) <==> OutcomesFavour(task, rs)
  {
    OutcomeReqsIff(task, ResolveArms(tt, task));
    RecordIsCompiled(task, rs, Baseline);
    RecordIsCompiled(task, rs, AionisAssisted);
    RecordIsCompiled(task, rs, PositiveControl);
    MetricsOfRecord(tt, task, Baseline, rs.baseline, rs.aionis.own);
    MetricsOfRecord(tt, task, AionisAssisted, rs.aionis, rs.aionis.own);
    MetricsOfRecord(tt, task, PositiveControl, rs.positive, rs.aionis.own);
    AfterExitOfRecord(tt, task, rs.aionis);
  }

  lemma RecordIsCompiled(task: TaskSpec, rs: PerArm<Record>, arm: Arm)
    requires CompiledFrom(task, rs)
    ensures IsCompiledArm(task, arm, rs.Get(arm).agent, rs.Get(arm).own, rs.aionis.own)
  {
  }

  // ----- the task -----

  /** A compiled task passes exactly when its inputs meet these conditions. */
  ghost predicate TaskHolds(tt: TextTests, task: TaskSpec, rs: PerArm<Record>, kind: SuiteKind) {
    && (forall entry :: entry in task.fairness ==> entry.1)
    && AllOk(SemanticsReqs(task))
    && (kind == HarnessCalibration
        || ((forall arm :: EvidenceOfRecord(rs.Get(arm), rs.aionis.own)) && Complies(tt, task, rs.aionis)))
    && OutcomesFavour(task, rs)
  }

  lemma CompiledTaskPassesIff(tt: TextTests, task: TaskSpec, rs: PerArm<Record>, kind: SuiteKind)
    requires CompiledFrom(task, rs)
    ensures BuildTaskResult(tt, task, kind).Passes() <==> TaskHolds(tt, task, rs, kind)
  {
    hide *;
    GroupsDecide(tt, task, kind);
    Measured(task, rs);
    FairnessReqsIff(task);
    EvidenceIff(task, rs, kind);
    RecordIsCompiled(task, rs, AionisAssisted);
    TreatmentByName(rs);
    DisciplineIff(tt, task, rs.aionis, kind);
    OutcomeIff(tt, task, rs);
    HoldsByGroups(tt, task, rs, kind);
  }

  lemma TreatmentByName(rs: PerArm<Record>)
    ensures rs.Get(AionisAssisted) == rs.aionis
  {
  }

  lemma GroupsDecide(tt: TextTests, task: TaskSpec, kind: SuiteKind)
    ensures BuildTaskResult(tt, task, kind).Passes() <==>
            && AllOk(MeasurementReqs(task)) && AllOk(FairnessReqs(task)) && AllOk(SemanticsReqs(task))
            && AllOk(LiveEvidenceReqs(task, kind))
            && AllOk(DisciplineReqs(task, Resolve(tt, task, AionisAssisted), kind))
            && AllOk(OutcomeReqs(task, ResolveArms(tt, task)))
  {
    TaskPassesIff(task, ResolveArms(tt, task), kind);
  }

  lemma HoldsByGroups(tt: TextTests, task: TaskSpec, rs: PerArm<Record>, kind: SuiteKind)
    ensures TaskHolds(tt, task, rs, kind) <==>
            && (forall entry :: entry in task.fairness ==> entry.1)
            && AllOk(SemanticsReqs(task))
            && (kind == HarnessCalibration || forall arm :: EvidenceOfRecord(rs.Get(arm), rs.aionis.own))
            && (kind == HarnessCalibration || Complies(tt, task, rs.aionis))
            && OutcomesFavour(task, rs)
  {
  }

  // ----- the pipeline -----

  /** The records behind a task of an assembled suite. */
  predicate RecordsOf(loaded: PerArm<Option<LoadedArm>>, id: string, rs: PerArm<Record>) {
    forall arm :: ProbeIs(loaded, arm, id, rs.Get(arm).own) && rs.Get(arm).agent == RecordedFor(loaded.Get(arm), id)
  }

  function RecordFor(loaded: PerArm<Option<LoadedArm>>, arm: Arm, id: string): Option<Record> {
    match FindProbe(LoadedProbes(loaded.Get(arm)), id)
    case None => None
    case Some(p) => Some(Record(p, RecordedFor(loaded.Get(arm), id)))
  }

  ghost predicate HasRecord(loaded: PerArm<Option<LoadedArm>>, task: TaskSpec, arm: Arm, id: string) {
    var r, asked := RecordFor(loaded, arm, id), RecordFor(loaded, AionisAssisted, id);
    r.Some? && asked.Some? && IsCompiledArm(task, arm, r.value.agent, r.value.own, asked.value.own)
  }

  lemma RecordBehind(m: Manifest, loaded: PerArm<Option<LoadedArm>>, parse: string -> Option<real>,
                     le: (string, string) -> bool, suite: Suite, i: nat, arm: Arm)
    requires Pipeline(m, loaded, parse, le) == Ok(suite) && i < |suite.tasks|
    ensures |TaskIds(m, loaded, le)| == |suite.tasks|
    ensures HasRecord(loaded, suite.tasks[i], arm, TaskIds(m, loaded, le)[i])
  {
    var own, asked := PipelineTask(m, loaded, parse, le, suite, i, arm);
  }

  lemma RecordsBehind(m: Manifest, loaded: PerArm<Option<LoadedArm>>, parse: string -> Option<real>,
                      le: (string, string) -> bool, suite: Suite, i: nat)
    returns (rs: PerArm<Record>)
    requires Pipeline(m, loaded, parse, le) == Ok(suite) && i < |suite.tasks|
    ensures |TaskIds(m, loaded, le)| == |suite.tasks|
    ensures RecordsOf(loaded, TaskIds(m, loaded, le)[i], rs) && CompiledFrom(suite.tasks[i], rs)
  {
    RecordBehind(m, loaded, parse, le, suite, i, Baseline);
    RecordBehind(m, loaded, parse, le, suite, i, AionisAssisted);
    RecordBehind(m, loaded, parse, le, suite, i, NegativeControl);
    RecordBehind(m, loaded, parse, le, suite, i, PositiveControl);
    rs := FourRecords(loaded, suite.tasks[i], TaskIds(m, loaded, le)[i]);
  }

  lemma FourRecords(loaded: PerArm<Option<LoadedArm>>, task: TaskSpec, id: string) returns (rs: PerArm<Record>)
    requires HasRecord(loaded, task, Baseline, id) && HasRecord(loaded, task, AionisAssisted, id)
    requires HasRecord(loaded, task, NegativeControl, id) && HasRecord(loaded, task, PositiveControl, id)
    ensures RecordsOf(loaded, id, rs) && CompiledFrom(task, rs)
  {
    rs := PerArm(RecordFor(loaded, Baseline, id).value, RecordFor(loaded, AionisAssisted, id).value,
                 RecordFor(loaded, NegativeControl, id).value, RecordFor(loaded, PositiveControl, id).value);
    forall arm
      ensures ProbeIs(loaded, arm, id, rs.Get(arm).own) && rs.Get(arm).agent == RecordedFor(loaded.Get(arm), id)
      ensures IsCompiledArm(task, arm, rs.Get(arm).agent, rs.Get(arm).own, rs.aionis.own)
    {
      match arm
      case Baseline =>
      case AionisAssisted =>
      case NegativeControl =>
      case PositiveControl =>
    }
  }

  /** What the task itself takes from the manifest and the treatment's probe. */
  predicate TaskComesFrom(task: TaskSpec, m: Manifest, asked: Probe) {
    && asked.diagnostics.Some?
    && task.fairness == m.fairness
    && task.verifier == VerifierFor(asked)
    && task.targetFiles == asked.expectations.targetFiles
    && task.acceptanceChecks == [AcceptanceCheck(asked)]
  }

  lemma TaskOrigin(m: Manifest, loaded: PerArm<Option<LoadedArm>>, parse: string -> Option<real>,
                   le: (string, string) -> bool, suite: Suite, i: nat, asked: Probe)
    requires Pipeline(m, loaded, parse, le) == Ok(suite) && i < |suite.tasks|
    requires |TaskIds(m, loaded, le)| == |suite.tasks|
    requires ProbeIs(loaded, AionisAssisted, TaskIds(m, loaded, le)[i], asked)
    ensures TaskComesFrom(suite.tasks[i], m, asked) && suite.kind == m.kind
  {
    var input, capture := PipelineStages(m, loaded, parse, le, suite);
    StageTask(input, le, capture, suite, i);
    AssembledArm(m, loaded, parse, input, AionisAssisted);
    OriginOfTask(input, TaskIds(m, loaded, le)[i], capture.tasks[i], suite.tasks[i], asked);
  }

  lemma OriginOfTask(input: PairedCapture, id: string, task: CaptureTask, spec: TaskSpec, asked: Probe)
    requires CompileProbeTask(input, id) == Ok(task) && CompileTask(task) == Ok(spec)
    requires FindProbe(ProbesOf(input.arms.aionis), id) == Some(asked)
    ensures asked.diagnostics.Some? && spec.fairness == input.fairness && spec.verifier == VerifierFor(asked)
    ensures spec.targetFiles == asked.expectations.targetFiles && spec.acceptanceChecks == [AcceptanceCheck(asked)]
  {
    CompiledRunOf(input, AionisAssisted, id, task);
  }

  predicate LockedByManifest(arms: PerArm<Option<ArmManifest>>) {
    && arms.aionis.Some? && arms.aionis.value.memoryMode == AionisAuto
    && arms.aionis.value.authority == Authoritative && arms.aionis.value.packetSource == AutomaticRuntime
  }

  /** The fairness entries and settings of the manifest, the evidence and the
      probes of the arms, the agents' claims and first actions, and the
      discipline of a locked treatment. */
  ghost predicate InputsHold(tt: TextTests, m: Manifest, task: TaskSpec, rs: PerArm<Record>) {
    && (forall entry :: entry in m.fairness ==> entry.1)
    && SettingsOk(m.arms)
    && (m.kind == HarnessCalibration
        || (&& (forall arm :: EvidenceOfRecord(rs.Get(arm), rs.aionis.own))
            && (LockedByManifest(m.arms) ==> ComplianceBy(JudgeFor(tt, task), true, rs.aionis.agent).status == Pass)))
    && OutcomesFavour(task, rs)
  }

  lemma HoldsIff(tt: TextTests, m: Manifest, task: TaskSpec, rs: PerArm<Record>)
    requires task.fairness == m.fairness && (AllOk(SemanticsReqs(task)) <==> SettingsOk(m.arms))
    requires m.arms.aionis.Some? && SameSetting(task.arms.aionis, m.arms.aionis.value)
    ensures TaskHolds(tt, task, rs, m.kind) <==> InputsHold(tt, m, task, rs)
  {
  }

  /** Exactly when a task of an assembled suite passes. The task enters only
      through what it takes from the manifest and the treatment's probe. */
  lemma AssembledTaskPassesIff(tt: TextTests, m: Manifest, loaded: PerArm<Option<LoadedArm>>,
                               parse: string -> Option<real>, le: (string, string) -> bool, suite: Suite, i: nat)
    returns (rs: PerArm<Record>)
    requires Pipeline(m, loaded, parse, le) == Ok(suite) && i < |suite.tasks|
    ensures |TaskIds(m, loaded, le)| == |suite.tasks| && RecordsOf(loaded, TaskIds(m, loaded, le)[i], rs)
    ensures TaskComesFrom(suite.tasks[i], m, rs.aionis.own)
    ensures BuildTaskResult(tt, suite.tasks[i], suite.kind).Passes() <==> InputsHold(tt, m, suite.tasks[i], rs)
  {
    rs := RecordsBehind(m, loaded, parse, le, suite, i);
    TreatmentIs(loaded, TaskIds(m, loaded, le)[i], rs);
    TaskOrigin(m, loaded, parse, le, suite, i, rs.aionis.own);
    SemanticsIffManifest(m, loaded, parse, le, suite, i);
    SettingCarriesOver(m, loaded, parse, le, suite, i, AionisAssisted);
    CompiledTaskPassesIff(tt, suite.tasks[i], rs, suite.kind);
    HoldsIff(tt, m, suite.tasks[i], rs);
  }

  lemma TreatmentIs(loaded: PerArm<Option<LoadedArm>>, id: string, rs: PerArm<Record>)
    requires RecordsOf(loaded, id, rs)
    ensures ProbeIs(loaded, AionisAssisted, id, rs.aionis.own)
  {
    assert ProbeIs(loaded, AionisAssisted, id, rs.Get(AionisAssisted).own);
  }

  // ----- the gate -----

  lemma RecordsAreUnique(loaded: PerArm<Option<LoadedArm>>, id: string, rs: PerArm<Record>, rs': PerArm<Record>)
    requires RecordsOf(loaded, id, rs) && RecordsOf(loaded, id, rs')
    ensures rs == rs'
  {
    forall arm ensures rs.Get(arm) == rs'.Get(arm) {
      assert ProbeIs(loaded, arm, id, rs.Get(arm).own) && ProbeIs(loaded, arm, id, rs'.Get(arm).own);
    }
    assert rs.Get(Baseline) == rs'.Get(Baseline) && rs.Get(AionisAssisted) == rs'.Get(AionisAssisted)
        && rs.Get(NegativeControl) == rs'.Get(NegativeControl) && rs.Get(PositiveControl) == rs'.Get(PositiveControl);
  }

  /** The inputs behind one task hold. */
  ghost predicate RecordsHold(tt: TextTests, m: Manifest, loaded: PerArm<Option<LoadedArm>>, task: TaskSpec,
                              id: string)
  {
    exists rs :: RecordsOf(loaded, id, rs) && InputsHold(tt, m, task, rs)
  }

  lemma TaskPassesIffRecords(tt: TextTests, m: Manifest, loaded: PerArm<Option<LoadedArm>>,
                             parse: string -> Option<real>, le: (string, string) -> bool, suite: Suite, i: nat)
    requires Pipeline(m, loaded, parse, le) == Ok(suite) && i < |suite.tasks|
    ensures |TaskIds(m, loaded, le)| == |suite.tasks|
    ensures TaskResults(tt, suite.tasks, suite.kind)[i].Passes() <==>
            RecordsHold(tt, m, loaded, suite.tasks[i], TaskIds(m, loaded, le)[i])
  {
    TaskResultAt(tt, suite.tasks, suite.kind, i);
    var rs := AssembledTaskPassesIff(tt, m, loaded, parse, le, suite, i);
    UniqueRecordsHold(tt, m, loaded, suite.tasks[i], TaskIds(m, loaded, le)[i], rs);
  }

  lemma UniqueRecordsHold(tt: TextTests, m: Manifest, loaded: PerArm<Option<LoadedArm>>, task: TaskSpec, id: string,
                          rs: PerArm<Record>)
    requires RecordsOf(loaded, id, rs)
    ensures RecordsHold(tt, m, loaded, task, id) <==> InputsHold(tt, m, task, rs)
  {
    forall other | RecordsOf(loaded, id, other) ensures other == rs {
      RecordsAreUnique(loaded, id, rs, other);
    }
  }

  lemma PipelineLength(m: Manifest, loaded: PerArm<Option<LoadedArm>>, parse: string -> Option<real>,
                       le: (string, string) -> bool, suite: Suite)
    requires Pipeline(m, loaded, parse, le) == Ok(suite)
    ensures |TaskIds(m, loaded, le)| == |suite.tasks|
  {
    var input, capture := PipelineStages(m, loaded, parse, le, suite);
    StageShape(input, le, capture, suite);
  }

  /** The gate on an assembled suite, from its inputs: there is a task, the
      inputs behind every task hold, and there is an efficiency signal. */
  lemma AssembledGatePassesIff(tt: TextTests, m: Manifest, loaded: PerArm<Option<LoadedArm>>,
                               parse: string -> Option<real>, le: (string, string) -> bool, suite: Suite)
    requires Pipeline(m, loaded, parse, le) == Ok(suite)
    ensures |TaskIds(m, loaded, le)| == |suite.tasks|
    ensures GatePasses(tt, suite) <==>
            && suite.tasks != []
            && (forall i :: 0 <= i < |suite.tasks| ==>
                  RecordsHold(tt, m, loaded, suite.tasks[i], TaskIds(m, loaded, le)[i]))
            && EfficiencyOk(SummaryOf(TaskResults(tt, suite.tasks, suite.kind)), ResolveThresholds(suite.thresholds))
  {
    AllTasksPassIff(tt, m, loaded, parse, le, suite);
    AssembledGateIff(tt, m, loaded, parse, le, suite);
  }

  lemma AllTasksPassIff(tt: TextTests, m: Manifest, loaded: PerArm<Option<LoadedArm>>, parse: string -> Option<real>,
                        le: (string, string) -> bool, suite: Suite)
    requires Pipeline(m, loaded, parse, le) == Ok(suite)
    ensures |TaskIds(m, loaded, le)| == |suite.tasks|
    ensures (forall i :: 0 <= i < |suite.tasks| ==> TaskResults(tt, suite.tasks, suite.kind)[i].Passes()) <==>
            (forall i :: 0 <= i < |suite.tasks| ==>
               RecordsHold(tt, m, loaded, suite.tasks[i], TaskIds(m, loaded, le)[i]))
  {
    hide *;
    PipelineLength(m, loaded, parse, le, suite);
    forall i | 0 <= i < |suite.tasks|
      ensures TaskResults(tt, suite.tasks, suite.kind)[i].Passes() <==>
              RecordsHold(tt, m, loaded, suite.tasks[i], TaskIds(m, loaded, le)[i])
    {
      TaskPassesIffRecords(tt, m, loaded, parse, le, suite, i);
    }
  }
}
