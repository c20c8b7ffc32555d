/** Evidence that improves: when treatment probes turn from failed to passed, an
    assembled suite that passed the gate still passes. */
module Improvement {
  import opened Util
  import opened Trace
  import opened Discipline
  import opened Measure
  import opened Gate
  import opened TraceCapture
  import opened DogfoodCapture
  import opened Assembler
  import opened Verdict
  import opened TaskVerdict

  // ----- when the pipeline succeeds -----

  /** What the pipeline reads of an arm for a task. */
  predicate HasProbe(loaded: PerArm<Option<LoadedArm>>, arm: Arm, id: string) {
    var p := FindProbe(LoadedProbes(loaded.Get(arm)), id);
    p.Some? && p.value.diagnostics.Some?
  }

  predicate Complete(m: Manifest, loaded: PerArm<Option<LoadedArm>>) {
    forall arm :: ArmIsComplete(m, loaded, arm)
  }

  lemma AssemblesIff(m: Manifest, loaded: PerArm<Option<LoadedArm>>, parse: string -> Option<real>)
    ensures Assemble(m, loaded, parse).Ok? <==> Complete(m, loaded)
  {
    EveryArm(arm => ArmIsComplete(m, loaded, arm));
  }

  lemma CompilableIffHasProbe(m: Manifest, loaded: PerArm<Option<LoadedArm>>, parse: string -> Option<real>,
                              input: PairedCapture, arm: Arm, id: string)
    requires Assemble(m, loaded, parse) == Ok(input)
    ensures Compilable(input, arm, id) <==> HasProbe(loaded, arm, id)
  {
    AssembledArm(m, loaded, parse, input, arm);
  }

  lemma SelectedAreTaskIds(m: Manifest, loaded: PerArm<Option<LoadedArm>>, parse: string -> Option<real>,
                           le: (string, string) -> bool, input: PairedCapture)
    requires Assemble(m, loaded, parse) == Ok(input)
    ensures SelectedProbeIds(input, le) == TaskIds(m, loaded, le)
  {
    AssembledArm(m, loaded, parse, input, Baseline);
  }

  /** The whole pipeline throws exactly when an arm is missing from the manifest
      or the loaded files, or lacks the probe with diagnostics of some task. */
  lemma PipelineSucceedsIff(m: Manifest, loaded: PerArm<Option<LoadedArm>>, parse: string -> Option<real>,
                            le: (string, string) -> bool)
    ensures Pipeline(m, loaded, parse, le).Ok? <==>
            Complete(m, loaded) && forall arm, id | id in TaskIds(m, loaded, le) :: HasProbe(loaded, arm, id)
  {
    AssemblesIff(m, loaded, parse);
    if Assemble(m, loaded, parse).Ok? {
      var input := Assemble(m, loaded, parse).value;
      SelectedAreTaskIds(m, loaded, parse, le, input);
      AssembledCompilesIff(m, loaded, parse, le, input);
      if CompilePairedCapture(input, le).Ok? {
        CompiledCaptureCompiles(input, le, CompilePairedCapture(input, le).value);
      }
    }
  }

  lemma AssembledCompilesIff(m: Manifest, loaded: PerArm<Option<LoadedArm>>, parse: string -> Option<real>,
                             le: (string, string) -> bool, input: PairedCapture)
    requires Assemble(m, loaded, parse) == Ok(input)
    ensures CompilePairedCapture(input, le).Ok? <==>
            forall arm, id | id in SelectedProbeIds(input, le) :: HasProbe(loaded, arm, id)
  {
    PairedCaptureCompilesIff(input, le);
    forall id ensures AllCompilable(input, id) <==> forall arm :: HasProbe(loaded, arm, id) {
      forall arm ensures Compilable(input, arm, id) <==> HasProbe(loaded, arm, id) {
        CompilableIffHasProbe(m, loaded, parse, input, arm, id);
      }
    }
  }

  lemma PipelineShape(m: Manifest, loaded: PerArm<Option<LoadedArm>>, parse: string -> Option<real>,
                      le: (string, string) -> bool, suite: Suite)
    requires Pipeline(m, loaded, parse, le) == Ok(suite)
    ensures suite.kind == m.kind && suite.thresholds == m.thresholds
  {
    var input, capture := PipelineStages(m, loaded, parse, le, suite);
    StageShape(input, le, capture, suite);
    AssembledArm(m, loaded, parse, input, Baseline);
  }

  // ----- better evidence -----

  predicate SameOrPassed(p': Probe, p: Probe) {
    p' == p || p' == p.(passed := Some(true))
  }

  predicate ProbesImprove(ps': seq<Probe>, ps: seq<Probe>) {
    |ps'| == |ps| && forall i :: 0 <= i < |ps| ==> SameOrPassed(ps'[i], ps[i])
  }

  /** Any number of the treatment's probes passed, everything else as it was. */
  predicate EvidenceImproves(loaded': PerArm<Option<LoadedArm>>, loaded: PerArm<Option<LoadedArm>>) {
    && loaded.aionis.Some? && loaded'.aionis.Some?
    && var a, a' := loaded.aionis.value, loaded'.aionis.value;
       && loaded' == loaded.(aionis := Some(a.(run := a.run.(probes := a'.run.probes))))
       && ProbesImprove(a'.run.probes, a.run.probes)
  }

  lemma {:induction false} FindImproved(ps': seq<Probe>, ps: seq<Probe>, id: string)
    requires ProbesImprove(ps', ps)
    ensures FindProbe(ps, id).None? <==> FindProbe(ps', id).None?
    ensures FindProbe(ps, id).Some? ==> SameOrPassed(FindProbe(ps', id).value, FindProbe(ps, id).value)
  {
    if ps != [] {
      var last := |ps| - 1;
      assert SameOrPassed(ps'[last], ps[last]);
      FindImproved(ps'[..last], ps[..last], id);
    }
  }

  /** What stays: everything but the verdict of treatment probes. */
  lemma ArmStays(loaded': PerArm<Option<LoadedArm>>, loaded: PerArm<Option<LoadedArm>>, arm: Arm, id: string)
    requires EvidenceImproves(loaded', loaded)
    ensures RecordedFor(loaded'.Get(arm), id) == RecordedFor(loaded.Get(arm), id)
    ensures LlmFor(loaded'.Get(arm), id) == LlmFor(loaded.Get(arm), id)
    ensures loaded'.Get(arm).Some? <==> loaded.Get(arm).Some?
    ensures var p, p' := FindProbe(LoadedProbes(loaded.Get(arm)), id), FindProbe(LoadedProbes(loaded'.Get(arm)), id);
            && (p.Some? <==> p'.Some?)
            && (p.Some? ==> SameOrPassed(p'.value, p.value) && (arm != AionisAssisted ==> p' == p))
  {
    FindImproved(LoadedProbes(loaded'.aionis), LoadedProbes(loaded.aionis), id);
  }

  lemma SamePipelineTasks(m: Manifest, loaded': PerArm<Option<LoadedArm>>, loaded: PerArm<Option<LoadedArm>>,
                          parse: string -> Option<real>, le: (string, string) -> bool)
    requires EvidenceImproves(loaded', loaded) && Pipeline(m, loaded, parse, le).Ok?
    ensures Pipeline(m, loaded', parse, le).Ok? && TaskIds(m, loaded', le) == TaskIds(m, loaded, le)
  {
    PipelineSucceedsIff(m, loaded, parse, le);
    PipelineSucceedsIff(m, loaded', parse, le);
    assert TaskIds(m, loaded', le) == TaskIds(m, loaded, le);
    forall arm, id | id in TaskIds(m, loaded, le)
      ensures HasProbe(loaded', arm, id) && ArmIsComplete(m, loaded', arm)
    {
      assert HasProbe(loaded, arm, id) && ArmIsComplete(m, loaded, arm);
      ArmStays(loaded', loaded, arm, id);
    }
    forall arm ensures ArmIsComplete(m, loaded', arm) {
      assert ArmIsComplete(m, loaded, arm);
      ArmStays(loaded', loaded, arm, "");
    }
  }

  // ----- the tasks -----

  /** The treatment's own probe passed, everything else recorded is the same. */
  predicate RecordsImprove(rs': PerArm<Record>, rs: PerArm<Record>) {
    rs' == rs.(aionis := rs.aionis.(own := rs'.aionis.own)) && SameOrPassed(rs'.aionis.own, rs.aionis.own)
  }

  lemma ImprovedOutcomes(task: TaskSpec, task': TaskSpec, rs: PerArm<Record>, rs': PerArm<Record>)
    requires RecordsImprove(rs', rs) && OutcomesFavour(task, rs)
    requires task'.targetFiles == task.targetFiles && task'.acceptanceChecks == task.acceptanceChecks
    ensures OutcomesFavour(task', rs')
  {
    assert VerifierFor(rs'.aionis.own) == VerifierFor(rs.aionis.own);
  }

  lemma ImprovedEvidence(rs: PerArm<Record>, rs': PerArm<Record>, arm: Arm)
    requires RecordsImprove(rs', rs) && EvidenceOfRecord(rs.Get(arm), rs.aionis.own)
    ensures EvidenceOfRecord(rs'.Get(arm), rs'.aionis.own)
  {
    assert rs'.Get(arm).agent == rs.Get(arm).agent;
    assert SameOrPassed(rs'.Get(arm).own, rs.Get(arm).own);
  }

  lemma InputsStillHold(tt: TextTests, m: Manifest, task: TaskSpec, task': TaskSpec, rs: PerArm<Record>,
                        rs': PerArm<Record>)
    requires RecordsImprove(rs', rs) && InputsHold(tt, m, task, rs)
    requires task'.targetFiles == task.targetFiles && task'.acceptanceChecks == task.acceptanceChecks
    requires task'.verifier == task.verifier
    ensures InputsHold(tt, m, task', rs')
  {
    ImprovedOutcomes(task, task', rs, rs');
    if m.kind != HarnessCalibration {
      forall arm ensures EvidenceOfRecord(rs'.Get(arm), rs'.aionis.own) {
        ImprovedEvidence(rs, rs', arm);
      }
      if LockedByManifest(m.arms) {
        SameTaskSameTests(tt, task, task');
        StatusReadsTests(JudgeFor(tt, task), JudgeFor(tt, task'), rs.aionis.agent);
      }
    }
  }

  /** The records of a task, before and after. */
  lemma RecordsBeforeAndAfter(loaded': PerArm<Option<LoadedArm>>, loaded: PerArm<Option<LoadedArm>>, id: string,
                              rs: PerArm<Record>, rs': PerArm<Record>)
    requires EvidenceImproves(loaded', loaded) && RecordsOf(loaded, id, rs) && RecordsOf(loaded', id, rs')
    ensures RecordsImprove(rs', rs)
  {
    forall arm
      ensures rs'.Get(arm).agent == rs.Get(arm).agent && SameOrPassed(rs'.Get(arm).own, rs.Get(arm).own)
      ensures arm != AionisAssisted ==> rs'.Get(arm) == rs.Get(arm)
    {
      ArmStays(loaded', loaded, arm, id);
      assert ProbeIs(loaded, arm, id, rs.Get(arm).own) && ProbeIs(loaded', arm, id, rs'.Get(arm).own);
    }
    assert rs'.Get(Baseline) == rs.Get(Baseline) && rs'.Get(NegativeControl) == rs.Get(NegativeControl)
        && rs'.Get(PositiveControl) == rs.Get(PositiveControl);
    assert rs'.Get(AionisAssisted).agent == rs.Get(AionisAssisted).agent;
  }

  /** A passing task still passes. */
  lemma TaskStillPasses(tt: TextTests, m: Manifest, loaded': PerArm<Option<LoadedArm>>,
                        loaded: PerArm<Option<LoadedArm>>, parse: string -> Option<real>,
                        le: (string, string) -> bool, suite: Suite, suite': Suite, i: nat)
    requires EvidenceImproves(loaded', loaded) && i < |suite.tasks| == |suite'.tasks|
    requires Pipeline(m, loaded, parse, le) == Ok(suite) && Pipeline(m, loaded', parse, le) == Ok(suite')
    requires TaskIds(m, loaded', le) == TaskIds(m, loaded, le)
    requires BuildTaskResult(tt, suite.tasks[i], suite.kind).Passes()
    ensures BuildTaskResult(tt, suite'.tasks[i], suite'.kind).Passes()
  {
    hide *;
    var rs := AssembledTaskPassesIff(tt, m, loaded, parse, le, suite, i);
    var rs' := AssembledTaskPassesIff(tt, m, loaded', parse, le, suite', i);
    RecordsBeforeAndAfter(loaded', loaded, TaskIds(m, loaded, le)[i], rs, rs');
    SameOrigin(m, suite.tasks[i], suite'.tasks[i], rs, rs');
    InputsStillHold(tt, m, suite.tasks[i], suite'.tasks[i], rs, rs');
  }

  lemma SameOrigin(m: Manifest, task: TaskSpec, task': TaskSpec, rs: PerArm<Record>, rs': PerArm<Record>)
    requires RecordsImprove(rs', rs)
    requires TaskComesFrom(task, m, rs.aionis.own) && TaskComesFrom(task', m, rs'.aionis.own)
    ensures task'.targetFiles == task.targetFiles && task'.acceptanceChecks == task.acceptanceChecks
    ensures task'.verifier == task.verifier
  {
  }

  // ----- the efficiency signal -----

  predicate SameFigures(a: Resolved, b: Resolved) {
    WastedOf(a) == WastedOf(b) && ActionsOf(a) == ActionsOf(b) && TokensOf(a) == TokensOf(b) && TimeOf(a) == TimeOf(b)
  }

  /** The figures of an arm are those of its agent's events and its LLM run. */
  predicate FiguresAre(r: Resolved, loaded: Option<LoadedArm>, parse: string -> Option<real>, id: string) {
    && WastedOf(r) == Count(IsWasted, RecordedFor(loaded, id)) as real
    && ActionsOf(r) == Some(Count(IsActionEvent, RecordedFor(loaded, id)) as real)
    && CostsAreTold(r.metrics, loaded, parse, id)
  }

  lemma FiguresOfArm(tt: TextTests, m: Manifest, loaded: PerArm<Option<LoadedArm>>, parse: string -> Option<real>,
                     le: (string, string) -> bool, suite: Suite, i: nat, arm: Arm)
    requires Pipeline(m, loaded, parse, le) == Ok(suite) && i < |suite.tasks|
    ensures |TaskIds(m, loaded, le)| == |suite.tasks|
    ensures FiguresAre(Resolve(tt, suite.tasks[i], arm), loaded.Get(arm), parse, TaskIds(m, loaded, le)[i])
  {
    CostsOfArm(tt, m, loaded, parse, le, suite, i, arm);
    var own, asked := PipelineTask(m, loaded, parse, le, suite, i, arm);
    WorkFigures(tt, suite.tasks[i], arm, RecordedFor(loaded.Get(arm), TaskIds(m, loaded, le)[i]), own, asked);
  }

  lemma WorkFigures(tt: TextTests, task: TaskSpec, arm: Arm, agent: seq<Event>, own: Probe, asked: Probe)
    requires IsCompiledArm(task, arm, agent, own, asked)
    ensures WastedOf(Resolve(tt, task, arm)) == Count(IsWasted, agent) as real
    ensures ActionsOf(Resolve(tt, task, arm)) == Some(Count(IsActionEvent, agent) as real)
  {
    CompiledWorkIsTheAgents(tt, task, arm, agent, own, asked);
  }

  lemma FiguresStay(tt: TextTests, m: Manifest, loaded': PerArm<Option<LoadedArm>>, loaded: PerArm<Option<LoadedArm>>,
                    parse: string -> Option<real>, le: (string, string) -> bool, suite: Suite, suite': Suite, i: nat,
                    arm: Arm)
    requires EvidenceImproves(loaded', loaded) && i < |suite.tasks| == |suite'.tasks|
    requires Pipeline(m, loaded, parse, le) == Ok(suite) && Pipeline(m, loaded', parse, le) == Ok(suite')
    requires TaskIds(m, loaded', le) == TaskIds(m, loaded, le)
    ensures SameFigures(Resolve(tt, suite'.tasks[i], arm), Resolve(tt, suite.tasks[i], arm))
  {
    hide *;
    FiguresOfArm(tt, m, loaded, parse, le, suite, i, arm);
    FiguresOfArm(tt, m, loaded', parse, le, suite', i, arm);
    ArmStays(loaded', loaded, arm, TaskIds(m, loaded, le)[i]);
    SameSourceSameFigures(Resolve(tt, suite'.tasks[i], arm), Resolve(tt, suite.tasks[i], arm), loaded'.Get(arm),
                          loaded.Get(arm), parse, TaskIds(m, loaded, le)[i]);
  }

  lemma SameSourceSameFigures(r': Resolved, r: Resolved, loaded': Option<LoadedArm>, loaded: Option<LoadedArm>,
                              parse: string -> Option<real>, id: string)
    requires FiguresAre(r', loaded', parse, id) && FiguresAre(r, loaded, parse, id)
    requires RecordedFor(loaded', id) == RecordedFor(loaded, id) && LlmFor(loaded', id) == LlmFor(loaded, id)
    ensures SameFigures(r', r)
  {
  }

  /** The signal reads the figures of the two arms only. */
  lemma EfficiencyReadsFigures(a: seq<PerArm<Resolved>>, b: seq<PerArm<Resolved>>, t: Thresholds)
    requires |a| == |b|
    requires forall i :: 0 <= i < |a| ==>
               SameFigures(b[i].baseline, a[i].baseline) && SameFigures(b[i].aionis, a[i].aionis)
    ensures EfficiencyOk(Summarise(a), t) == EfficiencyOk(Summarise(b), t)
  {
    assert Column(WastedOf, Column(BaselineOf, b)) == Column(WastedOf, Column(BaselineOf, a));
    assert Column(WastedOf, Column(TreatmentOf, b)) == Column(WastedOf, Column(TreatmentOf, a));
    assert Column(ActionsOf, Column(BaselineOf, b)) == Column(ActionsOf, Column(BaselineOf, a));
    assert Column(ActionsOf, Column(TreatmentOf, b)) == Column(ActionsOf, Column(TreatmentOf, a));
    assert Column(TokensOf, Column(BaselineOf, b)) == Column(TokensOf, Column(BaselineOf, a));
    assert Column(TokensOf, Column(TreatmentOf, b)) == Column(TokensOf, Column(TreatmentOf, a));
    assert Column(TimeOf, Column(BaselineOf, b)) == Column(TimeOf, Column(BaselineOf, a));
    assert Column(TimeOf, Column(TreatmentOf, b)) == Column(TimeOf, Column(TreatmentOf, a));
  }

  lemma ResultArms(tt: TextTests, tasks: seq<TaskSpec>, kind: SuiteKind, i: nat)
    requires i < |tasks|
    ensures Column(ArmsOf, TaskResults(tt, tasks, kind))[i].baseline == Resolve(tt, tasks[i], Baseline)
    ensures Column(ArmsOf, TaskResults(tt, tasks, kind))[i].aionis == Resolve(tt, tasks[i], AionisAssisted)
    ensures TaskResults(tt, tasks, kind)[i] == BuildTaskResult(tt, tasks[i], kind)
  {
    TaskResultAt(tt, tasks, kind, i);
  }

  /** Better verdicts for the treatment's probes never shut the gate: not through
      the tasks, and not through the efficiency signal, which does not read them. */
  lemma BetterProbesKeepTheGate(tt: TextTests, m: Manifest, loaded': PerArm<Option<LoadedArm>>,
                                loaded: PerArm<Option<LoadedArm>>, parse: string -> Option<real>,
                                le: (string, string) -> bool, suite: Suite)
    returns (suite': Suite)
    requires EvidenceImproves(loaded', loaded)
    requires Pipeline(m, loaded, parse, le) == Ok(suite) && GatePasses(tt, suite)
    ensures Pipeline(m, loaded', parse, le) == Ok(suite') && GatePasses(tt, suite')
  {
    hide *;
    SamePipelineTasks(m, loaded', loaded, parse, le);
    suite' := Pipeline(m, loaded', parse, le).value;
    PipelineLength(m, loaded, parse, le, suite);
    PipelineLength(m, loaded', parse, le, suite');
    PipelineShape(m, loaded, parse, le, suite);
    PipelineShape(m, loaded', parse, le, suite');
    AssembledGateIff(tt, m, loaded, parse, le, suite);
    AssembledGateIff(tt, m, loaded', parse, le, suite');
    forall i | 0 <= i < |suite'.tasks| ensures TaskResults(tt, suite'.tasks, suite'.kind)[i].Passes() {
      ResultArms(tt, suite.tasks, suite.kind, i);
      ResultArms(tt, suite'.tasks, suite'.kind, i);
      assert TaskResults(tt, suite.tasks, suite.kind)[i].Passes();
      TaskStillPasses(tt, m, loaded', loaded, parse, le, suite, suite', i);
    }
    forall i | 0 <= i < |suite'.tasks|
      ensures SameFigures(Column(ArmsOf, TaskResults(tt, suite'.tasks, suite'.kind))[i].baseline,
                          Column(ArmsOf, TaskResults(tt, suite.tasks, suite.kind))[i].baseline)
      ensures SameFigures(Column(ArmsOf, TaskResults(tt, suite'.tasks, suite'.kind))[i].aionis,
                          Column(ArmsOf, TaskResults(tt, suite.tasks, suite.kind))[i].aionis)
    {
      ResultArms(tt, suite.tasks, suite.kind, i);
      ResultArms(tt, suite'.tasks, suite'.kind, i);
      FiguresStay(tt, m, loaded', loaded, parse, le, suite, suite', i, Baseline);
      FiguresStay(tt, m, loaded', loaded, parse, le, suite, suite', i, AionisAssisted);
    }
    SummariesAgree(TaskResults(tt, suite.tasks, suite.kind), TaskResults(tt, suite'.tasks, suite'.kind),
                   ResolveThresholds(suite.thresholds));
  }

  lemma SummariesAgree(a: seq<TaskResult>, b: seq<TaskResult>, t: Thresholds)
    requires |a| == |b|
    requires forall i :: 0 <= i < |a| ==>
               && SameFigures(Column(ArmsOf, b)[i].baseline, Column(ArmsOf, a)[i].baseline)
               && SameFigures(Column(ArmsOf, b)[i].aionis, Column(ArmsOf, a)[i].aionis)
    ensures EfficiencyOk(SummaryOf(a), t) == EfficiencyOk(SummaryOf(b), t)
  {
    EfficiencyReadsFigures(Column(ArmsOf, a), Column(ArmsOf, b), t);
  }
}
