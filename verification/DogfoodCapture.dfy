/** The paired dogfood capture: harness probes and agent events of four arms,
    its validator, and its compilation to a trace capture. */
module DogfoodCapture {
  import opened Util
  import opened Trace
  import opened Measure
  import opened Gate
  import opened TraceCapture

  datatype Diagnostics = Diagnostics(command: Option<string>, slice: string, stdoutTail: string, stderrTail: string)

  datatype Expectations = Expectations(
    visibilityMatches: seq<string>,
    serviceLifecycleRequired: bool,
    afterExitRequired: bool,
    targetFiles: seq<string>)

  /** A missing record has no fields. */
  datatype Provenance = Provenance(version: Option<Version>, workspaceRoot: Option<string>, freshShell: Option<bool>)

  datatype Probe = Probe(
    id: string,
    familyHint: string,
    title: string,
    query: string,
    passed: Option<bool>,
    output: string,
    diagnostics: Option<Diagnostics>,
    expectations: Expectations,
    provenance: Provenance)

  datatype DogfoodRun = DogfoodRun(version: Version, probes: seq<Probe>, provenance: Provenance)

  datatype ArmInput = ArmInput(
    sourceRunId: string,
    memoryMode: MemoryMode,
    authority: Authority,
    packetSource: PacketSource,
    run: Option<DogfoodRun>,
    agentEvents: Option<map<string, seq<Event>>>,
    outcomes: map<string, PartialMetrics>)

  datatype PairedCapture = PairedCapture(
    version: Version,
    suiteId: string,
    kind: SuiteKind,
    thresholds: PartialThresholds,
    fairness: seq<(string, bool)>,
    taskIds: seq<string>,
    arms: PerArm<Option<ArmInput>>)

  /** Lookup in the map of probes by id, where a later probe replaces an
      earlier one with the same id. */
  function FindProbe(probes: seq<Probe>, id: string): (r: Option<Probe>)
    ensures r.Some? ==> r.value.id == id && r.value in probes
    ensures r.None? ==> forall p :: p in probes ==> p.id != id
  {
    if probes == [] then None
    else if probes[|probes| - 1].id == id then Some(probes[|probes| - 1])
    else FindProbe(probes[..|probes| - 1], id)
  }

  /** With repeated ids the last probe is the one found. */
  lemma {:induction false} LastProbeWins(probes: seq<Probe>, k: nat)
    requires k < |probes| && forall j :: k < j < |probes| ==> probes[j].id != probes[k].id
    ensures FindProbe(probes, probes[k].id) == Some(probes[k])
  {
    if k < |probes| - 1 {
      LastProbeWins(probes[..|probes| - 1], k);
    }
  }

  function ProbesOf(arm: Option<ArmInput>): seq<Probe> {
    if arm.Some? && arm.value.run.Some? then arm.value.run.value.probes else []
  }

  function ProbeIds(probes: seq<Probe>): seq<string> {
    if probes == [] then [] else [probes[0].id] + ProbeIds(probes[1..])
  }

  /** The task ids of the input, or else the probes of the baseline run, sorted
      by the order of the locale. */
  function SelectedProbeIds(input: PairedCapture, le: (string, string) -> bool): seq<string> {
    Sort(le, if input.taskIds != [] then input.taskIds else ProbeIds(ProbesOf(input.arms.baseline)))
  }

  function EventsFor(arm: Option<ArmInput>, id: string): seq<Event> {
    if arm.Some? && arm.value.agentEvents.Some? && id in arm.value.agentEvents.value
    then arm.value.agentEvents.value[id] else []
  }

  // ----- the validator -----

  function PairedFairness(entry: (string, bool)): seq<Requirement> {
    [Requirement(OfSuite, Fair(entry.0), entry.1)]
  }

  function PairedHeaderReqs(input: PairedCapture): seq<Requirement> {
    [Requirement(OfSuite, VersionSupported, input.version == Supported),
     Requirement(OfSuite, KindSupported, input.kind == PilotRealTrace || input.kind == ProductRealTrace)]
    + FlatMap(PairedFairness, input.fairness)
  }

  function ArmReqs(input: PairedCapture, arm: Arm): seq<Requirement> {
    var a := input.arms.Get(arm);
    [Requirement(OfSuiteArm(arm), ArmPresent, a.Some?),
     Requirement(OfSuiteArm(arm), RunVersionSupported,
                 a.Some? && a.value.run.Some? && a.value.run.value.version == Supported)]
  }

  function ProbeReqs(input: PairedCapture, arm: Arm, probeId: string): seq<Requirement> {
    var a := input.arms.Get(arm);
    var probe := FindProbe(ProbesOf(a), probeId);
    var subject := OfTaskArm(probeId, arm);
    [Requirement(subject, ProbePresent, probe.Some?),
     Requirement(subject, ActionEventsPresent, Count(IsActionEvent, EventsFor(a, probeId)) > 0),
     Requirement(subject, ProbeRecorded, probe.Some? && probe.value.passed.Some?),
     Requirement(subject, VerifierCommandPresent,
             probe.Some? && probe.value.diagnostics.Some? && probe.value.diagnostics.value.command.Some?
             && probe.value.diagnostics.value.command.value != "")]
  }

  function ProbeReqsOf(input: PairedCapture, arm: Arm): string -> seq<Requirement> {
    (id: string) => ProbeReqs(input, arm, id)
  }

  function ArmAndProbeReqs(input: PairedCapture, ids: seq<string>): Arm -> seq<Requirement> {
    (arm: Arm) => ArmReqs(input, arm) + FlatMap(ProbeReqsOf(input, arm), ids)
  }

  function PairedReqs(input: PairedCapture, le: (string, string) -> bool): seq<Requirement> {
    PairedHeaderReqs(input) + FlatMap(ArmAndProbeReqs(input, SelectedProbeIds(input, le)), RequiredArms)
  }

  /** The inner loop, over the selected probes of one arm. */
  method PushProbeReqs(input: PairedCapture, arm: Arm, ids: seq<string>) returns (requirements: seq<Requirement>)
    ensures requirements == ArmAndProbeReqs(input, ids)(arm)
  {
    var header := ArmReqs(input, arm);
    requirements := header;
    ghost var f := ProbeReqsOf(input, arm);
    for i := 0 to |ids|
      invariant requirements == header + FlatMap(f, ids[..i])
    {
      var probe := ProbeReqs(input, arm, ids[i]);
      assert probe == f(ids[i]);
      FlatMapStep(f, ids, i);
      requirements := requirements + probe;
    }
    assert ids[..|ids|] == ids;
  }

  /** The outer loop, over the arms. */
  method PushArmReqs(input: PairedCapture, ids: seq<string>) returns (requirements: seq<Requirement>)
    ensures requirements == FlatMap(ArmAndProbeReqs(input, ids), RequiredArms)
  {
    requirements := [];
    ghost var f := ArmAndProbeReqs(input, ids);
    for k := 0 to |RequiredArms|
      invariant requirements == FlatMap(f, RequiredArms[..k])
    {
      var pushed := PushProbeReqs(input, RequiredArms[k], ids);
      FlatMapStep(f, RequiredArms, k);
      requirements := requirements + pushed;
    }
    assert RequiredArms[..|RequiredArms|] == RequiredArms;
  }

  method ValidatePairedCapture(input: PairedCapture, le: (string, string) -> bool)
    returns (requirements: seq<Requirement>)
    ensures requirements == PairedReqs(input, le)
  {
    var pushed := PushArmReqs(input, SelectedProbeIds(input, le));
    requirements := PairedHeaderReqs(input) + pushed;
  }

  // ----- compilation -----

  predicate IsVisible(p: Probe) {
    || p.expectations.visibilityMatches != []
    || p.expectations.serviceLifecycleRequired
    || p.expectations.afterExitRequired
  }

  function SliceOf(p: Probe): string
    requires p.diagnostics.Some?
  {
    OrElse(p.diagnostics.value.slice, "external_probe")
  }

  function Signature(p: Probe): string
    requires p.diagnostics.Some?
  {
    "runtime_dogfood:" + p.id + ":" + SliceOf(p) + ":fresh_shell"
  }

  /** The command, if there is one, and the output of the probe. */
  function HarnessText(p: Probe): string
    requires p.diagnostics.Some?
  {
    var d := p.diagnostics.value;
    var output := OrElse(OrElse(d.stdoutTail, d.stderrTail), p.output);
    if d.command.GetOr("") != "" then Trim(d.command.value + "\n" + output) else output
  }

  function VerifierEvent(p: Probe): (e: Event)
    requires p.diagnostics.Some?
    ensures IsHarnessEvent(e) && e.freshShell == Some(true)
    ensures e.command == Some(Signature(p)) && e.success == p.passed && e.text == Some(HarnessText(p))
    ensures e.afterExit == Some(p.expectations.afterExitRequired) && (e.kind == ExternalProbe <==> IsVisible(p))
  {
    Blank(if IsVisible(p) then ExternalProbe else Verification).(
      command := Some(Signature(p)),
      text := Some(HarnessText(p)),
      success := p.passed,
      verifier := Some(true),
      afterExit := Some(p.expectations.afterExitRequired),
      freshShell := Some(true))
  }

  lemma {:induction false} TrimEndKeeps(a: string, b: string)
    requires a != "" && !IsSpace(a[|a| - 1])
    ensures a <= TrimEnd(a + b)
  {
    if b == "" {
      assert a + b == a;
    } else if IsSpace(b[|b| - 1]) {
      assert (a + b)[..|a + b| - 1] == a + b[..|b| - 1];
      TrimEndKeeps(a, b[..|b| - 1]);
    }
  }

  /** The text of the harness event begins with the command, when that has no
      white space around it. */
  lemma HarnessTextNamesCommand(p: Probe)
    requires p.diagnostics.Some?
    requires var c := p.diagnostics.value.command; c.Some? && c.value != "" && Trim(c.value) == c.value
    ensures p.diagnostics.value.command.value <= HarnessText(p)
  {
    var c := p.diagnostics.value.command.value;
    var d := p.diagnostics.value;
    var output := OrElse(OrElse(d.stdoutTail, d.stderrTail), p.output);
    assert c + "\n" + output == c + ("\n" + output);
    assert !IsSpace(c[0]) && !IsSpace(c[|c| - 1]);
    TrimEndKeeps(c, "\n" + output);
  }

  /** So a passed probe leaves an acceptance pass at the end of the trace, if its
      command is the one that the treatment's probe makes the task check. */
  lemma HarnessPassIsAcceptancePass(tt: TextTests, own: Probe, task: TaskSpec)
    requires own.diagnostics.Some? && own.passed == Some(true)
    requires var c := own.diagnostics.value.command; c.Some? && c.value != "" && Trim(c.value) == c.value
    requires task.acceptanceChecks == [AcceptanceCheck(own)]
    ensures IsAcceptancePass(tt, VerifierEvent(own), task)
  {
    var v, c := VerifierEvent(own), own.diagnostics.value.command.value;
    HarnessTextNamesCommand(own);
    var parts := [v.text.value, v.command.value];
    assert [v.text.value] + [v.command.value] + v.Touched() == parts;
    assert v.text.value <= Join(parts, "\n");
    assert c <= EventText(v);
    assert c in task.acceptanceChecks && Includes(EventText(v), c);
  }

  /** The arm has what compilation reads for this probe. */
  predicate Compilable(input: PairedCapture, arm: Arm, id: string) {
    var a := input.arms.Get(arm);
    && a.Some? && a.value.run.Some? && a.value.agentEvents.Some?
    && FindProbe(ProbesOf(a), id).Some? && FindProbe(ProbesOf(a), id).value.diagnostics.Some?
  }

  predicate AllCompilable(input: PairedCapture, id: string) {
    forall arm :: Compilable(input, arm, id)
  }

  function CompileArm(input: PairedCapture, arm: Arm, id: string): (r: Outcome<ArmRun>)
    ensures r.Ok? <==> Compilable(input, arm, id)
  {
    var a := input.arms.Get(arm);
    if a.None? || a.value.run.None? then Thrown(UndefinedAccess)
    else
      var probe := FindProbe(a.value.run.value.probes, id);
      if probe.None? then Thrown(MissingProbe)
      else if probe.value.diagnostics.None? || a.value.agentEvents.None? then Thrown(UndefinedAccess)
      else
        Ok(ArmRun(
          a.value.sourceRunId + ":" + probe.value.id,
          a.value.memoryMode, a.value.authority, a.value.packetSource, None, None,
          EventsFor(a, id) + [VerifierEvent(probe.value)],
          if id in a.value.outcomes then a.value.outcomes[id] else NoOutcome))
  }

  /** A check that is `undefined` is searched for as the word "undefined". */
  function AcceptanceCheck(p: Probe): string
    requires p.diagnostics.Some?
  {
    p.diagnostics.value.command.GetOr("undefined")
  }

  /** The four runs of a task; the treatment is compiled first. */
  function FourRuns(b: Outcome<ArmRun>, t: Outcome<ArmRun>, n: Outcome<ArmRun>, p: Outcome<ArmRun>)
    : (r: Outcome<PerArm<Option<ArmRun>>>)
    ensures r.Ok? <==> b.Ok? && t.Ok? && n.Ok? && p.Ok?
  {
    if t.Thrown? then Thrown(t.error)
    else if b.Thrown? then Thrown(b.error)
    else if n.Thrown? then Thrown(n.error)
    else if p.Thrown? then Thrown(p.error)
    else Ok(PerArm(Some(b.value), Some(t.value), Some(n.value), Some(p.value)))
  }

  function CompileArms(input: PairedCapture, id: string): (r: Outcome<PerArm<Option<ArmRun>>>)
    ensures r.Ok? <==> AllCompilable(input, id)
  {
    assert AllCompilable(input, id) <==>
        Compilable(input, Baseline, id) && Compilable(input, AionisAssisted, id)
        && Compilable(input, NegativeControl, id) && Compilable(input, PositiveControl, id) by {
      EveryArm(arm => Compilable(input, arm, id));
    }
    FourRuns(CompileArm(input, Baseline, id), CompileArm(input, AionisAssisted, id),
             CompileArm(input, NegativeControl, id), CompileArm(input, PositiveControl, id))
  }

  lemma EveryArm(p: Arm -> bool)
    ensures (forall arm :: p(arm)) <==> p(Baseline) && p(AionisAssisted) && p(NegativeControl) && p(PositiveControl)
  {
    if p(Baseline) && p(AionisAssisted) && p(NegativeControl) && p(PositiveControl) {
      forall arm ensures p(arm) {
        match arm
        case Baseline =>
        case AionisAssisted =>
        case NegativeControl =>
        case PositiveControl =>
      }
    }
  }

  /** The verifier that the treatment's probe makes the task ask for. */
  function VerifierFor(p: Probe): VerifierSpec
    requires p.diagnostics.Some?
  {
    VerifierSpec(if IsVisible(p) then ExternalProbeVerifier else CommandVerifier,
                 Some(Signature(p)), p.expectations.afterExitRequired, IsVisible(p))
  }

  function ProbeTask(input: PairedCapture, p: Probe, id: string, runs: PerArm<Option<ArmRun>>): CaptureTask
    requires p.diagnostics.Some?
  {
    CaptureTask("dogfood_" + id, p.title, p.familyHint, p.query, input.fairness, VerifierFor(p),
                p.expectations.targetFiles, [AcceptanceCheck(p)], runs)
  }

  /** Compilation of a probe throws exactly when some arm lacks something that
      compilation reads. */
  function CompileProbeTask(input: PairedCapture, id: string): (r: Outcome<CaptureTask>)
    ensures r.Ok? <==> AllCompilable(input, id)
  {
    match CompileArms(input, id)
    case Thrown(e) => Thrown(e)
    case Ok(runs) =>
      var p := FindProbe(ProbesOf(input.arms.aionis), id).value;
      Ok(ProbeTask(input, p, id, runs))
  }

  function ProbeCompiler(input: PairedCapture): string -> Outcome<CaptureTask> {
    (id: string) => CompileProbeTask(input, id)
  }

  function CompilePairedCapture(input: PairedCapture, le: (string, string) -> bool): Outcome<Capture> {
    match Traverse(ProbeCompiler(input), SelectedProbeIds(input, le))
    case Thrown(e) => Thrown(e)
    case Ok(tasks) => Ok(Capture(Supported, input.suiteId, input.kind, input.thresholds, tasks))
  }

  /** Compilation throws exactly when, for some selected probe, some arm lacks
      its run, its agent events or the probe with diagnostics. */
  lemma PairedCaptureCompilesIff(input: PairedCapture, le: (string, string) -> bool)
    ensures CompilePairedCapture(input, le).Ok? <==>
            forall id :: id in SelectedProbeIds(input, le) ==> AllCompilable(input, id)
  {
    var ids := SelectedProbeIds(input, le);
    if forall id :: id in ids ==> AllCompilable(input, id) {
      TraverseOk(ProbeCompiler(input), ids);
    }
    if Traverse(ProbeCompiler(input), ids).Ok? {
      forall id | id in ids ensures AllCompilable(input, id) {
        var i :| 0 <= i < |ids| && ids[i] == id;
        assert ProbeCompiler(input)(ids[i]).Ok?;
      }
    }
  }

  /** What a paired capture compiles to always compiles again. */
  lemma CompiledCaptureCompiles(input: PairedCapture, le: (string, string) -> bool, capture: Capture)
    requires CompilePairedCapture(input, le) == Ok(capture)
    ensures CompileTraceCapture(capture).Ok?
  {
    forall i | 0 <= i < |capture.tasks| ensures CompileTask(capture.tasks[i]).Ok? {
      assert ProbeCompiler(input)(SelectedProbeIds(input, le)[i]) == Ok(capture.tasks[i]);
    }
    TraverseOk(CompileTask, capture.tasks);
  }

  // ----- validators compose through compilation -----

  function ProbeFor(input: PairedCapture, arm: Arm, id: string): (p: Probe)
    requires Compilable(input, arm, id)
    ensures p.id == id && p.diagnostics.Some?
  {
    FindProbe(ProbesOf(input.arms.Get(arm)), id).value
  }

  lemma ProbeReqsIff(input: PairedCapture, arm: Arm, id: string)
    ensures AllOk(ProbeReqs(input, arm, id)) <==>
            var probe := FindProbe(ProbesOf(input.arms.Get(arm)), id);
            && probe.Some? && probe.value.passed.Some? && probe.value.diagnostics.Some?
            && probe.value.diagnostics.value.command.GetOr("") != ""
            && Count(IsActionEvent, EventsFor(input.arms.Get(arm), id)) > 0
  {
    var rs := ProbeReqs(input, arm, id);
    assert rs[0] in rs && rs[1] in rs && rs[2] in rs && rs[3] in rs;
  }

  lemma PairedReqsGive(input: PairedCapture, le: (string, string) -> bool, arm: Arm, id: string)
    requires AllOk(PairedReqs(input, le)) && id in SelectedProbeIds(input, le)
    ensures AllOk(ProbeReqs(input, arm, id)) && Compilable(input, arm, id)
  {
    var ids := SelectedProbeIds(input, le);
    var f := ArmAndProbeReqs(input, ids);
    AllOkAppend(PairedHeaderReqs(input), FlatMap(f, RequiredArms));
    AllOkForArms(f);
    assert AllOk(f(arm));
    AllOkAppend(ArmReqs(input, arm), FlatMap(ProbeReqsOf(input, arm), ids));
    AllOkFlatMap(ProbeReqsOf(input, arm), ids);
    var i :| 0 <= i < |ids| && ids[i] == id;
    assert AllOk(ProbeReqsOf(input, arm)(ids[i]));
    ProbeReqsIff(input, arm, id);
    assert EventsFor(input.arms.Get(arm), id) != [];
  }

  lemma PairedHeaderGives(input: PairedCapture, le: (string, string) -> bool)
    requires AllOk(PairedReqs(input, le))
    ensures input.kind == PilotRealTrace || input.kind == ProductRealTrace
    ensures forall entry :: entry in input.fairness ==> entry.1
  {
    var h := [Requirement(OfSuite, VersionSupported, input.version == Supported),
              Requirement(OfSuite, KindSupported, input.kind == PilotRealTrace || input.kind == ProductRealTrace)];
    AllOkAppend(PairedHeaderReqs(input), FlatMap(ArmAndProbeReqs(input, SelectedProbeIds(input, le)), RequiredArms));
    AllOkAppend(h, FlatMap(PairedFairness, input.fairness));
    AllOkFlatMap(PairedFairness, input.fairness);
    assert h[1] in h;
    forall i | 0 <= i < |input.fairness| ensures input.fairness[i].1 {
      assert AllOk(PairedFairness(input.fairness[i]));
      assert PairedFairness(input.fairness[i])[0] in PairedFairness(input.fairness[i]);
    }
  }

  /** The verifier evidence of an arm meets what the treatment's probe made the
      task ask for: by the harness event of that arm, or by an event that the
      agent recorded itself. */
  predicate EvidenceAgrees(input: PairedCapture, arm: Arm, id: string) {
    && Compilable(input, arm, id) && Compilable(input, AionisAssisted, id)
    && EvidenceMeets(EventsFor(input.arms.Get(arm), id), ProbeFor(input, arm, id), ProbeFor(input, AionisAssisted, id))
  }

  predicate EvidenceMeets(agent: seq<Event>, own: Probe, asked: Probe)
    requires own.diagnostics.Some? && asked.diagnostics.Some?
  {
    && (IsVisible(asked) ==>
          || SliceOf(own) == SliceOf(asked)
          || exists e :: e in agent && e.command == Some(Signature(asked))
                         && (e.kind == ExternalProbe || e.verifier == Some(true)))
    && (asked.expectations.afterExitRequired ==>
          || own.expectations.afterExitRequired
          || exists e :: e in agent && e.IsVerifier() && e.afterExit == Some(true))
  }

  /** Probes with one id have equal signatures exactly when their slices agree. */
  lemma SignatureIff(p: Probe, q: Probe)
    requires p.diagnostics.Some? && q.diagnostics.Some? && p.id == q.id
    ensures Signature(p) == Signature(q) <==> SliceOf(p) == SliceOf(q)
  {
    var head := "runtime_dogfood:" + p.id + ":";
    assert Signature(p) == head + (SliceOf(p) + ":fresh_shell");
    assert Signature(q) == head + (SliceOf(q) + ":fresh_shell");
    if Signature(p) == Signature(q) {
      assert SliceOf(p) + ":fresh_shell" == Signature(p)[|head|..] == SliceOf(q) + ":fresh_shell";
      assert |SliceOf(p)| == |SliceOf(q)|;
      assert SliceOf(p) == (SliceOf(p) + ":fresh_shell")[..|SliceOf(p)|];
      assert SliceOf(q) == (SliceOf(q) + ":fresh_shell")[..|SliceOf(q)|];
    }
  }

  /** The trace that compilation makes of an arm: the agent's events, then the
      harness event. */
  lemma CompiledRunOf(input: PairedCapture, arm: Arm, id: string, task: CaptureTask)
    requires CompileProbeTask(input, id) == Ok(task)
    ensures Compilable(input, arm, id) && task.runs.Get(arm) == Some(CompileArm(input, arm, id).value)
    ensures Compilable(input, AionisAssisted, id) && task.verifier == VerifierFor(ProbeFor(input, AionisAssisted, id))
    ensures task.runs.Get(arm).value.events
            == EventsFor(input.arms.Get(arm), id) + [VerifierEvent(ProbeFor(input, arm, id))]
    ensures task.runs.Get(arm).value.runId != ""
  {
  }

  lemma EvidenceOfArmIff(input: PairedCapture, arm: Arm, id: string, task: CaptureTask)
    requires CompileProbeTask(input, id) == Ok(task)
    ensures AllOk(ArmRunReqs(task, arm)) <==> EvidenceAgrees(input, arm, id)
  {
    CompiledRunOf(input, arm, id, task);
    ArmRunReqsIff(task, arm);
    HarnessEvidenceIff(EventsFor(input.arms.Get(arm), id), ProbeFor(input, arm, id),
                       ProbeFor(input, AionisAssisted, id));
  }

  lemma HarnessEvidenceIff(agent: seq<Event>, own: Probe, asked: Probe)
    requires own.diagnostics.Some? && asked.diagnostics.Some? && own.id == asked.id
    ensures var events := agent + [VerifierEvent(own)];
            && HasVerifier(events) && HasFreshShellVerifier(events)
            && (HasExternalProbe(events, VerifierFor(asked)) <==>
                  || SliceOf(own) == SliceOf(asked)
                  || exists e :: e in agent && e.command == Some(Signature(asked))
                                 && (e.kind == ExternalProbe || e.verifier == Some(true)))
            && (HasAfterExitVerifier(events) <==>
                  || own.expectations.afterExitRequired
                  || exists e :: e in agent && e.IsVerifier() && e.afterExit == Some(true))
  {
    var v := VerifierEvent(own);
    assert v in agent + [v] && forall e :: e in agent + [v] <==> e in agent || e == v;
    SignatureIff(own, asked);
    assert IsExternalProbeProof(v, VerifierFor(asked)) <==> SliceOf(own) == SliceOf(asked);
  }

  predicate ProbeAgrees(input: PairedCapture, id: string) {
    forall arm :: EvidenceAgrees(input, arm, id)
  }

  lemma TaskEvidenceIff(input: PairedCapture, id: string, task: CaptureTask)
    requires CompileProbeTask(input, id) == Ok(task)
    ensures AllOk(CaptureTaskReqs(task)) <==> ProbeAgrees(input, id)
  {
    AllOkForArms(RunReqs(task));
    forall arm ensures AllOk(RunReqs(task)(arm)) <==> EvidenceAgrees(input, arm, id) {
      EvidenceOfArmIff(input, arm, id, task);
    }
  }

  /** A valid paired capture always compiles. */
  lemma ValidPairedCaptureCompiles(input: PairedCapture, le: (string, string) -> bool)
    requires AllOk(PairedReqs(input, le))
    ensures CompilePairedCapture(input, le).Ok?
  {
    var ids := SelectedProbeIds(input, le);
    forall i | 0 <= i < |ids| ensures ProbeCompiler(input)(ids[i]).Ok? {
      ProbeIsCompilable(input, le, ids[i]);
    }
    TraverseOk(ProbeCompiler(input), ids);
  }

  lemma ProbeIsCompilable(input: PairedCapture, le: (string, string) -> bool, id: string)
    requires AllOk(PairedReqs(input, le)) && id in SelectedProbeIds(input, le)
    ensures AllCompilable(input, id)
  {
    forall arm ensures Compilable(input, arm, id) {
      PairedReqsGive(input, le, arm, id);
    }
  }

  /** The capture compiled from a valid paired capture is valid exactly when,
      for every selected probe, the evidence of every arm agrees with what the
      treatment's probe asks for. */
  lemma CompiledCaptureValidIff(input: PairedCapture, le: (string, string) -> bool, capture: Capture)
    requires AllOk(PairedReqs(input, le)) && CompilePairedCapture(input, le) == Ok(capture)
    ensures var ids := SelectedProbeIds(input, le);
            AllOk(CaptureReqs(capture)) <==> forall i :: 0 <= i < |ids| ==> ProbeAgrees(input, ids[i])
  {
    var ids := SelectedProbeIds(input, le);
    PairedHeaderGives(input, le);
    TasksEvidenceIff(input, ids, capture.tasks);
    SupportedCaptureIff(capture, ids, (id: string) => ProbeAgrees(input, id));
  }

  lemma SupportedCaptureIff(capture: Capture, ids: seq<string>, agrees: string -> bool)
    requires capture.version == Supported && capture.kind != HarnessCalibration && |ids| == |capture.tasks|
    requires forall i :: 0 <= i < |ids| ==> (AllOk(CaptureTaskReqs(capture.tasks[i])) <==> agrees(ids[i]))
    ensures AllOk(CaptureReqs(capture)) <==> forall i :: 0 <= i < |ids| ==> agrees(ids[i])
  {
    CaptureReqsIff(capture);
  }

  lemma TasksEvidenceIff(input: PairedCapture, ids: seq<string>, tasks: seq<CaptureTask>)
    requires Traverse(ProbeCompiler(input), ids) == Ok(tasks)
    ensures |tasks| == |ids|
    ensures forall i :: 0 <= i < |ids| ==> (AllOk(CaptureTaskReqs(tasks[i])) <==> ProbeAgrees(input, ids[i]))
  {
    forall i | 0 <= i < |ids| ensures AllOk(CaptureTaskReqs(tasks[i])) <==> ProbeAgrees(input, ids[i]) {
      assert ProbeCompiler(input)(ids[i]) == Ok(tasks[i]);
      TaskEvidenceIff(input, ids[i], tasks[i]);
    }
  }
}
