/** The live-evidence assembler: a manifest and the files it names become a
    paired capture. Token counts are read out of command output by a parser
    that is a parameter here. */
module Assembler {
  import opened Util
  import opened Trace
  import opened Measure
  import opened Gate
  import opened DogfoodCapture

  /** `hinted` is what the text test for manual hints finds in the notes. */
  datatype ArmManifest = ArmManifest(
    sourceRunId: string,
    memoryMode: MemoryMode,
    authority: Authority,
    packetSource: PacketSource,
    runPath: string,
    eventsPath: string,
    hinted: bool)

  /** The frozen protocol of a comparison; `None` and the empty text pin nothing. */
  datatype FairnessManifest = FairnessManifest(
    version: Version,
    taskIds: seq<string>,
    frozen: seq<(string, bool)>,
    model: Option<string>,
    reasoningEffort: Option<string>,
    agentCli: Option<string>,
    packetSources: PerArm<PacketSource>,
    sameVerifierWorkspace: bool)

  datatype Manifest = Manifest(
    version: Version,
    suiteId: string,
    kind: SuiteKind,
    thresholds: PartialThresholds,
    fairness: seq<(string, bool)>,
    fairnessManifest: Option<FairnessManifest>,
    taskIds: seq<string>,
    arms: PerArm<Option<ArmManifest>>)

  /** What is recorded of the environment that an agent ran in. */
  datatype Environment = Environment(
    model: Option<string>,
    reasoningEffort: Option<string>,
    agentCli: Option<string>,
    agentCliVersion: Option<string>,
    commandTemplateHash: Option<string>,
    commandHash: Option<string>,
    initialWorkspaceHash: Option<string>)

  datatype LlmResult = LlmResult(
    probeId: string,
    durationMs: Option<real>,
    stdoutTail: string,
    stderrTail: string,
    environment: Option<Environment>)

  datatype LoadedArm = LoadedArm(run: DogfoodRun, events: EventsFile, llm: Option<LlmResult>)

  function RecordedFor(loaded: Option<LoadedArm>, id: string): seq<Event> {
    if loaded.Some? && id in loaded.value.events.record then loaded.value.events.record[id] else []
  }

  // ----- the validator -----

  function ManifestFairness(entry: (string, bool)): seq<Requirement> {
    [Requirement(OfSuite, Fair(entry.0), entry.1)]
  }

  function ManifestHeaderReqs(m: Manifest): seq<Requirement> {
    [Requirement(OfSuite, VersionSupported, m.version == Supported),
     Requirement(OfSuite, KindSupported, m.kind == PilotRealTrace || m.kind == ProductRealTrace)]
    + FlatMap(ManifestFairness, m.fairness)
  }

  // ----- the fairness manifest -----

  function EnvironmentOf(loaded: Option<LoadedArm>): Option<Environment> {
    if loaded.Some? && loaded.value.llm.Some? then loaded.value.llm.value.environment else None
  }

  function RunProvenance(loaded: Option<LoadedArm>): Provenance {
    if loaded.Some? then loaded.value.run.provenance else Provenance(None, None, None)
  }

  /** The values that are recorded, none for `null` and the empty text. */
  function Recorded(values: seq<Option<string>>): set<string> {
    set v | v in values && v.GetOr("") != "" :: v.value
  }

  /** No two different values are recorded. */
  predicate MaybeSame(values: seq<Option<string>>) {
    |Recorded(values)| <= 1
  }

  predicate SameStringSet(left: seq<string>, right: seq<string>) {
    var l, r := set x | x in left, set x | x in right;
    |l| == |r| && forall x :: x in l ==> x in r
  }

  function ReadFrom(get: Environment -> Option<string>, envs: seq<Option<Environment>>): seq<Option<string>> {
    Column((env: Option<Environment>) => if env.Some? then get(env.value) else None, envs)
  }

  predicate AllPresent(envs: seq<Option<Environment>>) {
    forall env :: env in envs ==> env.Some?
  }

  /** Every arm ran with the pinned value; or, if none is pinned, with no two
      different recorded values. */
  predicate PinnedOrSame(pin: Option<string>, get: Environment -> Option<string>, envs: seq<Option<Environment>>) {
    forall env :: env in envs ==>
      env.Some? && if pin.GetOr("") != "" then get(env.value) == pin else MaybeSame(ReadFrom(get, envs))
  }

  predicate SameWhereRecorded(get: Environment -> Option<string>, envs: seq<Option<Environment>>) {
    MaybeSame(ReadFrom(get, envs)) && AllPresent(envs)
  }

  function ModelOf(e: Environment): Option<string> { e.model }

  function ReasoningEffortOf(e: Environment): Option<string> { e.reasoningEffort }

  function AgentCliOf(e: Environment): Option<string> { e.agentCli }

  function AgentCliVersionOf(e: Environment): Option<string> { e.agentCliVersion }

  function CommandHashOf(e: Environment): Option<string> {
    if e.commandTemplateHash.Some? then e.commandTemplateHash else e.commandHash
  }

  function InitialWorkspaceOf(e: Environment): Option<string> { e.initialWorkspaceHash }

  function Environments(loaded: PerArm<Option<LoadedArm>>): seq<Option<Environment>> {
    Column((arm: Arm) => EnvironmentOf(loaded.Get(arm)), RequiredArms)
  }

  function Provenances(loaded: PerArm<Option<LoadedArm>>): seq<Provenance> {
    Column((arm: Arm) => RunProvenance(loaded.Get(arm)), RequiredArms)
  }

  function ProbeProvenances(probes: seq<Probe>): seq<Provenance> {
    Column((p: Probe) => p.provenance, probes)
  }

  /** The probes of all loaded runs. */
  function AllProbes(loaded: PerArm<Option<LoadedArm>>): seq<Probe> {
    LoadedProbes(loaded.baseline) + LoadedProbes(loaded.aionis)
    + LoadedProbes(loaded.negative) + LoadedProbes(loaded.positive)
  }

  predicate IsVersioned(p: Provenance) { p.version == Some(Supported) }

  predicate IsFreshShell(p: Provenance) { IsVersioned(p) && p.freshShell == Some(true) }

  function FrozenEntry(entry: (string, bool)): seq<Requirement> {
    [Requirement(OfSuite, Frozen(entry.0), entry.1)]
  }

  function EnvironmentReqs(f: FairnessManifest, envs: seq<Option<Environment>>): seq<Requirement> {
    [Requirement(OfSuite, EnvironmentPresent, AllPresent(envs)),
     Requirement(OfSuite, SameModel, PinnedOrSame(f.model, ModelOf, envs)),
     Requirement(OfSuite, SameReasoningEffort, PinnedOrSame(f.reasoningEffort, ReasoningEffortOf, envs)),
     Requirement(OfSuite, SameAgentCli, PinnedOrSame(f.agentCli, AgentCliOf, envs)),
     Requirement(OfSuite, SameAgentCliVersion, SameWhereRecorded(AgentCliVersionOf, envs)),
     Requirement(OfSuite, SameCommandHash, SameWhereRecorded(CommandHashOf, envs)),
     Requirement(OfSuite, SameInitialWorkspace, SameWhereRecorded(InitialWorkspaceOf, envs))]
  }

  function ProvenanceReqs(f: FairnessManifest, runs: seq<Provenance>, probes: seq<Provenance>): seq<Requirement> {
    [Requirement(OfSuite, VerifierProvenance, forall p :: p in runs ==> IsVersioned(p)),
     Requirement(OfSuite, VerifierWorkspace,
                 f.sameVerifierWorkspace ==> forall p :: p in runs ==> p.workspaceRoot.Some?),
     Requirement(OfSuite, FreshShellProvenance, probes != [] && forall p :: p in probes ==> IsFreshShell(p))]
  }

  function PacketReqs(f: FairnessManifest, arms: PerArm<Option<ArmManifest>>): Arm -> seq<Requirement> {
    (arm: Arm) => [Requirement(OfSuiteArm(arm), PacketSourceMatches,
                               arms.Get(arm).Some? && arms.Get(arm).value.packetSource == f.packetSources.Get(arm))]
  }

  function FrozenHeaderReqs(f: FairnessManifest, m: Manifest, loaded: PerArm<Option<LoadedArm>>): seq<Requirement> {
    [Requirement(OfSuite, FairnessVersionSupported, f.version == Supported),
     Requirement(OfSuite, SameTaskIds, SameStringSet(f.taskIds, m.taskIds))]
    + FlatMap(FrozenEntry, f.frozen)
    + EnvironmentReqs(f, Environments(loaded))
    + ProvenanceReqs(f, Provenances(loaded), ProbeProvenances(AllProbes(loaded)))
  }

  function HintReqs(arms: PerArm<Option<ArmManifest>>): seq<Requirement> {
    [Requirement(OfSuite, NoManualHints, !(arms.aionis.Some? && arms.aionis.value.hinted))]
  }

  function FrozenReqs(f: FairnessManifest, m: Manifest, loaded: PerArm<Option<LoadedArm>>): seq<Requirement> {
    FrozenHeaderReqs(f, m, loaded) + FlatMap(PacketReqs(f, m.arms), RequiredArms) + HintReqs(m.arms)
  }

  function FairnessManifestReqs(m: Manifest, loaded: PerArm<Option<LoadedArm>>): seq<Requirement> {
    if m.fairnessManifest.None? then [] else FrozenReqs(m.fairnessManifest.value, m, loaded)
  }

  /** Packet sources are pushed in a loop over the arms, the hint check last. */
  method ValidateFairnessManifest(m: Manifest, loaded: PerArm<Option<LoadedArm>>)
    returns (requirements: seq<Requirement>)
    ensures requirements == FairnessManifestReqs(m, loaded)
  {
    if m.fairnessManifest.None? { return []; }
    var f := m.fairnessManifest.value;
    var header := FrozenHeaderReqs(f, m, loaded);
    requirements := header;
    ghost var packets := PacketReqs(f, m.arms);
    for k := 0 to |RequiredArms|
      invariant requirements == header + FlatMap(packets, RequiredArms[..k])
    {
      var arm := RequiredArms[k];
      FlatMapStep(packets, RequiredArms, k);
      requirements := requirements
        + [Requirement(OfSuiteArm(arm), PacketSourceMatches,
                       m.arms.Get(arm).Some? && m.arms.Get(arm).value.packetSource == f.packetSources.Get(arm))];
    }
    assert RequiredArms[..|RequiredArms|] == RequiredArms;
    requirements := requirements + HintReqs(m.arms);
  }

  // ----- the arms -----

  function LoadedArmReqs(arm: Arm, a: Option<ArmManifest>, loaded: Option<LoadedArm>): seq<Requirement> {
    [Requirement(OfSuiteArm(arm), ManifestPresent, a.Some?),
     Requirement(OfSuiteArm(arm), RunPathPresent, a.Some? && a.value.runPath != ""),
     Requirement(OfSuiteArm(arm), EventsPathPresent, a.Some? && a.value.eventsPath != ""),
     Requirement(OfSuiteArm(arm), RunVersionSupported, loaded.Some? && loaded.value.run.version == Supported)]
  }

  function RecordedReqs(arm: Arm, loaded: Option<LoadedArm>): Probe -> seq<Requirement> {
    (p: Probe) => [
      Requirement(OfTaskArm(p.id, arm), EventsPresent, RecordedFor(loaded, p.id) != []),
      Requirement(OfTaskArm(p.id, arm), ActionEventsPresent, Count(IsActionEvent, RecordedFor(loaded, p.id)) > 0)]
  }

  function LoadedProbes(loaded: Option<LoadedArm>): seq<Probe> {
    if loaded.Some? then loaded.value.run.probes else []
  }

  function AssemblerArmReqs(m: Manifest, loaded: PerArm<Option<LoadedArm>>): Arm -> seq<Requirement> {
    (arm: Arm) => LoadedArmReqs(arm, m.arms.Get(arm), loaded.Get(arm))
                  + FlatMap(RecordedReqs(arm, loaded.Get(arm)), LoadedProbes(loaded.Get(arm)))
  }

  function AssemblerReqs(m: Manifest, loaded: PerArm<Option<LoadedArm>>): seq<Requirement> {
    ManifestHeaderReqs(m) + FairnessManifestReqs(m, loaded) + FlatMap(AssemblerArmReqs(m, loaded), RequiredArms)
  }

  /** The inner loop, over the probes of one loaded run. */
  method PushRecordedReqs(m: Manifest, loaded: PerArm<Option<LoadedArm>>, arm: Arm)
    returns (requirements: seq<Requirement>)
    ensures requirements == AssemblerArmReqs(m, loaded)(arm)
  {
    var header := LoadedArmReqs(arm, m.arms.Get(arm), loaded.Get(arm));
    var probes := LoadedProbes(loaded.Get(arm));
    requirements := header;
    ghost var f := RecordedReqs(arm, loaded.Get(arm));
    for i := 0 to |probes|
      invariant requirements == header + FlatMap(f, probes[..i])
    {
      var events := RecordedFor(loaded.Get(arm), probes[i].id);
      FlatMapStep(f, probes, i);
      requirements := requirements + [
        Requirement(OfTaskArm(probes[i].id, arm), EventsPresent, events != []),
        Requirement(OfTaskArm(probes[i].id, arm), ActionEventsPresent, Count(IsActionEvent, events) > 0)];
    }
    assert probes[..|probes|] == probes;
  }

  /** The outer loop, over the arms. */
  method PushLoadedReqs(m: Manifest, loaded: PerArm<Option<LoadedArm>>) returns (requirements: seq<Requirement>)
    ensures requirements == FlatMap(AssemblerArmReqs(m, loaded), RequiredArms)
  {
    requirements := [];
    ghost var f := AssemblerArmReqs(m, loaded);
    for k := 0 to |RequiredArms|
      invariant requirements == FlatMap(f, RequiredArms[..k])
    {
      var pushed := PushRecordedReqs(m, loaded, RequiredArms[k]);
      FlatMapStep(f, RequiredArms, k);
      requirements := requirements + pushed;
    }
    assert RequiredArms[..|RequiredArms|] == RequiredArms;
  }

  method ValidateAssemblerInputs(m: Manifest, loaded: PerArm<Option<LoadedArm>>)
    returns (requirements: seq<Requirement>)
    ensures requirements == AssemblerReqs(m, loaded)
  {
    var frozen := ValidateFairnessManifest(m, loaded);
    var pushed := PushLoadedReqs(m, loaded);
    requirements := ManifestHeaderReqs(m) + frozen + pushed;
  }

  // ----- assembly -----

  /** The outcome of an LLM run: costs only, under the probe it names. */
  function LlmOutcome(llm: Option<LlmResult>, parse: string -> Option<real>): map<string, PartialMetrics> {
    if llm.None? || llm.value.probeId == "" then map[]
    else
      var r := llm.value;
      var time := if r.durationMs.Some? && r.durationMs.value >= 0.0 then r.durationMs else None;
      var tokens := parse(r.stdoutTail + "\n" + r.stderrTail);
      if time.None? && tokens.None? then map[]
      else map[r.probeId := NoOutcome.(timeToSuccessMs := time, tokensToSuccess := tokens)]
  }

  function AssembleArm(a: ArmManifest, loaded: LoadedArm, parse: string -> Option<real>): ArmInput {
    ArmInput(a.sourceRunId, a.memoryMode, a.authority, a.packetSource,
             Some(loaded.run), Some(loaded.events.record), LlmOutcome(loaded.llm, parse))
  }

  predicate ArmIsComplete(m: Manifest, loaded: PerArm<Option<LoadedArm>>, arm: Arm) {
    m.arms.Get(arm).Some? && loaded.Get(arm).Some?
  }

  function Assemble(m: Manifest, loaded: PerArm<Option<LoadedArm>>, parse: string -> Option<real>)
    : Outcome<PairedCapture>
  {
    if !(ArmIsComplete(m, loaded, Baseline) && ArmIsComplete(m, loaded, AionisAssisted)
         && ArmIsComplete(m, loaded, NegativeControl) && ArmIsComplete(m, loaded, PositiveControl))
    then Thrown(UndefinedAccess)
    else
      Ok(PairedCapture(Supported, m.suiteId, m.kind, m.thresholds, m.fairness, m.taskIds,
                       PerArm(Some(AssembleArm(m.arms.baseline.value, loaded.baseline.value, parse)),
                              Some(AssembleArm(m.arms.aionis.value, loaded.aionis.value, parse)),
                              Some(AssembleArm(m.arms.negative.value, loaded.negative.value, parse)),
                              Some(AssembleArm(m.arms.positive.value, loaded.positive.value, parse)))))
  }

  lemma AssembledArm(m: Manifest, loaded: PerArm<Option<LoadedArm>>, parse: string -> Option<real>,
                     input: PairedCapture, arm: Arm)
    requires Assemble(m, loaded, parse) == Ok(input)
    ensures m.arms.Get(arm).Some? && loaded.Get(arm).Some?
    ensures input.arms.Get(arm) == Some(AssembleArm(m.arms.Get(arm).value, loaded.Get(arm).value, parse))
  {
  }

  // ----- the assembler's requirements, seen from the next stage -----

  /** What the paired capture asks of a selected probe beyond what the assembler
      already checked. */
  predicate ProbeComplete(loaded: Option<LoadedArm>, id: string) {
    var p := FindProbe(LoadedProbes(loaded), id);
    p.Some? && p.value.passed.Some? && p.value.diagnostics.Some? && p.value.diagnostics.value.command.GetOr("") != ""
  }

  lemma AssemblerArmGives(m: Manifest, loaded: PerArm<Option<LoadedArm>>, arm: Arm)
    requires AllOk(AssemblerReqs(m, loaded))
    ensures AllOk(LoadedArmReqs(arm, m.arms.Get(arm), loaded.Get(arm)))
    ensures AllOk(FlatMap(RecordedReqs(arm, loaded.Get(arm)), LoadedProbes(loaded.Get(arm))))
  {
    var f := AssemblerArmReqs(m, loaded);
    AllOkAppend(ManifestHeaderReqs(m) + FairnessManifestReqs(m, loaded), FlatMap(f, RequiredArms));
    AllOkForArms(f);
    assert AllOk(f(arm));
    AllOkAppend(LoadedArmReqs(arm, m.arms.Get(arm), loaded.Get(arm)),
                FlatMap(RecordedReqs(arm, loaded.Get(arm)), LoadedProbes(loaded.Get(arm))));
  }

  lemma LoadedArmGives(arm: Arm, a: Option<ArmManifest>, loaded: Option<LoadedArm>)
    requires AllOk(LoadedArmReqs(arm, a, loaded))
    ensures a.Some? && loaded.Some? && loaded.value.run.version == Supported
  {
    var rs := LoadedArmReqs(arm, a, loaded);
    assert rs[0] in rs && rs[3] in rs;
  }

  lemma RecordedGives(arm: Arm, loaded: Option<LoadedArm>, probes: seq<Probe>, p: Probe)
    requires AllOk(FlatMap(RecordedReqs(arm, loaded), probes)) && p in probes
    ensures Count(IsActionEvent, RecordedFor(loaded, p.id)) > 0
  {
    AllOkFlatMap(RecordedReqs(arm, loaded), probes);
    var i :| 0 <= i < |probes| && probes[i] == p;
    var rs := RecordedReqs(arm, loaded)(probes[i]);
    assert rs[1] in rs;
  }

  /** Inputs that pass the assembler's requirements always assemble. */
  lemma ValidInputsAssemble(m: Manifest, loaded: PerArm<Option<LoadedArm>>, parse: string -> Option<real>)
    requires AllOk(AssemblerReqs(m, loaded))
    ensures Assemble(m, loaded, parse).Ok?
  {
    forall arm ensures ArmIsComplete(m, loaded, arm) {
      AssemblerArmGives(m, loaded, arm);
      LoadedArmGives(arm, m.arms.Get(arm), loaded.Get(arm));
    }
  }

  lemma ProbeReqsOfAssembled(m: Manifest, loaded: PerArm<Option<LoadedArm>>, parse: string -> Option<real>,
                             input: PairedCapture, arm: Arm, id: string)
    requires AllOk(AssemblerReqs(m, loaded)) && Assemble(m, loaded, parse) == Ok(input)
    ensures AllOk(ProbeReqs(input, arm, id)) <==> ProbeComplete(loaded.Get(arm), id)
    ensures AllOk(ArmReqs(input, arm))
  {
    AssembledArm(m, loaded, parse, input, arm);
    AssemblerArmGives(m, loaded, arm);
    LoadedArmGives(arm, m.arms.Get(arm), loaded.Get(arm));
    ProbeReqsIff(input, arm, id);
    var probes := LoadedProbes(loaded.Get(arm));
    assert ProbesOf(input.arms.Get(arm)) == probes;
    assert EventsFor(input.arms.Get(arm), id) == RecordedFor(loaded.Get(arm), id);
    if FindProbe(probes, id).Some? {
      RecordedGives(arm, loaded.Get(arm), probes, FindProbe(probes, id).value);
    }
  }

  /** After the assembler's checks, the paired capture is valid exactly when
      every arm's run holds a complete probe for every selected id. */
  lemma AssembledCaptureValidIff(m: Manifest, loaded: PerArm<Option<LoadedArm>>, parse: string -> Option<real>,
                                 le: (string, string) -> bool, input: PairedCapture)
    requires AllOk(AssemblerReqs(m, loaded)) && Assemble(m, loaded, parse) == Ok(input)
    ensures var ids := SelectedProbeIds(input, le);
            AllOk(PairedReqs(input, le)) <==>
            forall arm, i | 0 <= i < |ids| :: ProbeComplete(loaded.Get(arm), ids[i])
  {
    hide Assemble, AssemblerReqs, AllOk, ProbeComplete;
    var ids := SelectedProbeIds(input, le);
    var f := ArmAndProbeReqs(input, ids);
    HeaderCarriesOver(m, loaded, parse, input);
    AllOkAppend(PairedHeaderReqs(input), FlatMap(f, RequiredArms));
    AllOkForArms(f);
    forall arm ensures AllOk(f(arm)) <==> forall i | 0 <= i < |ids| :: ProbeComplete(loaded.Get(arm), ids[i]) {
      ArmOfAssembled(m, loaded, parse, input, arm, ids);
    }
  }

  lemma ArmOfAssembled(m: Manifest, loaded: PerArm<Option<LoadedArm>>, parse: string -> Option<real>,
                       input: PairedCapture, arm: Arm, ids: seq<string>)
    requires AllOk(AssemblerReqs(m, loaded)) && Assemble(m, loaded, parse) == Ok(input)
    ensures AllOk(ArmAndProbeReqs(input, ids)(arm)) <==>
            forall i | 0 <= i < |ids| :: ProbeComplete(loaded.Get(arm), ids[i])
  {
    AllOkAppend(ArmReqs(input, arm), FlatMap(ProbeReqsOf(input, arm), ids));
    AllOkFlatMap(ProbeReqsOf(input, arm), ids);
    ProbeReqsOfAssembled(m, loaded, parse, input, arm, "");
    forall i | 0 <= i < |ids|
      ensures AllOk(ProbeReqsOf(input, arm)(ids[i])) <==> ProbeComplete(loaded.Get(arm), ids[i])
    {
      ProbeReqsOfAssembled(m, loaded, parse, input, arm, ids[i]);
    }
  }

  lemma HeaderCarriesOver(m: Manifest, loaded: PerArm<Option<LoadedArm>>, parse: string -> Option<real>,
                          input: PairedCapture)
    requires AllOk(AssemblerReqs(m, loaded)) && Assemble(m, loaded, parse) == Ok(input)
    ensures AllOk(PairedHeaderReqs(input))
  {
    AllOkAppend(ManifestHeaderReqs(m) + FairnessManifestReqs(m, loaded),
                FlatMap(AssemblerArmReqs(m, loaded), RequiredArms));
    AllOkAppend(ManifestHeaderReqs(m), FairnessManifestReqs(m, loaded));
    HeaderOk(input, m);
  }

  lemma HeaderOk(input: PairedCapture, m: Manifest)
    requires input.version == Supported && input.kind == m.kind && input.fairness == m.fairness
    requires AllOk(ManifestHeaderReqs(m))
    ensures AllOk(PairedHeaderReqs(input))
  {
    var h := [Requirement(OfSuite, VersionSupported, m.version == Supported),
              Requirement(OfSuite, KindSupported, m.kind == PilotRealTrace || m.kind == ProductRealTrace)];
    AllOkAppend(h, FlatMap(ManifestFairness, m.fairness));
    assert h[1] in h;
    AllOkFlatMap(ManifestFairness, m.fairness);
    AllOkFlatMap(PairedFairness, input.fairness);
    assert forall entry :: PairedFairness(entry) == ManifestFairness(entry);
    AllOkAppend([Requirement(OfSuite, VersionSupported, input.version == Supported),
                 Requirement(OfSuite, KindSupported, input.kind == PilotRealTrace || input.kind == ProductRealTrace)],
                FlatMap(PairedFairness, input.fairness));
  }
}
