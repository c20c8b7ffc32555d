/** The data that a run leaves behind, and the tests the judge applies to a
    single recorded event. */
module Trace {
  import opened Util

  datatype Arm = Baseline | AionisAssisted | NegativeControl | PositiveControl

  const RequiredArms: seq<Arm> := [Baseline, AionisAssisted, NegativeControl, PositiveControl]

  /** A record with one entry for each arm. */
  datatype PerArm<+T> = PerArm(baseline: T, aionis: T, negative: T, positive: T) {
    function Get(arm: Arm): T {
      match arm
      case Baseline => baseline
      case AionisAssisted => aionis
      case NegativeControl => negative
      case PositiveControl => positive
    }
  }

  datatype SuiteKind = HarnessCalibration | PilotRealTrace | ProductRealTrace

  /** The version string of a document, which is only ever compared with the one
      constant that its reader supports. */
  datatype Version = Supported | Unsupported(text: string)

  datatype MemoryMode = NoMemory | AionisAuto | IrrelevantOrLowTrust | OracleHandoff

  datatype Authority = NoAuthority | Observational | Advisory | Authoritative

  datatype PacketSource = NoPacket | AutomaticRuntime | IrrelevantLowTrust | OraclePacket

  /** `Unlisted` carries a kind outside the declared union, as unvalidated JSON
      may; the empty name is a missing kind. */
  datatype EventKind =
    | Action | ToolCall | Verification | ExternalProbe | AgentClaim | Retry | HumanIntervention
    | Unlisted(name: string)

  datatype Event = Event(
    kind: EventKind,
    timestampMs: Option<real>,
    text: Option<string>,
    command: Option<string>,
    touchedFiles: Option<seq<string>>,
    correct: Option<bool>,
    wasted: Option<bool>,
    retry: Option<bool>,
    success: Option<bool>,
    verifier: Option<bool>,
    afterExit: Option<bool>,
    freshShell: Option<bool>,
    claimedSuccess: Option<bool>,
    falseConfidence: Option<bool>,
    humanIntervention: Option<bool>,
    tokens: Option<real>)
  {
    function Touched(): seq<string> {
      if touchedFiles.Some? then touchedFiles.value else []
    }

    predicate IsAction() {
      kind == Action || kind == ToolCall
    }

    predicate IsVerifier() {
      kind == Verification || kind == ExternalProbe || verifier == Some(true)
    }
  }

  /** An event of the given kind with every optional field absent. */
  function Blank(kind: EventKind): Event {
    Event(kind, None, None, None, None, None, None, None, None, None, None, None, None, None, None, None)
  }

  /** An events file with or without the `events_by_probe_id` wrapper. */
  datatype EventsFile = Wrapped(record: map<string, seq<Event>>) | Plain(record: map<string, seq<Event>>)

  datatype Metrics = Metrics(
    completion: bool,
    verifierPassed: bool,
    firstCorrectAction: bool,
    wastedSteps: real,
    retryCount: real,
    falseConfidence: bool,
    afterExitCorrect: Option<bool>,
    wrongFileTouches: real,
    humanInterventions: real,
    timeToSuccessMs: Option<real>,
    tokensToSuccess: Option<real>)

  /** `Partial<RealAbArmMetrics>`. */
  datatype PartialMetrics = PartialMetrics(
    completion: Option<bool>,
    verifierPassed: Option<bool>,
    firstCorrectAction: Option<bool>,
    wastedSteps: Option<real>,
    retryCount: Option<real>,
    falseConfidence: Option<bool>,
    afterExitCorrect: Option<bool>,
    wrongFileTouches: Option<real>,
    humanInterventions: Option<real>,
    timeToSuccessMs: Option<real>,
    tokensToSuccess: Option<real>)

  const NoOutcome := PartialMetrics(None, None, None, None, None, None, None, None, None, None, None)

  /** `outcome` is `NoOutcome` when the trace carries none. */
  datatype RunTrace = RunTrace(
    version: Version,
    runId: string,
    startedAtMs: Option<real>,
    endedAtMs: Option<real>,
    events: seq<Event>,
    outcome: PartialMetrics)

  datatype VerifierKind = CommandVerifier | ExternalProbeVerifier | ManualVerifier

  datatype VerifierSpec = VerifierSpec(
    kind: VerifierKind,
    command: Option<string>,
    afterExitRequired: bool,
    externalVisibilityRequired: bool)

  datatype Observation = Observation(
    memoryMode: MemoryMode,
    authority: Authority,
    packetSource: PacketSource,
    metrics: Option<Metrics>,
    trace: Option<RunTrace>)

  datatype TaskSpec = TaskSpec(
    id: string,
    title: string,
    family: string,
    prompt: string,
    fairness: seq<(string, bool)>,
    verifier: VerifierSpec,
    targetFiles: seq<string>,
    acceptanceChecks: seq<string>,
    arms: PerArm<Observation>)

  /** The regular-expression tests, as functions of the text of an event or the
      name of a file. */
  datatype TextTests = TextTests(
    broadDiscovery: string -> bool,
    skillRead: string -> bool,
    editText: string -> bool,
    passText: string -> bool,
    evidenceFile: string -> bool)

  function EventText(e: Event): string {
    Join((if e.text.Some? then [e.text.value] else [])
         + (if e.command.Some? then [e.command.value] else [])
         + e.Touched(), "\n")
  }

  predicate TouchesTarget(e: Event, task: TaskSpec) {
    exists t :: t in task.targetFiles && Includes(EventText(e), t)
  }

  predicate MatchesAcceptance(e: Event, task: TaskSpec) {
    exists c :: c in task.acceptanceChecks && Includes(EventText(e), c)
  }

  predicate IsEdit(tt: TextTests, e: Event) {
    e.IsAction() && tt.editText(EventText(e))
  }

  predicate IsAcceptanceEvidenceEdit(tt: TextTests, e: Event, task: TaskSpec) {
    && IsEdit(tt, e)
    && exists f :: f in e.Touched() && f in task.targetFiles && tt.evidenceFile(f)
  }

  predicate IsNonTargetExpansion(e: Event, task: TaskSpec) {
    && e.IsAction()
    && task.targetFiles != []
    && exists f :: f in e.Touched() && f !in task.targetFiles
  }

  predicate IsAcceptancePass(tt: TextTests, e: Event, task: TaskSpec) {
    && MatchesAcceptance(e, task)
    && (e.success == Some(true) || tt.passText(EventText(e)))
  }

  predicate MatchesVerifierCommand(e: Event, verifier: VerifierSpec) {
    || verifier.command.None? || verifier.command == Some("")
    || e.command == verifier.command
  }
}
