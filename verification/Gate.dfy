/** The suite gate: requirements of each task, requirements over the rates and
    reductions of the whole suite, and one verdict. Numbers are real numbers. */
module Gate {
  import opened Util
  import opened Trace
  import opened Discipline
  import opened Measure

  // ----- arithmetic -----

  function BoolToInt(b: bool): int { if b then 1 else 0 }

  function CountTrue(bs: seq<bool>): nat {
    if bs == [] then 0 else (if bs[0] then 1 else 0) + CountTrue(bs[1..])
  }

  /** The share of true values, 0 for no values. */
  function Rate(bs: seq<bool>): real {
    if bs == [] then 0.0 else CountTrue(bs) as real / |bs| as real
  }

  function Known(bs: seq<Option<bool>>): seq<bool> {
    if bs == [] then [] else (if bs[0].Some? then [bs[0].value] else []) + Known(bs[1..])
  }

  function NullableRate(bs: seq<Option<bool>>): Option<real> {
    if Known(bs) == [] then None else Some(Rate(Known(bs)))
  }

  function Sum(xs: seq<real>): real {
    if xs == [] then 0.0 else xs[0] + Sum(xs[1..])
  }

  function Present(xs: seq<Option<real>>): seq<real> {
    if xs == [] then [] else (if xs[0].Some? then [xs[0].value] else []) + Present(xs[1..])
  }

  function NullableSum(xs: seq<Option<real>>): Option<real> {
    if Present(xs) == [] then None else Some(Sum(Present(xs)))
  }

  datatype Pct = MinusInfinity | Finite(value: real) {
    predicate AtLeast(threshold: real) {
      Finite? && value >= threshold
    }
  }

  function PctReduction(before: real, after: real): Pct {
    if before <= 0.0 then (if after <= before then Finite(0.0) else MinusInfinity)
    else Finite((before - after) / before * 100.0)
  }

  /** `null` when either side has no measurement. */
  function NullableReduction(before: Option<real>, after: Option<real>): Option<Pct> {
    if before.Some? && after.Some? then Some(PctReduction(before.value, after.value)) else None
  }

  predicate Reaches(reduction: Option<Pct>, threshold: real) {
    reduction.Some? && reduction.value.AtLeast(threshold)
  }

  /** When a reduction reaches a threshold, without division or infinity. */
  lemma ReductionIff(before: real, after: real, threshold: real)
    ensures PctReduction(before, after).AtLeast(threshold) <==>
            if before <= 0.0 then after <= before && threshold <= 0.0
            else 100.0 * after <= (100.0 - threshold) * before
  {
    if before > 0.0 {
      var r := (before - after) / before;
      assert r * before == before - after;
      if r * 100.0 >= threshold {
        MulMono(threshold, r * 100.0, before);
        assert (r * 100.0) * before == 100.0 * (before - after);
      } else {
        MulStrict(r * 100.0, threshold, before);
        assert (r * 100.0) * before == 100.0 * (before - after);
      }
    }
  }

  lemma MulMono(a: real, b: real, c: real)
    requires a <= b && c > 0.0
    ensures a * c <= b * c
  {
    assert (b - a) * c >= 0.0;
  }

  lemma MulStrict(a: real, b: real, c: real)
    requires a < b && c > 0.0
    ensures a * c < b * c
  {
    assert (b - a) * c > 0.0;
  }

  // ----- requirements -----

  /** The checks that the validators and the gate make, by the last part of
      the identifier the source gives them. */
  datatype Check =
    | ArmPresent | Measured | Fair(key: string)
    | BaselineNoMemory | TreatmentAutomaticMemory | NegativeLowTrustMemory | PositiveOracleHandoff
    | TracePresent | RunIdPresent | EventsPresent | VerifierPresent
    | ExternalProbePresent | AfterExitPresent | FreshShellPresent
    | LockedContract
    | CompletionNotWorse | FalseConfidenceNotWorse | PositiveControlSensitive | AfterExitNotWorse
    | EfficiencySignal | NegativeControlSafe
    | VersionSupported | KindSupported
    | ManifestPresent | RunPathPresent | EventsPathPresent | RunVersionSupported
    | ProbePresent | ActionEventsPresent | ProbeRecorded | VerifierCommandPresent
    | FairnessVersionSupported | SameTaskIds | Frozen(key: string) | EnvironmentPresent
    | SameModel | SameReasoningEffort | SameAgentCli | SameAgentCliVersion | SameCommandHash | SameInitialWorkspace
    | VerifierProvenance | VerifierWorkspace | FreshShellProvenance | PacketSourceMatches | NoManualHints

  /** Who a requirement is about; the first two have task scope. */
  datatype Subject =
    | OfTask(taskId: string)
    | OfTaskArm(taskId: string, arm: Arm)
    | OfSuite
    | OfSuiteArm(arm: Arm)

  datatype Requirement = Requirement(subject: Subject, check: Check, ok: bool)

  predicate AllOk(rs: seq<Requirement>) {
    forall r :: r in rs ==> r.ok
  }

  lemma AllOkAppend(a: seq<Requirement>, b: seq<Requirement>)
    ensures AllOk(a + b) <==> AllOk(a) && AllOk(b)
  {
    assert forall r :: r in a + b <==> r in a || r in b;
  }

  function FlatMap<A>(f: A -> seq<Requirement>, s: seq<A>): seq<Requirement> {
    if s == [] then [] else FlatMap(f, s[..|s| - 1]) + f(s[|s| - 1])
  }

  lemma {:induction false} AllOkFlatMap<A>(f: A -> seq<Requirement>, s: seq<A>)
    ensures AllOk(FlatMap(f, s)) <==> forall i :: 0 <= i < |s| ==> AllOk(f(s[i]))
  {
    if s != [] {
      AllOkFlatMap(f, s[..|s| - 1]);
      AllOkAppend(FlatMap(f, s[..|s| - 1]), f(s[|s| - 1]));
    }
  }

  /** What one more element adds, in the form a loop over `s` needs it. */
  lemma FlatMapStep<A>(f: A -> seq<Requirement>, s: seq<A>, i: nat)
    requires i < |s|
    ensures FlatMap(f, s[..i + 1]) == FlatMap(f, s[..i]) + f(s[i])
  {
    assert s[..i + 1][..i] == s[..i];
  }

  lemma AllOkForArms(f: Arm -> seq<Requirement>)
    ensures AllOk(FlatMap(f, RequiredArms)) <==> forall arm :: AllOk(f(arm))
  {
    AllOkFlatMap(f, RequiredArms);
    if AllOk(FlatMap(f, RequiredArms)) {
      forall arm ensures AllOk(f(arm)) {
        match arm
        case Baseline => assert AllOk(f(RequiredArms[0]));
        case AionisAssisted => assert AllOk(f(RequiredArms[1]));
        case NegativeControl => assert AllOk(f(RequiredArms[2]));
        case PositiveControl => assert AllOk(f(RequiredArms[3]));
      }
    }
  }

  /** Every arm is present by the type of `TaskSpec`. */
  function RequiredArmReqs(task: TaskSpec): seq<Requirement> {
    FlatMap(ArmPresence(task), RequiredArms)
  }

  function ArmPresence(task: TaskSpec): Arm -> seq<Requirement> {
    (arm: Arm) => [Requirement(OfTaskArm(task.id, arm), ArmPresent, true)]
  }

  function MeasurementReqs(task: TaskSpec): seq<Requirement> {
    FlatMap(ArmMeasured(task), RequiredArms)
  }

  function ArmMeasured(task: TaskSpec): Arm -> seq<Requirement> {
    (arm: Arm) => [Requirement(OfTaskArm(task.id, arm), Measured,
                               task.arms.Get(arm).metrics.Some? || task.arms.Get(arm).trace.Some?)]
  }

  function FairnessReqs(task: TaskSpec): seq<Requirement> {
    FlatMap(FairnessEntry(task.id), task.fairness)
  }

  function FairnessEntry(id: string): ((string, bool)) -> seq<Requirement> {
    (entry: (string, bool)) => [Requirement(OfTask(id), Fair(entry.0), entry.1)]
  }

  function SemanticsReqs(task: TaskSpec): seq<Requirement> {
    var a := task.arms;
    [Requirement(OfTask(task.id), BaselineNoMemory,
                 a.baseline.memoryMode == NoMemory && a.baseline.packetSource == NoPacket),
     Requirement(OfTask(task.id), TreatmentAutomaticMemory,
             a.aionis.memoryMode == AionisAuto && a.aionis.packetSource == AutomaticRuntime),
     Requirement(OfTask(task.id), NegativeLowTrustMemory,
             a.negative.memoryMode == IrrelevantOrLowTrust && a.negative.authority != Authoritative),
     Requirement(OfTask(task.id), PositiveOracleHandoff,
             a.positive.memoryMode == OracleHandoff && a.positive.packetSource == OraclePacket)]
  }

  predicate IsExternalProbeProof(e: Event, verifier: VerifierSpec) {
    MatchesVerifierCommand(e, verifier) && (e.kind == ExternalProbe || e.verifier == Some(true))
  }

  predicate HasVerifier(events: seq<Event>) {
    exists e :: e in events && e.IsVerifier()
  }

  predicate HasExternalProbe(events: seq<Event>, verifier: VerifierSpec) {
    exists e :: e in events && IsExternalProbeProof(e, verifier)
  }

  predicate HasAfterExitVerifier(events: seq<Event>) {
    exists e :: e in events && e.IsVerifier() && e.afterExit == Some(true)
  }

  predicate HasFreshShellVerifier(events: seq<Event>) {
    exists e :: e in events && e.IsVerifier() && e.freshShell == Some(true)
  }

  predicate ProbeRequired(verifier: VerifierSpec) {
    verifier.kind == ExternalProbeVerifier || verifier.externalVisibilityRequired
  }

  function LiveEvidenceOfArm(task: TaskSpec, arm: Arm): seq<Requirement> {
    var trace := task.arms.Get(arm).trace;
    var subject := OfTaskArm(task.id, arm);
    var events := if trace.Some? then trace.value.events else [];
    [Requirement(subject, TracePresent, trace.Some? && trace.value.version == Supported),
     Requirement(subject, RunIdPresent, trace.Some? && trace.value.runId != ""),
     Requirement(subject, EventsPresent, events != []),
     Requirement(subject, VerifierPresent, HasVerifier(events))]
    + (if ProbeRequired(task.verifier) then
         [Requirement(subject, ExternalProbePresent, HasExternalProbe(events, task.verifier))]
       else [])
    + (if task.verifier.afterExitRequired then
         [Requirement(subject, AfterExitPresent, HasAfterExitVerifier(events)),
          Requirement(subject, FreshShellPresent, HasFreshShellVerifier(events))]
       else [])
  }

  function LiveEvidenceReqs(task: TaskSpec, kind: SuiteKind): seq<Requirement> {
    if kind == HarnessCalibration then []
    else FlatMap(ArmEvidence(task), RequiredArms)
  }

  function ArmEvidence(task: TaskSpec): Arm -> seq<Requirement> {
    (arm: Arm) => LiveEvidenceOfArm(task, arm)
  }

  function DisciplineReqs(task: TaskSpec, treatment: Resolved, kind: SuiteKind): seq<Requirement> {
    if kind == HarnessCalibration then []
    else [Requirement(OfTask(task.id), LockedContract,
                  IsLocked(AionisAssisted, treatment.obs) ==>
                    treatment.summary.Some? && treatment.summary.value.compliance.status == Pass)]
  }

  /** `a >= b` on booleans read as numbers. */
  predicate NotBelow(a: bool, b: bool) { BoolToInt(a) >= BoolToInt(b) }

  predicate PositiveSensitive(arms: PerArm<Resolved>) {
    NotBelow(arms.positive.metrics.firstCorrectAction, arms.baseline.metrics.firstCorrectAction)
    && NotBelow(arms.positive.metrics.completion, arms.baseline.metrics.completion)
  }

  function OutcomeReqs(task: TaskSpec, arms: PerArm<Resolved>): seq<Requirement> {
    var baseline, treatment := arms.baseline.metrics, arms.aionis.metrics;
    [Requirement(OfTask(task.id), CompletionNotWorse, NotBelow(treatment.completion, baseline.completion)),
     Requirement(OfTask(task.id), FalseConfidenceNotWorse,
                 NotBelow(baseline.falseConfidence, treatment.falseConfidence)),
     Requirement(OfTask(task.id), PositiveControlSensitive, PositiveSensitive(arms))]
    + (if task.verifier.afterExitRequired
       then [Requirement(OfTask(task.id), AfterExitNotWorse, treatment.afterExitCorrect == Some(true))]
       else [])
  }

  /** Every requirement of one task, in the order they are reported. */
  function TaskReqs(task: TaskSpec, arms: PerArm<Resolved>, kind: SuiteKind): seq<Requirement> {
    RequiredArmReqs(task) + MeasurementReqs(task) + FairnessReqs(task) + SemanticsReqs(task)
    + LiveEvidenceReqs(task, kind) + DisciplineReqs(task, arms.aionis, kind) + OutcomeReqs(task, arms)
  }

  datatype TaskResult = TaskResult(task: TaskSpec, arms: PerArm<Resolved>, requirements: seq<Requirement>) {
    predicate Passes() { AllOk(requirements) }
  }

  function BuildTaskResult(tt: TextTests, task: TaskSpec, kind: SuiteKind): TaskResult {
    var arms := ResolveArms(tt, task);
    TaskResult(task, arms, TaskReqs(task, arms, kind))
  }

  // ----- the suite -----

  datatype Thresholds = Thresholds(wasted: real, actions: real, tokens: real, time: real)

  datatype PartialThresholds = PartialThresholds(
    wasted: Option<real>, actions: Option<real>, tokens: Option<real>, time: Option<real>)

  function ResolveThresholds(t: PartialThresholds): Thresholds {
    Thresholds(t.wasted.GetOr(20.0), t.actions.GetOr(10.0), t.tokens.GetOr(10.0), t.time.GetOr(10.0))
  }

  datatype Suite = Suite(id: string, kind: SuiteKind, thresholds: PartialThresholds, tasks: seq<TaskSpec>)

  function TaskResults(tt: TextTests, tasks: seq<TaskSpec>, kind: SuiteKind): (r: seq<TaskResult>)
    ensures |r| == |tasks|
  {
    if tasks == [] then []
    else TaskResults(tt, tasks[..|tasks| - 1], kind) + [BuildTaskResult(tt, tasks[|tasks| - 1], kind)]
  }

  lemma {:induction false} TaskResultAt(tt: TextTests, tasks: seq<TaskSpec>, kind: SuiteKind, i: nat)
    requires i < |tasks|
    ensures TaskResults(tt, tasks, kind)[i] == BuildTaskResult(tt, tasks[i], kind)
  {
    if i < |tasks| - 1 {
      TaskResultAt(tt, tasks[..|tasks| - 1], kind, i);
    }
  }

  function Column<A, B>(f: A -> B, s: seq<A>): (r: seq<B>)
    ensures |r| == |s| && forall i :: 0 <= i < |r| ==> r[i] == f(s[i])
  {
    seq(|s|, i requires 0 <= i < |s| => f(s[i]))
  }

  function CompletionOf(r: Resolved): bool { r.metrics.completion }

  function FalseConfidenceOf(r: Resolved): bool { r.metrics.falseConfidence }

  function AfterExitOf(r: Resolved): Option<bool> { r.metrics.afterExitCorrect }

  function WastedOf(r: Resolved): real { r.metrics.wastedSteps }

  function TokensOf(r: Resolved): Option<real> { r.metrics.tokensToSuccess }

  function TimeOf(r: Resolved): Option<real> { r.metrics.timeToSuccessMs }

  function ActionsOf(r: Resolved): Option<real> {
    if r.summary.Some? then Some(r.summary.value.actionEventCount as real) else None
  }

  predicate HasAuthority(r: Resolved) { r.obs.authority == Authoritative }

  function ArmsOf(r: TaskResult): PerArm<Resolved> { r.arms }

  function BaselineOf(a: PerArm<Resolved>): Resolved { a.baseline }

  function TreatmentOf(a: PerArm<Resolved>): Resolved { a.aionis }

  function NegativeOf(a: PerArm<Resolved>): Resolved { a.negative }

  /** The figures of the summary that the gate reads. */
  datatype Summary = Summary(
    total: nat,
    baselineCompletion: real,
    treatmentCompletion: real,
    baselineFalseConfidence: real,
    treatmentFalseConfidence: real,
    baselineAfterExit: Option<real>,
    treatmentAfterExit: Option<real>,
    baselineWasted: real,
    treatmentWasted: real,
    actionReduction: Option<Pct>,
    tokenReduction: Option<Pct>,
    timeReduction: Option<Pct>,
    negativeAuthoritative: nat,
    positiveSanity: real)

  function Summarise(arms: seq<PerArm<Resolved>>): Summary {
    var baseline, treatment := Column(BaselineOf, arms), Column(TreatmentOf, arms);
    Summary(
      |arms|,
      Rate(Column(CompletionOf, baseline)),
      Rate(Column(CompletionOf, treatment)),
      Rate(Column(FalseConfidenceOf, baseline)),
      Rate(Column(FalseConfidenceOf, treatment)),
      NullableRate(Column(AfterExitOf, baseline)),
      NullableRate(Column(AfterExitOf, treatment)),
      Sum(Column(WastedOf, baseline)),
      Sum(Column(WastedOf, treatment)),
      NullableReduction(NullableSum(Column(ActionsOf, baseline)), NullableSum(Column(ActionsOf, treatment))),
      NullableReduction(NullableSum(Column(TokensOf, baseline)), NullableSum(Column(TokensOf, treatment))),
      NullableReduction(NullableSum(Column(TimeOf, baseline)), NullableSum(Column(TimeOf, treatment))),
      CountTrue(Column(HasAuthority, Column(NegativeOf, arms))),
      Rate(Column(PositiveSensitive, arms)))
  }

  predicate WastedEfficiency(s: Summary, t: Thresholds) {
    WastedReaches(s.baselineWasted, s.treatmentWasted, t.wasted)
  }

  predicate WastedReaches(before: real, after: real, threshold: real) {
    if before == 0.0 then after <= before else PctReduction(before, after).AtLeast(threshold)
  }

  predicate EfficiencyOk(s: Summary, t: Thresholds) {
    WastedEfficiency(s, t) || Reaches(s.actionReduction, t.actions)
    || Reaches(s.tokenReduction, t.tokens) || Reaches(s.timeReduction, t.time)
  }

  /** A saving without division: at most (100 - threshold) percent of the cost. */
  predicate Saves(before: real, after: real, threshold: real) {
    if before <= 0.0 then after <= before && threshold <= 0.0
    else 100.0 * after <= (100.0 - threshold) * before
  }

  predicate SavesWhereKnown(before: Option<real>, after: Option<real>, threshold: real) {
    before.Some? && after.Some? && Saves(before.value, after.value, threshold)
  }

  /** The efficiency signal over the four sums of a suite, without division or
      infinity. */
  lemma EfficiencyIff(arms: seq<PerArm<Resolved>>, t: Thresholds)
    ensures var b, a := Column(BaselineOf, arms), Column(TreatmentOf, arms);
            EfficiencyOk(Summarise(arms), t) <==>
            || SavesWaste(Sum(Column(WastedOf, b)), Sum(Column(WastedOf, a)), t.wasted)
            || SavesWhereKnown(NullableSum(Column(ActionsOf, b)), NullableSum(Column(ActionsOf, a)), t.actions)
            || SavesWhereKnown(NullableSum(Column(TokensOf, b)), NullableSum(Column(TokensOf, a)), t.tokens)
            || SavesWhereKnown(NullableSum(Column(TimeOf, b)), NullableSum(Column(TimeOf, a)), t.time)
  {
    var b, a := Column(BaselineOf, arms), Column(TreatmentOf, arms);
    WastedReachesIff(Sum(Column(WastedOf, b)), Sum(Column(WastedOf, a)), t.wasted);
    ReachesIff(NullableSum(Column(ActionsOf, b)), NullableSum(Column(ActionsOf, a)), t.actions);
    ReachesIff(NullableSum(Column(TokensOf, b)), NullableSum(Column(TokensOf, a)), t.tokens);
    ReachesIff(NullableSum(Column(TimeOf, b)), NullableSum(Column(TimeOf, a)), t.time);
  }

  predicate SavesWaste(before: real, after: real, threshold: real) {
    if before == 0.0 then after <= 0.0 else Saves(before, after, threshold)
  }

  lemma WastedReachesIff(before: real, after: real, threshold: real)
    ensures WastedReaches(before, after, threshold) <==> SavesWaste(before, after, threshold)
  {
    ReductionIff(before, after, threshold);
  }

  lemma ReachesIff(before: Option<real>, after: Option<real>, threshold: real)
    ensures Reaches(NullableReduction(before, after), threshold) <==> SavesWhereKnown(before, after, threshold)
  {
    if before.Some? && after.Some? {
      ReductionIff(before.value, after.value, threshold);
    }
  }

  /** With no waste on either side the signal is there, whatever the thresholds
      and with no reduction of anything. */
  lemma NoWasteIsEfficient(arms: seq<PerArm<Resolved>>, t: Thresholds)
    requires Sum(Column(WastedOf, Column(BaselineOf, arms))) == 0.0
    requires Sum(Column(WastedOf, Column(TreatmentOf, arms))) == 0.0
    ensures EfficiencyOk(Summarise(arms), t)
  {
    EfficiencyIff(arms, t);
  }

  predicate AfterExitClauseOk(s: Summary) {
    s.baselineAfterExit.Some? && s.treatmentAfterExit.Some? ==>
      s.treatmentAfterExit.value >= s.baselineAfterExit.value
  }

  function SuiteReqs(s: Summary, t: Thresholds): seq<Requirement> {
    [Requirement(OfSuite, CompletionNotWorse, s.treatmentCompletion >= s.baselineCompletion),
     Requirement(OfSuite, FalseConfidenceNotWorse, s.treatmentFalseConfidence <= s.baselineFalseConfidence),
     Requirement(OfSuite, EfficiencySignal, EfficiencyOk(s, t)),
     Requirement(OfSuite, NegativeControlSafe, s.negativeAuthoritative == 0),
     Requirement(OfSuite, PositiveControlSensitive, s.positiveSanity == 1.0)]
    + (if s.baselineAfterExit.Some? && s.treatmentAfterExit.Some?
       then [Requirement(OfSuite, AfterExitNotWorse, s.treatmentAfterExit.value >= s.baselineAfterExit.value)]
       else [])
  }

  lemma SuiteReqsIff(s: Summary, t: Thresholds)
    ensures AllOk(SuiteReqs(s, t)) <==>
            && s.treatmentCompletion >= s.baselineCompletion
            && s.treatmentFalseConfidence <= s.baselineFalseConfidence
            && EfficiencyOk(s, t) && s.negativeAuthoritative == 0 && s.positiveSanity == 1.0
            && AfterExitClauseOk(s)
  {
    var rs := SuiteReqs(s, t);
    assert rs[0] in rs && rs[1] in rs && rs[2] in rs && rs[3] in rs && rs[4] in rs;
    if s.baselineAfterExit.Some? && s.treatmentAfterExit.Some? { assert rs[5] in rs; }
  }

  function ReqsOf(r: TaskResult): seq<Requirement> { r.requirements }

  function SummaryOf(tasks: seq<TaskResult>): Summary { Summarise(Column(ArmsOf, tasks)) }

  function AllReqs(tt: TextTests, suite: Suite): seq<Requirement> {
    var tasks := TaskResults(tt, suite.tasks, suite.kind);
    FlatMap(ReqsOf, tasks) + SuiteReqs(SummaryOf(tasks), ResolveThresholds(suite.thresholds))
  }

  predicate GatePasses(tt: TextTests, suite: Suite) {
    AllOk(AllReqs(tt, suite))
  }

  predicate IsFailed(r: Requirement) { !r.ok }

  lemma NoFailuresIff(rs: seq<Requirement>)
    ensures Filter(IsFailed, rs) == [] <==> AllOk(rs)
  {
    var failed := Filter(IsFailed, rs);
    assert failed == [] <==> forall r :: r !in failed by {
      if failed != [] { assert failed[0] in failed; }
    }
  }

  datatype GateReport = GateReport(passes: bool, failed: seq<Requirement>, requirements: seq<Requirement>,
                                   summary: Summary, tasks: seq<TaskResult>)

  /** Suite requirements are pushed onto a list, the last one only when both
      arms have an after-exit rate. */
  method PushSuiteReqs(s: Summary, thresholds: Thresholds) returns (suiteRequirements: seq<Requirement>)
    ensures suiteRequirements == SuiteReqs(s, thresholds)
  {
    suiteRequirements := [
      Requirement(OfSuite, CompletionNotWorse, s.treatmentCompletion >= s.baselineCompletion),
      Requirement(OfSuite, FalseConfidenceNotWorse, s.treatmentFalseConfidence <= s.baselineFalseConfidence),
      Requirement(OfSuite, EfficiencySignal, EfficiencyOk(s, thresholds)),
      Requirement(OfSuite, NegativeControlSafe, s.negativeAuthoritative == 0),
      Requirement(OfSuite, PositiveControlSensitive, s.positiveSanity == 1.0)];
    if s.baselineAfterExit.Some? && s.treatmentAfterExit.Some? {
      suiteRequirements := suiteRequirements
        + [Requirement(OfSuite, AfterExitNotWorse, s.treatmentAfterExit.value >= s.baselineAfterExit.value)];
    }
  }

  /** The suite runner. */
  method RunSuite(tt: TextTests, suite: Suite) returns (report: GateReport)
    ensures report.requirements == AllReqs(tt, suite)
    ensures report.failed == Filter(IsFailed, report.requirements)
    ensures report.passes <==> GatePasses(tt, suite)
    ensures report.tasks == TaskResults(tt, suite.tasks, suite.kind) && report.summary == SummaryOf(report.tasks)
  {
    var thresholds := ResolveThresholds(suite.thresholds);
    var tasks := TaskResults(tt, suite.tasks, suite.kind);
    var s := SummaryOf(tasks);
    var suiteRequirements := PushSuiteReqs(s, thresholds);
    var requirements := FlatMap(ReqsOf, tasks) + suiteRequirements;
    var failed := Filter(IsFailed, requirements);
    NoFailuresIff(requirements);
    report := GateReport(failed == [], failed, requirements, s, tasks);
  }
}
