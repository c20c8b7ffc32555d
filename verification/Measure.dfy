/** Metrics derived from a trace, and the observation of an arm resolved to
    metrics, provided or derived. */
module Measure {
  import opened Util
  import opened Trace
  import opened Discipline

  predicate IsActionEvent(e: Event) { e.IsAction() }

  predicate IsVerifierEvent(e: Event) { e.IsVerifier() }

  predicate IsCorrect(e: Event, task: TaskSpec) {
    match e.correct
    case Some(b) => b
    case None => TouchesTarget(e, task) || MatchesAcceptance(e, task)
  }

  predicate IsWasted(e: Event) {
    match e.wasted
    case Some(b) => b
    case None => e.IsAction() && e.correct == Some(false)
  }

  predicate IsRetry(e: Event) {
    e.kind == Retry || e.retry == Some(true)
  }

  predicate IsIntervention(e: Event) {
    e.kind == HumanIntervention || e.humanIntervention == Some(true)
  }

  function VerifierPassed(trace: RunTrace): bool {
    if trace.outcome.verifierPassed.Some? then trace.outcome.verifierPassed.value
    else
      var vs := Filter(IsVerifierEvent, trace.events);
      vs != [] && vs[|vs| - 1].success == Some(true)
  }

  predicate IsAfterExitProof(e: Event, verifier: VerifierSpec) {
    e.afterExit == Some(true) && e.IsVerifier() && MatchesVerifierCommand(e, verifier) && e.success == Some(true)
  }

  function AfterExitCorrect(trace: RunTrace, task: TaskSpec): Option<bool> {
    if trace.outcome.afterExitCorrect.Some? then trace.outcome.afterExitCorrect
    else if !task.verifier.afterExitRequired then None
    else Some(exists e :: e in trace.events && IsAfterExitProof(e, task.verifier))
  }

  predicate ClaimsSuccess(e: Event) {
    e.kind == AgentClaim && e.claimedSuccess == Some(true)
  }

  predicate FailsVerification(e: Event) {
    e.IsVerifier() && e.success == Some(false)
  }

  /** A claim of success that a later verifier event contradicts. */
  predicate ClaimRefuted(events: seq<Event>) {
    exists i, j :: 0 <= i < j < |events| && ClaimsSuccess(events[i]) && FailsVerification(events[j])
  }

  function FalseConfidence(trace: RunTrace): bool {
    if trace.outcome.falseConfidence.Some? then trace.outcome.falseConfidence.value
    else
      || (exists e :: e in trace.events && e.falseConfidence == Some(true))
      || ClaimRefuted(trace.events)
  }

  function TimeToSuccess(trace: RunTrace): Option<real> {
    if trace.outcome.timeToSuccessMs.Some? then trace.outcome.timeToSuccessMs
    else if trace.startedAtMs.Some? && trace.endedAtMs.Some? then
      var elapsed := trace.endedAtMs.value - trace.startedAtMs.value;
      Some(if elapsed >= 0.0 then elapsed else 0.0)
    else None
  }

  function TokenSum(events: seq<Event>): real {
    if events == [] then 0.0
    else TokenSum(events[..|events| - 1]) + events[|events| - 1].tokens.GetOr(0.0)
  }

  function Tokens(events: seq<Event>): Option<real> {
    if exists e :: e in events && e.tokens.Some? then Some(TokenSum(events)) else None
  }

  function FirstCorrectAction(events: seq<Event>, task: TaskSpec): bool {
    var actions := Filter(IsActionEvent, events);
    actions != [] && IsCorrect(actions[0], task)
  }

  function DeriveMetrics(task: TaskSpec, trace: RunTrace): Metrics {
    var passed := VerifierPassed(trace);
    var o := trace.outcome;
    Metrics(
      o.completion.GetOr(passed),
      passed,
      o.firstCorrectAction.GetOr(FirstCorrectAction(trace.events, task)),
      o.wastedSteps.GetOr(Count(IsWasted, trace.events) as real),
      o.retryCount.GetOr(Count(IsRetry, trace.events) as real),
      FalseConfidence(trace),
      AfterExitCorrect(trace, task),
      o.wrongFileTouches.GetOr(WrongFileTouches(task, trace.events) as real),
      o.humanInterventions.GetOr(Count(IsIntervention, trace.events) as real),
      TimeToSuccess(trace),
      if o.tokensToSuccess.Some? then o.tokensToSuccess else Tokens(trace.events))
  }

  datatype TraceSummary = TraceSummary(
    runId: string,
    eventCount: nat,
    actionEventCount: nat,
    verifierEventCount: nat,
    compliance: Compliance)

  /** An observation with its metrics; `summary` is present exactly when they
      were derived from a trace. */
  datatype Resolved = Resolved(obs: Observation, metrics: Metrics, summary: Option<TraceSummary>)

  function NoMeasurement(task: TaskSpec): Metrics {
    Metrics(false, false, false, 0.0, 0.0, false,
            if task.verifier.afterExitRequired then Some(false) else None, 0.0, 0.0, None, None)
  }

  function Resolve(tt: TextTests, task: TaskSpec, arm: Arm): Resolved {
    var obs := task.arms.Get(arm);
    if obs.metrics.Some? then Resolved(obs, obs.metrics.value, None)
    else if obs.trace.Some? then
      var events := obs.trace.value.events;
      Resolved(obs, DeriveMetrics(task, obs.trace.value),
               Some(TraceSummary(obs.trace.value.runId, |events|, Count(IsActionEvent, events),
                                 Count(IsVerifierEvent, events),
                                 ComplianceOf(tt, task, arm, obs, obs.trace.value))))
    else Resolved(obs, NoMeasurement(task), None)
  }

  function ResolveArms(tt: TextTests, task: TaskSpec): PerArm<Resolved> {
    PerArm(Resolve(tt, task, Baseline), Resolve(tt, task, AionisAssisted),
           Resolve(tt, task, NegativeControl), Resolve(tt, task, PositiveControl))
  }

  // ----- a harness verifier event at the end of a trace -----

  /** The shape of the event that the harness appends: a verifier event with no
      agent-side marks. */
  predicate IsHarnessEvent(v: Event) {
    && (v.kind == Verification || v.kind == ExternalProbe)
    && v.verifier == Some(true)
    && v.touchedFiles.None? && v.correct.None? && v.wasted.None? && v.retry.None? && v.claimedSuccess.None?
    && v.falseConfidence.None? && v.humanIntervention.None? && v.tokens.None?
  }

  lemma {:induction false} LastVerifierDecides(trace: RunTrace, agent: seq<Event>, v: Event)
    requires v.IsVerifier() && trace.events == agent + [v] && trace.outcome.verifierPassed.None?
    ensures VerifierPassed(trace) <==> v.success == Some(true)
  {
    FilterAppend(IsVerifierEvent, agent, [v]);
    assert Filter(IsVerifierEvent, [v]) == [v];
  }

  lemma CountSkips(p: Event -> bool, agent: seq<Event>, v: Event)
    requires !p(v)
    ensures Count(p, agent + [v]) == Count(p, agent)
  {
    CountAppend(p, agent, [v]);
  }

  /** The appended event does not change what the metrics say of the agent's
      own work. */
  lemma HarnessEventIsFree(task: TaskSpec, agent: seq<Event>, v: Event)
    requires IsHarnessEvent(v)
    ensures Count(IsActionEvent, agent + [v]) == Count(IsActionEvent, agent)
    ensures Count(IsWasted, agent + [v]) == Count(IsWasted, agent)
    ensures Count(IsRetry, agent + [v]) == Count(IsRetry, agent)
    ensures Count(IsIntervention, agent + [v]) == Count(IsIntervention, agent)
    ensures WrongFileTouches(task, agent + [v]) == WrongFileTouches(task, agent)
    ensures Tokens(agent + [v]) == Tokens(agent)
    ensures FirstCorrectAction(agent + [v], task) == FirstCorrectAction(agent, task)
  {
    CountSkips(IsActionEvent, agent, v);
    CountSkips(IsWasted, agent, v);
    CountSkips(IsRetry, agent, v);
    CountSkips(IsIntervention, agent, v);
    FilterAppend(IsActionEvent, agent, [v]);
    assert Filter(IsActionEvent, [v]) == [];
    assert (agent + [v])[..|agent|] == agent;
    assert forall e :: e in agent + [v] <==> e in agent || e == v;
  }

  /** False confidence on a trace that ends with the harness event, in terms of
      the agent's events and the verdict of the harness. */
  lemma FalseConfidenceIff(trace: RunTrace, agent: seq<Event>, v: Event)
    requires IsHarnessEvent(v) && trace.events == agent + [v] && trace.outcome.falseConfidence.None?
    ensures FalseConfidence(trace) <==>
            || (exists e :: e in agent && e.falseConfidence == Some(true))
            || (v.success == Some(false) && exists e :: e in agent && ClaimsSuccess(e))
            || ClaimRefuted(agent)
  {
    var events := trace.events;
    assert events[|agent|] == v;
    assert forall i :: 0 <= i < |agent| ==> events[i] == agent[i];
    if ClaimRefuted(agent) {
      var i, j :| 0 <= i < j < |agent| && ClaimsSuccess(agent[i]) && FailsVerification(agent[j]);
      assert ClaimsSuccess(events[i]) && FailsVerification(events[j]);
    }
    if v.success == Some(false) && exists e :: e in agent && ClaimsSuccess(e) {
      var i :| 0 <= i < |agent| && ClaimsSuccess(agent[i]);
      assert ClaimsSuccess(events[i]) && FailsVerification(events[|agent|]);
    }
    if ClaimRefuted(events) {
      var i, j :| 0 <= i < j < |events| && ClaimsSuccess(events[i]) && FailsVerification(events[j]);
      assert ClaimsSuccess(agent[i]);
      if j < |agent| { assert FailsVerification(agent[j]); }
    }
  }

  predicate SameKindsAndIndices(a: seq<Violation>, b: seq<Violation>) {
    |a| == |b| && forall k :: 0 <= k < |a| ==> a[k].kind == b[k].kind && a[k].index == b[k].index
  }

  /** The harness event neither adds nor removes a violation, whatever the
      agent recorded. */
  lemma HarnessEventIsInert(tt: TextTests, task: TaskSpec, arm: Arm, obs: Observation, trace: RunTrace, v: Event)
    requires IsHarnessEvent(v)
    ensures var before := ComplianceOf(tt, task, arm, obs, trace);
            var after := ComplianceOf(tt, task, arm, obs, trace.(events := trace.events + [v]));
            before.status == after.status && SameKindsAndIndices(before.violations, after.violations)
  {
    InertForJudge(JudgeFor(tt, task), trace.events, v);
  }

  lemma InertForJudge(jd: Judge, t: seq<Event>, v: Event)
    requires !v.IsAction() && !jd.targetAction(v) && !jd.edit(v) && !jd.expansion(v) && !jd.evidenceEdit(v)
    ensures SameKindsAndIndices(Violations(jd, t), Violations(jd, t + [v]))
  {
    var s := t + [v];
    assert s[|t|] == v && forall j :: 0 <= j < |t| ==> s[j] == t[j];
    LastEventViolations(jd, t, v);
    if EventViolations(jd, s, |t|) != [] {
      EventViolationIff(jd, s, |t|, EventViolations(jd, s, |t|)[0]);
    }
    PreEditInert(jd, t, v);
    NeverTouchedInert(jd, t, v);
  }

  lemma PreEditInert(jd: Judge, t: seq<Event>, v: Event)
    requires !jd.edit(v)
    ensures PreEditViolation(jd, t + [v]) == PreEditViolation(jd, t)
  {
    var s := t + [v];
    assert s[|t|] == v && forall j :: 0 <= j < |t| ==> s[j] == t[j];
    assert FirstEdit(jd, s) == FirstEdit(jd, t);
    if FirstEdit(jd, t).Some? {
      assert s[..FirstEdit(jd, t).value] == t[..FirstEdit(jd, t).value];
    }
  }

  lemma NeverTouchedInert(jd: Judge, t: seq<Event>, v: Event)
    requires !jd.targetAction(v) && !v.IsAction()
    ensures SameKindsAndIndices(NeverTouchedViolation(jd, t), NeverTouchedViolation(jd, t + [v]))
  {
    var s := t + [v];
    assert s[|t|] == v && forall j :: 0 <= j < |t| ==> s[j] == t[j];
    assert FirstTarget(jd, s) == FirstTarget(jd, t);
    assert FirstAction(s) == FirstAction(t);
  }
}
