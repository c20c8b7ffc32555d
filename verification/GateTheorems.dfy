/** What a passing gate means, and how it moves with the treatment metrics. */
module GateTheorems {
  import opened Util
  import opened Trace
  import opened Discipline
  import opened Measure
  import opened Gate

  // ----- rates and sums -----

  predicate Implied(a: seq<bool>, b: seq<bool>) {
    |a| == |b| && forall i :: 0 <= i < |a| && a[i] ==> b[i]
  }

  lemma {:induction false} CountTrueMonotone(a: seq<bool>, b: seq<bool>)
    requires Implied(a, b)
    ensures CountTrue(a) <= CountTrue(b)
  {
    if a != [] {
      assert b[0] || !a[0];
      CountTrueMonotone(a[1..], b[1..]);
    }
  }

  lemma RateMonotone(a: seq<bool>, b: seq<bool>)
    requires Implied(a, b)
    ensures Rate(a) <= Rate(b)
  {
    CountTrueMonotone(a, b);
    if a != [] {
      DivMono(CountTrue(a) as real, CountTrue(b) as real, |a| as real);
    }
  }

  lemma DivMono(a: real, b: real, c: real)
    requires a <= b && c > 0.0
    ensures a / c <= b / c
  {
    assert b / c - a / c == (b - a) / c;
  }

  lemma {:induction false} CountTrueBounds(bs: seq<bool>)
    ensures CountTrue(bs) <= |bs|
    ensures CountTrue(bs) == |bs| <==> forall i :: 0 <= i < |bs| ==> bs[i]
    ensures CountTrue(bs) == 0 <==> forall i :: 0 <= i < |bs| ==> !bs[i]
  {
    if bs != [] {
      CountTrueBounds(bs[1..]);
      assert forall i :: 1 <= i < |bs| ==> bs[i] == bs[1..][i - 1];
    }
  }

  /** A rate is one exactly when there are values and all are true. */
  lemma RateIsOneIff(bs: seq<bool>)
    ensures Rate(bs) == 1.0 <==> bs != [] && forall i :: 0 <= i < |bs| ==> bs[i]
    ensures Rate(bs) <= 1.0
  {
    CountTrueBounds(bs);
    if bs != [] {
      RatioIsOneIff(CountTrue(bs) as real, |bs| as real);
    }
  }

  lemma RatioIsOneIff(c: real, n: real)
    requires n > 0.0 && c <= n
    ensures c / n <= 1.0
    ensures c / n == 1.0 <==> c == n
  {
    DivMono(c, n, n);
    var q := c / n;
    assert q * n == c;
    assert n / n == 1.0;
    if q == 1.0 {
      assert c == 1.0 * n;
    }
  }

  predicate SameNulls<T, U>(a: seq<Option<T>>, b: seq<Option<U>>) {
    |a| == |b| && forall i :: 0 <= i < |a| ==> (a[i].Some? <==> b[i].Some?)
  }

  lemma {:induction false} KnownImplied(a: seq<Option<bool>>, b: seq<Option<bool>>)
    requires SameNulls(a, b)
    requires forall i :: 0 <= i < |a| && a[i] == Some(true) ==> b[i] == Some(true)
    ensures Implied(Known(a), Known(b))
  {
    if a != [] {
      assert a[0] == Some(true) ==> b[0] == Some(true);
      KnownImplied(a[1..], b[1..]);
    }
  }

  lemma {:induction false} KnownAllTrue(a: seq<Option<bool>>)
    requires forall i :: 0 <= i < |a| ==> a[i] != Some(false)
    ensures forall i :: 0 <= i < |Known(a)| ==> Known(a)[i]
  {
    if a != [] {
      KnownAllTrue(a[1..]);
      assert a[0] != Some(false);
    }
  }

  lemma {:induction false} SumMonotone(a: seq<real>, b: seq<real>)
    requires |a| == |b| && forall i :: 0 <= i < |a| ==> a[i] <= b[i]
    ensures Sum(a) <= Sum(b)
  {
    if a != [] {
      SumMonotone(a[1..], b[1..]);
    }
  }

  lemma SumCons(x: real, xs: seq<real>)
    ensures Sum([x] + xs) == x + Sum(xs)
  {
    assert ([x] + xs)[1..] == xs;
  }

  predicate AllNoWorse(a: seq<Option<real>>, b: seq<Option<real>>) {
    |a| == |b| && (a == [] || (NoWorseCost(a[0], b[0]) && AllNoWorse(a[1..], b[1..])))
  }

  lemma {:induction false} PointwiseNoWorse(a: seq<Option<real>>, b: seq<Option<real>>)
    requires |a| == |b| && forall i :: 0 <= i < |a| ==> NoWorseCost(a[i], b[i])
    ensures AllNoWorse(a, b)
  {
    if a != [] {
      PointwiseNoWorse(a[1..], b[1..]);
    }
  }

  lemma {:induction false} PresentMonotone(a: seq<Option<real>>, b: seq<Option<real>>)
    requires AllNoWorse(a, b)
    ensures |Present(a)| == |Present(b)| && Sum(Present(a)) <= Sum(Present(b))
  {
    if a != [] {
      PresentMonotone(a[1..], b[1..]);
      if a[0].Some? {
        SumCons(a[0].value, Present(a[1..]));
        SumCons(b[0].value, Present(b[1..]));
      } else {
        assert Present(a) == Present(a[1..]) && Present(b) == Present(b[1..]);
      }
    }
  }

  // ----- decomposition -----

  lemma TaskPassesIff(task: TaskSpec, arms: PerArm<Resolved>, kind: SuiteKind)
    ensures AllOk(TaskReqs(task, arms, kind)) <==>
            && AllOk(MeasurementReqs(task)) && AllOk(FairnessReqs(task)) && AllOk(SemanticsReqs(task))
            && AllOk(LiveEvidenceReqs(task, kind)) && AllOk(DisciplineReqs(task, arms.aionis, kind))
            && AllOk(OutcomeReqs(task, arms))
  {
    var a, b, c, d := RequiredArmReqs(task), MeasurementReqs(task), FairnessReqs(task), SemanticsReqs(task);
    var e, f, g := LiveEvidenceReqs(task, kind), DisciplineReqs(task, arms.aionis, kind), OutcomeReqs(task, arms);
    AllOkAppend(a, b);
    AllOkAppend(a + b, c);
    AllOkAppend(a + b + c, d);
    AllOkAppend(a + b + c + d, e);
    AllOkAppend(a + b + c + d + e, f);
    AllOkAppend(a + b + c + d + e + f, g);
    AllOkForArms(ArmPresence(task));
  }

  lemma OutcomeReqsIff(task: TaskSpec, arms: PerArm<Resolved>)
    ensures AllOk(OutcomeReqs(task, arms)) <==>
            && (arms.baseline.metrics.completion ==> arms.aionis.metrics.completion)
            && (arms.aionis.metrics.falseConfidence ==> arms.baseline.metrics.falseConfidence)
            && PositiveSensitive(arms)
            && (task.verifier.afterExitRequired ==> arms.aionis.metrics.afterExitCorrect == Some(true))
  {
    var rs := OutcomeReqs(task, arms);
    assert rs[0] in rs && rs[1] in rs && rs[2] in rs;
    if task.verifier.afterExitRequired { assert rs[3] in rs; }
  }

  lemma SemanticsReqsIff(task: TaskSpec)
    ensures AllOk(SemanticsReqs(task)) <==>
            && task.arms.baseline.memoryMode == NoMemory && task.arms.baseline.packetSource == NoPacket
            && task.arms.aionis.memoryMode == AionisAuto && task.arms.aionis.packetSource == AutomaticRuntime
            && task.arms.negative.memoryMode == IrrelevantOrLowTrust && task.arms.negative.authority != Authoritative
            && task.arms.positive.memoryMode == OracleHandoff && task.arms.positive.packetSource == OraclePacket
  {
    var rs := SemanticsReqs(task);
    assert rs[0] in rs && rs[1] in rs && rs[2] in rs && rs[3] in rs;
  }

  lemma GateIff(tt: TextTests, suite: Suite)
    ensures var tasks := TaskResults(tt, suite.tasks, suite.kind);
            GatePasses(tt, suite) <==>
            && (forall i :: 0 <= i < |tasks| ==> tasks[i].Passes())
            && AllOk(SuiteReqs(SummaryOf(tasks), ResolveThresholds(suite.thresholds)))
  {
    var tasks := TaskResults(tt, suite.tasks, suite.kind);
    TasksAndRestIff(tasks, SuiteReqs(SummaryOf(tasks), ResolveThresholds(suite.thresholds)));
  }

  lemma TasksAndRestIff(tasks: seq<TaskResult>, rest: seq<Requirement>)
    ensures AllOk(FlatMap(ReqsOf, tasks) + rest) <==>
            (forall i :: 0 <= i < |tasks| ==> tasks[i].Passes()) && AllOk(rest)
  {
    AllOkAppend(FlatMap(ReqsOf, tasks), rest);
    AllOkFlatMap(ReqsOf, tasks);
  }

  /** What a passing task contributes to the suite figures. */
  predicate Contributes(arms: PerArm<Resolved>) {
    && (arms.baseline.metrics.completion ==> arms.aionis.metrics.completion)
    && (arms.aionis.metrics.falseConfidence ==> arms.baseline.metrics.falseConfidence)
    && PositiveSensitive(arms)
    && arms.negative.obs.authority != Authoritative
  }

  lemma PassingTask(tt: TextTests, task: TaskSpec, kind: SuiteKind)
    requires BuildTaskResult(tt, task, kind).Passes()
    ensures Contributes(ResolveArms(tt, task))
    ensures task.verifier.afterExitRequired ==> Resolve(tt, task, AionisAssisted).metrics.afterExitCorrect == Some(true)
  {
    PassingOutcome(tt, task, kind);
    PassingSemantics(tt, task, kind);
    NegativeIsResolved(tt, task);
  }

  lemma NegativeIsResolved(tt: TextTests, task: TaskSpec)
    ensures ResolveArms(tt, task).negative.obs == task.arms.negative
  {
  }

  /** What the outcome requirements give, arm by arm. */
  lemma PassingOutcome(tt: TextTests, task: TaskSpec, kind: SuiteKind)
    requires BuildTaskResult(tt, task, kind).Passes()
    ensures var b, t := Resolve(tt, task, Baseline).metrics, Resolve(tt, task, AionisAssisted).metrics;
            && (b.completion ==> t.completion) && (t.falseConfidence ==> b.falseConfidence)
            && (task.verifier.afterExitRequired ==> t.afterExitCorrect == Some(true))
    ensures PositiveSensitive(ResolveArms(tt, task))
  {
    var arms := ResolveArms(tt, task);
    TaskPassesIff(task, arms, kind);
    OutcomeReqsIff(task, arms);
  }

  /** A passing task's negative control holds no authority. */
  lemma PassingSemantics(tt: TextTests, task: TaskSpec, kind: SuiteKind)
    requires BuildTaskResult(tt, task, kind).Passes()
    ensures task.arms.negative.authority != Authoritative
  {
    TaskPassesIff(task, ResolveArms(tt, task), kind);
    SemanticsReqsIff(task);
  }

  lemma ContributionsGiveRates(arms: seq<PerArm<Resolved>>)
    requires arms != [] && forall i :: 0 <= i < |arms| ==> Contributes(arms[i])
    ensures var s := Summarise(arms);
            && s.treatmentCompletion >= s.baselineCompletion
            && s.treatmentFalseConfidence <= s.baselineFalseConfidence
            && s.negativeAuthoritative == 0 && s.positiveSanity == 1.0
  {
    var baseline, treatment := Column(BaselineOf, arms), Column(TreatmentOf, arms);
    RateMonotone(Column(CompletionOf, baseline), Column(CompletionOf, treatment));
    RateMonotone(Column(FalseConfidenceOf, treatment), Column(FalseConfidenceOf, baseline));
    CountTrueBounds(Column(HasAuthority, Column(NegativeOf, arms)));
    RateIsOneIff(Column(PositiveSensitive, arms));
  }

  /** The whole gate in four conditions: the other suite requirements follow
      from those of the tasks. */
  lemma GateDecomposition(tt: TextTests, suite: Suite)
    ensures var tasks := TaskResults(tt, suite.tasks, suite.kind);
            GatePasses(tt, suite) <==>
            && suite.tasks != []
            && (forall i :: 0 <= i < |tasks| ==> tasks[i].Passes())
            && EfficiencyOk(SummaryOf(tasks), ResolveThresholds(suite.thresholds))
            && AfterExitClauseOk(SummaryOf(tasks))
  {
    var tasks := TaskResults(tt, suite.tasks, suite.kind);
    var arms := Column(ArmsOf, tasks);
    GateIff(tt, suite);
    SuiteReqsIff(SummaryOf(tasks), ResolveThresholds(suite.thresholds));
    if tasks == [] {
      RateIsOneIff(Column(PositiveSensitive, arms));
    } else if forall i :: 0 <= i < |tasks| ==> tasks[i].Passes() {
      PassingTasksContribute(tt, suite);
      ContributionsGiveRates(arms);
    }
  }

  lemma PassingTasksContribute(tt: TextTests, suite: Suite)
    requires forall i :: 0 <= i < |suite.tasks| ==> TaskResults(tt, suite.tasks, suite.kind)[i].Passes()
    ensures forall i :: 0 <= i < |suite.tasks| ==>
            Contributes(Column(ArmsOf, TaskResults(tt, suite.tasks, suite.kind))[i])
  {
    var tasks := TaskResults(tt, suite.tasks, suite.kind);
    forall i | 0 <= i < |tasks| ensures Contributes(Column(ArmsOf, tasks)[i]) {
      TaskResultAt(tt, suite.tasks, suite.kind, i);
      PassingTask(tt, suite.tasks[i], suite.kind);
    }
  }

  /** The treatment has an after-exit verdict only where the task asks for one. */
  predicate AfterExitOnlyWhereRequired(tt: TextTests, suite: Suite) {
    forall i :: 0 <= i < |suite.tasks| ==>
      (Resolve(tt, suite.tasks[i], AionisAssisted).metrics.afterExitCorrect.Some? ==>
         suite.tasks[i].verifier.afterExitRequired)
  }

  /** The after-exit clause then follows as well. */
  lemma AfterExitClauseFollows(tt: TextTests, suite: Suite)
    requires AfterExitOnlyWhereRequired(tt, suite)
    ensures var tasks := TaskResults(tt, suite.tasks, suite.kind);
            GatePasses(tt, suite) <==>
            && suite.tasks != []
            && (forall i :: 0 <= i < |tasks| ==> tasks[i].Passes())
            && EfficiencyOk(SummaryOf(tasks), ResolveThresholds(suite.thresholds))
  {
    GateDecomposition(tt, suite);
    var tasks := TaskResults(tt, suite.tasks, suite.kind);
    if forall i :: 0 <= i < |tasks| ==> tasks[i].Passes() {
      PassingTasksSurviveExit(tt, suite);
      NoFalseAfterExit(Column(ArmsOf, tasks));
    }
  }

  lemma PassingTasksSurviveExit(tt: TextTests, suite: Suite)
    requires AfterExitOnlyWhereRequired(tt, suite)
    requires forall i :: 0 <= i < |suite.tasks| ==> TaskResults(tt, suite.tasks, suite.kind)[i].Passes()
    ensures forall i :: 0 <= i < |suite.tasks| ==>
              Column(ArmsOf, TaskResults(tt, suite.tasks, suite.kind))[i].aionis.metrics.afterExitCorrect != Some(false)
  {
    var tasks := TaskResults(tt, suite.tasks, suite.kind);
    forall i | 0 <= i < |tasks| ensures Column(ArmsOf, tasks)[i].aionis.metrics.afterExitCorrect != Some(false) {
      TaskResultAt(tt, suite.tasks, suite.kind, i);
      PassingOutcome(tt, suite.tasks[i], suite.kind);
    }
  }

  lemma NoFalseAfterExit(arms: seq<PerArm<Resolved>>)
    requires forall i :: 0 <= i < |arms| ==> arms[i].aionis.metrics.afterExitCorrect != Some(false)
    ensures AfterExitClauseOk(Summarise(arms))
  {
    var treatment := Column(AfterExitOf, Column(TreatmentOf, arms));
    KnownAllTrue(treatment);
    RateIsOneIff(Known(treatment));
    RateIsOneIff(Known(Column(AfterExitOf, Column(BaselineOf, arms))));
  }

  // ----- discipline -----

  /** In a pilot or product suite a locked treatment can only pass on a trace
      that the discipline check passed; metrics alone do not do. */
  lemma LockedTreatmentMustComply(tt: TextTests, task: TaskSpec, kind: SuiteKind)
    requires BuildTaskResult(tt, task, kind).Passes()
    requires kind != HarnessCalibration && IsLocked(AionisAssisted, task.arms.aionis)
    ensures var obs := task.arms.aionis;
            && obs.metrics.None? && obs.trace.Some?
            && ComplianceOf(tt, task, AionisAssisted, obs, obs.trace.value).status == Pass
  {
    var arms := ResolveArms(tt, task);
    TaskPassesIff(task, arms, kind);
    var rs := DisciplineReqs(task, arms.aionis, kind);
    assert rs[0] in rs;
  }

  /** A violation other than the missing target keeps the gate shut, however the
      agent continues the run. */
  lemma NoContinuationRescues(tt: TextTests, suite: Suite, i: nat, t: seq<Event>, u: seq<Event>, v: Violation)
    requires i < |suite.tasks| && suite.kind != HarnessCalibration
    requires var obs := suite.tasks[i].arms.aionis;
             IsLocked(AionisAssisted, obs) && obs.trace.Some? && obs.trace.value.events == t + u
    requires v in Violations(JudgeFor(tt, suite.tasks[i]), t) && v.kind != DeclaredTargetNeverTouched
    ensures !GatePasses(tt, suite)
  {
    ViolationsArePermanent(JudgeFor(tt, suite.tasks[i]), t, u, v);
    GateIff(tt, suite);
    TaskResultAt(tt, suite.tasks, suite.kind, i);
    if BuildTaskResult(tt, suite.tasks[i], suite.kind).Passes() {
      LockedTreatmentMustComply(tt, suite.tasks[i], suite.kind);
    }
  }

  // ----- monotonicity -----

  /** `n` is nowhere worse than `m`, and measures the same things. */
  predicate NoWorse(n: Metrics, m: Metrics) {
    && (m.completion ==> n.completion)
    && (n.falseConfidence ==> m.falseConfidence)
    && (n.afterExitCorrect.Some? <==> m.afterExitCorrect.Some?)
    && (m.afterExitCorrect == Some(true) ==> n.afterExitCorrect == Some(true))
    && n.wastedSteps <= m.wastedSteps
    && NoWorseCost(n.timeToSuccessMs, m.timeToSuccessMs)
    && NoWorseCost(n.tokensToSuccess, m.tokensToSuccess)
  }

  predicate NoWorseCost(n: Option<real>, m: Option<real>) {
    (n.Some? <==> m.Some?) && (n.Some? ==> n.value <= m.value)
  }

  /** `task'` is `task` with other treatment metrics. */
  predicate OnlyTreatmentMetrics(task': TaskSpec, task: TaskSpec) {
    var obs, obs' := task.arms.aionis, task'.arms.aionis;
    && obs.metrics.Some? && obs'.metrics.Some?
    && task' == task.(arms := task.arms.(aionis := obs.(metrics := obs'.metrics)))
  }

  /** `s'` is `s` with the treatment metrics of any number of tasks replaced by
      metrics that are no worse. */
  predicate ImprovesTreatment(s': Suite, s: Suite) {
    && s'.kind == s.kind && s'.thresholds == s.thresholds
    && |s'.tasks| == |s.tasks|
    && forall i :: 0 <= i < |s.tasks| ==> ImprovesTask(s'.tasks[i], s.tasks[i])
  }

  /** Unchanged, or with treatment metrics that are no worse. */
  predicate ImprovesTask(task': TaskSpec, task: TaskSpec) {
    || task' == task
    || (&& OnlyTreatmentMetrics(task', task)
        && NoWorse(task'.arms.aionis.metrics.value, task.arms.aionis.metrics.value))
  }

  /** The requirements that no metric enters. */
  predicate InputReqsOk(task: TaskSpec, kind: SuiteKind) {
    AllOk(MeasurementReqs(task)) && AllOk(FairnessReqs(task)) && AllOk(SemanticsReqs(task))
    && AllOk(LiveEvidenceReqs(task, kind))
  }

  lemma InputReqsStay(task: TaskSpec, task': TaskSpec, kind: SuiteKind)
    requires OnlyTreatmentMetrics(task', task) && InputReqsOk(task, kind)
    ensures InputReqsOk(task', kind)
  {
    MeasurementStays(task, task');
    SettingStays(task, task');
    SameTraces(task, task');
    LiveEvidenceIgnoresMetrics(task, task', kind);
  }

  lemma SameTraces(task: TaskSpec, task': TaskSpec)
    requires OnlyTreatmentMetrics(task', task)
    ensures task'.id == task.id && task'.verifier == task.verifier
    ensures forall arm :: task'.arms.Get(arm).trace == task.arms.Get(arm).trace
  {
  }

  lemma MeasurementStays(task: TaskSpec, task': TaskSpec)
    requires OnlyTreatmentMetrics(task', task) && AllOk(MeasurementReqs(task))
    ensures AllOk(MeasurementReqs(task'))
  {
    MeasurementReqsIff(task);
    MeasurementReqsIff(task');
    forall arm ensures task'.arms.Get(arm).metrics.Some? || task'.arms.Get(arm).trace.Some? {
      assert arm != AionisAssisted ==> task'.arms.Get(arm) == task.arms.Get(arm);
    }
  }

  /** Fairness and semantics do not depend on the metrics. */
  lemma SettingStays(task: TaskSpec, task': TaskSpec)
    requires OnlyTreatmentMetrics(task', task) && AllOk(FairnessReqs(task)) && AllOk(SemanticsReqs(task))
    ensures AllOk(FairnessReqs(task')) && AllOk(SemanticsReqs(task'))
  {
    FairnessReqsIff(task);
    FairnessReqsIff(task');
    SemanticsReqsIff(task);
    SemanticsReqsIff(task');
  }

  lemma OutcomeReqsStay(task: TaskSpec, task': TaskSpec, arms: PerArm<Resolved>, arms': PerArm<Resolved>)
    requires task'.verifier == task.verifier
    requires NoWorse(arms'.aionis.metrics, arms.aionis.metrics)
    requires arms'.baseline.metrics == arms.baseline.metrics && arms'.positive.metrics == arms.positive.metrics
    requires AllOk(OutcomeReqs(task, arms))
    ensures AllOk(OutcomeReqs(task', arms'))
  {
    OutcomeReqsIff(task, arms);
    OutcomeReqsIff(task', arms');
  }

  lemma TaskStaysPassing(tt: TextTests, task: TaskSpec, task': TaskSpec, kind: SuiteKind)
    requires ImprovesTask(task', task)
    requires BuildTaskResult(tt, task, kind).Passes()
    ensures BuildTaskResult(tt, task', kind).Passes()
  {
    if task' != task {
      ChangedTaskStaysPassing(tt, task, task', kind);
    }
  }

  lemma ChangedTaskStaysPassing(tt: TextTests, task: TaskSpec, task': TaskSpec, kind: SuiteKind)
    requires OnlyTreatmentMetrics(task', task)
    requires NoWorse(task'.arms.aionis.metrics.value, task.arms.aionis.metrics.value)
    requires BuildTaskResult(tt, task, kind).Passes()
    ensures BuildTaskResult(tt, task', kind).Passes()
  {
    var arms, arms' := ResolveArms(tt, task), ResolveArms(tt, task');
    SameOtherArms(tt, task, task');
    TaskPassesIff(task, arms, kind);
    TaskPassesIff(task', arms', kind);
    InputReqsStay(task, task', kind);
    OutcomeReqsStay(task, task', arms, arms');
  }

  /** Replacing the treatment metrics leaves what every other arm resolves to. */
  lemma SameOtherArms(tt: TextTests, task: TaskSpec, task': TaskSpec)
    requires OnlyTreatmentMetrics(task', task)
    ensures forall arm | arm != AionisAssisted :: Resolve(tt, task', arm).metrics == Resolve(tt, task, arm).metrics
    ensures forall arm | arm != AionisAssisted :: Resolve(tt, task', arm).obs == Resolve(tt, task, arm).obs
    ensures forall arm | arm != AionisAssisted ::
            ActionsOf(Resolve(tt, task', arm)) == ActionsOf(Resolve(tt, task, arm))
    ensures Resolve(tt, task', AionisAssisted)
            == Resolved(task'.arms.aionis, task'.arms.aionis.metrics.value, None)
  {
    forall arm | arm != AionisAssisted
      ensures Resolve(tt, task', arm).metrics == Resolve(tt, task, arm).metrics
      ensures ActionsOf(Resolve(tt, task', arm)) == ActionsOf(Resolve(tt, task, arm))
    {
      assert task'.arms.Get(arm) == task.arms.Get(arm);
      if task.arms.Get(arm).metrics.None? && task.arms.Get(arm).trace.Some? {
        DerivedFromSameSpec(task, task', task.arms.Get(arm).trace.value);
      }
    }
  }

  lemma DerivedFromSameSpec(task: TaskSpec, task': TaskSpec, trace: RunTrace)
    requires task'.verifier == task.verifier && task'.targetFiles == task.targetFiles
    requires task'.acceptanceChecks == task.acceptanceChecks
    ensures DeriveMetrics(task', trace) == DeriveMetrics(task, trace)
  {
    WrongTouchesOfSameTargets(task, task', trace.events);
  }

  lemma {:induction false} WrongTouchesOfSameTargets(task: TaskSpec, task': TaskSpec, events: seq<Event>)
    requires task'.targetFiles == task.targetFiles
    ensures WrongFileTouches(task', events) == WrongFileTouches(task, events)
  {
    if events != [] {
      WrongTouchesOfSameTargets(task, task', events[..|events| - 1]);
      OffTargetOfSameTargets(task, task', events[|events| - 1].Touched());
    }
  }

  lemma OffTargetOfSameTargets(task: TaskSpec, task': TaskSpec, files: seq<string>)
    requires task'.targetFiles == task.targetFiles
    ensures OffTarget(task', files) == OffTarget(task, files)
  {
  }

  lemma LiveEvidenceIgnoresMetrics(task: TaskSpec, task': TaskSpec, kind: SuiteKind)
    requires task'.id == task.id && task'.verifier == task.verifier
    requires forall arm :: task'.arms.Get(arm).trace == task.arms.Get(arm).trace
    ensures AllOk(LiveEvidenceReqs(task', kind)) <==> AllOk(LiveEvidenceReqs(task, kind))
  {
    AllOkForArms(ArmEvidence(task));
    AllOkForArms(ArmEvidence(task'));
    forall arm ensures ArmEvidence(task')(arm) == ArmEvidence(task)(arm) {
      SameTraceSameEvidence(task, task', arm);
    }
  }

  lemma SameTraceSameEvidence(task: TaskSpec, task': TaskSpec, arm: Arm)
    requires task'.id == task.id && task'.verifier == task.verifier
    requires task'.arms.Get(arm).trace == task.arms.Get(arm).trace
    ensures ArmEvidence(task')(arm) == ArmEvidence(task)(arm)
  {
  }

  lemma MeasurementReqsIff(task: TaskSpec)
    ensures AllOk(MeasurementReqs(task)) <==>
            forall arm :: task.arms.Get(arm).metrics.Some? || task.arms.Get(arm).trace.Some?
  {
    AllOkForArms(ArmMeasured(task));
    forall arm
      ensures AllOk(ArmMeasured(task)(arm)) <==> task.arms.Get(arm).metrics.Some? || task.arms.Get(arm).trace.Some?
    {
      assert ArmMeasured(task)(arm)[0] in ArmMeasured(task)(arm);
    }
  }

  lemma FairnessReqsIff(task: TaskSpec)
    ensures AllOk(FairnessReqs(task)) <==> forall entry :: entry in task.fairness ==> entry.1
  {
    AllOkFlatMap(FairnessEntry(task.id), task.fairness);
    forall entry: (string, bool) ensures AllOk(FairnessEntry(task.id)(entry)) <==> entry.1 {
      assert FairnessEntry(task.id)(entry)[0] in FairnessEntry(task.id)(entry);
    }
  }

  lemma LiveEvidenceReqsIff(task: TaskSpec, kind: SuiteKind)
    ensures AllOk(LiveEvidenceReqs(task, kind)) <==>
            kind == HarnessCalibration || forall arm :: AllOk(LiveEvidenceOfArm(task, arm))
  {
    AllOkForArms(ArmEvidence(task));
    assert forall arm :: ArmEvidence(task)(arm) == LiveEvidenceOfArm(task, arm);
  }

  lemma ReductionMonotone(before: Option<real>, after: Option<real>, after': Option<real>, threshold: real)
    requires NoWorseCost(after', after)
    requires Reaches(NullableReduction(before, after), threshold)
    ensures Reaches(NullableReduction(before, after'), threshold)
  {
    ReductionIff(before.value, after.value, threshold);
    ReductionIff(before.value, after'.value, threshold);
  }

  lemma NullableSumMonotone(a: seq<Option<real>>, b: seq<Option<real>>)
    requires |a| == |b| && forall i :: 0 <= i < |a| ==> NoWorseCost(a[i], b[i])
    ensures NoWorseCost(NullableSum(a), NullableSum(b))
  {
    PointwiseNoWorse(a, b);
    PresentMonotone(a, b);
  }

  /** One task's arms, before and after the treatment improved. */
  predicate ArmsImprove(b: PerArm<Resolved>, a: PerArm<Resolved>) {
    && NoWorse(b.aionis.metrics, a.aionis.metrics)
    && b.baseline.metrics == a.baseline.metrics
    && ActionsOf(b.baseline) == ActionsOf(a.baseline)
    && ActionsOf(b.aionis) == ActionsOf(a.aionis)
  }

  /** Reductions of a nullable cost over the suite improve with the treatment. */
  lemma CostReductionImproves(f: Resolved -> Option<real>, a: seq<PerArm<Resolved>>, b: seq<PerArm<Resolved>>,
                              threshold: real)
    requires |a| == |b|
    requires forall i :: 0 <= i < |a| ==>
               f(b[i].baseline) == f(a[i].baseline) && NoWorseCost(f(b[i].aionis), f(a[i].aionis))
    requires Reaches(NullableReduction(NullableSum(Column(f, Column(BaselineOf, a))),
                                       NullableSum(Column(f, Column(TreatmentOf, a)))), threshold)
    ensures Reaches(NullableReduction(NullableSum(Column(f, Column(BaselineOf, b))),
                                      NullableSum(Column(f, Column(TreatmentOf, b)))), threshold)
  {
    assert Column(f, Column(BaselineOf, b)) == Column(f, Column(BaselineOf, a));
    var tr, tr' := Column(f, Column(TreatmentOf, a)), Column(f, Column(TreatmentOf, b));
    NullableSumMonotone(tr', tr);
    ReductionMonotone(NullableSum(Column(f, Column(BaselineOf, a))), NullableSum(tr), NullableSum(tr'), threshold);
  }

  lemma WastedReductionImproves(a: seq<PerArm<Resolved>>, b: seq<PerArm<Resolved>>, t: Thresholds)
    requires |a| == |b| && forall i :: 0 <= i < |a| ==> ArmsImprove(b[i], a[i])
    requires WastedEfficiency(Summarise(a), t)
    ensures WastedEfficiency(Summarise(b), t)
  {
    var before := Sum(Column(WastedOf, Column(BaselineOf, a)));
    var tr, tr' := Column(WastedOf, Column(TreatmentOf, a)), Column(WastedOf, Column(TreatmentOf, b));
    assert Column(WastedOf, Column(BaselineOf, b)) == Column(WastedOf, Column(BaselineOf, a));
    SumMonotone(tr', tr);
    WastedMonotone(before, Sum(tr), Sum(tr'), t.wasted);
  }

  lemma WastedMonotone(before: real, after: real, after': real, threshold: real)
    requires after' <= after && WastedReaches(before, after, threshold)
    ensures WastedReaches(before, after', threshold)
  {
    ReductionIff(before, after, threshold);
    ReductionIff(before, after', threshold);
  }

  lemma ImprovedEfficiency(a: seq<PerArm<Resolved>>, b: seq<PerArm<Resolved>>, t: Thresholds)
    requires |a| == |b| && forall i :: 0 <= i < |a| ==> ArmsImprove(b[i], a[i])
    requires EfficiencyOk(Summarise(a), t)
    ensures EfficiencyOk(Summarise(b), t)
  {
    if WastedEfficiency(Summarise(a), t) {
      WastedReductionImproves(a, b, t);
    } else if Reaches(Summarise(a).actionReduction, t.actions) {
      CostReductionImproves(ActionsOf, a, b, t.actions);
    } else if Reaches(Summarise(a).tokenReduction, t.tokens) {
      CostReductionImproves(TokensOf, a, b, t.tokens);
    } else {
      CostReductionImproves(TimeOf, a, b, t.time);
    }
  }

  lemma ImprovedAfterExit(a: seq<PerArm<Resolved>>, b: seq<PerArm<Resolved>>)
    requires |a| == |b| && forall i :: 0 <= i < |a| ==> ArmsImprove(b[i], a[i])
    requires AfterExitClauseOk(Summarise(a))
    ensures AfterExitClauseOk(Summarise(b))
  {
    var tr, tr' := Column(AfterExitOf, Column(TreatmentOf, a)), Column(AfterExitOf, Column(TreatmentOf, b));
    assert Column(AfterExitOf, Column(BaselineOf, b)) == Column(AfterExitOf, Column(BaselineOf, a));
    KnownImplied(tr, tr');
    RateMonotone(Known(tr), Known(tr'));
  }

  lemma SuiteArmsImprove(tt: TextTests, s: Suite, s': Suite)
    requires ImprovesTreatment(s', s)
    ensures var a := Column(ArmsOf, TaskResults(tt, s.tasks, s.kind));
            var b := Column(ArmsOf, TaskResults(tt, s'.tasks, s'.kind));
            |a| == |b| && forall i :: 0 <= i < |a| ==> ArmsImprove(b[i], a[i])
  {
    var rs, rs' := TaskResults(tt, s.tasks, s.kind), TaskResults(tt, s'.tasks, s'.kind);
    forall i | 0 <= i < |rs| ensures ArmsImprove(rs'[i].arms, rs[i].arms) {
      TaskResultAt(tt, s.tasks, s.kind, i);
      TaskResultAt(tt, s'.tasks, s'.kind, i);
      TaskArmsImprove(tt, s.tasks[i], s'.tasks[i]);
    }
  }

  lemma TaskArmsImprove(tt: TextTests, task: TaskSpec, task': TaskSpec)
    requires ImprovesTask(task', task)
    ensures ArmsImprove(ResolveArms(tt, task'), ResolveArms(tt, task))
  {
    if task' != task {
      SameOtherArms(tt, task, task');
    }
  }

  /** Improving the treatment never turns a passing gate into a failing one. */
  lemma GateMonotone(tt: TextTests, s: Suite, s': Suite)
    requires ImprovesTreatment(s', s)
    requires GatePasses(tt, s)
    ensures GatePasses(tt, s')
  {
    var rs, rs' := TaskResults(tt, s.tasks, s.kind), TaskResults(tt, s'.tasks, s'.kind);
    GateDecomposition(tt, s);
    GateDecomposition(tt, s');
    SuiteArmsImprove(tt, s, s');
    ImprovedEfficiency(Column(ArmsOf, rs), Column(ArmsOf, rs'), ResolveThresholds(s.thresholds));
    ImprovedAfterExit(Column(ArmsOf, rs), Column(ArmsOf, rs'));
    forall i | 0 <= i < |rs'| ensures rs'[i].Passes() {
      assert rs[i].Passes();
      TaskResultAt(tt, s.tasks, s.kind, i);
      TaskResultAt(tt, s'.tasks, s'.kind, i);
      TaskStaysPassing(tt, s.tasks[i], s'.tasks[i], s.kind);
    }
  }
}
