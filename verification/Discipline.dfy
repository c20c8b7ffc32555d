/** The contract-locked discipline check: one pass over the trace of the
    treatment arm, specified by a violation list that only looks backwards. */
module Discipline {
  import opened Util
  import opened Trace

  datatype ViolationKind =
    | BroadDiscoveryBeforeTargets
    | SkillOrPreferenceReadBeforeTargets
    | DeclaredTargetNeverTouched
    | NonTargetExpansion
    | RepeatValidationAfterPass
    | AcceptanceEvidenceEdit
    | MaxPreEditConfirmationStepsExceeded

  /** Every violation the source records is severe, so severity is not a field. */
  datatype Violation = Violation(kind: ViolationKind, index: nat, command: Option<string>, text: Option<string>)

  datatype Status = Pass | Fail | NotApplicable

  datatype Compliance = Compliance(
    status: Status,
    checked: bool,
    lockedContractExpected: bool,
    violations: seq<Violation>,
    firstTarget: Option<nat>,
    firstEdit: Option<nat>,
    firstAcceptancePass: Option<nat>,
    preEditSteps: nat,
    maxPreEditSteps: Option<nat>)

  function Report(kind: ViolationKind, e: Event, index: nat): Violation {
    Violation(kind, index, e.command, e.text)
  }

  predicate IsLocked(arm: Arm, obs: Observation) {
    arm == AionisAssisted && obs.memoryMode == AionisAuto
    && obs.authority == Authoritative && obs.packetSource == AutomaticRuntime
  }

  predicate IsTargetAction(e: Event, task: TaskSpec) {
    e.IsAction() && TouchesTarget(e, task)
  }

  function Min(a: int, b: int): int { if a <= b then a else b }

  function Max(a: int, b: int): int { if a >= b then a else b }

  function MaxPreEditSteps(task: TaskSpec): nat {
    var inspection := Max(1, Min(|task.targetFiles|, 3));
    var probe := if task.acceptanceChecks != [] then 1 else 0;
    var lifecycle := if task.verifier.afterExitRequired || task.verifier.externalVisibilityRequired then 1 else 0;
    Max(2, Min(6, inspection + probe + lifecycle))
  }

  /** The cap of six never acts, and the floor acts exactly for a task with at
      most one target and neither kind of probe. */
  lemma PreEditBudgetRange(task: TaskSpec)
    ensures 2 <= MaxPreEditSteps(task) <= 5
    ensures MaxPreEditSteps(task) ==
            Max(2, Max(1, Min(|task.targetFiles|, 3))
                   + (if task.acceptanceChecks != [] then 1 else 0)
                   + (if task.verifier.afterExitRequired || task.verifier.externalVisibilityRequired then 1 else 0))
  {
  }

  /** The tests that the check applies to single events, with the two
      quantities it needs from the task. Everything below holds for any tests. */
  datatype Judge = Judge(
    targetAction: Event -> bool,
    edit: Event -> bool,
    broadDiscovery: Event -> bool,
    skillRead: Event -> bool,
    expansion: Event -> bool,
    evidenceEdit: Event -> bool,
    acceptancePass: Event -> bool,
    hasTargets: bool,
    budget: nat)

  function JudgeFor(tt: TextTests, task: TaskSpec): Judge {
    Judge(
      (e: Event) => IsTargetAction(e, task),
      (e: Event) => IsEdit(tt, e),
      (e: Event) => tt.broadDiscovery(EventText(e)),
      (e: Event) => tt.skillRead(EventText(e)),
      (e: Event) => IsNonTargetExpansion(e, task),
      (e: Event) => IsAcceptanceEvidenceEdit(tt, e, task),
      (e: Event) => IsAcceptancePass(tt, e, task),
      task.targetFiles != [],
      MaxPreEditSteps(task))
  }

  function FirstTarget(jd: Judge, events: seq<Event>): (r: Option<nat>)
    ensures r.Some? ==> r.value < |events| && jd.targetAction(events[r.value])
                        && forall j :: 0 <= j < r.value ==> !jd.targetAction(events[j])
    ensures r.None? ==> forall j :: 0 <= j < |events| ==> !jd.targetAction(events[j])
  {
    FindIndex(jd.targetAction, events)
  }

  function FirstEdit(jd: Judge, events: seq<Event>): (r: Option<nat>)
    ensures r.Some? ==> r.value < |events| && jd.edit(events[r.value])
                        && forall j :: 0 <= j < r.value ==> !jd.edit(events[j])
    ensures r.None? ==> forall j :: 0 <= j < |events| ==> !jd.edit(events[j])
  {
    FindIndex(jd.edit, events)
  }

  function FirstAction(events: seq<Event>): (r: Option<nat>)
    ensures r.Some? ==> r.value < |events| && events[r.value].IsAction()
                        && forall j :: 0 <= j < r.value ==> !events[j].IsAction()
    ensures r.None? ==> forall j :: 0 <= j < |events| ==> !events[j].IsAction()
  {
    FindIndex((e: Event) => e.IsAction(), events)
  }

  function ActionCount(events: seq<Event>): nat {
    Count((e: Event) => e.IsAction(), events)
  }

  function PreEditSteps(jd: Judge, events: seq<Event>): nat {
    match FirstEdit(jd, events)
    case Some(k) => ActionCount(events[..k])
    case None => 0
  }

  // ----- the declarative violation list -----

  /** No event up to and including `i` is an action that touches a target. */
  predicate BeforeFirstTarget(jd: Judge, events: seq<Event>, i: nat)
    requires i < |events|
  {
    forall j :: 0 <= j <= i ==> !jd.targetAction(events[j])
  }

  predicate PassedBefore(jd: Judge, events: seq<Event>, i: nat)
    requires i <= |events|
  {
    exists j :: 0 <= j < i && jd.acceptancePass(events[j])
  }

  /** Whether the event at `i` commits a violation of the given kind. */
  predicate Commits(jd: Judge, events: seq<Event>, i: nat, kind: ViolationKind)
    requires i < |events|
  {
    var e := events[i];
    match kind
    case BroadDiscoveryBeforeTargets =>
      e.IsAction() && BeforeFirstTarget(jd, events, i) && jd.broadDiscovery(e)
    case SkillOrPreferenceReadBeforeTargets =>
      e.IsAction() && BeforeFirstTarget(jd, events, i) && jd.skillRead(e)
    case NonTargetExpansion =>
      !BeforeFirstTarget(jd, events, i) && jd.expansion(e)
    case AcceptanceEvidenceEdit =>
      jd.evidenceEdit(e)
    case RepeatValidationAfterPass =>
      e.IsAction() && jd.acceptancePass(e) && PassedBefore(jd, events, i)
    case DeclaredTargetNeverTouched => false
    case MaxPreEditConfirmationStepsExceeded => false
  }

  function ReportIf(committed: bool, kind: ViolationKind, e: Event, i: nat): seq<Violation> {
    if committed then [Report(kind, e, i)] else []
  }

  /** The order in which the violations of one event are reported. */
  function KindAt(k: nat): ViolationKind {
    match k
    case 0 => BroadDiscoveryBeforeTargets
    case 1 => SkillOrPreferenceReadBeforeTargets
    case 2 => NonTargetExpansion
    case 3 => AcceptanceEvidenceEdit
    case _ => RepeatValidationAfterPass
  }

  /** The reports on one event for the first `n` kinds. */
  function Reports(commits: ViolationKind -> bool, n: nat, e: Event, i: nat): seq<Violation> {
    if n == 0 then [] else Reports(commits, n - 1, e, i) + ReportIf(commits(KindAt(n - 1)), KindAt(n - 1), e, i)
  }

  function EventViolations(jd: Judge, events: seq<Event>, i: nat): seq<Violation>
    requires i < |events|
  {
    Reports(kind => Commits(jd, events, i, kind), 5, events[i], i)
  }

  function Raiser(jd: Judge, events: seq<Event>): (f: nat --> seq<Violation>)
    ensures forall i: nat :: i < |events| ==> f.requires(i) && f(i) == EventViolations(jd, events, i)
  {
    (i: nat) requires i < |events| => EventViolations(jd, events, i)
  }

  /** The violations of all events, in index order. */
  function LoopViolations(jd: Judge, events: seq<Event>): seq<Violation> {
    Gather(Raiser(jd, events), |events|)
  }

  function PreEditViolation(jd: Judge, events: seq<Event>): seq<Violation> {
    match FirstEdit(jd, events)
    case Some(k) =>
      if ActionCount(events[..k]) > jd.budget
      then [Report(MaxPreEditConfirmationStepsExceeded, events[k], k)]
      else []
    case None => []
  }

  const NoActionEvents: Event := Blank(Action).(text := Some("no action events"))

  function NeverTouchedViolation(jd: Judge, events: seq<Event>): seq<Violation> {
    if jd.hasTargets && FirstTarget(jd, events).None? then
      var i := FirstAction(events).GetOr(0);
      [Report(DeclaredTargetNeverTouched, if i < |events| then events[i] else NoActionEvents, i)]
    else []
  }

  function Violations(jd: Judge, events: seq<Event>): seq<Violation> {
    PreEditViolation(jd, events) + NeverTouchedViolation(jd, events)
    + LoopViolations(jd, events)
  }

  function FirstPass(jd: Judge, events: seq<Event>): (r: Option<nat>)
    ensures r.Some? ==> r.value < |events| && jd.acceptancePass(events[r.value])
                        && !PassedBefore(jd, events, r.value)
    ensures r.None? ==> !PassedBefore(jd, events, |events|)
  {
    FindIndex(jd.acceptancePass, events)
  }

  /** What the check reports, given the tests and whether the contract is locked. */
  function ComplianceBy(jd: Judge, locked: bool, events: seq<Event>): Compliance {
    if !locked then
      Compliance(NotApplicable, false, false, [], FirstTarget(jd, events), FirstEdit(jd, events), None,
                 PreEditSteps(jd, events), None)
    else
      var violations := Violations(jd, events);
      Compliance(if violations == [] then Pass else Fail, true, true, violations,
                 FirstTarget(jd, events), FirstEdit(jd, events), FirstPass(jd, events),
                 PreEditSteps(jd, events), Some(jd.budget))
  }

  function ComplianceOf(tt: TextTests, task: TaskSpec, arm: Arm, obs: Observation, trace: RunTrace): Compliance {
    ComplianceBy(JudgeFor(tt, task), IsLocked(arm, obs), trace.events)
  }

  // ----- the one-pass check -----

  method DeriveDisciplineCompliance(tt: TextTests, task: TaskSpec, arm: Arm, obs: Observation, trace: RunTrace)
    returns (c: Compliance)
    ensures c == ComplianceOf(tt, task, arm, obs, trace)
  {
    c := CheckTrace(JudgeFor(tt, task), IsLocked(arm, obs), trace.events);
  }

  method CheckTrace(jd: Judge, locked: bool, events: seq<Event>) returns (c: Compliance)
    ensures c == ComplianceBy(jd, locked, events)
  {
    var firstTarget := FirstTarget(jd, events);
    var firstEdit := FirstEdit(jd, events);
    var budget := if locked then Some(jd.budget) else None;
    var preEdit := if firstEdit.Some? then ActionCount(events[..firstEdit.value]) else 0;
    var firstPass: Option<nat>;
    var violations: seq<Violation> := [];

    if !locked {
      return Compliance(NotApplicable, false, false, violations, firstTarget, firstEdit, None, preEdit, None);
    }
    if firstEdit.Some? && preEdit > budget.value {
      violations := violations
        + [Report(MaxPreEditConfirmationStepsExceeded, events[firstEdit.value], firstEdit.value)];
    }
    if jd.hasTargets && firstTarget.None? {
      var i := FirstAction(events).GetOr(0);
      var evidence := if i < |events| then events[i] else NoActionEvents;
      violations := violations + [Report(DeclaredTargetNeverTouched, evidence, i)];
    }
    assert violations == PreEditViolation(jd, events) + NeverTouchedViolation(jd, events);
    violations, firstPass := CheckEvents(jd, events, firstTarget, violations);
    c := Compliance(if violations == [] then Pass else Fail, true, true, violations, firstTarget, firstEdit, firstPass,
                    preEdit, budget);
  }

  /** The loop of the judge: violations are pushed event by event and the index
      of the first acceptance pass is a mutable variable. */
  method CheckEvents(jd: Judge, events: seq<Event>, firstTarget: Option<nat>, before: seq<Violation>)
    returns (violations: seq<Violation>, firstPass: Option<nat>)
    requires firstTarget == FirstTarget(jd, events)
    ensures violations == before + LoopViolations(jd, events)
    ensures firstPass == FirstPass(jd, events)
  {
    violations, firstPass := before, None;
    ghost var raise := Raiser(jd, events);
    for index := 0 to |events|
      invariant violations == before + Gather(raise, index)
      invariant IsFirstPass(jd, events, index, firstPass)
    {
      var found;
      found, firstPass := CheckEvent(jd, events, index, firstTarget, firstPass);
      GatherStep(raise, index);
      violations := violations + found;
    }
    FirstPassIsUnique(jd, events, firstPass);
  }

  /** `r` is the index of the first acceptance pass among the first `n` events. */
  ghost predicate IsFirstPass(jd: Judge, events: seq<Event>, n: nat, r: Option<nat>)
    requires n <= |events|
  {
    match r
    case None => !PassedBefore(jd, events, n)
    case Some(k) => k < n && jd.acceptancePass(events[k]) && !PassedBefore(jd, events, k)
  }

  /** The callback that the loop runs on one event. */
  method CheckEvent(jd: Judge, events: seq<Event>, index: nat, firstTarget: Option<nat>,
                    firstPass: Option<nat>)
    returns (found: seq<Violation>, firstPass': Option<nat>)
    requires index < |events|
    requires firstTarget == FirstTarget(jd, events)
    requires IsFirstPass(jd, events, index, firstPass)
    ensures found == EventViolations(jd, events, index)
    ensures IsFirstPass(jd, events, index + 1, firstPass')
  {
    var e := events[index];
    var beforeFirstTarget := firstTarget.None? || index < firstTarget.value;
    assert beforeFirstTarget <==> BeforeFirstTarget(jd, events, index);
    assert firstPass.Some? <==> PassedBefore(jd, events, index);
    ghost var r := EventViolationsByFlags(jd, events, index, beforeFirstTarget, firstPass.Some?);
    found, firstPass' := [], firstPass;
    if e.IsAction() && beforeFirstTarget && jd.broadDiscovery(e) {
      found := found + [Report(BroadDiscoveryBeforeTargets, e, index)];
    }
    assert found == r[0];
    if e.IsAction() && beforeFirstTarget && jd.skillRead(e) {
      found := found + [Report(SkillOrPreferenceReadBeforeTargets, e, index)];
    }
    assert found == r[0] + r[1];
    if !beforeFirstTarget && jd.expansion(e) {
      found := found + [Report(NonTargetExpansion, e, index)];
    }
    assert found == r[0] + r[1] + r[2];
    if jd.evidenceEdit(e) {
      found := found + [Report(AcceptanceEvidenceEdit, e, index)];
    }
    assert found == r[0] + r[1] + r[2] + r[3];
    if jd.acceptancePass(e) {
      if firstPass.None? {
        firstPass' := Some(index);
      } else if e.IsAction() {
        found := found + [Report(RepeatValidationAfterPass, e, index)];
      }
    }
  }

  lemma EventViolationsByFlags(jd: Judge, events: seq<Event>, i: nat, before: bool, passed: bool)
    returns (r: seq<seq<Violation>>)
    requires i < |events|
    requires before <==> BeforeFirstTarget(jd, events, i)
    requires passed <==> PassedBefore(jd, events, i)
    ensures |r| == 5 && EventViolations(jd, events, i) == r[0] + r[1] + r[2] + r[3] + r[4]
    ensures var e := events[i];
            && r[0] == ReportIf(e.IsAction() && before && jd.broadDiscovery(e), BroadDiscoveryBeforeTargets, e, i)
            && r[1] == ReportIf(e.IsAction() && before && jd.skillRead(e), SkillOrPreferenceReadBeforeTargets, e, i)
            && r[2] == ReportIf(!before && jd.expansion(e), NonTargetExpansion, e, i)
            && r[3] == ReportIf(jd.evidenceEdit(e), AcceptanceEvidenceEdit, e, i)
            && r[4] == ReportIf(e.IsAction() && jd.acceptancePass(e) && passed, RepeatValidationAfterPass, e, i)
  {
    var e := events[i];
    UnfoldReports(kind => Commits(jd, events, i, kind), e, i);
    r := [ReportIf(e.IsAction() && before && jd.broadDiscovery(e), BroadDiscoveryBeforeTargets, e, i),
          ReportIf(e.IsAction() && before && jd.skillRead(e), SkillOrPreferenceReadBeforeTargets, e, i),
          ReportIf(!before && jd.expansion(e), NonTargetExpansion, e, i),
          ReportIf(jd.evidenceEdit(e), AcceptanceEvidenceEdit, e, i),
          ReportIf(e.IsAction() && jd.acceptancePass(e) && passed, RepeatValidationAfterPass, e, i)];
  }

  lemma FirstPassIsUnique(jd: Judge, events: seq<Event>, r: Option<nat>)
    requires IsFirstPass(jd, events, |events|, r)
    ensures r == FirstPass(jd, events)
  {
    var f := FirstPass(jd, events);
    assert f.Some? && r.Some? ==> !(f.value < r.value) && !(r.value < f.value);
  }

  // ----- what the list says -----

  lemma LoopViolationIff(jd: Judge, events: seq<Event>, v: Violation)
    ensures v in LoopViolations(jd, events) <==>
            v.index < |events| && Commits(jd, events, v.index, v.kind)
            && v == Report(v.kind, events[v.index], v.index)
  {
    GatherMember(Raiser(jd, events), |events|, v);
    if v.index < |events| {
      EventViolationIff(jd, events, v.index, v);
    }
    forall i: nat | i < |events| && v in EventViolations(jd, events, i) ensures v.index == i {
      EventViolationIff(jd, events, i, v);
    }
  }

  lemma EventViolationIff(jd: Judge, events: seq<Event>, i: nat, v: Violation)
    requires i < |events|
    ensures v in EventViolations(jd, events, i) <==> Commits(jd, events, i, v.kind) && v == Report(v.kind, events[i], i)
  {
    ReportsIff(kind => Commits(jd, events, i, kind), 5, events[i], i, v);
    assert KindAt(0) == BroadDiscoveryBeforeTargets && KindAt(1) == SkillOrPreferenceReadBeforeTargets
        && KindAt(2) == NonTargetExpansion && KindAt(3) == AcceptanceEvidenceEdit
        && KindAt(4) == RepeatValidationAfterPass;
  }

  lemma {:induction false} ReportsIff(commits: ViolationKind -> bool, n: nat, e: Event, i: nat, v: Violation)
    ensures v in Reports(commits, n, e, i) <==>
            (exists k: nat :: k < n && v.kind == KindAt(k)) && commits(v.kind) && v == Report(v.kind, e, i)
  {
    if n > 0 {
      ReportsIff(commits, n - 1, e, i, v);
    }
  }

  lemma UnfoldReports(commits: ViolationKind -> bool, e: Event, i: nat)
    ensures Reports(commits, 5, e, i) ==
            ReportIf(commits(BroadDiscoveryBeforeTargets), BroadDiscoveryBeforeTargets, e, i)
            + ReportIf(commits(SkillOrPreferenceReadBeforeTargets), SkillOrPreferenceReadBeforeTargets, e, i)
            + ReportIf(commits(NonTargetExpansion), NonTargetExpansion, e, i)
            + ReportIf(commits(AcceptanceEvidenceEdit), AcceptanceEvidenceEdit, e, i)
            + ReportIf(commits(RepeatValidationAfterPass), RepeatValidationAfterPass, e, i)
  {
    assert Reports(commits, 1, e, i) == ReportIf(commits(KindAt(0)), KindAt(0), e, i);
    assert Reports(commits, 3, e, i) == Reports(commits, 2, e, i) + ReportIf(commits(KindAt(2)), KindAt(2), e, i);
  }

  lemma {:induction false} ReportsAgree(f: ViolationKind -> bool, g: ViolationKind -> bool, n: nat, e: Event, i: nat)
    requires forall kind :: f(kind) == g(kind)
    ensures Reports(f, n, e, i) == Reports(g, n, e, i)
  {
    if n > 0 {
      ReportsAgree(f, g, n - 1, e, i);
    }
  }

  lemma NoLoopViolationsIff(jd: Judge, events: seq<Event>)
    ensures LoopViolations(jd, events) == [] <==> forall i, kind | 0 <= i < |events| :: !Commits(jd, events, i, kind)
  {
    var loop := LoopViolations(jd, events);
    if loop != [] {
      LoopViolationIff(jd, events, loop[0]);
    } else {
      forall i, kind | 0 <= i < |events| ensures !Commits(jd, events, i, kind) {
        LoopViolationIff(jd, events, Report(kind, events[i], i));
      }
    }
  }

  /** Exactly when a locked run passes, with no reference to the loop. */
  lemma PassIff(jd: Judge, events: seq<Event>)
    ensures ComplianceBy(jd, true, events).status == Pass <==>
            && (forall k | 0 <= k < |events| && jd.edit(events[k]) && (forall j | 0 <= j < k :: !jd.edit(events[j])) ::
                  ActionCount(events[..k]) <= jd.budget)
            && (!jd.hasTargets || exists k :: 0 <= k < |events| && jd.targetAction(events[k]))
            && (forall i, kind | 0 <= i < |events| :: !Commits(jd, events, i, kind))
  {
    NoLoopViolationsIff(jd, events);
    assert ComplianceBy(jd, true, events).status == Pass <==>
        PreEditViolation(jd, events) == [] && NeverTouchedViolation(jd, events) == []
        && LoopViolations(jd, events) == [];
  }

  /** Tests that agree on every event, with the same targets and budget. */
  ghost predicate SameTests(a: Judge, b: Judge) {
    && a.hasTargets == b.hasTargets && a.budget == b.budget
    && forall e :: && a.targetAction(e) == b.targetAction(e) && a.edit(e) == b.edit(e)
                   && a.broadDiscovery(e) == b.broadDiscovery(e) && a.skillRead(e) == b.skillRead(e)
                   && a.expansion(e) == b.expansion(e) && a.evidenceEdit(e) == b.evidenceEdit(e)
                   && a.acceptancePass(e) == b.acceptancePass(e)
  }

  lemma CommitsReadsTests(a: Judge, b: Judge, events: seq<Event>, i: nat, kind: ViolationKind)
    requires SameTests(a, b) && i < |events|
    ensures Commits(a, events, i, kind) == Commits(b, events, i, kind)
  {
  }

  /** The verdict on a locked run depends on the tests' answers only. */
  lemma StatusReadsTests(a: Judge, b: Judge, events: seq<Event>)
    requires SameTests(a, b) && ComplianceBy(a, true, events).status == Pass
    ensures ComplianceBy(b, true, events).status == Pass
  {
    PassIff(a, events);
    PassIff(b, events);
    forall i, kind | 0 <= i < |events| ensures Commits(b, events, i, kind) == Commits(a, events, i, kind) {
      CommitsReadsTests(a, b, events, i, kind);
    }
  }

  /** Tasks with the same targets, checks and verifier are judged alike. */
  lemma SameTaskSameTests(tt: TextTests, task: TaskSpec, task': TaskSpec)
    requires task'.targetFiles == task.targetFiles && task'.acceptanceChecks == task.acceptanceChecks
    requires task'.verifier == task.verifier
    ensures SameTests(JudgeFor(tt, task), JudgeFor(tt, task'))
  {
  }

  /** The repeat-validation violations are exactly the passing actions after
      the index that the pass records as the first acceptance pass. */
  lemma RepeatsFollowFirstPass(jd: Judge, events: seq<Event>, i: nat)
    requires i < |events|
    ensures var c := ComplianceBy(jd, true, events);
            Report(RepeatValidationAfterPass, events[i], i) in c.violations <==>
            c.firstAcceptancePass.Some? && c.firstAcceptancePass.value < i
            && events[i].IsAction() && jd.acceptancePass(events[i])
  {
    LoopViolationIff(jd, events, Report(RepeatValidationAfterPass, events[i], i));
  }

  // ----- extending a trace -----

  lemma CommitsIsLocal(jd: Judge, t: seq<Event>, u: seq<Event>, i: nat, kind: ViolationKind)
    requires i < |t|
    ensures Commits(jd, t + u, i, kind) == Commits(jd, t, i, kind)
  {
    assert forall j :: 0 <= j <= i ==> (t + u)[j] == t[j];
  }

  lemma EventViolationsAreLocal(jd: Judge, t: seq<Event>, u: seq<Event>, i: nat)
    requires i < |t|
    ensures EventViolations(jd, t + u, i) == EventViolations(jd, t, i)
  {
    forall kind ensures Commits(jd, t + u, i, kind) == Commits(jd, t, i, kind) {
      CommitsIsLocal(jd, t, u, i, kind);
    }
    assert (t + u)[i] == t[i];
    ReportsAgree(kind => Commits(jd, t + u, i, kind), kind => Commits(jd, t, i, kind), 5, t[i], i);
  }

  /** The per-event violations of a trace are a prefix of those of every
      extension. */
  lemma ViolationsExtend(jd: Judge, t: seq<Event>, u: seq<Event>)
    ensures LoopViolations(jd, t) <= LoopViolations(jd, t + u)
  {
    var f, g := Raiser(jd, t), Raiser(jd, t + u);
    forall i: nat | i < |t| ensures f(i) == g(i) {
      EventViolationsAreLocal(jd, t, u, i);
    }
    GatherAgrees(f, g, |t|);
    GatherGrows(g, |t|, |t + u|);
  }

  lemma PreEditViolationStays(jd: Judge, t: seq<Event>, u: seq<Event>)
    ensures PreEditViolation(jd, t) <= PreEditViolation(jd, t + u)
  {
    var f, g := FirstEdit(jd, t), FirstEdit(jd, t + u);
    if f.Some? {
      assert forall j :: 0 <= j < |t| ==> (t + u)[j] == t[j];
      assert g == f;
      assert (t + u)[..f.value] == t[..f.value];
    }
  }

  /** Discipline failure is permanent: every violation but the missing target
      is found again, at the same index, on every extension of the trace. */
  lemma ViolationsArePermanent(jd: Judge, t: seq<Event>, u: seq<Event>, v: Violation)
    requires v in Violations(jd, t) && v.kind != DeclaredTargetNeverTouched
    ensures v in Violations(jd, t + u)
  {
    ViolationsExtend(jd, t, u);
    PreEditViolationStays(jd, t, u);
  }

  /** A failing locked run can be continued to a passing one only when all it
      lacks is a target action, and the continuation then contains one. */
  lemma OnlyMissingTargetHeals(jd: Judge, t: seq<Event>, u: seq<Event>)
    requires ComplianceBy(jd, true, t).status == Fail
    requires ComplianceBy(jd, true, t + u).status == Pass
    ensures var vs := ComplianceBy(jd, true, t).violations;
            |vs| == 1 && vs[0].kind == DeclaredTargetNeverTouched
    ensures exists k :: 0 <= k < |u| && jd.targetAction(u[k])
  {
    ViolationsExtend(jd, t, u);
    PreEditViolationStays(jd, t, u);
    var first := FirstTarget(jd, t + u);
    assert first.Some?;
    assert forall j :: 0 <= j < |t| ==> t[j] == (t + u)[j];
    assert u[first.value - |t|] == (t + u)[first.value];
  }

  /** Exactly which single event turns a run that fails for want of a target
      action into a passing one. */
  lemma HealingStepIff(jd: Judge, t: seq<Event>, x: Event)
    requires PreEditViolation(jd, t) == [] && LoopViolations(jd, t) == []
    requires NeverTouchedViolation(jd, t) != []
    ensures ComplianceBy(jd, true, t + [x]).status == Pass <==>
            && jd.targetAction(x)
            && !jd.expansion(x)
            && !jd.evidenceEdit(x)
            && !(x.IsAction() && jd.acceptancePass(x) && PassedBefore(jd, t, |t|))
            && (jd.edit(x) && FirstEdit(jd, t).None? ==> ActionCount(t) <= jd.budget)
  {
    LastEventViolations(jd, t, x);
    PreEditAfterStep(jd, t, x);
    NeverTouchedAfterStep(jd, t, x);
    if jd.targetAction(x) {
      TargetActionIsCleanIff(jd, t, x);
    }
  }

  lemma NeverTouchedAfterStep(jd: Judge, t: seq<Event>, x: Event)
    requires NeverTouchedViolation(jd, t) != []
    ensures NeverTouchedViolation(jd, t + [x]) == [] <==> jd.targetAction(x)
  {
    var s := t + [x];
    assert s[|t|] == x && forall j :: 0 <= j < |t| ==> s[j] == t[j];
  }

  /** When a target action at the end of a trace adds no violation. */
  lemma TargetActionIsCleanIff(jd: Judge, t: seq<Event>, x: Event)
    requires jd.targetAction(x)
    ensures EventViolations(jd, t + [x], |t|) == [] <==>
            && !jd.expansion(x)
            && !jd.evidenceEdit(x)
            && !(x.IsAction() && jd.acceptancePass(x) && PassedBefore(jd, t, |t|))
  {
    var s := t + [x];
    assert s[|t|] == x && forall j :: 0 <= j < |t| ==> s[j] == t[j];
    assert PassedBefore(jd, s, |t|) == PassedBefore(jd, t, |t|);
    assert !BeforeFirstTarget(jd, s, |t|);
    ghost var r := EventViolationsByFlags(jd, s, |t|, false, PassedBefore(jd, t, |t|));
  }

  lemma LastEventViolations(jd: Judge, t: seq<Event>, x: Event)
    ensures LoopViolations(jd, t + [x]) == LoopViolations(jd, t) + EventViolations(jd, t + [x], |t|)
  {
    var f, g := Raiser(jd, t), Raiser(jd, t + [x]);
    forall i: nat | i < |t| ensures f(i) == g(i) {
      EventViolationsAreLocal(jd, t, [x], i);
    }
    GatherAgrees(f, g, |t|);
  }

  lemma PreEditAfterStep(jd: Judge, t: seq<Event>, x: Event)
    ensures PreEditViolation(jd, t + [x]) == [] <==>
            if FirstEdit(jd, t).Some? then PreEditViolation(jd, t) == [] else jd.edit(x) ==> ActionCount(t) <= jd.budget
  {
    var s := t + [x];
    assert forall j :: 0 <= j < |t| ==> s[j] == t[j];
    assert s[|t|] == x;
    var f := FirstEdit(jd, t);
    if f.Some? {
      assert FirstEdit(jd, s) == f;
      assert s[..f.value] == t[..f.value];
    } else {
      assert FirstEdit(jd, s) == if jd.edit(x) then Some(|t|) else None;
      assert s[..|t|] == t;
    }
  }

  // ----- wrong-file touches -----

  function OffTarget(task: TaskSpec, files: seq<string>): nat {
    Count((f: string) => f !in task.targetFiles, files)
  }

  /** The wrong-file touches of one event. */
  function TouchesOf(task: TaskSpec, e: Event): nat {
    if task.targetFiles != [] && e.IsAction() then OffTarget(task, e.Touched()) else 0
  }

  /** `deriveWrongFileTouches`. */
  function WrongFileTouches(task: TaskSpec, events: seq<Event>): nat {
    if events == [] then 0
    else WrongFileTouches(task, events[..|events| - 1]) + TouchesOf(task, events[|events| - 1])
  }

  lemma {:induction false} NoWrongTouchesIff(task: TaskSpec, events: seq<Event>)
    ensures WrongFileTouches(task, events) == 0 <==> forall e | e in events :: !IsNonTargetExpansion(e, task)
  {
    if events != [] {
      var last := events[|events| - 1];
      NoWrongTouchesIff(task, events[..|events| - 1]);
      OffTargetIsPositive(task, last.Touched());
      assert TouchesOf(task, last) > 0 <==> IsNonTargetExpansion(last, task);
      assert events == events[..|events| - 1] + [last];
    }
  }

  function CountOf(kind: ViolationKind, vs: seq<Violation>): nat {
    if vs == [] then 0 else (if vs[0].kind == kind then 1 else 0) + CountOf(kind, vs[1..])
  }

  lemma {:induction false} CountOfAppend(kind: ViolationKind, a: seq<Violation>, b: seq<Violation>)
    ensures CountOf(kind, a + b) == CountOf(kind, a) + CountOf(kind, b)
  {
    if a == [] {
      assert a + b == b;
    } else {
      assert (a + b)[1..] == a[1..] + b;
      CountOfAppend(kind, a[1..], b);
    }
  }

  lemma OffTargetIsPositive(task: TaskSpec, files: seq<string>)
    ensures OffTarget(task, files) > 0 <==> exists f :: f in files && f !in task.targetFiles
  {
    CountIsPositive((f: string) => f !in task.targetFiles, files);
  }

  lemma {:induction false} ReportsOncePerKind(commits: ViolationKind -> bool, n: nat, e: Event, i: nat,
                                              kind: ViolationKind)
    requires n <= 5
    ensures CountOf(kind, Reports(commits, n, e, i))
            == if (exists k: nat :: k < n && kind == KindAt(k)) && commits(kind) then 1 else 0
  {
    if n > 0 {
      ReportsOncePerKind(commits, n - 1, e, i, kind);
      CountOfAppend(kind, Reports(commits, n - 1, e, i), ReportIf(commits(KindAt(n - 1)), KindAt(n - 1), e, i));
      assert kind == KindAt(n - 1) ==> !exists k: nat :: k < n - 1 && kind == KindAt(k);
    }
  }

  lemma ExpansionTouchesOffTarget(tt: TextTests, task: TaskSpec, events: seq<Event>, i: nat)
    requires i < |events|
    ensures CountOf(NonTargetExpansion, EventViolations(JudgeFor(tt, task), events, i)) <= TouchesOf(task, events[i])
  {
    ReportsOncePerKind(kind => Commits(JudgeFor(tt, task), events, i, kind), 5, events[i], i, NonTargetExpansion);
    OffTargetIsPositive(task, events[i].Touched());
  }

  lemma {:induction false} LoopExpansionsBounded(raise: nat --> seq<Violation>, task: TaskSpec, events: seq<Event>,
                                                 n: nat)
    requires n <= |events|
    requires forall i: nat :: i < n ==>
               raise.requires(i) && CountOf(NonTargetExpansion, raise(i)) <= TouchesOf(task, events[i])
    ensures CountOf(NonTargetExpansion, Gather(raise, n)) <= WrongFileTouches(task, events[..n])
  {
    if n > 0 {
      LoopExpansionsBounded(raise, task, events, n - 1);
      CountOfAppend(NonTargetExpansion, Gather(raise, n - 1), raise(n - 1));
      WrongTouchesStep(task, events, n);
    }
  }

  lemma WrongTouchesStep(task: TaskSpec, events: seq<Event>, n: nat)
    requires 0 < n <= |events|
    ensures WrongFileTouches(task, events[..n])
            == WrongFileTouches(task, events[..n - 1]) + TouchesOf(task, events[n - 1])
  {
    assert events[..n][..n - 1] == events[..n - 1];
  }

  lemma OnlyLoopExpands(jd: Judge, events: seq<Event>)
    ensures CountOf(NonTargetExpansion, Violations(jd, events))
            == CountOf(NonTargetExpansion, LoopViolations(jd, events))
  {
    var a, b := PreEditViolation(jd, events), NeverTouchedViolation(jd, events);
    CountOfAppend(NonTargetExpansion, a, b);
    CountOfAppend(NonTargetExpansion, a + b, LoopViolations(jd, events));
  }

  /** Non-target expansions never outnumber the wrong-file touches that the
      metrics report. */
  lemma ExpansionsBoundedByWrongTouches(tt: TextTests, task: TaskSpec, arm: Arm, obs: Observation, trace: RunTrace)
    ensures CountOf(NonTargetExpansion, ComplianceOf(tt, task, arm, obs, trace).violations)
            <= WrongFileTouches(task, trace.events)
  {
    if IsLocked(arm, obs) {
      var jd, events := JudgeFor(tt, task), trace.events;
      var raise := Raiser(jd, events);
      forall i: nat | i < |events|
        ensures CountOf(NonTargetExpansion, raise(i)) <= TouchesOf(task, events[i])
      {
        ExpansionTouchesOffTarget(tt, task, events, i);
      }
      LoopExpansionsBounded(raise, task, events, |events|);
      assert events[..|events|] == events;
      OnlyLoopExpands(jd, events);
    }
  }
}
