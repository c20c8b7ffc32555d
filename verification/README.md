# Aionis real A/B evidence pipeline: a Dafny model

Aionis compares four arms of the same task (baseline, Aionis-assisted treatment, negative control, positive
control). Agents leave event traces, a harness runs a fresh-shell probe after each agent, and a chain of stages turns
manifest, probe runs and events into one suite, which a gate judges. This project models that chain and the code
around it and proves what each stage promises, for every input, every trace and every extension of a trace.

The modules follow the chain:

| module | what it models |
|---|---|
| `Trace`, `Discipline`, `Measure` | events, tasks and observations; the contract-locked discipline check, a method with a mutable violation list that refines a list which only looks backwards; metrics derived from a trace |
| `Gate`, `GateTheorems` | requirements, rates and percentage reductions over real numbers, the suite runner; what a passing gate means and how it moves |
| `TraceCapture`, `DogfoodCapture`, `Assembler`, `Fairness` | the validators and compilations before the gate, and the fairness manifest |
| `Verdict`, `TaskVerdict`, `Improvement`, `Sample` | theorems across all stages, up to the exact condition under which an assembled suite passes, and how it moves with the probes; concrete bodies of evidence taken through the whole chain |
| `Ordering`, `Fingerprint`, `FingerprintTheorems`, `ReadOrder`, `Workspace` | the recursive workspace walk (a class that updates stream and counters), a decoder of its byte stream, what equal fingerprints mean, and when the order of reading shows |
| `ShellQuote` | quoting of command words and a POSIX tokenizer that inverts it |
| `EventRecorder`, `AgentOutput`, `StreamTail` | drafts and the events file, the shared record that normalisation writes into, the output tails |
| `Profile`, `Mulberry` | benchmark profile flattening with its regression gate; the seeded generator and the fake embedding |

Code that updates variables, lists or objects is a method or a class, proved equal to a function of its input or its
old state; the theorems are lemmas about those functions. Values that the source compares only with one constant,
regular expressions, the hash, the order of names, the token parser and `JSON.stringify` are parameters, so every
theorem holds for any choice of them. The order of names is a preorder in which different names may tie, and the
order in which a file system gives the names of a directory is a parameter too; a theorem that needs names not to tie
says which.
Strings of bytes are strings with one character per byte.

## Where the code does less than it seems to

Each expectation below is false of the code. It is refuted by a concrete input, and the exact condition is proved
beside it.

- Finalising a recorded event is not idempotent when all touched file names are blank: the first call leaves an empty
  list, the second drops it, or throws when there is no text and no command. Input: `EventRecorder.BlankFilesThrow`;
  condition: `EventRecorder.FinalizeTwice`, and for a whole attempt `EventRecorder.AttemptThrowsIff`.
- The runner normalises the parsed output twice over one shared record. With both `events` and `events_by_probe_id`
  present for the target probe, every entry of `events` is twice in the attempt. Input:
  `AgentOutput.BothFieldsDouble`; condition: `AgentOutput.SecondCallAgreesIff`.
- A valid paired capture may compile to an invalid trace capture: the task's verifier comes from the treatment's
  probe, the harness event of an arm from its own probe, and their slices or after-exit expectations may differ.
  Input: `Sample.ValidCaptureTurnsInvalid`; condition: `DogfoodCapture.CompiledCaptureValidIff`.
- After-exit correctness is not the harness verdict alone: an agent event under the verifier's command signature can
  supply it, and the gate can then pass although the treatment's probe failed. Input: `Sample.AgentVouchesForExit`;
  condition: `Verdict.AfterExitIff`. The verifier verdict and completion cannot be supplied that way
  (`Verdict.ProbeDecidesVerdict`).
- A passing fairness manifest does not mean that hashes and versions were compared: only recorded values are, so arms
  without a workspace hash pass, and the verifier's workspace roots need only be recorded where one workspace is
  promised. Input: `Sample.FrozenPromisesLess`; condition: `Fairness.FrozenReqsIff`.
- The workspace fingerprint is not independent of the order in which directories are read: names that the locale
  considers equal keep the order in which they were read. Input: `ReadOrder.SpellingsShow`, two canonically equivalent
  spellings; condition: `ReadOrder.StreamIgnoresOrderIff`, for one directory `Fingerprint.EntriesIgnoreOrderIff`. That
  equal streams show equal files does not depend on it (`FingerprintTheorems.SameStreamSameFiles`).
- The unwrapped mulberry counter agrees with a 32-bit counter only until it is rounded, which `Mulberry.AgreesIff`
  locates exactly. Every seed gets there by the 4917760th entry (`Mulberry.LongEmbeddingsDrift`), no seed with up to
  4917756 entries does (`Mulberry.SmallEmbeddingsStayExact`).

One more limit belongs to a function, not to a run of the program. The profile comparison can report drift of a profile
from itself when dotted keys collide (`Profile.DottedKeyDrifts`, exactly `Profile.SelfDriftIff`); the profiles that the
program builds have literal keys without dots (scripts/lite-real-task-benchmark.ts:548-762) and distinct scenario ids,
and so meet the condition of every gate (`Profile.ValidResultsAreConsistent`).

The efficiency signal needs no saving when neither side wasted a step: the gate then passes with no reduction of
actions, tokens or time (`Gate.NoWasteIsEfficient`, exactly `Gate.EfficiencyIff`).

## Model

| member | source | states |
|---|---|---|
| `Discipline.PreEditBudgetRange` | scripts/lib/aionis-real-ab-validation.ts:505-510 | the pre-edit budget lies in 2..5 for every task, so its cap of 6 never acts |
| `Discipline.DeriveDisciplineCompliance` | scripts/lib/aionis-real-ab-validation.ts:512-640 | the whole report of the discipline check, for any arm and trace, is the declarative one |
| `Discipline.CheckTrace` | scripts/lib/aionis-real-ab-validation.ts:519-640 | the same for any tests on events: two checks before the loop, then per-event violations in index order, and the status |
| `Discipline.CheckEvents` | scripts/lib/aionis-real-ab-validation.ts:573-625 | the loop with its mutable first-pass index pushes exactly the violations that look back over the trace, and ends with the first acceptance pass |
| `Discipline.CheckEvent` | scripts/lib/aionis-real-ab-validation.ts:573-625 | one turn of the loop keeps the first-pass invariant and pushes exactly the violations of that event, in the source's order |
| `Discipline.LoopViolationIff` | scripts/lib/aionis-real-ab-validation.ts:573-625 | a violation is in the list iff its event commits it: the condition names no loop state |
| `Discipline.PassIff` | scripts/lib/aionis-real-ab-validation.ts:512-640 | a locked run passes iff the budget before the first edit is kept, a declared target is acted on, and no event commits a violation |
| `Discipline.StatusReadsTests` | scripts/lib/aionis-real-ab-validation.ts:512-640 | the verdict on a locked run depends only on what the tests answer for its events, on there being targets and on the budget |
| `Discipline.RepeatsFollowFirstPass` | scripts/lib/aionis-real-ab-validation.ts:612-624 | repeat-validation violations are exactly the passing actions strictly after the reported first acceptance pass |
| `Discipline.ViolationsExtend` | scripts/lib/aionis-real-ab-validation.ts:573-625 | the per-event violations of a trace are a prefix of those of every extension |
| `Discipline.ViolationsArePermanent` | scripts/lib/aionis-real-ab-validation.ts:512-640 | every violation but the missing target is found again, unchanged, on every extension of the trace |
| `Discipline.OnlyMissingTargetHeals` | scripts/lib/aionis-real-ab-validation.ts:512-640 | a failing run that a continuation turns into a passing one had the missing target as its only violation, and the continuation acts on a target |
| `Discipline.HealingStepIff` | scripts/lib/aionis-real-ab-validation.ts:512-640 | exactly which single event heals a run that only lacks a target action |
| `Discipline.NoWrongTouchesIff` | scripts/lib/aionis-real-ab-validation.ts:685-692 | derived wrong-file touches are zero iff no event expands beyond the targets |
| `Discipline.ExpansionsBoundedByWrongTouches` | scripts/lib/aionis-real-ab-validation.ts:475-480 | over any trace, non-target expansions never outnumber the derived wrong-file touches |
| `Measure.LastVerifierDecides` | scripts/lib/aionis-real-ab-validation.ts:652-659 | a verifier event at the end of a trace decides the derived verdict, whatever comes before it |
| `Measure.HarnessEventIsFree` | scripts/lib/aionis-real-ab-validation.ts:702-735 | appending the harness event leaves actions, wasted steps, retries, interventions, wrong touches, tokens and first correct action as they were |
| `Measure.HarnessEventIsInert` | scripts/lib/aionis-real-ab-validation.ts:512-640 | appending the harness event keeps the discipline status and the kind and index of every violation |
| `Measure.FalseConfidenceIff` | scripts/lib/aionis-real-ab-validation.ts:672-683 | on a trace ending with the harness event: a flagged event, or a claim and a failed harness verdict, or a claim refuted by a later agent event |
| `Gate.ReductionIff` | scripts/lib/aionis-real-ab-validation.ts:304-307 | when a percentage reduction reaches a threshold, without division or infinity, for zero and negative bases too |
| `Gate.NoFailuresIff` | scripts/lib/aionis-real-ab-validation.ts:1169-1185 | the list of failed requirements is empty iff every requirement holds |
| `Gate.RunSuite` | scripts/lib/aionis-real-ab-validation.ts:1051-1191 | the report holds every requirement, exactly the failed ones, and passes iff all hold |
| `Gate.SuiteReqsIff` | scripts/lib/aionis-real-ab-validation.ts:1115-1167 | all suite requirements hold iff completion is not lower, false confidence not higher, the efficiency signal there, no negative control authoritative, every positive control sensitive, and the after-exit rate not lower where both exist |
| `Gate.EfficiencyIff` | scripts/lib/aionis-real-ab-validation.ts:1102-1107 | the efficiency signal over the four sums of a suite, without division, null or infinity |
| `Gate.NoWasteIsEfficient` | scripts/lib/aionis-real-ab-validation.ts:1102-1104 | with no wasted step on either side the signal is there, whatever the thresholds and with no reduction of anything |
| `Gate.TaskResultAt` | scripts/lib/aionis-real-ab-validation.ts:1053-1053 | results stand in task order, each built from its own task |
| `GateTheorems.RateMonotone` | scripts/lib/aionis-real-ab-validation.ts:284-287 | a rate never falls when values only turn true |
| `GateTheorems.RateIsOneIff` | scripts/lib/aionis-real-ab-validation.ts:284-287 | a rate is one iff there are values and all are true, and is never more |
| `GateTheorems.TaskPassesIff` | scripts/lib/aionis-real-ab-validation.ts:955-996 | a task passes iff its six groups of requirements do |
| `GateTheorems.OutcomeReqsIff` | scripts/lib/aionis-real-ab-validation.ts:962-996 | the outcome requirements as implications between the arms' metrics |
| `GateTheorems.SemanticsReqsIff` | scripts/lib/aionis-real-ab-validation.ts:350-390 | which memory modes, authorities and packet sources the four arms must have |
| `GateTheorems.FairnessReqsIff` | scripts/lib/aionis-real-ab-validation.ts:337-348 | fairness passes iff every entry is true |
| `GateTheorems.MeasurementReqsIff` | scripts/lib/aionis-real-ab-validation.ts:792-805 | measurement passes iff every arm has metrics or a trace |
| `GateTheorems.LiveEvidenceReqsIff` | scripts/lib/aionis-real-ab-validation.ts:817-904 | outside calibration the live evidence of every arm is required |
| `GateTheorems.PassingTask` | scripts/lib/aionis-real-ab-validation.ts:935-996 | what a passing task says of its arms: treatment not worse, positive control sensitive, negative control without authority, after-exit true where required |
| `GateTheorems.PassingOutcome` | scripts/lib/aionis-real-ab-validation.ts:959-996 | the outcome part of a passing task, arm by arm |
| `GateTheorems.GateDecomposition` | scripts/lib/aionis-real-ab-validation.ts:1051-1191 | the gate passes iff the suite is not empty, every task passes, the efficiency signal is there and the after-exit clause holds; the other four suite requirements follow |
| `GateTheorems.AfterExitClauseFollows` | scripts/lib/aionis-real-ab-validation.ts:1158-1167 | the after-exit clause follows too when the treatment has an after-exit verdict only on tasks that ask for one |
| `GateTheorems.LockedTreatmentMustComply` | scripts/lib/aionis-real-ab-validation.ts:906-933 | outside calibration a locked treatment passes only on a trace whose discipline status is pass; supplied metrics alone never do |
| `GateTheorems.NoContinuationRescues` | scripts/lib/aionis-real-ab-validation.ts:512-640 | one permanent violation on a prefix of a locked treatment's trace keeps the suite gate shut for every continuation |
| `GateTheorems.ReductionMonotone` | scripts/lib/aionis-real-ab-validation.ts:304-307 | a lower cost after keeps a reduction at its threshold, null and minus infinity included |
| `GateTheorems.GateMonotone` | scripts/lib/aionis-real-ab-validation.ts:1051-1191 | replacing the treatment metrics of any number of tasks by no worse ones, with the same nulls, never shuts a passing gate; the other tasks may have traces only |
| `TraceCapture.ValidateTraceCapture` | scripts/lib/aionis-real-ab-trace-capture.ts:93-187 | the nested loops push exactly the requirements of every task and arm, in order |
| `TraceCapture.PushRunReqs` | scripts/lib/aionis-real-ab-trace-capture.ts:114-183 | the inner loop, over the arms of one task |
| `TraceCapture.ArmRunReqsIff` | scripts/lib/aionis-real-ab-trace-capture.ts:114-183 | a run passes iff it is there with a run id, events, a verifier, and the probe, after-exit and fresh-shell evidence its task asks for |
| `TraceCapture.LiveEvidenceOfArmIff` | scripts/lib/aionis-real-ab-validation.ts:817-904 | the gate asks the same of a compiled trace |
| `TraceCapture.LiveEvidenceIffCapture` | scripts/lib/aionis-real-ab-trace-capture.ts:189-244 | on a compiled task the gate's evidence requirements pass iff the capture's requirements do |
| `TraceCapture.CaptureReqsIff` | scripts/lib/aionis-real-ab-trace-capture.ts:93-187 | the whole validator as a condition on version, kind and tasks |
| `TraceCapture.ValidCaptureCompiles` | scripts/lib/aionis-real-ab-trace-capture.ts:200-254 | compiling a valid capture never throws |
| `TraceCapture.CompiledEvidenceIff` | scripts/lib/aionis-real-ab-trace-capture.ts:246-254 | a compiled capture is valid iff version and kind are and the gate finds complete live evidence in every task |
| `DogfoodCapture.LastProbeWins` | scripts/lib/aionis-real-ab-dogfood-capture.ts:54-56 | lookup by probe id finds the last probe with that id |
| `DogfoodCapture.ValidatePairedCapture` | scripts/lib/aionis-real-ab-dogfood-capture.ts:69-163 | the nested loops push exactly the requirements of every arm and selected probe, in order |
| `DogfoodCapture.ProbeReqsIff` | scripts/lib/aionis-real-ab-dogfood-capture.ts:122-159 | what the validator asks of one probe of one arm |
| `DogfoodCapture.VerifierEvent` | scripts/lib/aionis-real-ab-dogfood-capture.ts:176-189 | the harness event is a verifier event without agent marks, external exactly for visible probes, signed for its probe, in a fresh shell, with the probe's verdict, after-exit expectation and text |
| `DogfoodCapture.HarnessPassIsAcceptancePass` | scripts/lib/aionis-real-ab-dogfood-capture.ts:176-189 | the text of the harness event begins with the probe's command, so a passed probe is an acceptance pass for a task that checks that command |
| `DogfoodCapture.SignatureIff` | scripts/lib/aionis-real-ab-dogfood-capture.ts:171-174 | signatures of one probe id are equal iff the slices are |
| `DogfoodCapture.PairedCaptureCompilesIff` | scripts/lib/aionis-real-ab-dogfood-capture.ts:203-263 | compilation throws iff for some selected probe some arm lacks its run, its agent events or the probe with diagnostics |
| `DogfoodCapture.CompiledCaptureCompiles` | scripts/lib/aionis-real-ab-trace-capture.ts:200-254 | what a paired capture compiles to always compiles again |
| `DogfoodCapture.CompiledRunOf` | scripts/lib/aionis-real-ab-dogfood-capture.ts:191-252 | a compiled run is the agent's events followed by the arm's own harness event, under the treatment's verifier, with a run id |
| `DogfoodCapture.HarnessEvidenceIff` | scripts/lib/aionis-real-ab-dogfood-capture.ts:176-201 | which evidence requirements the harness event meets, and when an agent event is needed |
| `DogfoodCapture.ValidPairedCaptureCompiles` | scripts/lib/aionis-real-ab-dogfood-capture.ts:254-263 | compiling a valid paired capture never throws |
| `DogfoodCapture.CompiledCaptureValidIff` | scripts/lib/aionis-real-ab-dogfood-capture.ts:203-263 | the compiled capture is valid iff for every selected probe each arm's evidence agrees with what the treatment's probe asks for |
| `Assembler.ValidateAssemblerInputs` | scripts/lib/aionis-real-ab-live-evidence-assembler.ts:407-504 | header, fairness-manifest and per-arm requirements, in order, the last from nested loops over arms and loaded probes |
| `Assembler.ValidateFairnessManifest` | scripts/lib/aionis-real-ab-live-evidence-assembler.ts:198-371 | the requirements of the fairness manifest, packet sources from a loop over the arms, none without a manifest |
| `Fairness.FrozenReqsIff` | scripts/lib/aionis-real-ab-live-evidence-assembler.ts:198-371 | the whole validator of the fairness manifest as a condition on the manifest, the arms' environments, provenances and packet sources |
| `Fairness.SameStringSetIff` | scripts/lib/aionis-real-ab-live-evidence-assembler.ts:135-140 | two id lists are the same set iff they have the same members: comparing sizes and one inclusion suffices |
| `Fairness.MaybeSameIffArmsAgree` | scripts/lib/aionis-real-ab-live-evidence-assembler.ts:131-145 | a value may be the same iff any two arms that record it record the same; arms that do not record it are not compared |
| `Fairness.PinnedOrSameIff` | scripts/lib/aionis-real-ab-live-evidence-assembler.ts:252-292 | a pinned value must be every arm's; an unpinned one must agree where recorded |
| `Fairness.ArmsStartFromSameFiles` | scripts/lib/aionis-real-ab-live-evidence-assembler.ts:307-314 | when the fairness manifest passes, any two arms that recorded a workspace fingerprint started from trees that show the same files, absent a collision |
| `Assembler.ValidInputsAssemble` | scripts/lib/aionis-real-ab-live-evidence-assembler.ts:523-542 | assembling valid inputs never throws |
| `Assembler.AssembledCaptureValidIff` | scripts/lib/aionis-real-ab-live-evidence-assembler.ts:407-542 | after the assembler's checks the paired capture is valid iff every arm's run holds a complete probe for every selected id |
| `Verdict.ValidatorsCompose` | scripts/lib/aionis-real-ab-dogfood-capture.ts:69-263 | from a valid paired capture with agreeing probes both compilations succeed, the trace capture is valid, and the gate's evidence, fairness and measurement requirements pass |
| `Verdict.SameProbesAgree` | scripts/lib/aionis-real-ab-dogfood-capture.ts:165-201 | equal slices and after-exit expectations across the arms suffice for agreement |
| `Verdict.PipelineTask` | scripts/lib/aionis-real-ab-live-evidence-assembler.ts:506-542 | every arm of every task that comes out of assemble, compile, compile is that arm's recorded events plus one harness event of the probe its id names, with costs as the only outcome |
| `Verdict.OutcomeOfRun` | scripts/lib/aionis-real-ab-dogfood-capture.ts:236-252 | a compiled run is the arm's agent events and its own harness event, without times, with the outcome given for its probe |
| `TaskVerdict.OriginOfTask` | scripts/lib/aionis-real-ab-dogfood-capture.ts:203-234 | a compiled task takes its fairness from the capture, and its verifier, target files and acceptance check from the treatment's probe |
| `Verdict.ProbeDecidesVerdict` | scripts/lib/aionis-real-ab-validation.ts:652-659 | for any recorded agent events, verifier verdict and completion both equal the arm's probe result |
| `Verdict.AfterExitIff` | scripts/lib/aionis-real-ab-validation.ts:661-670 | after-exit correctness of an assembled arm, exactly |
| `Verdict.AfterExitIsTheProbe` | scripts/lib/aionis-real-ab-validation.ts:661-670 | with agreeing probes a passed probe makes it true, and it equals the probe's result when no agent event carries the verifier's signature |
| `Verdict.FalseConfidenceOfArm` | scripts/lib/aionis-real-ab-validation.ts:672-683 | false confidence of an assembled arm in terms of agent events and the probe's result |
| `Verdict.CompiledWorkIsTheAgents` | scripts/lib/aionis-real-ab-dogfood-capture.ts:191-201 | discipline status, violations and every count of work are those of the agent's events alone |
| `Verdict.CostsOfArm` | scripts/lib/aionis-real-ab-live-evidence-assembler.ts:388-405 | through the pipeline, time is the non-negative duration of the LLM run for this very probe or missing, and tokens are those its output tells or else the sum over the agent's events |
| `Verdict.SemanticsIffManifest` | scripts/lib/aionis-real-ab-live-evidence-assembler.ts:506-542 | on an assembled suite the gate's arm-semantics requirements pass iff the manifest gives the four arms the required memory modes, authorities and packet sources |
| `Verdict.TaskOrderIsFixed` | scripts/lib/aionis-real-ab-dogfood-capture.ts:58-63 | the tasks stand in one order however distinct ids were listed, when no two of them tie |
| `Verdict.AssembledGateIff` | scripts/lib/aionis-real-ab-validation.ts:1051-1191 | on an assembled suite the gate passes iff the suite is not empty, every task passes and the efficiency signal is there |
| `Verdict.PassingGateProves` | scripts/lib/aionis-real-ab-validation.ts:935-996 | a passing gate proves, for every task and any agent events, that the treatment's probe passed wherever the baseline's did, that on after-exit tasks it passed or an agent event has every mark of an after-exit proof, and that no negative control held authority |
| `TaskVerdict.AssembledTaskPassesIff` | scripts/lib/aionis-real-ab-validation.ts:935-1022 | a task of an assembled suite passes iff its inputs hold: fairness and settings of the manifest, evidence of every arm, discipline of a locked treatment on the agent's events, probes, claims and first actions, survival of exit |
| `TaskVerdict.AssembledGatePassesIff` | scripts/lib/aionis-real-ab-validation.ts:1051-1191 | the gate on an assembled suite passes iff there is a task, the inputs behind every task hold, and there is an efficiency signal |
| `Improvement.PipelineSucceedsIff` | scripts/lib/aionis-real-ab-live-evidence-assembler.ts:506-542 | assembly and both compilations succeed iff every arm is in the manifest and loaded and holds the probe with diagnostics of every task |
| `Improvement.BetterProbesKeepTheGate` | scripts/lib/aionis-real-ab-validation.ts:1051-1191 | when any number of treatment probes turn to passed and all else stays, a suite that passed the gate still assembles and passes |
| `Sample.SomeEvidencePasses` | scripts/lib/aionis-real-ab-validation.ts:1051-1191 | concrete evidence that passes the assembler's validator, all compilations and the gate, whatever the text tests, order and token parser: what the theorems on passing gates assume can happen |
| `Sample.ValidCaptureTurnsInvalid` | scripts/lib/aionis-real-ab-dogfood-capture.ts:203-263 | concrete evidence: a valid paired capture whose compiled trace capture fails its validator |
| `Sample.AgentVouchesForExit` | scripts/lib/aionis-real-ab-validation.ts:661-670 | concrete evidence: the gate passes although the treatment's probe failed on an after-exit task, through one agent event |
| `Sample.FrozenPromisesLess` | scripts/lib/aionis-real-ab-live-evidence-assembler.ts:198-504 | concrete evidence that the whole assembler accepts under a fairness manifest, with no workspace hash recorded and different verifier workspaces |
| `Ordering.SortSorts` | scripts/lib/aionis-real-ab-llm-runner.ts:411-411 | sorting by a preorder leaves names in order |
| `Ordering.SortKeepsBefore` | scripts/lib/aionis-real-ab-llm-runner.ts:411-411 | of two names in order, or tied, the one in front stays in front |
| `Ordering.SortedIsUnique` | scripts/lib/aionis-real-ab-llm-runner.ts:409-411 | without ties there is one sorted list of a set of names |
| `Ordering.SortIgnoresOrderIff` | scripts/lib/aionis-real-ab-llm-runner.ts:409-411 | the sorted list does not depend on the order of the unsorted one iff no two names tie |
| `Fingerprint.EntriesIgnoreOrderIff` | scripts/lib/aionis-real-ab-llm-runner.ts:409-411 | the entries of a directory are the same in whatever order it is read iff no two of its visible names tie |
| `Fingerprint.Walk.Visit` | scripts/lib/aionis-real-ab-llm-runner.ts:408-430 | for any order of names and of reading, the recursive visit appends exactly the records of the files it lists and adds their number and total length to the counters |
| `Fingerprint.Walk.VisitEntries` | scripts/lib/aionis-real-ab-llm-runner.ts:412-429 | the loop over the entries of a directory |
| `Fingerprint.Walk.VisitEntry` | scripts/lib/aionis-real-ab-llm-runner.ts:413-428 | one turn of the loop: descend, skip, or take one record in |
| `FingerprintTheorems.ParseDecimalInverts` | scripts/lib/aionis-real-ab-llm-runner.ts:424 | the printed length reads back as the length |
| `FingerprintTheorems.DecodeStream` | scripts/lib/aionis-real-ab-llm-runner.ts:421-426 | the decoder undoes the stream of any list of files whose paths hold no NUL, whatever the contents |
| `FingerprintTheorems.PathTextInjective` | scripts/lib/aionis-real-ab-llm-runner.ts:414 | different paths of valid names have different texts |
| `FingerprintTheorems.FilesIff` | scripts/lib/aionis-real-ab-llm-runner.ts:408-430 | in whatever order directories are read, the walk lists a file iff lookup from the root finds it with no ignored name on the way |
| `FingerprintTheorems.SameFilesSameListing` | scripts/lib/aionis-real-ab-llm-runner.ts:408-430 | trees that show the same files are listed alike when no two siblings with files tie; empty directories, special and ignored entries do not matter |
| `FingerprintTheorems.SameStreamSameFiles` | scripts/lib/aionis-real-ab-llm-runner.ts:400-441 | two trees with one stream show the same file, or none, at every path, for any order of names and of reading |
| `FingerprintTheorems.StreamIdentifiesTree` | scripts/lib/aionis-real-ab-llm-runner.ts:400-441 | when no two siblings with files tie, two trees have equal streams iff at every path they show the same file or none |
| `ReadOrder.FilesAreDistinct` | scripts/lib/aionis-real-ab-llm-runner.ts:408-430 | no file is listed twice |
| `ReadOrder.StreamIgnoresOrderIff` | scripts/lib/aionis-real-ab-llm-runner.ts:400-441 | the stream of a tree does not depend on the order in which its directories are read iff no two siblings with files tie, at any depth |
| `ReadOrder.SpellingsShow` | scripts/lib/aionis-real-ab-llm-runner.ts:409-411 | concrete directory: two spellings that compare as equal give two streams |
| `FingerprintTheorems.CountersMatchRecords` | scripts/lib/aionis-real-ab-llm-runner.ts:427-428 | the counters are the number and total length of the decoded records |
| `Workspace.ComputeFingerprint` | scripts/lib/aionis-real-ab-llm-runner.ts:400-441 | a missing root has no fingerprint; otherwise hash and counters are those of the files listed with the runner's ignored names |
| `Workspace.EqualHashesShowSameFiles` | scripts/lib/aionis-real-ab-llm-runner.ts:400-441 | absent a collision, workspaces with equal hashes show the same files |
| `Workspace.SameFilesEqualFingerprints` | scripts/lib/aionis-real-ab-llm-runner.ts:400-441 | workspaces that show the same files have equal fingerprints when no two siblings with files tie |
| `ShellQuote.ScanQuote` | scripts/lib/aionis-real-ab-live-evidence-arm-run-packet.ts:49-52 | a quoted word is read as that word, whatever follows |
| `ShellQuote.TokenizeInverts` | scripts/lib/aionis-real-ab-live-evidence-arm-run-packet.ts:49-56 | tokenizing the command of any list of words returns the list: empty words, quotes, blanks, newlines |
| `ShellQuote.FlagAppends` | scripts/lib/aionis-real-ab-llm-runner.ts:454-457 | appending a plain flag and a quoted path to a command adds exactly two words |
| `ShellQuote.WorkspaceRootAppends` | scripts/lib/aionis-real-ab-llm-runner.ts:792-794 | the workspace-root flag of the runner does |
| `EventRecorder.NoErrorsIff` | scripts/lib/aionis-real-ab-live-evidence-event-recorder.ts:47-78 | exactly which drafts have no error |
| `EventRecorder.FinalizeEvent` | scripts/lib/aionis-real-ab-live-evidence-event-recorder.ts:80-107 | the field by field construction succeeds iff the draft is valid, and then cleans text, command and files and keeps every other field |
| `EventRecorder.FinalizeTwice` | scripts/lib/aionis-real-ab-live-evidence-event-recorder.ts:80-107 | finalising again changes nothing iff the draft did not name blank files only; otherwise it drops the empty list, or throws iff there is no text and no command |
| `EventRecorder.ActionsFinalizeTwice` | scripts/lib/aionis-real-ab-live-evidence-event-recorder.ts:64-69 | for actions and tool calls the second call never throws |
| `EventRecorder.BlankFilesThrow` | scripts/lib/aionis-real-ab-live-evidence-event-recorder.ts:92-94 | a concrete draft that finalises to an event which does not |
| `EventRecorder.ApplyAttemptToEvents` | scripts/lib/aionis-real-ab-llm-runner.ts:1031-1044 | the loop over an attempt's events is the fold that stops at the first throw |
| `EventRecorder.FoldOkIff` | scripts/lib/aionis-real-ab-llm-runner.ts:1035-1042 | applying succeeds iff there are no events, or the probe id is not blank and every event finalises |
| `EventRecorder.FoldAppends` | scripts/lib/aionis-real-ab-live-evidence-event-recorder.ts:109-127 | applying appends the finalised events in order to their probe and leaves every other list |
| `EventRecorder.AttemptAppends` | scripts/lib/aionis-real-ab-llm-runner.ts:1031-1044 | an attempt whose drafts named no blank-only files is appended exactly as it stands |
| `EventRecorder.AttemptThrowsIff` | scripts/lib/aionis-real-ab-llm-runner.ts:1031-1044 | applying an attempt throws iff some draft was nothing but blank file names |
| `AgentOutput.Normalize` | scripts/lib/aionis-real-ab-llm-runner.ts:673-685 | the given record is changed in place, or a fresh one made; its lists are the merged ones |
| `AgentOutput.NormalizeTimes` | scripts/lib/aionis-real-ab-llm-runner.ts:673-685 | after n calls the shared record holds the original list and n copies of the events, other lists unchanged |
| `AgentOutput.SecondCallAgreesIff` | scripts/lib/aionis-real-ab-llm-runner.ts:992-993 | the runner's second call sees what the parser validated iff a field is missing, the events are empty or go to another probe; otherwise they are there twice |
| `AgentOutput.BothFieldsDouble` | scripts/lib/aionis-real-ab-llm-runner.ts:992-993 | concrete output: one event given in both ways is once in the parser's list and twice in the runner's |
| `AgentOutput.CheckEvents` | scripts/lib/aionis-real-ab-llm-runner.ts:746-756 | the parser accepts iff there are events, an action among them, and each finalises |
| `AgentOutput.ParseThenRun` | scripts/lib/aionis-real-ab-llm-runner.ts:977-997 | parse and run fail on a list the parser rejects; otherwise they give the finalised events of the second list, unless one of them runs the harness's verifier and that is not allowed |
| `StreamTail.TailOfTail` | scripts/lib/aionis-real-ab-llm-runner.ts:384-386 | cutting before the next chunk loses nothing of the final tail |
| `StreamTail.TailIsSuffix` | scripts/lib/aionis-real-ab-llm-runner.ts:384-386 | the tail is the one suffix of length min(limit, total) |
| `StreamTail.Capture.OnStdout` | scripts/lib/aionis-real-ab-llm-runner.ts:889-892 | a chunk of standard output extends the whole output and its tail |
| `StreamTail.Capture.OnStderr` | scripts/lib/aionis-real-ab-llm-runner.ts:893-895 | a chunk of error output extends the tail only |
| `StreamTail.Collect` | scripts/lib/aionis-real-ab-llm-runner.ts:889-895 | for any split and interleaving each tail is the tail of its whole output |
| `Profile.FlattenProfile` | scripts/lite-real-task-benchmark.ts:764-778 | the recursive loop pushes exactly the leaves in order, under their dotted keys |
| `Profile.FlattenIsInjective` | scripts/lite-real-task-benchmark.ts:764-778 | with non-empty, dot-free keys no two leaves share a dotted key |
| `Profile.FlattenedKeyLooksUp` | scripts/lite-real-task-benchmark.ts:764-778 | with such keys every dotted key leads back to its own leaf |
| `Profile.HardAndSoftPartition` | scripts/lite-real-task-benchmark.ts:809-815 | for any baseline the hard and soft lists are the changed keys shared out by policy level, each with its multiplicity |
| `Profile.EvaluateRegressionGate` | scripts/lite-real-task-benchmark.ts:836-904 | the reasons in order, and no gate when nothing was requested |
| `Profile.GateOkIff` | scripts/lite-real-task-benchmark.ts:854-903 | the gate is ok iff nothing that was asked for regressed |
| `Profile.SelfDriftIff` | scripts/lite-real-task-benchmark.ts:800-808 | a profile drifts from itself at a key iff two leaves with that key print differently |
| `Profile.SelfComparisonIsCleanIff` | scripts/lite-real-task-benchmark.ts:780-834 | a result against itself: no changed key iff leaves with one key print alike, no status change iff scenarios with one id have one status, zero deltas iff they have one score |
| `Profile.SelfComparisonPassesIff` | scripts/lite-real-task-benchmark.ts:836-904 | a result against itself passes the requested gate iff it is consistent in what that gate asks for |
| `Profile.ValidResultsAreConsistent` | scripts/lite-real-task-benchmark.ts:780-904 | results with non-empty dot-free keys and distinct scenario ids pass every gate against themselves |
| `Profile.DottedKeyDrifts` | scripts/lite-real-task-benchmark.ts:800-808 | a profile with a dotted key that reports drift against itself |
| `Mulberry.Generator.Next` | src/embeddings/fake.ts:7-12 | a draw moves the captured counter by the increment, rounded to a number, and scales the scrambled word |
| `Mulberry.Fill` | src/embeddings/fake.ts:19-21 | entry i is the draw at the rounded counter after i + 1 calls |
| `Mulberry.FakeEmbed` | src/embeddings/fake.ts:15-22 | every entry lies in [-1, 1), and as long as the counter stays exact it is k / 2^31 - 1 for the k that a 32-bit wrapping generator draws |
| `Mulberry.SmallEmbeddingsStayExact` | src/embeddings/fake.ts:15-22 | the counter stays exact for every seed and up to 4917756 entries, the default 1536 among them |
| `Mulberry.LongEmbeddingsDrift` | src/embeddings/fake.ts:15-22 | from 4917760 entries on the counter of every seed has left the 32-bit one |
| `Mulberry.MixReadsResidue` | src/embeddings/fake.ts:9-11 | a draw depends on the counter only modulo 2^32 |
| `Mulberry.CounterAgrees` | src/embeddings/fake.ts:8-8 | in exact arithmetic the unreduced counter and the 32-bit one agree modulo 2^32 after any number of calls |
| `Mulberry.AgreesIff` | src/embeddings/fake.ts:8-8 | the rounded counter agrees with the 32-bit one at every call up to n iff no counter before the n-th exceeds 2^53 and the n-th does not or is even |
| `Mulberry.DrawAgrees` | src/embeddings/fake.ts:7-12 | while the counter stays exact both generators draw the same numbers |
| `Mulberry.CountersMeetIff` | src/embeddings/fake.ts:8 | two counters meet modulo 2^32 iff the calls are a multiple of 2^32 apart |

## Left out

- Files, processes, sockets, clocks and HTTP: the model starts from loaded values; what a directory read gives is a parameter, and a fault of the file system, or a change to it during the walk, is not modelled.
- Regular expressions for edits, discovery, skill reads, pass texts, evidence files and harness commands: arbitrary predicates on the text of an event, a file name or a command; the conjuncts around them are explicit. Of an arm's notes only what the text test for manual hints finds in them is kept.
- SHA-256, `localeCompare`, the token-usage parser and `JSON.stringify`: parameters; the hash is known only by the stream it is fed.
- `Profile.Compare` and the 39 hard profile keys: the policy level of a key is a parameter, because no property depends on which keys are listed. A profile value that JSON cannot express (`undefined`) is not modelled.
- Floating point: figures are real numbers, without rounding, NaN or an infinity read from JSON; minus infinity as a reduction is modelled. The mulberry counter is rounded as a number is.
- The seed is a 32-bit word; reading it from the digest of the text is not modelled.
- Requirement texts: identifiers are a subject and a check, and the fields `actual`, `expected` and `message` are omitted, as are violation details and the severity, which is always severe.
- A task without one of its arms: the suite runner dereferences it and throws before any requirement is reported; earlier stages model a missing arm.
- Malformed JSON beyond missing fields: a field has its declared type where it is present, except that an event kind may be anything. The parsing of agent output text is not modelled, nor is lookup of a probe id that names a property every JavaScript object inherits.
- `ShellQuote.TokenizeInverts`: the tokenizer covers quoting, escapes and blanks, and returns None on operators, expansions, globs and comments; that a shell takes a leading word with an equals sign for an assignment is not modelled.
- Deltas, task families, first-correct-action rates, proof boundaries: fields that are copied or printed and that no requirement reads.
- Readiness report, bundle templates, arm-run packet text, prompts, Markdown rendering: field copying and strings.
- Benchmark scenarios, routes, stores, governance clients, configuration and telemetry: they call code outside this model.
