# A verified model of the workflow engine

The Go server drives workflow runs through a graph of nodes, pauses them for people, and
talks to channels and preview browsers.  This project models the parts whose correctness
does not show in any one function and proves them with Dafny:

- **Runs** (`ExecSlot`, `RunStore`, `RunLocal`, `RunStatus`, `RunAttended`, `RunProtocol`, `RunHistory`,
  `RunTraces`, `GateResume`, `GateLaws`, `GateContinue`, `GateEnd`, `GateTraces`, `Recovery`): many
  goroutines act on one run.  The model is a transition system whose steps are the mutex sections
  and guarded writes of the code; the results hold over all interleavings.
- **Admission** (`ClaimOrder`, `Dispatcher`, `ClaimLaws`, `Reachability`): which queued run goes
  first, and what draining the queue does.
- **Routing** (`Workflow`, `Routing`, `RoutingLaws`, `VarState`, `FsmTermination`, `FsmForever`): the
  next node, rollbacks, retries, the variables, why the loop over the graph ends, and exactly when
  it need not.
- **Guards and templates** (`Text`, `TextLaws`, `Expr`, `Tokenizer`, `GuardEval`, `GuardAst`,
  `GuardSame`, `GuardPrint`, `GuardLaws`, `Interpolate`): the evaluator that computes
  while it parses, and the template loop.
- **Gate context** (`PathSummary`, `PageHistory`): the path a gate shows, the revisions of a page.
- **Channels** (`PushQueue`, `PushLaws`, `PushSafety`, `ConvQueue`, `Progress`): the push queue, one
  conversation's messages, and progress events from a stream that arrives twice.
- **Preview tabs** (`TabPool`): counters, caps, eviction and teardown.

Loops and objects are written as methods and classes, proved against functions whose own
properties are then proved as lemmas; the modules named after laws say what those functions mean
to a caller, case by case.  `Lists` holds the shared searches.  Randomness, clocks, the database,
the browser and node execution enter as parameters: a time, an identifier, an outcome.

What the code does not do, although a comment or a name suggests it, is stated as exactly as
what it does.  Each of these concrete cases stands next to the theorem that says, for all
inputs or traces, when the expected property holds:

- `RunningWithoutASlot`, `PausedTooLate`, `ClearedWhileRunning`: `RunProtocol.AttendedAlways`
- `DeadVisitRevived`: `RunProtocol.VisitsNeverRevive`
- `ResumePointCanBeLost`: `RunProtocol.ResumableAlways`
- `ProposalFailureStrands`, `ProposalFailureLeavesItRunning`: `GateContinue.NeverLost`
- `EditContinuesTwice`, `BothContinue`: `GateResume.AtMostOneContinuation`
- `DialogueRevivesACancelledRun`, `CancelledCanBeRevived`: `GateEnd.CalmStep`, `GateEnd.EndedUntilRetry`
- `AnOlderFailureCanWin`: `Recovery.PicksTheLatestFailure`
- `UnguardedFailureEdgeWins`: `Routing.SuccessLeavesOtherwise`
- `UncappedRollbackNeverEnds`: `FsmForever.RunsForeverExactly`
- `SelfReferringVariable`: `Interpolate.OnePassExactly`
- `EmptyIdCutsTheRoute`: `PathSummary.WholeRouteExactly`
- `OneTooManyAhead`: `ConvQueue.AheadIsExactInATurn`
- `PathOfMissingArtifactIsAnError`: `GuardSame.SameTreeExactly`
- `WrapDropsANewerClaim`: `ExecSlot.LateEndIsHarmless`

`dafny verify dfyconfig.toml` checks everything.

## Model

| member | source | states |
|---|---|---|
| ExecSlot.ExecTable.BeginExecute | server/internal/engine/execute.go:181-190 | a claim succeeds exactly on a free slot, hands out the next generation, and touches no other run |
| ExecSlot.ExecTable.EndExecute | server/internal/engine/execute.go:192-200 | ending frees the slot only for the generation that holds it |
| ExecSlot.ExecTable.ForceEndExecute | server/internal/engine/execute.go:202-208 | force-clearing frees a held slot and moves to a generation nobody holds |
| ExecSlot.ExecTable.IsExecOwner | server/internal/engine/execute.go:215-219 | ownership is a held slot showing the caller's generation |
| ExecSlot.GoodAlways | server/internal/engine/execute.go:181-208 | over every interleaving of claims, ends and force-clears: the counter shows the number of bumps, every live ticket was handed out, and a held slot belongs to the newest ticket |
| ExecSlot.LateEndIsHarmless | server/internal/engine/execute.go:192-219 | a driver that was force-cleared and ends late leaves a newer claim alone, and fails the ownership test, exactly when it is not a multiple of 2^64 generations behind |
| ExecSlot.AtMostOneOwner | server/internal/engine/execute.go:215-219 | of all live drivers only the holder of the newest ticket passes the ownership test, in every history of at most 2^64 events |
| ExecSlot.GenerationsIncrease | server/internal/engine/execute.go:181-190 | a new claim is numbered above all earlier ones exactly until the uint64 counter wraps |
| ExecSlot.WrapDropsANewerClaim | server/internal/engine/execute.go:192-200 | after 2^64 events the counter does wrap, and there a late end takes the slot from a newer live driver |
| RunStore.Store.EnqueueAdmission | server/internal/engine/dispatcher.go:202-233 | status and continue node are written together, and only on a running run when that is asked for |
| RunStore.Store.ClearAdmissionFrom | server/internal/engine/dispatcher.go:271-285 | the continue node is dropped and nothing else changes |
| RunStore.Store.AdmitRunDirect | server/internal/engine/dispatcher.go:235-254 | a run is admitted unless it is already running, and its continue node is consumed |
| RunStore.Store.SaveState | server/internal/engine/node_req.go:178-239 | the scan for the visit and the status guards give exactly the guarded update, for every table |
| RunStore.SaveContinues | server/internal/engine/node_req.go:178-239 | no save revives a failed or cancelled visit, renumbers one, or adds a row for a visit that exists |
| RunStore.LoadIterations | server/internal/engine/execute.go:138-153 | numbering resumes at the recorded maximum of every node |
| RunStore.MaxIsMax | server/internal/engine/execute.go:138-153 | that maximum bounds every recorded iteration and is one of them |
| RunStore.OpenNextIsFresh | server/internal/engine/execute.go:64-79 | opening the visit after the maximum never repeats a (node, iteration) pair |
| RunLocal.SlotsFollow | server/internal/engine/execute.go:243-268 | every step of a run changes the slots in use by exactly what it acquires or releases |
| RunLocal.OwnedStep | server/internal/engine/execute.go:181-219 | every step keeps: generations unshared, the current generation held, a held slot owned by a live driver |
| RunLocal.NumberedStep | server/internal/engine/execute.go:292-328 | every step, saves by gate resumes and dialogue confirmations (resume.go:173, 544, 559) included, keeps: no (node, iteration) pair twice, and the loaded owner numbers from the recorded maximum |
| RunLocal.ContinuesStep | server/internal/engine/node_req.go:178-271 | a step, by whichever writer of visits, keeps the visits in place and failed or cancelled ones dead exactly when it does not save a row that was read alive over a visit that is dead by now |
| RunLocal.LateReturnIsInert | server/internal/engine/execute.go:312-328 | a driver whose slot was force-cleared while its node ran neither saves nor picks a next node |
| RunLocal.ClearedDriverIsInert | server/internal/engine/execute.go:275-402 | a force-cleared driver never owns the run again and changes nothing of it, except that a panic still fails it and an ended loop still completes it |
| RunStatus.EntersExactly | server/internal/engine/execute.go:233-400 | a run takes on each status exactly by its causes: completed when a driver through with its nodes finds it not ended, failed when the owner's node fails for good, a node is not declared or a driver panics, waiting at a pending pause of the owner of a running run, queued when a resume must queue or a claim is waited for in vain, running when claimed or admitted; or when somebody terminates it so |
| RunStatus.QueuedWithItsNode | server/internal/engine/dispatcher.go:160-233 | a run that is queued by a resume, or by a driver that gave up waiting, is claimed later from that node |
| RunStatus.AdmittedWithADriver | server/internal/engine/dispatcher.go:202-254 | an admitted run gets exactly one more driver, for the node of the resume or claim, and keeps no continue node |
| RunStatus.LoadsAndStarts | server/internal/engine/execute.go:269-291 | a driver with the claim starts at the node it was admitted for, with the recorded numbers, unless the run has ended |
| RunStatus.EntersItsNode | server/internal/engine/execute.go:291-312 | the owner opens the visit after the recorded maximum of the node at hand, as running |
| RunStatus.GoesWhereRouted | server/internal/engine/execute.go:329-392 | the owner goes on to the node routing chose, and leaves after any other outcome |
| RunStatus.LeavesExactly | server/internal/engine/execute.go:269-400 | exactly when a driver leaves the loop |
| RunStatus.AlwaysGoesOn | server/internal/engine/execute.go:233-312 | a driver is never stuck, and at a node exactly one of entering, abandoning and failing the run is possible |
| RunStatus.AlwaysEnds | server/internal/engine/execute.go:312-400 | inside a node it returns whatever the outcome, with no node left it ends, owner or not, and then it leaves and is gone |
| RunStatus.LeavesAndIsGone | server/internal/engine/execute.go:192-200 | leaving frees the slot only of the driver that owns the run |
| RunStatus.OtherDriversStay | server/internal/engine/execute.go:233-400 | a step of one driver concerns no other |
| RunStatus.ResumesGoOn | server/internal/engine/dispatcher.go:160-200 | a resume with a slot is admitted exactly when the run is not running, else refused |
| RunStatus.ResumesMove | server/internal/engine/dispatcher.go:160-200 | refused or without a slot it must queue, and it is forgotten exactly when admitted or queued |
| RunStatus.OverwritesExactly | server/internal/engine/node_req.go:178-239 | saveState writes over a live visit anything, over a completed one anything but waiting, over a dead one only failed or cancelled |
| RunStatus.SavesOneVisit | server/internal/engine/node_req.go:178-239 | a save writes the visit of that node and number where it may, no other, and adds one where there is none |
| RunStatus.FinishCloses | server/internal/engine/finish.go:60-71 | a failed or cancelled end closes the visits that were running or waiting, with its own status, and no others; a completion closes none |
| RunStatus.ReturnSavesItsVisit | server/internal/engine/execute.go:312-357 | the owner's return saves the visit it was in with the status of the outcome, and a final failure closes the rest |
| RunStatus.SavedStatus | server/internal/engine/node_req.go:178-239 | a pause leaves its visit waiting, a failure failed |
| RunStatus.VisitsChangeBy | server/internal/engine/execute.go:291-400 | no other steps than these touch a visit |
| RunLocal.ResumableStep | server/internal/engine/dispatcher.go:160-254 | a queued run keeps its recorded node through a step exactly when no driver snapshots a stale checkpoint map over it in that step |
| RunLocal.ClaimDrivesRecordedNode | server/internal/engine/dispatcher.go:115-126 | a claim drives a run from the node recorded for it; the start node serves only runs that were never admitted |
| RunAttended.AttendedStep | server/internal/engine/execute.go:233-400 | a running run keeps a driver at work on it, or an admission scheduled, through a step exactly when the step does not take its last one away: a force-clear of the owner, a failed sandbox setup, or a pause already over |
| RunAttended.AttendedHoldsASlot | server/internal/engine/execute.go:238-268 | a running run so attended, with no admission scheduled, holds a slot, as the comment at execute.go:238-242 promises |
| RunTraces.RunningWithoutASlot | server/internal/engine/execute.go:345-357 | reachable: after a failed sandbox setup the run is left running with no slot, no driver and no admission |
| RunTraces.PausedTooLate | server/internal/engine/execute.go:329-343 | reachable: a pause resolved before its driver looks leaves the run so too, until the resume admits it |
| RunTraces.ClearedWhileRunning | server/internal/engine/resume.go:788-804 | reachable: a run is cancelled inside a node and resumed, and the force-clear of that cancellation comes after the new driver claimed the slot; neither driver goes on, and the run is left so too |
| RunTraces.DeadVisitRevived | server/internal/engine/node_req.go:241-254 | reachable: a flush that read a visit before its run was cancelled saves it as running afterwards |
| RunTraces.ResumePointCanBeLost | server/internal/engine/route.go:153-165 | reachable from a fresh run: two resumes of a failed run, the second queued while the first drives, and the first one's snapshot drops the recorded node |
| RunProtocol.SlotsStep | server/internal/engine/dispatcher.go:43-58 | slots in use stay equal to live drivers plus undecided acquisitions, over all runs and every path |
| RunProtocol.ReleasesHoldASlot | server/internal/engine/dispatcher.go:43-58 | nothing releases a slot that it does not hold |
| RunProtocol.SlotsChange | server/internal/engine/sema.go:44-75 | a slot is taken one at a time and only below the limit, and given back one at a time, by exactly these steps; a limit is at least one, and lowering it takes nothing back |
| RunProtocol.ProtocolSafety | server/internal/engine/execute.go:260-385 | at every moment of every interleaving: slots counted, one owner per run exactly when its slot is held, no visit opened twice |
| RunProtocol.AttendedAlways | server/internal/engine/execute.go:233-400 | every running run is attended at every moment of a trace exactly when no step takes the last driver or admission of a running run away |
| RunProtocol.RunningHoldsASlot | server/internal/engine/execute.go:238-268 | in such a trace every running run without a scheduled admission holds a slot |
| RunProtocol.VisitsNeverRevive | server/internal/engine/node_req.go:178-271 | between any two moments of a trace the visits of every run only grow and dead ones stay dead, exactly when the trace has no such save |
| RunProtocol.ResumableAlways | server/internal/engine/dispatcher.go:160-254 | every queued run stays resumable at its recorded node at every moment of a trace exactly when no step writes a stale checkpoint map over one |
| RunProtocol.ClaimsResumeWhereRecorded | server/internal/engine/dispatcher.go:74-129 | in such a trace every claim of a run admitted before drives it from exactly the node last recorded |
| RunHistory.EveryStatusHasItsCause | server/internal/engine/execute.go:233-400 | over any interleaving, whatever status but queued a run has, a step of its own that is a cause of that status gave it, and it has had it ever since |
| RunHistory.CausesTakeEffect | server/internal/engine/execute.go:233-400 | and such a step gives the run that status at once |
| GateResume.AtMostOneContinuation | server/internal/engine/resume.go:63-108 | the run goes on from each gate visit or dialogue at most once, and none from which it did takes an approver again, at every moment of a trace exactly when no save of a row read open (gate_artifact.go:118, 122; review.go:493, 498; review_session.go:962, 967) hits its latest visit after, or between, resolving and scheduling, and no driver concludes a dialogue whose approver is past its tests |
| GateResume.LocksAlways | server/internal/engine/resume.go:67-74 | under the per-node lock at most one approver at a time is past the tests of a node, on a visit that exists |
| GateResume.UndoneContinuesTwice | server/internal/engine/resume.go:79-108 | from every state in which the latest visit of a node is open and nobody is inside, an approver continues the run from it, however often the run went on from it before |
| GateLaws.EntersExactly | server/internal/engine/finish.go:142-200 | while it pauses for people a run takes on each status exactly by its causes |
| GateLaws.ResolvedExactly | server/internal/engine/resume.go:63-160 | a visit is resolved exactly by its approver's save, its driver's conclusion, or, unless it is a dialogue, the failure or cancellation of the run, and opened again exactly by a reopening or a row saved over it |
| GateLaws.ScheduledExactly | server/internal/engine/resume.go:221-232 | the run goes on from a visit exactly by its approver's schedule or its driver's conclusion |
| GateLaws.PassesExactly | server/internal/engine/resume.go:67-106 | an approver passes its tests exactly when nobody else is past them, the latest visit is open, and the run has not ended, which dialogues do not ask |
| GateLaws.ApproversGoOn | server/internal/engine/resume.go:67-232 | an approver checks the latest visit of its node, resolves that visit, and goes when it is through or gives up |
| GateLaws.AcceptedExactly | server/internal/engine/resume.go:614-629 | a retry is accepted exactly for a failed or cancelled run, or a running one with a failed visit |
| GateLaws.TasksChange | server/internal/engine/resume.go:221-232 | an admission is scheduled exactly by a resume that routes on or by a retry, and goes when it is decided |
| GateLaws.DriversChange | server/internal/engine/dispatcher.go:160-254 | a driver starts exactly by an admission, a claim or a dialogue it concludes, and stops exactly by pausing, giving up or being lost |
| GateLaws.PausesChange | server/internal/engine/execute.go:329-343 | a driver pauses at the node it opened, until its pending test |
| GateLaws.FailedSince | server/internal/engine/execute.go:343-357 | a visit is on record as failed exactly from a failure of a node, a turn, a sandbox or the run on |
| GateLaws.WritersHoldTheirRow | server/internal/engine/gate_artifact.go:58-122 | whoever read a row open saves that row |
| GateLaws.OpenedExactly | server/internal/engine/node_gate.go:15-39 | a pause adds one visit, open, at its node |
| GateContinue.LostStep | server/internal/engine/resume.go:63-160 | a paused or running run loses its last way to continue (a latest visit still open, an approver past the tests, an admission, a driver, or, while it is running, a failed visit to resume from) in a step exactly when the state before it holds no other way and the step is a rejection, a failed selection, a reopening of a visit no longer the latest, the silent exit of the driver, its giving up while the run waits, or the closing of the last open dialogue by a driver that no longer owns the run |
| GateContinue.NeverLost | server/internal/engine/finish.go:101-181 | a run is never lost in a trace exactly when the trace has no such step |
| GateContinue.ContinuableCanContinue | server/internal/engine/resume.go:595-677 | a way to continue is real: from every reachable state that has one, some steps lead to a driver that advances the run; a running run with a failed visit is resumed from it |
| GateContinue.LostForGood | server/internal/engine/resume.go:79-108 | a lost run stays lost exactly until it is terminated, or a driver without ownership opens a pause, or one still answering a dialogue concludes it, or somebody saves a latest visit that was open when read |
| GateContinue.HumanGatesNeverLost | server/internal/engine/resume.go:63-232 | without proposal gates, and with dialogues concluded by approvers, a waiting run is never lost, and a running one only by a driver that leaves silently |
| GateTraces.ProposalFailureStrands | server/internal/engine/resume.go:107-121 | with a proposal gate it happens: a trace that ends waiting with nothing left to continue it |
| GateTraces.ProposalFailureLeavesItRunning | server/internal/engine/resume.go:107-121 | when the pause was resolved before its driver looked, the same failure leaves the run running with nothing left |
| GateTraces.EditContinuesTwice | server/internal/engine/gate_artifact.go:58-122 | reachable: an artifact edit that read the gate open saves it after the approval, and a second approval of the same visit continues the run again |
| GateTraces.BothContinue | server/internal/engine/node_react.go:91-113 | reachable: a driver that answers a dialogue itself concludes it while an approver is past its tests, and both continue the run |
| GateTraces.SandboxFailureIsResumed | server/internal/engine/resume.go:618-677 | a driver that gives up on a sandbox does not lose the run: a resume from the failed visit queues it, and the dispatcher drives it |
| GateEnd.SettledStays | server/internal/engine/finish.go:79-86 | an ended run with nothing under way leaves its end in a step exactly by a retry or by the confirmation of a dialogue still open |
| GateEnd.CalmStep | server/internal/engine/resume.go:81-86 | with no dialogue open either, it leaves that state exactly by a retry or when a driver still at work opens a dialogue, or saves an open row over its latest visit |
| GateEnd.EndedUntilRetry | server/internal/engine/resume.go:81-86 | over any number of steps such a run stays so exactly until one of these |
| GateEnd.DialogueRevivesACancelledRun | server/internal/engine/resume.go:441-470 | a trace in which a run cancelled during a dialogue runs again once the dialogue is confirmed: that path never looks at the run's status |
| GateEnd.CancelledCanBeRevived | server/internal/engine/resume.go:79-108 | a cancellation between the status test and the scheduled admission does not stop the run, against the comment at resume.go:81-82 |
| Recovery.ReconcileInterrupted | server/internal/engine/auto_retry.go:91-134 | startup turns every row into its reconciled form |
| Recovery.NothingRunsAfterwards | server/internal/engine/auto_retry.go:77-134 | afterwards no run and no visit claims to be running, rows stay in place, and a second pass changes nothing |
| Recovery.InterruptedFails | server/internal/engine/auto_retry.go:91-134 | what was running is failed, visits and runs alike, a run that ended keeps its end, and nothing else changes |
| Recovery.UntouchedExactly | server/internal/engine/auto_retry.go:77-134 | a row is untouched exactly when neither it nor a visit of it was running; a queued run with a running visit is failed, against the comment at auto_retry.go:86-90 |
| Recovery.PickAutoResumeNode | server/internal/engine/resume.go:739-755 | the node of the last failed or cancelled visit by iteration, without one of the last running visit, without one of the last visit; none exactly when there are no visits |
| Recovery.PicksTheLatestFailure | server/internal/engine/resume.go:735-744 | it is the most recent failure exactly when no earlier failure of any node has a higher iteration number |
| Recovery.AnOlderFailureCanWin | server/internal/engine/resume.go:735-744 | a node that failed twice before it went through hides the node that failed after it, against the comment at resume.go:590-592 |
| Recovery.InterruptedVisitIsPicked | server/internal/engine/resume.go:739-755 | the visit a restart interrupted is the default resume point under the same condition |
| ClaimOrder.AheadIsAnOrder | server/internal/engine/dispatcher.go:60-65 | the claim order is total on distinct runs and transitive |
| ClaimLaws.AheadBy | server/internal/engine/dispatcher.go:60-65 | higher priority first, then a human gate ahead, then the older, then the smaller id |
| ClaimLaws.TextByFirstDifference | server/internal/engine/dispatcher.go:60-65 | ids are ordered by their first difference |
| ClaimLaws.GateFromItsNode | server/internal/engine/human_gate_reachability.go:121-136 | a gate is looked for from the recorded node unless it is blank, else from the start node |
| ClaimOrder.ScoredWhereDriven | server/internal/engine/human_gate_reachability.go:121-136 | scoring looks ahead from the node the run is driven from unless a blank, non-empty node id is recorded |
| ClaimOrder.PickQueuedByRemainingHumanGate | server/internal/engine/dispatcher.go:134-152 | the loop picks the first candidate with a human gate ahead, else the first |
| ClaimOrder.NextIsAheadOfAll | server/internal/engine/dispatcher.go:74-101 | the two-stage claim takes the queued run that is ahead of every other one by priority, gate ahead, age and id |
| Dispatcher.Dispatcher.TryAcquire | server/internal/engine/sema.go:44-52 | a slot is taken exactly when one is free, also with more in use than a lowered limit allows |
| Dispatcher.Dispatcher.SetLimit | server/internal/engine/sema.go:67-75 | the limit changes, at least one, and what is in use stays in use |
| Dispatcher.Dispatcher.Release | server/internal/engine/sema.go:55-65 | a slot is given back and the counter never goes below zero |
| Dispatcher.Dispatcher.ClaimNextQueued | server/internal/engine/dispatcher.go:74-129 | a claim promotes the chosen row and returns the node it continues from, or fails a run without nodes |
| Dispatcher.Dispatcher.DrainQueue | server/internal/engine/dispatcher.go:43-58 | a drain admits what the greedy specification admits, and takes one slot per driver started |
| Dispatcher.NoneIsOvertaken | server/internal/engine/dispatcher.go:43-58 | no run stays queued while one that comes after it is admitted |
| Dispatcher.SlotsAreFilled | server/internal/engine/dispatcher.go:48-56 | slots stay free only when nothing is queued or a run without nodes cut the drain short |
| Dispatcher.RowAfterDrain | server/internal/engine/dispatcher.go:74-129 | a drain changes only queued rows, and starts a driver at the recorded node for each run it turns to running |
| ClaimLaws.ClaimedRow | server/internal/engine/dispatcher.go:102-129 | a claimed row is running with its recorded node consumed and driven from, else driven from the start node, else failed; nothing else of it changes |
| ClaimLaws.EveryClaimIsDriven | server/internal/engine/dispatcher.go:43-58 | whatever a drain turned running got a driver, at the node it continues from |
| ClaimLaws.StartsAt | server/internal/models/graph.go:127-147 | a run starts at the first input node, else at the first node no edge enters, else at the first node |
| ClaimLaws.FindsTheFirst | server/internal/models/graph.go:106-114 | a node is found under its id as the first declared with it |
| ClaimLaws.EdgesInOrder | server/internal/models/graph.go:117-125 | the edges of a node come in the order of the definition |
| Dispatcher.OneDriverPerRun | server/internal/engine/dispatcher.go:56-56 | a drain never starts two drivers for one run |
| Reachability.HasRemainingHumanGate | server/internal/engine/human_gate_reachability.go:18-53 | true exactly when a human gate is reachable over out-edges and configured gotos, start included, on any graph |
| Reachability.RemainingPathNeighbors | server/internal/engine/human_gate_reachability.go:56-77 | exactly the neighbours, each once |
| Reachability.ConfigGotoTargets | server/internal/engine/human_gate_reachability.go:81-119 | exactly the configured gotos |
| Reachability.NoOtherGotos | server/internal/engine/human_gate_reachability.go:81-119 | a configured goto is the trimmed goto of a case, an action or an exit, and nothing else is one |
| Reachability.ConfiguredGotos | server/internal/engine/human_gate_reachability.go:81-119 | every case and action with a goto offers it, trimmed |
| Reachability.ConfiguredExits | server/internal/engine/human_gate_reachability.go:81-119 | and so does every exit |
| Reachability.LookAround | server/internal/engine/human_gate_reachability.go:42-50 | the inner loop sees all neighbours and keeps the frontier |
| Tokenizer.Tokenize | server/internal/engine/guard.go:90-151 | the index-driven scanner produces the token sequence of its specification on every text |
| Tokenizer.LexOfWritten | server/internal/engine/guard.go:90-151 | writable tokens, written out, read back as themselves |
| Tokenizer.QuotedText | server/internal/engine/guard.go:107-117 | quoted text is one token up to the next quote of its kind |
| Tokenizer.UnclosedText | server/internal/engine/guard.go:107-117 | without a closing quote it goes on to the end |
| Tokenizer.PassedOver | server/internal/engine/guard.go:96-146 | white space and characters that start no token are passed over |
| TextLaws.TrimExactly | server/internal/engine/guard.go:22-22 | strings.TrimSpace takes white space from both ends, all of it and nothing else |
| TextLaws.PlainSpaces | server/internal/engine/guard.go:22-22 | white space among the first 128 characters is the blank and five control characters |
| TextLaws.SplitJoins | server/internal/engine/guard.go:338-338 | strings.Split gives parts without the separator that joined with it are the text again |
| GuardEval.Parser.ParseOr | server/internal/engine/guard.go:166-180 | the loop computes the specified value and stops at the specified position |
| GuardEval.Parser.ParseAnd | server/internal/engine/guard.go:182-196 | likewise, one level down |
| GuardEval.Parser.ParseCmp | server/internal/engine/guard.go:198-215 | one comparison at most |
| GuardEval.Parser.ParseAdd | server/internal/engine/guard.go:217-240 | left-associated, an error on operands that are not numbers |
| GuardEval.Parser.ParsePrimary | server/internal/engine/guard.go:242-272 | leaves, parentheses and calls, all other tokens an error |
| GuardEval.Parser.ParseCall | server/internal/engine/guard.go:274-335 | calls, with the path after json(...) consumed only when the artifact loads |
| GuardEval.Evaluate | server/internal/engine/guard.go:60-75 | scanner and parser together compute the specified value, or an error exactly when it is one |
| GuardLaws.OrderIsTotal | server/internal/engine/guard.go:381-400 | of two numbers exactly one of <, == and > holds, <= and >= are the unions, and exchanging the sides exchanges < and > |
| GuardLaws.NotEqualIsTheOpposite | server/internal/engine/guard.go:381-408 | a comparison always has an answer, and != is the opposite of == on all values |
| GuardLaws.WordsAreNotOrdered | server/internal/engine/guard.go:400-408 | where a side is no number == compares what is displayed and nothing is less or more |
| GuardLaws.LessThanItsSum | server/internal/engine/guard.go:217-240 | x < x + d, and x - d < x, exactly when d is positive |
| GuardLaws.AddingBack | server/internal/engine/guard.go:217-240 | (x - y) + y equals x |
| GuardLaws.TakingAway | server/internal/engine/guard.go:217-240 | (x + y) - y equals x |
| GuardLaws.SumsCommute | server/internal/engine/guard.go:217-240 | the order of a sum does not matter |
| GuardLaws.SumsNeedNumbers | server/internal/engine/guard.go:217-240 | a sum is an error exactly when a side is no number |
| GuardLaws.OneKindOfNumber | server/internal/engine/guard.go:410-428 | integers, reals, booleans and numerals are one kind of number |
| GuardLaws.FailingValues | server/internal/engine/guard.go:33-48 | exactly nil, false, 0, 0.0, "" and "false" fail; an int64 zero does not |
| GuardLaws.PassingGuards | server/internal/engine/guard.go:21-31 | an empty guard and "default" pass, any other exactly when it has a value that does not fail |
| GuardLaws.Connectives | server/internal/engine/guard.go:166-196 | or holds where a side does and and where both do, and both are errors where a side is |
| GuardLaws.Precedence | server/internal/engine/guard.go:52-58 | what binds tighter needs no parentheses, and sums go from the left |
| GuardLaws.PlainName | server/internal/engine/guard.go:356-366 | a plain name is the routing value of that name, else the variable, else nil |
| GuardLaws.Literals | server/internal/engine/guard.go:340-343 | true and false are literals |
| GuardLaws.VariableName | server/internal/engine/guard.go:344-347 | vars.k is the variable whatever the routing values |
| GuardLaws.OutputName | server/internal/engine/guard.go:348-379 | nodes.n.outputs.f is the output, and one more name a field of it |
| GuardLaws.CallsOnAFile | server/internal/engine/guard.go:274-335 | what exists, artifact and json give, and that other names are errors |
| GuardLaws.Leaves | server/internal/engine/guard.go:242-272 | a numeral is the number it parses as, else zero, and quoted text is itself |
| GuardLaws.JsonFields | server/internal/engine/guard.go:316-333 | a path after json(...) picks a field, and a second name a field of that |
| GuardAst.FusedIsParseThenEval | server/internal/engine/guard.go:60-372 | evaluating while parsing equals parsing to a tree and evaluating it, without short circuit, on every token sequence |
| GuardSame.SameTreeExactly | server/internal/engine/guard.go:166-335 | a text has the same tree in two environments exactly when they agree on loading for every json(...) call with a dotted name after it that the parser meets, or when it has no tree in either |
| GuardSame.SameWithoutPaths | server/internal/engine/guard.go:316-333 | without a dotted name after a closing parenthesis they always agree |
| GuardSame.PathOfMissingArtifactIsAnError | server/internal/engine/guard.go:316-333 | otherwise it is not: a path on an artifact that does not load is an error, so a != guard on it fails |
| GuardPrint.RoundTrip | server/internal/engine/guard.go:60-335 | printing a tree by precedence and evaluating the text gives the tree's meaning, and parses back to the same tree |
| Interpolate.Expand | server/internal/engine/node_req.go:150-176 | the rescanning loop computes its specification |
| Interpolate.Replace | server/internal/engine/node_req.go:164-171 | what one placeholder becomes |
| Interpolate.ShowsItsValue | server/internal/engine/node_req.go:150-176 | a placeholder shows the value of its expression, and nothing for a section mark, an error or nil |
| Interpolate.ExpandsInOnePass | server/internal/engine/node_req.go:155-174 | with clean values the loop stops after one turn per placeholder with the result of one left-to-right pass |
| Interpolate.OnePassExactly | server/internal/engine/node_req.go:155-174 | the loop equals one pass on all templates exactly when every value it can put in holds no "{{" and does not end in "{" |
| Interpolate.SelfReferenceNeverFinishes | server/internal/engine/node_req.go:155-174 | a value that holds its own placeholder keeps the loop running for ever |
| Interpolate.SelfReferringVariable | server/internal/engine/node_req.go:155-174 | a string variable can be such a value |
| PathSummary.Search | server/internal/engine/gate_auto.go:141-167 | breadth-first search finds the goal exactly when a route exists, with parents along shortest routes |
| PathSummary.NextLevel | server/internal/engine/gate_auto.go:149-167 | when distance n is done, everything within n + 1 has been seen |
| PathSummary.WalkBack | server/internal/engine/gate_auto.go:171-178 | the parent walk ends and yields the route backwards, from its last empty node id |
| PathSummary.ReverseInPlace | server/internal/engine/gate_auto.go:179-181 | swapping from both ends reverses |
| PathSummary.GatePathSummary | server/internal/engine/gate_auto.go:105-185 | the labels of a shortest route from the entry, cut at its last empty node id, when a route exists; else the target's label |
| PathSummary.WholeRouteExactly | server/internal/engine/gate_auto.go:172-178 | nothing is cut exactly when no node on the route has an empty id |
| PathSummary.LabelIs | server/internal/engine/gate_auto.go:106-122 | a label is the name, if not blank, else the type, if not blank, else the id, of the last node declared with the id |
| PathSummary.UnknownIsItsLabel | server/internal/engine/gate_auto.go:110-114 | an id that no node has is its own label |
| PathSummary.EntryIs | server/internal/engine/gate_auto.go:126-136 | a path starts at the first input node if it has an id, else at the first node |
| PathSummary.EmptyIdCutsTheRoute | server/internal/engine/gate_auto.go:172-178 | a graph whose only route is cut |
| VarState.Variables.SetVar | server/internal/engine/finish.go:17-28 | memory gets the value and the table its stripped form |
| VarState.Variables.RollBack | server/internal/engine/route.go:134-147 | memory is overlaid with the snapshot and missing carried names become empty; the table follows |
| VarState.Variables.Restore | server/internal/engine/resume.go:700-731 | memory and table become exactly the snapshot |
| VarState.RewindTo | server/internal/engine/resume.go:661-694 | resuming from a node rewinds to its latest visit's entry snapshot when one was recorded |
| VarState.RollbackKeepsLaterNames | server/internal/engine/route.go:126-165 | a rollback restores what the checkpoint held and keeps later names, and equals the checkpoint exactly when there are none |
| VarState.TableFollowsMemory | server/internal/engine/finish.go:17-28 | over any sequence of writes the table equals memory up to stripping whenever a driver runs |
| Routing.Context.SnapshotCheckpoint | server/internal/engine/route.go:153-165 | a checkpoint holds the stripped variables |
| Routing.Context.DoRollback | server/internal/engine/route.go:126-151 | a rollback happens exactly within its cap, costs one attempt, and restores the target's checkpoint; a refused one changes nothing |
| Routing.Context.RouteSuccess | server/internal/engine/route.go:27-82 | one scan gives the first edge taken or the fallback, and moves attempt and variables accordingly |
| Routing.Context.RouteFailure | server/internal/engine/route.go:87-122 | action matches, then rollbacks, then failure edges |
| RoutingLaws.GotoIsFollowed | server/internal/engine/route.go:34-45 | a goto is where the run goes, after a success unless it is halted and after any failure, and nothing else is a jump |
| RoutingLaws.HaltsAndBranches | server/internal/engine/route.go:27-40 | a halted success goes nowhere and nothing else halts; a branch ends exactly when it has no goto |
| RoutingLaws.CapCountsRollbacks | server/internal/engine/route.go:126-132 | a rollback edge is taken as many times as its cap says, without one always |
| RoutingLaws.SuccessFollows | server/internal/engine/route.go:52-75 | the first edge whose guard passes, a rollback only with attempts left |
| RoutingLaws.SuccessFallsBack | server/internal/engine/route.go:53-81 | where no guard passes, the first success edge, which for a preview must not be one to fail by, else the end |
| RoutingLaws.FailureFollows | server/internal/engine/route.go:92-120 | the first edge the action matches, else the first rollback with attempts left, else the first failure edge |
| RoutingLaws.FailureEnds | server/internal/engine/route.go:92-121 | and the end where there is none of these |
| RoutingLaws.GuardsSee | server/internal/engine/route.go:47-51 | guards see the action and the variables, and no other output of the node |
| RoutingLaws.FailActions | server/internal/engine/route.go:11-24 | a guard is one to fail by exactly when it holds the word action and fail, reject or revise in quotes of one kind |
| Routing.MovesAlongEdges | server/internal/engine/route.go:27-122 | every move follows an out-edge of the node, and goes back only along a rollback edge with attempts left |
| Routing.SuccessLeavesOtherwise | server/internal/engine/route.go:50-76 | after a success the run leaves along a failure or rollback edge exactly when one is taken before any other edge |
| Routing.FailureIgnoresGuards | server/internal/engine/route.go:106-121 | without an action the guards of failure and rollback edges play no part |
| FsmTermination.StepLowers | server/internal/engine/execute.go:291-385 | every visit lowers (rollbacks left, retries left, rank), whatever the node does |
| FsmTermination.AlwaysEnds | server/internal/engine/execute.go:291-385 | at most (cap + 1) x nodes + nodes x retries visits, and no more rollbacks than the largest cap |
| FsmTermination.Execute | server/internal/engine/execute.go:291-385 | the driver loop ends within that bound for any outcomes |
| FsmTermination.TryAutoRetry | server/internal/engine/auto_retry.go:49-68 | a failed node is entered again exactly within its retry budget |
| FsmTermination.SuccessMovesOn | server/internal/engine/execute.go:385-392 | after a success the loop goes on where routing says, and a rollback costs an attempt |
| FsmTermination.FailureMovesOn | server/internal/engine/execute.go:357-384 | after a failure too; where that is nowhere the node is entered again at the price of a retry, or the loop ends |
| FsmForever.RunsForeverExactly | server/internal/engine/execute.go:291-385 | on any graph: some node behaviour keeps the loop running for ever exactly when some visits lead to a place that some more lead back to, with no retry spent and no attempt that a cap still counts |
| FsmForever.RunsForeverOverAnUncappedEdge | server/internal/engine/route.go:126-132 | where success edges, failure edges and gotos only lead down: exactly when such a way back goes over a rollback edge without a cap; otherwise every run ends |
| FsmForever.FailureGoesBackUncapped | server/internal/engine/route.go:106-132 | with every cap used up a failure without an action goes back over an uncapped edge exactly when its node has one |
| FsmForever.WayBackRunsForever | server/internal/engine/route.go:106-132 | with every cap used up, the first such edge of a node and a way from its target back to the node keep the run going for ever |
| PushQueue.Queue.EnqueuePush | server/internal/channels/push_queue.go:64-146 | merging, eviction and replacement give the specified queue |
| PushLaws.BelowDepth | server/internal/channels/push_queue.go:64-146 | below the depth nothing goes: the item comes last, or an unchanged one overwrites the first unchanged one of its category in place |
| PushLaws.UnchangedAtDepth | server/internal/channels/push_queue.go:64-110 | at the depth an unchanged item overwrites the first of its category, else the oldest unchanged one, else is turned away, and pushes nothing else out |
| PushLaws.HighPushesOutUnchanged | server/internal/channels/push_queue.go:110-146 | a changed or failed item pushes out the oldest unchanged ones, exactly as many as it takes, and comes last |
| PushLaws.HighAgainstHigh | server/internal/channels/push_queue.go:110-194 | where that is not enough all unchanged ones go, and the first of the same category is overwritten, else at most one goes, changed before failed and older before newer, never a notification |
| PushQueue.Queue.ReplaceSameCategoryHigh | server/internal/channels/push_queue.go:151-166 | the first coalescible item is overwritten, or nothing |
| PushQueue.Queue.TakePushQueue | server/internal/channels/push_queue.go:196-207 | the queue is emptied into a batch by priority |
| PushQueue.SortPushByPriority | server/internal/channels/push_queue.go:209-223 | the loop computes the stable partition |
| PushQueue.Queue.RequeuePushAll | server/internal/channels/manager.go:617-639 | the rest of a batch goes back ahead of what arrived |
| PushQueue.FlushPushQueue | server/internal/channels/manager.go:542-588 | items are tried in order until the conversation is busy, and exactly the rest is put back |
| PushSafety.EnqueueKeeps | server/internal/channels/push_queue.go:64-194 | an enqueue appends a run notification to the kept ones and neither drops, merges nor reorders any |
| PushSafety.EnqueueShape | server/internal/channels/push_queue.go:64-146 | one unchanged item per category, at most 8 droppable items, over depth only without unchanged ones |
| PushSafety.ShapeAlways | server/internal/channels/push_queue.go:64-146 | that shape holds from empty under any enqueues |
| PushSafety.IncomingIsRetained | server/internal/channels/push_queue.go:64-146 | a changed or failed item is always retained; an unchanged one is turned away exactly when the queue is full of others |
| PushSafety.BatchIsAPermutation | server/internal/channels/push_queue.go:196-223 | a batch is the queue, high before low, each group in arrival order |
| PushSafety.NothingProtectedIsLost | server/internal/channels/manager.go:542-639 | over every interleaving of arrivals, takes, attempts, aborts and put-backs each run notification is exactly once queued, in flight or attempted |
| ConvQueue.Queue.Enter | server/internal/channels/manager.go:316-346 | a message starts a turn, queues with its acknowledgement, or is refused, as specified |
| ConvQueue.Queue.TakeNext | server/internal/channels/manager.go:350-361 | the next message, or the cycle ends |
| ConvQueue.Queue.Drain | server/internal/channels/manager.go:350-365 | waiting messages get their turns in order and the conversation ends idle |
| ConvQueue.Queue.IsConversationBusy | server/internal/channels/manager.go:305-310 | busy exactly when someone owns the cycle |
| ConvQueue.FirstComeFirstServed | server/internal/channels/manager.go:316-365 | one turn at a time, started turns then waiting messages are the accepted ones in order, never more than 16 waiting, none when idle |
| ConvQueue.AheadIsExactInATurn | server/internal/channels/manager.go:333-341 | the number ahead counts all unfinished messages exactly when a turn is in flight; between turns it is one too many |
| ConvQueue.OneTooManyAhead | server/internal/channels/manager.go:333-365 | that window is reachable |
| ConvQueue.RefusedExactlyWhenFull | server/internal/channels/manager.go:322-331 | a message is refused exactly when 16 wait, and no other is dropped |
| Progress.Accumulator.EmitMarkers | server/internal/channels/progress.go:194-228 | the marker scan reports exactly the ready occurrences not yet seen, each once |
| Progress.MarkersAre | server/internal/channels/progress.go:38-54 | a marker is one of six words in plain or full-width square brackets, with the kind of the word |
| Progress.ReadyExactly | server/internal/channels/progress.go:210-220 | a marker is ready once its line is closed or says at least four characters |
| Progress.NotesExactly | server/internal/channels/progress.go:237-256 | a line gives an event when it is classified as one, unless it is blank or holds a marker |
| Progress.CompleteLinesOf | server/internal/channels/progress.go:230-236 | the complete lines are the text up to its last line break, cut at the breaks |
| Progress.NulsTrimmed | server/internal/channels/progress.go:154-157 | a snapshot loses the null characters at its end, all of them and nothing else |
| Progress.Accumulator.EmitKeywordLines | server/internal/channels/progress.go:230-261 | the events of the complete lines not yet scanned, in order |
| Progress.Accumulator.AdoptStream | server/internal/channels/progress.go:163-185 | the merged text advances only by extension, and what is new in it is reported |
| Progress.Accumulator.Feed | server/internal/channels/progress.go:139-145 | a delta reports what the longer stream adds |
| Progress.Accumulator.FeedSnapshot | server/internal/channels/progress.go:150-159 | a snapshot reports what it adds, and nothing when it is behind |
| Progress.BufIsTheLongest | server/internal/channels/progress.go:163-185 | the merged text is the longest prefix offered |
| Progress.KeepsTheLonger | server/internal/channels/progress.go:163-185 | of the merged text and an offer the extension is kept, and of two that contradict each other the offer unless it is shorter |
| Progress.EachMarkOnce | server/internal/channels/progress.go:194-228 | over a stream every ready marker of the merged text is reported, once |
| Progress.NotesInOrder | server/internal/channels/progress.go:230-261 | over a stream the keyword events are those of the complete lines, in order |
| Progress.ReadyStays | server/internal/channels/progress.go:209-222 | a marker that is ready stays ready as the text grows |
| Progress.ChunkingIndependence | server/internal/channels/progress.go:139-261 | what is reported depends only on the longest prefix offered, not on how the text was cut or which snapshots raced it |
| TabPool.AddCounts | server/internal/browser/registry.go:48-52 | adding a tab keeps every container's counter equal to its live tabs |
| TabPool.RemoveCounts | server/internal/browser/registry.go:56-68 | removing one does too, and no counter goes below zero |
| TabPool.TabRegistry.Add | server/internal/browser/registry.go:48-52 | the tab is registered now and its container is no longer marked empty |
| TabPool.TabRegistry.Remove | server/internal/browser/registry.go:56-68 | the container is marked empty exactly when its last tab goes |
| TabPool.TabRegistry.Touch | server/internal/browser/registry.go:70-74 | only that tab's activity changes |
| TabPool.TabRegistry.Lru | server/internal/browser/registry.go:77-88 | a least recently active tab, or none exactly when there is none |
| TabPool.TabRegistry.Idle | server/internal/browser/registry.go:91-104 | exactly the tabs idle for longer than the limit |
| TabPool.TabRegistry.ReapableContainers | server/internal/browser/registry.go:108-121 | exactly the containers marked empty for longer than the limit, none of which holds a tab |
| TabPool.Service.CloseLocked | server/internal/browser/service.go:586-596 | session, tab and channel go together, and the channel is closed once |
| TabPool.Service.Supersede | server/internal/browser/service.go:335-351 | at its cap a container loses all its sessions, below it none |
| TabPool.Service.OpenTab | server/internal/browser/service.go:356-382 | when a tab opens, what is registered, and that a failed first tab drops the engine even while other tabs use it |
| TabPool.Service.OpenInSandbox | server/internal/browser/service.go:316-331 | it fails for capacity exactly when one eviction is not enough, else it opens exactly when the engine is cached or dials and a tab comes up at the first or second try; what is open then, in which container, what becomes of the engines, that both caps hold, that only a least recently active tab is evicted, and that no other session is closed |
| TabPool.SupersededFits | server/internal/browser/service.go:335-351 | one more tab fits in the container exactly when its cap is at least one |
| TabPool.Service.Sweep | server/internal/browser/service.go:598-614 | exactly the idle tabs go, and an engine is dropped only from a container that holds no tab |
| TabPool.Service.SetMaxTabs | server/internal/browser/service.go:562-570 | the cap changes exactly for positive values, and no tab is closed |
| PageHistory.Outputs.RecordPageRevision | server/internal/engine/gate_artifact.go:316-327 | a write updates page and history as specified |
| PageHistory.OtherOutputsStay | server/internal/engine/gate_artifact.go:316-327 | a write sets the page and touches no output but the page and its history |
| PageHistory.OneWrite | server/internal/engine/gate_artifact.go:293-327 | a write adds its content, if not blank, to the versions, adjacent duplicates aside |
| PageHistory.EveryRevisionIsKept | server/internal/engine/gate_artifact.go:293-327 | over any writes the versions are the non-blank writes, adjacent duplicates aside: none is lost and no-op writes add none |

## Left out

- RunProtocol.ProtocolSafety: holds until the generation counter of some run wraps, after 2^64
  claims and force-clears of it, because generations are uint64 and ownership can be confused after
  that (`ExecSlot.LateEndIsHarmless` says exactly when).
- Granularity of runs: an ownership test with the commit it protects, `finish`, a claim, a direct
  admission, and a pausing driver's pending test with its `finish` are one step each; the windows
  inside them are not modelled.
- GateContinue.ContinuableCanContinue: ResumeFrom waits two seconds for the driver of a running run
  to leave and gives up if it does not (resume.go:643-661); the model accepts it at once.
- GateResume.AtMostOneContinuation: gates and dialogues of one run.  A turn of a dialogue that ends
  it is a resume, and one that does not end it a rejected one; what is said in it, its queue and its
  session are not part of this model, and neither are share links.  A read of an open row and its
  save stand for any caller that does both, whatever its own tests.
- RunLocal.ContinuesStep: who reads a visit and saves its whole row later (flushMcpCalls and
  flushTokenUsage, node_req.go:240-271; the output syncs, gate_artifact.go:264, 392 and review.go:465;
  the window inside saveState) is one step that may save any status, whatever it read.
- GateContinue.NeverLost: takes a visit that failed to stay failed; `RunProtocol.VisitsNeverRevive`
  says exactly when it does.
- Interpolate.Expand: takes the number of turns after which the loop stops as a ghost argument,
  because the source loop need not stop; it says nothing of inputs on which it does not.
- GuardEval.Evaluate: numbers are exact reals, so rounding, infinities and NaN are not modelled;
  number parsing, JSON decoding and fmt.Sprint are uninterpreted functions.
- Routing.Context.RouteSuccess: the trace it appends, and the write that finishes a halted run as
  cancelled, are not modelled; after a gate resume that write is followed by an unconditional
  "completed" (resume.go:221-225).
- FsmTermination.Execute: guards may see any variables and outputs at each visit, so nothing is
  assumed of what nodes write; a lost slot, a pause and an aborted sandbox setup all end the loop.
- VarState.TableFollowsMemory: stripping inline image data is an uninterpreted idempotent function,
  and a failed transaction in restoreVars, which is only logged, is not modelled.
- Dispatcher.Dispatcher.DrainQueue: each claim is one step, so a run cancelled between its read and
  its update is not modelled, and neither are transient database errors.
- Reachability.HasRemainingHumanGate: targets are trimmed as in the source although routing follows
  the untrimmed ones; the exits of a node are read in no particular order.
- PushSafety.NothingProtectedIsLost: safety only; items put back after the drain's last flush wait
  for a next one.  A send or lookup that fails counts as the item's attempt.
- ConvQueue.FirstComeFirstServed: a turn that panics, which would leave the conversation busy, is
  not modelled.
- Progress.ChunkingIndependence: over characters, not bytes, and for marker occurrences, because
  the summary of a marker depends on how much text had arrived; the keyword classification of a line
  is uninterpreted and summaries are not truncated.  A snapshot that contradicts the stream replaces it, as `AdoptStream` states.
- TabPool.TabRegistry.Add: asks for an identifier that is not in use, as a fresh UUID is not;
  `Service.OpenInSandbox` asks for one never used before.
- TabPool.TabRegistry.ForgetContainer: asks for a container without tabs, as its one caller ensures.
- TabPool.TabRegistry.Idle: returns a set; the source sorts the identifiers, which only orders the
  closings.  One call reads the clock once.
- PageHistory.Outputs.RecordPageRevision: the stored history is a list of values, as it is after
  reloading; the copy of an in-memory list of strings is not filtered in the source.
- Recovery.PickAutoResumeNode: the queries are functions of the visits in insertion order; errors
  of the database are not modelled.
- HTTP handlers, the WebSocket broker, audit, notifications, feedback, sandboxes and providers,
  authentication, configuration, blob storage and migrations: plumbing around the modelled state.
- Formatting of messages (`FormatCronPush`, `FormatProgressText`, acknowledgement texts) and
  `validateGateForm`: easy members.
