# Crynux Bridge: a verified model of the task engine

This project models the parts of Crynux Bridge that decide what happens to a submitted task, and
proves what those parts keep over every run:

* the task engine (`taskengine/`): a database-driven scheduler that creates tasks on Relay, follows
  their status, adds validation members, validates, cancels and downloads, with five bounded worker
  pools, crash recovery and creator abort;
* the values it depends on: canonical JSON, model-file keys, revision pinning, the logical phase of a
  client task;
* the trace cache (`tasktrace/`), exact Wei arithmetic (`config/fees.go`) and the planner of one batch
  of heartbeat submissions.

## How it is built

The engine appears twice. `StateMachine` is the protocol as a transition system: a state is the clock,
the two tables, the live workers and the commitments Relay has reported as ended; a step is one database
transaction, one dispatched worker, or one worker's end; every choice of the outside world (Relay's
answers, losses, crashes, aborts, fresh identities, time) is in the step, so a theorem about all runs is
about all of them. `Progression` and `Dispatch` hold the rules the steps use. `TaskEngine.Engine` is the
engine as the code has it: an object whose methods rewrite rows, loop over groups and batches, and roll
back; each is proved to make exactly the state machine's step or run, so everything proved of runs holds
of the object. `TraceIndex` and `TraceStore` are related in the same way.

| modules | what they hold |
|---|---|
| `Models`, `Config`, `Wrappers` | rows, enumerations, configuration |
| `Progression`, `Dispatch`, `StateMachine` | the rules and the transition system |
| `AnswerEffects`, `StepEffects`, `DispatchRules` | what every step and every decision means, spelled out in statuses, outcomes and fields, independently of the rules |
| `ApplyEffect`, `Frames` | what each step leaves alone |
| `GroupInvariant`, `SlotInvariant`, `ClientInvariant`, `Invariant`, `Reachable` | the invariant of every run, and what it says of reachable states |
| `Lifecycle`, `TerminalClosure`, `ValidationOwner`, `ValidationSafety`, `Reconciliation`, `ExecutionPoll`, `CancellationFlags`, `RowRevival`, `AbortFinality`, `SubmittedWork`, `ValidationMembers`, `SiblingCancellation` | the theorems over runs |
| `Counterexamples`, `Witnesses` | whole runs on which a documented claim, or a claim without its hypothesis, fails |
| `Aggregation`, `RecoveryLoop`, `DueTasks`, `DispatchPlan`, `AbortChecks`, `ModelFiles`, `TaskEngine` | the loops and the engine object |
| `ClientPhase`, `CanonicalJson`, `CanonicalForm`, `SortedStrings`, `TraceIndex`, `TraceEffects`, `TraceStore`, `Fees`, `RevisionPinning`, `HeartbeatPlan` | the smaller cores |

## Hypotheses

The invariant and most theorems need none. Where a claim is false of an arbitrary Relay, the hypothesis is
a predicate on single steps, and a lemma shows what happens without it, or exactly when:

* `TerminalClosure.RelayKeepsEnds`: Relay, once it has reported a terminal status for a commitment, never
  reports another kind. `TerminalClosure.RefusesQuietGroups`: a validation is refused for good only while
  no sibling has an operation (`ReactivatedExactly`, `RefusalDuringSyncReactivates`, and a whole run in
  `Counterexamples.TerminalRowComesBack`).
* `ValidationOwner.RelayKeepsSequences`: one sequence number for a commitment (a run that keeps the other
  hypotheses and validates two members at once: `Witnesses.TwoMembersValidate`).
* `ValidationSafety.RelayCarriesSeeds`: seed and execution assignment come with every ready status
  (`UnprovenValidationExactly`, and a whole run in `Witnesses.SelectedTaskIsValidatedAlone`).
* `TraceIndex.Growing`: a later snapshot of a task keeps the identities that were known
  (`AddTaskAgreesIff`, `ForgottenIdentityCrashes`, and a whole run in `ForgettingRunCrashes`).
  `TraceIndex.Separate`: live traces share no identity.

Uninterpreted: the VRF prover and the revision pinning inside the engine are functions of the
configuration; the JSON encoding of a model file is any injective encoding without line breaks; case
folding is any function on strings. Task identities are fresh, and the clock never goes back.

## Where the code and its documentation disagree

The model follows the code.

* `docs/task_lifecycle.md` line 49 says that a successful abort can no longer produce a result. It holds
  exactly when every member the commit did not cancel is barren, which the rows before the commit say: a
  member that was already finished may still owe a cancellation, have a status query or a download out, or
  hold an answer that is not yet applied (`AbortFinality.AbortSuccessIsFinalIff`,
  `RowRevival.EndedRowRevivesIff`, and a whole run in `Counterexamples.AbortedTaskStillDelivers`).
* Line 62 says that a partial abort leaves the client task running. It fails exactly when the members Relay
  did not cancel have all finished by the commit (`TaskEngine.PartialAbortEndsIff`, and a whole run in
  `Witnesses.PartialAbortEndsClientTask`).
* Lines 100-102 say that no validation members are created once Relay reports a terminal status. The code
  does not look at the status there (`ValidationSafety.MembersInsertedIff`, and a whole run in
  `Witnesses.MembersAfterTheEnd`).
* Line 100 says that VRF data is persisted before a validation is submitted. A ready answer without a seed,
  or with a deferred one, leads to a validation without it (`ValidationSafety.UnprovenValidationExactly`,
  and whole runs in `Witnesses.UnprovenTaskIsValidated`).
* Line 29 asks for an unknown request outcome to be reconciled before a retry. For a validation this holds
  (`ValidationSafety.LostValidationIsReconciledFirst`). A creation or a cancellation is sent again without
  an answer of its own exactly when the last thing the row lost was a status query
  (`Reconciliation.RepeatedUnreconciledIff`, and whole runs in `Witnesses.CreationIsSentTwice` and
  `Witnesses.CancellationIsSentTwice`; `taskengine/dispatch.go` lines 319-320 and 459-463).

## Model

| member | source | states |
|---|---|---|
| `Invariant.StepKeepsInv` | taskengine/progression.go:45-185 | No step of the engine (submission, expansion, dispatch, a worker's end, an applied answer, recovery, either abort transaction), with any Relay answer, breaks the invariant: group shape, slot consistency, bounded scheduling, worker and pool accounting, client task aggregation |
| `Invariant.EveryRunKeepsInv` | taskengine/scheduler.go:81-89 | Every state of every run from the empty database satisfies that invariant, without any hypothesis on Relay |
| `ApplyEffect.ApplyStepEffect` | taskengine/progression.go:45-185 | One applied operation either rolls back, or changes its own row as its kind says, only flags, times and a refused status on TaskID siblings, at most two inserted members, one client task, and nothing else |
| `Reachable.EveryRunShapesGroups` | taskengine/progression.go:332-431 | In every reachable state a TaskID group has one member or three, three exactly when the persisted VRF number selects the task; members share VRF data, owner, type and fee; persisted VRF data is what the prover gives for the seed; commitments are distinct; identity and VRF data are never rewritten later |
| `Reachable.RunKeepsRows` | taskengine/progression.go:276-278 | Over any continuation of any state no row is deleted, its identity is fixed, VRF data is written once, and distinct commitments stay distinct |
| `ValidationSafety.MembersInsertedIff` | taskengine/progression.go:332-377 | In every invariant state an applied status answer inserts the two members exactly when the seed is looked at, the prover's number selects the task, the execution is assigned and the arguments can be pinned, whatever the Relay status is |
| `Witnesses.MembersAfterTheEnd` | taskengine/progression.go:276-278 | A run from the empty database in which Relay reports the only row of a group as ended: applying that answer ends the row and inserts two Pending members |
| `Reachable.EveryRunBoundsWaiting` | taskengine/progression.go:483-532 | In every reachable state a row is due no later than the clock plus one of the four configured intervals |
| `SlotInvariant.StatusAnswerSchedule` | taskengine/progression.go:483-532 | A status answer schedules the row between now and the longest interval; at once for ready and successful rows; and an execution poll is never earlier than the scan interval or the overrun interval after now |
| `ExecutionPoll.ExecutionPollWaits` | taskengine/progression.go:483-532 | Once an estimate has been read, every run in which no operation of the group is applied and no crash interrupts its validation, whatever else happens, dispatches the row no earlier than the shorter of the scan and the overrun interval after the answer |
| `Reachable.EveryRunAccounts` | taskengine/dispatch.go:186-292 | In every reachable state the operation type is empty exactly when its status is, a running row belongs to exactly one live worker of its kind, pools hold at most their capacity, and a worker at most a batch |
| `ClientInvariant.RecoveryRecalculatesNothing` | taskengine/scheduler.go:66-77 | After a crash the recalculation of every client task is a no-op: status and failure count were already exact |
| `Lifecycle.ClientTaskEndsOnce` | taskengine/scheduler.go:172-224 | Over any continuation a client task leaves running in at most one step: to success with a downloaded member at that moment, to failed with members that are all finished and none downloaded, or aborted before it had members; and never changes again |
| `Lifecycle.DueQueriesCover` | taskengine/dispatch.go:63-96 | The union of the five queries is exactly the idle due rows of the engine's types that are flagged for cancellation or not finished |
| `Lifecycle.SelectedRowsAct` | taskengine/dispatch.go:122-184 | Every row a query selects gets a real operation, and a cancellation only when it is flagged |
| `Lifecycle.RunningClientTaskMoves` | taskengine/dispatch.go:55-184 | In every run a running, expanded client task has a member in operation, or one that is due within the longest interval and is then selected and decided |
| `Lifecycle.StepKeepsSettled` | taskengine/dispatch.go:63-96 | A finished, unflagged, idle row stays so through every step; its status can only become EndAborted, by a refused group |
| `TerminalClosure.TerminalIsForever` | taskengine/progression.go:534-542 | Over every run in which Relay keeps terminal statuses and no group is refused for good while a sibling has an operation, a row in a terminal status never returns to an active one |
| `TerminalClosure.EveryLawfulRunKeepsTerminal` | taskengine/progression.go:534-542 | From the empty database, over every run under the two hypotheses: a row that is terminal after a first part is terminal after any continuation, and a terminal row with an operation is a success or an abort whose cancellation is owed |
| `TerminalClosure.ReactivatedExactly` | taskengine/progression.go:187-280 | In any state at all, an applied operation makes a terminal row active exactly when it is its own row, the answer is a non-terminal status not kept back by a local abort or a queue timeout, or an accepted creation, its client task exists, and no seed it would have to persist is unprovable or has arguments that cannot be pinned |
| `TerminalClosure.RefusalDuringSyncReactivates` | taskengine/progression.go:123-130 | The second hypothesis is needed: a group refused while a member's status query is answered as started sends that member to EndAborted and back to Started |
| `Counterexamples.TerminalRowComesBack` | taskengine/progression.go:123-130 | A run from the empty database in which a group of three is refused while a member's status query is out: the member is EndAborted, and the next step makes it Started |
| `ValidationOwner.OneValidationPerSnapshot` | taskengine/dispatch.go:147-183 | On every snapshot two members of one group are never both decided for validation |
| `ValidationOwner.ReadyGroupHasOwner` | taskengine/dispatch.go:167-176 | A group with a ready member has a first ready member by sequence and key, so the error for a missing owner cannot occur |
| `ValidationOwner.OneValidationPerGroup` | taskengine/dispatch.go:147-183 | Over every run that keeps terminal statuses, refuses only quiet groups and reports one sequence per commitment, at most one member of a group holds a validation, running or answered |
| `Witnesses.TwoMembersValidate` | taskengine/dispatch.go:147-183 | A run from the empty database that keeps terminal statuses and refuses nothing, but reports a second sequence number for one member: two members of a group hold a validation at once |
| `ValidationSafety.ValidatedUnitsAreComplete` | taskengine/dispatch.go:147-183 | Over every run in which Relay reports seed and assignment with every ready status, a row decided for validation has VRF data, and its unit has three members with that data exactly when the number selects it, one otherwise |
| `ValidationSafety.UnprovenValidationExactly` | taskengine/progression.go:332-353 | Without that hypothesis: a ready answer whose seed cannot be persisted changes no row; otherwise the row is sent to validation alone and without VRF data exactly when the answer has no seed or its persistence is deferred for a missing assignment |
| `Witnesses.UnprovenTaskIsValidated` | taskengine/progression.go:332-353 | For every such answer a run from the empty database after which the row is decided for validation, alone and without VRF data |
| `Witnesses.SelectedTaskIsValidatedAlone` | taskengine/progression.go:351-353 | A run from the empty database after which a task the prover selects for three members is validated as a single one |
| `ValidationSafety.LossUnreconcilesGroup` | taskengine/progression.go:51-59 | When the failure of a validation is applied, or the process dies under it, every member of its group must ask Relay again |
| `ValidationSafety.MatesOfValidation` | taskengine/dispatch.go:122-184 | Until that failure is applied, and as long as a validation is in the slot of its row: over every lawful run no other member is sent to creation or validation; one is cancelled exactly when it is flagged and reconciled, and downloaded exactly when it is reconciled and successful |
| `ValidationSafety.LostValidationIsReconciledFirst` | taskengine/dispatch.go:122-127 | From then on, through failed queries, other answers, crashes and aborts, such a row is dispatched only for status queries until an answer to one of its own is applied |
| `Reconciliation.RepeatedUnreconciledIff` | taskengine/dispatch.go:454-467 | After the outcome of an operation is lost, to a failed request or a crash, over every run that applies no answer to a status query of the row: it is next sent to creation or cancellation exactly when one is due and the last thing it lost since was a status query; and as long as none is lost it is dispatched for status queries only |
| `Reconciliation.MutationIsRepeated` | taskengine/dispatch.go:313-320 | From every state at rest in which a creation or a cancellation is next, a run sends it, loses it, loses the status query after it, and can send it again, with no answer of the row applied in between |
| `Witnesses.CreationIsSentTwice` | taskengine/dispatch.go:313-320 | Such a run for a creation, from the empty database |
| `Witnesses.CancellationIsSentTwice` | taskengine/dispatch.go:313-320 | Such a run for a cancellation, from the empty database |
| `AbortFinality.AllBarrenForever` | taskengine/abort.go:324-340 | Once every member has ended without a result, owes no cancellation, and has no query, download or answer that could reopen it or bring new members, no continuation ever gives the client task a result |
| `CancellationFlags.EveryRunKeepsFlags` | taskengine/progression.go:433-456 | In every reachable state a terminal row that carries the cancellation flag is a local abort, and a row being downloaded carries none |
| `RowRevival.EndedRowRevivesIff` | taskengine/progression.go:202-210 | In every reachable state, whatever operation is in its slot and whatever else the engine does, some continuation downloads a result for a row that has ended without one exactly when its cancellation is owed, a status query or a download is out, or its stored answer reopens or completes it |
| `AbortFinality.AbortSuccessIsFinalIff` | taskengine/abort.go:294-340 | For an abort commit that succeeds in any reachable state, some continuation still gives the client task a result exactly when, before the commit, a member it did not cancel could still deliver one or had a terminal answer stored that brings new members |
| `AbortFinality.QuietAbortIsFinalIff` | taskengine/abort.go:294-340 | With no answer stored among those members: exactly when one of them owes a cancellation, or has a status query or a download out |
| `Counterexamples.AbortedTaskStillDelivers` | taskengine/abort.go:324-340 | A run from the empty database in which a queued submission of the heartbeat client times out, its abort succeeds with every member stopped, and a continuation downloads its result |
| `TaskEngine.Engine.CreateTask` | taskengine/engine.go:79-152 | A submission is refused for a repeat number that is not positive, bad arguments or a key that has used up its limit, with nothing changed, in that order; otherwise it counts once against the key, never past its limit, stores the submission with its normalised arguments, and is the state machine's submission |
| `StepEffects.SubmissionApplied` | taskengine/engine.go:79-152 | It adds one running, unexpanded client task, due at once, with the given number of repeats or the configured one, and changes nothing else |
| `TaskEngine.Engine.RecalculateClientTask` | taskengine/scheduler.go:172-224 | The group loop gives exactly the recalculated record, and touches no other |
| `TaskEngine.Engine.ExpandClientTask` | taskengine/scheduler.go:113-170 | The built and inserted rows are the state machine's expansion, and a submission that cannot be decoded is only rescheduled |
| `StepEffects.ExpansionApplied` | taskengine/scheduler.go:113-170 | An expansion inserts exactly one row for each repeat: the submitted type, arguments, fee and hardware, Pending, due at once, with nothing known of it yet; old rows stay and the record is expanded |
| `SubmittedWork.EverySubmissionIsCarried` | taskengine/scheduler.go:113-170 | Over every run before and after a submission: once expanded there are exactly as many TaskIDs as repeats, every row has the submitted client, type and fee, and the first row of every group the submitted arguments and hardware; until then the submission is in the record and no row is |
| `TaskEngine.Engine.Recover` | taskengine/scheduler.go:35-79 | The bulk update and the two loops are the state machine's recovery |
| `StepEffects.RecoveryApplied` | taskengine/scheduler.go:35-79 | In every reachable state a crash frees every running row, leaves its outcome unknown and makes it due; makes every member of a group that was being validated ask Relay again; and changes nothing else, no client task either |
| `TaskEngine.Engine.RecalculateRunning` | taskengine/scheduler.go:66-77 | The loop over the running client tasks is the recalculation of all |
| `TaskEngine.Engine.ApplyRelayStatus` | taskengine/progression.go:187-280 | The branches that rewrite the row fail exactly when a first seed cannot be proved or its members' arguments cannot be pinned; otherwise the row is left with what the answer says, status by status, field by field and due time by due time, and two members are inserted exactly when the seed selects a task that is alone with its execution frozen |
| `TaskEngine.Engine.PersistVrfAndMembers` | taskengine/progression.go:332-431 | A seed is written with its number and proof unless it selects a task whose execution is not frozen; a task that is alone then gets two Pending members whose arguments are the primary's with the answer's files pinned, and whose GPU is the answer's for a language task and the primary's otherwise |
| `ApplyEffect.MutationIsLocal` | taskengine/progression.go:79-152 | A creation, validation, cancellation or download answer inserts nothing and stays in its group: a validation accepted now or before marks every member submitted, one refused for good aborts every member, a creation leaves its row Created, as it was, or aborted, by its outcome, a download is recorded; identities, VRF data and slots stay, and no cancellation flag is set |
| `AnswerEffects.CreationApplied` | taskengine/progression.go:79-105 | An applied creation leaves its row Created for the outcomes created and already exists, waiting for a temporary error, and aborted by its creator for every other; only the siblings an abort catches change besides |
| `AnswerEffects.ValidationApplied` | taskengine/progression.go:106-131 | An applied validation marks every member submitted and due, with its status unchanged, for the outcomes validated and already applied; lets only its own row wait for a temporary error; and aborts every member for every other; rows outside the group are untouched |
| `AnswerEffects.CancellationApplied` | taskengine/progression.go:132-143 | Whatever its outcome, an applied cancellation clears the flag, makes the row due, and names the creator on an aborted row |
| `AnswerEffects.DownloadApplied` | taskengine/progression.go:144-150 | An applied download records the result and changes no other row |
| `ApplyEffect.FailureOnlyReschedules` | taskengine/progression.go:51-68 | A failed operation changes no status, flag, identity or VRF data: it frees its own slot, counts a retry and waits; only a lost validation touches other rows, those of its group, which must ask Relay again at once |
| `TaskEngine.Engine.ApplyOperationResult` | taskengine/progression.go:45-167 | The transaction is the state machine's applied step, and changes no row when it rolls back; when it commits an answer, the row's slot is freed and the other members are flagged exactly when they are caught by an abort in a group of three |
| `AnswerEffects.StatusApplied` | taskengine/progression.go:187-280 | An applied status answer, in every reachable state: it rolls back exactly when it brings a first seed that cannot be persisted; otherwise the row takes the local status of each of the twelve Relay statuses, unless it stays a local abort or has been queued for too long, with its due time, VRF data, flag and execution; two members are inserted exactly when the seed selects a task that is alone and frozen; and siblings are caught |
| `AnswerEffects.SuccessIsTaken` | taskengine/progression.go:456-481 | After such an answer the row is a success, and its download is decided, exactly for the two successful Relay statuses |
| `AnswerEffects.FailureApplied` | taskengine/progression.go:51-68 | An applied failure frees its row for a retry after the interval; the loss of a validation makes every member ask Relay again, the others at once; nothing else changes |
| `AnswerEffects.ApplicationCounts` | taskengine/scheduler.go:172-224 | After an applied answer its row's client task, and no other, is counted on the new rows: failures by TaskID, success exactly with a downloaded member, failure exactly when all are finished without one |
| `SiblingCancellation.AbortCatchesSiblings` | taskengine/progression.go:433-454 | An applied answer that leaves its row aborted in a group of three flags every other member that is not over and makes it due; in every other case no flag of another row changes |
| `SiblingCancellation.FlagStays` | taskengine/progression.go:433-454 | Over every run a flag stays until its row's own cancellation or status answer is applied or an abort commit takes the row |
| `ValidationMembers.EveryRunPairsMembers` | taskengine/progression.go:392-431 | In every reachable state the two added members of a group have the same arguments, GPU and VRAM, made from those of the first member by pinning some files' revisions |
| `TaskEngine.Engine.MarkBatchRunning` | taskengine/dispatch.go:270-292 | All rows of a batch are marked, or none: it fails exactly when a row is missing, busy or listed twice |
| `TaskEngine.Engine.DispatchKind` | taskengine/dispatch.go:203-222 | One kind starts its batches in order while slots are free; a batch that cannot be marked gives its slot back and ends the round, with a prefix of the plan started |
| `TaskEngine.Engine.DispatchDecisions` | taskengine/dispatch.go:186-238 | A round starts exactly the plan of its decisions, or a prefix of it ending at a batch with a row that was taken, even for stale decisions |
| `TaskEngine.Engine.AllWorkerPoolsFull` | taskengine/dispatch.go:255-268 | True exactly when no pool has a free slot |
| `TaskEngine.Engine.DispatchDueTasks` | taskengine/dispatch.go:23-53 | A round never fails, is a run of enabled start steps, starts exactly the plan of the listed rows' decisions, lists only selected rows, each once, leaves a selected row out only behind a full page or when every pool is full, and leaves every listed row running what was decided for it unless that operation's pool is full |
| `StepEffects.StartApplied` | taskengine/dispatch.go:270-292 | A started batch puts its operation in the slot of exactly its rows and changes nothing else |
| `StepEffects.FinishApplied` | taskengine/dispatch.go:442-467 | A worker's end stores each answer or failure in the rows that still run; a lost creation, validation or cancellation is unknown, a lost query or download is not; nothing else changes |
| `TaskEngine.Engine.WriteEnding` | taskengine/dispatch.go:469-486 | A worker's write changes a row exactly when its operation is still running |
| `TaskEngine.Engine.StoreReplies` | taskengine/dispatch.go:327-348 | Answers are stored in order up to the first row that is gone |
| `TaskEngine.Engine.FailRest` | taskengine/dispatch.go:454-467 | Every row of the batch without a stored answer is failed |
| `TaskEngine.Engine.RunWorker` | taskengine/dispatch.go:294-325 | A worker's writes are one finishing step of the state machine that frees its slot: each row gets its own answer or is lost, and all get their answers when the request was answered in full and no row was taken away |
| `TaskEngine.Engine.MarkUnexpandedCancelled` | taskengine/abort.go:150-168 | The transaction is the state machine's abort of an unexpanded client task |
| `StepEffects.UnexpandedAbortApplied` | taskengine/abort.go:150-168 | A running, unexpanded client task fails by its creator with no failures counted, and any other is left alone |
| `TaskEngine.Engine.ApplyCreatorAbortLocalState` | taskengine/abort.go:265-344 | The transaction is the state machine's abort commit; it fails exactly for a successful client task or a downloaded member, and reports failure of the client task exactly when all members have stopped without a result |
| `StepEffects.AbortApplied` | taskengine/abort.go:265-344 | The commit changes nothing once the client task has succeeded or a member has its result; otherwise exactly the cancelled rows become the creator's aborts, unflagged and idle, and the client task fails by its creator exactly with full success and every member stopped, and is counted again if not |
| `TaskEngine.Engine.AbortClientTask` | taskengine/abort.go:20-93 | Under arbitrary engine steps between its phases: a refused local check or preflight sends nothing and changes nothing; only commitments of all unfinished members are sent; the last transaction aborts the members Relay says are cancelled; success means the client task carries the creator's mark with every member stopped at that commit; only success sets the mark |
| `TaskEngine.AbortCommitEffect` | taskengine/abort.go:294-341 | The abort commit rewrites exactly the cancelled rows, and sets no creator's mark unless all members have stopped |
| `TaskEngine.PartialAbortEndsIff` | taskengine/abort.go:331-341 | In every reachable state, after a partial answer a running client task fails, without the creator's mark, exactly when every member Relay did not cancel had finished before the commit, and goes on running otherwise |
| `Witnesses.PartialAbortEndsClientTask` | taskengine/abort.go:331-341 | A run from the empty database: two members pass the checks and the preflight, one is cancelled, the other ends by an engine step before the commit, and the commit fails the client task without the creator's mark |
| `Aggregation.TallyMembers` | taskengine/scheduler.go:189-210 | The loop over the members, in any order, computes for every TaskID group whether all are finished and whether one is downloaded |
| `Aggregation.CountFailed` | taskengine/scheduler.go:211-216 | The count is the number of groups that are all finished without a download |
| `Aggregation.Aggregate` | taskengine/scheduler.go:189-222 | Verdict and failure count agree with the sets of members and of failed groups |
| `RecoveryLoop.UncheckedAll` | taskengine/scheduler.go:43-65 | Freeing running operations and then unchecking the groups of interrupted validations is the recovery of every row |
| `DueTasks.Query` | taskengine/dispatch.go:101-106 | One query returns matching rows in order, and leaves a match out only behind a full page of earlier matches |
| `DueTasks.Merge` | taskengine/dispatch.go:107-113 | A page is appended without repeating a row |
| `DueTasks.LoadDueTasks` | taskengine/dispatch.go:55-120 | Only selected rows are listed, each once; a selected row is left out only behind a full page of every query it matches; without a backlog the list is exactly the selected rows |
| `DispatchRules.QueriesList` | taskengine/dispatch.go:55-100 | Which rows each of the five queries lists, in statuses and flags, and that together they list every due idle row that is flagged or not finished |
| `DispatchRules.WaitsBehindAPage` | taskengine/dispatch.go:101-113 | A selected row is left out only behind a full page of listed rows that the same query lists before it, by due time and then key |
| `DueTasks.GroupReady` | taskengine/progression.go:548-568 | The two loops decide exactly whether the group of three is ready |
| `DueTasks.FindOwner` | taskengine/dispatch.go:167-176 | The first ready member in group order precedes every other ready member, and exists exactly when one is ready |
| `DueTasks.DecideOperation` | taskengine/dispatch.go:122-184 | The decision is the specified one, its error branch is never taken, and a validation carries the whole group in order |
| `DispatchRules.DecidesExactly` | taskengine/dispatch.go:122-184 | The operation a row is sent to, each exactly when: a query before anything else, then the flag, the download, the creation, and the validation of a row that is alone or speaks for a ready group of three as its first ready member |
| `DispatchPlan.BatchesArePrefix` | taskengine/dispatch.go:203-222 | The batches of a kind are a prefix of its decisions cut at the batch size, all but the last full, and decisions are left over only when every free slot got a full batch |
| `DispatchPlan.PlanCounts` | taskengine/dispatch.go:203-236 | A plan takes from every pool exactly the batches of its kind |
| `DispatchPlan.PlanIsStartable` | taskengine/dispatch.go:186-238 | A plan made from distinct ready rows never starts a row twice, never exceeds a pool, and finds every row ready |
| `DispatchPlan.LaunchesAreSteps` | taskengine/dispatch.go:186-238 | Such launches are a run of the state machine, each an enabled step |
| `DispatchRules.StartsExactlyWithin` | taskengine/dispatch.go:203-253 | A start step is enabled exactly for due selected rows that are all decided for its operation, within that operation's own batch size and pool size |
| `DispatchRules.EveryRunKeepsLimits` | taskengine/dispatch.go:203-253 | In every reachable state the live workers of each kind and the rows each holds are within that kind's own limits |
| `DispatchRules.KindsInOrder` | taskengine/dispatch.go:190-193 | The decisions of one kind keep their order |
| `DispatchRules.RoundServes` | taskengine/dispatch.go:186-238 | Every listed row runs the operation decided for it after a round, unless that operation's pool is full |
| `DispatchPlan.PlanCanMark` | taskengine/dispatch.go:270-292 | Within such a plan no batch can fail to be marked |
| `DispatchPlan.DecideAll` | taskengine/dispatch.go:31-51 | The loop over the listed rows reports no error and yields their decisions in order |
| `DispatchPlan.EverySelectedRowIsDecided` | taskengine/dispatch.go:31-51 | Every listed selected row gets exactly one decision, in its place |
| `AbortChecks.AllGroupsCancellable` | taskengine/abort.go:170-198 | Group by group, the check passes exactly when every member is pending, created, or ended without a result |
| `AbortChecks.RefusedExactly` | taskengine/abort.go:29-45 | An abort is refused without asking Relay exactly for a client task that has succeeded, a member with its result, or an expanded client task with a member that has started |
| `AbortChecks.ValidateAbortPreflight` | taskengine/abort.go:200-219 | The preflight passes exactly when the last item for every commitment is found and is queued or already cancelled by the creator |
| `AbortChecks.PreflightMeans` | taskengine/abort.go:200-219 | It passes exactly when the last item reported for every commitment is found and queued, or aborted by its creator |
| `AbortChecks.ClassifyAbortResults` | taskengine/abort.go:221-263 | Exactly the rows whose commitment is reported cancelled are returned; no error exactly when all are; a missing or temporary outcome outranks a refusal |
| `AbortChecks.SaysExactly` | taskengine/abort.go:221-263 | A commitment is cancelled, or refused, exactly by the outcome of the last result that names it |
| `AbortChecks.CollectCommitments` | taskengine/abort.go:47-61 | The commitments of exactly the unfinished members are collected, each with its row |
| `AbortChecks.AbortsExactly` | taskengine/abort.go:47-61 | The members named to Relay are those with work left, a success that waits for its download among them; the ones aborted are those Relay's last word on which is that they are cancelled |
| `AbortChecks.CancelledRows` | taskengine/abort.go:245-249 | With distinct commitments the returned rows are exactly the unfinished members reported cancelled |
| `AbortChecks.RequestCancellation` | taskengine/abort.go:47-81 | Nothing is sent unless the preflight passes for every unfinished member, and then all of them are; an answered request aborts exactly the cancelled members |
| `AbortChecks.StoppedWithoutSuccess` | taskengine/abort.go:324-330 | True exactly when there are members, all finished and none downloaded |
| `ClientPhase.ComputeClientTaskPhase` | taskengine/client_task_phase.go:122-186 | The loops give the phase, estimate and message that the set of members determines |
| `ClientPhase.PhaseIsDetermined` | taskengine/client_task_phase.go:109-186 | One client task and one set of members with distinct keys have one answer, so it does not depend on the members' order |
| `ClientPhase.PhaseMeans` | taskengine/client_task_phase.go:45-64 | The phase in terms of the members' statuses: that of the most advanced member that has not failed; failed once every member has |
| `ClientPhase.EstimateMeans` | taskengine/client_task_phase.go:109-186 | Only a running phase has an estimate: that of the running member that was updated first |
| `ClientPhase.MessageMeans` | taskengine/client_task_phase.go:66-107 | Only a failure has a message: the creator's cancellation, or that of the member that was updated first, by its status, its abort reason and its error |
| `ClientPhase.FindLeading` | taskengine/client_task_phase.go:164-176 | The leading member is ahead of every other by phase, then update time, then key |
| `ClientPhase.RunningClientTaskIsInProgress` | taskengine/client_task_phase.go:122-186 | In every reachable state a running client task shows one of the five phases in progress, an unexpanded one shows queued, and a successful one shows success |
| `ModelFiles.CanonicalKey` | models/model_file.go:56-67 | The key is the join of the sorted encodings of the entries |
| `ModelFiles.KeysAgreeIff` | models/model_file.go:56-67 | Two keys are equal exactly when the entries are the same, each as often, in any order |
| `ModelFiles.CheckGroupExecutionModelFiles` | models/model_file.go:76-100 | The check passes exactly when every member without files has aborted and all recorded file sets are equal |
| `ModelFiles.ExecuteValidationBatch` | taskengine/dispatch.go:370-417 | An inconsistent group of three is refused without being sent; every other unit is sent once and gets Relay's outcome at its own place |
| `CanonicalJson.RoundTrip` | models/canonical_json.go:31-67 | A parser applied to the printed form of any decoded value, followed by anything that cannot continue a number, returns that value and the continuation |
| `CanonicalJson.PrintIsInjective` | models/canonical_json.go:31-67 | Different values print differently, even with text following |
| `CanonicalJson.StringRoundTrip` | models/canonical_json.go:69-96 | The escapes written are those of section 7 of RFC 8259: a parser of that grammar reads every string back |
| `CanonicalJson.KeysListed` | models/canonical_json.go:51-55 | Object keys are written in order, each once |
| `CanonicalJson.WriteCanonicalString` | models/canonical_json.go:69-96 | The writer appends exactly the printed string: between quotation marks the characters one by one, seven as two-character escapes, every other control character as four lower-case hexadecimal digits, and any other as itself |
| `CanonicalForm.PrintedIsShortest` | models/canonical_json.go:69-96 | Among all texts a parser reads as the string the printed one is the shortest |
| `CanonicalForm.PrintedIsRead` | models/canonical_json.go:69-96 | It is such a text itself, with no capital in its escapes |
| `CanonicalForm.PrintedIsOnly` | models/canonical_json.go:69-96 | It is the only one as short without capitals in its escapes |
| `CanonicalForm.ArrayIsItsItems` | models/canonical_json.go:31-49 | Literals and numbers as they are; an array is its items in order with nothing but commas between them |
| `CanonicalForm.ObjectIsItsFields` | models/canonical_json.go:50-66 | An object is its fields, each name once and in ascending order, with nothing but colons and commas between them |
| `CanonicalJson.WriteCanonicalValue` | models/canonical_json.go:31-67 | The writer appends exactly the printed form, whatever order the keys are collected in |
| `CanonicalJson.OrderedKeys` | models/canonical_json.go:51-55 | Keys collected in any order and sorted are the one ordered list of the keys |
| `TraceIndex.EveryRunAgrees` | tasktrace/store.go:340-426 | Over every run whose later snapshots keep known identities, no nil record is dereferenced, every index entry names a live record that holds the identity, and the order lists exactly the live records, each once |
| `TraceIndex.AddTaskAgreesIff` | tasktrace/store.go:340-373 | One more snapshot breaks the agreement exactly when the record drops an identity an index still leads to it by |
| `TraceIndex.ForgottenIdentityCrashes` | tasktrace/store.go:276-287 | Without the hypothesis: after a snapshot that drops an identity and the eviction of its trace, an event for a task known by that identity dereferences a nil record |
| `TraceIndex.ForgettingRunCrashes` | tasktrace/store.go:276-287 | Three operations from the empty store that lead there, and a fourth that dereferences the nil record |
| `TraceIndex.NewTraceIsKept` | tasktrace/store.go:196-214 | A new trace goes last, and what stays is the most recent insertions, as many as the limit |
| `TraceIndex.EveryRunIsBounded` | tasktrace/store.go:399-426 | Over every run that has not failed, with one limit, the order is duplicate-free, lists exactly the live traces, and is never longer than the limit |
| `TraceIndex.EvictKeepsRecent` | tasktrace/store.go:399-426 | Eviction keeps exactly the most recent insertions, unchanged |
| `TraceIndex.EveryRunCompletes` | tasktrace/store.go:340-426 | If traces also share no identity, every identity of a live record leads to it |
| `TraceIndex.GetTraceIsLinearSearch` | tasktrace/store.go:325-338 | For such traces the indexed lookup finds a trace exactly when it is live and holds the TaskID |
| `TraceStore.Store.AddTasks` | tasktrace/store.go:340-373 | The loop is the addition of all tasks to one record and to the four indices |
| `TraceEffects.AddingAdds` | tasktrace/store.go:340-373 | Each added task is in the record with its last snapshot and the events it had, under its row, commitment or TaskID; every known identity leads to the record; nothing else changes |
| `TraceIndex.PrimaryIsTheHolder` | tasktrace/store.go:375-397 | Over every run of growing, separate traces the trace found for a task is live and holds one of the task's known identities, and none is found exactly when no live trace holds any of them |
| `TraceStore.Store.EvictLocked` | tasktrace/store.go:399-426 | The loops are the eviction of whole traces with all their index entries |
| `TraceStore.Store.StartTrace` | tasktrace/store.go:156-215 | Starting a trace, new or existing, is the specified operation, and returns its key |
| `TraceEffects.StartHolds` | tasktrace/store.go:156-215 | A new trace holds its tasks without events, under its first commitment or its client task, and the live traces that remain are as they were |
| `TraceEffects.RestartAdds` | tasktrace/store.go:184-189 | Starting a live trace again adds its tasks to it |
| `TraceStore.Store.FinishTrace` | tasktrace/store.go:217-241 | Finishing adds the final task to a live trace, and does nothing otherwise |
| `TraceEffects.FinishAdds` | tasktrace/store.go:217-241 | The final task is added to a live trace, and otherwise nothing changes |
| `TraceStore.Store.RegisterRelatedTasks` | tasktrace/store.go:243-257 | It fails exactly when an index leads to a trace that is gone; otherwise it adds the tasks |
| `TraceEffects.RelatedAdds` | tasktrace/store.go:243-257 | The tasks are added to the trace of the parent, found by its commitment, TaskID, row or client task, the first that has an entry |
| `TraceStore.Store.RegisterClientTasks` | tasktrace/store.go:259-274 | It adds the tasks to the client task's live trace, if any |
| `TraceEffects.ClientTasksAdd` | tasktrace/store.go:259-274 | The tasks are added to the client task's trace if it is live, and otherwise nothing changes |
| `TraceStore.Store.RecordEvent` | tasktrace/store.go:276-305 | It fails exactly when an index leads to a trace that is gone; otherwise the task is added and the event stored once for a task, name and status |
| `TraceEffects.EventIsStored` | tasktrace/store.go:276-305 | The task is added to its trace, and the event goes to the end of its events unless it has one of that name and status |
| `TraceEffects.EveryRunStoresOnce` | tasktrace/store.go:290-297 | Over every run that has not failed no task has two events of one name and status |
| `TraceStore.Store.ListTraces` | tasktrace/store.go:307-323 | The newest traces first, at most the limit, fifty by default |
| `Fees.CNXToWeiIsExact` | config/fees.go:25-43 | Rejection exactly for bad syntax, more than nine fraction digits, or an amount over the limit; otherwise the one numeral of the exact amount |
| `Fees.WeiIsExact` | config/fees.go:25-43 | The Wei amount is the CNX amount times ten to the eighteenth, as fractions |
| `Fees.SpellingsAgreeIff` | config/fees.go:25-43 | Two accepted spellings give the same text exactly when they denote the same amount |
| `Fees.NumeralIsUnique` | config/fees.go:12-23 | A number has one numeral |
| `Fees.AmountSyntax` | config/fees.go:10-11 | An amount is digits without a leading zero, alone or followed by a point and at least one digit; a numeral is the former |
| `Fees.LargestAmount` | config/fees.go:12 | The limit is the largest number of 256 bits |
| `Fees.MultiplyWeiIsExact` | config/fees.go:45-52 | The one numeral of the exact product, rejected exactly for a bad or oversized operand or an oversized product |
| `RevisionPinning.PinTaskArgsRevisions` | models/pin_task_args.go:12-113 | Success exactly when every file has a target and every target at most one file, with a revision; the result is the pinned arguments, whatever the order of files and components |
| `RevisionPinning.LanguageTaskIsPinned` | models/pin_task_args.go:26-46 | A language task is pinned exactly when there is one file and it is for its model, of no format and with a revision; then the arguments gain that revision |
| `RevisionPinning.ImageTaskPlaces` | models/pin_task_args.go:47-100 | The places of an image task are its base model, as diffusers, and every component by its repository and format; a fine-tuning task has none |
| `RevisionPinning.SameModelMeans` | models/pin_task_args.go:115-117 | A file is for a place exactly when the formats are equal and the names are, a URL exactly and any other in lower case |
| `RevisionPinning.MatchTarget` | models/pin_task_args.go:30-44 | The loop over the files fails exactly when a target has two files, or one without a revision, and otherwise finds its revision and the matched files |
| `RevisionPinning.PinComponents` | models/pin_task_args.go:70-100 | The loop over the components, in any order, writes every component's revision |
| `RevisionPinning.PinningKeepsTargets` | models/pin_task_args.go:12-113 | Erasing the revisions of the pinned arguments gives what erasing them from the original gives, and no target changes |
| `RevisionPinning.PinningTwiceIsPinningOnce` | models/pin_task_args.go:12-113 | Pinning pinned arguments with the same files succeeds and changes nothing |
| `RevisionPinning.TargetsCarryRevisions` | models/pin_task_args.go:24-100 | Every target carries the revision of the file for it, and is unchanged if there is none: the model of a language task, the base model and each component of an image task |
| `RevisionPinning.AllTakenIff` | models/pin_task_args.go:105-107 | Counting matched file positions decides whether every file has a target |
| `HeartbeatPlan.PlanBatch` | tasks/heartbeat_task.go:633-704 | The number of submissions is the sum of the per-slot increments, within the batch size, the rest of the hourly quota and the rest of the total limit; the increments count the submissions of each slot; each submission was within its entry's limit when it was chosen; a batch is short of its size only when a quota or limit is used up or no entry can be chosen; and none is planned only when a submission could not be built |
| `HeartbeatPlan.SlotsAreApart` | tasks/heartbeat_task.go:86-88 | Two entries share a slot exactly when type, letter case aside, model and quantization agree, if types and models do not contain the separator |
| `HeartbeatPlan.Select` | tasks/heartbeat_task.go:112-147 | Any eligible entry is chosen; none exactly when there is none or a key cannot be computed |
| `HeartbeatPlan.SumPendingCounts` | tasks/heartbeat_task.go:577-583 | The loop over the counters, in any order, gives their sum |

## Left out

- HTTP handlers, API keys' authentication, rate limiting, the Relay transport, result download and archive
  extraction, logging, configuration files: input and output around the modelled logic.
- SQL and GORM: each transaction is one atomic step on maps of rows; ordered and limited queries are
  modelled by what they return (`DueTasks.IsPage`).
- A dispatch round, and selecting a client task and expanding it, are atomic with respect to a creator
  abort: `markRunning` rechecks only the slot and `expandClientTask` only the expansion flag. A worker's
  batch of writes is one step, because `retryOperationWrite` matches any running operation of the row.
- TaskEngine.Engine.Recover: recovery is one step; a second crash between its bulk update and its loop over interrupted validations is not modelled, and would leave the siblings of such a validation checked.
- TaskEngine.Engine.ExpandClientTask: the fresh TaskIDs, commitments and keys are parameters; a database failure inside the transaction is not modelled.
- TaskEngine.Engine.ApplyOperationResult: the trace registration after the transaction is not modelled; the trace cache is proved on its own.
- TaskEngine.Engine.DispatchDueTasks: the branch that gives a row its missing commitment (`taskengine/dispatch.go` lines 33-43) is never reached, because every inserted row has one, and is left out.
- TaskEngine.Engine.DispatchKind: the result pool's own loop is the same loop with batches of one row.
- TaskEngine.Engine.AbortClientTask: members without a commitment do not exist in reachable states, so the list of them is proved empty instead of being carried; the phase fields of the returned record are in `ClientPhase`; the error of an abort that finds no client task is not told apart from a database error.
- The order in which answered operations are applied, the tick of the main loop, and limits on how many are
  applied or expanded in one tick: any order and any number is covered.
- The heartbeat client's row is looked up by the engine and cached; each applied answer carries what the
  lookup gave.
- Row fields that no modelled decision reads: nonce, task version and size, memory and time limits, model
  identifiers, quantization key, error texts, update times of rows (they are parameters of `ClientPhase`).
- Fine-tuning tasks, which another component processes: the engine's queries never select them, and the
  invariant covers their client tasks only as far as the engine touches them.
- ValidationSafety.LossUnreconcilesGroup: a validation whose row a creator abort takes away is not counted as lost; the code marks no member then, and another member may validate the group.
- CanonicalJson.RoundTrip: strings are sequences of Unicode scalar values, so invalid UTF-8 and the surrogate escapes a general parser would accept are not modelled; the marshalling before the printer is not modelled.
- ModelFiles.CanonicalKey: an entry is reduced to repository, revision and format, and its encoding cannot fail.
- RevisionPinning.PinTaskArgsRevisions: arguments are decoded JSON; the kinds of error are not told apart, because with several faults the kind depends on the order of the files.
- TraceStore.Store.StartTrace: as for `AddTasks`, only what the indices and the order depend on.
- TraceStore.Store.FinishTrace: as for `AddTasks`, only what the indices and the order depend on.
- TraceStore.Store.RecordEvent: an event is identified by its task's key, its name and its status as a triple instead of one joined text.
- TraceStore.Store.AddTasks: roles, request and response payloads, times and the rendering of a trace are not modelled; a trace key is a tagged commitment or client task instead of a prefixed string.
- Fees.MultiplyWeiIsExact: the validation of whole configuration files by `validateTaskFeeConfig` is not modelled.
- HeartbeatPlan.PlanBatch: the weighted sampling is any choice among the eligible entries, whether a task can be generated is fixed for each entry, counters are unbounded, and the hourly window, the sleeping and the submission itself are not modelled.
- The count of pending submissions in `taskengine/engine.go`: it matches only some spellings of a model, so
  no general law holds of it.
