/** Runs from the empty database that reach what the exact conditions describe: each shows that a claim
    fails without the condition, or without the hypothesis, that the theorems name. */
module Witnesses {
  import opened Wrappers
  import opened Models
  import opened Config
  import opened Progression
  import opened Dispatch
  import opened StateMachine
  import opened ApplyEffect
  import opened GroupInvariant
  import opened SlotInvariant
  import opened Invariant
  import opened Lifecycle
  import opened RowRevival
  import opened Counterexamples
  import opened AbortChecks
  import Frames
  import Reconciliation
  import TaskEngine
  import TerminalClosure
  import ValidationSafety

  // ---- A row whose status query has been answered ----

  /** Run to the state in which Relay's answer about the first row is stored and not yet applied. */
  lemma AskFirst(cfg: Config, item: StatusItem) returns (steps: seq<Step>, ctx: Context)
    requires cfg.Valid()
    ensures var s := Run(cfg, INITIAL, steps);
            && Inv(cfg, s) && s.workers == map[] && s.clients == WaitingState().clients
            && s.tasks == map[0 := FIRST_ROW.(slot := Slot(OpSync, SlotCompleted, StatusReply(item)))]
            && Enabled(cfg, s, Apply(0, ctx)) && ctx.heartbeatClient == None
  {
    var answer := Answered(StatusReply(item));
    var start, finish := StartWorker(0, OpSync, {0}, 0), Finish(0, map[0 := answer]);
    Expansion(cfg);
    EveryRunKeepsInv(cfg, EXPAND);
    DueQueriesCover(FIRST_ROW, 0);
    var s := WaitingState();
    assert Decide(s.tasks, 0) == OpSync;
    hide Inv, Selected, Decide, Run, Exec;
    StartAlone(cfg, s, 0, 0);
    var s1 := Exec(cfg, s, start);
    FinishAlone(cfg, s1, 0, OpSync, answer);
    var s2 := Exec(cfg, s1, finish);
    assert s2.tasks == map[0 := FIRST_ROW.(slot := Slot(OpSync, SlotCompleted, StatusReply(item)))];
    hide EndedRow;
    ctx := FreshContext(s2.tasks, 0);
    steps := EXPAND + [start, finish];
    RunTwoMore(cfg, EXPAND, start, finish);
    ApplyIsEnabled(cfg, s2, 0, ctx);
  }

  lemma RunOneMore(cfg: Config, steps: seq<Step>, a: Step)
    ensures Run(cfg, INITIAL, steps + [a]) == Exec(cfg, Run(cfg, INITIAL, steps), a)
  {
    assert (steps + [a])[..|steps|] == steps;
  }

  lemma RunTwoMore(cfg: Config, steps: seq<Step>, a: Step, b: Step)
    ensures Run(cfg, INITIAL, steps + [a, b]) == Exec(cfg, Exec(cfg, Run(cfg, INITIAL, steps), a), b)
  {
    assert steps + [a, b] == (steps + [a]) + [b];
    hide Run, Exec;
    RunOneMore(cfg, steps, a);
    RunOneMore(cfg, steps + [a], b);
  }

  // ---- Members inserted after the end ----

  /** Relay reports the only row of a group as ended; applying that answer ends the row and inserts two
      members, Pending, that will be created on Relay. */
  lemma MembersAfterTheEnd(cfg: Config) returns (steps: seq<Step>, ctx: Context)
    requires cfg.Valid() && Selects(cfg)
    ensures var s := Run(cfg, INITIAL, steps);
            && s.tasks.Keys == {0} && s.tasks[0].slot == Slot(OpSync, SlotCompleted, StatusReply(Item(ChainEndInvalidated)))
    ensures var s' := Run(cfg, INITIAL, steps + [Apply(0, ctx)]);
            && 0 in s'.tasks && s'.tasks[0].status == EndInvalidated && |Group(s'.tasks, "task")| == 3
            && ctx.first.id in Group(s'.tasks, "task") && s'.tasks[ctx.first.id].status == Pending
            && !s'.tasks[ctx.first.id].cancelRequired
  {
    var item := Item(ChainEndInvalidated);
    steps, ctx := AskFirst(cfg, item);
    RunOneMore(cfg, steps, Apply(0, ctx));
    var s := Run(cfg, INITIAL, steps);
    hide Run;
    var t := s.tasks[0];
    assert LooksAtSeed(cfg, t, item, ctx);
    ValidationSafety.MembersInsertedIff(cfg, s, 0, ctx);
    InvSize(cfg, s, 0);
    CommitsUnless(cfg, s.tasks, 0, ctx);
    assert SyncedRow(cfg, t, item, ctx).status == EndInvalidated;
    hide Inv, LooksAtSeed, OperationEffect, SyncedRow;
    StepKeepsInv(cfg, s, Apply(0, ctx));
    EndedWithMembers(cfg, s, ctx);
  }

  lemma EndedWithMembers(cfg: Config, s: State, ctx: Context)
    requires s.tasks.Keys == {0} && s.tasks[0].spec == FIRST_ROW.spec && s.tasks[0].spec.clientTaskId in s.clients
    requires s.tasks[0].slot == Slot(OpSync, SlotCompleted, StatusReply(Item(ChainEndInvalidated)))
    requires Enabled(cfg, s, Apply(0, ctx)) && OperationEffect(cfg, s.tasks, 0, ctx).Some?
    requires SyncedRow(cfg, s.tasks[0], Item(ChainEndInvalidated), ctx).status == EndInvalidated
    requires ctx.first.id in Exec(cfg, s, Apply(0, ctx)).tasks && Inv(cfg, Exec(cfg, s, Apply(0, ctx)))
    ensures var s' := Exec(cfg, s, Apply(0, ctx));
            && 0 in s'.tasks && s'.tasks[0].status == EndInvalidated && |Group(s'.tasks, "task")| == 3
            && ctx.first.id in Group(s'.tasks, "task") && s'.tasks[ctx.first.id].status == Pending
            && !s'.tasks[ctx.first.id].cancelRequired
  {
    var s' := ApplyStep(cfg, s, 0, ctx);
    assert Exec(cfg, s, Apply(0, ctx)) == s';
    var applied, inserted := ApplyStepEffect(cfg, s, 0, ctx);
    assert s'.tasks[0].status == EndInvalidated by { hide SyncedRow, ApplyStep, Exec, Inv; assert applied; }
    UnflaggedUnlessAborted(cfg, s, ctx);
    InvSize(cfg, s', 0);
    hide Inv, OperationEffect, ApplyStep, Exec, Enabled, VrfChange, OwnRow;
    assert inserted && InsertedMember(s'.tasks[0], s'.tasks[ctx.first.id], ctx.first, ctx.now);
  }

  /** A member inserted beside a row that is not aborted is not flagged. */
  lemma UnflaggedUnlessAborted(cfg: Config, s: State, ctx: Context)
    requires s.tasks.Keys == {0} && Enabled(cfg, s, Apply(0, ctx)) && s.tasks[0].spec.clientTaskId in s.clients
    requires s.tasks[0].slot == Slot(OpSync, SlotCompleted, StatusReply(Item(ChainEndInvalidated)))
    requires OperationEffect(cfg, s.tasks, 0, ctx).Some?
    ensures var b := ApplyStep(cfg, s, 0, ctx).tasks;
            0 in b && b[0].status != EndAborted && ctx.first.id in b ==> !b[ctx.first.id].cancelRequired
  {
    hide SyncedRow, Recalculated, LooksAtSeed, DefersVrf, Group;
    var effect := OperationEffect(cfg, s.tasks, 0, ctx).value;
    assert ctx.first.id in effect ==> !effect[ctx.first.id].cancelRequired;
    hide OperationEffect;
  }

  // ---- A validation without VRF data ----

  /** A first ready answer without a seed, or with one that selects the task before its execution is
      assigned: the row is sent to validation next, alone and without VRF data, whatever its VRF says. */
  lemma UnprovenTaskIsValidated(cfg: Config, item: StatusItem) returns (steps: seq<Step>)
    requires cfg.Valid() && ValidationSafety.ReadyItem(item)
    requires item.samplingSeed == "" || DefersVrf(cfg, FIRST_ROW, item)
    ensures var s := Run(cfg, INITIAL, steps);
            0 in s.tasks && Decide(s.tasks, 0) == OpValidate && s.tasks[0].vrf.seed == "" && |Group(s.tasks, "task")| == 1
  {
    var before, ctx := AskFirst(cfg, item);
    steps := before + [Apply(0, ctx)];
    RunOneMore(cfg, before, Apply(0, ctx));
    var s := Run(cfg, INITIAL, before);
    hide Run, Decide;
    ValidationSafety.UnprovenValidationExactly(cfg, s, 0, ctx);
    StepKeepsInv(cfg, s, Apply(0, ctx));
    TerminalClosure.StepKeepsRows(cfg, s, Apply(0, ctx));
    var s' := Exec(cfg, s, Apply(0, ctx));
    InvSize(cfg, s', 0);
  }

  /** A ready answer whose seed selects the task, before its execution is assigned. */
  const UNASSIGNED_ITEM := Item(ChainScoreReady).(modelFiles := [])

  /** So a task the VRF selects for three members is validated as a single one. */
  lemma SelectedTaskIsValidatedAlone(cfg: Config) returns (steps: seq<Step>)
    requires cfg.Valid() && Selects(cfg)
    ensures var s := Run(cfg, INITIAL, steps);
            0 in s.tasks && Decide(s.tasks, 0) == OpValidate && s.tasks[0].vrf.seed == "" && |Group(s.tasks, "task")| == 1
  {
    steps := UnprovenTaskIsValidated(cfg, UNASSIGNED_ITEM);
  }

  // ---- A mutation sent twice without asking in between ----

  const UNKNOWN_ITEM := StatusItem(false, ChainQueued, ReasonNone, ErrorNone, 0, "", "", 0, [], None, false)

  /** Relay does not know the task; its creation is sent and lost, the status query after it is lost
      too, and the creation is sent again. */
  lemma CreationIsSentTwice(cfg: Config) returns (before: seq<Step>, steps: seq<Step>, again: Step)
    requires cfg.Valid()
    ensures var s := Run(cfg, INITIAL, before);
            && |steps| > 1 && steps[0].StartWorker? && steps[0].op == OpCreate && 0 in steps[0].rows && Enabled(cfg, s, steps[0])
            && steps[1].Finish? && 0 in steps[1].endings && steps[1].endings[0] == Lost
            && Reconciliation.Silent(cfg, s, steps, 0)
            && again.StartWorker? && again.op == OpCreate && 0 in again.rows && Enabled(cfg, Run(cfg, s, steps), again)
  {
    Expansion(cfg);
    EveryRunKeepsInv(cfg, EXPAND);
    DueQueriesCover(FIRST_ROW, 0);
    var s := WaitingState();
    var answer := Answered(StatusReply(UNKNOWN_ITEM));
    assert Decide(s.tasks, 0) == OpSync;
    hide Inv, Selected, Run, Reconciliation.Silent, Enabled;
    var first, ctx := Round(cfg, s, 0, answer, 0);
    RunIsSequential(cfg, INITIAL, EXPAND, first);
    before := EXPAND + first;
    var r := OwnRow(cfg, EndedSlot(FIRST_ROW, OpSync, answer), ctx);
    assert r.status == Pending && r.relayChecked && !r.relayFound && !r.unknown && !r.cancelRequired && Open(r);
    hide OwnRow;
    steps, again := Reconciliation.MutationIsRepeated(cfg, Run(cfg, INITIAL, before), 0);
  }

  function TimeoutSteps(cfg: Config): seq<Step> {
    [StartWorker(0, OpSync, {0}, 0), Finish(0, map[0 := Answered(StatusReply(QUEUED_ITEM))]), Apply(0, Answer(cfg))]
  }

  /** The same of a cancellation: that of a submission that has timed out in Relay's queue. */
  lemma CancellationIsSentTwice(cfg: Config) returns (before: seq<Step>, steps: seq<Step>, again: Step)
    requires cfg.Valid() && cfg.heartbeatMaxQueuedDuration > 0
    ensures var s := Run(cfg, INITIAL, before);
            && |steps| > 1 && steps[0].StartWorker? && steps[0].op == OpCancel && 0 in steps[0].rows && Enabled(cfg, s, steps[0])
            && steps[1].Finish? && 0 in steps[1].endings && steps[1].endings[0] == Lost
            && Reconciliation.Silent(cfg, s, steps, 0)
            && again.StartWorker? && again.op == OpCancel && 0 in again.rows && Enabled(cfg, Run(cfg, s, steps), again)
  {
    Expansion(cfg);
    QueueTimeout(cfg);
    RunIsSequential(cfg, INITIAL, EXPAND, TimeoutSteps(cfg));
    before := EXPAND + TimeoutSteps(cfg);
    assert Run(cfg, INITIAL, before) == TimedOutState(cfg);
    EveryRunKeepsInv(cfg, before);
    assert Decide(TimedOutState(cfg).tasks, 0) == OpCancel;
    hide Run, Inv, Reconciliation.Silent, Enabled;
    steps, again := Reconciliation.MutationIsRepeated(cfg, TimedOutState(cfg), 0);
  }

  // ---- A partial abort that ends the client task ----

  function Repeated(commitment: string, taskId: string): InferenceTask {
    NewTask(TaskSpec(7, 1, SD, "{}", "1", "", 0, taskId, 0), commitment, NO_VRF, 0)
  }

  /** One client task with two repeats, each alone in its group. */
  const TWO_WAITING :=
    State(0, map[1 := ClientTask(7, SD, None, 2, ClientRunning, 0, false, true, 0)],
          map[0 := Repeated("a", "one"), 1 := Repeated("b", "two")], map[], {})

  const SUBMIT_TWO := Submit(1, 7, SUBMISSION, Some(2), 0)
  const EXPAND_TWO := Expand(1, [Repeat(Identity(0, "a"), "one"), Repeat(Identity(1, "b"), "two")], 0)

  lemma TwoExpanded(cfg: Config)
    requires cfg.Valid()
    ensures Run(cfg, INITIAL, [SUBMIT_TWO, EXPAND_TWO]) == TWO_WAITING
  {
    var s1 := Exec(cfg, INITIAL, SUBMIT_TWO);
    var repeats := EXPAND_TWO.repeats;
    assert [SUBMIT_TWO, EXPAND_TWO] == ([] + [SUBMIT_TWO]) + [EXPAND_TWO];
    RunOneMore(cfg, [], SUBMIT_TWO);
    RunOneMore(cfg, [] + [SUBMIT_TWO], EXPAND_TWO);
    assert FreshRepeats(s1.tasks, repeats);
    assert repeats[..1] == [repeats[0]] && repeats[..1][..0] == [];
    assert InsertPrimaries(map[], s1.clients[1], 1, repeats[..1], 0) == map[0 := Repeated("a", "one")];
    assert InsertPrimaries(map[], s1.clients[1], 1, repeats, 0) == TWO_WAITING.tasks;
  }

  const ENDED_ITEM := StatusItem(true, ChainEndAborted, Timeout, ErrorNone, 0, "", "", 0, [], None, false)
  const ENDED_ANSWER := Answered(StatusReply(ENDED_ITEM))

  /** The second repeat has ended, the first has not, and the client task is running. */
  predicate OneEnded(s: State) {
    && s.tasks.Keys == {0, 1} && s.tasks[0] == Repeated("a", "one")
    && s.tasks[1].spec == Repeated("b", "two").spec && s.tasks[1].status == EndAborted
    && 1 in s.clients && s.clients[1].status == ClientRunning && s.clients[1].expanded && s.clients[1].taskType == SD
  }

  lemma SecondAsked(cfg: Config, s: State)
    requires cfg.Valid() && s == TWO_WAITING && Inv(cfg, s)
    ensures var s1 := Exec(cfg, s, StartWorker(0, OpSync, {1}, 0));
            && Inv(cfg, s1) && s1.clock == 0 && s1.workers == map[0 := Worker(OpSync, {1})] && s1.clients == s.clients
            && s1.tasks == s.tasks[1 := Repeated("b", "two").(slot := QUERYING)]
  {
    DueQueriesCover(s.tasks[1], 0);
    assert Decide(s.tasks, 1) == OpSync;
    hide Inv, Selected, Decide, Exec;
    StartAlone(cfg, s, 1, 0);
  }

  lemma ApplyIsEnabled(cfg: Config, s: State, k: nat, ctx: Context)
    requires k in s.tasks && s.tasks[k].slot.status == SlotCompleted && s.clock <= ctx.now
    requires FreshIdentity(s.tasks, ctx.first) && FreshIdentity(s.tasks, ctx.second)
    requires ctx.first.id < ctx.second.id && ctx.first.commitment != ctx.second.commitment
    ensures Enabled(cfg, s, Apply(k, ctx))
  {
    hide FreshIdentity;
  }

  lemma SecondAnswered(cfg: Config, s: State, s1: State)
    requires cfg.Valid() && Inv(cfg, s1) && s1.workers == map[0 := Worker(OpSync, {1})] && s1.clock == 0
    requires s1.tasks == s.tasks[1 := Repeated("b", "two").(slot := QUERYING)] && s1.clients == s.clients
    ensures var s2 := Exec(cfg, s1, Finish(0, map[1 := ENDED_ANSWER]));
            && s2.clock == 0 && s2.clients == s.clients
            && s2.tasks == s.tasks[1 := Repeated("b", "two").(slot := Slot(OpSync, SlotCompleted, StatusReply(ENDED_ITEM)))]
  {
    hide Inv, Exec;
    FinishAlone(cfg, s1, 1, OpSync, ENDED_ANSWER);
    var t := Repeated("b", "two");
    assert EndedRow(t.(slot := QUERYING), OpSync, ENDED_ANSWER) == t.(slot := Slot(OpSync, SlotCompleted, StatusReply(ENDED_ITEM)));
    Overwritten(s.tasks, 1, t.(slot := QUERYING), t.(slot := Slot(OpSync, SlotCompleted, StatusReply(ENDED_ITEM))));
  }

  lemma Overwritten(tasks: Tasks, k: nat, a: InferenceTask, b: InferenceTask)
    ensures tasks[k := a][k := b] == tasks[k := b]
  {
  }

  /** The engine hears that the second repeat has ended on Relay. */
  lemma SecondEnds(cfg: Config) returns (steps: seq<Step>)
    requires cfg.Valid()
    ensures OneEnded(Run(cfg, TWO_WAITING, steps))
  {
    var s := TWO_WAITING;
    TwoExpanded(cfg);
    EveryRunKeepsInv(cfg, [SUBMIT_TWO, EXPAND_TWO]);
    hide *;
    SecondAsked(cfg, s);
    var s1 := Exec(cfg, s, StartWorker(0, OpSync, {1}, 0));
    SecondAnswered(cfg, s, s1);
    var s2 := Exec(cfg, s1, Finish(0, map[1 := ENDED_ANSWER]));
    var ctx := FreshContext(s2.tasks, 0);
    steps := [StartWorker(0, OpSync, {1}, 0), Finish(0, map[1 := ENDED_ANSWER]), Apply(1, ctx)];
    RunThree(cfg, s, steps[0], steps[1], steps[2]);
    ApplyIsEnabled(cfg, s2, 1, ctx);
    EndApplied(cfg, s2, ctx);
  }

  lemma EndApplied(cfg: Config, s: State, ctx: Context)
    requires s.clients == TWO_WAITING.clients && Enabled(cfg, s, Apply(1, ctx))
    requires s.tasks == TWO_WAITING.tasks[1 := Repeated("b", "two").(slot := Slot(OpSync, SlotCompleted, StatusReply(ENDED_ITEM)))]
    ensures OneEnded(Exec(cfg, s, Apply(1, ctx)))
  {
    var s' := ApplyStep(cfg, s, 1, ctx);
    assert Exec(cfg, s, Apply(1, ctx)) == s';
    var applied, inserted := ApplyStepEffect(cfg, s, 1, ctx);
    CommitsUnless(cfg, s.tasks, 1, ctx);
    assert !LooksAtSeed(cfg, s.tasks[1], ENDED_ITEM, ctx);
    EndedRowEnds(cfg, s.tasks[1], ctx);
    assert applied;
    hide ApplyStep, OperationEffect, Exec, LooksAtSeed, OwnRow, Recalculated, Enabled, InsertedMember;
    assert OtherRow(s.tasks, s'.tasks, 1, 0, ctx.now);
    assert s'.tasks.Keys == {0, 1} && s'.tasks[0] == Repeated("a", "one") && s'.tasks[1].status == EndAborted;
    hide Applied, VrfChange, Repeated;
    StillRunning(s'.tasks, s.clients[1]);
  }

  lemma EndedRowEnds(cfg: Config, t: InferenceTask, ctx: Context)
    requires t.slot == Slot(OpSync, SlotCompleted, StatusReply(ENDED_ITEM))
    ensures OwnRow(cfg, t, ctx).status == EndAborted
  {
    hide CreateEffect, CancelEffect, ResultEffect, ValidatedRow, StatusSyncNextActionAt, HeartbeatQueuedTimedOut;
  }

  lemma StillRunning(tasks: Tasks, c: ClientTask)
    requires tasks.Keys == {0, 1} && tasks[0] == Repeated("a", "one") && tasks[1].status == EndAborted
    requires c.status == ClientRunning && c.expanded
    ensures var r := Recalculated(tasks, 1, c); r.status == ClientRunning && r.expanded && r.taskType == c.taskType
  {
    assert 0 in Members(tasks, 1);
    hide FailedGroups;
  }

  function StillQueued(commitment: string): Reported {
    Reported(commitment, QUEUED_ITEM)
  }

  const PREFLIGHT := [StillQueued("a"), StillQueued("b")]
  const ANSWERS := [MutationResult("a", [], OutcomeCancelled), MutationResult("b", [], OutcomeTemporaryError)]

  lemma TwoPassPreflight()
    ensures PreflightPasses(["a", "b"], PREFLIGHT)
  {
    assert PREFLIGHT[..1] == [StillQueued("a")] && PREFLIGHT[..1][..0] == [];
    assert Latest(PREFLIGHT[..1]) == map["a" := QUEUED_ITEM];
    assert Latest(PREFLIGHT) == map["a" := QUEUED_ITEM, "b" := QUEUED_ITEM];
  }

  lemma OneSaysCancelled()
    ensures SaysCancelled(ANSWERS, "a") && !SaysCancelled(ANSWERS, "b")
  {
    assert ANSWERS[..1] == [ANSWERS[0]] && ANSWERS[..1][..0] == [];
    assert OutcomeOf(ANSWERS[..1]) == map["a" := OutcomeCancelled];
    assert OutcomeOf(ANSWERS) == map["a" := OutcomeCancelled, "b" := OutcomeTemporaryError];
  }

  lemma TwoAsked()
    ensures PreflightPasses(["a", "b"], PREFLIGHT)
    ensures Cancellable(TWO_WAITING.tasks, {0, 1})
    ensures Members(TWO_WAITING.tasks, 1) == {0, 1} && NamesUnfinished(TWO_WAITING.tasks, 1, ["a", "b"])
    ensures CancelledMembers(TWO_WAITING.tasks, 1, ANSWERS) == {0} && !AllCancelled(TWO_WAITING.tasks, 1, ANSWERS)
  {
    TwoPassPreflight();
    OneSaysCancelled();
    hide PreflightPasses, SaysCancelled;
    assert 1 in UnfinishedMembers(TWO_WAITING.tasks, 1);
  }

  /** Both members are checked, pass the preflight and are sent; one is cancelled, the other not. Before
      the commit the engine hears that the other has ended. The client task was running, and is failed by
      the commit without the creator's mark. */
  lemma PartialAbortEndsClientTask(cfg: Config) returns (checked: seq<Step>, between: seq<Step>)
    requires cfg.Valid()
    ensures var s := Run(cfg, INITIAL, checked);
            && Members(s.tasks, 1) == {0, 1} && Cancellable(s.tasks, {0, 1}) && NamesUnfinished(s.tasks, 1, ["a", "b"])
            && PreflightPasses(["a", "b"], PREFLIGHT)
            && CancelledMembers(s.tasks, 1, ANSWERS) == {0} && !AllCancelled(s.tasks, 1, ANSWERS)
    ensures var s := Run(cfg, INITIAL, checked + between);
            var commit := AbortCommit(1, {}, {0}, false);
            var s' := Exec(cfg, s, commit);
            && Enabled(cfg, s, commit) && 1 in s.clients && s.clients[1].status == ClientRunning
            && 1 in s'.clients && s'.clients[1].status == ClientFailed && !s'.clients[1].creatorCancelled
  {
    hide *;
    TwoExpanded(cfg);
    TwoAsked();
    checked := [SUBMIT_TWO, EXPAND_TWO];
    between := SecondEnds(cfg);
    RunIsSequential(cfg, INITIAL, checked, between);
    EndedOneCommits(cfg, checked + between);
  }

  lemma EndedOneCommits(cfg: Config, steps: seq<Step>)
    requires cfg.Valid() && OneEnded(Run(cfg, INITIAL, steps))
    ensures var s := Run(cfg, INITIAL, steps);
            var commit := AbortCommit(1, {}, {0}, false);
            var s' := Exec(cfg, s, commit);
            && Enabled(cfg, s, commit) && 1 in s.clients && s.clients[1].status == ClientRunning
            && 1 in s'.clients && s'.clients[1].status == ClientFailed && !s'.clients[1].creatorCancelled
  {
    var s := Run(cfg, INITIAL, steps);
    hide Run, Exec, Recalculated;
    assert Members(s.tasks, 1) == {0, 1};
    assert !AnyDownloaded(s.tasks, Members(s.tasks, 1));
    assert Enabled(cfg, s, AbortCommit(1, {}, {0}, false));
    TaskEngine.PartialAbortEndsIff(cfg, steps, 1, {0});
  }

  // ---- Two validations in one group ----

  /** A step in which Relay reports no end and answers no mutation. */
  ghost predicate Mild(step: Step) {
    step.Finish? ==> forall k {:trigger step.endings[k]} | k in step.endings ::
                       step.endings[k].Answered? ==> step.endings[k].reply.StatusReply? && !ReportsEnd(step.endings[k])
  }

  /** Relay has reported no end, and no row holds the outcome of a mutation. */
  ghost predicate NothingDecided(s: State) {
    s.relayEnded == {} && forall k {:trigger s.tasks[k]} | k in s.tasks :: !s.tasks[k].slot.reply.OutcomeReply?
  }

  lemma MildApplies(cfg: Config, s: State, id: nat, ctx: Context)
    requires NothingDecided(s) && Enabled(cfg, s, Apply(id, ctx))
    ensures NothingDecided(ApplyStep(cfg, s, id, ctx))
  {
    var s' := ApplyStep(cfg, s, id, ctx);
    var applied, inserted := ApplyStepEffect(cfg, s, id, ctx);
    hide ApplyStep, OwnRow, VrfChange;
    if applied {
      forall k | k in s'.tasks
        ensures !s'.tasks[k].slot.reply.OutcomeReply?
      {
        if k in s.tasks && k != id { assert OtherRow(s.tasks, s'.tasks, id, k, ctx.now); }
      }
    }
  }

  lemma MildKeepsNothing(cfg: Config, s: State, step: Step)
    requires NothingDecided(s) && Mild(step)
    ensures NothingDecided(Exec(cfg, s, step))
  {
    if !Enabled(cfg, s, step) {
    } else if step.Apply? {
      MildApplies(cfg, s, step.task, step.ctx);
    } else if step.Expand? {
      Frames.ExpansionInserts(s.tasks, s.clients[step.clientTaskId], step.clientTaskId, step.repeats, step.now);
      MildExpansion(s.tasks, Exec(cfg, s, step).tasks, s.clients[step.clientTaskId], step.clientTaskId, step.repeats, step.now);
    } else {
      hide ValidatingGroup, Recalculated, AllStopped, ReplyFits, ReportsEnd;
    }
  }

  lemma MildExpansion(a: Tasks, b: Tasks, c: ClientTask, clientTaskId: nat, repeats: seq<Repeat>, now: int)
    requires c.submission.Some? && FreshRepeats(a, repeats) && Frames.Inserted(a, b, c, clientTaskId, repeats, now)
    requires forall k | k in a :: !a[k].slot.reply.OutcomeReply?
    ensures forall k | k in b :: !b[k].slot.reply.OutcomeReply?
  {
    forall k | k in b
      ensures !b[k].slot.reply.OutcomeReply?
    {
      if k !in a { NewRow(a, b, c, clientTaskId, repeats, now, k); }
    }
  }

  /** In a mild run Relay keeps terminal statuses and refuses nothing. */
  lemma {:induction false} MildRunsEndLawfully(cfg: Config, steps: seq<Step>)
    requires forall i | 0 <= i < |steps| :: Mild(steps[i])
    ensures NothingDecided(Run(cfg, INITIAL, steps)) && TerminalClosure.RunEndsLawfully(cfg, INITIAL, steps)
  {
    if steps != [] {
      var last := |steps| - 1;
      var init := steps[..last];
      MildRunsEndLawfully(cfg, init);
      hide Exec, NothingDecided, Mild;
      MildKeepsNothing(cfg, Run(cfg, INITIAL, init), steps[last]);
      forall i | 0 <= i < |steps|
        ensures TerminalClosure.EndsLawfully(Run(cfg, INITIAL, steps[..i]), steps[i])
      {
        if i < last {
          assert steps[..i] == init[..i] && steps[i] == init[i];
        } else {
          NothingEndsUnlawfully(Run(cfg, INITIAL, init), steps[last]);
        }
      }
    }
  }

  lemma NothingEndsUnlawfully(s: State, step: Step)
    requires NothingDecided(s)
    ensures TerminalClosure.EndsLawfully(s, step)
  {
  }

  /** The ready member asked again, and reported with another sequence number. */
  const RENUMBERED_ITEM := Item(ChainScoreReady).(sequence := 0)

  const LOSE_FIRST := [StartWorker(0, OpValidate, {0}, 0), Finish(0, map[0 := Lost])]

  function LostRow(cfg: Config): InferenceTask
    requires Selects(cfg)
  {
    Primary(cfg).(slot := Slot(OpValidate, SlotFailed, NoReply), unknown := true)
  }

  /** The group after its first validation was lost, and the failure not yet applied. */
  function LostGroup(cfg: Config): State
    requires Selects(cfg)
  {
    With(LostRow(cfg), ReadyMember(cfg, "x"), ReadyMember(cfg, "y"), map[])
  }

  lemma FirstIsLost(cfg: Config)
    requires cfg.Valid() && Selects(cfg)
    ensures Run(cfg, INITIAL, ReadySteps() + LOSE_FIRST) == LostGroup(cfg)
  {
    var p, x, y := Primary(cfg), ReadyMember(cfg, "x"), ReadyMember(cfg, "y");
    GroupDecisions(cfg, x, y, EMPTY_SLOT);
    assert p.(slot := EMPTY_SLOT) == p;
    hide Run, Exec, Selected, Decide, Primary, ReadyMember, ReadySteps;
    ReadyGroup(cfg);
    assert Rows(cfg, x, y) == With(p, x, y, map[]);
    hide Rows, With;
    ValidationStarts(cfg, p, x, y);
    RunTwoMore(cfg, ReadySteps(), LOSE_FIRST[0], LOSE_FIRST[1]);
    LossArrives(cfg, p.(slot := VALIDATING), x, y);
  }

  lemma LossArrives(cfg: Config, one: InferenceTask, two: InferenceTask, three: InferenceTask)
    requires one.slot == VALIDATING
    ensures Exec(cfg, With(one, two, three, map[0 := Worker(OpValidate, {0})]), LOSE_FIRST[1])
            == With(one.(slot := Slot(OpValidate, SlotFailed, NoReply), unknown := true), two, three, map[])
  {
    hide Exec;
    var s := With(one, two, three, map[0 := Worker(OpValidate, {0})]);
    FinishOne(cfg, s, 0, 0, Lost);
    assert s.workers - {0} == map[];
  }

  /** Three ready rows of the group, each with VRF data. */
  predicate ReadyTrioRows(tasks: Tasks) {
    && Trio(tasks)
    && (forall k | k in tasks :: tasks[k].status == ScoreReady && tasks[k].vrf.seed != "")
    && tasks[1].slot == EMPTY_SLOT && tasks[1].nextActionAt <= 0 && tasks[1].relayChecked
    && !tasks[1].unknown && !tasks[1].cancelRequired && !tasks[1].submitted
  }

  lemma SecondDecision(tasks: Tasks)
    requires ReadyTrioRows(tasks)
    ensures Selected(tasks[1], 0)
    ensures tasks[0].sequence <= tasks[1].sequence ==> Decide(tasks, 1) == OpSync
    ensures tasks[1].sequence < tasks[0].sequence && tasks[1].sequence < tasks[2].sequence ==> Decide(tasks, 1) == OpValidate
  {
    TrioGroup(tasks);
    DueQueriesCover(tasks[1], 0);
    hide Selected, Group;
    assert ValidationGroupReady(tasks, "task");
    if tasks[0].sequence <= tasks[1].sequence { assert !IsOwner(tasks, 1); }
  }

  lemma LostGroupRows(cfg: Config)
    requires Selects(cfg)
    ensures var s := LostGroup(cfg);
            && ReadyTrioRows(s.tasks) && OpenRows(s.tasks) && s.tasks[0].slot.op == OpValidate
            && s.tasks[0].sequence == 1 && s.tasks[1].sequence == 1 && s.tasks[2].sequence == 1
            && s.workers == map[] && s.clock == 0 && 1 in s.clients
  {
    var p, x, y := LostRow(cfg), ReadyMember(cfg, "x"), ReadyMember(cfg, "y");
    var tasks := LostGroup(cfg).tasks;
    assert tasks == map[0 := p, 1 := x, 2 := y];
    assert forall t | t in {p, x, y} :: t.status == ScoreReady && t.vrf.seed != "" && t.sequence == 1
                                        && t.spec.taskId == "task" && t.spec.clientTaskId == 1 && t.spec.taskType == SD
                                        && t.commitment in {"commitment", "x", "y"};
    assert x.slot == EMPTY_SLOT && x.nextActionAt <= 0 && x.relayChecked && !x.unknown && !x.cancelRequired && !x.submitted;
    hide LostRow, ReadyMember, LostGroup;
  }

  /** The renumbered answer, applied: the second row now comes first. */
  lemma SecondComesFirst(cfg: Config, s: State)
    requires cfg.Valid() && ReadyTrioRows(s.tasks) && OpenRows(s.tasks) && s.clock == 0 && 1 in s.clients
    requires s.tasks[0].sequence == 1 && s.tasks[2].sequence == 1
    ensures var s' := Exec(cfg, Queried(s, 1, RENUMBERED_ITEM), Apply(1, LATER));
            && ReadyTrioRows(s'.tasks) && s'.tasks[1].sequence == 0 && s'.tasks[0].sequence == 1 && s'.tasks[2].sequence == 1
            && s'.tasks[0].slot == s.tasks[0].slot && s'.workers == s.workers && s'.clock == 0
  {
    var q := Queried(s, 1, RENUMBERED_ITEM);
    assert q.tasks == s.tasks[1 := q.tasks[1]] && q.tasks[1] == s.tasks[1].(slot := Slot(OpSync, SlotCompleted, StatusReply(RENUMBERED_ITEM)));
    hide Queried;
    LaterIsEnabled(cfg, q, 1);
    RenumberedApplied(cfg, q);
  }

  lemma RenumberedApplied(cfg: Config, q: State)
    requires cfg.Valid() && Enabled(cfg, q, Apply(1, LATER)) && q.clock == 0 && 1 in q.clients && Trio(q.tasks)
    requires forall k | k in q.tasks :: q.tasks[k].status == ScoreReady && q.tasks[k].vrf.seed != ""
    requires q.tasks[0].sequence == 1 && q.tasks[2].sequence == 1
    requires var t := q.tasks[1];
             t.slot == Slot(OpSync, SlotCompleted, StatusReply(RENUMBERED_ITEM)) && !t.cancelRequired && !t.submitted
    ensures var s' := Exec(cfg, q, Apply(1, LATER));
            && ReadyTrioRows(s'.tasks) && s'.tasks[1].sequence == 0 && s'.tasks[0].sequence == 1 && s'.tasks[2].sequence == 1
            && s'.tasks[0].slot == q.tasks[0].slot && s'.workers == q.workers && s'.clock == 0
  {
    var s' := ApplyStep(cfg, q, 1, LATER);
    assert Exec(cfg, q, Apply(1, LATER)) == s';
    var applied, inserted := ApplyStepEffect(cfg, q, 1, LATER);
    CommitsUnless(cfg, q.tasks, 1, LATER);
    assert !LooksAtSeed(cfg, q.tasks[1], RENUMBERED_ITEM, LATER) && applied;
    assert !Rejects(q.tasks[1]);
    hide ApplyStep, OperationEffect, Exec, LooksAtSeed, OwnRow, Enabled, InsertedMember, Rejects, Trio, ReadyTrioRows;
    assert !inserted && s'.tasks.Keys == q.tasks.Keys;
    assert s'.tasks[1] == OwnRow(cfg, q.tasks[1], LATER);
    hide VrfChange, Applied;
    RenumberedGroup(cfg, q.tasks, s'.tasks);
  }

  lemma RenumberedGroup(cfg: Config, a: Tasks, b: Tasks)
    requires Trio(a) && (forall k | k in a :: a[k].status == ScoreReady && a[k].vrf.seed != "")
    requires a[0].sequence == 1 && a[2].sequence == 1 && !Rejects(a[1])
    requires var t := a[1]; t.slot == Slot(OpSync, SlotCompleted, StatusReply(RENUMBERED_ITEM)) && !t.cancelRequired && !t.submitted
    requires b.Keys == a.Keys && b[1] == OwnRow(cfg, a[1], LATER)
    requires forall k | k in a && k != 1 :: OtherRow(a, b, 1, k, 0)
    ensures ReadyTrioRows(b) && b[1].sequence == 0 && b[0].sequence == 1 && b[2].sequence == 1 && b[0].slot == a[0].slot
  {
    RenumberedRow(cfg, a[1]);
    hide OwnRow, Rejects, Terminal;
    assert OtherRow(a, b, 1, 0, 0) && OtherRow(a, b, 1, 2, 0);
  }

  lemma RenumberedRow(cfg: Config, t: InferenceTask)
    requires t.slot == Slot(OpSync, SlotCompleted, StatusReply(RENUMBERED_ITEM)) && !t.cancelRequired
    ensures var r := OwnRow(cfg, t, LATER);
            && r.status == ScoreReady && r.sequence == 0 && r.nextActionAt == 0 && r.relayChecked && !r.unknown
            && !r.cancelRequired && r.submitted == t.submitted && r.slot == EMPTY_SLOT
  {
    hide CreateEffect, CancelEffect, ResultEffect, ValidatedRow;
  }

  /** Without one sequence number for a commitment, and with every other hypothesis kept: while the first
      member's validation is in its slot, another member is reported with a lower number, becomes the
      owner, and is validated too. */
  lemma TwoMembersValidate(cfg: Config) returns (steps: seq<Step>)
    requires cfg.Valid() && Selects(cfg)
    ensures TerminalClosure.RunEndsLawfully(cfg, INITIAL, steps)
    ensures var s := Run(cfg, INITIAL, steps);
            && 0 in s.tasks && 1 in s.tasks && s.tasks[0].spec.taskId == s.tasks[1].spec.taskId
            && s.tasks[0].slot.op == OpValidate && RunningFor(s.tasks[1], OpValidate)
  {
    var s := LostGroup(cfg);
    var query := QuerySteps(1, RENUMBERED_ITEM, LATER);
    var start := StartWorker(0, OpValidate, {1}, 0);
    var before := ReadySteps() + LOSE_FIRST;
    steps := before + query + [start];
    assert forall i | 0 <= i < |steps| :: Mild(steps[i]);
    hide Mild, ReadySteps;
    MildRunsEndLawfully(cfg, steps);
    hide *;
    FirstIsLost(cfg);
    LostGroupRows(cfg);
    RunIsSequential(cfg, INITIAL, before, query);
    RunOneMore(cfg, before + query, start);
    SecondValidates(cfg, s);
  }

  lemma SecondValidates(cfg: Config, s: State)
    requires cfg.Valid() && ReadyTrioRows(s.tasks) && OpenRows(s.tasks) && s.clock == 0 && 1 in s.clients
    requires s.tasks[0].sequence == 1 && s.tasks[1].sequence == 1 && s.tasks[2].sequence == 1
    requires s.workers == map[] && s.tasks[0].slot.op == OpValidate
    ensures var s' := Exec(cfg, Run(cfg, s, QuerySteps(1, RENUMBERED_ITEM, LATER)), StartWorker(0, OpValidate, {1}, 0));
            && 0 in s'.tasks && 1 in s'.tasks && s'.tasks[0].spec.taskId == s'.tasks[1].spec.taskId
            && s'.tasks[0].slot.op == OpValidate && RunningFor(s'.tasks[1], OpValidate)
  {
    SecondDecision(s.tasks);
    SecondComesFirst(cfg, s);
    hide Selected, Decide, Run, Exec;
    QueryAnswered(cfg, s, 1, RENUMBERED_ITEM, LATER);
    var s1 := Exec(cfg, Queried(s, 1, RENUMBERED_ITEM), Apply(1, LATER));
    SecondDecision(s1.tasks);
    assert PoolWorkers(s1, OpValidate) == {};
    StartOne(cfg, s1, 0, OpValidate, 1);
  }
}
