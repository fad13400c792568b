/** Runs from the empty database on which documented claims fail, computed state by state. */
module Counterexamples {
  import opened Wrappers
  import opened Models
  import opened Config
  import opened Progression
  import opened Dispatch
  import opened StateMachine
  import opened ClientInvariant
  import opened Invariant
  import opened Lifecycle
  import opened RowRevival
  import opened ApplyEffect
  import AbortFinality
  import TerminalClosure

  // ---- A successful abort after which a result arrives ----

  const SUBMISSION := Submission(SD, "{}", "1", "", 0)
  const QUEUED_ITEM := StatusItem(true, ChainQueued, ReasonNone, ErrorNone, 0, "", "", 0, [], None, false)

  /** The only row: one repeat of client task 1, owned by client 7. */
  const FIRST_ROW := NewTask(TaskSpec(7, 1, SD, "{}", "1", "", 0, "task", 0), "commitment", NO_VRF, 0)

  function WaitingState(): State {
    State(0, map[1 := ClientTask(7, SD, None, 1, ClientRunning, 0, false, true, 0)], map[0 := FIRST_ROW], map[], {})
  }

  lemma Expansion(cfg: Config)
    requires cfg.Valid()
    ensures Run(cfg, INITIAL, [Submit(1, 7, SUBMISSION, Some(1), 0), Expand(1, [Repeat(Identity(0, "commitment"), "task")], 0)]) == WaitingState()
  {
    var submit := Submit(1, 7, SUBMISSION, Some(1), 0);
    var repeats := [Repeat(Identity(0, "commitment"), "task")];
    var s1 := Exec(cfg, INITIAL, submit);
    assert Run(cfg, INITIAL, [submit]) == s1 by { assert [submit][..0] == []; }
    assert [submit, Expand(1, repeats, 0)][..1] == [submit];
    assert FreshRepeats(s1.tasks, repeats);
    assert repeats[..0] == [];
    assert InsertPrimaries(map[], s1.clients[1], 1, repeats, 0) == map[0 := FIRST_ROW];
  }

  /** The row after its queue time has run out: aborted locally, its cancellation owed. */
  function TimedOut(cfg: Config): InferenceTask {
    FIRST_ROW.(relayChecked := true, relayFound := true, nextActionAt := cfg.heartbeatMaxQueuedDuration,
               status := EndAborted, abortReason := CreatorCancelled, cancelRequired := true)
  }

  function Answer(cfg: Config): Context {
    Context(cfg.heartbeatMaxQueuedDuration, Identity(1, "x"), Identity(2, "y"), Some(7))
  }

  const CLIENT_AFTER_TIMEOUT := ClientTask(7, SD, None, 1, ClientFailed, 1, false, true, 0)

  function TimedOutState(cfg: Config): State {
    State(cfg.heartbeatMaxQueuedDuration, map[1 := CLIENT_AFTER_TIMEOUT], map[0 := TimedOut(cfg)], map[], {})
  }

  lemma TimedOutVerdict(cfg: Config)
    ensures var tasks: Tasks := map[0 := TimedOut(cfg)];
            && Members(tasks, 1) == {0} && AllFinished(tasks, Members(tasks, 1)) && !AnyDownloaded(tasks, Members(tasks, 1))
            && FailedGroups(tasks, 1) == {"task"} && |Group(tasks, "task")| == 1
  {
    var tasks: Tasks := map[0 := TimedOut(cfg)];
    assert Members(tasks, 1) == {0} && Group(tasks, "task") == {0};
    assert GroupFailed(tasks, 1, "task");
    assert "task" in FailedGroups(tasks, 1) by { assert 0 in tasks && IsMember(tasks[0], 1); }
  }

  /** The state when a lone status query of row k has been answered. */
  function Queried(s: State, k: nat, item: StatusItem): State
    requires k in s.tasks
  {
    s.(tasks := s.tasks[k := s.tasks[k].(slot := Slot(OpSync, SlotCompleted, StatusReply(item)))])
  }

  lemma QueryAnswered(cfg: Config, s: State, k: nat, item: StatusItem, ctx: Context)
    requires cfg.Valid() && s.workers == map[] && k in s.tasks && s.clock == 0
    requires Selected(s.tasks[k], 0) && Decide(s.tasks, k) == OpSync && !ChainTerminal(item.status)
    ensures Run(cfg, s, [StartWorker(0, OpSync, {k}, 0), Finish(0, map[k := Answered(StatusReply(item))]), Apply(k, ctx)])
            == Exec(cfg, Queried(s, k, item), Apply(k, ctx))
  {
    var start := StartWorker(0, OpSync, {k}, 0);
    var finish := Finish(0, map[k := Answered(StatusReply(item))]);
    assert PoolWorkers(s, OpSync) == {};
    var s1 := s.(tasks := s.tasks[k := s.tasks[k].(slot := Slot(OpSync, SlotRunning, NoReply))], workers := map[0 := Worker(OpSync, {k})]);
    assert Exec(cfg, s, start) == s1;
    QueryFinished(cfg, s, s1, k, item);
    RunThree(cfg, s, start, finish, Apply(k, ctx));
  }

  lemma QueryFinished(cfg: Config, s: State, s1: State, k: nat, item: StatusItem)
    requires k in s.tasks && s.workers == map[] && !ChainTerminal(item.status)
    requires s1 == s.(tasks := s.tasks[k := s.tasks[k].(slot := Slot(OpSync, SlotRunning, NoReply))], workers := map[0 := Worker(OpSync, {k})])
    ensures Exec(cfg, s1, Finish(0, map[k := Answered(StatusReply(item))])) == Queried(s, k, item)
  {
    var endings := map[k := Answered(StatusReply(item))];
    assert NewlyEnded(s1.tasks, endings) == {};
    assert WriteEndings(s1.tasks, OpSync, endings) == Queried(s, k, item).tasks;
    assert s1.workers - {0} == map[];
  }

  lemma QueueTimeout(cfg: Config)
    requires cfg.Valid() && cfg.heartbeatMaxQueuedDuration > 0
    ensures Run(cfg, WaitingState(), [StartWorker(0, OpSync, {0}, 0), Finish(0, map[0 := Answered(StatusReply(QUEUED_ITEM))]),
                                      Apply(0, Answer(cfg))]) == TimedOutState(cfg)
  {
    DueQueriesCover(FIRST_ROW, 0);
    QueryAnswered(cfg, WaitingState(), 0, QUEUED_ITEM, Answer(cfg));
    QueueTimeoutApplied(cfg, Queried(WaitingState(), 0, QUEUED_ITEM));
  }

  lemma QueueTimeoutEffect(cfg: Config, s: State)
    requires cfg.Valid() && cfg.heartbeatMaxQueuedDuration > 0
    requires s == WaitingState().(tasks := map[0 := FIRST_ROW.(slot := Slot(OpSync, SlotCompleted, StatusReply(QUEUED_ITEM)))])
    ensures OperationEffect(cfg, s.tasks, 0, Answer(cfg)) == Some(s.tasks[0 := TimedOut(cfg).(slot := s.tasks[0].slot)])
  {
    assert HeartbeatQueuedTimedOut(cfg, s.tasks[0], Answer(cfg));
    assert SyncedRow(cfg, s.tasks[0], QUEUED_ITEM, Answer(cfg)) == TimedOut(cfg).(slot := s.tasks[0].slot);
  }

  lemma QueueTimeoutApplied(cfg: Config, s: State)
    requires cfg.Valid() && cfg.heartbeatMaxQueuedDuration > 0
    requires s == WaitingState().(tasks := map[0 := FIRST_ROW.(slot := Slot(OpSync, SlotCompleted, StatusReply(QUEUED_ITEM)))])
    ensures Exec(cfg, s, Apply(0, Answer(cfg))) == TimedOutState(cfg)
  {
    var ctx := Answer(cfg);
    var t := s.tasks[0];
    QueueTimeoutEffect(cfg, s);
    hide OperationEffect;
    var tasks: Tasks := map[0 := TimedOut(cfg)];
    assert ClearSlot(s.tasks[0 := TimedOut(cfg).(slot := t.slot)], 0) == tasks;
    TimedOutVerdict(cfg);
    assert ScheduleSiblingCancellation(tasks, 0, ctx.now) == tasks;
    assert Recalculated(tasks, 1, s.clients[1]) == CLIENT_AFTER_TIMEOUT;
    assert Enabled(cfg, s, Apply(0, ctx));
  }

  /** The abort finds nothing to cancel, commits, and marks the client task. */
  lemma AbortSucceeds(cfg: Config)
    ensures var s' := Exec(cfg, TimedOutState(cfg), AbortCommit(1, {}, {}, true));
            && s'.clients[1].status == ClientFailed && s'.clients[1].creatorCancelled && AllStopped(s'.tasks, 1)
            && s'.workers == map[] && s'.tasks == map[0 := TimedOut(cfg)]
  {
    TimedOutVerdict(cfg);
    assert AbortRows(map[0 := TimedOut(cfg)], IdsToAbort({}, {}, true)) == map[0 := TimedOut(cfg)];
  }

  /** A whole run from the empty database: a submission of the heartbeat client times out in Relay's
      queue, its abort succeeds, and a later status answer still leads to a download. */
  lemma AbortedTaskStillDelivers(cfg: Config) returns (toAbort: seq<Step>, afterAbort: seq<Step>)
    requires cfg.Valid() && cfg.heartbeatMaxQueuedDuration > 0
    ensures var s := Run(cfg, INITIAL, toAbort);
            && 1 in s.clients && s.clients[1].status == ClientFailed && s.clients[1].creatorCancelled && AllStopped(s.tasks, 1)
    ensures var later := Run(cfg, INITIAL, toAbort + afterAbort);
            0 in Members(later.tasks, 1) && later.tasks[0].status == ResultDownloaded
  {
    var expand := [Submit(1, 7, SUBMISSION, Some(1), 0), Expand(1, [Repeat(Identity(0, "commitment"), "task")], 0)];
    var timeout := [StartWorker(0, OpSync, {0}, 0), Finish(0, map[0 := Answered(StatusReply(QUEUED_ITEM))]), Apply(0, Answer(cfg))];
    var abort := AbortCommit(1, {}, {}, true);
    Expansion(cfg);
    QueueTimeout(cfg);
    AbortSucceeds(cfg);
    RunIsSequential(cfg, INITIAL, expand, timeout);
    toAbort := expand + timeout + [abort];
    assert toAbort[..|toAbort| - 1] == expand + timeout;
    var s := Exec(cfg, TimedOutState(cfg), abort);
    hide TimedOutState, WaitingState, Exec, AllStopped;
    assert Run(cfg, INITIAL, toAbort) == s;
    EveryRunKeepsInv(cfg, toAbort);
    afterAbort := OpenDownloads(cfg, s, 0);
    RunIsSequential(cfg, INITIAL, toAbort, afterAbort);
    AbortFinality.MembersStay(cfg, s, afterAbort, 0, 1);
  }

  // ---- A terminal row that becomes active again ----

  const SEED := "seed"
  const FILES: seq<ModelFile> := [ModelFile("model", "revision", "")]

  function Item(status: ChainTaskStatus): StatusItem {
    StatusItem(true, status, ReasonNone, ErrorNone, 1, SEED, "", 0, FILES, None, false)
  }

  /** The prover selects the task for validation, and its arguments can be pinned. */
  predicate Selects(cfg: Config) {
    && cfg.prove(SEED).Some? && VrfNeedValidation(cfg.prove(SEED).value.number)
    && cfg.pinArgs("{}", SD, FILES).Some?
  }

  function Proof(cfg: Config): Vrf
    requires Selects(cfg)
  {
    Vrf(SEED, cfg.prove(SEED).value.number, cfg.prove(SEED).value.proof)
  }

  const CONTEXT := Context(0, Identity(1, "x"), Identity(2, "y"), None)
  const LATER := Context(0, Identity(3, "z"), Identity(4, "w"), None)

  /** A row once Relay has reported this status. */
  function Synced(t: InferenceTask, status: TaskStatus, now: int): InferenceTask {
    t.(status := status, sequence := 1, relayChecked := true, relayFound := true, unknown := false, nextActionAt := now,
       exec := Execution("", 0, FILES, None, false), slot := EMPTY_SLOT)
  }

  function Primary(cfg: Config): InferenceTask
    requires Selects(cfg)
  {
    Synced(FIRST_ROW, ScoreReady, 0).(vrf := Proof(cfg))
  }

  function SecondMember(cfg: Config, commitment: string): InferenceTask
    requires Selects(cfg)
  {
    VssMember(FIRST_ROW, Item(ChainScoreReady), Proof(cfg), cfg.pinArgs("{}", SD, FILES).value, commitment, 0)
  }

  function Rows(cfg: Config, one: InferenceTask, two: InferenceTask): State
    requires Selects(cfg)
  {
    WaitingState().(tasks := map[0 := Primary(cfg), 1 := one, 2 := two])
  }

  /** Three rows of one group under one client task, the first of them ready. */
  predicate Trio(tasks: Tasks) {
    && tasks.Keys == {0, 1, 2}
    && (forall k | k in tasks :: tasks[k].spec.taskId == "task" && tasks[k].spec.clientTaskId == 1 && tasks[k].spec.taskType == SD)
  }

  lemma TrioGroup(tasks: Tasks)
    requires Trio(tasks)
    ensures Group(tasks, "task") == {0, 1, 2} && |Group(tasks, "task")| == 3 && Members(tasks, 1) == {0, 1, 2}
  {
    assert Group(tasks, "task") == {0, 1, 2} && Members(tasks, 1) == {0, 1, 2};
  }

  lemma UnfinishedTrio(tasks: Tasks, c: ClientTask)
    requires Trio(tasks) && !Finished(tasks[0].status) && (forall k | k in tasks :: tasks[k].status != ResultDownloaded)
    requires c.status == ClientRunning && c.failedCount == 0
    ensures Recalculated(tasks, 1, c) == c
  {
    TrioGroup(tasks);
    assert FailedGroups(tasks, 1) == {} by {
      forall k | k in tasks && IsMember(tasks[k], 1)
        ensures !GroupFailed(tasks, 1, tasks[k].spec.taskId)
      {
        assert IsMember(tasks[0], 1);
      }
    }
    assert !AllFinished(tasks, Members(tasks, 1)) by { assert 0 in Members(tasks, 1); }
  }

  /** An applied answer that aborts nothing and leaves the client task as it was. */
  lemma AppliedQuietly(cfg: Config, s: State, k: nat, ctx: Context, effect: Tasks, tasks: Tasks)
    requires Enabled(cfg, s, Apply(k, ctx)) && s.tasks[k].slot.status == SlotCompleted
    requires s.tasks[k].spec.clientTaskId == 1 && 1 in s.clients
    requires OperationEffect(cfg, s.tasks, k, ctx) == Some(effect) && k in effect && ClearSlot(effect, k) == tasks
    requires tasks[k].status != EndAborted && Recalculated(tasks, 1, s.clients[1]) == s.clients[1]
    ensures Exec(cfg, s, Apply(k, ctx)) == s.(clock := ctx.now, tasks := tasks)
  {
    hide OperationEffect, ClearSlot, Recalculated, Enabled;
    assert s.clients[1 := s.clients[1]] == s.clients;
  }

  lemma FirstReadyEffect(cfg: Config)
    requires cfg.Valid() && Selects(cfg)
    ensures var s := Queried(WaitingState(), 0, Item(ChainScoreReady));
            var slot := s.tasks[0].slot;
            OperationEffect(cfg, s.tasks, 0, CONTEXT) ==
            Some(map[0 := Primary(cfg).(slot := slot), 1 := SecondMember(cfg, "x"), 2 := SecondMember(cfg, "y")])
  {
    var s := Queried(WaitingState(), 0, Item(ChainScoreReady));
    var t := s.tasks[0];
    var synced := Synced(t, ScoreReady, 0).(slot := t.slot);
    assert SyncedRow(cfg, t, t.slot.reply.item, CONTEXT) == synced;
    hide SyncedRow;
    var mid: Tasks := map[0 := synced];
    assert s.tasks[0 := synced] == mid && Group(mid, "task") == {0};
    assert VssMember(synced, Item(ChainScoreReady), Proof(cfg), cfg.pinArgs("{}", SD, FILES).value, "x", 0) == SecondMember(cfg, "x");
    assert VssMember(synced, Item(ChainScoreReady), Proof(cfg), cfg.pinArgs("{}", SD, FILES).value, "y", 0) == SecondMember(cfg, "y");
    assert synced.(vrf := Proof(cfg)) == Primary(cfg).(slot := t.slot);
    hide VssMember, SecondMember, Synced, Primary;
    assert mid[0 := synced.(vrf := Proof(cfg))][1 := SecondMember(cfg, "x")][2 := SecondMember(cfg, "y")] ==
           map[0 := Primary(cfg).(slot := t.slot), 1 := SecondMember(cfg, "x"), 2 := SecondMember(cfg, "y")];
  }

  lemma FirstRows(cfg: Config)
    requires Selects(cfg)
    ensures var tasks := Rows(cfg, SecondMember(cfg, "x"), SecondMember(cfg, "y")).tasks;
            var slot := Queried(WaitingState(), 0, Item(ChainScoreReady)).tasks[0].slot;
            && Trio(tasks) && tasks[0].status == ScoreReady && tasks[1].status == Pending && tasks[2].status == Pending
            && ClearSlot(map[0 := Primary(cfg).(slot := slot), 1 := SecondMember(cfg, "x"), 2 := SecondMember(cfg, "y")], 0) == tasks
  {
  }

  /** The first ready answer inserts the two members. */
  lemma FirstReady(cfg: Config)
    requires cfg.Valid() && Selects(cfg)
    ensures Exec(cfg, Queried(WaitingState(), 0, Item(ChainScoreReady)), Apply(0, CONTEXT))
            == Rows(cfg, SecondMember(cfg, "x"), SecondMember(cfg, "y"))
  {
    var s := Queried(WaitingState(), 0, Item(ChainScoreReady));
    var tasks := Rows(cfg, SecondMember(cfg, "x"), SecondMember(cfg, "y")).tasks;
    var effect := map[0 := Primary(cfg).(slot := s.tasks[0].slot), 1 := SecondMember(cfg, "x"), 2 := SecondMember(cfg, "y")];
    assert Enabled(cfg, s, Apply(0, CONTEXT));
    FirstReadyEffect(cfg);
    FirstRows(cfg);
    hide OperationEffect, Recalculated, SecondMember, Primary, Enabled, ClearSlot, Trio;
    UnfinishedTrio(tasks, s.clients[1]);
    AppliedQuietly(cfg, s, 0, CONTEXT, effect, tasks);
  }

  /** A pending row of the group, asked about and reported ready. */
  predicate AwaitsReady(t: InferenceTask) {
    && t.status == Pending && !t.cancelRequired && t.sequence == 0 && t.vrf.seed != ""
    && t.abortReason == ReasonNone && t.taskError == ErrorNone
    && t.slot == Slot(OpSync, SlotCompleted, StatusReply(Item(ChainScoreReady)))
  }

  lemma ReadyEffect(cfg: Config, tasks: Tasks, k: nat)
    requires k in tasks && AwaitsReady(tasks[k])
    ensures OperationEffect(cfg, tasks, k, LATER) == Some(tasks[k := Synced(tasks[k], ScoreReady, 0).(slot := tasks[k].slot)])
  {
    var t := tasks[k];
    assert SyncedRow(cfg, t, Item(ChainScoreReady), LATER) == Synced(t, ScoreReady, 0).(slot := t.slot);
    hide SyncedRow, Synced, PersistVrfAndMembers;
  }

  /** A later ready answer, for a row that has its VRF data, changes only that row. */
  lemma LaterReady(cfg: Config, s: State, k: nat)
    requires cfg.Valid() && s.clock == 0 && Trio(s.tasks) && k in s.tasks && s.clients == WaitingState().clients
    requires AwaitsReady(s.tasks[k])
    requires forall j | j in s.tasks :: !Finished(s.tasks[j].status) && s.tasks[j].commitment != "z" && s.tasks[j].commitment != "w"
    ensures Exec(cfg, s, Apply(k, LATER)) == s.(tasks := s.tasks[k := Synced(s.tasks[k], ScoreReady, 0)])
  {
    ReadyEffect(cfg, s.tasks, k);
    var t := s.tasks[k];
    var effect := s.tasks[k := Synced(t, ScoreReady, 0).(slot := t.slot)];
    var tasks := s.tasks[k := Synced(t, ScoreReady, 0)];
    assert t.slot.status == SlotCompleted;
    hide OperationEffect, Recalculated, Synced, AwaitsReady, Enabled, ClearSlot, Exec;
    ReadyCleared(s.tasks, k);
    LaterIsEnabled(cfg, s, k);
    ReadyTrio(s.tasks, k);
    UnfinishedTrio(tasks, s.clients[1]);
    AppliedQuietly(cfg, s, k, LATER, effect, tasks);
  }

  lemma ReadyTrio(tasks: Tasks, k: nat)
    requires Trio(tasks) && k in tasks && (forall j | j in tasks :: !Finished(tasks[j].status))
    ensures var ready := tasks[k := Synced(tasks[k], ScoreReady, 0)];
            && Trio(ready) && ready[k].status == ScoreReady && !Finished(ready[0].status)
            && (forall j | j in ready :: ready[j].status != ResultDownloaded)
  {
  }

  lemma ReadyCleared(tasks: Tasks, k: nat)
    requires k in tasks
    ensures ClearSlot(tasks[k := Synced(tasks[k], ScoreReady, 0).(slot := tasks[k].slot)], k) == tasks[k := Synced(tasks[k], ScoreReady, 0)]
  {
    var n := Synced(tasks[k], ScoreReady, 0);
    assert n.(slot := tasks[k].slot).(slot := EMPTY_SLOT) == n;
    hide Synced;
  }

  lemma LaterIsEnabled(cfg: Config, s: State, k: nat)
    requires s.clock == 0 && Trio(s.tasks) && k in s.tasks && s.tasks[k].slot.status == SlotCompleted
    requires forall j | j in s.tasks :: s.tasks[j].commitment != "z" && s.tasks[j].commitment != "w"
    ensures Enabled(cfg, s, Apply(k, LATER))
  {
  }

  function ReadyMember(cfg: Config, commitment: string): InferenceTask
    requires Selects(cfg)
  {
    Synced(SecondMember(cfg, commitment), ScoreReady, 0)
  }

  lemma PendingIsSelected(cfg: Config, s: State, k: nat)
    requires k in s.tasks && s.tasks[k].slot == EMPTY_SLOT && s.tasks[k].nextActionAt <= 0 && s.tasks[k].spec.taskType == SD
    requires !s.tasks[k].relayChecked && !Finished(s.tasks[k].status)
    ensures Selected(s.tasks[k], 0) && Decide(s.tasks, k) == OpSync
  {
    DueQueriesCover(s.tasks[k], 0);
  }

  function QuerySteps(k: nat, item: StatusItem, ctx: Context): seq<Step> {
    [StartWorker(0, OpSync, {k}, 0), Finish(0, map[k := Answered(StatusReply(item))]), Apply(k, ctx)]
  }

  /** No row is finished, and none has one of the identities still to be given out. */
  predicate OpenRows(tasks: Tasks) {
    forall j | j in tasks :: !Finished(tasks[j].status) && tasks[j].commitment != "z" && tasks[j].commitment != "w"
  }

  /** A member just inserted, about to be asked for. */
  predicate NewMember(t: InferenceTask) {
    && t.slot == EMPTY_SLOT && t.nextActionAt <= 0 && !t.relayChecked && t.spec.taskType == SD
    && AwaitsReady(t.(slot := Slot(OpSync, SlotCompleted, StatusReply(Item(ChainScoreReady)))))
  }

  lemma QueriedRows(s: State, k: nat)
    requires k in s.tasks && Trio(s.tasks) && OpenRows(s.tasks)
    ensures var q := Queried(s, k, Item(ChainScoreReady)); Trio(q.tasks) && OpenRows(q.tasks)
  {
  }

  lemma QueriedStays(s: State, k: nat)
    requires k in s.tasks && Trio(s.tasks) && OpenRows(s.tasks) && NewMember(s.tasks[k])
    ensures var q := Queried(s, k, Item(ChainScoreReady));
            && Trio(q.tasks) && OpenRows(q.tasks) && AwaitsReady(q.tasks[k])
            && q.tasks[k := Synced(q.tasks[k], ScoreReady, 0)] == s.tasks[k := Synced(s.tasks[k], ScoreReady, 0)]
  {
    QueriedRows(s, k);
    hide AwaitsReady, Trio, OpenRows;
    var r := s.tasks[k].(slot := Slot(OpSync, SlotCompleted, StatusReply(Item(ChainScoreReady))));
    assert Synced(r, ScoreReady, 0) == Synced(s.tasks[k], ScoreReady, 0);
    hide Synced;
    assert s.tasks[k := r][k := Synced(r, ScoreReady, 0)] == s.tasks[k := Synced(r, ScoreReady, 0)];
  }

  /** One more member becomes ready. */
  lemma MemberReady(cfg: Config, s: State, k: nat)
    requires cfg.Valid() && s.clock == 0 && s.workers == map[] && s.clients == WaitingState().clients
    requires Trio(s.tasks) && OpenRows(s.tasks) && k in s.tasks && NewMember(s.tasks[k])
    ensures Run(cfg, s, QuerySteps(k, Item(ChainScoreReady), LATER)) == s.(tasks := s.tasks[k := Synced(s.tasks[k], ScoreReady, 0)])
  {
    PendingIsSelected(cfg, s, k);
    QueriedStays(s, k);
    var q := Queried(s, k, Item(ChainScoreReady));
    assert q == s.(tasks := q.tasks);
    assert OpenRows(q.tasks) ==>
           forall j | j in q.tasks :: !Finished(q.tasks[j].status) && q.tasks[j].commitment != "z" && q.tasks[j].commitment != "w";
    hide Decide, Selected, Queried, Synced, Trio, AwaitsReady, NewMember, Run, Exec;
    QueryAnswered(cfg, s, k, Item(ChainScoreReady), LATER);
    LaterReady(cfg, q, k);
  }

  lemma GroupRows(cfg: Config)
    requires Selects(cfg)
    ensures var x, y := SecondMember(cfg, "x"), SecondMember(cfg, "y");
            var s1, s2 := Rows(cfg, x, y), Rows(cfg, ReadyMember(cfg, "x"), y);
            && Trio(s1.tasks) && OpenRows(s1.tasks) && NewMember(s1.tasks[1])
            && Trio(s2.tasks) && OpenRows(s2.tasks) && NewMember(s2.tasks[2])
            && s1.tasks[1 := Synced(s1.tasks[1], ScoreReady, 0)] == s2.tasks
            && s2.tasks[2 := Synced(s2.tasks[2], ScoreReady, 0)] == Rows(cfg, ReadyMember(cfg, "x"), ReadyMember(cfg, "y")).tasks
  {
    assert NewMember(SecondMember(cfg, "x")) && NewMember(SecondMember(cfg, "y"));
    hide NewMember;
  }

  const EXPAND: seq<Step> := [Submit(1, 7, SUBMISSION, Some(1), 0), Expand(1, [Repeat(Identity(0, "commitment"), "task")], 0)]

  lemma FirstAnswer(cfg: Config)
    requires cfg.Valid() && Selects(cfg)
    ensures Run(cfg, WaitingState(), QuerySteps(0, Item(ChainScoreReady), CONTEXT)) == Rows(cfg, SecondMember(cfg, "x"), SecondMember(cfg, "y"))
  {
    PendingIsSelected(cfg, WaitingState(), 0);
    hide Decide, Selected, Run, Exec;
    QueryAnswered(cfg, WaitingState(), 0, Item(ChainScoreReady), CONTEXT);
    FirstReady(cfg);
  }

  function ReadySteps(): seq<Step> {
    EXPAND + QuerySteps(0, Item(ChainScoreReady), CONTEXT) + QuerySteps(1, Item(ChainScoreReady), LATER)
    + QuerySteps(2, Item(ChainScoreReady), LATER)
  }

  /** Three ready members, as a run from the empty database. */
  lemma ReadyGroup(cfg: Config)
    requires cfg.Valid() && Selects(cfg)
    ensures Run(cfg, INITIAL, ReadySteps()) == Rows(cfg, ReadyMember(cfg, "x"), ReadyMember(cfg, "y"))
  {
    var first := EXPAND + QuerySteps(0, Item(ChainScoreReady), CONTEXT);
    var second := first + QuerySteps(1, Item(ChainScoreReady), LATER);
    Expansion(cfg);
    FirstAnswer(cfg);
    GroupRows(cfg);
    var s1, s2 := Rows(cfg, SecondMember(cfg, "x"), SecondMember(cfg, "y")), Rows(cfg, ReadyMember(cfg, "x"), SecondMember(cfg, "y"));
    hide Run, Exec, SecondMember, ReadyMember, Trio, OpenRows, NewMember, QuerySteps, Synced, Primary;
    RunIsSequential(cfg, INITIAL, EXPAND, QuerySteps(0, Item(ChainScoreReady), CONTEXT));
    MemberReady(cfg, s1, 1);
    RunIsSequential(cfg, INITIAL, first, QuerySteps(1, Item(ChainScoreReady), LATER));
    MemberReady(cfg, s2, 2);
    RunIsSequential(cfg, INITIAL, second, QuerySteps(2, Item(ChainScoreReady), LATER));
  }

  // ---- The refusal ----

  lemma StartOne(cfg: Config, s: State, w: nat, op: Operation, k: nat)
    requires cfg.Valid() && op != OpNone && s.clock == 0 && w !in s.workers && PoolWorkers(s, op) == {}
    requires k in s.tasks && Selected(s.tasks[k], 0) && Decide(s.tasks, k) == op
    ensures Exec(cfg, s, StartWorker(w, op, {k}, 0)) ==
            s.(tasks := s.tasks[k := s.tasks[k].(slot := Slot(op, SlotRunning, NoReply))], workers := s.workers[w := Worker(op, {k})])
  {
    hide Selected, Decide, PoolWorkers;
    assert Enabled(cfg, s, StartWorker(w, op, {k}, 0));
  }

  lemma FinishOne(cfg: Config, s: State, w: nat, k: nat, e: Ending)
    requires w in s.workers && s.workers[w].rows == {k} && k in s.tasks && ReplyFits(s.workers[w].op, e) && !ReportsEnd(e)
    ensures Exec(cfg, s, Finish(w, map[k := e])) ==
            s.(tasks := s.tasks[k := EndedRow(s.tasks[k], s.workers[w].op, e)], workers := s.workers - {w})
  {
    hide EndedRow, ReplyFits, ReportsEnd;
    assert NewlyEnded(s.tasks, map[k := e]) == {};
    assert WriteEndings(s.tasks, s.workers[w].op, map[k := e]) == s.tasks[k := EndedRow(s.tasks[k], s.workers[w].op, e)];
  }

  const STARTED_ITEM := StatusItem(true, ChainStarted, ReasonNone, ErrorNone, 0, "", "", 0, [], None, false)

  lemma GroupDecisions(cfg: Config, one: InferenceTask, two: InferenceTask, slot: Slot)
    requires Selects(cfg) && one == ReadyMember(cfg, "x") && two == ReadyMember(cfg, "y")
    ensures var tasks: Tasks := map[0 := Primary(cfg).(slot := slot), 1 := one, 2 := two];
            && Decide(tasks, 0) == OpValidate && Decide(tasks, 1) == OpSync
            && Selected(one, 0) && Selected(Primary(cfg), 0)
  {
    var tasks: Tasks := map[0 := Primary(cfg).(slot := slot), 1 := one, 2 := two];
    assert Trio(tasks);
    TrioGroup(tasks);
    DueQueriesCover(one, 0);
    DueQueriesCover(Primary(cfg), 0);
    hide Selected, Group;
    assert ValidationGroupReady(tasks, "task");
    assert IsOwner(tasks, 0) && !IsOwner(tasks, 1);
  }

  function RefusedRow(cfg: Config): InferenceTask
    requires Selects(cfg)
  {
    Primary(cfg).(slot := Slot(OpValidate, SlotCompleted, OutcomeReply(OutcomePermanentError)))
  }

  function AskedRow(cfg: Config): InferenceTask
    requires Selects(cfg)
  {
    ReadyMember(cfg, "x").(slot := Slot(OpSync, SlotCompleted, StatusReply(STARTED_ITEM)))
  }

  /** Both answers are in: the group is refused for good, and a member is reported started. */
  function BothAnswered(cfg: Config): State
    requires Selects(cfg)
  {
    WaitingState().(tasks := map[0 := RefusedRow(cfg), 1 := AskedRow(cfg), 2 := ReadyMember(cfg, "y")])
  }

  const VALIDATING := Slot(OpValidate, SlotRunning, NoReply)
  const QUERYING := Slot(OpSync, SlotRunning, NoReply)
  const REFUSAL := Answered(OutcomeReply(OutcomePermanentError))
  const STARTED_ANSWER := Answered(StatusReply(STARTED_ITEM))

  function PairSteps(): seq<Step> {
    [StartWorker(0, OpValidate, {0}, 0), StartWorker(1, OpSync, {1}, 0), Finish(0, map[0 := REFUSAL]), Finish(1, map[1 := STARTED_ANSWER])]
  }

  lemma RunFour(cfg: Config, s: State, a: Step, b: Step, c: Step, d: Step)
    ensures Run(cfg, s, [a, b, c, d]) == Exec(cfg, Exec(cfg, Exec(cfg, Exec(cfg, s, a), b), c), d)
  {
    RunThree(cfg, s, a, b, c);
    assert [a, b, c, d][..3] == [a, b, c];
  }

  /** The group with these rows and workers. */
  function With(one: InferenceTask, two: InferenceTask, three: InferenceTask, workers: map<nat, Worker>): State {
    WaitingState().(tasks := map[0 := one, 1 := two, 2 := three], workers := workers)
  }

  lemma ValidationStarts(cfg: Config, one: InferenceTask, two: InferenceTask, three: InferenceTask)
    requires cfg.Valid() && Selected(one, 0) && Decide(With(one, two, three, map[]).tasks, 0) == OpValidate
    ensures Exec(cfg, With(one, two, three, map[]), PairSteps()[0])
            == With(one.(slot := VALIDATING), two, three, map[0 := Worker(OpValidate, {0})])
  {
    hide Selected, Decide, Exec;
    var s := With(one, two, three, map[]);
    assert PoolWorkers(s, OpValidate) == {};
    StartOne(cfg, s, 0, OpValidate, 0);
  }

  lemma QueryStarts(cfg: Config, one: InferenceTask, two: InferenceTask, three: InferenceTask)
    requires cfg.Valid() && Selected(two, 0) && Decide(With(one, two, three, map[]).tasks, 1) == OpSync
    ensures Exec(cfg, With(one, two, three, map[0 := Worker(OpValidate, {0})]), PairSteps()[1])
            == With(one, two.(slot := QUERYING), three, map[0 := Worker(OpValidate, {0}), 1 := Worker(OpSync, {1})])
  {
    hide Selected, Decide, Exec;
    var s := With(one, two, three, map[0 := Worker(OpValidate, {0})]);
    assert PoolWorkers(s, OpSync) == {};
    StartOne(cfg, s, 1, OpSync, 1);
  }

  lemma RefusalArrives(cfg: Config, one: InferenceTask, two: InferenceTask, three: InferenceTask)
    requires one.slot == VALIDATING
    ensures Exec(cfg, With(one, two, three, map[0 := Worker(OpValidate, {0}), 1 := Worker(OpSync, {1})]), PairSteps()[2])
            == With(one.(slot := Slot(OpValidate, SlotCompleted, REFUSAL.reply)), two, three, map[1 := Worker(OpSync, {1})])
  {
    hide Exec;
    var s := With(one, two, three, map[0 := Worker(OpValidate, {0}), 1 := Worker(OpSync, {1})]);
    FinishOne(cfg, s, 0, 0, REFUSAL);
    assert s.workers - {0} == map[1 := Worker(OpSync, {1})];
  }

  lemma QueryIsAnswered(cfg: Config, one: InferenceTask, two: InferenceTask, three: InferenceTask)
    requires two.slot == QUERYING
    ensures Exec(cfg, With(one, two, three, map[1 := Worker(OpSync, {1})]), PairSteps()[3])
            == With(one, two.(slot := Slot(OpSync, SlotCompleted, STARTED_ANSWER.reply)), three, map[])
  {
    hide Exec;
    var s := With(one, two, three, map[1 := Worker(OpSync, {1})]);
    FinishOne(cfg, s, 1, 1, STARTED_ANSWER);
    assert s.workers - {1} == map[];
  }

  lemma Pair(cfg: Config)
    requires cfg.Valid() && Selects(cfg)
    ensures Run(cfg, Rows(cfg, ReadyMember(cfg, "x"), ReadyMember(cfg, "y")), PairSteps()) == BothAnswered(cfg)
  {
    var p, x, y := Primary(cfg), ReadyMember(cfg, "x"), ReadyMember(cfg, "y");
    GroupDecisions(cfg, x, y, EMPTY_SLOT);
    GroupDecisions(cfg, x, y, VALIDATING);
    assert p.(slot := EMPTY_SLOT) == p;
    hide Selected, Decide, Run, Exec, Primary, ReadyMember;
    ValidationStarts(cfg, p, x, y);
    QueryStarts(cfg, p.(slot := VALIDATING), x, y);
    RefusalArrives(cfg, p.(slot := VALIDATING), x.(slot := QUERYING), y);
    QueryIsAnswered(cfg, RefusedRow(cfg), x.(slot := QUERYING), y);
    RunFour(cfg, With(p, x, y, map[]), PairSteps()[0], PairSteps()[1], PairSteps()[2], PairSteps()[3]);
  }

  lemma BothAnsweredRows(cfg: Config)
    requires Selects(cfg)
    ensures var s := BothAnswered(cfg);
            && OpenRows(s.tasks) && Trio(s.tasks) && Rejects(s.tasks[0]) && s.clock == 0
            && s.tasks[0].slot.status == SlotCompleted && s.tasks[1].slot == Slot(OpSync, SlotCompleted, STARTED_ANSWER.reply)
            && !s.tasks[1].cancelRequired
  {
    var p, x, y := RefusedRow(cfg), AskedRow(cfg), ReadyMember(cfg, "y");
    var tasks := BothAnswered(cfg).tasks;
    assert tasks == map[0 := p, 1 := x, 2 := y];
    assert p.spec == FIRST_ROW.spec && p.status == ScoreReady && p.commitment == "commitment" && Rejects(p);
    assert x.spec.taskId == "task" && x.spec.clientTaskId == 1 && x.spec.taskType == SD && x.status == ScoreReady && x.commitment == "x";
    assert y.spec.taskId == "task" && y.spec.clientTaskId == 1 && y.spec.taskType == SD && y.status == ScoreReady && y.commitment == "y";
    assert !x.cancelRequired;
    hide RefusedRow, AskedRow, ReadyMember, BothAnswered, Rejects;
    assert Trio(tasks) && OpenRows(tasks);
  }

  /** Applying the refusal inserts no row and leaves the member's answer in its slot. */
  lemma RefusalApplied(cfg: Config, s: State)
    requires cfg.Valid() && s.tasks.Keys == {0, 1, 2} && Enabled(cfg, s, Apply(0, LATER)) && Rejects(s.tasks[0])
    ensures var s' := Exec(cfg, s, Apply(0, LATER));
            s'.clock == 0 && s'.tasks.Keys == {0, 1, 2} && s'.tasks[1].slot == s.tasks[1].slot
  {
    var s' := ApplyStep(cfg, s, 0, LATER);
    var applied, inserted := ApplyStepEffect(cfg, s, 0, LATER);
    hide ApplyStep, OwnRow;
    assert applied ==> OtherRow(s.tasks, s'.tasks, 0, 1, 0);
  }

  lemma AnswerStillEnabled(cfg: Config, s: State)
    requires cfg.Valid() && Trio(s.tasks) && OpenRows(s.tasks) && s.tasks[1].slot.status == SlotCompleted
    requires Enabled(cfg, s, Apply(0, LATER)) && Rejects(s.tasks[0])
    ensures Enabled(cfg, Exec(cfg, s, Apply(0, LATER)), Apply(1, LATER))
  {
    RefusalApplied(cfg, s);
    hide Exec, Rejects, Finished, Enabled;
    TerminalClosure.StepKeepsRows(cfg, s, Apply(0, LATER));
    LaterIsEnabled(cfg, Exec(cfg, s, Apply(0, LATER)), 1);
  }

  lemma BothEnabled(cfg: Config)
    requires cfg.Valid() && Selects(cfg)
    ensures var s := BothAnswered(cfg);
            Enabled(cfg, s, Apply(0, LATER)) && Enabled(cfg, Exec(cfg, s, Apply(0, LATER)), Apply(1, LATER))
  {
    BothAnsweredRows(cfg);
    hide BothAnswered, Exec, Rejects;
    LaterIsEnabled(cfg, BothAnswered(cfg), 0);
    AnswerStillEnabled(cfg, BothAnswered(cfg));
  }

  /** The two answers applied one after the other. */
  lemma RefusedThenStarted(cfg: Config, prefix: seq<Step>)
    requires cfg.Valid() && Selects(cfg) && Run(cfg, INITIAL, prefix) == BothAnswered(cfg)
    ensures var s := Exec(cfg, BothAnswered(cfg), Apply(0, LATER));
            && 1 in s.tasks && s.tasks[1].status == EndAborted
            && var s' := Exec(cfg, s, Apply(1, LATER)); 1 in s'.tasks && s'.tasks[1].status == Started
  {
    BothEnabled(cfg);
    BothAnsweredRows(cfg);
    EveryRunKeepsInv(cfg, prefix);
    hide Run, Inv, Rejects, Enabled, Exec, BothAnswered;
    TerminalClosure.RefusalDuringSyncReactivates(cfg, BothAnswered(cfg), 0, 1, LATER, LATER);
  }

  /** A whole run from the empty database: the refused group takes a member to EndAborted, which is
      terminal, and the answer to its status query takes it back to Started. */
  lemma TerminalRowComesBack(cfg: Config) returns (steps: seq<Step>)
    requires cfg.Valid() && Selects(cfg)
    ensures var s := Run(cfg, INITIAL, steps); 1 in s.tasks && s.tasks[1].status == EndAborted
    ensures var s := Run(cfg, INITIAL, steps + [Apply(1, LATER)]); 1 in s.tasks && s.tasks[1].status == Started
  {
    var prefix := ReadySteps() + PairSteps();
    ReadyGroup(cfg);
    Pair(cfg);
    hide BothAnswered, PairSteps, ReadySteps, Exec, Rows;
    RunIsSequential(cfg, INITIAL, ReadySteps(), PairSteps());
    RefusedThenStarted(cfg, prefix);
    steps := prefix + [Apply(0, LATER)];
    assert steps[..|steps| - 1] == prefix;
    var all := steps + [Apply(1, LATER)];
    assert all[..|all| - 1] == steps;
  }
}
