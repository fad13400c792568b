/** Which rows that have ended without a result can still get one. The answer depends on the row alone:
    on its cancellation flag and on the operation in its slot. */
module RowRevival {
  import opened Wrappers
  import opened Models
  import opened Config
  import opened Progression
  import opened Dispatch
  import opened StateMachine
  import opened ApplyEffect
  import opened Frames
  import opened GroupInvariant
  import opened SlotInvariant
  import opened ClientInvariant
  import opened Invariant
  import opened Lifecycle
  import opened CancellationFlags

  predicate Ended(t: InferenceTask) {
    Finished(t.status) && t.status != ResultDownloaded
  }

  /** The answer's seed would have to be persisted, and cannot be. */
  predicate SeedStuck(cfg: Config, t: InferenceTask, item: StatusItem) {
    t.vrf.seed == "" && item.samplingSeed != "" && SeedFails(cfg, t, item, true)
  }

  /** The stored status answer reopens an ended row: it leaves a cancellation owed, or it takes the row
      back to an active status or to success. */
  predicate Reopens(cfg: Config, t: InferenceTask, item: StatusItem) {
    && item.found
    && (|| KeepsLocalAbort(t, item)
        || (item.status == ChainQueued && cfg.heartbeatMaxQueuedDuration > 0)
        || (!Finished(RelayStatusToLocal(item.status)) && !SeedStuck(cfg, t, item)))
  }

  /** What an ended row needs for a result to be possible: an owed cancellation, a status query or a
      download on its way, or a stored answer that reopens or completes it. */
  predicate CanStillDeliver(cfg: Config, t: InferenceTask) {
    match t.slot.status
    case SlotNone => t.cancelRequired
    case SlotFailed => t.cancelRequired
    case SlotRunning => t.cancelRequired || t.slot.op == OpSync || t.slot.op == OpResult
    case SlotCompleted =>
      match t.slot.op
      case OpResult => true
      case OpSync => t.slot.reply.StatusReply? && Reopens(cfg, t, t.slot.reply.item)
      case OpCancel => false
      case _ => t.cancelRequired
  }

  /** Nothing will ever give the row a result. */
  predicate Doomed(cfg: Config, t: InferenceTask) {
    Ended(t) && !CanStillDeliver(cfg, t)
  }

  // ---- A doomed row stays doomed ----

  lemma InvSize(cfg: Config, s: State, k: nat)
    requires Inv(cfg, s) && k in s.tasks
    ensures SizeOk(s.tasks, k) && SlotOk(s.tasks[k]) && OwnerOk(s.clients, s.tasks[k])
  {
  }

  lemma OwnRowDoomed(cfg: Config, t: InferenceTask, ctx: Context)
    requires Doomed(cfg, t) && SlotOk(t) && (t.slot.status == SlotCompleted || t.slot.status == SlotFailed)
    requires t.slot.status == SlotCompleted && t.slot.op == OpSync ==>
               !(LooksAtSeed(cfg, t, t.slot.reply.item, ctx) && SeedFails(cfg, t, t.slot.reply.item, true))
    ensures Doomed(cfg, OwnRow(cfg, t, ctx))
  {
    if t.slot.status == SlotCompleted && t.slot.op == OpSync {
      assert OwnRow(cfg, t, ctx) == SyncedRow(cfg, t, t.slot.reply.item, ctx).(slot := EMPTY_SLOT);
      hide OwnRow, WrittenRow, SeedFails, HeartbeatQueuedTimedOut;
      SyncedIsSettled(cfg, t, t.slot.reply.item, ctx);
    } else {
      hide SyncedRow, Reopens;
    }
  }

  /** An answer that reopens nothing, and need not be rolled back, settles an ended row. */
  lemma SyncedIsSettled(cfg: Config, t: InferenceTask, item: StatusItem, ctx: Context)
    requires Ended(t) && !Reopens(cfg, t, item) && !(LooksAtSeed(cfg, t, item, ctx) && SeedFails(cfg, t, item, true))
    ensures var r := SyncedRow(cfg, t, item, ctx); Ended(r) && !r.cancelRequired
  {
    hide StatusSyncNextActionAt, SeedFails;
  }

  lemma ApplyKeepsDoomed(cfg: Config, s: State, id: nat, ctx: Context, k: nat)
    requires Inv(cfg, s) && FlagsOk(s) && Enabled(cfg, s, Apply(id, ctx)) && k in s.tasks && Doomed(cfg, s.tasks[k])
    ensures var s' := ApplyStep(cfg, s, id, ctx); k in s'.tasks && Doomed(cfg, s'.tasks[k])
  {
    var s' := ApplyStep(cfg, s, id, ctx);
    var t := s.tasks[k];
    var applied, inserted := ApplyStepEffect(cfg, s, id, ctx);
    InvSize(cfg, s, k);
    assert FlagOk(t);
    if k == id && t.slot.status == SlotCompleted && t.slot.op == OpSync { CommitsUnless(cfg, s.tasks, id, ctx); }
    hide ApplyStep, OperationEffect, Inv, FlagsOk;
    if applied {
      if k == id {
        hide Doomed;
        OwnRowDoomed(cfg, t, ctx);
        hide OwnRow;
        VrfOfIdle(cfg, OwnRow(cfg, t, ctx), s'.tasks[k].vrf);
      } else {
        hide OwnRow, Reopens;
        assert OtherRow(s.tasks, s'.tasks, id, k, ctx.now);
        SiblingOfDoomed(cfg, s.tasks[id], t, s'.tasks[k], ctx.now);
      }
    }
  }

  lemma VrfOfIdle(cfg: Config, t: InferenceTask, vrf: Vrf)
    requires Doomed(cfg, t) && t.slot == EMPTY_SLOT
    ensures Doomed(cfg, t.(vrf := vrf))
  {
  }

  lemma SiblingOfDoomed(cfg: Config, own: InferenceTask, o: InferenceTask, n: InferenceTask, now: int)
    requires Doomed(cfg, o) && FlagOk(o) && (n == o || SiblingChange(own, o, n, now))
    ensures Doomed(cfg, n)
  {
    if o.slot.status == SlotCompleted && o.slot.op == OpSync && o.slot.reply.StatusReply? {
      SameReopening(cfg, o, n, o.slot.reply.item);
    }
    hide Reopens;
  }

  lemma SameReopening(cfg: Config, o: InferenceTask, n: InferenceTask, item: StatusItem)
    requires n.spec == o.spec && n.vrf == o.vrf && n.cancelRequired == o.cancelRequired
    requires n.cancelRequired ==> n.status == o.status
    ensures Reopens(cfg, n, item) == Reopens(cfg, o, item)
  {
  }

  lemma WorkerKeepsDoomed(cfg: Config, s: State, step: Step, k: nat)
    requires Enabled(cfg, s, step) && (step.StartWorker? || step.Finish?) && k in s.tasks && Doomed(cfg, s.tasks[k])
    ensures var s' := Exec(cfg, s, step); k in s'.tasks && Doomed(cfg, s'.tasks[k])
  {
    hide NewlyEnded, ReplyFits, Reopens, PoolWorkers, Decide;
    if step.StartWorker? && k in step.rows { DueQueriesCover(s.tasks[k], step.now); }
    hide Selected;
  }

  lemma RewriteKeepsDoomed(cfg: Config, s: State, step: Step, k: nat)
    requires Enabled(cfg, s, step) && (step.Recover? || step.AbortCommit?) && k in s.tasks && Doomed(cfg, s.tasks[k])
    ensures var s' := Exec(cfg, s, step); k in s'.tasks && Doomed(cfg, s'.tasks[k])
  {
    hide ValidatingGroup, Recalculated, AllStopped, Reopens, Doomed;
    var o, n := s.tasks[k], Exec(cfg, s, step).tasks[k];
    assert n.spec == o.spec && n.vrf == o.vrf;
    assert || (n.status == o.status && n.cancelRequired == o.cancelRequired && n.slot == o.slot)
           || (n.status == o.status && n.cancelRequired == o.cancelRequired && o.slot.status == SlotRunning && n.slot.status == SlotNone)
           || (n.status == EndAborted && !n.cancelRequired && n.slot == EMPTY_SLOT);
    hide Exec, Enabled;
    FreedKeepsDoomed(cfg, o, n);
  }

  lemma FreedKeepsDoomed(cfg: Config, o: InferenceTask, n: InferenceTask)
    requires Doomed(cfg, o) && n.spec == o.spec && n.vrf == o.vrf
    requires || (n.status == o.status && n.cancelRequired == o.cancelRequired && n.slot == o.slot)
             || (n.status == o.status && n.cancelRequired == o.cancelRequired && o.slot.status == SlotRunning && n.slot.status == SlotNone)
             || (n.status == EndAborted && !n.cancelRequired && n.slot == EMPTY_SLOT)
    ensures Doomed(cfg, n)
  {
    if o.slot.status == SlotCompleted && o.slot.op == OpSync && o.slot.reply.StatusReply? && n.slot == o.slot {
      SameReopening(cfg, o, n, o.slot.reply.item);
    }
    hide Reopens;
  }

  lemma StepKeepsDoomed(cfg: Config, s: State, step: Step, k: nat)
    requires Inv(cfg, s) && FlagsOk(s) && k in s.tasks && Doomed(cfg, s.tasks[k])
    ensures var s' := Exec(cfg, s, step); k in s'.tasks && Doomed(cfg, s'.tasks[k])
  {
    hide Inv, FlagsOk, Doomed;
    if !Enabled(cfg, s, step) {
    } else if step.Apply? {
      ApplyKeepsDoomed(cfg, s, step.task, step.ctx, k);
    } else if step.Expand? {
      ExpansionInserts(s.tasks, s.clients[step.clientTaskId], step.clientTaskId, step.repeats, step.now);
    } else if step.Recover? || step.AbortCommit? {
      RewriteKeepsDoomed(cfg, s, step, k);
    } else if step.StartWorker? || step.Finish? {
      WorkerKeepsDoomed(cfg, s, step, k);
    }
  }

  lemma {:induction false} DoomedForever(cfg: Config, s: State, steps: seq<Step>, k: nat)
    requires cfg.Valid() && Inv(cfg, s) && FlagsOk(s) && k in s.tasks && Doomed(cfg, s.tasks[k])
    ensures k in Run(cfg, s, steps).tasks && Doomed(cfg, Run(cfg, s, steps).tasks[k])
  {
    if steps != [] {
      var last := |steps| - 1;
      DoomedForever(cfg, s, steps[..last], k);
      RunKeepsFlags(cfg, s, steps[..last]);
      hide Inv, FlagsOk, Doomed, Exec;
      StepKeepsDoomed(cfg, Run(cfg, s, steps[..last]), steps[last], k);
    }
  }

  // ---- One full round of a row: dispatch, answer, apply ----

  lemma {:induction false} IdsAreBounded(tasks: Tasks, keys: set<nat>) returns (n: nat)
    requires keys <= tasks.Keys
    ensures forall k | k in keys :: k < n && |tasks[k].commitment| < n
  {
    if keys == {} {
      n := 0;
    } else {
      var k :| k in keys;
      var m := IdsAreBounded(tasks, keys - {k});
      n := m + k + |tasks[k].commitment| + 1;
    }
  }

  lemma FreshContext(tasks: Tasks, now: int) returns (ctx: Context)
    ensures ctx.now == now && ctx.heartbeatClient == None
    ensures FreshIdentity(tasks, ctx.first) && FreshIdentity(tasks, ctx.second)
    ensures ctx.first.id < ctx.second.id && ctx.first.commitment != ctx.second.commitment
  {
    var n := IdsAreBounded(tasks, tasks.Keys);
    var first, second := seq(n + 1, _ => 'a'), seq(n + 2, _ => 'a');
    assert |first| != |second|;
    ctx := Context(now, Identity(n + 1, first), Identity(n + 2, second), None);
  }

  /** The row when its worker has ended. */
  function EndedSlot(t: InferenceTask, op: Operation, e: Ending): InferenceTask {
    EndedRow(t.(slot := Slot(op, SlotRunning, NoReply)), op, e)
  }

  lemma StartAlone(cfg: Config, s: State, k: nat, now: int)
    requires cfg.Valid() && Inv(cfg, s) && s.workers == map[] && s.clock <= now
    requires k in s.tasks && Selected(s.tasks[k], now)
    ensures var op := Decide(s.tasks, k);
            var s' := Exec(cfg, s, StartWorker(0, op, {k}, now));
            && op != OpNone && Inv(cfg, s') && s'.clock == now
            && s'.workers == map[0 := Worker(op, {k})]
            && s'.tasks == s.tasks[k := s.tasks[k].(slot := Slot(op, SlotRunning, NoReply))]
            && s'.clients == s.clients
  {
    SelectedRowsAct(s.tasks, k, now);
    var op := Decide(s.tasks, k);
    assert PoolWorkers(s, op) == {};
    assert Enabled(cfg, s, StartWorker(0, op, {k}, now));
    StepKeepsInv(cfg, s, StartWorker(0, op, {k}, now));
  }

  lemma FinishAlone(cfg: Config, s: State, k: nat, op: Operation, e: Ending)
    requires cfg.Valid() && Inv(cfg, s) && s.workers == map[0 := Worker(op, {k})] && k in s.tasks && ReplyFits(op, e)
    ensures var s' := Exec(cfg, s, Finish(0, map[k := e]));
            && Inv(cfg, s') && s'.clock == s.clock && s'.workers == map[]
            && s'.tasks == s.tasks[k := EndedRow(s.tasks[k], op, e)]
            && s'.clients == s.clients
  {
    assert Enabled(cfg, s, Finish(0, map[k := e]));
    StepKeepsInv(cfg, s, Finish(0, map[k := e]));
  }

  /** An answer that carries no sampling seed cannot be rolled back. */
  predicate PlainEnding(op: Operation, e: Ending) {
    ReplyFits(op, e) && (e.Answered? && e.reply.StatusReply? ==> e.reply.item.samplingSeed == "")
  }

  lemma LoneApply(cfg: Config, s: State, k: nat, ctx: Context)
    requires Applicable(s.tasks, k, ctx) && s.tasks[k].spec.clientTaskId in s.clients && SlotOk(s.tasks[k])
    requires s.tasks[k].slot.reply.StatusReply? ==> s.tasks[k].slot.reply.item.samplingSeed == ""
    ensures var s' := ApplyStep(cfg, s, k, ctx);
            k in s'.tasks && s'.tasks[k] == OwnRow(cfg, s.tasks[k], ctx) && s'.workers == s.workers && s'.clock == ctx.now
  {
    var applied, inserted := ApplyStepEffect(cfg, s, k, ctx);
    hide ApplyStep, WrittenRow, SyncedRow;
    if s.tasks[k].slot.status == SlotCompleted && s.tasks[k].slot.op == OpSync {
      assert !LooksAtSeed(cfg, s.tasks[k], s.tasks[k].slot.reply.item, ctx);
    }
    assert applied;
  }

  /** The third step of a round: the stored answer is applied to its own row. */
  lemma LastApply(cfg: Config, s: State, k: nat, t: InferenceTask, op: Operation, e: Ending, ctx: Context)
    requires cfg.Valid() && Inv(cfg, s) && k in s.tasks && s.tasks[k] == EndedSlot(t, op, e) && s.clock <= ctx.now
    requires FreshIdentity(s.tasks, ctx.first) && FreshIdentity(s.tasks, ctx.second)
    requires ctx.first.id < ctx.second.id && ctx.first.commitment != ctx.second.commitment
    requires PlainEnding(op, e)
    ensures var s' := Exec(cfg, s, Apply(k, ctx));
            && Inv(cfg, s') && s'.workers == s.workers && s'.clock == ctx.now
            && k in s'.tasks && s'.tasks[k] == OwnRow(cfg, EndedSlot(t, op, e), ctx)
  {
    assert t.spec.clientTaskId in s.clients by { assert OwnerOk(s.clients, s.tasks[k]); }
    assert SlotOk(s.tasks[k]);
    StepKeepsInv(cfg, s, Apply(k, ctx));
    hide Inv, OwnRow, SlotOk;
    LoneApply(cfg, s, k, ctx);
  }

  lemma Round(cfg: Config, s: State, k: nat, e: Ending, now: int) returns (steps: seq<Step>, ctx: Context)
    requires cfg.Valid() && Inv(cfg, s) && s.workers == map[] && s.clock <= now
    requires k in s.tasks && Selected(s.tasks[k], now) && PlainEnding(Decide(s.tasks, k), e)
    ensures ctx.now == now && ctx.heartbeatClient == None
    ensures steps == [StartWorker(0, Decide(s.tasks, k), {k}, now), Finish(0, map[k := e]), Apply(k, ctx)]
    ensures var answered := Run(cfg, s, steps[..2]);
            k in answered.tasks && answered.tasks[k] == EndedSlot(s.tasks[k], Decide(s.tasks, k), e)
    ensures var s' := Run(cfg, s, steps);
            var op := Decide(s.tasks, k);
            && Inv(cfg, s') && s'.workers == map[] && s'.clock == now
            && k in s'.tasks && s'.tasks[k] == OwnRow(cfg, EndedSlot(s.tasks[k], op, e), ctx)
  {
    var op := Decide(s.tasks, k);
    var t := s.tasks[k];
    StartAlone(cfg, s, k, now);
    var s1 := Exec(cfg, s, StartWorker(0, op, {k}, now));
    assert ReplyFits(op, e);
    hide Selected, Decide, PlainEnding, OwnRow, Exec, ReplyFits;
    FinishAlone(cfg, s1, k, op, e);
    var s2 := Exec(cfg, s1, Finish(0, map[k := e]));
    ctx := FreshContext(s2.tasks, now);
    steps := [StartWorker(0, op, {k}, now), Finish(0, map[k := e]), Apply(k, ctx)];
    RunThree(cfg, s, steps[0], steps[1], steps[2]);
    assert s2.tasks[k] == EndedSlot(t, op, e);
    LastApply(cfg, s2, k, t, op, e, ctx);
  }

  lemma RunThree(cfg: Config, s: State, a: Step, b: Step, c: Step)
    ensures Run(cfg, s, [a, b, c][..2]) == Exec(cfg, Exec(cfg, s, a), b)
    ensures Run(cfg, s, [a, b, c]) == Exec(cfg, Exec(cfg, Exec(cfg, s, a), b), c)
  {
    assert [a, b, c][..2] == [a, b] && [a, b][..1] == [a] && [a][..0] == [];
    assert Run(cfg, s, [a]) == Exec(cfg, s, a);
    assert Run(cfg, s, [a, b]) == Exec(cfg, Exec(cfg, s, a), b);
  }

  // ---- From an idle row to a result ----

  const SUCCESS_ITEM := StatusItem(true, ChainEndSuccess, ReasonNone, ErrorNone, 0, "", "", 0, [], None, true)
  const SUCCESS := Answered(StatusReply(SUCCESS_ITEM))

  lemma LostMutation(cfg: Config, t: InferenceTask, op: Operation, ctx: Context)
    requires LossIsUnknown(op)
    ensures var r := OwnRow(cfg, EndedSlot(t, op, Lost), ctx);
            r.unknown && r.status == t.status && r.cancelRequired == t.cancelRequired && r.spec == t.spec
  {
    hide SyncedRow, CreateEffect, CancelEffect, ResultEffect, ValidatedRow;
  }

  lemma ReportedSuccess(cfg: Config, t: InferenceTask, ctx: Context)
    requires t.slot == Slot(OpSync, SlotCompleted, StatusReply(SUCCESS_ITEM))
    ensures var r := OwnRow(cfg, t, ctx);
            && r.status == EndSuccess && !r.unknown && r.relayChecked && !r.cancelRequired && r.spec == t.spec
            && r.slot == EMPTY_SLOT
  {
  }

  lemma Downloaded(cfg: Config, t: InferenceTask, ctx: Context)
    requires t.slot == Slot(OpResult, SlotCompleted, DownloadReply)
    ensures OwnRow(cfg, t, ctx).status == ResultDownloaded
  {
  }

  function Later(s: State, t: InferenceTask): int {
    Max(s.clock, t.nextActionAt)
  }

  ghost predicate Downloads(cfg: Config, s: State, steps: seq<Step>, k: nat) {
    k in Run(cfg, s, steps).tasks && Run(cfg, s, steps).tasks[k].status == ResultDownloaded
  }

  ghost predicate CanDownload(cfg: Config, s: State, k: nat) {
    exists steps: seq<Step> :: Downloads(cfg, s, steps, k)
  }

  /** An idle row of the engine that has work left. */
  predicate Open(t: InferenceTask) {
    EngineType(t.spec.taskType) && t.slot == EMPTY_SLOT && (t.cancelRequired || !Finished(t.status))
  }

  lemma SuccessDownloads(cfg: Config, s: State, k: nat) returns (steps: seq<Step>)
    requires cfg.Valid() && Inv(cfg, s) && s.workers == map[] && k in s.tasks
    requires Open(s.tasks[k]) && Decide(s.tasks, k) == OpResult
    ensures Downloads(cfg, s, steps, k)
  {
    var t := s.tasks[k];
    DueQueriesCover(t, Later(s, t));
    var ctx;
    hide Decide, Selected, Inv, OwnRow, Run;
    steps, ctx := Round(cfg, s, k, Answered(DownloadReply), Later(s, t));
    Downloaded(cfg, EndedSlot(t, OpResult, Answered(DownloadReply)), ctx);
  }

  lemma QueryDownloads(cfg: Config, s: State, k: nat) returns (steps: seq<Step>)
    requires cfg.Valid() && Inv(cfg, s) && s.workers == map[] && k in s.tasks
    requires Open(s.tasks[k]) && Decide(s.tasks, k) == OpSync
    ensures Downloads(cfg, s, steps, k)
  {
    var t := s.tasks[k];
    DueQueriesCover(t, Later(s, t));
    var first, ctx := Round(cfg, s, k, SUCCESS, Later(s, t));
    ReportedSuccess(cfg, EndedSlot(t, OpSync, SUCCESS), ctx);
    hide OwnRow, Inv;
    var second := SuccessDownloads(cfg, Run(cfg, s, first), k);
    RunIsSequential(cfg, s, first, second);
    steps := first + second;
  }

  /** From any idle row with work left, in a state with no live worker: if the next operation is neither
      a download nor a query, its outcome is lost; then Relay is asked, reports success, and the result
      is downloaded. */
  lemma OpenDownloads(cfg: Config, s: State, k: nat) returns (steps: seq<Step>)
    requires cfg.Valid() && Inv(cfg, s) && s.workers == map[] && k in s.tasks && Open(s.tasks[k])
    ensures Downloads(cfg, s, steps, k)
  {
    var t := s.tasks[k];
    var op := Decide(s.tasks, k);
    if op == OpResult {
      steps := SuccessDownloads(cfg, s, k);
    } else if op == OpSync {
      steps := QueryDownloads(cfg, s, k);
    } else {
      DueQueriesCover(t, Later(s, t));
      SelectedRowsAct(s.tasks, k, Later(s, t));
      hide Selected, Inv, Run;
      var first, ctx := Round(cfg, s, k, Lost, Later(s, t));
      LostMutation(cfg, t, op, ctx);
      hide OwnRow;
      var second := QueryDownloads(cfg, Run(cfg, s, first), k);
      RunIsSequential(cfg, s, first, second);
      steps := first + second;
    }
  }

  lemma RecoveredIsOpen(cfg: Config, s: State, k: nat)
    requires cfg.Valid() && Inv(cfg, s) && k in s.tasks && EngineType(s.tasks[k].spec.taskType)
    requires var t := s.tasks[k];
             (t.slot.status == SlotNone || t.slot.status == SlotRunning) && (t.cancelRequired || !Finished(t.status))
    ensures var s' := Exec(cfg, s, Recover(s.clock));
            Inv(cfg, s') && s'.workers == map[] && k in s'.tasks && Open(s'.tasks[k])
  {
    InvSize(cfg, s, k);
    hide Inv;
    StepKeepsInv(cfg, s, Recover(s.clock));
    var s' := Exec(cfg, s, Recover(s.clock));
    assert s'.workers == map[] && s'.tasks == RecoveredTasks(s.tasks, s.clock);
    hide Exec, Enabled, ValidatingGroup;
    assert s'.tasks[k] == RecoveredRow(s.tasks, k, s.clock);
  }

  /** A crash frees the row first, whatever the engine was doing. */
  lemma FreedDownloads(cfg: Config, s: State, k: nat) returns (steps: seq<Step>)
    requires cfg.Valid() && Inv(cfg, s) && k in s.tasks && EngineType(s.tasks[k].spec.taskType)
    requires var t := s.tasks[k];
             (t.slot.status == SlotNone || t.slot.status == SlotRunning) && (t.cancelRequired || !Finished(t.status))
    ensures Downloads(cfg, s, steps, k)
  {
    RecoveredIsOpen(cfg, s, k);
    hide Inv, Exec, Open;
    var more := OpenDownloads(cfg, Exec(cfg, s, Recover(s.clock)), k);
    steps := Prefixed(cfg, s, Recover(s.clock), more, k);
  }

  lemma Prefixed(cfg: Config, s: State, step: Step, more: seq<Step>, k: nat) returns (steps: seq<Step>)
    requires Downloads(cfg, Exec(cfg, s, step), more, k)
    ensures Downloads(cfg, s, steps, k)
  {
    hide Exec;
    assert [step][..0] == [];
    assert Run(cfg, s, [step]) == Exec(cfg, s, step);
    RunIsSequential(cfg, s, [step], more);
    steps := [step] + more;
  }

  // ---- From a busy row to a result ----

  /** The row after an operation is applied that does not roll back. */
  lemma CommittedRow(cfg: Config, s: State, k: nat, ctx: Context)
    requires cfg.Valid() && Inv(cfg, s) && Enabled(cfg, s, Apply(k, ctx))
    requires s.tasks[k].slot.status == SlotCompleted && s.tasks[k].slot.op == OpSync ==>
               s.tasks[k].slot.reply.StatusReply? && !RollsBack(cfg, s.tasks, k, ctx)
    ensures var s' := Exec(cfg, s, Apply(k, ctx));
            && Inv(cfg, s') && k in s'.tasks
            && s'.tasks[k] == OwnRow(cfg, s.tasks[k], ctx).(vrf := s'.tasks[k].vrf)
  {
    InvSize(cfg, s, k);
    StepKeepsInv(cfg, s, Apply(k, ctx));
    var applied, inserted := ApplyStepEffect(cfg, s, k, ctx);
    if s.tasks[k].slot.status == SlotCompleted && s.tasks[k].slot.op == OpSync { CommitsUnless(cfg, s.tasks, k, ctx); }
    assert Exec(cfg, s, Apply(k, ctx)) == ApplyStep(cfg, s, k, ctx);
    hide ApplyStep, Inv, Exec, RollsBack, OwnRow, ApplyRelayStatus;
    assert applied;
  }

  /** The row of a stored answer is idle with work left, or has its result, once the answer is applied at
      a time and with a heartbeat client that let a queued task time out. */
  lemma AppliedRowDelivers(cfg: Config, t: InferenceTask, ctx: Context)
    requires Ended(t) && SlotOk(t) && EngineType(t.spec.taskType) && CanStillDeliver(cfg, t)
    requires t.slot.status == SlotCompleted || t.slot.status == SlotFailed
    requires ctx.heartbeatClient == Some(t.spec.clientId) && ctx.now - t.spec.createdAt >= cfg.heartbeatMaxQueuedDuration
    ensures var r := OwnRow(cfg, t, ctx); Open(r) || r.status == ResultDownloaded
    ensures t.slot.status == SlotCompleted && t.slot.op == OpSync ==>
              !(LooksAtSeed(cfg, t, t.slot.reply.item, ctx) && SeedFails(cfg, t, t.slot.reply.item, true))
  {
    if t.slot.status == SlotCompleted && t.slot.op == OpSync {
      hide StatusSyncNextActionAt, CreateEffect, CancelEffect, ResultEffect, ValidatedRow, SeedFails;
    } else {
      hide SyncedRow, Reopens;
    }
  }

  /** A moment to apply an answer at, late enough for a queue timeout of the row. */
  lemma LateContext(cfg: Config, s: State, k: nat) returns (ctx: Context)
    requires k in s.tasks && (s.tasks[k].slot.status == SlotCompleted || s.tasks[k].slot.status == SlotFailed)
    ensures Enabled(cfg, s, Apply(k, ctx))
    ensures ctx.heartbeatClient == Some(s.tasks[k].spec.clientId)
    ensures ctx.now - s.tasks[k].spec.createdAt >= cfg.heartbeatMaxQueuedDuration
  {
    ctx := FreshContext(s.tasks, Max(s.clock, s.tasks[k].spec.createdAt + cfg.heartbeatMaxQueuedDuration));
    ctx := ctx.(heartbeatClient := Some(s.tasks[k].spec.clientId));
  }

  lemma AnswerDownloads(cfg: Config, s: State, k: nat) returns (steps: seq<Step>)
    requires cfg.Valid() && Inv(cfg, s) && k in s.tasks && EngineType(s.tasks[k].spec.taskType)
    requires Ended(s.tasks[k]) && CanStillDeliver(cfg, s.tasks[k])
    requires s.tasks[k].slot.status == SlotCompleted || s.tasks[k].slot.status == SlotFailed
    ensures Downloads(cfg, s, steps, k)
  {
    var t := s.tasks[k];
    var ctx := LateContext(cfg, s, k);
    InvSize(cfg, s, k);
    AppliedRowDelivers(cfg, t, ctx);
    hide CanStillDeliver, Reopens, OwnRow, LooksAtSeed, SeedFails, Inv, Exec, Enabled;
    CommittedRow(cfg, s, k, ctx);
    var s' := Exec(cfg, s, Apply(k, ctx));
    if s'.tasks[k].status == ResultDownloaded {
      assert Run(cfg, s', []) == s';
      steps := Prefixed(cfg, s, Apply(k, ctx), [], k);
    } else {
      var more := FreedDownloads(cfg, s', k);
      steps := Prefixed(cfg, s, Apply(k, ctx), more, k);
    }
  }

  /** What a worker that holds an ended row's query or download may still be answered. */
  function HappyEnding(op: Operation): Ending {
    if op == OpSync then SUCCESS else Answered(DownloadReply)
  }

  lemma WorkerAnswers(cfg: Config, s: State, k: nat) returns (w: nat, endings: map<nat, Ending>)
    requires cfg.Valid() && Inv(cfg, s) && k in s.tasks && s.tasks[k].slot.status == SlotRunning
    requires s.tasks[k].slot.op == OpSync || s.tasks[k].slot.op == OpResult
    ensures var s' := Exec(cfg, s, Finish(w, endings));
            var op := s.tasks[k].slot.op;
            && Inv(cfg, s') && k in s'.tasks
            && s'.tasks[k] == s.tasks[k].(slot := Slot(op, SlotCompleted, HappyEnding(op).reply))
  {
    var op := s.tasks[k].slot.op;
    assert HeldRow(s, k);
    w :| w in s.workers && k in s.workers[w].rows;
    assert HasRow(s, w, k);
    endings := map j | j in s.workers[w].rows :: if j == k then HappyEnding(op) else Lost;
    StepKeepsInv(cfg, s, Finish(w, endings));
    hide Inv;
    assert forall j | j in endings :: ReplyFits(op, endings[j]);
    assert Enabled(cfg, s, Finish(w, endings));
  }

  lemma WorkerDownloads(cfg: Config, s: State, k: nat) returns (steps: seq<Step>)
    requires cfg.Valid() && Inv(cfg, s) && k in s.tasks && EngineType(s.tasks[k].spec.taskType) && Ended(s.tasks[k])
    requires s.tasks[k].slot.status == SlotRunning && (s.tasks[k].slot.op == OpSync || s.tasks[k].slot.op == OpResult)
    ensures Downloads(cfg, s, steps, k)
  {
    var w, endings := WorkerAnswers(cfg, s, k);
    var s' := Exec(cfg, s, Finish(w, endings));
    hide Inv, Exec;
    assert CanStillDeliver(cfg, s'.tasks[k]);
    var more := AnswerDownloads(cfg, s', k);
    steps := Prefixed(cfg, s, Finish(w, endings), more, k);
  }

  lemma EndedDownloads(cfg: Config, s: State, k: nat) returns (steps: seq<Step>)
    requires cfg.Valid() && Inv(cfg, s) && k in s.tasks && EngineType(s.tasks[k].spec.taskType)
    requires Ended(s.tasks[k]) && CanStillDeliver(cfg, s.tasks[k])
    ensures Downloads(cfg, s, steps, k)
  {
    var t := s.tasks[k];
    if t.slot.status == SlotCompleted || t.slot.status == SlotFailed {
      steps := AnswerDownloads(cfg, s, k);
    } else if t.cancelRequired {
      steps := FreedDownloads(cfg, s, k);
    } else {
      steps := WorkerDownloads(cfg, s, k);
    }
  }

  /** In every reachable state, whatever the engine is doing: a row that has ended without a result can
      still get one exactly when its flag and its slot say so. */
  lemma EndedRowRevivesIff(cfg: Config, steps: seq<Step>, k: nat)
    requires cfg.Valid() && k in Run(cfg, INITIAL, steps).tasks
    requires var t := Run(cfg, INITIAL, steps).tasks[k]; EngineType(t.spec.taskType) && Ended(t)
    ensures var s := Run(cfg, INITIAL, steps); CanDownload(cfg, s, k) <==> CanStillDeliver(cfg, s.tasks[k])
  {
    var s := Run(cfg, INITIAL, steps);
    EveryRunKeepsFlags(cfg, steps);
    hide Run, Inv, FlagsOk;
    if CanStillDeliver(cfg, s.tasks[k]) {
      var more := EndedDownloads(cfg, s, k);
    } else {
      forall more: seq<Step>
        ensures !Downloads(cfg, s, more, k)
      {
        DoomedForever(cfg, s, more, k);
      }
    }
  }
}
