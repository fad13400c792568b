/** How long an execution poll waits, over runs: after Relay has estimated when a task completes, nothing
    in the engine asks about the row too early. */
module ExecutionPoll {
  import opened Wrappers
  import opened Models
  import opened Config
  import opened Progression
  import opened Dispatch
  import opened StateMachine
  import opened ApplyEffect
  import opened Frames
  import opened SlotInvariant
  import opened Invariant
  import opened Lifecycle
  import opened RowRevival

  /** The shortest wait before an execution poll. */
  function ExecutionDelay(cfg: Config): int {
    if cfg.scanInterval < cfg.executionOverrunPollInterval then cfg.scanInterval else cfg.executionOverrunPollInterval
  }

  /** The stored answer says that the task is being executed, and until when. */
  predicate ReadsEstimate(t: InferenceTask) {
    && t.slot.status == SlotCompleted && t.slot.op == OpSync && t.slot.reply.StatusReply?
    && var item := t.slot.reply.item;
       && item.found && (item.status == ChainStarted || item.status == ChainParametersUploaded)
       && item.estimatedCompletionAt.Some? && !KeepsLocalAbort(t, item)
  }

  /** The step may set the row's time: an operation of its group is applied, or a crash interrupts a
      validation of its group. */
  ghost predicate Disturbs(s: State, step: Step, k: nat) {
    && k in s.tasks
    && (|| (step.Apply? && step.task in s.tasks && s.tasks[step.task].spec.taskId == s.tasks[k].spec.taskId)
        || (step.Recover? && ValidatingGroup(s.tasks, s.tasks[k].spec.taskId)))
  }

  ghost predicate LeavesAlone(cfg: Config, s: State, steps: seq<Step>, k: nat) {
    forall i {:trigger steps[i]} | 0 <= i < |steps| :: !Disturbs(Run(cfg, s, steps[..i]), steps[i], k)
  }

  /** The row is not due before this time, and idle until then. */
  predicate WaitsUntil(s: State, k: nat, time: int) {
    k in s.tasks && s.tasks[k].nextActionAt >= time && (s.tasks[k].slot.status == SlotNone || s.clock >= time)
  }

  lemma EstimateSchedules(cfg: Config, s: State, k: nat, ctx: Context)
    requires cfg.Valid() && Inv(cfg, s) && Enabled(cfg, s, Apply(k, ctx)) && ReadsEstimate(s.tasks[k]) && !RollsBack(cfg, s.tasks, k, ctx)
    ensures WaitsUntil(Exec(cfg, s, Apply(k, ctx)), k, ctx.now + ExecutionDelay(cfg))
  {
    CommittedRow(cfg, s, k, ctx);
    var item := s.tasks[k].slot.reply.item;
    StatusAnswerSchedule(ctx.now, RelayStatusToLocal(item.status), item.estimatedCompletionAt, cfg);
    hide Inv, Exec, RollsBack, StatusSyncNextActionAt;
  }

  lemma StepWaits(cfg: Config, s: State, step: Step, k: nat, time: int)
    requires WaitsUntil(s, k, time) && !Disturbs(s, step, k)
    ensures WaitsUntil(Exec(cfg, s, step), k, time)
    ensures Enabled(cfg, s, step) && step.StartWorker? && k in step.rows ==> step.now >= time
  {
    if !Enabled(cfg, s, step) {
    } else if step.Apply? {
      var applied, inserted := ApplyStepEffect(cfg, s, step.task, step.ctx);
      hide ApplyStep;
      if applied { assert OtherRow(s.tasks, Exec(cfg, s, step).tasks, step.task, k, step.ctx.now); }
    } else if step.Expand? {
      ExpansionInserts(s.tasks, s.clients[step.clientTaskId], step.clientTaskId, step.repeats, step.now);
    } else {
      hide ValidatingGroup, Recalculated, AllStopped, ReplyFits, NewlyEnded, Decide;
      if step.StartWorker? && k in step.rows { DueQueriesCover(s.tasks[k], step.now); }
    }
  }

  lemma AloneSplit(cfg: Config, s: State, steps: seq<Step>, k: nat)
    requires steps != [] && LeavesAlone(cfg, s, steps, k)
    ensures var last := |steps| - 1;
            LeavesAlone(cfg, s, steps[..last], k) && !Disturbs(Run(cfg, s, steps[..last]), steps[last], k)
  {
    var init := steps[..|steps| - 1];
    hide Run, Disturbs;
    forall i | 0 <= i < |init|
      ensures !Disturbs(Run(cfg, s, init[..i]), init[i], k)
    {
      assert init[..i] == steps[..i] && init[i] == steps[i];
    }
    assert !Disturbs(Run(cfg, s, steps[..|init|]), steps[|init|], k);
  }

  ghost predicate DispatchedAt(cfg: Config, s: State, steps: seq<Step>, i: nat, k: nat)
    requires i < |steps|
  {
    steps[i].StartWorker? && k in steps[i].rows && Enabled(cfg, Run(cfg, s, steps[..i]), steps[i])
  }

  lemma DispatchedInPrefix(cfg: Config, s: State, steps: seq<Step>, i: nat, k: nat)
    requires i + 1 < |steps|
    ensures DispatchedAt(cfg, s, steps, i, k) == DispatchedAt(cfg, s, steps[..|steps| - 1], i, k)
  {
    hide Run, Enabled;
    assert steps[..|steps| - 1][..i] == steps[..i];
  }

  lemma {:induction false} RunWaits(cfg: Config, s: State, steps: seq<Step>, k: nat, time: int)
    requires WaitsUntil(s, k, time) && LeavesAlone(cfg, s, steps, k)
    ensures WaitsUntil(Run(cfg, s, steps), k, time)
    ensures forall i: nat | i < |steps| && DispatchedAt(cfg, s, steps, i, k) :: steps[i].now >= time
  {
    if steps != [] {
      var last := |steps| - 1;
      AloneSplit(cfg, s, steps, k);
      RunWaits(cfg, s, steps[..last], k, time);
      hide Exec, Disturbs, WaitsUntil, LeavesAlone, Enabled;
      StepWaits(cfg, Run(cfg, s, steps[..last]), steps[last], k, time);
      hide Run;
      forall i: nat | i < |steps| && DispatchedAt(cfg, s, steps, i, k)
        ensures steps[i].now >= time
      {
        if i < last { DispatchedInPrefix(cfg, s, steps, i, k); }
      }
    }
  }

  /** Once an estimate has been read, every run that leaves the row's time alone, with any crash, abort
      and work on other rows, dispatches the row no earlier than the shorter of the scan and the overrun
      interval after the answer. */
  lemma ExecutionPollWaits(cfg: Config, s: State, k: nat, ctx: Context, steps: seq<Step>)
    requires cfg.Valid() && Inv(cfg, s) && Enabled(cfg, s, Apply(k, ctx)) && ReadsEstimate(s.tasks[k]) && !RollsBack(cfg, s.tasks, k, ctx)
    requires LeavesAlone(cfg, Exec(cfg, s, Apply(k, ctx)), steps, k)
    ensures var s1 := Exec(cfg, s, Apply(k, ctx));
            && WaitsUntil(Run(cfg, s1, steps), k, ctx.now + ExecutionDelay(cfg))
            && forall i: nat | i < |steps| && DispatchedAt(cfg, s1, steps, i, k) :: steps[i].now >= ctx.now + ExecutionDelay(cfg)
  {
    EstimateSchedules(cfg, s, k, ctx);
    hide *;
    RunWaits(cfg, Exec(cfg, s, Apply(k, ctx)), steps, k, ctx.now + ExecutionDelay(cfg));
  }
}
