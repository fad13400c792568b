/** Which rows can carry the flag of an owed cancellation, in every run: a terminal row that carries it
    is a local abort, and a row whose result is being downloaded does not carry it. */
module CancellationFlags {
  import opened Wrappers
  import opened Models
  import opened Config
  import opened Progression
  import opened Dispatch
  import opened StateMachine
  import opened ApplyEffect
  import opened Frames
  import opened GroupInvariant
  import opened SlotInvariant
  import opened Invariant
  import opened Lifecycle

  predicate FlagOk(t: InferenceTask) {
    && (t.cancelRequired && Terminal(t.status) ==> t.status == EndAborted)
    && (t.slot.op == OpResult ==> Terminal(t.status) && !t.cancelRequired)
  }

  ghost predicate FlagsOk(s: State) {
    forall k {:trigger FlagOk(s.tasks[k])} | k in s.tasks :: FlagOk(s.tasks[k])
  }

  lemma OwnRowFlag(cfg: Config, t: InferenceTask, ctx: Context)
    requires FlagOk(t) && SlotOk(t) && (t.slot.status == SlotCompleted || t.slot.status == SlotFailed)
    ensures FlagOk(OwnRow(cfg, t, ctx))
  {
    if t.slot.status == SlotCompleted && t.slot.op == OpSync {
      hide StatusSyncNextActionAt, HeartbeatQueuedTimedOut, CreateEffect, CancelEffect, ResultEffect, ValidatedRow;
    } else {
      MutatedRow(cfg, t, ctx);
      hide OwnRow;
    }
  }

  lemma AppliedFlags(cfg: Config, s: State, s': State, id: nat, ctx: Context, inserted: bool, k: nat)
    requires Inv(cfg, s) && FlagsOk(s) && Applicable(s.tasks, id, ctx)
    requires Applied(cfg, s.tasks, s'.tasks, id, ctx, inserted) && k in s'.tasks
    ensures FlagOk(s'.tasks[k])
  {
    hide WrittenRow, GroupsOk, WorkersOk, PoolsOk;
    if k == id {
      assert SlotOk(s.tasks[id]) && FlagOk(s.tasks[id]);
      OwnRowFlag(cfg, s.tasks[id], ctx);
    } else if k in s.tasks {
      assert OtherRow(s.tasks, s'.tasks, id, k, ctx.now);
      assert FlagOk(s.tasks[k]);
    }
  }

  lemma StepKeepsFlag(cfg: Config, s: State, step: Step, k: nat)
    requires Inv(cfg, s) && FlagsOk(s) && k in Exec(cfg, s, step).tasks
    ensures FlagOk(Exec(cfg, s, step).tasks[k])
  {
    var s' := Exec(cfg, s, step);
    assert k in s.tasks ==> FlagOk(s.tasks[k]);
    if !Enabled(cfg, s, step) {
    } else if step.Apply? {
      var applied, inserted := ApplyStepEffect(cfg, s, step.task, step.ctx);
      hide ApplyStep, Inv;
      if applied { AppliedFlags(cfg, s, s', step.task, step.ctx, inserted, k); }
    } else if step.Expand? {
      hide Inv;
      ExpansionInserts(s.tasks, s.clients[step.clientTaskId], step.clientTaskId, step.repeats, step.now);
      if k !in s.tasks {
        NewRow(s.tasks, s'.tasks, s.clients[step.clientTaskId], step.clientTaskId, step.repeats, step.now, k);
      }
    } else {
      hide Inv;
      RewriteKeepsFlag(cfg, s, step, k);
    }
  }

  lemma RewriteKeepsFlag(cfg: Config, s: State, step: Step, k: nat)
    requires FlagsOk(s) && Enabled(cfg, s, step) && !step.Apply? && !step.Expand? && k in s.tasks
    ensures k in Exec(cfg, s, step).tasks && FlagOk(Exec(cfg, s, step).tasks[k])
  {
    hide ValidatingGroup, Recalculated, AllStopped;
    assert FlagOk(s.tasks[k]);
  }

  lemma StepKeepsFlags(cfg: Config, s: State, step: Step)
    requires Inv(cfg, s) && FlagsOk(s)
    ensures FlagsOk(Exec(cfg, s, step))
  {
    var s' := Exec(cfg, s, step);
    hide Inv, Exec;
    forall k | k in s'.tasks
      ensures FlagOk(s'.tasks[k])
    {
      StepKeepsFlag(cfg, s, step, k);
    }
  }

  lemma {:induction false} RunKeepsFlags(cfg: Config, s: State, steps: seq<Step>)
    requires cfg.Valid() && Inv(cfg, s) && FlagsOk(s)
    ensures Inv(cfg, Run(cfg, s, steps)) && FlagsOk(Run(cfg, s, steps))
  {
    if steps != [] {
      var last := |steps| - 1;
      var mid := Run(cfg, s, steps[..last]);
      RunKeepsFlags(cfg, s, steps[..last]);
      hide Inv, FlagsOk, Exec;
      StepKeepsInv(cfg, mid, steps[last]);
      StepKeepsFlags(cfg, mid, steps[last]);
    }
  }

  /** In every reachable state a flagged terminal row is a local abort. */
  lemma EveryRunKeepsFlags(cfg: Config, steps: seq<Step>)
    requires cfg.Valid()
    ensures Inv(cfg, Run(cfg, INITIAL, steps)) && FlagsOk(Run(cfg, INITIAL, steps))
  {
    EveryRunKeepsInv(cfg, []);
    assert FlagsOk(INITIAL);
    hide Inv, FlagsOk;
    RunKeepsFlags(cfg, INITIAL, steps);
  }
}
