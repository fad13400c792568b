/** The members of a group of three are cancelled together: when one is left aborted the others are
    flagged, and a flag stays until it has been acted on. */
module SiblingCancellation {
  import opened Wrappers
  import opened Models
  import opened Config
  import opened Progression
  import opened Dispatch
  import opened StateMachine
  import opened ApplyEffect
  import opened Frames
  import opened GroupInvariant
  import opened SlotInvariant
  import opened Invariant
  import opened AnswerEffects

  // ---- The flags are set ----

  /** The flag of another row of the group after an applied answer. */
  predicate FlagFollows(a: Tasks, k: nat, j: nat, after: Tasks, now: int)
    requires k in after && j in after
  {
    if Caught(after, k, j) then after[j].cancelRequired && after[j].nextActionAt == now
    else after[j].cancelRequired == (j in a && a[j].cancelRequired)
  }

  lemma MutationFlags(cfg: Config, s: State, k: nat, ctx: Context)
    requires Inv(cfg, s) && Enabled(cfg, s, Apply(k, ctx)) && s.tasks[k].slot.status == SlotCompleted && s.tasks[k].slot.op != OpSync
    ensures var after := Exec(cfg, s, Apply(k, ctx)).tasks;
            after.Keys == s.tasks.Keys && forall j | j in after && j != k :: FlagFollows(s.tasks, k, j, after, ctx.now)
  {
    var slot := s.tasks[k].slot;
    assert SlotOk(s.tasks[k]);
    if slot.op == OpValidate {
      hide Inv, Exec, Enabled, Caught, FlagFollows, ReplyFits;
      ValidationFlags(cfg, s, k, ctx, slot.reply.outcome);
    } else {
      hide Inv, Exec, Enabled;
      if slot.op == OpCreate {
        CreationApplied(cfg, s, k, ctx, slot.reply.outcome);
      } else if slot.op == OpCancel {
        CancellationApplied(cfg, s, k, ctx);
      } else {
        DownloadApplied(cfg, s, k, ctx);
        assert forall j | j in s.tasks && j != k :: !Caught(Exec(cfg, s, Apply(k, ctx)).tasks, k, j);
      }
      hide Caught;
    }
  }

  lemma ValidationFlags(cfg: Config, s: State, k: nat, ctx: Context, outcome: Outcome)
    requires Inv(cfg, s) && Enabled(cfg, s, Apply(k, ctx)) && s.tasks[k].slot == Slot(OpValidate, SlotCompleted, OutcomeReply(outcome))
    ensures var after := Exec(cfg, s, Apply(k, ctx)).tasks;
            after.Keys == s.tasks.Keys && forall j | j in after && j != k :: FlagFollows(s.tasks, k, j, after, ctx.now)
  {
    assert k in s.tasks;
    hide *;
    ValidationApplied(cfg, s, k, ctx, outcome);
    var after := Exec(cfg, s, Apply(k, ctx)).tasks;
    forall j | j in after && j != k
      ensures FlagFollows(s.tasks, k, j, after, ctx.now)
    {
      if j in Companions(s.tasks, k) {
        CompanionFlag(cfg, s.tasks, k, j, outcome, after, ctx.now);
      } else {
        StrangerFlag(cfg, s.tasks, k, j, outcome, after, ctx.now);
      }
    }
  }

  lemma CompanionFlag(cfg: Config, a: Tasks, k: nat, j: nat, outcome: Outcome, after: Tasks, now: int)
    requires k in after && j in after && j in a
    requires CaughtFrom(AfterValidation(cfg, a[j], false, outcome, now), after[j], Caught(after, k, j), now)
    ensures FlagFollows(a, k, j, after, now)
  {
    ValidationKeepsFlag(cfg, a[j], outcome, now);
    hide AfterValidation, Caught;
  }

  lemma StrangerFlag(cfg: Config, a: Tasks, k: nat, j: nat, outcome: Outcome, after: Tasks, now: int)
    requires k in a && j in a && k in after && j in after && j !in Companions(a, k) && after[j] == a[j]
    requires k in Companions(a, k) ==> CaughtFrom(AfterValidation(cfg, a[k], true, outcome, now), after[k], Caught(after, k, k), now)
    ensures FlagFollows(a, k, j, after, now)
  {
    SpecStays(cfg, a[k], true, outcome, now);
    hide AfterValidation, IsOver;
    assert after[k].spec == a[k].spec;
  }

  lemma ValidationKeepsFlag(cfg: Config, t: InferenceTask, outcome: Outcome, now: int)
    ensures var n := AfterValidation(cfg, t, false, outcome, now); n.cancelRequired == t.cancelRequired && n.spec == t.spec
  {
  }

  lemma StatusFlags(cfg: Config, s: State, k: nat, ctx: Context)
    requires Inv(cfg, s) && Enabled(cfg, s, Apply(k, ctx)) && HoldsStatus(s.tasks[k])
    requires Exec(cfg, s, Apply(k, ctx)).tasks != s.tasks
    ensures var after := Exec(cfg, s, Apply(k, ctx)).tasks;
            s.tasks.Keys <= after.Keys && forall j | j in after && j != k :: FlagFollows(s.tasks, k, j, after, ctx.now)
  {
    NewRowsAreNew(s.tasks, ctx);
    hide Inv, Exec, BringsSeed, SeedRefused, StatusFollows, FlagFollows, Companions;
    StatusApplied(cfg, s, k, ctx);
    hide Enabled;
    StatusFollowsFlags(cfg, s.tasks, k, s.tasks[k].slot.reply.item, ctx, Exec(cfg, s, Apply(k, ctx)).tasks);
  }

  lemma StatusFollowsFlags(cfg: Config, a: Tasks, k: nat, item: StatusItem, ctx: Context, after: Tasks)
    requires k in a && StatusFollows(cfg, a, k, item, ctx, after) && ctx.first.id !in a && ctx.second.id !in a
    ensures a.Keys <= after.Keys && forall j | j in after && j != k :: FlagFollows(a, k, j, after, ctx.now)
  {
    hide Caught, BringsTwo, AfterStatus, VrfAfterStatus;
  }

  /** An answer that is applied and leaves its row aborted in a group of three flags every other member
      that is not over, and makes it due; in every other case no flag of another row changes, and an
      inserted row has none. */
  lemma AbortCatchesSiblings(cfg: Config, s: State, k: nat, ctx: Context)
    requires Inv(cfg, s) && Enabled(cfg, s, Apply(k, ctx)) && s.tasks[k].slot.status == SlotCompleted
    ensures var after := Exec(cfg, s, Apply(k, ctx)).tasks;
            && s.tasks.Keys <= after.Keys
            && (after != s.tasks ==> after[k].slot == EMPTY_SLOT)
            && forall j | j in after && j != k ::
                 if after != s.tasks && after[k].status == EndAborted && |Companions(after, k)| == 3
                    && after[j].spec.taskId == after[k].spec.taskId && !IsOver(after[j].status)
                 then after[j].cancelRequired && after[j].nextActionAt == ctx.now
                 else after[j].cancelRequired == (j in s.tasks && s.tasks[j].cancelRequired)
  {
    assert SlotOk(s.tasks[k]);
    var after := Exec(cfg, s, Apply(k, ctx)).tasks;
    FreedSlot(cfg, s, k, ctx);
    if s.tasks[k].slot.op != OpSync {
      MutationFlags(cfg, s, k, ctx);
    } else if after != s.tasks {
      StatusFlags(cfg, s, k, ctx);
    }
    hide Inv, Exec, Enabled, IsOver;
  }

  lemma FreedSlot(cfg: Config, s: State, k: nat, ctx: Context)
    requires Enabled(cfg, s, Apply(k, ctx)) && s.tasks[k].slot.status == SlotCompleted
    ensures var after := Exec(cfg, s, Apply(k, ctx)).tasks; k in after && (after != s.tasks <==> after[k].slot == EMPTY_SLOT)
  {
    var applied, inserted := ApplyStepEffect(cfg, s, k, ctx);
    assert Exec(cfg, s, Apply(k, ctx)) == ApplyStep(cfg, s, k, ctx);
    hide ApplyStep, Exec, WrittenRow;
  }

  // ---- A flag stays ----

  /** The step acts on the row's flag: it applies an answer to its cancellation or its status query, or a
      creator abort takes the row. */
  predicate ActsOnFlag(s: State, step: Step, k: nat) {
    && k in s.tasks
    && (|| (step.Apply? && step.task == k && s.tasks[k].slot.status == SlotCompleted && s.tasks[k].slot.op in {OpCancel, OpSync})
        || (step.AbortCommit? && k in step.withoutCommitment + step.cancelled))
  }

  ghost predicate NeverActs(cfg: Config, s: State, steps: seq<Step>, k: nat) {
    forall i {:trigger steps[i]} | 0 <= i < |steps| :: !ActsOnFlag(Run(cfg, s, steps[..i]), steps[i], k)
  }

  lemma AppliedKeepsFlag(cfg: Config, s: State, id: nat, ctx: Context, k: nat)
    requires Enabled(cfg, s, Apply(id, ctx)) && k in s.tasks && s.tasks[k].cancelRequired && !ActsOnFlag(s, Apply(id, ctx), k)
    ensures var after := ApplyStep(cfg, s, id, ctx).tasks; k in after && after[k].cancelRequired
  {
    var applied, inserted := ApplyStepEffect(cfg, s, id, ctx);
    hide ApplyStep, OperationEffect;
    if applied {
      if k != id {
        hide OwnRow;
        assert OtherRow(s.tasks, ApplyStep(cfg, s, id, ctx).tasks, id, k, ctx.now);
      } else {
        OwnFlagStays(cfg, s.tasks[k], ctx);
        hide OwnRow;
      }
    }
  }

  lemma OwnFlagStays(cfg: Config, t: InferenceTask, ctx: Context)
    requires t.cancelRequired && !(t.slot.status == SlotCompleted && t.slot.op in {OpCancel, OpSync})
    requires t.slot.status == SlotCompleted || t.slot.status == SlotFailed
    ensures OwnRow(cfg, t, ctx).cancelRequired
  {
    hide SyncedRow;
  }

  lemma StepKeepsFlag(cfg: Config, s: State, step: Step, k: nat)
    requires k in s.tasks && s.tasks[k].cancelRequired && !ActsOnFlag(s, step, k)
    ensures var after := Exec(cfg, s, step).tasks; k in after && after[k].cancelRequired
  {
    if !Enabled(cfg, s, step) {
    } else if step.Apply? {
      AppliedKeepsFlag(cfg, s, step.task, step.ctx, k);
    } else if step.Expand? {
      ExpansionInserts(s.tasks, s.clients[step.clientTaskId], step.clientTaskId, step.repeats, step.now);
    } else {
      hide ValidatingGroup, Recalculated, AllStopped, ReplyFits, NewlyEnded, Selected, Decide;
    }
  }

  /** A flagged row stays flagged over every run that does not act on the flag: through dispatches, losses,
      crashes, other answers and other aborts. So it is never forgotten: until then it is owed. */
  lemma {:induction false} FlagStays(cfg: Config, s: State, steps: seq<Step>, k: nat)
    requires k in s.tasks && s.tasks[k].cancelRequired && NeverActs(cfg, s, steps, k)
    ensures var after := Run(cfg, s, steps).tasks; k in after && after[k].cancelRequired
  {
    if steps != [] {
      var last := |steps| - 1;
      var init := steps[..last];
      hide ActsOnFlag, Exec;
      forall i | 0 <= i < |init|
        ensures !ActsOnFlag(Run(cfg, s, init[..i]), init[i], k)
      {
        assert init[..i] == steps[..i] && init[i] == steps[i];
      }
      FlagStays(cfg, s, init, k);
      assert !ActsOnFlag(Run(cfg, s, steps[..last]), steps[last], k);
      StepKeepsFlag(cfg, Run(cfg, s, init), steps[last], k);
    }
  }
}
