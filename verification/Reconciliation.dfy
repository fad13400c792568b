/** A creation or a cancellation whose outcome is not known. `docs/task_lifecycle.md` asks for Relay to
    be queried before it is sent again; that holds exactly until a status query of the row is lost. */
module Reconciliation {
  import opened Wrappers
  import opened Models
  import opened Config
  import opened Progression
  import opened Dispatch
  import opened StateMachine
  import opened ApplyEffect
  import opened Frames
  import opened GroupInvariant
  import opened SlotInvariant
  import opened Invariant
  import opened Lifecycle
  import opened RowRevival
  import opened ValidationSafety

  /** A row whose last outcome is unknown is idle, being queried, or has just failed. */
  predicate UnknownWaits(t: InferenceTask) {
    t.unknown ==> t.slot.op == OpNone || t.slot.op == OpSync || t.slot.status == SlotFailed
  }

  /** The operation of the row ends without an answer and may have taken effect; or the process dies. */
  predicate LosesOutcome(cfg: Config, s: State, step: Step, k: nat) {
    && Enabled(cfg, s, step) && k in s.tasks && s.tasks[k].slot.status == SlotRunning
    && (step.Recover? || (step.Finish? && k in step.endings && step.endings[k] == Lost && LossIsUnknown(s.tasks[k].slot.op)))
  }

  /** A status query of the row ends without an answer. */
  predicate LosesQuery(cfg: Config, s: State, step: Step, k: nat) {
    && Enabled(cfg, s, step) && k in s.tasks && RunningFor(s.tasks[k], OpSync)
    && step.Finish? && k in step.endings && step.endings[k] == Lost
  }

  /** No answer to a status query of the row is applied. */
  ghost predicate Silent(cfg: Config, s: State, steps: seq<Step>, k: nat) {
    forall i {:trigger steps[i]} | 0 <= i < |steps| :: !ReadsOwnStatus(Run(cfg, s, steps[..i]), steps[i], k)
  }

  ghost predicate QueryLostAt(cfg: Config, s: State, steps: seq<Step>, i: nat, k: nat)
    requires i < |steps|
  {
    LosesQuery(cfg, Run(cfg, s, steps[..i]), steps[i], k)
  }

  ghost predicate OutcomeLostAt(cfg: Config, s: State, steps: seq<Step>, i: nat, k: nat)
    requires i < |steps|
  {
    LosesOutcome(cfg, Run(cfg, s, steps[..i]), steps[i], k)
  }

  /** A status query of the row was lost, and no outcome after it. */
  ghost predicate QueryLostLast(cfg: Config, s: State, steps: seq<Step>, k: nat) {
    exists i: nat | i < |steps| ::
      QueryLostAt(cfg, s, steps, i, k) && forall j: nat | i < j < |steps| :: !OutcomeLostAt(cfg, s, steps, j, k)
  }

  // ---- One step ----

  /** How a step that reads no own status answer changes the row's mark. */
  ghost predicate MarkChange(cfg: Config, s: State, step: Step, k: nat, n: InferenceTask)
    requires k in s.tasks
  {
    && UnknownWaits(n)
    && n.unknown == (LosesOutcome(cfg, s, step, k) || (s.tasks[k].unknown && !LosesQuery(cfg, s, step, k)))
  }

  lemma OwnRowMark(cfg: Config, t: InferenceTask, ctx: Context)
    requires UnknownWaits(t) && (t.slot.status == SlotFailed || (t.slot.status == SlotCompleted && t.slot.op != OpSync))
    ensures OwnRow(cfg, t, ctx).unknown == t.unknown
  {
    hide SyncedRow;
  }

  lemma ApplyMarks(cfg: Config, s: State, id: nat, ctx: Context, k: nat)
    requires Enabled(cfg, s, Apply(id, ctx)) && k in s.tasks && UnknownWaits(s.tasks[k]) && !ReadsOwnStatus(s, Apply(id, ctx), k)
    ensures var s' := ApplyStep(cfg, s, id, ctx);
            k in s'.tasks && UnknownWaits(s'.tasks[k]) && s'.tasks[k].unknown == s.tasks[k].unknown
  {
    var s' := ApplyStep(cfg, s, id, ctx);
    var applied, inserted := ApplyStepEffect(cfg, s, id, ctx);
    hide ApplyStep, SyncedRow, OperationEffect;
    if applied {
      AppliedIdentity(cfg, s.tasks, s'.tasks, id, ctx, inserted, k);
      if k == id {
        OwnRowMark(cfg, s.tasks[k], ctx);
        hide OwnRow;
      } else {
        hide OwnRow;
        assert OtherRow(s.tasks, s'.tasks, id, k, ctx.now);
      }
    }
  }

  lemma FinishMarks(cfg: Config, s: State, w: nat, endings: map<nat, Ending>, k: nat)
    requires Inv(cfg, s) && Enabled(cfg, s, Finish(w, endings)) && k in s.tasks && UnknownWaits(s.tasks[k])
    ensures k in Exec(cfg, s, Finish(w, endings)).tasks
    ensures MarkChange(cfg, s, Finish(w, endings), k, Exec(cfg, s, Finish(w, endings)).tasks[k])
  {
    assert SlotOk(s.tasks[k]);
    if k in endings { assert HasRow(s, w, k); }
    hide Inv, NewlyEnded, ReplyFits;
  }

  lemma StartMarks(cfg: Config, s: State, step: Step, k: nat)
    requires Enabled(cfg, s, step) && step.StartWorker? && k in s.tasks && UnknownWaits(s.tasks[k])
    ensures var s' := Exec(cfg, s, step);
            k in s'.tasks && UnknownWaits(s'.tasks[k]) && s'.tasks[k].unknown == s.tasks[k].unknown
  {
    hide Selected, PoolWorkers, ValidationGroupReady, IsOwner, Group;
  }

  lemma RewriteMarks(cfg: Config, s: State, step: Step, k: nat)
    requires Enabled(cfg, s, step) && (step.Recover? || step.AbortCommit?) && k in s.tasks && UnknownWaits(s.tasks[k])
    ensures k in Exec(cfg, s, step).tasks && MarkChange(cfg, s, step, k, Exec(cfg, s, step).tasks[k])
  {
    hide ValidatingGroup, Recalculated, AllStopped, Members, AnyDownloaded;
  }

  lemma StepMarks(cfg: Config, s: State, step: Step, k: nat)
    requires Inv(cfg, s) && k in s.tasks && UnknownWaits(s.tasks[k]) && !ReadsOwnStatus(s, step, k)
    ensures k in Exec(cfg, s, step).tasks && MarkChange(cfg, s, step, k, Exec(cfg, s, step).tasks[k])
  {
    hide Inv, UnknownWaits;
    if !Enabled(cfg, s, step) {
    } else if step.Apply? {
      ApplyMarks(cfg, s, step.task, step.ctx, k);
    } else if step.Expand? {
      ExpansionInserts(s.tasks, s.clients[step.clientTaskId], step.clientTaskId, step.repeats, step.now);
    } else if step.Finish? {
      FinishMarks(cfg, s, step.worker, step.endings, k);
    } else if step.StartWorker? {
      StartMarks(cfg, s, step, k);
    } else if step.Recover? || step.AbortCommit? {
      RewriteMarks(cfg, s, step, k);
    }
  }

  // ---- Runs ----

  lemma PrefixOfSilent(cfg: Config, s: State, steps: seq<Step>, k: nat)
    requires steps != [] && Silent(cfg, s, steps, k)
    ensures Silent(cfg, s, steps[..|steps| - 1], k)
    ensures !ReadsOwnStatus(Run(cfg, s, steps[..|steps| - 1]), steps[|steps| - 1], k)
  {
    var init := steps[..|steps| - 1];
    forall i | 0 <= i < |init|
      ensures !ReadsOwnStatus(Run(cfg, s, init[..i]), init[i], k)
    {
      assert init[..i] == steps[..i] && init[i] == steps[i];
    }
    assert !ReadsOwnStatus(Run(cfg, s, init), steps[|init|], k);
  }

  lemma LostInPrefix(cfg: Config, s: State, steps: seq<Step>, i: nat, k: nat)
    requires i + 1 < |steps|
    ensures var init := steps[..|steps| - 1];
            && QueryLostAt(cfg, s, steps, i, k) == QueryLostAt(cfg, s, init, i, k)
            && OutcomeLostAt(cfg, s, steps, i, k) == OutcomeLostAt(cfg, s, init, i, k)
  {
    hide LosesQuery, LosesOutcome, Run;
    var init := steps[..|steps| - 1];
    assert init[..i] == steps[..i] && init[i] == steps[i];
  }

  lemma QueryLostNext(cfg: Config, s: State, steps: seq<Step>, k: nat)
    requires steps != []
    ensures var last := |steps| - 1;
            QueryLostLast(cfg, s, steps, k) <==>
              QueryLostAt(cfg, s, steps, last, k)
              || (QueryLostLast(cfg, s, steps[..last], k) && !OutcomeLostAt(cfg, s, steps, last, k))
  {
    var last := |steps| - 1;
    hide QueryLostAt, OutcomeLostAt;
    forall i: nat | i < last
      ensures QueryLostAt(cfg, s, steps, i, k) == QueryLostAt(cfg, s, steps[..last], i, k)
      ensures OutcomeLostAt(cfg, s, steps, i, k) == OutcomeLostAt(cfg, s, steps[..last], i, k)
    {
      LostInPrefix(cfg, s, steps, i, k);
    }
  }

  /** Over every run that reads no status answer of the row, its unknown mark is gone exactly when the
      last thing it lost was a status query. */
  lemma {:induction false} MarkIsLostIff(cfg: Config, s: State, steps: seq<Step>, k: nat)
    requires cfg.Valid() && Inv(cfg, s) && k in s.tasks && s.tasks[k].unknown && UnknownWaits(s.tasks[k])
    requires Silent(cfg, s, steps, k)
    ensures var s' := Run(cfg, s, steps);
            k in s'.tasks && UnknownWaits(s'.tasks[k]) && (!s'.tasks[k].unknown <==> QueryLostLast(cfg, s, steps, k))
  {
    if steps != [] {
      var last := |steps| - 1;
      var mid := Run(cfg, s, steps[..last]);
      PrefixOfSilent(cfg, s, steps, k);
      MarkIsLostIff(cfg, s, steps[..last], k);
      RunKeepsInv(cfg, s, steps[..last]);
      hide Inv, Exec, LosesQuery, LosesOutcome, UnknownWaits, ReadsOwnStatus, QueryLostLast, Silent;
      StepMarks(cfg, mid, steps[last], k);
      QueryLostNext(cfg, s, steps, k);
    }
  }

  predicate Repeatable(op: Operation) {
    op == OpCreate || op == OpCancel
  }

  /** Relay has been heard of the row, and a creation or a cancellation is due. */
  predicate Owes(t: InferenceTask) {
    t.relayChecked && (t.cancelRequired || (t.status == Pending && !t.relayFound))
  }

  /** The outcome of the row's operation is lost, and from then on no answer to one of its own status
      queries is applied. Whatever else happens, crashes and aborts included, the row is next sent to
      creation or cancellation exactly when one is due and the last thing it lost since was a status
      query; and until one is lost it is dispatched for status queries only. */
  lemma RepeatedUnreconciledIff(cfg: Config, s: State, loss: Step, steps: seq<Step>, k: nat)
    requires cfg.Valid() && Inv(cfg, s) && LosesOutcome(cfg, s, loss, k)
    requires Silent(cfg, Exec(cfg, s, loss), steps, k)
    ensures var s1 := Exec(cfg, s, loss);
            var s' := Run(cfg, s1, steps);
            && k in s'.tasks
            && (Repeatable(Decide(s'.tasks, k)) <==> Owes(s'.tasks[k]) && QueryLostLast(cfg, s1, steps, k))
            && (!QueryLostLast(cfg, s1, steps, k) ==>
                  forall step: Step | Enabled(cfg, s', step) && step.StartWorker? && k in step.rows :: step.op == OpSync)
  {
    var s1 := Exec(cfg, s, loss);
    StepKeepsInv(cfg, s, loss);
    LossMarks(cfg, s, loss, k);
    hide Inv, Exec, LosesOutcome, Silent, QueryLostLast, UnknownWaits;
    MarkIsLostIff(cfg, s1, steps, k);
    var s' := Run(cfg, s1, steps);
    hide Run, Decide, Selected, PoolWorkers;
    NextOperation(s'.tasks, k);
    forall step: Step | Enabled(cfg, s', step) && step.StartWorker? && k in step.rows
      ensures step.op == Decide(s'.tasks, k)
    {
    }
  }

  /** What the mark means for the next operation. */
  lemma NextOperation(tasks: Tasks, k: nat)
    requires k in tasks
    ensures Repeatable(Decide(tasks, k)) <==> Owes(tasks[k]) && !tasks[k].unknown
    ensures tasks[k].unknown ==> Decide(tasks, k) == OpSync
  {
    hide ValidationGroupReady, IsOwner, Group;
  }

  lemma LossMarks(cfg: Config, s: State, loss: Step, k: nat)
    requires Inv(cfg, s) && LosesOutcome(cfg, s, loss, k)
    ensures var s1 := Exec(cfg, s, loss); k in s1.tasks && s1.tasks[k].unknown && UnknownWaits(s1.tasks[k])
  {
    if loss.Finish? { assert HasRow(s, loss.worker, k); }
    hide Inv, ValidatingGroup, Recalculated, NewlyEnded, ReplyFits;
  }

  // ---- It happens ----

  lemma SilentThree(cfg: Config, s: State, steps: seq<Step>, k: nat)
    requires |steps| == 3 && !steps[0].Apply? && !steps[1].Apply?
    requires var answered := Run(cfg, s, steps[..2]); k in answered.tasks && answered.tasks[k].slot.status == SlotFailed
    ensures Silent(cfg, s, steps, k)
  {
    hide Run;
    forall i | 0 <= i < |steps|
      ensures !ReadsOwnStatus(Run(cfg, s, steps[..i]), steps[i], k)
    {
    }
  }

  lemma SilentAfterSilent(cfg: Config, s: State, first: seq<Step>, second: seq<Step>, k: nat)
    requires Silent(cfg, s, first, k) && Silent(cfg, Run(cfg, s, first), second, k)
    ensures Silent(cfg, s, first + second, k)
  {
    var all := first + second;
    hide ReadsOwnStatus;
    forall i | 0 <= i < |all|
      ensures !ReadsOwnStatus(Run(cfg, s, all[..i]), all[i], k)
    {
      if i < |first| {
        assert all[..i] == first[..i] && all[i] == first[i];
      } else {
        var j := i - |first|;
        assert all[..i] == first + second[..j] && all[i] == second[j];
        RunIsSequential(cfg, s, first, second[..j]);
      }
    }
  }

  lemma LostRound(cfg: Config, s: State, k: nat) returns (steps: seq<Step>, ctx: Context)
    requires cfg.Valid() && Inv(cfg, s) && s.workers == map[] && k in s.tasks && Open(s.tasks[k])
    ensures var s' := Run(cfg, s, steps);
            var op := Decide(s.tasks, k);
            && |steps| == 3 && steps[0] == StartWorker(0, op, {k}, Later(s, s.tasks[k])) && steps[1] == Finish(0, map[k := Lost])
            && Enabled(cfg, s, steps[0]) && Silent(cfg, s, steps, k)
            && Inv(cfg, s') && s'.workers == map[] && k in s'.tasks
            && s'.tasks[k] == OwnRow(cfg, EndedSlot(s.tasks[k], op, Lost), ctx)
  {
    var t := s.tasks[k];
    var now := Later(s, t);
    DueQueriesCover(t, now);
    SelectedRowsAct(s.tasks, k, now);
    assert Enabled(cfg, s, StartWorker(0, Decide(s.tasks, k), {k}, now)) by {
      assert PoolWorkers(s, Decide(s.tasks, k)) == {};
    }
    hide Inv, Selected, Decide, Run, OwnRow, Enabled;
    steps, ctx := Round(cfg, s, k, Lost, now);
    SilentThree(cfg, s, steps, k);
  }

  /** From every state at rest in which a creation or a cancellation of a row is next, there is a run that
      sends it, loses it, loses the one status query after it, and sends it again. */
  lemma MutationIsRepeated(cfg: Config, s: State, k: nat) returns (steps: seq<Step>, again: Step)
    requires cfg.Valid() && Inv(cfg, s) && s.workers == map[] && k in s.tasks && Open(s.tasks[k]) && Repeatable(Decide(s.tasks, k))
    ensures |steps| > 1 && steps[0].StartWorker? && steps[0].op == Decide(s.tasks, k) && k in steps[0].rows && Enabled(cfg, s, steps[0])
    ensures steps[1].Finish? && k in steps[1].endings && steps[1].endings[k] == Lost && Silent(cfg, s, steps, k)
    ensures again.StartWorker? && again.op == Decide(s.tasks, k) && k in again.rows && Enabled(cfg, Run(cfg, s, steps), again)
  {
    var op := Decide(s.tasks, k);
    NextOperation(s.tasks, k);
    hide Inv, Run, OwnRow, Silent, Enabled, Decide, EndedSlot;
    var first, ctx := LostRound(cfg, s, k);
    LostMutation(cfg, s.tasks[k], op, ctx);
    MutationRowIsKept(cfg, s.tasks[k], op, ctx);
    var s1 := Run(cfg, s, first);
    NextOperation(s1.tasks, k);
    var second, ctx2 := LostRound(cfg, s1, k);
    QueryRowIsKept(cfg, s1.tasks[k], ctx2);
    var s2 := Run(cfg, s1, second);
    var third, ctx3 := LostRound(cfg, s2, k);
    SameNext(s.tasks, s2.tasks, k);
    SilentAfterSilent(cfg, s, first, second, k);
    RunIsSequential(cfg, s, first, second);
    steps, again := first + second, third[0];
  }

  lemma SameNext(a: Tasks, b: Tasks, k: nat)
    requires k in a && k in b && Repeatable(Decide(a, k)) && !b[k].unknown
    requires b[k].relayChecked == a[k].relayChecked && b[k].relayFound == a[k].relayFound
    requires b[k].cancelRequired == a[k].cancelRequired && b[k].status == a[k].status
    ensures Decide(b, k) == Decide(a, k)
  {
    hide ValidationGroupReady, IsOwner, Group;
  }

  lemma MutationRowIsKept(cfg: Config, t: InferenceTask, op: Operation, ctx: Context)
    requires op == OpCreate || op == OpCancel
    ensures var r := OwnRow(cfg, EndedSlot(t, op, Lost), ctx); r.relayChecked == t.relayChecked && r.relayFound == t.relayFound
  {
    hide SyncedRow, CreateEffect, CancelEffect, ResultEffect, ValidatedRow;
  }

  lemma QueryRowIsKept(cfg: Config, t: InferenceTask, ctx: Context)
    ensures var r := OwnRow(cfg, EndedSlot(t, OpSync, Lost), ctx);
            && !r.unknown && r.status == t.status && r.cancelRequired == t.cancelRequired && r.spec == t.spec
            && r.relayChecked == t.relayChecked && r.relayFound == t.relayFound
  {
    hide SyncedRow, CreateEffect, CancelEffect, ResultEffect, ValidatedRow;
  }
}
