/** Group validation has one owner: on every snapshot at most one member is sent to validation, and
    over every lawful run at most one member of a group holds a validation at a time. */
module ValidationOwner {
  import opened Wrappers
  import opened Models
  import opened Config
  import opened Progression
  import opened Dispatch
  import opened StateMachine
  import opened ApplyEffect
  import opened Frames
  import opened GroupInvariant
  import opened SlotInvariant
  import opened ClientInvariant
  import opened Invariant
  import opened Lifecycle
  import opened TerminalClosure

  // ---- One snapshot ----

  /** On every snapshot, whatever its rows say, two members of one group are never both decided
      for validation. */
  lemma OneValidationPerSnapshot(tasks: Tasks, j: nat, k: nat)
    requires j in tasks && k in tasks && j != k && tasks[j].spec.taskId == tasks[k].spec.taskId
    requires Decide(tasks, j) == OpValidate
    ensures Decide(tasks, k) != OpValidate
  {
    if Decide(tasks, k) == OpValidate {
      DecidedValidation(tasks, j, k);
      DecidedValidation(tasks, k, j);
    }
  }

  /** In a ready group of three some ready row comes first, so a ready member always has an owner:
      the engine's error for a group without one cannot occur. */
  lemma ReadyGroupHasOwner(tasks: Tasks, id: nat) returns (owner: nat)
    requires id in tasks && ReadyForValidation(tasks[id].status)
    ensures owner in tasks && tasks[owner].spec.taskId == tasks[id].spec.taskId && IsOwner(tasks, owner)
  {
    var ready := set k | k in tasks && tasks[k].spec.taskId == tasks[id].spec.taskId && ReadyForValidation(tasks[k].status);
    owner := FirstOf(tasks, ready, id);
  }

  lemma {:induction false} FirstOf(tasks: Tasks, rows: set<nat>, some: nat) returns (first: nat)
    requires some in rows && rows <= tasks.Keys
    ensures first in rows && forall k | k in rows && k != first :: Before(tasks, first, k)
  {
    if rows == {some} {
      first := some;
    } else {
      var other :| other in rows && other != some;
      var m := FirstOf(tasks, rows - {some}, other);
      first := if Before(tasks, some, m) then some else m;
      forall k | k in rows && k != first
        ensures Before(tasks, first, k)
      {
        assert k != some && k != m ==> k in rows - {some} && Before(tasks, m, k);
      }
    }
  }

  // ---- Runs ----

  predicate KeepsSequenceRow(sequenceOf: string -> nat, t: InferenceTask, e: Ending) {
    e.Answered? && e.reply.StatusReply? && e.reply.item.found ==> e.reply.item.sequence == sequenceOf(t.commitment)
  }

  /** Relay reports one fixed sequence number for a commitment. */
  ghost predicate RelayKeepsSequences(sequenceOf: string -> nat, s: State, step: Step) {
    step.Finish? ==>
      forall k {:trigger KeepsSequenceRow(sequenceOf, s.tasks[k], step.endings[k])} | k in step.endings && k in s.tasks ::
        KeepsSequenceRow(sequenceOf, s.tasks[k], step.endings[k])
  }

  ghost predicate Lawful(sequenceOf: string -> nat, s: State, step: Step) {
    EndsLawfully(s, step) && RelayKeepsSequences(sequenceOf, s, step)
  }

  ghost predicate RunLawful(sequenceOf: string -> nat, cfg: Config, s: State, steps: seq<Step>) {
    forall i {:trigger steps[i]} | 0 <= i < |steps| :: Lawful(sequenceOf, Run(cfg, s, steps[..i]), steps[i])
  }

  predicate SequenceOk(sequenceOf: string -> nat, t: InferenceTask) {
    && (ReadyForValidation(t.status) ==> t.sequence == sequenceOf(t.commitment))
    && (t.slot.status == SlotCompleted ==> KeepsSequenceRow(sequenceOf, t, Answered(t.slot.reply)))
  }

  /** While a member validates it stays ready, no sibling validates, and every sibling is terminal
      or comes after it. */
  predicate OwnerAt(sequenceOf: string -> nat, tasks: Tasks, j: nat, k: nat)
    requires j in tasks && k in tasks
  {
    j != k && tasks[j].slot.op == OpValidate && tasks[j].spec.taskId == tasks[k].spec.taskId ==>
      && ReadyForValidation(tasks[j].status)
      && tasks[k].slot.op != OpValidate
      && (Terminal(tasks[k].status)
          || (tasks[k].sequence == sequenceOf(tasks[k].commitment) && Before(tasks, j, k)))
  }

  ghost predicate OwnersOk(sequenceOf: string -> nat, s: State) {
    && (forall k {:trigger SequenceOk(sequenceOf, s.tasks[k])} | k in s.tasks :: SequenceOk(sequenceOf, s.tasks[k]))
    && (forall j, k {:trigger OwnerAt(sequenceOf, s.tasks, j, k)} | j in s.tasks && k in s.tasks ::
          OwnerAt(sequenceOf, s.tasks, j, k))
  }

  // ---- Applied operations ----

  lemma OwnRowSequence(sequenceOf: string -> nat, cfg: Config, t: InferenceTask, ctx: Context)
    requires SequenceOk(sequenceOf, t) && SlotOk(t) && (t.slot.status == SlotCompleted || t.slot.status == SlotFailed)
    ensures var r := OwnRow(cfg, t, ctx);
            SequenceOk(sequenceOf, r) && (r.sequence == t.sequence || r.sequence == sequenceOf(t.commitment))
  {
    if t.slot.op == OpSync && t.slot.status == SlotCompleted {
      SyncedRowSequence(sequenceOf, cfg, t, ctx);
    } else {
      MutatedRow(cfg, t, ctx);
    }
    hide OwnRow;
  }

  lemma SyncedRowSequence(sequenceOf: string -> nat, cfg: Config, t: InferenceTask, ctx: Context)
    requires SequenceOk(sequenceOf, t) && t.slot.status == SlotCompleted && t.slot.op == OpSync && t.slot.reply.StatusReply?
    ensures var r := OwnRow(cfg, t, ctx);
            SequenceOk(sequenceOf, r) && (r.sequence == t.sequence || r.sequence == sequenceOf(t.commitment))
  {
    assert OwnRow(cfg, t, ctx) == SyncedRow(cfg, t, t.slot.reply.item, ctx).(slot := EMPTY_SLOT);
    hide OwnRow, WrittenRow, StatusSyncNextActionAt, HeartbeatQueuedTimedOut;
  }

  lemma AppliedSequence(sequenceOf: string -> nat, cfg: Config, s: State, s': State, id: nat, ctx: Context, inserted: bool, k: nat)
    requires Inv(cfg, s) && OwnersOk(sequenceOf, s) && Applicable(s.tasks, id, ctx)
    requires Applied(cfg, s.tasks, s'.tasks, id, ctx, inserted) && k in s'.tasks
    ensures SequenceOk(sequenceOf, s'.tasks[k])
    ensures k in s.tasks ==> s'.tasks[k].sequence == s.tasks[k].sequence || s'.tasks[k].sequence == sequenceOf(s.tasks[k].commitment)
    ensures k in s.tasks && k != id ==> s'.tasks[k].sequence == s.tasks[k].sequence
  {
    hide WrittenRow, GroupsOk, WorkersOk, PoolsOk, ClientsOk;
    if k == id {
      assert SlotOk(s.tasks[id]) && SequenceOk(sequenceOf, s.tasks[id]);
      OwnRowSequence(sequenceOf, cfg, s.tasks[id], ctx);
    } else if k in s.tasks {
      assert OtherRow(s.tasks, s'.tasks, id, k, ctx.now);
      assert SequenceOk(sequenceOf, s.tasks[k]);
    }
  }

  lemma AppliedOwner(sequenceOf: string -> nat, cfg: Config, s: State, s': State, id: nat, ctx: Context, inserted: bool, j: nat, k: nat)
    requires cfg.Valid() && Inv(cfg, s) && EndsOk(s) && OwnersOk(sequenceOf, s) && s.clock <= ctx.now
    requires Applicable(s.tasks, id, ctx) && RefusesQuietGroups(s, Apply(id, ctx))
    requires Applied(cfg, s.tasks, s'.tasks, id, ctx, inserted) && s'.relayEnded == s.relayEnded
    requires j in s'.tasks && k in s'.tasks
    ensures OwnerAt(sequenceOf, s'.tasks, j, k)
  {
    hide WrittenRow, WorkersOk, PoolsOk, ClientsOk, ReplyFits;
    if j != k && s'.tasks[j].slot.op == OpValidate && s'.tasks[j].spec.taskId == s'.tasks[k].spec.taskId {
      assert j in s.tasks && j != id;
      AppliedKeepsRow(cfg, s.tasks, s'.tasks, id, ctx, inserted, s.clock, j);
      AppliedSequence(sequenceOf, cfg, s, s', id, ctx, inserted, j);
      AppliedIdentity(cfg, s.tasks, s'.tasks, id, ctx, inserted, j);
      assert OtherRow(s.tasks, s'.tasks, id, j, ctx.now) && OwnerAt(sequenceOf, s.tasks, j, id);
      if k in s.tasks {
        AppliedKeepsRow(cfg, s.tasks, s'.tasks, id, ctx, inserted, s.clock, k);
        AppliedSequence(sequenceOf, cfg, s, s', id, ctx, inserted, k);
        AppliedIdentity(cfg, s.tasks, s'.tasks, id, ctx, inserted, k);
        AppliedEnds(cfg, s, s', id, ctx, inserted, k);
        assert OwnerAt(sequenceOf, s.tasks, j, k);
      } else {
        InsertedIsApart(cfg, s.tasks, s'.tasks, id, ctx, j, k);
      }
    }
  }

  // ---- The other steps ----

  lemma ApplyOwners(sequenceOf: string -> nat, cfg: Config, s: State, id: nat, ctx: Context)
    requires cfg.Valid() && Inv(cfg, s) && EndsOk(s) && OwnersOk(sequenceOf, s)
    requires Enabled(cfg, s, Apply(id, ctx)) && Lawful(sequenceOf, s, Apply(id, ctx))
    ensures OwnersOk(sequenceOf, Exec(cfg, s, Apply(id, ctx)))
  {
    var s' := ApplyStep(cfg, s, id, ctx);
    assert Exec(cfg, s, Apply(id, ctx)) == s';
    var applied, inserted := ApplyStepEffect(cfg, s, id, ctx);
    hide ApplyStep, Exec, Inv, Applied, EndsOk;
    if applied {
      forall k | k in s'.tasks
        ensures SequenceOk(sequenceOf, s'.tasks[k])
      {
        AppliedSequence(sequenceOf, cfg, s, s', id, ctx, inserted, k);
      }
      forall j, k | j in s'.tasks && k in s'.tasks
        ensures OwnerAt(sequenceOf, s'.tasks, j, k)
      {
        AppliedOwner(sequenceOf, cfg, s, s', id, ctx, inserted, j, k);
      }
    }
  }

  lemma StartOwners(sequenceOf: string -> nat, cfg: Config, s: State, step: Step)
    requires OwnersOk(sequenceOf, s) && step.StartWorker? && Enabled(cfg, s, step)
    ensures OwnersOk(sequenceOf, Exec(cfg, s, step))
  {
    var s' := Exec(cfg, s, step);
    assert s'.tasks == MarkRunning(s.tasks, step.rows, step.op);
    forall k | k in s'.tasks
      ensures SequenceOk(sequenceOf, s'.tasks[k])
    {
      assert SequenceOk(sequenceOf, s.tasks[k]);
    }
    forall j, k | j in s'.tasks && k in s'.tasks
      ensures OwnerAt(sequenceOf, s'.tasks, j, k)
    {
      StartOwner(sequenceOf, cfg, s, step, j, k);
    }
  }

  lemma StartOwner(sequenceOf: string -> nat, cfg: Config, s: State, step: Step, j: nat, k: nat)
    requires OwnersOk(sequenceOf, s) && step.StartWorker? && Enabled(cfg, s, step) && j in s.tasks && k in s.tasks
    ensures OwnerAt(sequenceOf, MarkRunning(s.tasks, step.rows, step.op), j, k)
  {
    assert OwnerAt(sequenceOf, s.tasks, j, k) && OwnerAt(sequenceOf, s.tasks, k, j);
    assert SequenceOk(sequenceOf, s.tasks[k]);
    if j != k && s.tasks[j].spec.taskId == s.tasks[k].spec.taskId && step.op == OpValidate {
      if j in step.rows { DecidedValidation(s.tasks, j, k); }
      if k in step.rows { DecidedValidation(s.tasks, k, j); }
    }
  }

  /** A row that keeps its place in the group: an operation may end, a row may be aborted, no
      validation may begin. */
  predicate KeepsPlace(o: InferenceTask, n: InferenceTask) {
    && n.spec == o.spec && n.commitment == o.commitment && n.sequence == o.sequence
    && (if n.slot.op == o.slot.op && n.status == o.status then true
        else n.slot.op == OpNone && (n.status == o.status || n.status == EndAborted))
  }

  lemma RewriteKeepsOwners(sequenceOf: string -> nat, s: State, s': State)
    requires OwnersOk(sequenceOf, s) && s'.tasks.Keys == s.tasks.Keys
    requires forall k {:trigger s'.tasks[k]} | k in s'.tasks ::
               KeepsPlace(s.tasks[k], s'.tasks[k]) && SequenceOk(sequenceOf, s'.tasks[k])
    ensures OwnersOk(sequenceOf, s')
  {
    forall j, k | j in s'.tasks && k in s'.tasks
      ensures OwnerAt(sequenceOf, s'.tasks, j, k)
    {
      assert OwnerAt(sequenceOf, s.tasks, j, k);
      assert KeepsPlace(s.tasks[j], s'.tasks[j]) && KeepsPlace(s.tasks[k], s'.tasks[k]);
    }
  }

  lemma EndedKeepsPlace(sequenceOf: string -> nat, t: InferenceTask, op: Operation, e: Ending)
    requires SequenceOk(sequenceOf, t) && KeepsSequenceRow(sequenceOf, t, e)
    ensures KeepsPlace(t, EndedRow(t, op, e)) && SequenceOk(sequenceOf, EndedRow(t, op, e))
  {
  }

  lemma FinishOwners(sequenceOf: string -> nat, cfg: Config, s: State, step: Step)
    requires OwnersOk(sequenceOf, s) && step.Finish? && Enabled(cfg, s, step) && RelayKeepsSequences(sequenceOf, s, step)
    ensures OwnersOk(sequenceOf, Exec(cfg, s, step))
  {
    var s' := Exec(cfg, s, step);
    assert s'.tasks == WriteEndings(s.tasks, s.workers[step.worker].op, step.endings);
    hide Exec, Enabled, EndedRow;
    forall k | k in s'.tasks
      ensures KeepsPlace(s.tasks[k], s'.tasks[k]) && SequenceOk(sequenceOf, s'.tasks[k])
    {
      assert SequenceOk(sequenceOf, s.tasks[k]);
      if k in step.endings {
        assert KeepsSequenceRow(sequenceOf, s.tasks[k], step.endings[k]);
        EndedKeepsPlace(sequenceOf, s.tasks[k], s.workers[step.worker].op, step.endings[k]);
      }
    }
    RewriteKeepsOwners(sequenceOf, s, s');
  }

  lemma ExpandOwners(sequenceOf: string -> nat, cfg: Config, s: State, c: nat, repeats: seq<Repeat>, now: int)
    requires OwnersOk(sequenceOf, s) && Enabled(cfg, s, Expand(c, repeats, now))
    ensures OwnersOk(sequenceOf, Exec(cfg, s, Expand(c, repeats, now)))
  {
    var s' := Exec(cfg, s, Expand(c, repeats, now));
    ExpansionInserts(s.tasks, s.clients[c], c, repeats, now);
    forall k | k in s'.tasks
      ensures SequenceOk(sequenceOf, s'.tasks[k])
    {
      if k in s.tasks {
        assert SequenceOk(sequenceOf, s.tasks[k]);
      } else {
        NewRow(s.tasks, s'.tasks, s.clients[c], c, repeats, now, k);
      }
    }
    forall j, k | j in s'.tasks && k in s'.tasks
      ensures OwnerAt(sequenceOf, s'.tasks, j, k)
    {
      if j in s.tasks {
        OldGroup(s.tasks, s'.tasks, s.clients[c], c, repeats, now, j);
        assert k in Group(s'.tasks, s'.tasks[j].spec.taskId) ==> k in s.tasks && OwnerAt(sequenceOf, s.tasks, j, k);
      } else {
        NewRow(s.tasks, s'.tasks, s.clients[c], c, repeats, now, j);
      }
    }
  }

  lemma RecoveredKeepsPlace(sequenceOf: string -> nat, tasks: Tasks, k: nat, now: int)
    requires k in tasks && SequenceOk(sequenceOf, tasks[k])
    ensures KeepsPlace(tasks[k], RecoveredRow(tasks, k, now)) && SequenceOk(sequenceOf, RecoveredRow(tasks, k, now))
  {
    hide ValidatingGroup;
  }

  lemma AbortedKeepsPlace(sequenceOf: string -> nat, t: InferenceTask)
    requires SequenceOk(sequenceOf, t)
    ensures KeepsPlace(t, AbortedRow(t)) && SequenceOk(sequenceOf, AbortedRow(t))
  {
  }

  lemma RewriteOwners(sequenceOf: string -> nat, cfg: Config, s: State, step: Step)
    requires OwnersOk(sequenceOf, s) && (step.Recover? || step.AbortCommit?) && Enabled(cfg, s, step)
    ensures OwnersOk(sequenceOf, Exec(cfg, s, step))
  {
    hide Recalculated, AllStopped, RecoveredRow, AbortedRow, KeepsPlace, SequenceOk;
    var s' := Exec(cfg, s, step);
    forall k | k in s'.tasks
      ensures KeepsPlace(s.tasks[k], s'.tasks[k]) && SequenceOk(sequenceOf, s'.tasks[k])
    {
      assert SequenceOk(sequenceOf, s.tasks[k]);
      AbortedKeepsPlace(sequenceOf, s.tasks[k]);
      UnchangedKeepsPlace(s.tasks[k]);
      if step.Recover? { RecoveredKeepsPlace(sequenceOf, s.tasks, k, step.now); }
    }
    hide Exec, Enabled;
    RewriteKeepsOwners(sequenceOf, s, s');
  }

  lemma UnchangedKeepsPlace(t: InferenceTask)
    ensures KeepsPlace(t, t)
  {
  }

  lemma StepKeepsOwners(sequenceOf: string -> nat, cfg: Config, s: State, step: Step)
    requires cfg.Valid() && Inv(cfg, s) && EndsOk(s) && OwnersOk(sequenceOf, s) && Lawful(sequenceOf, s, step)
    ensures OwnersOk(sequenceOf, Exec(cfg, s, step))
  {
    if !Enabled(cfg, s, step) {
    } else if step.Apply? {
      ApplyOwners(sequenceOf, cfg, s, step.task, step.ctx);
    } else if step.StartWorker? {
      StartOwners(sequenceOf, cfg, s, step);
    } else if step.Finish? {
      FinishOwners(sequenceOf, cfg, s, step);
    } else if step.Expand? {
      ExpandOwners(sequenceOf, cfg, s, step.clientTaskId, step.repeats, step.now);
    } else if step.Recover? || step.AbortCommit? {
      RewriteOwners(sequenceOf, cfg, s, step);
    } else {
      assert Exec(cfg, s, step).tasks == s.tasks;
      OwnersFrame(sequenceOf, s, Exec(cfg, s, step));
    }
  }

  lemma OwnersFrame(sequenceOf: string -> nat, s: State, s': State)
    requires OwnersOk(sequenceOf, s) && s'.tasks == s.tasks
    ensures OwnersOk(sequenceOf, s')
  {
    assert forall k | k in s'.tasks :: SequenceOk(sequenceOf, s.tasks[k]) && s.tasks[k] == s'.tasks[k];
    assert forall j, k | j in s'.tasks && k in s'.tasks :: OwnerAt(sequenceOf, s.tasks, j, k);
  }

  /** Over every lawful run, at most one member of a group has a validation in its slot at a time,
      running or answered, however often the owner changes between validations. */
  lemma {:induction false} OneValidationPerGroup(sequenceOf: string -> nat, cfg: Config, steps: seq<Step>)
    requires cfg.Valid() && RunLawful(sequenceOf, cfg, INITIAL, steps)
    ensures var s := Run(cfg, INITIAL, steps);
            && Inv(cfg, s) && EndsOk(s) && OwnersOk(sequenceOf, s)
            && forall j, k {:trigger s.tasks[j], s.tasks[k]} |
                 j in s.tasks && k in s.tasks && j != k && s.tasks[j].spec.taskId == s.tasks[k].spec.taskId ::
                 !(s.tasks[j].slot.op == OpValidate && s.tasks[k].slot.op == OpValidate)
  {
    var s := Run(cfg, INITIAL, steps);
    if steps == [] {
    } else {
      var last := |steps| - 1;
      var init := steps[..last];
      forall i | 0 <= i < |init|
        ensures Lawful(sequenceOf, Run(cfg, INITIAL, init[..i]), init[i])
      {
        assert init[..i] == steps[..i] && init[i] == steps[i];
      }
      OneValidationPerGroup(sequenceOf, cfg, init);
      var mid := Run(cfg, INITIAL, init);
      assert Lawful(sequenceOf, mid, steps[last]);
      StepKeepsInv(cfg, mid, steps[last]);
      StepKeepsEnds(cfg, mid, steps[last]);
      StepKeepsOwners(sequenceOf, cfg, mid, steps[last]);
      hide Inv, EndsOk, Exec, Lawful;
      assert s == Exec(cfg, mid, steps[last]);
    }
    forall j, k | j in s.tasks && k in s.tasks && j != k && s.tasks[j].spec.taskId == s.tasks[k].spec.taskId
      ensures !(s.tasks[j].slot.op == OpValidate && s.tasks[k].slot.op == OpValidate)
    {
      assert OwnersOk(sequenceOf, s) ==> OwnerAt(sequenceOf, s.tasks, j, k);
    }
  }
}
