/** The invariant of every run, whatever Relay answers and wherever the process crashes. */
module Invariant {
  import opened Wrappers
  import opened Models
  import opened Config
  import opened Progression
  import opened Dispatch
  import opened StateMachine
  import opened ApplyEffect
  import opened Frames
  import opened GroupInvariant
  import opened SlotInvariant
  import opened ClientInvariant

  ghost predicate Inv(cfg: Config, s: State) {
    && GroupsOk(cfg, s.tasks)
    && RowsOk(cfg, s.tasks, s.clock)
    && WorkersOk(s)
    && PoolsOk(cfg, s)
    && ClientsOk(s.clients, s.tasks)
  }

  lemma ApplyKeepsInv(cfg: Config, s: State, id: nat, ctx: Context)
    requires cfg.Valid() && Inv(cfg, s) && Enabled(cfg, s, Apply(id, ctx))
    ensures Inv(cfg, Exec(cfg, s, Apply(id, ctx)))
  {
    var s' := ApplyStep(cfg, s, id, ctx);
    assert Exec(cfg, s, Apply(id, ctx)) == s';
    var applied, inserted := ApplyStepEffect(cfg, s, id, ctx);
    hide Exec, ApplyStep, GroupsOk, RowsOk, WorkersOk, PoolsOk, ClientsOk, Applied;
    FewerWorkersKeepPools(cfg, s, s');
    if applied {
      AppliedKeepsGroups(cfg, s.tasks, s'.tasks, id, ctx, inserted);
      AppliedKeepsRows(cfg, s.tasks, s'.tasks, id, ctx, inserted, s.clock);
      forall k | k in s'.tasks
        ensures KeepsHold(s, s', k)
      {
        AppliedKeepsHold(cfg, s, s', id, ctx, inserted, k);
      }
      forall k | k in s.tasks
        ensures k in s'.tasks
      {
        AppliedIdentity(cfg, s.tasks, s'.tasks, id, ctx, inserted, k);
      }
      OtherStepsKeepWorkers(s, s');
      if s.tasks[id].slot.status == SlotFailed {
        FailureKeepsClients(cfg, s, id, ctx, inserted, s'.tasks);
      } else {
        AppliedKeepsClients(cfg, s, s', id, ctx, inserted);
      }
    } else {
      LaterClockKeepsRows(cfg, s.tasks, s.clock, ctx.now);
      assert forall k | k in s'.tasks :: KeepsHold(s, s', k);
      OtherStepsKeepWorkers(s, s');
    }
  }

  lemma LaterClockKeepsRows(cfg: Config, a: Tasks, clock: int, now: int)
    requires RowsOk(cfg, a, clock) && clock <= now
    ensures RowsOk(cfg, a, now)
  {
    forall k | k in a
      ensures SlotOk(a[k]) && DueBounded(cfg, a[k], now)
    {
      assert SlotOk(a[k]);
    }
    assert forall j, k | j in a && k in a :: ValidatedGroupAt(a, j, k);
  }

  lemma StartKeepsInv(cfg: Config, s: State, w: nat, op: Operation, rows: set<nat>, now: int)
    requires Inv(cfg, s) && Enabled(cfg, s, StartWorker(w, op, rows, now))
    ensures Inv(cfg, Exec(cfg, s, StartWorker(w, op, rows, now)))
  {
    hide GroupsOk, RowsOk, WorkersOk, PoolsOk, ClientsOk, Decide, Selected;
    var b := MarkRunning(s.tasks, rows, op);
    MarkRunningKeepsLife(s.tasks, rows, op);
    SameLifeIsSameIdentity(s.tasks, b);
    SameIdentityKeepsGroups(cfg, s.tasks, b);
    SameLifeKeepsClients(s.clients, s.tasks, b);
    StartKeepsRows(cfg, s, w, op, rows, now);
    StartKeepsWorkers(cfg, s, w, op, rows, now);
    StartKeepsPools(cfg, s, w, op, rows, now);
  }

  lemma FinishKeepsInv(cfg: Config, s: State, w: nat, endings: map<nat, Ending>)
    requires Inv(cfg, s) && Enabled(cfg, s, Finish(w, endings))
    ensures Inv(cfg, Exec(cfg, s, Finish(w, endings)))
  {
    hide GroupsOk, RowsOk, WorkersOk, PoolsOk, ClientsOk, ReplyFits;
    var op := s.workers[w].op;
    var b := WriteEndings(s.tasks, op, endings);
    WriteEndingsKeepsLife(s.tasks, op, endings);
    SameLifeIsSameIdentity(s.tasks, b);
    SameIdentityKeepsGroups(cfg, s.tasks, b);
    SameLifeKeepsClients(s.clients, s.tasks, b);
    FinishKeepsRows(cfg, s, w, endings);
    FinishKeepsWorkers(cfg, s, w, endings);
    FewerWorkersKeepPools(cfg, s, Exec(cfg, s, Finish(w, endings)));
  }

  lemma RecoverKeepsInv(cfg: Config, s: State, now: int)
    requires cfg.Valid() && Inv(cfg, s) && s.clock <= now
    ensures Inv(cfg, Exec(cfg, s, Recover(now)))
  {
    hide GroupsOk, RowsOk, PoolsOk, ClientsOk;
    var b := RecoveredTasks(s.tasks, now);
    RecoveryKeepsLife(s.tasks, now);
    SameLifeIsSameIdentity(s.tasks, b);
    SameIdentityKeepsGroups(cfg, s.tasks, b);
    SameLifeKeepsClients(s.clients, s.tasks, b);
    RecoveryRecalculatesNothing(s.clients, s.tasks, now);
    RecoverKeepsRows(cfg, s.tasks, s.clock, now);
    FewerWorkersKeepPools(cfg, s, Exec(cfg, s, Recover(now)));
    assert forall k | k in b :: b[k].slot.status != SlotRunning;
  }

  lemma ExpandKeepsInv(cfg: Config, s: State, c: nat, repeats: seq<Repeat>, now: int)
    requires cfg.Valid() && Inv(cfg, s) && Enabled(cfg, s, Expand(c, repeats, now))
    ensures Inv(cfg, Exec(cfg, s, Expand(c, repeats, now)))
  {
    hide GroupsOk, RowsOk, WorkersOk, PoolsOk, ClientsOk, FreshRepeats;
    var s' := Exec(cfg, s, Expand(c, repeats, now));
    ExpansionInserts(s.tasks, s.clients[c], c, repeats, now);
    InsertionKeepsGroups(cfg, s.tasks, s'.tasks, s.clients[c], c, repeats, now);
    InsertionKeepsRows(cfg, s.tasks, s'.tasks, s.clients[c], c, repeats, s.clock, now);
    ExpansionKeepsClients(cfg, s.clients, s.tasks, s'.tasks, c, repeats, now);
    FewerWorkersKeepPools(cfg, s, s');
    forall k | k in s'.tasks
      ensures KeepsHold(s, s', k)
    {
      if k !in s.tasks { NewRow(s.tasks, s'.tasks, s.clients[c], c, repeats, now, k); }
    }
    OtherStepsKeepWorkers(s, s');
  }

  lemma AbortCommitKeepsInv(cfg: Config, s: State, c: nat, ids: set<nat>, full: bool)
    requires Inv(cfg, s) && c in s.clients && ids <= Members(s.tasks, c)
    ensures Inv(cfg, AbortCommitStep(s, c, ids, full))
  {
    hide GroupsOk, RowsOk, WorkersOk, PoolsOk, ClientsOk;
    var s' := AbortCommitStep(s, c, ids, full);
    AbortKeepsIdentity(s.tasks, ids);
    SameIdentityKeepsGroups(cfg, s.tasks, s'.tasks);
    AbortKeepsRows(cfg, s.tasks, ids, s.clock);
    AbortCommitKeepsClients(s, c, ids, full);
    FewerWorkersKeepPools(cfg, s, s');
    assert forall k | k in s'.tasks :: KeepsHold(s, s', k);
    OtherStepsKeepWorkers(s, s');
  }

  lemma RecordStepsKeepInv(cfg: Config, s: State, step: Step)
    requires cfg.Valid() && Inv(cfg, s) && Enabled(cfg, s, step)
    requires step.Submit? || step.ExpandFailed? || step.AbortUnexpanded?
    ensures Inv(cfg, Exec(cfg, s, step))
  {
    hide GroupsOk, RowsOk, WorkersOk, PoolsOk;
    var s' := Exec(cfg, s, step);
    LaterClockKeepsRows(cfg, s.tasks, s.clock, s'.clock);
    FewerWorkersKeepPools(cfg, s, s');
    assert forall k | k in s'.tasks :: KeepsHold(s, s', k);
    OtherStepsKeepWorkers(s, s');
    match step {
      case Submit(newId, clientId, submission, repeatNum, now) =>
        NewClientKeepsClients(cfg, s.clients, s.tasks, newId, s'.clients[newId]);
      case ExpandFailed(c, now) =>
        assert ClientOk(s.tasks, c, s.clients[c]);
        RecordKeepsClients(s.clients, s.tasks, c, s'.clients[c]);
      case AbortUnexpanded(c) =>
        assert ClientOk(s.tasks, c, s.clients[c]);
        RecordKeepsClients(s.clients, s.tasks, c, s'.clients[c]);
    }
  }

  lemma StepKeepsInv(cfg: Config, s: State, step: Step)
    requires cfg.Valid() && Inv(cfg, s)
    ensures Inv(cfg, Exec(cfg, s, step))
  {
    hide Inv;
    if Enabled(cfg, s, step) {
      match step {
        case Submit(_, _, _, _, _) => RecordStepsKeepInv(cfg, s, step);
        case ExpandFailed(_, _) => RecordStepsKeepInv(cfg, s, step);
        case AbortUnexpanded(_) => RecordStepsKeepInv(cfg, s, step);
        case Expand(c, repeats, now) => ExpandKeepsInv(cfg, s, c, repeats, now);
        case StartWorker(w, op, rows, now) => StartKeepsInv(cfg, s, w, op, rows, now);
        case Finish(w, endings) => FinishKeepsInv(cfg, s, w, endings);
        case Apply(id, ctx) => ApplyKeepsInv(cfg, s, id, ctx);
        case Recover(now) => RecoverKeepsInv(cfg, s, now);
        case AbortCommit(c, withoutCommitment, cancelled, full) =>
          AbortCommitKeepsInv(cfg, s, c, IdsToAbort(withoutCommitment, cancelled, full), full);
      }
    }
  }

  /** Every state of every run from the empty database satisfies the invariant. */
  lemma {:induction false} EveryRunKeepsInv(cfg: Config, steps: seq<Step>)
    requires cfg.Valid()
    ensures Inv(cfg, Run(cfg, INITIAL, steps))
  {
    if steps == [] {
    } else {
      var last := |steps| - 1;
      EveryRunKeepsInv(cfg, steps[..last]);
      StepKeepsInv(cfg, Run(cfg, INITIAL, steps[..last]), steps[last]);
    }
  }
}
