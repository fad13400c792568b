/** What the invariant gives over whole runs: client tasks end once and for the right reason, a
    running one always has something to do, and a settled row never moves again. */
module Lifecycle {
  import opened Wrappers
  import opened Models
  import opened Config
  import opened Progression
  import opened Dispatch
  import opened StateMachine
  import opened ApplyEffect
  import opened Frames
  import opened GroupInvariant
  import opened SlotInvariant
  import opened ClientInvariant
  import opened Invariant

  lemma {:induction false} RunIsSequential(cfg: Config, s: State, first: seq<Step>, second: seq<Step>)
    ensures Run(cfg, s, first + second) == Run(cfg, Run(cfg, s, first), second)
  {
    if second == [] {
      assert first + second == first;
    } else {
      var last := |second| - 1;
      RunIsSequential(cfg, s, first, second[..last]);
      assert (first + second)[..|first| + last] == first + second[..last];
    }
  }

  lemma {:induction false} RunKeepsInv(cfg: Config, s: State, steps: seq<Step>)
    requires cfg.Valid() && Inv(cfg, s)
    ensures Inv(cfg, Run(cfg, s, steps))
  {
    if steps == [] {
    } else {
      var last := |steps| - 1;
      RunKeepsInv(cfg, s, steps[..last]);
      StepKeepsInv(cfg, Run(cfg, s, steps[..last]), steps[last]);
    }
  }

  // ---- Client tasks ----

  /** How one step may change a client task's status. */
  ghost predicate StatusChange(s: State, s': State, c: nat) {
    && c in s.clients && c in s'.clients
    && (s.clients[c].status != ClientRunning ==> s'.clients[c].status == s.clients[c].status)
    && (s.clients[c].status == ClientRunning && s'.clients[c].status == ClientSuccess ==>
          AnyDownloaded(s'.tasks, Members(s'.tasks, c)))
    && (s.clients[c].status == ClientRunning && s'.clients[c].status == ClientFailed ==>
          AllStopped(s'.tasks, c) || (!s.clients[c].expanded && Members(s'.tasks, c) == {}))
  }

  lemma ApplyChangesStatus(cfg: Config, s: State, id: nat, ctx: Context, c: nat)
    requires Inv(cfg, s) && c in s.clients && Enabled(cfg, s, Apply(id, ctx))
    ensures StatusChange(s, Exec(cfg, s, Apply(id, ctx)), c)
  {
    var applied, inserted := ApplyStepEffect(cfg, s, id, ctx);
    assert Exec(cfg, s, Apply(id, ctx)) == ApplyStep(cfg, s, id, ctx);
    hide ApplyStep, Applied, Exec, Enabled, Inv;
  }

  /** A client task without members, because it has not been expanded. */
  lemma UnexpandedIsEmpty(clients: ClientTasks, tasks: Tasks, c: nat)
    requires ClientsOk(clients, tasks) && c in clients && !clients[c].expanded
    ensures Members(tasks, c) == {}
  {
    forall k | k in tasks
      ensures !IsMember(tasks[k], c)
    {
      UnexpandedHasNoRows(clients, tasks, c, k);
    }
  }

  lemma AbortChangesStatus(cfg: Config, s: State, step: Step, c: nat)
    requires Inv(cfg, s) && c in s.clients && step.AbortCommit? && Enabled(cfg, s, step)
    ensures StatusChange(s, Exec(cfg, s, step), c)
  {
    hide GroupsOk, RowsOk, WorkersOk, PoolsOk, ClientsOk;
    if !s.clients[c].expanded && step.clientTaskId == c {
      UnexpandedIsEmpty(s.clients, s.tasks, c);
      var ids := IdsToAbort(step.withoutCommitment, step.cancelled, step.full);
      assert ids == {} && AbortRows(s.tasks, ids) == s.tasks;
    }
    hide Inv, FailedGroups;
  }

  lemma StepChangesStatus(cfg: Config, s: State, step: Step, c: nat)
    requires cfg.Valid() && Inv(cfg, s) && c in s.clients
    ensures StatusChange(s, Exec(cfg, s, step), c)
  {
    hide GroupsOk, RowsOk, WorkersOk, PoolsOk, ClientsOk, RecoveredTasks;
    if !Enabled(cfg, s, step) {
    } else if step.Recover? {
      RecoveryRecalculatesNothing(s.clients, s.tasks, step.now);
    } else if step.Apply? {
      ApplyChangesStatus(cfg, s, step.task, step.ctx, c);
    } else if step.AbortCommit? {
      AbortChangesStatus(cfg, s, step, c);
    } else if step.AbortUnexpanded? {
      if step.clientTaskId == c { UnexpandedIsEmpty(s.clients, s.tasks, c); }
    }
  }

  /** The step at which a client task left `running`. */
  ghost predicate LeavesRunning(cfg: Config, s: State, steps: seq<Step>, n: nat, c: nat)
    requires n < |steps|
  {
    var before, after := Run(cfg, s, steps[..n]), Run(cfg, s, steps[..n + 1]);
    && c in before.clients && before.clients[c].status == ClientRunning
    && c in after.clients && c in Run(cfg, s, steps).clients
    && after.clients[c].status == Run(cfg, s, steps).clients[c].status
    && StatusChange(before, after, c)
  }

  /** Over any continuation of any run, a client task that has ended keeps its status, and one that
      ends does so in a single step: to success with a downloaded member at that moment, to failed
      with every member finished and none downloaded, or aborted before it had any. */
  lemma {:induction false} ClientTaskEndsOnce(cfg: Config, s: State, steps: seq<Step>, c: nat) returns (n: nat)
    requires cfg.Valid() && Inv(cfg, s) && c in s.clients
    ensures var s' := Run(cfg, s, steps);
            && c in s'.clients
            && (s.clients[c].status != ClientRunning ==> s'.clients[c].status == s.clients[c].status)
            && (s.clients[c].status == ClientRunning && s'.clients[c].status != ClientRunning ==>
                  n < |steps| && LeavesRunning(cfg, s, steps, n, c))
  {
    n := 0;
    if steps != [] {
      var last := |steps| - 1;
      var init := steps[..last];
      n := ClientTaskEndsOnce(cfg, s, init, c);
      RunKeepsInv(cfg, s, init);
      var mid := Run(cfg, s, init);
      StepChangesStatus(cfg, mid, steps[last], c);
      assert steps[..last + 1] == steps;
      if s.clients[c].status == ClientRunning {
        if mid.clients[c].status == ClientRunning {
          n := last;
        } else {
          assert init[..n] == steps[..n] && init[..n + 1] == steps[..n + 1];
        }
      }
    }
  }

  // ---- The due queries ----

  /** Nothing falls between the queries: an idle due row is selected by one of them exactly when it
      is flagged for cancellation or not finished. */
  lemma DueQueriesCover(t: InferenceTask, now: int)
    ensures Selected(t, now) <==> Due(t, now) && (t.cancelRequired || !Finished(t.status))
  {
    if Due(t, now) && (t.cancelRequired || !Finished(t.status)) {
      if t.cancelRequired { assert SelectedBy(0, t, now); }
      else if t.status == EndSuccess { assert SelectedBy(1, t, now); }
      else if ReadyForValidation(t.status) { assert SelectedBy(2, t, now); }
      else if MatchesQuery(3, t) { assert SelectedBy(3, t, now); }
      else { assert SelectedBy(4, t, now); }
    }
  }

  /** Every selected row gets an operation, and a cancellation only when it is flagged. */
  lemma SelectedRowsAct(tasks: Tasks, k: nat, now: int)
    requires k in tasks && Selected(tasks[k], now)
    ensures Decide(tasks, k) != OpNone
    ensures Decide(tasks, k) == OpCancel ==> tasks[k].cancelRequired
  {
    DueQueriesCover(tasks[k], now);
  }

  /** The row is in operation, or will be dispatched as soon as its time has come. */
  ghost predicate Moving(cfg: Config, s: State, k: nat) {
    && k in s.tasks
    && (s.tasks[k].slot.status != SlotNone
        || (&& s.tasks[k].nextActionAt <= s.clock + Horizon(cfg)
            && Decide(s.tasks, k) != OpNone
            && forall now | s.tasks[k].nextActionAt <= now :: Selected(s.tasks[k], now)))
  }

  /** A running, expanded client task never stalls: in every run it has a member in operation or
      one that becomes due within the longest configured interval and is then dispatched. */
  lemma RunningClientTaskMoves(cfg: Config, steps: seq<Step>, c: nat)
    requires cfg.Valid()
    ensures var s := Run(cfg, INITIAL, steps);
            c in s.clients && s.clients[c].status == ClientRunning && s.clients[c].expanded && EngineType(s.clients[c].taskType) ==>
              exists k | k in Members(s.tasks, c) :: Moving(cfg, s, k)
  {
    EveryRunKeepsInv(cfg, steps);
    var s := Run(cfg, INITIAL, steps);
    if c in s.clients && s.clients[c].status == ClientRunning && s.clients[c].expanded && EngineType(s.clients[c].taskType) {
      assert ClientOk(s.tasks, c, s.clients[c]);
      var k :| k in Members(s.tasks, c) && !Finished(s.tasks[k].status);
      assert SlotOk(s.tasks[k]);
      if s.tasks[k].slot.status == SlotNone {
        forall now | s.tasks[k].nextActionAt <= now
          ensures Selected(s.tasks[k], now)
        {
          DueQueriesCover(s.tasks[k], now);
        }
        SelectedRowsAct(s.tasks, k, s.tasks[k].nextActionAt);
      }
      assert Moving(cfg, s, k);
    }
  }

  // ---- Settled rows ----

  /** Finished, not flagged, no operation: nothing in the engine will touch the row's status again,
      except that a refused group validation may turn it into EndAborted. */
  predicate Settled(t: InferenceTask) {
    Finished(t.status) && !t.cancelRequired && t.slot.status == SlotNone
  }

  lemma StepKeepsSettled(cfg: Config, s: State, step: Step, k: nat)
    requires k in s.tasks && Settled(s.tasks[k])
    ensures var s' := Exec(cfg, s, step);
            k in s'.tasks && Settled(s'.tasks[k]) && s'.tasks[k].spec == s.tasks[k].spec
            && (s'.tasks[k].status == s.tasks[k].status || s'.tasks[k].status == EndAborted)
  {
    if Enabled(cfg, s, step) {
      match step {
        case Apply(id, ctx) =>
          var applied, inserted := ApplyStepEffect(cfg, s, id, ctx);
          hide ApplyStep;
          if applied {
            var s' := Exec(cfg, s, step);
            AppliedIdentity(cfg, s.tasks, s'.tasks, id, ctx, inserted, k);
            assert OtherRow(s.tasks, s'.tasks, id, k, ctx.now);
          }
        case Expand(c, repeats, now) =>
          ExpansionInserts(s.tasks, s.clients[c], c, repeats, now);
        case StartWorker(w, op, rows, now) =>
          if k in rows { DueQueriesCover(s.tasks[k], now); }
        case Recover(now) => hide ValidatingGroup;
        case Submit(_, _, _, _, _) =>
        case ExpandFailed(_, _) =>
        case Finish(_, _) =>
        case AbortUnexpanded(_) =>
        case AbortCommit(_, _, _, _) =>
      }
    }
  }
}
