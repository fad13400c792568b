/** Terminal closure: a row that has reached a terminal status never becomes active again, provided
    Relay does not take a terminal status back and no group of three is refused for good while a
    sibling still has an operation. */
module TerminalClosure {
  import opened Wrappers
  import opened Models
  import opened Config
  import opened Progression
  import opened Dispatch
  import opened StateMachine
  import opened ApplyEffect
  import opened Frames
  import opened GroupInvariant
  import opened SlotInvariant
  import opened ClientInvariant
  import opened Invariant
  import opened Lifecycle

  // ---- The two hypotheses, on one step ----

  predicate KeepsEnd(relayEnded: set<string>, t: InferenceTask, e: Ending) {
    e.Answered? && e.reply.StatusReply? && e.reply.item.found && t.commitment in relayEnded ==>
      ChainTerminal(e.reply.item.status)
  }

  /** Relay, once it has reported a terminal status for a commitment, never reports another kind. */
  ghost predicate RelayKeepsEnds(s: State, step: Step) {
    step.Finish? ==>
      forall k {:trigger KeepsEnd(s.relayEnded, s.tasks[k], step.endings[k])} | k in step.endings && k in s.tasks ::
        KeepsEnd(s.relayEnded, s.tasks[k], step.endings[k])
  }

  predicate QuietSibling(tasks: Tasks, id: nat, k: nat)
    requires id in tasks && k in tasks
  {
    k != id && tasks[k].spec.taskId == tasks[id].spec.taskId ==> tasks[k].slot.status == SlotNone
  }

  /** A validation is refused for good only while no sibling has an operation. */
  ghost predicate RefusesQuietGroups(s: State, step: Step) {
    step.Apply? && step.task in s.tasks && Rejects(s.tasks[step.task]) ==>
      forall k {:trigger QuietSibling(s.tasks, step.task, k)} | k in s.tasks :: QuietSibling(s.tasks, step.task, k)
  }

  ghost predicate EndsLawfully(s: State, step: Step) {
    RelayKeepsEnds(s, step) && RefusesQuietGroups(s, step)
  }

  ghost predicate RunEndsLawfully(cfg: Config, s: State, steps: seq<Step>) {
    forall i {:trigger steps[i]} | 0 <= i < |steps| :: EndsLawfully(Run(cfg, s, steps[..i]), steps[i])
  }

  // ---- The invariant ----

  /** A terminal row in operation is a success to be read or downloaded, or a local abort whose
      cancellation is owed; a success is one Relay has reported. */
  predicate EndOk(relayEnded: set<string>, t: InferenceTask) {
    && (Terminal(t.status) && t.slot.status != SlotNone ==>
          t.status == EndSuccess || (t.status == EndAborted && t.cancelRequired))
    && (t.cancelRequired && Terminal(t.status) ==> t.status == EndAborted)
    && (t.status == EndSuccess ==> t.commitment in relayEnded)
    && (t.slot.op == OpResult ==> t.status == EndSuccess)
    && (t.slot.status == SlotCompleted && ReportsEnd(Answered(t.slot.reply)) ==> t.commitment in relayEnded)
    && (t.slot.status == SlotCompleted && t.status == EndSuccess ==> KeepsEnd(relayEnded, t, Answered(t.slot.reply)))
  }

  ghost predicate EndsOk(s: State) {
    forall k {:trigger EndOk(s.relayEnded, s.tasks[k])} | k in s.tasks :: EndOk(s.relayEnded, s.tasks[k])
  }

  predicate KeptTerminal(o: InferenceTask, n: InferenceTask) {
    Terminal(o.status) ==> Terminal(n.status)
  }

  lemma OwnRowEnds(cfg: Config, relayEnded: set<string>, t: InferenceTask, ctx: Context)
    requires SlotOk(t) && EndOk(relayEnded, t) && (t.slot.status == SlotCompleted || t.slot.status == SlotFailed)
    ensures var r := OwnRow(cfg, t, ctx); EndOk(relayEnded, r) && KeptTerminal(t, r)
  {
    if t.slot.status == SlotCompleted && t.slot.op == OpSync {
      SyncedRowEnds(cfg, relayEnded, t, ctx);
    } else {
      MutatedRowEnds(cfg, relayEnded, t, ctx);
    }
    hide OwnRow, EndOk;
  }

  lemma MutatedRowEnds(cfg: Config, relayEnded: set<string>, t: InferenceTask, ctx: Context)
    requires SlotOk(t) && EndOk(relayEnded, t) && (t.slot.status == SlotCompleted || t.slot.status == SlotFailed)
    requires t.slot.status == SlotCompleted ==> t.slot.op != OpSync
    ensures var r := OwnRow(cfg, t, ctx); EndOk(relayEnded, r) && KeptTerminal(t, r)
  {
    MutatedRow(cfg, t, ctx);
    hide OwnRow, ReportsEnd, KeepsEnd, ReplyFits;
  }

  lemma SyncedRowEnds(cfg: Config, relayEnded: set<string>, t: InferenceTask, ctx: Context)
    requires EndOk(relayEnded, t) && t.slot.status == SlotCompleted && t.slot.op == OpSync && t.slot.reply.StatusReply?
    ensures var r := OwnRow(cfg, t, ctx); EndOk(relayEnded, r) && KeptTerminal(t, r)
  {
    hide StatusSyncNextActionAt, HeartbeatQueuedTimedOut, CreateEffect, CancelEffect, ResultEffect, ValidatedRow;
  }

  lemma AppliedEnds(cfg: Config, s: State, s': State, id: nat, ctx: Context, inserted: bool, k: nat)
    requires Inv(cfg, s) && EndsOk(s) && Applicable(s.tasks, id, ctx) && RefusesQuietGroups(s, Apply(id, ctx))
    requires Applied(cfg, s.tasks, s'.tasks, id, ctx, inserted) && s'.relayEnded == s.relayEnded && k in s'.tasks
    ensures EndOk(s'.relayEnded, s'.tasks[k]) && (k in s.tasks ==> KeptTerminal(s.tasks[k], s'.tasks[k]))
  {
    hide WrittenRow, GroupsOk, WorkersOk, PoolsOk, ClientsOk;
    if k == id {
      assert SlotOk(s.tasks[id]) && EndOk(s.relayEnded, s.tasks[id]);
      OwnRowEnds(cfg, s.relayEnded, s.tasks[id], ctx);
    } else if k in s.tasks {
      assert OtherRow(s.tasks, s'.tasks, id, k, ctx.now);
      assert EndOk(s.relayEnded, s.tasks[k]) && SlotOk(s.tasks[k]);
      assert Rejects(s.tasks[id]) ==> QuietSibling(s.tasks, id, k);
    }
  }

  /** The row is in order after the step, and terminal if it was. */
  ghost predicate RowEnds(s: State, s': State, k: nat) {
    k in s'.tasks ==> EndOk(s'.relayEnded, s'.tasks[k]) && (k in s.tasks ==> KeptTerminal(s.tasks[k], s'.tasks[k]))
  }

  lemma StepEnds(cfg: Config, s: State, step: Step, k: nat)
    requires cfg.Valid() && Inv(cfg, s) && EndsOk(s) && EndsLawfully(s, step)
    ensures RowEnds(s, Exec(cfg, s, step), k)
  {
    assert k in s.tasks ==> EndOk(s.relayEnded, s.tasks[k]);
    if !Enabled(cfg, s, step) {
    } else if step.Apply? {
      ApplyEnds(cfg, s, step.task, step.ctx, k);
    } else if step.Expand? {
      ExpandEnds(cfg, s, step.clientTaskId, step.repeats, step.now, k);
    } else if step.StartWorker? {
      StartEnds(cfg, s, step, k);
    } else if step.Finish? {
      if k in s.tasks { FinishEnds(cfg, s, step.worker, step.endings, k); }
    } else if step.Recover? || step.AbortCommit? {
      RewriteEnds(cfg, s, step, k);
    } else {
      assert Exec(cfg, s, step).tasks == s.tasks && Exec(cfg, s, step).relayEnded == s.relayEnded;
    }
  }

  lemma ApplyEnds(cfg: Config, s: State, id: nat, ctx: Context, k: nat)
    requires Inv(cfg, s) && EndsOk(s) && Enabled(cfg, s, Apply(id, ctx)) && RefusesQuietGroups(s, Apply(id, ctx))
    ensures RowEnds(s, Exec(cfg, s, Apply(id, ctx)), k)
  {
    assert k in s.tasks ==> EndOk(s.relayEnded, s.tasks[k]);
    var s' := ApplyStep(cfg, s, id, ctx);
    var applied, inserted := ApplyStepEffect(cfg, s, id, ctx);
    hide ApplyStep, Inv;
    if applied && k in s'.tasks { AppliedEnds(cfg, s, s', id, ctx, inserted, k); }
  }

  lemma ExpandEnds(cfg: Config, s: State, c: nat, repeats: seq<Repeat>, now: int, k: nat)
    requires EndsOk(s) && Enabled(cfg, s, Expand(c, repeats, now))
    ensures RowEnds(s, Exec(cfg, s, Expand(c, repeats, now)), k)
  {
    assert k in s.tasks ==> EndOk(s.relayEnded, s.tasks[k]);
    var s' := Exec(cfg, s, Expand(c, repeats, now));
    ExpansionInserts(s.tasks, s.clients[c], c, repeats, now);
    if k in s'.tasks && k !in s.tasks { NewRow(s.tasks, s'.tasks, s.clients[c], c, repeats, now, k); }
  }

  lemma StartEnds(cfg: Config, s: State, step: Step, k: nat)
    requires EndsOk(s) && step.StartWorker? && Enabled(cfg, s, step)
    ensures RowEnds(s, Exec(cfg, s, step), k)
  {
    assert k in s.tasks ==> EndOk(s.relayEnded, s.tasks[k]);
    if k in step.rows { DueQueriesCover(s.tasks[k], step.now); }
  }

  lemma RecoveredIsRetired(tasks: Tasks, k: nat, now: int)
    requires k in tasks
    ensures Retired(tasks[k], RecoveredRow(tasks, k, now))
  {
    hide ValidatingGroup;
  }

  lemma RewriteEnds(cfg: Config, s: State, step: Step, k: nat)
    requires EndsOk(s) && (step.Recover? || step.AbortCommit?) && Enabled(cfg, s, step)
    ensures RowEnds(s, Exec(cfg, s, step), k)
  {
    hide Recalculated, AllStopped, EndOk, RecoveredRow;
    var s' := Exec(cfg, s, step);
    assert s'.relayEnded == s.relayEnded && s'.tasks.Keys == s.tasks.Keys;
    if k in s.tasks {
      assert EndOk(s.relayEnded, s.tasks[k]);
      if step.Recover? { RecoveredIsRetired(s.tasks, k, step.now); }
      assert Retired(s.tasks[k], s'.tasks[k]);
      RetiredEnds(s.relayEnded, s.tasks[k], s'.tasks[k]);
    }
    hide Exec, Enabled, EndsOk;
  }

  /** A row that keeps its state, or loses its operation, or is aborted. */
  predicate Retired(o: InferenceTask, n: InferenceTask) {
    && n.commitment == o.commitment
    && (n.slot == o.slot || (n.slot.op == OpNone && n.slot.status == SlotNone))
    && (|| (n.status == o.status && n.cancelRequired == o.cancelRequired)
        || (n.status == EndAborted && !n.cancelRequired && n.slot == EMPTY_SLOT))
  }

  lemma RetiredEnds(relayEnded: set<string>, o: InferenceTask, n: InferenceTask)
    requires EndOk(relayEnded, o) && Retired(o, n)
    ensures EndOk(relayEnded, n) && KeptTerminal(o, n)
  {
  }

  lemma FinishEnds(cfg: Config, s: State, w: nat, endings: map<nat, Ending>, k: nat)
    requires Inv(cfg, s) && EndsOk(s) && Enabled(cfg, s, Finish(w, endings)) && RelayKeepsEnds(s, Finish(w, endings))
    requires k in s.tasks
    ensures var n := WriteEndings(s.tasks, s.workers[w].op, endings)[k];
            EndOk(s.relayEnded + NewlyEnded(s.tasks, endings), n) && n.status == s.tasks[k].status
  {
    assert EndOk(s.relayEnded, s.tasks[k]);
    if k in endings {
      assert KeepsEnd(s.relayEnded, s.tasks[k], endings[k]);
      if ReportsEnd(endings[k]) { assert s.tasks[k].commitment in NewlyEnded(s.tasks, endings); }
    }
  }

  lemma StepKeepsEnds(cfg: Config, s: State, step: Step)
    requires cfg.Valid() && Inv(cfg, s) && EndsOk(s) && EndsLawfully(s, step)
    ensures EndsOk(Exec(cfg, s, step))
    ensures forall k | k in s.tasks :: k in Exec(cfg, s, step).tasks && KeptTerminal(s.tasks[k], Exec(cfg, s, step).tasks[k])
  {
    var s' := Exec(cfg, s, step);
    StepKeepsRows(cfg, s, step);
    hide Inv, EndsLawfully, Exec;
    forall k | k in s'.tasks
      ensures RowEnds(s, s', k)
    {
      StepEnds(cfg, s, step, k);
    }
  }

  lemma ApplyKeepsRows(cfg: Config, s: State, id: nat, ctx: Context)
    requires Applicable(s.tasks, id, ctx)
    ensures var s' := ApplyStep(cfg, s, id, ctx);
            forall k {:trigger s'.tasks[k]} {:trigger k in s'.tasks} | k in s.tasks ::
              && k in s'.tasks && s'.tasks[k].spec == s.tasks[k].spec && s'.tasks[k].commitment == s.tasks[k].commitment
              && (s.tasks[k].vrf.seed != "" ==> s'.tasks[k].vrf == s.tasks[k].vrf)
  {
    var s' := ApplyStep(cfg, s, id, ctx);
    var applied, inserted := ApplyStepEffect(cfg, s, id, ctx);
    hide ApplyStep;
    if applied {
      forall k | k in s.tasks
        ensures k in s'.tasks && s'.tasks[k].spec == s.tasks[k].spec && s'.tasks[k].commitment == s.tasks[k].commitment
        ensures s.tasks[k].vrf.seed != "" ==> s'.tasks[k].vrf == s.tasks[k].vrf
      {
        AppliedIdentity(cfg, s.tasks, s'.tasks, id, ctx, inserted, k);
      }
    }
  }

  /** No step deletes a row or changes its identity, and VRF data is written once. */
  lemma StepKeepsRows(cfg: Config, s: State, step: Step)
    ensures var s' := Exec(cfg, s, step);
            forall k {:trigger s'.tasks[k]} {:trigger k in s'.tasks} | k in s.tasks ::
              && k in s'.tasks && s'.tasks[k].spec == s.tasks[k].spec && s'.tasks[k].commitment == s.tasks[k].commitment
              && (s.tasks[k].vrf.seed != "" ==> s'.tasks[k].vrf == s.tasks[k].vrf)
  {
    var s' := Exec(cfg, s, step);
    if Enabled(cfg, s, step) {
      match step {
        case Apply(id, ctx) => ApplyKeepsRows(cfg, s, id, ctx);
        case Expand(c, repeats, now) => ExpansionInserts(s.tasks, s.clients[c], c, repeats, now);
        case Recover(now) => RecoveryKeepsLife(s.tasks, now);
        case Finish(w, endings) => WriteEndingsKeepsLife(s.tasks, s.workers[w].op, endings);
        case _ =>
      }
    }
  }

  // ---- The theorem ----

  /** Over every lawful continuation of every lawful run, a terminal row stays terminal. */
  lemma {:induction false} TerminalIsForever(cfg: Config, s: State, steps: seq<Step>)
    requires cfg.Valid() && Inv(cfg, s) && EndsOk(s) && RunEndsLawfully(cfg, s, steps)
    ensures var s' := Run(cfg, s, steps);
            && Inv(cfg, s') && EndsOk(s')
            && forall k {:trigger s'.tasks[k]} {:trigger k in s'.tasks} | k in s.tasks ::
                 k in s'.tasks && KeptTerminal(s.tasks[k], s'.tasks[k])
  {
    if steps == [] {
    } else {
      var last := |steps| - 1;
      var init := steps[..last];
      forall i | 0 <= i < |init|
        ensures EndsLawfully(Run(cfg, s, init[..i]), init[i])
      {
        assert init[..i] == steps[..i] && init[i] == steps[i];
      }
      TerminalIsForever(cfg, s, init);
      var mid := Run(cfg, s, init);
      assert EndsLawfully(mid, steps[last]);
      StepKeepsInv(cfg, mid, steps[last]);
      hide Inv, EndsOk, Exec, EndsLawfully;
      StepKeepsEnds(cfg, mid, steps[last]);
    }
  }

  lemma LawfulSplit(cfg: Config, s: State, first: seq<Step>, more: seq<Step>)
    requires RunEndsLawfully(cfg, s, first + more)
    ensures RunEndsLawfully(cfg, s, first) && RunEndsLawfully(cfg, Run(cfg, s, first), more)
  {
    var all := first + more;
    forall i | 0 <= i < |first|
      ensures EndsLawfully(Run(cfg, s, first[..i]), first[i])
    {
      assert all[i] == first[i] && all[..i] == first[..i];
    }
    forall i | 0 <= i < |more|
      ensures EndsLawfully(Run(cfg, Run(cfg, s, first), more[..i]), more[i])
    {
      assert all[|first| + i] == more[i] && all[..|first| + i] == first + more[..i];
      RunIsSequential(cfg, s, first, more[..i]);
    }
  }

  /** From the empty database, on every lawful run: a terminal row that has an operation is a success or
      a local abort whose cancellation is owed, and whatever follows, it stays terminal. */
  lemma EveryLawfulRunKeepsTerminal(cfg: Config, first: seq<Step>, more: seq<Step>, k: nat)
    requires cfg.Valid() && RunEndsLawfully(cfg, INITIAL, first + more)
    requires k in Run(cfg, INITIAL, first).tasks && Terminal(Run(cfg, INITIAL, first).tasks[k].status)
    ensures var t := Run(cfg, INITIAL, first).tasks[k];
            t.slot.status != SlotNone ==> t.status == EndSuccess || (t.status == EndAborted && t.cancelRequired)
    ensures var later := Run(cfg, INITIAL, first + more).tasks; k in later && Terminal(later[k].status)
  {
    LawfulSplit(cfg, INITIAL, first, more);
    EveryRunKeepsInv(cfg, []);
    assert EndsOk(INITIAL);
    TerminalIsForever(cfg, INITIAL, first);
    RunIsSequential(cfg, INITIAL, first, more);
    hide RunEndsLawfully, Inv, Run;
    var mid := Run(cfg, INITIAL, first);
    TerminalIsForever(cfg, mid, more);
    assert EndOk(mid.relayEnded, mid.tasks[k]);
    assert KeptTerminal(mid.tasks[k], Run(cfg, mid, more).tasks[k]);
  }

  // ---- Exactly when a terminal row comes back ----

  /** The completed operation writes an active status over a terminal one: a status answer that is
      not terminal, unless the row is a local abort being cancelled or a queued task timed out. */
  predicate Reactivates(cfg: Config, t: InferenceTask, ctx: Context) {
    && t.slot.status == SlotCompleted
    && ((&& t.slot.op == OpSync && t.slot.reply.StatusReply? && t.slot.reply.item.found
         && !ChainTerminal(t.slot.reply.item.status)
         && !(t.status == EndAborted && t.cancelRequired)
         && !(t.slot.reply.item.status == ChainQueued && HeartbeatQueuedTimedOut(cfg, t, ctx)))
        || (t.slot.op == OpCreate && (t.slot.reply == OutcomeReply(OutcomeCreated) || t.slot.reply == OutcomeReply(OutcomeAlreadyExists))))
  }

  /** In any state at all, applying an operation makes a terminal row active exactly when it is the
      row of the operation, the answer reactivates it, and nothing rolls the transaction back: a seed
      to be persisted can be, and the client task exists. */
  lemma ReactivatedExactly(cfg: Config, s: State, id: nat, ctx: Context, k: nat)
    requires Applicable(s.tasks, id, ctx) && k in s.tasks && Terminal(s.tasks[k].status)
    ensures var s' := ApplyStep(cfg, s, id, ctx);
            k in s'.tasks
            && (!Terminal(s'.tasks[k].status) <==>
                  && k == id && Reactivates(cfg, s.tasks[id], ctx) && s.tasks[id].spec.clientTaskId in s.clients
                  && (s.tasks[id].slot.op == OpSync ==> !RollsBack(cfg, s.tasks, id, ctx)))
  {
    var s' := ApplyStep(cfg, s, id, ctx);
    var applied, inserted := ApplyStepEffect(cfg, s, id, ctx);
    if s.tasks[id].slot.op == OpSync && s.tasks[id].slot.reply.StatusReply? { CommitsUnless(cfg, s.tasks, id, ctx); }
    assert Reactivates(cfg, s.tasks[id], ctx) && s.tasks[id].slot.op == OpCreate ==> OperationEffect(cfg, s.tasks, id, ctx).Some?;
    hide ApplyStep, OperationEffect, RollsBack;
    if applied {
      AppliedIdentity(cfg, s.tasks, s'.tasks, id, ctx, inserted, k);
      if k == id {
        OwnRowReactivates(cfg, s.tasks[id], ctx);
        hide OwnRow;
      } else {
        hide OwnRow;
        assert OtherRow(s.tasks, s'.tasks, id, k, ctx.now);
      }
    }
  }

  lemma OwnRowReactivates(cfg: Config, t: InferenceTask, ctx: Context)
    requires Terminal(t.status) && (t.slot.status == SlotCompleted || t.slot.status == SlotFailed)
    ensures !Terminal(OwnRow(cfg, t, ctx).status) <==> Reactivates(cfg, t, ctx)
  {
    if t.slot.status == SlotCompleted && t.slot.op == OpSync && t.slot.reply.StatusReply? {
      assert OwnRow(cfg, t, ctx).status == SyncedRow(cfg, t, t.slot.reply.item, ctx).status;
      hide OwnRow, WrittenRow, CreateEffect;
      SyncedRowReactivates(cfg, t, ctx);
    } else {
      hide SyncedRow;
    }
  }

  lemma SyncedRowReactivates(cfg: Config, t: InferenceTask, ctx: Context)
    requires Terminal(t.status) && t.slot.status == SlotCompleted && t.slot.op == OpSync && t.slot.reply.StatusReply?
    ensures !Terminal(SyncedRow(cfg, t, t.slot.reply.item, ctx).status) <==> Reactivates(cfg, t, ctx)
  {
    hide StatusSyncNextActionAt, HeartbeatQueuedTimedOut;
  }

  /** Without the second hypothesis the claim fails: a group refused for good while a member's
      status query is answered "started" sends that member to EndAborted and then back. */
  lemma RefusalDuringSyncReactivates(cfg: Config, s: State, id: nat, k: nat, first: Context, second: Context)
    requires cfg.Valid() && Inv(cfg, s) && Enabled(cfg, s, Apply(id, first)) && Rejects(s.tasks[id])
    requires k in s.tasks && k != id && s.tasks[k].spec.taskId == s.tasks[id].spec.taskId
    requires var t := s.tasks[k];
             && t.slot.status == SlotCompleted && t.slot.op == OpSync && !t.cancelRequired && t.slot.reply.StatusReply?
             && t.slot.reply.item.found && t.slot.reply.item.status == ChainStarted && t.slot.reply.item.samplingSeed == ""
    requires var s1 := Exec(cfg, s, Apply(id, first)); Enabled(cfg, s1, Apply(k, second))
    ensures var s1 := Exec(cfg, s, Apply(id, first));
            var s2 := Exec(cfg, s1, Apply(k, second));
            s1.tasks[k].status == EndAborted && k in s2.tasks && s2.tasks[k].status == Started
  {
    var s1 := ApplyStep(cfg, s, id, first);
    var applied, inserted := ApplyStepEffect(cfg, s, id, first);
    assert SlotOk(s.tasks[k]) && OwnerOk(s.clients, s.tasks[id]);
    StepKeepsInv(cfg, s, Apply(id, first));
    assert OtherRow(s.tasks, s1.tasks, id, k, first.now);
    hide Inv;
    assert s1.tasks[k].status == EndAborted && !s1.tasks[k].cancelRequired && s1.tasks[k].slot == s.tasks[k].slot;
    RefusedRowSyncs(cfg, s1, k, second);
  }

  lemma RefusedRowSyncs(cfg: Config, s: State, k: nat, ctx: Context)
    requires cfg.Valid() && Inv(cfg, s) && Enabled(cfg, s, Apply(k, ctx))
    requires var t := s.tasks[k];
             && t.slot.status == SlotCompleted && t.slot.op == OpSync && !t.cancelRequired
             && t.slot.reply.StatusReply? && t.slot.reply.item.found && t.slot.reply.item.status == ChainStarted
             && t.slot.reply.item.samplingSeed == ""
    ensures var s' := Exec(cfg, s, Apply(k, ctx)); k in s'.tasks && s'.tasks[k].status == Started
  {
    assert SlotOk(s.tasks[k]) && OwnerOk(s.clients, s.tasks[k]);
    hide Inv;
    var applied, inserted := ApplyStepEffect(cfg, s, k, ctx);
    assert !LooksAtSeed(cfg, s.tasks[k], s.tasks[k].slot.reply.item, ctx);
  }
}
