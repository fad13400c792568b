/** What a dispatched validation carries, and what happens when its outcome is lost. */
module ValidationSafety {
  import opened Wrappers
  import opened Models
  import opened Config
  import opened Progression
  import opened Dispatch
  import opened StateMachine
  import opened ApplyEffect
  import opened Frames
  import opened GroupInvariant
  import opened SlotInvariant
  import opened ClientInvariant
  import opened Invariant
  import opened Lifecycle
  import opened TerminalClosure
  import ValidationOwner

  // ---- VRF data before validation ----

  predicate ReadyItem(item: StatusItem) {
    item.found && (item.status == ChainScoreReady || item.status == ChainErrorReported)
  }

  predicate CarriesSeed(t: InferenceTask, e: Ending) {
    e.Answered? && e.reply.StatusReply? && ReadyItem(e.reply.item) ==>
      e.reply.item.samplingSeed != "" && ExecutionAssigned(t.spec.taskType, e.reply.item)
  }

  /** Relay reports the sampling seed and the execution assignment with every ready status. */
  ghost predicate RelayCarriesSeeds(s: State, step: Step) {
    step.Finish? ==>
      forall k {:trigger CarriesSeed(s.tasks[k], step.endings[k])} | k in step.endings && k in s.tasks ::
        CarriesSeed(s.tasks[k], step.endings[k])
  }

  ghost predicate RunCarriesSeeds(cfg: Config, s: State, steps: seq<Step>) {
    forall i {:trigger steps[i]} | 0 <= i < |steps| :: RelayCarriesSeeds(Run(cfg, s, steps[..i]), steps[i])
  }

  predicate SeedOk(t: InferenceTask) {
    && (ReadyForValidation(t.status) ==> t.vrf.seed != "")
    && (t.slot.status == SlotCompleted ==> CarriesSeed(t, Answered(t.slot.reply)))
  }

  ghost predicate SeedsOk(s: State) {
    forall k {:trigger SeedOk(s.tasks[k])} | k in s.tasks :: SeedOk(s.tasks[k])
  }

  /** How a row can be ready after an operation was applied to it. */
  lemma OwnRowReady(cfg: Config, t: InferenceTask, ctx: Context)
    requires SlotOk(t) && (t.slot.status == SlotCompleted || t.slot.status == SlotFailed)
    ensures ReadyForValidation(OwnRow(cfg, t, ctx).status) ==>
              || ReadyForValidation(t.status)
              || (&& t.slot.status == SlotCompleted && t.slot.op == OpSync && t.slot.reply.StatusReply?
                  && ReadyItem(t.slot.reply.item) && !KeepsLocalAbort(t, t.slot.reply.item))
  {
    if t.slot.status == SlotCompleted && t.slot.op == OpSync {
      hide StatusSyncNextActionAt, HeartbeatQueuedTimedOut, CreateEffect, CancelEffect, ResultEffect, ValidatedRow;
    } else {
      hide SyncedRow;
    }
  }

  lemma AppliedSeeds(cfg: Config, s: State, s': State, id: nat, ctx: Context, inserted: bool, k: nat)
    requires Inv(cfg, s) && SeedsOk(s) && Applicable(s.tasks, id, ctx)
    requires Applied(cfg, s.tasks, s'.tasks, id, ctx, inserted) && k in s'.tasks
    ensures SeedOk(s'.tasks[k])
  {
    hide WrittenRow, GroupsOk, WorkersOk, PoolsOk, ClientsOk;
    if k == id {
      assert SlotOk(s.tasks[id]) && SeedOk(s.tasks[id]);
      OwnRowReady(cfg, s.tasks[id], ctx);
    } else if k in s.tasks {
      assert OtherRow(s.tasks, s'.tasks, id, k, ctx.now);
      assert SeedOk(s.tasks[k]);
    }
  }

  lemma StepKeepsSeeds(cfg: Config, s: State, step: Step)
    requires Inv(cfg, s) && SeedsOk(s) && RelayCarriesSeeds(s, step)
    ensures SeedsOk(Exec(cfg, s, step))
  {
    var s' := Exec(cfg, s, step);
    forall k | k in s'.tasks
      ensures SeedOk(s'.tasks[k])
    {
      StepKeepsSeed(cfg, s, step, k);
    }
  }

  lemma StepKeepsSeed(cfg: Config, s: State, step: Step, k: nat)
    requires Inv(cfg, s) && SeedsOk(s) && RelayCarriesSeeds(s, step) && k in Exec(cfg, s, step).tasks
    ensures SeedOk(Exec(cfg, s, step).tasks[k])
  {
    var s' := Exec(cfg, s, step);
    assert k in s.tasks ==> SeedOk(s.tasks[k]);
    if !Enabled(cfg, s, step) {
    } else if step.Apply? {
      var applied, inserted := ApplyStepEffect(cfg, s, step.task, step.ctx);
      hide ApplyStep, Inv;
      if applied { AppliedSeeds(cfg, s, s', step.task, step.ctx, inserted, k); }
    } else if step.Expand? {
      hide Inv;
      ExpansionInserts(s.tasks, s.clients[step.clientTaskId], step.clientTaskId, step.repeats, step.now);
      if k !in s.tasks {
        NewRow(s.tasks, s'.tasks, s.clients[step.clientTaskId], step.clientTaskId, step.repeats, step.now, k);
      }
    } else if step.Finish? {
      hide Inv;
      if k in step.endings {
        assert CarriesSeed(s.tasks[k], step.endings[k]);
        EndedRowSeed(s.tasks[k], s.workers[step.worker].op, step.endings[k]);
      }
    } else if step.StartWorker? {
      StartKeepsSeed(cfg, s, step, k);
    } else if step.Recover? || step.AbortCommit? {
      RewriteKeepsSeed(cfg, s, step, k);
    }
  }

  lemma EndedRowSeed(t: InferenceTask, op: Operation, e: Ending)
    requires SeedOk(t) && CarriesSeed(t, e)
    ensures SeedOk(EndedRow(t, op, e))
  {
  }

  /** A row whose status, VRF data and stored answer are kept, or which loses its operation. */
  lemma KeptSeed(o: InferenceTask, n: InferenceTask)
    requires SeedOk(o) && n.vrf == o.vrf && n.spec == o.spec
    requires n.status == o.status || !ReadyForValidation(n.status)
    requires n.slot == o.slot || n.slot.status != SlotCompleted
    ensures SeedOk(n)
  {
  }

  lemma StartKeepsSeed(cfg: Config, s: State, step: Step, k: nat)
    requires SeedsOk(s) && Enabled(cfg, s, step) && step.StartWorker? && k in s.tasks
    ensures k in Exec(cfg, s, step).tasks && SeedOk(Exec(cfg, s, step).tasks[k])
  {
    assert SeedOk(s.tasks[k]);
    var n := Exec(cfg, s, step).tasks[k];
    assert n == s.tasks[k] || n == s.tasks[k].(slot := Slot(step.op, SlotRunning, NoReply));
    hide SeedOk, SeedsOk, Enabled, Exec;
    KeptSeed(s.tasks[k], n);
  }

  lemma RewriteKeepsSeed(cfg: Config, s: State, step: Step, k: nat)
    requires SeedsOk(s) && Enabled(cfg, s, step) && (step.Recover? || step.AbortCommit?) && k in s.tasks
    ensures k in Exec(cfg, s, step).tasks && SeedOk(Exec(cfg, s, step).tasks[k])
  {
    hide ValidatingGroup, Recalculated, AllStopped, SeedOk;
    assert SeedOk(s.tasks[k]);
    hide SeedsOk;
    var n := Exec(cfg, s, step).tasks[k];
    assert n.vrf == s.tasks[k].vrf && n.spec == s.tasks[k].spec;
    assert n.status == s.tasks[k].status || n.status == EndAborted;
    assert n.slot == s.tasks[k].slot || n.slot.status == SlotNone;
    hide Enabled, Exec;
    KeptSeed(s.tasks[k], n);
  }

  /** Over every run in which Relay reports the seed and the assignment with each ready status, every
      row sent to validation has its VRF data persisted, and its unit has three members, all with
      that data, exactly when the VRF selects it, and one otherwise. */
  lemma {:induction false} ValidatedUnitsAreComplete(cfg: Config, steps: seq<Step>)
    requires cfg.Valid() && RunCarriesSeeds(cfg, INITIAL, steps)
    ensures var s := Run(cfg, INITIAL, steps);
            Inv(cfg, s) && SeedsOk(s) && forall k | k in s.tasks && Decide(s.tasks, k) == OpValidate :: CompleteUnit(cfg, s.tasks, k)
  {
    var s := Run(cfg, INITIAL, steps);
    if steps == [] {
    } else {
      var last := |steps| - 1;
      var init := steps[..last];
      forall i | 0 <= i < |init|
        ensures RelayCarriesSeeds(Run(cfg, INITIAL, init[..i]), init[i])
      {
        assert init[..i] == steps[..i] && init[i] == steps[i];
      }
      ValidatedUnitsAreComplete(cfg, init);
      var mid := Run(cfg, INITIAL, init);
      assert RelayCarriesSeeds(mid, steps[last]);
      StepKeepsInv(cfg, mid, steps[last]);
      StepKeepsSeeds(cfg, mid, steps[last]);
      assert s == Exec(cfg, mid, steps[last]);
    }
    hide Run;
    forall k | k in s.tasks && Decide(s.tasks, k) == OpValidate
      ensures CompleteUnit(cfg, s.tasks, k)
    {
      DecidedIsComplete(cfg, s, k);
    }
  }

  /** The unit of a validation: the whole group, with one set of VRF data. */
  ghost predicate CompleteUnit(cfg: Config, tasks: Tasks, k: nat)
    requires k in tasks
  {
    && tasks[k].vrf.seed != "" && VrfOk(cfg, tasks[k])
    && |Group(tasks, tasks[k].spec.taskId)| == (if VrfNeedValidation(tasks[k].vrf.number) then 3 else 1)
    && forall j | j in Group(tasks, tasks[k].spec.taskId) :: tasks[j].vrf == tasks[k].vrf
  }

  lemma DecidedIsComplete(cfg: Config, s: State, k: nat)
    requires Inv(cfg, s) && SeedsOk(s) && k in s.tasks && Decide(s.tasks, k) == OpValidate
    ensures CompleteUnit(cfg, s.tasks, k)
  {
    hide RowsOk, WorkersOk, PoolsOk, ClientsOk;
    DecidedValidation(s.tasks, k, k);
    assert SeedOk(s.tasks[k]) && SizeOk(s.tasks, k);
    forall j | j in Group(s.tasks, s.tasks[k].spec.taskId)
      ensures s.tasks[j].vrf == s.tasks[k].vrf
    {
      assert MatesAt(s.tasks, j, k);
    }
  }

  // ---- Exactly when the hypothesis matters ----

  /** A ready answer is read for a row that is alone in its group and has no VRF data. */
  predicate ReadsReady(s: State, id: nat) {
    && id in s.tasks
    && var t := s.tasks[id];
       && t.slot.status == SlotCompleted && t.slot.op == OpSync && t.slot.reply.StatusReply? && ReadyItem(t.slot.reply.item)
       && t.vrf.seed == "" && !t.submitted && !(t.status == EndAborted && t.cancelRequired)
  }

  /** A ready answer whose seed cannot be persisted rolls back and changes no row. Otherwise the row is sent
      to validation next, alone and without VRF data, exactly when the answer has no seed, or its VRF
      selects the task while the execution is not assigned: then a task the VRF selects is validated as a
      single one. */
  lemma UnprovenValidationExactly(cfg: Config, s: State, id: nat, ctx: Context)
    requires cfg.Valid() && Inv(cfg, s) && Enabled(cfg, s, Apply(id, ctx)) && ReadsReady(s, id)
    ensures var s' := Exec(cfg, s, Apply(id, ctx));
            var item := s.tasks[id].slot.reply.item;
            && id in s'.tasks
            && (if item.samplingSeed != "" && SeedFails(cfg, s.tasks[id], item, true) then s'.tasks == s.tasks
                else Decide(s'.tasks, id) == OpValidate && s'.tasks[id].vrf.seed == "" <==>
                     item.samplingSeed == "" || DefersVrf(cfg, s.tasks[id], item))
  {
    var s' := ApplyStep(cfg, s, id, ctx);
    var item := s.tasks[id].slot.reply.item;
    assert Exec(cfg, s, Apply(id, ctx)) == s';
    ReadyRollsBackIff(cfg, s, id, ctx);
    if !(item.samplingSeed != "" && SeedFails(cfg, s.tasks[id], item, true)) {
      hide SeedFails, ApplyStep, Exec, DefersVrf, OperationEffect, Decide;
      ReadyCommitted(cfg, s, id, ctx);
    }
  }

  lemma ReadyRollsBackIff(cfg: Config, s: State, id: nat, ctx: Context)
    requires Inv(cfg, s) && Enabled(cfg, s, Apply(id, ctx)) && ReadsReady(s, id)
    ensures var item := s.tasks[id].slot.reply.item;
            OperationEffect(cfg, s.tasks, id, ctx).Some? <==> item.samplingSeed == "" || !SeedFails(cfg, s.tasks[id], item, true)
  {
    InvSize(cfg, s, id);
    CommitsUnless(cfg, s.tasks, id, ctx);
    hide Inv, OperationEffect, SeedFails;
  }

  lemma ReadyCommitted(cfg: Config, s: State, id: nat, ctx: Context)
    requires cfg.Valid() && Inv(cfg, s) && Enabled(cfg, s, Apply(id, ctx)) && ReadsReady(s, id)
    requires OperationEffect(cfg, s.tasks, id, ctx).Some?
    ensures var s' := ApplyStep(cfg, s, id, ctx);
            var item := s.tasks[id].slot.reply.item;
            && id in s'.tasks
            && (Decide(s'.tasks, id) == OpValidate && s'.tasks[id].vrf.seed == "" <==>
                  item.samplingSeed == "" || DefersVrf(cfg, s.tasks[id], item))
  {
    var s' := ApplyStep(cfg, s, id, ctx);
    StepKeepsInv(cfg, s, Apply(id, ctx));
    assert Exec(cfg, s, Apply(id, ctx)) == s';
    hide Exec;
    assert OwnerOk(s.clients, s.tasks[id]);
    ReadyRowApplied(cfg, s, id, ctx);
    hide ApplyStep, OperationEffect, OwnerOk, DefersVrf, Decide, Group;
    if s'.tasks[id].vrf.seed == "" { AloneIsValidated(cfg, s', id); }
    hide Inv, Enabled;
  }

  /** A ready row without VRF data is alone, and validated at once. */
  lemma AloneIsValidated(cfg: Config, s: State, id: nat)
    requires Inv(cfg, s) && id in s.tasks && s.tasks[id].vrf.seed == ""
    requires var n := s.tasks[id]; ReadyForValidation(n.status) && !n.unknown && n.relayChecked && !n.cancelRequired && !n.submitted
    ensures Decide(s.tasks, id) == OpValidate
  {
    InvSize(cfg, s, id);
    hide Inv;
  }

  /** The row after its ready answer: idle, ready, reconciled, and with a seed unless there is none
      or its persistence is deferred. */
  lemma ReadyRowApplied(cfg: Config, s: State, id: nat, ctx: Context)
    requires Applicable(s.tasks, id, ctx) && ReadsReady(s, id)
    requires OperationEffect(cfg, s.tasks, id, ctx).Some? && s.tasks[id].spec.clientTaskId in s.clients
    ensures var s' := ApplyStep(cfg, s, id, ctx);
            var item := s.tasks[id].slot.reply.item;
            && id in s'.tasks
            && var n := s'.tasks[id];
               && ReadyForValidation(n.status) && !n.unknown && n.relayChecked && !n.cancelRequired && !n.submitted
               && (n.vrf.seed == "" <==> item.samplingSeed == "" || DefersVrf(cfg, s.tasks[id], item))
  {
    var s' := ApplyStep(cfg, s, id, ctx);
    var t := s.tasks[id];
    var applied, inserted := ApplyStepEffect(cfg, s, id, ctx);
    hide ApplyStep, OperationEffect;
    ReadyRow(cfg, t, ctx);
    assert LooksAtSeed(cfg, t, t.slot.reply.item, ctx) <==> t.slot.reply.item.samplingSeed != "";
    assert s'.tasks[id] == OwnRow(cfg, t, ctx).(vrf := s'.tasks[id].vrf);
    assert VrfChange(cfg, |Group(s.tasks, t.spec.taskId)|, t, s'.tasks[id].vrf, ctx, inserted);
    hide OwnRow, LooksAtSeed, DefersVrf, Applied;
  }

  lemma InvSize(cfg: Config, s: State, id: nat)
    requires Inv(cfg, s) && id in s.tasks
    ensures SizeOk(s.tasks, id)
  {
  }

  lemma ReadyRow(cfg: Config, t: InferenceTask, ctx: Context)
    requires t.slot.status == SlotCompleted && t.slot.op == OpSync && t.slot.reply.StatusReply? && ReadyItem(t.slot.reply.item)
    requires !(t.status == EndAborted && t.cancelRequired)
    ensures var r := OwnRow(cfg, t, ctx);
            && ReadyForValidation(r.status) && !r.unknown && r.relayChecked && !r.cancelRequired && r.submitted == t.submitted
            && !KeepsLocalAbort(t, t.slot.reply.item)
  {
    hide StatusSyncNextActionAt, HeartbeatQueuedTimedOut, CreateEffect, CancelEffect, ResultEffect, ValidatedRow;
  }

  // ---- When members are inserted ----

  /** Two members are inserted exactly when the engine looks at the answer's seed, the VRF selects the
      task, its execution is assigned and its arguments can be pinned. The Relay status does not matter:
      a terminal answer inserts them too. */
  lemma MembersInsertedIff(cfg: Config, s: State, id: nat, ctx: Context)
    requires cfg.Valid() && Inv(cfg, s) && Enabled(cfg, s, Apply(id, ctx))
    requires var slot := s.tasks[id].slot; slot.status == SlotCompleted && slot.op == OpSync && slot.reply.StatusReply?
    ensures var t := s.tasks[id];
            var item := t.slot.reply.item;
            var s' := Exec(cfg, s, Apply(id, ctx));
            && (ctx.first.id in s'.tasks <==> ctx.second.id in s'.tasks)
            && (ctx.first.id in s'.tasks <==>
                  && LooksAtSeed(cfg, t, item, ctx)
                  && cfg.prove(item.samplingSeed).Some? && VrfNeedValidation(cfg.prove(item.samplingSeed).value.number)
                  && ExecutionAssigned(t.spec.taskType, item)
                  && cfg.pinArgs(t.spec.taskArgs, t.spec.taskType, item.modelFiles).Some?)
  {
    var t := s.tasks[id];
    var s' := ApplyStep(cfg, s, id, ctx);
    assert OwnerOk(s.clients, t);
    var applied, inserted := ApplyStepEffect(cfg, s, id, ctx);
    CommitsUnless(cfg, s.tasks, id, ctx);
    InvSize(cfg, s, id);
    assert Exec(cfg, s, Apply(id, ctx)) == s';
    hide ApplyStep, OperationEffect, Exec, Inv;
    if applied {
      assert KeysAfter(s.tasks, s'.tasks, ctx, inserted);
      assert VrfChange(cfg, |Group(s.tasks, t.spec.taskId)|, t, s'.tasks[id].vrf, ctx, inserted);
    }
    hide Applied, LooksAtSeed, ExecutionAssigned, OwnRow, InsertedMember;
  }

  // ---- A lost validation is reconciled first ----

  /** Relay has not been heard about the row since the outcome of a validation was lost. */
  predicate Unreconciled(t: InferenceTask) {
    !t.relayChecked && t.slot.op != OpCreate
  }

  /** The step applies an answer to the row's own status query. */
  predicate ReadsOwnStatus(s: State, step: Step, k: nat) {
    && step.Apply? && step.task == k && k in s.tasks
    && s.tasks[k].slot.status == SlotCompleted && s.tasks[k].slot.op == OpSync
  }

  /** The validation in the slot of row j ended without an outcome, or died with the process. */
  ghost predicate LosesValidation(cfg: Config, s: State, step: Step, j: nat) {
    && Enabled(cfg, s, step) && j in s.tasks && s.tasks[j].slot.op == OpValidate
    && ((step.Apply? && step.task == j && s.tasks[j].slot.status == SlotFailed)
        || (step.Recover? && s.tasks[j].slot.status == SlotRunning))
  }

  /** When a validation's outcome is lost, the whole group becomes unreconciled. */
  lemma LossUnreconcilesGroup(cfg: Config, s: State, step: Step, j: nat, k: nat)
    requires cfg.Valid() && Inv(cfg, s) && LosesValidation(cfg, s, step, j)
    requires k in s.tasks && s.tasks[k].spec.taskId == s.tasks[j].spec.taskId
    ensures var s' := Exec(cfg, s, step); k in s'.tasks && Unreconciled(s'.tasks[k])
  {
    RowsOkPair(cfg, s.tasks, s.clock, j, k);
    hide Inv;
    if step.Apply? {
      var applied, inserted := ApplyStepEffect(cfg, s, j, step.ctx);
      hide ApplyStep, SyncedRow;
      var s' := Exec(cfg, s, step);
      if k != j { assert OtherRow(s.tasks, s'.tasks, j, k, step.ctx.now); }
    } else {
      assert ValidatingGroup(s.tasks, s.tasks[k].spec.taskId);
    }
  }

  /** Until then, while the lost or running validation is still in the slot of its row: over every lawful
      run no other member is sent to creation or validation; one is cancelled exactly when it is flagged
      and reconciled, and downloaded exactly when it is reconciled and successful. */
  lemma MatesOfValidation(sequenceOf: string -> nat, cfg: Config, steps: seq<Step>, j: nat, k: nat)
    requires cfg.Valid() && ValidationOwner.RunLawful(sequenceOf, cfg, INITIAL, steps)
    requires var s := Run(cfg, INITIAL, steps);
             && j in s.tasks && k in s.tasks && j != k && s.tasks[j].spec.taskId == s.tasks[k].spec.taskId
             && s.tasks[j].slot.op == OpValidate
    ensures var s := Run(cfg, INITIAL, steps);
            var t := s.tasks[k];
            var op := Decide(s.tasks, k);
            && op != OpCreate && op != OpValidate
            && (op == OpCancel <==> t.relayChecked && !t.unknown && t.cancelRequired)
            && (op == OpResult <==> t.relayChecked && !t.unknown && !t.cancelRequired && t.status == EndSuccess)
  {
    var s := Run(cfg, INITIAL, steps);
    ValidationOwner.OneValidationPerGroup(sequenceOf, cfg, steps);
    assert ValidationOwner.OwnerAt(sequenceOf, s.tasks, j, k);
    RowsOkPair(cfg, s.tasks, s.clock, j, k);
    hide Run, Inv, EndsOk, ValidationGroupReady, Group;
    if Decide(s.tasks, k) == OpValidate { DecidedValidation(s.tasks, k, j); }
  }

  lemma AppliedKeepsUnreconciled(cfg: Config, s: State, id: nat, ctx: Context, k: nat)
    requires Applicable(s.tasks, id, ctx)
    requires k in s.tasks && Unreconciled(s.tasks[k]) && !ReadsOwnStatus(s, Apply(id, ctx), k)
    ensures var s' := ApplyStep(cfg, s, id, ctx); k in s'.tasks && Unreconciled(s'.tasks[k])
  {
    var s' := ApplyStep(cfg, s, id, ctx);
    var applied, inserted := ApplyStepEffect(cfg, s, id, ctx);
    hide ApplyStep, SyncedRow, OperationEffect;
    if applied {
      AppliedIdentity(cfg, s.tasks, s'.tasks, id, ctx, inserted, k);
      if k == id {
        OwnRowUnreconciled(cfg, s.tasks[k], ctx);
        hide OwnRow;
      } else {
        hide OwnRow;
        assert OtherRow(s.tasks, s'.tasks, id, k, ctx.now);
      }
    }
  }

  lemma OwnRowUnreconciled(cfg: Config, t: InferenceTask, ctx: Context)
    requires Unreconciled(t) && !(t.slot.status == SlotCompleted && t.slot.op == OpSync)
    requires t.slot.status == SlotCompleted || t.slot.status == SlotFailed
    ensures Unreconciled(OwnRow(cfg, t, ctx))
  {
    hide SyncedRow;
  }

  lemma RewriteKeepsUnreconciled(cfg: Config, s: State, step: Step, k: nat)
    requires Enabled(cfg, s, step) && (step.Recover? || step.AbortCommit?)
    requires k in s.tasks && Unreconciled(s.tasks[k])
    ensures var s' := Exec(cfg, s, step); k in s'.tasks && Unreconciled(s'.tasks[k])
  {
    hide ValidatingGroup, Recalculated, AllStopped;
  }

  lemma WorkerKeepsUnreconciled(cfg: Config, s: State, step: Step, k: nat)
    requires Enabled(cfg, s, step) && (step.StartWorker? || step.Finish?)
    requires k in s.tasks && Unreconciled(s.tasks[k])
    ensures var s' := Exec(cfg, s, step); k in s'.tasks && Unreconciled(s'.tasks[k])
  {
    hide Selected, PoolWorkers, NewlyEnded, ReplyFits, ValidationGroupReady, IsOwner;
  }

  lemma StepKeepsUnreconciled(cfg: Config, s: State, step: Step, k: nat)
    requires k in s.tasks && Unreconciled(s.tasks[k]) && !ReadsOwnStatus(s, step, k)
    ensures var s' := Exec(cfg, s, step); k in s'.tasks && Unreconciled(s'.tasks[k])
  {
    hide Unreconciled, ReadsOwnStatus;
    if !Enabled(cfg, s, step) {
    } else if step.Apply? {
      AppliedKeepsUnreconciled(cfg, s, step.task, step.ctx, k);
    } else if step.Expand? {
      ExpansionInserts(s.tasks, s.clients[step.clientTaskId], step.clientTaskId, step.repeats, step.now);
    } else if step.Recover? || step.AbortCommit? {
      RewriteKeepsUnreconciled(cfg, s, step, k);
    } else if step.StartWorker? || step.Finish? {
      WorkerKeepsUnreconciled(cfg, s, step, k);
    }
  }

  lemma UnreconciledIsOnlySynced(cfg: Config, s: State, step: Step, k: nat)
    requires k in s.tasks && Unreconciled(s.tasks[k]) && Enabled(cfg, s, step) && step.StartWorker? && k in step.rows
    ensures step.op == OpSync
  {
  }

  /** From then on, through any number of failed queries, other answers, crashes and aborts, the row
      stays unreconciled and is dispatched only for status queries, until an answer to one of its own
      status queries is applied. */
  lemma {:induction false} LostValidationIsReconciledFirst(cfg: Config, s: State, steps: seq<Step>, k: nat)
    requires k in s.tasks && Unreconciled(s.tasks[k])
    requires forall i {:trigger steps[i]} | 0 <= i < |steps| :: !ReadsOwnStatus(Run(cfg, s, steps[..i]), steps[i], k)
    ensures var s' := Run(cfg, s, steps);
            && k in s'.tasks && Unreconciled(s'.tasks[k])
            && forall step: Step | Enabled(cfg, s', step) && step.StartWorker? && k in step.rows :: step.op == OpSync
  {
    if steps != [] {
      var last := |steps| - 1;
      var init := steps[..last];
      forall i | 0 <= i < |init|
        ensures !ReadsOwnStatus(Run(cfg, s, init[..i]), init[i], k)
      {
        assert init[..i] == steps[..i] && init[i] == steps[i];
      }
      LostValidationIsReconciledFirst(cfg, s, init, k);
      var mid := Run(cfg, s, init);
      assert !ReadsOwnStatus(mid, steps[last], k);
      hide Exec, Enabled, ReadsOwnStatus, Unreconciled;
      StepKeepsUnreconciled(cfg, mid, steps[last], k);
      assert Run(cfg, s, steps) == Exec(cfg, mid, steps[last]);
    }
    hide Run, Enabled, Unreconciled;
    var s' := Run(cfg, s, steps);
    forall step: Step | Enabled(cfg, s', step) && step.StartWorker? && k in step.rows
      ensures step.op == OpSync
    {
      UnreconciledIsOnlySynced(cfg, s', step, k);
    }
  }
}
