/** What one applied operation changes: its own row, flags and statuses of its TaskID siblings, and
    at most two inserted members. Every other row is untouched. */
module ApplyEffect {
  import opened Wrappers
  import opened Models
  import opened Config
  import opened Progression
  import opened StateMachine

  /** The permanently refused validation, which aborts the whole group. */
  predicate Rejects(t: InferenceTask) {
    && t.slot.status == SlotCompleted && t.slot.op == OpValidate && t.slot.reply.OutcomeReply?
    && t.slot.reply.outcome != OutcomeValidated && t.slot.reply.outcome != OutcomeAlreadyApplied
    && t.slot.reply.outcome != OutcomeTemporaryError
  }

  /** The row that held the operation, as the operation writes it; VRF data and slot aside. */
  function WrittenRow(cfg: Config, t: InferenceTask, ctx: Context): (r: InferenceTask)
    ensures r.spec == t.spec && r.commitment == t.commitment && r.vrf == t.vrf
  {
    if t.slot.status == SlotFailed then
      t.(retries := t.retries + 1, nextActionAt := ctx.now + cfg.retryInterval,
         relayChecked := t.relayChecked && !(t.unknown && t.slot.op == OpValidate))
    else if t.slot.op == OpSync && t.slot.reply.StatusReply? then SyncedRow(cfg, t, t.slot.reply.item, ctx)
    else if t.slot.op == OpCreate && t.slot.reply.OutcomeReply? then CreateEffect(cfg, t, t.slot.reply.outcome, ctx.now)
    else if t.slot.op == OpValidate && t.slot.reply.OutcomeReply? then ValidatedRow(cfg, t, t.slot.reply.outcome, ctx.now)
    else if t.slot.op == OpCancel then CancelEffect(t, ctx.now)
    else if t.slot.op == OpResult then ResultEffect(t, ctx.now)
    else t
  }

  /** The owner of a validation, once its outcome is applied. */
  function ValidatedRow(cfg: Config, t: InferenceTask, o: Outcome, now: int): InferenceTask {
    if ValidateAccepted(o) then t.(submitted := true, nextActionAt := now)
    else if o == OutcomeTemporaryError then t.(nextActionAt := now + cfg.retryInterval)
    else t.(status := EndAborted, nextActionAt := now)
  }

  function OwnRow(cfg: Config, t: InferenceTask, ctx: Context): (r: InferenceTask)
    ensures r.spec == t.spec && r.commitment == t.commitment && r.vrf == t.vrf && r.slot == EMPTY_SLOT
  {
    WrittenRow(cfg, t, ctx).(slot := EMPTY_SLOT)
  }

  /** What anything but an applied status answer does to the row: a status only changes to Created,
      EndAborted or ResultDownloaded, and a cancellation flag is only ever cleared. */
  predicate Mutated(cfg: Config, t: InferenceTask, r: InferenceTask, now: int) {
    && r.spec == t.spec && r.commitment == t.commitment && r.vrf == t.vrf && r.slot == EMPTY_SLOT
    && r.sequence == t.sequence && r.exec == t.exec
    && (r.cancelRequired ==> t.cancelRequired)
    && (|| r.status == t.status || r.status == EndAborted
        || (t.slot.op == OpCreate && r.status == Created)
        || (t.slot.op == OpResult && r.status == ResultDownloaded))
    && (r.nextActionAt == now || r.nextActionAt == now + cfg.retryInterval || r.nextActionAt == t.nextActionAt)
  }

  lemma MutatedByFailure(cfg: Config, t: InferenceTask, ctx: Context)
    requires t.slot.status == SlotFailed
    ensures Mutated(cfg, t, OwnRow(cfg, t, ctx), ctx.now)
  {
    hide SyncedRow, CreateEffect, CancelEffect, ResultEffect, ValidatedRow;
  }

  lemma MutatedByCreate(cfg: Config, t: InferenceTask, o: Outcome, now: int)
    requires t.slot.op == OpCreate
    ensures Mutated(cfg, t, CreateEffect(cfg, t, o, now).(slot := EMPTY_SLOT), now)
  {
  }

  lemma MutatedByValidate(cfg: Config, t: InferenceTask, o: Outcome, now: int)
    ensures Mutated(cfg, t, ValidatedRow(cfg, t, o, now).(slot := EMPTY_SLOT), now)
  {
  }

  lemma MutatedRow(cfg: Config, t: InferenceTask, ctx: Context)
    requires t.slot.status == SlotCompleted || t.slot.status == SlotFailed
    requires t.slot.status == SlotCompleted ==> t.slot.op != OpSync
    ensures Mutated(cfg, t, OwnRow(cfg, t, ctx), ctx.now)
  {
    if t.slot.status == SlotFailed {
      MutatedByFailure(cfg, t, ctx);
    } else {
      hide SyncedRow, CreateEffect, ValidatedRow;
      if t.slot.op == OpCreate && t.slot.reply.OutcomeReply? {
        MutatedByCreate(cfg, t, t.slot.reply.outcome, ctx.now);
        assert OwnRow(cfg, t, ctx) == CreateEffect(cfg, t, t.slot.reply.outcome, ctx.now).(slot := EMPTY_SLOT);
      } else if t.slot.op == OpValidate && t.slot.reply.OutcomeReply? {
        MutatedByValidate(cfg, t, t.slot.reply.outcome, ctx.now);
        assert OwnRow(cfg, t, ctx) == ValidatedRow(cfg, t, t.slot.reply.outcome, ctx.now).(slot := EMPTY_SLOT);
      } else {
        assert Mutated(cfg, t, OwnRow(cfg, t, ctx), ctx.now);
      }
    }
    hide OwnRow, Mutated;
  }

  /** The change a TaskID sibling may see. */
  predicate SiblingChange(own: InferenceTask, o: InferenceTask, n: InferenceTask, now: int) {
    && n.spec == o.spec && n.commitment == o.commitment && n.vrf == o.vrf && n.slot == o.slot
    && n.sequence == o.sequence && n.exec == o.exec && n.abortReason == o.abortReason
    && n.unknown == o.unknown && n.relayFound == o.relayFound && n.retries == o.retries
    && n.status == (if Rejects(own) then EndAborted else o.status)
    && (n.cancelRequired != o.cancelRequired ==> n.cancelRequired && !Terminal(n.status))
    && n.relayChecked == (o.relayChecked && !(own.slot.status == SlotFailed && own.unknown && own.slot.op == OpValidate))
    && (n.nextActionAt == o.nextActionAt || n.nextActionAt == now)
    && (o.submitted ==> n.submitted)
  }

  /** A member inserted for validation: a Pending row of the same group, client task, type and fee
      that carries the VRF data of the primary. It is flagged at once when the primary has ended. */
  predicate InsertedMember(primary: InferenceTask, n: InferenceTask, identity: Identity, now: int) {
    && n == NewTask(n.spec, identity.commitment, primary.vrf, now).(cancelRequired := n.cancelRequired)
    && n.spec == primary.spec.(taskArgs := n.spec.taskArgs, requiredGPU := n.spec.requiredGPU,
                               requiredGPUVram := n.spec.requiredGPUVram, createdAt := now)
  }

  /** The VRF data of the row after the answer, and when members are inserted. */
  predicate VrfChange(cfg: Config, groupSize: nat, o: InferenceTask, vrf: Vrf, ctx: Context, inserted: bool) {
    && (vrf != o.vrf ==>
          && o.slot.status == SlotCompleted && o.slot.op == OpSync && o.slot.reply.StatusReply?
          && LooksAtSeed(cfg, o, o.slot.reply.item, ctx)
          && o.vrf.seed == "" && vrf.seed != "" && vrf.seed == o.slot.reply.item.samplingSeed
          && cfg.prove(vrf.seed) == Some(VrfOutput(vrf.number, vrf.proof))
          && (VrfNeedValidation(vrf.number) ==> ExecutionAssigned(o.spec.taskType, o.slot.reply.item)))
    && (inserted <==> vrf != o.vrf && VrfNeedValidation(vrf.number) && groupSize == 1)
    && (o.slot.status == SlotCompleted && o.slot.op == OpSync && o.slot.reply.StatusReply?
          && LooksAtSeed(cfg, o, o.slot.reply.item, ctx)
        ==> (vrf.seed != "" <==> !DefersVrf(cfg, o, o.slot.reply.item)))
  }

  /** What happens to a row that was there before and does not hold the operation. */
  predicate OtherRow(a: Tasks, b: Tasks, id: nat, k: nat, now: int)
    requires id in a && k in a && k in b
  {
    if a[k].spec.taskId == a[id].spec.taskId then SiblingChange(a[id], a[k], b[k], now) else b[k] == a[k]
  }

  /** The rows that exist afterwards. */
  predicate KeysAfter(a: Tasks, b: Tasks, ctx: Context, inserted: bool) {
    b.Keys == (if inserted then a.Keys + {ctx.first.id, ctx.second.id} else a.Keys)
  }

  ghost predicate Applied(cfg: Config, a: Tasks, b: Tasks, id: nat, ctx: Context, inserted: bool)
    requires id in a
  {
    && KeysAfter(a, b, ctx, inserted)
    && b[id] == OwnRow(cfg, a[id], ctx).(vrf := b[id].vrf)
    && VrfChange(cfg, |Group(a, a[id].spec.taskId)|, a[id], b[id].vrf, ctx, inserted)
    && (forall k | k in a && k != id :: OtherRow(a, b, id, k, ctx.now))
    && (inserted ==>
          && InsertedMember(b[id], b[ctx.first.id], ctx.first, ctx.now)
          && InsertedMember(b[id], b[ctx.second.id], ctx.second, ctx.now))
  }

  predicate Applicable(a: Tasks, id: nat, ctx: Context) {
    && id in a
    && (a[id].slot.status == SlotCompleted || a[id].slot.status == SlotFailed)
    && FreshIdentity(a, ctx.first) && FreshIdentity(a, ctx.second)
    && ctx.first.id < ctx.second.id
  }

  // ---- Each branch has the effect ----

  lemma FlagRows(a: Tasks, b: Tasks, id: nat, now: int)
    requires id in a && a.Keys <= b.Keys
    requires forall k | k in a && k != id :: OtherRow(a, b, id, k, now)
    requires b[id].spec == a[id].spec
    ensures var c := ScheduleSiblingCancellation(b, id, now);
            forall k | k in a && k != id :: OtherRow(a, c, id, k, now)
  {
  }

  lemma SiblingCancellationEffect(cfg: Config, a: Tasks, b: Tasks, id: nat, ctx: Context, inserted: bool)
    requires Applicable(a, id, ctx) && Applied(cfg, a, b, id, ctx, inserted)
    ensures Applied(cfg, a, ScheduleSiblingCancellation(b, id, ctx.now), id, ctx, inserted)
  {
    hide OwnRow;
    FlagRows(a, b, id, ctx.now);
    if inserted {
      FlaggedMember(b[id], b[ctx.first.id], ctx.first, ctx.now);
      FlaggedMember(b[id], b[ctx.second.id], ctx.second, ctx.now);
    }
  }

  lemma FlaggedMember(primary: InferenceTask, n: InferenceTask, identity: Identity, now: int)
    requires InsertedMember(primary, n, identity, now)
    ensures InsertedMember(primary, n.(cancelRequired := true, nextActionAt := now), identity, now)
  {
  }

  lemma PersistEffect(cfg: Config, a: Tasks, id: nat, item: StatusItem, ctx: Context) returns (inserted: bool)
    requires Applicable(a, id, ctx)
    requires a[id].vrf.seed == "" && item.samplingSeed != ""
    requires PersistVrfAndMembers(cfg, a, id, item, ctx).Some?
    ensures var b := PersistVrfAndMembers(cfg, a, id, item, ctx).value;
            && KeysAfter(a, b, ctx, inserted)
            && b[id] == a[id].(vrf := b[id].vrf)
            && (forall k | k in a && k != id :: b[k] == a[k])
            && (b[id].vrf != a[id].vrf ==>
                  && b[id].vrf.seed == item.samplingSeed
                  && cfg.prove(item.samplingSeed) == Some(VrfOutput(b[id].vrf.number, b[id].vrf.proof))
                  && (VrfNeedValidation(b[id].vrf.number) ==> ExecutionAssigned(a[id].spec.taskType, item)))
            && (inserted <==> b[id].vrf != a[id].vrf && VrfNeedValidation(b[id].vrf.number) && |Group(a, a[id].spec.taskId)| == 1)
            && (b[id].vrf.seed != "" <==> !DefersVrf(cfg, a[id], item))
            && (inserted ==>
                  && InsertedMember(b[id], b[ctx.first.id], ctx.first, ctx.now)
                  && InsertedMember(b[id], b[ctx.second.id], ctx.second, ctx.now))
  {
    hide ExecutionAssigned;
    var b := PersistVrfAndMembers(cfg, a, id, item, ctx).value;
    inserted := ctx.first.id in b;
    var t := a[id];
    assert forall v: Vrf :: Group(a[id := t.(vrf := v)], t.spec.taskId) == Group(a, t.spec.taskId);
  }

  /** An applied status answer rolls back: the engine looks at its seed, and persisting that fails. */
  predicate RollsBack(cfg: Config, a: Tasks, id: nat, ctx: Context)
    requires id in a && a[id].slot.reply.StatusReply?
  {
    var item := a[id].slot.reply.item;
    LooksAtSeed(cfg, a[id], item, ctx) && SeedFails(cfg, a[id], item, |Group(a, a[id].spec.taskId)| == 1)
  }

  lemma CommitsUnless(cfg: Config, a: Tasks, id: nat, ctx: Context)
    requires id in a && a[id].slot.op == OpSync && a[id].slot.reply.StatusReply?
    ensures OperationEffect(cfg, a, id, ctx).Some? <==> !RollsBack(cfg, a, id, ctx)
  {
    var t := a[id];
    var row := SyncedRow(cfg, t, t.slot.reply.item, ctx);
    hide SyncedRow, LooksAtSeed, VssMember;
    assert Group(a[id := row], t.spec.taskId) == Group(a, t.spec.taskId);
  }

  lemma SyncEffect(cfg: Config, a: Tasks, id: nat, ctx: Context) returns (inserted: bool)
    requires Applicable(a, id, ctx) && a[id].slot.status == SlotCompleted
    requires a[id].slot.op == OpSync && a[id].slot.reply.StatusReply?
    requires OperationEffect(cfg, a, id, ctx).Some?
    ensures Applied(cfg, a, ClearSlot(OperationEffect(cfg, a, id, ctx).value, id), id, ctx, inserted)
  {
    hide PersistVrfAndMembers, SyncedRow, CreateEffect, CancelEffect, ResultEffect, ValidatedRow;
    hide RelayStatusToLocal, StatusSyncNextActionAt, KeepsLocalAbort, HeartbeatQueuedTimedOut;
    var t := a[id];
    var item := t.slot.reply.item;
    var row := SyncedRow(cfg, t, item, ctx);
    var synced := a[id := row];
    assert row == WrittenRow(cfg, t, ctx);
    hide WrittenRow;
    assert Group(synced, t.spec.taskId) == Group(a, t.spec.taskId);
    inserted := false;
    if LooksAtSeed(cfg, t, item, ctx) {
      inserted := PersistEffect(cfg, synced, id, item, ctx);
    }
    var b := OperationEffect(cfg, a, id, ctx).value;
    assert b[id] == row.(vrf := b[id].vrf);
    SlotCleared(cfg, a, b, id, ctx, inserted);
  }

  /** Clearing the slot last does not disturb the effect. */
  lemma SlotCleared(cfg: Config, a: Tasks, b: Tasks, id: nat, ctx: Context, inserted: bool)
    requires Applicable(a, id, ctx) && KeysAfter(a, b, ctx, inserted)
    requires b[id] == WrittenRow(cfg, a[id], ctx).(vrf := b[id].vrf)
    requires VrfChange(cfg, |Group(a, a[id].spec.taskId)|, a[id], b[id].vrf, ctx, inserted)
    requires forall k | k in a && k != id :: OtherRow(a, b, id, k, ctx.now)
    requires inserted ==>
               && InsertedMember(b[id], b[ctx.first.id], ctx.first, ctx.now)
               && InsertedMember(b[id], b[ctx.second.id], ctx.second, ctx.now)
    ensures Applied(cfg, a, ClearSlot(b, id), id, ctx, inserted)
  {
    hide WrittenRow, VrfChange;
  }

  lemma ValidateEffectRows(cfg: Config, a: Tasks, id: nat, o: Outcome, ctx: Context)
    requires id in a && a[id].slot == Slot(OpValidate, SlotCompleted, OutcomeReply(o))
    ensures var b := ValidateEffect(cfg, a, id, o, ctx.now);
            && b.Keys == a.Keys
            && b[id] == WrittenRow(cfg, a[id], ctx)
            && forall k | k in a && k != id :: OtherRow(a, b, id, k, ctx.now)
  {
    hide SyncedRow, CreateEffect, CancelEffect, ResultEffect;
  }

  lemma MutationEffect(cfg: Config, a: Tasks, id: nat, ctx: Context)
    requires Applicable(a, id, ctx) && a[id].slot.status == SlotCompleted && a[id].slot.op != OpSync
    requires OperationEffect(cfg, a, id, ctx).Some?
    ensures Applied(cfg, a, ClearSlot(OperationEffect(cfg, a, id, ctx).value, id), id, ctx, false)
  {
    var t := a[id];
    hide ApplyRelayStatus, SyncedRow, CreateEffect, CancelEffect, ResultEffect, ValidateEffect, ValidatedRow;
    if t.slot.op == OpValidate {
      ValidateEffectRows(cfg, a, id, t.slot.reply.outcome, ctx);
    } else {
      assert OperationEffect(cfg, a, id, ctx).value == a[id := WrittenRow(cfg, t, ctx)];
    }
    hide WrittenRow;
    SlotCleared(cfg, a, OperationEffect(cfg, a, id, ctx).value, id, ctx, false);
  }

  lemma FailedEffect(cfg: Config, a: Tasks, id: nat, ctx: Context)
    requires Applicable(a, id, ctx) && a[id].slot.status == SlotFailed
    ensures Applied(cfg, a, FailureEffect(cfg, a, id, ctx.now), id, ctx, false)
  {
    hide SyncedRow, CreateEffect, CancelEffect, ResultEffect, ValidatedRow;
    var b := FailureEffect(cfg, a, id, ctx.now);
    assert b[id] == OwnRow(cfg, a[id], ctx);
    hide OwnRow, WrittenRow;
  }

  /** The row's operation was answered with one of two outcomes. */
  predicate Answers(t: InferenceTask, op: Operation, first: Outcome, second: Outcome) {
    t.slot.op == op && (t.slot.reply == OutcomeReply(first) || t.slot.reply == OutcomeReply(second))
  }

  /** What an applied creation, validation, cancellation or download may do to a row that was there. */
  predicate MutatesRow(a: Tasks, id: nat, k: nat, n: InferenceTask)
    requires id in a && k in a
  {
    var o := a[k];
    && n.spec == o.spec && n.commitment == o.commitment && n.vrf == o.vrf && n.slot == o.slot
    && (o.spec.taskId != a[id].spec.taskId ==> n == o)
    && (n.cancelRequired ==> o.cancelRequired)
    && (o.spec.taskId == a[id].spec.taskId && Rejects(a[id]) ==> n.status == EndAborted)
    && (o.spec.taskId == a[id].spec.taskId && Answers(a[id], OpValidate, OutcomeValidated, OutcomeAlreadyApplied) ==>
          n == o.(submitted := true, nextActionAt := n.nextActionAt))
    && (k == id && Answers(a[id], OpCreate, OutcomeCreated, OutcomeAlreadyExists) ==> n.status == Created && n.relayFound)
    && (k == id && a[id].slot.op == OpCreate && !Answers(a[id], OpCreate, OutcomeCreated, OutcomeAlreadyExists) ==>
          n.status == if a[id].slot.reply == OutcomeReply(OutcomeTemporaryError) then o.status else EndAborted)
    && (k == id && a[id].slot.op == OpResult ==> n.status == ResultDownloaded)
    && (k == id && a[id].slot.op == OpCancel ==> n.status == o.status && !n.cancelRequired)
    && (n.status != o.status ==>
          || Rejects(a[id])
          || (k == id && a[id].slot.op == OpCreate && (n.status == Created || n.status == EndAborted))
          || (k == id && a[id].slot.op == OpResult && n.status == ResultDownloaded))
  }

  /** A mutation's answer inserts no row and stays in its group. A validation accepted now or before marks
      every member submitted and changes nothing else; one refused for good aborts every member; a creation
      leaves its row Created, as it was, or aborted; a download is recorded. No answer sets a cancellation
      flag, and no other row changes its status. */
  lemma MutationIsLocal(cfg: Config, a: Tasks, id: nat, ctx: Context)
    requires id in a && a[id].slot.status == SlotCompleted && a[id].slot.op != OpSync
    requires OperationEffect(cfg, a, id, ctx).Some?
    ensures var b := OperationEffect(cfg, a, id, ctx).value;
            b.Keys == a.Keys && forall k | k in a :: MutatesRow(a, id, k, b[k])
  {
    hide ApplyRelayStatus;
    if a[id].slot.op == OpValidate {
      hide MutatesRow, CreateEffect, CancelEffect, ResultEffect;
      ValidateIsLocal(cfg, a, id, a[id].slot.reply.outcome, ctx.now);
    } else {
      hide ValidateEffect;
      var b := OperationEffect(cfg, a, id, ctx).value;
      assert b == a[id := b[id]] && MutatesRow(a, id, id, b[id]);
      hide OperationEffect;
    }
  }

  lemma ValidateIsLocal(cfg: Config, a: Tasks, id: nat, o: Outcome, now: int)
    requires id in a && a[id].slot == Slot(OpValidate, SlotCompleted, OutcomeReply(o))
    ensures var b := ValidateEffect(cfg, a, id, o, now); b.Keys == a.Keys && forall k | k in a :: MutatesRow(a, id, k, b[k])
  {
    var b := ValidateEffect(cfg, a, id, o, now);
    assert b.Keys == a.Keys;
    hide *;
    forall k | k in a
      ensures MutatesRow(a, id, k, b[k])
    {
      ValidateMutatesRow(cfg, a, id, o, now, k);
    }
  }

  lemma ValidateMutatesRow(cfg: Config, a: Tasks, id: nat, o: Outcome, now: int, k: nat)
    requires id in a && k in a && a[id].slot == Slot(OpValidate, SlotCompleted, OutcomeReply(o))
    requires ValidateEffect(cfg, a, id, o, now).Keys == a.Keys
    ensures MutatesRow(a, id, k, ValidateEffect(cfg, a, id, o, now)[k])
  {
    var t, n := a[k], ValidateEffect(cfg, a, id, o, now)[k];
    assert n == (if o == OutcomeTemporaryError then t.(nextActionAt := n.nextActionAt)
                 else if t.spec.taskId != a[id].spec.taskId then t
                 else if ValidateAccepted(o) then t.(submitted := true, nextActionAt := now)
                 else t.(status := EndAborted, nextActionAt := now));
    hide ValidateEffect;
  }

  /** What a failed operation may do to a row that was there. */
  predicate ReschedulesRow(cfg: Config, a: Tasks, id: nat, k: nat, n: InferenceTask, now: int)
    requires id in a && k in a
  {
    var t, o := a[id], a[k];
    var unsure := t.unknown && t.slot.op == OpValidate && o.spec.taskId == t.spec.taskId;
    && n == o.(slot := n.slot, retries := n.retries, nextActionAt := n.nextActionAt, relayChecked := n.relayChecked)
    && n.relayChecked == (o.relayChecked && !unsure)
    && (k == id ==> n.slot == EMPTY_SLOT && n.retries == o.retries + 1 && n.nextActionAt == now + cfg.retryInterval)
    && (k != id ==> n.slot == o.slot && n.retries == o.retries && n.nextActionAt == if unsure then now else o.nextActionAt)
  }

  /** A failed operation changes no status, flag, identity or VRF data: it frees its own slot, counts a
      retry and waits for the retry interval; and only the loss of a validation touches other rows,
      those of its group, which must ask Relay again, at once. */
  lemma FailureOnlyReschedules(cfg: Config, a: Tasks, id: nat, now: int)
    requires id in a
    ensures var b := FailureEffect(cfg, a, id, now);
            b.Keys == a.Keys && forall k | k in a :: ReschedulesRow(cfg, a, id, k, b[k], now)
  {
    var b := FailureEffect(cfg, a, id, now);
    forall k | k in a
      ensures ReschedulesRow(cfg, a, id, k, b[k], now)
    {
    }
  }

  /** An applied operation either rolls back or has exactly the effect above; on success the client
      task of the row, and no other, has been recalculated on the new rows. */
  lemma ApplyStepEffect(cfg: Config, s: State, id: nat, ctx: Context) returns (applied: bool, inserted: bool)
    requires Applicable(s.tasks, id, ctx)
    ensures var s' := ApplyStep(cfg, s, id, ctx);
            var c := s.tasks[id].spec.clientTaskId;
            && s'.workers == s.workers && s'.relayEnded == s.relayEnded && s'.clock == ctx.now
            && (applied <==> s.tasks[id].slot.status == SlotFailed
                             || (OperationEffect(cfg, s.tasks, id, ctx).Some? && c in s.clients))
            && (if !applied then s'.tasks == s.tasks && s'.clients == s.clients
                else
                  && Applied(cfg, s.tasks, s'.tasks, id, ctx, inserted)
                  && (if s.tasks[id].slot.status == SlotFailed then s'.clients == s.clients
                      else c in s.clients && s'.clients == s.clients[c := Recalculated(s'.tasks, c, s.clients[c])]))
  {
    var t := s.tasks[id];
    inserted := false;
    if t.slot.status == SlotFailed {
      FailedEffect(cfg, s.tasks, id, ctx);
      applied := true;
    } else {
      var r := OperationEffect(cfg, s.tasks, id, ctx);
      applied := r.Some? && t.spec.clientTaskId in s.clients;
      if applied {
        if t.slot.op == OpSync {
          inserted := SyncEffect(cfg, s.tasks, id, ctx);
        } else {
          MutationEffect(cfg, s.tasks, id, ctx);
        }
        SiblingCancellationEffect(cfg, s.tasks, ClearSlot(r.value, id), id, ctx, inserted);
      }
    }
  }
}
