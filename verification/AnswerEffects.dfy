/** What an applied answer does to the rows, spelled out in statuses, outcomes and fields. The tables here
    are written independently of the rules the engine uses, and every theorem is about the step itself. */
module AnswerEffects {
  import opened Wrappers
  import opened Models
  import opened Config
  import opened Progression
  import opened Dispatch
  import opened StateMachine
  import opened GroupInvariant
  import opened SlotInvariant
  import opened ClientInvariant
  import opened Invariant
  import ApplyEffect

  // ---- Tables ----

  /** The local status each Relay status stands for. */
  predicate StandsFor(chain: ChainTaskStatus, local: TaskStatus) {
    || (chain == ChainQueued && local == Created)
    || (chain == ChainStarted && local == Started)
    || (chain == ChainParametersUploaded && local == ParamsUploaded)
    || (chain == ChainScoreReady && local == ScoreReady)
    || (chain == ChainErrorReported && local == ErrorReported)
    || ((chain == ChainValidated || chain == ChainGroupValidated) && local == Validated)
    || (chain == ChainEndAborted && local == EndAborted)
    || (chain == ChainEndInvalidated && local == EndInvalidated)
    || (chain == ChainEndGroupRefund && local == EndGroupRefund)
    || ((chain == ChainEndSuccess || chain == ChainEndGroupSuccess) && local == EndSuccess)
  }

  /** Relay will say nothing new about a task with this status. */
  predicate IsFinal(chain: ChainTaskStatus) {
    chain !in {ChainQueued, ChainStarted, ChainParametersUploaded, ChainErrorReported, ChainScoreReady, ChainValidated, ChainGroupValidated}
  }

  /** The row's stage is over on Relay. */
  predicate IsOver(local: TaskStatus) {
    local !in {Pending, Created, Started, ParamsUploaded, ScoreReady, ErrorReported, Validated}
  }

  /** The members of the row's group. */
  function Companions(tasks: Tasks, k: nat): set<nat>
    requires k in tasks
  {
    set j | j in tasks && tasks[j].spec.taskId == tasks[k].spec.taskId
  }

  // ---- Siblings of an aborted member ----

  /** Another member of a group of three whose own member has just been left aborted, and that is not
      over itself. */
  predicate Caught(tasks: Tasks, k: nat, j: nat)
    requires k in tasks && j in tasks
  {
    && j != k && tasks[k].status == EndAborted && |Companions(tasks, k)| == 3 && j in Companions(tasks, k) && !IsOver(tasks[j].status)
  }

  /** The row as it was before its siblings' cancellation was considered. */
  predicate CaughtFrom(o: InferenceTask, n: InferenceTask, caught: bool, now: int) {
    n == if caught then o.(cancelRequired := true, nextActionAt := now) else o
  }

  lemma SiblingsCaught(tasks: Tasks, k: nat, now: int)
    requires k in tasks
    ensures var b := ScheduleSiblingCancellation(tasks, k, now);
            b.Keys == tasks.Keys && forall j | j in tasks :: b[j].status == tasks[j].status && CaughtFrom(tasks[j], b[j], Caught(b, k, j), now)
  {
    var b := ScheduleSiblingCancellation(tasks, k, now);
    assert Group(tasks, tasks[k].spec.taskId) == Companions(tasks, k);
    hide Group, Terminal;
    forall j | j in tasks
      ensures IsOver(tasks[j].status) <==> Terminal(tasks[j].status)
    {
      OverIsTerminal(tasks[j].status);
    }
    hide IsOver;
    SiblingSpecs(tasks, k, now);
    assert Companions(b, k) == Companions(tasks, k);
    hide Companions;
  }

  lemma OverIsTerminal(s: TaskStatus)
    ensures IsOver(s) <==> Terminal(s)
  {
  }

  lemma SiblingSpecs(tasks: Tasks, k: nat, now: int)
    requires k in tasks
    ensures var b := ScheduleSiblingCancellation(tasks, k, now);
            b.Keys == tasks.Keys && forall j | j in tasks :: b[j].spec == tasks[j].spec && b[j].status == tasks[j].status
  {
    hide Group, Terminal;
  }

  /** The rows once the operation's own effect is written and its slot freed. */
  predicate Follows(effect: Tasks, after: Tasks, k: nat, now: int)
    requires k in effect
  {
    && after.Keys == effect.Keys
    && forall j | j in effect ::
         CaughtFrom(if j == k then effect[j].(slot := EMPTY_SLOT) else effect[j], after[j], Caught(after, k, j), now)
  }

  lemma Committed(cfg: Config, s: State, k: nat, ctx: Context)
    requires Inv(cfg, s) && Enabled(cfg, s, Apply(k, ctx)) && s.tasks[k].slot.status == SlotCompleted
    requires OperationEffect(cfg, s.tasks, k, ctx).Some?
    ensures Follows(OperationEffect(cfg, s.tasks, k, ctx).value, Exec(cfg, s, Apply(k, ctx)).tasks, k, ctx.now)
  {
    assert k in s.tasks;
    OwnerIsKnown(cfg, s, k);
    hide Inv, OperationEffect, Recalculated, ScheduleSiblingCancellation, Caught;
    var cleared := ClearSlot(OperationEffect(cfg, s.tasks, k, ctx).value, k);
    assert Exec(cfg, s, Apply(k, ctx)).tasks == ScheduleSiblingCancellation(cleared, k, ctx.now);
    hide Exec, Enabled;
    SiblingsCaught(cleared, k, ctx.now);
  }

  lemma Completed(cfg: Config, s: State, k: nat, ctx: Context)
    requires Inv(cfg, s) && Enabled(cfg, s, Apply(k, ctx)) && s.tasks[k].slot.status == SlotCompleted
    ensures k in s.tasks
    ensures OperationEffect(cfg, s.tasks, k, ctx).Some? ==>
              Follows(OperationEffect(cfg, s.tasks, k, ctx).value, Exec(cfg, s, Apply(k, ctx)).tasks, k, ctx.now)
  {
    assert k in s.tasks;
    hide *;
    if OperationEffect(cfg, s.tasks, k, ctx).Some? { Committed(cfg, s, k, ctx); }
  }

  lemma OwnerIsKnown(cfg: Config, s: State, k: nat)
    requires Inv(cfg, s) && k in s.tasks
    ensures s.tasks[k].spec.clientTaskId in s.clients
  {
    hide GroupsOk, RowsOk, WorkersOk, PoolsOk;
    assert OwnerOk(s.clients, s.tasks[k]);
  }

  // ---- Creation, cancellation, download ----

  /** A creation: accepted when Relay has the task, tried again on a temporary error, and given up on any
      other outcome; only the row itself changes, and the siblings an abort catches. */
  lemma CreationApplied(cfg: Config, s: State, k: nat, ctx: Context, outcome: Outcome)
    requires Inv(cfg, s) && Enabled(cfg, s, Apply(k, ctx)) && s.tasks[k].slot == Slot(OpCreate, SlotCompleted, OutcomeReply(outcome))
    ensures var t := s.tasks[k].(slot := EMPTY_SLOT);
            var after := Exec(cfg, s, Apply(k, ctx)).tasks;
            && after.Keys == s.tasks.Keys
            && after[k] == (if outcome == OutcomeCreated || outcome == OutcomeAlreadyExists then
                              t.(status := Created, relayChecked := true, relayFound := true, unknown := false, nextActionAt := ctx.now)
                            else if outcome == OutcomeTemporaryError then t.(nextActionAt := ctx.now + cfg.retryInterval)
                            else t.(status := EndAborted, abortReason := CreatorCancelled, nextActionAt := ctx.now))
            && forall j | j in s.tasks && j != k :: CaughtFrom(s.tasks[j], after[j], Caught(after, k, j), ctx.now)
  {
    hide *;
    Completed(cfg, s, k, ctx);
    CreationRows(cfg, s.tasks, k, ctx, outcome, Exec(cfg, s, Apply(k, ctx)).tasks);
  }

  lemma CreationRows(cfg: Config, a: Tasks, k: nat, ctx: Context, outcome: Outcome, after: Tasks)
    requires k in a && a[k].slot == Slot(OpCreate, SlotCompleted, OutcomeReply(outcome))
    requires OperationEffect(cfg, a, k, ctx).Some? ==> Follows(OperationEffect(cfg, a, k, ctx).value, after, k, ctx.now)
    ensures var t := a[k].(slot := EMPTY_SLOT);
            && after.Keys == a.Keys
            && after[k] == (if outcome == OutcomeCreated || outcome == OutcomeAlreadyExists then
                              t.(status := Created, relayChecked := true, relayFound := true, unknown := false, nextActionAt := ctx.now)
                            else if outcome == OutcomeTemporaryError then t.(nextActionAt := ctx.now + cfg.retryInterval)
                            else t.(status := EndAborted, abortReason := CreatorCancelled, nextActionAt := ctx.now))
            && forall j | j in a && j != k :: CaughtFrom(a[j], after[j], Caught(after, k, j), ctx.now)
  {
    hide Caught;
    assert OperationEffect(cfg, a, k, ctx) == Some(a[k := CreateEffect(cfg, a[k], outcome, ctx.now)]);
    hide OperationEffect;
    NotOwn(after, k);
  }

  /** A cancellation: whatever the outcome, the row no longer owes one, and an aborted row is the
      creator's. */
  lemma CancellationApplied(cfg: Config, s: State, k: nat, ctx: Context)
    requires Inv(cfg, s) && Enabled(cfg, s, Apply(k, ctx)) && s.tasks[k].slot.op == OpCancel && s.tasks[k].slot.status == SlotCompleted
    ensures var t := s.tasks[k].(slot := EMPTY_SLOT, cancelRequired := false, nextActionAt := ctx.now);
            var after := Exec(cfg, s, Apply(k, ctx)).tasks;
            && after.Keys == s.tasks.Keys
            && after[k] == (if t.status == EndAborted then t.(abortReason := CreatorCancelled) else t)
            && forall j | j in s.tasks && j != k :: CaughtFrom(s.tasks[j], after[j], Caught(after, k, j), ctx.now)
  {
    hide *;
    Completed(cfg, s, k, ctx);
    CancellationRows(cfg, s.tasks, k, ctx, Exec(cfg, s, Apply(k, ctx)).tasks);
  }

  lemma CancellationRows(cfg: Config, a: Tasks, k: nat, ctx: Context, after: Tasks)
    requires k in a && a[k].slot.op == OpCancel
    requires OperationEffect(cfg, a, k, ctx).Some? ==> Follows(OperationEffect(cfg, a, k, ctx).value, after, k, ctx.now)
    ensures var t := a[k].(slot := EMPTY_SLOT, cancelRequired := false, nextActionAt := ctx.now);
            && after.Keys == a.Keys
            && after[k] == (if t.status == EndAborted then t.(abortReason := CreatorCancelled) else t)
            && forall j | j in a && j != k :: CaughtFrom(a[j], after[j], Caught(after, k, j), ctx.now)
  {
    hide Caught;
    assert OperationEffect(cfg, a, k, ctx) == Some(a[k := CancelEffect(a[k], ctx.now)]);
    hide OperationEffect;
    NotOwn(after, k);
  }

  /** A download: the row has its result, and no other row changes. */
  lemma DownloadApplied(cfg: Config, s: State, k: nat, ctx: Context)
    requires Inv(cfg, s) && Enabled(cfg, s, Apply(k, ctx)) && s.tasks[k].slot.op == OpResult && s.tasks[k].slot.status == SlotCompleted
    ensures Exec(cfg, s, Apply(k, ctx)).tasks ==
            s.tasks[k := s.tasks[k].(slot := EMPTY_SLOT, status := ResultDownloaded, nextActionAt := ctx.now)]
  {
    hide *;
    Completed(cfg, s, k, ctx);
    DownloadRows(cfg, s.tasks, k, ctx, Exec(cfg, s, Apply(k, ctx)).tasks);
  }

  lemma DownloadRows(cfg: Config, a: Tasks, k: nat, ctx: Context, after: Tasks)
    requires k in a && a[k].slot.op == OpResult
    requires OperationEffect(cfg, a, k, ctx).Some? ==> Follows(OperationEffect(cfg, a, k, ctx).value, after, k, ctx.now)
    ensures after == a[k := a[k].(slot := EMPTY_SLOT, status := ResultDownloaded, nextActionAt := ctx.now)]
  {
    hide Caught;
    assert OperationEffect(cfg, a, k, ctx) == Some(a[k := ResultEffect(a[k], ctx.now)]);
    hide OperationEffect;
    hide Companions, FreshIdentity;
    NotOwn(after, k);
    var n := a[k].(slot := EMPTY_SLOT, status := ResultDownloaded, nextActionAt := ctx.now);
    assert after[k] == n;
    OnlyAbortsCatch(after, k);
    hide ResultEffect;
    assert forall j | j in a && j != k :: after[j] == a[j];
    hide *;
    OneRow(a, after, k, n);
  }

  lemma OneRow(a: Tasks, after: Tasks, k: nat, n: InferenceTask)
    requires k in a && after.Keys == a.Keys && after[k] == n && forall j | j in a && j != k :: after[j] == a[j]
    ensures after == a[k := n]
  {
  }

  lemma OnlyAbortsCatch(after: Tasks, k: nat)
    requires k in after && after[k].status != EndAborted
    ensures forall j | j in after :: !Caught(after, k, j)
  {
  }

  // ---- Validation ----

  /** The row a validation's outcome leaves, its siblings' cancellation aside. */
  function AfterValidation(cfg: Config, t: InferenceTask, own: bool, outcome: Outcome, now: int): InferenceTask {
    var u := if own then t.(slot := EMPTY_SLOT) else t;
    match outcome
    case OutcomeValidated => u.(submitted := true, nextActionAt := now)
    case OutcomeAlreadyApplied => u.(submitted := true, nextActionAt := now)
    case OutcomeTemporaryError => if own then u.(nextActionAt := now + cfg.retryInterval) else u
    case _ => u.(status := EndAborted, nextActionAt := now)
  }

  /** A validation: accepted, now or before, it marks the whole group submitted and due and changes no
      status; a temporary error makes its own row wait; any other outcome aborts the whole group. Rows
      outside the group are untouched. */
  lemma ValidationApplied(cfg: Config, s: State, k: nat, ctx: Context, outcome: Outcome)
    requires Inv(cfg, s) && Enabled(cfg, s, Apply(k, ctx)) && s.tasks[k].slot == Slot(OpValidate, SlotCompleted, OutcomeReply(outcome))
    ensures var after := Exec(cfg, s, Apply(k, ctx)).tasks;
            && after.Keys == s.tasks.Keys
            && (forall j | j in s.tasks && j !in Companions(s.tasks, k) :: after[j] == s.tasks[j])
            && (forall j | j in Companions(s.tasks, k) ::
                  CaughtFrom(AfterValidation(cfg, s.tasks[j], j == k, outcome, ctx.now), after[j], Caught(after, k, j), ctx.now))
            && ((outcome == OutcomeValidated || outcome == OutcomeAlreadyApplied) ==>
                  forall j | j in Companions(s.tasks, k) ::
                    after[j].submitted && after[j].nextActionAt == ctx.now && after[j].status == s.tasks[j].status)
            && (outcome !in {OutcomeValidated, OutcomeAlreadyApplied, OutcomeTemporaryError} ==>
                  forall j | j in Companions(s.tasks, k) :: after[j].status == EndAborted)
  {
    assert k in s.tasks;
    hide Inv, Exec, OperationEffect, ValidateEffect, AfterValidation, Companions, Caught;
    ValidationEffect(cfg, s.tasks, k, ctx, outcome);
    Committed(cfg, s, k, ctx);
    hide Enabled;
    var after := Exec(cfg, s, Apply(k, ctx)).tasks;
    ValidationFollows(cfg, s.tasks, ValidateEffect(cfg, s.tasks, k, outcome, ctx.now), k, ctx.now, outcome, after);
    ValidationStatuses(cfg, s.tasks, k, outcome, ctx.now, after);
  }

  lemma ValidationEffect(cfg: Config, a: Tasks, k: nat, ctx: Context, outcome: Outcome)
    requires k in a && a[k].slot == Slot(OpValidate, SlotCompleted, OutcomeReply(outcome))
    ensures var effect := ValidateEffect(cfg, a, k, outcome, ctx.now);
            && OperationEffect(cfg, a, k, ctx) == Some(effect) && effect.Keys == a.Keys
            && forall j | j in a ::
                 (if j == k then effect[j].(slot := EMPTY_SLOT) else effect[j]) ==
                 if j in Companions(a, k) then AfterValidation(cfg, a[j], j == k, outcome, ctx.now) else a[j]
  {
    assert OperationEffect(cfg, a, k, ctx) == Some(ValidateEffect(cfg, a, k, outcome, ctx.now));
    hide *;
    forall j | j in a
      ensures var effect := ValidateEffect(cfg, a, k, outcome, ctx.now);
              && effect.Keys == a.Keys
              && (if j == k then effect[j].(slot := EMPTY_SLOT) else effect[j]) ==
                 if j in Companions(a, k) then AfterValidation(cfg, a[j], j == k, outcome, ctx.now) else a[j]
    {
      OutcomeAt(cfg, a, k, ctx.now, outcome, j);
    }
    OutcomeAt(cfg, a, k, ctx.now, outcome, k);
  }

  lemma OutcomeAt(cfg: Config, a: Tasks, k: nat, now: int, outcome: Outcome, j: nat)
    requires k in a && j in a
    ensures var effect := ValidateEffect(cfg, a, k, outcome, now);
            && effect.Keys == a.Keys
            && (if j == k then effect[j].(slot := EMPTY_SLOT) else effect[j]) ==
               if j in Companions(a, k) then AfterValidation(cfg, a[j], j == k, outcome, now) else a[j]
  {
    var effect := ValidateEffect(cfg, a, k, outcome, now);
    assert j in Companions(a, k) <==> a[j].spec.taskId == a[k].spec.taskId;
    assert k in Companions(a, k);
    hide Companions;
    assert effect.Keys == a.Keys;
    assert effect[j] == (if outcome == OutcomeTemporaryError then (if j == k then a[j].(nextActionAt := now + cfg.retryInterval) else a[j])
                         else if j !in Companions(a, k) then a[j]
                         else if ValidateAccepted(outcome) then a[j].(submitted := true, nextActionAt := now)
                         else a[j].(status := EndAborted, nextActionAt := now));
    hide ValidateEffect;
  }

  lemma ValidationFollows(cfg: Config, a: Tasks, effect: Tasks, k: nat, now: int, outcome: Outcome, after: Tasks)
    requires k in a && effect.Keys == a.Keys && Follows(effect, after, k, now)
    requires forall j | j in a ::
               (if j == k then effect[j].(slot := EMPTY_SLOT) else effect[j]) ==
               if j in Companions(a, k) then AfterValidation(cfg, a[j], j == k, outcome, now) else a[j]
    ensures forall j | j in a && j !in Companions(a, k) :: after[j] == a[j]
    ensures forall j | j in Companions(a, k) ::
              CaughtFrom(AfterValidation(cfg, a[j], j == k, outcome, now), after[j], Caught(after, k, j), now)
  {
    forall j | j in a
      ensures after[j].spec == a[j].spec
    {
      SpecStays(cfg, a[j], j == k, outcome, now);
    }
    hide AfterValidation;
    assert Companions(after, k) == Companions(a, k);
    assert forall j | j in a && j !in Companions(a, k) :: !Caught(after, k, j);
    hide Caught, Companions;
  }

  lemma SpecStays(cfg: Config, t: InferenceTask, own: bool, outcome: Outcome, now: int)
    ensures AfterValidation(cfg, t, own, outcome, now).spec == t.spec
  {
  }

  lemma ValidationStatuses(cfg: Config, a: Tasks, k: nat, outcome: Outcome, now: int, after: Tasks)
    requires k in a && after.Keys == a.Keys
    requires forall j | j in Companions(a, k) ::
               CaughtFrom(AfterValidation(cfg, a[j], j == k, outcome, now), after[j], Caught(after, k, j), now)
    ensures (outcome == OutcomeValidated || outcome == OutcomeAlreadyApplied) ==>
              forall j | j in Companions(a, k) :: after[j].submitted && after[j].nextActionAt == now && after[j].status == a[j].status
    ensures outcome !in {OutcomeValidated, OutcomeAlreadyApplied, OutcomeTemporaryError} ==>
              forall j | j in Companions(a, k) :: after[j].status == EndAborted
  {
    hide Caught;
  }

  // ---- Status answers ----

  /** The stored status answer of a row, and how it is to be read. */
  predicate HoldsStatus(t: InferenceTask) {
    t.slot.op == OpSync && t.slot.status == SlotCompleted && t.slot.reply.StatusReply?
  }

  /** The row is a local abort that still owes a cancellation, and Relay has not ended the task. */
  predicate StaysAborted(t: InferenceTask, item: StatusItem) {
    item.found && t.status == EndAborted && t.cancelRequired && !IsFinal(item.status)
  }

  /** A submission of the heartbeat client has been queued on Relay for too long. */
  predicate QueuedTooLong(cfg: Config, t: InferenceTask, item: StatusItem, ctx: Context) {
    && item.found && item.status == ChainQueued && !StaysAborted(t, item)
    && cfg.heartbeatMaxQueuedDuration > 0 && ctx.heartbeatClient.Some? && t.spec.clientId == ctx.heartbeatClient.value
    && t.spec.createdAt + cfg.heartbeatMaxQueuedDuration <= ctx.now
  }

  /** The answer's own status is taken over. */
  predicate TakesStatus(cfg: Config, t: InferenceTask, item: StatusItem, ctx: Context) {
    item.found && !StaysAborted(t, item) && !QueuedTooLong(cfg, t, item, ctx)
  }

  /** The answer brings the first sampling seed. */
  predicate BringsSeed(cfg: Config, t: InferenceTask, item: StatusItem, ctx: Context) {
    TakesStatus(cfg, t, item, ctx) && t.vrf.seed == "" && item.samplingSeed != ""
  }

  /** One VRF number in a hundred selects. */
  predicate SelectsForThree(o: VrfOutput) {
    o.number / 100 * 100 == o.number
  }

  /** Relay has frozen the execution: the model files, and for a language task the GPU. */
  predicate Frozen(t: InferenceTask, item: StatusItem) {
    |item.modelFiles| > 0 && (t.spec.taskType == LLM ==> item.gpu != "")
  }

  /** The seed cannot be proved; or it selects a task that is alone, whose frozen execution gives
      arguments that cannot be pinned. */
  predicate SeedRefused(cfg: Config, t: InferenceTask, item: StatusItem, alone: bool) {
    match cfg.prove(item.samplingSeed)
    case None => true
    case Some(o) => alone && SelectsForThree(o) && Frozen(t, item) && cfg.pinArgs(t.spec.taskArgs, t.spec.taskType, item.modelFiles) == None
  }

  /** When the row is next due. */
  predicate DueAfterStatus(cfg: Config, local: TaskStatus, estimate: Option<int>, now: int, due: int) {
    if local in {ScoreReady, ErrorReported, EndSuccess} then due == now
    else if local !in {Started, ParamsUploaded} || estimate.None? then due == now + cfg.statusPollInterval
    else
      var target := estimate.value - cfg.executionPollAdvance;
      if target < now + cfg.scanInterval || cfg.maxExecutionPollInterval < cfg.scanInterval then due == now + cfg.executionOverrunPollInterval
      else if target <= now + cfg.maxExecutionPollInterval then due == target
      else due == now + cfg.maxExecutionPollInterval
  }

  /** The row after the answer, its VRF data aside. */
  predicate AfterStatus(cfg: Config, t: InferenceTask, item: StatusItem, ctx: Context, n: InferenceTask) {
    var heard := t.(slot := EMPTY_SLOT, vrf := n.vrf, relayChecked := true, relayFound := item.found, unknown := false);
    if !item.found then
      n == heard.(cancelRequired := false, nextActionAt := ctx.now, status := if t.status == Pending then Pending else EndAborted)
    else if StaysAborted(t, item) then n == heard.(nextActionAt := ctx.now)
    else if QueuedTooLong(cfg, t, item, ctx) then
      n == heard.(status := EndAborted, abortReason := CreatorCancelled, nextActionAt := ctx.now,
                  cancelRequired := t.cancelRequired || t.commitment != "")
    else
      && StandsFor(item.status, n.status)
      && DueAfterStatus(cfg, n.status, item.estimatedCompletionAt, ctx.now, n.nextActionAt)
      && n == heard.(status := n.status, nextActionAt := n.nextActionAt, abortReason := item.abortReason,
                     taskError := item.taskError, sequence := item.sequence,
                     cancelRequired := t.cancelRequired && item.status == ChainQueued,
                     exec := Execution(item.gpu, item.gpuVram, item.modelFiles, item.estimatedCompletionAt, item.resultAvailable))
  }

  /** The row's VRF data after an answer: written with the first seed, unless the seed selects a task whose
      execution is not frozen yet. */
  predicate VrfAfterStatus(cfg: Config, t: InferenceTask, item: StatusItem, ctx: Context, vrf: Vrf) {
    if !BringsSeed(cfg, t, item, ctx) then vrf == t.vrf
    else
      match cfg.prove(item.samplingSeed)
      case None => false
      case Some(o) =>
        if SelectsForThree(o) && !Frozen(t, item) then vrf == t.vrf else vrf == Vrf(item.samplingSeed, o.number, o.proof)
  }

  lemma SelectionAgrees(o: VrfOutput)
    ensures SelectsForThree(o) <==> VrfNeedValidation(o.number)
  {
  }

  lemma ReadingsAgree(cfg: Config, t: InferenceTask, item: StatusItem, ctx: Context, alone: bool)
    ensures StaysAborted(t, item) <==> item.found && KeepsLocalAbort(t, item)
    ensures QueuedTooLong(cfg, t, item, ctx) <==>
              item.found && !KeepsLocalAbort(t, item) && item.status == ChainQueued && HeartbeatQueuedTimedOut(cfg, t, ctx)
    ensures BringsSeed(cfg, t, item, ctx) <==> LooksAtSeed(cfg, t, item, ctx)
    ensures Frozen(t, item) <==> ExecutionAssigned(t.spec.taskType, item)
    ensures SeedRefused(cfg, t, item, alone) <==> SeedFails(cfg, t, item, alone)
    ensures cfg.prove(item.samplingSeed).Some? ==>
              (SelectsForThree(cfg.prove(item.samplingSeed).value) && !Frozen(t, item) <==> DefersVrf(cfg, t, item))
  {
    if cfg.prove(item.samplingSeed).Some? { SelectionAgrees(cfg.prove(item.samplingSeed).value); }
    hide SelectsForThree, VrfNeedValidation;
  }

  lemma SyncedAgrees(cfg: Config, t: InferenceTask, item: StatusItem, ctx: Context, vrf: Vrf)
    ensures AfterStatus(cfg, t, item, ctx, SyncedRow(cfg, t, item, ctx).(slot := EMPTY_SLOT, vrf := vrf))
  {
  }

  /** The answer inserts the two other members of a group. */
  predicate BringsTwo(cfg: Config, tasks: Tasks, k: nat, item: StatusItem, ctx: Context)
    requires k in tasks
  {
    && BringsSeed(cfg, tasks[k], item, ctx) && |Companions(tasks, k)| == 1 && Frozen(tasks[k], item)
    && cfg.prove(item.samplingSeed).Some? && SelectsForThree(cfg.prove(item.samplingSeed).value)
  }

  /** An inserted member: it is to run what the first member ran. Its arguments are the first member's with
      the revisions of the files Relay froze, and a language task must run on the very GPU. Everything
      Relay has not told us yet is blank. */
  predicate IsNewMember(cfg: Config, first: InferenceTask, item: StatusItem, identity: Identity, now: int, m: InferenceTask, caught: bool) {
    var pinned := cfg.pinArgs(first.spec.taskArgs, first.spec.taskType, item.modelFiles);
    && pinned.Some?
    && m.spec == TaskSpec(first.spec.clientId, first.spec.clientTaskId, first.spec.taskType, pinned.value, first.spec.taskFee,
                          if first.spec.taskType == LLM then item.gpu else first.spec.requiredGPU,
                          if first.spec.taskType == LLM then item.gpuVram else first.spec.requiredGPUVram,
                          first.spec.taskId, now)
    && m == InferenceTask(m.spec, identity.commitment, first.vrf, Pending, 0, ReasonNone, ErrorNone, Execution("", 0, [], None, false),
                          now, Slot(OpNone, SlotNone, NoReply), 0, false, false, false, false, caught)
  }

  /** The rows a status answer leaves, before its siblings' cancellation. */
  predicate StatusWritten(cfg: Config, a: Tasks, k: nat, item: StatusItem, ctx: Context, effect: Tasks)
    requires k in a
  {
    && k in effect
    && AfterStatus(cfg, a[k], item, ctx, effect[k].(slot := EMPTY_SLOT)) && VrfAfterStatus(cfg, a[k], item, ctx, effect[k].vrf)
    && effect.Keys == a.Keys + (if BringsTwo(cfg, a, k, item, ctx) then {ctx.first.id, ctx.second.id} else {})
    && (forall j | j in a && j != k :: effect[j] == a[j])
    && (BringsTwo(cfg, a, k, item, ctx) ==>
          && IsNewMember(cfg, effect[k], item, ctx.first, ctx.now, effect[ctx.first.id], false)
          && IsNewMember(cfg, effect[k], item, ctx.second, ctx.now, effect[ctx.second.id], false))
  }

  /** The keys the inserted rows would get are not taken. */
  predicate NewIds(a: Tasks, ctx: Context) {
    ctx.first.id !in a && ctx.second.id !in a && ctx.first.id != ctx.second.id
  }

  /** The rows once a seed is persisted. */
  predicate SeedWritten(cfg: Config, a: Tasks, k: nat, synced: InferenceTask, item: StatusItem, ctx: Context, effect: Tasks)
    requires k in a && cfg.prove(item.samplingSeed).Some?
  {
    var o := cfg.prove(item.samplingSeed).value;
    var two := |Companions(a, k)| == 1 && Frozen(a[k], item) && SelectsForThree(o);
    && effect.Keys == a.Keys + (if two then {ctx.first.id, ctx.second.id} else {})
    && (forall j | j in a && j != k :: effect[j] == a[j])
    && k in effect
    && effect[k] == synced.(vrf := if SelectsForThree(o) && !Frozen(a[k], item) then a[k].vrf else Vrf(item.samplingSeed, o.number, o.proof))
    && (two ==>
          && IsNewMember(cfg, effect[k], item, ctx.first, ctx.now, effect[ctx.first.id], false)
          && IsNewMember(cfg, effect[k], item, ctx.second, ctx.now, effect[ctx.second.id], false))
  }

  lemma SeedEffect(cfg: Config, a: Tasks, k: nat, synced: InferenceTask, item: StatusItem, ctx: Context)
    requires k in a && synced.spec == a[k].spec && synced.vrf == a[k].vrf && NewIds(a, ctx)
    ensures var effect := PersistVrfAndMembers(cfg, a[k := synced], k, item, ctx);
            if SeedRefused(cfg, a[k], item, |Companions(a, k)| == 1) then effect.None?
            else effect.Some? && cfg.prove(item.samplingSeed).Some? && SeedWritten(cfg, a, k, synced, item, ctx, effect.value)
  {
    if cfg.prove(item.samplingSeed).Some? { SelectionAgrees(cfg.prove(item.samplingSeed).value); }
    assert Frozen(a[k], item) <==> ExecutionAssigned(synced.spec.taskType, item);
    assert Group(a[k := synced], synced.spec.taskId) == Companions(a, k);
    hide SelectsForThree, Frozen, ExecutionAssigned, VrfNeedValidation, Companions, Group, VssMember, IsNewMember;
    forall vrf, pinned: string, i: Identity | cfg.pinArgs(a[k].spec.taskArgs, a[k].spec.taskType, item.modelFiles) == Some(pinned)
      ensures IsNewMember(cfg, synced.(vrf := vrf), item, i, ctx.now, VssMember(synced, item, vrf, pinned, i.commitment, ctx.now), false)
    {
      MemberIsNew(cfg, synced, item, vrf, pinned, i, ctx.now);
    }
  }

  lemma MemberIsNew(cfg: Config, t: InferenceTask, item: StatusItem, vrf: Vrf, pinned: string, i: Identity, now: int)
    requires cfg.pinArgs(t.spec.taskArgs, t.spec.taskType, item.modelFiles) == Some(pinned)
    ensures IsNewMember(cfg, t.(vrf := vrf), item, i, now, VssMember(t, item, vrf, pinned, i.commitment, now), false)
  {
  }

  lemma StatusEffect(cfg: Config, a: Tasks, k: nat, item: StatusItem, ctx: Context)
    requires k in a && NewIds(a, ctx)
    ensures var effect := ApplyRelayStatus(cfg, a, k, item, ctx);
            if BringsSeed(cfg, a[k], item, ctx) && SeedRefused(cfg, a[k], item, |Companions(a, k)| == 1) then effect.None?
            else effect.Some? && StatusWritten(cfg, a, k, item, ctx, effect.value)
  {
    var t := a[k];
    var synced := SyncedRow(cfg, t, item, ctx);
    ReadingsAgree(cfg, t, item, ctx, |Companions(a, k)| == 1);
    forall vrf
      ensures AfterStatus(cfg, t, item, ctx, synced.(slot := EMPTY_SLOT, vrf := vrf))
    {
      SyncedAgrees(cfg, t, item, ctx, vrf);
    }
    assert synced == synced.(vrf := t.vrf);
    hide AfterStatus, SyncedRow, LooksAtSeed, BringsSeed, SeedRefused, SelectsForThree, Frozen, Companions, PersistVrfAndMembers, IsNewMember;
    SeedEffect(cfg, a, k, synced, item, ctx);
  }

  /** The row that holds an applied status answer, and every other row, afterwards. */
  predicate StatusFollows(cfg: Config, a: Tasks, k: nat, item: StatusItem, ctx: Context, after: Tasks)
    requires k in a
  {
    && k in after && AfterStatus(cfg, a[k], item, ctx, after[k]) && VrfAfterStatus(cfg, a[k], item, ctx, after[k].vrf)
    && after.Keys == a.Keys + (if BringsTwo(cfg, a, k, item, ctx) then {ctx.first.id, ctx.second.id} else {})
    && (forall j | j in a && j != k :: CaughtFrom(a[j], after[j], Caught(after, k, j), ctx.now))
    && (BringsTwo(cfg, a, k, item, ctx) ==>
          && IsNewMember(cfg, after[k], item, ctx.first, ctx.now, after[ctx.first.id], Caught(after, k, ctx.first.id))
          && IsNewMember(cfg, after[k], item, ctx.second, ctx.now, after[ctx.second.id], Caught(after, k, ctx.second.id)))
  }

  /** An applied status answer: it rolls back when it brings a seed that cannot be persisted; otherwise the
      row takes what Relay says, its VRF data is written with the first seed, two members are inserted when
      that selects a task that is alone and whose execution is frozen, and the siblings of a row left
      aborted are caught. */
  lemma StatusApplied(cfg: Config, s: State, k: nat, ctx: Context)
    requires Inv(cfg, s) && Enabled(cfg, s, Apply(k, ctx)) && HoldsStatus(s.tasks[k])
    ensures var item := s.tasks[k].slot.reply.item;
            var after := Exec(cfg, s, Apply(k, ctx)).tasks;
            if BringsSeed(cfg, s.tasks[k], item, ctx) && SeedRefused(cfg, s.tasks[k], item, |Companions(s.tasks, k)| == 1) then after == s.tasks
            else StatusFollows(cfg, s.tasks, k, item, ctx, after)
  {
    var item := s.tasks[k].slot.reply.item;
    assert FreshIdentity(s.tasks, ctx.first) && FreshIdentity(s.tasks, ctx.second);
    NewRowsAreNew(s.tasks, ctx);
    assert OperationEffect(cfg, s.tasks, k, ctx) == ApplyRelayStatus(cfg, s.tasks, k, item, ctx);
    StatusEffect(cfg, s.tasks, k, item, ctx);
    if !(BringsSeed(cfg, s.tasks[k], item, ctx) && SeedRefused(cfg, s.tasks[k], item, |Companions(s.tasks, k)| == 1)) {
      Committed(cfg, s, k, ctx);
      var effect := OperationEffect(cfg, s.tasks, k, ctx).value;
      var after := Exec(cfg, s, Apply(k, ctx)).tasks;
      hide Inv, Exec, Enabled, OperationEffect, AfterStatus, VrfAfterStatus, BringsTwo, Caught, BringsSeed, SeedRefused, Companions;
      assert !Caught(after, k, k) by { NotOwn(after, k); }
      FollowedMembers(cfg, effect, after, k, item, ctx);
    }
  }

  lemma NotOwn(after: Tasks, k: nat)
    requires k in after
    ensures !Caught(after, k, k)
  {
  }

  lemma NewRowsAreNew(a: Tasks, ctx: Context)
    requires FreshIdentity(a, ctx.first) && FreshIdentity(a, ctx.second)
    ensures ctx.first.id !in a && ctx.second.id !in a
  {
  }

  lemma FollowedMembers(cfg: Config, effect: Tasks, after: Tasks, k: nat, item: StatusItem, ctx: Context)
    requires k in effect && Follows(effect, after, k, ctx.now) && after[k] == effect[k].(slot := EMPTY_SLOT)
    ensures forall i: Identity | i.id in effect && i.id != k && IsNewMember(cfg, effect[k], item, i, ctx.now, effect[i.id], false) ::
              IsNewMember(cfg, after[k], item, i, ctx.now, after[i.id], Caught(after, k, i.id))
  {
    hide Caught;
  }

  /** In particular: the row is a success exactly when Relay says so, in either of its two ways, and the
      engine then goes on to the download. */
  lemma SuccessIsTaken(cfg: Config, s: State, k: nat, ctx: Context)
    requires Inv(cfg, s) && Enabled(cfg, s, Apply(k, ctx)) && HoldsStatus(s.tasks[k])
    requires var item := s.tasks[k].slot.reply.item;
             && TakesStatus(cfg, s.tasks[k], item, ctx)
             && !(BringsSeed(cfg, s.tasks[k], item, ctx) && SeedRefused(cfg, s.tasks[k], item, |Companions(s.tasks, k)| == 1))
    ensures var item := s.tasks[k].slot.reply.item;
            var after := Exec(cfg, s, Apply(k, ctx)).tasks;
            && (after[k].status == EndSuccess <==> item.status == ChainEndSuccess || item.status == ChainEndGroupSuccess)
            && (Decide(after, k) == OpResult <==> item.status == ChainEndSuccess || item.status == ChainEndGroupSuccess)
  {
    StatusApplied(cfg, s, k, ctx);
    var after := Exec(cfg, s, Apply(k, ctx)).tasks;
    hide Inv, Exec, Enabled, BringsSeed, SeedRefused, Companions, Caught, DueAfterStatus, ValidationGroupReady, IsOwner, Group;
  }

  // ---- Failures ----

  /** A failed operation frees its row for a retry after the retry interval. When it was a validation that
      may have taken effect, every member of the group must ask Relay again, the others at once. Nothing
      else changes. */
  lemma FailureApplied(cfg: Config, s: State, k: nat, ctx: Context)
    requires Enabled(cfg, s, Apply(k, ctx)) && s.tasks[k].slot.status == SlotFailed
    ensures var t := s.tasks[k];
            var unsure := t.unknown && t.slot.op == OpValidate;
            var s' := Exec(cfg, s, Apply(k, ctx));
            && s' == s.(clock := ctx.now, tasks := s'.tasks) && s'.tasks.Keys == s.tasks.Keys
            && s'.tasks[k] == t.(slot := EMPTY_SLOT, retries := t.retries + 1, nextActionAt := ctx.now + cfg.retryInterval,
                                 relayChecked := t.relayChecked && !unsure)
            && forall j | j in s.tasks && j != k ::
                 s'.tasks[j] == if unsure && j in Companions(s.tasks, k) then s.tasks[j].(relayChecked := false, nextActionAt := ctx.now)
                                else s.tasks[j]
  {
    assert k in s.tasks;
    hide FailureEffect;
    assert Exec(cfg, s, Apply(k, ctx)) == s.(clock := ctx.now, tasks := FailureEffect(cfg, s.tasks, k, ctx.now));
    hide Exec, Enabled;
    FailureRows(cfg, s.tasks, k, ctx.now);
  }

  lemma FailureRows(cfg: Config, a: Tasks, k: nat, now: int)
    requires k in a
    ensures var t := a[k];
            var unsure := t.unknown && t.slot.op == OpValidate;
            var b := FailureEffect(cfg, a, k, now);
            && b.Keys == a.Keys
            && b[k] == t.(slot := EMPTY_SLOT, retries := t.retries + 1, nextActionAt := now + cfg.retryInterval,
                          relayChecked := t.relayChecked && !unsure)
            && forall j | j in a && j != k ::
                 b[j] == if unsure && j in Companions(a, k) then a[j].(relayChecked := false, nextActionAt := now) else a[j]
  {
  }

  // ---- The client task ----

  /** Members, as the engine counts them. */
  function MembersOf(tasks: Tasks, c: nat): set<nat> {
    set k | k in tasks && tasks[k].spec.clientTaskId == c && tasks[k].spec.taskType in {SD, LLM}
  }

  /** The row is finished: nothing is left to do for it. */
  predicate IsFinished(t: InferenceTask) {
    t.status in {EndAborted, EndInvalidated, EndGroupRefund, ResultDownloaded}
  }

  /** The TaskIDs under the client task of which every member has ended and none has a result. */
  function LostTaskIds(tasks: Tasks, c: nat): set<string> {
    set k | k in MembersOf(tasks, c)
            && (forall j | j in MembersOf(tasks, c) && tasks[j].spec.taskId == tasks[k].spec.taskId ::
                  tasks[j].status in {EndAborted, EndInvalidated, EndGroupRefund})
      :: tasks[k].spec.taskId
  }

  /** A client task counted again on these rows. */
  predicate CountedAgain(tasks: Tasks, c: nat, o: ClientTask, n: ClientTask) {
    if o.status != ClientRunning || !o.expanded || MembersOf(tasks, c) == {} then n == o
    else
      && n == o.(failedCount := |LostTaskIds(tasks, c)|, status := n.status)
      && (n.status == ClientSuccess <==> exists k | k in MembersOf(tasks, c) :: tasks[k].status == ResultDownloaded)
      && (n.status == ClientFailed <==>
            && (forall k | k in MembersOf(tasks, c) :: IsFinished(tasks[k]))
            && (forall k | k in MembersOf(tasks, c) :: tasks[k].status != ResultDownloaded))
  }

  lemma CountsAgree(tasks: Tasks, c: nat, o: ClientTask)
    ensures CountedAgain(tasks, c, o, Recalculated(tasks, c, o))
  {
    assert Members(tasks, c) == MembersOf(tasks, c);
    assert FailedGroups(tasks, c) == LostTaskIds(tasks, c) by { LostAgree(tasks, c); }
    hide FailedGroups, LostTaskIds;
  }

  lemma LostAgree(tasks: Tasks, c: nat)
    ensures FailedGroups(tasks, c) == LostTaskIds(tasks, c)
  {
    forall k | k in tasks && IsMember(tasks[k], c)
      ensures GroupFailed(tasks, c, tasks[k].spec.taskId) <==>
              forall j | j in MembersOf(tasks, c) && tasks[j].spec.taskId == tasks[k].spec.taskId ::
                tasks[j].status in {EndAborted, EndInvalidated, EndGroupRefund}
    {
    }
    hide GroupFailed;
    assert forall k :: k in MembersOf(tasks, c) <==> k in tasks && IsMember(tasks[k], c);
  }

  /** Once an answer is applied, its row's client task is counted on the new rows, and no other changes. */
  lemma ApplicationCounts(cfg: Config, s: State, k: nat, ctx: Context)
    requires Inv(cfg, s) && Enabled(cfg, s, Apply(k, ctx)) && s.tasks[k].slot.status == SlotCompleted
    ensures var s' := Exec(cfg, s, Apply(k, ctx));
            var c := s.tasks[k].spec.clientTaskId;
            && s'.clock == ctx.now && s'.workers == s.workers && c in s.clients && s'.clients.Keys == s.clients.Keys
            && (forall d | d in s.clients && d != c :: s'.clients[d] == s.clients[d])
            && (if s'.tasks == s.tasks then s'.clients == s.clients else CountedAgain(s'.tasks, c, s.clients[c], s'.clients[c]))
  {
    assert OwnerOk(s.clients, s.tasks[k]);
    var s' := Exec(cfg, s, Apply(k, ctx));
    CountsAgree(s'.tasks, s.tasks[k].spec.clientTaskId, s.clients[s.tasks[k].spec.clientTaskId]);
    hide Inv, OperationEffect, ScheduleSiblingCancellation, CountedAgain;
  }
}
