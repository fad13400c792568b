/** The transition function of `taskengine/progression.go` and `recalculateClientTask` of
    `taskengine/scheduler.go`, on the rows of the `inference_tasks` and `client_tasks` tables. */
module Progression {
  import opened Wrappers
  import opened Models
  import opened Config

  type Tasks = map<nat, InferenceTask>
  type ClientTasks = map<nat, ClientTask>

  /** The identity of a row to be inserted: its primary key and its fresh commitment. */
  datatype Identity = Identity(id: nat, commitment: string)

  /** What the engine reads at the moment it applies an answer: the clock, the identities the
      inserted rows would get, and the heartbeat client's row, when resolved. */
  datatype Context = Context(now: int, first: Identity, second: Identity, heartbeatClient: Option<nat>)

  // ---- Groups and members ----

  function Group(tasks: Tasks, taskId: string): set<nat> {
    set k | k in tasks && tasks[k].spec.taskId == taskId
  }

  predicate IsMember(t: InferenceTask, clientTaskId: nat) {
    t.spec.clientTaskId == clientTaskId && EngineType(t.spec.taskType)
  }

  function Members(tasks: Tasks, clientTaskId: nat): set<nat> {
    set k | k in tasks && IsMember(tasks[k], clientTaskId)
  }

  // ---- Scheduling times ----

  function ExecutionStatusNextActionAt(now: int, estimated: int, cfg: Config): int {
    var target := estimated - cfg.executionPollAdvance;
    var maximum := now + cfg.maxExecutionPollInterval;
    var capped := if target > maximum then maximum else target;
    if capped < now + cfg.scanInterval then now + cfg.executionOverrunPollInterval else capped
  }

  function StatusSyncNextActionAt(now: int, status: TaskStatus, estimated: Option<int>, cfg: Config): int {
    if status == ScoreReady || status == ErrorReported || status == EndSuccess then now
    else if (status == Started || status == ParamsUploaded) && estimated.Some? then
      ExecutionStatusNextActionAt(now, estimated.value, cfg)
    else now + cfg.statusPollInterval
  }

  // ---- Status answers ----

  predicate HeartbeatQueuedTimedOut(cfg: Config, t: InferenceTask, ctx: Context) {
    && cfg.heartbeatMaxQueuedDuration > 0
    && ctx.now - t.spec.createdAt >= cfg.heartbeatMaxQueuedDuration
    && ctx.heartbeatClient == Some(t.spec.clientId)
  }

  /** The branch that keeps a locally aborted row aborted until its cancellation is done. */
  predicate KeepsLocalAbort(t: InferenceTask, item: StatusItem) {
    t.status == EndAborted && t.cancelRequired && !ChainTerminal(item.status)
  }

  /** The row after a status answer, before VRF data is looked at. */
  function SyncedRow(cfg: Config, t: InferenceTask, item: StatusItem, ctx: Context): (r: InferenceTask)
    ensures r.spec == t.spec && r.commitment == t.commitment && r.vrf == t.vrf && r.slot == t.slot
  {
    if !item.found then
      t.(relayChecked := true, relayFound := false, unknown := false, cancelRequired := false,
         nextActionAt := ctx.now, status := if t.status == Pending then Pending else EndAborted)
    else if KeepsLocalAbort(t, item) then
      t.(relayChecked := true, relayFound := true, unknown := false, nextActionAt := ctx.now)
    else if item.status == ChainQueued && HeartbeatQueuedTimedOut(cfg, t, ctx) then
      t.(relayChecked := true, relayFound := true, unknown := false, nextActionAt := ctx.now,
         status := EndAborted, abortReason := CreatorCancelled,
         cancelRequired := t.cancelRequired || t.commitment != "")
    else
      var local := RelayStatusToLocal(item.status);
      t.(status := local, abortReason := item.abortReason, taskError := item.taskError,
         sequence := item.sequence, relayChecked := true, relayFound := true, unknown := false,
         exec := Execution(item.gpu, item.gpuVram, item.modelFiles, item.estimatedCompletionAt, item.resultAvailable),
         nextActionAt := StatusSyncNextActionAt(ctx.now, local, item.estimatedCompletionAt, cfg),
         cancelRequired := t.cancelRequired && local == Created)
  }

  /** The answer is one whose sampling seed the engine looks at. */
  predicate LooksAtSeed(cfg: Config, t: InferenceTask, item: StatusItem, ctx: Context) {
    && item.found
    && !KeepsLocalAbort(t, item)
    && !(item.status == ChainQueued && HeartbeatQueuedTimedOut(cfg, t, ctx))
    && t.vrf.seed == ""
    && item.samplingSeed != ""
  }

  /** Relay has frozen what validation members must reuse. */
  predicate ExecutionAssigned(taskType: TaskType, item: StatusItem) {
    item.modelFiles != [] && (taskType != LLM || item.gpu != "")
  }

  /** The VRF selects the task but its execution is not assigned yet: nothing is persisted. */
  predicate DefersVrf(cfg: Config, t: InferenceTask, item: StatusItem) {
    var output := cfg.prove(item.samplingSeed);
    output.Some? && VrfNeedValidation(output.value.number) && !ExecutionAssigned(t.spec.taskType, item)
  }

  /** What makes `persistVRFAndMembers` fail: the prover does, or the members of a task that is alone in
      its group are due and their arguments cannot be pinned. */
  predicate SeedFails(cfg: Config, t: InferenceTask, item: StatusItem, alone: bool) {
    var output := cfg.prove(item.samplingSeed);
    || output.None?
    || (&& alone && VrfNeedValidation(output.value.number) && ExecutionAssigned(t.spec.taskType, item)
        && cfg.pinArgs(t.spec.taskArgs, t.spec.taskType, item.modelFiles).None?)
  }

  function VssMember(t: InferenceTask, item: StatusItem, vrf: Vrf, pinned: string, commitment: string, now: int): InferenceTask {
    var spec := t.spec.(
      taskArgs := pinned,
      requiredGPU := if t.spec.taskType == LLM then item.gpu else t.spec.requiredGPU,
      requiredGPUVram := if t.spec.taskType == LLM then item.gpuVram else t.spec.requiredGPUVram,
      createdAt := now);
    NewTask(spec, commitment, vrf, now)
  }

  /** `persistVRFAndMembers`; None is an error, which rolls the transaction back. */
  function PersistVrfAndMembers(cfg: Config, tasks: Tasks, id: nat, item: StatusItem, ctx: Context): (r: Option<Tasks>)
    requires id in tasks
    ensures r.Some? ==> tasks.Keys <= r.value.Keys
  {
    var t := tasks[id];
    var output := cfg.prove(item.samplingSeed);
    if output.None? then None
    else
      var vrf := Vrf(item.samplingSeed, output.value.number, output.value.proof);
      if DefersVrf(cfg, t, item) then Some(tasks)
      else
        var persisted := tasks[id := t.(vrf := vrf)];
        if !VrfNeedValidation(vrf.number) || |Group(tasks, t.spec.taskId)| != 1 then Some(persisted)
        else
          var pinned := cfg.pinArgs(t.spec.taskArgs, t.spec.taskType, item.modelFiles);
          if pinned.None? then None
          else Some(persisted
                    [ctx.first.id := VssMember(t, item, vrf, pinned.value, ctx.first.commitment, ctx.now)]
                    [ctx.second.id := VssMember(t, item, vrf, pinned.value, ctx.second.commitment, ctx.now)])
  }

  function ApplyRelayStatus(cfg: Config, tasks: Tasks, id: nat, item: StatusItem, ctx: Context): (r: Option<Tasks>)
    requires id in tasks
    ensures r.Some? ==> tasks.Keys <= r.value.Keys
  {
    var t := tasks[id];
    var synced := tasks[id := SyncedRow(cfg, t, item, ctx)];
    if LooksAtSeed(cfg, t, item, ctx) then PersistVrfAndMembers(cfg, synced, id, item, ctx) else Some(synced)
  }

  // ---- Mutation answers ----

  predicate CreateAccepted(o: Outcome) {
    o == OutcomeCreated || o == OutcomeAlreadyExists
  }

  predicate ValidateAccepted(o: Outcome) {
    o == OutcomeValidated || o == OutcomeAlreadyApplied
  }

  function CreateEffect(cfg: Config, t: InferenceTask, o: Outcome, now: int): InferenceTask {
    if CreateAccepted(o) then
      t.(status := Created, relayChecked := true, relayFound := true, unknown := false, nextActionAt := now)
    else if o == OutcomeTemporaryError then t.(nextActionAt := now + cfg.retryInterval)
    else t.(status := EndAborted, abortReason := CreatorCancelled, nextActionAt := now)
  }

  function MarkGroupSubmitted(tasks: Tasks, taskId: string, now: int): Tasks {
    map k | k in tasks ::
      if tasks[k].spec.taskId == taskId then tasks[k].(submitted := true, nextActionAt := now) else tasks[k]
  }

  function AbortGroup(tasks: Tasks, taskId: string, now: int): Tasks {
    map k | k in tasks ::
      if tasks[k].spec.taskId == taskId then tasks[k].(status := EndAborted, nextActionAt := now) else tasks[k]
  }

  function MarkGroupUnchecked(tasks: Tasks, taskId: string, now: int): Tasks {
    map k | k in tasks ::
      if tasks[k].spec.taskId == taskId then tasks[k].(relayChecked := false, nextActionAt := now) else tasks[k]
  }

  function ValidateEffect(cfg: Config, tasks: Tasks, id: nat, o: Outcome, now: int): Tasks
    requires id in tasks
  {
    var t := tasks[id];
    if ValidateAccepted(o) then MarkGroupSubmitted(tasks, t.spec.taskId, now)
    else if o == OutcomeTemporaryError then tasks[id := t.(nextActionAt := now + cfg.retryInterval)]
    else AbortGroup(tasks, t.spec.taskId, now)
  }

  /** A cancellation is best effort: whatever the answer, the flag is cleared. */
  function CancelEffect(t: InferenceTask, now: int): InferenceTask {
    t.(cancelRequired := false, nextActionAt := now,
       abortReason := if t.status == EndAborted then CreatorCancelled else t.abortReason)
  }

  function ResultEffect(t: InferenceTask, now: int): InferenceTask {
    t.(status := ResultDownloaded, nextActionAt := now)
  }

  // ---- One applied operation ----

  /** The effect of a completed operation on the rows; None is an error. */
  function OperationEffect(cfg: Config, tasks: Tasks, id: nat, ctx: Context): (r: Option<Tasks>)
    requires id in tasks
    ensures r.Some? ==> tasks.Keys <= r.value.Keys
  {
    var t := tasks[id];
    match t.slot.op
    case OpSync =>
      if t.slot.reply.StatusReply? then ApplyRelayStatus(cfg, tasks, id, t.slot.reply.item, ctx) else None
    case OpCreate =>
      if t.slot.reply.OutcomeReply? then Some(tasks[id := CreateEffect(cfg, t, t.slot.reply.outcome, ctx.now)]) else None
    case OpValidate =>
      if t.slot.reply.OutcomeReply? then Some(ValidateEffect(cfg, tasks, id, t.slot.reply.outcome, ctx.now)) else None
    case OpCancel => Some(tasks[id := CancelEffect(t, ctx.now)])
    case OpResult => Some(tasks[id := ResultEffect(t, ctx.now)])
    case OpNone => None
  }

  function ClearSlot(tasks: Tasks, id: nat): Tasks
    requires id in tasks
  {
    tasks[id := tasks[id].(slot := EMPTY_SLOT)]
  }

  /** When a member of a group of three has just become EndAborted, the others are flagged. */
  function ScheduleSiblingCancellation(tasks: Tasks, id: nat, now: int): Tasks
    requires id in tasks
  {
    var g := tasks[id].spec.taskId;
    if tasks[id].status != EndAborted || |Group(tasks, g)| != 3 then tasks
    else
      map k | k in tasks ::
        if tasks[k].spec.taskId == g && k != id && !Terminal(tasks[k].status)
        then tasks[k].(cancelRequired := true, nextActionAt := now) else tasks[k]
  }

  /** A failed operation frees the slot and schedules a retry; a validation whose outcome is
      unknown makes every member of the group ask Relay again. */
  function FailureEffect(cfg: Config, tasks: Tasks, id: nat, now: int): Tasks
    requires id in tasks
  {
    var t := tasks[id];
    var marked := if t.unknown && t.slot.op == OpValidate then MarkGroupUnchecked(tasks, t.spec.taskId, now) else tasks;
    marked[id := marked[id].(slot := EMPTY_SLOT, retries := t.retries + 1, nextActionAt := now + cfg.retryInterval)]
  }

  // ---- Client task aggregation ----

  predicate AllFinished(tasks: Tasks, ids: set<nat>)
    requires ids <= tasks.Keys
  {
    forall k | k in ids :: Finished(tasks[k].status)
  }

  predicate AnyDownloaded(tasks: Tasks, ids: set<nat>)
    requires ids <= tasks.Keys
  {
    exists k | k in ids :: tasks[k].status == ResultDownloaded
  }

  /** The TaskID groups under a client task that are all finished without a download. */
  function FailedGroups(tasks: Tasks, clientTaskId: nat): set<string> {
    set k | k in tasks && IsMember(tasks[k], clientTaskId) && GroupFailed(tasks, clientTaskId, tasks[k].spec.taskId)
      :: tasks[k].spec.taskId
  }

  predicate GroupFailed(tasks: Tasks, clientTaskId: nat, taskId: string) {
    forall k | k in tasks && IsMember(tasks[k], clientTaskId) && tasks[k].spec.taskId == taskId ::
      Finished(tasks[k].status) && tasks[k].status != ResultDownloaded
  }

  function Recalculated(tasks: Tasks, clientTaskId: nat, c: ClientTask): ClientTask {
    var members := Members(tasks, clientTaskId);
    if c.status != ClientRunning || !c.expanded || members == {} then c
    else
      c.(failedCount := |FailedGroups(tasks, clientTaskId)|,
         status := if AnyDownloaded(tasks, members) then ClientSuccess
                   else if AllFinished(tasks, members) then ClientFailed else ClientRunning)
  }
}
