/** The engine as a state machine: one step is one database transaction of `taskengine/`, or one
    worker finishing. Every choice the outside world makes is in the step. */
module StateMachine {
  import opened Wrappers
  import opened Models
  import opened Config
  import opened Progression
  import opened Dispatch

  /** A live request worker: it holds one slot of its pool and works on these rows. */
  datatype Worker = Worker(op: Operation, rows: set<nat>)

  /** `relayEnded` records the commitments Relay has reported with a terminal status. */
  datatype State = State(
    clock: int,
    clients: ClientTasks,
    tasks: Tasks,
    workers: map<nat, Worker>,
    relayEnded: set<string>)

  const INITIAL := State(0, map[], map[], map[], {})

  /** The end of one row's share of a worker's request: an answer, or a loss (timeout, panic,
      transport failure, failed write). */
  datatype Ending = Answered(reply: Reply) | Lost

  /** The identities of one expanded repeat. */
  datatype Repeat = Repeat(identity: Identity, taskId: string)

  datatype Step =
    | Submit(newId: nat, clientId: nat, submission: Submission, repeatNum: Option<int>, now: int)
    | Expand(clientTaskId: nat, repeats: seq<Repeat>, now: int)
    | ExpandFailed(clientTaskId: nat, now: int)
    | StartWorker(worker: nat, op: Operation, rows: set<nat>, now: int)
    | Finish(worker: nat, endings: map<nat, Ending>)
    | Apply(task: nat, ctx: Context)
    | Recover(now: int)
    | AbortUnexpanded(clientTaskId: nat)
    | AbortCommit(clientTaskId: nat, withoutCommitment: set<nat>, cancelled: set<nat>, full: bool)

  // ---- Submission and expansion ----

  function EffectiveRepeat(cfg: Config, repeatNum: Option<int>): int {
    if repeatNum.Some? then repeatNum.value else cfg.defaultRepeatNum
  }

  function NewClientTask(cfg: Config, clientId: nat, submission: Submission, repeatNum: Option<int>, now: int): ClientTask {
    ClientTask(clientId, submission.taskType, Some(submission), EffectiveRepeat(cfg, repeatNum),
               ClientRunning, 0, false, false, now)
  }

  /** Primary keys grow, TaskIDs and commitments are random and do not repeat. */
  predicate FreshIdentity(tasks: Tasks, i: Identity) {
    && i.commitment != ""
    && forall k | k in tasks :: k < i.id && tasks[k].commitment != i.commitment
  }

  predicate FreshRepeats(tasks: Tasks, repeats: seq<Repeat>) {
    && (forall i | 0 <= i < |repeats| ::
          && FreshIdentity(tasks, repeats[i].identity)
          && forall k | k in tasks :: tasks[k].spec.taskId != repeats[i].taskId)
    && (forall i, j | 0 <= i < j < |repeats| ::
          && repeats[i].identity.id < repeats[j].identity.id
          && repeats[i].identity.commitment != repeats[j].identity.commitment
          && repeats[i].taskId != repeats[j].taskId)
  }

  function PrimaryTask(c: ClientTask, clientTaskId: nat, r: Repeat, now: int): InferenceTask
    requires c.submission.Some?
  {
    var s := c.submission.value;
    NewTask(TaskSpec(c.clientId, clientTaskId, s.taskType, s.taskArgs, s.taskFee, s.requiredGPU, s.requiredGPUVram, r.taskId, now),
            r.identity.commitment, NO_VRF, now)
  }

  function InsertPrimaries(tasks: Tasks, c: ClientTask, clientTaskId: nat, repeats: seq<Repeat>, now: int): Tasks
    requires c.submission.Some?
  {
    if repeats == [] then tasks
    else
      var last := |repeats| - 1;
      InsertPrimaries(tasks, c, clientTaskId, repeats[..last], now)
        [repeats[last].identity.id := PrimaryTask(c, clientTaskId, repeats[last], now)]
  }

  predicate Expandable(c: ClientTask, now: int) {
    c.status == ClientRunning && !c.expanded && c.nextActionAt <= now
  }

  function Expanded(c: ClientTask, now: int): ClientTask {
    c.(expanded := true, submission := None, nextActionAt := now)
  }

  // ---- Workers ----

  function PoolWorkers(s: State, op: Operation): set<nat> {
    set w | w in s.workers && s.workers[w].op == op
  }

  function MarkRunning(tasks: Tasks, rows: set<nat>, op: Operation): Tasks {
    map k | k in tasks :: if k in rows then tasks[k].(slot := Slot(op, SlotRunning, NoReply)) else tasks[k]
  }

  /** A lost mutation may have taken effect; a lost status query or download cannot. */
  predicate LossIsUnknown(op: Operation) {
    op == OpCreate || op == OpValidate || op == OpCancel
  }

  function EndedRow(t: InferenceTask, op: Operation, e: Ending): InferenceTask {
    if t.slot.status != SlotRunning then t
    else
      match e
      case Answered(reply) => t.(slot := Slot(t.slot.op, SlotCompleted, reply))
      case Lost => t.(slot := Slot(t.slot.op, SlotFailed, NoReply), unknown := LossIsUnknown(op))
  }

  function WriteEndings(tasks: Tasks, op: Operation, endings: map<nat, Ending>): Tasks {
    map k | k in tasks :: if k in endings then EndedRow(tasks[k], op, endings[k]) else tasks[k]
  }

  predicate ReplyFits(op: Operation, e: Ending) {
    e.Answered? ==>
      match op
      case OpSync => e.reply.StatusReply?
      case OpCreate => e.reply.OutcomeReply?
      case OpValidate => e.reply.OutcomeReply?
      case OpCancel => e.reply.OutcomeReply?
      case OpResult => e.reply.DownloadReply?
      case OpNone => false
  }

  predicate ReportsEnd(e: Ending) {
    e.Answered? && e.reply.StatusReply? && e.reply.item.found && ChainTerminal(e.reply.item.status)
  }

  function NewlyEnded(tasks: Tasks, endings: map<nat, Ending>): set<string> {
    set k | k in endings && k in tasks && ReportsEnd(endings[k]) :: tasks[k].commitment
  }

  // ---- Recovery ----

  predicate ValidatingGroup(tasks: Tasks, taskId: string) {
    exists k | k in tasks ::
      tasks[k].spec.taskId == taskId && tasks[k].slot.status == SlotRunning && tasks[k].slot.op == OpValidate
  }

  function RecoveredRow(tasks: Tasks, k: nat, now: int): InferenceTask
    requires k in tasks
  {
    var t := tasks[k];
    var freed := if t.slot.status == SlotRunning
                 then t.(slot := Slot(OpNone, SlotNone, t.slot.reply), unknown := true, nextActionAt := now) else t;
    if ValidatingGroup(tasks, t.spec.taskId) then freed.(relayChecked := false, nextActionAt := now) else freed
  }

  function RecoveredTasks(tasks: Tasks, now: int): Tasks {
    map k | k in tasks :: RecoveredRow(tasks, k, now)
  }

  function RecoveredClients(clients: ClientTasks, tasks: Tasks): ClientTasks {
    map c | c in clients :: Recalculated(tasks, c, clients[c])
  }

  // ---- Creator abort ----

  function AbortedRow(t: InferenceTask): InferenceTask {
    t.(status := EndAborted, abortReason := CreatorCancelled, cancelRequired := false, slot := EMPTY_SLOT)
  }

  function AbortRows(tasks: Tasks, ids: set<nat>): Tasks {
    map k | k in tasks :: if k in ids then AbortedRow(tasks[k]) else tasks[k]
  }

  function IdsToAbort(withoutCommitment: set<nat>, cancelled: set<nat>, full: bool): set<nat> {
    (if full then withoutCommitment else {}) + cancelled
  }

  /** Every member is finished without a download, and there is a member. */
  predicate AllStopped(tasks: Tasks, clientTaskId: nat) {
    var members := Members(tasks, clientTaskId);
    members != {} && AllFinished(tasks, members) && !AnyDownloaded(tasks, members)
  }

  // ---- Steps ----

  predicate Enabled(cfg: Config, s: State, step: Step) {
    match step
    case Submit(newId, _, _, repeatNum, now) =>
      s.clock <= now && newId !in s.clients && EffectiveRepeat(cfg, repeatNum) > 0
    case Expand(c, repeats, now) =>
      && s.clock <= now
      && c in s.clients && Expandable(s.clients[c], now) && s.clients[c].submission.Some?
      && |repeats| == s.clients[c].repeatNum
      && FreshRepeats(s.tasks, repeats)
    case ExpandFailed(c, now) =>
      s.clock <= now && c in s.clients && Expandable(s.clients[c], now)
    case StartWorker(w, op, rows, now) =>
      && s.clock <= now
      && op != OpNone
      && w !in s.workers
      && rows != {} && |rows| <= cfg.BatchSize(op)
      && |PoolWorkers(s, op)| < cfg.Workers(op)
      && forall k | k in rows ::
           && k in s.tasks
           && Selected(s.tasks[k], now)
           && Decide(s.tasks, k) == op
    case Finish(w, endings) =>
      && w in s.workers
      && endings.Keys == s.workers[w].rows
      && forall k | k in endings :: ReplyFits(s.workers[w].op, endings[k])
    case Apply(id, ctx) =>
      && s.clock <= ctx.now
      && id in s.tasks
      && (s.tasks[id].slot.status == SlotCompleted || s.tasks[id].slot.status == SlotFailed)
      && FreshIdentity(s.tasks, ctx.first) && FreshIdentity(s.tasks, ctx.second)
      && ctx.first.id < ctx.second.id && ctx.first.commitment != ctx.second.commitment
    case Recover(now) => s.clock <= now
    case AbortUnexpanded(c) =>
      c in s.clients && s.clients[c].status == ClientRunning && !s.clients[c].expanded
    case AbortCommit(c, withoutCommitment, cancelled, full) =>
      && c in s.clients
      && s.clients[c].status != ClientSuccess
      && !AnyDownloaded(s.tasks, Members(s.tasks, c))
      && withoutCommitment + cancelled <= Members(s.tasks, c)
  }

  function ApplyStep(cfg: Config, s: State, id: nat, ctx: Context): State
    requires id in s.tasks
  {
    var t := s.tasks[id];
    var c := t.spec.clientTaskId;
    if t.slot.status == SlotFailed then s.(clock := ctx.now, tasks := FailureEffect(cfg, s.tasks, id, ctx.now))
    else
      var effect := OperationEffect(cfg, s.tasks, id, ctx);
      if effect.None? || c !in s.clients then s.(clock := ctx.now)
      else
        var tasks := ScheduleSiblingCancellation(ClearSlot(effect.value, id), id, ctx.now);
        s.(clock := ctx.now, tasks := tasks, clients := s.clients[c := Recalculated(tasks, c, s.clients[c])])
  }

  function AbortCommitStep(s: State, c: nat, ids: set<nat>, full: bool): State
    requires c in s.clients
  {
    var tasks := AbortRows(s.tasks, ids);
    if full && AllStopped(tasks, c) then
      s.(tasks := tasks, clients := s.clients[c := s.clients[c].(status := ClientFailed, creatorCancelled := true)])
    else s.(tasks := tasks, clients := s.clients[c := Recalculated(tasks, c, s.clients[c])])
  }

  /** A step that is not enabled, or whose transaction rolls back, changes no row. */
  function Exec(cfg: Config, s: State, step: Step): State {
    if !Enabled(cfg, s, step) then s
    else
      match step
      case Submit(newId, clientId, submission, repeatNum, now) =>
        s.(clock := now, clients := s.clients[newId := NewClientTask(cfg, clientId, submission, repeatNum, now)])
      case Expand(c, repeats, now) =>
        s.(clock := now, tasks := InsertPrimaries(s.tasks, s.clients[c], c, repeats, now),
           clients := s.clients[c := Expanded(s.clients[c], now)])
      case ExpandFailed(c, now) =>
        s.(clock := now, clients := s.clients[c := s.clients[c].(nextActionAt := now + cfg.retryInterval)])
      case StartWorker(w, op, rows, now) =>
        s.(clock := now, tasks := MarkRunning(s.tasks, rows, op), workers := s.workers[w := Worker(op, rows)])
      case Finish(w, endings) =>
        s.(tasks := WriteEndings(s.tasks, s.workers[w].op, endings), workers := s.workers - {w},
           relayEnded := s.relayEnded + NewlyEnded(s.tasks, endings))
      case Apply(id, ctx) => ApplyStep(cfg, s, id, ctx)
      case Recover(now) =>
        var tasks := RecoveredTasks(s.tasks, now);
        s.(clock := now, tasks := tasks, clients := RecoveredClients(s.clients, tasks), workers := map[])
      case AbortUnexpanded(c) =>
        s.(clients := s.clients[c := s.clients[c].(status := ClientFailed, creatorCancelled := true, failedCount := 0)])
      case AbortCommit(c, withoutCommitment, cancelled, full) =>
        AbortCommitStep(s, c, IdsToAbort(withoutCommitment, cancelled, full), full)
  }

  function Run(cfg: Config, s: State, steps: seq<Step>): State {
    if steps == [] then s else Exec(cfg, Run(cfg, s, steps[..|steps| - 1]), steps[|steps| - 1])
  }
}
