/** Operation slots: the slot of a row is consistent, at most one live worker has a row, no pool is
    over its capacity, and no row waits longer than the longest configured interval. */
module SlotInvariant {
  import opened Wrappers
  import opened Models
  import opened Config
  import opened Progression
  import opened Dispatch
  import opened StateMachine
  import opened ApplyEffect
  import opened Frames
  import opened GroupInvariant

  // ---- One row ----

  predicate SlotOk(t: InferenceTask) {
    && (t.slot.op == OpNone <==> t.slot.status == SlotNone)
    && (t.slot.status != SlotCompleted ==> t.slot.reply == NoReply)
    && (t.slot.status == SlotCompleted ==> ReplyFits(t.slot.op, Answered(t.slot.reply)))
    && (t.slot.status == SlotFailed ==> t.unknown == LossIsUnknown(t.slot.op))
    && (t.slot.op == OpCreate ==> t.status == Pending)
    && t.commitment != ""
  }

  /** The longest time the engine ever schedules ahead. */
  function Horizon(cfg: Config): int {
    Max(Max(cfg.statusPollInterval, cfg.retryInterval), Max(cfg.maxExecutionPollInterval, cfg.executionOverrunPollInterval))
  }

  function Max(x: int, y: int): int {
    if x < y then y else x
  }

  predicate DueBounded(cfg: Config, t: InferenceTask, clock: int) {
    t.nextActionAt <= clock + Horizon(cfg)
  }

  /** While a validation is in the slot of one member, no member of the group is Pending. */
  predicate ValidatedGroupAt(tasks: Tasks, j: nat, k: nat)
    requires j in tasks && k in tasks
  {
    tasks[j].slot.op == OpValidate && tasks[j].spec.taskId == tasks[k].spec.taskId ==> tasks[k].status != Pending
  }

  ghost predicate RowsOk(cfg: Config, tasks: Tasks, clock: int) {
    && (forall k {:trigger SlotOk(tasks[k])} | k in tasks :: SlotOk(tasks[k]) && DueBounded(cfg, tasks[k], clock))
    && (forall j, k {:trigger ValidatedGroupAt(tasks, j, k)} | j in tasks && k in tasks :: ValidatedGroupAt(tasks, j, k))
  }

  lemma StatusAnswerSchedule(now: int, status: TaskStatus, estimated: Option<int>, cfg: Config)
    requires cfg.Valid()
    ensures var t := StatusSyncNextActionAt(now, status, estimated, cfg);
            && now <= t <= now + Horizon(cfg)
            && (status == ScoreReady || status == ErrorReported || status == EndSuccess ==> t == now)
            && ((status == Started || status == ParamsUploaded) && estimated.Some? ==>
                  && (now + cfg.scanInterval <= t || t == now + cfg.executionOverrunPollInterval)
                  && (now + cfg.scanInterval <= t && t != now + cfg.executionOverrunPollInterval ==>
                        t <= estimated.value - cfg.executionPollAdvance))
  {
  }

  lemma WrittenRowOk(cfg: Config, t: InferenceTask, ctx: Context, clock: int)
    requires cfg.Valid() && SlotOk(t) && DueBounded(cfg, t, clock) && clock <= ctx.now
    requires t.slot.status == SlotCompleted || t.slot.status == SlotFailed
    ensures var r := OwnRow(cfg, t, ctx);
            SlotOk(r) && DueBounded(cfg, r, ctx.now) && (r.status == Pending ==> t.status == Pending)
  {
    if t.slot.status == SlotCompleted && t.slot.op == OpSync {
      SyncedRowDue(cfg, t, ctx);
    } else {
      MutatedRow(cfg, t, ctx);
    }
    hide OwnRow, ReplyFits;
  }

  lemma SyncedRowDue(cfg: Config, t: InferenceTask, ctx: Context)
    requires cfg.Valid() && t.slot.status == SlotCompleted && t.slot.op == OpSync && t.slot.reply.StatusReply?
    ensures var r := OwnRow(cfg, t, ctx); r.nextActionAt <= ctx.now + Horizon(cfg) && (r.status == Pending ==> t.status == Pending)
  {
    var item := t.slot.reply.item;
    StatusAnswerSchedule(ctx.now, RelayStatusToLocal(item.status), item.estimatedCompletionAt, cfg);
    assert OwnRow(cfg, t, ctx) == SyncedRow(cfg, t, item, ctx).(slot := EMPTY_SLOT);
    hide OwnRow, WrittenRow, StatusSyncNextActionAt, HeartbeatQueuedTimedOut, KeepsLocalAbort;
  }

  lemma AppliedKeepsRow(cfg: Config, a: Tasks, b: Tasks, id: nat, ctx: Context, inserted: bool, clock: int, k: nat)
    requires cfg.Valid() && RowsOk(cfg, a, clock) && clock <= ctx.now
    requires Applicable(a, id, ctx) && Applied(cfg, a, b, id, ctx, inserted) && k in b
    ensures SlotOk(b[k]) && DueBounded(cfg, b[k], ctx.now)
    ensures k in a && b[k].status == Pending ==> a[k].status == Pending
    ensures k in a && k != id ==> b[k].slot == a[k].slot
    ensures k in a ==> b[k].spec == a[k].spec
  {
    hide WrittenRow, ReplyFits;
    if k == id {
      assert SlotOk(a[id]);
      WrittenRowOk(cfg, a[id], ctx, clock);
    } else if k in a {
      assert OtherRow(a, b, id, k, ctx.now);
      assert SlotOk(a[k]) && ValidatedGroupAt(a, id, k);
    }
  }

  lemma AppliedKeepsValidated(cfg: Config, a: Tasks, b: Tasks, id: nat, ctx: Context, inserted: bool, clock: int, j: nat, k: nat)
    requires cfg.Valid() && RowsOk(cfg, a, clock) && GroupsOk(cfg, a) && clock <= ctx.now
    requires Applicable(a, id, ctx) && Applied(cfg, a, b, id, ctx, inserted) && j in b && k in b
    ensures ValidatedGroupAt(b, j, k)
  {
    hide WrittenRow, RowsOk, ReplyFits, VrfChange;
    assert b[id].slot == EMPTY_SLOT && (inserted ==> b[ctx.first.id].slot == EMPTY_SLOT && b[ctx.second.id].slot == EMPTY_SLOT);
    if j in a && j != id && b[j].slot.op == OpValidate && b[j].spec.taskId == b[k].spec.taskId {
      AppliedKeepsRow(cfg, a, b, id, ctx, inserted, clock, j);
      if k in a {
        AppliedKeepsRow(cfg, a, b, id, ctx, inserted, clock, k);
        assert ValidatedGroupAt(a, j, k) by { RowsOkPair(cfg, a, clock, j, k); }
      } else {
        InsertedIsApart(cfg, a, b, id, ctx, j, k);
      }
    }
  }

  lemma RowsOkPair(cfg: Config, a: Tasks, clock: int, j: nat, k: nat)
    requires RowsOk(cfg, a, clock) && j in a && k in a
    ensures ValidatedGroupAt(a, j, k) && SlotOk(a[j]) && SlotOk(a[k])
  {
    assert SlotOk(a[j]) && SlotOk(a[k]);
  }

  /** Members are inserted only next to a row that was alone in its group. */
  lemma InsertionIsAlone(cfg: Config, a: Tasks, b: Tasks, id: nat, ctx: Context)
    requires GroupsOk(cfg, a) && Applicable(a, id, ctx) && Applied(cfg, a, b, id, ctx, true)
    ensures Group(a, a[id].spec.taskId) == {id}
  {
    OnlyMember(a, id);
  }

  /** An inserted member joins no group but that of the row whose answer was applied. */
  lemma InsertedIsApart(cfg: Config, a: Tasks, b: Tasks, id: nat, ctx: Context, j: nat, k: nat)
    requires GroupsOk(cfg, a) && Applicable(a, id, ctx) && Applied(cfg, a, b, id, ctx, true)
    requires j in a && j != id && (k == ctx.first.id || k == ctx.second.id)
    ensures j in b && k in b && b[j].spec.taskId != b[k].spec.taskId
  {
    InsertionIsAlone(cfg, a, b, id, ctx);
    InsertedIsMate(cfg, a, b, id, ctx, k);
    AppliedIdentity(cfg, a, b, id, ctx, true, j);
    assert j !in Group(a, a[id].spec.taskId);
  }

  lemma AppliedKeepsRows(cfg: Config, a: Tasks, b: Tasks, id: nat, ctx: Context, inserted: bool, clock: int)
    requires cfg.Valid() && RowsOk(cfg, a, clock) && GroupsOk(cfg, a) && clock <= ctx.now
    requires Applicable(a, id, ctx) && Applied(cfg, a, b, id, ctx, inserted)
    ensures RowsOk(cfg, b, ctx.now)
  {
    hide Applied;
    forall k | k in b
      ensures SlotOk(b[k]) && DueBounded(cfg, b[k], ctx.now)
    {
      AppliedKeepsRow(cfg, a, b, id, ctx, inserted, clock, k);
    }
    forall j, k | j in b && k in b
      ensures ValidatedGroupAt(b, j, k)
    {
      AppliedKeepsValidated(cfg, a, b, id, ctx, inserted, clock, j, k);
    }
  }

  // ---- Rows, the other steps ----

  /** What a decision to validate says about the whole group. */
  lemma DecidedValidation(tasks: Tasks, id: nat, k: nat)
    requires id in tasks && Decide(tasks, id) == OpValidate
    requires k in tasks && tasks[k].spec.taskId == tasks[id].spec.taskId
    ensures ReadyForValidation(tasks[id].status)
    ensures ReadyForValidation(tasks[k].status) || tasks[k].status == EndAborted
    ensures k != id && ReadyForValidation(tasks[k].status) ==> Before(tasks, id, k)
    ensures |Group(tasks, tasks[id].spec.taskId)| == 1 ==> k == id
  {
    var g := Group(tasks, tasks[id].spec.taskId);
    assert id in g && k in g;
    if |g| == 1 {
      OnlyMember(tasks, id);
    }
  }

  lemma StartKeepsRows(cfg: Config, s: State, w: nat, op: Operation, rows: set<nat>, now: int)
    requires Enabled(cfg, s, StartWorker(w, op, rows, now)) && RowsOk(cfg, s.tasks, s.clock)
    ensures RowsOk(cfg, MarkRunning(s.tasks, rows, op), now)
  {
    var b := MarkRunning(s.tasks, rows, op);
    forall k | k in b
      ensures SlotOk(b[k]) && DueBounded(cfg, b[k], now)
    {
      assert SlotOk(s.tasks[k]);
    }
    forall j, k | j in b && k in b
      ensures ValidatedGroupAt(b, j, k)
    {
      assert ValidatedGroupAt(s.tasks, j, k);
      if j in rows && op == OpValidate && b[j].spec.taskId == b[k].spec.taskId {
        DecidedValidation(s.tasks, j, k);
      }
    }
  }

  lemma EndedRowOk(t: InferenceTask, op: Operation, e: Ending)
    requires SlotOk(t) && ReplyFits(op, e) && (t.slot.status == SlotRunning ==> t.slot.op == op)
    ensures var n := EndedRow(t, op, e);
            && SlotOk(n) && n.slot.op == t.slot.op && n.status == t.status && n.spec == t.spec
            && n.nextActionAt == t.nextActionAt
  {
  }

  lemma FinishKeepsRows(cfg: Config, s: State, w: nat, endings: map<nat, Ending>)
    requires Enabled(cfg, s, Finish(w, endings)) && RowsOk(cfg, s.tasks, s.clock)
    requires WorkersOk(s)
    ensures RowsOk(cfg, WriteEndings(s.tasks, s.workers[w].op, endings), s.clock)
  {
    var op := s.workers[w].op;
    var b := WriteEndings(s.tasks, op, endings);
    hide EndedRow, ReplyFits;
    forall k | k in b
      ensures SlotOk(b[k]) && DueBounded(cfg, b[k], s.clock)
      ensures b[k].slot.op == s.tasks[k].slot.op && b[k].status == s.tasks[k].status && b[k].spec == s.tasks[k].spec
    {
      assert SlotOk(s.tasks[k]);
      if k in endings {
        assert HasRow(s, w, k);
        EndedRowOk(s.tasks[k], op, endings[k]);
      }
    }
    forall j, k | j in b && k in b
      ensures ValidatedGroupAt(b, j, k)
    {
      assert ValidatedGroupAt(s.tasks, j, k);
    }
  }

  lemma RecoverKeepsRows(cfg: Config, a: Tasks, clock: int, now: int)
    requires cfg.Valid() && RowsOk(cfg, a, clock) && clock <= now
    ensures RowsOk(cfg, RecoveredTasks(a, now), now)
  {
    hide ValidatingGroup;
    var b := RecoveredTasks(a, now);
    forall k | k in b
      ensures SlotOk(b[k]) && DueBounded(cfg, b[k], now)
    {
      assert SlotOk(a[k]);
    }
    forall j, k | j in b && k in b
      ensures ValidatedGroupAt(b, j, k)
    {
      assert ValidatedGroupAt(a, j, k) && SlotOk(a[j]);
    }
  }

  lemma AbortKeepsRows(cfg: Config, a: Tasks, ids: set<nat>, clock: int)
    requires RowsOk(cfg, a, clock)
    ensures RowsOk(cfg, AbortRows(a, ids), clock)
  {
    var b := AbortRows(a, ids);
    forall k | k in b
      ensures SlotOk(b[k]) && DueBounded(cfg, b[k], clock)
    {
      assert SlotOk(a[k]);
    }
    forall j, k | j in b && k in b
      ensures ValidatedGroupAt(b, j, k)
    {
      assert ValidatedGroupAt(a, j, k);
    }
  }

  lemma InsertionKeepsRows(cfg: Config, a: Tasks, b: Tasks, c: ClientTask, clientTaskId: nat, repeats: seq<Repeat>, clock: int, now: int)
    requires cfg.Valid() && RowsOk(cfg, a, clock) && clock <= now && c.submission.Some? && FreshRepeats(a, repeats)
    requires Inserted(a, b, c, clientTaskId, repeats, now)
    ensures RowsOk(cfg, b, now)
  {
    forall k | k in b
      ensures SlotOk(b[k]) && DueBounded(cfg, b[k], now)
    {
      if k in a {
        assert SlotOk(a[k]);
      } else {
        NewRow(a, b, c, clientTaskId, repeats, now, k);
      }
    }
    forall j, k | j in b && k in b
      ensures ValidatedGroupAt(b, j, k)
    {
      if j in a {
        OldGroup(a, b, c, clientTaskId, repeats, now, j);
        assert k in Group(b, b[j].spec.taskId) ==> k in a && ValidatedGroupAt(a, j, k);
      } else {
        NewRow(a, b, c, clientTaskId, repeats, now, j);
      }
    }
  }

  /** A row of an expansion is a Pending row with a commitment and an empty slot. */
  lemma NewRow(a: Tasks, b: Tasks, c: ClientTask, clientTaskId: nat, repeats: seq<Repeat>, now: int, k: nat)
    requires c.submission.Some? && FreshRepeats(a, repeats) && Inserted(a, b, c, clientTaskId, repeats, now)
    requires k in b && k !in a
    ensures b[k] == NewTask(b[k].spec, b[k].commitment, NO_VRF, now) && b[k].commitment != ""
    ensures b[k].spec.clientTaskId == clientTaskId && b[k].spec.taskType == c.submission.value.taskType
    ensures b[k].spec.clientId == c.clientId
  {
    var i :| 0 <= i < |repeats| && k == repeats[i].identity.id;
    assert InsertedAt(b, c, clientTaskId, repeats[i], now);
    assert FreshIdentity(a, repeats[i].identity);
  }

  // ---- Workers ----

  /** A row a creator abort took away from its worker: it is never dispatched again. */
  predicate Withdrawn(t: InferenceTask) {
    t.status == EndAborted && !t.cancelRequired && t.slot == EMPTY_SLOT
  }

  predicate RunningFor(t: InferenceTask, op: Operation) {
    t.slot.status == SlotRunning && t.slot.op == op
  }

  predicate HasRow(s: State, w: nat, k: nat)
    requires w in s.workers
  {
    k in s.workers[w].rows ==> k in s.tasks && (RunningFor(s.tasks[k], s.workers[w].op) || Withdrawn(s.tasks[k]))
  }

  predicate SameRow(s: State, v: nat, w: nat, k: nat)
    requires v in s.workers && w in s.workers
  {
    k in s.workers[v].rows && k in s.workers[w].rows ==> v == w
  }

  predicate HeldRow(s: State, k: nat)
    requires k in s.tasks
  {
    s.tasks[k].slot.status == SlotRunning ==> exists w | w in s.workers :: k in s.workers[w].rows
  }

  ghost predicate WorkersOk(s: State) {
    && (forall w, k {:trigger HasRow(s, w, k)} | w in s.workers :: HasRow(s, w, k))
    && (forall v, w, k {:trigger SameRow(s, v, w, k)} | v in s.workers && w in s.workers :: SameRow(s, v, w, k))
    && (forall k {:trigger HeldRow(s, k)} | k in s.tasks :: HeldRow(s, k))
  }

  predicate PoolOk(cfg: Config, s: State, op: Operation) {
    |PoolWorkers(s, op)| <= cfg.Workers(op)
  }

  predicate BatchOk(cfg: Config, w: Worker) {
    w.op != OpNone && 0 < |w.rows| <= cfg.BatchSize(w.op)
  }

  ghost predicate PoolsOk(cfg: Config, s: State) {
    && (forall op {:trigger PoolOk(cfg, s, op)} | op != OpNone :: PoolOk(cfg, s, op))
    && (forall w {:trigger BatchOk(cfg, s.workers[w])} | w in s.workers :: BatchOk(cfg, s.workers[w]))
  }

  /** The selection queries never return a withdrawn row. */
  lemma WithdrawnIsNotSelected(t: InferenceTask, now: int)
    requires Selected(t, now)
    ensures !Withdrawn(t) && t.slot.status == SlotNone
  {
  }

  lemma StartKeepsWorkers(cfg: Config, s: State, w: nat, op: Operation, rows: set<nat>, now: int)
    requires Enabled(cfg, s, StartWorker(w, op, rows, now)) && WorkersOk(s)
    ensures WorkersOk(Exec(cfg, s, StartWorker(w, op, rows, now)))
  {
    var s' := Exec(cfg, s, StartWorker(w, op, rows, now));
    forall v, k | v in s.workers && k in rows
      ensures k !in s.workers[v].rows
    {
      assert HasRow(s, v, k);
      WithdrawnIsNotSelected(s.tasks[k], now);
    }
    assert s'.workers == s.workers[w := Worker(op, rows)] && s'.tasks == MarkRunning(s.tasks, rows, op);
    hide Enabled, Exec;
    forall v, k | v in s'.workers
      ensures HasRow(s', v, k)
    {
      if v != w { assert HasRow(s, v, k); }
    }
    forall u, v, k | u in s'.workers && v in s'.workers
      ensures SameRow(s', u, v, k)
    {
      if u != w && v != w { assert SameRow(s, u, v, k); }
    }
    forall k | k in s'.tasks
      ensures HeldRow(s', k)
    {
      assert HeldRow(s, k);
      if k in rows {
        assert k in s'.workers[w].rows;
      } else if s.tasks[k].slot.status == SlotRunning {
        var v :| v in s.workers && k in s.workers[v].rows;
        assert k in s'.workers[v].rows;
      }
    }
  }

  lemma FinishKeepsWorkers(cfg: Config, s: State, w: nat, endings: map<nat, Ending>)
    requires Enabled(cfg, s, Finish(w, endings)) && WorkersOk(s)
    ensures WorkersOk(Exec(cfg, s, Finish(w, endings)))
  {
    var s' := Exec(cfg, s, Finish(w, endings));
    var op := s.workers[w].op;
    assert s'.workers == s.workers - {w} && s'.tasks == WriteEndings(s.tasks, op, endings) && endings.Keys == s.workers[w].rows;
    hide Enabled, Exec;
    forall v, k | v in s'.workers
      ensures HasRow(s', v, k)
    {
      assert HasRow(s, v, k) && SameRow(s, v, w, k);
    }
    forall u, v, k | u in s'.workers && v in s'.workers
      ensures SameRow(s', u, v, k)
    {
      assert SameRow(s, u, v, k);
    }
    forall k | k in s'.tasks
      ensures HeldRow(s', k)
    {
      assert HeldRow(s, k);
      if s'.tasks[k].slot.status == SlotRunning {
        assert k !in endings && s.tasks[k].slot.status == SlotRunning;
        var v :| v in s.workers && k in s.workers[v].rows;
        assert k in s'.workers[v].rows;
      }
    }
  }

  /** A step that leaves the workers alone keeps them consistent when it starts no operation and
      takes rows away only by withdrawing them. */
  lemma OtherStepsKeepWorkers(s: State, s': State)
    requires WorkersOk(s) && s'.workers == s.workers && s.tasks.Keys <= s'.tasks.Keys
    requires forall k {:trigger KeepsHold(s, s', k)} | k in s'.tasks :: KeepsHold(s, s', k)
    ensures WorkersOk(s')
  {
    forall v, k | v in s'.workers
      ensures HasRow(s', v, k)
    {
      assert HasRow(s, v, k);
      if k in s.workers[v].rows { assert KeepsHold(s, s', k); }
    }
    forall u, v, k | u in s'.workers && v in s'.workers
      ensures SameRow(s', u, v, k)
    {
      assert SameRow(s, u, v, k);
    }
    forall k | k in s'.tasks
      ensures HeldRow(s', k)
    {
      assert KeepsHold(s, s', k);
      if s'.tasks[k].slot.status == SlotRunning {
        assert HeldRow(s, k);
        var v :| v in s.workers && k in s.workers[v].rows;
        assert k in s'.workers[v].rows;
      }
    }
  }

  predicate KeepsHold(s: State, s': State, k: nat)
    requires k in s'.tasks
  {
    var n := s'.tasks[k];
    && (n.slot.status == SlotRunning ==> k in s.tasks && s.tasks[k].slot == n.slot)
    && (k in s.tasks && s.tasks[k].slot.status == SlotRunning ==> n.slot == s.tasks[k].slot || Withdrawn(n))
    && (k in s.tasks && Withdrawn(s.tasks[k]) ==> Withdrawn(n))
  }

  lemma AppliedKeepsHold(cfg: Config, s: State, s': State, id: nat, ctx: Context, inserted: bool, k: nat)
    requires Applicable(s.tasks, id, ctx) && Applied(cfg, s.tasks, s'.tasks, id, ctx, inserted) && k in s'.tasks
    ensures KeepsHold(s, s', k)
  {
    hide WrittenRow;
    if k != id && k in s.tasks {
      assert OtherRow(s.tasks, s'.tasks, id, k, ctx.now);
    }
  }

  // ---- Pools ----

  lemma OneMoreWorker(s: State, s': State, w: nat, worker: Worker, op: Operation)
    requires w !in s.workers && s'.workers == s.workers[w := worker]
    ensures |PoolWorkers(s', op)| == |PoolWorkers(s, op)| + if op == worker.op then 1 else 0
  {
    assert PoolWorkers(s', op) == PoolWorkers(s, op) + if op == worker.op then {w} else {};
  }

  lemma StartKeepsPools(cfg: Config, s: State, w: nat, op: Operation, rows: set<nat>, now: int)
    requires Enabled(cfg, s, StartWorker(w, op, rows, now)) && PoolsOk(cfg, s)
    ensures PoolsOk(cfg, Exec(cfg, s, StartWorker(w, op, rows, now)))
  {
    var s' := Exec(cfg, s, StartWorker(w, op, rows, now));
    assert s'.workers == s.workers[w := Worker(op, rows)] && w !in s.workers && |rows| <= cfg.BatchSize(op);
    assert |PoolWorkers(s, op)| < cfg.Workers(op) && op != OpNone && rows != {};
    hide Enabled, Exec, PoolWorkers;
    forall o | o != OpNone
      ensures PoolOk(cfg, s', o)
    {
      assert PoolOk(cfg, s, o);
      OneMoreWorker(s, s', w, Worker(op, rows), o);
    }
    forall v | v in s'.workers
      ensures BatchOk(cfg, s'.workers[v])
    {
      if v != w { assert BatchOk(cfg, s.workers[v]); }
    }
  }

  lemma FewerWorkersKeepPools(cfg: Config, s: State, s': State)
    requires PoolsOk(cfg, s) && s'.workers.Keys <= s.workers.Keys
    requires forall w | w in s'.workers :: s'.workers[w] == s.workers[w]
    ensures PoolsOk(cfg, s')
  {
    forall o | o != OpNone
      ensures PoolOk(cfg, s', o)
    {
      assert PoolOk(cfg, s, o);
      assert PoolWorkers(s', o) <= PoolWorkers(s, o);
      SubsetIsNoLarger(PoolWorkers(s', o), PoolWorkers(s, o));
    }
    forall v | v in s'.workers
      ensures BatchOk(cfg, s'.workers[v])
    {
      assert BatchOk(cfg, s.workers[v]);
    }
  }

  lemma SubsetIsNoLarger<T>(a: set<T>, b: set<T>)
    requires a <= b
    ensures |a| <= |b|
  {
    assert b == a + (b - a);
  }
}
