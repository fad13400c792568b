/** The engine object of `taskengine/`: its tables and worker pools as fields, its operations as
    methods that rewrite rows the way the code does, each proved to be a step of the state machine. */
module TaskEngine {
  import opened Wrappers
  import opened Models
  import opened Config
  import opened Progression
  import opened Dispatch
  import opened StateMachine
  import opened ApplyEffect
  import opened Frames
  import opened GroupInvariant
  import opened SlotInvariant
  import opened ClientInvariant
  import opened Invariant
  import opened Lifecycle
  import opened Aggregation
  import opened DueTasks
  import opened DispatchPlan
  import opened RecoveryLoop
  import opened AbortChecks
  import opened Reachable
  import opened DispatchRules
  import opened AnswerEffects

  /** A client API key: a limit that is not positive is no limit. */
  class ApiKey {
    const useLimit: int
    var usedCount: nat

    constructor (useLimit: int)
      ensures this.useLimit == useLimit && usedCount == 0
    {
      this.useLimit := useLimit;
      usedCount := 0;
    }
  }

  datatype SubmitError = RepeatNotPositive | InvalidArgs | QuotaExceeded

  class Engine {
    const cfg: Config
    var clock: int
    var clients: ClientTasks
    var tasks: Tasks
    var workers: map<nat, Worker>
    var relayEnded: set<string>

    function Snapshot(): State
      reads this
    {
      State(clock, clients, tasks, workers, relayEnded)
    }

    /** An engine over an empty database; an invalid configuration is refused. */
    constructor (cfg: Config)
      requires cfg.Valid()
      ensures this.cfg == cfg && Snapshot() == INITIAL
    {
      this.cfg := cfg;
      clock, clients, tasks, workers, relayEnded := 0, map[], map[], map[], {};
    }

    // ---- taskengine/engine.go ----

    /** A submission is refused with nothing changed, or counts against the key, never past its limit,
        and inserts one unexpanded client task. `normalized` is the normalised form of the arguments. */
    method CreateTask(clientId: nat, key: ApiKey?, submission: Submission, normalized: Option<string>, repeatNum: Option<int>,
                      newId: nat, now: int)
      returns (r: Result<ClientTask, SubmitError>)
      requires clock <= now && newId !in clients
      modifies this`clock, this`clients, key
      ensures var repeats := match repeatNum case Some(n) => n case None => cfg.defaultRepeatNum;
              && (r == Err(RepeatNotPositive) <==> repeats <= 0)
              && (r == Err(InvalidArgs) <==> repeats > 0 && normalized.None?)
              && (r == Err(QuotaExceeded) <==>
                    repeats > 0 && normalized.Some? && key != null && 0 < key.useLimit <= old(key.usedCount))
      ensures r.Err? ==> Snapshot() == old(Snapshot()) && (key != null ==> key.usedCount == old(key.usedCount))
      ensures r.Ok? ==>
                && Snapshot() == Exec(cfg, old(Snapshot()), Submit(newId, clientId, submission.(taskArgs := normalized.value), repeatNum, now))
                && newId in clients && r.value == clients[newId] && !r.value.expanded && r.value.repeatNum > 0
                && r.value.submission == Some(submission.(taskArgs := normalized.value))
                && (key != null ==> key.usedCount == old(key.usedCount) + 1 && (key.useLimit > 0 ==> key.usedCount <= key.useLimit))
    {
      var repeats := if repeatNum.Some? then repeatNum.value else cfg.defaultRepeatNum;
      if repeats <= 0 { return Err(RepeatNotPositive); }
      if normalized.None? { return Err(InvalidArgs); }
      if key != null {
        if key.useLimit > 0 && key.usedCount >= key.useLimit { return Err(QuotaExceeded); }
        key.usedCount := key.usedCount + 1;
      }
      var stored := submission.(taskArgs := normalized.value);
      var record := ClientTask(clientId, stored.taskType, Some(stored), repeats, ClientRunning, 0, false, false, now);
      clock, clients := now, clients[newId := record];
      r := Ok(record);
    }

    // ---- taskengine/scheduler.go ----

    method RecalculateClientTask(id: nat) returns (ok: bool)
      modifies this`clients
      ensures ok <==> id in old(clients)
      ensures clients == if ok then old(clients)[id := Recalculated(tasks, id, old(clients)[id])] else old(clients)
    {
      if id !in clients { return false; }
      ok := true;
      var c := clients[id];
      if c.status != ClientRunning || !c.expanded {
        assert clients == clients[id := c];
        return;
      }
      if Members(tasks, id) == {} {
        assert clients == clients[id := c];
        return;
      }
      var v := Aggregate(tasks, id);
      c := c.(failedCount := v.failedCount);
      if v.success {
        c := c.(status := ClientSuccess);
      } else if v.allFinished {
        c := c.(status := ClientFailed);
      }
      clients := clients[id := c];
    }

    /** The rows of one client task, built in a loop and inserted by one transaction. */
    method ExpandClientTask(c: nat, repeats: seq<Repeat>, now: int) returns (ok: bool)
      requires clock <= now && c in clients && Expandable(clients[c], now)
      requires FreshRepeats(tasks, repeats) && |repeats| == clients[c].repeatNum
      modifies this`clock, this`tasks, this`clients
      ensures ok <==> old(clients[c].submission).Some?
      ensures Snapshot() == Exec(cfg, old(Snapshot()), if ok then Expand(c, repeats, now) else ExpandFailed(c, now))
    {
      hide FreshRepeats, PrimaryTask;
      ghost var s := Snapshot();
      assert Enabled(cfg, s, ExpandFailed(c, now));
      assert clients[c].submission.Some? ==> Enabled(cfg, s, Expand(c, repeats, now));
      clock := now;
      var current := clients[c];
      if current.submission.None? {
        clients := clients[c := current.(nextActionAt := now + cfg.retryInterval)];
        return false;
      }
      var rows: seq<InferenceTask> := [];
      for i := 0 to current.repeatNum
        invariant clock == now && clients == old(clients) && tasks == old(tasks)
        invariant |rows| == i && forall j | 0 <= j < i :: rows[j] == PrimaryTask(current, c, repeats[j], now)
      {
        rows := rows + [PrimaryTask(current, c, repeats[i], now)];
      }
      assert repeats[..0] == [];
      for i := 0 to |rows|
        invariant clock == now && clients == old(clients)
        invariant tasks == InsertPrimaries(old(tasks), current, c, repeats[..i], now)
      {
        assert repeats[..i + 1][..i] == repeats[..i];
        tasks := tasks[repeats[i].identity.id := rows[i]];
      }
      assert repeats[..|rows|] == repeats;
      clients := clients[c := current.(expanded := true, submission := None, nextActionAt := now)];
      ok := true;
    }

    /** The process restarts: no worker survives, every interrupted operation is freed and reconciled. */
    method Recover(now: int)
      requires clock <= now
      modifies this
      ensures Snapshot() == Exec(cfg, old(Snapshot()), StateMachine.Recover(now))
    {
      hide Recalculated, LostValidationIn, ValidatingGroup;
      clock, workers := now, map[];
      ghost var before := clients;
      var loaded := tasks;
      var running := RunningRows(loaded);
      tasks := FreeRunning(tasks, now);
      ghost var freed := tasks;
      assert tasks == UncheckedFor(loaded, freed, running - running, now) by { UncheckedNone(loaded, freed, running - running, now); }
      var pending := running;
      while pending != {}
        invariant pending <= running && clients == before
        invariant tasks == UncheckedFor(loaded, freed, running - pending, now)
        invariant workers == map[] && clock == now && relayEnded == old(relayEnded)
      {
        var j :| j in pending;
        UncheckedNext(loaded, freed, running - pending, j, now);
        if loaded[j].slot.op == OpValidate {
          tasks := MarkGroupUnchecked(tasks, loaded[j].spec.taskId, now);
        }
        assert running - (pending - {j}) == (running - pending) + {j};
        pending := pending - {j};
      }
      assert running - {} == running;
      UncheckedAll(loaded, now);
      RecalculateRunning();
    }

    method RecalculateRunning()
      modifies this`clients
      ensures clients == RecoveredClients(old(clients), tasks)
    {
      hide Recalculated;
      var running := RunningClients(clients);
      var pending := running;
      assert clients == RecalculatedFor(clients, tasks, running - running);
      while pending != {}
        invariant pending <= running && clients.Keys == old(clients).Keys
        invariant clients == RecalculatedFor(old(clients), tasks, running - pending)
      {
        var c :| c in pending;
        var ok := RecalculateClientTask(c);
        assert running - (pending - {c}) == (running - pending) + {c};
        pending := pending - {c};
      }
      assert running - {} == running;
      RecalculatedAll(old(clients), tasks);
    }

    // ---- taskengine/progression.go ----

    /** On an error some rows may be half written; the caller's transaction rolls them back. */
    method ApplyRelayStatus(id: nat, item: StatusItem, ctx: Context) returns (ok: bool)
      requires id in tasks
      modifies this`tasks
      ensures ok <==> Progression.ApplyRelayStatus(cfg, old(tasks), id, item, ctx).Some?
      ensures ok ==> tasks == Progression.ApplyRelayStatus(cfg, old(tasks), id, item, ctx).value
      ensures NewIds(old(tasks), ctx) ==>
                if BringsSeed(cfg, old(tasks)[id], item, ctx) && SeedRefused(cfg, old(tasks)[id], item, |Companions(old(tasks), id)| == 1) then !ok
                else ok && StatusWritten(cfg, old(tasks), id, item, ctx, tasks)
    {
      hide StatusWritten, BringsSeed, SeedRefused, NewIds, Companions, LooksAtSeed;
      hide Progression.PersistVrfAndMembers, RelayStatusToLocal, StatusSyncNextActionAt, HeartbeatQueuedTimedOut;
      if NewIds(tasks, ctx) { StatusEffect(cfg, tasks, id, item, ctx); }
      LooksWhen(cfg, tasks[id], item, ctx);
      var t := tasks[id];
      if !item.found {
        var updated := t.(relayChecked := true, relayFound := false, unknown := false, cancelRequired := false, nextActionAt := ctx.now);
        if t.status != Pending { updated := updated.(status := EndAborted); }
        tasks := tasks[id := updated];
        return true;
      }
      if t.status == EndAborted && t.cancelRequired && !ChainTerminal(item.status) {
        tasks := tasks[id := t.(relayChecked := true, relayFound := true, unknown := false, nextActionAt := ctx.now)];
        return true;
      }
      if item.status == ChainQueued && HeartbeatQueuedTimedOut(cfg, t, ctx) {
        var updated := t.(status := EndAborted, abortReason := CreatorCancelled, relayChecked := true, relayFound := true,
                          unknown := false, nextActionAt := ctx.now);
        if t.commitment != "" { updated := updated.(cancelRequired := true); }
        tasks := tasks[id := updated];
        return true;
      }
      var local := RelayStatusToLocal(item.status);
      var updated := t.(status := local, abortReason := item.abortReason, taskError := item.taskError,
                        sequence := item.sequence, relayChecked := true, relayFound := true, unknown := false,
                        exec := Execution(item.gpu, item.gpuVram, item.modelFiles, item.estimatedCompletionAt, item.resultAvailable),
                        nextActionAt := StatusSyncNextActionAt(ctx.now, local, item.estimatedCompletionAt, cfg));
      if t.cancelRequired && local != Created { updated := updated.(cancelRequired := false); }
      assert updated == SyncedRow(cfg, t, item, ctx);
      tasks := tasks[id := updated];
      if t.vrf.seed == "" && item.samplingSeed != "" {
        ok := PersistVrfAndMembers(id, item, ctx);
      } else {
        ok := true;
      }
    }

    method PersistVrfAndMembers(id: nat, item: StatusItem, ctx: Context) returns (ok: bool)
      requires id in tasks
      modifies this`tasks
      ensures ok <==> Progression.PersistVrfAndMembers(cfg, old(tasks), id, item, ctx).Some?
      ensures ok ==> tasks == Progression.PersistVrfAndMembers(cfg, old(tasks), id, item, ctx).value
      ensures NewIds(old(tasks), ctx) ==>
                if SeedRefused(cfg, old(tasks)[id], item, |Companions(old(tasks), id)| == 1) then !ok
                else ok && cfg.prove(item.samplingSeed).Some? && SeedWritten(cfg, old(tasks), id, old(tasks)[id], item, ctx, tasks)
    {
      if NewIds(tasks, ctx) {
        SeedEffect(cfg, tasks, id, tasks[id], item, ctx);
        assert tasks[id := tasks[id]] == tasks;
      }
      hide SeedWritten, SeedRefused, NewIds, Companions;
      hide VssMember, ExecutionAssigned;
      var t := tasks[id];
      var output := cfg.prove(item.samplingSeed);
      if output.None? { return false; }
      var number, proof := output.value.number, output.value.proof;
      if VrfNeedValidation(number) && !ExecutionAssigned(t.spec.taskType, item) { return true; }
      var vrf := Vrf(item.samplingSeed, number, proof);
      ghost var before := tasks;
      tasks := tasks[id := t.(vrf := vrf)];
      assert Group(tasks, t.spec.taskId) == Group(before, t.spec.taskId);
      if !VrfNeedValidation(number) { return true; }
      if |Group(tasks, t.spec.taskId)| != 1 { return true; }
      var pinned := cfg.pinArgs(t.spec.taskArgs, t.spec.taskType, item.modelFiles);
      if pinned.None? { return false; }
      var identities := [ctx.first, ctx.second];
      ghost var persisted := tasks;
      for i := 0 to 2
        invariant tasks == (if i == 0 then persisted
                            else
                              var one := persisted[ctx.first.id := VssMember(t, item, vrf, pinned.value, ctx.first.commitment, ctx.now)];
                              if i == 1 then one
                              else one[ctx.second.id := VssMember(t, item, vrf, pinned.value, ctx.second.commitment, ctx.now)])
      {
        tasks := tasks[identities[i].id := VssMember(t, item, vrf, pinned.value, identities[i].commitment, ctx.now)];
      }
      ok := true;
    }

    method ApplyMutation(id: nat, ctx: Context) returns (ok: bool)
      requires id in tasks && tasks[id].slot.op != OpSync
      modifies this`tasks
      ensures ok <==> OperationEffect(cfg, old(tasks), id, ctx).Some?
      ensures ok ==> tasks == OperationEffect(cfg, old(tasks), id, ctx).value
    {
      hide Progression.ApplyRelayStatus;
      var t := tasks[id];
      match t.slot.op {
        case OpCreate =>
          if !t.slot.reply.OutcomeReply? { return false; }
          var outcome := t.slot.reply.outcome;
          if outcome == OutcomeCreated || outcome == OutcomeAlreadyExists {
            tasks := tasks[id := t.(status := Created, relayChecked := true, relayFound := true, unknown := false, nextActionAt := ctx.now)];
          } else if outcome == OutcomeTemporaryError {
            tasks := tasks[id := t.(nextActionAt := ctx.now + cfg.retryInterval)];
          } else {
            tasks := tasks[id := t.(status := EndAborted, abortReason := CreatorCancelled, nextActionAt := ctx.now)];
          }
        case OpValidate =>
          if !t.slot.reply.OutcomeReply? { return false; }
          var outcome := t.slot.reply.outcome;
          if outcome == OutcomeValidated || outcome == OutcomeAlreadyApplied {
            tasks := MarkGroupSubmitted(tasks, t.spec.taskId, ctx.now);
          } else if outcome == OutcomeTemporaryError {
            tasks := tasks[id := t.(nextActionAt := ctx.now + cfg.retryInterval)];
          } else {
            tasks := AbortGroup(tasks, t.spec.taskId, ctx.now);
          }
        case OpCancel =>
          var updated := t.(cancelRequired := false, nextActionAt := ctx.now);
          if t.status == EndAborted { updated := updated.(abortReason := CreatorCancelled); }
          tasks := tasks[id := updated];
        case OpResult =>
          tasks := tasks[id := t.(status := ResultDownloaded, nextActionAt := ctx.now)];
        case _ =>
          return false;
      }
      ok := true;
    }

    method FailOperation(id: nat, now: int)
      requires id in tasks
      modifies this`tasks
      ensures tasks == FailureEffect(cfg, old(tasks), id, now)
    {
      var t := tasks[id];
      if t.unknown && t.slot.op == OpValidate {
        tasks := MarkGroupUnchecked(tasks, t.spec.taskId, now);
      }
      tasks := tasks[id := tasks[id].(slot := EMPTY_SLOT, retries := t.retries + 1, nextActionAt := now + cfg.retryInterval)];
    }

    method ApplyCompleted(id: nat, ctx: Context) returns (ok: bool)
      requires id in tasks
      modifies this`tasks
      ensures ok <==> OperationEffect(cfg, old(tasks), id, ctx).Some?
      ensures ok ==> tasks == OperationEffect(cfg, old(tasks), id, ctx).value
    {
      hide Progression.ApplyRelayStatus;
      var t := tasks[id];
      if t.slot.op != OpSync {
        ok := ApplyMutation(id, ctx);
      } else if t.slot.reply.StatusReply? {
        ok := ApplyRelayStatus(id, t.slot.reply.item, ctx);
      } else {
        ok := false;
      }
    }

    /** The transaction either commits and is the state machine's step, or rolls back and changes
        no row. */
    method ApplyOperationResult(id: nat, ctx: Context) returns (committed: bool)
      requires Applicable(tasks, id, ctx) && clock <= ctx.now
      modifies this`clock, this`tasks, this`clients
      ensures Snapshot() == ApplyStep(cfg, old(Snapshot()), id, ctx)
      ensures !committed ==> tasks == old(tasks) && clients == old(clients)
      ensures committed && old(tasks)[id].slot.status == SlotCompleted ==>
                && OperationEffect(cfg, old(tasks), id, ctx).Some?
                && Follows(OperationEffect(cfg, old(tasks), id, ctx).value, tasks, id, ctx.now)
    {
      hide OperationEffect, FailureEffect, ScheduleSiblingCancellation, Recalculated;
      var savedTasks, savedClients := tasks, clients;
      clock := ctx.now;
      var t := tasks[id];
      if t.slot.status == SlotFailed {
        FailOperation(id, ctx.now);
        return true;
      }
      committed := ApplyCompleted(id, ctx);
      if committed {
        tasks := tasks[id := tasks[id].(slot := EMPTY_SLOT)];
        SiblingsCaught(tasks, id, ctx.now);
        tasks := ScheduleSiblingCancellation(tasks, id, ctx.now);
        committed := RecalculateClientTask(t.spec.clientTaskId);
      }
      if !committed {
        tasks, clients := savedTasks, savedClients;
      }
    }

    // ---- taskengine/dispatch.go ----

    /** All rows of a batch, or none: a row that already has an operation undoes the batch. */
    method MarkBatchRunning(batch: seq<nat>, op: Operation) returns (ok: bool)
      modifies this`tasks
      ensures ok <==> CanMark(old(tasks), batch)
      ensures tasks == if ok then MarkRunning(old(tasks), Rows(batch), op) else old(tasks)
    {
      var saved := tasks;
      for i := 0 to |batch|
        invariant tasks == MarkRunning(saved, Rows(batch[..i]), op)
        invariant CanMark(saved, batch[..i])
      {
        var k := batch[i];
        if k !in tasks || tasks[k].slot.status != SlotNone {
          tasks := saved;
          assert k in batch[..i] ==> exists j | 0 <= j < i :: batch[j] == k;
          return false;
        }
        assert batch[..i + 1] == batch[..i] + [k];
        assert Rows(batch[..i + 1]) == Rows(batch[..i]) + {k};
        tasks := tasks[k := tasks[k].(slot := Slot(op, SlotRunning, NoReply))];
      }
      assert batch[..|batch|] == batch;
      ok := true;
    }

    /** One kind: batches are started while there are rows and free slots. A batch that cannot be
        marked gives its slot back and ends the round. New workers are numbered from `first`. */
    method DispatchKind(op: Operation, rows: seq<nat>, first: nat, now: int) returns (ok: bool, launches: seq<Launch>)
      requires cfg.Valid() && op != OpNone && clock <= now
      modifies this`clock, this`tasks, this`workers
      ensures clock <= now
      ensures var plan := Batches(op, rows, cfg.BatchSize(op), Free(cfg, old(Snapshot()), op));
              && launches <= plan && (ok <==> launches == plan)
              && (!ok ==> !CanMark(tasks, plan[|launches|].rows))
      ensures Snapshot() == LaunchAll(old(Snapshot()), first, launches, now)
    {
      hide MarkRunning, PoolWorkers, Batches, LaunchAll;
      PlanStart(cfg, Snapshot(), []);
      var size := cfg.BatchSize(op);
      var values := rows;
      var available := cfg.Workers(op) - |PoolWorkers(Snapshot(), op)|;
      launches := [];
      while |values| > 0 && available > 0
        invariant Batches(op, rows, size, Free(cfg, old(Snapshot()), op)) == launches + Batches(op, values, size, available)
        invariant clock <= now && Snapshot() == LaunchAll(old(Snapshot()), first, launches, now)
        decreases |values|
      {
        var count := if size > |values| then |values| else size;
        var batch := values[..count];
        var l := Launch(op, batch);
        BatchNext(op, values, size, available);
        var marked := MarkBatchRunning(batch, op);
        if !marked { return false, launches; }
        LaunchNext(old(Snapshot()), first, launches, l, now);
        workers := workers[first + |launches| := Worker(op, Rows(batch))];
        clock := now;
        values := values[count..];
        available := available - 1;
        assert launches + ([l] + Batches(op, values, size, available)) == launches + [l] + Batches(op, values, size, available);
        launches := launches + [l];
      }
      BatchesEnd(op, values, size, available);
      ok := true;
    }

    /** Each kind in turn, in the code's order of pools. On success the round starts exactly the plan
        of its decisions; otherwise a prefix of it, and the next batch had a row that was taken. */
    method DispatchDecisions(decisions: seq<Decision>, first: nat, now: int) returns (ok: bool, launches: seq<Launch>)
      requires cfg.Valid() && FreshWorkers(workers, first) && clock <= now
      modifies this`clock, this`tasks, this`workers
      ensures Snapshot() == LaunchAll(old(Snapshot()), first, launches, now)
      ensures var plan := Plan(cfg, old(Snapshot()), decisions, |KINDS|);
              && launches <= plan && (ok <==> launches == plan)
              && (!ok ==> !CanMark(tasks, plan[|launches|].rows))
    {
      hide FreshWorkers, Plan, LaunchAll;
      ghost var s := Snapshot();
      launches := [];
      PlanStart(cfg, s, decisions);
      for n := 0 to |KINDS|
        invariant clock <= now && launches == Plan(cfg, s, decisions, n)
        invariant Snapshot() == LaunchAll(s, first, launches, now)
      {
        var op := KINDS[n];
        KindPlanIsStable(cfg, s, first, decisions, n, now);
        var rows := RowsOfKind(decisions, op);
        var done, more := DispatchKind(op, rows, first + |launches|, now);
        LaunchAllAppend(s, first, launches, more, now);
        PlanNext(cfg, s, decisions, n, launches, more);
        launches := launches + more;
        if !done { return false, launches; }
      }
      ok := true;
    }

    method AllWorkerPoolsFull() returns (full: bool)
      ensures full <==> forall op | op in KINDS :: |PoolWorkers(Snapshot(), op)| >= cfg.Workers(op)
    {
      for n := 0 to |KINDS|
        invariant forall i | 0 <= i < n :: |PoolWorkers(Snapshot(), KINDS[i])| >= cfg.Workers(KINDS[i])
      {
        if |PoolWorkers(Snapshot(), KINDS[n])| < cfg.Workers(KINDS[n]) { return false; }
      }
      full := true;
    }

    /** One round: it never fails, it is a run of the state machine, and it starts exactly the plan of
        the decisions for the rows the queries list. */
    method DispatchDueTasks(now: int) returns (ok: bool, order: seq<nat>, launches: seq<Launch>, first: nat)
      requires cfg.Valid() && clock <= now
      modifies this`clock, this`tasks, this`workers
      ensures ok && forall k | k in order :: k in old(tasks)
      ensures Snapshot() == Run(cfg, old(Snapshot()), StartSteps(first, launches, now))
      ensures launches == Plan(cfg, old(Snapshot()), DecisionsFor(old(tasks), order), |KINDS|)
      ensures Distinct(order) && forall k | k in order :: k in SelectedRows(old(tasks), now)
      ensures forall k | k in order ::
                Serves(old(Snapshot()), Snapshot(), k) || |PoolWorkers(Snapshot(), Decide(old(tasks), k))| >= cfg.Workers(Decide(old(tasks), k))
      ensures (exists op | op in KINDS :: Free(cfg, old(Snapshot()), op) > 0) ==>
                forall q: nat {:trigger Covered(old(tasks), q, now, cfg.dueTaskBatchSize, order)} | q < QUERY_COUNT ::
                  Covered(old(tasks), q, now, cfg.dueTaskBatchSize, order)
    {
      hide Covered, Plan, LaunchAll, Decide, FreshWorkers;
      ghost var s := Snapshot();
      PlanStart(cfg, s, []);
      first := UnusedWorker(workers);
      var full := AllWorkerPoolsFull();
      if full {
        NothingPlanned(cfg, s, |KINDS|);
        return true, [], [], first;
      }
      order := LoadDueTasks(tasks, now, cfg.dueTaskBatchSize);
      EverySelectedRowIsDecided(s, order, now);
      var decided, decisions := DecideAll(tasks, order);
      if !decided { return false, order, [], first; }
      PlanIsStartable(cfg, s, decisions, now);
      ok, launches := DispatchDecisions(decisions, first, now);
      if !ok { PlanCanMark(cfg, s, first, decisions, launches, now); }
      LaunchesAreSteps(cfg, s, first, launches, now);
      RoundServes(cfg, s, first, order, now);
    }

    /** `UPDATE ... WHERE operation_status = 'running'`: it misses a row whose operation was taken away. */
    method WriteEnding(k: nat, op: Operation, e: Ending) returns (ok: bool)
      requires k in tasks
      modifies this`tasks
      ensures ok <==> old(tasks)[k].slot.status == SlotRunning
      ensures tasks == old(tasks)[k := EndedRow(old(tasks)[k], op, e)]
    {
      var t := tasks[k];
      ok := t.slot.status == SlotRunning;
      if ok {
        var slot := if e.Answered? then Slot(t.slot.op, SlotCompleted, e.reply) else Slot(t.slot.op, SlotFailed, NoReply);
        tasks := tasks[k := t.(slot := slot, unknown := if e.Lost? then LossIsUnknown(op) else t.unknown)];
      } else {
        assert tasks == tasks[k := t];
      }
    }

    /** The answers are written one by one, up to the first row that is gone. */
    method StoreReplies(op: Operation, batch: seq<nat>, replies: seq<Reply>) returns (written: map<nat, Ending>, failed: bool)
      requires Distinct(batch) && Rows(batch) <= tasks.Keys && |replies| == |batch|
      modifies this`tasks
      ensures tasks == WriteEndings(old(tasks), op, written) && written.Keys <= Rows(batch)
      ensures forall i | 0 <= i < |batch| && batch[i] in written :: written[batch[i]] == Answered(replies[i])
      ensures failed <==> exists k | k in batch :: old(tasks)[k].slot.status != SlotRunning
      ensures !failed ==> written.Keys == Rows(batch)
    {
      hide EndedRow;
      written, failed := map[], false;
      NothingWritten(tasks, op);
      for i := 0 to |batch|
        invariant written.Keys == Rows(batch[..i]) && !failed
        invariant forall j | 0 <= j < i :: written[batch[j]] == Answered(replies[j]) && old(tasks)[batch[j]].slot.status == SlotRunning
        invariant tasks == WriteEndings(old(tasks), op, written)
      {
        var e := Answered(replies[i]);
        assert batch[i] in Rows(batch);
        NextEnding(old(tasks), op, written, batch, i, e);
        var ok := WriteEnding(batch[i], op, e);
        written := written[batch[i] := e];
        if !ok {
          failed := true;
          return;
        }
      }
      assert batch[..|batch|] == batch;
    }

    /** `writeBatchFailure`: every row of the batch that is still running is failed. */
    method FailRest(ghost before: Tasks, op: Operation, written: map<nat, Ending>, batch: seq<nat>) returns (endings: map<nat, Ending>)
      requires tasks == WriteEndings(before, op, written) && written.Keys <= Rows(batch) <= before.Keys
      modifies this`tasks
      ensures endings.Keys == Rows(batch) && tasks == WriteEndings(before, op, endings)
      ensures forall k | k in endings :: endings[k] == if k in written then written[k] else Lost
    {
      hide EndedRow;
      endings := written;
      for i := 0 to |batch|
        invariant endings.Keys == written.Keys + Rows(batch[..i])
        invariant forall k | k in endings :: endings[k] == if k in written then written[k] else Lost
        invariant tasks == WriteEndings(before, op, endings)
      {
        var k := batch[i];
        assert k in Rows(batch);
        FailOnce(before, op, endings, k);
        assert Rows(batch[..i + 1]) == Rows(batch[..i]) + {k} by { assert batch[..i + 1] == batch[..i] + [k]; }
        var ok := WriteEnding(k, op, Lost);
        if k !in endings { endings := endings[k := Lost]; }
      }
      assert batch[..|batch|] == batch;
    }

    /** A worker's writes. Answers are stored one by one; at the first row that is gone, or when the
        request failed or was answered for the wrong number of rows, every row still running is failed.
        Whatever happens, the worker ends and its slot is released: one `Finish` of the state machine. */
    method RunWorker(w: nat, batch: seq<nat>, replies: Option<seq<Reply>>) returns (ghost endings: map<nat, Ending>)
      requires w in workers && Distinct(batch) && Rows(batch) == workers[w].rows && workers[w].rows <= tasks.Keys
      requires replies.Some? ==> forall i | 0 <= i < |replies.value| :: ReplyFits(workers[w].op, Answered(replies.value[i]))
      modifies this`tasks, this`workers, this`relayEnded
      ensures Snapshot() == Exec(cfg, old(Snapshot()), Finish(w, endings))
      ensures endings.Keys == Rows(batch)
      ensures forall i | 0 <= i < |batch| :: endings[batch[i]] == Lost
                || (replies.Some? && |replies.value| == |batch| && endings[batch[i]] == Answered(replies.value[i]))
      ensures replies.Some? && |replies.value| == |batch| && (forall k | k in batch :: old(tasks)[k].slot.status == SlotRunning) ==>
                forall i | 0 <= i < |batch| :: endings[batch[i]] == Answered(replies.value[i])
    {
      hide EndedRow, ReplyFits, WriteEndings, NewlyEnded, Exec, Distinct;
      var op := workers[w].op;
      ghost var before := tasks;
      var failed := replies.None? || |replies.value| != |batch|;
      var written: map<nat, Ending> := map[];
      if failed {
        NothingWritten(before, op);
      } else {
        written, failed := StoreReplies(op, batch, replies.value);
      }
      if failed {
        written := FailRest(before, op, written, batch);
      }
      SameCommitmentsEnd(before, op, written);
      EndingsFit(op, batch, replies, written);
      FinishIsThis(cfg, Snapshot().(tasks := before), w, written);
      relayEnded := relayEnded + NewlyEnded(tasks, written);
      workers := workers - {w};
      endings := written;
    }

    // ---- taskengine/abort.go ----

    method MarkUnexpandedCancelled(c: nat) returns (error: Option<AbortError>)
      requires c in clients
      modifies this`clients
      ensures Snapshot() == Exec(cfg, old(Snapshot()), AbortUnexpanded(c))
      ensures error.None? ==> c in clients && clients[c].status == ClientFailed && clients[c].creatorCancelled
      ensures error.Some? ==> error.value == NotCancellable && clients == old(clients)
    {
      var current := clients[c];
      if current.status == ClientFailed && current.creatorCancelled { return None; }
      if current.status != ClientRunning || current.expanded { return Some(NotCancellable); }
      clients := clients[c := current.(status := ClientFailed, creatorCancelled := true, failedCount := 0)];
      error := None;
    }

    /** The last transaction of an abort. */
    method ApplyCreatorAbortLocalState(c: nat, without: set<nat>, cancelled: set<nat>, full: bool)
      returns (clientFailed: bool, error: Option<AbortError>)
      requires c in clients && without + cancelled <= Members(tasks, c)
      modifies this`clients, this`tasks
      ensures Snapshot() == Exec(cfg, old(Snapshot()), AbortCommit(c, without, cancelled, full))
      ensures error.Some? <==> !Enabled(cfg, old(Snapshot()), AbortCommit(c, without, cancelled, full))
      ensures error.Some? ==> error.value == NotCancellable && clients == old(clients) && tasks == old(tasks)
      ensures clientFailed <==> error.None? && full && AllStopped(tasks, c)
      ensures clientFailed ==> c in clients && clients[c].status == ClientFailed && clients[c].creatorCancelled
    {
      hide Recalculated;
      clientFailed := false;
      if clients[c].status == ClientSuccess { return false, Some(NotCancellable); }
      var members := Members(tasks, c);
      if AnyDownloaded(tasks, members) { return false, Some(NotCancellable); }
      error := None;
      var ids := (if full then without else {}) + cancelled;
      var pending := ids;
      assert tasks == AbortRows(tasks, ids - ids);
      while pending != {}
        invariant pending <= ids && tasks == AbortRows(old(tasks), ids - pending) && clients == old(clients)
      {
        var k :| k in pending;
        tasks := tasks[k := tasks[k].(status := EndAborted, abortReason := CreatorCancelled, cancelRequired := false, slot := EMPTY_SLOT)];
        assert ids - (pending - {k}) == (ids - pending) + {k};
        pending := pending - {k};
      }
      assert ids - {} == ids;
      var stopped := StoppedWithoutSuccess(tasks, Members(tasks, c));
      if full && stopped {
        clients := clients[c := clients[c].(status := ClientFailed, creatorCancelled := true)];
        clientFailed := true;
      } else {
        var found := RecalculateClientTask(c);
      }
    }

    /** What other goroutines do between two phases of an operation. */
    method Others(steps: seq<Step>)
      modifies this
      ensures Snapshot() == Run(cfg, old(Snapshot()), steps)
    {
      for i := 0 to |steps|
        invariant Snapshot() == Run(cfg, old(Snapshot()), steps[..i])
      {
        assert steps[..i + 1][..i] == steps[..i];
        var s := Exec(cfg, Snapshot(), steps[i]);
        clock, clients, tasks, workers, relayEnded := s.clock, s.clients, s.tasks, s.workers, s.relayEnded;
      }
      assert steps[..|steps|] == steps;
    }

    /** The three phases of a creator abort, with arbitrary engine steps between loading the client
        task and loading its members, and between that and the last transaction. `log` holds the
        members' rows that were checked, the state the last transaction found, and its step.

        A refused check, a refused preflight or a failed request leaves the state as the other steps
        made it, and the first two send nothing. Otherwise the last transaction aborts exactly the
        members Relay says are cancelled. Success means the client task is failed by its creator and
        every member had stopped without a result at that commit; only success sets `creatorCancelled`. */
    method AbortClientTask(clientId: nat, c: nat, preflight: Option<seq<Reported>>, answers: Option<seq<MutationResult>>,
                           beforeMembers: seq<Step>, beforeCommit: seq<Step>)
      returns (r: Result<ClientTask, AbortError>, sent: seq<string>, ghost log: AbortLog)
      requires cfg.Valid() && Inv(cfg, Snapshot()) && DistinctCommitments(tasks)
      modifies this
      ensures r == Err(NotFound) <==> c !in old(clients) || old(clients)[c].clientId != clientId
      ensures r == Err(NotFound) ==> sent == [] && Snapshot() == old(Snapshot())
      ensures r != Err(NotFound) && log.commit.None? ==> Snapshot() == Run(cfg, old(Snapshot()), beforeMembers)
      ensures r != Err(NotFound) && log.commit.Some? ==>
                && log.before == Run(cfg, Run(cfg, old(Snapshot()), beforeMembers), beforeCommit)
                && Snapshot() == Exec(cfg, log.before, log.commit.value)
      ensures r != Err(NotFound) ==> log.loaded == Run(cfg, old(Snapshot()), beforeMembers).tasks
      ensures r != Err(NotFound) && !AlreadyCancelled(old(clients)[c]) && LocallyRefused(old(clients)[c], log.loaded, c) ==>
                r == Err(NotCancellable) && sent == [] && log.commit.None?
      ensures sent != [] ==>
                && NamesUnfinished(log.loaded, c, sent) && Cancellable(log.loaded, Members(log.loaded, c))
                && preflight.Some? && PreflightPasses(sent, preflight.value)
                && (answers.None? ==> r.Err? && log.commit.None?)
                && (answers.Some? ==> log.commit == Some(AbortCommit(c, {}, CancelledMembers(log.loaded, c, answers.value),
                                                                     AllCancelled(log.loaded, c, answers.value))))
      ensures r.Ok? && log.commit.None? ==> AlreadyCancelled(old(clients)[c])
      ensures r.Ok? && log.commit.Some? ==>
                && c in clients && r.value == clients[c] && AlreadyCancelled(clients[c])
                && (log.commit.value.AbortCommit? ==> log.commit.value.full && AllStopped(tasks, c))
      ensures r.Err? && log.commit.Some? ==> SameCancelled(log.before.clients, clients)
    {
      hide Inv, DistinctCommitments, Cancellable, PreflightPasses, SaysCancelled, Exec, Run, Enabled, AllStopped;
      sent, log := [], AbortLog(tasks, Snapshot(), None);
      if c !in clients || clients[c].clientId != clientId { return Err(NotFound), [], log; }
      var client := clients[c];
      RunKeepsAll(cfg, Snapshot(), beforeMembers, c);
      Others(beforeMembers);
      var loaded, members := tasks, Members(tasks, c);
      log := AbortLog(loaded, Snapshot(), None);
      if client.status == ClientFailed && client.creatorCancelled { return Ok(client), [], log; }
      if client.status == ClientSuccess || AnyDownloaded(loaded, members) { return Err(NotCancellable), [], log; }
      if !client.expanded {
        RunKeepsAll(cfg, Snapshot(), beforeCommit, c);
        Others(beforeCommit);
        log := AbortLog(loaded, Snapshot(), Some(AbortUnexpanded(c)));
        var error := MarkUnexpandedCancelled(c);
        if error.Some? { return Err(error.value), [], log; }
        return Ok(clients[c]), [], log;
      }
      var cancellable := AllGroupsCancellable(loaded, members);
      if !cancellable { return Err(NotCancellable), [], log; }
      RowsAreNamed(cfg, Snapshot());
      var cancelled, error, answered;
      sent, cancelled, error, answered := RequestCancellation(loaded, c, preflight, answers);
      if !answered { return Err(error.value), sent, log; }
      RunKeepsAll(cfg, Snapshot(), beforeCommit, c);
      Others(beforeCommit);
      log := AbortLog(loaded, Snapshot(), Some(AbortCommit(c, {}, cancelled, error.None?)));
      AbortCommitEffect(cfg, Snapshot(), c, cancelled, error.None?);
      var clientFailed, commitError := ApplyCreatorAbortLocalState(c, {}, cancelled, error.None?);
      if commitError.Some? { return Err(commitError.value), sent, log; }
      if error.Some? { return Err(error.value), sent, log; }
      if !clientFailed { return Err(NotCancellable), sent, log; }
      r := Ok(clients[c]);
    }
  }

  lemma LooksWhen(cfg: Config, t: InferenceTask, item: StatusItem, ctx: Context)
    ensures LooksAtSeed(cfg, t, item, ctx) <==>
            && item.found && !(t.status == EndAborted && t.cancelRequired && !ChainTerminal(item.status))
            && !(item.status == ChainQueued && HeartbeatQueuedTimedOut(cfg, t, ctx)) && t.vrf.seed == "" && item.samplingSeed != ""
  {
  }

  lemma NextEnding(before: Tasks, op: Operation, written: map<nat, Ending>, batch: seq<nat>, i: nat, e: Ending)
    requires i < |batch| && Distinct(batch) && written.Keys == Rows(batch[..i]) && batch[i] in before
    ensures batch[i] !in written && Rows(batch[..i + 1]) == Rows(batch[..i]) + {batch[i]}
    ensures var tasks := WriteEndings(before, op, written);
            tasks[batch[i] := EndedRow(tasks[batch[i]], op, e)] == WriteEndings(before, op, written[batch[i] := e])
  {
    hide EndedRow;
    assert batch[..i + 1] == batch[..i] + [batch[i]];
  }

  lemma NothingWritten(tasks: Tasks, op: Operation)
    ensures WriteEndings(tasks, op, map[]) == tasks
  {
  }

  lemma FinishIsThis(cfg: Config, s: State, w: nat, endings: map<nat, Ending>)
    requires w in s.workers && endings.Keys == s.workers[w].rows
    requires forall k | k in endings :: ReplyFits(s.workers[w].op, endings[k])
    ensures Exec(cfg, s, Finish(w, endings)) ==
            s.(tasks := WriteEndings(s.tasks, s.workers[w].op, endings), workers := s.workers - {w},
               relayEnded := s.relayEnded + NewlyEnded(s.tasks, endings))
  {
  }

  lemma EndingsFit(op: Operation, batch: seq<nat>, replies: Option<seq<Reply>>, endings: map<nat, Ending>)
    requires endings.Keys == Rows(batch)
    requires replies.Some? ==> forall i | 0 <= i < |replies.value| :: ReplyFits(op, Answered(replies.value[i]))
    requires forall i | 0 <= i < |batch| :: endings[batch[i]] == Lost
               || (replies.Some? && |replies.value| == |batch| && endings[batch[i]] == Answered(replies.value[i]))
    ensures forall k | k in endings :: ReplyFits(op, endings[k])
  {
    forall k | k in endings
      ensures ReplyFits(op, endings[k])
    {
      var i :| 0 <= i < |batch| && batch[i] == k;
    }
  }

  lemma SameCommitmentsEnd(before: Tasks, op: Operation, endings: map<nat, Ending>)
    ensures NewlyEnded(WriteEndings(before, op, endings), endings) == NewlyEnded(before, endings)
  {
    hide ReportsEnd;
    var tasks := WriteEndings(before, op, endings);
    assert forall k | k in before :: k in tasks && tasks[k].commitment == before[k].commitment;
    hide WriteEndings;
  }

  /** Failing a row whose ending is already written changes nothing; otherwise it is lost. */
  lemma FailOnce(before: Tasks, op: Operation, endings: map<nat, Ending>, k: nat)
    requires k in before
    ensures var tasks := WriteEndings(before, op, endings);
            tasks[k := EndedRow(tasks[k], op, Lost)] == WriteEndings(before, op, if k in endings then endings else endings[k := Lost])
  {
    if k in endings {
      var t := EndedRow(before[k], op, endings[k]);
      assert t.slot.status != SlotRunning && EndedRow(t, op, Lost) == t;
    }
    hide EndedRow;
  }

  /** What an abort saw and did: the rows it checked, the state its last transaction found, its step. */
  datatype AbortLog = AbortLog(loaded: Tasks, before: State, commit: Option<Step>)

  predicate SameCancelled(a: ClientTasks, b: ClientTasks) {
    a.Keys == b.Keys && forall d | d in a :: b[d].creatorCancelled == a[d].creatorCancelled
  }

  lemma RunKeepsAll(cfg: Config, s: State, steps: seq<Step>, c: nat)
    requires cfg.Valid() && Inv(cfg, s) && DistinctCommitments(s.tasks) && c in s.clients
    ensures var s' := Run(cfg, s, steps);
            Inv(cfg, s') && DistinctCommitments(s'.tasks) && c in s'.clients && Members(s.tasks, c) <= Members(s'.tasks, c)
  {
    RunKeepsInv(cfg, s, steps);
    RunKeepsRows(cfg, s, steps);
    var n := ClientTaskEndsOnce(cfg, s, steps, c);
    hide Run, Inv, DistinctCommitments;
    var s' := Run(cfg, s, steps);
    forall k | k in Members(s.tasks, c)
      ensures k in Members(s'.tasks, c)
    {
      assert KeptRow(s.tasks[k], s'.tasks[k]);
    }
  }

  lemma RowsAreNamed(cfg: Config, s: State)
    requires Inv(cfg, s) && DistinctCommitments(s.tasks)
    ensures NamedRows(s.tasks)
  {
    hide GroupsOk, WorkersOk, PoolsOk, ClientsOk;
    forall k | k in s.tasks
      ensures s.tasks[k].commitment != ""
    {
      assert SlotOk(s.tasks[k]);
    }
    forall j, k | j in s.tasks && k in s.tasks && j != k
      ensures s.tasks[j].commitment != s.tasks[k].commitment
    {
      assert DistinctAt(s.tasks, j, k);
    }
  }

  /** In every reachable state: a partial answer does not always leave a running client task running. Its
      members are counted again, and it fails, without the creator's mark, exactly when every member Relay
      did not cancel has finished before the commit; otherwise it goes on running, and it never succeeds. */
  lemma PartialAbortEndsIff(cfg: Config, steps: seq<Step>, c: nat, cancelled: set<nat>)
    requires cfg.Valid()
    requires var s := Run(cfg, INITIAL, steps);
             && Enabled(cfg, s, AbortCommit(c, {}, cancelled, false)) && EngineType(s.clients[c].taskType)
             && s.clients[c].status == ClientRunning && s.clients[c].expanded
    ensures var s := Run(cfg, INITIAL, steps);
            var s' := Exec(cfg, s, AbortCommit(c, {}, cancelled, false));
            && c in s'.clients && !s'.clients[c].creatorCancelled
            && (if forall k | k in Members(s.tasks, c) - cancelled :: Finished(s.tasks[k].status)
                then s'.clients[c].status == ClientFailed else s'.clients[c].status == ClientRunning)
  {
    var s := Run(cfg, INITIAL, steps);
    EveryRunKeepsInv(cfg, steps);
    assert ClientOk(s.tasks, c, s.clients[c]);
    hide Inv, Run, FailedGroups;
    var rows := AbortRows(s.tasks, IdsToAbort({}, cancelled, false));
    assert Members(rows, c) == Members(s.tasks, c);
    forall k | k in Members(s.tasks, c)
      ensures k in rows && (Finished(rows[k].status) <==> k in cancelled || Finished(s.tasks[k].status))
      ensures rows[k].status != ResultDownloaded
    {
    }
  }

  /** With no answer short of success, or with one, the rows the abort changes are exactly the
      cancelled ones, and without success no client task becomes cancelled by its creator. */
  lemma AbortCommitEffect(cfg: Config, s: State, c: nat, cancelled: set<nat>, full: bool)
    ensures var s' := Exec(cfg, s, AbortCommit(c, {}, cancelled, full));
            && s'.tasks == (if Enabled(cfg, s, AbortCommit(c, {}, cancelled, full)) then AbortRows(s.tasks, cancelled) else s.tasks)
            && (!(full && AllStopped(s'.tasks, c)) ==> SameCancelled(s.clients, s'.clients))
  {
    assert IdsToAbort({}, cancelled, full) == cancelled;
  }
}
