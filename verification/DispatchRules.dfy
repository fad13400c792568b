/** The rules of dispatch spelled out in fields and statuses: which rows the queries list, which operation
    a row is sent to, and whom a round serves. */
module DispatchRules {
  import opened Wrappers
  import opened Models
  import opened Config
  import opened Progression
  import opened Dispatch
  import opened StateMachine
  import opened SlotInvariant
  import opened Invariant
  import opened AnswerEffects
  import opened DueTasks
  import opened DispatchPlan
  import Reachable

  // ---- Selection ----

  /** Idle, due, and of a type the engine runs. */
  predicate CanStart(t: InferenceTask, now: int) {
    t.slot.status == SlotNone && t.nextActionAt <= now && t.spec.taskType in {SD, LLM}
  }

  /** The five queries, in their order of priority: cancellations owed, results to fetch, rows awaiting
      validation, rows Relay does not have, and every other row that is not over and that Relay may have.
      Together they list every row that can start and owes a cancellation or is not finished. */
  lemma QueriesList(t: InferenceTask, now: int)
    ensures SelectedBy(0, t, now) <==> CanStart(t, now) && t.cancelRequired
    ensures SelectedBy(1, t, now) <==> CanStart(t, now) && t.status == EndSuccess
    ensures SelectedBy(2, t, now) <==> CanStart(t, now) && t.status in {ScoreReady, ErrorReported}
    ensures SelectedBy(3, t, now) <==> CanStart(t, now) && t.status == Pending && !t.unknown && t.relayChecked && !t.relayFound
    ensures SelectedBy(4, t, now) <==>
              && CanStart(t, now) && !IsOver(t.status)
              && (t.status in {Pending, ScoreReady, ErrorReported} ==> t.unknown || !t.relayChecked || t.relayFound)
    ensures Selected(t, now) <==> CanStart(t, now) && (t.cancelRequired || !IsFinished(t))
  {
    assert SelectedBy(4, t, now) <==> CanStart(t, now) && !IsOver(t.status)
                                      && (t.status in {Pending, ScoreReady, ErrorReported} ==> t.unknown || !t.relayChecked || t.relayFound);
    if CanStart(t, now) && (t.cancelRequired || !IsFinished(t)) {
      assert SelectedBy(0, t, now) || SelectedBy(1, t, now) || SelectedBy(2, t, now) || SelectedBy(3, t, now) || SelectedBy(4, t, now);
    }
  }

  /** A selected row waits only behind a full page of rows that the same query lists before it: each of them
      is due earlier, or at the same time with a smaller key. */
  lemma WaitsBehindAPage(tasks: Tasks, q: nat, now: int, limit: nat, order: seq<nat>, k: nat) returns (page: seq<nat>)
    requires Covered(tasks, q, now, limit, order) && k in tasks && SelectedBy(q, tasks[k], now) && k !in order
    ensures |page| == limit && (forall i, j | 0 <= i < j < |page| :: page[i] != page[j])
    ensures forall j | j in page ::
              && j in order && j in tasks && SelectedBy(q, tasks[j], now)
              && (tasks[j].nextActionAt < tasks[k].nextActionAt || (tasks[j].nextActionAt == tasks[k].nextActionAt && j < k))
  {
    assert k in Matching(tasks, q, now) && Deferred(tasks, q, now, limit, order, k);
    page :| Distinct(page) && |page| == limit && forall j | j in page :: j in order && j in EarlierMatches(tasks, q, now, k);
    hide SelectedBy;
  }

  // ---- Decision ----

  /** Nothing is sent for a row before Relay has been asked about it: at the start, and after every loss. */
  predicate AsksFirst(t: InferenceTask) {
    t.unknown || !t.relayChecked
  }

  /** The one of three members that has the group validated: all three have reported or are aborted, none of
      them because a validation came too late, and among those that have reported it is the first on Relay. */
  predicate SpeaksForGroup(tasks: Tasks, k: nat)
    requires k in tasks
  {
    && |Companions(tasks, k)| == 3
    && (forall j | j in Companions(tasks, k) ::
          tasks[j].status in {ScoreReady, ErrorReported} || (tasks[j].status == EndAborted && tasks[j].abortReason != CreatorValidationTimeout))
    && (forall j | j in Companions(tasks, k) && tasks[j].status in {ScoreReady, ErrorReported} ::
          tasks[k].sequence < tasks[j].sequence || (tasks[k].sequence == tasks[j].sequence && k <= j))
  }

  /** The operation a row is sent to, each exactly when it should be. */
  lemma DecidesExactly(tasks: Tasks, k: nat)
    requires k in tasks
    ensures var t := tasks[k];
            var settledWithRelay := !AsksFirst(t) && !t.cancelRequired;
            && (Decide(tasks, k) == OpCancel <==> !AsksFirst(t) && t.cancelRequired)
            && (Decide(tasks, k) == OpResult <==> settledWithRelay && t.status == EndSuccess)
            && (Decide(tasks, k) == OpNone <==> settledWithRelay && t.status in {EndAborted, EndInvalidated, EndGroupRefund, ResultDownloaded})
            && (Decide(tasks, k) == OpCreate <==> settledWithRelay && t.status == Pending && !t.relayFound)
            && (Decide(tasks, k) == OpValidate <==>
                  && settledWithRelay && t.status in {ScoreReady, ErrorReported} && !t.submitted
                  && (|Companions(tasks, k)| == 1 || SpeaksForGroup(tasks, k)))
            && (Decide(tasks, k) == OpSync <==>
                  || AsksFirst(t)
                  || (!t.cancelRequired
                      && (|| t.status in {Created, Started, ParamsUploaded, Validated}
                          || (t.status == Pending && t.relayFound)
                          || (t.status in {ScoreReady, ErrorReported}
                              && (t.submitted || (|Companions(tasks, k)| != 1 && !SpeaksForGroup(tasks, k)))))))
  {
    if ReadyForValidation(tasks[k].status) { SpeakerAgrees(tasks, k); }
    assert Group(tasks, tasks[k].spec.taskId) == Companions(tasks, k);
    hide ValidationGroupReady, IsOwner, SpeaksForGroup, Companions, Group;
  }

  lemma SpeakerAgrees(tasks: Tasks, k: nat)
    requires k in tasks && ReadyForValidation(tasks[k].status)
    ensures SpeaksForGroup(tasks, k) <==> ValidationGroupReady(tasks, tasks[k].spec.taskId) && IsOwner(tasks, k)
  {
    var g := tasks[k].spec.taskId;
    assert Group(tasks, g) == Companions(tasks, k);
    assert forall j :: j in Companions(tasks, k) <==> j in tasks && tasks[j].spec.taskId == g;
    ReadyAgrees(tasks, k);
    OwnerAgrees(tasks, k);
    hide ValidationGroupReady, IsOwner, Companions, Group;
  }

  lemma ReadyAgrees(tasks: Tasks, k: nat)
    requires k in tasks
    ensures ValidationGroupReady(tasks, tasks[k].spec.taskId) <==>
            && |Companions(tasks, k)| == 3
            && forall j | j in Companions(tasks, k) ::
                 tasks[j].status in {ScoreReady, ErrorReported} || (tasks[j].status == EndAborted && tasks[j].abortReason != CreatorValidationTimeout)
  {
    var g := tasks[k].spec.taskId;
    assert Group(tasks, g) == Companions(tasks, k);
    assert forall j :: j in Companions(tasks, k) <==> j in tasks && tasks[j].spec.taskId == g;
  }

  lemma OwnerAgrees(tasks: Tasks, k: nat)
    requires k in tasks && ReadyForValidation(tasks[k].status)
    ensures IsOwner(tasks, k) <==>
            forall j | j in Companions(tasks, k) && tasks[j].status in {ScoreReady, ErrorReported} ::
              tasks[k].sequence < tasks[j].sequence || (tasks[k].sequence == tasks[j].sequence && k <= j)
  {
    assert forall j :: j in Companions(tasks, k) <==> j in tasks && tasks[j].spec.taskId == tasks[k].spec.taskId;
  }

  // ---- Limits ----

  /** In every reachable state the live workers of each kind, and the rows each holds, are within that kind's
      own configured limits. */
  lemma EveryRunKeepsLimits(cfg: Config, steps: seq<Step>)
    requires cfg.Valid()
    ensures var workers := Run(cfg, INITIAL, steps).workers;
            && |set w | w in workers && workers[w].op == OpCreate| <= cfg.createWorkers
            && |set w | w in workers && workers[w].op == OpSync| <= cfg.statusWorkers
            && |set w | w in workers && workers[w].op == OpValidate| <= cfg.validationWorkers
            && |set w | w in workers && workers[w].op == OpCancel| <= cfg.cancellationWorkers
            && |set w | w in workers && workers[w].op == OpResult| <= cfg.resultWorkers
            && forall w | w in workers ::
                 && workers[w].op != OpNone
                 && 0 < |workers[w].rows| <= match workers[w].op
                                             case OpCreate => cfg.createBatchSize
                                             case OpSync => cfg.statusBatchSize
                                             case OpValidate => cfg.validationBatchSize
                                             case OpCancel => cfg.cancellationBatchSize
                                             case _ => 1
  {
    var s := Run(cfg, INITIAL, steps);
    Reachable.EveryRunAccounts(cfg, steps);
    hide Run;
    PoolIsCounted(cfg, s, OpCreate, cfg.createWorkers);
    PoolIsCounted(cfg, s, OpSync, cfg.statusWorkers);
    PoolIsCounted(cfg, s, OpValidate, cfg.validationWorkers);
    PoolIsCounted(cfg, s, OpCancel, cfg.cancellationWorkers);
    PoolIsCounted(cfg, s, OpResult, cfg.resultWorkers);
  }

  lemma PoolIsCounted(cfg: Config, s: State, op: Operation, limit: int)
    requires |PoolWorkers(s, op)| <= cfg.Workers(op) == limit
    ensures |set w | w in s.workers && s.workers[w].op == op| <= limit
  {
    assert PoolWorkers(s, op) == set w | w in s.workers && s.workers[w].op == op;
  }

  /** All of a kind's limits are used by a dispatch: a pool is full at exactly its own configured size. */
  lemma StartsExactlyWithin(cfg: Config, s: State, w: nat, op: Operation, rows: set<nat>, now: int)
    requires s.clock <= now && w !in s.workers
    ensures Enabled(cfg, s, StartWorker(w, op, rows, now)) <==>
            && rows != {} && op != OpNone
            && |rows| <= (match op
                          case OpCreate => cfg.createBatchSize
                          case OpSync => cfg.statusBatchSize
                          case OpValidate => cfg.validationBatchSize
                          case OpCancel => cfg.cancellationBatchSize
                          case _ => 1)
            && |set v | v in s.workers && s.workers[v].op == op| <
               (match op
                case OpCreate => cfg.createWorkers
                case OpSync => cfg.statusWorkers
                case OpValidate => cfg.validationWorkers
                case OpCancel => cfg.cancellationWorkers
                case _ => cfg.resultWorkers)
            && forall k | k in rows :: k in s.tasks && CanStart(s.tasks[k], now) && (s.tasks[k].cancelRequired || !IsFinished(s.tasks[k]))
                                       && Decide(s.tasks, k) == op
  {
    forall k | k in s.tasks
      ensures Selected(s.tasks[k], now) <==> CanStart(s.tasks[k], now) && (s.tasks[k].cancelRequired || !IsFinished(s.tasks[k]))
    {
      QueriesList(s.tasks[k], now);
    }
    assert PoolWorkers(s, op) == set v | v in s.workers && s.workers[v].op == op;
    hide Decide, Selected, CanStart, IsFinished;
  }

  // ---- A round ----

  /** The decisions of one kind keep their order. */
  lemma {:induction false} KindsInOrder(a: seq<Decision>, b: seq<Decision>, op: Operation)
    ensures OfKind(a + b, op) == OfKind(a, op) + OfKind(b, op)
  {
    if b == [] {
      assert a + b == a;
    } else {
      var last := |b| - 1;
      KindsInOrder(a, b[..last], op);
      assert (a + b)[..|a| + last] == a + b[..last];
    }
  }

  lemma OneOfKind(d: Decision, op: Operation)
    ensures OfKind([d], op) == if d.op == op then [d.id] else []
  {
    assert [d][..0] == [];
  }

  lemma {:induction false} FlattenedRow(launches: seq<Launch>, k: nat)
    requires k in Flatten(launches)
    ensures exists i :: 0 <= i < |launches| && k in launches[i].rows
  {
    if k !in launches[0].rows {
      FlattenedRow(launches[1..], k);
      var i :| 0 <= i < |launches[1..]| && k in launches[1..][i].rows;
      assert launches[i + 1] == launches[1..][i];
    }
  }

  lemma {:induction false} LaunchedSlot(s: State, w: nat, launches: seq<Launch>, now: int, k: nat, op: Operation)
    requires k in s.tasks && forall i | 0 <= i < |launches| && k in launches[i].rows :: launches[i].op == op
    ensures var tasks := LaunchAll(s, w, launches, now).tasks;
            k in tasks && tasks[k] == if exists i :: 0 <= i < |launches| && k in launches[i].rows
                                      then s.tasks[k].(slot := Slot(op, SlotRunning, NoReply)) else s.tasks[k]
  {
    if launches != [] {
      var last := |launches| - 1;
      LaunchedSlot(s, w, launches[..last], now, k, op);
      if i :| 0 <= i < |launches| && k in launches[i].rows { assert i == last || launches[..last][i] == launches[i]; }
    }
  }

  /** The row is started: it runs the operation that was decided. */
  predicate Serves(s: State, s': State, k: nat)
    requires k in s.tasks
  {
    k in s'.tasks && s'.tasks[k] == s.tasks[k].(slot := Slot(Decide(s.tasks, k), SlotRunning, NoReply))
  }

  lemma KindInPlan(cfg: Config, s: State, decisions: seq<Decision>, op: Operation, n: nat, i: nat)
    requires cfg.Valid() && op != OpNone && n <= |KINDS| && op in KINDS[..n] && i < |KindPlan(cfg, s, decisions, op)|
    ensures KindPlan(cfg, s, decisions, op)[i] in Plan(cfg, s, decisions, n)
  {
    hide KindPlan;
    NextKind(n);
    if KINDS[n - 1] != op { KindInPlan(cfg, s, decisions, op, n - 1, i); }
  }

  /** A batch of the kind puts the row in the round. */
  lemma StartedIsServed(cfg: Config, s: State, w: nat, decisions: seq<Decision>, now: int, k: nat, op: Operation)
    requires cfg.Valid() && Decided(s, decisions, now) && Ready(s, k, op, now) && op in KINDS
    requires k in Flatten(KindPlan(cfg, s, decisions, op))
    ensures Serves(s, LaunchAll(s, w, Plan(cfg, s, decisions, |KINDS|), now), k)
  {
    var p := Plan(cfg, s, decisions, |KINDS|);
    PlanRows(cfg, s, decisions, |KINDS|, now);
    hide LaunchAll, KindPlan, Decide, Selected, Decided, Plan;
    FlattenedRow(KindPlan(cfg, s, decisions, op), k);
    var i :| 0 <= i < |KindPlan(cfg, s, decisions, op)| && k in KindPlan(cfg, s, decisions, op)[i].rows;
    assert KINDS[..|KINDS|] == KINDS;
    KindInPlan(cfg, s, decisions, op, |KINDS|, i);
    forall j | 0 <= j < |p| && k in p[j].rows
      ensures p[j].op == op
    {
      assert PlannedAt(cfg, s, p, now, j);
    }
    LaunchedSlot(s, w, p, now, k, op);
  }

  lemma EveryKind(op: Operation)
    requires op != OpNone
    ensures op in KINDS && op in KINDS[..|KINDS|]
  {
    assert KINDS[0] == OpCreate && KINDS[1] == OpSync && KINDS[2] == OpValidate && KINDS[3] == OpCancel && KINDS[4] == OpResult;
    assert KINDS[..|KINDS|] == KINDS;
  }

  /** A row a round has decided for is started, or the pool of its operation is full afterwards. */
  lemma DecidedIsServed(cfg: Config, s: State, w: nat, decisions: seq<Decision>, now: int, d: nat)
    requires cfg.Valid() && FreshWorkers(s.workers, w) && Decided(s, decisions, now) && d < |decisions|
    ensures var s' := LaunchAll(s, w, Plan(cfg, s, decisions, |KINDS|), now);
            Serves(s, s', decisions[d].id) || |PoolWorkers(s', decisions[d].op)| >= cfg.Workers(decisions[d].op)
  {
    var op, k := decisions[d].op, decisions[d].id;
    var b := KindPlan(cfg, s, decisions, op);
    assert Ready(s, k, op, now) && op != OpNone;
    EveryKind(op);
    BatchesArePrefix(op, OfKind(decisions, op), cfg.BatchSize(op), Free(cfg, s, op));
    IsOfKind(decisions, d);
    if Flatten(b) == OfKind(decisions, op) {
      StartedIsServed(cfg, s, w, decisions, now, k, op);
    } else {
      PlanCounts(cfg, s, decisions, |KINDS|, op);
      LaunchAllPools(s, w, Plan(cfg, s, decisions, |KINDS|), now, op);
    }
  }

  lemma {:induction false} IsOfKind(decisions: seq<Decision>, d: nat)
    requires d < |decisions|
    ensures decisions[d].id in OfKind(decisions, decisions[d].op)
  {
    var last := |decisions| - 1;
    if d < last { IsOfKind(decisions[..last], d); }
  }

  /** A round serves everyone it can: every row it has listed runs the operation decided for it, unless the
      pool of that operation has no free slot left. */
  lemma RoundServes(cfg: Config, s: State, w: nat, order: seq<nat>, now: int)
    requires cfg.Valid() && FreshWorkers(s.workers, w) && Distinct(order)
    requires forall k | k in order :: k in s.tasks && k in SelectedRows(s.tasks, now)
    ensures var s' := LaunchAll(s, w, Plan(cfg, s, DecisionsFor(s.tasks, order), |KINDS|), now);
            forall k | k in order :: Serves(s, s', k) || |PoolWorkers(s', Decide(s.tasks, k))| >= cfg.Workers(Decide(s.tasks, k))
  {
    var decisions := DecisionsFor(s.tasks, order);
    EverySelectedRowIsDecided(s, order, now);
    hide Plan, LaunchAll, DecisionsFor, Decided, Serves, Config.Workers, FreshWorkers, PoolWorkers, Decide;
    var s' := LaunchAll(s, w, Plan(cfg, s, decisions, |KINDS|), now);
    forall k | k in order
      ensures Serves(s, s', k) || |PoolWorkers(s', Decide(s.tasks, k))| >= cfg.Workers(Decide(s.tasks, k))
    {
      var d :| 0 <= d < |order| && order[d] == k;
      DecidedIsServed(cfg, s, w, decisions, now, d);
    }
  }
}
