/** What one dispatch round starts (`dispatchDecisions` in `taskengine/dispatch.go`): for each kind of
    operation a prefix of its decisions, cut into batches, as many as its pool has free slots. */
module DispatchPlan {
  import opened Models
  import opened Config
  import opened Progression
  import opened Dispatch
  import opened StateMachine
  import opened DueTasks
  import opened Lifecycle

  datatype Decision = Decision(id: nat, op: Operation)

  /** One started worker: its kind and its rows, in order. */
  datatype Launch = Launch(op: Operation, rows: seq<nat>)

  function OfKind(decisions: seq<Decision>, op: Operation): seq<nat> {
    if decisions == [] then []
    else
      var last := |decisions| - 1;
      OfKind(decisions[..last], op) + if decisions[last].op == op then [decisions[last].id] else []
  }

  function Batches(op: Operation, values: seq<nat>, size: int, available: int): seq<Launch>
    requires size > 0
    decreases |values|
  {
    if values == [] || available <= 0 then []
    else if |values| <= size then [Launch(op, values)]
    else [Launch(op, values[..size])] + Batches(op, values[size..], size, available - 1)
  }

  lemma BatchNext(op: Operation, values: seq<nat>, size: int, available: int)
    requires size > 0 && values != [] && available > 0
    ensures var count := if size > |values| then |values| else size;
            Batches(op, values, size, available) == [Launch(op, values[..count])] + Batches(op, values[count..], size, available - 1)
  {
    if |values| <= size {
      assert values[..|values|] == values && values[|values|..] == [];
    }
  }

  lemma BatchesEnd(op: Operation, values: seq<nat>, size: int, available: int)
    requires size > 0 && (values == [] || available <= 0)
    ensures Batches(op, values, size, available) == []
  {
  }

  function Free(cfg: Config, s: State, op: Operation): int {
    cfg.Workers(op) - |PoolWorkers(s, op)|
  }

  function KindPlan(cfg: Config, s: State, decisions: seq<Decision>, op: Operation): seq<Launch>
    requires cfg.Valid() && op != OpNone
  {
    Batches(op, OfKind(decisions, op), cfg.BatchSize(op), Free(cfg, s, op))
  }

  const KINDS: seq<Operation> := [OpCreate, OpSync, OpValidate, OpCancel, OpResult]

  /** The launches of the first n kinds. */
  function Plan(cfg: Config, s: State, decisions: seq<Decision>, n: nat): seq<Launch>
    requires cfg.Valid() && n <= |KINDS|
  {
    if n == 0 then [] else Plan(cfg, s, decisions, n - 1) + KindPlan(cfg, s, decisions, KINDS[n - 1])
  }

  function Rows(rows: seq<nat>): set<nat> {
    set k | k in rows
  }

  function Launched(s: State, w: nat, l: Launch, now: int): State {
    s.(clock := now, tasks := MarkRunning(s.tasks, Rows(l.rows), l.op), workers := s.workers[w := Worker(l.op, Rows(l.rows))])
  }

  function LaunchAll(s: State, w: nat, launches: seq<Launch>, now: int): State {
    if launches == [] then s
    else
      var last := |launches| - 1;
      Launched(LaunchAll(s, w, launches[..last], now), w + last, launches[last], now)
  }

  function Flatten(launches: seq<Launch>): seq<nat> {
    if launches == [] then [] else launches[0].rows + Flatten(launches[1..])
  }

  // ---- The shape of a plan ----

  /** The batches are exactly a prefix of the decisions, cut at the batch size: every batch but the
      last is full, and decisions are left over only when every free slot is used by a full batch. */
  lemma {:induction false} BatchesArePrefix(op: Operation, values: seq<nat>, size: int, available: int)
    requires size > 0
    ensures var b := Batches(op, values, size, available);
            && Flatten(b) <= values
            && (|b| <= available || b == [])
            && (forall i | 0 <= i < |b| :: b[i].op == op && 0 < |b[i].rows| <= size)
            && (forall i | 0 <= i < |b| - 1 :: |b[i].rows| == size)
            && (Flatten(b) != values ==> (|b| == available || available <= 0) && forall i | 0 <= i < |b| :: |b[i].rows| == size)
    decreases |values|
  {
    if values == [] || available <= 0 {
    } else if |values| <= size {
      assert Flatten([Launch(op, values)]) == values + Flatten([Launch(op, values)][1..]);
    } else {
      BatchesArePrefix(op, values[size..], size, available - 1);
      var tail := Batches(op, values[size..], size, available - 1);
      var b := [Launch(op, values[..size])] + tail;
      assert b[1..] == tail;
      assert values == values[..size] + values[size..];
    }
  }

  // ---- Launching and the state machine ----

  lemma {:induction false} LaunchAllAppend(s: State, w: nat, a: seq<Launch>, b: seq<Launch>, now: int)
    ensures LaunchAll(s, w, a + b, now) == LaunchAll(LaunchAll(s, w, a, now), w + |a|, b, now)
  {
    if b == [] {
      assert a + b == a;
    } else {
      var last := |b| - 1;
      LaunchAllAppend(s, w, a, b[..last], now);
      assert (a + b)[..|a| + last] == a + b[..last];
    }
  }

  predicate SameDecisionRow(o: InferenceTask, n: InferenceTask) {
    && n.spec == o.spec && n.status == o.status && n.sequence == o.sequence && n.abortReason == o.abortReason
    && n.unknown == o.unknown && n.relayChecked == o.relayChecked && n.relayFound == o.relayFound
    && n.submitted == o.submitted && n.cancelRequired == o.cancelRequired
  }

  /** A decision does not look at slots or times. */
  lemma DecideFrame(a: Tasks, b: Tasks, k: nat)
    requires k in a && a.Keys == b.Keys && forall j {:trigger b[j]} {:trigger a[j]} | j in a :: SameDecisionRow(a[j], b[j])
    ensures Decide(b, k) == Decide(a, k)
  {
    var g := a[k].spec.taskId;
    assert Group(b, g) == Group(a, g);
    if GroupTimedOut(a, g) {
      var j :| j in a && a[j].spec.taskId == g && a[j].status == EndAborted && a[j].abortReason == CreatorValidationTimeout;
      assert b[j].spec.taskId == g;
    }
    if GroupTimedOut(b, g) {
      var j :| j in b && b[j].spec.taskId == g && b[j].status == EndAborted && b[j].abortReason == CreatorValidationTimeout;
      assert a[j].spec.taskId == g;
    }
    assert ValidationGroupReady(b, g) == ValidationGroupReady(a, g) by {
      hide GroupTimedOut;
    }
    assert IsOwner(b, k) == IsOwner(a, k);
  }

  /** Starting other rows changes no decision. */
  lemma MarkRunningKeepsDecide(tasks: Tasks, rows: set<nat>, op: Operation, k: nat)
    requires k in tasks
    ensures Decide(MarkRunning(tasks, rows, op), k) == Decide(tasks, k)
  {
    DecideFrame(tasks, MarkRunning(tasks, rows, op), k);
  }

  predicate Ready(s: State, k: nat, op: Operation, now: int) {
    k in s.tasks && Selected(s.tasks[k], now) && Decide(s.tasks, k) == op
  }

  /** The step the state machine takes for a launch. */
  function StartStep(w: nat, l: Launch, now: int): Step {
    StartWorker(w, l.op, Rows(l.rows), now)
  }

  function StartSteps(w: nat, launches: seq<Launch>, now: int): seq<Step> {
    seq(|launches|, i requires 0 <= i < |launches| => StartStep(w + i, launches[i], now))
  }

  ghost predicate FreshWorkers(workers: map<nat, Worker>, w: nat) {
    forall v | v in workers :: v < w
  }

  /** Every row of the batch is idle and listed once. */
  predicate CanMark(tasks: Tasks, batch: seq<nat>) {
    Distinct(batch) && forall k | k in batch :: k in tasks && tasks[k].slot.status == SlotNone
  }

  lemma LaunchKeepsReady(s: State, w: nat, l: Launch, now: int, k: nat, op: Operation)
    requires Ready(s, k, op, now) && k !in l.rows
    ensures Ready(Launched(s, w, l, now), k, op, now)
  {
    MarkRunningKeepsDecide(s.tasks, Rows(l.rows), l.op, k);
  }

  lemma LaunchedPools(s: State, w: nat, l: Launch, now: int, op: Operation)
    requires w !in s.workers
    ensures |PoolWorkers(Launched(s, w, l, now), op)| == |PoolWorkers(s, op)| + if op == l.op then 1 else 0
  {
    assert PoolWorkers(Launched(s, w, l, now), op) == PoolWorkers(s, op) + if op == l.op then {w} else {};
  }

  function CountKind(launches: seq<Launch>, op: Operation): nat {
    if launches == [] then 0
    else CountKind(launches[..|launches| - 1], op) + if launches[|launches| - 1].op == op then 1 else 0
  }

  /** A pool grows by exactly the launches of its kind. */
  lemma {:induction false} LaunchAllPools(s: State, w: nat, launches: seq<Launch>, now: int, op: Operation)
    requires FreshWorkers(s.workers, w)
    ensures var s' := LaunchAll(s, w, launches, now);
            FreshWorkers(s'.workers, w + |launches|) && |PoolWorkers(s', op)| == |PoolWorkers(s, op)| + CountKind(launches, op)
  {
    if launches != [] {
      var last := |launches| - 1;
      LaunchAllPools(s, w, launches[..last], now, op);
      LaunchedPools(LaunchAll(s, w, launches[..last], now), w + last, launches[last], now, op);
    }
  }

  /** The launches a round can make: rows ready for their operation, none twice, batches within size. */
  ghost predicate Startable(cfg: Config, s: State, launches: seq<Launch>, now: int) {
    && (forall i | 0 <= i < |launches| :: launches[i].op != OpNone && 0 < |launches[i].rows| <= cfg.BatchSize(launches[i].op))
    && (forall i, k {:trigger k in launches[i].rows} | 0 <= i < |launches| && k in launches[i].rows :: Ready(s, k, launches[i].op, now))
    && (forall i, j, k {:trigger k in launches[i].rows, k in launches[j].rows} |
          0 <= i < j < |launches| :: !(k in launches[i].rows && k in launches[j].rows))
    && (forall op {:trigger CountKind(launches, op)} | op != OpNone :: CountKind(launches, op) <= Free(cfg, s, op) || CountKind(launches, op) == 0)
  }

  lemma {:induction false} RowCount(rows: seq<nat>)
    ensures |Rows(rows)| <= |rows| && (rows != [] ==> Rows(rows) != {})
  {
    if rows != [] {
      var last := |rows| - 1;
      RowCount(rows[..last]);
      assert rows == rows[..last] + [rows[last]];
      assert Rows(rows) == Rows(rows[..last]) + {rows[last]};
    }
  }

  lemma {:induction false} LaunchedRowsStayReady(cfg: Config, s: State, w: nat, launches: seq<Launch>, now: int, k: nat, op: Operation)
    requires Ready(s, k, op, now) && forall i | 0 <= i < |launches| :: k !in launches[i].rows
    ensures Ready(LaunchAll(s, w, launches, now), k, op, now)
  {
    if launches != [] {
      var last := |launches| - 1;
      LaunchedRowsStayReady(cfg, s, w, launches[..last], now, k, op);
      LaunchKeepsReady(LaunchAll(s, w, launches[..last], now), w + last, launches[last], now, k, op);
    }
  }

  lemma StartablePrefix(cfg: Config, s: State, launches: seq<Launch>, now: int)
    requires Startable(cfg, s, launches, now) && launches != []
    ensures Startable(cfg, s, launches[..|launches| - 1], now)
  {
    var last := |launches| - 1;
    var init := launches[..last];
    forall op | op != OpNone
      ensures CountKind(init, op) <= Free(cfg, s, op) || CountKind(init, op) == 0
    {
      assert CountKind(launches, op) >= CountKind(init, op);
    }
    assert forall i | 0 <= i < last :: init[i] == launches[i];
  }

  /** The launches of a round are a run of the state machine: each is an enabled step. */
  lemma {:induction false} LaunchesAreSteps(cfg: Config, s: State, w: nat, launches: seq<Launch>, now: int)
    requires FreshWorkers(s.workers, w) && s.clock <= now && Startable(cfg, s, launches, now)
    ensures Run(cfg, s, StartSteps(w, launches, now)) == LaunchAll(s, w, launches, now)
    ensures LaunchAll(s, w, launches, now).clock <= now
  {
    var steps := StartSteps(w, launches, now);
    if launches != [] {
      var last := |launches| - 1;
      var init := launches[..last];
      StartablePrefix(cfg, s, launches, now);
      LaunchesAreSteps(cfg, s, w, init, now);
      assert steps[..last] == StartSteps(w, init, now);
      hide Startable, FreshWorkers, Exec;
      LaunchIsEnabled(cfg, s, w, launches, now);
      hide Launched, StartSteps;
    }
  }

  lemma LaunchHasSlot(cfg: Config, s: State, w: nat, launches: seq<Launch>, now: int)
    requires launches != [] && FreshWorkers(s.workers, w) && Startable(cfg, s, launches, now)
    ensures var last := |launches| - 1;
            var mid := LaunchAll(s, w, launches[..last], now);
            w + last !in mid.workers && |PoolWorkers(mid, launches[last].op)| < cfg.Workers(launches[last].op)
  {
    var last := |launches| - 1;
    var op := launches[last].op;
    assert CountKind(launches, op) == CountKind(launches[..last], op) + 1;
    assert CountKind(launches, op) <= Free(cfg, s, op);
    hide Startable;
    LaunchAllPools(s, w, launches[..last], now, op);
  }

  lemma LaunchIsEnabled(cfg: Config, s: State, w: nat, launches: seq<Launch>, now: int)
    requires launches != [] && FreshWorkers(s.workers, w) && Startable(cfg, s, launches, now)
    requires LaunchAll(s, w, launches[..|launches| - 1], now).clock <= now
    ensures var last := |launches| - 1;
            var mid := LaunchAll(s, w, launches[..last], now);
            Exec(cfg, mid, StartStep(w + last, launches[last], now)) == Launched(mid, w + last, launches[last], now)
  {
    hide Decide, Selected, LaunchAll, Launched, Exec, PoolWorkers, FreshWorkers, CountKind;
    var last := |launches| - 1;
    var l := launches[last];
    var mid := LaunchAll(s, w, launches[..last], now);
    LaunchHasSlot(cfg, s, w, launches, now);
    RowCount(l.rows);
    forall k | k in l.rows
      ensures Ready(mid, k, l.op, now)
    {
      assert k in launches[last].rows;
      LaunchedRowsStayReady(cfg, s, w, launches[..last], now, k, l.op);
    }
    assert 0 < |l.rows| <= cfg.BatchSize(l.op) && l.op != OpNone;
    StartIsLaunch(cfg, mid, w + last, l, now);
  }

  lemma StartIsLaunch(cfg: Config, s: State, w: nat, l: Launch, now: int)
    requires s.clock <= now && l.op != OpNone && w !in s.workers
    requires l.rows != [] && |Rows(l.rows)| <= cfg.BatchSize(l.op) && |PoolWorkers(s, l.op)| < cfg.Workers(l.op)
    requires forall k | k in l.rows :: Ready(s, k, l.op, now)
    ensures Exec(cfg, s, StartStep(w, l, now)) == Launched(s, w, l, now)
  {
    hide Decide, Selected, PoolWorkers, Config.BatchSize, Config.Workers;
    assert l.rows[0] in Rows(l.rows);
    assert Enabled(cfg, s, StartStep(w, l, now));
  }

  // ---- A plan made from decisions can be started ----

  lemma {:induction false} BatchRow(op: Operation, values: seq<nat>, size: int, available: int, i: nat, k: nat)
    requires size > 0 && i < |Batches(op, values, size, available)| && k in Batches(op, values, size, available)[i].rows
    ensures k in values
    decreases |values|
  {
    if |values| > size && i > 0 {
      BatchRow(op, values[size..], size, available - 1, i - 1, k);
    }
  }

  lemma {:induction false} BatchRowsDistinct(op: Operation, values: seq<nat>, size: int, available: int, i: nat, j: nat, k: nat)
    requires size > 0 && Distinct(values) && i < j < |Batches(op, values, size, available)|
    ensures var b := Batches(op, values, size, available); !(k in b[i].rows && k in b[j].rows)
    decreases |values|
  {
    if |values| > size {
      var b := Batches(op, values, size, available);
      if i > 0 {
        assert Distinct(values[size..]);
        BatchRowsDistinct(op, values[size..], size, available - 1, i - 1, j - 1, k);
      } else if k in b[j].rows {
        BatchRow(op, values[size..], size, available - 1, j - 1, k);
        assert k !in values[..size];
      }
    }
  }

  lemma {:induction false} BatchDistinct(op: Operation, values: seq<nat>, size: int, available: int, i: nat)
    requires size > 0 && Distinct(values) && i < |Batches(op, values, size, available)|
    ensures Distinct(Batches(op, values, size, available)[i].rows)
    decreases |values|
  {
    if |values| > size && i > 0 {
      BatchDistinct(op, values[size..], size, available - 1, i - 1);
    }
  }

  ghost predicate Decided(s: State, decisions: seq<Decision>, now: int) {
    && (forall i, j | 0 <= i < j < |decisions| :: decisions[i].id != decisions[j].id)
    && (forall i | 0 <= i < |decisions| :: decisions[i].op != OpNone && Ready(s, decisions[i].id, decisions[i].op, now))
  }

  lemma {:induction false} OfKindListed(decisions: seq<Decision>, op: Operation)
    ensures forall k | k in OfKind(decisions, op) :: Decision(k, op) in decisions
    ensures (forall i, j | 0 <= i < j < |decisions| :: decisions[i].id != decisions[j].id) ==> Distinct(OfKind(decisions, op))
  {
    if decisions != [] {
      var last := |decisions| - 1;
      OfKindListed(decisions[..last], op);
      assert forall k | k in OfKind(decisions[..last], op) :: Decision(k, op) in decisions[..last];
    }
  }

  lemma KindRow(cfg: Config, s: State, decisions: seq<Decision>, op: Operation, now: int, i: nat, k: nat)
    requires cfg.Valid() && op != OpNone && Decided(s, decisions, now)
    requires i < |KindPlan(cfg, s, decisions, op)| && k in KindPlan(cfg, s, decisions, op)[i].rows
    ensures Ready(s, k, op, now)
  {
    BatchRow(op, OfKind(decisions, op), cfg.BatchSize(op), Free(cfg, s, op), i, k);
    OfKindListed(decisions, op);
    var d :| 0 <= d < |decisions| && decisions[d] == Decision(k, op);
  }

  lemma {:induction false} CountKindAppend(a: seq<Launch>, b: seq<Launch>, op: Operation)
    ensures CountKind(a + b, op) == CountKind(a, op) + CountKind(b, op)
  {
    if b == [] {
      assert a + b == a;
    } else {
      var last := |b| - 1;
      CountKindAppend(a, b[..last], op);
      assert (a + b)[..|a| + last] == a + b[..last];
    }
  }

  lemma {:induction false} CountKindUniform(launches: seq<Launch>, kind: Operation, op: Operation)
    requires forall i | 0 <= i < |launches| :: launches[i].op == kind
    ensures CountKind(launches, op) == if op == kind then |launches| else 0
  {
    if launches != [] {
      CountKindUniform(launches[..|launches| - 1], kind, op);
    }
  }

  lemma NextKind(n: nat)
    requires 0 < n <= |KINDS|
    ensures KINDS[..n] == KINDS[..n - 1] + [KINDS[n - 1]] && KINDS[n - 1] !in KINDS[..n - 1] && KINDS[n - 1] != OpNone
  {
  }

  /** A plan uses of each pool at most what is free: exactly the batches of that kind. */
  lemma {:induction false} PlanCounts(cfg: Config, s: State, decisions: seq<Decision>, n: nat, op: Operation)
    requires cfg.Valid() && n <= |KINDS| && op != OpNone
    ensures CountKind(Plan(cfg, s, decisions, n), op) == if op in KINDS[..n] then |KindPlan(cfg, s, decisions, op)| else 0
  {
    if n > 0 {
      var kind := KINDS[n - 1];
      NextKind(n);
      PlanCounts(cfg, s, decisions, n - 1, op);
      KindCount(cfg, s, decisions, kind, op);
      hide CountKind, KindPlan;
      CountKindAppend(Plan(cfg, s, decisions, n - 1), KindPlan(cfg, s, decisions, kind), op);
    }
  }

  lemma KindCount(cfg: Config, s: State, decisions: seq<Decision>, kind: Operation, op: Operation)
    requires cfg.Valid() && kind != OpNone
    ensures CountKind(KindPlan(cfg, s, decisions, kind), op) == if op == kind then |KindPlan(cfg, s, decisions, kind)| else 0
  {
    BatchesArePrefix(kind, OfKind(decisions, kind), cfg.BatchSize(kind), Free(cfg, s, kind));
    CountKindUniform(KindPlan(cfg, s, decisions, kind), kind, op);
  }

  ghost predicate PlannedAt(cfg: Config, s: State, launches: seq<Launch>, now: int, i: nat)
    requires i < |launches|
  {
    && launches[i].op != OpNone && 0 < |launches[i].rows| <= cfg.BatchSize(launches[i].op) && Distinct(launches[i].rows)
    && forall k | k in launches[i].rows :: Ready(s, k, launches[i].op, now)
  }

  predicate Apart(a: Launch, b: Launch) {
    forall k | k in a.rows :: k !in b.rows
  }

  ghost predicate Planned(cfg: Config, s: State, launches: seq<Launch>, kinds: seq<Operation>, now: int) {
    && (forall i {:trigger launches[i]} | 0 <= i < |launches| :: launches[i].op in kinds && PlannedAt(cfg, s, launches, now, i))
    && (forall i, j {:trigger launches[i], launches[j]} | 0 <= i < j < |launches| :: Apart(launches[i], launches[j]))
  }

  lemma {:induction false} PlanRows(cfg: Config, s: State, decisions: seq<Decision>, n: nat, now: int)
    requires cfg.Valid() && n <= |KINDS| && Decided(s, decisions, now)
    ensures Planned(cfg, s, Plan(cfg, s, decisions, n), KINDS[..n], now)
  {
    if n > 0 {
      NextKind(n);
      PlanRows(cfg, s, decisions, n - 1, now);
      KindPlanRows(cfg, s, decisions, KINDS[n - 1], now);
      PlannedAppend(cfg, s, Plan(cfg, s, decisions, n - 1), KindPlan(cfg, s, decisions, KINDS[n - 1]), KINDS[..n - 1], KINDS[n - 1], now);
    }
  }

  lemma PlannedAppend(cfg: Config, s: State, a: seq<Launch>, b: seq<Launch>, kinds: seq<Operation>, kind: Operation, now: int)
    requires Planned(cfg, s, a, kinds, now) && Planned(cfg, s, b, [kind], now) && kind !in kinds
    ensures Planned(cfg, s, a + b, kinds + [kind], now)
  {
    hide Apart, Ready;
    var p := a + b;
    forall i | 0 <= i < |p|
      ensures p[i].op in kinds + [kind] && PlannedAt(cfg, s, p, now, i)
    {
      var l := if i < |a| then a[i] else b[i - |a|];
    }
    forall i, j | 0 <= i < j < |p|
      ensures Apart(p[i], p[j])
    {
      var l, m := if i < |a| then a[i] else b[i - |a|], if j < |a| then a[j] else b[j - |a|];
      if i < |a| <= j { DifferentKindsApart(s, l, m, now); }
    }
  }

  lemma DifferentKindsApart(s: State, a: Launch, b: Launch, now: int)
    requires a.op != b.op
    requires forall k | k in a.rows :: Ready(s, k, a.op, now)
    requires forall k | k in b.rows :: Ready(s, k, b.op, now)
    ensures Apart(a, b)
  {
    hide Selected, Decide;
    forall k | k in a.rows
      ensures k !in b.rows
    {
      assert Ready(s, k, a.op, now);
    }
  }

  lemma KindPlanRows(cfg: Config, s: State, decisions: seq<Decision>, op: Operation, now: int)
    requires cfg.Valid() && op != OpNone && Decided(s, decisions, now)
    ensures Planned(cfg, s, KindPlan(cfg, s, decisions, op), [op], now)
  {
    var b := KindPlan(cfg, s, decisions, op);
    BatchesArePrefix(op, OfKind(decisions, op), cfg.BatchSize(op), Free(cfg, s, op));
    OfKindListed(decisions, op);
    forall i | 0 <= i < |b|
      ensures PlannedAt(cfg, s, b, now, i)
    {
      BatchDistinct(op, OfKind(decisions, op), cfg.BatchSize(op), Free(cfg, s, op), i);
      forall k | k in b[i].rows
        ensures Ready(s, k, op, now)
      {
        KindRow(cfg, s, decisions, op, now, i, k);
      }
    }
    forall i, j | 0 <= i < j < |b|
      ensures Apart(b[i], b[j])
    {
      forall k | k in b[i].rows
        ensures k !in b[j].rows
      {
        BatchRowsDistinct(op, OfKind(decisions, op), cfg.BatchSize(op), Free(cfg, s, op), i, j, k);
      }
    }
  }

  lemma PlanIsStartable(cfg: Config, s: State, decisions: seq<Decision>, now: int)
    requires cfg.Valid() && Decided(s, decisions, now)
    ensures Startable(cfg, s, Plan(cfg, s, decisions, |KINDS|), now)
  {
    var p := Plan(cfg, s, decisions, |KINDS|);
    PlanRows(cfg, s, decisions, |KINDS|, now);
    forall op | op != OpNone
      ensures CountKind(p, op) <= Free(cfg, s, op) || CountKind(p, op) == 0
    {
      PlanCounts(cfg, s, decisions, |KINDS|, op);
      BatchesArePrefix(op, OfKind(decisions, op), cfg.BatchSize(op), Free(cfg, s, op));
    }
    hide Plan, Ready, Decided, CountKind;
    forall i, j, k {:trigger k in p[i].rows, k in p[j].rows} | 0 <= i < j < |p|
      ensures !(k in p[i].rows && k in p[j].rows)
    {
      assert Apart(p[i], p[j]);
    }
  }

  lemma LaunchNext(s: State, w: nat, launches: seq<Launch>, l: Launch, now: int)
    ensures LaunchAll(s, w, launches + [l], now) == Launched(LaunchAll(s, w, launches, now), w + |launches|, l, now)
  {
    assert (launches + [l])[..|launches|] == launches;
  }

  /** Within a plan made from decisions no batch can fail: its rows are still idle when its turn comes. */
  lemma PlanCanMark(cfg: Config, s: State, w: nat, decisions: seq<Decision>, launches: seq<Launch>, now: int)
    requires cfg.Valid() && Decided(s, decisions, now)
    requires launches <= Plan(cfg, s, decisions, |KINDS|) && launches != Plan(cfg, s, decisions, |KINDS|)
    ensures CanMark(LaunchAll(s, w, launches, now).tasks, Plan(cfg, s, decisions, |KINDS|)[|launches|].rows)
  {
    var p := Plan(cfg, s, decisions, |KINDS|);
    PlanRows(cfg, s, decisions, |KINDS|, now);
    hide Plan, LaunchAll, Decided, Decide, Selected;
    var n := |launches|;
    assert PlannedAt(cfg, s, p, now, n);
    forall k | k in p[n].rows
      ensures Ready(LaunchAll(s, w, launches, now), k, p[n].op, now)
    {
      forall i | 0 <= i < n
        ensures k !in launches[i].rows
      {
        assert launches[i] == p[i] && Apart(p[i], p[n]);
      }
      LaunchedRowsStayReady(cfg, s, w, launches, now, k, p[n].op);
    }
    ReadyIsIdle(LaunchAll(s, w, launches, now), p[n], now);
  }

  lemma ReadyIsIdle(s: State, l: Launch, now: int)
    requires Distinct(l.rows) && forall k | k in l.rows :: Ready(s, k, l.op, now)
    ensures CanMark(s.tasks, l.rows)
  {
    hide Decide;
    forall k | k in l.rows
      ensures k in s.tasks && s.tasks[k].slot.status == SlotNone
    {
      assert Ready(s, k, l.op, now);
    }
  }

  // ---- The decisions of a round ----

  function DecisionsFor(tasks: Tasks, order: seq<nat>): seq<Decision>
    requires forall k | k in order :: k in tasks
  {
    if order == [] then []
    else
      var last := |order| - 1;
      var op := Decide(tasks, order[last]);
      DecisionsFor(tasks, order[..last]) + if op == OpNone then [] else [Decision(order[last], op)]
  }

  /** Selected rows all get a decision, in the order they were listed. */
  lemma {:induction false} EverySelectedRowIsDecided(s: State, order: seq<nat>, now: int)
    requires Distinct(order) && forall k | k in order :: k in s.tasks && k in SelectedRows(s.tasks, now)
    ensures |DecisionsFor(s.tasks, order)| == |order|
    ensures forall i | 0 <= i < |order| :: DecisionsFor(s.tasks, order)[i] == Decision(order[i], Decide(s.tasks, order[i]))
    ensures Decided(s, DecisionsFor(s.tasks, order), now)
  {
    if order != [] {
      var last := |order| - 1;
      assert order[last] in order;
      EverySelectedRowIsDecided(s, order[..last], now);
      SelectedRowsAct(s.tasks, order[last], now);
    }
  }

  /** The loop of `dispatchDueTasks`; its error is never reported. */
  method DecideAll(tasks: Tasks, order: seq<nat>) returns (ok: bool, decisions: seq<Decision>)
    requires forall k | k in order :: k in tasks
    ensures ok && decisions == DecisionsFor(tasks, order)
  {
    decisions := [];
    for i := 0 to |order|
      invariant decisions == DecisionsFor(tasks, order[..i])
    {
      assert order[..i + 1][..i] == order[..i];
      var decided, op, group := DecideOperation(tasks, order[i]);
      if !decided { return false, decisions; }
      if op != OpNone { decisions := decisions + [Decision(order[i], op)]; }
    }
    assert order[..|order|] == order;
    ok := true;
  }

  lemma {:induction false} NothingPlanned(cfg: Config, s: State, n: nat)
    requires cfg.Valid() && n <= |KINDS|
    ensures Plan(cfg, s, [], n) == []
  {
    if n > 0 { NothingPlanned(cfg, s, n - 1); }
  }

  // ---- Composing the kinds of a round ----

  lemma PlanStart(cfg: Config, s: State, decisions: seq<Decision>)
    requires cfg.Valid()
    ensures Plan(cfg, s, decisions, 0) == [] && LaunchAll(s, 0, [], 0) == s
    ensures forall w: nat, now: int :: LaunchAll(s, w, [], now) == s
  {
  }

  lemma {:induction false} PlanGrows(cfg: Config, s: State, decisions: seq<Decision>, n: nat, m: nat)
    requires cfg.Valid() && n <= m <= |KINDS|
    ensures Plan(cfg, s, decisions, n) <= Plan(cfg, s, decisions, m)
  {
    if n < m { PlanGrows(cfg, s, decisions, n, m - 1); }
  }

  /** The kinds dispatched so far leave the free slots of the next kind as they were. */
  lemma KindPlanIsStable(cfg: Config, s: State, w: nat, decisions: seq<Decision>, n: nat, now: int)
    requires cfg.Valid() && n < |KINDS| && FreshWorkers(s.workers, w)
    ensures Free(cfg, LaunchAll(s, w, Plan(cfg, s, decisions, n), now), KINDS[n]) == Free(cfg, s, KINDS[n])
    ensures KINDS[n] != OpNone
  {
    NextKind(n + 1);
    PlanCounts(cfg, s, decisions, n, KINDS[n]);
    LaunchAllPools(s, w, Plan(cfg, s, decisions, n), now, KINDS[n]);
  }

  /** A whole kind extends the plan by a kind; part of one stops inside the plan. */
  lemma PlanNext(cfg: Config, s: State, decisions: seq<Decision>, n: nat, launches: seq<Launch>, more: seq<Launch>)
    requires cfg.Valid() && n < |KINDS| && launches == Plan(cfg, s, decisions, n)
    requires KINDS[n] != OpNone && more <= KindPlan(cfg, s, decisions, KINDS[n])
    ensures var plan := Plan(cfg, s, decisions, |KINDS|);
            var kind := KindPlan(cfg, s, decisions, KINDS[n]);
            && (more == kind ==> launches + more == Plan(cfg, s, decisions, n + 1))
            && launches + more <= plan
            && (more != kind ==> launches + more != plan && plan[|launches + more|] == kind[|more|])
  {
    var kind := KindPlan(cfg, s, decisions, KINDS[n]);
    PlanGrows(cfg, s, decisions, n + 1, |KINDS|);
    assert Plan(cfg, s, decisions, n + 1) == launches + kind;
  }

  /** A number above every live worker's. */
  method UnusedWorker(workers: map<nat, Worker>) returns (first: nat)
    ensures FreshWorkers(workers, first)
  {
    first := 0;
    var pending := workers.Keys;
    while pending != {}
      invariant pending <= workers.Keys && forall v | v in workers && v !in pending :: v < first
    {
      var v :| v in pending;
      if v >= first { first := v + 1; }
      pending := pending - {v};
    }
  }

  method RowsOfKind(decisions: seq<Decision>, op: Operation) returns (rows: seq<nat>)
    ensures rows == OfKind(decisions, op)
  {
    rows := [];
    for i := 0 to |decisions|
      invariant rows == OfKind(decisions[..i], op)
    {
      assert decisions[..i + 1][..i] == decisions[..i];
      if decisions[i].op == op { rows := rows + [decisions[i].id]; }
    }
    assert decisions[..|decisions|] == decisions;
  }
}
