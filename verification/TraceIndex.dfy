/** The trace cache of `tasktrace/store.go` as a value: live records in insertion order, and four
    indices from the identities of tasks to the records that hold them. */
module TraceIndex {
  import opened Wrappers
  import opened Models

  /** A trace is filed under its primary commitment, or else under its client task. */
  datatype TraceKey = OfCommitment(commitment: string) | OfClient(clientTaskId: nat)

  /** A task inside a trace is filed under its row, or else its commitment, or else its TaskID. */
  datatype TaskKey = LocalKey(id: nat) | CommitmentKey(commitment: string) | TaskIdKey(taskId: string)

  datatype Event = Event(name: string, status: TaskStatus)

  /** A task as the callers pass it; zero and the empty string mean "not known yet". */
  datatype Snap = Snap(id: nat, clientTaskId: nat, taskId: string, commitment: string, status: TaskStatus)

  datatype TaskTrace = TaskTrace(snap: Snap, events: seq<Event>)

  datatype EventKey = EventKey(task: TaskKey, event: Event)

  datatype Record = Record(clientTaskId: nat, tasks: map<TaskKey, TaskTrace>, eventKeys: set<EventKey>)

  datatype Traces = Traces(
    order: seq<TraceKey>,
    records: map<TraceKey, Record>,
    commitments: map<string, TraceKey>,
    taskIds: map<string, TraceKey>,
    locals: map<nat, TraceKey>,
    clients: map<nat, TraceKey>)

  const EMPTY := Traces([], map[], map[], map[], map[], map[])

  // ---- Identities and the indices as one lookup ----

  datatype Identity = Commitment(s: string) | TaskId(s: string) | LocalId(n: nat) | ClientId(n: nat)

  function Lookup(st: Traces, i: Identity): Option<TraceKey> {
    match i
    case Commitment(s) => if s in st.commitments then Some(st.commitments[s]) else None
    case TaskId(s) => if s in st.taskIds then Some(st.taskIds[s]) else None
    case LocalId(n) => if n in st.locals then Some(st.locals[n]) else None
    case ClientId(n) => if n in st.clients then Some(st.clients[n]) else None
  }

  /** The identities of a snapshot that are known. */
  function Known(t: Snap): set<Identity> {
    (if t.commitment != "" then {Commitment(t.commitment)} else {})
    + (if t.taskId != "" then {TaskId(t.taskId)} else {})
    + (if t.id != 0 then {LocalId(t.id)} else {})
    + (if t.clientTaskId != 0 then {ClientId(t.clientTaskId)} else {})
  }

  predicate Holds(r: Record, i: Identity) {
    (r.clientTaskId != 0 && i == ClientId(r.clientTaskId)) || exists k | k in r.tasks :: i in Known(r.tasks[k].snap)
  }

  function KeyFor(t: Snap): TaskKey {
    if t.id != 0 then LocalKey(t.id) else if t.commitment != "" then CommitmentKey(t.commitment) else TaskIdKey(t.taskId)
  }

  // ---- Operations ----

  function Indexed(st: Traces, t: Snap, p: TraceKey): Traces {
    st.(commitments := if t.commitment != "" then st.commitments[t.commitment := p] else st.commitments,
        taskIds := if t.taskId != "" then st.taskIds[t.taskId := p] else st.taskIds,
        locals := if t.id != 0 then st.locals[t.id := p] else st.locals,
        clients := if t.clientTaskId != 0 then st.clients[t.clientTaskId := p] else st.clients)
  }

  function Updated(r: Record, t: Snap): Record {
    var k := KeyFor(t);
    r.(tasks := r.tasks[k := TaskTrace(t, if k in r.tasks then r.tasks[k].events else [])])
  }

  function AddTask(st: Traces, p: TraceKey, t: Snap): Traces
    requires p in st.records
  {
    Indexed(st.(records := st.records[p := Updated(st.records[p], t)]), t, p)
  }

  function AddTasks(st: Traces, p: TraceKey, ts: seq<Snap>): (r: Traces)
    requires p in st.records
    ensures p in r.records && r.order == st.order && r.records.Keys == st.records.Keys
  {
    if ts == [] then st else AddTask(AddTasks(st, p, ts[..|ts| - 1]), p, ts[|ts| - 1])
  }

  function PrimaryFor(st: Traces, t: Snap): Option<TraceKey> {
    if t.commitment != "" && t.commitment in st.commitments then Some(st.commitments[t.commitment])
    else if t.taskId != "" && t.taskId in st.taskIds then Some(st.taskIds[t.taskId])
    else if t.id != 0 && t.id in st.locals then Some(st.locals[t.id])
    else if t.clientTaskId != 0 && t.clientTaskId in st.clients then Some(st.clients[t.clientTaskId])
    else None
  }

  function EvictOne(st: Traces): Traces
    requires st.order != []
  {
    var p := st.order[0];
    var rest := st.(order := st.order[1..], records := st.records - {p});
    if p !in st.records then rest
    else
      var r := st.records[p];
      rest.(commitments := map s | s in st.commitments && !Holds(r, Commitment(s)) :: st.commitments[s],
            taskIds := map s | s in st.taskIds && !Holds(r, TaskId(s)) :: st.taskIds[s],
            locals := map n | n in st.locals && !Holds(r, LocalId(n)) :: st.locals[n],
            clients := map n | n in st.clients && !Holds(r, ClientId(n)) :: st.clients[n])
  }

  function Evict(st: Traces, max: nat): Traces
    decreases |st.order|
  {
    if max == 0 || |st.order| <= max then st else Evict(EvictOne(st), max)
  }

  function TraceKeyFor(clientTaskId: nat, ts: seq<Snap>): Option<TraceKey> {
    if ts != [] && ts[0].commitment != "" then Some(OfCommitment(ts[0].commitment))
    else if clientTaskId != 0 then Some(OfClient(clientTaskId))
    else None
  }

  function NewTrace(st: Traces, p: TraceKey, clientTaskId: nat): Traces {
    st.(records := st.records[p := Record(clientTaskId, map[], {})],
        order := st.order + [p],
        clients := if clientTaskId != 0 then st.clients[clientTaskId := p] else st.clients)
  }

  function StartTrace(st: Traces, clientTaskId: nat, ts: seq<Snap>, max: int): Traces {
    if max <= 0 || TraceKeyFor(clientTaskId, ts).None? then st
    else
      var p := TraceKeyFor(clientTaskId, ts).value;
      if p in st.records then AddTasks(st, p, ts)
      else Evict(AddTasks(NewTrace(st, p, clientTaskId), p, ts), max)
  }

  /** The event is stored once for a task, a name and a status. */
  function WithEvent(st: Traces, p: TraceKey, t: Snap, name: string): Traces
    requires p in st.records && KeyFor(t) in st.records[p].tasks
  {
    var r := st.records[p];
    var e := Event(name, t.status);
    var k := EventKey(KeyFor(t), e);
    if k in r.eventKeys then st
    else
      var task := r.tasks[KeyFor(t)];
      st.(records := st.records[p := r.(eventKeys := r.eventKeys + {k},
                                        tasks := r.tasks[KeyFor(t) := task.(events := task.events + [e])])])
  }

  datatype Op =
    | Start(clientTaskId: nat, tasks: seq<Snap>, max: int)
    | Finish(key: TraceKey, final: Option<Snap>)
    | RegisterRelated(parent: Snap, tasks: seq<Snap>)
    | RegisterClient(clientTaskId: nat, tasks: seq<Snap>)
    | RecordEvent(task: Snap, name: string)

  /** The record an operation adds tasks to, if it reaches one. */
  function Target(st: Traces, op: Op): Option<TraceKey> {
    match op
    case Start(c, ts, max) =>
      if max > 0 && TraceKeyFor(c, ts).Some? && TraceKeyFor(c, ts).value in st.records then TraceKeyFor(c, ts) else None
    case Finish(p, final) => if p in st.records && final.Some? then Some(p) else None
    case RegisterRelated(parent, ts) => if ts == [] then None else PrimaryFor(st, parent)
    case RegisterClient(c, ts) => if c != 0 && ts != [] && c in st.clients then Some(st.clients[c]) else None
    case RecordEvent(t, name) => if name == "" then None else PrimaryFor(st, t)
  }

  /** A nil record is dereferenced: the index named a record that is not there. */
  predicate Crashes(st: Traces, op: Op) {
    (op.RegisterRelated? || op.RecordEvent?) && Target(st, op).Some? && Target(st, op).value !in st.records
  }

  function Exec(st: Traces, op: Op): Traces
    requires !Crashes(st, op)
  {
    var p := Target(st, op);
    match op
    case Start(c, ts, max) => StartTrace(st, c, ts, max)
    case Finish(_, final) => if p.Some? then AddTasks(st, p.value, [final.value]) else st
    case RegisterRelated(_, ts) => if p.Some? then AddTasks(st, p.value, ts) else st
    case RegisterClient(_, ts) => if p.Some? && p.value in st.records then AddTasks(st, p.value, ts) else st
    case RecordEvent(t, name) => if p.Some? then RecordedEvent(st, p.value, t, name) else st
  }

  function RecordedEvent(st: Traces, p: TraceKey, t: Snap, name: string): Traces
    requires p in st.records
  {
    WithEvent(AddTask(st, p, t), p, t, name)
  }

  // ---- Agreement ----

  /** Every index entry names a live record that holds the identity. */
  ghost predicate Agrees(st: Traces) {
    forall i {:trigger AgreesAt(st, i)} :: AgreesAt(st, i)
  }

  predicate AgreesAt(st: Traces, i: Identity) {
    Lookup(st, i).Some? ==> Lookup(st, i).value in st.records && Holds(st.records[Lookup(st, i).value], i)
  }

  ghost predicate OrderOk(st: Traces) {
    && (forall i, j | 0 <= i < j < |st.order| :: st.order[i] != st.order[j])
    && (forall p :: p in st.order <==> p in st.records)
  }

  /** A later snapshot of a task keeps every identity that was known. */
  predicate Grows(old_: Snap, t: Snap) {
    Known(old_) <= Known(t)
  }

  predicate GrowsIn(st: Traces, p: TraceKey, t: Snap)
    requires p in st.records
  {
    KeyFor(t) in st.records[p].tasks ==> Grows(st.records[p].tasks[KeyFor(t)].snap, t)
  }

  ghost predicate AllGrow(st: Traces, p: TraceKey, ts: seq<Snap>)
    requires p in st.records
  {
    forall n | 0 <= n < |ts| :: GrowsIn(AddTasks(st, p, ts[..n]), p, ts[n])
  }

  lemma IndexedLookup(st: Traces, t: Snap, p: TraceKey, i: Identity)
    ensures Lookup(Indexed(st, t, p), i) == if i in Known(t) then Some(p) else Lookup(st, i)
  {
  }

  /** An identity the update would drop from the record while an index still leads there. */
  ghost predicate Forgets(st: Traces, p: TraceKey, t: Snap, i: Identity)
    requires p in st.records
  {
    Lookup(st, i) == Some(p) && i !in Known(t) && !Holds(Updated(st.records[p], t), i)
  }

  /** Exactly when one more snapshot breaks the agreement: when the record drops an identity that an
      index still leads to it by. */
  lemma AddTaskAgreesIff(st: Traces, p: TraceKey, t: Snap)
    requires Agrees(st) && p in st.records
    ensures Agrees(AddTask(st, p, t)) <==> forall i :: !Forgets(st, p, t, i)
  {
    var n := AddTask(st, p, t);
    var mid := st.(records := st.records[p := Updated(st.records[p], t)]);
    forall i
      ensures AgreesAt(n, i) <==> !Forgets(st, p, t, i)
    {
      IndexedLookup(mid, t, p, i);
      assert Lookup(mid, i) == Lookup(st, i);
      assert AgreesAt(st, i);
      hide Lookup, Known, Indexed;
      if i in Known(t) {
        assert KeyFor(t) in Updated(st.records[p], t).tasks;
      }
    }
    hide AgreesAt, Forgets;
  }

  lemma GrowingForgetsNothing(st: Traces, p: TraceKey, t: Snap, i: Identity)
    requires Agrees(st) && p in st.records && GrowsIn(st, p, t)
    ensures !Forgets(st, p, t, i)
  {
    hide Known;
    if Lookup(st, i) == Some(p) {
      assert AgreesAt(st, i);
      var r, u := st.records[p], Updated(st.records[p], t);
      if k :| k in r.tasks && i in Known(r.tasks[k].snap) {
        assert k in u.tasks && i in Known(u.tasks[k].snap);
      }
    }
  }

  lemma {:induction false} AddTasksAgrees(st: Traces, p: TraceKey, ts: seq<Snap>)
    requires Agrees(st) && p in st.records && AllGrow(st, p, ts)
    ensures Agrees(AddTasks(st, p, ts))
  {
    if ts != [] {
      var last := |ts| - 1;
      var init := ts[..last];
      forall n | 0 <= n < last
        ensures GrowsIn(AddTasks(st, p, init[..n]), p, init[n])
      {
        assert init[..n] == ts[..n];
      }
      AddTasksAgrees(st, p, init);
      var mid := AddTasks(st, p, init);
      forall i
        ensures !Forgets(mid, p, ts[last], i)
      {
        GrowingForgetsNothing(mid, p, ts[last], i);
      }
      AddTaskAgreesIff(mid, p, ts[last]);
    }
  }

  lemma NewTraceAgrees(st: Traces, p: TraceKey, c: nat)
    requires Agrees(st) && p !in st.records
    ensures Agrees(NewTrace(st, p, c))
  {
    var n := NewTrace(st, p, c);
    forall i
      ensures AgreesAt(n, i)
    {
      assert AgreesAt(st, i);
      assert Lookup(n, i) == if c != 0 && i == ClientId(c) then Some(p) else Lookup(st, i);
      hide Lookup;
    }
  }

  lemma EvictOneLookup(st: Traces, i: Identity)
    requires st.order != [] && st.order[0] in st.records
    ensures Lookup(EvictOne(st), i) == if Holds(st.records[st.order[0]], i) then None else Lookup(st, i)
  {
    hide Holds;
  }

  lemma EvictOneAgrees(st: Traces)
    requires Agrees(st) && OrderOk(st) && st.order != []
    ensures Agrees(EvictOne(st)) && OrderOk(EvictOne(st))
  {
    var n := EvictOne(st);
    var p := st.order[0];
    forall i
      ensures AgreesAt(n, i)
    {
      assert AgreesAt(st, i);
      EvictOneLookup(st, i);
      assert n.records == st.records - {p};
      hide Lookup, EvictOne, Holds;
    }
    EvictOneOrder(st);
  }

  lemma EvictOneOrder(st: Traces)
    requires OrderOk(st) && st.order != []
    ensures OrderOk(EvictOne(st))
  {
    var n := EvictOne(st);
    var p := st.order[0];
    assert n.order == st.order[1..] && n.records == st.records - {p};
    hide EvictOne;
    assert st.order == [p] + n.order;
    forall q
      ensures q in n.order <==> q in n.records
    {
      assert q in st.order <==> q == p || q in n.order;
      assert forall h | 0 <= h < |n.order| :: n.order[h] == st.order[h + 1];
    }
  }

  /** The most recent insertions, as many as the limit allows. */
  function Recent(order: seq<TraceKey>, max: nat): seq<TraceKey> {
    if |order| <= max then order else order[|order| - max..]
  }

  /** Eviction keeps exactly the most recent insertions, as many as the limit allows. */
  lemma {:induction false} EvictKeepsRecent(st: Traces, max: nat)
    requires OrderOk(st) && max > 0
    ensures var n := Evict(st, max);
            && OrderOk(n)
            && n.order == Recent(st.order, max)
            && forall p | p in n.records :: p in st.records && n.records[p] == st.records[p]
    decreases |st.order|
  {
    if |st.order| > max {
      EvictOneOrder(st);
      assert EvictOne(st).order == st.order[1..] && EvictOne(st).records == st.records - {st.order[0]};
      hide EvictOne, OrderOk;
      EvictKeepsRecent(EvictOne(st), max);
    }
  }

  lemma {:induction false} EvictAgrees(st: Traces, max: nat)
    requires Agrees(st) && OrderOk(st)
    ensures Agrees(Evict(st, max))
    decreases |st.order|
  {
    if max > 0 && |st.order| > max {
      EvictOneAgrees(st);
      EvictAgrees(EvictOne(st), max);
    }
  }

  // ---- Runs ----

  /** What the agreement needs of an operation: later snapshots keep known identities. */
  ghost predicate Growing(st: Traces, op: Op) {
    match op
    case Start(c, ts, max) =>
      var p := TraceKeyFor(c, ts);
      max > 0 && p.Some? ==>
        if p.value in st.records then AllGrow(st, p.value, ts) else AllGrow(NewTrace(st, p.value, c), p.value, ts)
    case Finish(p, final) => p in st.records && final.Some? ==> AllGrow(st, p, [final.value])
    case RegisterRelated(parent, ts) =>
      Target(st, op).Some? && Target(st, op).value in st.records ==> AllGrow(st, Target(st, op).value, ts)
    case RegisterClient(c, ts) =>
      Target(st, op).Some? && Target(st, op).value in st.records ==> AllGrow(st, Target(st, op).value, ts)
    case RecordEvent(t, name) =>
      Target(st, op).Some? && Target(st, op).value in st.records ==> GrowsIn(st, Target(st, op).value, t)
  }

  lemma PrimaryIsLive(st: Traces, t: Snap)
    requires Agrees(st)
    ensures PrimaryFor(st, t).Some? ==> PrimaryFor(st, t).value in st.records
  {
    assert AgreesAt(st, Commitment(t.commitment));
    assert AgreesAt(st, TaskId(t.taskId));
    assert AgreesAt(st, LocalId(t.id));
    assert AgreesAt(st, ClientId(t.clientTaskId));
  }

  lemma EventAgrees(st: Traces, p: TraceKey, t: Snap, name: string)
    requires Agrees(st) && p in st.records && KeyFor(t) in st.records[p].tasks
    ensures Agrees(WithEvent(st, p, t, name))
  {
    var n := WithEvent(st, p, t, name);
    forall i
      ensures AgreesAt(n, i)
    {
      assert AgreesAt(st, i) && Lookup(n, i) == Lookup(st, i);
      hide Lookup, Known;
      if Lookup(st, i) == Some(p) {
        var r := st.records[p];
        if k :| k in r.tasks && i in Known(r.tasks[k].snap) {
          assert k in n.records[p].tasks && n.records[p].tasks[k].snap == r.tasks[k].snap;
        }
      }
    }
  }

  lemma RecordedEventAgrees(st: Traces, p: TraceKey, t: Snap, name: string)
    requires Agrees(st) && OrderOk(st) && p in st.records && GrowsIn(st, p, t)
    ensures Agrees(RecordedEvent(st, p, t, name)) && OrderOk(RecordedEvent(st, p, t, name))
  {
    forall i
      ensures !Forgets(st, p, t, i)
    {
      GrowingForgetsNothing(st, p, t, i);
    }
    AddTaskAgreesIff(st, p, t);
    hide Forgets, Agrees;
    EventAgrees(AddTask(st, p, t), p, t, name);
  }

  lemma NewStartAgrees(st: Traces, c: nat, ts: seq<Snap>, max: nat, p: TraceKey)
    requires Agrees(st) && OrderOk(st) && p !in st.records && max > 0 && AllGrow(NewTrace(st, p, c), p, ts)
    ensures var n := Evict(AddTasks(NewTrace(st, p, c), p, ts), max); Agrees(n) && OrderOk(n)
  {
    var begun := NewTrace(st, p, c);
    NewTraceAgrees(st, p, c);
    NewTraceOrder(st, p, c);
    AddTasksAgrees(begun, p, ts);
    SameOrder(begun, AddTasks(begun, p, ts));
    hide *;
    EvictKeepsRecent(AddTasks(begun, p, ts), max);
    EvictAgrees(AddTasks(begun, p, ts), max);
  }

  lemma StartAgrees(st: Traces, c: nat, ts: seq<Snap>, max: int)
    requires Agrees(st) && OrderOk(st) && Growing(st, Start(c, ts, max))
    ensures var n := StartTrace(st, c, ts, max); Agrees(n) && OrderOk(n)
  {
    hide AddTasks, Evict, TraceKeyFor, Agrees, NewTrace, AllGrow;
    if max > 0 && TraceKeyFor(c, ts).Some? {
      var p := TraceKeyFor(c, ts).value;
      if p in st.records {
        AddTasksAgrees(st, p, ts);
        SameOrder(st, AddTasks(st, p, ts));
      } else {
        NewStartAgrees(st, c, ts, max, p);
      }
    }
    hide OrderOk;
  }

  lemma StepAgrees(st: Traces, op: Op)
    requires Agrees(st) && OrderOk(st) && Growing(st, op)
    ensures !Crashes(st, op) && Agrees(Exec(st, op)) && OrderOk(Exec(st, op))
  {
    hide Agrees, AddTasks, PrimaryFor, AllGrow, StartTrace, TraceKeyFor, RecordedEvent, GrowsIn;
    match op {
      case Start(c, ts, max) => StartAgrees(st, c, ts, max);
      case Finish(p, final) => if p in st.records && final.Some? { AddTasksAgrees(st, p, [final.value]); }
      case RegisterRelated(parent, ts) =>
        PrimaryIsLive(st, parent);
        if Target(st, op).Some? { AddTasksAgrees(st, Target(st, op).value, ts); }
      case RegisterClient(c, ts) =>
        if Target(st, op).Some? && Target(st, op).value in st.records { AddTasksAgrees(st, Target(st, op).value, ts); }
      case RecordEvent(t, name) =>
        PrimaryIsLive(st, t);
        if Target(st, op).Some? { RecordedEventAgrees(st, Target(st, op).value, t, name); }
    }
  }

  /** The state after a run, and None once it has dereferenced a nil record. */
  function Run(ops: seq<Op>): Option<Traces> {
    if ops == [] then Some(EMPTY)
    else
      var st := Run(ops[..|ops| - 1]);
      var op := ops[|ops| - 1];
      if st.None? || Crashes(st.value, op) then None else Some(Exec(st.value, op))
  }

  ghost predicate RunGrows(ops: seq<Op>) {
    forall n {:trigger ops[n]} | 0 <= n < |ops| :: Run(ops[..n]).Some? ==> Growing(Run(ops[..n]).value, ops[n])
  }

  /** Over every run whose later snapshots keep the identities that were known, no nil record is ever
      dereferenced, every index entry names a live record that holds the identity, and the order lists
      exactly the live records, each once. */
  lemma {:induction false} EveryRunAgrees(ops: seq<Op>)
    requires RunGrows(ops)
    ensures Run(ops).Some? && Agrees(Run(ops).value) && OrderOk(Run(ops).value)
  {
    if ops == [] {
      assert forall i :: AgreesAt(EMPTY, i);
    } else {
      hide Growing, Exec, Crashes, Agrees, OrderOk;
      var last := |ops| - 1;
      var init := ops[..last];
      forall n | 0 <= n < last
        ensures Run(init[..n]).Some? ==> Growing(Run(init[..n]).value, init[n])
      {
        assert init[..n] == ops[..n] && init[n] == ops[n];
      }
      EveryRunAgrees(init);
      assert Growing(Run(init).value, ops[last]);
      StepAgrees(Run(init).value, ops[last]);
    }
  }

  // ---- The bound ----

  /** A new trace goes last, and what stays is the most recent insertions, as many as the limit. */
  lemma NewTraceIsKept(st: Traces, c: nat, ts: seq<Snap>, max: int)
    requires OrderOk(st) && max > 0 && TraceKeyFor(c, ts).Some? && TraceKeyFor(c, ts).value !in st.records
    ensures var n := StartTrace(st, c, ts, max);
            && OrderOk(n)
            && n.order == Recent(st.order + [TraceKeyFor(c, ts).value], max)
            && |n.order| <= max && TraceKeyFor(c, ts).value in n.records
  {
    var p := TraceKeyFor(c, ts).value;
    var begun := NewTrace(st, p, c);
    assert StartTrace(st, c, ts, max) == Evict(AddTasks(begun, p, ts), max);
    NewTraceOrder(st, p, c);
    hide NewTrace, StartTrace, AddTasks, Evict, TraceKeyFor;
    SameOrder(begun, AddTasks(begun, p, ts));
    hide OrderOk, Recent;
    EvictKeepsRecent(AddTasks(begun, p, ts), max);
    LastIsKept(st.order, p, max);
    KeptIsLive(Evict(AddTasks(begun, p, ts), max), p);
  }

  lemma NewTraceOrder(st: Traces, p: TraceKey, c: nat)
    requires OrderOk(st) && p !in st.records
    ensures OrderOk(NewTrace(st, p, c)) && NewTrace(st, p, c).order == st.order + [p]
  {
  }

  lemma SameOrder(a: Traces, b: Traces)
    requires OrderOk(a) && b.order == a.order && b.records.Keys == a.records.Keys
    ensures OrderOk(b)
  {
  }

  lemma KeptIsLive(st: Traces, p: TraceKey)
    requires OrderOk(st) && p in st.order
    ensures p in st.records
  {
  }

  lemma LastIsKept(order: seq<TraceKey>, p: TraceKey, max: int)
    requires max > 0
    ensures |Recent(order + [p], max)| <= max && p in Recent(order + [p], max)
  {
    var kept := Recent(order + [p], max);
    assert kept[|kept| - 1] == p;
  }

  /** Over every run that has not failed, whatever the snapshots say: the order lists exactly the live
      traces, each once, and with one limit there are never more of them than the limit. */
  lemma {:induction false} EveryRunIsBounded(ops: seq<Op>, max: int)
    requires Run(ops).Some? && max > 0
    requires forall n | 0 <= n < |ops| && ops[n].Start? :: ops[n].max == max
    ensures OrderOk(Run(ops).value) && |Run(ops).value.order| <= max
  {
    if ops != [] {
      var last := |ops| - 1;
      var init := ops[..last];
      assert forall n | 0 <= n < last :: init[n] == ops[n];
      EveryRunIsBounded(init, max);
      hide OrderOk, Exec, Crashes;
      StepIsBounded(Run(init).value, ops[last], max);
    }
  }

  lemma StepIsBounded(st: Traces, op: Op, max: int)
    requires OrderOk(st) && !Crashes(st, op)
    requires |st.order| <= max && max > 0 && (op.Start? ==> op.max == max)
    ensures OrderOk(Exec(st, op)) && |Exec(st, op).order| <= max
  {
    hide AddTasks, TraceKeyFor, PrimaryFor;
    if op.Start? && TraceKeyFor(op.clientTaskId, op.tasks).Some? && TraceKeyFor(op.clientTaskId, op.tasks).value !in st.records {
      NewTraceIsKept(st, op.clientTaskId, op.tasks, max);
    }
  }

  // ---- Completeness, for traces that share no identity ----

  predicate IndexedAt(st: Traces, p: TraceKey, i: Identity) {
    p in st.records && Holds(st.records[p], i) ==> Lookup(st, i) == Some(p)
  }

  /** Every identity of a live record leads to it. */
  ghost predicate Complete(st: Traces) {
    forall p, i {:trigger IndexedAt(st, p, i)} :: IndexedAt(st, p, i)
  }

  predicate ApartAt(st: Traces, p: TraceKey, ids: set<Identity>, q: TraceKey, i: Identity) {
    q in st.records && q != p && i in ids ==> !Holds(st.records[q], i)
  }

  /** No other live record holds one of these identities. */
  ghost predicate Apart(st: Traces, p: TraceKey, ids: set<Identity>) {
    forall q, i {:trigger ApartAt(st, p, ids, q, i)} :: ApartAt(st, p, ids, q, i)
  }

  ghost predicate AllApart(st: Traces, p: TraceKey, ts: seq<Snap>)
    requires p in st.records
  {
    forall n | 0 <= n < |ts| :: Apart(AddTasks(st, p, ts[..n]), p, Known(ts[n]))
  }

  lemma AddTaskCompletes(st: Traces, p: TraceKey, t: Snap)
    requires Complete(st) && p in st.records && Apart(st, p, Known(t))
    ensures Complete(AddTask(st, p, t))
  {
    var n := AddTask(st, p, t);
    var mid := st.(records := st.records[p := Updated(st.records[p], t)]);
    forall q, i
      ensures IndexedAt(n, q, i)
    {
      IndexedLookup(mid, t, p, i);
      assert Lookup(mid, i) == Lookup(st, i);
      assert IndexedAt(st, q, i) && ApartAt(st, p, Known(t), q, i);
      hide Lookup, Known, Indexed;
      if q == p && i !in Known(t) && Holds(Updated(st.records[p], t), i) {
        UpdatedHolds(st.records[p], t, i);
      }
    }
  }

  lemma UpdatedHolds(r: Record, t: Snap, i: Identity)
    requires Holds(Updated(r, t), i) && i !in Known(t)
    ensures Holds(r, i)
  {
    hide Known;
    var u := Updated(r, t);
    if !(r.clientTaskId != 0 && i == ClientId(r.clientTaskId)) {
      var k :| k in u.tasks && i in Known(u.tasks[k].snap);
      assert k in r.tasks;
    }
  }

  lemma {:induction false} AddTasksCompletes(st: Traces, p: TraceKey, ts: seq<Snap>)
    requires Complete(st) && p in st.records && AllApart(st, p, ts)
    ensures Complete(AddTasks(st, p, ts))
  {
    if ts != [] {
      hide Apart, Complete, AddTask, Known;
      var last := |ts| - 1;
      var init := ts[..last];
      forall n | 0 <= n < last
        ensures Apart(AddTasks(st, p, init[..n]), p, Known(init[n]))
      {
        assert init[..n] == ts[..n];
      }
      AddTasksCompletes(st, p, init);
      AddTaskCompletes(AddTasks(st, p, init), p, ts[last]);
    }
  }

  lemma NewTraceCompletes(st: Traces, p: TraceKey, c: nat)
    requires Complete(st) && p !in st.records && (c != 0 ==> Apart(st, p, {ClientId(c)}))
    ensures Complete(NewTrace(st, p, c))
  {
    var n := NewTrace(st, p, c);
    forall q, i
      ensures IndexedAt(n, q, i)
    {
      assert IndexedAt(st, q, i) && ApartAt(st, p, {ClientId(c)}, q, i);
      assert Lookup(n, i) == if c != 0 && i == ClientId(c) then Some(p) else Lookup(st, i);
      hide Lookup;
    }
  }

  lemma EvictOneCompletes(st: Traces)
    requires Complete(st) && OrderOk(st) && st.order != []
    ensures Complete(EvictOne(st))
  {
    var n := EvictOne(st);
    var p := st.order[0];
    forall q, i
      ensures IndexedAt(n, q, i)
    {
      assert IndexedAt(st, q, i) && IndexedAt(st, p, i);
      EvictOneLookup(st, i);
      assert n.records == st.records - {p};
      hide Lookup, EvictOne, Holds;
    }
  }

  lemma {:induction false} EvictCompletes(st: Traces, max: nat)
    requires Complete(st) && OrderOk(st)
    ensures Complete(Evict(st, max))
    decreases |st.order|
  {
    if max > 0 && |st.order| > max {
      EvictOneCompletes(st);
      EvictOneOrder(st);
      EvictCompletes(EvictOne(st), max);
    }
  }

  lemma EventCompletes(st: Traces, p: TraceKey, t: Snap, name: string)
    requires Complete(st) && p in st.records && KeyFor(t) in st.records[p].tasks
    ensures Complete(WithEvent(st, p, t, name))
  {
    var n := WithEvent(st, p, t, name);
    forall q, i
      ensures IndexedAt(n, q, i)
    {
      assert IndexedAt(st, q, i) && Lookup(n, i) == Lookup(st, i);
      hide Lookup, Known;
      if q == p && Holds(n.records[p], i) {
        var r := n.records[p];
        if k :| k in r.tasks && i in Known(r.tasks[k].snap) {
          assert k in st.records[p].tasks && st.records[p].tasks[k].snap == r.tasks[k].snap;
        }
      }
    }
  }

  /** What completeness needs of an operation: the tasks it adds belong to no other live trace. */
  ghost predicate Separate(st: Traces, op: Op) {
    match op
    case Start(c, ts, max) =>
      var p := TraceKeyFor(c, ts);
      max > 0 && p.Some? ==>
        if p.value in st.records then AllApart(st, p.value, ts)
        else (c != 0 ==> Apart(st, p.value, {ClientId(c)})) && AllApart(NewTrace(st, p.value, c), p.value, ts)
    case Finish(p, final) => p in st.records && final.Some? ==> AllApart(st, p, [final.value])
    case RegisterRelated(parent, ts) =>
      Target(st, op).Some? && Target(st, op).value in st.records ==> AllApart(st, Target(st, op).value, ts)
    case RegisterClient(c, ts) =>
      Target(st, op).Some? && Target(st, op).value in st.records ==> AllApart(st, Target(st, op).value, ts)
    case RecordEvent(t, name) =>
      Target(st, op).Some? && Target(st, op).value in st.records ==> Apart(st, Target(st, op).value, Known(t))
  }

  lemma StartCompletes(st: Traces, c: nat, ts: seq<Snap>, max: int)
    requires Complete(st) && OrderOk(st) && Separate(st, Start(c, ts, max))
    ensures Complete(StartTrace(st, c, ts, max))
  {
    hide AddTasks, Evict, TraceKeyFor, Complete, Apart, AllApart;
    if max > 0 && TraceKeyFor(c, ts).Some? {
      var p := TraceKeyFor(c, ts).value;
      if p in st.records {
        AddTasksCompletes(st, p, ts);
      } else {
        NewTraceCompletes(st, p, c);
        var begun := NewTrace(st, p, c);
        assert OrderOk(begun);
        hide NewTrace;
        AddTasksCompletes(begun, p, ts);
        EvictCompletes(AddTasks(begun, p, ts), max);
      }
    }
  }

  lemma StepCompletes(st: Traces, op: Op)
    requires Complete(st) && OrderOk(st) && Separate(st, op) && !Crashes(st, op)
    ensures Complete(Exec(st, op))
  {
    hide AddTasks, PrimaryFor, AllApart, StartTrace, TraceKeyFor, Complete, Apart, NewTrace;
    var p := Target(st, op);
    match op {
      case Start(c, ts, max) => StartCompletes(st, c, ts, max);
      case Finish(key, final) => if p.Some? { AddTasksCompletes(st, p.value, [final.value]); }
      case RegisterRelated(parent, ts) => if p.Some? { AddTasksCompletes(st, p.value, ts); }
      case RegisterClient(c, ts) => if p.Some? && p.value in st.records { AddTasksCompletes(st, p.value, ts); }
      case RecordEvent(t, name) =>
        if p.Some? {
          AddTaskCompletes(st, p.value, t);
          EventCompletes(AddTask(st, p.value, t), p.value, t, name);
        }
    }
  }

  ghost predicate RunSeparates(ops: seq<Op>) {
    forall n {:trigger ops[n]} | 0 <= n < |ops| :: Run(ops[..n]).Some? ==> Separate(Run(ops[..n]).value, ops[n])
  }

  lemma {:induction false} EveryRunCompletes(ops: seq<Op>)
    requires RunGrows(ops) && RunSeparates(ops)
    ensures Run(ops).Some? && Complete(Run(ops).value)
  {
    EveryRunAgrees(ops);
    if ops == [] {
      assert forall p, i :: IndexedAt(EMPTY, p, i);
    } else {
      hide Growing, Separate, Agrees, OrderOk, Complete, Exec, Crashes;
      var last := |ops| - 1;
      var init := ops[..last];
      forall n | 0 <= n < last
        ensures Run(init[..n]).Some? ==> Growing(Run(init[..n]).value, init[n]) && Separate(Run(init[..n]).value, init[n])
      {
        assert init[..n] == ops[..n] && init[n] == ops[n];
      }
      EveryRunCompletes(init);
      EveryRunAgrees(init);
      assert Separate(Run(init).value, ops[last]);
      StepCompletes(Run(init).value, ops[last]);
    }
  }

  function GetTrace(st: Traces, taskId: string): Option<TraceKey> {
    if taskId in st.taskIds && st.taskIds[taskId] in st.records then Some(st.taskIds[taskId]) else None
  }

  /** For traces that share no task, the indexed lookup is the linear search: it finds a trace exactly
      when some live one holds the TaskID, and then that one. */
  lemma GetTraceIsLinearSearch(ops: seq<Op>, taskId: string, p: TraceKey)
    requires RunGrows(ops) && RunSeparates(ops)
    ensures Run(ops).Some?
    ensures var st := Run(ops).value;
            GetTrace(st, taskId) == Some(p) <==> p in st.records && Holds(st.records[p], TaskId(taskId))
  {
    EveryRunAgrees(ops);
    EveryRunCompletes(ops);
    var st := Run(ops).value;
    assert AgreesAt(st, TaskId(taskId)) && IndexedAt(st, p, TaskId(taskId));
    hide Run, Holds;
  }

  /** For such traces the trace found for a task is live and holds one of the task's known identities;
      and none is found exactly when no live trace holds any of them. */
  lemma PrimaryIsTheHolder(ops: seq<Op>, t: Snap)
    requires RunGrows(ops) && RunSeparates(ops)
    ensures Run(ops).Some?
    ensures var st := Run(ops).value;
            match PrimaryFor(st, t)
            case Some(p) => p in st.records && exists i | i in Known(t) :: Holds(st.records[p], i)
            case None => forall p, i | p in st.records && i in Known(t) :: !Holds(st.records[p], i)
  {
    EveryRunAgrees(ops);
    EveryRunCompletes(ops);
    var st := Run(ops).value;
    hide Run, Holds;
    forall i | i in Known(t)
      ensures AgreesAt(st, i)
      ensures forall p | p in st.records && Holds(st.records[p], i) :: Lookup(st, i) == Some(p)
    {
      assert AgreesAt(st, i);
      forall p | p in st.records && Holds(st.records[p], i)
        ensures Lookup(st, i) == Some(p)
      {
        assert IndexedAt(st, p, i);
      }
    }
    PrimaryIsFirst(st, t);
    hide Known, PrimaryFor, Lookup;
  }

  /** The trace found for a task is the index entry of one of its known identities, if any has one. */
  lemma PrimaryIsFirst(st: Traces, t: Snap)
    ensures PrimaryFor(st, t).Some? ==> exists i | i in Known(t) :: Lookup(st, i) == PrimaryFor(st, t)
    ensures PrimaryFor(st, t).None? ==> forall i | i in Known(t) :: Lookup(st, i).None?
  {
    if PrimaryFor(st, t).Some? {
      if t.commitment != "" && t.commitment in st.commitments { assert Commitment(t.commitment) in Known(t); }
      else if t.taskId != "" && t.taskId in st.taskIds { assert TaskId(t.taskId) in Known(t); }
      else if t.id != 0 && t.id in st.locals { assert LocalId(t.id) in Known(t); }
      else { assert ClientId(t.clientTaskId) in Known(t); }
    }
  }

  // ---- Without the hypothesis ----

  /** A snapshot that drops an identity leaves its index entry behind; once the trace is evicted, an
      event for a task known only by that identity dereferences a nil record. */
  lemma ForgottenIdentityCrashes(st: Traces, p: TraceKey, t: Snap, c: string, status: TaskStatus, name: string)
    requires Agrees(st) && OrderOk(st) && st.order != [] && st.order[0] == p && c != "" && name != ""
    requires Forgets(st, p, t, Commitment(c))
    ensures var n := AddTask(st, p, t);
            && n.order != [] && n.order[0] == p && !Agrees(n)
            && Crashes(EvictOne(n), RecordEvent(Snap(0, 0, "", c, status), name))
  {
    AddTaskAgreesIff(st, p, t);
    var n := AddTask(st, p, t);
    assert p in st.order;
    EvictOneLookup(n, Commitment(c));
    assert Lookup(n, Commitment(c)) == Some(p) && !Holds(n.records[p], Commitment(c));
    assert Lookup(EvictOne(n), Commitment(c)) == Some(p) && p !in EvictOne(n).records;
    hide EvictOne, AddTask;
  }

  const NAMED := Snap(1, 0, "", "a", Pending)
  const UNNAMED := Snap(1, 0, "", "", Pending)

  /** A task is traced under its commitment, an event carries the same row without it, a second trace
      evicts the first, and the next event for the commitment has nothing to go to. */
  const FORGETTING: seq<Op> := [
    Start(0, [NAMED], 1),
    RecordEvent(UNNAMED, "polled"),
    Start(0, [Snap(2, 0, "", "b", Pending)], 1),
    RecordEvent(Snap(0, 0, "", "a", Pending), "polled")]

  const FIRST_TRACE := OfCommitment("a")
  const SECOND_TRACE := OfCommitment("b")
  const POLLED := Event("polled", Pending)

  const AFTER_START := Traces(
    [FIRST_TRACE], map[FIRST_TRACE := Record(0, map[LocalKey(1) := TaskTrace(NAMED, [])], {})],
    map["a" := FIRST_TRACE], map[], map[1 := FIRST_TRACE], map[])

  const AFTER_EVENT := Traces(
    [FIRST_TRACE],
    map[FIRST_TRACE := Record(0, map[LocalKey(1) := TaskTrace(UNNAMED, [POLLED])], {EventKey(LocalKey(1), POLLED)})],
    map["a" := FIRST_TRACE], map[], map[1 := FIRST_TRACE], map[])

  lemma RunNext(ops: seq<Op>, op: Op)
    ensures Run(ops + [op]) == if Run(ops).None? || Crashes(Run(ops).value, op) then None else Some(Exec(Run(ops).value, op))
  {
    assert (ops + [op])[..|ops|] == ops;
  }

  lemma AddOneTask(st: Traces, p: TraceKey, t: Snap)
    requires p in st.records
    ensures AddTasks(st, p, [t]) == AddTask(st, p, t)
  {
    assert [t][..0] == [];
  }

  lemma FirstTraceStarts()
    ensures Run(FORGETTING[..1]) == Some(AFTER_START)
  {
    var st := NewTrace(EMPTY, FIRST_TRACE, 0);
    AddOneTask(st, FIRST_TRACE, NAMED);
    assert AddTask(st, FIRST_TRACE, NAMED) == AFTER_START;
    assert StartTrace(EMPTY, 0, [NAMED], 1) == Evict(AFTER_START, 1) == AFTER_START;
    assert FORGETTING[..1] == [] + [FORGETTING[0]];
    RunNext([], FORGETTING[0]);
  }

  lemma EventForgets()
    ensures Exec(AFTER_START, FORGETTING[1]) == AFTER_EVENT
  {
    assert PrimaryFor(AFTER_START, UNNAMED) == Some(FIRST_TRACE);
    var st := AddTask(AFTER_START, FIRST_TRACE, UNNAMED);
    var r := Record(0, map[LocalKey(1) := TaskTrace(UNNAMED, [])], {});
    assert Updated(AFTER_START.records[FIRST_TRACE], UNNAMED).tasks == r.tasks;
    assert st == AFTER_EVENT.(records := map[FIRST_TRACE := r]);
    var n := WithEvent(st, FIRST_TRACE, UNNAMED, "polled");
    assert EventKey(LocalKey(1), POLLED) !in r.eventKeys && [] + [POLLED] == [POLLED];
    var task := TaskTrace(UNNAMED, [POLLED]);
    assert r.tasks[LocalKey(1) := task] == map[LocalKey(1) := task];
    assert r.eventKeys + {EventKey(LocalKey(1), POLLED)} == {EventKey(LocalKey(1), POLLED)};
    assert n.records == AFTER_EVENT.records;
  }

  /** The second trace evicts the first, whose record no longer knows the commitment. */
  lemma EvictionLeavesEntry()
    ensures var st := Exec(AFTER_EVENT, FORGETTING[2]);
            Lookup(st, Commitment("a")) == Some(FIRST_TRACE) && FIRST_TRACE !in st.records
  {
    var t := Snap(2, 0, "", "b", Pending);
    var started := NewTrace(AFTER_EVENT, SECOND_TRACE, 0);
    AddOneTask(started, SECOND_TRACE, t);
    var st := AddTask(started, SECOND_TRACE, t);
    assert st.order == [FIRST_TRACE, SECOND_TRACE] && st.records[FIRST_TRACE] == AFTER_EVENT.records[FIRST_TRACE];
    assert Lookup(st, Commitment("a")) == Some(FIRST_TRACE);
    assert !Holds(st.records[FIRST_TRACE], Commitment("a"));
    EvictOneLookup(st, Commitment("a"));
    var evicted := EvictOne(st);
    assert evicted.order == [SECOND_TRACE] && evicted.records == st.records - {FIRST_TRACE};
    hide EvictOne, AddTask, Holds, NewTrace;
    assert Evict(st, 1) == Evict(evicted, 1) == evicted;
  }

  lemma ForgettingSteps()
    ensures FORGETTING[..2] == FORGETTING[..1] + [FORGETTING[1]]
    ensures FORGETTING[..3] == FORGETTING[..2] + [FORGETTING[2]] && FORGETTING == FORGETTING[..3] + [FORGETTING[3]]
    ensures !Crashes(AFTER_START, FORGETTING[1]) && !Crashes(AFTER_EVENT, FORGETTING[2])
  {
  }

  lemma LastOneCrashes(st: Traces)
    requires Lookup(st, Commitment("a")) == Some(FIRST_TRACE) && FIRST_TRACE !in st.records
    ensures Crashes(st, FORGETTING[3])
  {
  }

  /** From the empty store, three operations, and the fourth dereferences a nil record. */
  lemma ForgettingRunCrashes()
    ensures Run(FORGETTING[..3]).Some? && Run(FORGETTING) == None
  {
    hide *;
    ForgettingSteps();
    FirstTraceStarts();
    EventForgets();
    EvictionLeavesEntry();
    RunNext(FORGETTING[..1], FORGETTING[1]);
    RunNext(FORGETTING[..2], FORGETTING[2]);
    LastOneCrashes(Exec(AFTER_EVENT, FORGETTING[2]));
    RunNext(FORGETTING[..3], FORGETTING[3]);
  }
}
