/** What each operation of the trace cache leaves in it, spelled out in records and indices, and what that
    means for the events of a task over every run. */
module TraceEffects {
  import opened Wrappers
  import opened Models
  import opened TraceIndex

  // ---- Added tasks ----

  /** A task is filed under its row, or else its commitment, or else its TaskID. */
  predicate FiledUnder(t: Snap, k: TaskKey) {
    match k
    case LocalKey(id) => t.id == id != 0
    case CommitmentKey(c) => t.id == 0 && t.commitment == c != ""
    case TaskIdKey(g) => t.id == 0 && t.commitment == "" && t.taskId == g
  }

  /** The last of the snapshots that is filed under the key. */
  predicate LastFiled(ts: seq<Snap>, n: int, k: TaskKey) {
    0 <= n < |ts| && FiledUnder(ts[n], k) && forall m | n < m < |ts| :: !FiledUnder(ts[m], k)
  }

  predicate Keeps(o: Record, n: Record, k: TaskKey) {
    if k in o.tasks then k in n.tasks && n.tasks[k] == o.tasks[k] else k !in n.tasks
  }

  predicate Takes(o: Record, n: Record, k: TaskKey, t: Snap) {
    k in n.tasks && n.tasks[k].snap == t && n.tasks[k].events == if k in o.tasks then o.tasks[k].events else []
  }

  predicate HeldAt(o: Record, n: Record, ts: seq<Snap>, k: TaskKey) {
    && ((forall m | 0 <= m < |ts| :: !FiledUnder(ts[m], k)) ==> Keeps(o, n, k))
    && (forall m | 0 <= m < |ts| && LastFiled(ts, m, k) :: Takes(o, n, k, ts[m]))
  }

  /** A record after tasks were added: each is there with its last snapshot and the events it had. */
  ghost predicate Holding(o: Record, n: Record, ts: seq<Snap>) {
    && n.clientTaskId == o.clientTaskId && n.eventKeys == o.eventKeys
    && forall k {:trigger HeldAt(o, n, ts, k)} :: HeldAt(o, n, ts, k)
  }

  function Commitments(ts: seq<Snap>): set<string> {
    set m | 0 <= m < |ts| && ts[m].commitment != "" :: ts[m].commitment
  }

  function TaskIdsOf(ts: seq<Snap>): set<string> {
    set m | 0 <= m < |ts| && ts[m].taskId != "" :: ts[m].taskId
  }

  function RowsOf(ts: seq<Snap>): set<nat> {
    set m | 0 <= m < |ts| && ts[m].id != 0 :: ts[m].id
  }

  function ClientsOf(ts: seq<Snap>): set<nat> {
    set m | 0 <= m < |ts| && ts[m].clientTaskId != 0 :: ts[m].clientTaskId
  }

  /** The indices after tasks were added: every identity of theirs that is known leads to their record, and
      no other entry changes. */
  ghost predicate LeadingTo(o: Traces, n: Traces, p: TraceKey, ts: seq<Snap>) {
    && n.commitments == o.commitments + (map s | s in Commitments(ts) :: p)
    && n.taskIds == o.taskIds + (map s | s in TaskIdsOf(ts) :: p)
    && n.locals == o.locals + (map i | i in RowsOf(ts) :: p)
    && n.clients == o.clients + (map c | c in ClientsOf(ts) :: p)
  }

  /** The tasks are in the record, and nothing else changes. */
  ghost predicate Added(o: Traces, n: Traces, p: TraceKey, ts: seq<Snap>) {
    && p in o.records && n.order == o.order && n.records.Keys == o.records.Keys
    && (forall q | q in o.records && q != p :: n.records[q] == o.records[q])
    && Holding(o.records[p], n.records[p], ts)
    && LeadingTo(o, n, p, ts)
  }

  lemma KeyIsFiled(t: Snap, k: TaskKey)
    ensures FiledUnder(t, k) <==> KeyFor(t) == k
  {
    match k {
      case LocalKey(id) =>
      case CommitmentKey(c) =>
      case TaskIdKey(g) =>
    }
  }

  lemma HoldingNext(o: Record, mid: Record, ts: seq<Snap>, t: Snap)
    requires Holding(o, mid, ts)
    ensures Holding(o, Updated(mid, t), ts + [t])
  {
    forall k
      ensures HeldAt(o, Updated(mid, t), ts + [t], k)
    {
      HeldNext(o, mid, ts, t, k);
    }
  }

  lemma HeldNext(o: Record, mid: Record, ts: seq<Snap>, t: Snap, k: TaskKey)
    requires HeldAt(o, mid, ts, k)
    ensures HeldAt(o, Updated(mid, t), ts + [t], k)
  {
    KeyIsFiled(t, k);
    hide FiledUnder, KeyFor;
    var n, all := Updated(mid, t), ts + [t];
    assert all[|ts|] == t && forall m | 0 <= m < |ts| :: all[m] == ts[m];
    EventsHeld(o, mid, ts, k);
    if KeyFor(t) == k {
      assert Takes(o, n, k, t);
      assert forall m | 0 <= m < |ts| :: !LastFiled(all, m, k);
    } else {
      assert k in n.tasks <==> k in mid.tasks;
      assert k in mid.tasks ==> n.tasks[k] == mid.tasks[k];
      assert forall m | 0 <= m < |ts| :: LastFiled(all, m, k) <==> LastFiled(ts, m, k);
      assert !LastFiled(all, |ts|, k);
      if forall m | 0 <= m < |all| :: !FiledUnder(all[m], k) {
        assert forall m | 0 <= m < |ts| :: !FiledUnder(ts[m], k) by { assert forall m | 0 <= m < |ts| :: ts[m] == all[m]; }
      }
    }
  }

  lemma {:induction false} SomeFiled(ts: seq<Snap>, k: TaskKey) returns (m: int)
    requires exists h :: 0 <= h < |ts| && FiledUnder(ts[h], k)
    ensures LastFiled(ts, m, k)
  {
    hide FiledUnder;
    var last := |ts| - 1;
    if FiledUnder(ts[last], k) {
      m := last;
    } else {
      m := SomeFiled(ts[..last], k);
    }
  }

  lemma EventsHeld(o: Record, n: Record, ts: seq<Snap>, k: TaskKey)
    requires HeldAt(o, n, ts, k)
    ensures (if k in n.tasks then n.tasks[k].events else []) == if k in o.tasks then o.tasks[k].events else []
  {
    hide FiledUnder;
    if exists h :: 0 <= h < |ts| && FiledUnder(ts[h], k) {
      var m := SomeFiled(ts, k);
      assert LastFiled(ts, m, k) && Takes(o, n, k, ts[m]);
    }
  }

  lemma OneMore(ts: seq<Snap>, t: Snap)
    ensures Commitments(ts + [t]) == Commitments(ts) + if t.commitment != "" then {t.commitment} else {}
    ensures TaskIdsOf(ts + [t]) == TaskIdsOf(ts) + if t.taskId != "" then {t.taskId} else {}
    ensures RowsOf(ts + [t]) == RowsOf(ts) + if t.id != 0 then {t.id} else {}
    ensures ClientsOf(ts + [t]) == ClientsOf(ts) + if t.clientTaskId != 0 then {t.clientTaskId} else {}
  {
    var all := ts + [t];
    assert all[|ts|] == t && forall m | 0 <= m < |ts| :: all[m] == ts[m];
  }

  lemma EntryNext<K>(o: map<K, TraceKey>, mid: map<K, TraceKey>, keys: set<K>, more: set<K>, k: K, known: bool, p: TraceKey)
    requires mid == o + (map x | x in keys :: p) && more == keys + if known then {k} else {}
    ensures (if known then mid[k := p] else mid) == o + (map x | x in more :: p)
  {
  }

  lemma LeadingNext(o: Traces, mid: Traces, p: TraceKey, ts: seq<Snap>, t: Snap)
    requires LeadingTo(o, mid, p, ts)
    ensures LeadingTo(o, Indexed(mid, t, p), p, ts + [t])
  {
    OneMore(ts, t);
    hide Commitments, TaskIdsOf, RowsOf, ClientsOf;
    EntryNext(o.commitments, mid.commitments, Commitments(ts), Commitments(ts + [t]), t.commitment, t.commitment != "", p);
    EntryNext(o.taskIds, mid.taskIds, TaskIdsOf(ts), TaskIdsOf(ts + [t]), t.taskId, t.taskId != "", p);
    EntryNext(o.locals, mid.locals, RowsOf(ts), RowsOf(ts + [t]), t.id, t.id != 0, p);
    EntryNext(o.clients, mid.clients, ClientsOf(ts), ClientsOf(ts + [t]), t.clientTaskId, t.clientTaskId != 0, p);
  }

  lemma {:induction false} AddingAdds(st: Traces, p: TraceKey, ts: seq<Snap>)
    requires p in st.records
    ensures Added(st, AddTasks(st, p, ts), p, ts)
  {
    if ts != [] {
      var last := |ts| - 1;
      var mid := AddTasks(st, p, ts[..last]);
      AddingAdds(st, p, ts[..last]);
      assert ts == ts[..last] + [ts[last]];
      hide Holding, LeadingTo, Indexed, Updated;
      HoldingNext(st.records[p], mid.records[p], ts[..last], ts[last]);
      var updated := mid.(records := mid.records[p := Updated(mid.records[p], ts[last])]);
      SameIndices(st, mid, updated, p, ts[..last]);
      LeadingNext(st, updated, p, ts[..last], ts[last]);
      OnlyIndices(updated, ts[last], p);
    }
  }

  lemma SameIndices(o: Traces, a: Traces, b: Traces, p: TraceKey, ts: seq<Snap>)
    requires LeadingTo(o, a, p, ts)
    requires b.commitments == a.commitments && b.taskIds == a.taskIds && b.locals == a.locals && b.clients == a.clients
    ensures LeadingTo(o, b, p, ts)
  {
  }

  lemma OnlyIndices(st: Traces, t: Snap, p: TraceKey)
    ensures Indexed(st, t, p).records == st.records && Indexed(st, t, p).order == st.order
  {
  }

  // ---- The operations ----

  /** Where a task is looked for: by its commitment, its TaskID, its row and its client task, the first that
      is known and has an entry. */
  predicate FoundAt(st: Traces, t: Snap, p: TraceKey) {
    var c, g, i := t.commitment != "" && t.commitment in st.commitments, t.taskId != "" && t.taskId in st.taskIds, t.id != 0 && t.id in st.locals;
    || (c && p == st.commitments[t.commitment])
    || (!c && g && p == st.taskIds[t.taskId])
    || (!c && !g && i && p == st.locals[t.id])
    || (!c && !g && !i && t.clientTaskId != 0 && t.clientTaskId in st.clients && p == st.clients[t.clientTaskId])
  }

  lemma FoundIsPrimary(st: Traces, t: Snap, p: TraceKey)
    ensures FoundAt(st, t, p) <==> PrimaryFor(st, t) == Some(p)
  {
  }

  /** A trace is started again: its tasks are added to it. */
  lemma RestartAdds(st: Traces, c: nat, ts: seq<Snap>, max: int, p: TraceKey)
    requires max > 0 && p in st.records
    requires if ts != [] && ts[0].commitment != "" then p == OfCommitment(ts[0].commitment) else c != 0 && p == OfClient(c)
    ensures Added(st, Exec(st, Start(c, ts, max)), p, ts)
  {
    AddingAdds(st, p, ts);
    hide Added, AddTasks;
  }

  /** Nothing is started without a limit, or without anything to file the trace under. */
  lemma NothingStarts(st: Traces, c: nat, ts: seq<Snap>, max: int)
    requires max <= 0 || (c == 0 && (ts == [] || ts[0].commitment == ""))
    ensures Exec(st, Start(c, ts, max)) == st
  {
  }

  /** A trace is started: its record holds its tasks, without events; the live traces that remain are as
      they were. */
  lemma StartHolds(st: Traces, c: nat, ts: seq<Snap>, max: int, p: TraceKey)
    requires OrderOk(st) && max > 0 && p !in st.records
    requires if ts != [] && ts[0].commitment != "" then p == OfCommitment(ts[0].commitment) else c != 0 && p == OfClient(c)
    ensures var n := Exec(st, Start(c, ts, max));
            && p in n.records && Holding(Record(c, map[], {}), n.records[p], ts)
            && forall q | q in n.records && q != p :: q in st.records && n.records[q] == st.records[q]
  {
    var begun := NewTrace(st, p, c);
    NewTraceOrder(st, p, c);
    AddingAdds(begun, p, ts);
    NewTraceIsKept(st, c, ts, max);
    SameOrder(begun, AddTasks(begun, p, ts));
    hide AddTasks, Evict, OrderOk, Holding, LeadingTo, Recent;
    assert Exec(st, Start(c, ts, max)) == Evict(AddTasks(begun, p, ts), max);
    hide Exec, StartTrace;
    EvictKeepsRecent(AddTasks(begun, p, ts), max);
  }

  /** A trace is finished: its final task is added to it, if it is live and there is one. */
  lemma FinishAdds(st: Traces, p: TraceKey, final: Snap)
    ensures Exec(st, Finish(p, None)) == st
    ensures if p in st.records then Added(st, Exec(st, Finish(p, Some(final))), p, [final]) else Exec(st, Finish(p, Some(final))) == st
  {
    if p in st.records { AddingAdds(st, p, [final]); }
    hide Added, AddTasks;
  }

  /** Related tasks are added to the trace of their parent, if it has one. */
  lemma RelatedAdds(st: Traces, parent: Snap, ts: seq<Snap>)
    requires forall p | FoundAt(st, parent, p) :: p in st.records
    ensures !Crashes(st, RegisterRelated(parent, ts))
    ensures forall p | FoundAt(st, parent, p) :: Added(st, Exec(st, RegisterRelated(parent, ts)), p, ts)
    ensures (forall p :: !FoundAt(st, parent, p)) ==> Exec(st, RegisterRelated(parent, ts)) == st
  {
    forall p: TraceKey
      ensures FoundAt(st, parent, p) <==> PrimaryFor(st, parent) == Some(p)
    {
      FoundIsPrimary(st, parent, p);
    }
    hide FoundAt, PrimaryFor;
    forall p | FoundAt(st, parent, p)
      ensures Added(st, AddTasks(st, p, ts), p, ts)
    {
      AddingAdds(st, p, ts);
    }
    hide Added;
    assert ts == [] ==> forall p | p in st.records :: AddTasks(st, p, ts) == st;
    if PrimaryFor(st, parent).Some? { assert FoundAt(st, parent, PrimaryFor(st, parent).value); }
  }

  /** The tasks of a client task are added to its trace, if it has a live one. */
  lemma ClientTasksAdd(st: Traces, c: nat, ts: seq<Snap>)
    ensures var n := Exec(st, RegisterClient(c, ts));
            if c != 0 && c in st.clients && st.clients[c] in st.records then Added(st, n, st.clients[c], ts) else n == st
  {
    if c in st.clients && st.clients[c] in st.records { AddingAdds(st, st.clients[c], ts); }
    assert ts == [] ==> forall p | p in st.records :: AddTasks(st, p, ts) == st;
    hide Added, AddTasks;
  }

  /** An event: its task is added to its trace, and the event goes to the end of the task's events unless the
      task already has one of that name and status. */
  lemma EventIsStored(st: Traces, t: Snap, name: string, p: TraceKey, k: TaskKey)
    requires name != "" && FoundAt(st, t, p) && p in st.records && FiledUnder(t, k)
    ensures !Crashes(st, RecordEvent(t, name))
    ensures var n := Exec(st, RecordEvent(t, name));
            var o := st.records[p];
            var isNew := EventKey(k, Event(name, t.status)) !in o.eventKeys;
            && n.order == st.order && n.records.Keys == st.records.Keys && LeadingTo(st, n, p, [t])
            && (forall q | q in st.records && q != p :: n.records[q] == st.records[q])
            && n.records[p].clientTaskId == o.clientTaskId
            && n.records[p].eventKeys == o.eventKeys + {EventKey(k, Event(name, t.status))}
            && (forall j | j != k :: Keeps(o, n.records[p], j))
            && k in n.records[p].tasks && n.records[p].tasks[k].snap == t
            && n.records[p].tasks[k].events == (if k in o.tasks then o.tasks[k].events else []) + if isNew then [Event(name, t.status)] else []
  {
    FoundIsPrimary(st, t, p);
    KeyIsFiled(t, k);
    AddingAdds(st, p, [t]);
    AddOneTask(st, p, t);
    hide FoundAt, PrimaryFor, FiledUnder, AddTasks, Holding, LeadingTo, WithEvent, AddTask;
    var mid := AddTask(st, p, t);
    assert Exec(st, RecordEvent(t, name)) == WithEvent(mid, p, t, name);
    hide Exec;
    AddedRecord(st, p, t);
    EventWritten(mid, p, t, name);
    SameIndices(st, mid, WithEvent(mid, p, t, name), p, [t]);
  }

  lemma AddedRecord(st: Traces, p: TraceKey, t: Snap)
    requires p in st.records
    ensures var mid := AddTask(st, p, t);
            && mid.order == st.order && mid.records == st.records[p := Updated(st.records[p], t)]
            && KeyFor(t) in mid.records[p].tasks
  {
  }

  lemma EventWritten(st: Traces, p: TraceKey, t: Snap, name: string)
    requires p in st.records && KeyFor(t) in st.records[p].tasks
    ensures var n := WithEvent(st, p, t, name);
            var r, k, e := st.records[p], KeyFor(t), Event(name, t.status);
            && n.order == st.order && n.records.Keys == st.records.Keys && (forall q | q in st.records && q != p :: n.records[q] == st.records[q])
            && n.commitments == st.commitments && n.taskIds == st.taskIds && n.locals == st.locals && n.clients == st.clients
            && n.records[p].clientTaskId == r.clientTaskId && n.records[p].eventKeys == r.eventKeys + {EventKey(k, e)}
            && n.records[p].tasks ==
               r.tasks[k := r.tasks[k].(events := r.tasks[k].events + if EventKey(k, e) in r.eventKeys then [] else [e])]
  {
    var r, k, e := st.records[p], KeyFor(t), Event(name, t.status);
    if EventKey(k, e) in r.eventKeys {
      assert r.eventKeys + {EventKey(k, e)} == r.eventKeys && r.tasks[k].events + [] == r.tasks[k].events;
      assert r.tasks[k := r.tasks[k]] == r.tasks;
    }
  }

  lemma NoEvent(st: Traces, t: Snap, name: string)
    requires name == "" || forall p :: !FoundAt(st, t, p)
    ensures !Crashes(st, RecordEvent(t, name)) && Exec(st, RecordEvent(t, name)) == st
  {
    if name != "" && PrimaryFor(st, t).Some? { FoundIsPrimary(st, t, PrimaryFor(st, t).value); }
    hide FoundAt, PrimaryFor;
  }

  // ---- Events over runs ----

  ghost predicate EventsOnceAt(r: Record, k: TaskKey) {
    if k in r.tasks then
      && (forall i, j | 0 <= i < j < |r.tasks[k].events| :: r.tasks[k].events[i] != r.tasks[k].events[j])
      && (forall e :: e in r.tasks[k].events <==> EventKey(k, e) in r.eventKeys)
    else forall e :: EventKey(k, e) !in r.eventKeys
  }

  ghost predicate EventsOnce(r: Record) {
    forall k {:trigger EventsOnceAt(r, k)} :: EventsOnceAt(r, k)
  }

  ghost predicate AllEventsOnce(st: Traces) {
    forall p | p in st.records :: EventsOnce(st.records[p])
  }

  lemma AddingKeepsEvents(o: Record, n: Record, ts: seq<Snap>)
    requires EventsOnce(o) && Holding(o, n, ts)
    ensures EventsOnce(n)
  {
    forall k
      ensures EventsOnceAt(n, k)
    {
      assert EventsOnceAt(o, k) && HeldAt(o, n, ts, k);
      EventsHeld(o, n, ts, k);
      hide HeldAt;
    }
  }

  lemma AddedKeepsEvents(o: Traces, n: Traces, p: TraceKey, ts: seq<Snap>)
    requires AllEventsOnce(o) && Added(o, n, p, ts)
    ensures AllEventsOnce(n)
  {
    AddingKeepsEvents(o.records[p], n.records[p], ts);
    hide EventsOnce, Holding, LeadingTo;
  }

  lemma StartKeepsEvents(st: Traces, c: nat, ts: seq<Snap>, max: int)
    requires OrderOk(st) && AllEventsOnce(st)
    ensures AllEventsOnce(Exec(st, Start(c, ts, max)))
  {
    if max > 0 && TraceKeyFor(c, ts).Some? {
      var p := TraceKeyFor(c, ts).value;
      if p in st.records {
        RestartAdds(st, c, ts, max, p);
        AddedKeepsEvents(st, Exec(st, Start(c, ts, max)), p, ts);
      } else {
        StartHolds(st, c, ts, max, p);
        assert EventsOnce(Record(c, map[], {}));
        AddingKeepsEvents(Record(c, map[], {}), Exec(st, Start(c, ts, max)).records[p], ts);
        hide EventsOnce, Exec, Holding;
      }
    }
  }

  lemma EventKeepsEvents(st: Traces, t: Snap, name: string, p: TraceKey)
    requires AllEventsOnce(st) && name != "" && FoundAt(st, t, p) && p in st.records
    ensures AllEventsOnce(Exec(st, RecordEvent(t, name)))
  {
    KeyIsFiled(t, KeyFor(t));
    EventIsStored(st, t, name, p, KeyFor(t));
    var n, o := Exec(st, RecordEvent(t, name)).records[p], st.records[p];
    hide Exec, FoundAt, LeadingTo, KeyFor;
    forall k
      ensures EventsOnceAt(n, k)
    {
      assert EventsOnceAt(o, k);
      if k != KeyFor(t) { assert Keeps(o, n, k); }
    }
    assert EventsOnce(n);
    hide EventsOnce;
  }

  lemma StepKeepsEvents(st: Traces, op: Op)
    requires OrderOk(st) && AllEventsOnce(st) && !Crashes(st, op)
    ensures AllEventsOnce(Exec(st, op))
  {
    match op {
      case Start(c, ts, max) => StartKeepsEvents(st, c, ts, max);
      case RecordEvent(t, name) =>
        if name != "" && PrimaryFor(st, t).Some? {
          FoundIsPrimary(st, t, PrimaryFor(st, t).value);
          EventKeepsEvents(st, t, name, PrimaryFor(st, t).value);
        }
      case Finish(p, final) => if p in st.records && final.Some? { TasksKeepEvents(st, p, [final.value]); }
      case RegisterRelated(parent, ts) => if Target(st, op).Some? { TasksKeepEvents(st, Target(st, op).value, ts); }
      case RegisterClient(c, ts) =>
        if Target(st, op).Some? && Target(st, op).value in st.records { TasksKeepEvents(st, Target(st, op).value, ts); }
    }
    hide AllEventsOnce, AddTasks, PrimaryFor, StartTrace, RecordedEvent;
  }

  lemma TasksKeepEvents(st: Traces, p: TraceKey, ts: seq<Snap>)
    requires AllEventsOnce(st) && p in st.records
    ensures AllEventsOnce(AddTasks(st, p, ts))
  {
    AddingAdds(st, p, ts);
    AddedKeepsEvents(st, AddTasks(st, p, ts), p, ts);
  }

  /** Over every run that has not failed: no task has two events of one name and status. */
  lemma {:induction false} EveryRunStoresOnce(ops: seq<Op>)
    requires Run(ops).Some?
    ensures OrderOk(Run(ops).value) && AllEventsOnce(Run(ops).value)
  {
    if ops != [] {
      var last := |ops| - 1;
      EveryRunStoresOnce(ops[..last]);
      hide OrderOk, AllEventsOnce, Exec, Crashes;
      StepKeepsOrder(Run(ops[..last]).value, ops[last]);
      StepKeepsEvents(Run(ops[..last]).value, ops[last]);
    }
  }

  lemma StepKeepsOrder(st: Traces, op: Op)
    requires OrderOk(st) && !Crashes(st, op)
    ensures OrderOk(Exec(st, op))
  {
    if op.Start? && op.max > 0 && TraceKeyFor(op.clientTaskId, op.tasks).Some? && TraceKeyFor(op.clientTaskId, op.tasks).value !in st.records {
      NewTraceIsKept(st, op.clientTaskId, op.tasks, op.max);
    }
    hide AddTasks, TraceKeyFor, PrimaryFor;
  }
}
