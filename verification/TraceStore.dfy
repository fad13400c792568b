/** The `store` object of `tasktrace/store.go`: every method rewrites its maps and its order in place
    and is proved to be the operation on the whole cache. */
module TraceStore {
  import opened Wrappers
  import opened Models
  import opened TraceIndex

  class Store {
    var maxTraces: int
    var order: seq<TraceKey>
    var traces: map<TraceKey, Record>
    var commitmentIndex: map<string, TraceKey>
    var taskIdIndex: map<string, TraceKey>
    var localIndex: map<nat, TraceKey>
    var clientIndex: map<nat, TraceKey>

    function Snapshot(): Traces
      reads this
    {
      Traces(order, traces, commitmentIndex, taskIdIndex, localIndex, clientIndex)
    }

    constructor ()
      ensures Snapshot() == EMPTY
    {
      maxTraces, order, traces := 0, [], map[];
      commitmentIndex, taskIdIndex, localIndex, clientIndex := map[], map[], map[], map[];
    }

    method AddTasks(p: TraceKey, ts: seq<Snap>)
      requires p in traces
      modifies this
      ensures Snapshot() == TraceIndex.AddTasks(old(Snapshot()), p, ts) && maxTraces == old(maxTraces)
    {
      for n := 0 to |ts|
        invariant p in traces && maxTraces == old(maxTraces)
        invariant Snapshot() == TraceIndex.AddTasks(old(Snapshot()), p, ts[..n])
      {
        assert ts[..n + 1][..n] == ts[..n];
        AddOne(p, ts[n]);
      }
      assert ts[..|ts|] == ts;
    }

    method AddOne(p: TraceKey, t: Snap)
      requires p in traces
      modifies this
      ensures Snapshot() == AddTask(old(Snapshot()), p, t) && maxTraces == old(maxTraces)
    {
      var record := traces[p];
      var k := KeyFor(t);
      if k !in record.tasks {
        record := record.(tasks := record.tasks[k := TaskTrace(t, [])]);
      } else {
        record := record.(tasks := record.tasks[k := record.tasks[k].(snap := t)]);
      }
      traces := traces[p := record];
      if t.commitment != "" { commitmentIndex := commitmentIndex[t.commitment := p]; }
      if t.taskId != "" { taskIdIndex := taskIdIndex[t.taskId := p]; }
      if t.id != 0 { localIndex := localIndex[t.id := p]; }
      if t.clientTaskId != 0 { clientIndex := clientIndex[t.clientTaskId := p]; }
    }

    method PrimaryForTask(t: Snap) returns (p: Option<TraceKey>)
      ensures p == PrimaryFor(Snapshot(), t)
    {
      if t.commitment != "" && t.commitment in commitmentIndex { return Some(commitmentIndex[t.commitment]); }
      if t.taskId != "" && t.taskId in taskIdIndex { return Some(taskIdIndex[t.taskId]); }
      if t.id != 0 && t.id in localIndex { return Some(localIndex[t.id]); }
      if t.clientTaskId != 0 && t.clientTaskId in clientIndex { return Some(clientIndex[t.clientTaskId]); }
      p := None;
    }

    method EvictLocked()
      modifies this
      ensures maxTraces == old(maxTraces)
      ensures Snapshot() == if maxTraces > 0 then Evict(old(Snapshot()), maxTraces) else old(Snapshot())
    {
      while maxTraces > 0 && |order| > maxTraces
        invariant maxTraces == old(maxTraces)
        invariant maxTraces > 0 ==> Evict(old(Snapshot()), maxTraces) == Evict(Snapshot(), maxTraces)
        invariant maxTraces <= 0 ==> Snapshot() == old(Snapshot())
        decreases |order|
      {
        ghost var before := Snapshot();
        var primary := order[0];
        order := order[1..];
        if primary in traces {
          var record := traces[primary];
          traces := traces - {primary};
          if record.clientTaskId != 0 { clientIndex := clientIndex - {record.clientTaskId}; }
          DropTasks(record);
          EvictedIsOne(before, record, Snapshot());
        } else {
          assert before.records - {primary} == before.records;
        }
      }
    }

    /** Every identity of every task of the record leaves its index. */
    method DropTasks(record: Record)
      modifies this
      ensures maxTraces == old(maxTraces) && order == old(order) && traces == old(traces)
      ensures Snapshot() == Dropped(old(Snapshot()), record, record.tasks.Keys)
    {
      var pending := record.tasks.Keys;
      NothingDropped(Snapshot(), record, record.tasks.Keys - pending);
      while pending != {}
        invariant pending <= record.tasks.Keys
        invariant maxTraces == old(maxTraces) && order == old(order) && traces == old(traces)
        invariant Snapshot() == Dropped(old(Snapshot()), record, record.tasks.Keys - pending)
      {
        var k :| k in pending;
        var t := record.tasks[k].snap;
        DroppedNext(old(Snapshot()), record, record.tasks.Keys - pending, k);
        if t.commitment != "" { commitmentIndex := commitmentIndex - {t.commitment}; }
        if t.taskId != "" { taskIdIndex := taskIdIndex - {t.taskId}; }
        if t.id != 0 { localIndex := localIndex - {t.id}; }
        if t.clientTaskId != 0 { clientIndex := clientIndex - {t.clientTaskId}; }
        assert record.tasks.Keys - (pending - {k}) == (record.tasks.Keys - pending) + {k};
        pending := pending - {k};
      }
      assert record.tasks.Keys - {} == record.tasks.Keys;
    }

    method StartTrace(clientTaskId: nat, ts: seq<Snap>, max: int) returns (key: Option<TraceKey>)
      modifies this
      ensures Snapshot() == TraceIndex.StartTrace(old(Snapshot()), clientTaskId, ts, max)
      ensures key == if max > 0 then TraceKeyFor(clientTaskId, ts) else None
    {
      if max <= 0 || (|ts| == 0 && clientTaskId == 0) { return None; }
      if |ts| > 0 && ts[0].commitment != "" {
        key := Some(OfCommitment(ts[0].commitment));
      } else if clientTaskId != 0 {
        key := Some(OfClient(clientTaskId));
      } else {
        return None;
      }
      maxTraces := max;
      var p := key.value;
      if p in traces {
        AddTasks(p, ts);
        return;
      }
      traces := traces[p := Record(clientTaskId, map[], {})];
      order := order + [p];
      if clientTaskId != 0 { clientIndex := clientIndex[clientTaskId := p]; }
      AddTasks(p, ts);
      EvictLocked();
    }

    method FinishTrace(key: TraceKey, final: Option<Snap>)
      modifies this
      ensures Snapshot() == Exec(old(Snapshot()), Finish(key, final))
    {
      if key in traces && final.Some? { AddTasks(key, [final.value]); }
    }

    /** It fails exactly when an index leads to a trace that is gone, and then changes nothing. */
    method RegisterRelatedTasks(parent: Snap, ts: seq<Snap>) returns (ok: bool)
      modifies this
      ensures ok <==> !Crashes(old(Snapshot()), RegisterRelated(parent, ts))
      ensures Snapshot() == if ok then Exec(old(Snapshot()), RegisterRelated(parent, ts)) else old(Snapshot())
    {
      if |ts| == 0 { return true; }
      var p := PrimaryForTask(parent);
      if p.None? { return true; }
      if p.value !in traces { return false; }
      AddTasks(p.value, ts);
      ok := true;
    }

    method RegisterClientTasks(clientTaskId: nat, ts: seq<Snap>)
      modifies this
      ensures Snapshot() == Exec(old(Snapshot()), RegisterClient(clientTaskId, ts))
    {
      if clientTaskId == 0 || |ts| == 0 || clientTaskId !in clientIndex { return; }
      var p := clientIndex[clientTaskId];
      if p in traces { AddTasks(p, ts); }
    }

    method RecordEvent(t: Snap, name: string) returns (ok: bool)
      modifies this
      ensures ok <==> !Crashes(old(Snapshot()), TraceIndex.RecordEvent(t, name))
      ensures Snapshot() == if ok then Exec(old(Snapshot()), TraceIndex.RecordEvent(t, name)) else old(Snapshot())
    {
      if name == "" { return true; }
      var p := PrimaryForTask(t);
      if p.None? { return true; }
      if p.value !in traces { return false; }
      AddOne(p.value, t);
      var record := traces[p.value];
      var e := Event(name, t.status);
      var k := EventKey(KeyFor(t), e);
      if k !in record.eventKeys {
        var task := record.tasks[KeyFor(t)];
        traces := traces[p.value := record.(eventKeys := record.eventKeys + {k},
                                            tasks := record.tasks[KeyFor(t) := task.(events := task.events + [e])])];
      }
      ok := true;
    }

    /** The newest traces first, at most `limit` of them. */
    method ListTraces(limit: int) returns (keys: seq<TraceKey>)
      requires OrderOk(Snapshot())
      ensures var n := if limit <= 0 then 50 else limit;
              |keys| == (if |order| < n then |order| else n) && forall i | 0 <= i < |keys| :: keys[i] == order[|order| - 1 - i]
    {
      var n := if limit <= 0 then 50 else limit;
      keys := [];
      var i := |order|;
      while i > 0 && |keys| < n
        invariant 0 <= i <= |order| && |keys| == |order| - i && |keys| <= n
        invariant forall j | 0 <= j < |keys| :: keys[j] == order[|order| - 1 - j]
      {
        i := i - 1;
        assert order[i] in order;
        if order[i] in traces { keys := keys + [order[i]]; }
      }
    }

    method GetTrace(taskId: string) returns (p: Option<TraceKey>)
      ensures p == TraceIndex.GetTrace(Snapshot(), taskId)
    {
      if taskId !in taskIdIndex { return None; }
      var key := taskIdIndex[taskId];
      p := if key in traces then Some(key) else None;
    }
  }

  // ---- Eviction, task by task ----

  predicate HeldBy(record: Record, done: set<TaskKey>, i: Identity) {
    exists k | k in done :: k in record.tasks && i in Known(record.tasks[k].snap)
  }

  /** The indices without the identities of some of the record's tasks. */
  function Dropped(st: Traces, record: Record, done: set<TaskKey>): Traces {
    st.(commitments := map s | s in st.commitments && !HeldBy(record, done, Commitment(s)) :: st.commitments[s],
        taskIds := map s | s in st.taskIds && !HeldBy(record, done, TaskId(s)) :: st.taskIds[s],
        locals := map n | n in st.locals && !HeldBy(record, done, LocalId(n)) :: st.locals[n],
        clients := map n | n in st.clients && !HeldBy(record, done, ClientId(n)) :: st.clients[n])
  }

  lemma NothingDropped(st: Traces, record: Record, done: set<TaskKey>)
    requires done == {}
    ensures Dropped(st, record, done) == st
  {
  }

  predicate KnownAs(t: Snap, i: Identity) {
    match i
    case Commitment(s) => s != "" && s == t.commitment
    case TaskId(s) => s != "" && s == t.taskId
    case LocalId(n) => n != 0 && n == t.id
    case ClientId(n) => n != 0 && n == t.clientTaskId
  }

  lemma HeldNext(record: Record, done: set<TaskKey>, k: TaskKey, i: Identity)
    requires k in record.tasks
    ensures HeldBy(record, done + {k}, i) <==> HeldBy(record, done, i) || KnownAs(record.tasks[k].snap, i)
  {
    assert i in Known(record.tasks[k].snap) <==> KnownAs(record.tasks[k].snap, i);
    hide Known, KnownAs;
    if HeldBy(record, done, i) {
      var j :| j in done && j in record.tasks && i in Known(record.tasks[j].snap);
      assert j in done + {k};
    }
    if i in Known(record.tasks[k].snap) { assert k in done + {k}; }
  }

  lemma DroppedCommitments(st: Traces, record: Record, done: set<TaskKey>, k: TaskKey)
    requires k in record.tasks
    ensures var x := record.tasks[k].snap.commitment;
            var d := Dropped(st, record, done).commitments;
            Dropped(st, record, done + {k}).commitments == if x != "" then d - {x} else d
  {
    hide HeldBy;
    var x := record.tasks[k].snap.commitment;
    var a, d := Dropped(st, record, done + {k}).commitments, Dropped(st, record, done).commitments;
    forall s | s in st.commitments
      ensures s in a <==> s in d && !(s != "" && s == x)
    {
      HeldNext(record, done, k, Commitment(s));
    }
    assert a.Keys == (if x != "" then d - {x} else d).Keys;
  }

  lemma DroppedTaskIds(st: Traces, record: Record, done: set<TaskKey>, k: TaskKey)
    requires k in record.tasks
    ensures var x := record.tasks[k].snap.taskId;
            var d := Dropped(st, record, done).taskIds;
            Dropped(st, record, done + {k}).taskIds == if x != "" then d - {x} else d
  {
    hide HeldBy;
    var x := record.tasks[k].snap.taskId;
    var a, d := Dropped(st, record, done + {k}).taskIds, Dropped(st, record, done).taskIds;
    forall s | s in st.taskIds
      ensures s in a <==> s in d && !(s != "" && s == x)
    {
      HeldNext(record, done, k, TaskId(s));
    }
    assert a.Keys == (if x != "" then d - {x} else d).Keys;
  }

  lemma DroppedLocals(st: Traces, record: Record, done: set<TaskKey>, k: TaskKey)
    requires k in record.tasks
    ensures var x := record.tasks[k].snap.id;
            var d := Dropped(st, record, done).locals;
            Dropped(st, record, done + {k}).locals == if x != 0 then d - {x} else d
  {
    hide HeldBy;
    var x := record.tasks[k].snap.id;
    var a, d := Dropped(st, record, done + {k}).locals, Dropped(st, record, done).locals;
    forall n | n in st.locals
      ensures n in a <==> n in d && !(n != 0 && n == x)
    {
      HeldNext(record, done, k, LocalId(n));
    }
    assert a.Keys == (if x != 0 then d - {x} else d).Keys;
  }

  lemma DroppedClients(st: Traces, record: Record, done: set<TaskKey>, k: TaskKey)
    requires k in record.tasks
    ensures var x := record.tasks[k].snap.clientTaskId;
            var d := Dropped(st, record, done).clients;
            Dropped(st, record, done + {k}).clients == if x != 0 then d - {x} else d
  {
    hide HeldBy;
    var x := record.tasks[k].snap.clientTaskId;
    var a, d := Dropped(st, record, done + {k}).clients, Dropped(st, record, done).clients;
    forall n | n in st.clients
      ensures n in a <==> n in d && !(n != 0 && n == x)
    {
      HeldNext(record, done, k, ClientId(n));
    }
    assert a.Keys == (if x != 0 then d - {x} else d).Keys;
  }

  lemma DroppedNext(st: Traces, record: Record, done: set<TaskKey>, k: TaskKey)
    requires k in record.tasks
    ensures var t := record.tasks[k].snap;
            var d := Dropped(st, record, done);
            Dropped(st, record, done + {k}) ==
            d.(commitments := if t.commitment != "" then d.commitments - {t.commitment} else d.commitments,
               taskIds := if t.taskId != "" then d.taskIds - {t.taskId} else d.taskIds,
               locals := if t.id != 0 then d.locals - {t.id} else d.locals,
               clients := if t.clientTaskId != 0 then d.clients - {t.clientTaskId} else d.clients)
  {
    DroppedCommitments(st, record, done, k);
    DroppedTaskIds(st, record, done, k);
    DroppedLocals(st, record, done, k);
    DroppedClients(st, record, done, k);
    var d, e := Dropped(st, record, done), Dropped(st, record, done + {k});
    assert e.order == d.order && e.records == d.records;
    hide Dropped;
  }

  /** Dropping the trace's own client task and then all its tasks is one eviction. */
  lemma EvictedIsOne(before: Traces, record: Record, after: Traces)
    requires before.order != [] && before.order[0] in before.records && record == before.records[before.order[0]]
    requires after == Dropped(before.(order := before.order[1..], records := before.records - {before.order[0]},
                                      clients := if record.clientTaskId != 0 then before.clients - {record.clientTaskId} else before.clients),
                              record, record.tasks.Keys)
    ensures after == EvictOne(before)
  {
    hide HeldBy, Holds;
    var n := EvictOne(before);
    forall s: string
      ensures HeldBy(record, record.tasks.Keys, Commitment(s)) <==> Holds(record, Commitment(s))
      ensures HeldBy(record, record.tasks.Keys, TaskId(s)) <==> Holds(record, TaskId(s))
    {
      HeldIsHolds(record, Commitment(s));
      HeldIsHolds(record, TaskId(s));
    }
    assert after.commitments == n.commitments && after.taskIds == n.taskIds;
    forall m: nat
      ensures HeldBy(record, record.tasks.Keys, LocalId(m)) <==> Holds(record, LocalId(m))
      ensures Holds(record, ClientId(m)) <==> HeldBy(record, record.tasks.Keys, ClientId(m)) || (record.clientTaskId != 0 && m == record.clientTaskId)
    {
      HeldIsHolds(record, LocalId(m));
      HeldIsHolds(record, ClientId(m));
    }
    assert after.locals == n.locals && after.clients == n.clients;
  }

  lemma HeldIsHolds(record: Record, i: Identity)
    ensures Holds(record, i) <==> HeldBy(record, record.tasks.Keys, i) || (record.clientTaskId != 0 && i == ClientId(record.clientTaskId))
  {
    hide Known;
  }
}
