/** The aggregation loop of `recalculateClientTask` in `taskengine/scheduler.go`: one pass over the
    members, whatever order the database lists them in, then one pass over the TaskID groups. */
module Aggregation {
  import opened Models
  import opened Progression

  datatype GroupState = GroupState(allFinished: bool, success: bool)

  datatype Verdict = Verdict(allFinished: bool, success: bool, failedCount: nat)

  /** The state of one group after the rows in `seen`. */
  ghost predicate GroupTallied(tasks: Tasks, seen: set<nat>, g: string, state: GroupState)
    requires seen <= tasks.Keys
  {
    && (state.allFinished <==> forall k | k in seen && tasks[k].spec.taskId == g :: Finished(tasks[k].status))
    && (state.success <==> exists k | k in seen :: tasks[k].spec.taskId == g && tasks[k].status == ResultDownloaded)
  }

  function TaskIds(tasks: Tasks, seen: set<nat>): set<string>
    requires seen <= tasks.Keys
  {
    set k | k in seen :: tasks[k].spec.taskId
  }

  /** The group map after the rows in `seen`. */
  ghost predicate Tallied(tasks: Tasks, seen: set<nat>, groups: map<string, GroupState>)
    requires seen <= tasks.Keys
  {
    && groups.Keys == TaskIds(tasks, seen)
    && forall g | g in groups :: GroupTallied(tasks, seen, g, groups[g])
  }

  /** A group's state with one more member. */
  function WithMember(state: GroupState, status: TaskStatus): GroupState {
    GroupState(state.allFinished && Finished(status), state.success || status == ResultDownloaded)
  }

  lemma TallyNext(tasks: Tasks, seen: set<nat>, groups: map<string, GroupState>, k: nat)
    requires seen <= tasks.Keys && k in tasks && Tallied(tasks, seen, groups)
    ensures var g := tasks[k].spec.taskId;
            var state := if g in groups then groups[g] else GroupState(true, false);
            Tallied(tasks, seen + {k}, groups[g := WithMember(state, tasks[k].status)])
  {
    var g := tasks[k].spec.taskId;
    var state := if g in groups then groups[g] else GroupState(true, false);
    var next := groups[g := WithMember(state, tasks[k].status)];
    assert TaskIds(tasks, seen + {k}) == TaskIds(tasks, seen) + {g};
    assert GroupTallied(tasks, seen, g, state) by {
      if g !in groups {
        assert forall j | j in seen :: tasks[j].spec.taskId in TaskIds(tasks, seen);
      }
    }
    forall h | h in next
      ensures GroupTallied(tasks, seen + {k}, h, next[h])
    {
      TallyGroup(tasks, seen, k, h, if h == g then state else groups[h]);
    }
  }

  lemma TallyGroup(tasks: Tasks, seen: set<nat>, k: nat, h: string, state: GroupState)
    requires seen <= tasks.Keys && k in tasks && GroupTallied(tasks, seen, h, state)
    ensures GroupTallied(tasks, seen + {k}, h, if h == tasks[k].spec.taskId then WithMember(state, tasks[k].status) else state)
  {
  }

  function FailedKeys(groups: map<string, GroupState>): set<string> {
    set g | g in groups && groups[g].allFinished && !groups[g].success
  }

  lemma TalliedFailures(tasks: Tasks, clientTaskId: nat, groups: map<string, GroupState>)
    requires Tallied(tasks, Members(tasks, clientTaskId), groups)
    ensures FailedKeys(groups) == FailedGroups(tasks, clientTaskId)
  {
    var members := Members(tasks, clientTaskId);
    forall g | g in FailedGroups(tasks, clientTaskId)
      ensures g in groups
    {
      var k :| k in tasks && IsMember(tasks[k], clientTaskId) && tasks[k].spec.taskId == g;
      assert k in members;
    }
    forall g | g in groups
      ensures g in FailedKeys(groups) <==> g in FailedGroups(tasks, clientTaskId)
    {
      var k :| k in members && tasks[k].spec.taskId == g;
      assert GroupFailed(tasks, clientTaskId, g) <==>
             forall j | j in members && tasks[j].spec.taskId == g :: Finished(tasks[j].status) && tasks[j].status != ResultDownloaded;
    }
  }

  method TallyMembers(tasks: Tasks, rows: set<nat>)
    returns (groups: map<string, GroupState>, allFinished: bool, success: bool)
    requires rows <= tasks.Keys
    ensures Tallied(tasks, rows, groups)
    ensures allFinished == AllFinished(tasks, rows) && success == AnyDownloaded(tasks, rows)
  {
    assert Tallied(tasks, {}, map[]);
    hide Tallied, Finished;
    allFinished, success, groups := true, false, map[];
    var pending := rows;
    assert rows - rows == {};
    while pending != {}
      invariant pending <= rows
      invariant Tallied(tasks, rows - pending, groups)
      invariant allFinished == AllFinished(tasks, rows - pending)
      invariant success == AnyDownloaded(tasks, rows - pending)
    {
      var k :| k in pending;
      var t := tasks[k];
      var group := if t.spec.taskId in groups then groups[t.spec.taskId] else GroupState(true, false);
      if t.status == ResultDownloaded {
        success := true;
        group := group.(success := true);
      }
      if !Finished(t.status) {
        allFinished := false;
        group := group.(allFinished := false);
      }
      assert rows - (pending - {k}) == (rows - pending) + {k};
      TallyNext(tasks, rows - pending, groups, k);
      groups := groups[t.spec.taskId := group];
      pending := pending - {k};
    }
    assert rows - {} == rows;
  }

  method CountFailed(groups: map<string, GroupState>) returns (failedCount: nat)
    ensures failedCount == |FailedKeys(groups)|
  {
    failedCount := 0;
    var pending := groups.Keys;
    ghost var counted: set<string> := {};
    while pending != {}
      invariant pending <= groups.Keys
      invariant counted == FailedKeys(groups) - pending && failedCount == |counted|
    {
      var g :| g in pending;
      if groups[g].allFinished && !groups[g].success {
        failedCount := failedCount + 1;
        counted := counted + {g};
      }
      pending := pending - {g};
    }
    assert FailedKeys(groups) - pending == FailedKeys(groups);
  }

  /** The verdict on a client task's members agrees with the sets that define it. */
  method Aggregate(tasks: Tasks, clientTaskId: nat) returns (v: Verdict)
    ensures v.allFinished == AllFinished(tasks, Members(tasks, clientTaskId))
    ensures v.success == AnyDownloaded(tasks, Members(tasks, clientTaskId))
    ensures v.failedCount == |FailedGroups(tasks, clientTaskId)|
  {
    var groups, allFinished, success := TallyMembers(tasks, Members(tasks, clientTaskId));
    var failedCount := CountFailed(groups);
    TalliedFailures(tasks, clientTaskId, groups);
    v := Verdict(allFinished, success, failedCount);
  }
}
