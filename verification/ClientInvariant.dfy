/** Client tasks and their members: what the two-level aggregation keeps. */
module ClientInvariant {
  import opened Wrappers
  import opened Models
  import opened Config
  import opened Progression
  import opened StateMachine
  import opened ApplyEffect
  import opened Frames
  import opened GroupInvariant
  import opened SlotInvariant

  /** A running, expanded client task: something is unfinished, nothing is downloaded, and the
      failure count is exact. */
  ghost predicate Live(tasks: Tasks, id: nat, c: ClientTask) {
    var members := Members(tasks, id);
    && members != {}
    && !AllFinished(tasks, members)
    && !AnyDownloaded(tasks, members)
    && c.failedCount == |FailedGroups(tasks, id)|
  }

  ghost predicate ClientOk(tasks: Tasks, id: nat, c: ClientTask) {
    && c.repeatNum > 0
    && (!c.expanded ==> c.submission.Some? && c.submission.value.taskType == c.taskType && c.failedCount == 0)
    && (c.creatorCancelled ==> c.status == ClientFailed)
    && (c.expanded && EngineType(c.taskType) ==> Members(tasks, id) != {})
    && (c.status == ClientRunning && c.expanded && EngineType(c.taskType) ==> Live(tasks, id, c))
  }

  /** A row belongs to an expanded client task of its type. */
  predicate OwnerOk(clients: ClientTasks, t: InferenceTask) {
    && t.spec.clientTaskId in clients
    && var c := clients[t.spec.clientTaskId];
       c.expanded && c.taskType == t.spec.taskType && c.clientId == t.spec.clientId
  }

  ghost predicate ClientsOk(clients: ClientTasks, tasks: Tasks) {
    && (forall k {:trigger OwnerOk(clients, tasks[k])} | k in tasks :: OwnerOk(clients, tasks[k]))
    && (forall c {:trigger ClientOk(tasks, c, clients[c])} | c in clients :: ClientOk(tasks, c, clients[c]))
  }

  // ---- Frames ----

  predicate SameMemberAt(a: Tasks, b: Tasks, id: nat, k: nat) {
    && (k in a && IsMember(a[k], id) <==> k in b && IsMember(b[k], id))
    && (k in a && k in b && IsMember(a[k], id) ==> a[k].status == b[k].status && a[k].spec.taskId == b[k].spec.taskId)
  }

  /** The client task has the same members with the same statuses. */
  ghost predicate SameMembers(a: Tasks, b: Tasks, id: nat) {
    forall k {:trigger SameMemberAt(a, b, id, k)} :: SameMemberAt(a, b, id, k)
  }

  lemma SameMembersSameVerdict(a: Tasks, b: Tasks, id: nat)
    requires SameMembers(a, b, id)
    ensures Members(a, id) == Members(b, id)
    ensures AllFinished(a, Members(a, id)) == AllFinished(b, Members(b, id))
    ensures AnyDownloaded(a, Members(a, id)) == AnyDownloaded(b, Members(b, id))
    ensures FailedGroups(a, id) == FailedGroups(b, id)
    ensures forall c :: ClientOk(a, id, c) ==> ClientOk(b, id, c)
    ensures forall c :: Recalculated(a, id, c) == Recalculated(b, id, c)
  {
    forall k
      ensures k in Members(a, id) <==> k in Members(b, id)
    {
      assert SameMemberAt(a, b, id, k);
    }
    SameVerdictParts(a, b, id);
  }

  lemma SameVerdictParts(a: Tasks, b: Tasks, id: nat)
    requires SameMembers(a, b, id) && Members(a, id) == Members(b, id)
    ensures AllFinished(a, Members(a, id)) == AllFinished(b, Members(b, id))
    ensures AnyDownloaded(a, Members(a, id)) == AnyDownloaded(b, Members(b, id))
    ensures FailedGroups(a, id) == FailedGroups(b, id)
  {
    forall k | k in Members(a, id)
      ensures a[k].status == b[k].status && a[k].spec.taskId == b[k].spec.taskId
    {
      assert SameMemberAt(a, b, id, k);
    }
    forall g
      ensures GroupFailed(a, id, g) == GroupFailed(b, id, g)
    {
      assert forall k :: k in a && IsMember(a[k], id) <==> k in Members(a, id);
      assert forall k :: k in b && IsMember(b[k], id) <==> k in Members(b, id);
    }
    forall g
      ensures g in FailedGroups(a, id) <==> g in FailedGroups(b, id)
    {
      FailedGroupsIff(a, id, g);
      FailedGroupsIff(b, id, g);
    }
  }

  lemma FailedGroupsIff(a: Tasks, id: nat, g: string)
    ensures g in FailedGroups(a, id) <==> GroupFailed(a, id, g) && exists k | k in Members(a, id) :: a[k].spec.taskId == g
  {
  }

  // ---- Steps that leave statuses alone ----

  lemma SameLifeSameMembers(a: Tasks, b: Tasks, id: nat)
    requires SameLife(a, b)
    ensures SameMembers(a, b, id)
  {
    forall k
      ensures SameMemberAt(a, b, id, k)
    {
      assert k in a ==> SameLifeRow(a[k], b[k]);
    }
  }

  lemma SameLifeKeepsClients(clients: ClientTasks, a: Tasks, b: Tasks)
    requires ClientsOk(clients, a) && SameLife(a, b)
    ensures ClientsOk(clients, b)
  {
    forall k | k in b
      ensures OwnerOk(clients, b[k])
    {
      assert OwnerOk(clients, a[k]) && SameLifeRow(a[k], b[k]);
    }
    forall c | c in clients
      ensures ClientOk(b, c, clients[c])
    {
      assert ClientOk(a, c, clients[c]);
      SameLifeSameMembers(a, b, c);
      SameMembersSameVerdict(a, b, c);
    }
  }

  /** Recalculating a client task that is in order changes nothing. */
  lemma RecalculationIsStable(tasks: Tasks, id: nat, c: ClientTask)
    requires ClientOk(tasks, id, c)
    requires EngineType(c.taskType) || Members(tasks, id) == {}
    ensures Recalculated(tasks, id, c) == c
  {
  }

  lemma FineTuningHasNoMembers(clients: ClientTasks, tasks: Tasks, id: nat)
    requires ClientsOk(clients, tasks) && id in clients && !EngineType(clients[id].taskType)
    ensures Members(tasks, id) == {}
  {
    forall k | k in tasks && tasks[k].spec.clientTaskId == id
      ensures !IsMember(tasks[k], id)
    {
      assert OwnerOk(clients, tasks[k]);
    }
  }

  /** After a crash the recalculation of every running client task is a no-op: its status and its
      failure count were already exact when the process died. */
  lemma RecoveryRecalculatesNothing(clients: ClientTasks, tasks: Tasks, now: int)
    requires ClientsOk(clients, tasks)
    ensures RecoveredClients(clients, RecoveredTasks(tasks, now)) == clients
  {
    var b := RecoveredTasks(tasks, now);
    RecoveryKeepsLife(tasks, now);
    SameLifeKeepsClients(clients, tasks, b);
    forall c | c in clients
      ensures Recalculated(b, c, clients[c]) == clients[c]
    {
      assert ClientOk(b, c, clients[c]);
      if !EngineType(clients[c].taskType) {
        FineTuningHasNoMembers(clients, b, c);
      }
      RecalculationIsStable(b, c, clients[c]);
    }
  }

  // ---- Steps that change the members of one client task ----

  predicate SameOwner(a: Tasks, c: nat, record: ClientTask, t: InferenceTask, k: nat) {
    (k in a && a[k].spec == t.spec)
    || (t.spec.clientTaskId == c && t.spec.taskType == record.taskType && t.spec.clientId == record.clientId)
  }

  lemma OneClientChanges(clients: ClientTasks, a: Tasks, b: Tasks, c: nat, record: ClientTask)
    requires ClientsOk(clients, a) && c in clients
    requires record.taskType == clients[c].taskType && record.clientId == clients[c].clientId
    requires record.expanded && ClientOk(b, c, record)
    requires forall k {:trigger b[k]} | k in b :: SameOwner(a, c, record, b[k], k)
    requires forall d {:trigger SameMembers(a, b, d)} | d in clients && d != c :: SameMembers(a, b, d)
    ensures ClientsOk(clients[c := record], b)
  {
    forall k | k in b
      ensures OwnerOk(clients[c := record], b[k])
    {
      assert SameOwner(a, c, record, b[k], k);
      if k in a { assert OwnerOk(clients, a[k]); }
    }
    forall d | d in clients
      ensures d != c ==> ClientOk(b, d, clients[d])
    {
      if d != c {
        assert SameMembers(a, b, d) && ClientOk(a, d, clients[d]);
        SameMembersSameVerdict(a, b, d);
      }
    }
  }

  /** Recalculation puts any expanded client task with members in order. */
  lemma RecalculationRepairs(tasks: Tasks, id: nat, c: ClientTask)
    requires c.expanded && c.repeatNum > 0 && (c.creatorCancelled ==> c.status == ClientFailed)
    requires EngineType(c.taskType) ==> Members(tasks, id) != {}
    ensures ClientOk(tasks, id, Recalculated(tasks, id, c))
    ensures Recalculated(tasks, id, c).taskType == c.taskType && Recalculated(tasks, id, c).clientId == c.clientId
    ensures Recalculated(tasks, id, c).expanded
  {
  }

  /** An applied operation touches no row of another client task. */
  lemma AppliedKeepsOthers(cfg: Config, clients: ClientTasks, a: Tasks, b: Tasks, id: nat, ctx: Context, inserted: bool, d: nat)
    requires GroupsOk(cfg, a) && Applicable(a, id, ctx) && Applied(cfg, a, b, id, ctx, inserted)
    requires d != a[id].spec.clientTaskId
    ensures SameMembers(a, b, d)
  {
    forall k
      ensures SameMemberAt(a, b, d, k)
    {
      if k in a {
        AppliedIdentity(cfg, a, b, id, ctx, inserted, k);
        assert MatesAt(a, k, id);
        if k != id { assert OtherRow(a, b, id, k, ctx.now); }
      } else if k in b {
        InsertedIsMate(cfg, a, b, id, ctx, k);
      }
    }
  }

  lemma AppliedKeepsClients(cfg: Config, s: State, s': State, id: nat, ctx: Context, inserted: bool)
    requires GroupsOk(cfg, s.tasks) && ClientsOk(s.clients, s.tasks)
    requires Applicable(s.tasks, id, ctx) && Applied(cfg, s.tasks, s'.tasks, id, ctx, inserted)
    requires var c := s.tasks[id].spec.clientTaskId;
             c in s.clients && s'.clients == s.clients[c := Recalculated(s'.tasks, c, s.clients[c])]
    ensures ClientsOk(s'.clients, s'.tasks)
  {
    var a, b := s.tasks, s'.tasks;
    var c := a[id].spec.clientTaskId;
    assert OwnerOk(s.clients, a[id]) && ClientOk(a, c, s.clients[c]);
    forall k | k in a
      ensures k in b && b[k].spec == a[k].spec
    {
      AppliedIdentity(cfg, a, b, id, ctx, inserted, k);
    }
    assert Members(a, c) <= Members(b, c);
    RecalculationRepairs(b, c, s.clients[c]);
    forall k | k in b
      ensures SameOwner(a, c, s.clients[c], b[k], k)
    {
      if k !in a { InsertedIsMate(cfg, a, b, id, ctx, k); }
    }
    forall d | d in s.clients && d != c
      ensures SameMembers(a, b, d)
    {
      AppliedKeepsOthers(cfg, s.clients, a, b, id, ctx, inserted, d);
    }
    OneClientChanges(s.clients, a, b, c, Recalculated(b, c, s.clients[c]));
  }

  /** A failed operation changes no status. */
  lemma FailureKeepsClients(cfg: Config, s: State, id: nat, ctx: Context, inserted: bool, b: Tasks)
    requires GroupsOk(cfg, s.tasks) && ClientsOk(s.clients, s.tasks) && Applicable(s.tasks, id, ctx)
    requires s.tasks[id].slot.status == SlotFailed && Applied(cfg, s.tasks, b, id, ctx, inserted)
    ensures ClientsOk(s.clients, b)
  {
    var a := s.tasks;
    assert !inserted;
    forall k | k in a
      ensures k in b && b[k].spec == a[k].spec && b[k].status == a[k].status
    {
      AppliedIdentity(cfg, a, b, id, ctx, inserted, k);
      if k != id { assert OtherRow(a, b, id, k, ctx.now); }
    }
    forall d | d in s.clients
      ensures ClientOk(b, d, s.clients[d])
    {
      assert ClientOk(a, d, s.clients[d]);
      assert forall k :: SameMemberAt(a, b, d, k);
      SameMembersSameVerdict(a, b, d);
    }
    forall k | k in b
      ensures OwnerOk(s.clients, b[k])
    {
      assert OwnerOk(s.clients, a[k]);
    }
  }

  // ---- Submission, expansion and creator abort ----

  lemma NewClientKeepsClients(cfg: Config, clients: ClientTasks, tasks: Tasks, newId: nat, record: ClientTask)
    requires ClientsOk(clients, tasks) && newId !in clients
    requires !record.expanded && record.repeatNum > 0 && !record.creatorCancelled && record.failedCount == 0
    requires record.submission.Some? && record.submission.value.taskType == record.taskType
    ensures ClientsOk(clients[newId := record], tasks)
  {
    forall k | k in tasks
      ensures OwnerOk(clients[newId := record], tasks[k])
    {
      assert OwnerOk(clients, tasks[k]);
    }
    forall c | c in clients
      ensures ClientOk(tasks, c, clients[c])
    {
    }
  }

  /** Replacing the record of an unexpanded client task, or rescheduling it, disturbs nothing. */
  lemma RecordKeepsClients(clients: ClientTasks, tasks: Tasks, c: nat, record: ClientTask)
    requires ClientsOk(clients, tasks) && c in clients && ClientOk(tasks, c, record)
    requires record.expanded == clients[c].expanded && record.taskType == clients[c].taskType
    requires record.clientId == clients[c].clientId
    ensures ClientsOk(clients[c := record], tasks)
  {
    forall k | k in tasks
      ensures OwnerOk(clients[c := record], tasks[k])
    {
      assert OwnerOk(clients, tasks[k]);
    }
    forall d | d in clients && d != c
      ensures ClientOk(tasks, d, clients[d])
    {
    }
  }

  lemma UnexpandedHasNoRows(clients: ClientTasks, tasks: Tasks, c: nat, k: nat)
    requires ClientsOk(clients, tasks) && c in clients && !clients[c].expanded && k in tasks
    ensures tasks[k].spec.clientTaskId != c
  {
    assert OwnerOk(clients, tasks[k]);
  }

  lemma ExpansionKeepsClients(cfg: Config, clients: ClientTasks, a: Tasks, b: Tasks, c: nat, repeats: seq<Repeat>, now: int)
    requires ClientsOk(clients, a) && c in clients && Expandable(clients[c], now)
    requires clients[c].submission.Some? && |repeats| == clients[c].repeatNum && FreshRepeats(a, repeats)
    requires Inserted(a, b, clients[c], c, repeats, now)
    ensures ClientsOk(clients[c := Expanded(clients[c], now)], b)
  {
    var record := Expanded(clients[c], now);
    assert ClientOk(a, c, clients[c]);
    forall k | k in b
      ensures SameOwner(a, c, record, b[k], k) && (k !in a ==> b[k].spec.clientTaskId == c)
    {
      if k !in a { NewRow(a, b, clients[c], c, repeats, now, k); }
    }
    forall d | d in clients && d != c
      ensures SameMembers(a, b, d)
    {
      assert forall k :: SameMemberAt(a, b, d, k);
    }
    NewMembersArePending(clients, a, b, c, repeats, now);
    OneClientChanges(clients, a, b, c, record);
  }

  lemma NewMembersArePending(clients: ClientTasks, a: Tasks, b: Tasks, c: nat, repeats: seq<Repeat>, now: int)
    requires ClientsOk(clients, a) && c in clients && Expandable(clients[c], now)
    requires clients[c].submission.Some? && |repeats| == clients[c].repeatNum && FreshRepeats(a, repeats)
    requires Inserted(a, b, clients[c], c, repeats, now)
    ensures ClientOk(b, c, Expanded(clients[c], now))
  {
    assert ClientOk(a, c, clients[c]);
    forall k | k in b && b[k].spec.clientTaskId == c
      ensures b[k].status == Pending
    {
      if k in a { UnexpandedHasNoRows(clients, a, c, k); } else { NewRow(a, b, clients[c], c, repeats, now, k); }
    }
    assert InsertedAt(b, clients[c], c, repeats[0], now);
    var first := repeats[0].identity.id;
    if EngineType(clients[c].taskType) {
      assert first in Members(b, c);
    }
    forall g
      ensures g !in FailedGroups(b, c)
    {
      FailedGroupsIff(b, c, g);
    }
    assert FailedGroups(b, c) == {};
  }

  lemma AbortCommitKeepsClients(s: State, c: nat, ids: set<nat>, full: bool)
    requires ClientsOk(s.clients, s.tasks) && c in s.clients && ids <= Members(s.tasks, c)
    ensures var s' := AbortCommitStep(s, c, ids, full); ClientsOk(s'.clients, s'.tasks)
  {
    var a, b := s.tasks, AbortRows(s.tasks, ids);
    assert ClientOk(a, c, s.clients[c]);
    forall d | d in s.clients && d != c
      ensures SameMembers(a, b, d)
    {
      assert forall k :: SameMemberAt(a, b, d, k);
    }
    assert Members(a, c) == Members(b, c);
    if !s.clients[c].expanded {
      forall k | k in a
        ensures a[k].spec.clientTaskId != c
      {
        UnexpandedHasNoRows(s.clients, a, c, k);
      }
      assert Members(b, c) == {} && ids == {} && b == a;
      RecordKeepsClients(s.clients, b, c, AbortCommitStep(s, c, ids, full).clients[c]);
    } else {
      RecalculationRepairs(b, c, s.clients[c]);
      OneClientChanges(s.clients, a, b, c, AbortCommitStep(s, c, ids, full).clients[c]);
    }
  }
}
