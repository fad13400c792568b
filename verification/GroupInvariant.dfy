/** TaskID groups: size one or three, three exactly when the VRF selects the task. */
module GroupInvariant {
  import opened Wrappers
  import opened Models
  import opened Config
  import opened Progression
  import opened StateMachine
  import opened ApplyEffect
  import opened Frames

  predicate VrfOk(cfg: Config, t: InferenceTask) {
    if t.vrf.seed == "" then t.vrf == NO_VRF
    else cfg.prove(t.vrf.seed) == Some(VrfOutput(t.vrf.number, t.vrf.proof))
  }

  /** The row's VRF data is persisted and selects the task for validation by three members. */
  predicate NeedsGroup(t: InferenceTask) {
    t.vrf.seed != "" && VrfNeedValidation(t.vrf.number)
  }

  /** Two rows of one group: the same VRF data, client, client task, type and fee. */
  predicate Mates(a: InferenceTask, b: InferenceTask) {
    && NeedsGroup(a) && a.vrf == b.vrf
    && a.spec.clientId == b.spec.clientId && a.spec.clientTaskId == b.spec.clientTaskId
    && a.spec.taskType == b.spec.taskType && a.spec.taskFee == b.spec.taskFee
  }

  predicate SizeOk(tasks: Tasks, k: nat)
    requires k in tasks
  {
    |Group(tasks, tasks[k].spec.taskId)| == if NeedsGroup(tasks[k]) then 3 else 1
  }

  ghost predicate GroupsOk(cfg: Config, tasks: Tasks) {
    && (forall k {:trigger SizeOk(tasks, k)} | k in tasks :: SizeOk(tasks, k) && VrfOk(cfg, tasks[k]))
    && (forall j, k {:trigger MatesAt(tasks, j, k)} | j in tasks && k in tasks :: MatesAt(tasks, j, k))
  }

  predicate MatesAt(tasks: Tasks, j: nat, k: nat)
    requires j in tasks && k in tasks
  {
    j != k && tasks[j].spec.taskId == tasks[k].spec.taskId ==> Mates(tasks[j], tasks[k])
  }

  lemma SameIdentityKeepsGroups(cfg: Config, a: Tasks, b: Tasks)
    requires GroupsOk(cfg, a) && SameIdentity(a, b)
    ensures GroupsOk(cfg, b)
  {
    forall k | k in b
      ensures SizeOk(b, k) && VrfOk(cfg, b[k])
    {
      assert SizeOk(a, k) && SameIdentityRow(a[k], b[k]);
      assert Group(b, b[k].spec.taskId) == Group(a, a[k].spec.taskId);
    }
    forall j, k | j in b && k in b
      ensures MatesAt(b, j, k)
    {
      assert MatesAt(a, j, k) && SameIdentityRow(a[j], b[j]) && SameIdentityRow(a[k], b[k]);
    }
  }

  lemma InsertionKeepsGroups(cfg: Config, a: Tasks, b: Tasks, c: ClientTask, clientTaskId: nat, repeats: seq<Repeat>, now: int)
    requires GroupsOk(cfg, a) && c.submission.Some? && FreshRepeats(a, repeats)
    requires Inserted(a, b, c, clientTaskId, repeats, now)
    ensures GroupsOk(cfg, b)
  {
    forall k | k in b
      ensures SizeOk(b, k) && VrfOk(cfg, b[k])
    {
      if k in a {
        assert SizeOk(a, k);
        OldGroup(a, b, c, clientTaskId, repeats, now, k);
      } else {
        NewGroup(a, b, c, clientTaskId, repeats, now, k);
      }
    }
    forall j, k | j in b && k in b
      ensures MatesAt(b, j, k)
    {
      if j in a {
        OldGroup(a, b, c, clientTaskId, repeats, now, j);
        assert k in Group(b, b[j].spec.taskId) ==> k in a && MatesAt(a, j, k);
      } else {
        NewGroup(a, b, c, clientTaskId, repeats, now, j);
        assert k in Group(b, b[j].spec.taskId) ==> k == j;
      }
    }
  }

  lemma OldGroup(a: Tasks, b: Tasks, c: ClientTask, clientTaskId: nat, repeats: seq<Repeat>, now: int, k: nat)
    requires c.submission.Some? && FreshRepeats(a, repeats) && Inserted(a, b, c, clientTaskId, repeats, now) && k in a
    ensures Group(b, b[k].spec.taskId) == Group(a, a[k].spec.taskId)
  {
    forall j | j in b && j !in a
      ensures b[j].spec.taskId != a[k].spec.taskId
    {
      var i :| 0 <= i < |repeats| && j == repeats[i].identity.id;
      assert InsertedAt(b, c, clientTaskId, repeats[i], now);
    }
  }

  lemma NewGroup(a: Tasks, b: Tasks, c: ClientTask, clientTaskId: nat, repeats: seq<Repeat>, now: int, k: nat)
    requires c.submission.Some? && FreshRepeats(a, repeats) && Inserted(a, b, c, clientTaskId, repeats, now)
    requires k in b && k !in a
    ensures Group(b, b[k].spec.taskId) == {k} && b[k].vrf == NO_VRF
  {
    var i :| 0 <= i < |repeats| && k == repeats[i].identity.id;
    assert InsertedAt(b, c, clientTaskId, repeats[i], now);
    forall j | j in b && j != k
      ensures b[j].spec.taskId != b[k].spec.taskId
    {
      if j !in a {
        var h :| 0 <= h < |repeats| && j == repeats[h].identity.id;
        assert InsertedAt(b, c, clientTaskId, repeats[h], now);
        assert h < i || i < h;
      }
    }
  }

  lemma OnlyMember(a: Tasks, id: nat)
    requires id in a && |Group(a, a[id].spec.taskId)| == 1
    ensures Group(a, a[id].spec.taskId) == {id}
  {
    var g := Group(a, a[id].spec.taskId);
    assert |g - {id}| == 0;
  }

  /** Identities survive an applied operation; only its own row may gain VRF data. */
  lemma AppliedIdentity(cfg: Config, a: Tasks, b: Tasks, id: nat, ctx: Context, inserted: bool, k: nat)
    requires Applicable(a, id, ctx) && Applied(cfg, a, b, id, ctx, inserted) && k in a
    ensures k in b && b[k].spec == a[k].spec && b[k].commitment == a[k].commitment
    ensures k != id ==> b[k].vrf == a[k].vrf
  {
    hide WrittenRow;
    if k != id {
      assert OtherRow(a, b, id, k, ctx.now);
    }
  }

  /** A member that was just inserted belongs to the group of its primary. */
  lemma InsertedIsMate(cfg: Config, a: Tasks, b: Tasks, id: nat, ctx: Context, k: nat)
    requires Applicable(a, id, ctx) && Applied(cfg, a, b, id, ctx, true) && (k == ctx.first.id || k == ctx.second.id)
    ensures k in b && k !in a && Mates(b[id], b[k]) && b[k].spec.taskId == a[id].spec.taskId
  {
    hide WrittenRow;
  }

  /** The part of an applied operation that concerns groups: one row may gain VRF data, and then
      two members join its group when the VRF selects it. */
  ghost predicate VrfGrowth(cfg: Config, a: Tasks, b: Tasks, id: nat, added: set<nat>)
    requires id in a
  {
    && b.Keys == a.Keys + added && a.Keys !! added
    && (forall j {:trigger b[j]} | j in a :: b[j].spec == a[j].spec && (j != id ==> b[j].vrf == a[j].vrf))
    && (forall j {:trigger b[j]} | j in added :: b[j].spec.taskId == a[id].spec.taskId && Mates(b[id], b[j]))
    && (if b[id].vrf == a[id].vrf then added == {}
        else
          && a[id].vrf.seed == "" && VrfOk(cfg, b[id]) && b[id].vrf.seed != ""
          && |added| == if NeedsGroup(b[id]) then 2 else 0)
  }

  lemma AppliedVrfGrowth(cfg: Config, a: Tasks, b: Tasks, id: nat, ctx: Context, inserted: bool)
    requires GroupsOk(cfg, a) && Applicable(a, id, ctx) && Applied(cfg, a, b, id, ctx, inserted)
    ensures VrfGrowth(cfg, a, b, id, if inserted then {ctx.first.id, ctx.second.id} else {})
  {
    hide OwnRow, VrfChange, OtherRow, InsertedMember;
    var added := if inserted then {ctx.first.id, ctx.second.id} else {};
    assert b.Keys == a.Keys + added && a.Keys !! added;
    hide Applied, Applicable, GroupsOk, Mates, VrfOk, NeedsGroup;
    assert |added| == if inserted then 2 else 0 by { FreshPair(a, id, ctx); }
    forall j | j in a
      ensures b[j].spec == a[j].spec && (j != id ==> b[j].vrf == a[j].vrf)
    {
      AppliedIdentity(cfg, a, b, id, ctx, inserted, j);
    }
    forall j | j in added
      ensures b[j].spec.taskId == a[id].spec.taskId && Mates(b[id], b[j])
    {
      InsertedIsMate(cfg, a, b, id, ctx, j);
    }
    AppliedVrfChange(cfg, a, b, id, ctx, inserted);
  }

  lemma FreshPair(a: Tasks, id: nat, ctx: Context)
    requires Applicable(a, id, ctx)
    ensures |{ctx.first.id, ctx.second.id}| == 2
  {
  }

  lemma AppliedVrfChange(cfg: Config, a: Tasks, b: Tasks, id: nat, ctx: Context, inserted: bool)
    requires GroupsOk(cfg, a) && Applicable(a, id, ctx) && Applied(cfg, a, b, id, ctx, inserted)
    ensures if b[id].vrf == a[id].vrf then !inserted
            else a[id].vrf.seed == "" && VrfOk(cfg, b[id]) && b[id].vrf.seed != "" && (inserted <==> NeedsGroup(b[id]))
  {
    assert SizeOk(a, id);
    assert VrfChange(cfg, |Group(a, a[id].spec.taskId)|, a[id], b[id].vrf, ctx, inserted);
    hide Applied, Applicable, GroupsOk, Group, OwnRow, ExecutionAssigned, LooksAtSeed, DefersVrf;
  }

  lemma GrowthGroup(cfg: Config, a: Tasks, b: Tasks, id: nat, added: set<nat>, k: nat)
    requires id in a && VrfGrowth(cfg, a, b, id, added) && k in b
    ensures Group(b, b[k].spec.taskId) ==
            Group(a, b[k].spec.taskId) + if b[k].spec.taskId == a[id].spec.taskId then added else {}
  {
  }

  lemma GrowthKeepsSize(cfg: Config, a: Tasks, b: Tasks, id: nat, added: set<nat>, k: nat)
    requires GroupsOk(cfg, a) && id in a && VrfGrowth(cfg, a, b, id, added) && k in b
    ensures SizeOk(b, k) && VrfOk(cfg, b[k])
  {
    GrowthGroup(cfg, a, b, id, added, k);
    assert SizeOk(a, id);
    if b[id].vrf != a[id].vrf { OnlyMember(a, id); }
    if k in a { assert SizeOk(a, k); assert k in Group(a, a[k].spec.taskId); }
  }

  lemma GrowthKeepsMates(cfg: Config, a: Tasks, b: Tasks, id: nat, added: set<nat>, j: nat, k: nat)
    requires GroupsOk(cfg, a) && id in a && VrfGrowth(cfg, a, b, id, added) && j in b && k in b
    ensures MatesAt(b, j, k)
  {
    GrowthGroup(cfg, a, b, id, added, j);
    assert SizeOk(a, id);
    if b[id].vrf != a[id].vrf { OnlyMember(a, id); }
    if j in a && k in a {
      assert MatesAt(a, j, k);
      assert j in Group(a, a[j].spec.taskId) && k in Group(a, a[k].spec.taskId);
    } else if j != k && b[j].spec.taskId == b[k].spec.taskId {
      assert j in Group(b, a[id].spec.taskId) && k in Group(b, a[id].spec.taskId);
    }
  }

  lemma GrowthKeepsGroups(cfg: Config, a: Tasks, b: Tasks, id: nat, added: set<nat>)
    requires GroupsOk(cfg, a) && id in a && VrfGrowth(cfg, a, b, id, added)
    ensures GroupsOk(cfg, b)
  {
    hide VrfGrowth, VrfOk;
    forall k | k in b
      ensures SizeOk(b, k) && VrfOk(cfg, b[k])
    {
      GrowthKeepsSize(cfg, a, b, id, added, k);
    }
    forall j, k | j in b && k in b
      ensures MatesAt(b, j, k)
    {
      GrowthKeepsMates(cfg, a, b, id, added, j, k);
    }
  }

  lemma AppliedKeepsGroups(cfg: Config, a: Tasks, b: Tasks, id: nat, ctx: Context, inserted: bool)
    requires GroupsOk(cfg, a) && Applicable(a, id, ctx) && Applied(cfg, a, b, id, ctx, inserted)
    ensures GroupsOk(cfg, b)
  {
    AppliedVrfGrowth(cfg, a, b, id, ctx, inserted);
    GrowthKeepsGroups(cfg, a, b, id, if inserted then {ctx.first.id, ctx.second.id} else {});
  }
}
