/** What the invariant says of every reachable state, in the terms of the rows themselves. */
module Reachable {
  import opened Wrappers
  import opened Models
  import opened Config
  import opened Progression
  import opened Dispatch
  import opened StateMachine
  import opened ApplyEffect
  import opened Frames
  import opened GroupInvariant
  import opened SlotInvariant
  import opened Invariant
  import ClientInvariant
  import opened TerminalClosure

  // ---- Commitments name rows ----

  predicate DistinctAt(tasks: Tasks, j: nat, k: nat)
    requires j in tasks && k in tasks
  {
    j != k ==> tasks[j].commitment != tasks[k].commitment
  }

  ghost predicate DistinctCommitments(tasks: Tasks) {
    forall j, k {:trigger DistinctAt(tasks, j, k)} | j in tasks && k in tasks :: DistinctAt(tasks, j, k)
  }

  /** A step's new rows have commitments that no old row has. */
  ghost predicate FreshRows(a: Tasks, b: Tasks) {
    && (forall k {:trigger b[k]} | k in a :: k in b && b[k].commitment == a[k].commitment)
    && (forall j, k {:trigger DistinctAt(b, j, k)} | j in b && k in b && j !in a :: DistinctAt(b, j, k))
  }

  lemma FreshRowsKeepDistinct(a: Tasks, b: Tasks)
    requires DistinctCommitments(a) && FreshRows(a, b)
    ensures DistinctCommitments(b)
  {
    forall j, k | j in b && k in b
      ensures DistinctAt(b, j, k)
    {
      if j !in a {
        assert DistinctAt(b, j, k);
      } else if k !in a {
        assert DistinctAt(b, k, j);
      } else {
        assert DistinctAt(a, j, k) && b[j].commitment == a[j].commitment;
      }
    }
  }

  lemma AppliedRowsAreFresh(cfg: Config, a: Tasks, b: Tasks, id: nat, ctx: Context, inserted: bool)
    requires Applicable(a, id, ctx) && ctx.first.commitment != ctx.second.commitment
    requires Applied(cfg, a, b, id, ctx, inserted)
    ensures FreshRows(a, b)
  {
    forall k | k in a
      ensures k in b && b[k].commitment == a[k].commitment
    {
      AppliedIdentity(cfg, a, b, id, ctx, inserted, k);
    }
    hide OwnRow, VrfChange, OtherRow;
    assert inserted ==> b[ctx.first.id].commitment == ctx.first.commitment && b[ctx.second.id].commitment == ctx.second.commitment;
  }

  lemma ApplyIsFresh(cfg: Config, s: State, id: nat, ctx: Context)
    requires Enabled(cfg, s, Apply(id, ctx))
    ensures FreshRows(s.tasks, Exec(cfg, s, Apply(id, ctx)).tasks)
  {
    var applied, inserted := ApplyStepEffect(cfg, s, id, ctx);
    assert Exec(cfg, s, Apply(id, ctx)) == ApplyStep(cfg, s, id, ctx);
    hide ApplyStep, Exec, Applied;
    if applied { AppliedRowsAreFresh(cfg, s.tasks, ApplyStep(cfg, s, id, ctx).tasks, id, ctx, inserted); }
  }

  lemma ExpandedRowsAreFresh(cfg: Config, s: State, c: nat, repeats: seq<Repeat>, now: int)
    requires Enabled(cfg, s, Expand(c, repeats, now))
    ensures FreshRows(s.tasks, Exec(cfg, s, Expand(c, repeats, now)).tasks)
  {
    var a, b := s.tasks, Exec(cfg, s, Expand(c, repeats, now)).tasks;
    ExpansionInserts(a, s.clients[c], c, repeats, now);
    forall j, k | j in b && k in b && j !in a
      ensures DistinctAt(b, j, k)
    {
      var i :| 0 <= i < |repeats| && j == repeats[i].identity.id;
      assert InsertedAt(b, s.clients[c], c, repeats[i], now) && FreshIdentity(a, repeats[i].identity);
      if k !in a && k != j {
        var h :| 0 <= h < |repeats| && k == repeats[h].identity.id;
        assert InsertedAt(b, s.clients[c], c, repeats[h], now);
        assert h < i || i < h;
      }
    }
  }

  lemma StepKeepsCommitments(cfg: Config, s: State, step: Step)
    requires DistinctCommitments(s.tasks)
    ensures DistinctCommitments(Exec(cfg, s, step).tasks)
  {
    var s' := Exec(cfg, s, step);
    StepKeepsRows(cfg, s, step);
    if Enabled(cfg, s, step) {
      if step.Apply? {
        ApplyIsFresh(cfg, s, step.task, step.ctx);
      } else if step.Expand? {
        ExpandedRowsAreFresh(cfg, s, step.clientTaskId, step.repeats, step.now);
      } else {
        assert s'.tasks.Keys == s.tasks.Keys;
      }
      hide Exec, Enabled;
      FreshRowsKeepDistinct(s.tasks, s'.tasks);
    }
  }

  predicate KeptRow(o: InferenceTask, n: InferenceTask) {
    n.spec == o.spec && n.commitment == o.commitment && (o.vrf.seed != "" ==> n.vrf == o.vrf)
  }

  ghost predicate RowsKept(a: Tasks, b: Tasks) {
    forall k {:trigger b[k]} {:trigger k in b} | k in a :: k in b && KeptRow(a[k], b[k])
  }

  /** Over any continuation: no row is deleted, its identity is fixed, and its VRF data is written once. */
  lemma {:induction false} RunKeepsRows(cfg: Config, s: State, steps: seq<Step>)
    ensures RowsKept(s.tasks, Run(cfg, s, steps).tasks)
    ensures DistinctCommitments(s.tasks) ==> DistinctCommitments(Run(cfg, s, steps).tasks)
  {
    if steps == [] {
    } else {
      var last := |steps| - 1;
      var mid := Run(cfg, s, steps[..last]);
      RunKeepsRows(cfg, s, steps[..last]);
      StepKeepsRows(cfg, mid, steps[last]);
      if DistinctCommitments(s.tasks) { StepKeepsCommitments(cfg, mid, steps[last]); }
      hide Exec, DistinctCommitments;
    }
  }

  // ---- Group shape ----

  /** In every reachable state a TaskID group has one member or three; three exactly when the VRF data
      is persisted and selects the task; members share VRF data, owner, type and fee; persisted data is
      what the VRF proves for the seed; and none of this is ever rewritten. */
  lemma EveryRunShapesGroups(cfg: Config, steps: seq<Step>, more: seq<Step>, k: nat)
    requires cfg.Valid() && k in Run(cfg, INITIAL, steps).tasks
    ensures var tasks := Run(cfg, INITIAL, steps).tasks;
            var t := tasks[k];
            var group := Group(tasks, t.spec.taskId);
            && k in group && (|group| == 1 || |group| == 3)
            && (|group| == 3 <==> t.vrf.seed != "" && VrfNeedValidation(t.vrf.number))
            && (t.vrf.seed != "" ==> cfg.prove(t.vrf.seed) == Some(VrfOutput(t.vrf.number, t.vrf.proof)))
            && (forall j | j in group ::
                  && tasks[j].vrf == t.vrf && tasks[j].spec.clientTaskId == t.spec.clientTaskId
                  && tasks[j].spec.clientId == t.spec.clientId && tasks[j].spec.taskFee == t.spec.taskFee
                  && tasks[j].spec.taskType == t.spec.taskType)
            && (forall j | j in tasks && j != k :: tasks[j].commitment != t.commitment)
    ensures var later := Run(cfg, Run(cfg, INITIAL, steps), more).tasks;
            k in later && KeptRow(Run(cfg, INITIAL, steps).tasks[k], later[k])
  {
    var s := Run(cfg, INITIAL, steps);
    EveryRunKeepsInv(cfg, steps);
    RunKeepsRows(cfg, INITIAL, steps);
    RunKeepsRows(cfg, s, more);
    hide RowsOk, WorkersOk, PoolsOk, Run;
    assert SizeOk(s.tasks, k);
    forall j | j in Group(s.tasks, s.tasks[k].spec.taskId) && j != k
      ensures Mates(s.tasks[j], s.tasks[k])
    {
      assert MatesAt(s.tasks, j, k);
    }
    forall j | j in s.tasks && j != k
      ensures s.tasks[j].commitment != s.tasks[k].commitment
    {
      assert DistinctAt(s.tasks, j, k);
    }
  }

  // ---- Waiting and accounting ----

  /** In every reachable state no row is due later than the longest configured interval from now. */
  lemma EveryRunBoundsWaiting(cfg: Config, steps: seq<Step>, k: nat)
    requires cfg.Valid() && k in Run(cfg, INITIAL, steps).tasks
    ensures var s := Run(cfg, INITIAL, steps);
            || s.tasks[k].nextActionAt <= s.clock + cfg.statusPollInterval
            || s.tasks[k].nextActionAt <= s.clock + cfg.retryInterval
            || s.tasks[k].nextActionAt <= s.clock + cfg.maxExecutionPollInterval
            || s.tasks[k].nextActionAt <= s.clock + cfg.executionOverrunPollInterval
  {
    EveryRunKeepsInv(cfg, steps);
    var s := Run(cfg, INITIAL, steps);
    assert SlotOk(s.tasks[k]) && DueBounded(cfg, s.tasks[k], s.clock);
  }

  /** In every reachable state a row has an operation type exactly when it has an operation status; a
      running row belongs to exactly one live worker, of its kind; and each pool holds at most its
      number of workers, each with at most a batch of rows. */
  lemma EveryRunAccounts(cfg: Config, steps: seq<Step>)
    requires cfg.Valid()
    ensures var s := Run(cfg, INITIAL, steps);
            && (forall k {:trigger s.tasks[k]} | k in s.tasks ::
                  && (s.tasks[k].slot.op == OpNone <==> s.tasks[k].slot.status == SlotNone)
                  && (s.tasks[k].slot.status == SlotRunning ==>
                        exists w :: && w in s.workers && k in s.workers[w].rows && s.workers[w].op == s.tasks[k].slot.op
                                    && forall v | v in s.workers && k in s.workers[v].rows :: v == w))
            && (forall op {:trigger cfg.Workers(op)} | op != OpNone :: |PoolWorkers(s, op)| <= cfg.Workers(op))
            && (forall w {:trigger s.workers[w]} | w in s.workers :: 0 < |s.workers[w].rows| <= cfg.BatchSize(s.workers[w].op))
  {
    EveryRunKeepsInv(cfg, steps);
    var s := Run(cfg, INITIAL, steps);
    hide GroupsOk, ClientInvariant.ClientsOk, Run;
    forall k | k in s.tasks
      ensures s.tasks[k].slot.op == OpNone <==> s.tasks[k].slot.status == SlotNone
      ensures s.tasks[k].slot.status == SlotRunning ==>
                exists w :: && w in s.workers && k in s.workers[w].rows && s.workers[w].op == s.tasks[k].slot.op
                            && forall v | v in s.workers && k in s.workers[v].rows :: v == w
    {
      assert SlotOk(s.tasks[k]) && HeldRow(s, k);
      if s.tasks[k].slot.status == SlotRunning {
        var w :| w in s.workers && k in s.workers[w].rows;
        assert HasRow(s, w, k);
        forall v | v in s.workers && k in s.workers[v].rows
          ensures v == w
        {
          assert SameRow(s, v, w, k);
        }
      }
    }
    forall op | op != OpNone
      ensures |PoolWorkers(s, op)| <= cfg.Workers(op)
    {
      assert PoolOk(cfg, s, op);
    }
    forall w | w in s.workers
      ensures 0 < |s.workers[w].rows| <= cfg.BatchSize(s.workers[w].op)
    {
      assert BatchOk(cfg, s.workers[w]);
    }
  }
}
