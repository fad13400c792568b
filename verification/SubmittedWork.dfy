/** A submission reaches the rows that execute it: over every run its client task is expanded into exactly
    the asked number of TaskIDs, and what was submitted is what those rows are to run and pay. */
module SubmittedWork {
  import opened Wrappers
  import opened Models
  import opened Config
  import opened Progression
  import opened Dispatch
  import opened StateMachine
  import opened GroupInvariant
  import opened ClientInvariant
  import opened Invariant
  import opened AnswerEffects
  import opened StepEffects
  import opened ValidationMembers
  import TerminalClosure

  function TaskIds(tasks: Tasks, c: nat): set<string> {
    set k | k in tasks && tasks[k].spec.clientTaskId == c :: tasks[k].spec.taskId
  }

  /** Every member is of the submitted type and pays the submitted fee; the first member of a group runs the
      submitted arguments on the submitted hardware. */
  predicate CarriedBy(tasks: Tasks, k: nat, clientId: nat, submission: Submission)
    requires k in tasks
  {
    var spec := tasks[k].spec;
    && spec.clientId == clientId && spec.taskType == submission.taskType && spec.taskFee == submission.taskFee
    && (IsPrimary(tasks, k) ==>
          spec.taskArgs == submission.taskArgs && spec.requiredGPU == submission.requiredGPU && spec.requiredGPUVram == submission.requiredGPUVram)
  }

  /** The submission waits in the client task, or it is in the rows. */
  ghost predicate Carried(clients: ClientTasks, tasks: Tasks, c: nat, clientId: nat, submission: Submission, repeats: int) {
    && c in clients && clients[c].clientId == clientId && clients[c].taskType == submission.taskType && clients[c].repeatNum == repeats
    && (if clients[c].expanded then
          |TaskIds(tasks, c)| == repeats && forall k | k in tasks && tasks[k].spec.clientTaskId == c :: CarriedBy(tasks, k, clientId, submission)
        else clients[c].submission == Some(submission) && forall k | k in tasks :: tasks[k].spec.clientTaskId != c)
  }

  /** New rows join the group, and the client task, of a row with a smaller key. */
  ghost predicate Joins(a: Tasks, b: Tasks, k: nat)
    requires k in b
  {
    exists p | p in a :: p in b && p < k && b[p].spec.taskId == b[k].spec.taskId && Mates(b[p], b[k])
  }

  lemma RowsCarry(clients: ClientTasks, a: Tasks, b: Tasks, c: nat, clientId: nat, submission: Submission, repeats: int)
    requires Carried(clients, a, c, clientId, submission, repeats)
    requires forall k | k in a :: k in b && b[k].spec == a[k].spec
    requires forall k | k in b && k !in a :: Joins(a, b, k)
    ensures Carried(clients, b, c, clientId, submission, repeats)
  {
    forall k | k in b && b[k].spec.clientTaskId == c
      ensures exists p :: p in a && a[p].spec.clientTaskId == c && a[p].spec.taskId == b[k].spec.taskId
      ensures clients[c].expanded ==> CarriedBy(b, k, clientId, submission)
    {
      if k in a {
        if clients[c].expanded { KeptRowCarries(a, b, k, clientId, submission); }
      } else {
        assert Joins(a, b, k);
        var p :| p in a && p in b && p < k && b[p].spec.taskId == b[k].spec.taskId && Mates(b[p], b[k]);
        assert p in Group(b, b[k].spec.taskId);
        assert clients[c].expanded ==> CarriedBy(a, p, clientId, submission);
      }
    }
    assert TaskIds(b, c) == TaskIds(a, c);
  }

  lemma KeptRowCarries(a: Tasks, b: Tasks, k: nat, clientId: nat, submission: Submission)
    requires k in a && CarriedBy(a, k, clientId, submission)
    requires forall j | j in a :: j in b && b[j].spec == a[j].spec
    ensures CarriedBy(b, k, clientId, submission)
  {
    if IsPrimary(b, k) {
      forall j | j in Group(a, a[k].spec.taskId)
        ensures k <= j
      {
        assert j in Group(b, b[k].spec.taskId);
      }
    }
  }

  lemma AppliedRowsJoin(cfg: Config, s: State, id: nat, ctx: Context, k: nat)
    requires cfg.Valid() && Inv(cfg, s) && Enabled(cfg, s, Apply(id, ctx))
    requires var b := Exec(cfg, s, Apply(id, ctx)).tasks; k in b && k !in s.tasks
    ensures Joins(s.tasks, Exec(cfg, s, Apply(id, ctx)).tasks, k)
  {
    var b := Exec(cfg, s, Apply(id, ctx)).tasks;
    BroughtTwins(cfg, s, id, ctx);
    StepKeepsInv(cfg, s, Apply(id, ctx));
    assert FreshIdentity(s.tasks, ctx.first) && FreshIdentity(s.tasks, ctx.second);
    assert k in Group(b, b[id].spec.taskId);
    assert MatesAt(b, id, k);
    hide Inv, Exec, Enabled, TwinsAt, Mates;
    assert id in s.tasks && id < k;
  }

  lemma {:induction false} DistinctTaskIds(repeats: seq<Repeat>)
    requires forall i, j | 0 <= i < j < |repeats| :: repeats[i].taskId != repeats[j].taskId
    ensures |set i | 0 <= i < |repeats| :: repeats[i].taskId| == |repeats|
  {
    if repeats != [] {
      var last := |repeats| - 1;
      var init := repeats[..last];
      DistinctTaskIds(init);
      var ids := set i | 0 <= i < |init| :: init[i].taskId;
      assert (set i | 0 <= i < |repeats| :: repeats[i].taskId) == ids + {repeats[last].taskId};
      assert repeats[last].taskId !in ids;
    }
  }

  lemma ExpansionCarries(cfg: Config, s: State, c: nat, repeats: seq<Repeat>, now: int, clientId: nat, submission: Submission, n: int)
    requires Enabled(cfg, s, Expand(c, repeats, now)) && Carried(s.clients, s.tasks, c, clientId, submission, n)
    ensures var s' := Exec(cfg, s, Expand(c, repeats, now)); Carried(s'.clients, s'.tasks, c, clientId, submission, n)
  {
    ExpansionApplied(cfg, s, c, repeats, now);
    assert FreshRepeats(s.tasks, repeats);
    var b := Exec(cfg, s, Expand(c, repeats, now)).tasks;
    hide Exec, Enabled;
    DistinctTaskIds(repeats);
    hide FreshRepeats, IsPrimaryRow, CarriedBy, TaskIds;
    ExpandedRowsCarry(s.tasks, b, s.clients[c], c, repeats, now, clientId, submission);
  }

  lemma ExpandedRowsCarry(a: Tasks, b: Tasks, o: ClientTask, c: nat, repeats: seq<Repeat>, now: int, clientId: nat, submission: Submission)
    requires o.clientId == clientId && o.taskType == submission.taskType
    requires forall k | k in a :: k in b && b[k] == a[k] && a[k].spec.clientTaskId != c
    requires forall k | k in b && k !in a :: exists i | 0 <= i < |repeats| :: k == repeats[i].identity.id
    requires forall i | 0 <= i < |repeats| ::
               repeats[i].identity.id in b && IsPrimaryRow(o, submission, c, repeats[i], now, b[repeats[i].identity.id])
    ensures forall k | k in b && b[k].spec.clientTaskId == c :: CarriedBy(b, k, clientId, submission)
    ensures TaskIds(b, c) == set i | 0 <= i < |repeats| :: repeats[i].taskId
  {
    hide IsPrimary;
    forall k | k in b && b[k].spec.clientTaskId == c
      ensures exists i :: 0 <= i < |repeats| && k == repeats[i].identity.id && b[k].spec.taskId == repeats[i].taskId
      ensures CarriedBy(b, k, clientId, submission)
    {
      var i :| 0 <= i < |repeats| && k == repeats[i].identity.id;
      assert IsPrimaryRow(o, submission, c, repeats[i], now, b[k]);
    }
    forall i | 0 <= i < |repeats|
      ensures repeats[i].taskId in TaskIds(b, c)
    {
      assert IsPrimaryRow(o, submission, c, repeats[i], now, b[repeats[i].identity.id]);
    }
    hide IsPrimaryRow, CarriedBy;
  }

  lemma OtherExpansionCarries(cfg: Config, s: State, d: nat, repeats: seq<Repeat>, now: int, c: nat, clientId: nat, submission: Submission, n: int)
    requires Enabled(cfg, s, Expand(d, repeats, now)) && d != c && Carried(s.clients, s.tasks, c, clientId, submission, n)
    ensures var s' := Exec(cfg, s, Expand(d, repeats, now)); Carried(s'.clients, s'.tasks, c, clientId, submission, n)
  {
    ExpansionApplied(cfg, s, d, repeats, now);
    var b := Exec(cfg, s, Expand(d, repeats, now)).tasks;
    hide Exec, Enabled;
    forall k | k in b && k !in s.tasks
      ensures b[k].spec.clientTaskId == d
    {
      var i :| 0 <= i < |repeats| && k == repeats[i].identity.id;
      assert IsPrimaryRow(s.clients[d], s.clients[d].submission.value, d, repeats[i], now, b[k]);
    }
    assert TaskIds(b, c) == TaskIds(s.tasks, c);
    forall k | k in b && b[k].spec.clientTaskId == c && s.clients[c].expanded
      ensures CarriedBy(b, k, clientId, submission)
    {
      assert CarriedBy(s.tasks, k, clientId, submission);
      KeptRowCarries(s.tasks, b, k, clientId, submission);
    }
  }

  /** The part of the record that says what was submitted. */
  predicate SameOrder(o: ClientTask, n: ClientTask) {
    && n.clientId == o.clientId && n.taskType == o.taskType && n.repeatNum == o.repeatNum
    && n.expanded == o.expanded && n.submission == o.submission
  }

  lemma OrderStays(cfg: Config, s: State, step: Step, c: nat)
    requires c in s.clients && !(step.Expand? && step.clientTaskId == c && Enabled(cfg, s, step))
    ensures var s' := Exec(cfg, s, step); c in s'.clients && SameOrder(s.clients[c], s'.clients[c])
  {
    hide FailedGroups, GroupFailed, AnyDownloaded, AllFinished, Members, ValidatingGroup, Decide, Selected, InsertPrimaries, WriteEndings, NewlyEnded;
  }

  lemma StepCarries(cfg: Config, s: State, step: Step, c: nat, clientId: nat, submission: Submission, n: int)
    requires cfg.Valid() && Inv(cfg, s) && Carried(s.clients, s.tasks, c, clientId, submission, n)
    ensures var s' := Exec(cfg, s, step); Carried(s'.clients, s'.tasks, c, clientId, submission, n)
  {
    var s' := Exec(cfg, s, step);
    if Enabled(cfg, s, step) && step.Expand? {
      if step.clientTaskId == c {
        ExpansionCarries(cfg, s, c, step.repeats, step.now, clientId, submission, n);
      } else {
        OtherExpansionCarries(cfg, s, step.clientTaskId, step.repeats, step.now, c, clientId, submission, n);
      }
    } else {
      OrderStays(cfg, s, step, c);
      TerminalClosure.StepKeepsRows(cfg, s, step);
      forall k | k in s'.tasks && k !in s.tasks
        ensures Joins(s.tasks, s'.tasks, k)
      {
        AppliedRowsJoin(cfg, s, step.task, step.ctx, k);
      }
      hide Exec, Enabled, Inv;
      RowsCarry(s.clients, s.tasks, s'.tasks, c, clientId, submission, n);
    }
  }

  lemma {:induction false} RunCarries(cfg: Config, s: State, steps: seq<Step>, c: nat, clientId: nat, submission: Submission, n: int)
    requires cfg.Valid() && Inv(cfg, s) && Carried(s.clients, s.tasks, c, clientId, submission, n)
    ensures var s' := Run(cfg, s, steps); Inv(cfg, s') && Carried(s'.clients, s'.tasks, c, clientId, submission, n)
  {
    if steps != [] {
      var last := |steps| - 1;
      RunCarries(cfg, s, steps[..last], c, clientId, submission, n);
      hide Inv, Carried, Exec;
      StepKeepsInv(cfg, Run(cfg, s, steps[..last]), steps[last]);
      StepCarries(cfg, Run(cfg, s, steps[..last]), steps[last], c, clientId, submission, n);
    }
  }

  /** Whatever the engine does before and after a submission: once its client task is expanded there are
      exactly as many TaskIDs under it as repeats were asked for, or configured; every row under it pays
      the submitted fee; and the first row of every group has the submitted arguments and hardware. Until
      then the submission is in the record, and no row is. */
  lemma EverySubmissionIsCarried(cfg: Config, before: seq<Step>, c: nat, clientId: nat, submission: Submission, repeatNum: Option<int>,
                                 now: int, after: seq<Step>)
    requires cfg.Valid() && Enabled(cfg, Run(cfg, INITIAL, before), Submit(c, clientId, submission, repeatNum, now))
    ensures var s := Run(cfg, Exec(cfg, Run(cfg, INITIAL, before), Submit(c, clientId, submission, repeatNum, now)), after);
            && c in s.clients && s.clients[c].clientId == clientId
            && (s.clients[c].expanded ==>
                  && |TaskIds(s.tasks, c)| == (match repeatNum case Some(n) => n case None => cfg.defaultRepeatNum)
                  && forall k | k in s.tasks && s.tasks[k].spec.clientTaskId == c ::
                       && s.tasks[k].spec.clientId == clientId && s.tasks[k].spec.taskType == submission.taskType
                       && s.tasks[k].spec.taskFee == submission.taskFee
                       && ((forall j | j in Group(s.tasks, s.tasks[k].spec.taskId) :: k <= j) ==>
                             && s.tasks[k].spec.taskArgs == submission.taskArgs && s.tasks[k].spec.requiredGPU == submission.requiredGPU
                             && s.tasks[k].spec.requiredGPUVram == submission.requiredGPUVram))
            && (!s.clients[c].expanded ==>
                  s.clients[c].submission == Some(submission) && forall k | k in s.tasks :: s.tasks[k].spec.clientTaskId != c)
  {
    var s := Run(cfg, INITIAL, before);
    EveryRunKeepsInv(cfg, before);
    SubmissionApplied(cfg, s, c, clientId, submission, repeatNum, now);
    StepKeepsInv(cfg, s, Submit(c, clientId, submission, repeatNum, now));
    var s1 := Exec(cfg, s, Submit(c, clientId, submission, repeatNum, now));
    forall k | k in s1.tasks
      ensures s1.tasks[k].spec.clientTaskId != c
    {
      assert OwnerOk(s.clients, s.tasks[k]);
    }
    var n := match repeatNum case Some(m) => m case None => cfg.defaultRepeatNum;
    RunCarries(cfg, s1, after, c, clientId, submission, n);
    hide Inv, Exec, Run, Enabled, TaskIds;
    var e := Run(cfg, s1, after);
    forall k | k in e.tasks && e.tasks[k].spec.clientTaskId == c && e.clients[c].expanded
      ensures CarriedBy(e.tasks, k, clientId, submission)
    {
    }
  }
}
