/** The two members added to a group for validation are twins: in every reachable state they are to run
    the same arguments on the same hardware, made from those of the first member. */
module ValidationMembers {
  import opened Wrappers
  import opened Models
  import opened Config
  import opened Progression
  import opened StateMachine
  import opened ApplyEffect
  import opened Frames
  import opened GroupInvariant
  import opened SlotInvariant
  import opened Invariant
  import opened AnswerEffects
  import TerminalClosure

  /** The row with the lowest key of its group: the one that was submitted. */
  predicate IsPrimary(tasks: Tasks, i: nat)
    requires i in tasks
  {
    forall j | j in Group(tasks, tasks[i].spec.taskId) :: i <= j
  }

  /** Arguments with the revisions of some files pinned; the hardware of the primary, or for a language
      task some named GPU. */
  ghost predicate MadeFrom(cfg: Config, p: TaskSpec, m: TaskSpec) {
    && (exists files: seq<ModelFile> :: files != [] && cfg.pinArgs(p.taskArgs, p.taskType, files) == Some(m.taskArgs))
    && (if p.taskType == LLM then m.requiredGPU != "" else m.requiredGPU == p.requiredGPU && m.requiredGPUVram == p.requiredGPUVram)
  }

  predicate SameWork(a: TaskSpec, b: TaskSpec) {
    a.taskArgs == b.taskArgs && a.requiredGPU == b.requiredGPU && a.requiredGPUVram == b.requiredGPUVram
  }

  ghost predicate TwinsAt(cfg: Config, tasks: Tasks, i: nat)
    requires i in tasks
  {
    IsPrimary(tasks, i) ==>
      var others := Group(tasks, tasks[i].spec.taskId) - {i};
      && (forall j | j in others :: MadeFrom(cfg, tasks[i].spec, tasks[j].spec))
      && (forall j, k | j in others && k in others :: SameWork(tasks[j].spec, tasks[k].spec))
  }

  ghost predicate Twins(cfg: Config, tasks: Tasks) {
    forall i {:trigger TwinsAt(cfg, tasks, i)} | i in tasks :: TwinsAt(cfg, tasks, i)
  }

  /** The group of the row is as it was. */
  predicate GroupKept(a: Tasks, b: Tasks, i: nat)
    requires i in b
  {
    && i in a && Group(b, b[i].spec.taskId) == Group(a, a[i].spec.taskId)
    && forall j | j in Group(a, a[i].spec.taskId) :: j in b && b[j].spec == a[j].spec
  }

  lemma KeptTwins(cfg: Config, a: Tasks, b: Tasks, i: nat)
    requires i in b && (GroupKept(a, b, i) || Group(b, b[i].spec.taskId) == {i}) && Twins(cfg, a)
    ensures TwinsAt(cfg, b, i)
  {
    if GroupKept(a, b, i) { assert TwinsAt(cfg, a, i); }
    hide MadeFrom, SameWork;
  }

  // ---- Applied operations ----

  /** The group after two members have joined a row that was alone. */
  lemma JoinedTwins(cfg: Config, b: Tasks, id: nat, first: nat, second: nat, item: StatusItem, ctx: Context)
    requires id in b && first in b && second in b && id < first && id < second
    requires Group(b, b[id].spec.taskId) == {id, first, second}
    requires item.modelFiles != [] && (b[id].spec.taskType == LLM ==> item.gpu != "")
    requires exists i: Identity, f: bool :: IsNewMember(cfg, b[id], item, i, ctx.now, b[first], f)
    requires exists i: Identity, f: bool :: IsNewMember(cfg, b[id], item, i, ctx.now, b[second], f)
    ensures TwinsAt(cfg, b, id) && TwinsAt(cfg, b, first) && TwinsAt(cfg, b, second)
  {
    assert id in Group(b, b[first].spec.taskId) && id in Group(b, b[second].spec.taskId);
    assert MadeFrom(cfg, b[id].spec, b[first].spec) && MadeFrom(cfg, b[id].spec, b[second].spec);
    hide MadeFrom;
  }

  lemma SameRowsKeepTwins(cfg: Config, a: Tasks, b: Tasks)
    requires Twins(cfg, a) && b.Keys == a.Keys && forall k | k in a :: b[k].spec == a[k].spec
    ensures Twins(cfg, b)
  {
    forall i | i in b
      ensures TwinsAt(cfg, b, i)
    {
      assert Group(b, b[i].spec.taskId) == Group(a, a[i].spec.taskId);
      KeptTwins(cfg, a, b, i);
    }
  }

  /** Only a status answer that selects brings rows. */
  lemma OnlyStatusBrings(cfg: Config, s: State, id: nat, ctx: Context)
    requires Inv(cfg, s) && Enabled(cfg, s, Apply(id, ctx)) && Exec(cfg, s, Apply(id, ctx)).tasks.Keys != s.tasks.Keys
    ensures HoldsStatus(s.tasks[id])
  {
    var applied, inserted := ApplyStepEffect(cfg, s, id, ctx);
    assert Exec(cfg, s, Apply(id, ctx)) == ApplyStep(cfg, s, id, ctx);
    hide ApplyStep, Exec, OwnRow, LooksAtSeed, OperationEffect;
  }

  lemma BroughtTwins(cfg: Config, s: State, id: nat, ctx: Context)
    requires Inv(cfg, s) && Enabled(cfg, s, Apply(id, ctx)) && Exec(cfg, s, Apply(id, ctx)).tasks.Keys != s.tasks.Keys
    ensures var b := Exec(cfg, s, Apply(id, ctx)).tasks;
            && ctx.first.id in b && ctx.second.id in b && id in b
            && Group(b, b[id].spec.taskId) == {id, ctx.first.id, ctx.second.id}
            && b.Keys == s.tasks.Keys + {ctx.first.id, ctx.second.id}
            && TwinsAt(cfg, b, id) && TwinsAt(cfg, b, ctx.first.id) && TwinsAt(cfg, b, ctx.second.id)
  {
    OnlyStatusBrings(cfg, s, id, ctx);
    StatusApplied(cfg, s, id, ctx);
    TerminalClosure.StepKeepsRows(cfg, s, Apply(id, ctx));
    var b := Exec(cfg, s, Apply(id, ctx)).tasks;
    var item := s.tasks[id].slot.reply.item;
    assert FreshIdentity(s.tasks, ctx.first) && FreshIdentity(s.tasks, ctx.second) && ctx.first.id < ctx.second.id;
    assert id in s.tasks && forall j | j in s.tasks :: j in b && b[j].spec == s.tasks[j].spec;
    hide *;
    BroughtRows(cfg, s.tasks, b, id, item, ctx);
  }

  lemma BroughtRows(cfg: Config, a: Tasks, b: Tasks, id: nat, item: StatusItem, ctx: Context)
    requires id in a && FreshIdentity(a, ctx.first) && FreshIdentity(a, ctx.second)
    requires b.Keys != a.Keys && forall j | j in a :: j in b && b[j].spec == a[j].spec
    requires StatusFollows(cfg, a, id, item, ctx, b)
    ensures ctx.first.id in b && ctx.second.id in b && Group(b, b[id].spec.taskId) == {id, ctx.first.id, ctx.second.id}
    ensures b.Keys == a.Keys + {ctx.first.id, ctx.second.id}
    ensures TwinsAt(cfg, b, id) && TwinsAt(cfg, b, ctx.first.id) && TwinsAt(cfg, b, ctx.second.id)
  {
    hide AfterStatus, VrfAfterStatus, BringsSeed, SelectsForThree, Caught, TwinsAt;
    assert BringsTwo(cfg, a, id, item, ctx);
    assert id < ctx.first.id && id < ctx.second.id;
    AloneAmong(a, id);
    assert IsNewMember(cfg, b[id], item, ctx.first, ctx.now, b[ctx.first.id], Caught(b, id, ctx.first.id));
    assert IsNewMember(cfg, b[id], item, ctx.second, ctx.now, b[ctx.second.id], Caught(b, id, ctx.second.id));
    hide StatusFollows, FreshIdentity;
    NewGroupOfThree(a, b, id, ctx.first.id, ctx.second.id);
    hide IsNewMember;
    JoinedTwins(cfg, b, id, ctx.first.id, ctx.second.id, item, ctx);
  }

  lemma AloneAmong(tasks: Tasks, id: nat)
    requires id in tasks && |Companions(tasks, id)| == 1
    ensures forall j | j in tasks && j != id :: tasks[j].spec.taskId != tasks[id].spec.taskId
  {
    var g := Companions(tasks, id);
    assert |g - {id}| == 0;
    assert forall j | j in g - {id} :: false;
    forall j | j in tasks && j != id
      ensures tasks[j].spec.taskId != tasks[id].spec.taskId
    {
      assert j !in g - {id};
    }
  }

  lemma NewGroupOfThree(a: Tasks, b: Tasks, id: nat, first: nat, second: nat)
    requires id in a && b.Keys == a.Keys + {first, second} && forall j | j in a :: b[j].spec == a[j].spec
    requires forall j | j in a && j != id :: a[j].spec.taskId != a[id].spec.taskId
    requires b[first].spec.taskId == a[id].spec.taskId && b[second].spec.taskId == a[id].spec.taskId
    ensures Group(b, b[id].spec.taskId) == {id, first, second}
  {
  }

  lemma ApplyTwins(cfg: Config, s: State, id: nat, ctx: Context)
    requires Inv(cfg, s) && Twins(cfg, s.tasks) && Enabled(cfg, s, Apply(id, ctx))
    ensures Twins(cfg, Exec(cfg, s, Apply(id, ctx)).tasks)
  {
    var a, b := s.tasks, Exec(cfg, s, Apply(id, ctx)).tasks;
    assert id in a;
    hide *;
    StepKeepsSpecs(cfg, s, Apply(id, ctx));
    if b.Keys == a.Keys {
      SameRowsKeepTwins(cfg, a, b);
    } else {
      BroughtTwins(cfg, s, id, ctx);
      GrownTwins(cfg, a, b, id, ctx.first.id, ctx.second.id);
    }
  }

  lemma StepKeepsSpecs(cfg: Config, s: State, step: Step)
    ensures var b := Exec(cfg, s, step).tasks; forall j | j in s.tasks :: j in b && b[j].spec == s.tasks[j].spec
  {
    hide Exec;
    TerminalClosure.StepKeepsRows(cfg, s, step);
  }

  lemma GrownTwins(cfg: Config, a: Tasks, b: Tasks, id: nat, first: nat, second: nat)
    requires Twins(cfg, a) && id in a && b.Keys == a.Keys + {first, second} && forall j | j in a :: b[j].spec == a[j].spec
    requires Group(b, b[id].spec.taskId) == {id, first, second}
    requires TwinsAt(cfg, b, id) && TwinsAt(cfg, b, first) && TwinsAt(cfg, b, second)
    ensures Twins(cfg, b)
  {
    hide TwinsAt;
    forall i | i in b
      ensures TwinsAt(cfg, b, i)
    {
      if i !in {id, first, second} {
        assert i !in Group(b, b[id].spec.taskId);
        assert Group(b, b[i].spec.taskId) == Group(a, a[i].spec.taskId);
        KeptTwins(cfg, a, b, i);
      }
    }
  }

  // ---- Runs ----

  lemma ExpandTwins(cfg: Config, s: State, c: nat, repeats: seq<Repeat>, now: int)
    requires Twins(cfg, s.tasks) && Enabled(cfg, s, Expand(c, repeats, now))
    ensures Twins(cfg, Exec(cfg, s, Expand(c, repeats, now)).tasks)
  {
    var a, b := s.tasks, Exec(cfg, s, Expand(c, repeats, now)).tasks;
    ExpansionInserts(a, s.clients[c], c, repeats, now);
    forall i | i in b
      ensures TwinsAt(cfg, b, i)
    {
      if i in a {
        OldGroup(a, b, s.clients[c], c, repeats, now, i);
      } else {
        NewGroup(a, b, s.clients[c], c, repeats, now, i);
      }
      KeptTwins(cfg, a, b, i);
    }
  }

  lemma StepKeepsTwins(cfg: Config, s: State, step: Step)
    requires Inv(cfg, s) && Twins(cfg, s.tasks)
    ensures Twins(cfg, Exec(cfg, s, step).tasks)
  {
    if !Enabled(cfg, s, step) {
    } else if step.Apply? {
      ApplyTwins(cfg, s, step.task, step.ctx);
    } else if step.Expand? {
      ExpandTwins(cfg, s, step.clientTaskId, step.repeats, step.now);
    } else {
      TerminalClosure.StepKeepsRows(cfg, s, step);
      var b := Exec(cfg, s, step).tasks;
      assert b.Keys == s.tasks.Keys;
      hide Exec, Enabled, Inv;
      SameRowsKeepTwins(cfg, s.tasks, b);
    }
  }

  lemma {:induction false} RunKeepsTwins(cfg: Config, steps: seq<Step>)
    requires cfg.Valid()
    ensures Twins(cfg, Run(cfg, INITIAL, steps).tasks)
  {
    if steps != [] {
      var last := |steps| - 1;
      RunKeepsTwins(cfg, steps[..last]);
      EveryRunKeepsInv(cfg, steps[..last]);
      hide Inv, Twins, Exec;
      StepKeepsTwins(cfg, Run(cfg, INITIAL, steps[..last]), steps[last]);
    }
  }

  /** In every reachable state two members of a group, neither of them the one that was submitted, are to
      run the same arguments on the same hardware, and those are made from the submitted one's. */
  lemma EveryRunPairsMembers(cfg: Config, steps: seq<Step>, i: nat, j: nat, k: nat)
    requires cfg.Valid()
    requires var tasks := Run(cfg, INITIAL, steps).tasks;
             && i in tasks && j in tasks && k in tasks && i < j && i < k
             && tasks[j].spec.taskId == tasks[i].spec.taskId && tasks[k].spec.taskId == tasks[i].spec.taskId
    ensures var tasks := Run(cfg, INITIAL, steps).tasks;
            && tasks[j].spec.taskArgs == tasks[k].spec.taskArgs && tasks[j].spec.requiredGPU == tasks[k].spec.requiredGPU
            && tasks[j].spec.requiredGPUVram == tasks[k].spec.requiredGPUVram
    ensures var tasks := Run(cfg, INITIAL, steps).tasks;
            (forall h | h in Group(tasks, tasks[i].spec.taskId) :: i <= h) ==> MadeFrom(cfg, tasks[i].spec, tasks[j].spec)
  {
    RunKeepsTwins(cfg, steps);
    var tasks := Run(cfg, INITIAL, steps).tasks;
    hide Run, MadeFrom;
    var p := LowestKey(tasks, Group(tasks, tasks[i].spec.taskId), i);
    assert TwinsAt(cfg, tasks, p) && IsPrimary(tasks, p);
    assert IsPrimary(tasks, i) ==> p == i;
  }

  lemma {:induction false} LowestKey(tasks: Tasks, rows: set<nat>, some: nat) returns (least: nat)
    requires some in rows
    ensures least in rows && least <= some && forall j | j in rows :: least <= j
  {
    least := some;
    if j :| j in rows && j < some { least := LowestKey(tasks, rows, j); }
  }
}
