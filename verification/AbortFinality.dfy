/** When an aborted client task can no longer produce a result. `docs/task_lifecycle.md` says a
    successful abort means exactly that; it does exactly when every member the commit did not cancel is
    barren, which can be read off the rows before the commit. */
module AbortFinality {
  import opened Wrappers
  import opened Models
  import opened Config
  import opened Progression
  import opened Dispatch
  import opened StateMachine
  import opened ApplyEffect
  import opened Frames
  import opened GroupInvariant
  import opened SlotInvariant
  import opened ClientInvariant
  import opened Invariant
  import opened Lifecycle
  import opened CancellationFlags
  import opened RowRevival
  import TerminalClosure
  import ValidationSafety

  /** The stored answer is terminal, and still brings two new members into the row's group. */
  predicate BringsMembers(cfg: Config, t: InferenceTask) {
    && t.slot.status == SlotCompleted && t.slot.op == OpSync && t.slot.reply.StatusReply?
    && var item := t.slot.reply.item;
       && item.found && ChainTerminal(item.status) && t.vrf.seed == "" && item.samplingSeed != ""
       && cfg.prove(item.samplingSeed).Some? && VrfNeedValidation(cfg.prove(item.samplingSeed).value.number)
       && ExecutionAssigned(t.spec.taskType, item)
       && cfg.pinArgs(t.spec.taskArgs, t.spec.taskType, item.modelFiles).Some?
  }

  /** Neither the row nor a member it brings can ever have a result. */
  predicate Barren(cfg: Config, t: InferenceTask) {
    Doomed(cfg, t) && !BringsMembers(cfg, t)
  }

  /** The client task was expanded, and every member is barren. */
  ghost predicate AllBarren(cfg: Config, s: State, c: nat) {
    && c in s.clients && s.clients[c].expanded
    && forall k {:trigger Barren(cfg, s.tasks[k])} | k in Members(s.tasks, c) :: Barren(cfg, s.tasks[k])
  }

  // ---- Barren members stay, and stay alone ----

  lemma ApplyKeepsBringing(cfg: Config, s: State, id: nat, ctx: Context, k: nat)
    requires Applicable(s.tasks, id, ctx) && k in s.tasks && !BringsMembers(cfg, s.tasks[k])
    ensures var s' := ApplyStep(cfg, s, id, ctx); k in s'.tasks && !BringsMembers(cfg, s'.tasks[k])
  {
    var applied, inserted := ApplyStepEffect(cfg, s, id, ctx);
    hide ApplyStep, OperationEffect, OwnRow, ExecutionAssigned;
    if applied && k != id { assert OtherRow(s.tasks, ApplyStep(cfg, s, id, ctx).tasks, id, k, ctx.now); }
  }

  lemma OtherStepsKeepBringing(cfg: Config, s: State, step: Step, k: nat)
    requires Enabled(cfg, s, step) && !step.Apply? && !step.Expand?
    requires k in s.tasks && Doomed(cfg, s.tasks[k]) && !BringsMembers(cfg, s.tasks[k])
    ensures var s' := Exec(cfg, s, step); k in s'.tasks && !BringsMembers(cfg, s'.tasks[k])
  {
    hide ValidatingGroup, Recalculated, AllStopped, ReplyFits, NewlyEnded, Selected, Decide, BringsMembers, Doomed;
    var o, n := s.tasks[k], Exec(cfg, s, step).tasks[k];
    assert n.spec == o.spec && n.vrf == o.vrf;
    assert n.slot == o.slot || n.slot.status != SlotCompleted || (o.slot.status == SlotRunning && n.slot.op == o.slot.op);
    hide Exec, Enabled;
    SlotBringsNothing(cfg, o, n);
  }

  /** A doomed row gets no new status answer. */
  lemma SlotBringsNothing(cfg: Config, o: InferenceTask, n: InferenceTask)
    requires Doomed(cfg, o) && !BringsMembers(cfg, o) && n.spec == o.spec && n.vrf == o.vrf
    requires n.slot == o.slot || n.slot.status != SlotCompleted || (o.slot.status == SlotRunning && n.slot.op == o.slot.op)
    ensures !BringsMembers(cfg, n)
  {
    hide ExecutionAssigned, Reopens;
  }

  lemma StepKeepsBarren(cfg: Config, s: State, step: Step, k: nat)
    requires Inv(cfg, s) && FlagsOk(s) && k in s.tasks && Barren(cfg, s.tasks[k])
    ensures var s' := Exec(cfg, s, step); k in s'.tasks && Barren(cfg, s'.tasks[k])
  {
    StepKeepsDoomed(cfg, s, step, k);
    hide Inv, FlagsOk, Doomed, BringsMembers;
    if !Enabled(cfg, s, step) {
    } else if step.Apply? {
      ApplyKeepsBringing(cfg, s, step.task, step.ctx, k);
    } else if step.Expand? {
      ExpansionInserts(s.tasks, s.clients[step.clientTaskId], step.clientTaskId, step.repeats, step.now);
    } else {
      OtherStepsKeepBringing(cfg, s, step, k);
    }
  }

  /** An answer of a barren row inserts nothing. */
  lemma BarrenInsertsNothing(cfg: Config, s: State, id: nat, ctx: Context, applied: bool, inserted: bool)
    requires Inv(cfg, s) && Enabled(cfg, s, Apply(id, ctx)) && Barren(cfg, s.tasks[id]) && applied
    requires applied <==> s.tasks[id].slot.status == SlotFailed
                          || (OperationEffect(cfg, s.tasks, id, ctx).Some? && s.tasks[id].spec.clientTaskId in s.clients)
    requires var s' := ApplyStep(cfg, s, id, ctx); Applied(cfg, s.tasks, s'.tasks, id, ctx, inserted)
    ensures !inserted
  {
    var t := s.tasks[id];
    var s' := ApplyStep(cfg, s, id, ctx);
    InvSize(cfg, s, id);
    if t.slot.status == SlotCompleted && t.slot.op == OpSync { CommitsUnless(cfg, s.tasks, id, ctx); }
    assert VrfChange(cfg, |Group(s.tasks, t.spec.taskId)|, t, s'.tasks[id].vrf, ctx, inserted);
    hide Inv, ApplyStep, Applied, OperationEffect, Barren, VrfChange, SeedFails, LooksAtSeed, SizeOk;
    BarrenAddsNoVrf(cfg, t, |Group(s.tasks, t.spec.taskId)|, s'.tasks[id].vrf, ctx, inserted);
  }

  lemma BarrenAddsNoVrf(cfg: Config, t: InferenceTask, size: nat, vrf: Vrf, ctx: Context, inserted: bool)
    requires Barren(cfg, t) && VrfChange(cfg, size, t, vrf, ctx, inserted)
    requires t.slot.status == SlotCompleted && t.slot.op == OpSync && t.slot.reply.StatusReply? ==>
               !(LooksAtSeed(cfg, t, t.slot.reply.item, ctx) && SeedFails(cfg, t, t.slot.reply.item, size == 1))
    ensures !inserted
  {
    hide ExecutionAssigned;
  }

  lemma AppliedMembers(cfg: Config, s: State, id: nat, ctx: Context, c: nat)
    requires Inv(cfg, s) && AllBarren(cfg, s, c) && Enabled(cfg, s, Apply(id, ctx))
    ensures var s' := ApplyStep(cfg, s, id, ctx);
            c in s'.clients && s'.clients[c].expanded && Members(s'.tasks, c) <= Members(s.tasks, c)
  {
    var s' := ApplyStep(cfg, s, id, ctx);
    var applied, inserted := ApplyStepEffect(cfg, s, id, ctx);
    if applied && id in Members(s.tasks, c) {
      assert Barren(cfg, s.tasks[id]);
      BarrenInsertsNothing(cfg, s, id, ctx, applied, inserted);
    }
    hide ApplyStep, Inv, Barren, OperationEffect;
    if applied {
      AppliedIdentity(cfg, s.tasks, s'.tasks, id, ctx, inserted, id);
      forall k | k in Members(s'.tasks, c)
        ensures k in Members(s.tasks, c)
      {
        if k in s.tasks {
          AppliedIdentity(cfg, s.tasks, s'.tasks, id, ctx, inserted, k);
        } else {
          InsertedIsMate(cfg, s.tasks, s'.tasks, id, ctx, k);
        }
      }
    }
  }

  lemma StepKeepsMembers(cfg: Config, s: State, step: Step, c: nat)
    requires cfg.Valid() && Inv(cfg, s) && AllBarren(cfg, s, c)
    ensures var s' := Exec(cfg, s, step);
            c in s'.clients && s'.clients[c].expanded && Members(s'.tasks, c) <= Members(s.tasks, c)
  {
    var s' := Exec(cfg, s, step);
    hide GroupsOk, RowsOk, WorkersOk, PoolsOk, ClientsOk, Selected, Barren;
    if Enabled(cfg, s, step) {
      if step.Apply? {
        AppliedMembers(cfg, s, step.task, step.ctx, c);
      } else if step.Expand? {
        ExpansionInserts(s.tasks, s.clients[step.clientTaskId], step.clientTaskId, step.repeats, step.now);
        forall k | k in s'.tasks && k !in s.tasks
          ensures s'.tasks[k].spec.clientTaskId != c
        {
          NewRow(s.tasks, s'.tasks, s.clients[step.clientTaskId], step.clientTaskId, step.repeats, step.now, k);
        }
      } else if step.Recover? {
        hide ValidatingGroup;
      }
    }
  }

  /** Once every member is barren, no continuation of the run, with any answers from Relay, any crash
      and any further abort, ever gives the client task a result. */
  lemma {:induction false} AllBarrenForever(cfg: Config, s: State, steps: seq<Step>, c: nat)
    requires cfg.Valid() && Inv(cfg, s) && FlagsOk(s) && AllBarren(cfg, s, c)
    ensures var s' := Run(cfg, s, steps);
            Inv(cfg, s') && FlagsOk(s') && AllBarren(cfg, s', c) && !AnyDownloaded(s'.tasks, Members(s'.tasks, c))
  {
    if steps != [] {
      var last := |steps| - 1;
      var mid := Run(cfg, s, steps[..last]);
      AllBarrenForever(cfg, s, steps[..last], c);
      RunKeepsFlags(cfg, s, steps);
      StepKeepsMembers(cfg, mid, steps[last], c);
      var s' := Exec(cfg, mid, steps[last]);
      hide Inv, FlagsOk, Exec, Barren;
      forall k | k in Members(s'.tasks, c)
        ensures Barren(cfg, s'.tasks[k])
      {
        assert Barren(cfg, mid.tasks[k]);
        StepKeepsBarren(cfg, mid, steps[last], k);
      }
    }
    NoneDownloaded(cfg, Run(cfg, s, steps), c);
  }

  lemma NoneDownloaded(cfg: Config, s: State, c: nat)
    requires AllBarren(cfg, s, c)
    ensures !AnyDownloaded(s.tasks, Members(s.tasks, c))
  {
    assert forall k | k in Members(s.tasks, c) :: Barren(cfg, s.tasks[k]);
  }

  // ---- A row that is not barren ----

  ghost predicate ClientDownloads(cfg: Config, s: State, steps: seq<Step>, c: nat) {
    var s' := Run(cfg, s, steps);
    AnyDownloaded(s'.tasks, Members(s'.tasks, c))
  }

  /** Some continuation gives the client task a result. */
  ghost predicate ClientCanDownload(cfg: Config, s: State, c: nat) {
    exists steps: seq<Step> :: ClientDownloads(cfg, s, steps, c)
  }

  lemma MemberDownloads(cfg: Config, s: State, steps: seq<Step>, k: nat, c: nat)
    requires k in Members(s.tasks, c) && Downloads(cfg, s, steps, k)
    ensures ClientDownloads(cfg, s, steps, c)
  {
    MembersStay(cfg, s, steps, k, c);
    hide Run;
  }

  lemma {:induction false} MembersStay(cfg: Config, s: State, steps: seq<Step>, k: nat, c: nat)
    requires k in Members(s.tasks, c)
    ensures k in Members(Run(cfg, s, steps).tasks, c)
  {
    if steps != [] {
      var last := |steps| - 1;
      MembersStay(cfg, s, steps[..last], k, c);
      TerminalClosure.StepKeepsRows(cfg, Run(cfg, s, steps[..last]), steps[last]);
      hide Exec;
    }
  }

  /** The stored answer inserts an open member of the same client task. */
  lemma BroughtMember(cfg: Config, s: State, k: nat, ctx: Context)
    requires cfg.Valid() && Inv(cfg, s) && Enabled(cfg, s, Apply(k, ctx)) && BringsMembers(cfg, s.tasks[k])
    requires EngineType(s.tasks[k].spec.taskType)
    ensures var s' := Exec(cfg, s, Apply(k, ctx));
            && Inv(cfg, s') && ctx.first.id in s'.tasks && Open(s'.tasks[ctx.first.id])
            && s'.tasks[ctx.first.id].spec.clientTaskId == s.tasks[k].spec.clientTaskId
  {
    var t := s.tasks[k];
    var s' := ApplyStep(cfg, s, k, ctx);
    assert Exec(cfg, s, Apply(k, ctx)) == s';
    StepKeepsInv(cfg, s, Apply(k, ctx));
    assert LooksAtSeed(cfg, t, t.slot.reply.item, ctx);
    ValidationSafety.MembersInsertedIff(cfg, s, k, ctx);
    var applied, inserted := ApplyStepEffect(cfg, s, k, ctx);
    hide ApplyStep, Exec, Inv, LooksAtSeed, BringsMembers, OperationEffect;
    assert FreshIdentity(s.tasks, ctx.first);
    assert applied && inserted;
    assert InsertedMember(s'.tasks[k], s'.tasks[ctx.first.id], ctx.first, ctx.now);
    hide OwnRow, VrfChange;
  }

  lemma BroughtDownloads(cfg: Config, s: State, k: nat, c: nat) returns (steps: seq<Step>)
    requires cfg.Valid() && Inv(cfg, s) && k in Members(s.tasks, c) && BringsMembers(cfg, s.tasks[k])
    ensures ClientDownloads(cfg, s, steps, c)
  {
    var ctx := FreshContext(s.tasks, s.clock);
    assert Enabled(cfg, s, Apply(k, ctx));
    BroughtMember(cfg, s, k, ctx);
    hide Inv, BringsMembers, Exec, Enabled;
    var s' := Exec(cfg, s, Apply(k, ctx));
    var more := FreedDownloads(cfg, s', ctx.first.id);
    MemberDownloads(cfg, s', more, ctx.first.id, c);
    assert [Apply(k, ctx)][..0] == [];
    assert Run(cfg, s, [Apply(k, ctx)]) == s';
    RunIsSequential(cfg, s, [Apply(k, ctx)], more);
    steps := [Apply(k, ctx)] + more;
  }

  /** The client task's members have ended without a result: some continuation brings one exactly when a
      member is not barren. */
  lemma ClientRevivesIff(cfg: Config, s: State, c: nat)
    requires cfg.Valid() && Inv(cfg, s) && FlagsOk(s) && AllStopped(s.tasks, c)
    ensures ClientCanDownload(cfg, s, c) <==> exists k | k in Members(s.tasks, c) :: !Barren(cfg, s.tasks[k])
  {
    if k :| k in Members(s.tasks, c) && !Barren(cfg, s.tasks[k]) {
      var steps;
      if BringsMembers(cfg, s.tasks[k]) {
        steps := BroughtDownloads(cfg, s, k, c);
      } else {
        steps := EndedDownloads(cfg, s, k);
        MemberDownloads(cfg, s, steps, k, c);
      }
    } else {
      var k :| k in Members(s.tasks, c);
      InvSize(cfg, s, k);
      hide Inv, FlagsOk, Barren;
      forall steps: seq<Step>
        ensures !ClientDownloads(cfg, s, steps, c)
      {
        AllBarrenForever(cfg, s, steps, c);
      }
    }
  }

  /** A creator abort commits and succeeds: every member has stopped without a result. Whatever else the
      engine was doing, some continuation still gives the client task a result exactly when a member the
      commit did not cancel could still deliver one before the commit, or had an answer stored that
      brings new members. */
  lemma AbortSuccessIsFinalIff(cfg: Config, steps: seq<Step>, c: nat, without: set<nat>, cancelled: set<nat>)
    requires cfg.Valid()
    requires var s := Run(cfg, INITIAL, steps);
             var abort := AbortCommit(c, without, cancelled, true);
             Enabled(cfg, s, abort) && AllStopped(Exec(cfg, s, abort).tasks, c)
    ensures var s := Run(cfg, INITIAL, steps);
            ClientCanDownload(cfg, Exec(cfg, s, AbortCommit(c, without, cancelled, true)), c) <==>
            exists k | k in Members(s.tasks, c) && k !in without + cancelled ::
              CanStillDeliver(cfg, s.tasks[k]) || BringsMembers(cfg, s.tasks[k])
  {
    var s := Run(cfg, INITIAL, steps);
    var abort := AbortCommit(c, without, cancelled, true);
    var s' := Exec(cfg, s, abort);
    EveryRunKeepsFlags(cfg, steps);
    StepKeepsInv(cfg, s, abort);
    StepKeepsFlags(cfg, s, abort);
    hide Run, Inv, FlagsOk, ClientCanDownload, CanStillDeliver, BringsMembers, Recalculated;
    ClientRevivesIff(cfg, s', c);
    assert s'.tasks == AbortRows(s.tasks, without + cancelled) && Members(s'.tasks, c) == Members(s.tasks, c);
    hide Exec, Enabled;
    forall k | k in Members(s.tasks, c)
      ensures !Barren(cfg, s'.tasks[k]) <==>
              k !in without + cancelled && (CanStillDeliver(cfg, s.tasks[k]) || BringsMembers(cfg, s.tasks[k]))
    {
      AbortedIsBarren(cfg, s.tasks[k]);
      assert Ended(s'.tasks[k]);
    }
  }

  lemma AbortedIsBarren(cfg: Config, t: InferenceTask)
    ensures Barren(cfg, AbortedRow(t))
  {
  }

  /** With no stored answer among the members the commit did not cancel, the abort is final exactly when
      none of them owes a cancellation or has a query or a download out. */
  lemma QuietAbortIsFinalIff(cfg: Config, steps: seq<Step>, c: nat, without: set<nat>, cancelled: set<nat>)
    requires cfg.Valid()
    requires var s := Run(cfg, INITIAL, steps);
             var abort := AbortCommit(c, without, cancelled, true);
             && Enabled(cfg, s, abort) && AllStopped(Exec(cfg, s, abort).tasks, c)
             && forall k | k in Members(s.tasks, c) && k !in without + cancelled :: s.tasks[k].slot.status != SlotCompleted
    ensures var s := Run(cfg, INITIAL, steps);
            ClientCanDownload(cfg, Exec(cfg, s, AbortCommit(c, without, cancelled, true)), c) <==>
            exists k | k in Members(s.tasks, c) && k !in without + cancelled ::
              s.tasks[k].cancelRequired || RunningFor(s.tasks[k], OpSync) || RunningFor(s.tasks[k], OpResult)
  {
    AbortSuccessIsFinalIff(cfg, steps, c, without, cancelled);
    hide Run, Exec, Enabled, ClientCanDownload, AllStopped, Reopens;
    var s := Run(cfg, INITIAL, steps);
    assert forall k | k in Members(s.tasks, c) && k !in without + cancelled ::
        CanStillDeliver(cfg, s.tasks[k]) || BringsMembers(cfg, s.tasks[k]) <==>
        s.tasks[k].cancelRequired || RunningFor(s.tasks[k], OpSync) || RunningFor(s.tasks[k], OpResult);
  }
}
