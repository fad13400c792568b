/** What every other step does to the rows and records, spelled out field by field, and how a submission
    reaches the rows that execute it. */
module StepEffects {
  import opened Wrappers
  import opened Models
  import opened Config
  import opened Progression
  import opened Dispatch
  import opened StateMachine
  import opened Frames
  import opened GroupInvariant
  import opened ClientInvariant
  import opened Invariant
  import opened AnswerEffects

  // ---- Submission and expansion ----

  /** A submission adds one running, unexpanded client task, due at once, with the given number of repeats
      or the configured one. */
  lemma SubmissionApplied(cfg: Config, s: State, id: nat, clientId: nat, submission: Submission, repeatNum: Option<int>, now: int)
    requires Enabled(cfg, s, Submit(id, clientId, submission, repeatNum, now))
    ensures var repeats := match repeatNum case Some(n) => n case None => cfg.defaultRepeatNum;
            && repeats > 0 && id !in s.clients
            && Exec(cfg, s, Submit(id, clientId, submission, repeatNum, now)) ==
               s.(clock := now, clients := s.clients[id := ClientTask(clientId, submission.taskType, Some(submission), repeats,
                                                                      ClientRunning, 0, false, false, now)])
  {
  }

  /** The row an expansion inserts for one repeat: the submitted work, nothing known of it yet. */
  predicate IsPrimaryRow(o: ClientTask, submission: Submission, c: nat, r: Repeat, now: int, t: InferenceTask) {
    && t.spec == TaskSpec(o.clientId, c, submission.taskType, submission.taskArgs, submission.taskFee, submission.requiredGPU,
                          submission.requiredGPUVram, r.taskId, now)
    && t == InferenceTask(t.spec, r.identity.commitment, Vrf("", 0, ""), Pending, 0, ReasonNone, ErrorNone,
                          Execution("", 0, [], None, false), now, Slot(OpNone, SlotNone, NoReply), 0, false, false, false, false, false)
  }

  /** An expansion inserts exactly one such row for each repeat, with the repeat's own identity, keeps every
      old row, and turns the record into an expanded one. */
  lemma ExpansionApplied(cfg: Config, s: State, c: nat, repeats: seq<Repeat>, now: int)
    requires Enabled(cfg, s, Expand(c, repeats, now))
    ensures var s' := Exec(cfg, s, Expand(c, repeats, now));
            var o := s.clients[c];
            && o.submission.Some? && |repeats| == o.repeatNum && o.status == ClientRunning && !o.expanded && o.nextActionAt <= now
            && s' == s.(clock := now, tasks := s'.tasks, clients := s.clients[c := o.(expanded := true, submission := None, nextActionAt := now)])
            && (forall k | k in s.tasks :: k in s'.tasks && s'.tasks[k] == s.tasks[k])
            && (forall k | k in s'.tasks && k !in s.tasks :: exists i | 0 <= i < |repeats| :: k == repeats[i].identity.id)
            && (forall i | 0 <= i < |repeats| ::
                  && repeats[i].identity.id !in s.tasks && repeats[i].identity.id in s'.tasks
                  && IsPrimaryRow(o, o.submission.value, c, repeats[i], now, s'.tasks[repeats[i].identity.id]))
  {
    var o := s.clients[c];
    ExpansionInserts(s.tasks, o, c, repeats, now);
    forall i | 0 <= i < |repeats|
      ensures repeats[i].identity.id !in s.tasks && repeats[i].identity.id in Exec(cfg, s, Expand(c, repeats, now)).tasks
      ensures IsPrimaryRow(o, o.submission.value, c, repeats[i], now, Exec(cfg, s, Expand(c, repeats, now)).tasks[repeats[i].identity.id])
    {
      assert InsertedAt(Exec(cfg, s, Expand(c, repeats, now)).tasks, o, c, repeats[i], now) && FreshIdentity(s.tasks, repeats[i].identity);
    }
  }

  /** An expansion that fails only makes its client task wait. */
  lemma FailedExpansionApplied(cfg: Config, s: State, c: nat, now: int)
    requires Enabled(cfg, s, ExpandFailed(c, now))
    ensures Exec(cfg, s, ExpandFailed(c, now)) ==
            s.(clock := now, clients := s.clients[c := s.clients[c].(nextActionAt := now + cfg.retryInterval)])
  {
  }

  // ---- Workers ----

  /** A batch that is dispatched: its rows hold the operation and nothing else changes. */
  lemma StartApplied(cfg: Config, s: State, w: nat, op: Operation, rows: set<nat>, now: int)
    requires Enabled(cfg, s, StartWorker(w, op, rows, now))
    ensures var s' := Exec(cfg, s, StartWorker(w, op, rows, now));
            && s' == s.(clock := now, tasks := s'.tasks, workers := s.workers[w := Worker(op, rows)]) && w !in s.workers
            && s'.tasks.Keys == s.tasks.Keys && rows <= s.tasks.Keys
            && forall k | k in s.tasks ::
                 s'.tasks[k] == if k in rows then s.tasks[k].(slot := Slot(op, SlotRunning, NoReply)) else s.tasks[k]
  {
  }

  /** A worker's end: its running rows hold the answer, or the failure; a lost creation, validation or
      cancellation may have taken effect, a lost query or download may not. A row whose operation was
      taken away is left alone, and so is every other. */
  lemma FinishApplied(cfg: Config, s: State, w: nat, endings: map<nat, Ending>)
    requires Enabled(cfg, s, Finish(w, endings))
    ensures var s' := Exec(cfg, s, Finish(w, endings));
            var op := s.workers[w].op;
            && s'.clock == s.clock && s'.clients == s.clients && s'.tasks.Keys == s.tasks.Keys
            && s'.workers.Keys == s.workers.Keys - {w} && (forall v | v in s'.workers :: s'.workers[v] == s.workers[v])
            && forall k | k in s.tasks ::
                 var t := s.tasks[k];
                 s'.tasks[k] ==
                 if k !in s.workers[w].rows || t.slot.status != SlotRunning then t
                 else if endings[k] == Lost then
                   t.(slot := Slot(t.slot.op, SlotFailed, NoReply), unknown := op in {OpCreate, OpValidate, OpCancel})
                 else t.(slot := Slot(t.slot.op, SlotCompleted, endings[k].reply))
  {
    hide ReplyFits, NewlyEnded;
  }

  // ---- Recovery ----

  /** A crash: no worker survives; a running row is freed, its outcome is unknown, and it is due at once;
      every member of a group that was being validated must ask Relay again at once. Nothing else
      changes, and in particular no client task does. */
  lemma RecoveryApplied(cfg: Config, s: State, now: int)
    requires Inv(cfg, s) && s.clock <= now
    ensures var s' := Exec(cfg, s, Recover(now));
            && s' == s.(clock := now, tasks := s'.tasks, workers := map[]) && s'.tasks.Keys == s.tasks.Keys
            && forall k | k in s.tasks ::
                 var t := s.tasks[k];
                 var stopped := t.slot.status == SlotRunning;
                 var unsure := exists j | j in Companions(s.tasks, k) :: s.tasks[j].slot.status == SlotRunning && s.tasks[j].slot.op == OpValidate;
                 s'.tasks[k] == t.(slot := if stopped then Slot(OpNone, SlotNone, NoReply) else t.slot, unknown := stopped || t.unknown,
                                   relayChecked := t.relayChecked && !unsure,
                                   nextActionAt := if stopped || unsure then now else t.nextActionAt)
  {
    RecoveryRecalculatesNothing(s.clients, s.tasks, now);
    forall k | k in s.tasks
      ensures ValidatingGroup(s.tasks, s.tasks[k].spec.taskId) <==>
              exists j | j in Companions(s.tasks, k) :: s.tasks[j].slot.status == SlotRunning && s.tasks[j].slot.op == OpValidate
      ensures s.tasks[k].slot.status == SlotRunning ==> s.tasks[k].slot.reply == NoReply
    {
      ValidatedCompanions(s.tasks, k);
      assert SlotInvariant.SlotOk(s.tasks[k]);
    }
    hide ValidatingGroup, Companions, Inv, RecoveredClients;
  }

  lemma ValidatedCompanions(tasks: Tasks, k: nat)
    requires k in tasks
    ensures ValidatingGroup(tasks, tasks[k].spec.taskId) <==>
            exists j | j in Companions(tasks, k) :: tasks[j].slot.status == SlotRunning && tasks[j].slot.op == OpValidate
  {
    if ValidatingGroup(tasks, tasks[k].spec.taskId) {
      var j :| j in tasks && tasks[j].spec.taskId == tasks[k].spec.taskId && tasks[j].slot.status == SlotRunning && tasks[j].slot.op == OpValidate;
      assert j in Companions(tasks, k);
    }
  }

  // ---- Creator aborts ----

  lemma UnexpandedAbortApplied(cfg: Config, s: State, c: nat)
    requires c in s.clients
    ensures var o := s.clients[c];
            Exec(cfg, s, AbortUnexpanded(c)) ==
            if o.status == ClientRunning && !o.expanded
            then s.(clients := s.clients[c := o.(status := ClientFailed, creatorCancelled := true, failedCount := 0)]) else s
  {
    assert s == s.(clients := s.clients);
  }

  /** The last transaction of an abort: refused once the client task has succeeded or a member has its
      result. Otherwise the cancelled rows, and with full success those without a commitment, are the
      creator's aborts, owe nothing and are idle; no other row changes. With full success and every member
      then stopped the client task has failed by its creator; otherwise it is counted again. */
  lemma AbortApplied(cfg: Config, s: State, c: nat, without: set<nat>, cancelled: set<nat>, full: bool)
    requires c in s.clients && without + cancelled <= MembersOf(s.tasks, c)
    ensures var s' := Exec(cfg, s, AbortCommit(c, without, cancelled, full));
            var o := s.clients[c];
            if o.status == ClientSuccess || exists k | k in MembersOf(s.tasks, c) :: s.tasks[k].status == ResultDownloaded then s' == s
            else
              && s' == s.(tasks := s'.tasks, clients := s'.clients) && s'.tasks.Keys == s.tasks.Keys && c in s'.clients
              && s'.clients == s.clients[c := s'.clients[c]]
              && (forall k | k in s.tasks ::
                    s'.tasks[k] == if k in cancelled || (full && k in without)
                                   then s.tasks[k].(status := EndAborted, abortReason := CreatorCancelled, cancelRequired := false,
                                                    slot := Slot(OpNone, SlotNone, NoReply))
                                   else s.tasks[k])
              && (if full && MembersOf(s.tasks, c) != {}
                     && (forall k | k in MembersOf(s.tasks, c) :: s'.tasks[k].status in {EndAborted, EndInvalidated, EndGroupRefund})
                  then s'.clients[c] == o.(status := ClientFailed, creatorCancelled := true)
                  else CountedAgain(s'.tasks, c, o, s'.clients[c]))
  {
    var rows := AbortRows(s.tasks, IdsToAbort(without, cancelled, full));
    AbortedRows(s.tasks, c, without, cancelled, full);
    CountsAgree(rows, c, s.clients[c]);
    assert Enabled(cfg, s, AbortCommit(c, without, cancelled, full)) <==>
           s.clients[c].status != ClientSuccess && forall k | k in MembersOf(s.tasks, c) :: s.tasks[k].status != ResultDownloaded;
    hide CountedAgain, Recalculated, AllStopped, AbortRows, IdsToAbort, Enabled, Members, MembersOf;
  }

  lemma AbortedRows(a: Tasks, c: nat, without: set<nat>, cancelled: set<nat>, full: bool)
    ensures Members(a, c) == MembersOf(a, c)
    ensures var b := AbortRows(a, IdsToAbort(without, cancelled, full));
            && b.Keys == a.Keys && Members(b, c) == MembersOf(a, c) <= b.Keys
            && (forall k | k in a ::
                  b[k] == if k in cancelled || (full && k in without)
                          then a[k].(status := EndAborted, abortReason := CreatorCancelled, cancelRequired := false,
                                     slot := Slot(OpNone, SlotNone, NoReply))
                          else a[k])
            && (AllStopped(b, c) <==>
                  MembersOf(a, c) != {} && forall k | k in MembersOf(a, c) :: b[k].status in {EndAborted, EndInvalidated, EndGroupRefund})
  {
    var b := AbortRows(a, IdsToAbort(without, cancelled, full));
    assert Members(a, c) == MembersOf(a, c);
    assert Members(b, c) == MembersOf(a, c);
    hide Members, MembersOf;
  }
}
