/** The logical phase of a client task (`taskengine/client_task_phase.go`): a loop over the members in
    whatever order they were loaded, and the order-free meaning of its answer. */
module ClientPhase {
  import opened Wrappers
  import opened Models
  import opened Config
  import opened Progression
  import opened StateMachine
  import opened ClientInvariant
  import opened Invariant
  import GroupInvariant
  import SlotInvariant

  datatype Phase = PhaseQueued | PhaseRunning | PhaseValidating | PhaseUploading | PhaseFinalizing | PhaseSuccess | PhaseFailed

  datatype PhaseInfo = PhaseInfo(phase: Phase, estimatedCompletionAt: Option<int>, errorMessage: string)

  /** A member as it is loaded: its primary key, its last update, its row. */
  datatype Member = Member(id: nat, updatedAt: int, row: InferenceTask)

  const ABORT_MESSAGE := "cancelled by client"

  function Rank(p: Phase): nat {
    match p
    case PhaseQueued => 1
    case PhaseRunning => 2
    case PhaseValidating => 3
    case PhaseUploading => 4
    case PhaseFinalizing => 5
    case PhaseSuccess => 6
    case PhaseFailed => 0
  }

  function PhaseOf(s: TaskStatus): Phase {
    match s
    case Pending => PhaseQueued
    case Created => PhaseQueued
    case Started => PhaseRunning
    case ParamsUploaded => PhaseRunning
    case ScoreReady => PhaseValidating
    case ErrorReported => PhaseValidating
    case Validated => PhaseUploading
    case EndSuccess => PhaseFinalizing
    case ResultDownloaded => PhaseSuccess
    case EndAborted => PhaseFailed
    case EndInvalidated => PhaseFailed
    case EndGroupRefund => PhaseFailed
  }

  function AbortReasonMessage(r: AbortReason): string {
    match r
    case Timeout => "timeout"
    case ModelDownloadFailed => "model_download_failed"
    case IncorrectResult => "incorrect_result"
    case TaskFeeTooLow => "task_fee_too_low"
    case GroupTimeout => "group_timeout"
    case ReasonErrorReported => "error_reported"
    case CreatorCancelled => "creator_cancelled"
    case CreatorValidationTimeout => "creator_validation_timeout"
    case ResultUploadTimeout => "result_upload_timeout"
    case NodeSlashed => "node_slashed"
    case ReasonNone => "failed"
  }

  function TaskErrorMessage(t: InferenceTask): string {
    if t.status == EndInvalidated then "incorrect_result"
    else if t.status == EndGroupRefund then "group_refund"
    else if t.abortReason != ReasonNone then AbortReasonMessage(t.abortReason)
    else if t.taskError == ParametersValidationFailed then "parameters_validation_failed"
    else "failed"
  }

  // ---- What the answer means ----

  predicate EarlierMember(a: Member, b: Member) {
    a.updatedAt < b.updatedAt || (a.updatedAt == b.updatedAt && a.id < b.id)
  }

  /** The member that decides: the most advanced phase, then the earliest update, then the lowest key. */
  predicate Leads(a: Member, b: Member) {
    var p, q := Rank(PhaseOf(a.row.status)), Rank(PhaseOf(b.row.status));
    p > q || (p == q && EarlierMember(a, b))
  }

  predicate Downloaded(m: Member) {
    m.row.status == ResultDownloaded
  }

  predicate Open(m: Member) {
    !Finished(m.row.status)
  }

  function LeadingInfo(m: Member): PhaseInfo {
    var p := PhaseOf(m.row.status);
    PhaseInfo(p, if p == PhaseRunning then m.row.exec.estimatedCompletionAt else None, "")
  }

  ghost predicate IsLeading(members: set<Member>, m: Member) {
    m in members && Open(m) && forall n | n in members && Open(n) && n != m :: Leads(m, n)
  }

  ghost predicate IsFirst(members: set<Member>, m: Member) {
    m in members && forall n | n in members && n != m :: EarlierMember(m, n)
  }

  ghost predicate IsPhase(c: ClientTask, members: set<Member>, info: PhaseInfo) {
    if c.status == ClientSuccess || exists m | m in members :: Downloaded(m) then info == PhaseInfo(PhaseSuccess, None, "")
    else if exists m | m in members :: Open(m) then exists m | m in members :: IsLeading(members, m) && info == LeadingInfo(m)
    else if c.status != ClientFailed && members == {} then info == PhaseInfo(PhaseQueued, None, "")
    else
      && info.phase == PhaseFailed && info.estimatedCompletionAt == None
      && (if c.creatorCancelled then info.errorMessage == ABORT_MESSAGE
          else if members == {} then info.errorMessage == "failed"
          else exists m | m in members :: IsFirst(members, m) && info.errorMessage == TaskErrorMessage(m.row))
  }

  predicate DistinctIds(members: set<Member>) {
    forall m, n | m in members && n in members && m != n :: m.id != n.id
  }

  lemma LeadingIsUnique(members: set<Member>, m: Member, n: Member)
    requires DistinctIds(members) && IsLeading(members, m) && IsLeading(members, n)
    ensures m == n
  {
    assert m != n ==> Leads(m, n) && Leads(n, m);
  }

  lemma FirstIsUnique(members: set<Member>, m: Member, n: Member)
    requires DistinctIds(members) && IsFirst(members, m) && IsFirst(members, n)
    ensures m == n
  {
    assert m != n ==> EarlierMember(m, n) && EarlierMember(n, m);
  }

  /** The meaning leaves no choice: one client task and one set of members have one phase. */
  lemma PhaseIsDetermined(c: ClientTask, members: set<Member>, a: PhaseInfo, b: PhaseInfo)
    requires DistinctIds(members) && IsPhase(c, members, a) && IsPhase(c, members, b)
    ensures a == b
  {
    hide TaskErrorMessage, LeadingInfo, IsLeading, IsFirst, DistinctIds, Open, Downloaded;
    if c.status == ClientSuccess || exists m | m in members :: Downloaded(m) {
    } else if exists m | m in members :: Open(m) {
      var m :| m in members && IsLeading(members, m) && a == LeadingInfo(m);
      var n :| n in members && IsLeading(members, n) && b == LeadingInfo(n);
      LeadingIsUnique(members, m, n);
    } else if c.creatorCancelled || members == {} {
    } else {
      var m :| m in members && IsFirst(members, m) && a.errorMessage == TaskErrorMessage(m.row);
      var n :| n in members && IsFirst(members, n) && b.errorMessage == TaskErrorMessage(n.row);
      FirstIsUnique(members, m, n);
    }
  }

  // ---- The answer in terms of the members' statuses ----

  ghost predicate Has(members: set<Member>, statuses: set<TaskStatus>) {
    exists m | m in members :: m.row.status in statuses
  }

  /** The phase is that of the most advanced member that has not failed; a client task has failed once every
      member has, and is queued before it has any. */
  lemma PhaseMeans(c: ClientTask, members: set<Member>, info: PhaseInfo)
    requires IsPhase(c, members, info)
    ensures var success := c.status == ClientSuccess || Has(members, {ResultDownloaded});
            && (info.phase == PhaseSuccess <==> success)
            && (info.phase == PhaseFinalizing <==> !success && Has(members, {EndSuccess}))
            && (info.phase == PhaseUploading <==> !success && Has(members, {Validated}) && !Has(members, {EndSuccess}))
            && (info.phase == PhaseValidating <==>
                  !success && Has(members, {ScoreReady, ErrorReported}) && !Has(members, {EndSuccess, Validated}))
            && (info.phase == PhaseRunning <==>
                  !success && Has(members, {Started, ParamsUploaded}) && !Has(members, {EndSuccess, Validated, ScoreReady, ErrorReported}))
            && (info.phase == PhaseFailed <==>
                  && !success && (members != {} || c.status == ClientFailed)
                  && forall m | m in members :: m.row.status in {EndAborted, EndInvalidated, EndGroupRefund})
  {
    hide Leads, IsFirst, TaskErrorMessage;
    assert Has(members, {ResultDownloaded}) <==> exists m | m in members :: Downloaded(m);
    if c.status != ClientSuccess && !Has(members, {ResultDownloaded}) {
      if exists m | m in members :: Open(m) {
        hide Has;
        var m :| m in members && IsLeading(members, m) && info == LeadingInfo(m);
        assert Open(m) && m.row.status !in {EndAborted, EndInvalidated, EndGroupRefund};
        assert forall n | n in members && Open(n) && n != m :: Leads(m, n);
        hide IsPhase, IsLeading, Open, Downloaded;
        LeadingPhase(members, m);
      } else {
        NoneOpen(members);
        hide Has, Open, Downloaded, IsLeading;
      }
    }
  }

  lemma NoneOpen(members: set<Member>)
    requires forall m | m in members :: !Open(m)
    requires !Has(members, {ResultDownloaded})
    ensures forall m | m in members :: m.row.status in {EndAborted, EndInvalidated, EndGroupRefund}
    ensures !Has(members, {EndSuccess}) && !Has(members, {Validated})
    ensures !Has(members, {ScoreReady, ErrorReported}) && !Has(members, {Started, ParamsUploaded})
  {
    forall m | m in members
      ensures m.row.status in {EndAborted, EndInvalidated, EndGroupRefund}
    {
      assert !Open(m);
    }
  }

  /** What one member says about the statuses of the others when it leads. */
  lemma LeadingPhase(members: set<Member>, m: Member)
    requires m in members && Open(m) && forall n | n in members && Open(n) && n != m :: Leads(m, n)
    requires !Has(members, {ResultDownloaded})
    ensures var phase := PhaseOf(m.row.status);
            && (phase == PhaseFinalizing <==> Has(members, {EndSuccess}))
            && (phase == PhaseUploading <==> Has(members, {Validated}) && !Has(members, {EndSuccess}))
            && (phase == PhaseValidating <==> Has(members, {ScoreReady, ErrorReported}) && !Has(members, {EndSuccess, Validated}))
            && (phase == PhaseRunning <==>
                  Has(members, {Started, ParamsUploaded}) && !Has(members, {EndSuccess, Validated, ScoreReady, ErrorReported}))
            && phase != PhaseSuccess && phase != PhaseFailed
  {
    var phase := PhaseOf(m.row.status);
    assert m.row.status != ResultDownloaded;
    forall n | n in members && Open(n)
      ensures Rank(PhaseOf(n.row.status)) <= Rank(phase)
    {
    }
    hide Leads;
  }

  /** The estimate belongs to the running member that was updated first. */
  lemma EstimateMeans(c: ClientTask, members: set<Member>, info: PhaseInfo)
    requires IsPhase(c, members, info)
    ensures info.phase != PhaseRunning ==> info.estimatedCompletionAt == None
    ensures info.phase == PhaseRunning ==>
              exists m :: && m in members && m.row.status in {Started, ParamsUploaded}
                          && info.estimatedCompletionAt == m.row.exec.estimatedCompletionAt
                          && forall n | n in members && n != m && n.row.status in {Started, ParamsUploaded} ::
                               m.updatedAt < n.updatedAt || (m.updatedAt == n.updatedAt && m.id < n.id)
  {
    hide TaskErrorMessage, IsFirst;
    if info.phase == PhaseRunning {
      var m :| m in members && IsLeading(members, m) && info == LeadingInfo(m);
      hide IsPhase;
      assert m.row.status in {Started, ParamsUploaded};
      forall n | n in members && n != m && n.row.status in {Started, ParamsUploaded}
        ensures m.updatedAt < n.updatedAt || (m.updatedAt == n.updatedAt && m.id < n.id)
      {
        assert Open(n) && Leads(m, n);
      }
    }
  }

  const REASONS: map<AbortReason, string> := map[
    Timeout := "timeout", ModelDownloadFailed := "model_download_failed", IncorrectResult := "incorrect_result",
    TaskFeeTooLow := "task_fee_too_low", GroupTimeout := "group_timeout", ReasonErrorReported := "error_reported",
    CreatorCancelled := "creator_cancelled", CreatorValidationTimeout := "creator_validation_timeout",
    ResultUploadTimeout := "result_upload_timeout", NodeSlashed := "node_slashed"]

  /** Only a failure has a message: the creator's cancellation, or else that of the member that was updated
      first, by its status, its abort reason and its error, in this order. */
  lemma MessageMeans(c: ClientTask, members: set<Member>, info: PhaseInfo)
    requires IsPhase(c, members, info)
    ensures info.phase != PhaseFailed ==> info.errorMessage == ""
    ensures info.phase == PhaseFailed && c.creatorCancelled ==> info.errorMessage == "cancelled by client"
    ensures info.phase == PhaseFailed && !c.creatorCancelled && members == {} ==> info.errorMessage == "failed"
    ensures info.phase == PhaseFailed && !c.creatorCancelled && members != {} ==>
              exists m :: && m in members
                          && (forall n | n in members && n != m :: m.updatedAt < n.updatedAt || (m.updatedAt == n.updatedAt && m.id < n.id))
                          && info.errorMessage ==
                             if m.row.status == EndInvalidated then "incorrect_result"
                             else if m.row.status == EndGroupRefund then "group_refund"
                             else if m.row.abortReason in REASONS then REASONS[m.row.abortReason]
                             else if m.row.taskError == ParametersValidationFailed then "parameters_validation_failed" else "failed"
  {
    hide TaskErrorMessage, Leads, EarlierMember, REASONS;
    if info.phase == PhaseFailed && !c.creatorCancelled && members != {} {
      FailedIsClosed(c, members, info);
      hide IsLeading;
      var m :| m in members && IsFirst(members, m) && info.errorMessage == TaskErrorMessage(m.row);
      hide IsPhase;
      MessageTable(m.row);
      FirstIsEarliest(members, m);
    }
  }

  lemma FailedIsClosed(c: ClientTask, members: set<Member>, info: PhaseInfo)
    requires IsPhase(c, members, info) && info.phase == PhaseFailed
    ensures c.status != ClientSuccess && forall m | m in members :: !Open(m) && !Downloaded(m)
  {
    hide Leads, IsFirst, TaskErrorMessage;
  }

  lemma FirstIsEarliest(members: set<Member>, m: Member)
    requires IsFirst(members, m)
    ensures forall n | n in members && n != m :: m.updatedAt < n.updatedAt || (m.updatedAt == n.updatedAt && m.id < n.id)
  {
    assert forall n | n in members && n != m :: EarlierMember(m, n);
  }

  lemma MessageTable(t: InferenceTask)
    ensures TaskErrorMessage(t) ==
            if t.status == EndInvalidated then "incorrect_result"
            else if t.status == EndGroupRefund then "group_refund"
            else if t.abortReason in REASONS then REASONS[t.abortReason]
            else if t.taskError == ParametersValidationFailed then "parameters_validation_failed" else "failed"
  {
  }

  // ---- The loop ----

  function Elements(list: seq<Member>): set<Member> {
    set m | m in list
  }

  /** The first pass: the first downloaded member, the unfinished ones in order, the first failed one. */
  method Sift(list: seq<Member>) returns (downloaded: Option<Member>, unfinished: seq<Member>, failed: Option<Member>)
    requires DistinctIds(Elements(list))
    ensures downloaded.Some? <==> exists m | m in list :: Downloaded(m)
    ensures forall m :: m in unfinished <==> m in list && Open(m)
    ensures failed.None? ==> forall m | m in list :: Downloaded(m) || Open(m)
    ensures failed.Some? ==>
              && failed.value in list && !Downloaded(failed.value) && !Open(failed.value)
              && forall n | n in list && !Downloaded(n) && !Open(n) && n != failed.value :: EarlierMember(failed.value, n)
  {
    downloaded, unfinished, failed := None, [], None;
    for i := 0 to |list|
      invariant downloaded.Some? <==> exists m | m in list[..i] :: Downloaded(m)
      invariant forall m :: m in unfinished <==> m in list[..i] && Open(m)
      invariant failed.None? ==> forall m | m in list[..i] :: Downloaded(m) || Open(m)
      invariant failed.Some? ==>
                  && failed.value in list[..i] && !Downloaded(failed.value) && !Open(failed.value)
                  && forall n | n in list[..i] && !Downloaded(n) && !Open(n) && n != failed.value :: EarlierMember(failed.value, n)
    {
      var m := list[i];
      assert list[..i + 1] == list[..i] + [m];
      assert m in Elements(list) && (failed.Some? ==> failed.value in Elements(list));
      if Downloaded(m) {
        downloaded := Some(if downloaded.None? || EarlierMember(m, downloaded.value) then m else downloaded.value);
      } else if Open(m) {
        unfinished := unfinished + [m];
      } else if failed.None? || EarlierMember(m, failed.value) {
        failed := Some(m);
      }
    }
    assert list[..|list|] == list;
  }

  method FindLeading(unfinished: seq<Member>) returns (leading: Member)
    requires unfinished != [] && DistinctIds(Elements(unfinished)) && forall m | m in unfinished :: Open(m)
    ensures leading in unfinished && forall n | n in unfinished && n != leading :: Leads(leading, n)
  {
    leading := unfinished[0];
    for i := 1 to |unfinished|
      invariant leading in unfinished[..i] && forall n | n in unfinished[..i] && n != leading :: Leads(leading, n)
    {
      var m := unfinished[i];
      assert unfinished[..i + 1] == unfinished[..i] + [m];
      assert m in Elements(unfinished) && leading in Elements(unfinished);
      var phase, leadingPhase := PhaseOf(m.row.status), PhaseOf(leading.row.status);
      if Rank(phase) > Rank(leadingPhase) || (phase == leadingPhase && EarlierMember(m, leading)) {
        leading := m;
      }
    }
    assert unfinished[..|unfinished|] == unfinished;
  }

  /** The answer has the order-free meaning, so it does not depend on the order of the members. */
  method ComputeClientTaskPhase(c: ClientTask, list: seq<Member>) returns (info: PhaseInfo)
    requires DistinctIds(Elements(list))
    ensures IsPhase(c, Elements(list), info)
  {
    var members := Elements(list);
    if c.status == ClientSuccess { return PhaseInfo(PhaseSuccess, None, ""); }
    var downloaded, unfinished, failed := Sift(list);
    if downloaded.Some? {
      assert exists m | m in members :: Downloaded(m);
      return PhaseInfo(PhaseSuccess, None, "");
    }
    assert forall m | m in members :: !Downloaded(m);
    if |unfinished| == 0 {
      assert forall m | m in members :: !Open(m);
      if c.status == ClientFailed || failed.Some? || |list| > 0 {
        info := PhaseInfo(PhaseFailed, None, "failed");
        if |list| > 0 {
          assert list[0] in members;
          assert IsFirst(members, failed.value);
        }
        if c.creatorCancelled {
          info := info.(errorMessage := ABORT_MESSAGE);
        } else if failed.Some? {
          info := info.(errorMessage := TaskErrorMessage(failed.value.row));
        }
        return;
      }
      return PhaseInfo(PhaseQueued, None, "");
    }
    assert unfinished[0] in members && Open(unfinished[0]);
    var leading := FindLeading(unfinished);
    assert IsLeading(members, leading);
    info := LeadingInfo(leading);
  }

  // ---- Reachable states ----

  /** The members of a client task as the database would return them, whatever their update times. */
  ghost predicate Loads(tasks: Tasks, c: nat, members: set<Member>) {
    && (forall m | m in members :: m.id in Members(tasks, c) && m.row == tasks[m.id])
    && (forall k | k in Members(tasks, c) :: exists m | m in members :: m.id == k)
    && DistinctIds(members)
  }

  /** In every reachable state a running client task shows one of the five phases in progress, and
      one that succeeded shows success; the phase never disagrees with the recorded status there. */
  lemma RunningClientTaskIsInProgress(cfg: Config, steps: seq<Step>, c: nat, members: set<Member>, info: PhaseInfo)
    requires cfg.Valid()
    requires var s := Run(cfg, INITIAL, steps);
             c in s.clients && EngineType(s.clients[c].taskType) && Loads(s.tasks, c, members) && IsPhase(s.clients[c], members, info)
    ensures var record := Run(cfg, INITIAL, steps).clients[c];
            && (record.status == ClientRunning ==> 1 <= Rank(info.phase) <= 5)
            && (record.status == ClientSuccess ==> info.phase == PhaseSuccess)
            && (record.status == ClientRunning && !record.expanded ==> info == PhaseInfo(PhaseQueued, None, ""))
  {
    EveryRunKeepsInv(cfg, steps);
    hide Run;
    OrderlyPhase(cfg, Run(cfg, INITIAL, steps), c, members, info);
  }

  lemma OrderlyPhase(cfg: Config, s: State, c: nat, members: set<Member>, info: PhaseInfo)
    requires Inv(cfg, s) && c in s.clients && EngineType(s.clients[c].taskType)
    requires Loads(s.tasks, c, members) && IsPhase(s.clients[c], members, info)
    ensures var record := s.clients[c];
            && (record.status == ClientRunning ==> 1 <= Rank(info.phase) <= 5)
            && (record.status == ClientSuccess ==> info.phase == PhaseSuccess)
            && (record.status == ClientRunning && !record.expanded ==> info == PhaseInfo(PhaseQueued, None, ""))
  {
    hide SlotInvariant.RowsOk, SlotInvariant.WorkersOk, SlotInvariant.PoolsOk, GroupInvariant.GroupsOk, ClientsOk, Loads;
    hide LeadingInfo, IsLeading, IsFirst, TaskErrorMessage;
    var record := s.clients[c];
    if record.status == ClientRunning {
      if record.expanded {
        NothingDownloadedYet(s, c, members);
        InProgress(record, members, info);
      } else {
        NoMembersYet(s, c, members);
      }
    }
  }

  lemma InProgress(c: ClientTask, members: set<Member>, info: PhaseInfo)
    requires c.status == ClientRunning && IsPhase(c, members, info)
    requires (forall m | m in members :: !Downloaded(m)) && exists m | m in members :: Open(m)
    ensures 1 <= Rank(info.phase) <= 5
  {
    var m :| m in members && IsLeading(members, m) && info == LeadingInfo(m);
    hide IsPhase, Leads;
    assert Open(m) && !Downloaded(m);
  }

  lemma NothingDownloadedYet(s: State, c: nat, members: set<Member>)
    requires ClientsOk(s.clients, s.tasks) && c in s.clients && EngineType(s.clients[c].taskType)
    requires s.clients[c].status == ClientRunning && s.clients[c].expanded && Loads(s.tasks, c, members)
    ensures (forall m | m in members :: !Downloaded(m)) && exists m | m in members :: Open(m)
  {
    assert ClientOk(s.tasks, c, s.clients[c]);
    var k :| k in Members(s.tasks, c) && !Finished(s.tasks[k].status);
    var m :| m in members && m.id == k;
    assert Open(m);
  }

  lemma NoMembersYet(s: State, c: nat, members: set<Member>)
    requires ClientsOk(s.clients, s.tasks) && c in s.clients && !s.clients[c].expanded && Loads(s.tasks, c, members)
    ensures members == {}
  {
    if m :| m in members {
      UnexpandedHasNoRows(s.clients, s.tasks, c, m.id);
    }
  }
}
