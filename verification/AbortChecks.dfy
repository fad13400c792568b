/** The checks of a creator abort (`taskengine/abort.go`): which members block it, what the preflight
    answer must say, and how the cancellation outcomes are classified. */
module AbortChecks {
  import opened Wrappers
  import opened Models
  import opened Progression

  datatype AbortError = NotFound | NotCancellable | Temporary

  // ---- Local check ----

  /** A member that has started on Relay, or delivered its result, blocks the abort. */
  predicate Blocks(t: InferenceTask) {
    t.status == ResultDownloaded || (!Finished(t.status) && t.status != Pending && t.status != Created)
  }

  predicate Cancellable(tasks: Tasks, rows: set<nat>)
    requires rows <= tasks.Keys
  {
    forall k | k in rows :: !Blocks(tasks[k])
  }

  predicate Grouped(tasks: Tasks, done: set<nat>, groups: map<string, set<nat>>)
    requires done <= tasks.Keys
  {
    && (forall k | k in done :: tasks[k].spec.taskId in groups && k in groups[tasks[k].spec.taskId])
    && (forall g | g in groups :: groups[g] <= done)
  }

  method GroupMembers(tasks: Tasks, rows: set<nat>) returns (groups: map<string, set<nat>>)
    requires rows <= tasks.Keys
    ensures Grouped(tasks, rows, groups)
  {
    groups := map[];
    var pending := rows;
    while pending != {}
      invariant pending <= rows && Grouped(tasks, rows - pending, groups)
    {
      var k :| k in pending;
      var g := tasks[k].spec.taskId;
      groups := groups[g := (if g in groups then groups[g] else {}) + {k}];
      pending := pending - {k};
    }
    assert rows - {} == rows;
  }

  method NoneBlocks(tasks: Tasks, rows: set<nat>) returns (ok: bool)
    requires rows <= tasks.Keys
    ensures ok <==> Cancellable(tasks, rows)
  {
    var pending := rows;
    while pending != {}
      invariant pending <= rows && Cancellable(tasks, rows - pending)
    {
      var k :| k in pending;
      if Blocks(tasks[k]) { return false; }
      pending := pending - {k};
    }
    assert rows - {} == rows;
    ok := true;
  }

  /** Group by group, the verdict is that no member at all blocks. */
  method AllGroupsCancellable(tasks: Tasks, rows: set<nat>) returns (ok: bool)
    requires rows <= tasks.Keys
    ensures ok <==> Cancellable(tasks, rows)
    ensures ok <==> forall k | k in rows :: tasks[k].status in {Pending, Created, EndAborted, EndInvalidated, EndGroupRefund}
  {
    var groups := GroupMembers(tasks, rows);
    var pending := groups.Keys;
    while pending != {}
      invariant pending <= groups.Keys
      invariant forall g | g in groups.Keys - pending :: Cancellable(tasks, groups[g])
    {
      var g :| g in pending;
      var cancellable := NoneBlocks(tasks, groups[g]);
      if !cancellable {
        assert groups[g] <= rows;
        return false;
      }
      pending := pending - {g};
    }
    forall k | k in rows
      ensures !Blocks(tasks[k])
    {
      var g := tasks[k].spec.taskId;
      assert g in groups.Keys - pending && Cancellable(tasks, groups[g]);
    }
    ok := true;
  }

  // ---- Preflight ----

  datatype Reported = Reported(commitment: string, item: StatusItem)

  /** The item that counts for a commitment is the last one reported. */
  function Latest(items: seq<Reported>): map<string, StatusItem> {
    if items == [] then map[]
    else var last := |items| - 1; Latest(items[..last])[items[last].commitment := items[last].item]
  }

  predicate StillCancellable(item: StatusItem) {
    && item.found
    && (item.status == ChainQueued || (item.status == ChainEndAborted && item.abortReason == CreatorCancelled))
  }

  predicate PreflightPasses(commitments: seq<string>, items: seq<Reported>) {
    forall i | 0 <= i < |commitments| :: commitments[i] in Latest(items) && StillCancellable(Latest(items)[commitments[i]])
  }

  /** The last item that was reported for the commitment. */
  predicate LastReport(items: seq<Reported>, n: int, c: string) {
    0 <= n < |items| && items[n].commitment == c && forall m | n < m < |items| :: items[m].commitment != c
  }

  lemma {:induction false} LatestIsLast(items: seq<Reported>, c: string)
    ensures c in Latest(items) <==> exists n :: LastReport(items, n, c)
    ensures forall n | LastReport(items, n, c) :: c in Latest(items) && Latest(items)[c] == items[n].item
  {
    if items != [] {
      var last := |items| - 1;
      LatestIsLast(items[..last], c);
      if items[last].commitment == c {
        assert LastReport(items, last, c);
      } else {
        assert forall n :: LastReport(items, n, c) <==> LastReport(items[..last], n, c);
      }
    }
  }

  /** The last that Relay said is that it knows the task, and that the task is still queued or already
      cancelled by its creator. */
  ghost predicate StillWithCreator(items: seq<Reported>, c: string) {
    exists n :: LastReport(items, n, c) && items[n].item.found
                && (items[n].item.status == ChainQueued
                    || (items[n].item.status == ChainEndAborted && items[n].item.abortReason == CreatorCancelled))
  }

  /** The preflight passes exactly when Relay says so of every commitment. */
  lemma PreflightMeans(commitments: seq<string>, items: seq<Reported>)
    ensures PreflightPasses(commitments, items) <==> forall c | c in commitments :: StillWithCreator(items, c)
  {
    forall c
      ensures c in Latest(items) && StillCancellable(Latest(items)[c]) <==> StillWithCreator(items, c)
    {
      LatestIsLast(items, c);
    }
    hide Latest, StillWithCreator, StillCancellable;
    assert forall i | 0 <= i < |commitments| :: commitments[i] in commitments;
  }

  method ValidateAbortPreflight(commitments: seq<string>, items: seq<Reported>) returns (ok: bool)
    ensures ok <==> PreflightPasses(commitments, items)
  {
    var byCommitment: map<string, StatusItem> := map[];
    for i := 0 to |items|
      invariant byCommitment == Latest(items[..i])
    {
      assert items[..i + 1][..i] == items[..i];
      byCommitment := byCommitment[items[i].commitment := items[i].item];
    }
    assert items[..|items|] == items;
    for i := 0 to |commitments|
      invariant PreflightPasses(commitments[..i], items)
    {
      var c := commitments[i];
      if c !in byCommitment || !byCommitment[c].found { return false; }
      var item := byCommitment[c];
      if item.status == ChainQueued { continue; }
      if item.status == ChainEndAborted && item.abortReason == CreatorCancelled { continue; }
      return false;
    }
    ok := true;
  }

  // ---- Classification ----

  /** A mutation result names one commitment, or several. */
  datatype MutationResult = MutationResult(commitment: string, commitments: seq<string>, outcome: Outcome)

  function Named(r: MutationResult): set<string> {
    if r.commitment != "" then {r.commitment} else set c | c in r.commitments
  }

  function OutcomeOf(results: seq<MutationResult>): map<string, Outcome> {
    if results == [] then map[]
    else
      var last := |results| - 1;
      var r := results[last];
      OutcomeOf(results[..last]) + map c | c in Named(r) :: r.outcome
  }

  predicate SaysCancelled(results: seq<MutationResult>, c: string) {
    c in OutcomeOf(results) && (OutcomeOf(results)[c] == OutcomeCancelled || OutcomeOf(results)[c] == OutcomeAlreadyCancelled)
  }

  predicate SaysRefused(results: seq<MutationResult>, c: string) {
    c in OutcomeOf(results)
    && (OutcomeOf(results)[c] == OutcomeNotCancellable || OutcomeOf(results)[c] == OutcomeNotFound
        || OutcomeOf(results)[c] == OutcomePermanentError)
  }

  /** No outcome for the commitment, or a temporary one. */
  predicate SaysNothing(results: seq<MutationResult>, c: string) {
    !SaysCancelled(results, c) && !SaysRefused(results, c)
  }

  /** The last result that names the commitment. */
  predicate LastResult(results: seq<MutationResult>, n: int, c: string) {
    0 <= n < |results| && Names(results[n], c) && forall m | n < m < |results| :: !Names(results[m], c)
  }

  /** A result speaks for its one commitment; without one, for those it lists. */
  predicate Names(r: MutationResult, c: string) {
    r.commitment == c != "" || (r.commitment == "" && c in r.commitments)
  }

  lemma NamedMeans(r: MutationResult, c: string)
    ensures c in Named(r) <==> Names(r, c)
  {
  }

  lemma {:induction false} OutcomeIsLast(results: seq<MutationResult>, c: string)
    ensures c in OutcomeOf(results) <==> exists n :: LastResult(results, n, c)
    ensures forall n | LastResult(results, n, c) :: c in OutcomeOf(results) && OutcomeOf(results)[c] == results[n].outcome
  {
    if results != [] {
      var last := |results| - 1;
      OutcomeIsLast(results[..last], c);
      NamedMeans(results[last], c);
      hide Names, Named;
      assert forall n | 0 <= n < last :: results[n] == results[..last][n];
      if Names(results[last], c) {
        assert LastResult(results, last, c);
      } else {
        assert forall n :: LastResult(results, n, c) <==> LastResult(results[..last], n, c);
      }
    }
  }

  /** Relay says a task is cancelled, or refuses, in the last result that names it; a temporary error, an
      outcome of another kind or no result is neither. */
  lemma SaysExactly(results: seq<MutationResult>, c: string)
    ensures SaysCancelled(results, c) <==>
            exists n :: LastResult(results, n, c) && results[n].outcome in {OutcomeCancelled, OutcomeAlreadyCancelled}
    ensures SaysRefused(results, c) <==>
            exists n :: LastResult(results, n, c) && results[n].outcome in {OutcomeNotCancellable, OutcomeNotFound, OutcomePermanentError}
  {
    OutcomeIsLast(results, c);
    hide LastResult, OutcomeOf;
  }

  method SetAll(m: map<string, Outcome>, keys: seq<string>, outcome: Outcome) returns (r: map<string, Outcome>)
    ensures r == m + map c | c in keys :: outcome
  {
    r := m;
    for i := 0 to |keys|
      invariant r.Keys == m.Keys + set c | c in keys[..i]
      invariant forall c | c in r :: r[c] == if c in keys[..i] then outcome else m[c]
    {
      r := r[keys[i] := outcome];
    }
    assert keys[..|keys|] == keys;
  }

  method IndexOutcomes(results: seq<MutationResult>) returns (byCommitment: map<string, Outcome>)
    ensures byCommitment == OutcomeOf(results)
  {
    byCommitment := map[];
    for i := 0 to |results|
      invariant byCommitment == OutcomeOf(results[..i])
    {
      assert results[..i + 1][..i] == results[..i];
      var r := results[i];
      if r.commitment != "" {
        byCommitment := byCommitment[r.commitment := r.outcome];
      } else {
        byCommitment := SetAll(byCommitment, r.commitments, r.outcome);
      }
    }
    assert results[..|results|] == results;
  }

  function CancelledIds(commitments: seq<string>, taskIds: map<string, nat>, results: seq<MutationResult>): set<nat> {
    set c | c in commitments && c in taskIds && SaysCancelled(results, c) :: taskIds[c]
  }

  lemma NothingCancelled(taskIds: map<string, nat>, results: seq<MutationResult>)
    ensures CancelledIds([], taskIds, results) == {}
  {
  }

  lemma CancelledNext(commitments: seq<string>, i: nat, taskIds: map<string, nat>, results: seq<MutationResult>)
    requires i < |commitments|
    ensures var c := commitments[i];
            CancelledIds(commitments[..i + 1], taskIds, results) ==
            CancelledIds(commitments[..i], taskIds, results) + if c in taskIds && SaysCancelled(results, c) then {taskIds[c]} else {}
  {
    assert commitments[..i + 1] == commitments[..i] + [commitments[i]];
  }

  /** The rows to abort are exactly those whose commitment Relay says is cancelled; there is no error
      exactly when Relay says so of every commitment; a missing or temporary outcome outranks a refusal. */
  method ClassifyAbortResults(commitments: seq<string>, taskIds: map<string, nat>, results: seq<MutationResult>)
    returns (cancelled: set<nat>, error: Option<AbortError>)
    ensures cancelled == CancelledIds(commitments, taskIds, results)
    ensures error.None? <==> forall c | c in commitments :: SaysCancelled(results, c)
    ensures error == Some(NotCancellable) <==>
              && (exists c | c in commitments :: SaysRefused(results, c))
              && (forall c | c in commitments :: SaysCancelled(results, c) || SaysRefused(results, c))
    ensures error.Some? ==> error.value != NotFound
  {
    hide CancelledIds, OutcomeOf;
    var byCommitment := IndexOutcomes(results);
    assert CancelledIds(commitments[..0], taskIds, results) == {} by { NothingCancelled(taskIds, results); }
    cancelled := {};
    var sawNotCancellable, sawTemporary := false, false;
    for i := 0 to |commitments|
      invariant cancelled == CancelledIds(commitments[..i], taskIds, results)
      invariant sawNotCancellable <==> exists j | 0 <= j < i :: SaysRefused(results, commitments[j])
      invariant sawTemporary <==> exists j | 0 <= j < i :: SaysNothing(results, commitments[j])
    {
      var c := commitments[i];
      CancelledNext(commitments, i, taskIds, results);
      if c !in byCommitment {
        sawTemporary := true;
        continue;
      }
      match byCommitment[c] {
        case OutcomeCancelled => if c in taskIds { cancelled := cancelled + {taskIds[c]}; }
        case OutcomeAlreadyCancelled => if c in taskIds { cancelled := cancelled + {taskIds[c]}; }
        case OutcomeNotCancellable => sawNotCancellable := true;
        case OutcomeNotFound => sawNotCancellable := true;
        case OutcomePermanentError => sawNotCancellable := true;
        case _ => sawTemporary := true;
      }
    }
    assert commitments[..|commitments|] == commitments;
    assert (forall c | c in commitments :: SaysCancelled(results, c) || SaysRefused(results, c)) <==> !sawTemporary;
    assert (exists c | c in commitments :: SaysRefused(results, c)) <==> sawNotCancellable;
    error := if sawTemporary then Some(Temporary) else if sawNotCancellable then Some(NotCancellable) else None;
  }

  // ---- What is sent ----

  predicate Unfinished(tasks: Tasks, k: nat) {
    k in tasks && !Finished(tasks[k].status)
  }

  /** The commitments to cancel, and the row each belongs to. */
  ghost predicate Collected(tasks: Tasks, rows: set<nat>, without: set<nat>, commitments: seq<string>, taskIds: map<string, nat>)
    requires rows <= tasks.Keys
  {
    && without == (set k | k in rows && Unfinished(tasks, k) && tasks[k].commitment == "")
    && taskIds.Keys == (set c | c in commitments)
    && (forall k | k in rows && Unfinished(tasks, k) && tasks[k].commitment != "" :: tasks[k].commitment in taskIds)
    && (forall c | c in taskIds :: taskIds[c] in rows && Unfinished(tasks, taskIds[c]) && tasks[taskIds[c]].commitment == c != "")
  }

  method CollectCommitments(tasks: Tasks, rows: set<nat>)
    returns (without: set<nat>, commitments: seq<string>, taskIds: map<string, nat>)
    requires rows <= tasks.Keys
    ensures Collected(tasks, rows, without, commitments, taskIds)
  {
    without, commitments, taskIds := {}, [], map[];
    var pending := rows;
    while pending != {}
      invariant pending <= rows && Collected(tasks, rows - pending, without, commitments, taskIds)
    {
      var k :| k in pending;
      var t := tasks[k];
      assert rows - (pending - {k}) == (rows - pending) + {k};
      if !Finished(t.status) {
        if t.commitment == "" {
          without := without + {k};
        } else {
          commitments := commitments + [t.commitment];
          taskIds := taskIds[t.commitment := k];
        }
      }
      pending := pending - {k};
    }
    assert rows - {} == rows;
  }

  /** With distinct commitments, the rows to abort are the unfinished members Relay says are cancelled. */
  lemma CancelledRows(tasks: Tasks, rows: set<nat>, without: set<nat>, commitments: seq<string>, taskIds: map<string, nat>,
                      results: seq<MutationResult>)
    requires rows <= tasks.Keys && Collected(tasks, rows, without, commitments, taskIds)
    requires forall j, k | j in tasks && k in tasks && j != k :: tasks[j].commitment != tasks[k].commitment
    ensures CancelledIds(commitments, taskIds, results) ==
            set k | k in rows && Unfinished(tasks, k) && tasks[k].commitment != "" && SaysCancelled(results, tasks[k].commitment)
  {
    hide SaysCancelled;
    forall k | k in rows && Unfinished(tasks, k) && tasks[k].commitment != "" && SaysCancelled(results, tasks[k].commitment)
      ensures k in CancelledIds(commitments, taskIds, results)
    {
      assert taskIds[tasks[k].commitment] == k;
    }
  }

  method StoppedWithoutSuccess(tasks: Tasks, rows: set<nat>) returns (stopped: bool)
    requires rows <= tasks.Keys
    ensures stopped <==> rows != {} && AllFinished(tasks, rows) && !AnyDownloaded(tasks, rows)
  {
    var pending := rows;
    while pending != {}
      invariant pending <= rows
      invariant forall k | k in rows - pending :: Finished(tasks[k].status) && tasks[k].status != ResultDownloaded
    {
      var k :| k in pending;
      if tasks[k].status == ResultDownloaded || !Finished(tasks[k].status) { return false; }
      pending := pending - {k};
    }
    assert rows - {} == rows;
    stopped := rows != {};
  }

  // ---- The whole operation ----

  /** What a creator abort found when it loaded the client task and then its members. */
  predicate AlreadyCancelled(c: ClientTask) {
    c.status == ClientFailed && c.creatorCancelled
  }

  predicate LocallyRefused(c: ClientTask, tasks: Tasks, id: nat) {
    || c.status == ClientSuccess
    || AnyDownloaded(tasks, Members(tasks, id))
    || (c.expanded && !Cancellable(tasks, Members(tasks, id)))
  }

  /** Refused without asking Relay: the client task has succeeded, a member has its result, or a member has
      gone further than waiting for a node. */
  lemma RefusedExactly(c: ClientTask, tasks: Tasks, id: nat)
    ensures LocallyRefused(c, tasks, id) <==>
            || c.status == ClientSuccess
            || exists k | k in tasks && tasks[k].spec.clientTaskId == id && tasks[k].spec.taskType in {SD, LLM} ::
                 || tasks[k].status == ResultDownloaded
                 || (c.expanded && tasks[k].status in {Started, ParamsUploaded, ScoreReady, ErrorReported, Validated, EndSuccess})
  {
    forall k
      ensures k in Members(tasks, id) <==> k in tasks && tasks[k].spec.clientTaskId == id && tasks[k].spec.taskType in {SD, LLM}
    {
    }
    assert AnyDownloaded(tasks, Members(tasks, id)) <==> exists k | k in Members(tasks, id) :: tasks[k].status == ResultDownloaded;
    assert !Cancellable(tasks, Members(tasks, id)) <==> exists k | k in Members(tasks, id) :: Blocks(tasks[k]);
    hide Members;
  }

  /** The unfinished members Relay says are cancelled. */
  function CancelledMembers(tasks: Tasks, id: nat, results: seq<MutationResult>): set<nat> {
    set k | k in Members(tasks, id) && Unfinished(tasks, k) && SaysCancelled(results, tasks[k].commitment)
  }

  function UnfinishedMembers(tasks: Tasks, id: nat): set<nat> {
    set k | k in Members(tasks, id) && Unfinished(tasks, k)
  }

  /** The members an abort names to Relay are those with work left, a success that waits for its download
      among them; and those it aborts are the ones Relay's last word on which is that they are cancelled. */
  lemma AbortsExactly(tasks: Tasks, id: nat, results: seq<MutationResult>, k: nat)
    requires k in tasks
    ensures k in UnfinishedMembers(tasks, id) <==>
            && tasks[k].spec.clientTaskId == id && tasks[k].spec.taskType in {SD, LLM}
            && tasks[k].status !in {EndAborted, EndInvalidated, EndGroupRefund, ResultDownloaded}
    ensures k in CancelledMembers(tasks, id, results) <==>
            && k in UnfinishedMembers(tasks, id)
            && exists n :: LastResult(results, n, tasks[k].commitment) && results[n].outcome in {OutcomeCancelled, OutcomeAlreadyCancelled}
  {
    SaysExactly(results, tasks[k].commitment);
    hide LastResult, SaysCancelled;
  }

  /** Every unfinished member's commitment, and nothing else. */
  ghost predicate NamesUnfinished(tasks: Tasks, id: nat, sent: seq<string>) {
    && (forall k | k in UnfinishedMembers(tasks, id) :: tasks[k].commitment in sent)
    && (forall c | c in sent :: exists k | k in UnfinishedMembers(tasks, id) :: tasks[k].commitment == c)
  }

  /** Relay says of every unfinished member that it is cancelled. */
  predicate AllCancelled(tasks: Tasks, id: nat, results: seq<MutationResult>) {
    CancelledMembers(tasks, id, results) == UnfinishedMembers(tasks, id)
  }

  ghost predicate NamedRows(tasks: Tasks) {
    && (forall k | k in tasks :: tasks[k].commitment != "")
    && (forall j, k | j in tasks && k in tasks && j != k :: tasks[j].commitment != tasks[k].commitment)
  }

  /** The second phase: the preflight and the cancellation request. Nothing is sent unless every
      unfinished member is still cancellable, and then all of them are. */
  method RequestCancellation(tasks: Tasks, id: nat, preflight: Option<seq<Reported>>, answers: Option<seq<MutationResult>>)
    returns (sent: seq<string>, cancelled: set<nat>, error: Option<AbortError>, answered: bool)
    requires NamedRows(tasks)
    ensures sent != [] ==> NamesUnfinished(tasks, id, sent) && preflight.Some? && PreflightPasses(sent, preflight.value)
    ensures !answered ==> error.Some? && error.value != NotFound && cancelled == {} && (sent != [] ==> answers.None?)
    ensures answered && sent == [] ==> UnfinishedMembers(tasks, id) == {} && cancelled == {} && error.None?
    ensures answered && sent != [] ==>
              && answers.Some? && cancelled == CancelledMembers(tasks, id, answers.value)
              && (error.None? <==> AllCancelled(tasks, id, answers.value))
              && (error.Some? ==> error.value != NotFound)
  {
    hide SaysCancelled, SaysRefused, PreflightPasses;
    sent, cancelled, answered := [], {}, false;
    var without, commitments, taskIds := CollectCommitments(tasks, Members(tasks, id));
    CollectedNames(tasks, id, without, commitments, taskIds);
    var results: seq<MutationResult> := [];
    if |commitments| > 0 {
      if preflight.None? { return [], {}, Some(Temporary), false; }
      var passes := ValidateAbortPreflight(commitments, preflight.value);
      if !passes { return [], {}, Some(NotCancellable), false; }
      sent := commitments;
      if answers.None? { return sent, {}, Some(Temporary), false; }
      results := answers.value;
    }
    cancelled, error := ClassifyAbortResults(commitments, taskIds, results);
    CancelledRows(tasks, Members(tasks, id), without, commitments, taskIds, results);
    answered := true;
    assert cancelled == CancelledMembers(tasks, id, results);
    if sent != [] {
      forall k | k in UnfinishedMembers(tasks, id)
        ensures k in CancelledMembers(tasks, id, results) <==> SaysCancelled(results, tasks[k].commitment)
      {
      }
    }
  }

  lemma CollectedNames(tasks: Tasks, id: nat, without: set<nat>, commitments: seq<string>, taskIds: map<string, nat>)
    requires NamedRows(tasks) && Collected(tasks, Members(tasks, id), without, commitments, taskIds)
    ensures NamesUnfinished(tasks, id, commitments) && without == {}
    ensures commitments == [] <==> UnfinishedMembers(tasks, id) == {}
  {
    forall c | c in commitments
      ensures exists k | k in UnfinishedMembers(tasks, id) :: tasks[k].commitment == c
    {
      assert c in taskIds && taskIds[c] in UnfinishedMembers(tasks, id);
    }
    if commitments != [] { assert commitments[0] in commitments; }
    forall k | k in UnfinishedMembers(tasks, id)
      ensures tasks[k].commitment in commitments
    {
      assert tasks[k].commitment in taskIds;
    }
  }
}
