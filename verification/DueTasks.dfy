/** `loadDueTasks` and `decideOperation` of `taskengine/dispatch.go`: five ordered, limited queries
    merged into one list, and the choice of the next operation of one row. */
module DueTasks {
  import opened Models
  import opened Progression
  import opened Dispatch
  import opened ValidationOwner

  // ---- ORDER BY ----

  ghost predicate StrictOrder(rows: set<nat>, before: (nat, nat) -> bool) {
    && (forall a, b | a in rows && b in rows && a != b :: before(a, b) != before(b, a))
    && (forall a, b, c | a in rows && b in rows && c in rows && a != c && before(a, b) && before(b, c) :: before(a, c))
  }

  ghost predicate Ascending(list: seq<nat>, before: (nat, nat) -> bool) {
    forall i, j | 0 <= i < j < |list| :: before(list[i], list[j])
  }

  predicate Distinct(list: seq<nat>) {
    forall i, j | 0 <= i < j < |list| :: list[i] != list[j]
  }

  method Least(rows: set<nat>, before: (nat, nat) -> bool) returns (least: nat)
    requires rows != {} && StrictOrder(rows, before)
    ensures least in rows && forall k | k in rows && k != least :: before(least, k)
  {
    least :| least in rows;
    var pending := rows - {least};
    while pending != {}
      invariant pending <= rows && least in rows && least !in pending
      invariant forall k | k in rows - pending && k != least :: before(least, k)
    {
      var k :| k in pending;
      if before(k, least) { least := k; }
      pending := pending - {k};
    }
  }

  /** The rows in the given order, each once. */
  method InOrder(rows: set<nat>, before: (nat, nat) -> bool) returns (list: seq<nat>)
    requires StrictOrder(rows, before)
    ensures (forall k :: k in list <==> k in rows) && |list| == |rows|
    ensures Distinct(list) && Ascending(list, before)
  {
    list := [];
    var pending := rows;
    while pending != {}
      invariant pending <= rows && |list| + |pending| == |rows|
      invariant forall k :: k in list <==> k in rows - pending
      invariant forall j, k | j in list && k in pending :: before(j, k)
      invariant Distinct(list) && Ascending(list, before)
    {
      var k := Least(pending, before);
      list := list + [k];
      pending := pending - {k};
    }
  }

  // ---- One query ----

  /** `ORDER BY next_action_at, id` */
  predicate Earlier(tasks: Tasks, a: nat, b: nat) {
    && a in tasks && b in tasks
    && (tasks[a].nextActionAt < tasks[b].nextActionAt || (tasks[a].nextActionAt == tasks[b].nextActionAt && a < b))
  }

  function ByTime(tasks: Tasks): (nat, nat) -> bool {
    (a: nat, b: nat) => Earlier(tasks, a, b)
  }

  function Matching(tasks: Tasks, q: nat, now: int): set<nat> {
    set k | k in tasks && SelectedBy(q, tasks[k], now)
  }

  function EarlierMatches(tasks: Tasks, q: nat, now: int, k: nat): set<nat> {
    set j | j in tasks && SelectedBy(q, tasks[j], now) && Earlier(tasks, j, k)
  }

  /** What a query returns: matching rows in order, and a row it leaves out has a full page of
      matching rows before it. */
  ghost predicate IsPage(tasks: Tasks, q: nat, now: int, limit: nat, page: seq<nat>) {
    && |page| <= limit
    && Distinct(page)
    && (forall k | k in page :: k in Matching(tasks, q, now))
    && (forall k | k in Matching(tasks, q, now) && k !in page ::
          |page| == limit && forall j | j in page :: j in EarlierMatches(tasks, q, now, k))
  }

  method Query(tasks: Tasks, q: nat, now: int, limit: nat) returns (page: seq<nat>)
    ensures IsPage(tasks, q, now, limit, page)
  {
    var rows := Matching(tasks, q, now);
    var list := InOrder(rows, ByTime(tasks));
    if |list| <= limit { return list; }
    page := list[..limit];
    forall k | k in rows && k !in page
      ensures forall j | j in page :: j in EarlierMatches(tasks, q, now, k)
    {
      var i :| 0 <= i < |list| && list[i] == k;
      assert forall h | 0 <= h < limit :: list[h] == page[h] && page[h] in page;
      assert limit <= i;
      forall j | j in page
        ensures j in EarlierMatches(tasks, q, now, k)
      {
        var h :| 0 <= h < |page| && page[h] == j;
        assert list[h] == j && h < i && ByTime(tasks)(list[h], list[i]);
        assert j in list && j in rows;
      }
    }
  }

  // ---- The merged list ----

  /** The row is left out only behind a full page of earlier rows that match the same query, all of
      which are in the list. */
  ghost predicate Deferred(tasks: Tasks, q: nat, now: int, limit: nat, order: seq<nat>, k: nat) {
    exists page: seq<nat> ::
      Distinct(page) && |page| == limit && forall j | j in page :: j in order && j in EarlierMatches(tasks, q, now, k)
  }

  ghost predicate Covered(tasks: Tasks, q: nat, now: int, limit: nat, order: seq<nat>) {
    forall k | k in Matching(tasks, q, now) && k !in order :: Deferred(tasks, q, now, limit, order, k)
  }

  lemma PageCovers(tasks: Tasks, q: nat, now: int, limit: nat, page: seq<nat>, order: seq<nat>)
    requires IsPage(tasks, q, now, limit, page) && forall k | k in page :: k in order
    ensures Covered(tasks, q, now, limit, order)
  {
  }

  lemma LongerListCovers(tasks: Tasks, q: nat, now: int, limit: nat, order: seq<nat>, longer: seq<nat>)
    requires Covered(tasks, q, now, limit, order) && forall k | k in order :: k in longer
    ensures Covered(tasks, q, now, limit, longer)
  {
    forall k | k in Matching(tasks, q, now) && k !in longer
      ensures Deferred(tasks, q, now, limit, longer, k)
    {
      assert Deferred(tasks, q, now, limit, order, k);
    }
  }

  function SelectedRows(tasks: Tasks, now: int): set<nat> {
    set k | k in tasks && Selected(tasks[k], now)
  }

  /** One page appended: rows already listed are skipped. */
  method Merge(page: seq<nat>, listed: seq<nat>) returns (order: seq<nat>)
    requires Distinct(listed)
    ensures Distinct(order) && |listed| <= |order| && order[..|listed|] == listed
    ensures forall k :: k in order <==> k in listed || k in page
  {
    order := listed;
    var byId := set k | k in listed;
    for i := 0 to |page|
      invariant Distinct(order) && |listed| <= |order| && order[..|listed|] == listed
      invariant forall k :: k in byId <==> k in order
      invariant forall k :: k in order <==> k in listed || k in page[..i]
    {
      if page[i] !in byId {
        byId := byId + {page[i]};
        order := order + [page[i]];
      }
    }
    assert page[..|page|] == page;
  }

  /** Every listed row is selected and listed once; every selected row that is not listed waits behind
      a full page of each query it matches; and without a backlog the list is exactly the selected rows. */
  method LoadDueTasks(tasks: Tasks, now: int, limit: nat) returns (order: seq<nat>)
    ensures Distinct(order) && forall k | k in order :: k in SelectedRows(tasks, now)
    ensures forall q: nat {:trigger Covered(tasks, q, now, limit, order)} | q < QUERY_COUNT :: Covered(tasks, q, now, limit, order)
    ensures |SelectedRows(tasks, now)| <= limit ==> forall k :: k in order <==> k in SelectedRows(tasks, now)
  {
    order := [];
    for q: nat := 0 to QUERY_COUNT
      invariant Distinct(order) && forall k | k in order :: k in SelectedRows(tasks, now)
      invariant forall p: nat {:trigger Covered(tasks, p, now, limit, order)} | p < q :: Covered(tasks, p, now, limit, order)
    {
      var page := Query(tasks, q, now, limit);
      var longer := Merge(page, order);
      PageCovers(tasks, q, now, limit, page, longer);
      forall k | k in order
        ensures k in longer
      {
        var i :| 0 <= i < |order| && order[i] == k;
        assert longer[i] == k;
      }
      forall p: nat | p < q
        ensures Covered(tasks, p, now, limit, longer)
      {
        LongerListCovers(tasks, p, now, limit, order, longer);
      }
      order := longer;
    }
    if |SelectedRows(tasks, now)| <= limit {
      forall k | k in SelectedRows(tasks, now)
        ensures k in order
      {
        NothingDeferred(tasks, now, limit, order, k);
      }
    }
  }

  lemma {:induction false} DistinctCount(page: seq<nat>, rows: set<nat>)
    requires Distinct(page) && forall k | k in page :: k in rows
    ensures |page| <= |rows|
  {
    if page != [] {
      var last := |page| - 1;
      assert page[last] in page;
      forall k | k in page[..last]
        ensures k in rows - {page[last]}
      {
        assert k in page;
      }
      DistinctCount(page[..last], rows - {page[last]});
    }
  }

  lemma NothingDeferred(tasks: Tasks, now: int, limit: nat, order: seq<nat>, k: nat)
    requires k in SelectedRows(tasks, now) && |SelectedRows(tasks, now)| <= limit
    requires forall q: nat {:trigger Covered(tasks, q, now, limit, order)} | q < QUERY_COUNT :: Covered(tasks, q, now, limit, order)
    ensures k in order
  {
    var q: nat :| q < QUERY_COUNT && SelectedBy(q, tasks[k], now);
    assert Covered(tasks, q, now, limit, order);
    if k !in order {
      assert k in Matching(tasks, q, now) && Deferred(tasks, q, now, limit, order, k);
      var page: seq<nat> :| Distinct(page) && |page| == limit && forall j | j in page :: j in order && j in EarlierMatches(tasks, q, now, k);
      forall j | j in page
        ensures j in SelectedRows(tasks, now) - {k}
      {
        assert j in EarlierMatches(tasks, q, now, k) && SelectedBy(q, tasks[j], now);
      }
      DistinctCount(page, SelectedRows(tasks, now) - {k});
    }
  }

  // ---- The decision ----

  /** `ORDER BY sequence, id` */
  predicate InGroupOrder(tasks: Tasks, a: nat, b: nat) {
    a in tasks && b in tasks && Before(tasks, a, b)
  }

  function ByGroupOrder(tasks: Tasks): (nat, nat) -> bool {
    (a: nat, b: nat) => InGroupOrder(tasks, a, b)
  }

  ghost predicate ListsGroup(tasks: Tasks, taskId: string, group: seq<nat>) {
    && (forall k :: k in group <==> k in Group(tasks, taskId)) && |group| == |Group(tasks, taskId)|
    && Ascending(group, ByGroupOrder(tasks))
  }

  method LoadGroup(tasks: Tasks, taskId: string) returns (group: seq<nat>)
    ensures ListsGroup(tasks, taskId, group)
  {
    group := InOrder(Group(tasks, taskId), ByGroupOrder(tasks));
  }

  method GroupReady(tasks: Tasks, taskId: string, group: seq<nat>) returns (ready: bool)
    requires ListsGroup(tasks, taskId, group)
    ensures ready == ValidationGroupReady(tasks, taskId)
  {
    if |group| != 3 { return false; }
    for i := 0 to |group|
      invariant forall j | 0 <= j < i ::
                  !(tasks[group[j]].status == EndAborted && tasks[group[j]].abortReason == CreatorValidationTimeout)
    {
      assert group[i] in group;
      if tasks[group[i]].status == EndAborted && tasks[group[i]].abortReason == CreatorValidationTimeout {
        return false;
      }
    }
    for i := 0 to |group|
      invariant forall j | 0 <= j < i :: ReadyForValidation(tasks[group[j]].status) || tasks[group[j]].status == EndAborted
    {
      assert group[i] in group;
      if !ReadyForValidation(tasks[group[i]].status) && tasks[group[i]].status != EndAborted { return false; }
    }
    forall k | k in tasks && tasks[k].spec.taskId == taskId
      ensures ReadyForValidation(tasks[k].status) || tasks[k].status == EndAborted
      ensures !(tasks[k].status == EndAborted && tasks[k].abortReason == CreatorValidationTimeout)
    {
      assert k in Group(tasks, taskId);
      var i :| 0 <= i < |group| && group[i] == k;
    }
    return true;
  }

  /** The first ready member in group order; None is the engine's "no eligible owner" error. */
  method FindOwner(tasks: Tasks, taskId: string, group: seq<nat>) returns (found: bool, owner: nat)
    requires ListsGroup(tasks, taskId, group)
    ensures found <==> exists k | k in Group(tasks, taskId) :: ReadyForValidation(tasks[k].status)
    ensures found ==> owner in Group(tasks, taskId) && IsOwner(tasks, owner)
  {
    found, owner := false, 0;
    for i := 0 to |group|
      invariant forall j | 0 <= j < i :: !ReadyForValidation(tasks[group[j]].status)
    {
      assert group[i] in group;
      if ReadyForValidation(tasks[group[i]].status) {
        forall k | k in tasks && tasks[k].spec.taskId == taskId && k != group[i] && ReadyForValidation(tasks[k].status)
          ensures Before(tasks, group[i], k)
        {
          assert k in Group(tasks, taskId);
          var j :| 0 <= j < |group| && group[j] == k;
          assert ByGroupOrder(tasks)(group[i], group[j]);
        }
        return true, group[i];
      }
    }
  }

  /** The error branch is never taken, and a validation carries its whole group in order. */
  method DecideOperation(tasks: Tasks, id: nat) returns (ok: bool, op: Operation, group: seq<nat>)
    requires id in tasks
    ensures ok && op == Decide(tasks, id)
    ensures op == OpValidate ==> ListsGroup(tasks, tasks[id].spec.taskId, group)
  {
    var t := tasks[id];
    ok, group := true, [];
    if t.unknown || !t.relayChecked { return true, OpSync, []; }
    if t.cancelRequired { return true, OpCancel, []; }
    if t.status == EndSuccess { return true, OpResult, []; }
    if Finished(t.status) { return true, OpNone, []; }
    if t.status == Pending {
      op := if t.relayFound then OpSync else OpCreate;
      return;
    }
    if !ReadyForValidation(t.status) || t.submitted { return true, OpSync, []; }
    group := LoadGroup(tasks, t.spec.taskId);
    assert id in Group(tasks, t.spec.taskId);
    if |group| == 1 { return true, OpValidate, group; }
    var ready := GroupReady(tasks, t.spec.taskId, group);
    if !ready { return true, OpSync, []; }
    var found, owner := FindOwner(tasks, t.spec.taskId, group);
    if !found { return false, OpNone, []; }
    if owner != id {
      assert Before(tasks, owner, id) && !Before(tasks, id, owner);
      return true, OpSync, [];
    }
    op := OpValidate;
  }
}
