/** One batch of heartbeat submissions (`tasks/heartbeat_task.go`): the limits that bound it, and the
    counters that keep each slot near its own limit. */
module HeartbeatPlan {
  import opened Wrappers

  type Counts = map<string, nat>

  /** A configured heartbeat task. `quantizationKey` is None when it cannot be computed, and `generates`
      says whether a submission can be built from the entry. */
  datatype Entry = Entry(enabled: bool, taskType: string, model: string, quantizationKey: Option<string>, maxPending: nat, generates: bool)

  // ---- Sums of counters ----

  function CountOf(counts: Counts, key: string): nat {
    if key in counts then counts[key] else 0
  }

  ghost function SumOver(counts: Counts, keys: set<string>): nat
    requires keys <= counts.Keys
  {
    if keys == {} then 0 else var k :| k in keys; counts[k] + SumOver(counts, keys - {k})
  }

  ghost function Sum(counts: Counts): nat {
    SumOver(counts, counts.Keys)
  }

  lemma {:induction false} SumWithout(counts: Counts, keys: set<string>, k: string)
    requires keys <= counts.Keys && k in keys
    ensures SumOver(counts, keys) == counts[k] + SumOver(counts, keys - {k})
  {
    var j :| j in keys && SumOver(counts, keys) == counts[j] + SumOver(counts, keys - {j});
    if j != k {
      SumWithout(counts, keys - {j}, k);
      SumWithout(counts, keys - {k}, j);
      assert keys - {j} - {k} == keys - {k} - {j};
    }
  }

  lemma {:induction false} SumAgrees(a: Counts, b: Counts, keys: set<string>)
    requires keys <= a.Keys && keys <= b.Keys && forall k | k in keys :: a[k] == b[k]
    ensures SumOver(a, keys) == SumOver(b, keys)
  {
    if keys != {} {
      var k :| k in keys;
      SumWithout(a, keys, k);
      SumWithout(b, keys, k);
      SumAgrees(a, b, keys - {k});
    }
  }

  lemma SumIncrement(counts: Counts, key: string)
    ensures Sum(counts[key := CountOf(counts, key) + 1]) == Sum(counts) + 1
  {
    var next := counts[key := CountOf(counts, key) + 1];
    var others := counts.Keys - {key};
    assert next.Keys - {key} == others;
    SumWithout(next, next.Keys, key);
    SumAgrees(next, counts, others);
    if key in counts { SumWithout(counts, counts.Keys, key); } else { assert others == counts.Keys; }
  }

  method SumPendingCounts(counts: Counts) returns (total: nat)
    ensures total == Sum(counts)
  {
    total := 0;
    var pending := counts.Keys;
    while pending != {}
      invariant pending <= counts.Keys && total + SumOver(counts, pending) == Sum(counts)
    {
      var k :| k in pending;
      SumWithout(counts, pending, k);
      total := total + counts[k];
      pending := pending - {k};
    }
  }

  // ---- Limits ----

  /** None when nothing may be created. */
  function BatchSizeForTotalPending(batchSize: nat, totalPending: nat, maxTotalPending: nat): Option<nat> {
    if maxTotalPending == 0 then Some(batchSize)
    else if totalPending >= maxTotalPending then None
    else Some(if batchSize > maxTotalPending - totalPending then maxTotalPending - totalPending else batchSize)
  }

  function SlotKey(lower: string -> string, e: Entry): string
    requires e.quantizationKey.Some?
  {
    lower(e.taskType) + "|" + e.model + "|" + e.quantizationKey.value
  }

  lemma {:induction false} SplitAtBar(a: string, s: string, b: string, t: string)
    requires '|' !in a && '|' !in b && a + ("|" + s) == b + ("|" + t)
    ensures a == b && s == t
  {
    var u, v := a + ("|" + s), b + ("|" + t);
    assert u[0] == (if a == "" then '|' else a[0]) && v[0] == (if b == "" then '|' else b[0]);
    if a != "" && b != "" {
      assert u[1..] == a[1..] + ("|" + s) && v[1..] == b[1..] + ("|" + t);
      SplitAtBar(a[1..], s, b[1..], t);
      assert a == [a[0]] + a[1..] && b == [b[0]] + b[1..];
    } else {
      assert a == b;
      assert u[1..] == s && v[1..] == t;
    }
  }

  /** Two entries share a slot exactly when they are of the same type, letter case aside, the same model and
      the same quantization; types and models do not contain the separator. */
  lemma SlotsAreApart(lower: string -> string, a: Entry, b: Entry)
    requires a.quantizationKey.Some? && b.quantizationKey.Some?
    requires '|' !in lower(a.taskType) && '|' !in lower(b.taskType) && '|' !in a.model && '|' !in b.model
    ensures SlotKey(lower, a) == SlotKey(lower, b) <==>
            lower(a.taskType) == lower(b.taskType) && a.model == b.model && a.quantizationKey == b.quantizationKey
  {
    var qa, qb := a.quantizationKey.value, b.quantizationKey.value;
    assert SlotKey(lower, a) == lower(a.taskType) + ("|" + (a.model + ("|" + qa)));
    assert SlotKey(lower, b) == lower(b.taskType) + ("|" + (b.model + ("|" + qb)));
    if SlotKey(lower, a) == SlotKey(lower, b) {
      hide SlotKey;
      SplitAtBar(lower(a.taskType), a.model + ("|" + qa), lower(b.taskType), b.model + ("|" + qb));
      SplitAtBar(a.model, qa, b.model, qb);
    }
  }

  /** The entry may be chosen: enabled, and its slot not over its limit. */
  predicate Eligible(lower: string -> string, e: Entry, pending: Counts, increments: Counts) {
    && e.enabled && e.quantizationKey.Some?
    && CountOf(pending, SlotKey(lower, e)) + CountOf(increments, SlotKey(lower, e)) <= e.maxPending
  }

  /** The eligible entries in order, then any one of them: the weighted sampling is left open. An enabled
      entry whose key cannot be computed stops the selection. */
  method Select(lower: string -> string, entries: seq<Entry>, pending: Counts, increments: Counts) returns (chosen: Option<Entry>)
    ensures chosen.Some? ==> chosen.value in entries && Eligible(lower, chosen.value, pending, increments)
    ensures chosen.None? <==>
              || (exists e | e in entries :: e.enabled && e.quantizationKey.None?)
              || forall e | e in entries :: !Eligible(lower, e, pending, increments)
  {
    var eligible: seq<Entry> := [];
    for i := 0 to |entries|
      invariant forall e :: e in eligible <==> e in entries[..i] && Eligible(lower, e, pending, increments)
      invariant forall e | e in entries[..i] :: e.enabled ==> e.quantizationKey.Some?
    {
      var e := entries[i];
      assert entries[..i + 1] == entries[..i] + [e];
      if !e.enabled { continue; }
      if e.quantizationKey.None? {
        assert e in entries;
        return None;
      }
      var key := SlotKey(lower, e);
      if CountOf(pending, key) + CountOf(increments, key) > e.maxPending { continue; }
      eligible := eligible + [e];
    }
    assert entries[..|entries|] == entries;
    if |eligible| == 0 { return None; }
    var index: nat :| index < |eligible|;
    assert eligible[index] in eligible;
    chosen := Some(eligible[index]);
  }

  /** The slot ends at most one above the limit of some entry that uses it. */
  ghost predicate NearLimit(lower: string -> string, entries: seq<Entry>, pending: Counts, increments: Counts, key: string) {
    exists e :: && e in entries && e.enabled && e.quantizationKey.Some? && SlotKey(lower, e) == key
                && CountOf(pending, key) + CountOf(increments, key) <= e.maxPending + 1
  }

  function KeyCount(lower: string -> string, batch: seq<Entry>, key: string): nat {
    if batch == [] then 0
    else
      var last := |batch| - 1;
      KeyCount(lower, batch[..last], key)
      + if batch[last].quantizationKey.Some? && SlotKey(lower, batch[last]) == key then 1 else 0
  }

  /** A batch in progress: the counters add up to its size and count its slots, its entries are
      configured, and every slot it uses is near its limit. */
  ghost predicate BatchOk(lower: string -> string, entries: seq<Entry>, pending: Counts, batch: seq<Entry>, increments: Counts) {
    && |batch| == Sum(increments)
    && (forall e | e in batch :: e in entries && e.enabled && e.generates && e.quantizationKey.Some?)
    && (forall key :: CountOf(increments, key) == KeyCount(lower, batch, key))
    && (forall key | key in increments :: NearLimit(lower, entries, pending, increments, key))
  }

  lemma NothingPlanned(lower: string -> string, entries: seq<Entry>, pending: Counts)
    ensures BatchOk(lower, entries, pending, [], map[])
  {
  }

  lemma BatchSum(lower: string -> string, entries: seq<Entry>, pending: Counts, batch: seq<Entry>, increments: Counts)
    requires BatchOk(lower, entries, pending, batch, increments)
    ensures |batch| == Sum(increments)
  {
  }

  lemma EligibleHasKey(lower: string -> string, e: Entry, pending: Counts, increments: Counts)
    requires Eligible(lower, e, pending, increments)
    ensures e.enabled && e.quantizationKey.Some?
  {
  }

  lemma BatchGrows(lower: string -> string, entries: seq<Entry>, pending: Counts, batch: seq<Entry>, increments: Counts, e: Entry)
    requires BatchOk(lower, entries, pending, batch, increments)
    requires e in entries && e.generates && Eligible(lower, e, pending, increments)
    ensures var key := SlotKey(lower, e);
            BatchOk(lower, entries, pending, batch + [e], increments[key := CountOf(increments, key) + 1])
  {
    var key := SlotKey(lower, e);
    SumIncrement(increments, key);
    KeyCounted(lower, batch, e);
    OthersStayNear(lower, entries, pending, increments, key);
    hide Sum, KeyCount, SlotKey;
  }

  /** Each submission of the batch was within its entry's own limit when it was chosen: the slot's tasks in
      flight and those before it in the batch do not exceed the limit. */
  ghost predicate InTurn(lower: string -> string, pending: Counts, batch: seq<Entry>) {
    forall i | 0 <= i < |batch| ::
      && batch[i].quantizationKey.Some?
      && CountOf(pending, SlotKey(lower, batch[i])) + KeyCount(lower, batch[..i], SlotKey(lower, batch[i])) <= batch[i].maxPending
  }

  /** No entry can be chosen after the batch: every enabled one has passed its limit, or the key of one
      cannot be computed. */
  ghost predicate NoneLeft(lower: string -> string, entries: seq<Entry>, pending: Counts, batch: seq<Entry>) {
    || (exists e | e in entries :: e.enabled && e.quantizationKey.None?)
    || forall e | e in entries && e.enabled && e.quantizationKey.Some? ::
         CountOf(pending, SlotKey(lower, e)) + KeyCount(lower, batch, SlotKey(lower, e)) > e.maxPending
  }

  lemma TurnsAdvance(lower: string -> string, entries: seq<Entry>, pending: Counts, batch: seq<Entry>, increments: Counts, e: Entry)
    requires InTurn(lower, pending, batch) && BatchOk(lower, entries, pending, batch, increments)
    requires Eligible(lower, e, pending, increments)
    ensures InTurn(lower, pending, batch + [e])
  {
    hide Sum, SlotKey, NearLimit;
    assert CountOf(increments, SlotKey(lower, e)) == KeyCount(lower, batch, SlotKey(lower, e));
    hide BatchOk, KeyCount, CountOf;
    forall i | 0 <= i < |batch + [e]|
      ensures (batch + [e])[..i] == batch[..i]
    {
    }
    assert batch[..|batch|] == batch;
  }

  lemma NoneEligible(lower: string -> string, entries: seq<Entry>, pending: Counts, batch: seq<Entry>, increments: Counts)
    requires BatchOk(lower, entries, pending, batch, increments)
    requires || (exists e | e in entries :: e.enabled && e.quantizationKey.None?)
             || forall e | e in entries :: !Eligible(lower, e, pending, increments)
    ensures NoneLeft(lower, entries, pending, batch)
  {
    hide Sum, SlotKey, NearLimit;
    forall e | e in entries && e.enabled && e.quantizationKey.Some?
      ensures CountOf(increments, SlotKey(lower, e)) == KeyCount(lower, batch, SlotKey(lower, e))
    {
    }
    hide BatchOk, KeyCount, CountOf;
  }

  /** One batch: as many submissions as the counters say, within the batch size, the rest of the hourly
      quota and the rest of the total limit; each within its entry's limit when it is chosen, so every slot
      it uses stays near its limit. It stops short of the batch size only when a quota or limit is used up
      or no entry can be chosen. None only when a submission could not be built: then nothing is submitted. */
  method PlanBatch(lower: string -> string, entries: seq<Entry>, pending: Counts, batchSize: nat, hourly: Option<nat>, maxTotalPending: nat)
    returns (batch: Option<seq<Entry>>, increments: Counts)
    ensures batch.Some? ==>
              && BatchOk(lower, entries, pending, batch.value, increments)
              && |batch.value| <= batchSize && (hourly.Some? ==> |batch.value| <= hourly.value)
              && (maxTotalPending > 0 && batch.value != [] ==> Sum(pending) + |batch.value| <= maxTotalPending)
    ensures batch.Some? ==> InTurn(lower, pending, batch.value)
    ensures batch.Some? && |batch.value| < batchSize ==>
              || hourly == Some(|batch.value|)
              || (maxTotalPending > 0 && Sum(pending) + |batch.value| >= maxTotalPending)
              || NoneLeft(lower, entries, pending, batch.value)
    ensures batch.None? ==> exists e | e in entries :: e.enabled && !e.generates
  {
    hide BatchOk, Sum, Eligible, NoneLeft;
    NothingPlanned(lower, entries, pending);
    assert InTurn(lower, pending, []);
    hide InTurn;
    increments := map[];
    var size := batchSize;
    if hourly.Some? && size > hourly.value { size := hourly.value; }
    var totalPending := SumPendingCounts(pending);
    var adjusted := BatchSizeForTotalPending(size, totalPending, maxTotalPending);
    if adjusted.None? { return Some([]), increments; }
    var submissions: seq<Entry> := [];
    for i := 0 to adjusted.value
      invariant |submissions| == i && BatchOk(lower, entries, pending, submissions, increments)
      invariant maxTotalPending > 0 && submissions != [] ==> totalPending + |submissions| <= maxTotalPending
      invariant InTurn(lower, pending, submissions)
    {
      var used := SumPendingCounts(increments);
      BatchSum(lower, entries, pending, submissions, increments);
      if maxTotalPending > 0 && totalPending + used >= maxTotalPending { break; }
      var chosen := Select(lower, entries, pending, increments);
      if chosen.None? {
        NoneEligible(lower, entries, pending, submissions, increments);
        break;
      }
      var e := chosen.value;
      EligibleHasKey(lower, e, pending, increments);
      if !e.generates { return None, increments; }
      var key := SlotKey(lower, e);
      TurnsAdvance(lower, entries, pending, submissions, increments, e);
      BatchGrows(lower, entries, pending, submissions, increments, e);
      submissions := submissions + [e];
      increments := increments[key := CountOf(increments, key) + 1];
    }
    batch := Some(submissions);
  }

  lemma KeyCounted(lower: string -> string, batch: seq<Entry>, e: Entry)
    requires e.quantizationKey.Some?
    ensures forall key :: KeyCount(lower, batch + [e], key) == KeyCount(lower, batch, key) + if SlotKey(lower, e) == key then 1 else 0
  {
    assert (batch + [e])[..|batch|] == batch;
  }

  lemma OthersStayNear(lower: string -> string, entries: seq<Entry>, pending: Counts, increments: Counts, key: string)
    requires forall k | k in increments :: NearLimit(lower, entries, pending, increments, k)
    ensures forall k | k in increments && k != key ::
              NearLimit(lower, entries, pending, increments[key := CountOf(increments, key) + 1], k)
  {
    var next := increments[key := CountOf(increments, key) + 1];
    forall k | k in increments && k != key
      ensures NearLimit(lower, entries, pending, next, k)
    {
      assert CountOf(next, k) == CountOf(increments, k);
    }
  }
}
