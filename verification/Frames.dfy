/** What the steps other than an applied operation leave alone, and how they insert rows. */
module Frames {
  import opened Wrappers
  import opened Models
  import opened Config
  import opened Progression
  import opened StateMachine

  predicate SameIdentityRow(o: InferenceTask, n: InferenceTask) {
    n.spec == o.spec && n.commitment == o.commitment && n.vrf == o.vrf
  }

  /** The same rows with the same identity and VRF data. */
  ghost predicate SameIdentity(a: Tasks, b: Tasks) {
    a.Keys == b.Keys && forall k | k in a :: SameIdentityRow(a[k], b[k])
  }

  predicate SameLifeRow(o: InferenceTask, n: InferenceTask) {
    && SameIdentityRow(o, n) && n.status == o.status && n.sequence == o.sequence && n.abortReason == o.abortReason
    && n.cancelRequired == o.cancelRequired && n.submitted == o.submitted && n.relayFound == o.relayFound
  }

  /** Workers and recovery touch only slots, times and the two reconciliation flags. */
  ghost predicate SameLife(a: Tasks, b: Tasks) {
    a.Keys == b.Keys && forall k | k in a :: SameLifeRow(a[k], b[k])
  }

  lemma MarkRunningKeepsLife(a: Tasks, rows: set<nat>, op: Operation)
    ensures SameLife(a, MarkRunning(a, rows, op))
  {
  }

  lemma WriteEndingsKeepsLife(a: Tasks, op: Operation, endings: map<nat, Ending>)
    ensures SameLife(a, WriteEndings(a, op, endings))
  {
    forall k | k in a
      ensures SameLifeRow(a[k], WriteEndings(a, op, endings)[k])
    {
    }
  }

  lemma RecoveryKeepsLife(a: Tasks, now: int)
    ensures SameLife(a, RecoveredTasks(a, now))
  {
    hide ValidatingGroup;
  }

  lemma SameLifeIsSameIdentity(a: Tasks, b: Tasks)
    requires SameLife(a, b)
    ensures SameIdentity(a, b)
  {
  }

  lemma AbortKeepsIdentity(a: Tasks, ids: set<nat>)
    ensures SameIdentity(a, AbortRows(a, ids))
  {
  }

  /** The rows of an expansion: the old rows unchanged, and one Pending row for each repeat. */
  ghost predicate Inserted(a: Tasks, b: Tasks, c: ClientTask, clientTaskId: nat, repeats: seq<Repeat>, now: int)
    requires c.submission.Some?
  {
    && b.Keys == a.Keys + RepeatIds(repeats)
    && (forall k | k in a :: b[k] == a[k])
    && (forall i | 0 <= i < |repeats| :: InsertedAt(b, c, clientTaskId, repeats[i], now))
  }

  predicate InsertedAt(b: Tasks, c: ClientTask, clientTaskId: nat, r: Repeat, now: int)
    requires c.submission.Some?
  {
    r.identity.id in b && b[r.identity.id] == PrimaryTask(c, clientTaskId, r, now)
  }

  function RepeatIds(repeats: seq<Repeat>): set<nat> {
    set i | 0 <= i < |repeats| :: repeats[i].identity.id
  }

  lemma FreshPrefix(a: Tasks, repeats: seq<Repeat>)
    requires FreshRepeats(a, repeats) && repeats != []
    ensures var last := |repeats| - 1;
            && FreshRepeats(a, repeats[..last])
            && repeats[last].identity.id !in a.Keys + RepeatIds(repeats[..last])
            && RepeatIds(repeats) == RepeatIds(repeats[..last]) + {repeats[last].identity.id}
  {
    var last := |repeats| - 1;
    assert repeats == repeats[..last] + [repeats[last]];
    assert FreshIdentity(a, repeats[last].identity);
  }

  lemma {:induction false} ExpansionInserts(a: Tasks, c: ClientTask, clientTaskId: nat, repeats: seq<Repeat>, now: int)
    requires c.submission.Some? && FreshRepeats(a, repeats)
    ensures Inserted(a, InsertPrimaries(a, c, clientTaskId, repeats, now), c, clientTaskId, repeats, now)
  {
    hide PrimaryTask;
    if repeats == [] {
      assert Inserted(a, a, c, clientTaskId, repeats, now);
    } else {
      hide FreshRepeats, RepeatIds, InsertedAt;
      var last := |repeats| - 1;
      FreshPrefix(a, repeats);
      ExpansionInserts(a, c, clientTaskId, repeats[..last], now);
      hide Inserted;
      InsertedNext(a, InsertPrimaries(a, c, clientTaskId, repeats[..last], now), c, clientTaskId, repeats, now);
    }
  }

  /** One more row keeps the shape of an expansion. */
  lemma InsertedNext(a: Tasks, b: Tasks, c: ClientTask, clientTaskId: nat, repeats: seq<Repeat>, now: int)
    requires repeats != [] && c.submission.Some?
    requires var last := |repeats| - 1;
             && Inserted(a, b, c, clientTaskId, repeats[..last], now)
             && repeats[last].identity.id !in a.Keys + RepeatIds(repeats[..last])
             && RepeatIds(repeats) == RepeatIds(repeats[..last]) + {repeats[last].identity.id}
    ensures var last := |repeats| - 1;
            Inserted(a, b[repeats[last].identity.id := PrimaryTask(c, clientTaskId, repeats[last], now)], c, clientTaskId, repeats, now)
  {
    hide PrimaryTask;
    var last := |repeats| - 1;
    var n := b[repeats[last].identity.id := PrimaryTask(c, clientTaskId, repeats[last], now)];
    forall i | 0 <= i < last
      ensures InsertedAt(n, c, clientTaskId, repeats[i], now)
    {
      assert repeats[i] == repeats[..last][i];
      assert InsertedAt(b, c, clientTaskId, repeats[..last][i], now);
      assert repeats[i].identity.id in RepeatIds(repeats[..last]);
    }
  }
}
