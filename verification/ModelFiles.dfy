/** `models/model_file.go`: the order-independent key of a set of model files, and the check that the
    members of a validation group executed with the same files. `marshal` stands for the JSON
    encoding of one entry. */
module ModelFiles {
  import opened Models
  import opened Progression
  import opened DueTasks
  import opened SortedStrings
  import opened Wrappers

  type Encoder = ModelFile -> string

  /** JSON encodes different entries differently, as non-empty text in which a line break is escaped. */
  ghost predicate Encodes(marshal: Encoder) {
    && (forall f: ModelFile {:trigger marshal(f)} :: marshal(f) != "" && '\n' !in marshal(f))
    && (forall f: ModelFile, g: ModelFile {:trigger marshal(f), marshal(g)} :: marshal(f) == marshal(g) ==> f == g)
  }

  function Encoded(marshal: Encoder, files: seq<ModelFile>): (r: seq<string>)
    ensures |r| == |files| && forall i | 0 <= i < |r| :: r[i] == marshal(files[i])
  {
    seq(|files|, i requires 0 <= i < |files| => marshal(files[i]))
  }

  function Join(lines: seq<string>): string {
    if lines == [] then ""
    else if |lines| == 1 then lines[0]
    else lines[0] + "\n" + Join(lines[1..])
  }

  predicate Lines(lines: seq<string>) {
    forall i | 0 <= i < |lines| :: lines[i] != "" && '\n' !in lines[i]
  }

  /** The first line of a joined text is everything before its first line break. */
  lemma FirstLine(a: string, restA: string, b: string, restB: string)
    requires '\n' !in a && '\n' !in b && a + "\n" + restA == b + "\n" + restB
    ensures a == b && restA == restB
  {
    var s, t := a + "\n" + restA, b + "\n" + restB;
    assert s[|a|] == '\n' && t[|b|] == '\n';
    assert forall h | 0 <= h < |b| :: t[h] == b[h];
    assert forall h | 0 <= h < |a| :: s[h] == a[h];
    assert a == s[..|a|] && b == t[..|b|];
    assert restA == s[|a| + 1..] && restB == t[|b| + 1..];
  }

  lemma JoinHasBreak(lines: seq<string>)
    requires |lines| > 1
    ensures '\n' in Join(lines)
  {
    assert Join(lines)[|lines[0]|] == '\n';
  }

  lemma {:induction false} JoinIsInjective(a: seq<string>, b: seq<string>)
    requires Lines(a) && Lines(b) && Join(a) == Join(b)
    ensures a == b
  {
    if a == [] || b == [] {
    } else if |a| == 1 && |b| == 1 {
    } else if |a| == 1 {
      JoinHasBreak(b);
    } else if |b| == 1 {
      JoinHasBreak(a);
    } else {
      FirstLine(a[0], Join(a[1..]), b[0], Join(b[1..]));
      JoinIsInjective(a[1..], b[1..]);
      assert a == [a[0]] + a[1..] && b == [b[0]] + b[1..];
    }
  }

  lemma {:induction false} EncodedMultiset(marshal: Encoder, a: seq<ModelFile>, b: seq<ModelFile>)
    requires Encodes(marshal)
    ensures multiset(Encoded(marshal, a)) == multiset(Encoded(marshal, b)) <==> multiset(a) == multiset(b)
  {
    forall f
      ensures multiset(Encoded(marshal, a))[marshal(f)] == multiset(a)[f]
      ensures multiset(Encoded(marshal, b))[marshal(f)] == multiset(b)[f]
    {
      EncodedCount(marshal, a, f);
      EncodedCount(marshal, b, f);
    }
    forall x | multiset(a) == multiset(b)
      ensures multiset(Encoded(marshal, a))[x] == multiset(Encoded(marshal, b))[x]
    {
      EncodedElement(marshal, a, x);
      EncodedElement(marshal, b, x);
    }
    if multiset(Encoded(marshal, a)) == multiset(Encoded(marshal, b)) {
      assert forall f :: multiset(a)[f] == multiset(b)[f];
    }
  }

  lemma EncodedElement(marshal: Encoder, files: seq<ModelFile>, x: string)
    ensures x in multiset(Encoded(marshal, files)) ==> exists f :: x == marshal(f)
  {
    if x in multiset(Encoded(marshal, files)) {
      var i :| 0 <= i < |files| && Encoded(marshal, files)[i] == x;
      assert x == marshal(files[i]);
    }
  }

  lemma {:induction false} EncodedCount(marshal: Encoder, files: seq<ModelFile>, f: ModelFile)
    requires Encodes(marshal)
    ensures multiset(Encoded(marshal, files))[marshal(f)] == multiset(files)[f]
  {
    if files != [] {
      var last := |files| - 1;
      EncodedCount(marshal, files[..last], f);
      assert files == files[..last] + [files[last]];
      assert Encoded(marshal, files) == Encoded(marshal, files[..last]) + [marshal(files[last])];
    }
  }

  /** A sorted list of encoded entries, whose join is a key of the files. */
  ghost predicate IsKey(marshal: Encoder, files: seq<ModelFile>, key: string) {
    exists sorted: seq<string> :: Sorted(sorted) && multiset(sorted) == multiset(Encoded(marshal, files)) && key == Join(sorted)
  }

  /** The array is filled, sorted and joined. */
  method CanonicalKey(marshal: Encoder, files: seq<ModelFile>) returns (key: string)
    ensures IsKey(marshal, files, key)
  {
    var encoded := new string[|files|];
    for i := 0 to |files|
      invariant forall j | 0 <= j < i :: encoded[j] == marshal(files[j])
    {
      encoded[i] := marshal(files[i]);
    }
    assert encoded[..] == Encoded(marshal, files);
    var list := Sort(encoded[..]);
    key := Join(list);
  }

  lemma EncodedLines(marshal: Encoder, files: seq<ModelFile>, sorted: seq<string>)
    requires Encodes(marshal) && multiset(sorted) == multiset(Encoded(marshal, files))
    ensures Lines(sorted)
  {
    forall i | 0 <= i < |sorted|
      ensures sorted[i] != "" && '\n' !in sorted[i]
    {
      assert sorted[i] in multiset(sorted);
      assert sorted[i] in Encoded(marshal, files);
      var j :| 0 <= j < |files| && sorted[i] == marshal(files[j]);
    }
  }

  /** Two keys are equal exactly when the files are the same, each as often, in any order. */
  lemma KeysAgreeIff(marshal: Encoder, a: seq<ModelFile>, keyA: string, b: seq<ModelFile>, keyB: string)
    requires Encodes(marshal) && IsKey(marshal, a, keyA) && IsKey(marshal, b, keyB)
    ensures keyA == keyB <==> multiset(a) == multiset(b)
  {
    var sa: seq<string> :| Sorted(sa) && multiset(sa) == multiset(Encoded(marshal, a)) && keyA == Join(sa);
    var sb: seq<string> :| Sorted(sb) && multiset(sb) == multiset(Encoded(marshal, b)) && keyB == Join(sb);
    EncodedMultiset(marshal, a, b);
    if keyA == keyB {
      EncodedLines(marshal, a, sa);
      EncodedLines(marshal, b, sb);
      JoinIsInjective(sa, sb);
    }
    if multiset(a) == multiset(b) {
      SortedIsUnique(sa, sb);
    }
  }

  /** A member that did not record files must have aborted; all recorded file sets are the same. */
  ghost predicate SameFiles(tasks: Tasks, group: seq<nat>)
    requires forall k | k in group :: k in tasks
  {
    && (forall i | 0 <= i < |group| :: tasks[group[i]].exec.modelFiles == [] ==> tasks[group[i]].status == EndAborted)
    && (forall i, j | 0 <= i < j < |group| ::
          tasks[group[i]].exec.modelFiles != [] && tasks[group[j]].exec.modelFiles != [] ==>
            multiset(tasks[group[i]].exec.modelFiles) == multiset(tasks[group[j]].exec.modelFiles))
  }

  method CheckGroupExecutionModelFiles(marshal: Encoder, tasks: Tasks, group: seq<nat>) returns (ok: bool)
    requires Encodes(marshal) && forall k | k in group :: k in tasks
    ensures ok <==> SameFiles(tasks, group)
  {
    var groupKey, keyed := "", false;
    ghost var first: nat := 0;
    for n := 0 to |group|
      invariant forall i | 0 <= i < n :: tasks[group[i]].exec.modelFiles == [] ==> tasks[group[i]].status == EndAborted
      invariant !keyed ==> forall i | 0 <= i < n :: tasks[group[i]].exec.modelFiles == []
      invariant keyed ==> first < n && tasks[group[first]].exec.modelFiles != [] && IsKey(marshal, tasks[group[first]].exec.modelFiles, groupKey)
      invariant keyed ==> forall i | 0 <= i < n && tasks[group[i]].exec.modelFiles != [] ::
                  multiset(tasks[group[i]].exec.modelFiles) == multiset(tasks[group[first]].exec.modelFiles)
    {
      var t := tasks[group[n]];
      var files := t.exec.modelFiles;
      if files == [] {
        if t.status != EndAborted { return false; }
        continue;
      }
      var key := CanonicalKey(marshal, files);
      if !keyed {
        groupKey, keyed, first := key, true, n;
        continue;
      }
      KeysAgreeIff(marshal, files, key, tasks[group[first]].exec.modelFiles, groupKey);
      if key != groupKey {
        return false;
      }
    }
    ok := true;
  }

  // ---- executeValidationBatch of taskengine/dispatch.go ----

  /** A unit that is refused without asking Relay. */
  ghost predicate Refused(tasks: Tasks, group: seq<nat>)
    requires forall k | k in group :: k in tasks
  {
    |group| == 3 && !SameFiles(tasks, group)
  }

  ghost predicate Units(tasks: Tasks, units: seq<seq<nat>>) {
    forall i, k {:trigger k in units[i]} | 0 <= i < |units| && k in units[i] :: k in tasks
  }

  /** How many of the first n units are sent to Relay. */
  ghost function Sent(tasks: Tasks, units: seq<seq<nat>>, n: nat): nat
    requires Units(tasks, units) && n <= |units|
  {
    if n == 0 then 0 else Sent(tasks, units, n - 1) + if Refused(tasks, units[n - 1]) then 0 else 1
  }

  /** The unit is refused, or is the next of the units sent. */
  ghost predicate Sieved(tasks: Tasks, units: seq<seq<nat>>, i: nat, items: seq<seq<nat>>, submitted: seq<nat>, refused: set<nat>)
    requires Units(tasks, units) && i < |units|
  {
    if Refused(tasks, units[i]) then i in refused
    else
      var h := Sent(tasks, units, i);
      h < |items| && h < |submitted| && items[h] == units[i] && submitted[h] == i && i !in refused
  }

  /** The first loop: which units are refused, and which are sent, in order. */
  method SieveUnits(marshal: Encoder, tasks: Tasks, units: seq<seq<nat>>)
    returns (items: seq<seq<nat>>, submitted: seq<nat>, refused: set<nat>)
    requires Encodes(marshal) && Units(tasks, units)
    ensures |items| == |submitted| == Sent(tasks, units, |units|)
    ensures forall i | 0 <= i < |units| :: Sieved(tasks, units, i, items, submitted, refused)
    ensures forall h | 0 <= h < |submitted| :: submitted[h] < |units| && submitted[h] !in refused
    ensures Distinct(submitted)
  {
    hide SameFiles;
    items, submitted, refused := [], [], {};
    for n := 0 to |units|
      invariant |items| == |submitted| == Sent(tasks, units, n)
      invariant forall i | 0 <= i < n :: Sieved(tasks, units, i, items, submitted, refused)
      invariant forall h | 0 <= h < |submitted| :: submitted[h] < n && submitted[h] !in refused
      invariant forall i | i in refused :: i < n
      invariant Distinct(submitted)
    {
      var group := units[n];
      if |group| == 3 {
        var ok := CheckGroupExecutionModelFiles(marshal, tasks, group);
        if !ok {
          assert Refused(tasks, units[n]) && Sent(tasks, units, n + 1) == Sent(tasks, units, n);
          forall i | 0 <= i < n
            ensures Sieved(tasks, units, i, items, submitted, refused + {n})
          {
            assert Sieved(tasks, units, i, items, submitted, refused);
          }
          refused := refused + {n};
          continue;
        }
      }
      assert !Refused(tasks, units[n]) && Sent(tasks, units, n + 1) == Sent(tasks, units, n) + 1;
      forall i | 0 <= i <= n
        ensures Sieved(tasks, units, i, items + [group], submitted + [n], refused)
      {
        assert i < n ==> Sieved(tasks, units, i, items, submitted, refused);
      }
      submitted := submitted + [n];
      items := items + [group];
    }
  }

  /** The outcome of every unit: a refused one ends in a permanent error and is not sent; each other
      one gets Relay's outcome at its own place among the units sent. */
  method ExecuteValidationBatch(marshal: Encoder, tasks: Tasks, units: seq<seq<nat>>, relay: Option<seq<Outcome>>)
    returns (items: seq<seq<nat>>, outcomes: Option<seq<Outcome>>)
    requires Encodes(marshal) && Units(tasks, units)
    ensures |items| == Sent(tasks, units, |units|)
    ensures forall i | 0 <= i < |units| && !Refused(tasks, units[i]) ::
              Sent(tasks, units, i) < |items| && items[Sent(tasks, units, i)] == units[i]
    ensures outcomes.None? <==> items != [] && (relay.None? || |relay.value| != |items|)
    ensures outcomes.Some? ==> |outcomes.value| == |units| && forall i | 0 <= i < |units| ::
              if Refused(tasks, units[i]) then outcomes.value[i] == OutcomePermanentError
              else relay.Some? && Sent(tasks, units, i) < |relay.value| && outcomes.value[i] == relay.value[Sent(tasks, units, i)]
  {
    hide Refused, Sent;
    var submitted, refused;
    items, submitted, refused := SieveUnits(marshal, tasks, units);
    forall i | 0 <= i < |units|
      ensures !Refused(tasks, units[i]) ==> Sent(tasks, units, i) < |items| && items[Sent(tasks, units, i)] == units[i]
    {
      assert Sieved(tasks, units, i, items, submitted, refused);
    }
    var results := new Outcome[|units|](i => if i in refused then OutcomePermanentError else OutcomeTemporaryError);
    if |items| > 0 {
      if relay.None? || |relay.value| != |items| {
        return items, None;
      }
      for h := 0 to |submitted|
        invariant forall i | 0 <= i < |units| && i in refused :: results[i] == OutcomePermanentError
        invariant forall g | 0 <= g < h :: results[submitted[g]] == relay.value[g]
      {
        results[submitted[h]] := relay.value[h];
      }
    }
    outcomes := Some(results[..]);
    forall i | 0 <= i < |units|
      ensures if Refused(tasks, units[i]) then outcomes.value[i] == OutcomePermanentError
              else relay.Some? && Sent(tasks, units, i) < |relay.value| && outcomes.value[i] == relay.value[Sent(tasks, units, i)]
    {
      assert Sieved(tasks, units, i, items, submitted, refused);
    }
  }
}
