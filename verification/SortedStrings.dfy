/** Sorted lists of strings: what `sort.Strings` and `slices.Sort` promise, and that it determines
    their result. */
module SortedStrings {

  /** Lexicographic order by code point. */
  predicate Le(a: string, b: string)
    decreases |a|
  {
    a == [] || (b != [] && (a[0] < b[0] || (a[0] == b[0] && Le(a[1..], b[1..]))))
  }

  lemma {:induction false} LeTotal(a: string, b: string)
    ensures Le(a, b) || Le(b, a)
    ensures Le(a, b) && Le(b, a) ==> a == b
    decreases |a|
  {
    if a != [] && b != [] && a[0] == b[0] {
      LeTotal(a[1..], b[1..]);
      assert a == [a[0]] + a[1..] && b == [b[0]] + b[1..];
    }
  }

  lemma {:induction false} LeTransitive(a: string, b: string, c: string)
    requires Le(a, b) && Le(b, c)
    ensures Le(a, c)
    decreases |a|
  {
    if a != [] && b[0] == a[0] && c[0] == b[0] {
      LeTransitive(a[1..], b[1..], c[1..]);
    }
  }

  predicate Sorted(list: seq<string>) {
    forall i, j | 0 <= i < j < |list| :: Le(list[i], list[j])
  }

  lemma SortedHead(list: seq<string>, x: string)
    requires Sorted(list) && x in multiset(list)
    ensures list != [] && (list[0] == x || Le(list[0], x))
  {
    assert x in list;
    var j :| 0 <= j < |list| && list[j] == x;
    assert j > 0 ==> Le(list[0], list[j]);
  }

  lemma TailMultiset(list: seq<string>)
    requires list != []
    ensures multiset(list[1..]) == multiset(list) - multiset{list[0]}
  {
    assert list == [list[0]] + list[1..];
  }

  /** Two sorted lists with the same elements are the same list. */
  lemma {:induction false} SortedIsUnique(a: seq<string>, b: seq<string>)
    requires Sorted(a) && Sorted(b) && multiset(a) == multiset(b)
    ensures a == b
  {
    if a == [] {
      assert |multiset(b)| == 0;
    } else {
      assert a[0] in multiset(a);
      SortedHead(b, a[0]);
      SortedHead(a, b[0]);
      LeTotal(a[0], b[0]);
      TailMultiset(a);
      TailMultiset(b);
      SortedIsUnique(a[1..], b[1..]);
      assert a == [a[0]] + a[1..] && b == [b[0]] + b[1..];
    }
  }

  method InsertSorted(list: seq<string>, x: string) returns (r: seq<string>)
    requires Sorted(list)
    ensures Sorted(r) && multiset(r) == multiset(list) + multiset{x}
  {
    var i := |list|;
    while i > 0 && !Le(list[i - 1], x)
      invariant 0 <= i <= |list|
      invariant forall j | i <= j < |list| :: Le(x, list[j])
    {
      LeTotal(list[i - 1], x);
      i := i - 1;
    }
    forall j | 0 <= j < i
      ensures Le(list[j], x)
    {
      if j < i - 1 { LeTransitive(list[j], list[i - 1], x); }
    }
    r := list[..i] + [x] + list[i..];
    assert list == list[..i] + list[i..];
  }

  method Sort(list: seq<string>) returns (r: seq<string>)
    ensures Sorted(r) && multiset(r) == multiset(list)
  {
    r := [];
    for i := 0 to |list|
      invariant Sorted(r) && multiset(r) == multiset(list[..i])
    {
      assert list[..i + 1] == list[..i] + [list[i]];
      r := InsertSorted(r, list[i]);
    }
    assert list[..|list|] == list;
  }
}
