/** Stands in for the library's sort: a sort by a key, of which nothing else is used than what a sort promises. */
module Sorting {

  ghost predicate Ascending<T(!new)>(s: seq<T>, key: T -> real) {
    forall i, j :: 0 <= i < j < |s| ==> key(s[i]) <= key(s[j])
  }

  ghost predicate AtMost<T(!new)>(s: seq<T>, key: T -> real, m: real) {
    forall i :: 0 <= i < |s| ==> key(s[i]) <= m
  }

  /** What the elements show, in no order. */
  function Image<T, U>(s: seq<T>, show: T -> U): multiset<U> {
    if |s| == 0 then multiset{} else Image(s[..|s| - 1], show) + multiset{show(s[|s| - 1])}
  }

  function Insert<T>(s: seq<T>, x: T, key: T -> real): (r: seq<T>)
    ensures |r| == |s| + 1
  {
    if |s| == 0 || key(s[|s| - 1]) <= key(x) then s + [x] else Insert(s[..|s| - 1], x, key) + [s[|s| - 1]]
  }

  function InsertAll<T>(s: seq<T>, key: T -> real): (r: seq<T>)
    ensures |r| == |s|
  {
    if |s| == 0 then [] else Insert(InsertAll(s[..|s| - 1], key), s[|s| - 1], key)
  }

  lemma ImageLast<T, U>(s: seq<T>, x: T, show: T -> U)
    ensures Image(s + [x], show) == Image(s, show) + multiset{show(x)}
  {
    assert (s + [x])[..|s|] == s;
  }

  lemma {:induction false} InsertImage<T, U>(s: seq<T>, x: T, key: T -> real, show: T -> U)
    ensures Image(Insert(s, x, key), show) == Image(s, show) + multiset{show(x)}
  {
    if |s| > 0 && key(s[|s| - 1]) > key(x) {
      var front := s[..|s| - 1];
      InsertImage(front, x, key, show);
      ImageLast(Insert(front, x, key), s[|s| - 1], show);
    } else {
      ImageLast(s, x, show);
    }
  }

  lemma {:induction false} InsertAscending<T(!new)>(s: seq<T>, x: T, key: T -> real, m: real)
    requires Ascending(s, key) && AtMost(s, key, m) && key(x) <= m
    ensures Ascending(Insert(s, x, key), key) && AtMost(Insert(s, x, key), key, m)
  {
    if |s| > 0 && key(s[|s| - 1]) > key(x) { InsertAscending(s[..|s| - 1], x, key, key(s[|s| - 1])); }
  }

  lemma {:induction false} InsertAllSorts<T(!new), U>(s: seq<T>, key: T -> real, show: T -> U)
    ensures Ascending(InsertAll(s, key), key) && Image(InsertAll(s, key), show) == Image(s, show)
  {
    if |s| > 0 {
      var front, x := s[..|s| - 1], s[|s| - 1];
      var sorted := InsertAll(front, key);
      InsertAllSorts(front, key, show);
      var last := if sorted == [] then key(x) else key(sorted[|sorted| - 1]);
      InsertAscending(sorted, x, key, if last <= key(x) then key(x) else last);
      InsertImage(sorted, x, key, show);
    }
  }

  method Qsort<T(!new), U>(a: array<T>, n: nat, key: T -> real, ghost show: T -> U)
    requires n <= a.Length
    modifies a
    ensures Ascending(a[..n], key) && Image(a[..n], show) == Image(old(a[..n]), show)
    ensures a[n..] == old(a[n..])
  {
    var s := InsertAll(a[..n], key);
    InsertAllSorts(a[..n], key, show);
    forall i | 0 <= i < n { a[i] := s[i]; }
    assert a[..n] == s;
  }
}
