/** Editing the stored label list: labels are added through a hidden slot past the end, changed in place, and
    deleted by sorting them to the end. */
module DxEdit {
  import opened DxLabel
  import opened Sorting

  /** The frequency that a label to be deleted is given. */
  const TOP := 999999.0
  const ALLOC_CHUNK := 256

  ghost predicate Sorted(ls: seq<Label>) {
    forall i, j :: 0 <= i < j < |ls| ==> ls[i].freq <= ls[j].freq
  }

  /** A label apart from its position. */
  function Content(l: Label): Label { l.(idx := 0) }

  /** The labels of a list, in no order. */
  function Bag(ls: seq<Label>): (b: multiset<Label>)
    ensures |b| == |ls|
  {
    if |ls| == 0 then multiset{} else Bag(ls[..|ls| - 1]) + multiset{Content(ls[|ls| - 1])}
  }

  lemma {:induction false} BagAppend(a: seq<Label>, b: seq<Label>)
    ensures Bag(a + b) == Bag(a) + Bag(b)
  {
    if |b| == 0 {
      assert a + b == a;
    } else {
      assert (a + b)[..|a + b| - 1] == a + b[..|b| - 1];
      BagAppend(a, b[..|b| - 1]);
    }
  }

  lemma BagLast(s: seq<Label>, l: Label)
    ensures Bag(s + [l]) == Bag(s) + multiset{Content(l)}
  {
    assert (s + [l])[..|s|] == s;
  }

  lemma BagReplace(ls: seq<Label>, k: nat, l: Label)
    requires k < |ls|
    ensures Content(ls[k]) in Bag(ls)
    ensures Bag(ls[k := l]) == Bag(ls) - multiset{Content(ls[k])} + multiset{Content(l)}
  {
    BagSplit(ls, k);
    BagSplit(ls[k := l], k);
    assert ls[k := l][..k] == ls[..k] && ls[k := l][k + 1..] == ls[k + 1..];
  }

  lemma BagSplit(ls: seq<Label>, k: nat)
    requires k < |ls|
    ensures Bag(ls) == Bag(ls[..k]) + multiset{Content(ls[k])} + Bag(ls[k + 1..])
  {
    hide Bag, Content;
    var a, b := ls[..k] + [ls[k]], ls[k + 1..];
    assert ls == a + b;
    BagAppend(a, b);
    BagLast(ls[..k], ls[k]);
  }

  lemma {:induction false} InBag(ls: seq<Label>, c: Label) returns (k: nat)
    requires c in Bag(ls)
    ensures k < |ls| && Content(ls[k]) == c
  {
    if Content(ls[|ls| - 1]) == c { k := |ls| - 1; } else { k := InBag(ls[..|ls| - 1], c); }
  }

  // ---- sorting ---------------------------------------------------------------------------------------------------

  /** What sorting by frequency promises: labels of the same frequency may end up in any order. */
  ghost predicate SortOf(s: seq<Label>, ls: seq<Label>) {
    |s| == |ls| && Sorted(s) && Bag(s) == Bag(ls)
  }

  function Freq(l: Label): real { l.freq }

  /** The list sorted, in one of the orders that are possible. */
  function SortedList(ls: seq<Label>): (s: seq<Label>)
    ensures SortOf(s, ls)
  {
    InsertAllSorts(ls, Freq, Content);
    SortBag(InsertAll(ls, Freq), ls);
    InsertAll(ls, Freq)
  }

  lemma {:induction false} BagIsImage(ls: seq<Label>)
    ensures Bag(ls) == Image(ls, Content)
  {
    if |ls| > 0 { BagIsImage(ls[..|ls| - 1]); }
  }

  lemma SortBag(s: seq<Label>, ls: seq<Label>)
    requires Ascending(s, Freq) && Image(s, Content) == Image(ls, Content)
    ensures SortOf(s, ls)
  {
    hide Bag, Content;
    BagIsImage(s);
    BagIsImage(ls);
    assert |s| == |Bag(s)| && |ls| == |Bag(ls)|;
    forall i, j | 0 <= i < j < |s| ensures s[i].freq <= s[j].freq { assert Freq(s[i]) <= Freq(s[j]); }
  }

  ghost predicate AtMost(s: seq<Label>, m: real) { forall i :: 0 <= i < |s| ==> s[i].freq <= m }

  lemma SortedAppend(s: seq<Label>, l: Label)
    requires Sorted(s) && AtMost(s, l.freq)
    ensures Sorted(s + [l])
  {
  }

  /** Sorting in place: what is past the end stays. */
  method QsortLabels(list: array<Label>, n: nat)
    requires n <= list.Length
    modifies list
    ensures SortOf(list[..n], old(list[..n])) && list[n..] == old(list[n..])
  {
    Qsort(list, n, Freq, Content);
    SortBag(list[..n], old(list[..n]));
  }

  // ---- deleting ------------------------------------------------------------------------------------------------------

  /** The list with label `k` marked for deletion. */
  function Doomed(ls: seq<Label>, k: nat): seq<Label>
    requires k < |ls|
  {
    ls[k := ls[k].(freq := TOP)]
  }

  /** Dropping the last label of the sorted list removes label `k` and nothing else. */
  ghost predicate DropsIt(ls: seq<Label>, k: nat, s: seq<Label>)
    requires k < |ls| == |s|
  {
    Bag(s[..|s| - 1]) == Bag(ls) - multiset{Content(ls[k])}
  }

  /** Every other label is below the frequency that marks a deletion (or is the very same label). */
  predicate DeleteSafe(ls: seq<Label>, k: nat)
    requires k < |ls|
  {
    forall j :: 0 <= j < |ls| && j != k ==> ls[j].freq < TOP || Content(ls[j]) == Content(Doomed(ls, k)[k])
  }

  lemma SafeDrops(ls: seq<Label>, k: nat, s: seq<Label>)
    requires k < |ls| && SortOf(s, Doomed(ls, k)) && DeleteSafe(ls, k)
    ensures DropsIt(ls, k, s)
  {
    hide Sorted, Bag;
    var d := Doomed(ls, k);
    var top := Content(d[k]);
    BagReplace(ls, k, d[k]);
    var last := LastIsHighest(s, top);
    assert Content(last) in Bag(s);
    var j := InBag(d, Content(last));
    Exchange(Bag(ls), Content(ls[k]), top, Bag(s[..|s| - 1]));
  }

  lemma Exchange<T>(a: multiset<T>, x: T, y: T, b: multiset<T>)
    requires x in a && a - multiset{x} + multiset{y} == b + multiset{y}
    ensures b == a - multiset{x}
  {
    assert b == b + multiset{y} - multiset{y};
    assert a - multiset{x} == a - multiset{x} + multiset{y} - multiset{y};
  }

  /** Nothing is above the last label of a sorted list. */
  lemma LastIsHighest(s: seq<Label>, c: Label) returns (last: Label)
    requires Sorted(s) && c in Bag(s)
    ensures |s| > 0 && last == s[|s| - 1] && last.freq >= c.freq
    ensures Bag(s) == Bag(s[..|s| - 1]) + multiset{Content(last)}
  {
    var i := InBag(s, c);
    last := s[|s| - 1];
  }

  lemma OtherLastKeeps(ls: seq<Label>, k: nat, s: seq<Label>)
    requires k < |ls| && SortOf(s, Doomed(ls, k)) && Content(s[|s| - 1]) != Content(Doomed(ls, k)[k])
    ensures !DropsIt(ls, k, s)
  {
    hide Sorted, Content;
    BagReplace(ls, k, Doomed(ls, k)[k]);
    Unequal(Bag(s[..|s| - 1]), Content(s[|s| - 1]), Content(Doomed(ls, k)[k]));
  }

  lemma Unequal<T>(a: multiset<T>, x: T, y: T)
    requires x != y
    ensures a + multiset{x} != a + multiset{y}
  {
    assert (a + multiset{x})[x] == a[x] + 1 && (a + multiset{y})[x] == a[x];
  }

  lemma UnsafeKeeps(ls: seq<Label>, k: nat) returns (s: seq<Label>)
    requires k < |ls| && !DeleteSafe(ls, k)
    ensures SortOf(s, Doomed(ls, k)) && !DropsIt(ls, k, s)
  {
    hide Bag;
    var d := Doomed(ls, k);
    var top := Content(d[k]);
    s := SortedList(d);
    if Content(s[|s| - 1]) == top {
      var j :| 0 <= j < |ls| && j != k && !(ls[j].freq < TOP || Content(ls[j]) == top);
      AllAtMost(s, d);
      s := MovedLast(d, j);
    }
    OtherLastKeeps(ls, k, s);
  }

  lemma AllAtMost(s: seq<Label>, ls: seq<Label>)
    requires SortOf(s, ls) && |s| > 0
    ensures AtMost(ls, s[|s| - 1].freq)
  {
    hide Bag, Content;
    forall i | 0 <= i < |ls| ensures ls[i].freq <= s[|s| - 1].freq {
      BagReplace(ls, i, ls[i]);
      var n := InBag(s, Content(ls[i]));
      ContentKeeps(s[n], ls[i]);
    }
  }

  lemma ContentKeeps(a: Label, b: Label)
    requires Content(a) == Content(b)
    ensures a.freq == b.freq
  {
  }

  /** A label that none exceeds may be the last of the sorted list. */
  lemma MovedLast(ls: seq<Label>, j: nat) returns (s: seq<Label>)
    requires j < |ls| && AtMost(ls, ls[j].freq)
    ensures SortOf(s, ls) && s[|s| - 1] == ls[j]
  {
    hide Bag, Content;
    var rest := ls[..j] + ls[j + 1..];
    BagAppend(ls[..j], ls[j + 1..]);
    BagSplit(ls, j);
    var t := SortedList(rest);
    if |t| > 0 {
      AllBelow(t, rest, ls[j].freq);
    }
    SortedAppend(t, ls[j]);
    BagLast(t, ls[j]);
    s := t + [ls[j]];
  }

  lemma AllBelow(s: seq<Label>, ls: seq<Label>, m: real)
    requires Bag(s) == Bag(ls) && AtMost(ls, m)
    ensures AtMost(s, m)
  {
    hide Bag, Content;
    forall i | 0 <= i < |s| ensures s[i].freq <= m {
      BagReplace(s, i, s[i]);
      var n := InBag(ls, Content(s[i]));
      ContentKeeps(s[i], ls[n]);
    }
  }

  /** However the sort orders labels of the same frequency, deleting removes exactly the label asked for, if and
      only if every other label is below the frequency that marks a deletion. */
  lemma DeleteExact(ls: seq<Label>, k: nat)
    requires k < |ls|
    ensures DeleteSafe(ls, k) <==> forall s: seq<Label> :: SortOf(s, Doomed(ls, k)) ==> DropsIt(ls, k, s)
  {
    hide DeleteSafe, DropsIt, SortOf;
    if DeleteSafe(ls, k) {
      forall s: seq<Label> | SortOf(s, Doomed(ls, k)) ensures |s| == |ls| && DropsIt(ls, k, s) {
        SortLength(s, Doomed(ls, k));
        SafeDrops(ls, k, s);
      }
    } else {
      var s := UnsafeKeeps(ls, k);
    }
  }

  lemma SortLength(s: seq<Label>, ls: seq<Label>)
    requires SortOf(s, ls)
    ensures |s| == |ls|
  {
  }

  function Plain(freq: real, ident: string): Label { Label(freq, 0, 2400, 0, ident, "", "", 0, 0, 0, 0, 0) }

  /** Deleting the first of two labels, at 7000 kHz and at 1000000, drops the second. */
  lemma DeleteDropsOther(s: seq<Label>)
    requires SortOf(s, Doomed([Plain(7000.0, "a"), Plain(1000000.0, "b")], 0))
    ensures Content(s[1]) == Plain(1000000.0, "b") && !DropsIt([Plain(7000.0, "a"), Plain(1000000.0, "b")], 0, s)
  {
    hide Bag;
    var ls := [Plain(7000.0, "a"), Plain(1000000.0, "b")];
    var d := Doomed(ls, 0);
    BagReplace(d, 1, d[1]);
    var last := LastIsHighest(s, Content(d[1]));
    var j := InBag(d, Content(last));
    OtherLastKeeps(ls, 0, s);
  }
}
