/** The stored label list as a table with a hidden slot past its end, and the request that edits it. */
module DxStore {
  import opened DxLabel
  import opened DxEdit

  /** An edit request: one with all twelve fields changes or adds a label, one with two deletes. */
  datatype Request = Request(full: bool, gid: int, l: Label)

  datatype Edit = Ignored | Added | Changed | Deleted

  function KindOf(n: nat, r: Request): Edit {
    if r.gid == -9 || (r.gid != -1 && n == 0) || !(-1 <= r.gid < n) then Ignored
    else if !r.full && r.gid != -1 && r.l.freq == -1.0 then Deleted
    else if r.full then (if r.gid == -1 then Added else Changed)
    else Ignored
  }

  /** Every label knows its position. */
  ghost predicate Numbered(ls: seq<Label>) { forall i :: 0 <= i < |ls| ==> ls[i].idx == i }

  function Timed(l: Label): Label { if l.begin == 0 && l.end == 0 then l.(end := 2400) else l }

  /** What an edit makes of the list: the labels change by exactly what was asked for, and stay where they are
      when no frequency changes. */
  ghost predicate Edits(ls: seq<Label>, r: Request, after: seq<Label>) {
    match KindOf(|ls|, r)
    case Ignored => after == ls
    case Added => Bag(after) == Bag(ls) + multiset{Content(r.l)}
    case Changed =>
      && Bag(after) == Bag(ls) - multiset{Content(ls[r.gid])} + multiset{Content(Timed(r.l))}
      && (r.l.freq == ls[r.gid].freq ==> after == ls[r.gid := Timed(r.l).(idx := r.gid)])
    case Deleted =>
      && |after| == |ls| - 1
      && (DeleteSafe(ls, r.gid) ==> Bag(after) == Bag(ls) - multiset{Content(ls[r.gid])})
  }

  /** `after` is the start of `s`, numbered. */
  ghost predicate NumberedFrom(after: seq<Label>, s: seq<Label>) {
    |after| <= |s| && forall i :: 0 <= i < |after| ==> after[i] == s[i].(idx := i)
  }

  lemma {:induction false} NumberedBag(after: seq<Label>, s: seq<Label>)
    requires NumberedFrom(after, s)
    ensures Bag(after) == Bag(s[..|after|])
  {
    if |after| > 0 {
      NumberedBag(after[..|after| - 1], s);
      assert s[..|after|][..|after| - 1] == s[..|after| - 1];
    }
  }

  lemma NumberedOrder(after: seq<Label>, s: seq<Label>)
    requires NumberedFrom(after, s)
    ensures Sorted(s) ==> Sorted(after)
    ensures Numbered(after)
  {
  }

  /** The list as edited, before it is sorted and numbered again. */
  function Draft(ls: seq<Label>, r: Request): seq<Label> {
    match KindOf(|ls|, r)
    case Ignored => ls
    case Added => ls + [r.l]
    case Changed => ls[r.gid := Timed(r.l).(idx := ls[r.gid].idx)]
    case Deleted => Doomed(ls, r.gid)
  }

  predicate NeedsSort(ls: seq<Label>, r: Request) {
    match KindOf(|ls|, r)
    case Ignored => false
    case Added => true
    case Changed => ls[r.gid].freq != r.l.freq
    case Deleted => true
  }

  function NewLen(n: nat, r: Request): nat {
    match KindOf(n, r)
    case Ignored => n
    case Added => n + 1
    case Changed => n
    case Deleted => n - 1
  }

  lemma DraftBag(ls: seq<Label>, r: Request)
    ensures KindOf(|ls|, r).Added? ==> Bag(Draft(ls, r)) == Bag(ls) + multiset{Content(r.l)}
    ensures KindOf(|ls|, r).Changed? ==>
      Bag(Draft(ls, r)) == Bag(ls) - multiset{Content(ls[r.gid])} + multiset{Content(Timed(r.l))}
  {
    hide Bag;
    match KindOf(|ls|, r)
    case Added => BagLast(ls, r.l);
    case Changed => BagReplace(ls, r.gid, Draft(ls, r)[r.gid]);
    case Deleted =>
    case Ignored =>
  }

  lemma UnsortedSorted(ls: seq<Label>, r: Request)
    requires Sorted(ls) && !NeedsSort(ls, r)
    ensures Sorted(Draft(ls, r))
  {
  }

  /** Sorting the draft when need be and numbering it makes the edit. */
  lemma EditMade(ls: seq<Label>, r: Request, s: seq<Label>, after: seq<Label>)
    requires Sorted(ls) && Numbered(ls) && KindOf(|ls|, r) != Ignored
    requires if NeedsSort(ls, r) then SortOf(s, Draft(ls, r)) else s == Draft(ls, r)
    requires NumberedFrom(after, s) && |after| == NewLen(|ls|, r)
    ensures Edits(ls, r, after) && Sorted(after) && Numbered(after)
  {
    hide Sorted, Bag, Content, DeleteSafe;
    NumberedBag(after, s);
    NumberedOrder(after, s);
    DraftBag(ls, r);
    if !NeedsSort(ls, r) { UnsortedSorted(ls, r); }
    match KindOf(|ls|, r)
    case Added => assert s[..|after|] == s;
    case Changed =>
      assert s[..|after|] == s;
      if r.l.freq == ls[r.gid].freq { assert after == ls[r.gid := Timed(r.l).(idx := r.gid)]; }
    case Deleted =>
      if DeleteSafe(ls, r.gid) { SafeDrops(ls, r.gid, s); }
  }

  class DxDb {
    var list: array<Label>
    var actualLen: nat
    var hiddenUsed: bool

    ghost function Labels(): seq<Label>
      requires actualLen <= list.Length
      reads this, list
    {
      list[..actualLen]
    }

    /** The list is in order of frequency, every label knows its position, and there is a slot to spare. */
    ghost predicate Valid() reads this, list {
      actualLen + 1 <= list.Length && !hiddenUsed && Sorted(Labels()) && Numbered(Labels())
    }

    /** Sorts the first `prev` entries if need be, and numbers the first `len`. */
    method Prep(needSort: bool, prev: nat, len: nat) returns (ghost s: seq<Label>)
      requires prev <= list.Length && len <= prev
      modifies list
      ensures if needSort then SortOf(s, old(list[..prev])) else s == old(list[..prev])
      ensures NumberedFrom(list[..len], s)
    {
      hide Sorted, Bag;
      if needSort { QsortLabels(list, prev); }
      s := list[..prev];
      var i := 0;
      while i < len
        invariant 0 <= i <= len
        invariant forall k :: 0 <= k < prev ==> list[k] == if k < i then s[k].(idx := k) else s[k]
      {
        list[i] := list[i].(idx := i);
        i := i + 1;
      }
    }

    /** Switches to a list that has been read in. */
    method Install(loaded: array<Label>, n: nat)
      requires n + 1 <= loaded.Length
      modifies this, loaded
      ensures Valid() && SortOf(Labels(), old(loaded[..n]))
    {
      hide Sorted, Bag;
      list, actualLen, hiddenUsed := loaded, n, false;
      ghost var s := Prep(true, n, n);
      NumberedBag(Labels(), s);
      NumberedOrder(Labels(), s);
      assert s[..n] == s;
    }

    /** Makes room for a new hidden slot. */
    method Grow()
      requires actualLen <= list.Length
      modifies this`list
      ensures actualLen + 1 <= list.Length && Labels() == old(Labels())
      ensures list == old(list) || fresh(list)
    {
      if actualLen + 1 > list.Length {
        var more := new Label[list.Length + ALLOC_CHUNK];
        forall i | 0 <= i < list.Length { more[i] := list[i]; }
        list := more;
      }
    }

    /** Edits the list as drafted: the label is put in its slot, or marked. */
    method Place(r: Request) returns (needSort: bool, newLen: nat)
      requires Valid() && KindOf(actualLen, r) != Ignored
      modifies this`actualLen, this`hiddenUsed, list
      ensures actualLen <= list.Length && Labels() == Draft(old(Labels()), r)
      ensures needSort == NeedsSort(old(Labels()), r) && newLen == NewLen(old(actualLen), r) <= actualLen
      ensures hiddenUsed == (r.gid == -1)
    {
      hide Sorted;
      if !r.full {
        list[r.gid] := list[r.gid].(freq := TOP);
        newLen := actualLen - 1;
        needSort := true;
      } else if r.gid == -1 {
        var k := actualLen;
        hiddenUsed := true;
        actualLen := actualLen + 1;
        newLen := actualLen;
        needSort := true;
        list[k] := r.l;
      } else {
        newLen := actualLen;
        needSort := list[r.gid].freq != r.l.freq;
        list[r.gid] := Timed(r.l).(idx := list[r.gid].idx);
      }
    }

    /** Carries out an edit request, or ignores it. */
    method Update(r: Request)
      requires Valid()
      modifies this, list
      ensures Valid() && Edits(old(Labels()), r, Labels())
      ensures list == old(list) || fresh(list)
    {
      hide Sorted, Draft, NeedsSort, NumberedFrom, Edits, Bag;
      if KindOf(actualLen, r) == Ignored {
        EditIgnored(Labels(), r);
        return;
      }
      ghost var ls := Labels();
      var needSort, newLen := Place(r);
      ghost var s := Prep(needSort, actualLen, newLen);
      actualLen := newLen;
      EditMade(ls, r, s, Labels());
      if hiddenUsed {
        Grow();
        hiddenUsed := false;
      }
    }
  }

  lemma EditIgnored(ls: seq<Label>, r: Request)
    requires KindOf(|ls|, r) == Ignored
    ensures Edits(ls, r, ls)
  {
  }

  // ---- runs ------------------------------------------------------------------------------------------------------------

  ghost predicate BelowTop(ls: seq<Label>) { forall i :: 0 <= i < |ls| ==> ls[i].freq < TOP }

  /** The labels that a request asks for. */
  function Asked(ls: seq<Label>, r: Request): multiset<Label> {
    match KindOf(|ls|, r)
    case Ignored => Bag(ls)
    case Added => Bag(ls) + multiset{Content(r.l)}
    case Changed => Bag(ls) - multiset{Content(ls[r.gid])} + multiset{Content(Timed(r.l))}
    case Deleted => Bag(ls) - multiset{Content(ls[r.gid])}
  }

  lemma AskedFrom(ls: seq<Label>, r: Request, c: Label)
    requires c in Asked(ls, r)
    ensures c in Bag(ls) || c == Content(r.l) || c == Content(Timed(r.l))
  {
    hide Bag, Content;
  }

  lemma EditBag(ls: seq<Label>, r: Request, after: seq<Label>)
    requires BelowTop(ls) && Edits(ls, r, after)
    ensures Bag(after) == Asked(ls, r)
  {
    hide Bag, Content;
  }

  lemma EditAsked(ls: seq<Label>, r: Request, after: seq<Label>)
    requires BelowTop(ls) && r.l.freq < TOP && Edits(ls, r, after)
    ensures Bag(after) == Asked(ls, r) && BelowTop(after)
  {
    hide Bag, Edits, Asked;
    EditBag(ls, r, after);
    forall i | 0 <= i < |after| ensures after[i].freq < TOP {
      BagReplace(after, i, after[i]);
      var c := Content(after[i]);
      AskedFrom(ls, r, c);
      if c in Bag(ls) { var k := InBag(ls, c); }
    }
  }

  /** A run: the list before each request and after the last one. */
  ghost predicate IsRun(states: seq<seq<Label>>, rs: seq<Request>) {
    |states| == |rs| + 1 && forall i :: 0 <= i < |rs| ==> Edits(states[i], rs[i], states[i + 1])
  }

  /** With every frequency below the one that marks a deletion, each request of a run changes the labels by exactly
      what it asks for. */
  lemma {:induction false} RunAsked(states: seq<seq<Label>>, rs: seq<Request>, n: nat)
    requires IsRun(states, rs) && BelowTop(states[0]) && n <= |rs|
    requires forall i :: 0 <= i < |rs| ==> rs[i].l.freq < TOP
    ensures BelowTop(states[n])
    ensures forall i :: 0 <= i < n ==> Bag(states[i + 1]) == Asked(states[i], rs[i])
  {
    hide Bag, Asked, Edits, BelowTop;
    if n > 0 {
      RunAsked(states, rs, n - 1);
      assert Edits(states[n - 1], rs[n - 1], states[n - 1 + 1]);
      EditAsked(states[n - 1], rs[n - 1], states[n]);
    }
  }
}
