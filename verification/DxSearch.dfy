/** Finding the labels of a frequency window: a binary search that compares with ranges, and a scan upward from
    what it finds. */
module DxSearch {
  import opened Options
  import opened DxLabel
  import opened DxSchedule

  const SEARCH_WINDOW := 10.0

  /** Carrier plus offset, in kHz. */
  function Carrier(l: Label): real { l.freq + l.offset as real / 1000.0 }

  // ---- the binary search ------------------------------------------------------------------------------------

  /** The comparison with element `i`; `last` is where the list is taken to end. */
  function Compare(ls: seq<Label>, last: int, key: real, i: nat): int
    requires i < |ls| && last <= |ls|
  {
    if key == Carrier(ls[i]) then 0
    else if key < Carrier(ls[i]) then (if i == 0 then 0 else -1)
    else if i + 1 < last then (if key < Carrier(ls[i + 1]) then 0 else 1)
    else 0
  }

  /** What the comparison accepts: the key itself, the gap before the next element, or an end of the list. */
  predicate Fits(ls: seq<Label>, last: int, key: real, i: nat) {
    && i < |ls|
    && (key < Carrier(ls[i]) ==> i == 0)
    && (key > Carrier(ls[i]) && i + 1 < last && i + 1 < |ls| ==> key < Carrier(ls[i + 1]))
  }

  /** The search never comes back empty-handed from a list that is not empty, in whatever order the list is. */
  method Bsearch(list: array<Label>, n: nat, last: int, key: real) returns (r: Option<nat>)
    requires n <= list.Length && last <= n
    ensures r.Some? <==> n > 0
    ensures r.Some? ==> Fits(list[..n], last, key, r.value)
  {
    var ls := list[..n];
    var l, u := 0, n;
    while l < u
      invariant 0 <= l <= u <= n
      invariant n > 0 ==> l < u
      invariant 0 < l < n ==> key >= Carrier(list[l])
      invariant u < n ==> key < Carrier(list[u])
    {
      var i := (l + u) / 2;
      var c := Compare(ls, last, key, i);
      if c < 0 {
        u := i;
      } else if c > 0 {
        l := i + 1;
      } else {
        return Some(i);
      }
    }
    return None;
  }

  // ---- the scan ----------------------------------------------------------------------------------------------

  ghost predicate SortedByCarrier(ls: seq<Label>) {
    forall i, j :: 0 <= i < j < |ls| ==> Carrier(ls[i]) <= Carrier(ls[j])
  }

  /** What is asked for: the window, the time now, whether labels not on now are left out or only marked, and the
      filters on type and text. */
  datatype Query = Query(min: real, max: real, sunday0: nat, now: nat, onlyNow: bool,
                         typeOk: Label -> bool, textOk: Label -> bool)

  /** A label sent although it is not on now says so. */
  function Marked(flags: bv32, on: bool): bv32 { flags | if on then 0 else FILTERED }

  /** What a repaired label of the right type adds to the answer. */
  function Shown(l: Label, q: Query): seq<Label>
    requires q.sunday0 < 7
  {
    var on := DayOk(l, q.sunday0, q.now) && TimeOk(l, q.now);
    if (!on && q.onlyNow) || !q.textOk(l) then []
    else [l.(flags := Marked(l.flags, on))]
  }

  /** What one label adds to the answer. */
  function Offer(l: Label, q: Query): seq<Label>
    requires q.sunday0 < 7
  {
    if q.typeOk(l) then Shown(Repaired(l), q) else []
  }

  /** What the scan leaves in place of a label it has considered. */
  function Considered(l: Label, q: Query): Label { if q.typeOk(l) then Repaired(l) else l }

  /** The first position from `r` on that lies above `hi`. */
  function Stop(ls: seq<Label>, r: nat, hi: real): (t: nat)
    requires r <= |ls|
    ensures r <= t <= |ls|
    ensures forall i :: r <= i < t ==> Carrier(ls[i]) <= hi
    ensures t < |ls| ==> Carrier(ls[t]) > hi
    decreases |ls| - r
  {
    if r < |ls| && Carrier(ls[r]) <= hi then Stop(ls, r + 1, hi) else r
  }

  /** What a run of labels adds to the answer. */
  function Offers(ls: seq<Label>, q: Query): seq<Label>
    requires q.sunday0 < 7
  {
    if |ls| == 0 then [] else Offers(ls[..|ls| - 1], q) + Offer(ls[|ls| - 1], q)
  }

  method RepairAt(list: array<Label>, i: nat)
    requires i < list.Length
    modifies list
    ensures list[..] == old(list[..])[i := Repaired(old(list[i]))]
  {
    hide NoDays, AllDays;
    var l := list[i];
    if l.begin == 0 && l.end == 0 { l := l.(end := DAY); }
    if NoDays(l.flags) { l := l.(flags := AllDays(l.flags)); }
    list[i] := l;
  }

  method Show(l: Label, q: Query) returns (sent: seq<Label>)
    requires q.sunday0 < 7
    ensures sent == Shown(l, q)
  {
    hide DayOk, TimeOk, Marked;
    var on := true;
    if !DayOk(l, q.sunday0, q.now) {
      if q.onlyNow { return []; }
      on := false;
    }
    if !TimeOk(l, q.now) {
      if q.onlyNow { return []; }
      on := false;
    }
    if !q.textOk(l) { return []; }
    return [l.(flags := Marked(l.flags, on))];
  }

  /** Considers one label: repairs it, and says what it adds to the answer. */
  method Consider(list: array<Label>, i: nat, q: Query) returns (sent: seq<Label>)
    requires i < list.Length && q.sunday0 < 7
    modifies list
    ensures sent == Offer(old(list[i]), q)
    ensures list[..] == old(list[..])[i := Considered(old(list[i]), q)]
  {
    hide Shown, Repaired;
    if !q.typeOk(list[i]) {
      assert list[..] == old(list[..])[i := list[i]];
      return [];
    }
    RepairAt(list, i);
    assert list[..][i] == Repaired(old(list[i]));
    sent := Show(list[i], q);
  }

  /** The list after the labels from `r` up to `t` have been considered. */
  ghost predicate ConsideredTo(was: seq<Label>, ls: seq<Label>, r: nat, t: nat, q: Query) {
    |ls| == |was| && forall i :: 0 <= i < |ls| ==> ls[i] == if r <= i < t then Considered(was[i], q) else was[i]
  }

  lemma ConsideredNext(was: seq<Label>, ls: seq<Label>, r: nat, i: nat, q: Query)
    requires ConsideredTo(was, ls, r, i, q) && r <= i < |ls|
    ensures was[i] == ls[i]
    ensures ConsideredTo(was, ls[i := Considered(was[i], q)], r, i + 1, q)
  {
  }

  lemma OffersNext(ls: seq<Label>, r: nat, i: nat, q: Query)
    requires r <= i < |ls| && q.sunday0 < 7
    ensures Offers(ls[r..i + 1], q) == Offers(ls[r..i], q) + Offer(ls[i], q)
  {
    assert ls[r..i + 1][..i - r] == ls[r..i];
  }

  /** The answer to a query: the labels from the one found up to the last in the window. */
  method Markers(list: array<Label>, n: nat, q: Query) returns (sent: seq<Label>, ghost r: nat)
    requires 0 < n <= list.Length && q.sunday0 < 7
    modifies list
    ensures Fits(old(list[..n]), n - 1, q.min - SEARCH_WINDOW, r)
    ensures var t := Stop(old(list[..n]), r, q.max + SEARCH_WINDOW);
      sent == Offers(old(list[..n])[r..t], q) && ConsideredTo(old(list[..]), list[..], r, t, q)
  {
    hide Considered, Carrier, Offer, Offers, Stop, ConsideredTo;
    ghost var was, ls := list[..], list[..n];
    var found := Bsearch(list, n, n - 1, q.min - SEARCH_WINDOW);
    var i := found.value;
    r := i;
    sent := [];
    ConsideredNone(was, ls, r, q);
    ghost var t := Stop(ls, r, q.max + SEARCH_WINDOW);
    while i < n && Carrier(list[i]) <= q.max + SEARCH_WINDOW
      invariant r <= i <= t <= n
      invariant sent == Offers(ls[r..i], q)
      invariant ConsideredTo(was, list[..], r, i, q)
    {
      ConsideredNext(was, list[..], r, i, q);
      OffersNext(ls, r, i, q);
      assert list[i] == ls[i];
      var more := Consider(list, i, q);
      sent := sent + more;
      i := i + 1;
    }
    if i < n {
      ConsideredNext(was, list[..], r, i, q);
      assert list[i] == ls[i];
    }
  }

  lemma ConsideredNone(was: seq<Label>, ls: seq<Label>, r: nat, q: Query)
    requires r < |ls| && q.sunday0 < 7
    ensures ConsideredTo(was, was, r, r, q) && Offers(ls[r..r], q) == []
  {
  }

  /** A label is offered exactly when its type and text are asked for and it is scheduled for this minute or labels off
      the air are asked for too; it says so when it is not scheduled, and its days and times are filled in. */
  lemma OfferExact(l: Label, q: Query, day: int)
    requires IsTime(q.now) && q.sunday0 == (day + 1) % 7
    ensures var on := exists d: int :: OnDay(l.flags, d) && Covers(l, d, Minute(day, q.now));
      var m := Repaired(l);
      Offer(l, q) == if q.typeOk(l) && q.textOk(m) && (on || !q.onlyNow) then [m.(flags := Marked(m.flags, on))] else []
  {
    hide DayOk, TimeOk, OnDay, Covers, Minute, Marked, Repaired;
    AcceptsExact(l, day, q.now);
  }

  lemma MarkedExact(flags: bv32, on: bool)
    requires flags & FILTERED == 0
    ensures Marked(flags, on) & FILTERED == 0 <==> on
    ensures Marked(flags, on) & !FILTERED == flags
  {
  }

  // ---- the scan against the whole list ------------------------------------------------------------------------

  /** The labels of a frequency window, in list order. */
  function Window(ls: seq<Label>, lo: real, hi: real): (w: seq<Label>)
    ensures |w| <= |ls|
  {
    if |ls| == 0 then []
    else
      var l := ls[|ls| - 1];
      Window(ls[..|ls| - 1], lo, hi) + if lo < Carrier(l) <= hi then [l] else []
  }

  /** Every label of the window is at or after `r` and before the first one above the window. */
  ghost predicate MissesNone(ls: seq<Label>, r: nat, lo: real, hi: real)
    requires r <= |ls|
  {
    forall j :: 0 <= j < |ls| && lo < Carrier(ls[j]) <= hi ==> r <= j < Stop(ls, r, hi)
  }

  /** Whatever element the binary search may settle on, the scan from there misses no label of the window. */
  ghost predicate Serves(ls: seq<Label>, lo: real, hi: real) {
    forall r: nat :: Fits(ls, |ls| - 1, lo, r) ==> MissesNone(ls, r, lo, hi)
  }

  lemma SortedServes(ls: seq<Label>, r: nat, lo: real, hi: real)
    requires SortedByCarrier(ls) && |ls| > 0 && Fits(ls, |ls| - 1, lo, r)
    ensures MissesNone(ls, r, lo, hi)
  {
    var t := Stop(ls, r, hi);
    assert forall j :: 0 <= j < r ==> Carrier(ls[j]) <= Carrier(ls[r]);
    assert forall j :: t < j < |ls| ==> Carrier(ls[t]) <= Carrier(ls[j]);
  }

  lemma {:induction false} AdjacentSorted(ls: seq<Label>)
    requires forall i :: 0 < i < |ls| ==> Carrier(ls[i - 1]) <= Carrier(ls[i])
    ensures SortedByCarrier(ls)
  {
    if |ls| > 0 {
      var front := ls[..|ls| - 1];
      AdjacentSorted(front);
      forall i, j | 0 <= i < j < |ls| ensures Carrier(ls[i]) <= Carrier(ls[j]) {
        assert j < |front| ==> front[j] == ls[j];
        assert front[i] == ls[i] && front[|front| - 1] == ls[|ls| - 2];
      }
    }
  }

  /** A label out of order behind its predecessor is missed when the window ends between the two. */
  lemma DescentMisses(ls: seq<Label>, j: nat, r: nat)
    requires 0 < j < |ls| && Carrier(ls[j - 1]) > Carrier(ls[j])
    requires Fits(ls, |ls| - 1, Carrier(ls[j]) - 20.0, r)
    ensures !MissesNone(ls, r, Carrier(ls[j]) - 20.0, Carrier(ls[j]))
  {
    var hi := Carrier(ls[j]);
    assert r != j;
    assert !(r <= j < Stop(ls, r, hi));
  }

  /** For every window of at least the search margin on both sides, nothing is missed, exactly when the list is in
      order of carrier plus offset. The list is only kept in order of the carrier alone. */
  lemma ServesExact(ls: seq<Label>)
    requires |ls| > 0
    ensures SortedByCarrier(ls) <==>
      forall lo: real, hi: real :: lo + 2.0 * SEARCH_WINDOW <= hi ==> Serves(ls, lo, hi)
  {
    hide SortedByCarrier, MissesNone, Fits;
    if SortedByCarrier(ls) {
      forall lo: real, hi: real ensures Serves(ls, lo, hi) {
        SortedServesAll(ls, lo, hi);
      }
    } else if j :| 0 < j < |ls| && !(Carrier(ls[j - 1]) <= Carrier(ls[j])) {
      var hi := Carrier(ls[j]);
      var r := SomeFits(ls, |ls| - 1, hi - 20.0);
      DescentMisses(ls, j, r);
      assert !Serves(ls, hi - 20.0, hi);
    } else {
      AdjacentSorted(ls);
    }
  }

  lemma SortedServesAll(ls: seq<Label>, lo: real, hi: real)
    requires SortedByCarrier(ls) && |ls| > 0
    ensures Serves(ls, lo, hi)
  {
    hide MissesNone, SortedByCarrier;
    forall r: nat | |ls| > 0 && Fits(ls, |ls| - 1, lo, r) ensures MissesNone(ls, r, lo, hi) {
      SortedServes(ls, r, lo, hi);
    }
  }

  /** A list in order of the carriers, as it is kept, whose first label is 20 kHz off: asked for labels up to 100
      kHz, with the margin of 10 on either side, the scan stops before the one at 110. */
  lemma OffsetHides() returns (ls: seq<Label>)
    ensures |ls| == 3 && ls[0].freq < ls[1].freq < ls[2].freq
    ensures !Serves(ls, 100.0 - SEARCH_WINDOW, 100.0 + SEARCH_WINDOW)
  {
    var l := Label(100.0, 0, DAY, DOW, "", "", "", 0, 0, 20000, 0, 0);
    ls := [l, l.(freq := 110.0, offset := 0, idx := 1), l.(freq := 200.0, offset := 0, idx := 2)];
    assert Fits(ls, 2, 90.0, 0);
    assert Carrier(ls[1]) == 110.0 && Stop(ls, 0, 110.0) == 0;
    assert !MissesNone(ls, 0, 90.0, 110.0);
  }

  /** There is always an element that fits. */
  lemma {:induction false} SomeFits(ls: seq<Label>, last: nat, key: real) returns (r: nat)
    requires |ls| > 0 && last <= |ls|
    ensures Fits(ls, last, key, r)
  {
    r := 0;
    while r + 1 < last && Carrier(ls[r + 1]) <= key
      invariant r < |ls| && (r > 0 ==> Carrier(ls[r]) <= key)
    {
      r := r + 1;
    }
  }

  // ---- the answer against a scan of the whole list ---------------------------------------------------------------

  lemma {:induction false} WindowAppend(a: seq<Label>, b: seq<Label>, lo: real, hi: real)
    ensures Window(a + b, lo, hi) == Window(a, lo, hi) + Window(b, lo, hi)
  {
    if |b| == 0 {
      assert a + b == a;
    } else {
      assert (a + b)[..|a + b| - 1] == a + b[..|b| - 1];
      WindowAppend(a, b[..|b| - 1], lo, hi);
    }
  }

  lemma {:induction false} WindowNone(ls: seq<Label>, lo: real, hi: real)
    requires forall j :: 0 <= j < |ls| ==> !(lo < Carrier(ls[j]) <= hi)
    ensures Window(ls, lo, hi) == []
  {
    if |ls| > 0 { WindowNone(ls[..|ls| - 1], lo, hi); }
  }

  /** Considering a label does not move it. */
  lemma OfferStays(l: Label, q: Query, lo: real, hi: real)
    requires q.sunday0 < 7
    ensures Window(Offer(l, q), lo, hi) == if lo < Carrier(l) <= hi then Offer(l, q) else []
  {
    hide DayOk, TimeOk, Marked, NoDays, AllDays;
    var o := Offer(l, q);
    if |o| > 0 { assert o[..|o| - 1] == []; }
  }

  lemma {:induction false} WindowOffers(ls: seq<Label>, q: Query, lo: real, hi: real)
    requires q.sunday0 < 7
    ensures Window(Offers(ls, q), lo, hi) == Offers(Window(ls, lo, hi), q)
  {
    hide Offer, Carrier;
    if |ls| > 0 {
      var front, l := ls[..|ls| - 1], ls[|ls| - 1];
      WindowOffers(front, q, lo, hi);
      WindowAppend(Offers(front, q), Offer(l, q), lo, hi);
      OfferStays(l, q, lo, hi);
      var w := Window(front, lo, hi);
      assert w + [] == w && (w + [l])[..|w|] == w;
      assert Offers(w, q) + [] == Offers(w, q);
    }
  }

  /** On a list in order, the labels sent that lie above the lower margin are what considering every label of the
      window gives, in list order; nothing sent lies above the upper margin; and of the labels considered at most
      the first and the list's last lie below the lower one. */
  lemma ScanIsLinear(ls: seq<Label>, r: nat, q: Query)
    requires q.sunday0 < 7 && |ls| > 0 && SortedByCarrier(ls)
    requires Fits(ls, |ls| - 1, q.min - SEARCH_WINDOW, r)
    ensures var lo, hi := q.min - SEARCH_WINDOW, q.max + SEARCH_WINDOW;
      var t := Stop(ls, r, hi);
      && Window(Offers(ls[r..t], q), lo, hi) == Offers(Window(ls, lo, hi), q)
      && (forall j :: r <= j < t ==> Carrier(ls[j]) <= hi)
      && (forall j :: r < j < t && j < |ls| - 1 ==> Carrier(ls[j]) >= lo)
  {
    hide Window, Offers, SortedByCarrier, Carrier;
    var lo, hi := q.min - SEARCH_WINDOW, q.max + SEARCH_WINDOW;
    var t := Stop(ls, r, hi);
    FewBelow(ls, r, lo);
    SortedServes(ls, r, lo, hi);
    WindowNone(ls[..r], lo, hi);
    WindowNone(ls[t..], lo, hi);
    assert ls == ls[..r] + (ls[r..t] + ls[t..]);
    WindowAppend(ls[..r], ls[r..t] + ls[t..], lo, hi);
    WindowAppend(ls[r..t], ls[t..], lo, hi);
    WindowOffers(ls[r..t], q, lo, hi);
    assert [] + (Window(ls[r..t], lo, hi) + []) == Window(ls[r..t], lo, hi);
  }

  lemma FewBelow(ls: seq<Label>, r: nat, lo: real)
    requires |ls| > 0 && SortedByCarrier(ls) && Fits(ls, |ls| - 1, lo, r)
    ensures forall j :: r < j < |ls| - 1 ==> Carrier(ls[j]) >= lo
  {
    forall j | r < j < |ls| - 1 ensures Carrier(ls[j]) >= lo {
      assert Carrier(ls[r]) <= Carrier(ls[j]) && (r + 1 < j ==> Carrier(ls[r + 1]) <= Carrier(ls[j]));
    }
  }

  /** The administrator's search counts the last element too, and so finds the nearest label from below. */
  lemma NearestFromBelow(ls: seq<Label>, key: real, r: nat)
    requires |ls| > 0 && SortedByCarrier(ls) && Fits(ls, |ls|, key, r)
    ensures forall j :: 0 <= j < r ==> Carrier(ls[j]) <= key
    ensures forall j :: r < j < |ls| ==> Carrier(ls[j]) >= key
  {
    forall j | r < j < |ls| ensures Carrier(ls[j]) >= key {
      assert Carrier(ls[r]) <= Carrier(ls[j]) && (r + 1 < j ==> Carrier(ls[r + 1]) <= Carrier(ls[j]));
    }
  }
}
