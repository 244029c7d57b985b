/** Saving the whole list and reading it back in. */
module DxReload {
  import opened DxLabel
  import opened DxSave
  import opened DxLine
  import opened DxEdit
  import opened DxStore

  /** The labels read so far, and the frequency the next one may not be below. */
  datatype Reading = Reading(labels: seq<Label>, last: real)

  /** For an element whose line is too long for the buffer: the numbers at the front of those of its further pieces that are
      taken for lists. What the tokenizer makes of such pieces is not part of this model. */
  type Pieces = Elem -> seq<real>

  /** A list that is no label still moves the frequency that the next one may not be below. */
  function Moved(last: real, fs: seq<real>): real {
    if |fs| == 0 then last
    else
      var m, f := Moved(last, fs[..|fs| - 1]), fs[|fs| - 1];
      if f < m then 0.0 else f
  }

  /** An element whose line does not fit is left out. So is a label below the one before it, and the check starts over. */
  function ReadNext(r: Reading, e: Elem, pieces: Pieces): Reading {
    if !Fits(e) then r.(last := Moved(r.last, pieces(e)))
    else if e.freq < r.last then r.(last := 0.0)
    else Reading(r.labels + [Loaded(ZERO, e)], e.freq)
  }

  function ReadAll(es: seq<Elem>, pieces: Pieces): Reading {
    if |es| == 0 then Reading([], 0.0) else ReadNext(ReadAll(es[..|es| - 1], pieces), es[|es| - 1], pieces)
  }

  /** The further pieces of a line, one by one: `freq` is what the last of them leaves in the slot. */
  method ReadPieces(last0: real, fs: seq<real>, freq0: real) returns (last: real, freq: real)
    ensures last == Moved(last0, fs)
  {
    last, freq := last0, freq0;
    var i := 0;
    while i < |fs|
      invariant 0 <= i <= |fs| && last == Moved(last0, fs[..i])
    {
      assert fs[..i + 1][..i] == fs[..i];
      freq := fs[i];
      last := if freq < last then 0.0 else freq;
      i := i + 1;
    }
    assert fs[..i] == fs;
  }

  /** Reads elements into a table that grows in chunks. The look for one more element after the last leaves a slot to
      spare. */
  method ReadFile(es: seq<Elem>, pieces: Pieces) returns (list: array<Label>, n: nat)
    ensures fresh(list) && n + 1 <= list.Length && list[..n] == ReadAll(es, pieces).labels
  {
    hide Loaded, Fits, Moved;
    list := new Label[0];
    var i, lines, last, done := 0, 0, 0.0, false;
    while !done
      invariant fresh(list) && i <= list.Length && lines <= |es|
      invariant done ==> lines == |es| && i < list.Length
      invariant Reading(list[..i], last) == ReadAll(es[..lines], pieces)
      invariant forall k :: i <= k < list.Length ==> list[k] == ZERO.(freq := list[k].freq)
      decreases |es| - lines, !done
    {
      if i >= list.Length {
        var more := new Label[list.Length + ALLOC_CHUNK](_ => ZERO);
        forall k | 0 <= k < i { more[k] := list[k]; }
        list := more;
      }
      if lines < |es| {
        var e := es[lines];
        lines := lines + 1;
        assert es[..lines][..lines - 1] == es[..lines - 1];
        var whole := ReadPiece(e, lines == |es|);
        if !whole {
          var freq;
          last, freq := ReadPieces(last, pieces(e), list[i].freq);
          list[i] := list[i].(freq := freq);
        } else if e.freq < last {
          last := 0.0;
          list[i] := list[i].(freq := e.freq);
        } else {
          last := e.freq;
          SlotFreq(list[i], e);
          var l := Load(list[i], e);
          list[i] := l;
          i := i + 1;
        }
      } else {
        done := true;
      }
    }
    assert es[..lines] == es;
    n := i;
  }

  /** What is left in a slot by a label that was left out does not show. */
  lemma SlotFreq(slot: Label, e: Elem)
    requires slot == ZERO.(freq := slot.freq)
    ensures Loaded(slot, e) == Loaded(ZERO, e)
  {
    assert Started(slot, e) == Started(ZERO, e);
  }

  function SavedAll(ls: seq<Label>): (es: seq<Elem>)
    ensures |es| == |ls|
  {
    if |ls| == 0 then [] else SavedAll(ls[..|ls| - 1]) + [Saved(ls[|ls| - 1])]
  }

  /** Writes all labels of the list. */
  method SaveList(list: array<Label>, n: nat) returns (es: seq<Elem>)
    requires n <= list.Length
    ensures es == SavedAll(list[..n])
  {
    hide Saved;
    es := [];
    var i := 0;
    while i < n
      invariant 0 <= i <= n && es == SavedAll(list[..i])
    {
      assert list[..i + 1][..i] == list[..i];
      var e := Save(list[i]);
      es := es + [e];
      i := i + 1;
    }
  }

  /** Restarting: the list is written out, read back in and installed. */
  method Restart(db: DxDb, pieces: Pieces)
    requires db.Valid()
    modifies db
    ensures db.Valid() && SortOf(db.Labels(), ReadAll(SavedAll(old(db.Labels())), pieces).labels)
  {
    hide Sorted, Bag, ReadAll, SavedAll, Numbered;
    var es := SaveList(db.list, db.actualLen);
    var list, n := ReadFile(es, pieces);
    db.Install(list, n);
  }

  lemma Round2Close(x: real)
    ensures x - 0.005 < Round2(x) <= x + 0.005
  {
    var f := (x * 100.0 + 0.5).Floor;
    assert f as real <= x * 100.0 + 0.5 < f as real + 1.0;
  }

  lemma Round2Order(x: real, y: real)
    requires x <= y
    ensures Round2(x) <= Round2(y)
  {
    var a, b := x * 100.0 + 0.5, y * 100.0 + 0.5;
    FloorOrder(a, b);
    assert a.Floor as real <= b.Floor as real;
  }

  lemma FloorOrder(a: real, b: real)
    requires a <= b
    ensures a.Floor <= b.Floor
  {
    assert a.Floor as real <= a <= b < b.Floor as real + 1.0;
  }

  // ---- what comes back -----------------------------------------------------------------------------------------------------

  /** A label that comes back when nothing else moves the frequency it is compared with: its line fits the buffer, and its
      frequency is not negative to two decimals. */
  predicate Back(l: Label) { Fits(Saved(l)) && Round2(l.freq) >= 0.0 }

  function Kept(ls: seq<Label>): seq<Label> {
    if |ls| == 0 then []
    else
      var l := ls[|ls| - 1];
      Kept(ls[..|ls| - 1]) + if Back(l) then [l] else []
  }

  /** The labels as they come back. */
  function Returned(ls: seq<Label>): seq<Label> {
    if |ls| == 0 then []
    else
      var l := ls[|ls| - 1];
      Returned(ls[..|ls| - 1]) + if Back(l) then [Reloaded(ZERO, l)] else []
  }

  /** What the next label is compared with, as long as every label so far that was to come back did. */
  function Mark(ls: seq<Label>, pieces: Pieces): real {
    if |ls| == 0 then 0.0
    else
      var front, l := ls[..|ls| - 1], ls[|ls| - 1];
      if !Fits(Saved(l)) then Moved(Mark(front, pieces), pieces(Saved(l)))
      else if Round2(l.freq) < 0.0 then 0.0
      else Round2(l.freq)
  }

  /** No piece of a line that is too long keeps out the label after it. */
  predicate Undisturbed(ls: seq<Label>, pieces: Pieces) {
    |ls| == 0 ||
    var front, l := ls[..|ls| - 1], ls[|ls| - 1];
    Undisturbed(front, pieces) && (Back(l) ==> Round2(l.freq) >= Mark(front, pieces))
  }

  lemma {:induction false} MovedUp(last: real, fs: seq<real>)
    requires last >= 0.0
    ensures Moved(last, fs) >= 0.0
  {
    if |fs| > 0 { MovedUp(last, fs[..|fs| - 1]); }
  }

  /** Reading one saved label. */
  lemma ReadSavedStep(r: Reading, l: Label, pieces: Pieces)
    requires r.last >= 0.0
    ensures var n := ReadNext(r, Saved(l), pieces);
      && n.last >= 0.0
      && n == if !Fits(Saved(l)) then r.(last := Moved(r.last, pieces(Saved(l))))
              else if Back(l) && Round2(l.freq) >= r.last then Reading(r.labels + [Reloaded(ZERO, l)], Round2(l.freq))
              else r.(last := 0.0)
  {
    hide Fits, Loaded, Reloaded, Round2, Moved;
    MovedUp(r.last, pieces(Saved(l)));
    SavedFreq(l);
    ReloadExact(ZERO, l);
  }

  lemma SavedLast(ls: seq<Label>, pieces: Pieces)
    requires |ls| > 0
    ensures ReadAll(SavedAll(ls), pieces)
         == ReadNext(ReadAll(SavedAll(ls[..|ls| - 1]), pieces), Saved(ls[|ls| - 1]), pieces)
  {
    hide Saved, ReadNext;
    assert SavedAll(ls)[..|ls| - 1] == SavedAll(ls[..|ls| - 1]);
  }

  /** Reading back a saved list gives the labels that are to come back, in order, exactly when no piece of a long line keeps
      one out. */
  lemma {:induction false} ReadSaved(ls: seq<Label>, pieces: Pieces)
    ensures var r := ReadAll(SavedAll(ls), pieces);
      && r.last >= 0.0 && |r.labels| <= |Returned(ls)|
      && (Undisturbed(ls, pieces) ==> r == Reading(Returned(ls), Mark(ls, pieces)))
      && (Undisturbed(ls, pieces) <==> r.labels == Returned(ls))
      && (!Undisturbed(ls, pieces) ==> |r.labels| < |Returned(ls)|)
  {
    hide ReadNext, Saved, SavedAll, Reloaded, Round2, Moved, Fits;
    if |ls| > 0 {
      var front := ls[..|ls| - 1];
      ReadSaved(front, pieces);
      SavedLast(ls, pieces);
      ReadSavedStep(ReadAll(SavedAll(front), pieces), ls[|ls| - 1], pieces);
    } else {
      assert SavedAll(ls) == [];
    }
  }

  lemma SavedFreq(l: Label)
    ensures Saved(l).freq == Round2(l.freq)
  {
  }

  /** In a sorted list nothing keeps a label out but a piece of a longer line before it that is taken for a list. */
  lemma {:induction false} QuietUndisturbed(ls: seq<Label>, pieces: Pieces)
    requires Sorted(ls) && forall i :: 0 <= i < |ls| && !Fits(Saved(ls[i])) ==> pieces(Saved(ls[i])) == []
    ensures Undisturbed(ls, pieces)
    ensures |ls| > 0 ==> Mark(ls, pieces) <= Max0(Round2(ls[|ls| - 1].freq))
  {
    hide Saved, Round2, Fits;
    if |ls| > 0 {
      var front, l := ls[..|ls| - 1], ls[|ls| - 1];
      QuietUndisturbed(front, pieces);
      if |front| > 0 { Round2Order(front[|front| - 1].freq, l.freq); }
    }
  }

  function Max0(x: real): real { if x < 0.0 then 0.0 else x }

  lemma {:induction false} KeptReturned(ls: seq<Label>)
    ensures |Kept(ls)| == |Returned(ls)|
    ensures forall i :: 0 <= i < |Kept(ls)| ==> Returned(ls)[i] == Reloaded(ZERO, Kept(ls)[i]) && Back(Kept(ls)[i])
  {
    hide Back, Reloaded;
    if |ls| > 0 { KeptReturned(ls[..|ls| - 1]); }
  }

  /** The labels kept are those that come back, as often as they are in the list. */
  lemma {:induction false} KeptCount(ls: seq<Label>, l: Label)
    ensures multiset(Kept(ls))[l] == if Back(l) then multiset(ls)[l] else 0
  {
    hide Back;
    if |ls| > 0 {
      KeptCount(ls[..|ls| - 1], l);
      assert ls == ls[..|ls| - 1] + [ls[|ls| - 1]];
    }
  }

  lemma {:induction false} KeptSorted(ls: seq<Label>)
    requires Sorted(ls)
    ensures Sorted(Kept(ls)) && (|ls| > 0 ==> AtMost(Kept(ls), ls[|ls| - 1].freq))
  {
    hide Back, AtMost, Sorted;
    if |ls| > 0 {
      var front, l := ls[..|ls| - 1], ls[|ls| - 1];
      SortedDrop(ls);
      KeptSorted(front);
      if |front| > 0 { AtMostRaise(Kept(front), front[|front| - 1].freq, l.freq); } else { AtMostRaise([], l.freq, l.freq); }
      if Back(l) {
        SortedAppend(Kept(front), l);
        AtMostAppend(Kept(front), l);
      } else {
        assert Kept(front) + [] == Kept(front);
      }
    }
  }

  lemma SortedDrop(ls: seq<Label>)
    requires Sorted(ls) && |ls| > 0
    ensures Sorted(ls[..|ls| - 1]) && (|ls| > 1 ==> ls[..|ls| - 1][|ls| - 2].freq <= ls[|ls| - 1].freq)
  {
  }

  lemma AtMostRaise(s: seq<Label>, m: real, n: real)
    requires (s == [] || AtMost(s, m)) && m <= n
    ensures AtMost(s, n)
  {
  }

  lemma AtMostAppend(s: seq<Label>, l: Label)
    requires AtMost(s, l.freq)
    ensures AtMost(s + [l], l.freq)
  {
  }

  /** A sorted list of labels after a restart: the labels whose lines fit the buffer and whose frequencies are not negative
      come back, each as often as it was there and in order, if and only if no piece of a long line keeps one out; and a
      label that comes back is restored exactly when options were written for it or there was nothing in them to lose. */
  lemma ListRestored(ls: seq<Label>, pieces: Pieces)
    requires Sorted(ls)
    ensures var rs, ks := ReadAll(SavedAll(ls), pieces).labels, Kept(ls);
      && (|rs| == |ks| <==> Undisturbed(ls, pieces))
      && (forall l :: multiset(ks)[l] == if Back(l) then multiset(ls)[l] else 0)
      && (Undisturbed(ls, pieces) ==>
            && Sorted(rs)
            && forall i :: 0 <= i < |ks| ==>
                 && (Restored(ks[i], rs[i]) <==> Keeps(ks[i]))
                 && ks[i].freq - 0.005 < rs[i].freq <= ks[i].freq + 0.005)
  {
    hide Restored, Keeps, Reloaded, Round2, ReadAll, SavedAll, Returned, Kept, Undisturbed, Back, Mark;
    ReadSaved(ls, pieces);
    KeptReturned(ls);
    forall l ensures multiset(Kept(ls))[l] == if Back(l) then multiset(ls)[l] else 0 { KeptCount(ls, l); }
    KeptSorted(ls);
    if Undisturbed(ls, pieces) { KeptRestored(Kept(ls), Returned(ls)); }
  }

  lemma KeptRestored(ks: seq<Label>, rs: seq<Label>)
    requires Sorted(ks) && |rs| == |ks| && forall i :: 0 <= i < |ks| ==> rs[i] == Reloaded(ZERO, ks[i])
    ensures Sorted(rs)
    ensures forall i :: 0 <= i < |ks| ==>
      && (Restored(ks[i], rs[i]) <==> Keeps(ks[i])) && ks[i].freq - 0.005 < rs[i].freq <= ks[i].freq + 0.005
  {
    hide Restored, Keeps, Reloaded, Round2;
    forall i | 0 <= i < |ks| ensures
      (Restored(ks[i], rs[i]) <==> Keeps(ks[i])) && rs[i].freq == Round2(ks[i].freq)
      && ks[i].freq - 0.005 < rs[i].freq <= ks[i].freq + 0.005
    {
      ReloadExact(ZERO, ks[i]);
      ReloadedFreq(ks[i]);
      Round2Close(ks[i].freq);
    }
    forall i, j | 0 <= i < j < |rs| ensures rs[i].freq <= rs[j].freq { Round2Order(ks[i].freq, ks[j].freq); }
  }

  lemma ReloadedFreq(l: Label)
    ensures Reloaded(ZERO, l).freq == Round2(l.freq)
  {
  }

  // ---- labels that do not come back --------------------------------------------------------------------------------------

  function Same(n: nat, c: char): (s: string)
    ensures |s| == n
  {
    if n == 0 then "" else Same(n - 1, c) + [c]
  }

  /** A label at 7000 kHz with a type and 600 characters of notes. */
  function Wordy(): Label { ZERO.(freq := 7000.0, flags := 0x10, notes := Same(600, 'x')) }

  lemma WordyRead(pieces: Pieces)
    ensures !Fits(Saved(Wordy()))
    ensures ReadAll(SavedAll([Wordy()]), pieces) == Reading([], Moved(0.0, pieces(Saved(Wordy()))))
  {
    hide Saved, Fits, Moved, Wordy;
    WordySaved();
    SavedLast([Wordy()], pieces);
    assert [Wordy()][..0] == [] && SavedAll([]) == [];
  }

  lemma WordySaved()
    ensures !Fits(Saved(Wordy()))
  {
    hide Round2, DecodeMode, Options;
    LongText(Saved(Wordy()));
  }

  /** It has options to be written, so that nothing of it would be lost, but its line is too long to be read back. */
  lemma WordyLost(pieces: Pieces)
    ensures Keeps(Wordy()) && ReadAll(SavedAll([Wordy()]), pieces).labels == []
  {
    hide ReadAll, SavedAll;
    WordyRead(pieces);
    assert Wordy().flags & TYPE != 0;
  }

  /** A label at 7100 kHz. */
  function Next(): Label { ZERO.(freq := 7100.0, ident := "next") }

  lemma NextFits()
    ensures Fits(Saved(Next())) && Round2(7100.0) == 7100.0
  {
    var e := Saved(Next());
    assert (710000.0 + 0.5).Floor == 710000 && (710000.0).Floor == 710000;
    assert Digits(7) == "7" && Digits(71) == "71" && Digits(710) == "710" && Digits(7100) == "7100" && Digits(0) == "0";
    assert Decimal(e.freq) == "7100.00";
    assert e.opts == [] && e.mode == 0;
  }

  /** When a later piece of its line is taken for a list that begins with a higher number, the next label is lost too. */
  lemma WordyTakesNext(pieces: Pieces)
    requires pieces(Saved(Wordy())) == [8000.0]
    ensures Back(Next()) && Sorted([Wordy(), Next()])
    ensures ReadAll(SavedAll([Wordy(), Next()]), pieces).labels == []
  {
    hide Saved, Fits, ReadNext, ReadAll, SavedAll;
    var ls := [Wordy(), Next()];
    NextFits();
    WordyRead(pieces);
    assert ls[..1] == [Wordy()];
    SavedLast(ls, pieces);
    assert [8000.0][..0] == [];
    ReadSavedStep(Reading([], 8000.0), Next(), pieces);
  }
}
