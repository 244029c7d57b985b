/** Setting id1.id2 where the value of id1 is no object: the member's text is written inside that value, and no
    reading of the edited text gives the value that was set. */
module JsonScalar {
  import opened Options
  import opened JsonText
  import opened JsonUnique
  import opened JsonLex
  import opened JsonLookup
  import opened JsonEdit
  import opened JsonSet
  import opened JsonSetLaws
  import opened JsonFront
  import opened JsonReread
  import opened JsonRequote

  // ---- looking the name up in the edited text -----------------------------------------------------------------

  lemma {:induction false} HitMore(items: seq<Item>, id1: string, id2: string)
    requires HitSearch(items, id1, id2, false).Some?
    ensures HitSearch(items, id1, id2, true).Some?
  {
    if |items| > 0 && items[0].key != id1 && FindIn(items[0].val, id2).None? && !items[0].val.Coll? {
      HitMore(items[1..], id1, id2);
    }
  }

  /** A search that finds something behind a place would find it from there on. */
  lemma {:induction false} HitBehind(items: seq<Item>, id1: string, id2: string, hit: bool, n: nat)
    requires HitSearch(items, id1, id2, hit).Some? && n <= HitSearch(items, id1, id2, hit).value.0
    ensures n <= |items| && HitSearch(items[n..], id1, id2, true).Some?
  {
    if n == 0 {
      assert items[0..] == items;
      if !hit { HitMore(items, id1, id2); }
    } else {
      HitBehind(items[1..], id1, id2, (hit || items[0].key == id1) && !items[0].val.Coll?, n - 1);
      assert items[n..] == items[1..][n - 1..];
    }
  }

  /** Members before the first id1 do not matter. */
  lemma {:induction false} HitFromFirst(items: seq<Item>, id1: string, id2: string, i: nat)
    requires i <= |items| && forall j :: 0 <= j < i ==> items[j].key != id1
    ensures HitSearch(items, id1, id2, false)
         == Later(HitSearch(items[i..], id1, id2, false), i)
  {
    hide HitSearch;
    if i == 0 {
      assert items[0..] == items;
    } else {
      SearchStep(items, id1, id2, false);
      HitFromFirst(items[1..], id1, id2, i - 1);
      assert items[1..][i - 1..] == items[i..];
    }
  }

  /** The value is not among the new members when those before `k` do not hold it and those behind were there before. */
  lemma NotAmong(items: seq<Item>, i: nat, w: Json, k: nat, name: Name, v: Json)
    requires name.Dotted? && FindKey(items, name.id1) == Some(i) && items[i].val.Str?
    requires HitSearch(items, name.id1, name.id2, false).None?
    requires w.Coll? && w.isObj && i + k < |w.items| && w.items[..i] == items[..i]
    requires w.items[i].val.Str? && k > 0 && w.items[i + k].val.Str? && w.items[i..][k + 1..] == items[i + 1..]
    requires forall m :: 0 < m < k ==> !Holds(w.items[i..][m], name.id2, v)
    ensures !Reads(w, name, v)
  {
    hide HitSearch, FindKey, Holds, Reads;
    var ns, id1, id2 := w.items[i..], name.id1, name.id2;
    SamePrefix(items, w.items, i);
    NoneBehindScalar(items, id1, id2, i);
    if Reads(w, name, v) {
      ReadsHolds(w, i, name, v);
      if HitSearch(ns, id1, id2, false).value.0 > k { HitBehind(ns, id1, id2, false, k + 1); }
    }
  }

  lemma SamePrefix(a: seq<Item>, b: seq<Item>, i: nat)
    requires i <= |a| && i <= |b| && a[..i] == b[..i]
    ensures forall j :: 0 <= j < i ==> a[j] == b[j]
  {
    forall j | 0 <= j < i ensures a[j] == b[j] { assert a[..i][j] == b[..i][j]; }
  }

  lemma ReadsHolds(w: Json, i: nat, name: Name, v: Json)
    requires name.Dotted? && w.Coll? && w.isObj && i <= |w.items| && forall j :: 0 <= j < i ==> w.items[j].key != name.id1
    requires Reads(w, name, v)
    ensures var ns := w.items[i..];
            var hit := HitSearch(ns, name.id1, name.id2, false);
      && hit.Some? && Holds(ns[hit.value.0], name.id2, v) && ns[hit.value.0].val.Coll?
  {
    hide HitSearch;
    HitFromFirst(w.items, name.id1, name.id2, i);
  }

  lemma NoneBehindScalar(items: seq<Item>, id1: string, id2: string, i: nat)
    requires FindKey(items, id1) == Some(i) && !items[i].val.Coll? && HitSearch(items, id1, id2, false).None?
    ensures HitSearch(items[i + 1..], id1, id2, true).None?
  {
    hide HitSearch, FindKey;
    HitFromFirst(items, id1, id2, i);
    SearchStep(items[i..], id1, id2, false);
    assert items[i..][1..] == items[i + 1..];
  }

  lemma {:induction false} NotAppended(items: seq<Item>, id1: string, id2: string, hit: bool, it: Item)
    requires HitSearch(items, id1, id2, hit).None? && HitSearch(items + [it], id1, id2, hit).Some?
    ensures HitSearch(items + [it], id1, id2, hit).value.0 == |items|
  {
    if |items| > 0 {
      assert (items + [it])[1..] == items[1..] + [it];
      NotAppended(items[1..], id1, id2, (hit || items[0].key == id1) && !items[0].val.Coll?, it);
    }
  }

  // ---- the edit -------------------------------------------------------------------------------------------------

  /** Right after the first character that the token of the i-th member's value spans. */
  function EditPos(items: seq<Item>, i: nat): nat
    requires i < |items|
  {
    HeadTok(items[i].val, |HeadText(items, i)|).start + 1
  }

  lemma EditSplit(items: seq<Item>, i: nat, mt: string)
    requires i < |items| && WellFormedItems(true, items)
    ensures 0 < EditPos(items, i) < |Print(Coll(true, items))|
    ensures var local := Print(items[i].val) + TailText(items, i);
      && 0 < Into(items[i].val) < |local|
      && InsText(Print(Coll(true, items)), EditPos(items, i), mt)
         == HeadText(items, i) + InsText(local, Into(items[i].val), mt)
  {
    hide Print, InsText, WellFormed, WellFormedItems, LayoutOk, HeadText, TailText;
    var v := items[i].val;
    WellFormedItem(items, i);
    TailChar(items, i);
    TreeSplit(items, i);
    KindOfFirst(v);
    if v.Str? { StrPrint(v); }
    InsShift(HeadText(items, i), Print(v), TailText(items, i), Into(v), mt);
  }

  lemma InsShift(a: string, b: string, c: string, n: nat, mt: string)
    requires 0 < n < |b + c|
    ensures InsText(a + b + c, |a| + n, mt) == a + InsText(b + c, n, mt)
  {
    var s, t := a + b + c, b + c;
    assert s[..|a| + n] == a + t[..n] && s[|a| + n..] == t[n..] && s[|a| + n] == t[n] && s[|a| + n - 1] == t[n - 1];
  }

  /** The text that setting id1.id2 leaves when id1 is no object. */
  ghost function EditedText(t: Json, name: Name, v: Json): string
    requires t.Coll? && t.isObj && WellFormed(t) && Corrupts(t, name)
  {
    var i, mt := FindKey(t.items, name.id1).value, MemberText(name.id2, Print(v));
    EditSplit(t.items, i, mt);
    InsText(Print(t), EditPos(t.items, i), mt)
  }

  /** The text with the new member behind the last one. */
  lemma BesideText(items: seq<Item>, i: nat, id2: string, v: Json)
    requires i < |items| && WellFormedItems(true, items) && StrOk(id2) && WellFormed(v)
    requires TailText(items, i)[0] == '}'
    ensures var w := Coll(true, items + [NewItem(id2, v)]);
      && TailText(items, i) == "}" && WellFormed(w)
      && Print(w) == HeadText(items, i) + (Print(items[i].val) + ("," + MemberText(id2, Print(v)) + "}"))
  {
    hide PrintItems, PrintItem, Print, Lead, WellFormed, StrOk, MemberText;
    var it := NewItem(id2, v);
    WellFormedItem(items, i);
    TailChar(items, i);
    assert items[i..] == [items[i]];
    TreeSplit(items, i);
    CollPrint(items);
    CollPrint(items + [it]);
    PrintConcat(true, items, [it]);
    OnePrint(it);
    NewItemText(id2, v);
    Appending(HeadText(items, i), Print(items[i].val), "{", PrintItems(true, items), MemberText(id2, Print(v)));
    WellFormedMore(items, it);
  }

  /** A value that ends where the new text goes, at the end of the text: the new member stands beside id1. */
  lemma Beside(items: seq<Item>, i: nat, id2: string, v: Json, w: Json, s: string)
    requires i < |items| && WellFormedItems(true, items) && StrOk(id2) && WellFormed(v) && WellFormed(w)
    requires TailText(items, i)[0] == '}'
    requires s == "," + MemberText(id2, Print(v)) + TailText(items, i)
    requires Print(w) == HeadText(items, i) + (Print(items[i].val) + s)
    ensures w == Coll(true, items + [NewItem(id2, v)])
  {
    hide Print, WellFormed, StrOk, MemberText, HeadText, TailText;
    BesideText(items, i, id2, v);
    TreeUnique(w, Coll(true, items + [NewItem(id2, v)]));
  }

  lemma OnePrint(it: Item)
    ensures PrintItems(true, [it]) == PrintItem(true, it)
  {
    hide PrintItem;
  }

  lemma WellFormedMore(items: seq<Item>, it: Item)
    requires WellFormedItems(true, items) && LayoutOk(true, it) && WellFormed(it.val)
    ensures WellFormed(Coll(true, items + [it]))
  {
    hide LayoutOk;
  }

  lemma Appending(h: string, v: string, o: string, body: string, mt: string)
    requires h + v + "}" == o + (body + "}")
    ensures h + (v + ("," + mt + "}")) == o + ((body + "," + mt) + "}")
  {
    assert h + v + "}" == (h + v) + "}" && o + (body + "}") == (o + body) + "}";
    SameStart(h + v, "}", o + body, "}");
    assert h + (v + ("," + mt + "}")) == (h + v) + ("," + mt + "}");
  }

  /** The text of a string after its edit: up to its second character and beyond the new text, then as it was. */
  lemma LongText(c: string, tail: string, mt: string) returns (f: string)
    requires |c| > 0 && |tail| > 0
    ensures InsText("\"" + c + "\"" + tail, 2, mt) == (f + c[1..] + "\"") + tail && |mt| + 2 <= |f| <= |mt| + 3
  {
    var local, rest := "\"" + c + "\"" + tail, c[1..] + "\"" + tail;
    assert local[..2] == "\"" + [c[0]] && local[2..] == rest;
    var piece := if local[2] == '}' && local[1] == '{' then mt else if local[2] == '}' then "," + mt else mt + ",";
    f := "\"" + [c[0]] + piece;
    assert InsText(local, 2, mt) == local[..2] + piece + local[2..];
  }

  /** A string at id1 whose first character is split off: what the name reads behind it, it read before. */
  lemma LongUnread(t: Json, name: Name, v: Json, w: Json, i: nat)
    requires t.Coll? && t.isObj && WellFormed(t) && Corrupts(t, name) && WellFormed(v) && WellFormed(w)
    requires FindKey(t.items, name.id1) == Some(i) && t.items[i].val.Str? && |t.items[i].val.text| > 0
    requires QuotesEscaped(t.items[i].val.text[1..])
    requires w.Coll? && w.isObj && |w.items| > i && w.items[..i] == t.items[..i]
    requires w.items[i].pre == t.items[i].pre && Label(true, w.items[i]) == Label(true, t.items[i])
    requires w.items[i].val.Str? && 1 <= |w.items[i].val.text| <= 2
    requires Print(w) == HeadText(t.items, i)
             + InsText(Print(t.items[i].val) + TailText(t.items, i), 2, MemberText(name.id2, Print(v)))
    ensures !Reads(w, name, v)
  {
    hide PrintItems, Print, Label, Lead, WellFormed, WellFormedItems, TailText, MemberText, InsText, Holds, Reads,
         HitSearch, FindKey, QuotesEscaped, LexAll;
    var items, it, ns, mt := t.items, t.items[i], w.items[i..], MemberText(name.id2, Print(v));
    var h, l, tail := it.pre + Label(true, it), "{" + Lead(items[..i]), TailText(items, i);
    WellFormedMembers(t);
    WellFormedMembers(w);
    WellFormedItem(items, i);
    TailChar(items, i);
    var f := LongText(it.val.text, tail, mt);
    var c1 := it.val.text[1..];
    StrPrint(it.val);
    var x := f + c1 + "\"";
    LongAssoc(HeadText(items, i), x, tail);
    SameBehind(items, i, w, x);
    TreeSplit(w.items, i);
    LongSplit(l, it.pre, Label(true, it), x, tail, PrintItems(true, ns) + "}");
    assert h + x == h + f + c1 + "\"";
    MemberLong(name.id2, Print(v));
    Rest(w.items, i);
    var k := Behind(items, i, ns, h + f, c1, name.id2, v);
    NotAmong(items, i, w, k, name, v);
  }

  lemma LongAssoc(h: string, x: string, tail: string)
    ensures h + (x + tail) == h + x + tail
  {
  }

  lemma LongSplit(l: string, pre: string, tag: string, x: string, tail: string, body: string)
    requires l + body == (l + pre + tag) + x + tail
    ensures body == (pre + tag + x) + tail
  {
    assert (l + body)[|l|..] == body;
    assert ((l + pre + tag) + x + tail)[|l|..] == (pre + tag + x) + tail;
  }

  lemma MemberLong(id: string, pv: string)
    ensures |MemberText(id, pv)| >= 3
  {
  }

  lemma Rest(items: seq<Item>, i: nat)
    requires i < |items| && WellFormedItems(true, items)
    ensures WellFormedItems(true, items[i..])
  {
    hide WellFormed, LayoutOk;
  }

  /** The edited text read again: the members before id1 are the same, and so is id1 up to its value. */
  lemma EditedReread(t: Json, name: Name, v: Json, w: Json)
    requires t.Coll? && t.isObj && WellFormed(t) && Corrupts(t, name) && StrOk(name.id2) && WellFormed(v)
    requires WellFormed(w) && Print(w) == EditedText(t, name, v)
    ensures w.Coll? && w.isObj
    ensures var items, i := t.items, FindKey(t.items, name.id1).value;
            var it, mt := items[i], MemberText(name.id2, Print(v));
      && |w.items| > i && w.items[..i] == items[..i]
      && w.items[i].pre == it.pre && Label(true, w.items[i]) == Label(true, it)
      && 0 < Into(it.val) < |Print(it.val) + TailText(items, i)|
      && Print(w) == HeadText(items, i) + InsText(Print(it.val) + TailText(items, i), Into(it.val), mt)
                  == HeadText(items, i) + (Print(w.items[i].val) + TailText(w.items, i))
      && if Short(it.val)
         then w.items[i].val == it.val && TailText(items, i)[0] == '}'
              && TailText(w.items, i) == "," + mt + TailText(items, i)
         else it.val.Str? && w.items[i].val.Str? && 1 <= |w.items[i].val.text| <= 2 && QuotesEscaped(it.val.text[1..])
  {
    hide PrintItems, Print, Label, Lead, WellFormed, WellFormedItems, TailText, HeadText, MemberText, InsText, Reads,
         HitSearch, StrOk, LayoutOk, QuotesEscaped;
    var items, i, mt := t.items, FindKey(t.items, name.id1).value, MemberText(name.id2, Print(v));
    var it := items[i];
    var local := Print(it.val) + TailText(items, i);
    WellFormedMembers(t);
    WellFormedItem(items, i);
    TailChar(items, i);
    FirstChar(it.val);
    EditSplit(items, i, mt);
    InsFirst(local, Into(it.val), mt);
    SameFront(items, i, w, InsText(local, Into(it.val), mt));
    WellFormedMembers(w);
    WellFormedItem(w.items, i);
    TailChar(w.items, i);
    SameLabel(true, items[i], w.items[i]);
    Reread(it.val, TailText(items, i), name.id2, Print(v), w.items[i].val, TailText(w.items, i));
  }

  /** Setting id1.id2 where the value of the first id1 is no object: whatever well-formed text comes of it, the name does
      not read the value that was set. */
  lemma NeverReads(t: Json, name: Name, v: Json, w: Json)
    requires t.Coll? && t.isObj && WellFormed(t) && Corrupts(t, name) && StrOk(name.id2) && WellFormed(v)
    requires WellFormed(w) && Print(w) == EditedText(t, name, v)
    ensures w.Coll? && w.isObj && !Reads(w, name, v)
  {
    hide PrintItems, Print, Label, WellFormed, WellFormedItems, TailText, HeadText, MemberText, InsText, Reads,
         HitSearch, StrOk, LayoutOk, QuotesEscaped, EditedText;
    var i := FindKey(t.items, name.id1).value;
    EditedReread(t, name, v, w);
    WellFormedMembers(t);
    if Short(t.items[i].val) {
      Beside(t.items, i, name.id2, v, w, TailText(w.items, i));
      BesideUnread(t.items, name, v);
    } else {
      LongUnread(t, name, v, w, i);
    }
  }

  lemma InsFirst(s: string, n: nat, mt: string)
    requires 0 < n < |s|
    ensures |InsText(s, n, mt)| > 0 && InsText(s, n, mt)[0] == s[0]
  {
  }

  /** A member beside id1 is not inside it, and no value is a member of itself. */
  lemma BesideUnread(items: seq<Item>, name: Name, v: Json)
    requires name.Dotted? && HitSearch(items, name.id1, name.id2, false).None?
    ensures !Reads(Coll(true, items + [NewItem(name.id2, v)]), name, v)
  {
    hide HitSearch;
    var w := Coll(true, items + [NewItem(name.id2, v)]);
    if Reads(w, name, v) {
      NotAppended(items, name.id1, name.id2, false, NewItem(name.id2, v));
    }
  }

  /** The new text ends a value, and the member and the object with it. */
  predicate AtEnd(items: seq<Item>, i: nat)
    requires i < |items|
  {
    Short(items[i].val) && items[i].post == "" && i == |items| - 1
  }

  /** Unless the value of id1 is a string with something in it, the edited text is the text of a tree exactly when that
      value is one character, or an empty string, right before the last '}'; then the new member stands beside id1. */
  lemma BesideExact(t: Json, name: Name, v: Json)
    requires t.Coll? && t.isObj && WellFormed(t) && Corrupts(t, name) && StrOk(name.id2) && WellFormed(v)
    requires var it := t.items[FindKey(t.items, name.id1).value]; it.val.Str? ==> it.val.text == ""
    ensures forall w :: WellFormed(w) && Print(w) == EditedText(t, name, v) <==>
              AtEnd(t.items, FindKey(t.items, name.id1).value) && w == Coll(true, t.items + [NewItem(name.id2, v)])
  {
    hide WellFormed, Print, EditedText;
    var i, w1 := FindKey(t.items, name.id1).value, Coll(true, t.items + [NewItem(name.id2, v)]);
    if AtEnd(t.items, i) { EndText(t, name, v, i); }
    forall w | WellFormed(w) && Print(w) == EditedText(t, name, v) ensures AtEnd(t.items, i) && w == w1 {
      OnlyBeside(t, name, v, w);
    }
  }

  lemma OnlyBeside(t: Json, name: Name, v: Json, w: Json)
    requires t.Coll? && t.isObj && WellFormed(t) && Corrupts(t, name) && StrOk(name.id2) && WellFormed(v)
    requires var it := t.items[FindKey(t.items, name.id1).value]; it.val.Str? ==> it.val.text == ""
    requires WellFormed(w) && Print(w) == EditedText(t, name, v)
    ensures AtEnd(t.items, FindKey(t.items, name.id1).value) && w == Coll(true, t.items + [NewItem(name.id2, v)])
  {
    hide PrintItems, Print, WellFormed, WellFormedItems, TailText, HeadText, MemberText, EditedText, FindKey, StrOk, LayoutOk;
    var i := FindKey(t.items, name.id1).value;
    WellFormedMembers(t);
    WellFormedItem(t.items, i);
    TailChar(t.items, i);
    EditedReread(t, name, v, w);
    Beside(t.items, i, name.id2, v, w, TailText(w.items, i));
  }

  lemma EndText(t: Json, name: Name, v: Json, i: nat)
    requires t.Coll? && t.isObj && WellFormed(t) && Corrupts(t, name) && StrOk(name.id2) && WellFormed(v)
    requires FindKey(t.items, name.id1) == Some(i) && AtEnd(t.items, i)
    ensures WellFormed(Coll(true, t.items + [NewItem(name.id2, v)]))
    ensures Print(Coll(true, t.items + [NewItem(name.id2, v)])) == EditedText(t, name, v)
  {
    hide PrintItems, Print, WellFormed, WellFormedItems, HeadText, TailText, MemberText, StrOk, InsText, FindKey;
    var val, mt := t.items[i].val, MemberText(name.id2, Print(v));
    WellFormedMembers(t);
    WellFormedItem(t.items, i);
    TailChar(t.items, i);
    BesideText(t.items, i, name.id2, v);
    EditSplit(t.items, i, mt);
    ShortText(val);
    InsBehind(Print(val), mt);
  }

  lemma ShortText(v: Json)
    requires Short(v) && WellFormed(v)
    ensures Into(v) == |Print(v)| && Print(v)[|Print(v)| - 1] != '{'
  {
  }

  lemma InsBehind(s: string, mt: string)
    requires |s| > 0 && s[|s| - 1] != '{'
    ensures InsText(s + "}", |s|, mt) == s + ("," + mt + "}")
  {
    assert (s + "}")[..|s|] == s && (s + "}")[|s|..] == "}";
  }

  /** The tree that setting a name leaves: the text is edited, and read again. */
  ghost predicate Leaves(t: Json, name: Name, kind: Kind, v: Json, w: Json)
    requires t.Coll? && t.isObj && WellFormed(t)
  {
    if Corrupts(t, name) then Print(w) == EditedText(t, name, v) else SetTree(t, name, kind, v) == Some(w)
  }

  predicate FirstIsObject(t: Json, id1: string)
    requires t.Coll?
  {
    FindKey(t.items, id1).Some? && !NoObject(t.items[FindKey(t.items, id1).value].val)
  }

  /** Reading a name in whatever setting it leaves gives the value that was set if and only if the name is not of the form
      id1.id2, or was found before, or the value of the first id1 is an object. */
  lemma SetReadsExact(t: Json, name: Name, kind: Kind, v: Json, w: Json)
    requires t.Coll? && t.isObj && WellFormed(t) && WellFormed(v) && StrOk(LastKey(name))
    requires WellFormed(w) && Leaves(t, name, kind, v, w)
    ensures w.Coll? && w.isObj
    ensures Reads(w, name, v) <==> name.Flat? || Find(t, name).There? || FirstIsObject(t, name.id1)
  {
    hide Print, WellFormed, StrOk, HitSearch, EditedText, Reads;
    if Corrupts(t, name) {
      NeverReads(t, name, v, w);
    } else {
      SetThenRead(t, name, kind, v);
      if name.Dotted? && Find(t, name).There? { HitHasKey(t.items, name.id1, name.id2); }
    }
  }
}
