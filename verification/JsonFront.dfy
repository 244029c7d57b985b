/** The text of a tree around the value of one of its members, and how far two trees whose texts start alike are the
    same. */
module JsonFront {
  import opened JsonText
  import opened JsonUnique
  import opened JsonLookup
  import opened JsonEdit

  // ---- the text before and after the value of a member --------------------------------------------

  function HeadText(items: seq<Item>, i: nat): string
    requires i < |items|
  {
    "{" + Lead(items[..i]) + items[i].pre + Label(true, items[i])
  }

  function TailText(items: seq<Item>, i: nat): string
    requires i < |items|
  {
    items[i].post + AfterFirst(true, items[i..])
  }

  lemma TreeSplit(items: seq<Item>, i: nat)
    requires i < |items|
    ensures Print(Coll(true, items)) == "{" + Lead(items[..i]) + (PrintItems(true, items[i..]) + "}")
    ensures Print(Coll(true, items)) == HeadText(items, i) + Print(items[i].val) + TailText(items, i)
  {
    hide PrintItems, Lead, Label, AfterFirst;
    var a, b := items[..i], items[i..];
    assert items == a + b;
    LeadJoin(a, b);
    SplitFirst(true, b);
    TreeAssoc("{", Lead(a), PrintItems(true, b), "}", b[0].pre, Label(true, b[0]), Print(b[0].val), b[0].post,
              AfterFirst(true, b));
  }

  lemma TreeAssoc(o: string, l: string, body: string, c: string, pre: string, tag: string, val: string, post: string,
                  rest: string)
    requires body + c == pre + tag + val + post + rest
    ensures o + (l + body) + c == o + l + (body + c)
    ensures o + (l + body) + c == (o + l + pre + tag) + val + (post + rest)
  {
  }

  predicate Follows(c: char) { c == ' ' || c == '\n' || c == ',' || c == '}' }

  lemma TailChar(items: seq<Item>, i: nat)
    requires i < |items| && LayoutOk(true, items[i])
    ensures |TailText(items, i)| > 0 && Follows(TailText(items, i)[0])
    ensures TailText(items, i)[0] == '}' <==> items[i].post == "" && i == |items| - 1
  {
    hide PrintItems, StrOk;
  }

  // ---- a tree whose text starts as that of another does ----------------------------------------------

  lemma Whole(s: string, a: string, b: string)
    requires s == a + b
    ensures At(s, 0, a) && At(s, |a|, b)
  {
    assert s[0..0 + |s|] == s;
    AtSplit(s, 0, a, b);
  }

  /** Whitespace, key and gap of an item end at the same place whatever value follows. */
  lemma SameHead(a: Item, x: string, b: Item, y: string)
    requires LayoutOk(true, a) && LayoutOk(true, b) && |x| > 0 && !IsBlank(x[0]) && |y| > 0 && !IsBlank(y[0])
    requires a.pre + Label(true, a) + x == b.pre + Label(true, b) + y
    ensures a.pre == b.pre && a.key == b.key && a.gap == b.gap && x == y
  {
    hide StrOk, At, Label;
    LabelLen(a);
    LabelLen(b);
    var s := a.pre + Label(true, a) + x;
    HeadAt(s, a, x);
    HeadAt(s, b, y);
    RunUnique(s, 0, a.pre, b.pre, IsSpace);
    StrUnique(s, |a.pre| + 1, a.key, b.key);
    RunUnique(s, |a.pre| + 3 + |a.key|, a.gap, b.gap, IsBlank);
    assert s[|a.pre| + |Label(true, a)|..] == x;
  }

  lemma HeadAt(s: string, a: Item, x: string)
    requires s == a.pre + Label(true, a) + x && LayoutOk(true, a) && |x| > 0
    ensures var k, g := |a.pre| + 1, |a.pre| + 3 + |a.key|;
      && At(s, 0, a.pre) && At(s, k, a.key) && At(s, g, a.gap)
      && |s| == g + |a.gap| + |x| && s[|a.pre|] == '"' && s[k + |a.key|] == '"' && s[g + |a.gap|] == x[0]
      && s[g + |a.gap|..] == x
  {
    hide StrOk;
    HeadChars(s, a.pre, "\"", a.key, "\":", a.gap, x);
  }

  lemma HeadChars(s: string, pre: string, q: string, key: string, m: string, gap: string, x: string)
    requires s == pre + (q + key + m + gap) + x && q == "\"" && m == "\":" && |x| > 0
    ensures var k, g := |pre| + 1, |pre| + 3 + |key|;
      && At(s, 0, pre) && At(s, k, key) && At(s, g, gap)
      && |s| == g + |gap| + |x| && s[|pre|] == '"' && s[k + |key|] == '"' && s[g + |gap|] == x[0]
      && s[g + |gap|..] == x
  {
  }

  lemma Prefix(items: seq<Item>, i: nat)
    requires i <= |items| && WellFormedItems(true, items)
    ensures WellFormedItems(true, items[..i])
  {
    hide WellFormed, LayoutOk;
  }

  /** The first items of a list are at the front of any other whose text starts like theirs. */
  lemma SameLead(items: seq<Item>, i: nat, w: Json, rest: string)
    requires i < |items| && WellFormedItems(true, items) && WellFormed(w)
    requires Print(w) == HeadText(items, i) + rest && |rest| > 0
    ensures w.Coll? && w.isObj && |w.items| > i && w.items[..i] == items[..i]
  {
    hide PrintItem, PrintItems, WellFormed, WellFormedItems, StrOk, At, Print;
    var s, a, it := Print(w), items[..i], items[i];
    assert LayoutOk(true, it) by { WellFormedItem(items, i); }
    HeadStart(items, i, rest);
    KindOfFirst(w);
    WellFormedMembers(w);
    Prefix(items, i);
    CollPrint(w.items);
    Whole(s, "{", PrintItems(true, w.items) + "}");
    var x := it.pre + Label(true, it) + rest;
    if i == 0 {
      if |w.items| == 0 { Closed(s, 1, true); }
      assert w.items[..0] == items[..0];
    } else {
      LeadParts(a);
      LeadAssoc(PrintItems(true, a), it.pre, Label(true, it), rest);
      Whole(s, "{", PrintItems(true, a) + "," + x);
      FrontUnique(s, 1, a, x, w.items);
    }
  }

  lemma LeadAssoc(l: string, pre: string, tag: string, rest: string)
    ensures ("{" + (l + [',']) + pre + tag) + rest == "{" + (l + "," + (pre + tag + rest))
  {
  }

  lemma WellFormedMembers(w: Json)
    requires WellFormed(w) && w.Coll?
    ensures WellFormedItems(w.isObj, w.items)
  {
  }

  lemma CollPrint(items: seq<Item>)
    ensures Print(Coll(true, items)) == "{" + (PrintItems(true, items) + "}")
  {
    hide PrintItems;
  }

  /** The text up to a value opens an object, and an item in it. */
  lemma HeadStart(items: seq<Item>, i: nat, rest: string)
    requires i < |items| && LayoutOk(true, items[i])
    ensures var s := HeadText(items, i) + rest; |s| > 1 && s[0] == '{' && (i == 0 ==> s[1] != '}')
  {
    hide PrintItems, StrOk;
    var it := items[i];
    assert Label(true, it)[0] == '"';
    if i == 0 {
      assert items[..0] == [];
      assert (HeadText(items, i) + rest)[1] == (it.pre + Label(true, it))[0];
    }
  }

  /** The items of a tree are read alike up to the value of the i-th, wherever the texts agree up to there. */
  lemma SameFront(items: seq<Item>, i: nat, w: Json, rest: string)
    requires i < |items| && WellFormedItems(true, items) && WellFormed(w)
    requires Print(w) == HeadText(items, i) + rest && |rest| > 0 && !IsBlank(rest[0])
    ensures w.Coll? && w.isObj && |w.items| > i && w.items[..i] == items[..i]
    ensures w.items[i].pre == items[i].pre && w.items[i].key == items[i].key && w.items[i].gap == items[i].gap
    ensures rest == Print(w.items[i].val) + TailText(w.items, i)
  {
    hide PrintItem, PrintItems, WellFormed, WellFormedItems, LayoutOk, Print, Label, Lead, TailText;
    SameLead(items, i, w, rest);
    WellFormedMembers(w);
    WellFormedItem(items, i);
    WellFormedItem(w.items, i);
    TreeSplit(w.items, i);
    var a, b, l := items[i], w.items[i], "{" + Lead(items[..i]);
    var y := Print(b.val) + TailText(w.items, i);
    FirstChar(b.val);
    Cancel(l, a.pre, Label(true, a), rest, b.pre, Label(true, b), Print(b.val), TailText(w.items, i));
    SameHead(a, rest, b, y);
  }

  lemma Cancel(l: string, pre: string, tag: string, rest: string, pre2: string, tag2: string, val: string, tail: string)
    requires (l + pre + tag) + rest == (l + pre2 + tag2) + val + tail
    ensures pre + tag + rest == pre2 + tag2 + (val + tail)
  {
    assert ((l + pre + tag) + rest)[|l|..] == pre + tag + rest;
    assert ((l + pre2 + tag2) + val + tail)[|l|..] == pre2 + tag2 + (val + tail);
  }

  // ---- where a member's value stands ----------------------------------------------------------------------

  lemma SameMembers(t: Json, place: Place)
    requires t.Coll? && t.isObj && PlaceOk(t, place)
    ensures WithMembers(t, place, MembersAt(t, place)) == t
  {
  }

  lemma AllMembers(t: Json, place: Place)
    requires t.Coll? && t.isObj && WellFormed(t) && PlaceOk(t, place)
    ensures WellFormedItems(true, MembersAt(t, place))
  {
    if place.Inside? { WellFormedItem(t.items, place.i); }
  }

  /** The value of a member stands in the text where its token says. */
  lemma MemberStands(t: Json, place: Place, j: nat)
    requires t.Coll? && t.isObj && WellFormed(t) && PlaceOk(t, place) && j < |MembersAt(t, place)|
    ensures var it, p := MembersAt(t, place)[j], ValOff(true, MembersAt(t, place)[j], MemberPos(t, place, j).off);
      WellFormed(it.val) && At(Print(t), p, Print(it.val)) && p + |Print(it.val)| < |Print(t)|
  {
    hide Print, PrintItems, WellFormed, WellFormedItems, LayoutOk, TextBefore, TextAfter, MemberPos, Lead, Label, At, HeadText,
         TailText;
    var ns, A, B := MembersAt(t, place), TextBefore(t, place), TextAfter(t, place);
    AllMembers(t, place);
    WellFormedItem(ns, j);
    SameMembers(t, place);
    PlaceText(t, place, ns);
    MemberOffset(t, place, j);
    TreeSplit(ns, j);
    CollPrint(ns);
    TailChar(ns, j);
    HeadLength(ns, j);
    Stands(A, "{", PrintItems(true, ns), "}", B, HeadText(ns, j), Print(ns[j].val), TailText(ns, j));
  }

  lemma HeadLength(items: seq<Item>, i: nat)
    requires i < |items|
    ensures |HeadText(items, i)| == 1 + |Lead(items[..i])| + |items[i].pre| + |Label(true, items[i])|
  {
    hide Lead, Label;
  }

  lemma Stands(A: string, o: string, body: string, c: string, B: string, h: string, v: string, t: string)
    requires o + (body + c) == h + v + t && |t| > 0
    ensures var s := A + o + body + c + B; At(s, |A| + |h|, v) && |A| + |h| + |v| < |s|
  {
    hide At;
    var s := A + o + body + c + B;
    assert s == (A + (o + (body + c))) + B == ((A + h) + v) + (t + B);
    Whole(s, (A + h) + v, t + B);
    AtSplit(s, 0, A + h, v);
  }
}
