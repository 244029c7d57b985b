/** A text in which quotes have changed places: behind the last of them it is read as before. */
module JsonRequote {
  import opened JsonText
  import opened JsonUnique
  import opened JsonLex
  import opened JsonEdit
  import opened JsonFront
  import opened JsonReread

  // ---- a string whose quotes change places ---------------------------------------------------------------

  lemma {:induction false} LeadStep(ns: seq<Item>, k: nat)
    requires 0 < k <= |ns|
    ensures Lead(ns[..k]) == PrintItem(true, ns[0]) + "," + Lead(ns[1..][..k - 1])
  {
    hide PrintItem;
    var a := ns[..k];
    assert a[1..] == ns[1..][..k - 1];
    if k == 1 {
      assert PrintItems(true, a) == PrintItem(true, ns[0]);
    } else {
      LeadStepAssoc(PrintItem(true, ns[0]), PrintItems(true, a[1..]));
    }
  }

  lemma LeadStepAssoc(x: string, y: string)
    ensures (x + "," + y) + "," == x + "," + (y + ",")
  {
  }

  /** A quote after which the reading is outside of strings, at the depth of the items, closes the key or the value of
      one of them. */
  lemma {:induction false} Locate(ns: seq<Item>, e: nat, d: int) returns (k: nat)
    requires WellFormedItems(true, ns) && 0 < e <= |PrintItems(true, ns)|
    requires PrintItems(true, ns)[e - 1] == '"' && LexAll(Out(d), PrintItems(true, ns)[..e]) == Out(d)
    ensures k < |ns|
    ensures e == |Lead(ns[..k])| + KeyEnd(ns[k]) || (ns[k].val.Str? && e == |Lead(ns[..k])| + ValEnd(true, ns[k]))
  {
    hide PrintItem, LexAll, StrOk, WellFormed, WellFormedItems, LayoutOk, Lead, Sound, Print, Label;
    WellFormedTail(true, ns);
    LeadParts([]);
    var s, x := PrintItems(true, ns), PrintItem(true, ns[0]);
    assert ns[..0] == [];
    if |ns| == 1 || e <= |x| {
      assert s[..e] == x[..e] && s[e - 1] == x[e - 1];
      EndInItem(ns[0], e, d);
      k := 0;
    } else {
      var y := PrintItems(true, ns[1..]);
      assert s == (x + ",") + y;
      assert s[|x|] == ',';
      FirstItemLex(ns[0], d);
      Region(s, x + ",", y, "", e);
      LexConcat(Out(d), x + ",", y[..e - |x| - 1]);
      var k1 := Locate(ns[1..], e - |x| - 1, d);
      k := k1 + 1;
      LeadStep(ns, k);
    }
  }

  lemma FirstItemLex(it: Item, d: int)
    requires LayoutOk(true, it) && WellFormed(it.val)
    ensures LexAll(Out(d), PrintItem(true, it) + ",") == Out(d)
  {
    hide PrintItem, LexAll, WellFormed, LayoutOk, Clean;
    ItemSound(' ', d, true, it);
    LexOne(Out(d), ',');
    LexConcat(Out(d), PrintItem(true, it), ",");
  }

  lemma {:induction false} LeadLex(ns: seq<Item>, d: int)
    requires WellFormedItems(true, ns)
    ensures LexAll(Out(d), Lead(ns)) == Out(d)
  {
    hide PrintItem, LexAll, WellFormed, WellFormedItems, LayoutOk, Lead;
    LeadParts([]);
    LexNone(Out(d));
    if |ns| > 0 {
      WellFormedTail(true, ns);
      FirstItemLex(ns[0], d);
      LeadLex(ns[1..], d);
      assert ns[..|ns|] == ns && ns[1..][..|ns| - 1] == ns[1..];
      LeadStep(ns, |ns|);
      LexConcat(Out(d), PrintItem(true, ns[0]) + ",", Lead(ns[1..]));
    }
  }

  /** Up to the end of the value of a top member the reading comes back to where members are read. */
  lemma FrontLex(items: seq<Item>, i: nat)
    requires i < |items| && WellFormedItems(true, items)
    ensures LexAll(Out(0), "{" + Lead(items[..i])) == Out(1)
    ensures LexAll(Out(1), items[i].pre + Label(true, items[i]) + Print(items[i].val)) == Out(1)
  {
    hide LexAll, WellFormed, WellFormedItems, LayoutOk, Lead, Label, Print, Clean;
    var it := items[i];
    Prefix(items, i);
    WellFormedItem(items, i);
    LexOne(Out(0), '{');
    LeadLex(items[..i], 1);
    LexConcat(Out(0), "{", Lead(items[..i]));
    HeadSound(' ', 1, true, it);
    ValueSound(EndChar(' ', it.pre + Label(true, it)), 1, it.val);
    LexConcat(Out(1), it.pre + Label(true, it), Print(it.val));
  }

  /** A text with another value in the same surroundings, both ending in a quote, is read alike behind it. */
  lemma SameBehind(items: seq<Item>, i: nat, w: Json, x: string)
    requires i < |items| && WellFormedItems(true, items) && items[i].val.Str? && WellFormed(w)
    requires Print(w) == HeadText(items, i) + x + TailText(items, i) && |x| > 0 && x[|x| - 1] == '"'
    ensures LexAll(Out(1), items[i].pre + Label(true, items[i]) + x) == Out(1)
  {
    hide LexAll, WellFormed, WellFormedItems, LayoutOk, Lead, Label, Sound, PrintItems, TailText, Print;
    var s, t, it := Print(w), Coll(true, items), items[i];
    var h, l := it.pre + Label(true, it), "{" + Lead(items[..i]);
    var p, q := |HeadText(items, i) + Print(it.val)|, |HeadText(items, i) + x|;
    assert WellFormed(t) by { Members(items); }
    TreeSplit(items, i);
    FrontLex(items, i);
    ValueSound(' ', 0, t);
    ValueSound(' ', 0, w);
    QuoteEnd(it.val);
    Cut3(HeadText(items, i), Print(it.val), TailText(items, i));
    Cut3(HeadText(items, i), x, TailText(items, i));
    HeadSplit(l, it.pre, Label(true, it), Print(it.val));
    HeadSplit(l, it.pre, Label(true, it), x);
    LexConcat(Out(0), l, h + Print(it.val));
    LexConcat(Out(0), l, h + x);
    SameRest(Print(t), p, s, q);
  }

  lemma Members(items: seq<Item>)
    requires WellFormedItems(true, items)
    ensures WellFormed(Coll(true, items))
  {
  }

  lemma QuoteEnd(v: Json)
    requires v.Str?
    ensures |Print(v)| == |v.text| + 2 && Print(v)[|Print(v)| - 1] == '"'
  {
  }

  lemma Cut3(a: string, b: string, c: string)
    ensures (a + b + c)[..|a + b|] == a + b && (a + b + c)[|a + b|..] == c
    ensures |b| > 0 ==> (a + b + c)[|a + b| - 1] == b[|b| - 1]
  {
  }

  lemma HeadSplit(l: string, pre: string, tag: string, x: string)
    ensures (l + pre + tag) + x == l + (pre + tag + x)
  {
  }

  /** Where the parts of the k-th item are in the text of the list. */
  lemma ItemAt(ns: seq<Item>, k: nat)
    requires k < |ns|
    ensures var y, it, l := PrintItems(true, ns) + "}", ns[k], Lead(ns[..k]);
      && y == l + it.pre + Label(true, it) + Print(it.val) + TailText(ns, k)
      && |y| == |l| + ValEnd(true, it) + |TailText(ns, k)|
      && y[|l| + ValEnd(true, it)..] == TailText(ns, k)
      && y[|l| + KeyEnd(it)] == ':'
  {
    hide PrintItems, Lead, Print, AfterFirst, Label;
    var a, b, it := ns[..k], ns[k..], ns[k];
    assert ns == a + b;
    LeadJoin(a, b);
    SplitFirst(true, b);
    ItemAssoc(Lead(a), PrintItems(true, b), it.pre, Label(true, it), Print(it.val), it.post, AfterFirst(true, b));
    assert Label(true, it) == "\"" + it.key + "\":" + it.gap by { LabelText(it); }
    ColonAt(Lead(a), it.pre, "\"", it.key, "\":", it.gap, Print(it.val), TailText(ns, k));
  }

  lemma LabelText(it: Item)
    ensures Label(true, it) == "\"" + it.key + "\":" + it.gap
  {
  }

  lemma ItemAssoc(l: string, body: string, pre: string, tag: string, val: string, post: string, rest: string)
    requires body + "}" == pre + tag + val + post + rest
    ensures (l + body) + "}" == l + pre + tag + val + (post + rest)
    ensures ((l + body) + "}")[|l| + (|pre| + |tag| + |val|)..] == post + rest
  {
    assert (l + body) + "}" == l + (body + "}") == (l + pre + tag + val) + (post + rest);
  }

  lemma ColonAt(l: string, pre: string, q: string, key: string, m: string, gap: string, val: string, rest: string)
    requires |q| == 1 && |m| == 2
    ensures (l + pre + (q + key + m + gap) + val + rest)[|l| + (|pre| + |key| + 2)] == m[1]
  {
  }

  /** What follows a value tells the members that follow. */
  lemma TailUnique(a: seq<Item>, i: nat, b: seq<Item>, k: nat)
    requires i < |a| && k < |b| && WellFormedItems(true, a) && WellFormedItems(true, b)
    requires TailText(a, i) == TailText(b, k)
    ensures a[i].post == b[k].post && a[i + 1..] == b[k + 1..]
  {
    hide WellFormed, WellFormedItems, LayoutOk, At, PrintItem, PrintItems;
    var s := TailText(a, i);
    WellFormedItem(a, i);
    WellFormedItem(b, k);
    PostEnds(a, i);
    PostEnds(b, k);
    RunUnique(s, 0, a[i].post, b[k].post, IsTail);
    var p := |a[i].post| + 1;
    assert a[i..][1..] == a[i + 1..] && b[k..][1..] == b[k + 1..];
    if i + 1 < |a| && k + 1 < |b| {
      WellFormedRest(a, i);
      WellFormedRest(b, k);
      ItemsUnique(s, p, true, a[i + 1..], b[k + 1..]);
    }
  }

  lemma WellFormedRest(a: seq<Item>, i: nat)
    requires i < |a| && WellFormedItems(true, a)
    ensures WellFormedItems(true, a[i + 1..])
  {
    hide WellFormed, LayoutOk;
  }

  lemma PostEnds(a: seq<Item>, i: nat)
    requires i < |a| && LayoutOk(true, a[i])
    ensures var s, n := TailText(a, i), |a[i].post|;
      && At(s, 0, a[i].post) && (forall j :: 0 <= j < n ==> IsTail(a[i].post[j]))
      && n < |s| && !IsTail(s[n]) && (s[n] == ',' <==> i + 1 < |a|)
      && (i + 1 < |a| ==> At(s, n + 1, PrintItems(true, a[i + 1..]) + "}"))
  {
    hide At, PrintItems, StrOk;
    var s, post, rest := TailText(a, i), a[i].post, AfterFirst(true, a[i..]);
    assert a[i..][1..] == a[i + 1..];
    Whole(s, post, rest);
    AtIndex(s, |post|, rest, 0);
    if i + 1 < |a| { AtSplit(s, |post|, [','], PrintItems(true, a[i + 1..]) + "}"); }
  }

  /** The opening quote of a value is not behind a backslash, so a string that ends where `c1` does holds all of it. */
  lemma HoldsRest(l: string, it: Item, front: string, c1: string)
    requires LayoutOk(true, it) && it.val.Str? && QuotesEscaped(c1)
    requires l + it.pre + Label(true, it) + Print(it.val) == front + c1 + "\""
    ensures |it.val.text| >= |c1|
  {
    hide StrOk;
    var y, p, q := front + c1 + "\"", |l + it.pre + Label(true, it)|, |front|;
    BeforeValue(l, it.pre, it.key, it.gap, "\"" + it.val.text + "\"");
    assert forall j :: q <= j < q + |c1| ==> y[j] == c1[j - q];
  }

  lemma BeforeValue(l: string, pre: string, key: string, gap: string, val: string)
    requires |val| > 0 && (forall j :: 0 <= j < |gap| ==> gap[j] == ' ' || gap[j] == '\t')
    ensures var h, y := l + pre + ("\"" + key + "\":" + gap), l + pre + ("\"" + key + "\":" + gap) + val;
      && |y| == |h| + |val| && y[|h|] == val[0] && y[|h| - 1] != '\\'
  {
    var h := l + pre + ("\"" + key + "\":" + gap);
    assert h[|h| - 1] == if |gap| > 0 then gap[|gap| - 1] else ':';
  }

  lemma {:induction false} LeadHolds(ns: seq<Item>, k: nat, m: nat)
    requires 0 < m < k <= |ns|
    ensures |Lead(ns[..k])| >= |PrintItem(true, ns[0])| + 1 + |PrintItem(true, ns[m])| + 1
  {
    hide PrintItem, Lead;
    LeadStep(ns, k);
    LeadHoldsOne(ns[1..], k - 1, m - 1);
  }

  lemma {:induction false} LeadHoldsOne(ns: seq<Item>, k: nat, m: nat)
    requires m < k <= |ns|
    ensures |Lead(ns[..k])| >= |PrintItem(true, ns[m])| + 1
  {
    hide PrintItem, Lead;
    LeadStep(ns, k);
    if m > 0 { LeadHoldsOne(ns[1..], k - 1, m - 1); }
  }

  /** A member's text is part of the text of the object it is in. */
  lemma ObjectHolds(it: Item, j: nat)
    requires it.val.Coll? && it.val.isObj && j < |it.val.items|
    ensures |PrintItem(true, it)| >= |MemberText(it.val.items[j].key, Print(it.val.items[j].val))| + 5
  {
    hide PrintItems, Lead, Trail;
    var ns := it.val.items;
    assert ns == ns[..j] + [ns[j]] + ns[j + 1..];
    PrintAround(ns[..j], ns[j], ns[j + 1..]);
    CollPrint(ns);
  }

  /** An object with a member of that name and value. */
  ghost predicate Holds(it: Item, id2: string, v: Json) {
    && it.val.Coll? && it.val.isObj
    && exists j :: 0 <= j < |it.val.items| && it.val.items[j].key == id2 && it.val.items[j].val == v
  }

  lemma LongItem(it: Item, id2: string, v: Json)
    requires Holds(it, id2, v)
    ensures |PrintItem(true, it)| >= |MemberText(id2, Print(v))| + 5
  {
    hide Print, PrintItem, MemberText;
    var j :| 0 <= j < |it.val.items| && it.val.items[j].key == id2 && it.val.items[j].val == v;
    ObjectHolds(it, j);
  }

  lemma StrItem(it: Item)
    requires it.val.Str?
    ensures ValEnd(true, it) == |it.pre + Label(true, it)| + |it.val.text| + 2 <= |PrintItem(true, it)|
    ensures ValEnd(true, it) >= |it.val.text| + 5
  {
  }

  lemma BeforeTail(items: string, x: string, tail: string)
    requires items + "}" == x + tail && |tail| > 0 && |x| > 0
    ensures |x| <= |items| && items[|x| - 1] == x[|x| - 1] && items[..|x|] == x
    ensures (items + "}")[|x|..] == tail && (items + "}")[|x|] == tail[0]
  {
    assert (items + "}")[..|x|] == items[..|x|];
  }

  /** Where a string value of the new reading ends with the string that was there. */
  lemma EndsWith(items: seq<Item>, i: nat, ns: seq<Item>, front: string, c1: string) returns (k: nat)
    requires i < |items| && WellFormedItems(true, items) && WellFormedItems(true, ns) && |ns| > 0 && QuotesEscaped(c1)
    requires var x := front + c1 + "\"";
      PrintItems(true, ns) + "}" == x + TailText(items, i) && LexAll(Out(1), x) == Out(1)
    ensures k < |ns| && ns[k].val.Str? && ns[k + 1..] == items[i + 1..] && |ns[k].val.text| >= |c1|
    ensures |front| + |c1| + 1 == |Lead(ns[..k])| + ValEnd(true, ns[k])
  {
    hide PrintItem, PrintItems, Lead, LexAll, WellFormed, WellFormedItems, LayoutOk, Print, Label, TailText, QuotesEscaped,
         ValEnd, KeyEnd;
    var x := front + c1 + "\"";
    WellFormedItem(items, i);
    TailChar(items, i);
    BeforeTail(PrintItems(true, ns), x, TailText(items, i));
    k := Locate(ns, |x|, 1);
    WellFormedItem(ns, k);
    ItemAt(ns, k);
    TailUnique(items, i, ns, k);
    var it, l := ns[k], Lead(ns[..k]);
    SameStart(x, TailText(items, i), l + it.pre + Label(true, it) + Print(it.val), TailText(ns, k));
    HoldsRest(l, it, front, c1);
  }

  lemma SameStart(a: string, b: string, c: string, d: string)
    requires a + b == c + d && |b| == |d|
    ensures a == c
  {
    assert (a + b)[..|a|] == a && (c + d)[..|c|] == c;
  }

  /** Behind the end of the string that was there the members are the ones that were there, and the string that now
      ends there leaves no room before it for an object that holds the new member. */
  lemma Behind(items: seq<Item>, i: nat, ns: seq<Item>, front: string, c1: string, id2: string, v: Json) returns (k: nat)
    requires i < |items| && WellFormedItems(true, items) && WellFormedItems(true, ns) && |ns| > 0 && QuotesEscaped(c1)
    requires var x := front + c1 + "\"";
      PrintItems(true, ns) + "}" == x + TailText(items, i) && LexAll(Out(1), x) == Out(1)
    requires var h := |ns[0].pre + Label(true, ns[0])|;
      h + 4 < |front| + |c1| + 1 && |front| <= h + 3 + |MemberText(id2, Print(v))|
    requires ns[0].val.Str? && 1 <= |ns[0].val.text| <= 2
    ensures 0 < k < |ns| && ns[k].val.Str? && ns[k + 1..] == items[i + 1..]
    ensures forall m :: 0 < m < k ==> !Holds(ns[m], id2, v)
  {
    hide PrintItem, PrintItems, Lead, LexAll, WellFormed, WellFormedItems, Print, Label, TailText, QuotesEscaped,
         ValEnd, Holds, MemberText;
    LeadParts([]);
    assert ns[..0] == [];
    StrItem(ns[0]);
    k := EndsWith(items, i, ns, front, c1);
    StrItem(ns[k]);
    forall m | 0 < m < k ensures !Holds(ns[m], id2, v) {
      if Holds(ns[m], id2, v) {
        LongItem(ns[m], id2, v);
        LeadHolds(ns, k, m);
      }
    }
  }
}
