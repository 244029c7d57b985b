/** What cutting a member out of the text and inserting one into it means for the tree the text spells. */
module JsonEdit {
  import opened JsonText
  import opened JsonWalk
  import opened JsonLookup

  // ---- lists of members as text ----------------------------------------------------------

  /** The members before a gap, each with its comma; the members after it, each with its comma. */
  function Lead(items: seq<Item>): string { if |items| == 0 then "" else PrintItems(true, items) + "," }

  function Trail(items: seq<Item>): string { if |items| == 0 then "" else "," + PrintItems(true, items) }

  lemma {:induction false} PrintConcat(isObj: bool, a: seq<Item>, b: seq<Item>)
    requires |a| > 0 && |b| > 0
    ensures PrintItems(isObj, a + b) == PrintItems(isObj, a) + "," + PrintItems(isObj, b)
  {
    assert (a + b)[1..] == a[1..] + b;
    if |a| == 1 {
      assert a + b == [a[0]] + b && a[1..] == [];
      assert (a + b)[1..] == b;
    } else {
      PrintConcat(isObj, a[1..], b);
      var x, y, z := PrintItem(isObj, a[0]), PrintItems(isObj, a[1..]), PrintItems(isObj, b);
      assert x + "," + (y + "," + z) == x + "," + y + "," + z;
    }
  }

  lemma PrintAround(a: seq<Item>, it: Item, b: seq<Item>)
    ensures PrintItems(true, a + [it] + b) == Lead(a) + PrintItem(true, it) + Trail(b)
  {
    hide PrintItem;
    assert PrintItems(true, [it]) == PrintItem(true, it);
    if |b| == 0 {
      assert a + [it] + b == a + [it];
    } else {
      PrintConcat(true, [it], b);
      assert a + [it] + b == a + ([it] + b);
    }
    if |a| == 0 {
      assert a + [it] + b == [it] + b;
      if |b| == 0 { assert [it] + b == [it]; }
    } else {
      PrintConcat(true, a, [it] + b);
      if |b| == 0 { assert [it] + b == [it]; }
    }
  }

  // ---- cutting --------------------------------------------------------------------------------

  predicate IsSep(c: char) { c == ',' || c == ' ' || c == '\n' }

  /** How many separators a text starts with. */
  function SepLen(s: string): (n: nat)
    ensures n <= |s|
    ensures forall i :: 0 <= i < n ==> IsSep(s[i])
    ensures n < |s| ==> !IsSep(s[n])
  {
    if |s| > 0 && IsSep(s[0]) then 1 + SepLen(s[1..]) else 0
  }

  function DropSep(s: string): string { s[SepLen(s)..] }

  lemma {:induction false} DropSepOver(x: string, y: string)
    requires forall i :: 0 <= i < |x| ==> IsSep(x[i])
    ensures DropSep(x + y) == DropSep(y)
  {
    if |x| == 0 {
      assert x + y == y;
    } else {
      assert (x + y)[1..] == x[1..] + y;
      DropSepOver(x[1..], y);
    }
  }

  lemma {:induction false} DropSepKeep(x: string, y: string)
    requires |y| > 0 && !IsSep(y[0])
    ensures DropSep(x + y) == DropSep(x) + y
  {
    if |x| == 0 {
      assert x + y == y;
    } else if IsSep(x[0]) {
      assert (x + y)[1..] == x[1..] + y;
      DropSepKeep(x[1..], y);
    } else {
      assert SepLen(x + y) == 0 == SepLen(x);
    }
  }

  /** A member inside its text: what is left of it, its own parts, and what is right of it. */
  datatype Site = Site(left: string, pre: string, key: string, gap: string, val: string, right: string)

  function SiteText(c: Site): string {
    c.left + c.pre + "\"" + c.key + "\":" + c.gap + c.val + c.right
  }

  ghost predicate SiteOk(c: Site) {
    && |c.left| > 0 && (c.left[|c.left| - 1] == '{' || c.left[|c.left| - 1] == ',')
    && (forall i :: 0 <= i < |c.pre| ==> IsSpace(c.pre[i]))
    && (forall i :: 0 <= i < |c.gap| ==> c.gap[i] == ' ' || c.gap[i] == '\t')
    && |c.val| > 0 && !IsSpace(c.val[0])
    && |DropSep(c.right)| > 0
  }

  /** The text left of the cut: a comma goes when nothing but '}' follows. */
  function CutLeft(c: Site): string
    requires |c.left| > 0
  {
    if c.left[|c.left| - 1] == ',' && |DropSep(c.right)| > 0 && DropSep(c.right)[0] == '}'
    then c.left[..|c.left| - 1] else c.left
  }

  function CutText(c: Site): string
    requires |c.left| > 0
  {
    CutLeft(c) + DropSep(c.right)
  }

  /** The members that remain around a cut; the one after it loses its leading separators. */
  function Stripped(b: seq<Item>): seq<Item> {
    if |b| == 0 then [] else [b[0].(pre := DropSep(b[0].pre))] + b[1..]
  }

  /** The site of member `it` between `a` and `b` of an object with text `A` before it and `B` after. */
  function MemberSite(A: string, a: seq<Item>, it: Item, b: seq<Item>, B: string): Site {
    Site(A + "{" + Lead(a), it.pre, it.key, it.gap, Print(it.val), it.post + Trail(b) + "}" + B)
  }

  function ObjectText(A: string, items: seq<Item>, B: string): string {
    A + "{" + PrintItems(true, items) + "}" + B
  }

  /** Where the gap between `a` and `b` is: after the comma of `a`, but before '}' when `b` is empty. */
  function GapPos(A: string, a: seq<Item>, b: seq<Item>): nat {
    |A| + 1 + (if |b| == 0 then |PrintItems(true, a)| else |Lead(a)|)
  }

  lemma SiteIsObject(A: string, a: seq<Item>, it: Item, b: seq<Item>, B: string)
    ensures SiteText(MemberSite(A, a, it, b, B)) == ObjectText(A, a + [it] + b, B)
  {
    hide PrintItems, Print, Lead, Trail;
    PrintAround(a, it, b);
    SiteAssoc(A, "{", Lead(a), it.pre, "\"", it.key, "\":", it.gap, Print(it.val), it.post, Trail(b), "}", B);
  }

  lemma SiteAssoc(A: string, o: string, l: string, pre: string, q: string, key: string, m: string, gap: string,
                  val: string, post: string, t: string, c: string, B: string)
    ensures A + o + l + pre + q + key + m + gap + val + (post + t + c + B)
         == A + o + (l + (pre + (q + key + m + gap) + val + post) + t) + c + B
  {
  }

  lemma SepPost(it: Item)
    requires LayoutOk(true, it)
    ensures forall i :: 0 <= i < |it.post| ==> IsSep(it.post[i])
  {
  }

  /** What remains right of a cut. */
  lemma RightOfCut(it: Item, b: seq<Item>, B: string)
    requires LayoutOk(true, it)
    ensures DropSep(it.post + Trail(b) + "}" + B)
         == if |b| == 0 then "}" + B else PrintItems(true, Stripped(b)) + "}" + B
  {
    hide PrintItem, DropSep, Print, PrintItems, AfterQuote, StrOk, WellFormed;
    SepPost(it);
    if |b| == 0 {
      Join4(it.post, "", "}", B);
      assert it.post + Trail(b) + "}" + B == it.post + ("}" + B);
      DropSepOver(it.post, "}" + B);
      DropSepStop("}" + B);
    } else {
      var tail := "\"" + AfterQuote(b) + "}" + B;
      PrintHead(b);
      Join6(it.post, ",", b[0].pre, "\"", AfterQuote(b), "}", B);
      DropSepOver(it.post + ",", b[0].pre + tail);
      DropSepKeep(b[0].pre, tail);
      PrintHead(Stripped(b));
      SameAfterQuote(b);
      Join6("", "", DropSep(b[0].pre), "\"", AfterQuote(b), "}", B);
    }
  }

  lemma DropSepStop(y: string)
    requires |y| > 0 && !IsSep(y[0])
    ensures DropSep(y) == y
  {
  }

  /** The text of a list of members after the first quote. */
  function AfterQuote(b: seq<Item>): string
    requires |b| > 0
  {
    b[0].key + "\":" + b[0].gap + Print(b[0].val) + b[0].post + Trail(b[1..])
  }

  lemma PrintHead(b: seq<Item>)
    requires |b| > 0
    ensures PrintItems(true, b) == b[0].pre + "\"" + AfterQuote(b)
  {
    hide PrintItems, Print, Trail;
    PrintAround([], b[0], b[1..]);
    assert [] + [b[0]] + b[1..] == b;
    assert Lead([]) == "";
    HeadAssoc(b[0].pre, "\"", b[0].key, "\":", b[0].gap, Print(b[0].val), b[0].post, Trail(b[1..]));
  }

  lemma HeadAssoc(pre: string, q: string, key: string, m: string, gap: string, val: string, post: string, rest: string)
    ensures "" + (pre + (q + key + m + gap) + val + post) + rest == pre + q + (key + m + gap + val + post + rest)
  {
  }

  lemma Join4(a: string, b: string, c: string, d: string)
    ensures a + b + c + d == a + (b + c + d)
  {
  }

  lemma Join6(post: string, comma: string, pre: string, q: string, aq: string, close: string, B: string)
    ensures post + (comma + (pre + q + aq)) + close + B == (post + comma) + (pre + (q + aq + close + B))
    ensures pre + (q + aq + close + B) == pre + q + aq + close + B
  {
  }

  lemma SameAfterQuote(b: seq<Item>)
    requires |b| > 0
    ensures AfterQuote(Stripped(b)) == AfterQuote(b)
    ensures Stripped(b)[0].pre == DropSep(b[0].pre)
  {
    assert Stripped(b)[1..] == b[1..];
  }

  /** Nothing follows: with the member goes the comma before it. */
  lemma CutLast(A: string, a: seq<Item>, it: Item, B: string)
    requires LayoutOk(true, it) && WellFormed(it.val)
    ensures var c := MemberSite(A, a, it, [], B);
      && CutText(c) == ObjectText(A, a, B)
      && |CutLeft(c)| == |A| + 1 + |PrintItems(true, a)|
  {
    hide PrintItems, PrintItem, Print, DropSep, Trail, Lead, WellFormed, StrOk;
    StrippedNone();
    RightOfCut(it, [], B);
    LeadEnds(A, a);
    LeadParts(a);
    if |a| > 0 {
      DropLast(A + "{", PrintItems(true, a), ',');
    } else {
      Join4(A, "{", "}", B);
    }
    Join4(A + "{", PrintItems(true, a), "}", B);
  }

  /** Something follows, and takes the member's place. */
  lemma CutInner(A: string, a: seq<Item>, it: Item, b: seq<Item>, B: string)
    requires LayoutOk(true, it) && WellFormed(it.val) && |b| > 0 && LayoutOk(true, b[0])
    ensures var c := MemberSite(A, a, it, b, B);
      && CutText(c) == ObjectText(A, a + Stripped(b), B)
      && |CutLeft(c)| == |A| + 1 + |Lead(a)|
  {
    hide PrintItems, PrintItem, Print, DropSep, Trail, Lead, WellFormed, StrOk, Stripped;
    RightOfCut(it, b, B);
    StrippedSome(b);
    PrintTail(Stripped(b), B);
    LeadJoin(a, Stripped(b));
    Join5(A + "{", Lead(a), PrintItems(true, Stripped(b)), "}", B);
  }

  /** Cutting a member's text leaves the text of the object without that member. */
  lemma CutMeaning(A: string, a: seq<Item>, it: Item, b: seq<Item>, B: string)
    requires LayoutOk(true, it) && WellFormed(it.val) && (|b| > 0 ==> LayoutOk(true, b[0]))
    ensures SiteOk(MemberSite(A, a, it, b, B))
    ensures CutText(MemberSite(A, a, it, b, B)) == ObjectText(A, a + Stripped(b), B)
    ensures |CutLeft(MemberSite(A, a, it, b, B))| == GapPos(A, a, Stripped(b))
  {
    hide PrintItems, PrintItem, Print, DropSep, Trail, Lead, WellFormed, StrOk, Stripped, CutText, CutLeft, ObjectText;
    FirstChar(it.val);
    RightOfCut(it, b, B);
    LeadEnds(A, a);
    if |b| == 0 {
      StrippedNone();
      assert a + Stripped(b) == a;
      CutLast(A, a, it, B);
    } else {
      StrippedSome(b);
      PrintTail(Stripped(b), B);
      CutInner(A, a, it, b, B);
    }
  }

  lemma DropLast(x: string, y: string, c: char)
    ensures (x + (y + [c]))[..|x + (y + [c])| - 1] == x + y
  {
  }

  lemma Join5(a: string, b: string, c: string, d: string, e: string)
    ensures a + b + (c + d + e) == a + (b + c) + d + e
  {
  }

  lemma LeadParts(a: seq<Item>)
    ensures |a| == 0 ==> Lead(a) == "" && PrintItems(true, a) == ""
    ensures |a| > 0 ==> Lead(a) == PrintItems(true, a) + [',']
  {
  }

  lemma StrippedNone()
    ensures Stripped([]) == []
  {
  }

  lemma StrippedSome(b: seq<Item>)
    requires |b| > 0
    ensures |Stripped(b)| == |b| && Stripped(b)[1..] == b[1..]
    ensures Stripped(b)[0] == b[0].(pre := DropSep(b[0].pre))
    ensures LayoutOk(true, b[0]) ==> LayoutOk(true, Stripped(b)[0])
  {
    var p := b[0].pre;
    assert forall i :: 0 <= i < |DropSep(p)| ==> DropSep(p)[i] == p[SepLen(p) + i];
  }

  /** A stripped list starts with a tab or a quote, not with '}'. */
  lemma PrintTail(b: seq<Item>, B: string)
    requires |b| > 0
    ensures |PrintItems(true, b) + "}" + B| > 0
    ensures b[0].pre == "" ==> (PrintItems(true, b) + "}" + B)[0] == '"'
    ensures b[0].pre != "" ==> (PrintItems(true, b) + "}" + B)[0] == b[0].pre[0]
  {
    hide PrintItems, Print, Trail, AfterQuote;
    PrintHead(b);
  }

  lemma LeadJoin(a: seq<Item>, b: seq<Item>)
    requires |b| > 0
    ensures Lead(a) + PrintItems(true, b) == PrintItems(true, a + b)
  {
    if |a| == 0 {
      assert a + b == b;
    } else {
      PrintConcat(true, a, b);
    }
  }

  lemma LeadEnds(A: string, a: seq<Item>)
    ensures var left := A + "{" + Lead(a);
            left[|left| - 1] == if |a| == 0 then '{' else ','
  {
    hide PrintItems;
  }

  // ---- inserting ----------------------------------------------------------------------------

  /** The text after `val` is put in at `pos`, with the comma it needs. */
  function InsText(text: string, pos: nat, val: string): string
    requires 0 < pos < |text|
  {
    var piece := if text[pos] == '}' && text[pos - 1] == '{' then val
                 else if text[pos] == '}' then "," + val
                 else val + ",";
    text[..pos] + piece + text[pos..]
  }

  function NewItem(key: string, v: Json): Item { Item("", key, "", v, "") }

  function MemberText(key: string, valText: string): string { "\"" + key + "\":" + valText }

  lemma NewItemText(key: string, v: Json)
    ensures PrintItem(true, NewItem(key, v)) == MemberText(key, Print(v))
  {
    hide Print;
    NewItemAssoc(key, Print(v));
  }

  lemma NewItemAssoc(key: string, val: string)
    ensures "" + ("\"" + key + "\":" + "") + val + "" == "\"" + key + "\":" + val
  {
  }

  /** The last character of a list of members is never '{'. */
  lemma {:induction false} LastChar(items: seq<Item>)
    requires |items| > 0 && WellFormedItems(true, items)
    ensures |PrintItems(true, items)| > 0 && PrintItems(true, items)[|PrintItems(true, items)| - 1] != '{'
    decreases |items|
  {
    hide PrintItem;
    WellFormedTail(true, items);
    if |items| == 1 {
      LastItemChar(items[0]);
    } else {
      LastChar(items[1..]);
    }
  }

  lemma LastItemChar(it: Item)
    requires LayoutOk(true, it) && WellFormed(it.val)
    ensures |PrintItem(true, it)| > 0 && PrintItem(true, it)[|PrintItem(true, it)| - 1] != '{'
  {
    hide PrintItems, WellFormedItems;
    var s, v := PrintItem(true, it), Print(it.val);
    LastValueChar(it.val);
    if |it.post| > 0 {
      assert s[|s| - 1] == it.post[|it.post| - 1];
    } else {
      assert s[|s| - 1] == v[|v| - 1];
    }
  }

  lemma LastValueChar(v: Json)
    requires WellFormed(v)
    ensures |Print(v)| > 0 && Print(v)[|Print(v)| - 1] != '{'
  {
    hide PrintItems, WellFormedItems;
  }

  lemma InsLast(A: string, a: seq<Item>, it: Item, B: string, val: string)
    requires WellFormedItems(true, a) && val == PrintItem(true, it)
    ensures 0 < GapPos(A, a, []) < |ObjectText(A, a, B)|
    ensures InsText(ObjectText(A, a, B), GapPos(A, a, []), val) == ObjectText(A, a + [it] + [], B)
  {
    hide PrintItems, PrintItem, Print, StrOk, WellFormed, WellFormedItems, Lead, Trail;
    LeadParts(a);
    PrintAround(a, it, []);
    NoTrail();
    var L, R := A + "{" + PrintItems(true, a), "}" + B;
    Join4(A + "{", PrintItems(true, a), "}", B);
    InsAt(L, R, val);
    if |a| > 0 {
      LastChar(a);
      Regroup(A + "{", PrintItems(true, a), [','], val, "", "}", B);
    } else {
      Regroup(A + "{", "", "", val, "", "}", B);
    }
  }

  lemma InsBefore(A: string, a: seq<Item>, it: Item, b: seq<Item>, B: string, val: string)
    requires |b| > 0 && LayoutOk(true, b[0]) && val == PrintItem(true, it)
    ensures 0 < GapPos(A, a, b) < |ObjectText(A, a + b, B)|
    ensures InsText(ObjectText(A, a + b, B), GapPos(A, a, b), val) == ObjectText(A, a + [it] + b, B)
  {
    hide PrintItems, PrintItem, Print, StrOk, Lead, Trail;
    PrintAround(a, it, b);
    var L, R := A + "{" + Lead(a), PrintItems(true, b) + "}" + B;
    LeadJoin(a, b);
    PrintHead(b);
    PrintTail(b, B);
    Join5(A + "{", Lead(a), PrintItems(true, b), "}", B);
    InsAt(L, R, val);
    TrailParts(b);
    Regroup(A + "{", Lead(a), "", val, [','] + PrintItems(true, b), "}", B);
    InsComma(L, val, PrintItems(true, b), "}", B);
  }

  /** Inserting a member's text at a gap gives the text of the object with that member in the gap. */
  lemma InsMeaning(A: string, a: seq<Item>, it: Item, b: seq<Item>, B: string, val: string)
    requires WellFormedItems(true, a) && (|b| > 0 ==> LayoutOk(true, b[0])) && val == PrintItem(true, it)
    ensures 0 < GapPos(A, a, b) < |ObjectText(A, a + b, B)|
    ensures InsText(ObjectText(A, a + b, B), GapPos(A, a, b), val) == ObjectText(A, a + [it] + b, B)
  {
    hide PrintItems, PrintItem, Print, StrOk, WellFormed, WellFormedItems, InsText, ObjectText, GapPos;
    if |b| == 0 {
      assert a + b == a;
      InsLast(A, a, it, B, val);
    } else {
      InsBefore(A, a, it, b, B, val);
    }
  }

  lemma NoTrail()
    ensures Trail([]) == ""
  {
  }

  lemma TrailParts(b: seq<Item>)
    requires |b| > 0
    ensures Trail(b) == [','] + PrintItems(true, b)
  {
  }

  lemma InsAt(L: string, R: string, val: string)
    requires |L| > 0 && |R| > 0
    ensures InsText(L + R, |L|, val)
         == L + (if R[0] == '}' && L[|L| - 1] == '{' then val
                 else if R[0] == '}' then [','] + val else val + [',']) + R
  {
    var text := L + R;
    assert text[..|L|] == L && text[|L|..] == R && text[|L|] == R[0] && text[|L| - 1] == L[|L| - 1];
  }

  lemma InsComma(L: string, val: string, rest: string, c: string, B: string)
    ensures L + (val + [',']) + (rest + c + B) == L + val + ([','] + rest + c + B)
  {
  }

  lemma Regroup(x: string, lead: string, sep: string, val: string, rest: string, c: string, B: string)
    ensures (x + lead) + (sep + val) + (c + B) == x + (lead + sep + val + "") + c + B
    ensures (x + lead) + val + (c + B) == x + (lead + val + "") + c + B
    ensures (x + lead) + val + (rest + c + B) == x + (lead + val + rest) + c + B
  {
  }

  // ---- an object in its place in the tree ---------------------------------------------------

  /** The tree with the members at `place` replaced. */
  function WithMembers(t: Json, place: Place, ns: seq<Item>): (r: Json)
    requires t.Coll? && t.isObj && PlaceOk(t, place)
    ensures r.Coll? && r.isObj && PlaceOk(r, place) && MembersAt(r, place) == ns
  {
    match place
    case Top => Coll(true, ns)
    case Inside(i) => Coll(true, t.items[i := t.items[i].(val := Coll(true, ns))])
  }

  /** The text of the tree before and after the object at `place`. */
  function TextBefore(t: Json, place: Place): string
    requires t.Coll? && PlaceOk(t, place)
  {
    match place
    case Top => ""
    case Inside(i) => "{" + Lead(t.items[..i]) + t.items[i].pre + Label(true, t.items[i])
  }

  function TextAfter(t: Json, place: Place): string
    requires t.Coll? && PlaceOk(t, place)
  {
    match place
    case Top => ""
    case Inside(i) => t.items[i].post + Trail(t.items[i + 1..]) + "}"
  }

  /** Replacing the members at a place changes only that stretch of the text. */
  lemma PlaceText(t: Json, place: Place, ns: seq<Item>)
    requires t.Coll? && t.isObj && PlaceOk(t, place)
    ensures Print(WithMembers(t, place, ns)) == ObjectText(TextBefore(t, place), ns, TextAfter(t, place))
  {
    match place
    case Top => TopText(ns);
    case Inside(i) =>
      var it := t.items[i].(val := Coll(true, ns));
      var items := t.items[i := it];
      assert items == t.items[..i] + [it] + t.items[i + 1..];
      InsideText(t.items[..i], it, t.items[i + 1..], ns);
  }

  lemma TopText(ns: seq<Item>)
    ensures Print(Coll(true, ns)) == ObjectText("", ns, "")
  {
    hide PrintItems;
  }

  lemma InsideText(a: seq<Item>, it: Item, b: seq<Item>, ns: seq<Item>)
    requires it.val == Coll(true, ns)
    ensures Print(Coll(true, a + [it] + b))
         == ObjectText("{" + Lead(a) + it.pre + Label(true, it), ns, it.post + Trail(b) + "}")
  {
    hide PrintItems, Lead, Trail, Label;
    PrintAround(a, it, b);
    TopText(ns);
    TopText(a + [it] + b);
    InsideAssoc("{", Lead(a), it.pre, Label(true, it), PrintItems(true, ns), it.post, Trail(b), "}");
  }

  lemma InsideAssoc(o: string, l: string, pre: string, tag: string, body: string, post: string, t: string, c: string)
    ensures "" + o + (l + (pre + tag + ("" + o + body + c + "") + post) + t) + c + ""
         == o + l + pre + tag + o + body + c + (post + t + c)
  {
  }

  /** The text offset of a member: after the members before it and their commas. */
  lemma {:induction false} ItemOffset(items: seq<Item>, j: nat, k: nat, off: nat)
    requires j <= |items|
    ensures j < |items| ==> ItemPos(true, items, j, k, off).off == off + |Lead(items[..j])|
    decreases j
  {
    hide PrintItem, Flatten;
    if j > 0 && j < |items| {
      var it := items[0];
      ItemOffset(items[1..], j - 1, k + 1 + |Flatten(it.val, ValOff(true, it, off))|, off + |PrintItem(true, it)| + 1);
      assert items[..j] == [it] + items[1..][..j - 1];
      if j > 1 {
        PrintConcat(true, [it], items[1..][..j - 1]);
      } else {
        assert items[1..][..0] == [];
      }
      assert PrintItems(true, [it]) == PrintItem(true, it);
    }
  }

  lemma MemberOffset(t: Json, place: Place, j: nat)
    requires t.Coll? && t.isObj && PlaceOk(t, place) && j < |MembersAt(t, place)|
    ensures MemberPos(t, place, j).off == |TextBefore(t, place)| + 1 + |Lead(MembersAt(t, place)[..j])|
  {
    hide Lead, ItemPos;
    match place
    case Top => ItemOffset(t.items, j, 1, 1);
    case Inside(i) =>
      var p := ItemPos(true, t.items, i, 1, 1);
      ItemOffset(t.items, i, 1, 1);
      ItemOffset(t.items[i].val.items, j, p.k + 2, ValOff(true, t.items[i], p.off) + 1);
  }

  /** The tokens of a member, found by the index of its place. */
  lemma MemberTokens(t: Json, place: Place, j: nat)
    requires t.Coll? && t.isObj && PlaceOk(t, place) && j < |MembersAt(t, place)|
    ensures var p, it, toks := MemberPos(t, place, j), MembersAt(t, place)[j], Flatten(t, 0);
      && p.k + 1 < |toks| && toks[p.k] == KeyTok(it, p.off)
      && toks[p.k + 1] == HeadTok(it.val, ValOff(true, it, p.off))
  {
    hide Flatten, FlattenItems, ItemPos, Print, PrintItem, PrintItems, At;
    TreeParts(t);
    var toks := Flatten(t, 0);
    match place
    case Top => ItemTokens(true, t.items, j, toks, 1, 1);
    case Inside(i) =>
      ItemTokens(true, t.items, i, toks, 1, 1);
      var p, it := ItemPos(true, t.items, i, 1, 1), t.items[i];
      var off := ValOff(true, it, p.off);
      FlattenColl(it.val, off);
      AtSplit(toks, p.k + 1, [HeadTok(it.val, off)], FlattenItems(true, it.val.items, off + 1));
      ItemTokens(true, it.val.items, j, toks, p.k + 2, off + 1);
  }
}
