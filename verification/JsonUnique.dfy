/** A text spells at most one tree: whatever layout the editor understands can be read in one way only. */
module JsonUnique {
  import opened JsonText

  // ---- runs of characters --------------------------------------------------------------------------

  /** Two runs of characters of one kind, each followed by a character of another, are the same run. */
  lemma RunUnique(s: string, off: nat, p: string, q: string, kind: char -> bool)
    requires At(s, off, p) && At(s, off, q)
    requires forall i :: 0 <= i < |p| ==> kind(p[i])
    requires forall i :: 0 <= i < |q| ==> kind(q[i])
    requires off + |p| < |s| && !kind(s[off + |p|]) && off + |q| < |s| && !kind(s[off + |q|])
    ensures p == q
  {
    hide At;
    if |p| < |q| {
      AtIndex(s, off, q, |p|);
    } else if |q| < |p| {
      AtIndex(s, off, p, |q|);
    } else {
      SameAt(s, off, p, q);
    }
  }

  lemma SameAt(s: string, off: nat, p: string, q: string)
    requires At(s, off, p) && At(s, off, q) && |p| == |q|
    ensures p == q
  {
    forall i | 0 <= i < |p| ensures p[i] == q[i] {
      AtIndex(s, off, p, i);
      AtIndex(s, off, q, i);
    }
  }

  lemma {:induction false} StrUnique(s: string, off: nat, p: string, q: string)
    requires At(s, off, p) && At(s, off, q) && StrOk(p) && StrOk(q)
    requires off + |p| < |s| && s[off + |p|] == '"' && off + |q| < |s| && s[off + |q|] == '"'
    ensures p == q
  {
    hide At;
    SkipStrOver(s, off, p);
    SkipStrOver(s, off, q);
    SameAt(s, off, p, q);
  }

  // ---- values -----------------------------------------------------------------------------------------

  /** The character after an item: another item follows, or the container ends. */
  predicate AfterItem(s: string, p: nat, isObj: bool) { p < |s| && (s[p] == ',' || s[p] == CloseChar(isObj)) }

  lemma PrimUnique(s: string, off: nat, p: string, q: string)
    requires At(s, off, p) && At(s, off, q) && PrimOk(p) && PrimOk(q) && Ends(s, off + |p|) && Ends(s, off + |q|)
    ensures p == q
  {
    hide At;
    AtLength(s, off, p);
    AtLength(s, off, q);
    if |p| < |q| {
      AtIndex(s, off, q, |p|);
    } else if |q| < |p| {
      AtIndex(s, off, p, |q|);
    } else {
      SameAt(s, off, p, q);
    }
  }

  /** The first character of a value tells its kind. */
  lemma KindOfFirst(v: Json)
    requires WellFormed(v)
    ensures |Print(v)| > 0
    ensures v.Str? <==> Print(v)[0] == '"'
    ensures v.Coll? && v.isObj <==> Print(v)[0] == '{'
    ensures v.Coll? && !v.isObj <==> Print(v)[0] == '['
    ensures v.Prim? <==> !IsDelim(Print(v)[0])
  {
  }

  lemma StrParts(s: string, off: nat, t: string)
    requires At(s, off, "\"" + t + "\"")
    ensures At(s, off + 1, t) && off + 1 + |t| < |s| && s[off + 1 + |t|] == '"'
  {
    AtSplit(s, off, "\"" + t, "\"");
    AtSplit(s, off, "\"", t);
    AtChar(s, off + 1 + |t|, '"');
  }

  lemma CollParts(s: string, off: nat, isObj: bool, items: seq<Item>)
    requires At(s, off, [OpenChar(isObj)] + PrintItems(isObj, items) + [CloseChar(isObj)])
    ensures At(s, off + 1, PrintItems(isObj, items) + [CloseChar(isObj)])
  {
    var body := PrintItems(isObj, items) + [CloseChar(isObj)];
    assert [OpenChar(isObj)] + PrintItems(isObj, items) + [CloseChar(isObj)] == [OpenChar(isObj)] + body;
    AtSplit(s, off, [OpenChar(isObj)], body);
  }

  /** Two values read at one place, each followed by a delimiter, are the same. */
  lemma {:induction false} ValueUnique(s: string, off: nat, v: Json, w: Json)
    requires WellFormed(v) && WellFormed(w) && At(s, off, Print(v)) && At(s, off, Print(w))
    requires Ends(s, off + |Print(v)|) && Ends(s, off + |Print(w)|)
    ensures v == w
    decreases v, 1
  {
    KindOfFirst(v);
    KindOfFirst(w);
    AtIndex(s, off, Print(v), 0);
    AtIndex(s, off, Print(w), 0);
    match v
    case Prim(p) => PrimUnique(s, off, p, w.text);
    case Str(p) =>
      StrParts(s, off, p);
      StrParts(s, off, w.text);
      StrUnique(s, off + 1, p, w.text);
    case Coll(isObj, items) =>
      CollParts(s, off, isObj, items);
      CollParts(s, off, isObj, w.items);
      ItemsUnique(s, off + 1, isObj, items, w.items);
  }

  /** The character after the whitespace at the front of an item: a quote, or the first of its value. */
  lemma AfterPre(s: string, off: nat, isObj: bool, it: Item)
    requires At(s, off + |it.pre|, Label(isObj, it)) && At(s, ValOff(isObj, it, off), Print(it.val))
    requires LayoutOk(isObj, it) && WellFormed(it.val)
    ensures off + |it.pre| < |s| && !IsSpace(s[off + |it.pre|]) && s[off + |it.pre|] != CloseChar(isObj)
  {
    hide Print, WellFormed, At;
    FirstChar(it.val);
    if isObj {
      AtLabel(s, off + |it.pre|, it);
      AtChar(s, off + |it.pre|, '"');
    } else {
      AtLength(s, off + |it.pre|, Print(it.val));
      AtIndex(s, off + |it.pre|, Print(it.val), 0);
    }
  }

  /** Whitespace, key and gap before a value can be read in one way only. */
  lemma HeadUnique(s: string, off: nat, isObj: bool, a: Item, b: Item)
    requires LayoutOk(isObj, a) && WellFormed(a.val) && LayoutOk(isObj, b) && WellFormed(b.val)
    requires At(s, off, a.pre) && At(s, off + |a.pre|, Label(isObj, a)) && At(s, ValOff(isObj, a, off), Print(a.val))
    requires At(s, off, b.pre) && At(s, off + |b.pre|, Label(isObj, b)) && At(s, ValOff(isObj, b, off), Print(b.val))
    ensures a.pre == b.pre && a.key == b.key && a.gap == b.gap
  {
    hide Print, WellFormed, At, StrOk, Label;
    AfterPre(s, off, isObj, a);
    AfterPre(s, off, isObj, b);
    RunUnique(s, off, a.pre, b.pre, IsSpace);
    if isObj { KeyUnique(s, off + |a.pre|, a, b); }
  }

  /** ... with the key and gap, where the whitespace is the same. */
  lemma KeyUnique(s: string, p: nat, a: Item, b: Item)
    requires LayoutOk(true, a) && WellFormed(a.val) && LayoutOk(true, b) && WellFormed(b.val)
    requires At(s, p, Label(true, a)) && At(s, p + |Label(true, a)|, Print(a.val))
    requires At(s, p, Label(true, b)) && At(s, p + |Label(true, b)|, Print(b.val))
    ensures a.key == b.key && a.gap == b.gap
  {
    hide Print, WellFormed, At, StrOk, Label;
    LabelLen(a);
    LabelLen(b);
    AtLabel(s, p, a);
    AtLabel(s, p, b);
    QuoteAfter(s, p, a);
    QuoteAfter(s, p, b);
    StrUnique(s, p + 1, a.key, b.key);
    GapEnds(s, p + 3 + |a.key|, a.gap, a.val);
    GapEnds(s, p + 3 + |b.key|, b.gap, b.val);
    RunUnique(s, p + 3 + |a.key|, a.gap, b.gap, IsBlank);
  }

  predicate IsBlank(c: char) { c == ' ' || c == '\t' }

  lemma QuoteAfter(s: string, p: nat, it: Item)
    requires At(s, p + 1 + |it.key|, "\":")
    ensures p + 2 + |it.key| < |s| && s[p + 1 + |it.key|] == '"' && s[p + 2 + |it.key|] == ':'
  {
    AtLength(s, p + 1 + |it.key|, "\":");
    AtIndex(s, p + 1 + |it.key|, "\":", 0);
    AtIndex(s, p + 1 + |it.key|, "\":", 1);
  }

  lemma GapEnds(s: string, p: nat, gap: string, v: Json)
    requires At(s, p + |gap|, Print(v)) && WellFormed(v)
    ensures p + |gap| < |s| && !IsBlank(s[p + |gap|])
  {
    hide Print, WellFormed;
    FirstChar(v);
    AtIndex(s, p + |gap|, Print(v), 0);
  }

  /** A value is followed by a delimiter: what stands after it in its item, or what follows the item. */
  lemma ValueEnds(s: string, p: nat, post: string, isObj: bool)
    requires At(s, p, post) && AfterItem(s, p + |post|, isObj)
    requires forall i :: 0 <= i < |post| ==> post[i] == ' ' || post[i] == '\n'
    ensures Ends(s, p)
  {
    if |post| > 0 { AtIndex(s, p, post, 0); }
  }

  predicate IsTail(c: char) { c == ' ' || c == '\n' }

  /** An item can be read in one way only. */
  lemma {:induction false} ItemUnique(s: string, off: nat, isObj: bool, a: Item, b: Item, x: string, y: string)
    requires LayoutOk(isObj, a) && WellFormed(a.val) && LayoutOk(isObj, b) && WellFormed(b.val)
    requires At(s, off, PrintItem(isObj, a) + x) && AfterItem(s, off + |PrintItem(isObj, a)|, isObj)
    requires At(s, off, PrintItem(isObj, b) + y) && AfterItem(s, off + |PrintItem(isObj, b)|, isObj)
    ensures a == b
    decreases a, 2
  {
    hide Print, PrintItem, WellFormed, At, StrOk, Label;
    AtItem(s, off, isObj, a, x);
    AtItem(s, off, isObj, b, y);
    ItemLength(isObj, a, off);
    ItemLength(isObj, b, off);
    HeadUnique(s, off, isObj, a, b);
    SameLabel(isObj, a, b);
    var p := ValOff(isObj, a, off);
    ValueEnds(s, p + |Print(a.val)|, a.post, isObj);
    ValueEnds(s, p + |Print(b.val)|, b.post, isObj);
    ValueUnique(s, p, a.val, b.val);
    RunUnique(s, p + |Print(a.val)|, a.post, b.post, IsTail);
  }

  lemma SameLabel(isObj: bool, a: Item, b: Item)
    requires a.key == b.key && a.gap == b.gap
    ensures Label(isObj, a) == Label(isObj, b)
  {
  }

  /** What follows the first of some items starts with a comma or the closing bracket. */
  lemma AfterFirstItem(s: string, off: nat, isObj: bool, items: seq<Item>)
    requires |items| > 0 && At(s, off, PrintItems(isObj, items) + [CloseChar(isObj)])
    ensures At(s, off, PrintItem(isObj, items[0]) + AfterFirst(isObj, items))
    ensures var p := off + |PrintItem(isObj, items[0])|;
      && AfterItem(s, p, isObj) && (s[p] == ',' <==> |items| > 1)
      && (|items| > 1 ==> At(s, p + 1, PrintItems(isObj, items[1..]) + [CloseChar(isObj)]))
  {
    hide PrintItem, PrintItems, At, AfterFirst;
    SplitFirst(isObj, items);
    AfterFirstText(isObj, items);
    var a, b := PrintItem(isObj, items[0]), AfterFirst(isObj, items);
    AtSplit(s, off, a, b);
    AtLength(s, off + |a|, b);
    AtIndex(s, off + |a|, b, 0);
    if |items| > 1 { AtSplit(s, off + |a|, [','], PrintItems(isObj, items[1..]) + [CloseChar(isObj)]); }
  }

  lemma AfterFirstText(isObj: bool, items: seq<Item>)
    requires |items| > 0
    ensures var b := AfterFirst(isObj, items);
      && |b| > 0 && b[0] == (if |items| > 1 then ',' else CloseChar(isObj))
      && (|items| > 1 ==> b == [','] + (PrintItems(isObj, items[1..]) + [CloseChar(isObj)]))
  {
    hide PrintItems;
  }

  lemma NotClosedItem(s: string, off: nat, isObj: bool, it: Item, rest: string)
    requires LayoutOk(isObj, it) && WellFormed(it.val) && At(s, off, PrintItem(isObj, it) + rest)
    ensures off < |s| && s[off] != CloseChar(isObj)
  {
    hide Print, PrintItem, WellFormed, At, StrOk, Label;
    AtItem(s, off, isObj, it, rest);
    AfterPre(s, off, isObj, it);
    if |it.pre| > 0 { AtIndex(s, off, it.pre, 0); }
  }

  /** A list of items that is not empty does not look like an empty one. */
  lemma NotClosed(s: string, off: nat, isObj: bool, items: seq<Item>)
    requires |items| > 0 && WellFormedItems(isObj, items) && At(s, off, PrintItems(isObj, items) + [CloseChar(isObj)])
    ensures off < |s| && s[off] != CloseChar(isObj)
  {
    hide PrintItem, PrintItems, WellFormed, WellFormedItems, LayoutOk, At, AfterFirst;
    WellFormedTail(isObj, items);
    AfterFirstItem(s, off, isObj, items);
    NotClosedItem(s, off, isObj, items[0], AfterFirst(isObj, items));
  }

  lemma Closed(s: string, off: nat, isObj: bool)
    requires At(s, off, PrintItems(isObj, []) + [CloseChar(isObj)])
    ensures off < |s| && s[off] == CloseChar(isObj)
  {
    AtIndex(s, off, PrintItems(isObj, []) + [CloseChar(isObj)], 0);
  }

  lemma {:induction false} ItemsUnique(s: string, off: nat, isObj: bool, a: seq<Item>, b: seq<Item>)
    requires WellFormedItems(isObj, a) && WellFormedItems(isObj, b)
    requires At(s, off, PrintItems(isObj, a) + [CloseChar(isObj)]) && At(s, off, PrintItems(isObj, b) + [CloseChar(isObj)])
    ensures a == b
    decreases a, 0
  {
    hide PrintItem, PrintItems, WellFormed, WellFormedItems, At, AfterFirst;
    if |a| == 0 {
      Closed(s, off, isObj);
      if |b| > 0 { NotClosed(s, off, isObj, b); }
    } else if |b| == 0 {
      NotClosed(s, off, isObj, a);
      Closed(s, off, isObj);
    } else {
      WellFormedTail(isObj, a);
      WellFormedTail(isObj, b);
      AfterFirstItem(s, off, isObj, a);
      AfterFirstItem(s, off, isObj, b);
      ItemUnique(s, off, isObj, a[0], b[0], AfterFirst(isObj, a), AfterFirst(isObj, b));
      if |a| > 1 {
        ItemsUnique(s, off + |PrintItem(isObj, a[0])| + 1, isObj, a[1..], b[1..]);
      }
      assert a == [a[0]] + a[1..] && b == [b[0]] + b[1..];
    }
  }

  /** Well-formed trees with the same text are the same tree. */
  lemma TreeUnique(v: Json, w: Json)
    requires WellFormed(v) && WellFormed(w) && Print(v) == Print(w)
    ensures v == w
  {
    hide Print, WellFormed;
    var s := Print(v);
    assert s[0..0 + |s|] == s;
    ValueUnique(s, 0, v, w);
  }

  /** The first of some items that another follows. */
  lemma FrontParts(s: string, off: nat, a: seq<Item>, rest: string)
    requires |a| > 0 && At(s, off, PrintItems(true, a) + "," + rest)
    ensures At(s, off, PrintItem(true, a[0]) + "")
    ensures var p := off + |PrintItem(true, a[0])|;
      p < |s| && s[p] == ',' && (|a| > 1 ==> At(s, p + 1, PrintItems(true, a[1..]) + "," + rest))
  {
    hide PrintItem, At;
    var x := PrintItem(true, a[0]);
    assert x + "" == x;
    if |a| == 1 {
      JoinAfter(x, ",", "", rest);
      assert x + "," + rest == x + ("," + rest);
      AtSplit(s, off, x, "," + rest);
      AtSplit(s, off + |x|, ",", rest);
    } else {
      var y := PrintItems(true, a[1..]);
      FrontJoin(x, ",", y, ",", rest);
      AtSplit(s, off, x, "," + (y + "," + rest));
      AtSplit(s, off + |x|, ",", y + "," + rest);
    }
    AtChar(s, off + |x|, ',');
  }

  lemma FrontJoin(x: string, c: string, y: string, d: string, z: string)
    ensures (x + c + y) + d + z == x + (c + (y + d + z))
  {
  }

  /** Items that are known to stand at the front of a list are its first items, and another follows. */
  lemma {:induction false} FrontUnique(s: string, off: nat, a: seq<Item>, rest: string, b: seq<Item>)
    requires WellFormedItems(true, a) && WellFormedItems(true, b)
    requires At(s, off, PrintItems(true, b) + "}")
    requires |a| > 0 && At(s, off, PrintItems(true, a) + "," + rest)
    ensures |b| > |a| && b[..|a|] == a
    decreases |a|
  {
    hide PrintItem, PrintItems, WellFormed, WellFormedItems, At, AfterFirst;
    WellFormedTail(true, a);
    FrontParts(s, off, a, rest);
    if |b| == 0 {
      Closed(s, off, true);
      NotClosedItem(s, off, true, a[0], "");
    } else {
      WellFormedTail(true, b);
      AfterFirstItem(s, off, true, b);
      ItemUnique(s, off, true, a[0], b[0], "", AfterFirst(true, b));
      if |a| > 1 {
        FrontUnique(s, off + |PrintItem(true, a[0])| + 1, a[1..], rest, b[1..]);
        assert b[1..][..|a| - 1] == b[..|a|][1..];
      }
      assert a == [a[0]] + a[1..] && b[..|a|] == [b[0]] + b[..|a|][1..];
    }
  }
}
