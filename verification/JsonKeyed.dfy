/** An object in which the value of one member is an array whose first element has a key: its text, its tokens, and the walk
    over them. */
module JsonKeyed {
  import opened Options
  import opened JsonText
  import opened JsonWalk
  import opened JsonLoop
  import opened JsonLookup
  import opened JsonEdit
  import opened JsonFront
  import opened JsonRequote

  // ---- an array with a key in it -----------------------------------------------------------------------

  function KeyedText(es: seq<Item>, it: Item): string { "[" + (PrintItem(true, it) + ",") + PrintItems(false, es) + "]" }

  function KeyedHead(es: seq<Item>, it: Item, off: nat): Tok { Tok(TArr, off, off + |KeyedText(es, it)|, |es| + 1) }

  /** The tokens: the element with the key counts as one. */
  function KeyedToks(es: seq<Item>, it: Item, off: nat): seq<Tok> {
    [KeyedHead(es, it, off)] + FlattenItem(true, it, off + 1) + FlattenItems(false, es, off + 1 + |PrintItem(true, it)| + 1)
  }

  lemma KeyedParts(es: seq<Item>, it: Item, s: string, off: nat)
    requires At(s, off, KeyedText(es, it))
    ensures At(s, off, "[") && At(s, off + 1, PrintItem(true, it) + ",")
    ensures At(s, off + 1 + |PrintItem(true, it)| + 1, PrintItems(false, es) + "]")
    ensures |KeyedText(es, it)| == |PrintItem(true, it)| + |PrintItems(false, es)| + 3
  {
    hide PrintItem, PrintItems, At;
    var x, y := PrintItem(true, it) + ",", PrintItems(false, es) + "]";
    assert KeyedText(es, it) == "[" + (x + y);
    AtSplit(s, off, "[", x + y);
    AtSplit(s, off + 1, x, y);
  }

  /** Scanning an element after a key, up to the end of its list. */
  lemma LastScan(s: string, p: nat, key: seq<Tok>, toks: seq<Tok>, c: nat)
    requires p <= |s| && c + 1 < |s| && ScanValue(s, p) == Scanned(toks, c) && s[c] == ',' && s[c + 1] == ']'
    ensures ScanElement(s, p, key, false) == ScannedItems(key + toks, 1, c + 2)
  {
    hide ScanValue;
  }

  lemma KeyedScan(es: seq<Item>, it: Item, s: string, off: nat)
    requires WellFormedItems(false, es) && LayoutOk(true, it) && WellFormed(it.val) && it.pre == "" && it.post == ""
    requires At(s, off, KeyedText(es, it))
    ensures off <= |s|
    ensures ScanValue(s, off) == Scanned(KeyedToks(es, it, off), off + |KeyedText(es, it)|)
  {
    hide ScanValue, ScanItems, ScanElement, Flatten, FlattenItems, Print, PrintItem, PrintItems, At, WellFormed,
         WellFormedItems, KeyedText, StrOk, Label;
    KeyedParts(es, it, s, off);
    AtLength(s, off, KeyedText(es, it));
    AtChar(s, off, '[');
    AtItem(s, off + 1, true, it, ",");
    var p, c := ValOff(true, it, off + 1), off + 1 + |PrintItem(true, it)|;
    ItemLength(true, it, off + 1);
    AtChar(s, c, ',');
    FirstChar(it.val);
    AtIndex(s, p, Print(it.val), 0);
    AtLength(s, p, Print(it.val));
    KeyedItem(it, s, off + 1, false);
    ScanPrint(it.val, s, p);
    LabelLen(it);
    AtLabel(s, off + 1 + |it.pre|, it);
    AtChar(s, off + 1, '"');
    var key, toks := [KeyTok(it, off + 1)], Flatten(it.val, p);
    var n := off + |KeyedText(es, it)|;
    if |es| == 0 {
      NoItemsText(false, c + 1);
      AtChar(s, c + 1, ']');
      LastScan(s, p, key, toks, c);
      assert key + toks + [] == key + toks;
      CollStep(false, s, off, key + toks, 1, n);
    } else {
      NotEmptyLook(false, es, s, c + 1);
      ScanItemsPrint(false, es, s, c + 1);
      ScanMore(s, p, key, false, toks, c, c, FlattenItems(false, es, c + 1), |es|, n);
      CollStep(false, s, off, key + toks + FlattenItems(false, es, c + 1), |es| + 1, n);
    }
    ToksAssoc(KeyedHead(es, it, off), key, toks, FlattenItems(false, es, c + 1));
  }

  lemma ToksAssoc(h: Tok, a: seq<Tok>, b: seq<Tok>, c: seq<Tok>)
    ensures [h] + (a + b) + c == [h] + (a + b + c)
  {
  }

  // ---- the text with such an array ----------------------------------------------------------------------------

  /** Scanning members that others follow. */
  lemma {:induction false} LeadScan(items: seq<Item>, i: nat, s: string, off: nat, rest: seq<Tok>, n: nat, end: nat)
    requires i <= |items| && WellFormedItems(true, items) && At(s, off, Lead(items[..i]))
    requires var q := off + |Lead(items[..i])|; q <= |s| && ScanItems(s, q, true) == ScannedItems(rest, n, end)
    ensures ScanItems(s, off, true) == ScannedItems(FlattenItems(true, items[..i], off) + rest, i + n, end)
    decreases i
  {
    hide ScanValue, ScanItems, ScanElement, Flatten, FlattenItems, Print, PrintItem, At, WellFormed, WellFormedItems, Lead,
         LayoutOk;
    if i == 0 {
      LeadParts([]);
      assert items[..0] == [] && [] + rest == rest;
      NoItemsText(true, off);
    } else {
      var it := items[0];
      WellFormedTail(true, items);
      LeadStep(items, i);
      LeadSplit(PrintItem(true, it), Lead(items[1..][..i - 1]));
      var tail := "," + Lead(items[1..][..i - 1]);
      MemberScan(it, s, off, tail);
      var next := off + |PrintItem(true, it)| + 1;
      AtSplit(s, next - 1, ",", Lead(items[1..][..i - 1]));
      LeadScan(items[1..], i - 1, s, next, rest, n, end);
      var p := ValOff(true, it, off);
      ScanMore(s, p, [KeyTok(it, off)], true, Flatten(it.val, p), p + |Print(it.val)|, next - 1,
               FlattenItems(true, items[1..][..i - 1], next) + rest, i - 1 + n, end);
      assert items[..i][0] == it && items[..i][1..] == items[1..][..i - 1];
      FlattenSplit(true, items[..i], off);
      ToksRight([KeyTok(it, off)], Flatten(it.val, p), FlattenItems(true, items[1..][..i - 1], next), rest);
    }
  }

  lemma LeadSplit(x: string, l: string)
    ensures x + "," + l == x + ("," + l)
  {
  }

  lemma ToksRight(a: seq<Tok>, b: seq<Tok>, c: seq<Tok>, d: seq<Tok>)
    ensures a + b + (c + d) == (a + b + c) + d
  {
  }

  /** The key and the value of a member that a separator follows. */
  lemma MemberScan(it: Item, s: string, off: nat, tail: string)
    requires LayoutOk(true, it) && WellFormed(it.val) && At(s, off, PrintItem(true, it) + tail)
    requires |tail| > 0 && (tail[0] == ',' || tail[0] == '}')
    ensures var p := ValOff(true, it, off);
      && off <= |s| && p <= |s| && p + |Print(it.val)| <= |s|
      && ScanItems(s, off, true) == ScanElement(s, p, [KeyTok(it, off)], true)
      && ScanValue(s, p) == Scanned(Flatten(it.val, p), p + |Print(it.val)|)
      && SkipSpace(s, p + |Print(it.val)|) == off + |PrintItem(true, it)| < |s|
      && s[off + |PrintItem(true, it)|] == tail[0]
    ensures At(s, off + |PrintItem(true, it)|, tail)
  {
    hide ScanValue, ScanItems, ScanElement, Flatten, FlattenItems, Print, PrintItem, At, WellFormed, StrOk, Label;
    AtItem(s, off, true, it, tail);
    ItemLength(true, it, off);
    var p := ValOff(true, it, off);
    FirstChar(it.val);
    AtLength(s, p, Print(it.val));
    AtIndex(s, p, Print(it.val), 0);
    KeyedItem(it, s, off, true);
    assert tail == [tail[0]] + tail[1..];
    LookPast(s, p + |Print(it.val)|, it.post, tail[0], tail[1..]);
    ScanPrint(it.val, s, p);
  }

  /** The text in which the value of the i-th member is the array with a key. */
  function MixedText(items: seq<Item>, i: nat, es: seq<Item>, it: Item): string
    requires i < |items|
  {
    HeadText(items, i) + KeyedText(es, it) + TailText(items, i)
  }

  function MixedToks(items: seq<Item>, i: nat, es: seq<Item>, it: Item): seq<Tok>
    requires i < |items|
  {
    var q, h := 1 + |Lead(items[..i])|, |HeadText(items, i)|;
    [Tok(TObj, 0, |MixedText(items, i, es, it)|, |items|)] + FlattenItems(true, items[..i], 1)
    + ([KeyTok(items[i], q)] + KeyedToks(es, it, h)
       + FlattenItems(true, items[i + 1..], h + |KeyedText(es, it)| + |items[i].post| + 1))
  }

  /** Scanning a member whose value has been scanned, and those after it. */
  lemma TailScan(items: seq<Item>, i: nat, s: string, p: nat, key: seq<Tok>, toks: seq<Tok>, e: nat)
    requires i < |items| && WellFormedItems(true, items) && p <= |s| && e <= |s| && ScanValue(s, p) == Scanned(toks, e)
    requires At(s, e, TailText(items, i)) && e + |TailText(items, i)| == |s|
    ensures ScanElement(s, p, key, true)
         == ScannedItems(key + toks + FlattenItems(true, items[i + 1..], e + |items[i].post| + 1), |items| - i, |s|)
  {
    hide ScanValue, ScanItems, ScanElement, Flatten, FlattenItems, PrintItem, PrintItems, At, WellFormed, WellFormedItems,
         StrOk;
    var it, rest := items[i], items[i + 1..];
    WellFormedItem(items, i);
    assert items[i..][1..] == rest;
    AtSplit(s, e, it.post, AfterFirst(true, items[i..]));
    var x := e + |it.post|;
    if i + 1 == |items| {
      NoItemsText(true, x + 1);
      assert "}" + "" == "}";
      LookPast(s, e, it.post, '}', "");
      ScanLast(s, p, key, true, toks, e, x);
      assert key + toks + [] == key + toks;
    } else {
      var body := PrintItems(true, rest) + "}";
      LookPast(s, e, it.post, ',', body);
      AllAfter(items, i);
      ScanItemsPrint(true, rest, s, x + 1);
      ScanMore(s, p, key, true, toks, e, x, FlattenItems(true, rest, x + 1), |rest|, x + 1 + |body|);
    }
  }

  lemma AllAfter(items: seq<Item>, i: nat)
    requires i < |items| && WellFormedItems(true, items)
    ensures WellFormedItems(true, items[i + 1..])
  {
    hide WellFormed, LayoutOk;
  }

  /** Where the parts of the text are. */
  lemma MixedParts(items: seq<Item>, i: nat, es: seq<Item>, it: Item)
    requires i < |items|
    ensures var s, q, h := MixedText(items, i, es, it), 1 + |Lead(items[..i])|, |HeadText(items, i)|;
      && At(s, 0, "{") && At(s, 1, Lead(items[..i])) && At(s, q, items[i].pre)
      && At(s, q + |items[i].pre|, Label(true, items[i])) && h == ValOff(true, items[i], q)
      && At(s, h, KeyedText(es, it)) && At(s, h + |KeyedText(es, it)|, TailText(items, i))
      && h + |KeyedText(es, it)| + |TailText(items, i)| == |s|
  {
    hide Lead, Label, KeyedText, TailText, At;
    FiveParts("{", Lead(items[..i]), items[i].pre, Label(true, items[i]), KeyedText(es, it), TailText(items, i));
  }

  lemma FiveParts(o: string, l: string, pre: string, tag: string, v: string, t: string)
    ensures var s := (o + l + pre + tag) + v + t;
      && At(s, 0, o) && At(s, |o|, l) && At(s, |o| + |l|, pre) && At(s, |o| + |l| + |pre|, tag)
      && At(s, |o| + |l| + |pre| + |tag|, v) && At(s, |o| + |l| + |pre| + |tag| + |v|, t)
  {
    hide At;
    var s := (o + l + pre + tag) + v + t;
    Whole(s, (o + l + pre + tag) + v, t);
    AtSplit(s, 0, o + l + pre + tag, v);
    AtSplit(s, 0, o + l + pre, tag);
    AtSplit(s, 0, o + l, pre);
    AtSplit(s, 0, o, l);
  }

  lemma KeyAhead(s: string, p: nat)
    requires p <= |s| && ScanItems(s, p, true).ScannedItems?
    ensures var a := SkipSpace(s, p); a < |s| && s[a] != '}'
  {
  }

  lemma TopScan(s: string, toks: seq<Tok>, n: nat)
    requires |s| > 0 && s[0] == '{' && ScanItems(s, 1, true) == ScannedItems(toks, n, |s|)
    ensures Scan(s) == Scanned([Tok(TObj, 0, |s|, n)] + toks, |s|)
  {
    hide ScanItems, ScanValue;
    KeyAhead(s, 1);
    CollStep(true, s, 0, toks, n, |s|);
  }

  /** The text is accepted, and these are its tokens. */
  lemma MixedScan(items: seq<Item>, i: nat, es: seq<Item>, it: Item)
    requires i < |items| && WellFormedItems(true, items) && WellFormedItems(false, es)
    requires LayoutOk(true, it) && WellFormed(it.val) && it.pre == "" && it.post == ""
    ensures var s := MixedText(items, i, es, it); Scan(s) == Scanned(MixedToks(items, i, es, it), |s|)
  {
    hide ScanValue, ScanItems, ScanElement, FlattenItems, At, WellFormed, WellFormedItems, KeyedText, StrOk, Lead, HeadText,
         TailText, MixedText, KeyedToks, Scan;
    var s, q, h := MixedText(items, i, es, it), 1 + |Lead(items[..i])|, |HeadText(items, i)|;
    MixedParts(items, i, es, it);
    WellFormedItem(items, i);
    AtChar(s, 0, '{');
    KeyedFirst(es, it);
    AtLength(s, h, KeyedText(es, it));
    AtIndex(s, h, KeyedText(es, it), 0);
    KeyedItem(items[i], s, q, true);
    KeyedScan(es, it, s, h);
    var e := h + |KeyedText(es, it)|;
    var key, toks := [KeyTok(items[i], q)], KeyedToks(es, it, h);
    AtLength(s, e, TailText(items, i));
    TailScan(items, i, s, h, key, toks, e);
    var rest := key + toks + FlattenItems(true, items[i + 1..], e + |items[i].post| + 1);
    LeadScan(items, i, s, 1, rest, |items| - i, |s|);
    TopScan(s, FlattenItems(true, items[..i], 1) + rest, |items|);
    ToksTop(Tok(TObj, 0, |s|, |items|), FlattenItems(true, items[..i], 1), rest);
  }

  lemma ToksTop(h: Tok, a: seq<Tok>, b: seq<Tok>)
    ensures [h] + (a + b) == [h] + a + b
  {
  }

  lemma KeyedFirst(es: seq<Item>, it: Item)
    ensures |KeyedText(es, it)| > 0 && KeyedText(es, it)[0] == '['
  {
  }

  // ---- the walk over it -----------------------------------------------------------------------------------------

  /** Past members of other names: nothing is found, and no name is pending. */
  lemma {:induction false} LeadRun(items: seq<Item>, i: nat, toks: seq<Tok>, k: nat, off: nat, top: Frame, text: string,
                                   id1: string, cb: Call -> bool) returns (calls: seq<Call>, p: nat)
    requires i <= |items| && top.rem > i && forall j :: 0 <= j < i ==> items[j].key != id1
    requires At(toks, k, FlattenItems(true, items[..i], off)) && At(text, off, Lead(items[..i]))
    ensures var n := k + |FlattenItems(true, items[..i], off)|;
      && n <= |toks|
      && Run(toks, k, Walker([top], -1), text, Some(id1))
         == Before(calls, p, Run(toks, n, Walker([top.(rem := top.rem - i)], -1), text, Some(id1)))
    ensures FirstHit(calls, cb) == None && p <= 1 + DepthItems(items[..i])
    decreases i
  {
    hide Run, Resume, Calls, Flatten, FlattenItems, Print, PrintItem, At, Lead, HitAfter, Depth, DepthItems, FirstHit;
    var id, w := Some(id1), Walker([top], -1);
    AtLength(toks, k, FlattenItems(true, items[..i], off));
    if i == 0 {
      calls, p := [], 0;
      NoItemsText(true, off);
      NoneHit(cb);
      assert items[..0] == [];
      assert top.(rem := top.rem - 0) == top;
      BeforeNone(Run(toks, k, w, text, id));
    } else {
      var it := items[0];
      LeadStep(items, i);
      LeadSplit(PrintItem(true, it), Lead(items[1..][..i - 1]));
      AtItem(text, off, true, it, "," + Lead(items[1..][..i - 1]));
      AtSplit(text, off + |PrintItem(true, it)|, ",", Lead(items[1..][..i - 1]));
      AtLabel(text, off + |it.pre|, it);
      assert items[..i][0] == it && items[..i][1..] == items[1..][..i - 1];
      FlattenSplit(true, items[..i], off);
      var v, kv := ValOff(true, it, off), k + 1;
      var next := off + |PrintItem(true, it)| + 1;
      AtFirstItem(toks, k, [KeyTok(it, off)], Flatten(it.val, v), FlattenItems(true, items[1..][..i - 1], next));
      AtIndex(toks, k, [KeyTok(it, off)], 0);
      RunKey(it, toks, k, off, w, text, id);
      RunValue(it.val, toks, kv, v, w, text, id);
      HitAfterTop(it.val, -1, id);
      var k2, down := kv + |Flatten(it.val, v)|, top.(rem := top.rem - 1);
      assert CountDown(w.stack) == [down];
      ResumeOpen(toks, k2, Walker([down], -1), text, id);
      var calls1, p1 := LeadRun(items[1..], i - 1, toks, k2, next, down, text, id1, cb);
      var c := Calls(it.val, 1, kv, v, -1, Remaining(w), id);
      Silent(it.val, 1, kv, v, Remaining(w), id, cb);
      FirstHitAppend(c, calls1, cb);
      calls, p := c + calls1, Max(1 + Depth(it.val), p1);
      BeforeBefore(c, 1 + Depth(it.val), calls1, p1,
                   Run(toks, k + |FlattenItems(true, items[..i], off)|, Walker([top.(rem := top.rem - i)], -1), text, id));
      BeforeQuiet(1, c + calls1, Max(1 + Depth(it.val), p1), Run(toks, k + |FlattenItems(true, items[..i], off)|,
                  Walker([top.(rem := top.rem - i)], -1), text, id));
      DepthFirst(items[..i]);
    }
  }

  lemma NoneHit(cb: Call -> bool)
    ensures FirstHit([], cb) == None
  {
  }

  lemma BeforeNone(t: Trace)
    ensures Before([], 0, t) == t
  {
    assert [] + t.calls == t.calls;
  }

  lemma BeforeQuiet(p: nat, calls: seq<Call>, q: nat, t: Trace)
    requires p <= q
    ensures Before([], p, Before(calls, q, t)) == Before(calls, q, t)
  {
    assert [] + (calls + t.calls) == calls + t.calls;
  }

  lemma DepthFirst(items: seq<Item>)
    requires |items| > 0
    ensures DepthItems(items) == Max(Depth(items[0].val), DepthItems(items[1..]))
  {
  }

  /** The index of the token of the key in the array. */
  function KeyIndex(items: seq<Item>, i: nat): nat
    requires i < |items|
  {
    1 + |FlattenItems(true, items[..i], 1)| + 2
  }

  /** Where the tokens are. */
  lemma MixedTokens(items: seq<Item>, i: nat, es: seq<Item>, it: Item)
    requires i < |items|
    ensures var toks, q, h := MixedToks(items, i, es, it), 1 + |Lead(items[..i])|, |HeadText(items, i)|;
            var k, vals := KeyIndex(items, i), Flatten(it.val, ValOff(true, it, h + 1));
            var els := FlattenItems(false, es, h + 1 + |PrintItem(true, it)| + 1);
      && At(toks, 0, [Tok(TObj, 0, |MixedText(items, i, es, it)|, |items|)]) && At(toks, 1, FlattenItems(true, items[..i], 1))
      && At(toks, k - 2, [KeyTok(items[i], q)]) && At(toks, k - 1, [KeyedHead(es, it, h)])
      && At(toks, k, [KeyTok(it, h + 1)]) && At(toks, k + 1, vals) && At(toks, k + 1 + |vals|, els)
      && At(toks, k + 1 + |vals| + |els|,
            FlattenItems(true, items[i + 1..], h + |KeyedText(es, it)| + |items[i].post| + 1))
      && |toks| == k + 1 + |vals| + |els|
                   + |FlattenItems(true, items[i + 1..], h + |KeyedText(es, it)| + |items[i].post| + 1)|
  {
    hide Lead, HeadText, KeyedText, MixedText, Flatten, FlattenItems, At, PrintItem, Label, KeyedHead;
    var q, h := 1 + |Lead(items[..i])|, |HeadText(items, i)|;
    EightParts(Tok(TObj, 0, |MixedText(items, i, es, it)|, |items|), FlattenItems(true, items[..i], 1), KeyTok(items[i], q),
               KeyedHead(es, it, h), KeyTok(it, h + 1), Flatten(it.val, ValOff(true, it, h + 1)),
               FlattenItems(false, es, h + 1 + |PrintItem(true, it)| + 1),
               FlattenItems(true, items[i + 1..], h + |KeyedText(es, it)| + |items[i].post| + 1));
  }

  lemma EightParts(o: Tok, a: seq<Tok>, b: Tok, c: Tok, d: Tok, v: seq<Tok>, e: seq<Tok>, r: seq<Tok>)
    ensures var s, n := [o] + a + ([b] + ([c] + ([d] + v) + e) + r), 1 + |a|;
      && At(s, 0, [o]) && At(s, 1, a) && At(s, n, [b]) && At(s, n + 1, [c]) && At(s, n + 2, [d]) && At(s, n + 3, v)
      && At(s, n + 3 + |v|, e) && At(s, n + 3 + |v| + |e|, r) && |s| == n + 3 + |v| + |e| + |r|
  {
    hide At;
    var x := [c] + ([d] + v) + e;
    var s := [o] + a + ([b] + x + r);
    Parts(s, [o] + a, [b] + x + r);
    AtSplit(s, 0, [o], a);
    AtSplit(s, 1 + |a|, [b] + x, r);
    AtSplit(s, 1 + |a|, [b], x);
    AtSplit(s, 2 + |a|, [c] + ([d] + v), e);
    AtSplit(s, 2 + |a|, [c], [d] + v);
    AtSplit(s, 3 + |a|, [d], v);
  }

  lemma Parts(s: seq<Tok>, a: seq<Tok>, b: seq<Tok>)
    requires s == a + b
    ensures At(s, 0, a) && At(s, |a|, b)
  {
    AtSplit(s, 0, a, b);
  }

  /** The key token is met with the name pending, at level 2. */
  lemma KeyMet(toks: seq<Tok>, k: nat, it: Item, off: nat, w: Walker, text: string, id1: string)
    requires k < |toks| && toks[k] == KeyTok(it, off) && At(text, off + |it.pre| + 1, it.key)
    requires |w.stack| == 2 && w.hit == 2 && Remaining(w) > 0
    ensures Run(toks, k, w, text, Some(id1))
         == Before([Call(k, KeyTok(it, off), 2, 2, Remaining(w))], 2, Run(toks, k + 1, w, text, Some(id1)))
    ensures FirstHit([Call(k, KeyTok(it, off), 2, 2, Remaining(w))], LookupCb(text, it.key, LVL2_MATCH)) == Some(k)
  {
    hide Run, At;
    RunKey(it, toks, k, off, w, text, Some(id1));
    KeyNamed(text, it, off, it.key);
    assert Walker(w.stack, 2) == w;
  }

  /** Into the array at id1, with the name pending. */
  lemma IntoArray(toks: seq<Tok>, k: nat, key: Item, off: nat, arr: Tok, top: Frame, text: string)
    requires k + 2 <= |toks| && toks[k] == KeyTok(key, off) && toks[k + 1] == arr && arr.ty == TArr && arr.size > 0
    requires At(text, off + |key.pre| + 1, key.key) && top.rem > 0
    ensures Run(toks, k, Walker([top], -1), text, Some(key.key))
         == Before([], 2, Run(toks, k + 2, Walker([top.(rem := top.rem - 1), Frame(arr, arr.size)], 2), text, Some(key.key)))
  {
    hide Run, Resume, At, Close;
    var id, w, w1 := Some(key.key), Walker([top], -1), Walker([top], 2);
    var w2 := Walker([top.(rem := top.rem - 1), Frame(arr, arr.size)], 2);
    RunKey(key, toks, k, off, w, text, id);
    RunStep(toks, k + 1, w1, text, id);
    assert CountDown(w1.stack) + [Frame(arr, arr.size)] == w2.stack;
    assert Enter(w1, k + 1, arr, text, id) == Entered(w2, []);
    ResumeOpen(toks, k + 2, w2, text, id);
    BeforeBefore([], 1, [], 2, Run(toks, k + 2, w2, text, id));
  }

  lemma TopRun(toks: seq<Tok>, tok: Tok, text: string, id1: string)
    requires |toks| > 0 && toks[0] == tok && tok.ty == TObj && tok.size > 0
    ensures Run(toks, 0, START, text, Some(id1))
         == Before([], 1, Run(toks, 1, Walker([Frame(tok, tok.size)], -1), text, Some(id1)))
  {
    hide Run, Resume, Close;
    var w := Walker([Frame(tok, tok.size)], -1);
    RunStep(toks, 0, START, text, Some(id1));
    assert [] + [Frame(tok, tok.size)] == w.stack;
    assert Enter(START, 0, tok, text, Some(id1)) == Entered(w, []);
    ResumeOpen(toks, 1, w, text, Some(id1));
  }

  // ---- how deep it goes ---------------------------------------------------------------------------------------------

  lemma EndPeak(toks: seq<Tok>, tok: Tok, hit: int, text: string, id: Option<string>)
    ensures Resume(toks, |toks|, Walker([Frame(tok, 0)], hit), text, id).peak == 0
  {
    hide Run;
    assert [] + [Frame(tok, 0)] == [Frame(tok, 0)];
    ResumeClosed(toks, |toks|, [], tok, hit, text, id);
    var w := Walker([], Clear(hit, 0));
    assert Close(w) == Entered(w, []);
    RunNothing(toks, w, text, id);
  }

  lemma RunNothing(toks: seq<Tok>, w: Walker, text: string, id: Option<string>)
    ensures Run(toks, |toks|, w, text, id) == Trace(w, [], 0)
  {
  }

  /** The members that follow. */
  lemma RestPeak(rest: seq<Item>, toks: seq<Tok>, k: nat, off: nat, tok: Tok, hit: int, text: string, id: Option<string>)
    requires At(toks, k, FlattenItems(true, rest, off)) && k + |FlattenItems(true, rest, off)| == |toks|
    requires |rest| > 0 ==> At(text, off, PrintItems(true, rest) + "}")
    ensures Resume(toks, k, Walker([Frame(tok, |rest|)], hit), text, id).peak <= 1 + DepthItems(rest)
  {
    hide Run, Resume, FlattenItems, PrintItems, At, DepthItems, ItemCalls, HitAfterItems;
    var w := Walker([Frame(tok, |rest|)], hit);
    if |rest| == 0 {
      NoItems(true, 1, k, off, hit, id);
      EndPeak(toks, tok, hit, text, id);
    } else {
      ResumeOpen(toks, k, w, text, id);
      RunItems(true, rest, toks, k, off, w, text, id);
      assert Emptied(w.stack) == [Frame(tok, 0)];
      EndPeak(toks, tok, HitAfterItems(true, rest, 1, hit, id), text, id);
    }
  }

  /** The elements behind the one with the key, to the end of the array. */
  lemma ElementsPeak(es: seq<Item>, toks: seq<Tok>, k: nat, off: nat, top: Frame, arr: Tok, hit: int, text: string,
                     id: Option<string>) returns (h: int)
    requires At(toks, k, FlattenItems(false, es, off)) && At(text, off, PrintItems(false, es) + "]")
    ensures k + |FlattenItems(false, es, off)| <= |toks|
    ensures Resume(toks, k, Walker([top, Frame(arr, |es|)], hit), text, id).peak
         <= Max(2 + DepthItems(es),
                Resume(toks, k + |FlattenItems(false, es, off)|, Walker([top], h), text, id).peak)
  {
    hide Run, Resume, FlattenItems, PrintItems, At, DepthItems, ItemCalls, HitAfterItems;
    AtLength(toks, k, FlattenItems(false, es, off));
    var w := Walker([top, Frame(arr, |es|)], hit);
    var n := k + |FlattenItems(false, es, off)|;
    var closed := [top] + [Frame(arr, 0)];
    if |es| == 0 {
      NoItems(false, 2, k, off, hit, id);
      assert w.stack == closed;
      h := Clear(hit, 1);
      ResumeClosed(toks, n, [top], arr, hit, text, id);
    } else {
      ResumeOpen(toks, k, w, text, id);
      RunItems(false, es, toks, k, off, w, text, id);
      assert Emptied(w.stack) == closed;
      var last := HitAfterItems(false, es, 2, hit, id);
      h := Clear(last, 1);
      ResumeClosed(toks, n, [top], arr, last, text, id);
    }
  }

  /** Behind the key in the array. */
  lemma BehindKey(items: seq<Item>, i: nat, es: seq<Item>, it: Item, top: Frame, id1: string)
    requires i < |items| && top.rem == |items| - i - 1
    ensures var s, toks := MixedText(items, i, es, it), MixedToks(items, i, es, it);
            var h, k := |HeadText(items, i)|, KeyIndex(items, i);
            var arr := KeyedHead(es, it, h);
      && k + 1 <= |toks|
      && Run(toks, k + 1, Walker([top, Frame(arr, |es| + 1)], 2), s, Some(id1)).peak
         <= Max(2 + Depth(it.val), Max(2 + DepthItems(es), 1 + DepthItems(items[i + 1..])))
  {
    hide Run, Resume, Flatten, FlattenItems, PrintItems, Print, PrintItem, At, Depth, DepthItems, Calls, HitAfter, MixedText,
         MixedToks, KeyedText, TailText, HeadText, KeyIndex, Lead, KeyedHead, Label;
    var s, toks, h, k := MixedText(items, i, es, it), MixedToks(items, i, es, it), |HeadText(items, i)|, KeyIndex(items, i);
    var arr, id := KeyedHead(es, it, h), Some(id1);
    MixedParts(items, i, es, it);
    MixedTokens(items, i, es, it);
    KeyedParts(es, it, s, h);
    AtItem(s, h + 1, true, it, ",");
    var w, v := Walker([top, Frame(arr, |es| + 1)], 2), ValOff(true, it, h + 1);
    AtLength(toks, k + 1, Flatten(it.val, v));
    RunValue(it.val, toks, k + 1, v, w, s, id);
    assert CountDown(w.stack) == [top, Frame(arr, |es|)];
    var k2, eo := k + 1 + |Flatten(it.val, v)|, h + 1 + |PrintItem(true, it)| + 1;
    var hit := ElementsPeak(es, toks, k2, eo, top, arr, HitAfter(it.val, 2, 2, id), s, id);
    var rest, e := items[i + 1..], h + |KeyedText(es, it)|;
    var ro := e + |items[i].post| + 1;
    if |rest| > 0 { RestText(items, i, s, e); }
    RestPeak(rest, toks, k2 + |FlattenItems(false, es, eo)|, ro, top.tok, hit, s, id);
    assert top == Frame(top.tok, |rest|);
  }

  lemma RestText(items: seq<Item>, i: nat, s: string, e: nat)
    requires i + 1 < |items| && At(s, e, TailText(items, i))
    ensures At(s, e + |items[i].post| + 1, PrintItems(true, items[i + 1..]) + "}")
  {
    hide PrintItems, At;
    assert items[i..][1..] == items[i + 1..];
    AtSplit(s, e, items[i].post, AfterFirst(true, items[i..]));
    AtSplit(s, e + |items[i].post|, [','], PrintItems(true, items[i + 1..]) + "}");
  }
}
