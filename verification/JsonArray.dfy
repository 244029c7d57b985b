/** Setting id1.id2 where the value of id1 is an array: the member's text becomes a first element with a key, which the
    tokenizer accepts and the lookup finds. */
module JsonArray {
  import opened Options
  import opened JsonText
  import opened JsonUnique
  import opened JsonWalk
  import opened JsonLoop
  import opened JsonLookup
  import opened JsonEdit
  import opened JsonSet
  import opened JsonSetLaws
  import opened JsonFront
  import opened JsonReread
  import opened JsonScalar
  import opened JsonKeyed

  // ---- what is read ------------------------------------------------------------------------------------------------------

  /** A walk confined to id1 stops at the key in the array, and gets no deeper than the tree, or the new value in it. */
  lemma MixedWalk(items: seq<Item>, i: nat, es: seq<Item>, it: Item)
    requires i < |items| && FindKey(items, items[i].key) == Some(i)
    ensures var s, toks, id1 := MixedText(items, i, es, it), MixedToks(items, i, es, it), items[i].key;
            var run := Run(toks, 0, START, s, Some(id1));
      && FirstHit(run.calls, LookupCb(s, it.key, LVL2_MATCH)) == Some(KeyIndex(items, i))
      && run.peak <= Max(1 + DepthItems(items[..i]),
                         Max(2 + Depth(it.val), Max(2 + DepthItems(es), 1 + DepthItems(items[i + 1..]))))
  {
    hide Run, Resume, Flatten, FlattenItems, PrintItems, Print, PrintItem, At, Depth, DepthItems, Calls, MixedText, MixedToks,
         KeyedText, TailText, HeadText, Lead, Label, FirstHit, FindKey;
    var s, toks, h, k := MixedText(items, i, es, it), MixedToks(items, i, es, it), |HeadText(items, i)|, KeyIndex(items, i);
    var id1, q, arr := items[i].key, 1 + |Lead(items[..i])|, KeyedHead(es, it, h);
    var cb, id := LookupCb(s, it.key, LVL2_MATCH), Some(id1);
    MixedParts(items, i, es, it);
    MixedTokens(items, i, es, it);
    var tok := Tok(TObj, 0, |s|, |items|);
    AtIndex(toks, 0, [tok], 0);
    AtIndex(toks, k - 2, [KeyTok(items[i], q)], 0);
    AtIndex(toks, k - 1, [arr], 0);
    AtIndex(toks, k, [KeyTok(it, h + 1)], 0);
    TopRun(toks, tok, s, id1);
    var calls, p := LeadRun(items, i, toks, 1, 1, Frame(tok, |items|), s, id1, cb);
    var top := Frame(tok, |items| - i);
    AtLabel(s, q + |items[i].pre|, items[i]);
    IntoArray(toks, k - 2, items[i], q, arr, top, s);
    KeyedParts(es, it, s, h);
    AtItem(s, h + 1, true, it, ",");
    AtLabel(s, h + 1 + |it.pre|, it);
    var down := Frame(tok, |items| - i - 1);
    var w := Walker([down, Frame(arr, |es| + 1)], 2);
    KeyMet(toks, k, it, h + 1, w, s, id1);
    BehindKey(items, i, es, it, down, id1);
    Stops(calls, p, Call(k, KeyTok(it, h + 1), 2, 2, Remaining(w)), Run(toks, k + 1, w, s, id), cb, k);
  }

  lemma Stops(calls: seq<Call>, p: nat, c: Call, t: Trace, cb: Call -> bool, k: nat)
    requires FirstHit(calls, cb) == None && FirstHit([c], cb) == Some(k)
    ensures var r := Before([], 1, Before(calls, p, Before([], 2, Before([c], 2, t))));
      FirstHit(r.calls, cb) == Some(k) && r.peak == Max(1, Max(p, Max(2, t.peak)))
  {
    hide FirstHit;
    var x := [c] + t.calls;
    FirstHitAppend([c], t.calls, cb);
    FirstHitAppend(calls, x, cb);
    assert [] + x == x && [] + (calls + x) == calls + x;
  }

  /** The new value where it stands. */
  lemma MixedValue(items: seq<Item>, i: nat, es: seq<Item>, it: Item)
    requires i < |items| && it.pre == ""
    ensures var s, toks := MixedText(items, i, es, it), MixedToks(items, i, es, it);
            var p := ValOff(true, it, |HeadText(items, i)| + 1);
      && KeyIndex(items, i) + 1 < |toks| && toks[KeyIndex(items, i) + 1] == HeadTok(it.val, p) && At(s, p, Print(it.val))
      && p + |Print(it.val)| < |s|
  {
    hide Lead, HeadText, TailText, Flatten, FlattenItems, At, PrintItem, PrintItems, Label, Print, MixedText, MixedToks,
         KeyedText, KeyIndex, HeadTok;
    var s, h := MixedText(items, i, es, it), |HeadText(items, i)|;
    var toks, k, p := MixedToks(items, i, es, it), KeyIndex(items, i), ValOff(true, it, h + 1);
    MixedParts(items, i, es, it);
    MixedTokens(items, i, es, it);
    AtLength(toks, k + 1, Flatten(it.val, p));
    AtIndex(toks, k + 1, Flatten(it.val, p), 0);
    KeyedParts(es, it, s, h);
    AtItem(s, h + 1, true, it, ",");
    ItemLength(true, it, h + 1);
    AtLength(s, h + 1, PrintItem(true, it) + ",");
  }

  /** The value of the first id1 is an array. */
  predicate FirstIsArray(t: Json, id1: string)
    requires t.Coll?
  {
    FindKey(t.items, id1).Some? && t.items[FindKey(t.items, id1).value].val.Coll?
    && !t.items[FindKey(t.items, id1).value].val.isObj
  }

  /** The tokens of the text that setting id1.id2 leaves when id1 is an array. */
  function ArrayToks(t: Json, name: Name, v: Json): seq<Tok>
    requires t.Coll? && name.Dotted? && FirstIsArray(t, name.id1)
  {
    var i := FindKey(t.items, name.id1).value;
    MixedToks(t.items, i, t.items[i].val.items, NewItem(name.id2, v))
  }

  lemma ArrayText(t: Json, name: Name, v: Json)
    requires t.Coll? && t.isObj && WellFormed(t) && Corrupts(t, name) && FirstIsArray(t, name.id1)
    ensures var i := FindKey(t.items, name.id1).value;
      EditedText(t, name, v) == MixedText(t.items, i, t.items[i].val.items, NewItem(name.id2, v))
  {
    hide Lead, HeadText, TailText, PrintItem, PrintItems, Print, WellFormed, WellFormedItems, FindKey, MemberText, InsText,
         LayoutOk;
    var i, mt := FindKey(t.items, name.id1).value, MemberText(name.id2, Print(v));
    var arr, tail := t.items[i].val, TailText(t.items, i);
    WellFormedMembers(t);
    WellFormedItem(t.items, i);
    WellFormedMembers(arr);
    EditSplit(t.items, i, mt);
    ArrayStart(arr.items, tail);
    ArrayPrint(arr);
    BracketAssoc("[", PrintItems(false, arr.items), "]", tail);
    ArrayEdit(PrintItems(false, arr.items) + "]" + tail, mt);
    NewItemText(name.id2, v);
    KeyedAssoc(HeadText(t.items, i), mt + ",", PrintItems(false, arr.items), tail);
  }

  lemma ArrayPrint(v: Json)
    requires v.Coll? && !v.isObj
    ensures Print(v) == "[" + PrintItems(false, v.items) + "]"
  {
    hide PrintItems;
  }

  lemma KeyedAssoc(h: string, m: string, es: string, tail: string)
    ensures h + ("[" + m + (es + "]" + tail)) == h + ("[" + m + es + "]") + tail
  {
  }

  lemma ArrayDepths(items: seq<Item>, i: nat)
    requires i < |items| && items[i].val.Coll?
    ensures DepthItems(items[..i]) <= DepthItems(items) && DepthItems(items[i + 1..]) <= DepthItems(items)
    ensures 1 + DepthItems(items[i].val.items) <= DepthItems(items)
  {
    hide Depth, DepthItems;
    assert items == items[..i] + [items[i]] + items[i + 1..];
    DepthAround(items[..i], items[i], items[i + 1..]);
    DepthOf(items[i].val);
  }

  /** Looking the name up in a text and its tokens gives the token of v, which stands in the text there. */
  ghost predicate ReadsText(text: string, toks: seq<Tok>, name: Name, v: Json) {
    var r := TokLookup(text, toks, name);
    && r.Found? && r.tok < |toks|
    && exists p: nat :: toks[r.tok] == HeadTok(v, p) && At(text, p, Print(v)) && p + |Print(v)| < |text|
  }

  /** Setting id1.id2 where the value of the first id1 is an array: the text that is left is accepted, and looking id1.id2 up
      in its tokens gives the value that was set. */
  lemma ArrayReads(t: Json, name: Name, v: Json)
    requires GoodTree(t) && Corrupts(t, name) && FirstIsArray(t, name.id1)
    requires StrOk(name.id2) && WellFormed(v)
    ensures var s, toks := EditedText(t, name, v), ArrayToks(t, name, v);
      && Scan(s) == Scanned(toks, |s|) && ReadsText(s, toks, name, v)
      && (Depth(v) < Room(Inside(0)) ==> Shallow(s, toks))
  {
    hide Lead, HeadText, TailText, PrintItem, PrintItems, Print, WellFormed, WellFormedItems, StrOk, MixedText, MixedToks,
         HeadTok, EditedText, KeyIndex, Scan, Run, FirstHit, Depth, DepthItems, At, HitSearch;
    var i, it := FindKey(t.items, name.id1).value, NewItem(name.id2, v);
    var es := t.items[i].val.items;
    WellFormedMembers(t);
    WellFormedItem(t.items, i);
    WellFormedMembers(t.items[i].val);
    ArrayText(t, name, v);
    NewLayout(name.id2, v);
    MixedScan(t.items, i, es, it);
    MixedWalk(t.items, i, es, it);
    MixedValue(t.items, i, es, it);
    ArrayDepths(t.items, i);
    DepthOf(t);
    PeakSame(ArrayToks(t, name, v), 0, START, START, EditedText(t, name, v), Some(name.id1), None);
  }

  lemma NewLayout(id: string, v: Json)
    requires StrOk(id)
    ensures LayoutOk(true, NewItem(id, v)) && NewItem(id, v).val == v && NewItem(id, v).key == id
  {
  }

  // ---- reading back, in general ------------------------------------------------------------------------------------------

  /** Values with the same token whose texts both stand there are the same. */
  lemma SameToken(text: string, u: Json, p: nat, v: Json, q: nat)
    requires WellFormed(u) && WellFormed(v) && At(text, p, Print(u)) && At(text, q, Print(v)) && HeadTok(u, p) == HeadTok(v, q)
    ensures u == v
  {
    hide At, WellFormed;
    match u
    case Prim(a) => SameAt(text, p, a, v.text);
    case Str(a) =>
      AtSplit(text, p, "\"" + a, "\"");
      AtSplit(text, p, "\"", a);
      AtSplit(text, q, "\"" + v.text, "\"");
      AtSplit(text, q, "\"", v.text);
      SameAt(text, p + 1, a, v.text);
    case Coll(_, _) =>
      SameAt(text, p, Print(u), Print(v));
      TreeUnique(u, v);
  }

  /** On a tree this is reading the member's value. */
  lemma TreeReadsText(t: Json, name: Name, v: Json)
    requires t.Coll? && t.isObj && WellFormed(t) && WellFormed(v)
    ensures ReadsText(Print(t), Flatten(t, 0), name, v) <==> Reads(t, name, v)
  {
    hide WellFormed, Print, PrintItems, Flatten, HeadTok, TokLookup, HitSearch, At, MemberPos, Find, MembersAt;
    LookupTree(t, name);
    if Find(t, name).There? {
      var f := Find(t, name);
      var p, it := MemberPos(t, f.place, f.j), MembersAt(t, f.place)[f.j];
      MemberTokens(t, f.place, f.j);
      MemberStands(t, f.place, f.j);
      if ReadsText(Print(t), Flatten(t, 0), name, v) {
        var q: nat :| Flatten(t, 0)[p.k + 1] == HeadTok(v, q) && At(Print(t), q, Print(v)) && q + |Print(v)| < |Print(t)|;
        SameToken(Print(t), it.val, ValOff(true, it, p.off), v, q);
      }
    }
  }

  /** What setting a name leaves: the text of a tree, or one with a key in an array. */
  ghost predicate Left(t: Json, name: Name, kind: Kind, v: Json, text: string, toks: seq<Tok>)
    requires GoodTree(t)
  {
    if Corrupts(t, name) && FirstIsArray(t, name.id1) then text == EditedText(t, name, v) && toks == ArrayToks(t, name, v)
    else exists w :: WellFormed(w) && Leaves(t, name, kind, v, w) && text == Print(w) && toks == Flatten(w, 0)
  }

  /** Reading a name in whatever setting it leaves gives the value that was set if and only if the name is not of the form
      id1.id2, or was found before, or the value of the first id1 is an object or an array. */
  lemma SetReadsBack(t: Json, name: Name, kind: Kind, v: Json, text: string, toks: seq<Tok>)
    requires GoodTree(t) && WellFormed(v) && StrOk(LastKey(name))
    requires Left(t, name, kind, v, text, toks)
    ensures ReadsText(text, toks, name, v)
       <==> name.Flat? || Find(t, name).There? || FirstIsObject(t, name.id1) || FirstIsArray(t, name.id1)
  {
    hide Print, Flatten, WellFormed, StrOk, EditedText, ArrayToks, Reads, ReadsText, Depth, HitSearch, Scan, Leaves;
    if Corrupts(t, name) && FirstIsArray(t, name.id1) {
      ArrayReads(t, name, v);
    } else {
      var w :| WellFormed(w) && Leaves(t, name, kind, v, w) && text == Print(w) && toks == Flatten(w, 0);
      SetReadsExact(t, name, kind, v, w);
      TreeReadsText(w, name, v);
      if name.Dotted? && Find(t, name).There? { HitHasKey(t.items, name.id1, name.id2); }
    }
  }
}
