/** What a full walk shows: every token at its true depth, and every container closed once. */
module JsonDepths {
  import opened Options
  import opened JsonText
  import opened JsonWalk

  /** The nesting depth of each token of a value, in token order. */
  function Depths(v: Json, lvl: nat): seq<nat>
    decreases v, 1
  {
    [lvl] + if v.Coll? then ItemDepths(v.isObj, v.items, lvl + 1) else []
  }

  function ItemDepths(isObj: bool, items: seq<Item>, lvl: nat): seq<nat>
    decreases items, 0
  {
    if |items| == 0 then []
    else (if isObj then [lvl] else []) + Depths(items[0].val, lvl) + ItemDepths(isObj, items[1..], lvl)
  }

  /** The containers of a value, innermost first, each with the level at which it is open. */
  function Closings(v: Json, lvl: nat, off: nat): seq<(Tok, nat)>
    decreases v, 1
  {
    if v.Coll? then ItemClosings(v.isObj, v.items, lvl + 1, off + 1) + [(HeadTok(v, off), lvl + 1)] else []
  }

  function ItemClosings(isObj: bool, items: seq<Item>, lvl: nat, off: nat): seq<(Tok, nat)>
    decreases items, 0
  {
    if |items| == 0 then []
    else Closings(items[0].val, lvl, ValOff(isObj, items[0], off))
         + ItemClosings(isObj, items[1..], lvl, off + |PrintItem(isObj, items[0])| + 1)
  }

  function Shown(calls: seq<Call>): seq<(int, Tok, nat)> {
    if |calls| == 0 then []
    else (if calls[0].seqNo == TOK_VIRTUAL then [] else [(calls[0].seqNo, calls[0].tok, calls[0].lvl)]) + Shown(calls[1..])
  }

  function Closed(calls: seq<Call>): seq<(Tok, nat)> {
    if |calls| == 0 then []
    else (if calls[0].seqNo == TOK_VIRTUAL then [(calls[0].tok, calls[0].lvl)] else []) + Closed(calls[1..])
  }

  /** Token `i` of `toks`, numbered from `k`, with depth `ds[i]`. */
  function Numbered(k: nat, toks: seq<Tok>, ds: seq<nat>): seq<(int, Tok, nat)>
    requires |toks| == |ds|
  {
    seq(|toks|, i requires 0 <= i < |toks| => (k + i, toks[i], ds[i]))
  }

  lemma FirstShown(c: Call, rest: seq<Call>)
    ensures Shown([c] + rest) == (if c.seqNo == TOK_VIRTUAL then [] else [(c.seqNo, c.tok, c.lvl)]) + Shown(rest)
  {
    assert ([c] + rest)[1..] == rest;
  }

  lemma FirstClosed(c: Call, rest: seq<Call>)
    ensures Closed([c] + rest) == (if c.seqNo == TOK_VIRTUAL then [(c.tok, c.lvl)] else []) + Closed(rest)
  {
    assert ([c] + rest)[1..] == rest;
  }

  lemma ShownFirst(c: Call, rest: seq<Call>)
    ensures Shown([c] + rest) == Shown([c]) + Shown(rest) && Closed([c] + rest) == Closed([c]) + Closed(rest)
  {
    hide Shown, Closed;
    FirstShown(c, rest);
    FirstShown(c, []);
    FirstClosed(c, rest);
    FirstClosed(c, []);
    assert [c] + [] == [c];
    EmptyShown();
  }

  lemma EmptyShown()
    ensures Shown([]) == [] && Closed([]) == []
  {
  }

  lemma {:induction false} ShownAppend(a: seq<Call>, b: seq<Call>)
    ensures Shown(a + b) == Shown(a) + Shown(b) && Closed(a + b) == Closed(a) + Closed(b)
  {
    if |a| == 0 {
      assert a + b == b;
    } else {
      AppendRest(a[0], a[1..], b);
      assert a == [a[0]] + a[1..];
    }
  }

  lemma {:induction false} AppendRest(c: Call, a: seq<Call>, b: seq<Call>)
    ensures Shown(([c] + a) + b) == Shown([c] + a) + Shown(b) && Closed(([c] + a) + b) == Closed([c] + a) + Closed(b)
    decreases |a|
  {
    hide Shown, Closed;
    if |a| == 0 {
      assert ([c] + a) + b == [c] + b && [c] + a == [c];
      ShownFirst(c, b);
    } else {
      AppendRest(a[0], a[1..], b);
      assert a == [a[0]] + a[1..] && ([c] + a) + b == [c] + (a + b);
      ShownFirst(c, a + b);
      ShownFirst(c, a);
    }
  }

  lemma {:induction false} DepthsCover(v: Json, lvl: nat, off: nat)
    ensures |Depths(v, lvl)| == |Flatten(v, off)|
    decreases v, 1
  {
    if v.Coll? { ItemDepthsCover(v.isObj, v.items, lvl + 1, off + 1); }
  }

  lemma {:induction false} ItemDepthsCover(isObj: bool, items: seq<Item>, lvl: nat, off: nat)
    ensures |ItemDepths(isObj, items, lvl)| == |FlattenItems(isObj, items, off)|
    decreases items, 0
  {
    if |items| > 0 {
      DepthsCover(items[0].val, lvl, ValOff(isObj, items[0], off));
      ItemDepthsCover(isObj, items[1..], lvl, off + |PrintItem(isObj, items[0])| + 1);
    }
  }

  lemma NumberedAppend(k: nat, a: seq<Tok>, da: seq<nat>, b: seq<Tok>, db: seq<nat>)
    requires |a| == |da| && |b| == |db|
    ensures Numbered(k, a + b, da + db) == Numbered(k, a, da) + Numbered(k + |a|, b, db)
  {
  }

  lemma {:induction false} CallsShow(v: Json, lvl: nat, k: nat, off: nat, hit: int, rem: int)
    ensures |Depths(v, lvl)| == |Flatten(v, off)|
    ensures Shown(Calls(v, lvl, k, off, hit, rem, None)) == Numbered(k, Flatten(v, off), Depths(v, lvl))
    ensures Closed(Calls(v, lvl, k, off, hit, rem, None)) == Closings(v, lvl, off)
    decreases v, 1
  {
    hide Calls, ItemCalls;
    DepthsCover(v, lvl, off);
    var first := Emit(k, HeadTok(v, off), hit, lvl, rem, None);
    assert Shown(first) == [(k, HeadTok(v, off), lvl)] && Closed(first) == [];
    if v.Coll? {
      var inner := ItemCalls(v.isObj, v.items, lvl + 1, k + 1, off + 1, hit, None);
      var last := [Call(TOK_VIRTUAL, HeadTok(v, off), HitAfterItems(v.isObj, v.items, lvl + 1, hit, None), lvl + 1, 0)];
      CallsOfColl(v, lvl, k, off, hit, rem, None);
      ItemCallsShow(v.isObj, v.items, lvl + 1, k + 1, off + 1, hit);
      ShownAppend(first + inner, last);
      ShownAppend(first, inner);
      assert Shown(last) == [] && Closed(last) == [(HeadTok(v, off), lvl + 1)];
      NumberedAppend(k, [HeadTok(v, off)], [lvl], FlattenItems(v.isObj, v.items, off + 1),
                     ItemDepths(v.isObj, v.items, lvl + 1));
    } else {
      CallsOfScalar(v, lvl, k, off, hit, rem, None);
    }
  }

  lemma {:induction false} ItemCallsShow(isObj: bool, items: seq<Item>, lvl: nat, k: nat, off: nat, hit: int)
    ensures |ItemDepths(isObj, items, lvl)| == |FlattenItems(isObj, items, off)|
    ensures Shown(ItemCalls(isObj, items, lvl, k, off, hit, None))
         == Numbered(k, FlattenItems(isObj, items, off), ItemDepths(isObj, items, lvl))
    ensures Closed(ItemCalls(isObj, items, lvl, k, off, hit, None)) == ItemClosings(isObj, items, lvl, off)
    decreases items, 0
  {
    hide Calls, ItemCalls, KeyCalls, Print, PrintItem, Flatten, Numbered, ValOff, Closings, Depths, Shown, Closed;
    ItemDepthsCover(isObj, items, lvl, off);
    if |items| == 0 {
      NoneShown(isObj, lvl, k, off, hit);
    } else {
      var it, kv, p := items[0], ValIndex(isObj, k), ValOff(isObj, items[0], off);
      var h, off' := HitAtVal(isObj, it, lvl, hit, None), off + |PrintItem(isObj, it)| + 1;
      var keys := KeyCalls(isObj, items, lvl, k, off, hit, None);
      var keyToks, keyDepths := if isObj then [KeyTok(it, off)] else [], if isObj then [lvl] else [];
      var vals := Calls(it.val, lvl, kv, p, h, |items|, None);
      var kr := kv + |Flatten(it.val, p)|;
      var rest := ItemCalls(isObj, items[1..], lvl, kr, off', HitAfter(it.val, lvl, h, None), None);
      ItemCallsSplit(isObj, items, lvl, k, off, hit, None);
      CallsShow(it.val, lvl, kv, p, h, |items|);
      ItemCallsShow(isObj, items[1..], lvl, kr, off', HitAfter(it.val, lvl, h, None));
      ShownAppend(keys + vals, rest);
      ShownAppend(keys, vals);
      KeyShow(isObj, items, lvl, k, off, hit);
      FlattenSplit(isObj, items, off);
      NumberedAppend(k, keyToks + Flatten(it.val, p), keyDepths + Depths(it.val, lvl),
                     FlattenItems(isObj, items[1..], off'), ItemDepths(isObj, items[1..], lvl));
      NumberedAppend(k, keyToks, keyDepths, Flatten(it.val, p), Depths(it.val, lvl));
    }
  }

  lemma NoneShown(isObj: bool, lvl: nat, k: nat, off: nat, hit: int)
    ensures Shown(ItemCalls(isObj, [], lvl, k, off, hit, None)) == [] == Numbered(k, [], [])
    ensures Closed(ItemCalls(isObj, [], lvl, k, off, hit, None)) == []
  {
  }

  lemma KeyShow(isObj: bool, items: seq<Item>, lvl: nat, k: nat, off: nat, hit: int)
    requires |items| > 0
    ensures Shown(KeyCalls(isObj, items, lvl, k, off, hit, None))
         == Numbered(k, if isObj then [KeyTok(items[0], off)] else [], if isObj then [lvl] else [])
    ensures Closed(KeyCalls(isObj, items, lvl, k, off, hit, None)) == []
  {
  }

  /** Every token of the tree is shown once, in order, with its true nesting depth; every container
      is closed by exactly one virtual call, inner ones first. */
  lemma WalkShowsDepths(v: Json)
    requires v.Coll?
    ensures var t := Run(Flatten(v, 0), 0, START, Print(v), None);
      && |Depths(v, 0)| == |Flatten(v, 0)|
      && Shown(t.calls) == Numbered(0, Flatten(v, 0), Depths(v, 0))
      && Closed(t.calls) == Closings(v, 0, 0)
      && t.w.stack == []
  {
    hide Run, Calls;
    WalkTree(v, None);
    CallsShow(v, 0, 0, 0, -1, 0);
  }
}
