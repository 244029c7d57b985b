/** Reading a text character by character: inside or outside of strings, and how deep in containers. */
module JsonLex {
  import opened JsonText

  /** `esc` tells that the next character of a string is escaped. */
  datatype Lex = Lex(inStr: bool, esc: bool, depth: int)

  function Out(depth: int): Lex { Lex(false, false, depth) }

  function In(depth: int): Lex { Lex(true, false, depth) }

  function LexStep(l: Lex, c: char): Lex {
    if l.inStr then
      if l.esc then l.(esc := false)
      else if c == '\\' then l.(esc := true)
      else if c == '"' then l.(inStr := false)
      else l
    else if c == '"' then In(l.depth)
    else if c == '{' || c == '[' then Out(l.depth + 1)
    else if c == '}' || c == ']' then Out(l.depth - 1)
    else Out(l.depth)
  }

  function LexAll(l: Lex, s: string): Lex {
    if |s| == 0 then l else LexStep(LexAll(l, s[..|s| - 1]), s[|s| - 1])
  }

  lemma {:induction false} LexConcat(l: Lex, a: string, b: string)
    ensures LexAll(l, a + b) == LexAll(LexAll(l, a), b)
  {
    if |b| == 0 {
      assert a + b == a;
    } else {
      assert (a + b)[..|a + b| - 1] == a + b[..|b| - 1];
      LexConcat(l, a, b[..|b| - 1]);
    }
  }

  lemma LexSplit(l: Lex, s: string, k: nat)
    requires k <= |s|
    ensures LexAll(l, s) == LexAll(LexAll(l, s[..k]), s[k..])
  {
    assert s == s[..k] + s[k..];
    LexConcat(l, s[..k], s[k..]);
  }

  lemma LexOne(l: Lex, c: char)
    ensures LexAll(l, [c]) == LexStep(l, c)
  {
    assert [c][..0] == [];
  }

  // ---- pieces of text that leave strings and containers as they find them ---------------------------

  predicate CleanAt(prev: char, l: Lex, s: string, k: nat)
    requires k < |s|
  {
    s[k] == '"' && !LexAll(l, s[..k]).inStr ==> EndChar(prev, s[..k]) != '\\'
  }

  /** Outside of strings no quote follows a backslash; `prev` is the character before. */
  ghost predicate Clean(prev: char, l: Lex, s: string) {
    forall k :: 0 <= k < |s| ==> CleanAt(prev, l, s, k)
  }

  /** A piece of text that starts and ends outside of strings, at one depth, and never goes below it. */
  ghost predicate Sound(prev: char, d: int, s: string) {
    && LexAll(Out(d), s) == Out(d)
    && Clean(prev, Out(d), s)
    && forall k :: 0 <= k <= |s| ==> LexAll(Out(d), s[..k]).depth >= d
  }

  function EndChar(prev: char, s: string): char { if |s| == 0 then prev else s[|s| - 1] }

  lemma CleanConcat(prev: char, l: Lex, a: string, b: string)
    requires Clean(prev, l, a) && Clean(EndChar(prev, a), LexAll(l, a), b)
    ensures Clean(prev, l, a + b)
  {
    hide LexAll;
    var s := a + b;
    forall k | 0 <= k < |s| ensures CleanAt(prev, l, s, k) {
      if k < |a| {
        assert CleanAt(prev, l, a, k) && s[..k] == a[..k] && s[k] == a[k];
      } else {
        var j := k - |a|;
        assert CleanAt(EndChar(prev, a), LexAll(l, a), b, j) && s[..k] == a + b[..j] && s[k] == b[j];
        LexConcat(l, a, b[..j]);
      }
    }
  }

  lemma SoundConcat(prev: char, d: int, a: string, b: string)
    requires Sound(prev, d, a) && Sound(EndChar(prev, a), d, b)
    ensures Sound(prev, d, a + b)
  {
    hide Clean;
    LexConcat(Out(d), a, b);
    CleanConcat(prev, Out(d), a, b);
    forall k | 0 <= k <= |a + b| ensures LexAll(Out(d), (a + b)[..k]).depth >= d {
      if k <= |a| {
        assert (a + b)[..k] == a[..k];
      } else {
        assert (a + b)[..k] == a + b[..k - |a|];
        LexConcat(Out(d), a, b[..k - |a|]);
      }
    }
  }

  /** Characters that are neither quotes nor brackets. */
  lemma {:induction false} PlainSound(prev: char, d: int, s: string)
    requires forall i :: 0 <= i < |s| ==> s[i] != '"' && s[i] != '{' && s[i] != '}' && s[i] != '[' && s[i] != ']'
    ensures Sound(prev, d, s)
  {
    PlainLex(d, s);
    forall k | 0 <= k <= |s| ensures LexAll(Out(d), s[..k]) == Out(d) { PlainLex(d, s[..k]); }
  }

  lemma {:induction false} PlainLex(d: int, s: string)
    requires forall i :: 0 <= i < |s| ==> s[i] != '"' && s[i] != '{' && s[i] != '}' && s[i] != '[' && s[i] != ']'
    ensures LexAll(Out(d), s) == Out(d)
  {
    if |s| > 0 { PlainLex(d, s[..|s| - 1]); }
  }

  /** The inside of a string is read as such to its end. */
  lemma {:induction false} StrLex(d: int, s: string)
    requires StrOk(s)
    ensures LexAll(In(d), s) == In(d)
    ensures forall k :: 0 <= k <= |s| ==> LexAll(In(d), s[..k]).inStr && LexAll(In(d), s[..k]).depth == d
    decreases |s|
  {
    if |s| > 0 {
      var n := if s[0] == '\\' then 2 else 1;
      var a, b := s[..n], s[n..];
      StrLex(d, b);
      EscLex(d, a);
      LexSplit(In(d), s, n);
      forall k | 0 <= k <= |s| ensures LexAll(In(d), s[..k]).inStr && LexAll(In(d), s[..k]).depth == d {
        if k <= n {
          assert s[..k] == a[..k];
        } else {
          assert s[..k] == a + b[..k - n];
          LexConcat(In(d), a, b[..k - n]);
        }
      }
    }
  }

  /** One character of a string, with the backslash before it if it has one. */
  lemma EscLex(d: int, a: string)
    requires (|a| == 1 && a[0] != '\\' && a[0] != '"') || (|a| == 2 && a[0] == '\\')
    ensures LexAll(In(d), a) == In(d)
    ensures forall k :: 0 <= k <= |a| ==> LexAll(In(d), a[..k]).inStr && LexAll(In(d), a[..k]).depth == d
  {
    assert a[..0] == [] && a[..1] == [a[0]];
    LexOne(In(d), a[0]);
    if |a| == 2 { assert a[..2] == a && a[..|a| - 1] == a[..1]; } else { assert a[..1] == a; }
  }

  lemma QuotedSound(prev: char, d: int, t: string)
    requires StrOk(t) && prev != '\\'
    ensures Sound(prev, d, "\"" + t + "\"")
    ensures forall k :: 0 < k < |t| + 2 ==> LexAll(Out(d), ("\"" + t + "\"")[..k]).inStr
  {
    hide LexAll;
    var s := "\"" + t + "\"";
    StrLex(d, t);
    LexOne(Out(d), '"');
    LexConcat(Out(d), "\"", t);
    LexOne(In(d), '"');
    LexConcat(Out(d), "\"" + t, "\"");
    forall k | 0 < k < |s| ensures LexAll(Out(d), s[..k]) == LexAll(In(d), t[..k - 1]) {
      assert s[..k] == "\"" + t[..k - 1];
      LexConcat(Out(d), "\"", t[..k - 1]);
    }
    assert s[..|s|] == s && s[..0] == [];
    LexNone(Out(d));
  }

  lemma LexNone(l: Lex)
    ensures LexAll(l, []) == l
  {
  }

  // ---- values and items ---------------------------------------------------------------------------------

  lemma {:induction false} ValueSound(prev: char, d: int, v: Json)
    requires WellFormed(v) && prev != '\\'
    ensures Sound(prev, d, Print(v))
    ensures v.Coll? ==> forall k :: 0 < k < |Print(v)| ==> LexAll(Out(d), Print(v)[..k]).depth > d
    decreases v, 1
  {
    match v
    case Prim(t) => PlainSound(prev, d, t);
    case Str(t) => QuotedSound(prev, d, t);
    case Coll(isObj, items) =>
      ItemsSound(OpenChar(isObj), d + 1, isObj, items);
      BracketSound(prev, d, OpenChar(isObj), PrintItems(isObj, items), CloseChar(isObj));
  }

  lemma BracketSound(prev: char, d: int, o: char, s: string, c: char)
    requires (o == '{' || o == '[') && (c == '}' || c == ']') && Sound(o, d + 1, s)
    ensures Sound(prev, d, [o] + s + [c])
    ensures forall k :: 0 < k < |s| + 2 ==> LexAll(Out(d), ([o] + s + [c])[..k]).depth > d
  {
    LexOne(Out(d), o);
    LexConcat(Out(d), [o], s);
    LexOne(Out(d + 1), c);
    LexConcat(Out(d), [o] + s, [c]);
    CleanConcat(prev, Out(d), [o], s);
    CleanConcat(prev, Out(d), [o] + s, [c]);
    var w := [o] + s + [c];
    forall k | 0 < k < |w| ensures LexAll(Out(d), w[..k]) == LexAll(Out(d + 1), s[..k - 1]) {
      assert w[..k] == [o] + s[..k - 1];
      LexConcat(Out(d), [o], s[..k - 1]);
    }
    assert w[..|w|] == w && w[..0] == [];
  }

  lemma {:induction false} ItemsSound(prev: char, d: int, isObj: bool, items: seq<Item>)
    requires WellFormedItems(isObj, items) && prev != '\\'
    ensures Sound(prev, d, PrintItems(isObj, items))
    decreases items, 0
  {
    hide Sound, PrintItem, WellFormed, WellFormedItems, LayoutOk;
    if |items| == 0 {
      PlainSound(prev, d, "");
    } else {
      WellFormedTail(isObj, items);
      ItemSound(prev, d, isObj, items[0]);
      if |items| > 1 {
        var a := PrintItem(isObj, items[0]);
        PlainSound(EndChar(prev, a), d, ",");
        SoundConcat(prev, d, a, ",");
        ItemsSound(',', d, isObj, items[1..]);
        SoundConcat(prev, d, a + ",", PrintItems(isObj, items[1..]));
      }
    }
  }

  lemma {:induction false} ItemSound(prev: char, d: int, isObj: bool, it: Item)
    requires LayoutOk(isObj, it) && WellFormed(it.val) && prev != '\\'
    ensures Sound(prev, d, it.pre + Label(isObj, it)) && EndChar(prev, it.pre + Label(isObj, it)) != '\\'
    ensures Sound(prev, d, PrintItem(isObj, it))
    decreases it, 2
  {
    hide Sound, Print, WellFormed, StrOk;
    HeadSound(prev, d, isObj, it);
    var h := it.pre + Label(isObj, it);
    ValueSound(EndChar(prev, h), d, it.val);
    SoundConcat(prev, d, h, Print(it.val));
    PlainSound(EndChar(prev, h + Print(it.val)), d, it.post);
    SoundConcat(prev, d, h + Print(it.val), it.post);
  }

  lemma HeadSound(prev: char, d: int, isObj: bool, it: Item)
    requires LayoutOk(isObj, it) && prev != '\\'
    ensures Sound(prev, d, it.pre + Label(isObj, it)) && EndChar(prev, it.pre + Label(isObj, it)) != '\\'
  {
    hide Sound, StrOk;
    PlainSound(prev, d, it.pre);
    if isObj {
      var q := "\"" + it.key + "\"";
      QuotedSound(EndChar(prev, it.pre), d, it.key);
      SoundConcat(prev, d, it.pre, q);
      PlainSound('"', d, ":" + it.gap);
      SoundConcat(prev, d, it.pre + q, ":" + it.gap);
      assert it.pre + q + (":" + it.gap) == it.pre + Label(isObj, it);
    } else {
      assert it.pre + "" == it.pre;
    }
  }

  // ---- two readings of one text -------------------------------------------------------------------------------

  /** Of two readings one is inside of a string exactly where the other is outside. */
  predicate Opposite(a: Lex, b: Lex, last: char) {
    && a.inStr != b.inStr
    && (a.esc ==> a.inStr && last == '\\') && (b.esc ==> b.inStr && last == '\\')
  }

  /** Readings that are opposite stay so, when neither meets a quote after a backslash outside of strings. */
  lemma {:induction false} StayOpposite(prev: char, a: Lex, b: Lex, s: string)
    requires Opposite(a, b, prev) && Clean(prev, a, s) && Clean(prev, b, s)
    ensures Opposite(LexAll(a, s), LexAll(b, s), EndChar(prev, s))
  {
    if |s| > 0 {
      var front, k := s[..|s| - 1], |s| - 1;
      CleanFront(prev, a, s);
      CleanFront(prev, b, s);
      StayOpposite(prev, a, b, front);
      assert CleanAt(prev, a, s, k) && CleanAt(prev, b, s, k);
    }
  }

  lemma CleanFront(prev: char, l: Lex, s: string)
    requires |s| > 0 && Clean(prev, l, s)
    ensures Clean(prev, l, s[..|s| - 1])
  {
    hide LexAll;
    var front := s[..|s| - 1];
    forall k | 0 <= k < |front| ensures CleanAt(prev, l, front, k) {
      assert CleanAt(prev, l, s, k) && front[..k] == s[..k];
    }
  }

  lemma CleanRest(prev: char, l: Lex, s: string, n: nat)
    requires n <= |s| && Clean(prev, l, s)
    ensures Clean(EndChar(prev, s[..n]), LexAll(l, s[..n]), s[n..])
  {
    hide LexAll;
    var a, b := s[..n], s[n..];
    forall k | 0 <= k < |b| ensures CleanAt(EndChar(prev, a), LexAll(l, a), b, k) {
      assert CleanAt(prev, l, s, n + k) && s[..n + k] == a + b[..k] && s[n + k] == b[k];
      LexConcat(l, a, b[..k]);
    }
  }

  /** Starting deeper ends deeper, and changes nothing else. */
  lemma {:induction false} LexShift(l: Lex, n: int, s: string)
    ensures LexAll(l.(depth := l.depth + n), s) == LexAll(l, s).(depth := LexAll(l, s).depth + n)
  {
    if |s| > 0 { LexShift(l, n, s[..|s| - 1]); }
  }

  /** A position right after a quote that two texts share the rest from is outside of strings and at the same depth
      in both, when it is outside in one. */
  lemma SameRest(s: string, p: nat, t: string, q: nat)
    requires 0 < p <= |s| && 0 < q <= |t| && s[p..] == t[q..] && s[p - 1] == '"' && t[q - 1] == '"'
    requires Sound(' ', 0, s) && Sound(' ', 0, t)
    requires !LexAll(Out(0), s[..p]).inStr
    ensures LexAll(Out(0), t[..q]) == LexAll(Out(0), s[..p]) == Out(LexAll(Out(0), s[..p]).depth)
  {
    hide LexAll, Clean;
    var a, b, rest := LexAll(Out(0), s[..p]), LexAll(Out(0), t[..q]), s[p..];
    LexSplit(Out(0), s, p);
    LexSplit(Out(0), t, q);
    CleanRest(' ', Out(0), s, p);
    CleanRest(' ', Out(0), t, q);
    AfterQuoteLex(Out(0), s[..p]);
    AfterQuoteLex(Out(0), t[..q]);
    if b.inStr {
      StayOpposite('"', a, b, rest);
    } else {
      LexShift(a, b.depth - a.depth, rest);
    }
  }

  /** Right after a quote nothing is escaped. */
  lemma AfterQuoteLex(l: Lex, s: string)
    requires |s| > 0 && s[|s| - 1] == '"' && (l.esc ==> l.inStr)
    ensures !LexAll(l, s).esc
  {
    EscInStr(l, s[..|s| - 1]);
  }

  lemma {:induction false} EscInStr(l: Lex, s: string)
    requires l.esc ==> l.inStr
    ensures LexAll(l, s).esc ==> LexAll(l, s).inStr
  {
    if |s| > 0 { EscInStr(l, s[..|s| - 1]); }
  }

  // ---- where a string ends at the top of a list of items ---------------------------------------------------------

  /** Where the key of an item ends, and where its value does, counted from the item. */
  function KeyEnd(it: Item): nat { |it.pre| + |it.key| + 2 }

  function ValEnd(isObj: bool, it: Item): nat { |it.pre| + |Label(isObj, it)| + |Print(it.val)| }

  lemma Region(s: string, a: string, b: string, c: string, e: nat)
    requires s == a + b + c && |a| < e <= |a| + |b|
    ensures s[e - 1] == b[e - 1 - |a|] && s[..e] == a + b[..e - |a|]
  {
  }

  lemma ItemParts(it: Item)
    ensures PrintItem(true, it) == it.pre + ("\"" + it.key + "\"") + (":" + it.gap) + Print(it.val) + it.post
    ensures it.pre + Label(true, it) == it.pre + ("\"" + it.key + "\"") + (":" + it.gap)
  {
    hide Print;
    PartsAssoc(it.pre, "\"", it.key, ":", it.gap);
  }

  lemma PartsAssoc(pre: string, q: string, key: string, c: string, gap: string)
    ensures pre + (q + key + (q + c) + gap) == pre + (q + key + q) + (c + gap)
  {
  }

  /** A quote of an item after which the reading is outside of strings and at the item's own depth closes the item's
      key, or its value, which is then a string. */
  lemma EndInItem(it: Item, e: nat, d: int)
    requires LayoutOk(true, it) && WellFormed(it.val) && 0 < e <= |PrintItem(true, it)|
    requires PrintItem(true, it)[e - 1] == '"' && LexAll(Out(d), PrintItem(true, it)[..e]) == Out(d)
    ensures e == KeyEnd(it) || (it.val.Str? && e == ValEnd(true, it))
  {
    hide Print, PrintItem, LexAll, StrOk, WellFormed, Sound, Label;
    LabelLen(it);
    var s, q, g, v := PrintItem(true, it), "\"" + it.key + "\"", ":" + it.gap, Print(it.val);
    ItemParts(it);
    if e <= |it.pre| {
      Region(s, "", it.pre, q + g + v + it.post, e);
    } else if e < KeyEnd(it) {
      Region(s, it.pre, q, g + v + it.post, e);
      PlainLex(d, it.pre);
      LexConcat(Out(d), it.pre, q[..e - |it.pre|]);
      QuotedSound(' ', d, it.key);
    } else if KeyEnd(it) < e <= |it.pre + q + g| {
      Region(s, it.pre + q, g, v + it.post, e);
    } else if e > |it.pre + q + g + v| {
      Region(s, it.pre + q + g + v, it.post, "", e);
    } else if e > KeyEnd(it) {
      Region(s, it.pre + q + g, v, it.post, e);
      EndInValue(it, e - |it.pre + q + g|, d);
    }
  }

  lemma EndInValue(it: Item, e: nat, d: int)
    requires LayoutOk(true, it) && WellFormed(it.val) && 0 < e <= |Print(it.val)| && Print(it.val)[e - 1] == '"'
    requires LexAll(Out(d), it.pre + ("\"" + it.key + "\"") + (":" + it.gap) + Print(it.val)[..e]) == Out(d)
    ensures it.val.Str? && e == |Print(it.val)|
  {
    hide LexAll, StrOk, Clean;
    var h, v := it.pre + Label(true, it), Print(it.val);
    HeadSound(' ', d, true, it);
    ItemParts(it);
    LexConcat(Out(d), h, v[..e]);
    assert LexAll(Out(d), v[..e]) == Out(d);
    match it.val
    case Prim(_) =>
    case Str(t) => QuotedSound(' ', d, t);
    case Coll(isObj, items) =>
      ValueSound(' ', d, it.val);
  }
}
