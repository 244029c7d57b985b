/** JSON text as the configuration store holds it: a tree that remembers its own layout,
    the text it spells, the token array a parser makes of that text, and a scanner that
    recovers the tokens from the text alone. */
module JsonText {

  /** A value and its spelling. `Prim` is a number, true, false or null; `Str` holds the characters
      between the quotes, escapes included; `Coll` is an object or an array. */
  datatype Json =
    | Prim(text: string)
    | Str(text: string)
    | Coll(isObj: bool, items: seq<Item>)

  /** A member of an object, or an element of an array (whose key and gap are then empty),
      with the whitespace before it, between ':' and its value, and after it. */
  datatype Item = Item(pre: string, key: string, gap: string, val: Json, post: string)

  datatype TokType = TObj | TArr | TStr | TPrim

  /** A parser token: for a string the bounds leave out the quotes; `size` is 1 for a key, 0 for any
      other string or primitive, and the number of members or elements for a container. */
  datatype Tok = Tok(ty: TokType, start: nat, end: nat, size: nat)

  predicate IsId(t: Tok) { t.ty == TStr && t.size == 1 }

  predicate IsContainer(t: Tok) { t.ty == TObj || t.ty == TArr }

  // ---- spelling -------------------------------------------------------------------------

  function OpenChar(isObj: bool): char { if isObj then '{' else '[' }

  function CloseChar(isObj: bool): char { if isObj then '}' else ']' }

  function Label(isObj: bool, it: Item): string {
    if isObj then "\"" + it.key + "\":" + it.gap else ""
  }

  function Print(v: Json): string
    decreases v, 1
  {
    match v
    case Prim(t) => t
    case Str(t) => "\"" + t + "\""
    case Coll(isObj, items) => [OpenChar(isObj)] + PrintItems(isObj, items) + [CloseChar(isObj)]
  }

  function PrintItem(isObj: bool, it: Item): string
    decreases it, 2
  {
    it.pre + Label(isObj, it) + Print(it.val) + it.post
  }

  function PrintItems(isObj: bool, items: seq<Item>): string
    decreases items, 0
  {
    if |items| == 0 then ""
    else if |items| == 1 then PrintItem(isObj, items[0])
    else PrintItem(isObj, items[0]) + "," + PrintItems(isObj, items[1..])
  }

  // ---- tokens ---------------------------------------------------------------------------

  function KeyTok(it: Item, off: nat): Tok {
    Tok(TStr, off + |it.pre| + 1, off + |it.pre| + 1 + |it.key|, 1)
  }

  function ValOff(isObj: bool, it: Item, off: nat): nat {
    off + |it.pre| + |Label(isObj, it)|
  }

  /** The token of the value `v` itself when its text starts at `off`. */
  function HeadTok(v: Json, off: nat): Tok {
    match v
    case Prim(t) => Tok(TPrim, off, off + |t|, 0)
    case Str(t) => Tok(TStr, off + 1, off + 1 + |t|, 0)
    case Coll(isObj, items) => Tok(if isObj then TObj else TArr, off, off + |Print(v)|, |items|)
  }

  /** The preorder flattening of a value whose text starts at `off`. */
  function Flatten(v: Json, off: nat): (r: seq<Tok>)
    ensures |r| > 0 && r[0] == HeadTok(v, off)
    decreases v, 1
  {
    match v
    case Prim(_) => [HeadTok(v, off)]
    case Str(_) => [HeadTok(v, off)]
    case Coll(isObj, items) => [HeadTok(v, off)] + FlattenItems(isObj, items, off + 1)
  }

  function FlattenItem(isObj: bool, it: Item, off: nat): seq<Tok>
    decreases it, 2
  {
    (if isObj then [KeyTok(it, off)] else []) + Flatten(it.val, ValOff(isObj, it, off))
  }

  function FlattenItems(isObj: bool, items: seq<Item>, off: nat): seq<Tok>
    decreases items, 0
  {
    if |items| == 0 then []
    else FlattenItem(isObj, items[0], off)
         + FlattenItems(isObj, items[1..], off + |PrintItem(isObj, items[0])| + 1)
  }

  // ---- well-formed layout ----------------------------------------------------------------

  predicate IsSpace(c: char) { c == ' ' || c == '\t' || c == '\n' }

  predicate IsDelim(c: char) {
    IsSpace(c) || c == '\r' || c == '\0' || c == ',' || c == ':' || c == '"' || c == '{' || c == '}' || c == '[' || c == ']'
  }

  /** The inside of a string literal: no bare quote, every backslash escapes the next character. */
  predicate StrOk(s: string) {
    if |s| == 0 then true
    else if s[0] == '\\' then |s| >= 2 && s[1] != '\0' && StrOk(s[2..])
    else s[0] != '"' && s[0] != '\0' && StrOk(s[1..])
  }

  predicate PrimOk(s: string) { |s| > 0 && forall i :: 0 <= i < |s| ==> !IsDelim(s[i]) }

  /** Layout the editor understands: ':' right after a key and never a newline after it, no tab after a value. */
  predicate LayoutOk(isObj: bool, it: Item) {
    && (forall i :: 0 <= i < |it.pre| ==> IsSpace(it.pre[i]))
    && (forall i :: 0 <= i < |it.gap| ==> it.gap[i] == ' ' || it.gap[i] == '\t')
    && (forall i :: 0 <= i < |it.post| ==> it.post[i] == ' ' || it.post[i] == '\n')
    && (if isObj then StrOk(it.key) else it.key == "" && it.gap == "")
  }

  predicate WellFormed(v: Json)
    decreases v, 1
  {
    match v
    case Prim(t) => PrimOk(t)
    case Str(t) => StrOk(t)
    case Coll(isObj, items) => WellFormedItems(isObj, items)
  }

  predicate WellFormedItems(isObj: bool, items: seq<Item>)
    decreases items, 0
  {
    forall i :: 0 <= i < |items| ==> LayoutOk(isObj, items[i]) && WellFormed(items[i].val)
  }

  function Max(a: nat, b: nat): nat { if a < b then b else a }

  /** How many containers enclose the innermost value. */
  function Depth(v: Json): nat
    decreases v, 1
  {
    if v.Coll? then 1 + DepthItems(v.items) else 0
  }

  function DepthItems(items: seq<Item>): nat
    decreases items, 0
  {
    if |items| == 0 then 0 else Max(Depth(items[0].val), DepthItems(items[1..]))
  }

  // ---- a piece of text at a place --------------------------------------------------------

  ghost predicate At<T>(s: seq<T>, off: nat, piece: seq<T>) {
    off + |piece| <= |s| && forall i {:trigger piece[i]} :: 0 <= i < |piece| ==> s[off + i] == piece[i]
  }

  lemma AtSplit<T>(s: seq<T>, off: nat, a: seq<T>, b: seq<T>)
    requires At(s, off, a + b)
    ensures At(s, off, a) && At(s, off + |a|, b)
  {
    forall i | 0 <= i < |a| ensures s[off + i] == a[i] { assert (a + b)[i] == a[i]; }
    forall i | 0 <= i < |b| ensures s[off + |a| + i] == b[i] { assert (a + b)[|a| + i] == b[i]; }
  }

  lemma AtLength<T>(s: seq<T>, off: nat, piece: seq<T>)
    requires At(s, off, piece)
    ensures off + |piece| <= |s|
  {
  }

  lemma AtChar(s: string, off: nat, c: char)
    requires At(s, off, [c])
    ensures off < |s| && s[off] == c
  {
    assert [c][0] == c;
  }

  lemma AtIndex<T>(s: seq<T>, off: nat, piece: seq<T>, i: nat)
    requires At(s, off, piece) && i < |piece|
    ensures s[off + i] == piece[i]
  {
  }

  /** Where the parts of an item lie. */
  lemma AtItem(s: string, off: nat, isObj: bool, it: Item, rest: string)
    requires At(s, off, PrintItem(isObj, it) + rest)
    ensures At(s, off, it.pre)
    ensures At(s, off + |it.pre|, Label(isObj, it))
    ensures At(s, ValOff(isObj, it, off), Print(it.val))
    ensures At(s, ValOff(isObj, it, off) + |Print(it.val)|, it.post)
    ensures At(s, off + |PrintItem(isObj, it)|, rest)
  {
    hide Print, Label, At;
    AtSplit(s, off, PrintItem(isObj, it), rest);
    AtSplit(s, off, it.pre + Label(isObj, it) + Print(it.val), it.post);
    AtSplit(s, off, it.pre + Label(isObj, it), Print(it.val));
    AtSplit(s, off, it.pre, Label(isObj, it));
  }

  lemma LabelLen(it: Item)
    ensures |Label(true, it)| == 3 + |it.key| + |it.gap|
  {
  }

  lemma AtLabel(s: string, p: nat, it: Item)
    requires At(s, p, Label(true, it))
    ensures At(s, p, "\"") && At(s, p + 1, it.key) && At(s, p + 1 + |it.key|, "\":")
    ensures At(s, p + 3 + |it.key|, it.gap)
  {
    AtSplit(s, p, "\"" + it.key + "\":", it.gap);
    AtSplit(s, p, "\"" + it.key, "\":");
    AtSplit(s, p, "\"", it.key);
  }

  /** What follows the first item of a list, up to and including the closing bracket. */
  function AfterFirst(isObj: bool, items: seq<Item>): string
    requires |items| > 0
  {
    if |items| == 1 then [CloseChar(isObj)]
    else [','] + (PrintItems(isObj, items[1..]) + [CloseChar(isObj)])
  }

  lemma SplitFirst(isObj: bool, items: seq<Item>)
    requires |items| > 0
    ensures PrintItems(isObj, items) + [CloseChar(isObj)] == PrintItem(isObj, items[0]) + AfterFirst(isObj, items)
  {
    if |items| > 1 {
      JoinAfter(PrintItem(isObj, items[0]), ",", PrintItems(isObj, items[1..]), [CloseChar(isObj)]);
    }
  }

  lemma JoinAfter(a: string, comma: string, b: string, c: string)
    ensures (a + comma + b) + c == a + (comma + (b + c))
  {
  }

  lemma WellFormedTail(isObj: bool, items: seq<Item>)
    requires WellFormedItems(isObj, items) && |items| > 0
    ensures WellFormedItems(isObj, items[1..])
    ensures LayoutOk(isObj, items[0]) && WellFormed(items[0].val)
  {
    forall i | 0 <= i < |items[1..]| ensures LayoutOk(isObj, items[1..][i]) && WellFormed(items[1..][i].val) {
      assert items[1..][i] == items[i + 1];
    }
  }

  lemma WellFormedItem(items: seq<Item>, i: nat)
    requires i < |items| && WellFormedItems(true, items)
    ensures LayoutOk(true, items[i]) && WellFormed(items[i].val)
  {
  }

  /** A well-formed value never starts with whitespace or with a closing bracket. */
  lemma FirstChar(v: Json)
    requires WellFormed(v)
    ensures |Print(v)| > 0
    ensures !IsSpace(Print(v)[0]) && Print(v)[0] != '}' && Print(v)[0] != ']' && Print(v)[0] != ',' && Print(v)[0] != '\r'
  {
  }

  // ---- scanner: the tokens of a text ------------------------------------------------------

  datatype Scanned = ScanFail | Scanned(toks: seq<Tok>, next: nat)

  datatype ScannedItems = ItemsFail | ScannedItems(toks: seq<Tok>, count: nat, next: nat)

  function SkipSpace(s: string, p: nat): (q: nat)
    requires p <= |s|
    ensures p <= q <= |s|
    decreases |s| - p
  {
    if p < |s| && (IsSpace(s[p]) || s[p] == '\r') then SkipSpace(s, p + 1) else p
  }

  /** The index of the quote that closes the string whose first character is at `p`, or |s|. */
  function SkipStr(s: string, p: nat): (q: nat)
    requires p <= |s|
    ensures p <= q <= |s|
    decreases |s| - p
  {
    if p == |s| || s[p] == '"' then p
    else if s[p] == '\\' then if p + 1 < |s| then SkipStr(s, p + 2) else |s|
    else SkipStr(s, p + 1)
  }

  function SkipPrim(s: string, p: nat): (q: nat)
    requires p <= |s|
    ensures p <= q <= |s|
    decreases |s| - p
  {
    if p < |s| && !IsDelim(s[p]) then SkipPrim(s, p + 1) else p
  }

  function ScanValue(s: string, p: nat): (r: Scanned)
    requires p <= |s|
    ensures r.Scanned? ==> p < r.next <= |s|
    decreases |s| - p, 0
  {
    if p == |s| then ScanFail
    else if s[p] == '"' then
      var q := SkipStr(s, p + 1);
      if q == |s| then ScanFail else Scanned([Tok(TStr, p + 1, q, 0)], q + 1)
    else if s[p] == '{' || s[p] == '[' then
      var isObj := s[p] == '{';
      var ty := if isObj then TObj else TArr;
      var a := SkipSpace(s, p + 1);
      if a < |s| && s[a] == CloseChar(isObj) then Scanned([Tok(ty, p, a + 1, 0)], a + 1)
      else match ScanItems(s, p + 1, isObj)
           case ItemsFail => ScanFail
           case ScannedItems(toks, n, next) => Scanned([Tok(ty, p, next, n)] + toks, next)
    else
      var q := SkipPrim(s, p);
      if q == p then ScanFail else Scanned([Tok(TPrim, p, q, 0)], q)
  }

  datatype KeyScan = NoKey | Key(tok: Tok, next: nat)

  /** A string that a ':' follows. */
  function ScanKey(s: string, a: nat): (r: KeyScan)
    requires a <= |s|
    ensures r.Key? ==> a < r.next <= |s|
  {
    if a == |s| || s[a] != '"' then NoKey
    else
      var q := SkipStr(s, a + 1);
      if q == |s| then NoKey
      else
        var c := SkipSpace(s, q + 1);
        if c == |s| || s[c] != ':' then NoKey else Key(Tok(TStr, a + 1, q, 1), SkipSpace(s, c + 1))
  }

  /** Scans one or more items and the closing bracket. An element of an array may have a key. */
  function ScanItems(s: string, p: nat, isObj: bool): (r: ScannedItems)
    requires p <= |s|
    ensures r.ScannedItems? ==> p < r.next <= |s|
    decreases |s| - p, 2
  {
    var a := SkipSpace(s, p);
    match ScanKey(s, a)
    case Key(tok, next) => ScanElement(s, next, [tok], isObj)
    case NoKey => if isObj then ItemsFail else ScanElement(s, a, [], isObj)
  }

  /** The last element of an array may be followed by a comma. */
  function ScanElement(s: string, p: nat, key: seq<Tok>, isObj: bool): (r: ScannedItems)
    requires p <= |s|
    ensures r.ScannedItems? ==> p < r.next <= |s|
    decreases |s| - p, 1
  {
    match ScanValue(s, p)
    case ScanFail => ItemsFail
    case Scanned(toks, next) =>
      var c := SkipSpace(s, next);
      if c == |s| then ItemsFail
      else if s[c] == CloseChar(isObj) then ScannedItems(key + toks, 1, c + 1)
      else if s[c] != ',' then ItemsFail
      else
        var d := SkipSpace(s, c + 1);
        if !isObj && d < |s| && s[d] == CloseChar(isObj) then ScannedItems(key + toks, 1, d + 1)
        else match ScanItems(s, c + 1, isObj)
             case ItemsFail => ItemsFail
             case ScannedItems(rest, n, end) => ScannedItems(key + toks + rest, n + 1, end)
  }

  /** The tokens of a whole text. */
  function Scan(s: string): Scanned {
    match ScanValue(s, SkipSpace(s, 0))
    case ScanFail => ScanFail
    case Scanned(toks, next) => if SkipSpace(s, next) == |s| then Scanned(toks, next) else ScanFail
  }

  lemma SkipSpaceOver(s: string, p: nat, ws: string)
    requires At(s, p, ws) && forall i :: 0 <= i < |ws| ==> IsSpace(ws[i])
    requires p + |ws| == |s| || (!IsSpace(s[p + |ws|]) && s[p + |ws|] != '\r')
    ensures SkipSpace(s, p) == p + |ws|
    decreases |ws|
  {
    if |ws| > 0 {
      AtSplit(s, p, [ws[0]], ws[1..]);
      assert ws == [ws[0]] + ws[1..];
      AtChar(s, p, ws[0]);
      SkipSpaceOver(s, p + 1, ws[1..]);
    }
  }

  lemma SkipStrOver(s: string, p: nat, t: string)
    requires At(s, p, t) && StrOk(t)
    requires p + |t| < |s| && s[p + |t|] == '"'
    ensures SkipStr(s, p) == p + |t|
    decreases |t|
  {
    hide At, StrOk;
    if |t| > 0 {
      AtIndex(s, p, t, 0);
      var k := if t[0] == '\\' then 2 else 1;
      StrOkRest(t);
      assert t == t[..k] + t[k..];
      AtSplit(s, p, t[..k], t[k..]);
      SkipStrOver(s, p + k, t[k..]);
    }
  }

  lemma StrOkRest(t: string)
    requires StrOk(t) && |t| > 0
    ensures var k := if t[0] == '\\' then 2 else 1; k <= |t| && StrOk(t[k..]) && t[0] != '"'
  {
  }

  lemma SkipPrimOver(s: string, p: nat, t: string)
    requires At(s, p, t) && forall i :: 0 <= i < |t| ==> !IsDelim(t[i])
    requires p + |t| == |s| || IsDelim(s[p + |t|])
    ensures SkipPrim(s, p) == p + |t|
    decreases |t|
  {
    if |t| > 0 {
      AtIndex(s, p, t, 0);
      assert t == t[..1] + t[1..];
      AtSplit(s, p, t[..1], t[1..]);
      SkipPrimOver(s, p + 1, t[1..]);
    }
  }

  predicate Ends(s: string, p: nat) { p == |s| || (p < |s| && IsDelim(s[p])) }

  lemma StrStep(s: string, off: nat, q: nat)
    requires off < |s| && s[off] == '"' && SkipStr(s, off + 1) == q < |s|
    ensures ScanValue(s, off) == Scanned([Tok(TStr, off + 1, q, 0)], q + 1)
  {
  }

  lemma CollStep(isObj: bool, s: string, off: nat, toks: seq<Tok>, n: nat, next: nat)
    requires off < |s| && s[off] == OpenChar(isObj)
    requires var a := SkipSpace(s, off + 1); a < |s| && s[a] != CloseChar(isObj)
    requires ScanItems(s, off + 1, isObj) == ScannedItems(toks, n, next)
    ensures ScanValue(s, off) == Scanned([Tok(if isObj then TObj else TArr, off, next, n)] + toks, next)
  {
  }

  lemma KeyStep(s: string, off: nat, a: nat, q: nat, p: nat, isObj: bool)
    requires off <= |s| && SkipSpace(s, off) == a < |s| && s[a] == '"' && SkipStr(s, a + 1) == q
    requires q + 1 < |s| && s[q + 1] == ':' && SkipSpace(s, q + 2) == p
    ensures ScanItems(s, off, isObj) == ScanElement(s, p, [Tok(TStr, a + 1, q, 1)], isObj)
  {
  }

  lemma ElementStep(s: string, off: nat)
    requires off <= |s| && ScanKey(s, SkipSpace(s, off)).NoKey?
    ensures ScanItems(s, off, false) == ScanElement(s, SkipSpace(s, off), [], false)
  {
  }

  /** An element is not mistaken for a key. */
  lemma ElementNoKey(items: seq<Item>, s: string, off: nat)
    requires |items| > 0 && LayoutOk(false, items[0]) && WellFormed(items[0].val)
    requires At(s, off, PrintItem(false, items[0]) + AfterFirst(false, items))
    ensures off + |items[0].pre| <= |s| && ScanKey(s, off + |items[0].pre|).NoKey?
  {
    hide Print, PrintItem, PrintItems, WellFormedItems, At, StrOk;
    var it := items[0];
    var p := off + |it.pre|;
    AtItem(s, off, false, it, AfterFirst(false, items));
    AtLength(s, p, Print(it.val));
    FirstChar(it.val);
    AtIndex(s, p, Print(it.val), 0);
    ItemLength(false, it, off);
    if it.val.Str? {
      StringNoKey(it.val.text, s, p, it.post, AfterFirst(false, items)) by {
        assert Print(it.val) == "\"" + it.val.text + "\"" by { PrintStr(it.val); }
      }
    } else {
      NotQuote(it.val);
    }
  }

  lemma PrintStr(v: Json)
    requires v.Str?
    ensures Print(v) == "\"" + v.text + "\""
  {
  }

  lemma NotQuote(v: Json)
    requires WellFormed(v) && !v.Str?
    ensures |Print(v)| > 0 && Print(v)[0] != '"'
  {
  }

  lemma StringNoKey(t: string, s: string, p: nat, post: string, rest: string)
    requires StrOk(t) && At(s, p, "\"" + t + "\"") && At(s, p + |t| + 2, post) && At(s, p + |t| + 2 + |post|, rest)
    requires forall i :: 0 <= i < |post| ==> IsSpace(post[i])
    requires |rest| > 0 && (rest[0] == ',' || rest[0] == ']')
    ensures p <= |s| && ScanKey(s, p).NoKey?
  {
    hide At, StrOk, SkipStr, SkipSpace;
    AtSplit(s, p, "\"" + t, "\"");
    AtSplit(s, p, "\"", t);
    AtChar(s, p, '"');
    AtChar(s, p + 1 + |t|, '"');
    SkipStrOver(s, p + 1, t);
    assert rest == [rest[0]] + rest[1..];
    LookPast(s, p + |t| + 2, post, rest[0], rest[1..]);
  }

  lemma ScanStrPrint(t: string, s: string, off: nat)
    requires StrOk(t) && At(s, off, "\"" + t + "\"")
    ensures off < |s| && ScanValue(s, off) == Scanned([Tok(TStr, off + 1, off + 1 + |t|, 0)], off + |t| + 2)
  {
    hide ScanValue, SkipStr, StrOk, At;
    AtSplit(s, off, "\"" + t, "\"");
    AtSplit(s, off, "\"", t);
    AtChar(s, off, '"');
    AtChar(s, off + 1 + |t|, '"');
    SkipStrOver(s, off + 1, t);
    StrStep(s, off, off + 1 + |t|);
  }

  /** The scanner reads back exactly the tokens of the value that was printed. */
  lemma {:induction false} ScanPrint(v: Json, s: string, off: nat)
    requires WellFormed(v) && At(s, off, Print(v)) && Ends(s, off + |Print(v)|)
    ensures ScanValue(s, off) == Scanned(Flatten(v, off), off + |Print(v)|)
    decreases |s| - off, 1
  {
    match v
    case Prim(t) =>
      AtIndex(s, off, t, 0);
      SkipPrimOver(s, off, t);
    case Str(t) => ScanStrPrint(t, s, off);
    case Coll(isObj, items) => ScanCollPrint(isObj, items, s, off);
  }

  lemma {:induction false} ScanCollPrint(isObj: bool, items: seq<Item>, s: string, off: nat)
    requires WellFormedItems(isObj, items)
    requires At(s, off, [OpenChar(isObj)] + PrintItems(isObj, items) + [CloseChar(isObj)])
    ensures off <= |s|
    ensures ScanValue(s, off)
         == Scanned([Tok(if isObj then TObj else TArr, off, off + |PrintItems(isObj, items)| + 2, |items|)]
                    + FlattenItems(isObj, items, off + 1), off + |PrintItems(isObj, items)| + 2)
    decreases |s| - off, 0
  {
    hide ScanValue, ScanItems, FlattenItems, PrintItems, At, WellFormedItems, SkipSpace;
    var body := PrintItems(isObj, items) + [CloseChar(isObj)];
    assert [OpenChar(isObj)] + PrintItems(isObj, items) + [CloseChar(isObj)] == [OpenChar(isObj)] + body;
    AtLength(s, off, [OpenChar(isObj)] + body);
    AtSplit(s, off, [OpenChar(isObj)], body);
    AtChar(s, off, OpenChar(isObj));
    if |items| == 0 {
      NoItemsText(isObj, off + 1);
      AtChar(s, off + 1, CloseChar(isObj));
      EmptyStep(isObj, s, off);
    } else {
      NotEmptyLook(isObj, items, s, off + 1);
      ScanItemsPrint(isObj, items, s, off + 1);
      CollStep(isObj, s, off, FlattenItems(isObj, items, off + 1), |items|, off + |PrintItems(isObj, items)| + 2);
    }
  }

  lemma NoItemsText(isObj: bool, off: nat)
    ensures PrintItems(isObj, []) + [CloseChar(isObj)] == [CloseChar(isObj)] && FlattenItems(isObj, [], off) == []
  {
  }

  lemma EmptyStep(isObj: bool, s: string, off: nat)
    requires off + 1 < |s| && s[off] == OpenChar(isObj) && s[off + 1] == CloseChar(isObj)
    ensures ScanValue(s, off) == Scanned([Tok(if isObj then TObj else TArr, off, off + 2, 0)], off + 2)
  {
  }

  /** A printed non-empty list is not mistaken for an empty one. */
  lemma NotEmptyLook(isObj: bool, items: seq<Item>, s: string, off: nat)
    requires |items| > 0 && WellFormedItems(isObj, items)
    requires At(s, off, PrintItems(isObj, items) + [CloseChar(isObj)])
    ensures var a := SkipSpace(s, off); a == off + |items[0].pre| && a < |s| && s[a] != CloseChar(isObj)
  {
    hide Print, PrintItem, PrintItems, AfterFirst, WellFormed, WellFormedItems;
    var it := items[0];
    WellFormedTail(isObj, items);
    SplitFirst(isObj, items);
    AtItem(s, off, isObj, it, AfterFirst(isObj, items));
    FirstChar(it.val);
    if isObj {
      AtLabel(s, off + |it.pre|, it);
      AtChar(s, off + |it.pre|, '"');
    } else {
      AtIndex(s, off + |it.pre|, Print(it.val), 0);
    }
    SkipSpaceOver(s, off, it.pre);
  }

  /** The key of an item is scanned off, up to its value. */
  lemma KeyedItem(it: Item, s: string, off: nat, isObj: bool)
    requires LayoutOk(true, it) && At(s, off, it.pre) && At(s, off + |it.pre|, Label(true, it))
    requires var p := ValOff(true, it, off); p < |s| && !IsSpace(s[p]) && s[p] != '\r'
    ensures ScanItems(s, off, isObj) == ScanElement(s, ValOff(true, it, off), [KeyTok(it, off)], isObj)
  {
    hide ScanItems, ScanElement, StrOk, At, Label;
    var a := off + |it.pre|;
    LabelLen(it);
    AtLabel(s, a, it);
    AtLength(s, a + 1 + |it.key|, "\":");
    AtIndex(s, a, "\"", 0);
    AtIndex(s, a + 1 + |it.key|, "\":", 0);
    AtIndex(s, a + 1 + |it.key|, "\":", 1);
    SkipSpaceOver(s, off, it.pre);
    SkipStrOver(s, a + 1, it.key);
    SkipSpaceOver(s, a + 3 + |it.key|, it.gap);
    KeyStep(s, off, a, a + 1 + |it.key|, ValOff(true, it, off), isObj);
  }

  lemma {:induction false} ScanItemsPrint(isObj: bool, items: seq<Item>, s: string, off: nat)
    requires |items| > 0 && WellFormedItems(isObj, items)
    requires At(s, off, PrintItems(isObj, items) + [CloseChar(isObj)])
    ensures ScanItems(s, off, isObj)
         == ScannedItems(FlattenItems(isObj, items, off), |items|, off + |PrintItems(isObj, items)| + 1)
    decreases |s| - off, 5
  {
    hide ScanValue, ScanItems, ScanElement, Flatten, FlattenItems, Print, PrintItems, PrintItem, WellFormed, StrOk;
    var it := items[0];
    WellFormedTail(isObj, items);
    SplitFirst(isObj, items);
    AtItem(s, off, isObj, it, AfterFirst(isObj, items));
    NotEmptyLook(isObj, items, s, off);
    FirstChar(it.val);
    var a := off + |it.pre|;
    var p := ValOff(isObj, it, off);
    AtIndex(s, p, Print(it.val), 0);
    if isObj {
      KeyedItem(it, s, off, true);
    } else {
      ElementNoKey(items, s, off);
      ElementStep(s, off);
    }
    ScanElementPrint(isObj, items, s, off);
  }

  /** Past a value that ends at `e`: its trailing whitespace, then a comma or a bracket. */
  lemma LookPast(s: string, e: nat, post: string, sep: char, tail: string)
    requires forall i :: 0 <= i < |post| ==> IsSpace(post[i])
    requires sep == ',' || sep == '}' || sep == ']'
    requires At(s, e, post) && At(s, e + |post|, [sep] + tail)
    ensures Ends(s, e)
    ensures SkipSpace(s, e) == e + |post| < |s| && s[e + |post|] == sep
    ensures At(s, e + |post| + 1, tail)
  {
    AtSplit(s, e + |post|, [sep], tail);
    AtChar(s, e + |post|, sep);
    if |post| > 0 { AtIndex(s, e, post, 0); }
    SkipSpaceOver(s, e, post);
  }

  lemma PrintItemsLength(isObj: bool, items: seq<Item>)
    requires |items| > 0
    ensures |PrintItems(isObj, items)| == |PrintItem(isObj, items[0])|
         + (if |items| == 1 then 0 else 1 + |PrintItems(isObj, items[1..])|)
  {
  }

  lemma ScanMore(s: string, p: nat, key: seq<Tok>, isObj: bool, toks: seq<Tok>, e: nat, c: nat,
                 rest: seq<Tok>, n: nat, end: nat)
    requires p <= |s| && e <= |s| && ScanValue(s, p) == Scanned(toks, e)
    requires SkipSpace(s, e) == c < |s| && s[c] == ',' && ScanItems(s, c + 1, isObj) == ScannedItems(rest, n, end)
    requires isObj || var d := SkipSpace(s, c + 1); d < |s| && s[d] != CloseChar(isObj)
    ensures ScanElement(s, p, key, isObj) == ScannedItems(key + toks + rest, n + 1, end)
  {
  }

  lemma ScanLast(s: string, p: nat, key: seq<Tok>, isObj: bool, toks: seq<Tok>, e: nat, c: nat)
    requires p <= |s| && e <= |s| && ScanValue(s, p) == Scanned(toks, e)
    requires SkipSpace(s, e) == c < |s| && s[c] == CloseChar(isObj)
    ensures ScanElement(s, p, key, isObj) == ScannedItems(key + toks, 1, c + 1)
  {
  }

  lemma ItemLength(isObj: bool, it: Item, off: nat)
    ensures off + |PrintItem(isObj, it)| == ValOff(isObj, it, off) + |Print(it.val)| + |it.post|
  {
  }

  lemma FlattenSplit(isObj: bool, items: seq<Item>, off: nat)
    requires |items| > 0
    ensures FlattenItems(isObj, items, off)
         == (if isObj then [KeyTok(items[0], off)] else [])
            + Flatten(items[0].val, ValOff(isObj, items[0], off))
            + FlattenItems(isObj, items[1..], off + |PrintItem(isObj, items[0])| + 1)
    ensures |items| == 1 ==> items[1..] == [] && FlattenItems(isObj, items[1..], off + |PrintItem(isObj, items[0])| + 1) == []
  {
  }

  lemma {:induction false} ScanElementPrint(isObj: bool, items: seq<Item>, s: string, off: nat)
    requires |items| > 0 && WellFormedItems(isObj, items)
    requires At(s, off, PrintItem(isObj, items[0]) + AfterFirst(isObj, items))
    ensures ValOff(isObj, items[0], off) <= |s|
    ensures ScanElement(s, ValOff(isObj, items[0], off), if isObj then [KeyTok(items[0], off)] else [], isObj)
         == ScannedItems(FlattenItems(isObj, items, off), |items|, off + |PrintItems(isObj, items)| + 1)
    decreases |s| - off, 4
  {
    hide ScanValue, ScanItems, ScanElement, Flatten, FlattenItems, Print, PrintItems, At, WellFormed, PrintItem;
    var it, p := items[0], ValOff(isObj, items[0], off);
    WellFormedTail(isObj, items);
    AtItem(s, off, isObj, it, AfterFirst(isObj, items));
    AtLength(s, off, PrintItem(isObj, it) + AfterFirst(isObj, items));
    PrintItemsLength(isObj, items);
    FlattenSplit(isObj, items, off);
    ItemLength(isObj, it, off);
    var key := if isObj then [KeyTok(it, off)] else [];
    if |items| == 1 {
      ScanElementLast(it, isObj, s, p, key);
    } else {
      ScanElementMore(it, items[1..], isObj, s, p, key, off + |PrintItem(isObj, it)| + 1,
                      PrintItems(isObj, items[1..]) + [CloseChar(isObj)]);
    }
  }

  lemma {:induction false} ScanElementLast(it: Item, isObj: bool, s: string, p: nat, key: seq<Tok>)
    requires LayoutOk(isObj, it) && WellFormed(it.val) && At(s, p, Print(it.val))
    requires At(s, p + |Print(it.val)|, it.post) && At(s, p + |Print(it.val)| + |it.post|, [CloseChar(isObj)])
    ensures p <= |s|
    ensures ScanElement(s, p, key, isObj)
         == ScannedItems(key + Flatten(it.val, p), 1, p + |Print(it.val)| + |it.post| + 1)
    decreases |s| - p, 2
  {
    var e := p + |Print(it.val)|;
    assert [CloseChar(isObj)] + "" == [CloseChar(isObj)];
    LookPast(s, e, it.post, CloseChar(isObj), "");
    ScanPrint(it.val, s, p);
    ScanLast(s, p, key, isObj, Flatten(it.val, p), e, e + |it.post|);
  }

  lemma {:induction false} ScanElementMore(it: Item, rest: seq<Item>, isObj: bool, s: string, p: nat, key: seq<Tok>,
                                           next: nat, tail: string)
    requires LayoutOk(isObj, it) && WellFormed(it.val)
    requires |rest| > 0 && WellFormedItems(isObj, rest) && tail == PrintItems(isObj, rest) + [CloseChar(isObj)]
    requires At(s, p, Print(it.val)) && At(s, p + |Print(it.val)|, it.post)
    requires next == p + |Print(it.val)| + |it.post| + 1 && At(s, next - 1, [','] + tail)
    ensures p <= |s|
    ensures ScanElement(s, p, key, isObj)
         == ScannedItems(key + Flatten(it.val, p) + FlattenItems(isObj, rest, next),
                         |rest| + 1, next + |PrintItems(isObj, rest)| + 1)
    decreases |s| - p, 2
  {
    hide ScanValue, ScanItems, ScanElement, Flatten, FlattenItems, Print, PrintItems, At, WellFormed, WellFormedItems;
    var e := p + |Print(it.val)|;
    LookPast(s, e, it.post, ',', tail);
    ScanPrint(it.val, s, p);
    ScanItemsPrint(isObj, rest, s, next);
    NotEmptyLook(isObj, rest, s, next);
    ScanMore(s, p, key, isObj, Flatten(it.val, p), e, e + |it.post|,
             FlattenItems(isObj, rest, next), |rest|, next + |PrintItems(isObj, rest)| + 1);
  }

  /** Scanning the text of a well-formed tree gives its preorder token array. */
  lemma ScanTree(v: Json)
    requires WellFormed(v)
    ensures Scan(Print(v)) == Scanned(Flatten(v, 0), |Print(v)|)
  {
    var s := Print(v);
    assert s[0..0 + |s|] == s;
    FirstChar(v);
    ScanPrint(v, s, 0);
  }
}
