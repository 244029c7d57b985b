/** The configuration store: JSON source in a growable character buffer, its token array, and the
    editing operations that cut and insert characters and parse again. */
module CfgStore {
  import opened Options
  import opened JsonText
  import opened JsonUnique
  import opened JsonWalk
  import opened JsonLookup
  import opened JsonEdit
  import opened JsonSet
  import opened JsonSetLaws
  import opened JsonFront
  import opened JsonScalar
  import opened JsonArray

  const NUL := '\0'

  predicate NoNul(s: string) { forall i :: 0 <= i < |s| ==> s[i] != NUL }

  /** The buffer holds a C string. */
  ghost predicate BufHolds(a: array<char>, text: string)
    reads a
  {
    |text| < a.Length && a[|text|] == NUL && NoNul(text) && forall i :: 0 <= i < |text| ==> a[i] == text[i]
  }

  lemma {:induction false} StrNoNul(s: string)
    requires StrOk(s)
    ensures NoNul(s)
    decreases |s|
  {
    if |s| > 0 {
      var k := if s[0] == '\\' then 2 else 1;
      StrNoNul(s[k..]);
      assert s == s[..k] + s[k..];
    }
  }

  lemma {:induction false} PrintNoNul(v: Json)
    requires WellFormed(v)
    ensures NoNul(Print(v))
    decreases v, 1
  {
    if v.Str? { StrNoNul(v.text); }
    if v.Coll? { ItemsNoNul(v.isObj, v.items); }
  }

  lemma {:induction false} ItemsNoNul(isObj: bool, items: seq<Item>)
    requires WellFormedItems(isObj, items)
    ensures NoNul(PrintItems(isObj, items))
    decreases items, 0
  {
    if |items| > 0 {
      WellFormedTail(isObj, items);
      PrintNoNul(items[0].val);
      ItemNoNul(isObj, items[0]);
      ItemsNoNul(isObj, items[1..]);
    }
  }

  lemma ItemNoNul(isObj: bool, it: Item)
    requires LayoutOk(isObj, it) && NoNul(Print(it.val))
    ensures NoNul(PrintItem(isObj, it))
  {
    hide Print, StrOk;
    if isObj { StrNoNul(it.key); }
    assert NoNul(it.pre) && NoNul(it.gap) && NoNul(it.post);
  }

  // ---- moving characters ----------------------------------------------------------------------

  method StrLen(a: array<char>, ghost text: string) returns (n: nat)
    requires BufHolds(a, text)
    ensures n == |text|
  {
    n := 0;
    while a[n] != NUL
      invariant 0 <= n <= |text|
      decreases |text| - n
    {
      n := n + 1;
    }
  }

  /** The characters of a buffer, up to its terminator. */
  method Contents(a: array<char>, ghost text: string) returns (s: string)
    requires BufHolds(a, text)
    ensures s == text
  {
    var n := StrLen(a, text);
    s := a[..n];
  }

  lemma JoinedAt(text: string, dst: nat, src: nat)
    requires dst <= src <= |text|
    ensures var r := text[..dst] + text[src..];
      forall i :: 0 <= i < |r| ==> r[i] == if i < dst then text[i] else text[src + (i - dst)]
  {
  }

  /** strcpy to a lower place in the same buffer. */
  method OverlapCopy(a: array<char>, dst: nat, src: nat, ghost text: string)
    requires BufHolds(a, text) && dst <= src <= |text|
    modifies a
    ensures BufHolds(a, text[..dst] + text[src..])
  {
    var d, s := dst, src;
    var c := a[s];
    a[d] := c;
    while c != NUL
      invariant dst <= d && d - dst == s - src && s <= |text|
      invariant c == (if s < |text| then text[s] else NUL)
      invariant a[d] == c
      invariant forall i :: 0 <= i < dst ==> a[i] == text[i]
      invariant forall i :: dst <= i < d ==> a[i] == text[src + (i - dst)]
      invariant forall i :: d < i <= |text| ==> a[i] == (if i < |text| then text[i] else NUL)
      decreases |text| - s
    {
      d, s := d + 1, s + 1;
      c := a[s];
      a[d] := c;
    }
    CopyDone(a, text, dst, src);
  }

  lemma CopyDone(a: array<char>, text: string, dst: nat, src: nat)
    requires dst <= src <= |text| < a.Length && NoNul(text) && a[dst + (|text| - src)] == NUL
    requires forall i :: 0 <= i < dst ==> a[i] == text[i]
    requires forall i :: dst <= i < dst + (|text| - src) ==> a[i] == text[src + (i - dst)]
    ensures BufHolds(a, text[..dst] + text[src..])
  {
    JoinedAt(text, dst, src);
  }

  /** Opening a gap: the characters from `pos` on, terminator included, move up by `by`. */
  method ShiftUp(a: array<char>, pos: nat, gap: nat, ghost text: string)
    requires BufHolds(a, text) && pos <= |text| && |text| + gap < a.Length
    modifies a
    ensures forall i :: 0 <= i < pos ==> a[i] == text[i]
    ensures forall i :: pos + gap <= i < |text| + gap ==> a[i] == text[i - gap]
    ensures a[|text| + gap] == NUL
  {
    var slen := StrLen(a, text);
    var rlen := slen - pos + 1;
    var s, d, i := slen, slen + gap, 0;
    while i < rlen
      invariant 0 <= i <= rlen && s == slen - i && d == slen + gap - i
      invariant forall j :: 0 <= j <= s && j < |text| ==> a[j] == text[j]
      invariant i == 0 ==> a[|text|] == NUL
      invariant i > 0 ==> a[|text| + gap] == NUL
      invariant forall j :: s + gap < j < |text| + gap ==> a[j] == text[j - gap]
    {
      a[d] := a[s];
      d, s, i := d - 1, s - 1, i + 1;
    }
  }

  method CopyIn(a: array<char>, pos: nat, val: string)
    requires pos + |val| <= a.Length
    modifies a
    ensures forall i :: 0 <= i < a.Length ==>
              a[i] == if pos <= i < pos + |val| then val[i - pos] else old(a[i])
  {
    for i := 0 to |val|
      invariant forall k :: 0 <= k < a.Length ==>
                  a[k] == if pos <= k < pos + i then val[k - pos] else old(a[k])
    {
      a[pos + i] := val[i];
    }
  }

  /** Inserting a member's text at `pos` with the comma that the neighbouring characters ask for. */
  method Ins(json: array<char>, pos: nat, val: string, ghost text: string)
    requires BufHolds(json, text) && 0 < pos < |text| && NoNul(val)
    requires |text| + |val| + 1 < json.Length
    modifies json
    ensures BufHolds(json, InsText(text, pos, val))
  {
    var r, gap := pos, |val|;
    var Lcomma, Rcomma := false, false;
    if json[r] == '}' && json[r - 1] == '{' {
    } else if json[r] == '}' {
      r, gap, Lcomma := r + 1, gap + 1, true;
    } else {
      gap, Rcomma := gap + 1, true;
    }
    ShiftUp(json, pos, gap, text);
    if Rcomma { json[pos + |val|] := ','; }
    CopyIn(json, r, val);
    if Lcomma { json[r - 1] := ','; }
    ghost var piece := if Lcomma then [','] + val else if Rcomma then val + [','] else val;
    assert forall i :: pos <= i < pos + gap ==> json[i] == piece[i - pos];
    InsDone(json, text, pos, val, piece);
  }

  lemma InsDone(json: array<char>, text: string, pos: nat, val: string, piece: string)
    requires 0 < pos < |text| && NoNul(text) && NoNul(piece) && |text| + |piece| < json.Length
    requires InsText(text, pos, val) == text[..pos] + piece + text[pos..]
    requires forall i :: 0 <= i < pos ==> json[i] == text[i]
    requires forall i :: pos <= i < pos + |piece| ==> json[i] == piece[i - pos]
    requires forall i :: pos + |piece| <= i < |text| + |piece| ==> json[i] == text[i - |piece|]
    requires json[|text| + |piece|] == NUL
    ensures BufHolds(json, InsText(text, pos, val))
  {
    hide InsText;
    PieceChars(text, pos, piece);
  }

  lemma PieceChars(text: string, pos: nat, piece: string)
    requires pos <= |text| && NoNul(text) && NoNul(piece)
    ensures var res := text[..pos] + piece + text[pos..];
      && |res| == |text| + |piece| && NoNul(res)
      && (forall i :: 0 <= i < pos ==> res[i] == text[i])
      && (forall i :: pos <= i < pos + |piece| ==> res[i] == piece[i - pos])
      && (forall i :: pos + |piece| <= i < |res| ==> res[i] == text[i - |piece|])
  {
  }

  /** Where the characters around a member are. */
  lemma SiteChars(c: Site)
    requires |c.left| > 0
    ensures var t, p := SiteText(c), |c.left|;
            var g := p + |c.pre| + |c.key| + 3;
            var v := g + |c.gap|;
            var r := v + |c.val|;
      && t[p - 1] == c.left[p - 1] && t[..p] == c.left
      && (forall i :: p <= i < p + |c.pre| ==> t[i] == c.pre[i - p])
      && (forall i :: g <= i < v ==> t[i] == c.gap[i - g])
      && (|c.val| > 0 ==> t[v] == c.val[0])
      && |t| == r + |c.right| && t[r..] == c.right
      && (forall i :: r <= i < |t| ==> t[i] == c.right[i - r])
  {
  }

  /** Where the member's value starts in the text of a site. */
  function ValPos(c: Site): nat { |c.left| + |c.pre| + |c.key| + 3 + |c.gap| }

  /** Walking left from a key over whitespace, to just after the '{' or ',' before it. */
  method WalkLeft(json: array<char>, keyStart: nat, ghost c: Site) returns (s: nat)
    requires BufHolds(json, SiteText(c)) && SiteOk(c) && keyStart == |c.left| + |c.pre| + 1
    ensures s == |c.left|
  {
    hide SiteText, DropSep;
    SiteChars(c);
    ghost var p := |c.left|;
    var t: int := keyStart - 1 - 1;
    while IsSpace(json[t])
      invariant p - 1 <= t < p + |c.pre|
      decreases t
    {
      t := t - 1;
    }
    assert t == p - 1;
    s := t + 1;
  }

  /** Walking right from a key's end over spaces and tabs, to its value. */
  method WalkGap(json: array<char>, keyEnd: nat, ghost c: Site) returns (e: nat)
    requires BufHolds(json, SiteText(c)) && SiteOk(c) && keyEnd == |c.left| + |c.pre| + 1 + |c.key|
    ensures e == ValPos(c)
  {
    hide SiteText, DropSep;
    SiteChars(c);
    e := keyEnd + 2;
    while json[e] == ' ' || json[e] == '\t'
      invariant ValPos(c) - |c.gap| <= e <= ValPos(c)
      decreases ValPos(c) - e
    {
      e := e + 1;
    }
  }

  /** Walking right from the end of a value over separators. */
  method WalkRight(json: array<char>, valEnd: nat, ghost c: Site) returns (e: nat)
    requires BufHolds(json, SiteText(c)) && SiteOk(c) && valEnd == ValPos(c) + |c.val|
    ensures e < |SiteText(c)| && SiteText(c)[e..] == DropSep(c.right) && e >= |c.left|
  {
    hide SiteText, DropSep;
    SiteChars(c);
    RightChars(c.right);
    ghost var text, x := SiteText(c), valEnd + SepLen(c.right);
    e := valEnd;
    while IsSep(json[e])
      invariant valEnd <= e <= x < |text|
      decreases x - e
    {
      e := e + 1;
    }
    assert e == x;
    assert text[x..] == text[valEnd..][SepLen(c.right)..];
  }

  /** Cutting a member out, given its key token, its value token and the quotes not in the latter. */
  method Cut(json: array<char>, keyJt: Tok, jt: Tok, skip: nat, ghost c: Site) returns (pos: nat)
    requires BufHolds(json, SiteText(c)) && SiteOk(c)
    requires keyJt.start == |c.left| + |c.pre| + 1 && keyJt.end == keyJt.start + |c.key|
    requires jt.start <= jt.end && jt.end - jt.start + skip == |c.val|
    modifies json
    ensures BufHolds(json, CutText(c)) && pos == |CutLeft(c)|
  {
    hide SiteText, DropSep;
    SiteChars(c);
    ghost var text := SiteText(c);
    var keySize, valSize := keyJt.end - keyJt.start, jt.end - jt.start;
    var s := WalkLeft(json, keyJt.start, c);
    var e := WalkGap(json, keyJt.start + keySize, c);
    e := WalkRight(json, e + valSize + skip, c);
    assert DropSep(c.right)[0] == text[e];
    if json[s - 1] == ',' && json[e] == '}' {
      s := s - 1;
    }
    assert text[..s] == CutLeft(c) by { assert text[..|c.left|][..s] == text[..s]; }
    OverlapCopy(json, s, e, text);
    pos := s;
  }

  lemma RightChars(right: string)
    requires |DropSep(right)| > 0
    ensures SepLen(right) < |right| && DropSep(right) == right[SepLen(right)..]
  {
  }

  // ---- what a setter recognises -----------------------------------------------------------------

  predicate NullAt(text: string, p: nat) { p + 4 <= |text| && text[p..p + 4] == "null" }

  /** The test a setter makes of the value it is to remove: how many quotes the value's token leaves
      out, or None when the setter panics. */
  function RemoveSkip(kind: Kind, text: string, jt: Tok): Option<nat>
    requires 0 < jt.start < |text|
  {
    if kind.StringKind? && text[jt.start - 1] == '"' then
      if jt.ty == TStr && jt.size == 0 then Some(2) else None
    else if !kind.StringKind? && FirstOk(kind, text[jt.start]) then
      if jt.ty == (if kind.ObjectKind? then TObj else TPrim) then Some(0) else None
    else if NullAt(text, jt.start) then
      if jt.ty == TPrim then Some(0) else None
    else None
  }

  /** On the token of a member's value the test is `Removable`, and token and quotes span its text. */
  lemma SkipMeaning(kind: Kind, text: string, A: string, a: seq<Item>, it: Item, b: seq<Item>, B: string, off: nat)
    requires LayoutOk(true, it) && WellFormed(it.val)
    requires text == ObjectText(A, a + [it] + b, B)
    requires off == |A| + 1 + |Lead(a)| + |it.pre| + |Label(true, it)|
    ensures var jt := HeadTok(it.val, off);
      && 0 < jt.start < |text| && jt.start <= jt.end
      && (RemoveSkip(kind, text, jt).Some? <==> Removable(kind, it.val))
      && (RemoveSkip(kind, text, jt).Some? ==> jt.end - jt.start + RemoveSkip(kind, text, jt).value == |Print(it.val)|)
  {
    hide StrOk, WellFormedItems, PrintItems, Lead, Trail, ObjectText, SiteText, RemoveSkip;
    var c := MemberSite(A, a, it, b, B);
    SiteIsObject(A, a, it, b, B);
    SiteChars(c);
    SiteValue(c);
    FirstChar(it.val);
    assert off == |c.left| + |c.pre| + |c.key| + 3 + |c.gap|;
    AfterValue(it, b, B);
    match it.val
    case Prim(t) => PrimSkip(kind, text, off, t);
    case Str(t) => StrSkip(kind, text, off, t);
    case Coll(_, _) => CollSkip(kind, text, off, it.val);
  }

  /** What stands before a member's value, and the value itself. */
  lemma SiteValue(c: Site)
    requires |c.left| > 0
    requires forall i :: 0 <= i < |c.gap| ==> c.gap[i] == ' ' || c.gap[i] == '\t'
    ensures var t, v := SiteText(c), |c.left| + |c.pre| + |c.key| + 3 + |c.gap|;
      && v + |c.val| + |c.right| == |t| && t[v - 1] != '"'
      && (forall i :: v <= i < v + |c.val| ==> t[i] == c.val[i - v])
      && (forall i :: v + |c.val| <= i < |t| ==> t[i] == c.right[i - (v + |c.val|)])
  {
  }

  lemma AfterValue(it: Item, b: seq<Item>, B: string)
    requires LayoutOk(true, it)
    ensures var right := it.post + Trail(b) + "}" + B; |right| > 0 && IsDelim(right[0])
  {
    hide PrintItems, StrOk;
  }

  lemma PrimSkip(kind: Kind, text: string, off: nat, t: string)
    requires PrimOk(t) && 0 < off && off + |t| < |text| && text[off - 1] != '"' && IsDelim(text[off + |t|])
    requires forall i :: off <= i < off + |t| ==> text[i] == t[i - off]
    ensures var jt := HeadTok(Prim(t), off);
      && (RemoveSkip(kind, text, jt).Some? <==> Removable(kind, Prim(t)))
      && (RemoveSkip(kind, text, jt).Some? ==> RemoveSkip(kind, text, jt).value == 0)
  {
    assert text[off] == t[0] && t[0] != '{';
    if NullAt(text, off) {
      var w := text[off..off + 4];
      assert w[0] == text[off] && w[1] == text[off + 1] && w[2] == text[off + 2] && w[3] == text[off + 3];
      assert !IsDelim(text[off]) && !IsDelim(text[off + 1]) && !IsDelim(text[off + 2]) && !IsDelim(text[off + 3]);
      assert |t| >= 4;
      assert t[..4] == text[off..off + 4];
    }
    if StartsNull(t) {
      assert text[off..off + 4] == t[..4];
    }
  }

  lemma StrSkip(kind: Kind, text: string, off: nat, t: string)
    requires 0 < off && off + |t| + 2 < |text| && text[off] == '"'
    ensures var jt := HeadTok(Str(t), off);
      && (RemoveSkip(kind, text, jt).Some? <==> Removable(kind, Str(t)))
      && (RemoveSkip(kind, text, jt).Some? ==> RemoveSkip(kind, text, jt).value == 2)
  {
  }

  lemma CollSkip(kind: Kind, text: string, off: nat, v: Json)
    requires v.Coll? && 0 < off < |text| && text[off] == OpenChar(v.isObj) && text[off - 1] != '"'
    ensures var jt := HeadTok(v, off);
      && (RemoveSkip(kind, text, jt).Some? <==> Removable(kind, v))
      && (RemoveSkip(kind, text, jt).Some? ==> RemoveSkip(kind, text, jt).value == 0)
  {
    hide Print;
    assert off + 4 <= |text| ==> text[off..off + 4][0] == text[off];
  }

  // ---- what a reader accepts ---------------------------------------------------------------------

  /** The characters of a value that its token spans. */
  function Inner(v: Json): string { if v.Str? then v.text else Print(v) }

  predicate Readable(kind: Kind, v: Json) {
    match kind
    case StringKind => v.Str?
    case ObjectKind => v.Coll? && v.isObj
    case _ => v.Prim? && |v.text| > 0 && FirstOk(kind, v.text[0])
  }

  predicate TokReadable(kind: Kind, text: string, jt: Tok)
    requires jt.start < |text|
  {
    match kind
    case StringKind => jt.ty == TStr
    case ObjectKind => jt.ty == TObj
    case _ => jt.ty == TPrim && FirstOk(kind, text[jt.start])
  }

  /** On the token of a member's value the reader's test is `Readable`, and the token spans the value. */
  lemma ReadFacts(t: Json, place: Place, j: nat, kind: Kind)
    requires GoodTree(t) && PlaceOk(t, place) && j < |MembersAt(t, place)|
    ensures var k, toks, text, v := MemberPos(t, place, j).k + 1, Flatten(t, 0), Print(t), MembersAt(t, place)[j].val;
      && k < |toks| && toks[k].start <= toks[k].end <= |text| && toks[k].start < |text|
      && text[toks[k].start..toks[k].end] == Inner(v)
      && (TokReadable(kind, text, toks[k]) <==> Readable(kind, v))
  {
    hide Flatten, Print, WellFormed, WellFormedItems, MemberPos, HeadTok, TokReadable, Readable, Inner, Depth, LayoutOk;
    GoodMembers(t, place);
    WellFormedItem(MembersAt(t, place), j);
    MemberStands(t, place, j);
    MemberTokens(t, place, j);
    var it := MembersAt(t, place)[j];
    SpanValue(Print(t), ValOff(true, it, MemberPos(t, place, j).off), it.val, kind);
  }

  lemma SpanValue(text: string, off: nat, v: Json, kind: Kind)
    requires WellFormed(v) && off + |Print(v)| < |text| && At(text, off, Print(v))
    ensures var jt := HeadTok(v, off);
      && jt.start <= jt.end <= |text| && jt.start < |text| && text[jt.start..jt.end] == Inner(v)
      && (TokReadable(kind, text, jt) <==> Readable(kind, v))
  {
    hide PrintItems, StrOk, WellFormedItems;
    FirstChar(v);
    assert forall i :: off <= i < off + |Print(v)| ==> text[i] == Print(v)[i - off];
    assert text[off] == Print(v)[0];
    if v.Str? {
      assert forall i :: off + 1 <= i < off + 1 + |v.text| ==> text[i] == v.text[i - (off + 1)];
      assert text[off + 1..off + 1 + |v.text|] == v.text;
    } else {
      assert text[off..off + |Print(v)|] == Print(v);
    }
  }

  /** What a reader gets: the characters of the value that the name means, when it is of the kind asked for. */
  function Shown(t: Json, name: Name, kind: Kind): Option<string>
    requires t.Coll?
  {
    match Find(t, name)
    case There(place, j) =>
      var v := MembersAt(t, place)[j].val;
      if Readable(kind, v) then Some(Inner(v)) else None
    case _ => None
  }

  /** What a reader makes of any text and tokens. */
  function TokShown(text: string, toks: seq<Tok>, name: Name, kind: Kind): Option<string> {
    match TokLookup(text, toks, name)
    case Found(k) =>
      if k < |toks| && toks[k].start <= toks[k].end <= |text| && toks[k].start < |text| && TokReadable(kind, text, toks[k])
      then Some(text[toks[k].start..toks[k].end]) else None
    case _ => None
  }

  /** On the text and tokens of a tree a reader gets what the name means. */
  lemma TreeShown(t: Json, name: Name, kind: Kind)
    requires GoodTree(t)
    ensures TokShown(Print(t), Flatten(t, 0), name, kind) == Shown(t, name, kind)
  {
    hide Print, Flatten, TokLookup, TokReadable, Readable, Inner, MemberPos, WellFormed, Depth;
    LookupTree(t, name);
    if Find(t, name).There? { ReadFacts(t, Find(t, name).place, Find(t, name).j, kind); }
  }

  /** Where the name's token is that of a value which stands there, a reader gets that value if it is of the kind asked for. */
  lemma ReadsShown(text: string, toks: seq<Tok>, name: Name, kind: Kind, v: Json)
    requires ReadsText(text, toks, name, v) && WellFormed(v)
    ensures TokShown(text, toks, name, kind) == if Readable(kind, v) then Some(Inner(v)) else None
  {
    hide Print, TokLookup, TokReadable, Readable, Inner, WellFormed, HeadTok, At;
    var k := TokLookup(text, toks, name).tok;
    var p: nat :| toks[k] == HeadTok(v, p) && At(text, p, Print(v)) && p + |Print(v)| < |text|;
    SpanValue(text, p, v, kind);
  }

  /** A value of a kind is known by its characters. */
  lemma ShownReads(t: Json, name: Name, kind: Kind, v: Json)
    requires GoodTree(t) && WellFormed(v) && Readable(kind, v)
    ensures Shown(t, name, kind) == Some(Inner(v)) <==> Reads(t, name, v)
  {
    hide Print, Find, FirstOk;
    if Find(t, name).There? {
      var place, j := Find(t, name).place, Find(t, name).j;
      GoodMembers(t, place);
      WellFormedItem(MembersAt(t, place), j);
      var w := MembersAt(t, place)[j].val;
      if Readable(kind, w) && Inner(w) == Inner(v) { SameInner(kind, v, w); }
    }
  }

  lemma SameInner(kind: Kind, v: Json, w: Json)
    requires WellFormed(v) && WellFormed(w) && Readable(kind, v) && Readable(kind, w) && Inner(v) == Inner(w)
    ensures v == w
  {
    hide WellFormed;
    if kind.ObjectKind? { TreeUnique(v, w); }
  }

  // ---- the store ----------------------------------------------------------------------------------

  class Cfg {
    var json: array<char> // its length is json_buf_size
    var tokens: seq<Tok>
    ghost var tree: Json // what the text spells

    ghost predicate Valid()
      reads this, json
    {
      GoodTree(tree) && BufHolds(json, Print(tree)) && tokens == Flatten(tree, 0)
    }

    constructor ()
      ensures fresh(json)
    {
      json, tokens, tree := new char[0], [], Prim("");
    }

    /** The store is set up with a text: `ok` tells whether it parses. */
    method Init(text: string) returns (ok: bool)
      requires NoNul(text)
      modifies this
      ensures fresh(json) && BufHolds(json, text) && (ok <==> Scan(text).Scanned?)
      ensures forall t :: GoodTree(t) && Print(t) == text ==> ok && Valid() && tree == t
    {
      hide Scan, Print, Flatten, WellFormed, Depth;
      json := new char[|text| + 1](_ => NUL);
      CopyIn(json, 0, text);
      ok := ParseJson(text);
      if t :| GoodTree(t) && Print(t) == text {
        ScanTree(t);
        tree := t;
        forall u | GoodTree(u) && Print(u) == text ensures u == t { TreeUnique(t, u); }
      }
    }

    /** The buffer grows, keeping the text it holds. */
    method ReallocJson(newSize: nat, ghost text: string)
      requires BufHolds(json, text)
      modifies this`json
      ensures BufHolds(json, text) && json.Length >= newSize
      ensures json == old(json) || fresh(json)
    {
      if json.Length < newSize {
        var prev := json;
        json := new char[newSize](_ => NUL);
        var i, c := 0, prev[0];
        json[0] := c;
        while c != NUL
          invariant json.Length == newSize && fresh(json) && prev == old(json) && BufHolds(prev, text)
          invariant 0 <= i <= |text| && c == prev[i] == json[i]
          invariant forall k :: 0 <= k < i ==> json[k] == text[k]
          decreases |text| - i
        {
          i := i + 1;
          c := prev[i];
          json[i] := c;
        }
      }
    }

    /** The text is tokenised again. */
    method ParseJson(ghost text: string) returns (ok: bool)
      requires BufHolds(json, text)
      modifies this`tokens
      ensures ok <==> Scan(text).Scanned?
      ensures ok ==> tokens == Scan(text).toks
    {
      var s := Contents(json, text);
      match Scan(s) {
        case ScanFail => ok := false;
        case Scanned(toks, _) => tokens, ok := toks, true;
      }
    }

    /** Parsing the text of a tree makes it the store's tree. */
    method Reparse(ghost t: Json) returns (ok: bool)
      requires GoodTree(t) && BufHolds(json, Print(t))
      modifies this`tokens, this`tree
      ensures ok && Valid() && tree == t
    {
      hide Scan, Print, Flatten;
      ScanTree(t);
      ok := ParseJson(Print(t));
      tree := t;
    }

    method Lookup(name: Name) returns (r: Lookup)
      requires Valid()
      ensures r == AsLookup(tree, Find(tree, name))
    {
      var text := Contents(json, Print(tree));
      LookupTree(tree, name);
      r := LookupJson(text, tokens, name);
    }

    /** Reading a name: the text of its value's token, if the name is found and its value is of the kind asked for; `text`
        is what the buffer holds. */
    method Read(name: Name, kind: Kind, ghost text: string) returns (r: Option<string>)
      requires BufHolds(json, text) && Shallow(text, tokens)
      ensures r == TokShown(text, tokens, name, kind)
      ensures Valid() ==> r == Shown(tree, name, kind)
    {
      hide Flatten, Print, BufHolds, TokReadable, TokLookup, Shallow, Shown, GoodTree;
      var s := Contents(json, text);
      var k := LookupJson(s, tokens, name);
      r := None;
      match k {
        case Missing =>
        case Level1Only =>
        case Found(i) =>
          if i < |tokens| && tokens[i].start <= tokens[i].end <= |s| && tokens[i].start < |s| {
            if TokReadable(kind, s, tokens[i]) { r := Some(s[tokens[i].start..tokens[i].end]); }
          }
      }
      if Valid() {
        SameText(json, text, Print(tree));
        TreeShown(tree, name, kind);
      }
    }

    /** CFG_REMOVE: the member that the lookup finds is cut out of the text. A name that is not there
        is logged and left; a value of another kind panics (`ok` is false) before anything is changed. */
    method Remove(name: Name, kind: Kind) returns (ok: bool, pos: nat)
      requires Valid()
      modifies this`tokens, this`tree, json
      ensures ok ==> Valid()
      ensures !Find(old(tree), name).There? ==> ok && pos == 0 && tree == old(tree)
      ensures Find(old(tree), name).There? ==>
                var place, j := Find(old(tree), name).place, Find(old(tree), name).j;
                var ns := MembersAt(old(tree), place);
                && (ok <==> Removable(kind, ns[j].val))
                && (ok ==> tree == CutTree(old(tree), place, j)
                           && pos == GapPos(TextBefore(old(tree), place), ns[..j], Stripped(ns[j + 1..])))
      ensures !ok ==> Valid() && tree == old(tree)
    {
      hide Find, CutTree, MembersAt, WithMembers, MemberPos, GapPos, Stripped, Removable, WellFormed, Print, Flatten,
           BufHolds, PlaceOk, TextBefore;
      var r := Lookup(name);
      ok, pos := true, 0;
      match r {
        case Missing =>
        case Level1Only =>
        case Found(k) => ok, pos := RemoveAt(k, kind, Find(tree, name).place, Find(tree, name).j);
      }
    }

    /** The removal of the member whose value has token `k`. */
    method RemoveAt(k: nat, kind: Kind, ghost place: Place, ghost j: nat) returns (ok: bool, pos: nat)
      requires Valid() && PlaceOk(tree, place) && j < |MembersAt(tree, place)| && k == MemberPos(tree, place, j).k + 1
      modifies this`tokens, this`tree, json
      ensures Valid()
      ensures ok <==> Removable(kind, MembersAt(old(tree), place)[j].val)
      ensures !ok ==> tree == old(tree)
      ensures ok ==> tree == CutTree(old(tree), place, j)
      ensures ok ==> var ns := MembersAt(old(tree), place);
                pos == GapPos(TextBefore(old(tree), place), ns[..j], Stripped(ns[j + 1..]))
    {
      hide Flatten, Print, PrintItems, BufHolds, SiteText, SiteOk, CutText, CutLeft, MemberPos, GapPos, CutTree,
           RemovalSite, RemoveSkip, TextBefore, Removable, Stripped;
      ghost var c := RemovalSite(tree, place, j);
      RemovalTexts(tree, place, j);
      RemovalFacts(tree, place, j, kind);
      var jt, keyJt := tokens[k], tokens[k - 1];
      var text := Contents(json, Print(tree));
      var skip := RemoveSkip(kind, text, jt);
      if skip.None? { return false, 0; }
      CutGood(tree, place, j);
      pos := Cut(json, keyJt, jt, skip.value, c);
      ok := Reparse(CutTree(tree, place, j));
    }

    /** The text of a member is put in at `pos`, in a buffer grown for it, and the result is parsed. */
    method InsertText(pos: nat, id: string, vtext: string) returns (ok: bool)
      requires Valid() && 0 < pos < |Print(tree)| && NoNul(MemberText(id, vtext))
      modifies this`json, this`tokens, json
      ensures json == old(json) || fresh(json)
      ensures var text := InsText(Print(tree), pos, MemberText(id, vtext));
        BufHolds(json, text) && (ok <==> Scan(text).Scanned?) && (ok ==> tokens == Scan(text).toks)
    {
      hide Print, Flatten, Scan, GoodTree, NoNul, InsText, MemberText;
      var sval := MemberText(id, vtext);
      var slen := |sval| + 1; // space for a possible comma
      ghost var text := Print(tree);
      BufferRoom(json, text);
      ReallocJson(json.Length + slen + 1, text);
      Ins(json, pos, sval, text);
      ok := ParseJson(InsText(text, pos, sval));
    }

    /** A member is put in a gap between the members of a place. */
    method InsertMember(pos: nat, id: string, vtext: string, ghost v: Json, ghost place: Place, ghost j: nat)
      returns (ok: bool)
      requires Valid() && PlaceOk(tree, place) && j <= |MembersAt(tree, place)|
      requires pos == GapPos(TextBefore(tree, place), MembersAt(tree, place)[..j], MembersAt(tree, place)[j..])
      requires WellFormed(v) && vtext == Print(v) && StrOk(id) && Depth(v) < Room(place)
      modifies this, json
      ensures json == old(json) || fresh(json)
      ensures ok && Valid() && tree == InsTree(old(tree), place, j, NewItem(id, v))
    {
      hide Print, Flatten, Scan, BufHolds, InsText, MemberText, GapPos, InsTree, TextBefore, WellFormed, StrOk, Depth,
           MembersAt, PlaceOk;
      InsertFacts(tree, place, j, id, v);
      ghost var t := InsTree(tree, place, j, NewItem(id, v));
      ok := InsertText(pos, id, vtext);
      ScanTree(t);
      tree := t;
    }

    /** CFG_CHANGE: the gap at `pos` is filled, unless the name is still there, which is then removed first. */
    method Change(name: Name, kind: Kind, pos: nat, vtext: string, ghost v: Json, ghost place: Place, ghost j: nat)
      returns (ok: bool)
      requires Valid() && PlaceOk(tree, place) && j <= |MembersAt(tree, place)| && (place.Top? <==> name.Flat?)
      requires pos == GapPos(TextBefore(tree, place), MembersAt(tree, place)[..j], MembersAt(tree, place)[j..])
      requires WellFormed(v) && vtext == Print(v) && StrOk(LastKey(name)) && Depth(v) < Room(place)
      requires name.Dotted? ==> FindKey(tree.items, name.id1).Some?
      modifies this, json
      ensures json == old(json) || fresh(json)
      ensures ok <==> Refill(old(tree), name, kind, place, j, v).Some?
      ensures ok ==> Valid() && tree == Refill(old(tree), name, kind, place, j, v).value
      decreases MatchCount(tree, name)
    {
      hide Print, Flatten, GapPos, InsTree, TextBefore, WellFormed, StrOk, Depth, MembersAt, PlaceOk, CutTree, Stripped,
           Removable, MatchCount, MemberPos, BufHolds;
      var r := Lookup(name);
      match r {
        case Missing =>
          ok := InsertMember(pos, FullName(name), vtext, v, place, j);
        case Level1Only =>
          ok := InsertMember(pos, name.id2, vtext, v, place, j);
        case Found(_) =>
          ghost var t0, place1, j1 := tree, Find(tree, name).place, Find(tree, name).j;
          PlaceOfName(tree, name);
          RemovedGap(t0, name, place1, j1);
          var pos1;
          ok, pos1 := Remove(name, kind);
          if ok {
            ok := Change(name, kind, pos1, vtext, v, place1, j1);
          }
      }
    }

    /** Creating id2 under an id1 that is there: the member goes in right after the first character of the
        value of id1, which is '{' only when that value is an object. */
    method SetInside(id1: string, id2: string, vtext: string, ghost v: Json) returns (ok: bool)
      requires Valid() && WellFormed(v) && vtext == Print(v) && StrOk(id2) && Depth(v) < Room(Inside(0))
      requires Find(tree, Dotted(id1, id2)) == OnlyId1
      modifies this, json
      ensures json == old(json) || fresh(json)
      ensures var t, name, i := old(tree), Dotted(id1, id2), FindKey(old(tree).items, id1).value;
        if PlaceOk(t, Inside(i)) then ok && Valid() && tree == InsTree(t, Inside(i), 0, NewItem(id2, v))
        else if FirstIsArray(t, id1) then ok && Keyed(t, name, v)
        else Corrupted(EditedText(t, name, v), ok)
      ensures Corrupts(old(tree), Dotted(id1, id2)) ==> BufHolds(json, EditedText(old(tree), Dotted(id1, id2), v))
    {
      hide Print, Flatten, GapPos, InsTree, TextBefore, WellFormed, StrOk, Depth, MemberPos, BufHolds, InsText,
           MemberText, FindKey, HitSearch, NoNul, EditPos, Scan;
      ghost var t0, i := tree, FindKey(tree.items, id1).value;
      var text := Contents(json, Print(tree));
      var r1 := LookupId1(text, tokens, id1, tree);
      Id1Token(tree, i);
      EditAtToken(tree, i);
      NoNulMember(id2, v);
      var pos := tokens[r1.tok].start + 1;
      ok := InsertText(pos, id2, vtext);
      if PlaceOk(t0, Inside(i)) {
        FirstGap(t0, i);
        InsertFacts(t0, Inside(i), 0, id2, v);
        ScanTree(InsTree(t0, Inside(i), 0, NewItem(id2, v)));
        tree := InsTree(t0, Inside(i), 0, NewItem(id2, v));
      } else if FirstIsArray(t0, id1) {
        ArrayReads(t0, Dotted(id1, id2), v);
      } else if w :| GoodTree(w) && Print(w) == EditedText(t0, Dotted(id1, id2), v) {
        ScanTree(w);
        tree := w;
      }
    }

    /** The store after an edit inside a value that is neither object nor array: the text is known, and whenever it is that
        of a tree it is accepted and the store stands for the tree again. */
    ghost predicate Corrupted(text: string, ok: bool)
      reads this, json
    {
      && BufHolds(json, text)
      && ((exists w :: GoodTree(w) && Print(w) == text) ==> ok && Valid() && Print(tree) == text)
    }

    /** The store after an edit inside an array: it can be read, and the name gives the value that was set. */
    ghost predicate Keyed(t: Json, name: Name, v: Json)
      requires GoodTree(t) && Corrupts(t, name) && FirstIsArray(t, name.id1)
      reads this, json
    {
      && BufHolds(json, EditedText(t, name, v)) && tokens == ArrayToks(t, name, v)
      && Shallow(EditedText(t, name, v), tokens) && ReadsText(EditedText(t, name, v), tokens, name, v)
    }

    /** CFG_SET: a name is created or changed. `ok` is false when the server panics. */
    method Set(name: Name, kind: Kind, vtext: string, ghost v: Json) returns (ok: bool)
      requires Valid() && WellFormed(v) && vtext == Print(v)
      requires StrOk(FullName(name)) && StrOk(LastKey(name)) && Depth(v) < STACK_SIZE - (if name.Flat? then 1 else 2)
      modifies this, json
      ensures json == old(json) || fresh(json)
      ensures if Corrupts(old(tree), name) then
                if FirstIsArray(old(tree), name.id1) then ok && Keyed(old(tree), name, v)
                else Corrupted(EditedText(old(tree), name, v), ok)
              else (ok <==> SetTree(old(tree), name, kind, v).Some?)
                   && (ok ==> Valid() && tree == SetTree(old(tree), name, kind, v).value)
      ensures ok && Valid() ==>
                (Reads(tree, name, v) <==> name.Flat? || Find(old(tree), name).There? || FirstIsObject(old(tree), name.id1))
    {
      hide Print, Flatten, GapPos, InsTree, TextBefore, WellFormed, StrOk, Depth, CutTree, Stripped,
           Removable, MemberPos, BufHolds, Refill, MatchCount, HitSearch, FindKey, Reads, Scan, EditedText, Keyed, Corrupted;
      var r := Lookup(name);
      ghost var t0 := tree;
      match r {
        case Missing =>
          var n := StrLen(json, Print(tree));
          LastGap(tree);
          ok := InsertMember(n - 1, FullName(name), vtext, v, Top, |tree.items|);
        case Level1Only =>
          ok := SetInside(name.id1, name.id2, vtext, v);
        case Found(_) =>
          ghost var place, j := Find(tree, name).place, Find(tree, name).j;
          PlaceOfName(tree, name);
          RemovedGap(t0, name, place, j);
          var pos;
          ok, pos := Remove(name, kind);
          if ok {
            ok := Change(name, kind, pos, vtext, v, place, j);
          }
      }
      if ok && Valid() {
        if Corrupts(t0, name) { SameText(json, Print(tree), EditedText(t0, name, v)); }
        SetReadsExact(t0, name, kind, v, tree);
      }
    }

    /** Reading with a default: a name that does not give a value of its kind is set. */
    method Default(name: Name, kind: Kind, vtext: string, ghost v: Json) returns (existing: string, ok: bool)
      requires Valid() && WellFormed(v) && vtext == Inner(v) && Readable(kind, v)
      requires StrOk(FullName(name)) && StrOk(LastKey(name)) && Depth(v) < STACK_SIZE - (if name.Flat? then 1 else 2)
      modifies this, json
      ensures json == old(json) || fresh(json)
      ensures var t := old(tree);
        if Shown(t, name, kind).Some? then ok && Valid() && tree == t && existing == Shown(t, name, kind).value
        else existing == vtext &&
             (Corrupts(t, name) && FirstIsArray(t, name.id1) ==> ok && Keyed(t, name, v)) &&
             (ok && Valid() ==>
                (Reads(tree, name, v) <==> name.Flat? || Find(t, name).There? || FirstIsObject(t, name.id1)))
    {
      hide Print, WellFormed, StrOk, Depth, Reads, Find, BufHolds, Flatten, SetTree, EditedText, Corrupts;
      LookupTree(tree, name);
      var r := Read(name, kind, Print(tree));
      if r.Some? { return r.value, true; }
      QuotedPrint(kind, v);
      ok := Set(name, kind, Quoted(kind, vtext), v);
      existing := vtext;
    }

    /** Updating: the name is set when it gives another value, or none of its kind. When all goes well the name then gives
        this value, unless it is of the form id1.id2, was not found, and the first id1 holds no object. */
    method Update(name: Name, kind: Kind, vtext: string, ghost v: Json) returns (ok: bool)
      requires Valid() && WellFormed(v) && vtext == Inner(v) && Readable(kind, v)
      requires StrOk(FullName(name)) && StrOk(LastKey(name)) && Depth(v) < STACK_SIZE - (if name.Flat? then 1 else 2)
      modifies this, json
      ensures json == old(json) || fresh(json)
      ensures ok && Valid() ==>
                (Shown(tree, name, kind) == Some(vtext)
                 <==> name.Flat? || Find(old(tree), name).There? || FirstIsObject(old(tree), name.id1))
      ensures Shown(old(tree), name, kind) == Some(vtext) ==> ok && Valid() && tree == old(tree)
      ensures Corrupts(old(tree), name) && FirstIsArray(old(tree), name.id1) ==> ok && Keyed(old(tree), name, v)
    {
      hide Print, WellFormed, StrOk, Depth, Reads, Find, BufHolds, Flatten, SetTree, EditedText, Corrupts, Readable, Inner;
      var existing;
      ghost var t0 := tree;
      existing, ok := Default(name, kind, vtext, v);
      CorruptsUnshown(t0, name, kind);
      QuotedPrint(kind, v);
      if ok && existing != vtext {
        ok := Set(name, kind, Quoted(kind, vtext), v);
      }
      if ok && Valid() { ShownReads(tree, name, kind, v); }
      ShownFound(t0, name, kind);
    }
  }

  /** How a setter writes the characters of a value. */
  function Quoted(kind: Kind, vtext: string): string { if kind.StringKind? then "\"" + vtext + "\"" else vtext }

  lemma QuotedPrint(kind: Kind, v: Json)
    requires Readable(kind, v)
    ensures Quoted(kind, Inner(v)) == Print(v)
  {
  }

  lemma CorruptsUnshown(t: Json, name: Name, kind: Kind)
    requires t.Coll?
    ensures Corrupts(t, name) ==> Shown(t, name, kind) == None
  {
    hide Find;
  }

  lemma ShownFound(t: Json, name: Name, kind: Kind)
    requires t.Coll?
    ensures Shown(t, name, kind).Some? ==> Find(t, name).There?
  {
    hide Find, Readable, Inner;
  }

  /** A buffer holds one text. */
  lemma SameText(a: array<char>, s: string, t: string)
    requires BufHolds(a, s) && BufHolds(a, t)
    ensures s == t
  {
    assert |s| == |t|;
  }

  /** Where the member's text goes is where the token of the value of id1 says. */
  lemma EditAtToken(t: Json, i: nat)
    requires GoodTree(t) && i < |t.items|
    ensures MemberPos(t, Top, i).k + 1 < |Flatten(t, 0)|
    ensures Flatten(t, 0)[MemberPos(t, Top, i).k + 1].start + 1 == EditPos(t.items, i)
  {
    hide Flatten, PrintItems, Lead, MemberPos, Print;
    MemberTokens(t, Top, i);
    MemberOffset(t, Top, i);
  }

  lemma BufferRoom(a: array<char>, text: string)
    requires BufHolds(a, text)
    ensures |text| < a.Length
  {
  }

  lemma NoNulMember(key: string, v: Json)
    requires StrOk(key) && WellFormed(v)
    ensures NoNul(MemberText(key, Print(v)))
  {
    hide Print;
    StrNoNul(key);
    PrintNoNul(v);
  }

  /** Putting a member's text in a gap gives the text of the tree with the member there. */
  lemma InsertFacts(t: Json, place: Place, j: nat, key: string, v: Json)
    requires GoodTree(t) && PlaceOk(t, place) && j <= |MembersAt(t, place)|
    requires WellFormed(v) && StrOk(key) && Depth(v) < Room(place)
    ensures var ns, t' := MembersAt(t, place), InsTree(t, place, j, NewItem(key, v));
            var pos := GapPos(TextBefore(t, place), ns[..j], ns[j..]);
      && GoodTree(t') && NoNul(MemberText(key, Print(v))) && 0 < pos < |Print(t)|
      && InsText(Print(t), pos, MemberText(key, Print(v))) == Print(t')
  {
    hide Print, PrintItem, InsText, MemberText, GapPos, TextBefore, TextAfter, WellFormed, StrOk, Depth, DepthItems,
         ObjectText;
    var ns, it := MembersAt(t, place), NewItem(key, v);
    assert ns == ns[..j] + ns[j..];
    NoNulMember(key, v);
    InsGood(t, place, j, key, v);
    GoodMembers(t, place);
    SameMembers(t, place);
    PlaceText(t, place, ns);
    PlaceText(t, place, ns[..j] + [it] + ns[j..]);
    NewItemText(key, v);
    InsMeaning(TextBefore(t, place), ns[..j], it, ns[j..], TextAfter(t, place), MemberText(key, Print(v)));
  }

  /** The gap that a removal leaves is the gap that the next step fills. */
  lemma RemovedGap(t: Json, name: Name, place: Place, j: nat)
    requires t.Coll? && t.isObj && Find(t, name) == There(place, j)
    ensures var ns, t1 := MembersAt(t, place), CutTree(t, place, j);
      && j <= |MembersAt(t1, place)| && MembersAt(t1, place)[..j] == ns[..j]
      && MembersAt(t1, place)[j..] == Stripped(ns[j + 1..])
      && TextBefore(t1, place) == TextBefore(t, place)
      && MatchCount(t1, name) < MatchCount(t, name)
      && (name.Dotted? ==> FindKey(t1.items, name.id1).Some?)
  {
    hide MatchCount, FindKey, Lead, Stripped, Find;
    CutFewer(t, name, place, j);
    if name.Dotted? { CutKeepsId1(t, name, place, j); }
    if place.Inside? {
      var t1 := CutTree(t, place, j);
      assert t1.items[..place.i] == t.items[..place.i];
    }
  }

  /** The gap before the last '}' of the text. */
  lemma LastGap(t: Json)
    requires t.Coll? && t.isObj
    ensures |Print(t)| - 1 == GapPos(TextBefore(t, Top), t.items[..|t.items|], t.items[|t.items|..])
  {
    hide PrintItems;
    assert t.items[..|t.items|] == t.items;
  }

  /** The gap after the '{' of the i-th top member's value. */
  lemma FirstGap(t: Json, i: nat)
    requires t.Coll? && t.isObj && PlaceOk(t, Inside(i))
    ensures ValOff(true, t.items[i], MemberPos(t, Top, i).off) + 1
         == GapPos(TextBefore(t, Inside(i)), MembersAt(t, Inside(i))[..0], MembersAt(t, Inside(i))[0..])
  {
    hide PrintItem, Flatten, ItemPos, Lead;
    MemberOffset(t, Top, i);
    LeadParts([]);
    assert MembersAt(t, Inside(i))[..0] == [];
  }

  /** The value token of the i-th top member starts inside the text. */
  lemma Id1Token(t: Json, i: nat)
    requires GoodTree(t) && i < |t.items|
    ensures var k, toks, it := MemberPos(t, Top, i).k, Flatten(t, 0), t.items[i];
      && k + 1 < |toks| && toks[k + 1].start + 1 < |Print(t)|
      && (it.val.Coll? ==> toks[k + 1].start == ValOff(true, it, MemberPos(t, Top, i).off))
  {
    hide Flatten, PrintItems, Lead, Trail, StrOk, MemberPos;
    var it := t.items[i];
    assert t.items == t.items[..i] + [it] + t.items[i + 1..];
    assert WellFormedItems(true, t.items);
    assert WellFormed(it.val);
    TopText(t.items);
    PrintAround(t.items[..i], it, t.items[i + 1..]);
    MemberTokens(t, Top, i);
    MemberOffset(t, Top, i);
    FirstChar(it.val);
  }

  ghost function RemovalSite(t: Json, place: Place, j: nat): Site
    requires t.Coll? && t.isObj && PlaceOk(t, place) && j < |MembersAt(t, place)|
  {
    var ns := MembersAt(t, place);
    MemberSite(TextBefore(t, place), ns[..j], ns[j], ns[j + 1..], TextAfter(t, place))
  }

  /** What the removal of a member makes of the text. */
  lemma RemovalTexts(t: Json, place: Place, j: nat)
    requires GoodTree(t) && PlaceOk(t, place) && j < |MembersAt(t, place)|
    ensures var c, ns := RemovalSite(t, place, j), MembersAt(t, place);
      && SiteText(c) == Print(t) && SiteOk(c) && CutText(c) == Print(CutTree(t, place, j))
      && |CutLeft(c)| == GapPos(TextBefore(t, place), ns[..j], Stripped(ns[j + 1..]))
  {
    hide Print, PrintItems, ObjectText, WellFormed, SiteText, SiteOk, CutText, CutLeft, Lead, Trail, TextBefore, TextAfter,
         GapPos, StrOk, Depth, DepthItems;
    var ns := MembersAt(t, place);
    var A, a, it, b, B := TextBefore(t, place), ns[..j], ns[j], ns[j + 1..], TextAfter(t, place);
    assert ns == a + [it] + b;
    GoodMembers(t, place);
    SameMembers(t, place);
    PlaceText(t, place, ns);
    SiteIsObject(A, a, it, b, B);
    CutMeaning(A, a, it, b, B);
    PlaceText(t, place, a + Stripped(b));
  }

  /** What a removal relies on: where the key is, that the setter accepts exactly what it may remove, and that the value's
      token with its quotes spans the value. */
  predicate TokensFit(kind: Kind, text: string, keyJt: Tok, jt: Tok, c: Site, v: Json) {
    && 0 < jt.start < |text| && jt.start <= jt.end
    && keyJt.start == |c.left| + |c.pre| + 1 && keyJt.end == keyJt.start + |c.key|
    && var skip := RemoveSkip(kind, text, jt);
       (skip.Some? <==> Removable(kind, v)) && (skip.Some? ==> jt.end - jt.start + skip.value == |c.val|)
  }

  /** All that the removal of a member needs to know of its tokens. */
  lemma RemovalFacts(t: Json, place: Place, j: nat, kind: Kind)
    requires GoodTree(t) && PlaceOk(t, place) && j < |MembersAt(t, place)|
    ensures var k, toks := MemberPos(t, place, j).k, Flatten(t, 0);
      k + 1 < |toks|
      && TokensFit(kind, Print(t), toks[k], toks[k + 1], RemovalSite(t, place, j), MembersAt(t, place)[j].val)
  {
    hide Flatten, Print, PrintItems, ObjectText, WellFormed, Lead, Trail, RemoveSkip, TextBefore, TextAfter, MemberPos,
         StrOk, Depth, DepthItems;
    var ns := MembersAt(t, place);
    var A, a, it, b, B := TextBefore(t, place), ns[..j], ns[j], ns[j + 1..], TextAfter(t, place);
    assert ns == a + [it] + b;
    GoodMembers(t, place);
    SameMembers(t, place);
    PlaceText(t, place, ns);
    MemberTokens(t, place, j);
    MemberOffset(t, place, j);
    SkipMeaning(kind, Print(t), A, a, it, b, B, ValOff(true, it, MemberPos(t, place, j).off));
  }
}
