/** What can be read where another member's text was put into a value that is no object. */
module JsonReread {
  import opened JsonText
  import opened JsonUnique
  import opened JsonEdit
  import opened JsonFront

  // ---- the edited value, read again --------------------------------------------------------------------

  predicate NoObject(v: Json) { !(v.Coll? && v.isObj) }

  /** Where the new text goes: after the first character that the value's token spans. */
  function Into(v: Json): nat { if v.Str? then 2 else 1 }

  /** Values that end where the new text goes. */
  predicate Short(v: Json) { (v.Prim? && |v.text| == 1) || v == Str("") }

  /** A quote among these characters is behind a backslash. */
  ghost predicate QuotesEscaped(s: string) { forall j :: 0 <= j < |s| && s[j] == '"' ==> j > 0 && s[j - 1] == '\\' }

  lemma {:induction false} StrEscapes(s: string)
    requires StrOk(s)
    ensures QuotesEscaped(s)
    decreases |s|
  {
    if |s| > 0 {
      var n := if s[0] == '\\' then 2 else 1;
      StrEscapes(s[n..]);
      assert forall j :: n <= j < |s| ==> s[j] == s[n..][j - n];
    }
  }

  /** What is left of a value whose text was edited, when something can be read there at all: the value itself, with
      the new text behind it, or the first character of a string. */
  lemma Reread(v0: Json, tail0: string, id2: string, pv: string, w: Json, tail1: string)
    requires NoObject(v0) && WellFormed(v0) && |tail0| > 0 && Follows(tail0[0]) && StrOk(id2)
    requires WellFormed(w) && |tail1| > 0 && Follows(tail1[0])
    requires InsText(Print(v0) + tail0, Into(v0), MemberText(id2, pv)) == Print(w) + tail1
    ensures if Short(v0) then w == v0 && tail0[0] == '}' && tail1 == "," + MemberText(id2, pv) + tail0
            else v0.Str? && w.Str? && 1 <= |w.text| <= 2 && QuotesEscaped(v0.text[1..])
  {
    hide WellFormedItems, PrintItems, StrOk, QuotesEscaped, InsText, MemberText;
    assert v0 == Str("") ==> Print(v0) == "\"\"";
    match v0
    case Prim(p) => PrimReread(p, tail0, id2, pv, w, tail1);
    case Str(c) => if |c| == 0 { EmptyReread(tail0, id2, pv, w, tail1); } else { StrReread(c, tail0, id2, pv, w, tail1); }
    case Coll(_, items) => ArrayReread(items, tail0, id2, pv, w, tail1);
  }

  lemma PrimReread(p: string, tail0: string, id2: string, pv: string, w: Json, tail1: string)
    requires PrimOk(p) && |tail0| > 0 && Follows(tail0[0]) && WellFormed(w) && |tail1| > 0 && Follows(tail1[0])
    requires InsText(p + tail0, 1, MemberText(id2, pv)) == Print(w) + tail1
    ensures |p| == 1 && w == Prim(p) && tail0[0] == '}' && tail1 == "," + MemberText(id2, pv) + tail0
  {
    hide WellFormedItems, PrintItems, StrOk;
    var local, rest := p + tail0, Print(w) + tail1;
    assert local[0] == p[0] && !IsDelim(p[0]);
    assert |p| > 1 ==> local[1] == p[1] && !IsDelim(p[1]);
    assert |p| == 1 ==> local[1] == tail0[0];
    assert rest[0] == p[0] && rest[1] == (if local[1] == '}' then ',' else '"');
    KindOfFirst(w);
    assert Print(w)[0] == rest[0];
    PrimEnd(w.text, tail1);
    assert rest[1] == tail1[0] && tail1 == rest[1..] && p == w.text;
  }

  lemma PrimEnd(q: string, tail: string)
    requires PrimOk(q) && |tail| > 0
    ensures |q| > 1 ==> !IsDelim((q + tail)[1])
    ensures |q| == 1 ==> (q + tail)[1] == tail[0]
  {
    assert |q| > 1 ==> (q + tail)[1] == q[1];
  }

  /** A string is read up to its first bare quote. */
  lemma StrReads(c: string, more: string, w: Json, tail1: string)
    requires StrOk(c) && WellFormed(w) && |tail1| > 0 && |more| > 0
    requires "\"" + c + "\"" + more == Print(w) + tail1
    ensures w == Str(c) && tail1 == more
  {
    hide StrOk, WellFormedItems, Print, PrintItems;
    KindOfFirst(w);
    assert Print(w)[0] == (Print(w) + tail1)[0] == '"';
    QuotedReads(c, more, w.text, tail1) by { StrPrint(w); }
  }

  lemma StrPrint(w: Json)
    requires w.Str? && WellFormed(w)
    ensures Print(w) == "\"" + w.text + "\"" && StrOk(w.text)
  {
  }

  lemma QuotedReads(c: string, more: string, q: string, tail1: string)
    requires StrOk(c) && StrOk(q) && |tail1| > 0 && |more| > 0
    requires "\"" + c + "\"" + more == "\"" + q + "\"" + tail1
    ensures q == c && tail1 == more
  {
    hide At, StrOk;
    var s := "\"" + c + "\"" + more;
    Whole(s, "\"" + c + "\"", more);
    Whole(s, "\"" + q + "\"", tail1);
    StrParts(s, 0, c);
    StrParts(s, 0, q);
    StrUnique(s, 1, c, q);
    assert s[|c| + 2..] == more && s[|c| + 2..] == tail1;
  }

  lemma EmptyReread(tail0: string, id2: string, pv: string, w: Json, tail1: string)
    requires |tail0| > 0 && WellFormed(w) && |tail1| > 0 && Follows(tail1[0])
    requires InsText("\"\"" + tail0, 2, MemberText(id2, pv)) == Print(w) + tail1
    ensures w == Str("") && tail0[0] == '}' && tail1 == "," + MemberText(id2, pv) + tail0
  {
    hide WellFormed;
    var mt := MemberText(id2, pv);
    var piece := if tail0[0] == '}' then "," + mt else mt + ",";
    var more := piece + tail0;
    assert "\"" + "" + "\"" + more == InsText("\"\"" + tail0, 2, mt);
    StrReads("", more, w, tail1);
  }

  /** The first element of an array is never read as a key. */
  lemma ArrayReread(items: seq<Item>, tail0: string, id2: string, pv: string, w: Json, tail1: string)
    requires WellFormedItems(false, items) && StrOk(id2) && |tail0| > 0 && WellFormed(w)
    ensures InsText("[" + PrintItems(false, items) + "]" + tail0, 1, MemberText(id2, pv)) != Print(w) + tail1
  {
    hide WellFormed, WellFormedItems, PrintItems, StrOk, At;
    var body, mt := PrintItems(false, items) + "]" + tail0, MemberText(id2, pv);
    ArrayStart(items, tail0);
    BracketAssoc("[", PrintItems(false, items), "]", tail0);
    ArrayEdit(body, mt);
    KeyAssoc("[", id2, pv, body);
    var s := "[" + (mt + ",") + body;
    if s == Print(w) + tail1 {
      KindOfFirst(w);
      assert Print(w)[0] == s[0];
      WellFormedMembers(w);
      Whole(s, Print(w), tail1);
      CollParts(s, 0, false, w.items);
      Whole(s, "[", "\"" + id2 + "\"" + (":" + pv + "," + body));
      ElementReread(s, w.items, id2, ":" + pv + "," + body);
    }
  }

  lemma ArrayStart(items: seq<Item>, tail0: string)
    requires WellFormedItems(false, items)
    ensures var body := PrintItems(false, items) + "]" + tail0; |body| > 0 && body[0] != '}'
  {
    hide WellFormed, Print;
    if |items| > 0 {
      var it := items[0];
      FirstChar(it.val);
      assert PrintItem(false, it)[0] == if |it.pre| > 0 then it.pre[0] else Print(it.val)[0];
      assert PrintItems(false, items)[0] == PrintItem(false, it)[0];
    }
  }

  lemma ArrayEdit(body: string, mt: string)
    requires |body| > 0 && body[0] != '}'
    ensures InsText("[" + body, 1, mt) == "[" + (mt + ",") + body
  {
    assert ("[" + body)[..1] == "[" && ("[" + body)[1..] == body;
  }

  lemma BracketAssoc(o: string, b: string, c: string, tail: string)
    ensures o + b + c + tail == o + (b + c + tail)
  {
  }

  lemma KeyAssoc(o: string, id: string, pv: string, body: string)
    ensures o + (MemberText(id, pv) + ",") + body == o + ("\"" + id + "\"" + (":" + pv + "," + body))
  {
  }

  lemma ElementReread(s: string, ws: seq<Item>, id2: string, more: string)
    requires WellFormedItems(false, ws) && StrOk(id2) && |more| > 0
    requires At(s, 1, PrintItems(false, ws) + "]") && At(s, 1, "\"" + id2 + "\"" + more)
    ensures s[|id2| + 3] == more[0] && more[0] != ':'
  {
    hide WellFormed, WellFormedItems, PrintItem, PrintItems, StrOk, At, AfterFirst, Print;
    AtSplit(s, 1, "\"" + id2 + "\"", more);
    AtIndex(s, |id2| + 3, more, 0);
    StrParts(s, 1, id2);
    AtIndex(s, 1, "\"" + id2 + "\"", 0);
    if |ws| == 0 {
      Closed(s, 1, false);
    } else {
      WellFormedTail(false, ws);
      AfterFirstItem(s, 1, false, ws);
      AtItem(s, 1, false, ws[0], AfterFirst(false, ws));
      if |ws[0].pre| > 0 { AtIndex(s, 1, ws[0].pre, 0); }
      FirstElement(s, ws[0], id2);
    }
  }

  lemma FirstElement(s: string, it: Item, id2: string)
    requires LayoutOk(false, it) && WellFormed(it.val) && it.pre == "" && |s| > 1 && s[1] == '"'
    requires At(s, 1, Print(it.val)) && At(s, 1 + |Print(it.val)|, it.post)
    requires AfterItem(s, 1 + |PrintItem(false, it)|, false)
    requires StrOk(id2) && At(s, 2, id2) && |id2| + 2 < |s| && s[|id2| + 2] == '"'
    ensures |id2| + 3 < |s| && s[|id2| + 3] != ':'
  {
    hide WellFormedItems, PrintItems, StrOk, At;
    KindOfFirst(it.val);
    AtIndex(s, 1, Print(it.val), 0);
    StrParts(s, 1, it.val.text);
    StrUnique(s, 2, id2, it.val.text);
    if |it.post| > 0 { AtIndex(s, 1 + |Print(it.val)|, it.post, 0); }
  }

  lemma StrReread(c: string, tail0: string, id2: string, pv: string, w: Json, tail1: string)
    requires |c| > 0 && StrOk(c) && |tail0| > 0 && StrOk(id2) && WellFormed(w) && |tail1| > 0 && Follows(tail1[0])
    requires InsText("\"" + c + "\"" + tail0, 2, MemberText(id2, pv)) == Print(w) + tail1
    ensures w.Str? && 1 <= |w.text| <= 2 && QuotesEscaped(c[1..])
  {
    hide WellFormed, StrOk, QuotesEscaped;
    var c0, c1, mt := c[0], c[1..], MemberText(id2, pv);
    var local, end := "\"" + c + "\"" + tail0, c1 + "\"" + tail0;
    assert local[..2] == "\"" + [c0] && local[2..] == end && end[0] == if |c1| > 0 then c1[0] else '"';
    assert local[2] == end[0] && local[1] == c0;
    FirstOfStr(c);
    if end[0] == '}' && c0 != '{' {
      ReadComma(c0, id2, pv, end, w, tail1);
    } else if c0 == '\\' {
      ReadEscaped(id2, pv, end, w, tail1);
    } else {
      ReadOne(c0, id2, pv, if end[0] == '}' then "" else ",", end, w, tail1);
    }
  }

  lemma FirstOfStr(c: string)
    requires |c| > 0 && StrOk(c)
    ensures c[0] != '"' && c[0] != '\0' && (c[0] == '\\' ==> |c| > 1)
    ensures c[0] != '\\' || c[1] != '"' ==> QuotesEscaped(c[1..])
  {
    StrEscapes(c);
    var c1 := c[1..];
    forall j | 0 <= j < |c1| && c1[j] == '"' && (c[0] != '\\' || c[1] != '"') ensures j > 0 && c1[j - 1] == '\\' {
      assert c[j + 1] == '"';
    }
  }

  lemma ReadOne(c0: char, id2: string, pv: string, comma: string, end: string, w: Json, tail1: string)
    requires c0 != '"' && c0 != '\0' && c0 != '\\' && WellFormed(w) && |tail1| > 0
    requires ("\"" + [c0]) + (MemberText(id2, pv) + comma) + end == Print(w) + tail1
    ensures w == Str([c0])
  {
    hide WellFormed, Print;
    var more := id2 + "\":" + pv + comma + end;
    assert "\"" + [c0] + "\"" + more == ("\"" + [c0]) + (MemberText(id2, pv) + comma) + end;
    StrReads([c0], more, w, tail1);
  }

  lemma ReadComma(c0: char, id2: string, pv: string, end: string, w: Json, tail1: string)
    requires c0 != '"' && c0 != '\0' && WellFormed(w) && |tail1| > 0
    requires ("\"" + [c0]) + ("," + MemberText(id2, pv)) + end == Print(w) + tail1
    ensures w == Str([c0, ','])
  {
    hide WellFormed, Print;
    var more := id2 + "\":" + pv + end;
    assert [c0, ','][1..] == [','] && [c0, ','][2..] == [] && [','][1..] == [];
    assert "\"" + [c0, ','] + "\"" + more == ("\"" + [c0]) + ("," + MemberText(id2, pv)) + end;
    StrReads([c0, ','], more, w, tail1);
  }

  /** A backslash escapes the quote that was to open the key, which then closes the string: a colon follows it. */
  lemma ReadEscaped(id2: string, pv: string, end: string, w: Json, tail1: string)
    requires StrOk(id2) && WellFormed(w) && |tail1| > 0
    requires ("\"" + ['\\']) + (MemberText(id2, pv) + ",") + end == Print(w) + tail1
    ensures tail1[0] == ':'
  {
    hide WellFormed, Print;
    var c, more := "\\\"" + id2, ":" + pv + "," + end;
    assert c[2..] == id2;
    assert "\"" + c + "\"" + more == ("\"" + ['\\']) + (MemberText(id2, pv) + ",") + end;
    StrReads(c, more, w, tail1);
  }
}
