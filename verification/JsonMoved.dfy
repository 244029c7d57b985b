/** A text in which setting a name makes the quotes change places. */
module JsonMoved {
  import opened Options
  import opened JsonText
  import opened JsonLookup
  import opened JsonEdit
  import opened JsonSet
  import opened JsonFront
  import opened JsonScalar

  lemma OneText(it: Item, text: string)
    requires it.pre == it.gap == it.post == "" && text == "\"" + it.key + "\":" + Print(it.val)
    ensures PrintItems(true, [it]) == text && Print(Coll(true, [it])) == "{" + text + "}"
  {
    hide Print;
    OnePrint(it);
    CollPrint([it]);
    ItemText(it);
  }

  lemma ItemText(it: Item)
    requires it.pre == it.gap == it.post == ""
    ensures PrintItem(true, it) == "\"" + it.key + "\":" + Print(it.val)
  {
    hide Print;
    NewItemText(it.key, it.val);
  }

  lemma ThreeText(a: Item, b: Item, c: Item)
    ensures Print(Coll(true, [a, b, c]))
         == "{" + (PrintItem(true, a) + "," + (PrintItem(true, b) + "," + PrintItem(true, c)) + "}")
  {
    hide PrintItem;
    assert [a, b, c][1..] == [b, c] && [b, c][1..] == [c];
    OnePrint(c);
    CollPrint([a, b, c]);
  }

  lemma PlainStr(s: string)
    requires |s| <= 4 && forall i :: 0 <= i < |s| ==> s[i] != '"' && s[i] != '\\' && s[i] != '\0'
    ensures StrOk(s)
  {
    if |s| > 0 { PlainStr(s[1..]); }
  }

  const XY: seq<Item> := [NewItem("a", Str("xy"))]

  const ODD: Json := Coll(true, [NewItem(":1,", Str(":"))])

  const MOVED: seq<Item> := [NewItem("a", Str("x")), NewItem(":{", Prim("1")), NewItem(":", Str("},y"))]

  lemma OddWellFormed()
    ensures WellFormed(Coll(true, XY)) && WellFormed(ODD) && WellFormed(Coll(true, MOVED))
  {
    hide StrOk;
    PlainStr("xy"); PlainStr("x"); PlainStr("a"); PlainStr(":1,"); PlainStr(":"); PlainStr(":{"); PlainStr("},y");
  }

  lemma OddTexts()
    ensures Print(Coll(true, XY)) == "{\"a\":\"xy\"}" && Print(ODD) == "{\":1,\":\":\"}"
    ensures Print(Coll(true, MOVED)) == "{\"a\":\"x\",\":{\":1,\":\":\"},y\"}"
  {
    hide PrintItem, PrintItems;
    OneText(XY[0], "\"a\":\"xy\"");
    OneText(ODD.items[0], "\":1,\":\":\"");
    ItemText(MOVED[0]);
    ItemText(MOVED[1]);
    ItemText(MOVED[2]);
    ThreeText(MOVED[0], MOVED[1], MOVED[2]);
  }

  lemma XyHead()
    ensures EditPos(XY, 0) == 7
  {
    assert XY[..0] == [];
    LeadParts([]);
  }

  /** {"a":"xy"} with a."," set to {":1,":":"}: the quotes change places, and what was a string and a member of an object is
      read as three members. */
  lemma QuotesChangePlaces()
    ensures WellFormed(Coll(true, XY)) && WellFormed(ODD) && WellFormed(Coll(true, MOVED))
    ensures Corrupts(Coll(true, XY), Dotted("a", ","))
    ensures EditedText(Coll(true, XY), Dotted("a", ","), ODD) == Print(Coll(true, MOVED))
  {
    hide Print, WellFormed, InsText, MemberText, EditPos;
    OddWellFormed();
    OddTexts();
    XyHead();
    assert XY[1..] == [];
    assert FindKey(XY, "a") == Some(0);
    assert HitSearch(XY, "a", ",", false) == None;
    MovedText();
  }

  lemma MovedText()
    ensures InsText("{\"a\":\"xy\"}", 7, MemberText(",", "{\":1,\":\":\"}")) == "{\"a\":\"x\",\":{\":1,\":\":\"},y\"}"
  {
  }

  /** {"a":[2]} with a.b set to 1 becomes {"a":["b":1,2]}. */
  lemma KeyInArray()
    ensures var t := Coll(true, [NewItem("a", Coll(false, [Item("", "", "", Prim("2"), "")]))]);
      && WellFormed(t) && Corrupts(t, Dotted("a", "b"))
      && Print(t) == "{\"a\":[2]}" && EditedText(t, Dotted("a", "b"), Prim("1")) == "{\"a\":[\"b\":1,2]}"
  {
    hide InsText, MemberText, Print, EditPos, WellFormed;
    var el := Item("", "", "", Prim("2"), "");
    var arr := Coll(false, [el]);
    var items := [NewItem("a", arr)];
    ElementText(el);
    OneText(items[0], "\"a\":[2]");
    ArrayHead(items, arr);
    assert items[1..] == [] && FindKey(items, "a") == Some(0) && HitSearch(items, "a", "b", false) == None;
    KeyText();
  }

  lemma ElementText(el: Item)
    requires el == Item("", "", "", Prim("2"), "")
    ensures Print(Coll(false, [el])) == "[2]" && Print(Prim("1")) == "1"
  {
    assert PrintItems(false, [el]) == PrintItem(false, el) == "2";
  }

  lemma ArrayHead(items: seq<Item>, arr: Json)
    requires items == [NewItem("a", arr)] && arr == Coll(false, [Item("", "", "", Prim("2"), "")])
    ensures EditPos(items, 0) == 6 && WellFormed(Coll(true, items))
  {
    PlainStr("a");
    assert items[..0] == [];
    LeadParts([]);
  }

  lemma KeyText()
    ensures InsText("{\"a\":[2]}", 6, MemberText("b", "1")) == "{\"a\":[\"b\":1,2]}"
  {
  }
}
