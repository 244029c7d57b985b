/** What a caller gets from setting a name: one member changed and nothing else, and when reading it
    back gives the value that was set. */
module JsonSetLaws {
  import opened Options
  import opened JsonText
  import opened JsonLookup
  import opened JsonEdit
  import opened JsonSet

  // ---- members up to the whitespace before them ------------------------------------------------

  /** The members without the whitespace before each key: all that an edit next to a member can change of it. */
  function BareItems(items: seq<Item>): (r: seq<Item>)
    ensures |r| == |items|
  {
    if |items| == 0 then [] else [items[0].(pre := "")] + BareItems(items[1..])
  }

  lemma {:induction false} BareConcat(a: seq<Item>, b: seq<Item>)
    ensures BareItems(a + b) == BareItems(a) + BareItems(b)
  {
    if |a| == 0 {
      assert a + b == b;
    } else {
      assert (a + b)[1..] == a[1..] + b;
      BareConcat(a[1..], b);
    }
  }

  lemma BareAround(a: seq<Item>, it: Item, b: seq<Item>)
    ensures BareItems(a + [it] + b) == BareItems(a) + [it.(pre := "")] + BareItems(b)
  {
    BareConcat(a + [it], b);
    BareConcat(a, [it]);
    assert [it][1..] == [];
  }

  lemma BareStripped(b: seq<Item>)
    ensures BareItems(Stripped(b)) == BareItems(b)
  {
    if |b| > 0 { StrippedSome(b); }
  }

  lemma {:induction false} BareCount(items: seq<Item>, id: string)
    ensures Count(BareItems(items), id) == Count(items, id)
  {
    if |items| > 0 { BareCount(items[1..], id); }
  }

  lemma {:induction false} CountFind(items: seq<Item>, id: string)
    ensures FindKey(items, id).Some? <==> Count(items, id) > 0
  {
    if |items| > 0 { CountFind(items[1..], id); }
  }

  // ---- updating one member ---------------------------------------------------------------------

  /** The member list with `id` updated: its last occurrence holds the new member, the others are gone,
      and every other member is as it was and where it was. */
  function Updated(items: seq<Item>, id: string, it: Item): seq<Item>
    requires Count(items, id) > 0
  {
    if items[0].key != id then [items[0]] + Updated(items[1..], id, it)
    else if Count(items[1..], id) == 0 then [it] + items[1..]
    else Updated(items[1..], id, it)
  }

  function Others(items: seq<Item>, id: string): seq<Item> {
    if |items| == 0 then []
    else (if items[0].key == id then [] else [items[0]]) + Others(items[1..], id)
  }

  /** An update keeps all other members and their order, and leaves exactly one of that name. */
  lemma {:induction false} UpdatedKeepsOthers(items: seq<Item>, id: string, it: Item)
    requires Count(items, id) > 0 && it.key == id
    ensures Others(Updated(items, id, it), id) == Others(items, id)
    ensures Count(Updated(items, id, it), id) == 1
    ensures FindKey(Updated(items, id, it), id).Some?
    ensures Updated(items, id, it)[FindKey(Updated(items, id, it), id).value] == it
  {
    var u := Updated(items, id, it);
    if items[0].key != id {
      UpdatedKeepsOthers(items[1..], id, it);
      assert u[1..] == Updated(items[1..], id, it);
    } else if Count(items[1..], id) == 0 {
      assert u[1..] == items[1..];
    } else {
      UpdatedKeepsOthers(items[1..], id, it);
    }
  }

  /** A member that is there once keeps its place. */
  lemma {:induction false} UpdatedInPlace(items: seq<Item>, id: string, it: Item)
    requires Count(items, id) == 1
    ensures FindKey(items, id).Some? && Updated(items, id, it) == items[FindKey(items, id).value := it]
  {
    CountFind(items, id);
    if items[0].key != id {
      UpdatedInPlace(items[1..], id, it);
      var j := FindKey(items[1..], id).value;
      assert items[j + 1 := it] == [items[0]] + items[1..][j := it];
    } else {
      assert items[0 := it] == [it] + items[1..];
    }
  }

  /** Updating past members of other names. */
  lemma {:induction false} UpdatedAfter(a: seq<Item>, b: seq<Item>, id: string, it: Item)
    requires Count(a, id) == 0 && Count(b, id) > 0
    ensures Count(a + b, id) > 0 && Updated(a + b, id, it) == a + Updated(b, id, it)
  {
    CountConcat(a, b, id);
    if |a| == 0 {
      assert a + b == b;
    } else {
      assert (a + b)[1..] == a[1..] + b;
      UpdatedAfter(a[1..], b, id, it);
    }
  }

  // ---- what the setters do to one object ---------------------------------------------------------

  /** Cutting and refilling within one member list. */
  function Swapped(items: seq<Item>, id: string, kind: Kind, v: Json): Option<seq<Item>>
    requires Count(items, id) > 0
    decreases Count(items, id)
  {
    CountFind(items, id);
    var j := FindKey(items, id).value;
    if !Removable(kind, items[j].val) then None
    else
      var cut := items[..j] + Stripped(items[j + 1..]);
      CountCut(items, j, id);
      if Count(cut, id) > 0 then Swapped(cut, id, kind, v)
      else Some(cut[..j] + [NewItem(id, v)] + cut[j..])
  }

  /** Cutting every occurrence and refilling the last gap is the update of that one member. */
  lemma {:induction false} SwappedIsUpdated(items: seq<Item>, id: string, kind: Kind, v: Json)
    requires Count(items, id) > 0 && Swapped(items, id, kind, v).Some?
    ensures Count(BareItems(items), id) > 0
    ensures BareItems(Swapped(items, id, kind, v).value) == Updated(BareItems(items), id, NewItem(id, v))
    decreases Count(items, id)
  {
    hide Removable, Stripped;
    CountFind(items, id);
    BareCount(items, id);
    var j, put := FindKey(items, id).value, NewItem(id, v);
    var a, it, b := items[..j], items[j], items[j + 1..];
    var cut := a + Stripped(b);
    CountCut(items, j, id);
    assert items == a + [it] + b;
    NoneBefore(a, id);
    CountConcat(a, Stripped(b), id);
    StrippedCount(b, id);
    UpdatedBare(a, it, b, id, put);
    BareConcat(a, Stripped(b));
    BareStripped(b);
    if Count(cut, id) > 0 {
      SwappedIsUpdated(cut, id, kind, v);
      BareCount(cut, id);
      BareCount(a, id);
      BareCount(b, id);
      UpdatedAfter(BareItems(a), BareItems(b), id, put);
    } else {
      assert cut[..j] == a && cut[j..] == Stripped(b);
      BareAround(a, put, Stripped(b));
    }
  }

  /** Updating a list at its first occurrence. */
  lemma UpdatedBare(a: seq<Item>, it: Item, b: seq<Item>, id: string, put: Item)
    requires Count(a, id) == 0 && it.key == id
    ensures Count(BareItems(a + [it] + b), id) > 0
    ensures Updated(BareItems(a + [it] + b), id, put)
         == BareItems(a) + if Count(b, id) == 0 then [put] + BareItems(b)
                           else (BareCount(b, id); Updated(BareItems(b), id, put))
  {
    var A, B, x := BareItems(a), BareItems(b), it.(pre := "");
    BareAround(a, it, b);
    BareCount(a, id);
    BareCount(b, id);
    assert A + [x] + B == A + ([x] + B) && ([x] + B)[1..] == B;
    UpdatedAfter(A, [x] + B, id, put);
  }

  lemma StrippedCount(b: seq<Item>, id: string)
    ensures Count(Stripped(b), id) == Count(b, id)
  {
    if |b| > 0 { StrippedSome(b); }
  }

  lemma {:induction false} NoneBefore(a: seq<Item>, id: string)
    requires forall i :: 0 <= i < |a| ==> a[i].key != id
    ensures Count(a, id) == 0
  {
    if |a| > 0 { NoneBefore(a[1..], id); }
  }

  // ---- setting an undotted name ---------------------------------------------------------------------

  lemma TopCount(t: Json, id: string)
    requires t.Coll?
    ensures Find(t, Flat(id)).There? <==> Count(t.items, id) > 0
    ensures Find(t, Flat(id)).There? ==> Find(t, Flat(id)) == There(Top, FindKey(t.items, id).value)
  {
    CountFind(t.items, id);
  }

  lemma {:induction false} TopReplaced(t: Json, id: string, kind: Kind, v: Json)
    requires t.Coll? && t.isObj && Count(t.items, id) > 0
    ensures Find(t, Flat(id)).There?
    ensures ReplaceTree(t, Flat(id), kind, Find(t, Flat(id)).place, Find(t, Flat(id)).j, v)
         == match Swapped(t.items, id, kind, v)
            case None => None
            case Some(ns) => Some(Coll(true, ns))
    decreases Count(t.items, id)
  {
    TopCount(t, id);
    var j := FindKey(t.items, id).value;
    if Removable(kind, t.items[j].val) {
      var t1 := CutTree(t, Top, j);
      CountCut(t.items, j, id);
      TopCount(t1, id);
      if Count(t1.items, id) > 0 {
        TopReplaced(t1, id, kind, v);
      }
    }
  }

  /** Setting an undotted name: the top members are updated in that one member, or get it as their last. */
  lemma SetTop(t: Json, id: string, kind: Kind, v: Json)
    requires t.Coll? && t.isObj && SetTree(t, Flat(id), kind, v).Some?
    ensures var items, put := BareItems(t.items), NewItem(id, v);
            BareItems(SetTree(t, Flat(id), kind, v).value.items)
            == if Count(items, id) > 0 then Updated(items, id, put) else items + [put]
  {
    TopCount(t, id);
    BareCount(t.items, id);
    if Count(t.items, id) > 0 {
      TopReplaced(t, id, kind, v);
      SwappedIsUpdated(t.items, id, kind, v);
    } else {
      var n := |t.items|;
      assert t.items[..n] == t.items && t.items[n..] == [];
      BareAround(t.items, NewItem(id, v), []);
    }
  }

  predicate AllRemovable(items: seq<Item>, id: string, kind: Kind) {
    forall i :: 0 <= i < |items| && items[i].key == id ==> Removable(kind, items[i].val)
  }

  /** ... and it goes through exactly when the values it replaces can all be removed. */
  lemma {:induction false} SwapPanics(items: seq<Item>, id: string, kind: Kind, v: Json)
    requires Count(items, id) > 0
    ensures Swapped(items, id, kind, v).Some?
        <==> AllRemovable(items, id, kind)
    decreases Count(items, id)
  {
    hide AllRemovable, Count, FindKey;
    CountFind(items, id);
    var j := FindKey(items, id).value;
    var cut := items[..j] + Stripped(items[j + 1..]);
    CountCut(items, j, id);
    RemovableCut(items, j, id, kind);
    if Count(cut, id) > 0 {
      SwapPanics(cut, id, kind, v);
    } else {
      CountFind(cut, id);
      NoneRemovable(cut, id, kind);
    }
  }

  lemma NoneRemovable(items: seq<Item>, id: string, kind: Kind)
    requires FindKey(items, id).None?
    ensures AllRemovable(items, id, kind)
  {
    forall i | 0 <= i < |items| ensures items[i].key != id { NotFound(items, id, i); }
  }

  lemma {:induction false} NotFound(items: seq<Item>, id: string, i: nat)
    requires FindKey(items, id).None? && i < |items|
    ensures items[i].key != id
  {
    if i > 0 { NotFound(items[1..], id, i - 1); }
  }

  lemma RemovableCut(items: seq<Item>, j: nat, id: string, kind: Kind)
    requires j < |items| && items[j].key == id
    ensures AllRemovable(items, id, kind) <==>
            Removable(kind, items[j].val) && AllRemovable(items[..j] + Stripped(items[j + 1..]), id, kind)
  {
    hide Removable, Stripped;
    var a, b := items[..j], items[j + 1..];
    var cut := a + Stripped(b);
    if |b| > 0 { StrippedSome(b); } else { StrippedNone(); }
    assert forall i :: 0 <= i < j ==> cut[i] == items[i];
    assert forall i :: j <= i < |cut| ==> cut[i].key == items[i + 1].key && cut[i].val == items[i + 1].val;
    assert forall i :: j < i < |items| ==> items[i].key == cut[i - 1].key && items[i].val == cut[i - 1].val;
  }

  // ---- setting id1.id2 inside the object at id1 --------------------------------------------------------

  /** id1 occurs once at level 1 and its value is an object. */
  predicate ScopeAt(t: Json, id1: string, i: nat)
    requires t.Coll?
  {
    && FindKey(t.items, id1) == Some(i) && Count(t.items, id1) == 1
    && t.items[i].val.Coll? && t.items[i].val.isObj
  }

  /** ... so the name is looked up in that object alone. */
  lemma ScopeFinds(t: Json, id1: string, id2: string, i: nat)
    requires t.Coll? && ScopeAt(t, id1, i)
    ensures Find(t, Dotted(id1, id2))
         == match FindKey(t.items[i].val.items, id2)
            case Some(j) => There(Inside(i), j)
            case None => OnlyId1
  {
    ObjectScope(t, id1, id2, i);
  }

  lemma {:induction false} SameCount(items: seq<Item>, items': seq<Item>, id: string)
    requires |items| == |items'| && forall i :: 0 <= i < |items| ==> items[i].key == items'[i].key
    ensures Count(items, id) == Count(items', id)
  {
    if |items| > 0 { SameCount(items[1..], items'[1..], id); }
  }

  lemma ScopeKept(t: Json, id1: string, i: nat, ns: seq<Item>)
    requires t.Coll? && t.isObj && ScopeAt(t, id1, i)
    ensures ScopeAt(WithMembers(t, Inside(i), ns), id1, i)
  {
    var t1 := WithMembers(t, Inside(i), ns);
    SameKeys(t.items, t1.items, id1);
    SameCount(t.items, t1.items, id1);
  }

  lemma WithTwice(t: Json, i: nat, ns: seq<Item>, xs: seq<Item>)
    requires t.Coll? && t.isObj && PlaceOk(t, Inside(i))
    ensures WithMembers(WithMembers(t, Inside(i), ns), Inside(i), xs) == WithMembers(t, Inside(i), xs)
  {
  }

  lemma {:induction false} InnerReplaced(t: Json, id1: string, id2: string, i: nat, kind: Kind, v: Json)
    requires t.Coll? && t.isObj && ScopeAt(t, id1, i) && Count(t.items[i].val.items, id2) > 0
    ensures Find(t, Dotted(id1, id2)).There?
    ensures ReplaceTree(t, Dotted(id1, id2), kind, Find(t, Dotted(id1, id2)).place, Find(t, Dotted(id1, id2)).j, v)
         == match Swapped(t.items[i].val.items, id2, kind, v)
            case None => None
            case Some(ns) => Some(WithMembers(t, Inside(i), ns))
    decreases Count(t.items[i].val.items, id2)
  {
    hide HitSearch, Find, Removable, Stripped, MatchCount;
    var ns := t.items[i].val.items;
    ScopeFinds(t, id1, id2, i);
    CountFind(ns, id2);
    var j := FindKey(ns, id2).value;
    if Removable(kind, ns[j].val) {
      var t1 := CutTree(t, Inside(i), j);
      var cut := ns[..j] + Stripped(ns[j + 1..]);
      CountCut(ns, j, id2);
      ScopeKept(t, id1, i, cut);
      ScopeFinds(t1, id1, id2, i);
      CountFind(cut, id2);
      if Count(cut, id2) > 0 {
        InnerReplaced(t1, id1, id2, i, kind, v);
        if Swapped(cut, id2, kind, v).Some? { WithTwice(t, i, cut, Swapped(cut, id2, kind, v).value); }
      } else {
        WithTwice(t, i, cut, cut[..j] + [NewItem(id2, v)] + cut[j..]);
      }
    }
  }

  /** Setting id1.id2 changes only the object at id1: there one member is updated, or comes first. */
  lemma SetInner(t: Json, id1: string, id2: string, i: nat, kind: Kind, v: Json)
    requires t.Coll? && t.isObj && ScopeAt(t, id1, i)
    ensures !Corrupts(t, Dotted(id1, id2))
    ensures SetTree(t, Dotted(id1, id2), kind, v).Some? ==>
      var t', items, put := SetTree(t, Dotted(id1, id2), kind, v).value, BareItems(t.items[i].val.items),
                            NewItem(id2, v);
      && PlaceOk(t', Inside(i)) && t' == WithMembers(t, Inside(i), MembersAt(t', Inside(i)))
      && BareItems(MembersAt(t', Inside(i)))
         == if Count(items, id2) > 0 then Updated(items, id2, put) else [put] + items
  {
    hide HitSearch;
    var ns := t.items[i].val.items;
    ScopeFinds(t, id1, id2, i);
    CountFind(ns, id2);
    BareCount(ns, id2);
    if Count(ns, id2) > 0 {
      InnerReplaced(t, id1, id2, i, kind, v);
      if Swapped(ns, id2, kind, v).Some? { SwappedIsUpdated(ns, id2, kind, v); }
    } else {
      assert ns[..0] == [] && ns[0..] == ns;
      BareAround([], NewItem(id2, v), ns);
    }
  }

  // ---- what setting id1.id2 leaves alone, however often id1 occurs ---------------------------------------

  lemma {:induction false} OthersConcat(a: seq<Item>, b: seq<Item>, id: string)
    ensures Others(a + b, id) == Others(a, id) + Others(b, id)
  {
    if |a| == 0 {
      assert a + b == b;
    } else {
      assert (a + b)[1..] == a[1..] + b;
      OthersConcat(a[1..], b, id);
    }
  }

  lemma OthersAround(a: seq<Item>, it: Item, b: seq<Item>)
    ensures Others(a + [it] + b, it.key) == Others(a, it.key) + Others(b, it.key)
  {
    OthersConcat(a + [it], b, it.key);
    OthersConcat(a, [it], it.key);
    assert Others([it], it.key) == [] by { assert [it][1..] == []; }
  }

  /** A member is the same, or it is an object in which all members but those of one name are. */
  predicate SameBut(a: Item, b: Item, id: string) {
    && b == a.(val := b.val)
    && (a.val == b.val
        || (a.val.Coll? && a.val.isObj && b.val.Coll? && b.val.isObj
            && Others(BareItems(a.val.items), id) == Others(BareItems(b.val.items), id)))
  }

  ghost predicate Framed(t: Json, w: Json, id: string) {
    && t.Coll? && t.isObj && w.Coll? && w.isObj && |t.items| == |w.items|
    && forall i :: 0 <= i < |t.items| ==> SameBut(t.items[i], w.items[i], id)
  }

  lemma FramedTwice(t: Json, u: Json, w: Json, id: string)
    requires Framed(t, u, id) && Framed(u, w, id)
    ensures Framed(t, w, id)
  {
    hide BareItems, Others;
    forall i | 0 <= i < |t.items| ensures SameBut(t.items[i], w.items[i], id) {
      assert SameBut(t.items[i], u.items[i], id) && SameBut(u.items[i], w.items[i], id);
    }
  }

  lemma ReplacedFramed(t: Json, i: nat, ns: seq<Item>, id: string)
    requires t.Coll? && t.isObj && PlaceOk(t, Inside(i))
    requires Others(BareItems(ns), id) == Others(BareItems(MembersAt(t, Inside(i))), id)
    ensures Framed(t, WithMembers(t, Inside(i), ns), id)
  {
    hide BareItems, Others;
  }

  lemma CutFramed(t: Json, i: nat, j: nat, id: string)
    requires t.Coll? && t.isObj && PlaceOk(t, Inside(i)) && j < |MembersAt(t, Inside(i))|
    requires MembersAt(t, Inside(i))[j].key == id
    ensures Framed(t, CutTree(t, Inside(i), j), id)
  {
    hide BareItems, Others, Stripped;
    var ns := MembersAt(t, Inside(i));
    var a, it, b := ns[..j], ns[j], ns[j + 1..];
    assert ns == a + [it] + b;
    BareAround(a, it, b);
    OthersAround(BareItems(a), it.(pre := ""), BareItems(b));
    BareConcat(a, Stripped(b));
    BareStripped(b);
    OthersConcat(BareItems(a), BareItems(b), id);
    ReplacedFramed(t, i, a + Stripped(b), id);
  }

  lemma InsFramed(t: Json, i: nat, j: nat, id: string, v: Json)
    requires t.Coll? && t.isObj && PlaceOk(t, Inside(i)) && j <= |MembersAt(t, Inside(i))|
    ensures Framed(t, InsTree(t, Inside(i), j, NewItem(id, v)), id)
  {
    hide BareItems, Others;
    var ns := MembersAt(t, Inside(i));
    var a, b := ns[..j], ns[j..];
    assert ns == a + b;
    BareAround(a, NewItem(id, v), b);
    OthersAround(BareItems(a), NewItem(id, v), BareItems(b));
    BareConcat(a, b);
    OthersConcat(BareItems(a), BareItems(b), id);
    ReplacedFramed(t, i, a + [NewItem(id, v)] + b, id);
  }

  lemma {:induction false} RefillFramed(t: Json, name: Name, kind: Kind, place: Place, j: nat, v: Json)
    requires t.Coll? && t.isObj && name.Dotted? && PlaceOk(t, place) && place.Inside? && j <= |MembersAt(t, place)|
    requires Refill(t, name, kind, place, j, v).Some?
    ensures Framed(t, Refill(t, name, kind, place, j, v).value, name.id2)
    decreases MatchCount(t, name)
  {
    hide Framed, Refill, CutTree, InsTree, MatchCount, HitSearch;
    RefillStep(t, name, kind, place, j, v);
    if Find(t, name).There? {
      var f := Find(t, name);
      FoundPlace(t, name);
      CutFramed(t, f.place.i, f.j, name.id2);
      RefillFramed(CutTree(t, f.place, f.j), name, kind, f.place, f.j, v);
      FramedTwice(t, CutTree(t, f.place, f.j), Refill(t, name, kind, place, j, v).value, name.id2);
    } else {
      InsFramed(t, place.i, j, name.id2, v);
    }
  }

  /** Setting id1.id2 in any text: with no id1 a member is appended; otherwise all top members stay where they are, with
      their layout, and of an object that is changed only members named id2 are (and whitespace before a neighbour). */
  lemma SetFrame(t: Json, id1: string, id2: string, kind: Kind, v: Json)
    requires t.Coll? && t.isObj && !Corrupts(t, Dotted(id1, id2)) && SetTree(t, Dotted(id1, id2), kind, v).Some?
    ensures var name, w := Dotted(id1, id2), SetTree(t, Dotted(id1, id2), kind, v).value;
      if Find(t, name).NotThere? then w == Coll(true, t.items + [NewItem(FullName(name), v)]) else Framed(t, w, id2)
  {
    hide Framed, Refill, CutTree, HitSearch, FindKey;
    var name := Dotted(id1, id2);
    match Find(t, name)
    case NotThere =>
      assert t.items[..|t.items|] == t.items && t.items[|t.items|..] == [];
      assert t.items + [NewItem(FullName(name), v)] + [] == t.items + [NewItem(FullName(name), v)];
    case OnlyId1 => InsFramed(t, FindKey(t.items, id1).value, 0, id2, v);
    case There(place, j) =>
      FoundPlace(t, name);
      CutFramed(t, place.i, j, id2);
      RefillFramed(CutTree(t, place, j), name, kind, place, j, v);
      FramedTwice(t, CutTree(t, place, j), SetTree(t, name, kind, v).value, id2);
  }

  // ---- reading back -------------------------------------------------------------------------------------

  /** The confined walk searches member i, when `hit` tells whether a name is pending. */
  predicate Searched(items: seq<Item>, id1: string, hit: bool, i: nat) {
    i < |items|
    && var h := hit || items[0].key == id1;
       if i == 0 then h && items[0].val.Coll? && items[0].val.isObj
       else Searched(items[1..], id1, h && !items[0].val.Coll?, i - 1)
  }

  lemma {:induction false} HitIsSearched(items: seq<Item>, id1: string, id2: string, hit: bool)
    requires HitSearch(items, id1, id2, hit).Some?
    ensures Searched(items, id1, hit, HitSearch(items, id1, id2, hit).value.0)
  {
    var h := hit || items[0].key == id1;
    if h && FindIn(items[0].val, id2).Some? {
    } else {
      HitIsSearched(items[1..], id1, id2, h && !items[0].val.Coll?);
    }
  }

  lemma {:induction false} SearchedKept(items: seq<Item>, id1: string, hit: bool, i: nat, it: Item)
    requires Searched(items, id1, hit, i) && it.key == items[i].key && it.val.Coll? && it.val.isObj
    ensures Searched(items[i := it], id1, hit, i)
  {
    if i > 0 {
      SearchedKept(items[1..], id1, (hit || items[0].key == id1) && !items[0].val.Coll?, i - 1, it);
      assert items[i := it][1..] == items[1..][i - 1 := it];
    }
  }

  /** A member put in a searched object where nothing was found is found. */
  lemma {:induction false} PutIsHit(items: seq<Item>, id1: string, id2: string, hit: bool, i: nat, it: Item)
    requires HitSearch(items, id1, id2, hit).None? && Searched(items, id1, hit, i)
    requires it.key == items[i].key && it.val.Coll? && FindIn(it.val, id2).Some?
    ensures HitSearch(items[i := it], id1, id2, hit) == Some((i, FindIn(it.val, id2).value))
  {
    if i > 0 {
      var h := (hit || items[0].key == id1) && !items[0].val.Coll?;
      PutIsHit(items[1..], id1, id2, h, i - 1, it);
      assert items[i := it][1..] == items[1..][i - 1 := it];
    }
  }

  lemma {:induction false} FirstIsSearched(items: seq<Item>, id1: string, i: nat)
    requires FindKey(items, id1) == Some(i) && items[i].val.Coll? && items[i].val.isObj
    ensures Searched(items, id1, false, i)
  {
    if i > 0 { FirstIsSearched(items[1..], id1, i - 1); }
  }

  lemma {:induction false} FindPut(a: seq<Item>, it: Item, b: seq<Item>)
    requires FindKey(a, it.key).None?
    ensures FindKey(a + [it] + b, it.key) == Some(|a|)
  {
    if |a| == 0 {
      assert a + [it] + b == [it] + b;
    } else {
      assert (a + [it] + b)[1..] == a[1..] + [it] + b;
      FindPut(a[1..], it, b);
    }
  }

  /** Reading the name gives the value v. */
  predicate Reads(t: Json, name: Name, v: Json)
    requires t.Coll?
  {
    Find(t, name).There? && MembersAt(t, Find(t, name).place)[Find(t, name).j].val == v
  }

  /** A gap that the name would look into. */
  predicate GapSeen(t: Json, name: Name, place: Place)
    requires t.Coll? && PlaceOk(t, place)
  {
    if name.Flat? then place.Top? else place.Inside? && Searched(t.items, name.id1, false, place.i)
  }

  lemma FilledGapReads(t: Json, name: Name, place: Place, j: nat, v: Json)
    requires t.Coll? && t.isObj && PlaceOk(t, place) && j <= |MembersAt(t, place)|
    requires GapSeen(t, name, place) && !Find(t, name).There?
    ensures Reads(InsTree(t, place, j, NewItem(LastKey(name), v)), name, v)
  {
    var ns, it := MembersAt(t, place), NewItem(LastKey(name), v);
    var a, b := ns[..j], ns[j..];
    assert ns == a + b;
    match name
    case Flat(id) =>
      CountFind(ns, id);
      CountConcat(a, b, id);
      CountFind(a, id);
      FindPut(a, it, b);
    case Dotted(id1, id2) =>
      var i := place.i;
      var it' := t.items[i].(val := Coll(true, a + [it] + b));
      NotFoundInside(t.items, id1, id2, false, i);
      CountFind(ns, id2);
      CountConcat(a, b, id2);
      CountFind(a, id2);
      FindPut(a, it, b);
      PutIsHit(t.items, id1, id2, false, i, it');
  }

  lemma {:induction false} NotFoundInside(items: seq<Item>, id1: string, id2: string, hit: bool, i: nat)
    requires HitSearch(items, id1, id2, hit).None? && Searched(items, id1, hit, i)
    ensures FindIn(items[i].val, id2).None?
  {
    if i > 0 { NotFoundInside(items[1..], id1, id2, (hit || items[0].key == id1) && !items[0].val.Coll?, i - 1); }
  }

  lemma FoundGapSeen(t: Json, name: Name)
    requires t.Coll? && t.isObj && Find(t, name).There?
    ensures var f := Find(t, name); GapSeen(CutTree(t, f.place, f.j), name, f.place)
  {
    var place, j := Find(t, name).place, Find(t, name).j;
    if name.Dotted? {
      var ns := MembersAt(t, place);
      HitIsSearched(t.items, name.id1, name.id2, false);
      SearchedKept(t.items, name.id1, false, place.i,
                   t.items[place.i].(val := Coll(true, ns[..j] + Stripped(ns[j + 1..]))));
    }
  }

  lemma FoundPlace(t: Json, name: Name)
    requires t.Coll? && t.isObj && Find(t, name).There?
    ensures var f := Find(t, name);
      && f.j <= |MembersAt(CutTree(t, f.place, f.j), f.place)|
      && MatchCount(CutTree(t, f.place, f.j), name) == MatchCount(t, name) - 1
  {
    hide MatchCount;
    var f := Find(t, name);
    CutFewer(t, name, f.place, f.j);
  }

  lemma RefillStep(t: Json, name: Name, kind: Kind, place: Place, j: nat, v: Json)
    requires t.Coll? && t.isObj && PlaceOk(t, place) && j <= |MembersAt(t, place)|
    requires Refill(t, name, kind, place, j, v).Some?
    ensures var f := Find(t, name);
      var r := Refill(t, name, kind, place, j, v);
      if f.There? then
        f.j <= |MembersAt(CutTree(t, f.place, f.j), f.place)| &&
        r == Refill(CutTree(t, f.place, f.j), name, kind, f.place, f.j, v)
      else r == Some(InsTree(t, place, j, NewItem(LastKey(name), v)))
  {
    hide Find, CutTree, InsTree;
    if Find(t, name).There? { FoundPlace(t, name); }
  }

  lemma {:induction false} RefillReads(t: Json, name: Name, kind: Kind, place: Place, j: nat, v: Json)
    requires t.Coll? && t.isObj && PlaceOk(t, place) && j <= |MembersAt(t, place)| && GapSeen(t, name, place)
    requires Refill(t, name, kind, place, j, v).Some?
    ensures Reads(Refill(t, name, kind, place, j, v).value, name, v)
    decreases MatchCount(t, name)
  {
    hide GapSeen, Reads, Refill, Find, CutTree, InsTree, MatchCount;
    RefillStep(t, name, kind, place, j, v);
    if Find(t, name).There? {
      var f := Find(t, name);
      FoundPlace(t, name);
      FoundGapSeen(t, name);
      RefillReads(CutTree(t, f.place, f.j), name, kind, f.place, f.j, v);
    } else {
      FilledGapReads(t, name, place, j, v);
    }
  }

  /** Appending a member with a dot in its name hides it from its own lookup. */
  lemma AppendedDotted(t: Json, id1: string, id2: string, v: Json)
    requires t.Coll? && t.isObj && Find(t, Dotted(id1, id2)).NotThere?
    ensures Find(InsTree(t, Top, |t.items|, NewItem(id1 + "." + id2, v)), Dotted(id1, id2)).NotThere?
  {
    var n, it := |t.items|, NewItem(id1 + "." + id2, v);
    assert t.items[..n] + [it] + t.items[n..] == t.items + [it];
    CountFind(t.items, id1);
    CountConcat(t.items, [it], id1);
    assert |it.key| > |id1|;
    CountFind(t.items + [it], id1);
    NoKeyNoHit(t.items + [it], id1, id2);
  }

  /** Reading a name after setting it gives the value that was set - unless the name is id1.id2 and
      there was no id1: then a member named "id1.id2" is appended, which no lookup finds. */
  lemma SetThenRead(t: Json, name: Name, kind: Kind, v: Json)
    requires t.Coll? && t.isObj && !Corrupts(t, name) && SetTree(t, name, kind, v).Some?
    ensures Reads(SetTree(t, name, kind, v).value, name, v) <==> !(name.Dotted? && FindKey(t.items, name.id1).None?)
  {
    match Find(t, name)
    case NotThere =>
      if name.Flat? {
        FilledGapReads(t, name, Top, |t.items|, v);
      } else {
        AppendedDotted(t, name.id1, name.id2, v);
      }
    case OnlyId1 =>
      var i := FindKey(t.items, name.id1).value;
      FirstIsSearched(t.items, name.id1, i);
      FilledGapReads(t, name, Inside(i), 0, v);
    case There(place, j) =>
      if name.Dotted? { HitHasKey(t.items, name.id1, name.id2); }
      FoundGapSeen(t, name);
      RefillReads(CutTree(t, place, j), name, kind, place, j, v);
  }

  /** {"a":5} with a.b set: the text becomes {"a":5,"b":1}, where b stands beside a and a.b is still not found. */
  lemma ScalarSetCorrupts()
    ensures var a, b := Item("", "a", "", Prim("5"), ""), Item("", "b", "", Prim("1"), "");
            var t, t' := Coll(true, [a]), Coll(true, [a, b]);
      && Corrupts(t, Dotted("a", "b"))
      && InsText(Print(t), ValOff(true, a, 1) + 1, MemberText("b", "1")) == Print(t')
      && Find(t', Dotted("a", "b")) == OnlyId1
  {
    var a, b := Item("", "a", "", Prim("5"), ""), Item("", "b", "", Prim("1"), "");
    assert PrintItems(true, [a]) == PrintItem(true, a) == "\"a\":5";
    assert [a, b][1..] == [b] && [b][1..] == [] && [a][1..] == [];
    assert PrintItems(true, [b]) == PrintItem(true, b) == "\"b\":1";
    assert PrintItems(true, [a, b]) == "\"a\":5,\"b\":1";
    assert FindIn(a.val, "b") == None && FindIn(b.val, "b") == None;
    assert HitSearch([b], "a", "b", true) == None && HitSearch([a], "a", "b", false) == None;
    assert HitSearch([a, b], "a", "b", false) == None;
  }
}
