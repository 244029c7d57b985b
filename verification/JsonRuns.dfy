/** Many settings in a row: every name reads what it was last set to, and what was not set reads as before. */
module JsonRuns {
  import opened Options
  import opened JsonText
  import opened JsonLookup
  import opened JsonEdit
  import opened JsonSet
  import opened JsonSetLaws

  // ---- what names mean, whatever the layout ----------------------------------------------------------

  function ValueOf(items: seq<Item>, id: string): Option<Json> {
    match FindKey(items, id)
    case None => None
    case Some(j) => Some(items[j].val)
  }

  /** The members of the object that is the value of id1, which occurs once. */
  function Scope(t: Json, id1: string): Option<seq<Item>>
    requires t.Coll?
  {
    match ValueOf(t.items, id1)
    case Some(Coll(true, ns)) => if Count(t.items, id1) == 1 then Some(ns) else None
    case _ => None
  }

  predicate Scoped(t: Json, name: Name)
    requires t.Coll?
  {
    name.Dotted? ==> Scope(t, name.id1).Some?
  }

  /** The value of a name, told from the members alone. */
  function View(t: Json, name: Name): Option<Json>
    requires t.Coll?
  {
    match name
    case Flat(id) => ValueOf(t.items, id)
    case Dotted(id1, id2) => if Scope(t, id1).Some? then ValueOf(Scope(t, id1).value, id2) else None
  }

  lemma ViewReads(t: Json, name: Name, v: Json)
    requires t.Coll? && Scoped(t, name)
    ensures Reads(t, name, v) <==> View(t, name) == Some(v)
  {
    hide HitSearch;
    if name.Dotted? { ScopeFinds(t, name.id1, name.id2, FindKey(t.items, name.id1).value); }
  }

  lemma {:induction false} BareView(items: seq<Item>, c: string)
    ensures ValueOf(BareItems(items), c) == ValueOf(items, c)
  {
    if |items| > 0 { BareView(items[1..], c); }
  }

  lemma ViewStep(items: seq<Item>, c: string)
    requires |items| > 0
    ensures ValueOf(items, c) == if items[0].key == c then Some(items[0].val) else ValueOf(items[1..], c)
  {
  }

  lemma {:induction false} UpdatedView(items: seq<Item>, it: Item, c: string)
    requires Count(items, it.key) > 0
    ensures var u := Updated(items, it.key, it);
      && ValueOf(u, c) == (if c == it.key then Some(it.val) else ValueOf(items, c))
      && (c != it.key ==> Count(u, c) == Count(items, c))
  {
    hide ValueOf;
    var u := Updated(items, it.key, it);
    ViewStep(items, c);
    if items[0].key != it.key {
      ViewStep(u, c);
      assert u[1..] == Updated(items[1..], it.key, it);
      UpdatedView(items[1..], it, c);
    } else if Count(items[1..], it.key) == 0 {
      ViewStep(u, c);
      assert u[1..] == items[1..];
    } else {
      UpdatedView(items[1..], it, c);
    }
  }

  lemma {:induction false} AppendedView(items: seq<Item>, it: Item, c: string)
    requires Count(items, it.key) == 0
    ensures ValueOf(items + [it], c) == if c == it.key then Some(it.val) else ValueOf(items, c)
    ensures c != it.key ==> Count(items + [it], c) == Count(items, c)
  {
    if |items| > 0 {
      assert (items + [it])[1..] == items[1..] + [it];
      AppendedView(items[1..], it, c);
    } else {
      assert items + [it] == [it];
    }
  }

  /** A list with one member updated or added means the same for all other names. */
  lemma ListView(items: seq<Item>, ns: seq<Item>, id: string, v: Json, c: string)
    requires var bare, put := BareItems(items), NewItem(id, v);
      BareItems(ns) == if Count(bare, id) > 0 then Updated(bare, id, put) else bare + [put]
    ensures ValueOf(ns, c) == if c == id then Some(v) else ValueOf(items, c)
    ensures c != id ==> Count(ns, c) == Count(items, c)
  {
    hide ValueOf;
    BareView(items, c);
    BareView(ns, c);
    BareCount(items, c);
    BareCount(ns, c);
    if Count(BareItems(items), id) > 0 {
      UpdatedView(BareItems(items), NewItem(id, v), c);
    } else {
      AppendedView(BareItems(items), NewItem(id, v), c);
    }
  }

  /** ... also when the new member comes first. */
  lemma InnerView(items: seq<Item>, ns: seq<Item>, id: string, v: Json, c: string)
    requires var bare, put := BareItems(items), NewItem(id, v);
      BareItems(ns) == if Count(bare, id) > 0 then Updated(bare, id, put) else [put] + bare
    ensures ValueOf(ns, c) == if c == id then Some(v) else ValueOf(items, c)
  {
    hide ValueOf;
    BareView(items, c);
    BareView(ns, c);
    if Count(BareItems(items), id) > 0 {
      UpdatedView(BareItems(items), NewItem(id, v), c);
    } else {
      ViewStep(BareItems(ns), c);
      assert BareItems(ns)[1..] == BareItems(items);
    }
  }

  // ---- one setting ---------------------------------------------------------------------------------------

  /** Neither name is the scope of the other. */
  predicate Apart(a: Name, b: Name) {
    && (a.Flat? && b.Dotted? ==> a.id != b.id1)
    && (a.Dotted? && b.Flat? ==> a.id1 != b.id)
  }

  lemma TopView(t: Json, id: string, kind: Kind, v: Json, b: Name)
    requires t.Coll? && t.isObj && SetTree(t, Flat(id), kind, v).Some? && Apart(Flat(id), b) && Scoped(t, b)
    ensures var w := SetTree(t, Flat(id), kind, v).value;
      Scoped(w, b) && View(w, b) == if b == Flat(id) then Some(v) else View(t, b)
  {
    hide ValueOf, SetTree;
    SetTop(t, id, kind, v);
    ListView(t.items, SetTree(t, Flat(id), kind, v).value.items, id, v, if b.Flat? then b.id else b.id1);
  }

  lemma WithView(t: Json, i: nat, ns: seq<Item>, id1: string, c: string)
    requires t.Coll? && t.isObj && ScopeAt(t, id1, i)
    ensures var w := WithMembers(t, Inside(i), ns);
      && ValueOf(w.items, c) == (if c == id1 then Some(Coll(true, ns)) else ValueOf(t.items, c))
      && Count(w.items, c) == Count(t.items, c)
  {
    var w := WithMembers(t, Inside(i), ns);
    SameKeys(t.items, w.items, c);
    SameCount(t.items, w.items, c);
  }

  lemma ScopedView(t: Json, a: Name, kind: Kind, v: Json, b: Name)
    requires t.Coll? && t.isObj && a.Dotted? && Scoped(t, a) && Scoped(t, b) && Apart(a, b)
    ensures !Corrupts(t, a)
    ensures SetTree(t, a, kind, v).Some? ==>
      var w := SetTree(t, a, kind, v).value;
      Scoped(w, a) && Scoped(w, b) && View(w, b) == if b == a then Some(v) else View(t, b)
  {
    hide SetTree, Corrupts, HitSearch;
    var i := FindKey(t.items, a.id1).value;
    SetInner(t, a.id1, a.id2, i, kind, v);
    if SetTree(t, a, kind, v).Some? {
      var w := SetTree(t, a, kind, v).value;
      var ns := MembersAt(w, Inside(i));
      WithView(t, i, ns, a.id1, a.id1);
      WithView(t, i, ns, a.id1, if b.Flat? then b.id else b.id1);
      if b.Dotted? { InnerView(t.items[i].val.items, ns, a.id2, v, b.id2); }
    }
  }

  /** Setting one name changes what that name means, and no other that is apart from it. */
  lemma SetView(t: Json, a: Name, kind: Kind, v: Json, b: Name)
    requires t.Coll? && t.isObj && Scoped(t, a) && Scoped(t, b) && Apart(a, b)
    ensures !Corrupts(t, a)
    ensures SetTree(t, a, kind, v).Some? ==>
      var w := SetTree(t, a, kind, v).value;
      Scoped(w, b) && View(w, b) == if b == a then Some(v) else View(t, b)
  {
    hide SetTree, View, Scoped;
    match a
    case Flat(id) => if SetTree(t, a, kind, v).Some? { TopView(t, id, kind, v, b); }
    case Dotted(_, _) => ScopedView(t, a, kind, v, b);
  }

  // ---- one setting of id1.id2, in any text --------------------------------------------------------------

  lemma {:induction false} OthersView(items: seq<Item>, id: string, c: string)
    requires c != id
    ensures ValueOf(Others(items, id), c) == ValueOf(items, c)
  {
    hide ValueOf;
    if |items| > 0 {
      OthersView(items[1..], id, c);
      ViewStep(items, c);
      if items[0].key != id {
        ViewStep(Others(items, id), c);
        assert Others(items, id)[1..] == Others(items[1..], id);
      } else {
        assert Others(items, id) == Others(items[1..], id);
      }
    }
  }

  /** Objects that differ only in members of one name agree on every other. */
  lemma SameButView(a: Item, b: Item, id: string, c: string)
    requires SameBut(a, b, id) && c != id
    ensures FindIn(a.val, c).Some? <==> FindIn(b.val, c).Some?
    ensures FindIn(a.val, c).Some? ==>
              a.val.items[FindIn(a.val, c).value].val == b.val.items[FindIn(b.val, c).value].val
  {
    hide BareItems, Others;
    if a.val != b.val {
      OthersView(BareItems(a.val.items), id, c);
      OthersView(BareItems(b.val.items), id, c);
      BareView(a.val.items, c);
      BareView(b.val.items, c);
    }
  }

  lemma {:induction false} SameButHit(a: seq<Item>, b: seq<Item>, id: string, id1: string, c: string, hit: bool)
    requires |a| == |b| && c != id && forall i :: 0 <= i < |a| ==> SameBut(a[i], b[i], id)
    ensures var x, y := HitSearch(a, id1, c, hit), HitSearch(b, id1, c, hit);
      && (x.Some? <==> y.Some?)
      && (x.Some? ==> x.value.0 == y.value.0
                      && a[x.value.0].val.items[x.value.1].val == b[y.value.0].val.items[y.value.1].val)
  {
    hide SameBut, FindIn;
    if |a| > 0 {
      SameButView(a[0], b[0], id, c);
      SameButKey(a[0], b[0], id);
      SameButHit(a[1..], b[1..], id, id1, c, (hit || a[0].key == id1) && !a[0].val.Coll?);
    }
  }

  lemma SameButKey(a: Item, b: Item, id: string)
    requires SameBut(a, b, id)
    ensures a.key == b.key && (a.val.Coll? <==> b.val.Coll?)
  {
    hide BareItems, Others;
  }

  /** Setting id1.id2 where id1 is there changes what no name with another second part reads, however often any first part
      occurs and whatever else the text holds. */
  lemma SetLeavesReads(t: Json, name: Name, kind: Kind, v: Json, b: Name, u: Json)
    requires t.Coll? && t.isObj && name.Dotted? && !Find(t, name).NotThere? && !Corrupts(t, name)
    requires SetTree(t, name, kind, v).Some? && b.Dotted? && b.id2 != name.id2
    ensures Reads(SetTree(t, name, kind, v).value, b, u) <==> Reads(t, b, u)
  {
    hide SetTree, HitSearch, SameBut;
    SetFrame(t, name.id1, name.id2, kind, v);
    SameButHit(t.items, SetTree(t, name, kind, v).value.items, name.id2, b.id1, b.id2, false);
  }

  // ---- many settings -----------------------------------------------------------------------------------------

  datatype Edit = Edit(name: Name, kind: Kind, v: Json)

  /** The tree after all edits; None when a setter panics, or an edit would corrupt the text. */
  function SetAll(t: Json, edits: seq<Edit>): (r: Option<Json>)
    requires t.Coll? && t.isObj
    ensures r.Some? ==> r.value.Coll? && r.value.isObj
    decreases |edits|
  {
    if |edits| == 0 then Some(t)
    else
      var e := edits[0];
      if Corrupts(t, e.name) then None
      else match SetTree(t, e.name, e.kind, e.v)
           case None => None
           case Some(w) => SetAll(w, edits[1..])
  }

  /** The value of the last edit of a name. */
  function LastSet(edits: seq<Edit>, name: Name): Option<Json> {
    if |edits| == 0 then None
    else
      var e := edits[|edits| - 1];
      if e.name == name then Some(e.v) else LastSet(edits[..|edits| - 1], name)
  }

  lemma {:induction false} LastSetFirst(edits: seq<Edit>, name: Name)
    requires |edits| > 0
    ensures LastSet(edits, name)
         == if LastSet(edits[1..], name).Some? then LastSet(edits[1..], name)
            else if edits[0].name == name then Some(edits[0].v) else None
  {
    var n := |edits|;
    if n > 1 && edits[n - 1].name != name {
      LastSetFirst(edits[..n - 1], name);
      assert edits[..n - 1][1..] == edits[1..][..n - 2];
    }
  }

  /** Every dotted name has its object, and no name is the scope of another. */
  ghost predicate Separate(t: Json, edits: seq<Edit>, b: Name)
    requires t.Coll?
  {
    && Scoped(t, b)
    && (forall i :: 0 <= i < |edits| ==> Scoped(t, edits[i].name) && Apart(edits[i].name, b))
    && (forall i, j :: 0 <= i < |edits| && 0 <= j < |edits| ==> Apart(edits[i].name, edits[j].name))
  }

  lemma SeparateStep(t: Json, edits: seq<Edit>, b: Name)
    requires t.Coll? && t.isObj && Separate(t, edits, b) && |edits| > 0
    ensures !Corrupts(t, edits[0].name)
    ensures var e := edits[0];
      SetTree(t, e.name, e.kind, e.v).Some? ==>
        var w := SetTree(t, e.name, e.kind, e.v).value;
        Separate(w, edits[1..], b) && View(w, b) == if b == e.name then Some(e.v) else View(t, b)
  {
    hide SetTree, View, Scoped, Apart;
    var e, rest := edits[0], edits[1..];
    SetView(t, e.name, e.kind, e.v, b);
    if SetTree(t, e.name, e.kind, e.v).Some? {
      var w := SetTree(t, e.name, e.kind, e.v).value;
      forall i | 0 <= i < |rest| ensures Scoped(w, rest[i].name) && Apart(rest[i].name, b) {
        assert rest[i] == edits[i + 1];
        SetView(t, e.name, e.kind, e.v, rest[i].name);
      }
    }
  }

  /** After any run of settings every name reads the value it was last set to, and a name that was not set reads what
      it read before. */
  lemma {:induction false} RunView(t: Json, edits: seq<Edit>, b: Name)
    requires t.Coll? && t.isObj && Separate(t, edits, b) && SetAll(t, edits).Some?
    ensures var w, last := SetAll(t, edits).value, LastSet(edits, b);
      && Scoped(w, b) && View(w, b) == (if last.Some? then last else View(t, b))
    decreases |edits|
  {
    hide SetTree, View, Scoped, Apart, Corrupts, LastSet;
    if |edits| > 0 {
      var e := edits[0];
      SeparateStep(t, edits, b);
      LastSetFirst(edits, b);
      RunView(SetTree(t, e.name, e.kind, e.v).value, edits[1..], b);
    } else {
      NoneSet(b);
    }
  }

  lemma NoneSet(b: Name)
    ensures LastSet([], b) == None
  {
  }

  lemma RunReads(t: Json, edits: seq<Edit>, b: Name, v: Json)
    requires t.Coll? && t.isObj && Separate(t, edits, b) && SetAll(t, edits).Some?
    ensures var w, last := SetAll(t, edits).value, LastSet(edits, b);
      Reads(w, b, v) <==> if last.Some? then v == last.value else Reads(t, b, v)
  {
    hide SetAll, View, LastSet, Reads;
    RunView(t, edits, b);
    ViewReads(t, b, v);
    ViewReads(SetAll(t, edits).value, b, v);
  }
}
