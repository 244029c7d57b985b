/** What setting a name does to the tree: which members are removed, where the new one goes, what a
    caller can rely on afterwards, and when the code does not deliver it. */
module JsonSet {
  import opened Options
  import opened JsonText
  import opened JsonWalk
  import opened JsonLookup
  import opened JsonEdit

  /** The five setters differ in the values they can remove. */
  datatype Kind = IntKind | FloatKind | BoolKind | StringKind | ObjectKind

  predicate StartsNull(s: string) { |s| >= 4 && s[..4] == "null" }

  predicate IsDigit(c: char) { '0' <= c <= '9' }

  /** The first characters by which a setter recognises a value of its own kind. */
  predicate FirstOk(kind: Kind, c: char) {
    match kind
    case IntKind => IsDigit(c) || c == '-'
    case FloatKind => IsDigit(c) || c == '-' || c == '.'
    case BoolKind => c == 't' || c == 'f'
    case StringKind => false
    case ObjectKind => c == '{'
  }

  /** The values a setter removes; on any other value it panics. */
  predicate Removable(kind: Kind, v: Json) {
    || (v.Prim? && StartsNull(v.text))
    || (kind.StringKind? && v.Str?)
    || (kind.ObjectKind? && v.Coll? && v.isObj)
    || (!kind.ObjectKind? && v.Prim? && |v.text| > 0 && FirstOk(kind, v.text[0]))
  }

  ghost predicate GoodTree(t: Json) {
    t.Coll? && t.isObj && WellFormed(t) && Depth(t) < STACK_SIZE
  }

  function CutTree(t: Json, place: Place, j: nat): (r: Json)
    requires t.Coll? && t.isObj && PlaceOk(t, place) && j < |MembersAt(t, place)|
    ensures r.Coll? && r.isObj && PlaceOk(r, place)
  {
    var ns := MembersAt(t, place);
    WithMembers(t, place, ns[..j] + Stripped(ns[j + 1..]))
  }

  function InsTree(t: Json, place: Place, j: nat, it: Item): (r: Json)
    requires t.Coll? && t.isObj && PlaceOk(t, place) && j <= |MembersAt(t, place)|
    ensures r.Coll? && r.isObj && PlaceOk(r, place)
  {
    var ns := MembersAt(t, place);
    WithMembers(t, place, ns[..j] + [it] + ns[j..])
  }

  function SubCount(items: seq<Item>, id: string): nat {
    if |items| == 0 then 0
    else (if items[0].val.Coll? && items[0].val.isObj then Count(items[0].val.items, id) else 0) + SubCount(items[1..], id)
  }

  /** How many members the name could mean: the measure on which repeated replacement terminates. */
  function MatchCount(t: Json, name: Name): nat
    requires t.Coll?
  {
    match name
    case Flat(id) => Count(t.items, id)
    case Dotted(_, id2) => SubCount(t.items, id2)
  }

  lemma {:induction false} CountConcat(a: seq<Item>, b: seq<Item>, id: string)
    ensures Count(a + b, id) == Count(a, id) + Count(b, id)
    ensures SubCount(a + b, id) == SubCount(a, id) + SubCount(b, id)
  {
    if |a| == 0 {
      assert a + b == b;
    } else {
      assert (a + b)[1..] == a[1..] + b;
      CountConcat(a[1..], b, id);
    }
  }

  lemma CountCut(ns: seq<Item>, j: nat, id: string)
    requires j < |ns| && ns[j].key == id
    ensures Count(ns[..j] + Stripped(ns[j + 1..]), id) == Count(ns, id) - 1
  {
    var a, b := ns[..j], ns[j + 1..];
    assert ns == a + ([ns[j]] + b);
    CountConcat(a, [ns[j]] + b, id);
    assert ([ns[j]] + b)[1..] == b;
    CountConcat(a, Stripped(b), id);
    if |b| > 0 { StrippedSome(b); }
  }

  lemma CutFewer(t: Json, name: Name, place: Place, j: nat)
    requires t.Coll? && t.isObj && Find(t, name) == There(place, j)
    ensures MatchCount(CutTree(t, place, j), name) == MatchCount(t, name) - 1
  {
    hide Count, SubCount;
    var ns := MembersAt(t, place);
    match place
    case Top => CountCut(ns, j, name.id);
    case Inside(i) =>
      CountCut(ns, j, name.id2);
      SubCountReplace(t.items, i, t.items[i].(val := Coll(true, ns[..j] + Stripped(ns[j + 1..]))), name.id2);
  }

  /** Replacing the value of one level-1 object changes the count by the difference within it. */
  lemma SubCountReplace(items: seq<Item>, i: nat, it': Item, id: string)
    requires i < |items| && items[i].val.Coll? && items[i].val.isObj
    requires it'.val.Coll? && it'.val.isObj && it'.key == items[i].key
    ensures SubCount(items[i := it'], id) == SubCount(items, id) - Count(items[i].val.items, id) + Count(it'.val.items, id)
  {
    hide Count;
    var a, it, b := items[..i], items[i], items[i + 1..];
    assert items == a + ([it] + b) && items[i := it'] == a + ([it'] + b);
    CountConcat(a, [it] + b, id);
    CountConcat(a, [it'] + b, id);
    assert ([it] + b)[1..] == b && ([it'] + b)[1..] == b;
  }

  /** Changing a member that is there: it is cut out and the gap filled. None when its value may not be removed. */
  function ReplaceTree(t: Json, name: Name, kind: Kind, place: Place, j: nat, v: Json): (r: Option<Json>)
    requires t.Coll? && t.isObj && Find(t, name) == There(place, j)
    ensures r.Some? ==> r.value.Coll? && r.value.isObj
    decreases MatchCount(t, name), 0
  {
    if !Removable(kind, MembersAt(t, place)[j].val) then None
    else
      CutFewer(t, name, place, j);
      Refill(CutTree(t, place, j), name, kind, place, j, v)
  }

  /** Filling the gap at `place`, `j`: the name is looked up again, and while it is still found the
      gap moves on to that member; then the new member goes in. */
  function Refill(t: Json, name: Name, kind: Kind, place: Place, j: nat, v: Json): (r: Option<Json>)
    requires t.Coll? && t.isObj && PlaceOk(t, place) && j <= |MembersAt(t, place)|
    ensures r.Some? ==> r.value.Coll? && r.value.isObj
    decreases MatchCount(t, name), 1
  {
    match Find(t, name)
    case There(place1, j1) => ReplaceTree(t, name, kind, place1, j1, v)
    case _ => Some(InsTree(t, place, j, NewItem(LastKey(name), v)))
  }

  /** A member found under id1.id2 comes after a key id1; cutting it out leaves that key. */
  lemma {:induction false} HitHasKey(items: seq<Item>, id1: string, id2: string)
    requires HitSearch(items, id1, id2, false).Some?
    ensures FindKey(items, id1).Some?
  {
    if items[0].key != id1 { HitHasKey(items[1..], id1, id2); }
  }

  lemma {:induction false} SameKeys(items: seq<Item>, items': seq<Item>, id: string)
    requires |items| == |items'| && forall i :: 0 <= i < |items| ==> items[i].key == items'[i].key
    ensures FindKey(items, id) == FindKey(items', id)
  {
    if |items| > 0 { SameKeys(items[1..], items'[1..], id); }
  }

  lemma CutKeepsId1(t: Json, name: Name, place: Place, j: nat)
    requires t.Coll? && t.isObj && Find(t, name) == There(place, j) && name.Dotted?
    ensures FindKey(CutTree(t, place, j).items, name.id1).Some?
  {
    HitHasKey(t.items, name.id1, name.id2);
    SameKeys(t.items, CutTree(t, place, j).items, name.id1);
  }

  lemma PlaceOfName(t: Json, name: Name)
    requires t.Coll? && Find(t, name).There?
    ensures Find(t, name).place.Top? <==> name.Flat?
  {
  }

  /** id1.id2 where the value of the first id1 is no object: the text is edited inside that value. */
  predicate Corrupts(t: Json, name: Name)
    requires t.Coll?
  {
    && Find(t, name) == OnlyId1
    && var i := FindKey(t.items, name.id1).value; !(t.items[i].val.Coll? && t.items[i].val.isObj)
  }

  /** The tree after a name is set, when the edit is sound and the setter does not panic. */
  function SetTree(t: Json, name: Name, kind: Kind, v: Json): (r: Option<Json>)
    requires t.Coll? && t.isObj && !Corrupts(t, name)
    ensures r.Some? ==> r.value.Coll? && r.value.isObj
  {
    match Find(t, name)
    case NotThere => Some(InsTree(t, Top, |t.items|, NewItem(FullName(name), v)))
    case OnlyId1 => Some(InsTree(t, Inside(FindKey(t.items, name.id1).value), 0, NewItem(name.id2, v)))
    case There(place, j) => ReplaceTree(t, name, kind, place, j, v)
  }

  // ---- the edit stays well-formed and shallow -------------------------------------------------

  lemma {:induction false} DepthConcat(a: seq<Item>, b: seq<Item>)
    ensures DepthItems(a + b) == Max(DepthItems(a), DepthItems(b))
  {
    if |a| == 0 {
      assert a + b == b;
    } else {
      assert (a + b)[1..] == a[1..] + b;
      DepthConcat(a[1..], b);
    }
  }

  lemma DepthAround(a: seq<Item>, it: Item, b: seq<Item>)
    ensures DepthItems(a + [it] + b) == Max(DepthItems(a), Max(Depth(it.val), DepthItems(b)))
  {
    DepthConcat(a + [it], b);
    DepthConcat(a, [it]);
    assert [it][1..] == [];
  }

  /** How deep a value may be at a place. */
  function Room(place: Place): nat { if place.Top? then STACK_SIZE - 1 else STACK_SIZE - 2 }

  lemma GoodMembers(t: Json, place: Place)
    requires GoodTree(t) && PlaceOk(t, place)
    ensures WellFormedItems(true, MembersAt(t, place)) && DepthItems(MembersAt(t, place)) < Room(place)
  {
    if place.Inside? {
      var i := place.i;
      assert t.items == t.items[..i] + [t.items[i]] + t.items[i + 1..];
      DepthAround(t.items[..i], t.items[i], t.items[i + 1..]);
      assert WellFormedItems(true, t.items);
      assert WellFormed(t.items[i].val);
    }
  }

  lemma SameLayout(it: Item, v: Json)
    ensures LayoutOk(true, it.(val := v)) <==> LayoutOk(true, it)
  {
  }

  lemma DepthOf(t: Json)
    requires t.Coll?
    ensures Depth(t) == 1 + DepthItems(t.items)
  {
  }

  lemma GoodReplaced(t: Json, place: Place, ns: seq<Item>)
    requires GoodTree(t) && PlaceOk(t, place) && WellFormedItems(true, ns) && DepthItems(ns) < Room(place)
    ensures GoodTree(WithMembers(t, place, ns))
  {
    hide LayoutOk, Depth, DepthItems;
    DepthOf(t);
    DepthOf(WithMembers(t, place, ns));
    if place.Inside? {
      var i := place.i;
      var a, b := t.items[..i], t.items[i + 1..];
      var it' := t.items[i].(val := Coll(true, ns));
      SameLayout(t.items[i], it'.val);
      DepthOf(it'.val);
      assert t.items == a + [t.items[i]] + b && t.items[i := it'] == a + [it'] + b;
      DepthAround(a, t.items[i], b);
      DepthAround(a, it', b);
      assert WellFormedItems(true, t.items) && WellFormed(it'.val);
      assert LayoutOk(true, t.items[i]) && LayoutOk(true, it');
      assert WellFormedItems(true, t.items[i := it']);
    }
  }

  lemma StrippedDepth(b: seq<Item>)
    ensures DepthItems(Stripped(b)) == DepthItems(b)
  {
    hide Depth, DropSep;
    if |b| > 0 { assert Stripped(b)[1..] == b[1..] && Stripped(b)[0].val == b[0].val; }
  }

  lemma CutDepth(ns: seq<Item>, j: nat)
    requires j < |ns|
    ensures DepthItems(ns[..j] + Stripped(ns[j + 1..])) <= DepthItems(ns)
  {
    hide Depth, DepthItems, Stripped;
    var a, b := ns[..j], ns[j + 1..];
    assert ns == a + [ns[j]] + b;
    DepthAround(a, ns[j], b);
    DepthConcat(a, Stripped(b));
    StrippedDepth(b);
  }

  lemma CutWellFormed(ns: seq<Item>, j: nat)
    requires WellFormedItems(true, ns) && j < |ns|
    ensures WellFormedItems(true, ns[..j] + Stripped(ns[j + 1..]))
  {
    hide WellFormed, LayoutOk, Stripped;
    var a, b := ns[..j], ns[j + 1..];
    var s := Stripped(b);
    if |b| > 0 { StrippedSome(b); } else { StrippedNone(); }
    forall i | 0 <= i < |s| ensures LayoutOk(true, s[i]) && WellFormed(s[i].val) {
      assert b[i] == ns[j + 1 + i];
      if i > 0 { assert s[i] == s[1..][i - 1] == b[1..][i - 1] == b[i]; }
    }
    forall i | 0 <= i < |a + s| ensures LayoutOk(true, (a + s)[i]) && WellFormed((a + s)[i].val) {
      if i < j { assert (a + s)[i] == ns[i]; } else { assert (a + s)[i] == s[i - j]; }
    }
  }

  lemma CutGood(t: Json, place: Place, j: nat)
    requires GoodTree(t) && PlaceOk(t, place) && j < |MembersAt(t, place)|
    ensures GoodTree(CutTree(t, place, j))
  {
    hide WellFormedItems, DepthItems, Stripped;
    GoodMembers(t, place);
    CutDepth(MembersAt(t, place), j);
    CutWellFormed(MembersAt(t, place), j);
    GoodReplaced(t, place, MembersAt(t, place)[..j] + Stripped(MembersAt(t, place)[j + 1..]));
  }

  lemma InsGood(t: Json, place: Place, j: nat, key: string, v: Json)
    requires GoodTree(t) && PlaceOk(t, place) && j <= |MembersAt(t, place)|
    requires WellFormed(v) && StrOk(key) && Depth(v) < Room(place)
    ensures GoodTree(InsTree(t, place, j, NewItem(key, v)))
  {
    hide WellFormed, StrOk, Depth;
    var ns, it := MembersAt(t, place), NewItem(key, v);
    GoodMembers(t, place);
    assert ns == ns[..j] + ns[j..];
    DepthConcat(ns[..j], ns[j..]);
    DepthAround(ns[..j], it, ns[j..]);
    GoodReplaced(t, place, ns[..j] + [it] + ns[j..]);
  }
}
