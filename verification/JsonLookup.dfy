/** Name lookup over the token array: one-level names, and two-level names id1.id2, found with
    the token walk and its level and name filters. */
module JsonLookup {
  import opened Options
  import opened JsonText
  import opened JsonWalk
  import opened JsonLoop

  /** A name as the caller's text splits: at its only dot, or not at all. */
  datatype Name = Flat(id: string) | Dotted(id1: string, id2: string)

  function FullName(name: Name): string {
    match name
    case Flat(id) => id
    case Dotted(id1, id2) => id1 + "." + id2
  }

  /** What a lookup reports: nothing, id1 without id2, or the index of the value's token. */
  datatype Lookup = Missing | Level1Only | Found(tok: nat)

  const LVL1_MATCH := 1
  const LVL2_MATCH := 2

  /** The search callback: a key with the wanted text at the wanted (or not at the rejected) level. */
  predicate Matches(text: string, id: string, lvlMatch: int, c: Call) {
    && IsId(c.tok)
    && !(lvlMatch > 0 && c.lvl != lvlMatch)
    && !(lvlMatch < 0 && c.lvl == lvlMatch)
    && Named(text, c.tok, Some(id))
  }

  // ---- what a lookup means on the tree ----------------------------------------------------

  /** Where an object's members are: at the top of the text, or inside the i-th top member. */
  datatype Place = Top | Inside(i: nat)

  datatype Finding = NotThere | OnlyId1 | There(place: Place, j: nat)

  function FindKey(items: seq<Item>, id: string): (r: Option<nat>)
    ensures r.Some? ==> r.value < |items| && items[r.value].key == id
                        && forall j :: 0 <= j < r.value ==> items[j].key != id
    ensures r.None? ==> forall j :: 0 <= j < |items| ==> items[j].key != id
  {
    if |items| == 0 then None
    else if items[0].key == id then Some(0)
    else match FindKey(items[1..], id)
         case None => None
         case Some(j) => Some(j + 1)
  }

  /** id2 looked up in a value, when that value is an object. */
  function FindIn(v: Json, id: string): (r: Option<nat>)
    ensures r.Some? ==> v.Coll? && v.isObj && r.value < |v.items| && v.items[r.value].key == id
                        && forall j :: 0 <= j < r.value ==> v.items[j].key != id
    ensures r.None? && v.Coll? && v.isObj ==> forall j :: 0 <= j < |v.items| ==> v.items[j].key != id
  {
    if v.Coll? && v.isObj then FindKey(v.items, id) else None
  }

  /** What the walk finds: once a key id1 has been met, the next container member is searched,
      whether or not it is the value of that key. */
  function HitSearch(items: seq<Item>, id1: string, id2: string, hit: bool): (r: Option<(nat, nat)>)
    ensures r.Some? ==> r.value.0 < |items| && FindIn(items[r.value.0].val, id2) == Some(r.value.1)
  {
    if |items| == 0 then None
    else
      var h := hit || items[0].key == id1;
      var here := if h then FindIn(items[0].val, id2) else None;
      if here.Some? then Some((0, here.value))
      else match HitSearch(items[1..], id1, id2, h && !items[0].val.Coll?)
           case None => None
           case Some(p) => Some((p.0 + 1, p.1))
  }

  function LastKey(name: Name): string { if name.Flat? then name.id else name.id2 }

  function Find(t: Json, name: Name): (r: Finding)
    requires t.Coll?
    ensures r.There? ==> PlaceOk(t, r.place) && r.j < |MembersAt(t, r.place)|
                         && MembersAt(t, r.place)[r.j].key == LastKey(name)
    ensures r.OnlyId1? ==> name.Dotted? && FindKey(t.items, name.id1).Some?
  {
    match name
    case Flat(id) =>
      (match FindKey(t.items, id)
       case None => NotThere
       case Some(j) => There(Top, j))
    case Dotted(id1, id2) =>
      match HitSearch(t.items, id1, id2, false)
      case Some(p) => There(Inside(p.0), p.1)
      case None => if FindKey(t.items, id1).Some? then OnlyId1 else NotThere
  }

  /** What a two-level lookup should mean: the first id2 member of an object that is the value of a key id1. */
  function ScopedSearch(items: seq<Item>, id1: string, id2: string): Option<(nat, nat)> {
    if |items| == 0 then None
    else
      var here := if items[0].key == id1 then FindIn(items[0].val, id2) else None;
      if here.Some? then Some((0, here.value))
      else match ScopedSearch(items[1..], id1, id2)
           case None => None
           case Some(p) => Some((p.0 + 1, p.1))
  }

  function Count(items: seq<Item>, id: string): nat {
    if |items| == 0 then 0 else (if items[0].key == id then 1 else 0) + Count(items[1..], id)
  }

  lemma {:induction false} NoKeyNoHit(items: seq<Item>, id1: string, id2: string)
    requires Count(items, id1) == 0
    ensures HitSearch(items, id1, id2, false).None?
  {
    if |items| > 0 { NoKeyNoHit(items[1..], id1, id2); }
  }

  function Keys(items: seq<Item>): set<string> { set i | 0 <= i < |items| :: items[i].key }

  /** A key id1 whose value is no container, with an object under another name as the next container that holds a key
      which no object at an id1 before it holds; `seen` is what those hold. */
  predicate LeaksFresh(items: seq<Item>, id1: string, pending: bool, seen: set<string>) {
    |items| > 0 &&
    var it, rest := items[0], items[1..];
    if !it.val.Coll? then LeaksFresh(rest, id1, pending || it.key == id1, seen)
    else if it.key == id1 then LeaksFresh(rest, id1, false, if it.val.isObj then seen + Keys(it.val.items) else seen)
    else (pending && it.val.isObj && !(Keys(it.val.items) <= seen)) || LeaksFresh(rest, id1, false, seen)
  }

  lemma KeyFound(items: seq<Item>, id: string)
    ensures FindKey(items, id).Some? <==> id in Keys(items)
  {
  }

  /** What was found among the items from the n-th on. */
  function Later(r: Option<(nat, nat)>, n: nat): Option<(nat, nat)> {
    match r
    case None => None
    case Some(p) => Some((p.0 + n, p.1))
  }

  /** Both searches, one item further. */
  lemma SearchStep(items: seq<Item>, id1: string, id2: string, pending: bool)
    requires |items| > 0
    ensures var it, h := items[0], pending || items[0].key == id1;
            var here := FindIn(it.val, id2);
      && HitSearch(items, id1, id2, pending)
         == (if h && here.Some? then Some((0, here.value))
             else Later(HitSearch(items[1..], id1, id2, h && !it.val.Coll?), 1))
      && ScopedSearch(items, id1, id2)
         == (if it.key == id1 && here.Some? then Some((0, here.value))
             else Later(ScopedSearch(items[1..], id1, id2), 1))
      && (here.Some? <==> it.val.Coll? && it.val.isObj && id2 in Keys(it.val.items))
  {
    hide FindKey, Keys;
    if items[0].val.Coll? { KeyFound(items[0].val.items, id2); }
  }

  lemma {:induction false} NotFresh(items: seq<Item>, id1: string, id2: string, pending: bool, seen: set<string>)
    requires !LeaksFresh(items, id1, pending, seen) && id2 !in seen
    ensures HitSearch(items, id1, id2, pending) == ScopedSearch(items, id1, id2)
  {
    hide HitSearch, ScopedSearch, FindIn, Keys;
    if |items| > 0 {
      var it := items[0];
      SearchStep(items, id1, id2, pending);
      var seen' := if it.val.Coll? && it.val.isObj && it.key == id1 then seen + Keys(it.val.items) else seen;
      if id2 !in seen' {
        NotFresh(items[1..], id1, id2, (pending || it.key == id1) && !it.val.Coll?, seen');
      }
    } else {
      NoneToSearch(id1, id2, pending);
    }
  }

  lemma NoneToSearch(id1: string, id2: string, pending: bool)
    ensures HitSearch([], id1, id2, pending) == None && ScopedSearch([], id1, id2) == None
  {
  }

  lemma {:induction false} FreshFound(items: seq<Item>, id1: string, pending: bool, seen: set<string>) returns (id2: string)
    requires LeaksFresh(items, id1, pending, seen)
    ensures id2 !in seen && HitSearch(items, id1, id2, pending) != ScopedSearch(items, id1, id2)
  {
    hide HitSearch, ScopedSearch, FindIn, Keys;
    var it := items[0];
    if it.val.Coll? && it.key != id1 && pending && it.val.isObj && !(Keys(it.val.items) <= seen) {
      id2 :| id2 in Keys(it.val.items) && id2 !in seen;
      SearchStep(items, id1, id2, pending);
    } else {
      var seen' := if it.val.Coll? && it.val.isObj && it.key == id1 then seen + Keys(it.val.items) else seen;
      id2 := FreshFound(items[1..], id1, (pending || it.key == id1) && !it.val.Coll?, seen');
      SearchStep(items, id1, id2, pending);
    }
  }

  /** The walk keeps to the scope of id1 for every id2, however often id1 occurs, exactly when no scalar at an id1 is
      followed by another object with a key that the objects at id1 before it do not hold. */
  lemma ScopeExact(items: seq<Item>, id1: string)
    ensures (forall id2 :: HitSearch(items, id1, id2, false) == ScopedSearch(items, id1, id2))
       <==> !LeaksFresh(items, id1, false, {})
  {
    if LeaksFresh(items, id1, false, {}) {
      var id2 := FreshFound(items, id1, false, {});
      assert HitSearch(items, id1, id2, false) != ScopedSearch(items, id1, id2);
    } else {
      forall id2 ensures HitSearch(items, id1, id2, false) == ScopedSearch(items, id1, id2) {
        NotFresh(items, id1, id2, false, {});
      }
    }
  }

  /** When the value at the first id1 is an object, looking up id1.id2 gives the first id2 member of that object and
      nothing else in the text. Only when it has none does the search go on: with what follows, if id1 occurs again, or
      else to the report "id1 only". */
  lemma ObjectScope(t: Json, id1: string, id2: string, i: nat)
    requires t.Coll? && FindKey(t.items, id1) == Some(i)
    requires t.items[i].val.Coll? && t.items[i].val.isObj
    ensures Find(t, Dotted(id1, id2))
         == match FindKey(t.items[i].val.items, id2)
            case Some(j) => There(Inside(i), j)
            case None =>
              match HitSearch(t.items[i + 1..], id1, id2, false)
              case Some(p) => There(Inside(i + 1 + p.0), p.1)
              case None => OnlyId1
    ensures Count(t.items, id1) == 1 ==> HitSearch(t.items[i + 1..], id1, id2, false).None?
  {
    ObjectScopeFrom(t.items, id1, id2, i);
    CountAfterFirst(t.items, id1, i);
    if Count(t.items, id1) == 1 {
      NoKeyNoHit(t.items[i + 1..], id1, id2);
    }
  }

  lemma {:induction false} CountAfterFirst(items: seq<Item>, id: string, i: nat)
    requires FindKey(items, id) == Some(i)
    ensures Count(items, id) == 1 + Count(items[i + 1..], id)
  {
    if i > 0 {
      CountAfterFirst(items[1..], id, i - 1);
      assert items[1..][i..] == items[i + 1..];
    }
  }

  lemma FindStep(items: seq<Item>, id: string)
    requires |items| > 0
    ensures FindKey(items, id)
         == if items[0].key == id then Some(0)
            else match FindKey(items[1..], id)
                 case None => None
                 case Some(j) => Some(j + 1)
  {
  }

  lemma {:induction false} ObjectScopeFrom(items: seq<Item>, id1: string, id2: string, i: nat)
    requires FindKey(items, id1) == Some(i)
    requires items[i].val.Coll? && items[i].val.isObj
    ensures HitSearch(items, id1, id2, false)
         == match FindKey(items[i].val.items, id2)
            case Some(j) => Some((i, j))
            case None => Later(HitSearch(items[i + 1..], id1, id2, false), i + 1)
  {
    hide HitSearch, FindKey;
    FindStep(items, id1);
    SearchStep(items, id1, id2, false);
    if i > 0 {
      ObjectScopeFrom(items[1..], id1, id2, i - 1);
      assert items[1..][i..] == items[i + 1..];
    }
  }

  /** {"a":1,"c":{"b":2}}: a.b is answered with the member b of c. */
  lemma ScalarScopeLeaks()
    ensures var b := Item("", "b", "", Prim("2"), "");
            var t := Coll(true, [Item("", "a", "", Prim("1"), ""), Item("", "c", "", Coll(true, [b]), "")]);
      && Print(t) == "{\"a\":1,\"c\":{\"b\":2}}"
      && Find(t, Dotted("a", "b")) == There(Inside(1), 0)
  {
    var b := Item("", "b", "", Prim("2"), "");
    var c := Item("", "c", "", Coll(true, [b]), "");
    var items := [Item("", "a", "", Prim("1"), ""), c];
    assert PrintItems(true, [b]) == PrintItem(true, b) == "\"b\":2";
    assert items[1..] == [c];
    assert PrintItems(true, [c]) == PrintItem(true, c) == "\"c\":{\"b\":2}";
    assert PrintItem(true, items[0]) == "\"a\":1";
    assert FindIn(c.val, "b") == Some(0);
    assert HitSearch([c], "a", "b", true) == Some((0, 0));
  }

  // ---- where the tokens of an item are ------------------------------------------------------

  datatype Pos = Pos(k: nat, off: nat)

  /** The token index and text offset at which item `j` begins, when the first begins at `k` and `off`. */
  function ItemPos(isObj: bool, items: seq<Item>, j: nat, k: nat, off: nat): Pos
    requires j <= |items|
  {
    if j == 0 then Pos(k, off)
    else ItemPos(isObj, items[1..], j - 1,
                 ValIndex(isObj, k) + |Flatten(items[0].val, ValOff(isObj, items[0], off))|,
                 off + |PrintItem(isObj, items[0])| + 1)
  }

  /** The position of member `j` at a place of the text of `t`. */
  function MemberPos(t: Json, place: Place, j: nat): Pos
    requires t.Coll?
    requires PlaceOk(t, place) && j <= |MembersAt(t, place)|
  {
    match place
    case Top => ItemPos(true, t.items, j, 1, 1)
    case Inside(i) =>
      var p := ItemPos(true, t.items, i, 1, 1);
      ItemPos(true, t.items[i].val.items, j, p.k + 2, ValOff(true, t.items[i], p.off) + 1)
  }

  predicate PlaceOk(t: Json, place: Place)
    requires t.Coll?
  {
    place.Inside? ==> place.i < |t.items| && t.items[place.i].val.Coll? && t.items[place.i].val.isObj
  }

  function MembersAt(t: Json, place: Place): seq<Item>
    requires t.Coll? && PlaceOk(t, place)
  {
    match place
    case Top => t.items
    case Inside(i) => t.items[i].val.items
  }

  lemma ItemPosStep(isObj: bool, items: seq<Item>, j: nat, k: nat, off: nat)
    requires j < |items|
    ensures ItemPos(isObj, items, 0, k, off) == Pos(k, off)
    ensures ItemPos(isObj, items, j + 1, k, off)
         == ItemPos(isObj, items[1..], j, ValIndex(isObj, k) + |Flatten(items[0].val, ValOff(isObj, items[0], off))|,
                    off + |PrintItem(isObj, items[0])| + 1)
  {
  }

  lemma {:induction false} ItemTokens(isObj: bool, items: seq<Item>, j: nat, toks: seq<Tok>, k: nat, off: nat)
    requires j < |items| && At(toks, k, FlattenItems(isObj, items, off))
    ensures var p := ItemPos(isObj, items, j, k, off);
            var kv := ValIndex(isObj, p.k);
      && At(toks, p.k, FlattenItem(isObj, items[j], p.off))
      && At(toks, kv, Flatten(items[j].val, ValOff(isObj, items[j], p.off)))
      && kv < |toks| && toks[kv] == HeadTok(items[j].val, ValOff(isObj, items[j], p.off))
      && (isObj ==> toks[p.k] == KeyTok(items[j], p.off))
  {
    hide PrintItem, Print, Flatten, FlattenItems, At;
    var it := items[0];
    var keys := if isObj then [KeyTok(it, off)] else [];
    var vals := Flatten(it.val, ValOff(isObj, it, off));
    var rest := FlattenItems(isObj, items[1..], off + |PrintItem(isObj, it)| + 1);
    FlattenSplit(isObj, items, off);
    AtFirstItem(toks, k, keys, vals, rest);
    AtSplit(toks, k, keys + vals, rest);
    if j == 0 {
      if isObj { AtIndex(toks, k, keys, 0); }
      AtLength(toks, ValIndex(isObj, k), vals);
      AtIndex(toks, ValIndex(isObj, k), vals, 0);
    } else {
      ItemTokens(isObj, items[1..], j - 1, toks, ValIndex(isObj, k) + |vals|, off + |PrintItem(isObj, it)| + 1);
    }
  }

  // ---- the walk finds what the tree says --------------------------------------------------

  function LookupCb(text: string, id: string, lvlMatch: int): Call -> bool {
    c => Matches(text, id, lvlMatch, c)
  }

  lemma NothingHit(isObj: bool, lvl: nat, k: nat, off: nat, hit: int, lid: Option<string>, cb: Call -> bool)
    ensures FirstHit(ItemCalls(isObj, [], lvl, k, off, hit, lid), cb) == None
  {
  }

  /** A search through a list of items is one through the first key, then its value, then the rest. */
  lemma SearchSplit(isObj: bool, items: seq<Item>, lvl: nat, k: nat, off: nat, hit: int, lid: Option<string>, cb: Call -> bool)
    requires |items| > 0
    ensures var it, kv, p := items[0], ValIndex(isObj, k), ValOff(isObj, items[0], off);
            var h := HitAtVal(isObj, it, lvl, hit, lid);
            var key := FirstHit(KeyCalls(isObj, items, lvl, k, off, hit, lid), cb);
            var val := FirstHit(Calls(it.val, lvl, kv, p, h, |items|, lid), cb);
      FirstHit(ItemCalls(isObj, items, lvl, k, off, hit, lid), cb)
      == if key.Some? then key else if val.Some? then val
         else FirstHit(ItemCalls(isObj, items[1..], lvl, kv + |Flatten(it.val, p)|, off + |PrintItem(isObj, it)| + 1,
                                 HitAfter(it.val, lvl, h, lid), lid), cb)
  {
    hide Calls, ItemCalls, KeyCalls, FirstHit, Flatten, PrintItem;
    var it, kv, p := items[0], ValIndex(isObj, k), ValOff(isObj, items[0], off);
    var h := HitAtVal(isObj, it, lvl, hit, lid);
    var keys, vals := KeyCalls(isObj, items, lvl, k, off, hit, lid), Calls(it.val, lvl, kv, p, h, |items|, lid);
    var rest := ItemCalls(isObj, items[1..], lvl, kv + |Flatten(it.val, p)|, off + |PrintItem(isObj, it)| + 1,
                          HitAfter(it.val, lvl, h, lid), lid);
    ItemCallsSplit(isObj, items, lvl, k, off, hit, lid);
    FirstHitAppend(keys + vals, rest, cb);
    FirstHitAppend(keys, vals, cb);
  }

  /** Keys inside a value at level `lvl` are deeper than `lvl`. */
  lemma {:induction false} NothingDeeper(v: Json, lvl: nat, k: nat, off: nat, hit: int, rem: int, lid: Option<string>,
                                         text: string, id: string, lvlMatch: nat)
    requires 0 < lvlMatch <= lvl
    ensures FirstHit(Calls(v, lvl, k, off, hit, rem, lid), LookupCb(text, id, lvlMatch)) == None
    decreases v, 1
  {
    hide Calls, ItemCalls;
    var cb := LookupCb(text, id, lvlMatch);
    var first := Emit(k, HeadTok(v, off), hit, lvl, rem, lid);
    assert FirstHit(first, cb) == None;
    if v.Coll? {
      var inner := ItemCalls(v.isObj, v.items, lvl + 1, k + 1, off + 1, hit, lid);
      var last := [Call(TOK_VIRTUAL, HeadTok(v, off), HitAfterItems(v.isObj, v.items, lvl + 1, hit, lid), lvl + 1, 0)];
      CallsOfColl(v, lvl, k, off, hit, rem, lid);
      NoKeysIn(v.isObj, v.items, lvl + 1, k + 1, off + 1, hit, lid, text, id, lvlMatch);
      FirstHitAppend(first + inner, last, cb);
      FirstHitAppend(first, inner, cb);
    } else {
      CallsOfScalar(v, lvl, k, off, hit, rem, lid);
    }
  }

  lemma {:induction false} NoKeysIn(isObj: bool, items: seq<Item>, lvl: nat, k: nat, off: nat, hit: int,
                                    lid: Option<string>, text: string, id: string, lvlMatch: nat)
    requires 0 < lvlMatch <= lvl && (isObj ==> lvlMatch < lvl)
    ensures FirstHit(ItemCalls(isObj, items, lvl, k, off, hit, lid), LookupCb(text, id, lvlMatch)) == None
    decreases items, 0
  {
    hide Calls, ItemCalls, Flatten, PrintItem, ValOff, HitAfter;
    if |items| == 0 {
      NothingHit(isObj, lvl, k, off, hit, lid, LookupCb(text, id, lvlMatch));
    } else {
      var it, kv, p := items[0], ValIndex(isObj, k), ValOff(isObj, items[0], off);
      var h := HitAtVal(isObj, it, lvl, hit, lid);
      SearchSplit(isObj, items, lvl, k, off, hit, lid, LookupCb(text, id, lvlMatch));
      NothingDeeper(it.val, lvl, kv, p, h, |items|, lid, text, id, lvlMatch);
      NoKeysIn(isObj, items[1..], lvl, kv + |Flatten(it.val, p)|, off + |PrintItem(isObj, it)| + 1,
               HitAfter(it.val, lvl, h, lid), lid, text, id, lvlMatch);
    }
  }

  /** While a name is awaited, nothing below level 1 is shown. */
  lemma {:induction false} Silent(v: Json, lvl: nat, k: nat, off: nat, rem: int, lid: Option<string>, cb: Call -> bool)
    requires lid.Some? && lvl > 0
    ensures FirstHit(Calls(v, lvl, k, off, -1, rem, lid), cb) == None
    decreases v, 1
  {
    hide Calls, ItemCalls;
    if v.Coll? {
      var inner := ItemCalls(v.isObj, v.items, lvl + 1, k + 1, off + 1, -1, lid);
      var last := [Call(TOK_VIRTUAL, HeadTok(v, off), HitAfterItems(v.isObj, v.items, lvl + 1, -1, lid), lvl + 1, 0)];
      CallsOfColl(v, lvl, k, off, -1, rem, lid);
      SilentItems(v.isObj, v.items, lvl + 1, k + 1, off + 1, lid, cb);
      FirstHitAppend([] + inner, last, cb);
      assert [] + inner == inner;
    } else {
      CallsOfScalar(v, lvl, k, off, -1, rem, lid);
    }
  }

  lemma {:induction false} SilentItems(isObj: bool, items: seq<Item>, lvl: nat, k: nat, off: nat, lid: Option<string>,
                                       cb: Call -> bool)
    requires lid.Some? && lvl > 1
    ensures FirstHit(ItemCalls(isObj, items, lvl, k, off, -1, lid), cb) == None
    decreases items, 0
  {
    hide Calls, ItemCalls, Flatten, PrintItem, ValOff, HitAfter;
    if |items| == 0 {
      NothingHit(isObj, lvl, k, off, -1, lid, cb);
    } else {
      var it, kv, p := items[0], ValIndex(isObj, k), ValOff(isObj, items[0], off);
      SearchSplit(isObj, items, lvl, k, off, -1, lid, cb);
      Steady(it.val, lvl, -1, lid);
      Silent(it.val, lvl, kv, p, |items|, lid, cb);
      SilentItems(isObj, items[1..], lvl, kv + |Flatten(it.val, p)|, off + |PrintItem(isObj, it)| + 1, lid, cb);
    }
  }

  predicate IsSteady(lvl: nat, hit: int, lid: Option<string>) {
    (hit == 2 && lvl >= 2) || (hit == -1 && (lvl >= 2 || lid.None?))
  }

  /** Off level 1, or with no name asked for, a value leaves the match state as it was. */
  lemma {:induction false} Steady(v: Json, lvl: nat, hit: int, lid: Option<string>)
    requires IsSteady(lvl, hit, lid)
    ensures HitAfter(v, lvl, hit, lid) == hit
    decreases v, 1
  {
    if v.Coll? { SteadyItems(v.isObj, v.items, lvl + 1, hit, lid); }
  }

  lemma {:induction false} SteadyItems(isObj: bool, items: seq<Item>, lvl: nat, hit: int, lid: Option<string>)
    requires IsSteady(lvl, hit, lid)
    ensures HitAfterItems(isObj, items, lvl, hit, lid) == hit
    decreases items, 0
  {
    if |items| > 0 {
      Steady(items[0].val, lvl, hit, lid);
      SteadyItems(isObj, items[1..], lvl, hit, lid);
    }
  }

  lemma KeyNamed(text: string, it: Item, off: nat, id: string)
    requires At(text, off + |it.pre| + 1, it.key)
    ensures Named(text, KeyTok(it, off), Some(id)) <==> it.key == id
  {
    var t := KeyTok(it, off);
    assert text[t.start..t.end] == it.key;
  }

  lemma KeyHit(items: seq<Item>, lvl: nat, k: nat, off: nat, hit: int, lid: Option<string>, text: string, id: string)
    requires |items| > 0 && lvl > 0 && (lid.None? || lvl == hit)
    requires At(text, off + |items[0].pre| + 1, items[0].key)
    ensures FirstHit(KeyCalls(true, items, lvl, k, off, hit, lid), LookupCb(text, id, lvl))
         == if items[0].key == id then Some(k) else None
  {
    KeyNamed(text, items[0], off, id);
  }

  /** The members of one object, all shown, searched for a key at their own level. */
  lemma {:induction false} KeysSearched(items: seq<Item>, toks: seq<Tok>, lvl: nat, k: nat, off: nat, hit: int,
                                        lid: Option<string>, text: string, id: string)
    requires lvl > 0 && IsSteady(lvl, hit, lid) && (lid.None? || lvl == hit)
    requires At(toks, k, FlattenItems(true, items, off))
    requires |items| > 0 ==> At(text, off, PrintItems(true, items) + [CloseChar(true)])
    ensures FirstHit(ItemCalls(true, items, lvl, k, off, hit, lid), LookupCb(text, id, lvl))
         == match FindKey(items, id)
            case Some(j) => Some(ItemPos(true, items, j, k, off).k)
            case None => None
    decreases |items|
  {
    hide Calls, ItemCalls, KeyCalls, Flatten, FlattenItems, Print, PrintItem, PrintItems, At, Matches, HitAfter,
         FirstHit, ItemPos, ValOff, Label;
    if |items| == 0 {
      NothingHit(true, lvl, k, off, hit, lid, LookupCb(text, id, lvl));
    } else {
      var it, p := items[0], ValOff(true, items[0], off);
      var found := FindKey(items[1..], id);
      ItemPosStep(true, items, if found.Some? then found.value else 0, k, off);
      FirstItemAt(true, items, toks, k, off, text);
      SearchSplit(true, items, lvl, k, off, hit, lid, LookupCb(text, id, lvl));
      Steady(it.val, lvl, hit, lid);
      KeyHit(items, lvl, k, off, hit, lid, text, id);
      NothingDeeper(it.val, lvl, k + 1, p, hit, |items|, lid, text, id, lvl);
      KeysSearched(items[1..], toks, lvl, k + 1 + |Flatten(it.val, p)|, off + |PrintItem(true, it)| + 1, hit, lid, text, id);
    }
  }

  /** A value at level 1 with its members shown. */
  lemma HitValue(v: Json, toks: seq<Tok>, k: nat, off: nat, rem: int, lid: Option<string>, text: string, id: string)
    requires lid.Some? && At(toks, k, Flatten(v, off)) && At(text, off, Print(v))
    ensures FirstHit(Calls(v, 1, k, off, 2, rem, lid), LookupCb(text, id, 2))
         == match FindIn(v, id)
            case Some(j) => Some(ItemPos(true, v.items, j, k + 1, off + 1).k)
            case None => None
  {
    hide Calls, ItemCalls, FlattenItems, PrintItems, At;
    if v.Coll? {
      var cb := LookupCb(text, id, 2);
      var inner := ItemCalls(v.isObj, v.items, 2, k + 1, off + 1, 2, lid);
      var last := [Call(TOK_VIRTUAL, HeadTok(v, off), HitAfterItems(v.isObj, v.items, 2, 2, lid), 2, 0)];
      CallsOfColl(v, 1, k, off, 2, rem, lid);
      assert [] + inner == inner;
      FirstHitAppend(inner, last, cb);
      if v.isObj {
        var body := PrintItems(true, v.items) + [CloseChar(true)];
        assert Print(v) == [OpenChar(true)] + body;
        AtSplit(text, off, [OpenChar(true)], body);
        FlattenColl(v, off);
        AtSplit(toks, k, [HeadTok(v, off)], FlattenItems(true, v.items, off + 1));
        KeysSearched(v.items, toks, 2, k + 1, off + 1, 2, lid, text, id);
      } else {
        NoKeysIn(false, v.items, 2, k + 1, off + 1, 2, lid, text, id, 2);
      }
    } else {
      CallsOfScalar(v, 1, k, off, 2, rem, lid);
    }
  }

  /** The token index of member `j` of the value of member `i`. */
  function SubIndex(items: seq<Item>, i: nat, j: nat, k: nat, off: nat): nat
    requires i < |items| && items[i].val.Coll? && j <= |items[i].val.items|
  {
    var p := ItemPos(true, items, i, k, off);
    ItemPos(true, items[i].val.items, j, p.k + 2, ValOff(true, items[i], p.off) + 1).k
  }

  lemma SubIndexHere(items: seq<Item>, k: nat, off: nat)
    requires |items| > 0
    ensures forall j :: items[0].val.Coll? && 0 <= j <= |items[0].val.items| ==>
              SubIndex(items, 0, j, k, off)
              == ItemPos(true, items[0].val.items, j, k + 2, ValOff(true, items[0], off) + 1).k
  {
  }

  lemma SubIndexNext(items: seq<Item>, i: nat, j: nat, k: nat, off: nat)
    requires i + 1 < |items| && items[i + 1].val.Coll? && j <= |items[i + 1].val.items|
    ensures SubIndex(items, i + 1, j, k, off)
         == SubIndex(items[1..], i, j, k + 1 + |Flatten(items[0].val, ValOff(true, items[0], off))|,
                     off + |PrintItem(true, items[0])| + 1)
  {
    hide ItemPos, Flatten, PrintItem, ValOff;
    ItemPosStep(true, items, i, k, off);
    assert items[i + 1] == items[1..][i];
  }

  /** The confined walk over the top members, with a name pending (`hit`) or not. */
  lemma {:induction false} ScopeSearched(items: seq<Item>, toks: seq<Tok>, k: nat, off: nat, hit: bool,
                                         id1: string, text: string, id2: string)
    requires At(toks, k, FlattenItems(true, items, off))
    requires |items| > 0 ==> At(text, off, PrintItems(true, items) + [CloseChar(true)])
    ensures FirstHit(ItemCalls(true, items, 1, k, off, if hit then 2 else -1, Some(id1)), LookupCb(text, id2, 2))
         == match HitSearch(items, id1, id2, hit)
            case Some(q) => Some(SubIndex(items, q.0, q.1, k, off))
            case None => None
    decreases |items|
  {
    hide Calls, ItemCalls, KeyCalls, Flatten, FlattenItems, Print, PrintItem, PrintItems, At, HitAfter, FindIn, Matches,
         FirstHit, ItemPos, SubIndex, ValOff, Label;
    if |items| == 0 {
      NothingHit(true, 1, k, off, if hit then 2 else -1, Some(id1), LookupCb(text, id2, 2));
    } else {
      var it, cb, p := items[0], LookupCb(text, id2, 2), ValOff(true, items[0], off);
      SubIndexHere(items, k, off);
      var found := HitSearch(items[1..], id1, id2, (hit || it.key == id1) && !it.val.Coll?);
      if found.Some? { SubIndexNext(items, found.value.0, found.value.1, k, off); }
      var lid, h0, h := Some(id1), if hit then 2 else -1, if hit || items[0].key == id1 then 2 else -1;
      FirstItemAt(true, items, toks, k, off, text);
      SearchSplit(true, items, 1, k, off, h0, lid, cb);
      NoKeyShown(items, k, off, h0, lid, cb);
      HitAfterTop(it.val, h, lid);
      if h == 2 {
        HitValue(it.val, toks, k + 1, p, |items|, lid, text, id2);
      } else {
        Silent(it.val, 1, k + 1, p, |items|, lid, cb);
      }
      ScopeSearched(items[1..], toks, k + 1 + |Flatten(it.val, p)|, off + |PrintItem(true, it)| + 1,
                    (hit || it.key == id1) && !it.val.Coll?, id1, text, id2);
    }
  }

  /** A confined walk shows no key of level 1. */
  lemma NoKeyShown(items: seq<Item>, k: nat, off: nat, hit: int, lid: Option<string>, cb: Call -> bool)
    requires |items| > 0 && lid.Some? && hit != 1
    ensures FirstHit(KeyCalls(true, items, 1, k, off, hit, lid), cb) == None
  {
  }

  lemma HitAfterTop(v: Json, hit: int, lid: Option<string>)
    requires hit == -1 || hit == 2
    ensures HitAfter(v, 1, hit, lid) == if v.Coll? then -1 else hit
  {
    if v.Coll? { SteadyItems(v.isObj, v.items, 2, hit, lid); }
  }

  // ---- the lookup -----------------------------------------------------------------------------

  /** The lookup result that a finding stands for: the index of the value's token. */
  function AsLookup(t: Json, f: Finding): Lookup
    requires t.Coll? && (f.There? ==> PlaceOk(t, f.place) && f.j <= |MembersAt(t, f.place)|)
  {
    match f
    case NotThere => Missing
    case OnlyId1 => Level1Only
    case There(place, j) => Found(MemberPos(t, place, j).k + 1)
  }

  /** A one-level walk finds the first top member of that name. */
  lemma TopWalk(t: Json, id: string)
    requires t.Coll? && t.isObj
    ensures FirstHit(Run(Flatten(t, 0), 0, START, Print(t), None).calls, LookupCb(Print(t), id, LVL1_MATCH))
         == match FindKey(t.items, id)
            case Some(j) => Some(MemberPos(t, Top, j).k)
            case None => None
  {
    hide Calls, ItemCalls, Run, PrintItems, FlattenItems;
    TreeParts(t);
    WalkTree(t, None);
    RootCalls(t, None, LookupCb(Print(t), id, LVL1_MATCH));
    KeysSearched(t.items, Flatten(t, 0), 1, 1, 1, -1, None, Print(t), id);
  }

  /** A walk confined to id1 finds what HitSearch says. */
  lemma ScopeWalk(t: Json, id1: string, id2: string)
    requires t.Coll? && t.isObj
    ensures FirstHit(Run(Flatten(t, 0), 0, START, Print(t), Some(id1)).calls, LookupCb(Print(t), id2, LVL2_MATCH))
         == match HitSearch(t.items, id1, id2, false)
            case Some(p) => Some(MemberPos(t, Inside(p.0), p.1).k)
            case None => None
  {
    hide Calls, ItemCalls, Run, PrintItems, FlattenItems;
    TreeParts(t);
    WalkTree(t, Some(id1));
    RootCalls(t, Some(id1), LookupCb(Print(t), id2, LVL2_MATCH));
    ScopeSearched(t.items, Flatten(t, 0), 1, 1, false, id1, Print(t), id2);
  }

  lemma TreeParts(t: Json)
    requires t.Coll? && t.isObj
    ensures At(Flatten(t, 0), 1, FlattenItems(true, t.items, 1))
    ensures At(Print(t), 1, PrintItems(true, t.items) + [CloseChar(true)])
  {
    hide PrintItems, FlattenItems;
    var body := PrintItems(true, t.items) + [CloseChar(true)];
    assert Print(t) == [OpenChar(true)] + body;
    AtSplit(Print(t), 0, [OpenChar(true)], body);
    FlattenColl(t, 0);
    AtSplit(Flatten(t, 0), 0, [HeadTok(t, 0)], FlattenItems(true, t.items, 1));
  }

  /** Only the members of the root object matter to a search for a key. */
  lemma RootCalls(t: Json, lid: Option<string>, cb: Call -> bool)
    requires t.Coll? && t.isObj
    requires forall c: Call :: c.tok.ty == TObj ==> !cb(c)
    ensures FirstHit(Calls(t, 0, 0, 0, -1, 0, lid), cb) == FirstHit(ItemCalls(true, t.items, 1, 1, 1, -1, lid), cb)
  {
    hide ItemCalls;
    var first, inner := Emit(0, HeadTok(t, 0), -1, 0, 0, lid), ItemCalls(true, t.items, 1, 1, 1, -1, lid);
    var last := [Call(TOK_VIRTUAL, HeadTok(t, 0), HitAfterItems(true, t.items, 1, -1, lid), 1, 0)];
    CallsOfColl(t, 0, 0, 0, -1, 0, lid);
    FirstHitAppend(first + inner, last, cb);
    FirstHitAppend(first, inner, cb);
  }

  /** The lookup of a name in the text and tokens of the tree `t`. */
  function Hit(text: string, toks: seq<Tok>, lid: Option<string>, id: string, lvlMatch: int): Option<nat> {
    FirstHit(Run(toks, 0, START, text, lid).calls, LookupCb(text, id, lvlMatch))
  }

  /** What a lookup makes of a text and its tokens, whatever they are. */
  function TokLookup(text: string, toks: seq<Tok>, name: Name): Lookup {
    match name
    case Flat(id) =>
      (match Hit(text, toks, None, id, LVL1_MATCH)
       case Some(k) => Found(k + 1)
       case None => Missing)
    case Dotted(id1, id2) =>
      match Hit(text, toks, Some(id1), id2, LVL2_MATCH)
      case Some(k) => Found(k + 1)
      case None => if Hit(text, toks, None, id1, LVL1_MATCH).Some? then Level1Only else Missing
  }

  /** The tokens nest less deep than the stacks of the walk. */
  predicate Shallow(text: string, toks: seq<Tok>) { Run(toks, 0, START, text, None).peak < STACK_SIZE }

  /** How deep a walk gets does not depend on what it looks for. */
  lemma {:induction false} PeakSame(toks: seq<Tok>, k: nat, w: Walker, u: Walker, text: string, a: Option<string>,
                                    b: Option<string>)
    requires k <= |toks| && w.stack == u.stack
    ensures Run(toks, k, w, text, a).peak == Run(toks, k, u, text, b).peak
    decreases |toks| - k
  {
    hide Close;
    if k < |toks| {
      var d, e := Enter(w, k, toks[k], text, a).w, Enter(u, k, toks[k], text, b).w;
      CloseSame(d, e);
      PeakSame(toks, k + 1, Close(d).w, Close(e).w, text, a, b);
    }
  }

  lemma {:induction false} CloseSame(w: Walker, u: Walker)
    requires w.stack == u.stack
    ensures Close(w).w.stack == Close(u).w.stack
    decreases |w.stack|
  {
    if |w.stack| > 0 && Remaining(w) == 0 {
      var n := |w.stack| - 1;
      CloseSame(Walker(w.stack[..n], Clear(w.hit, n)), Walker(u.stack[..n], Clear(u.hit, n)));
    }
  }

  method LookupJson(text: string, toks: seq<Tok>, name: Name) returns (r: Lookup)
    requires Shallow(text, toks)
    ensures r == TokLookup(text, toks, name)
  {
    hide Run;
    match name {
      case Flat(id) =>
        var jt := Walk(text, toks, None, LookupCb(text, id, LVL1_MATCH));
        r := if jt.Some? then Found(jt.value + 1) else Missing;
      case Dotted(id1, id2) =>
        PeakSame(toks, 0, START, START, text, Some(id1), None);
        var jt := Walk(text, toks, Some(id1), LookupCb(text, id2, LVL2_MATCH));
        if jt.Some? {
          r := Found(jt.value + 1);
        } else {
          var jt1 := Walk(text, toks, None, LookupCb(text, id1, LVL1_MATCH));
          r := if jt1.Some? then Level1Only else Missing;
        }
    }
  }

  /** On the text and tokens of a tree the lookup answers with what the name means in the tree. */
  lemma LookupTree(t: Json, name: Name)
    requires t.Coll? && t.isObj
    ensures Depth(t) < STACK_SIZE ==> Shallow(Print(t), Flatten(t, 0))
    ensures TokLookup(Print(t), Flatten(t, 0), name) == AsLookup(t, Find(t, name))
  {
    hide Run, Calls, Print, Flatten;
    WalkTree(t, None);
    match name
    case Flat(id) => TopWalk(t, id);
    case Dotted(id1, id2) =>
      WalkTree(t, Some(id1));
      ScopeWalk(t, id1, id2);
      TopWalk(t, id1);
  }

  /** The lookup of just the id1 of a two-level name. */
  method LookupId1(text: string, toks: seq<Tok>, id1: string, ghost t: Json) returns (r: Lookup)
    requires t.Coll? && t.isObj && Depth(t) < STACK_SIZE && text == Print(t) && toks == Flatten(t, 0)
    ensures r == match FindKey(t.items, id1)
                 case Some(i) => Found(MemberPos(t, Top, i).k + 1)
                 case None => Missing
  {
    hide Run, Calls, Print, Flatten;
    WalkTree(t, None);
    TopWalk(t, id1);
    var jt := Walk(text, toks, None, LookupCb(text, id1, LVL1_MATCH));
    r := if jt.Some? then Found(jt.value + 1) else Missing;
  }
}
