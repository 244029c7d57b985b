/** The token walk: a loop over the flat token array that keeps the nesting level by hand in a
    stack of remaining counts, closes containers with virtual calls, and can confine its
    callbacks to the members of one level-1 object. */
module JsonWalk {
  import opened Options
  import opened JsonText

  /** One invocation of the callback; `seqNo` is the token index, or TOK_VIRTUAL when a container closes. */
  datatype Call = Call(seqNo: int, tok: Tok, hit: int, lvl: nat, rem: int)

  const TOK_VIRTUAL := -1
  const STACK_SIZE := 32

  // ---- the walk as a state machine ---------------------------------------------------------

  /** An open container and how many of its values are still to come. */
  datatype Frame = Frame(tok: Tok, rem: int)

  datatype Walker = Walker(stack: seq<Frame>, hit: int)

  datatype Entered = Entered(w: Walker, calls: seq<Call>)

  /** What a walk goes on to do: its final state, its calls, and the deepest level it reaches. */
  datatype Trace = Trace(w: Walker, calls: seq<Call>, peak: nat)

  predicate Named(text: string, t: Tok, id: Option<string>) {
    id.Some? && t.start <= t.end <= |text| && text[t.start..t.end] == id.value
  }

  function Remaining(w: Walker): int {
    if |w.stack| == 0 then 0 else w.stack[|w.stack| - 1].rem
  }

  function CountDown(stack: seq<Frame>): seq<Frame>
    requires |stack| > 0
  {
    var n := |stack| - 1;
    stack[..n] + [stack[n].(rem := stack[n].rem - 1)]
  }

  /** A token that uses up one of its container's values: anything but a key. */
  predicate Counts(tok: Tok) { tok.ty != TStr || tok.size == 0 }

  function Emit(seqNo: int, tok: Tok, hit: int, lvl: nat, rem: int, id: Option<string>): seq<Call> {
    if id.None? || lvl == hit then [Call(seqNo, tok, hit, lvl, rem)] else []
  }

  /** Taking in token `k`, before any container is closed. */
  function Enter(w: Walker, k: nat, tok: Tok, text: string, id: Option<string>): Entered {
    var counted := if |w.stack| > 0 && Counts(tok) then CountDown(w.stack) else w.stack;
    var stack := if IsContainer(tok) then counted + [Frame(tok, tok.size)] else counted;
    var hit := if w.hit == -1 && |stack| == 1 && IsId(tok) && Named(text, tok, id) then 2 else w.hit;
    Entered(Walker(stack, hit), Emit(k, tok, w.hit, |w.stack|, Remaining(w), id))
  }

  function Clear(hit: int, lvl: nat): int {
    if hit != -1 && lvl < hit then -1 else hit
  }

  /** Closing every container whose count has run out. */
  function Close(w: Walker): Entered
    decreases |w.stack|
  {
    if |w.stack| == 0 || Remaining(w) != 0 then Entered(w, [])
    else
      var n := |w.stack| - 1;
      var e := Close(Walker(w.stack[..n], Clear(w.hit, n)));
      Entered(e.w, [Call(TOK_VIRTUAL, w.stack[n].tok, w.hit, n + 1, 0)] + e.calls)
  }

  function Before(calls: seq<Call>, peak: nat, t: Trace): Trace {
    Trace(t.w, calls + t.calls, Max(peak, t.peak))
  }

  function Run(toks: seq<Tok>, k: nat, w: Walker, text: string, id: Option<string>): Trace
    requires k <= |toks|
    decreases |toks| - k, 0
  {
    if k == |toks| then Trace(w, [], 0)
    else
      var e := Enter(w, k, toks[k], text, id);
      Before(e.calls, |e.w.stack|, Resume(toks, k + 1, e.w, text, id))
  }

  function Resume(toks: seq<Tok>, k: nat, w: Walker, text: string, id: Option<string>): Trace
    requires k <= |toks|
    decreases |toks| - k, 1
  {
    var c := Close(w);
    Before(c.calls, 0, Run(toks, k, c.w, text, id))
  }

  const START := Walker([], -1)

  // ---- the bracketed traversal of a tree --------------------------------------------------

  function HitAtKey(key: string, lvl: nat, hit: int, id: Option<string>): int {
    if hit == -1 && lvl == 1 && id == Some(key) then 2 else hit
  }

  function HitAfter(v: Json, lvl: nat, hit: int, id: Option<string>): int
    decreases v, 1
  {
    if v.Coll? then Clear(HitAfterItems(v.isObj, v.items, lvl + 1, hit, id), lvl) else hit
  }

  function HitAtVal(isObj: bool, it: Item, lvl: nat, hit: int, id: Option<string>): int {
    if isObj then HitAtKey(it.key, lvl, hit, id) else hit
  }

  function HitAfterItems(isObj: bool, items: seq<Item>, lvl: nat, hit: int, id: Option<string>): int
    decreases items, 0
  {
    if |items| == 0 then hit
    else HitAfterItems(isObj, items[1..], lvl,
                       HitAfter(items[0].val, lvl, HitAtVal(isObj, items[0], lvl, hit, id), id), id)
  }

  /** The calls for a value at nesting depth `lvl`: its own token at that depth, the tokens of its
      items one deeper, and one virtual call that closes it. `k` is the index of its token, `off`
      where its text starts, `rem` how many values its parent still expects. */
  function Calls(v: Json, lvl: nat, k: nat, off: nat, hit: int, rem: int, id: Option<string>): seq<Call>
    decreases v, 1
  {
    Emit(k, HeadTok(v, off), hit, lvl, rem, id)
    + if v.Coll? then
        ItemCalls(v.isObj, v.items, lvl + 1, k + 1, off + 1, hit, id)
        + [Call(TOK_VIRTUAL, HeadTok(v, off), HitAfterItems(v.isObj, v.items, lvl + 1, hit, id), lvl + 1, 0)]
      else []
  }

  function KeyCalls(isObj: bool, items: seq<Item>, lvl: nat, k: nat, off: nat, hit: int, id: Option<string>): seq<Call>
    requires |items| > 0
  {
    if isObj then Emit(k, KeyTok(items[0], off), hit, lvl, |items|, id) else []
  }

  function ValIndex(isObj: bool, k: nat): nat { if isObj then k + 1 else k }

  function ItemCalls(isObj: bool, items: seq<Item>, lvl: nat, k: nat, off: nat, hit: int, id: Option<string>): seq<Call>
    decreases items, 0
  {
    if |items| == 0 then []
    else
      var it, kv := items[0], ValIndex(isObj, k);
      var h := HitAtVal(isObj, it, lvl, hit, id);
      KeyCalls(isObj, items, lvl, k, off, hit, id)
      + Calls(it.val, lvl, kv, ValOff(isObj, it, off), h, |items|, id)
      + ItemCalls(isObj, items[1..], lvl, kv + |Flatten(it.val, ValOff(isObj, it, off))|,
                  off + |PrintItem(isObj, it)| + 1, HitAfter(it.val, lvl, h, id), id)
  }

  // ---- the walk over a flattened tree is that traversal -------------------------------------

  lemma BeforeBefore(a: seq<Call>, p: nat, b: seq<Call>, q: nat, t: Trace)
    ensures Before(a, p, Before(b, q, t)) == Before(a + b, Max(p, q), t)
  {
    assert a + (b + t.calls) == a + b + t.calls;
  }

  lemma ResumeOpen(toks: seq<Tok>, k: nat, w: Walker, text: string, id: Option<string>)
    requires k <= |toks| && |w.stack| > 0 && Remaining(w) != 0
    ensures Resume(toks, k, w, text, id) == Run(toks, k, w, text, id)
  {
    assert [] + Run(toks, k, w, text, id).calls == Run(toks, k, w, text, id).calls;
  }

  lemma ResumeClosed(toks: seq<Tok>, k: nat, below: seq<Frame>, tok: Tok, hit: int, text: string, id: Option<string>)
    requires k <= |toks|
    ensures Resume(toks, k, Walker(below + [Frame(tok, 0)], hit), text, id)
         == Before([Call(TOK_VIRTUAL, tok, hit, |below| + 1, 0)], 0,
                   Resume(toks, k, Walker(below, Clear(hit, |below|)), text, id))
  {
    var w := Walker(below + [Frame(tok, 0)], hit);
    assert w.stack[..|below|] == below;
    var c := Close(Walker(below, Clear(hit, |below|)));
    BeforeBefore([Call(TOK_VIRTUAL, tok, hit, |below| + 1, 0)], 0, c.calls, 0, Run(toks, k, c.w, text, id));
  }

  /** Taking in the whole of a value inside an open container. */
  lemma {:induction false} RunValue(v: Json, toks: seq<Tok>, k: nat, off: nat, w: Walker, text: string, id: Option<string>)
    requires |w.stack| > 0 && At(toks, k, Flatten(v, off)) && At(text, off, Print(v))
    ensures k + |Flatten(v, off)| <= |toks|
    ensures Run(toks, k, w, text, id)
         == Before(Calls(v, |w.stack|, k, off, w.hit, Remaining(w), id), |w.stack| + Depth(v),
                   Resume(toks, k + |Flatten(v, off)|,
                          Walker(CountDown(w.stack), HitAfter(v, |w.stack|, w.hit, id)), text, id))
    decreases v, 1
  {
    hide Run, Resume, Calls, Flatten, Print, At, Enter, HeadTok, Depth, HitAfter;
    FlattenHead(v, off);
    AtLength(toks, k, Flatten(v, off));
    AtIndex(toks, k, Flatten(v, off), 0);
    if v.Coll? {
      RunColl(v, toks, k, off, w, text, id);
    } else {
      EnterScalar(v, k, off, w, text, id);
      RunStep(toks, k, w, text, id);
      CallsOfScalar(v, |w.stack|, k, off, w.hit, Remaining(w), id);
    }
  }

  lemma FlattenHead(v: Json, off: nat)
    ensures |Flatten(v, off)| > 0 && Flatten(v, off)[0] == HeadTok(v, off)
    ensures !v.Coll? ==> |Flatten(v, off)| == 1 && Depth(v) == 0
  {
  }

  lemma EnterScalar(v: Json, k: nat, off: nat, w: Walker, text: string, id: Option<string>)
    requires !v.Coll? && |w.stack| > 0
    ensures Enter(w, k, HeadTok(v, off), text, id)
         == Entered(Walker(CountDown(w.stack), HitAfter(v, |w.stack|, w.hit, id)),
                    Emit(k, HeadTok(v, off), w.hit, |w.stack|, Remaining(w), id))
  {
  }

  lemma RunStep(toks: seq<Tok>, k: nat, w: Walker, text: string, id: Option<string>)
    requires k < |toks|
    ensures var e := Enter(w, k, toks[k], text, id);
            Run(toks, k, w, text, id) == Before(e.calls, |e.w.stack|, Resume(toks, k + 1, e.w, text, id))
  {
  }

  lemma CallsOfColl(v: Json, lvl: nat, k: nat, off: nat, hit: int, rem: int, id: Option<string>)
    requires v.Coll?
    ensures Calls(v, lvl, k, off, hit, rem, id)
         == Emit(k, HeadTok(v, off), hit, lvl, rem, id)
            + ItemCalls(v.isObj, v.items, lvl + 1, k + 1, off + 1, hit, id)
            + [Call(TOK_VIRTUAL, HeadTok(v, off), HitAfterItems(v.isObj, v.items, lvl + 1, hit, id), lvl + 1, 0)]
  {
  }

  lemma CallsOfScalar(v: Json, lvl: nat, k: nat, off: nat, hit: int, rem: int, id: Option<string>)
    requires !v.Coll?
    ensures Calls(v, lvl, k, off, hit, rem, id) == Emit(k, HeadTok(v, off), hit, lvl, rem, id)
  {
  }

  lemma EnterColl(v: Json, k: nat, off: nat, w: Walker, text: string, id: Option<string>)
    requires v.Coll? && |w.stack| > 0
    ensures Enter(w, k, HeadTok(v, off), text, id)
         == Entered(Walker(CountDown(w.stack) + [Frame(HeadTok(v, off), |v.items|)], w.hit),
                    Emit(k, HeadTok(v, off), w.hit, |w.stack|, Remaining(w), id))
  {
  }

  lemma {:induction false} RunColl(v: Json, toks: seq<Tok>, k: nat, off: nat, w: Walker, text: string, id: Option<string>)
    requires v.Coll? && |w.stack| > 0 && At(toks, k, Flatten(v, off)) && At(text, off, Print(v))
    requires k < |toks| && toks[k] == HeadTok(v, off)
    ensures k + |Flatten(v, off)| <= |toks|
    ensures Run(toks, k, w, text, id)
         == Before(Calls(v, |w.stack|, k, off, w.hit, Remaining(w), id), |w.stack| + Depth(v),
                   Resume(toks, k + |Flatten(v, off)|,
                          Walker(CountDown(w.stack), HitAfter(v, |w.stack|, w.hit, id)), text, id))
    decreases v, 0
  {
    hide Run, Resume, Calls, ItemCalls, FlattenItems, Print, PrintItems, At, Enter, HeadTok;
    var tok, down, lvl := HeadTok(v, off), CountDown(w.stack), |w.stack|;
    RunStep(toks, k, w, text, id);
    AtSplit(toks, k, [tok], FlattenItems(v.isObj, v.items, off + 1));
    EnterColl(v, k, off, w, text, id);
    var first := Emit(k, tok, w.hit, lvl, Remaining(w), id);
    RunInside(v, toks, k + 1, off, first, down, w.hit, text, id);
    CallsOfColl(v, lvl, k, off, w.hit, Remaining(w), id);
  }

  /** From just inside a container to the far side of its virtual closing call. */
  lemma {:induction false} RunInside(v: Json, toks: seq<Tok>, k: nat, off: nat, first: seq<Call>, down: seq<Frame>,
                                     hit: int, text: string, id: Option<string>)
    requires v.Coll? && At(text, off, Print(v)) && k <= |toks|
    requires At(toks, k, FlattenItems(v.isObj, v.items, off + 1))
    ensures k + |FlattenItems(v.isObj, v.items, off + 1)| <= |toks|
    ensures Before(first, |down| + 1, Resume(toks, k, Walker(down + [Frame(HeadTok(v, off), |v.items|)], hit), text, id))
         == Before(first + ItemCalls(v.isObj, v.items, |down| + 1, k, off + 1, hit, id)
                   + [Call(TOK_VIRTUAL, HeadTok(v, off), HitAfterItems(v.isObj, v.items, |down| + 1, hit, id), |down| + 1, 0)],
                   |down| + Depth(v),
                   Resume(toks, k + |FlattenItems(v.isObj, v.items, off + 1)|,
                          Walker(down, HitAfter(v, |down|, hit, id)), text, id))
    decreases v, -1
  {
    hide Run, Resume, Calls, Flatten, FlattenItems, PrintItems, At, HeadTok;
    AtLength(toks, k, FlattenItems(v.isObj, v.items, off + 1));
    var tok, lvl, n := HeadTok(v, off), |down| + 1, |FlattenItems(v.isObj, v.items, off + 1)|;
    var w := Walker(down + [Frame(tok, |v.items|)], hit);
    var h := HitAfterItems(v.isObj, v.items, lvl, hit, id);
    var inner := ItemCalls(v.isObj, v.items, lvl, k, off + 1, hit, id);
    var after := Resume(toks, k + n, Walker(down, Clear(h, |down|)), text, id);
    var last := [Call(TOK_VIRTUAL, tok, h, lvl, 0)];
    ResumeClosed(toks, k + n, down, tok, h, text, id);
    if |v.items| == 0 {
      NoItems(v.isObj, lvl, k, off + 1, hit, id);
      assert first + inner + last == first + last;
      BeforeBefore(first, lvl, last, 0, after);
    } else {
      ResumeOpen(toks, k, w, text, id);
      var body := PrintItems(v.isObj, v.items) + [CloseChar(v.isObj)];
      assert Print(v) == [OpenChar(v.isObj)] + body;
      AtSplit(text, off, [OpenChar(v.isObj)], body);
      RunItems(v.isObj, v.items, toks, k, off + 1, w, text, id);
      assert Emptied(w.stack) == down + [Frame(tok, 0)];
      BeforeBefore(inner, lvl + DepthItems(v.items), last, 0, after);
      BeforeBefore(first, lvl, inner + last, lvl + DepthItems(v.items), after);
      assert first + (inner + last) == first + inner + last;
    }
  }

  function Emptied(stack: seq<Frame>): seq<Frame>
    requires |stack| > 0
  {
    stack[..|stack| - 1] + [stack[|stack| - 1].(rem := 0)]
  }

  /** The key of an object member: counted down by nobody, and perhaps the awaited level-1 name. */
  lemma RunKey(it: Item, toks: seq<Tok>, k: nat, off: nat, w: Walker, text: string, id: Option<string>)
    requires |w.stack| > 0 && Remaining(w) > 0 && k < |toks| && toks[k] == KeyTok(it, off)
    requires At(text, off + |it.pre| + 1, it.key)
    ensures Run(toks, k, w, text, id)
         == Before(Emit(k, KeyTok(it, off), w.hit, |w.stack|, Remaining(w), id), |w.stack|,
                   Run(toks, k + 1, Walker(w.stack, HitAtKey(it.key, |w.stack|, w.hit, id)), text, id))
  {
    var t := KeyTok(it, off);
    assert text[t.start..t.end] == it.key;
    ResumeOpen(toks, k + 1, Enter(w, k, t, text, id).w, text, id);
  }

  lemma AtFirstItem<T>(s: seq<T>, k: nat, a: seq<T>, b: seq<T>, c: seq<T>)
    requires At(s, k, a + b + c)
    ensures At(s, k, a) && At(s, k + |a|, b) && At(s, k + |a| + |b|, c)
  {
    AtSplit(s, k, a + b, c);
    AtSplit(s, k, a, b);
  }

  /** Where the tokens and the text of the first item lie, and where the rest starts. */
  lemma FirstItemAt(isObj: bool, items: seq<Item>, toks: seq<Tok>, k: nat, off: nat, text: string)
    requires |items| > 0 && At(toks, k, FlattenItems(isObj, items, off))
    requires At(text, off, PrintItems(isObj, items) + [CloseChar(isObj)])
    ensures At(text, ValOff(isObj, items[0], off), Print(items[0].val))
    ensures At(toks, ValIndex(isObj, k), Flatten(items[0].val, ValOff(isObj, items[0], off)))
    ensures isObj ==> At(text, off + |items[0].pre| + 1, items[0].key)
    ensures isObj ==> k < |toks| && toks[k] == KeyTok(items[0], off)
    ensures var k' := ValIndex(isObj, k) + |Flatten(items[0].val, ValOff(isObj, items[0], off))|;
            var off' := off + |PrintItem(isObj, items[0])| + 1;
      && At(toks, k', FlattenItems(isObj, items[1..], off'))
      && k + |FlattenItems(isObj, items, off)| == k' + |FlattenItems(isObj, items[1..], off')|
      && (|items| > 1 ==> At(text, off', PrintItems(isObj, items[1..]) + [CloseChar(isObj)]))
  {
    hide Print, PrintItem, PrintItems, Flatten, FlattenItems, At, Label;
    var it, p := items[0], ValOff(isObj, items[0], off);
    SplitFirst(isObj, items);
    AtItem(text, off, isObj, it, AfterFirst(isObj, items));
    var keys := if isObj then [KeyTok(it, off)] else [];
    FlattenSplit(isObj, items, off);
    AtFirstItem(toks, k, keys, Flatten(it.val, p), FlattenItems(isObj, items[1..], off + |PrintItem(isObj, it)| + 1));
    if isObj {
      AtLabel(text, off + |it.pre|, it);
      AtIndex(toks, k, keys, 0);
    }
    if |items| > 1 {
      AtSplit(text, off + |PrintItem(isObj, it)|, [','], PrintItems(isObj, items[1..]) + [CloseChar(isObj)]);
    }
  }

  lemma {:induction false} RunFirst(isObj: bool, items: seq<Item>, toks: seq<Tok>, k: nat, off: nat, w: Walker,
                                    text: string, id: Option<string>)
    requires |items| > 0 && |w.stack| > 0 && Remaining(w) == |items|
    requires At(toks, k, FlattenItems(isObj, items, off))
    requires At(text, off, PrintItems(isObj, items) + [CloseChar(isObj)])
    ensures var it, lvl, p := items[0], |w.stack|, ValOff(isObj, items[0], off);
            var h := HitAtVal(isObj, it, lvl, w.hit, id);
            var next := ValIndex(isObj, k) + |Flatten(it.val, p)|;
      next <= |toks| && k <= |toks| &&
      Run(toks, k, w, text, id)
      == Before(KeyCalls(isObj, items, lvl, k, off, w.hit, id)
                + Calls(it.val, lvl, ValIndex(isObj, k), p, h, |items|, id),
                lvl + Depth(it.val),
                Resume(toks, next, Walker(CountDown(w.stack), HitAfter(it.val, lvl, h, id)), text, id))
    decreases items, 0
  {
    hide Run, Resume, Calls, Flatten, FlattenItems, Print, PrintItems, PrintItem, At, ValOff;
    var it, lvl, kv, p := items[0], |w.stack|, ValIndex(isObj, k), ValOff(isObj, items[0], off);
    FirstItemAt(isObj, items, toks, k, off, text);
    var h := HitAtVal(isObj, it, lvl, w.hit, id);
    RunValue(it.val, toks, kv, p, Walker(w.stack, h), text, id);
    var keys := KeyCalls(isObj, items, lvl, k, off, w.hit, id);
    var vals := Calls(it.val, lvl, kv, p, h, |items|, id);
    var after := Resume(toks, kv + |Flatten(it.val, p)|,
                        Walker(CountDown(w.stack), HitAfter(it.val, lvl, h, id)), text, id);
    if isObj {
      RunKey(it, toks, k, off, w, text, id);
      BeforeBefore(keys, lvl, vals, lvl + Depth(it.val), after);
    } else {
      assert keys + vals == vals;
    }
  }

  lemma ItemCallsSplit(isObj: bool, items: seq<Item>, lvl: nat, k: nat, off: nat, hit: int, id: Option<string>)
    requires |items| > 0
    ensures var it, kv, p := items[0], ValIndex(isObj, k), ValOff(isObj, items[0], off);
            var h := HitAtVal(isObj, it, lvl, hit, id);
      ItemCalls(isObj, items, lvl, k, off, hit, id)
      == KeyCalls(isObj, items, lvl, k, off, hit, id) + Calls(it.val, lvl, kv, p, h, |items|, id)
         + ItemCalls(isObj, items[1..], lvl, kv + |Flatten(it.val, p)|, off + |PrintItem(isObj, it)| + 1,
                     HitAfter(it.val, lvl, h, id), id)
  {
  }

  lemma NoItems(isObj: bool, lvl: nat, k: nat, off: nat, hit: int, id: Option<string>)
    ensures ItemCalls(isObj, [], lvl, k, off, hit, id) == [] && FlattenItems(isObj, [], off) == []
  {
  }

  lemma {:induction false} RunItems(isObj: bool, items: seq<Item>, toks: seq<Tok>, k: nat, off: nat, w: Walker,
                                    text: string, id: Option<string>)
    requires |items| > 0 && |w.stack| > 0 && Remaining(w) == |items|
    requires At(toks, k, FlattenItems(isObj, items, off))
    requires At(text, off, PrintItems(isObj, items) + [CloseChar(isObj)])
    ensures k + |FlattenItems(isObj, items, off)| <= |toks|
    ensures Run(toks, k, w, text, id)
         == Before(ItemCalls(isObj, items, |w.stack|, k, off, w.hit, id), |w.stack| + DepthItems(items),
                   Resume(toks, k + |FlattenItems(isObj, items, off)|,
                          Walker(Emptied(w.stack), HitAfterItems(isObj, items, |w.stack|, w.hit, id)), text, id))
    decreases items, 1
  {
    hide Run, Resume, Calls, ItemCalls, KeyCalls, Flatten, FlattenItems, Print, PrintItems, PrintItem, At, ValOff;
    var it, lvl, p := items[0], |w.stack|, ValOff(isObj, items[0], off);
    var h := HitAtVal(isObj, it, lvl, w.hit, id);
    var next, off' := ValIndex(isObj, k) + |Flatten(it.val, p)|, off + |PrintItem(isObj, it)| + 1;
    var w' := Walker(CountDown(w.stack), HitAfter(it.val, lvl, h, id));
    FirstItemAt(isObj, items, toks, k, off, text);
    RunFirst(isObj, items, toks, k, off, w, text, id);
    ItemCallsSplit(isObj, items, lvl, k, off, w.hit, id);
    if |items| == 1 {
      assert items[1..] == [];
      NoItems(isObj, lvl, next, off', w'.hit, id);
      assert CountDown(w.stack) == Emptied(w.stack);
    } else {
      ResumeOpen(toks, next, w', text, id);
      RunItems(isObj, items[1..], toks, next, off', w', text, id);
      assert Emptied(w'.stack) == Emptied(w.stack);
      BeforeBefore(KeyCalls(isObj, items, lvl, k, off, w.hit, id)
                   + Calls(it.val, lvl, ValIndex(isObj, k), p, h, |items|, id), lvl + Depth(it.val),
                   ItemCalls(isObj, items[1..], lvl, next, off', w'.hit, id), lvl + DepthItems(items[1..]),
                   Resume(toks, k + |FlattenItems(isObj, items, off)|,
                          Walker(Emptied(w.stack), HitAfterItems(isObj, items, lvl, w.hit, id)), text, id));
    }
  }

  lemma {:induction false} HitRange(v: Json, lvl: nat, hit: int, id: Option<string>)
    requires hit == -1 || hit == 2
    ensures HitAfter(v, lvl, hit, id) == -1 || HitAfter(v, lvl, hit, id) == 2
    decreases v, 1
  {
    if v.Coll? { HitRangeItems(v.isObj, v.items, lvl + 1, hit, id); }
  }

  lemma {:induction false} HitRangeItems(isObj: bool, items: seq<Item>, lvl: nat, hit: int, id: Option<string>)
    requires hit == -1 || hit == 2
    ensures var h := HitAfterItems(isObj, items, lvl, hit, id); h == -1 || h == 2
    decreases items, 0
  {
    if |items| > 0 {
      var h := HitAtVal(isObj, items[0], lvl, hit, id);
      HitRange(items[0].val, lvl, h, id);
      HitRangeItems(isObj, items[1..], lvl, HitAfter(items[0].val, lvl, h, id), id);
    }
  }

  /** An uninterrupted walk over the tokens of a container is its bracketed traversal; it goes no
      deeper than the tree does and ends as it began, at level 0 and with no name matched. */
  lemma WalkTree(v: Json, id: Option<string>)
    requires v.Coll?
    ensures Run(Flatten(v, 0), 0, START, Print(v), id) == Trace(START, Calls(v, 0, 0, 0, -1, 0, id), Depth(v))
  {
    hide Calls, ItemCalls, Flatten, FlattenItems, Print, PrintItems, HitAfterItems, Run, Resume, Enter, Depth, At, HeadTok;
    var toks, text, tok := Flatten(v, 0), Print(v), HeadTok(v, 0);
    FlattenColl(v, 0);
    WholeAt(toks, [tok], FlattenItems(v.isObj, v.items, 1));
    WholeAt(text, text, []);
    assert text + [] == text;
    RunStep(toks, 0, START, text, id);
    var first := Emit(0, tok, -1, 0, 0, id);
    EnterFirst(v, text, id);
    assert [] + [Frame(tok, |v.items|)] == [Frame(tok, |v.items|)];
    RunInside(v, toks, 1, 0, first, [], -1, text, id);
    CallsOfColl(v, 0, 0, 0, -1, 0, id);
    HitRange(v, 0, -1, id);
    NothingLeft(toks, text, id);
    var calls := Calls(v, 0, 0, 0, -1, 0, id);
    assert HitAfter(v, 0, -1, id) == -1;
    assert Run(toks, 0, START, text, id) == Before(calls, Depth(v), Trace(START, [], 0));
    assert calls + [] == calls;
  }

  lemma WholeAt<T>(s: seq<T>, a: seq<T>, b: seq<T>)
    requires s == a + b
    ensures At(s, 0, a) && At(s, |a|, b)
  {
    AtSplit(s, 0, a, b);
  }

  lemma EnterFirst(v: Json, text: string, id: Option<string>)
    requires v.Coll?
    ensures Enter(START, 0, HeadTok(v, 0), text, id)
         == Entered(Walker([Frame(HeadTok(v, 0), |v.items|)], -1), Emit(0, HeadTok(v, 0), -1, 0, 0, id))
  {
    assert [] + [Frame(HeadTok(v, 0), |v.items|)] == [Frame(HeadTok(v, 0), |v.items|)];
  }

  lemma NothingLeft(toks: seq<Tok>, text: string, id: Option<string>)
    ensures Resume(toks, |toks|, START, text, id) == Trace(START, [], 0)
  {
  }

  lemma FlattenColl(v: Json, off: nat)
    requires v.Coll?
    ensures Flatten(v, off) == [HeadTok(v, off)] + FlattenItems(v.isObj, v.items, off + 1)
  {
  }
}
