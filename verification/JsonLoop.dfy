/** The walk as the loop it is, with its level stack in two arrays. */
module JsonLoop {
  import opened Options
  import opened JsonText
  import opened JsonWalk

  /** The token index at which a walk stops: the first call on a real token that the callback accepts. */
  function FirstHit(calls: seq<Call>, cb: Call -> bool): Option<nat> {
    if |calls| == 0 then None
    else if calls[0].seqNo >= 0 && cb(calls[0]) then Some(calls[0].seqNo)
    else FirstHit(calls[1..], cb)
  }

  lemma {:induction false} FirstHitAppend(a: seq<Call>, b: seq<Call>, cb: Call -> bool)
    ensures FirstHit(a + b, cb) == if FirstHit(a, cb).Some? then FirstHit(a, cb) else FirstHit(b, cb)
  {
    if |a| == 0 {
      assert a + b == b;
    } else {
      assert (a + b)[1..] == a[1..] + b;
      FirstHitAppend(a[1..], b, cb);
    }
  }

  /** The array stack of the loop holds the frames of the walker. */
  ghost predicate Holds(remstk: array<int>, remjt: array<Tok>, lvl: nat, stack: seq<Frame>)
    reads remstk, remjt
  {
    && remstk.Length == remjt.Length == STACK_SIZE
    && lvl == |stack| < STACK_SIZE && remstk[0] == 0
    && forall j :: 1 <= j <= lvl ==> remstk[j] == stack[j - 1].rem && remjt[j] == stack[j - 1].tok
  }

  /** The loop body up to the closing of containers; `hitNow` tells whether the callback accepted. */
  method TakeToken(remstk: array<int>, remjt: array<Tok>, lvl0: nat, hit0: int, i: nat, jt: Tok, text: string,
                   lvlId: Option<string>, cb: Call -> bool, ghost w: Walker)
    returns (lvl: nat, hit: int, hitNow: bool)
    requires Holds(remstk, remjt, lvl0, w.stack) && hit0 == w.hit
    requires |Enter(w, i, jt, text, lvlId).w.stack| < STACK_SIZE
    modifies remstk, remjt
    ensures Holds(remstk, remjt, lvl, Enter(w, i, jt, text, lvlId).w.stack)
    ensures hit == Enter(w, i, jt, text, lvlId).w.hit
    ensures FirstHit(Enter(w, i, jt, text, lvlId).calls, cb) == if hitNow then Some(i) else None
  {
    lvl, hit, hitNow := lvl0, hit0, false;
    var rem := remstk[lvl];
    if lvl > 0 && (jt.ty != TStr || jt.size == 0) {
      remstk[lvl] := remstk[lvl] - 1;
    }
    if IsContainer(jt) {
      lvl := lvl + 1;
      if lvlId.None? || lvl0 == hit {
        hitNow := cb(Call(i, jt, hit, lvl0, rem));
      }
      remstk[lvl] := jt.size;
      remjt[lvl] := jt;
    } else {
      if lvlId.None? || lvl0 == hit {
        hitNow := cb(Call(i, jt, hit, lvl0, rem));
      }
    }
    if hit == -1 && lvl == 1 && IsId(jt) {
      if lvlId.Some? && jt.start <= jt.end <= |text| && text[jt.start..jt.end] == lvlId.value {
        hit := lvl + 1;
      }
    }
  }

  lemma NoCalls(w: Walker, cb: Call -> bool)
    ensures FirstHit([], cb) == None && Close(w) == Entered(Close(w).w, [] + Close(w).calls)
  {
  }

  lemma CloseNone(w: Walker)
    requires |w.stack| == 0 || Remaining(w) != 0
    ensures Close(w) == Entered(w, [])
  {
  }

  /** One virtual call; what the callback answers to it is ignored. */
  lemma CloseStep(c: Walker, calls: seq<Call>, cb: Call -> bool)
    requires |c.stack| > 0 && Remaining(c) == 0 && FirstHit(calls, cb) == None
    ensures var n := |c.stack| - 1;
      var call := Call(TOK_VIRTUAL, c.stack[n].tok, c.hit, n + 1, 0);
      var c' := Walker(c.stack[..n], Clear(c.hit, n));
      && Close(c).w == Close(c').w && calls + Close(c).calls == (calls + [call]) + Close(c').calls
      && FirstHit(calls + [call], cb) == None
  {
    hide FirstHit;
    var n := |c.stack| - 1;
    var call := Call(TOK_VIRTUAL, c.stack[n].tok, c.hit, n + 1, 0);
    FirstHitAppend(calls, [call], cb);
    VirtualHits(call, cb);
    JoinCall(calls, call, Close(Walker(c.stack[..n], Clear(c.hit, n))).calls);
  }

  lemma VirtualHits(call: Call, cb: Call -> bool)
    requires call.seqNo == TOK_VIRTUAL
    ensures FirstHit([call], cb) == None
  {
  }

  lemma JoinCall(a: seq<Call>, c: Call, b: seq<Call>)
    ensures a + ([c] + b) == (a + [c]) + b
  {
  }

  /** The inner loop: virtual calls close every container whose count is used up. */
  method CloseContainers(remstk: array<int>, remjt: array<Tok>, lvl0: nat, hit0: int, cb: Call -> bool, ghost w: Walker)
    returns (lvl: nat, hit: int)
    requires Holds(remstk, remjt, lvl0, w.stack) && hit0 == w.hit
    ensures Holds(remstk, remjt, lvl, Close(w).w.stack) && hit == Close(w).w.hit
    ensures FirstHit(Close(w).calls, cb) == None
  {
    hide Close, FirstHit;
    lvl, hit := lvl0, hit0;
    ghost var c, calls: seq<Call> := w, [];
    NoCalls(w, cb);
    while lvl > 0 && remstk[lvl] == 0
      invariant Holds(remstk, remjt, lvl, c.stack) && hit == c.hit
      invariant Close(w) == Entered(Close(c).w, calls + Close(c).calls)
      invariant FirstHit(calls, cb) == None
    {
      var _ := cb(Call(TOK_VIRTUAL, remjt[lvl], hit, lvl, 0)); // what it answers is ignored
      ghost var call := Call(TOK_VIRTUAL, c.stack[lvl - 1].tok, hit, lvl, 0);
      CloseStep(c, calls, cb);
      calls, c := calls + [call], Walker(c.stack[..lvl - 1], Clear(c.hit, lvl - 1));
      lvl := lvl - 1;
      if hit != -1 && lvl < hit { hit := -1; }
    }
    CloseNone(c);
    assert calls + [] == calls;
  }

  method Walk(text: string, toks: seq<Tok>, lvlId: Option<string>, cb: Call -> bool) returns (r: Option<nat>)
    requires Run(toks, 0, START, text, lvlId).peak < STACK_SIZE
    ensures r == FirstHit(Run(toks, 0, START, text, lvlId).calls, cb)
  {
    hide Enter, Close, Run, Resume, FirstHit;
    var remstk := new int[STACK_SIZE](_ => 0);
    var remjt := new Tok[STACK_SIZE](_ => Tok(TPrim, 0, 0, 0));
    var hit, lvl, i, stop := -1, 0, 0, false;
    r := None;
    ghost var w := START;
    while i < |toks| && !stop
      invariant 0 <= i <= |toks|
      invariant Holds(remstk, remjt, lvl, w.stack) && hit == w.hit && fresh(remstk) && fresh(remjt)
      invariant stop ==> r == FirstHit(Run(toks, 0, START, text, lvlId).calls, cb)
      invariant !stop ==> r == None && Run(toks, i, w, text, lvlId).peak < STACK_SIZE
      invariant !stop ==> FirstHit(Run(toks, 0, START, text, lvlId).calls, cb)
                          == FirstHit(Run(toks, i, w, text, lvlId).calls, cb)
    {
      ghost var e := Enter(w, i, toks[i], text, lvlId);
      ghost var c := Close(e.w);
      WalkStep(toks, i, w, text, lvlId, cb);
      var hitNow;
      lvl, hit, hitNow := TakeToken(remstk, remjt, lvl, hit, i, toks[i], text, lvlId, cb, w);
      if hitNow {
        r, stop := Some(i), true;
      }
      lvl, hit := CloseContainers(remstk, remjt, lvl, hit, cb, e.w);
      w, i := c.w, i + 1;
    }
    if !stop { WalkEnd(toks, w, text, lvlId, cb); }
  }

  lemma WalkStep(toks: seq<Tok>, k: nat, w: Walker, text: string, id: Option<string>, cb: Call -> bool)
    requires k < |toks|
    ensures var e := Enter(w, k, toks[k], text, id);
            var c := Close(e.w);
            var t := Run(toks, k + 1, c.w, text, id);
      && Run(toks, k, w, text, id).peak == Max(|e.w.stack|, t.peak)
      && FirstHit(Run(toks, k, w, text, id).calls, cb)
         == if FirstHit(e.calls, cb).Some? then FirstHit(e.calls, cb)
            else if FirstHit(c.calls, cb).Some? then FirstHit(c.calls, cb) else FirstHit(t.calls, cb)
  {
    hide Enter, Close;
    var e := Enter(w, k, toks[k], text, id);
    var c := Close(e.w);
    var t := Run(toks, k + 1, c.w, text, id);
    RunStep(toks, k, w, text, id);
    FirstHitAppend(e.calls, Resume(toks, k + 1, e.w, text, id).calls, cb);
    FirstHitAppend(c.calls, t.calls, cb);
  }

  lemma WalkEnd(toks: seq<Tok>, w: Walker, text: string, id: Option<string>, cb: Call -> bool)
    ensures FirstHit(Run(toks, |toks|, w, text, id).calls, cb) == None
  {
  }
}
