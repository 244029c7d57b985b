/** Whole runs of the server: every interleaving of the atomic steps. */
module RxRuns {
  import opened Options
  import opened RxState
  import opened RxSafety

  datatype Event =
    | Connects(req: Req)
    | Evicts(req: Req, ch: nat)
    | Passes(i: nat, leave: bool)
    | Starts(i: nat)
    | Kicked(i: nat)
    | Closes(i: nat)
    | Autorun(i: nat)
    | Leaves(i: nat)

  function Apply(st: State, e: Event): State {
    match e
    case Connects(req) => Connect(st, req)
    case Evicts(req, ch) => Evict(st, req, ch)
    case Passes(i, leave) => if i < |st.conns| then Pass(st, i, leave) else st
    case Starts(i) => if i < |st.conns| then Start(st, i) else st
    case Kicked(i) => if i < |st.conns| then Kick(st, i) else st
    case Closes(i) => if i < |st.conns| then Close(st, i) else st
    case Autorun(i) => if i < |st.conns| then MarkArun(st, i) else st
    case Leaves(i) => if i < |st.conns| then Leave(st, i) else st
  }

  /** What must hold before a step, beyond what the code tests. */
  predicate Safe(st: State, e: Event) {
    match e
    case Connects(req) => ConnectSafe(st, req)
    case Evicts(req, ch) => EvictSafe(st, req, ch)
    case _ => true
  }

  function Run(st: State, es: seq<Event>): State
    decreases |es|
  {
    if |es| == 0 then st else Run(Apply(st, es[0]), es[1..])
  }

  predicate SafeRun(st: State, es: seq<Event>)
    decreases |es|
  {
    |es| == 0 || (Safe(st, es[0]) && SafeRun(Apply(st, es[0]), es[1..]))
  }

  function Fresh(slots: nat, channels: nat): State {
    State(seq(slots, _ => InitConn), seq(channels, _ => InitChan), seq(channels, _ => 0), seq(channels, _ => 0))
  }

  lemma FreshInv(slots: nat, channels: nat)
    ensures Inv(Fresh(slots, channels))
  {
  }

  /** From a good state a step leads to a good state exactly when it is safe. */
  lemma StepExact(st: State, e: Event)
    requires Inv(st)
    ensures Inv(Apply(st, e)) <==> Safe(st, e)
  {
    hide Inv;
    match e
    case Connects(req) => ConnectInv(st, req);
    case Evicts(req, ch) => EvictInv(st, req, ch);
    case Passes(i, leave) => if i < |st.conns| { PassInv(st, i, leave); }
    case Starts(i) => if i < |st.conns| { StartInv(st, i); }
    case Kicked(i) => if i < |st.conns| { FlagInv(st, i); }
    case Closes(i) => if i < |st.conns| { FlagInv(st, i); }
    case Autorun(i) => if i < |st.conns| { FlagInv(st, i); }
    case Leaves(i) => if i < |st.conns| { LeaveInv(st, i); }
  }

  // ---- what an unsafe step does ------------------------------------------------------------------------

  /** A live connection is on a channel that is not busy, or a busy channel has no owner. */
  ghost predicate Harm(st: State) {
    || (exists i :: Owner(st, i) && !(0 <= st.conns[i].chan < |st.chans| && st.chans[st.conns[i].chan].busy))
    || (exists ch :: 0 <= ch < |st.chans| && st.chans[ch].busy && forall i :: !OwnerOn(st, i, ch))
  }

  lemma GoodNoHarm(st: State)
    requires Inv(st)
    ensures !Harm(st)
  {
  }

  /** Joining a connection: without a task the channel is freed under it, and if it was told to stop, its next pass frees
      the channel under the new one. */
  lemma UnsafeJoin(s: Scan, req: Req)
    requires UsesPartner(s, req) && Inv(s.st) && ScannedTo(s.st, |s.st.conns|, req, s.free, s.other)
    requires !(req.taskOk && (SndOrWf(req.ty) ==> !s.st.conns[s.other.value].stopData))
    ensures var r := Settle(s, req);
      s.other.value < |r.conns| && (Harm(r) || Harm(Pass(r, s.other.value, false)))
  {
    var st, i, o := s.st, s.free.value, s.other.value;
    var r := Settle(s, req);
    OnChannel(st, o);
    assert i != o && Owner(st, o);
    if !req.taskOk {
      assert Owner(r, o) && r.conns[o].chan == st.conns[o].chan && !r.chans[st.conns[o].chan].busy;
    } else {
      var q := Pass(r, o, false);
      assert Owner(q, i) && q.conns[i].chan == st.conns[o].chan && !q.chans[st.conns[o].chan].busy;
    }
  }

  lemma UnsafePreempt(st: State, ch: nat)
    requires Inv(st) && !PreemptSafe(st, ch)
    ensures Harm(Preempt(st, ch))
  {
    var r, k := Preempt(st, ch), st.chans[ch].conn.value;
    assert Owner(st, k);
    var w := WhoStays(st, ch, k);
    assert Owner(r, w) && r.conns[w].chan == ch && !r.chans[ch].busy;
  }

  /** An unsafe step, alone or with the next pass of one task loop, parts a live connection from its channel. */
  lemma UnsafeHarms(st: State, e: Event)
    requires Inv(st) && !Safe(st, e)
    ensures Harm(Apply(st, e)) || exists o :: 0 <= o < |Apply(st, e).conns| && Harm(Pass(Apply(st, e), o, false))
  {
    hide Inv, Harm, Settle, Preempt, PreemptSafe;
    match e
    case Connects(req) =>
      ScanInv(st, 0, req, None, None, 0);
      UnsafeJoin(ScanFrom(st, 0, req, None, None, 0), req);
    case Evicts(req, ch) =>
      ScanInv(st, 0, req, None, None, 0);
      var s := ScanFrom(st, 0, req, None, None, 0);
      BystanderInv(s.st, s.free.value, InitConn.(ty := req.ty));
      UnsafePreempt(SetConn(s.st, s.free.value, InitConn.(ty := req.ty)), ch);
  }

  /** From a good state a step is safe exactly when neither it, nor it and the next pass of any task loop, leaves a live
      connection without its channel or a busy channel without an owner. */
  lemma HarmExact(st: State, e: Event)
    requires Inv(st)
    ensures Safe(st, e) <==>
      && !Harm(Apply(st, e))
      && forall o :: 0 <= o < |Apply(st, e).conns| ==> !Harm(Pass(Apply(st, e), o, false))
  {
    hide Inv, Harm, Safe, Apply, Pass;
    StepExact(st, e);
    if Safe(st, e) {
      var r := Apply(st, e);
      GoodNoHarm(r);
      forall o | 0 <= o < |r.conns| ensures !Harm(Pass(r, o, false)) {
        PassInv(r, o, false);
        GoodNoHarm(Pass(r, o, false));
      }
    } else {
      UnsafeHarms(st, e);
    }
  }

  /** Every run of safe steps from a good state stays good throughout. */
  lemma {:induction false} RunInv(st: State, es: seq<Event>, k: nat)
    requires Inv(st) && SafeRun(st, es) && k <= |es|
    ensures Inv(Run(st, es[..k]))
    decreases k
  {
    hide Inv, Safe, Apply;
    if k > 0 {
      StepExact(st, es[0]);
      RunInv(Apply(st, es[0]), es[1..], k - 1);
      assert es[..k][1..] == es[1..][..k - 1];
    }
  }

  /** A connect with its retries is a run of the atomic steps. */
  function RetryEvents(req: Req, evicted: seq<nat>): seq<Event> {
    if |evicted| == 0 then [Connects(req)] else [Evicts(req, evicted[0])] + RetryEvents(req, evicted[1..])
  }

  lemma {:induction false} RetryIsRun(st: State, req: Req, evicted: seq<nat>)
    ensures ConnectRetry(st, req, evicted) == Run(st, RetryEvents(req, evicted))
    decreases |evicted|
  {
    hide Connect, Evict;
    var es := RetryEvents(req, evicted);
    if |evicted| == 0 {
      assert Run(Apply(st, es[0]), es[1..]) == Apply(st, es[0]);
    } else {
      assert es[1..] == RetryEvents(req, evicted[1..]);
      RetryIsRun(Evict(st, req, evicted[0]), req, evicted[1..]);
    }
  }

  // ---- what a good state means -------------------------------------------------------------------------

  /** A partner that conn_other reports is alive, on the same channel, reports back, and neither has been
      told to stop: a reused slot is never mistaken for it. */
  lemma OtherIsLive(st: State, i: nat)
    requires Inv(st) && Owner(st, i)
    ensures var o := ConnOther(st, i, if st.conns[i].ty == Sound then Waterfall else Sound);
      && (o.Some? ==> Owner(st, o.value) && Partners(st, i, o.value)
                      && ConnOther(st, o.value, st.conns[i].ty) == Some(i))
      && (o.None? <==> forall j :: Owner(st, j) && st.conns[j].chan == st.conns[i].chan ==> j == i)
  {
    var o := ConnOther(st, i, if st.conns[i].ty == Sound then Waterfall else Sound);
    if o.Some? {
      assert Owner(st, o.value);
      assert Partners(st, i, o.value);
    } else {
      assert forall j :: Owner(st, j) && Owner(st, i) && i != j && st.conns[i].chan == st.conns[j].chan ==> Partners(st, i, j);
    }
  }

  /** A channel on the data pump is headed by a live sound connection, as the pump asserts. */
  lemma PumpAsserts(st: State, ch: nat)
    requires Inv(st) && ch < |st.chans| && st.chans[ch].enabled
    ensures st.chans[ch].conn.Some? && OwnerOn(st, st.chans[ch].conn.value, ch)
    ensures st.conns[st.chans[ch].conn.value].ty == Sound
  {
  }

  /** In a run, whenever conn_other is asked it reports the live partner or, when there is none, nothing. */
  lemma PartnersInRun(slots: nat, channels: nat, es: seq<Event>, k: nat, i: nat)
    requires SafeRun(Fresh(slots, channels), es) && k <= |es|
    ensures var st := Run(Fresh(slots, channels), es[..k]);
      Owner(st, i) ==>
        var o := ConnOther(st, i, if st.conns[i].ty == Sound then Waterfall else Sound);
        && (o.Some? ==> Owner(st, o.value) && Partners(st, i, o.value)
                        && ConnOther(st, o.value, st.conns[i].ty) == Some(i))
        && (o.None? <==> forall j :: Owner(st, j) && st.conns[j].chan == st.conns[i].chan ==> j == i)
  {
    hide Run, SafeRun, Inv, ConnOther;
    FreshInv(slots, channels);
    RunInv(Fresh(slots, channels), es, k);
    var st := Run(Fresh(slots, channels), es[..k]);
    if Owner(st, i) { OtherIsLive(st, i); }
  }

  /** In a run, the pump's assertions hold. */
  lemma PumpInRun(slots: nat, channels: nat, es: seq<Event>, k: nat, ch: nat)
    requires SafeRun(Fresh(slots, channels), es) && k <= |es|
    ensures var st := Run(Fresh(slots, channels), es[..k]);
      ch < |st.chans| && st.chans[ch].enabled ==>
        var c := st.chans[ch].conn;
        c.Some? && OwnerOn(st, c.value, ch) && st.conns[c.value].ty == Sound
  {
    hide Run, SafeRun, Inv;
    FreshInv(slots, channels);
    RunInv(Fresh(slots, channels), es, k);
    var st := Run(Fresh(slots, channels), es[..k]);
    if ch < |st.chans| && st.chans[ch].enabled { PumpAsserts(st, ch); }
  }

  /** In a run, a channel is busy exactly while it has an owner; it has at most one of each type; and it has
      been freed once for every time it was taken, but for the time it is busy. */
  lemma ChannelsInRun(slots: nat, channels: nat, es: seq<Event>, k: nat, ch: nat)
    requires SafeRun(Fresh(slots, channels), es) && k <= |es|
    ensures var st := Run(Fresh(slots, channels), es[..k]);
      ch < |st.chans| ==>
        && (st.chans[ch].busy <==> exists i :: OwnerOn(st, i, ch))
        && (forall i, j :: OwnerOn(st, i, ch) && OwnerOn(st, j, ch) && i != j ==> st.conns[i].ty != st.conns[j].ty)
        && ch < |st.allocs| && ch < |st.frees|
        && st.allocs[ch] == st.frees[ch] + (if st.chans[ch].busy then 1 else 0)
  {
    FreshInv(slots, channels);
    RunInv(Fresh(slots, channels), es, k);
    var st := Run(Fresh(slots, channels), es[..k]);
    forall i, j | OwnerOn(st, i, ch) && OwnerOn(st, j, ch) && i != j ensures st.conns[i].ty != st.conns[j].ty {
      assert Partners(st, i, j);
    }
  }

  // ---- runs that leave the good states --------------------------------------------------------------------

  function SndReq(sess: int, taskOk: bool): Req { Req(Sound, sess, true, [0, 1], 2, false, 0, taskOk) }

  function WfReq(sess: int, taskOk: bool): Req { Req(Waterfall, sess, true, [0, 1], 2, false, 0, taskOk) }

  const SndOn0 := Conn(true, Sound, None, 0, true, 7, false, false, false)
  const WfOn0 := Conn(true, Waterfall, Some(0), 0, true, 7, false, false, false)

  function Slots(a: Conn, b: Conn, c: Chan, d: Chan, taken: seq<nat>): State {
    State([a, b, InitConn], [c, d], taken, [0, 0])
  }

  const Head0 := Chan(true, false, Some(0))

  function Single(): State { Slots(SndOn0, InitConn, Head0, InitChan, [1, 0]) }

  function Paired(): State { Slots(SndOn0.(other := Some(1)), WfOn0, Head0, InitChan, [1, 0]) }

  /** After a sound and a waterfall connect, the pair of one client is on channel 0. */
  lemma PairConnects()
    ensures Run(Fresh(3, 2), [Connects(SndReq(7, true)), Connects(WfReq(7, true))]) == Paired()
  {
    var st0 := Slots(InitConn, InitConn, InitChan, InitChan, [0, 0]);
    assert Fresh(3, 2) == st0;
    var e1, e2 := Connects(SndReq(7, true)), Connects(WfReq(7, true));
    SndConnects();
    WfConnects();
    assert [e1, e2][1..] == [e2] && [e2][1..] == [];
    assert Run(Single(), [e2]) == Run(Apply(Single(), e2), []) == Paired();
  }

  lemma SndConnects()
    ensures Connect(Slots(InitConn, InitConn, InitChan, InitChan, [0, 0]), SndReq(7, true)) == Single()
  {
    var st, req := Slots(InitConn, InitConn, InitChan, InitChan, [0, 0]), SndReq(7, true);
    assert ScanFrom(st, 2, req, Some(0), None, 0) == ScanFrom(st, 3, req, Some(0), None, 0);
    assert ScanFrom(st, 1, req, Some(0), None, 0) == ScanFrom(st, 2, req, Some(0), None, 0);
    assert ScanFrom(st, 0, req, None, None, 0) == Scanned(st, Some(0), None, 0);
    assert FirstFree(st.chans, [0, 1]) == Some(0);
  }

  lemma WfConnects()
    ensures Connect(Single(), WfReq(7, true)) == Paired()
  {
    var st, req := Single(), WfReq(7, true);
    ScanSingle(req);
    assert st.conns[0] == SndOn0;
  }

  lemma ScanSingle(req: Req)
    requires req.ty == Waterfall && req.sess == 7
    ensures ScanFrom(Single(), 0, req, None, None, 0) == Scanned(Single(), Some(1), Some(0), 0)
  {
    var st := Single();
    assert ScanFrom(st, 2, req, Some(1), Some(0), 0) == ScanFrom(st, 3, req, Some(1), Some(0), 0);
    assert ScanFrom(st, 1, req, None, Some(0), 0) == ScanFrom(st, 2, req, Some(1), Some(0), 0);
  }

  /** The waterfall side told to stop, its sound side gone. */
  function Stopping(): State { Slots(InitConn, WfOn0.(stopData := true), Head0, InitChan, [1, 0]) }

  lemma SndLeaves()
    ensures Apply(Paired(), Passes(0, true)) == Stopping()
  {
  }

  lemma ScanStopping(req: Req, other: Option<nat>)
    requires req.ty == Sound && other == (if req.sess == 7 then Some(1) else None)
    ensures ScanFrom(Stopping(), 0, req, None, None, 0) == Scanned(Stopping(), Some(0), other, 0)
  {
    var st := Stopping();
    assert ScanFrom(st, 2, req, Some(0), other, 0) == ScanFrom(st, 3, req, Some(0), other, 0);
    assert ScanFrom(st, 1, req, Some(0), None, 0) == ScanFrom(st, 2, req, Some(0), other, 0);
  }

  /** The sound side is kicked and leaves; the same client's sound connects again before the waterfall loop has
      come round. It shares a channel with a connection that is about to free it, and after that pass it is
      live on a channel that is not busy. */
  lemma RejoinBreaks()
    ensures var es := [Passes(0, true), Connects(SndReq(7, true)), Passes(1, false)];
            var st := Run(Paired(), es);
      !SafeRun(Paired(), es) && OwnerOn(st, 0, 0) && |st.chans| == 2 && !st.chans[0].busy
  {
    var st2 := Slots(SndOn0.(other := Some(1)), WfOn0.(stopData := true, other := Some(0)), Head0, InitChan, [1, 0]);
    var e0, e1, e2 := Passes(0, true), Connects(SndReq(7, true)), Passes(1, false);
    SndLeaves();
    ScanStopping(SndReq(7, true), Some(1));
    assert Apply(Stopping(), e1) == st2;
    assert [e0, e1, e2][1..] == [e1, e2] && [e1, e2][1..] == [e2] && [e2][1..] == [];
    assert Run(st2, [e2]) == Run(Apply(st2, e2), []);
    assert Run(Stopping(), [e1, e2]) == Run(st2, [e2]);
  }

  /** A waterfall connects for a live sound stream but no task is available: the sound stream's channel is freed. */
  lemma NoTaskBreaks()
    ensures var st := Connect(Single(), WfReq(7, false));
      !ConnectSafe(Single(), WfReq(7, false)) && OwnerOn(st, 0, 0) && |st.chans| == 2 && !st.chans[0].busy
  {
    ScanSingle(WfReq(7, false));
  }

  /** The sound side of channel 0 leaves; its slot is taken by an autorun on channel 1. The record of channel 0
      still names that slot, so evicting "the autorun of channel 0" removes the one on channel 1: channel 1
      stays busy with no owner. */
  lemma StaleVictimBreaks()
    ensures var es := [Passes(0, true), Connects(SndReq(8, true)), Autorun(0), Evicts(SndReq(9, true), 0)];
            var st := Run(Paired(), es);
      !SafeRun(Paired(), es) && |st.chans| == 2 && st.chans[1].busy && (forall i :: !OwnerOn(st, i, 1))
  {
    hide Apply, Safe;
    var e0, e1, e2, e3 := Passes(0, true), Connects(SndReq(8, true)), Autorun(0), Evicts(SndReq(9, true), 0);
    SndLeaves();
    ArunConnects();
    ArunEvicted();
    assert [e0, e1, e2, e3][1..] == [e1, e2, e3] && [e1, e2, e3][1..] == [e2, e3] && [e2, e3][1..] == [e3] && [e3][1..] == [];
    assert Run(Taken(true), [e3]) == Run(Apply(Taken(true), e3), []);
    assert Run(Taken(false), [e2, e3]) == Run(Taken(true), [e3]);
    assert Run(Stopping(), [e1, e2, e3]) == Run(Taken(false), [e2, e3]);
  }

  /** The slot of the sound side that left is taken by a sound connection on channel 1. */
  function Taken(arun: bool): State {
    Slots(Conn(true, Sound, None, 1, true, 8, false, false, arun), WfOn0.(stopData := true), Head0, Head0, [1, 1])
  }

  lemma ArunConnects()
    ensures Apply(Stopping(), Connects(SndReq(8, true))) == Taken(false) && Apply(Taken(false), Autorun(0)) == Taken(true)
  {
    ScanStopping(SndReq(8, true), None);
    assert [0, 1][1..] == [1];
    assert FirstFree(Stopping().chans, [0, 1]) == FirstFree(Stopping().chans, [1]) == Some(1);
  }

  lemma ArunEvicted()
    ensures var e := Evicts(SndReq(9, true), 0);
      !Safe(Taken(true), e) && Apply(Taken(true), e).chans == [InitChan, Head0]
      && forall i :: !OwnerOn(Apply(Taken(true), e), i, 1)
  {
    ScanFull(Taken(true), SndReq(9, true));
  }

  lemma ScanFull(st: State, req: Req)
    requires |st.conns| == 3 && st.conns[0].valid && st.conns[1].valid && st.conns[2] == InitConn
    requires !st.conns[0].stopData && st.conns[1].mc && st.conns[0].ty == Sound && st.conns[1].ty == Waterfall
    requires req.ty == Sound && st.conns[0].sess != req.sess && st.conns[1].sess != req.sess
    ensures ScanFrom(st, 0, req, None, None, 0) == Scanned(st, Some(2), None, 0)
  {
    assert ScanFrom(st, 2, req, None, None, 0) == ScanFrom(st, 3, req, Some(2), None, 0);
    assert ScanFrom(st, 1, req, None, None, 0) == ScanFrom(st, 2, req, None, None, 0);
  }
}
