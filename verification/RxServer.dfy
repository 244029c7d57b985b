/** The server's tables as the code keeps them: two arrays, updated in place. */
module RxServer {
  import opened Options
  import opened RxState

  /** Every pointer and channel number that is stored is in range. */
  ghost predicate Shape(st: State) {
    && |st.allocs| == |st.frees| == |st.chans|
    && (forall i :: 0 <= i < |st.conns| ==> -1 <= st.conns[i].chan < |st.chans|)
    && (forall i :: 0 <= i < |st.conns| && st.conns[i].other.Some? ==> st.conns[i].other.value < |st.conns|)
    && (forall i :: 0 <= i < |st.conns| && st.conns[i].valid && SndOrWf(st.conns[i].ty) ==> st.conns[i].chan != -1)
    && (forall i :: 0 <= i < |st.conns| && st.conns[i].arun ==> st.conns[i].valid)
    && (forall c :: 0 <= c < |st.chans| && st.chans[c].conn.Some? ==> st.chans[c].conn.value < |st.conns|)
    && (forall c :: 0 <= c < |st.chans| && st.chans[c].busy ==> st.chans[c].conn.Some?)
  }

  datatype Action = ChanEnable | ChanDisable | ChanFree

  lemma NoneCounted(chans: seq<Chan>)
    ensures CountFree(chans, []) == 0 && FirstFree(chans, []) == None
  {
  }

  lemma UpNext(order: seq<nat>, i: nat, hi: nat)
    requires i < hi
    ensures order + Up(i, hi) == (order + [i]) + Up(i + 1, hi)
  {
    assert order + ([i] + Up(i + 1, hi)) == (order + [i]) + Up(i + 1, hi);
  }

  lemma UpDone(i: nat, hi: nat)
    requires i >= hi
    ensures Up(i, hi) == [] && Down(0) == []
  {
  }

  lemma DownNext(order: seq<nat>, j: nat)
    ensures order + Down(j + 1) == (order + [j]) + Down(j)
  {
    assert order + ([j] + Down(j)) == (order + [j]) + Down(j);
  }

  class Server {
    const conns: array<Conn>
    const chans: array<Chan>
    ghost var allocs: seq<nat>
    ghost var frees: seq<nat>

    ghost function St(): State
      reads this, conns, chans
    {
      State(conns[..], chans[..], allocs, frees)
    }

    constructor (slots: nat, channels: nat)
      ensures fresh(conns) && fresh(chans) && Shape(St())
      ensures St() == State(seq(slots, _ => InitConn), seq(channels, _ => InitChan),
                            seq(channels, _ => 0), seq(channels, _ => 0))
    {
      conns := new Conn[slots](_ => InitConn);
      chans := new Chan[channels](_ => InitChan);
      allocs := seq(channels, _ => 0);
      frees := seq(channels, _ => 0);
      new;
      assert conns[..] == seq(slots, _ => InitConn);
      assert chans[..] == seq(channels, _ => InitChan);
    }

    /** rx_enable */
    method RxEnable(ch: int, action: Action)
      requires Shape(St()) && -1 <= ch < chans.Length
      modifies this, chans
      ensures St() == match action
                      case ChanEnable => SetEnabled(old(St()), ch, true)
                      case ChanDisable => SetEnabled(old(St()), ch, false)
                      case ChanFree => Free(old(St()), ch)
    {
      if ch < 0 { return; }
      match action {
        case ChanEnable => chans[ch] := chans[ch].(enabled := true);
        case ChanDisable => chans[ch] := chans[ch].(enabled := false);
        case ChanFree =>
          chans[ch] := InitChan;
          frees := frees[ch := frees[ch] + 1];
      }
      assert chans[..] == old(chans[..])[ch := chans[ch]];
    }

    /** conn_other */
    method Other(i: nat, ty: Stream) returns (r: Option<nat>)
      requires Shape(St()) && i < conns.Length
      ensures r == ConnOther(St(), i, ty)
    {
      var o := conns[i].other;
      if o.Some? && conns[o.value].ty == ty && conns[o.value].chan == conns[i].chan {
        return o;
      }
      return None;
    }

    /** rx_server_remove */
    method RxServerRemove(i: nat)
      requires i < conns.Length
      modifies conns
      ensures St() == Remove(old(St()), i)
    {
      conns[i] := InitConn;
      assert conns[..] == old(conns[..])[i := InitConn];
    }

    /** The end of a pass of the sound loop. */
    method SoundPass(i: nat, leave: bool)
      requires Shape(St()) && i < conns.Length && conns[i].valid && conns[i].ty == Sound
      modifies this, conns, chans
      ensures Shape(St()) && St() == Pass(old(St()), i, leave)
    {
      hide Shape;
      SlotBounds(St());
      PassShape(St(), i, leave);
      var c := conns[i];
      if c.stopData {
        RxEnable(c.chan, ChanFree);
        RxServerRemove(i);
        return;
      }
      if leave || c.kick {
        var cwf := Other(i, Waterfall);
        if cwf.Some? {
          SlotShape(St(), cwf.value, conns[cwf.value].(stopData := true));
          conns[cwf.value] := conns[cwf.value].(stopData := true);
          assert conns[..] == old(conns[..])[cwf.value := conns[cwf.value]];
          assert Shape(St());
          RxEnable(c.chan, ChanDisable);
        } else {
          RxEnable(c.chan, ChanFree);
        }
        RxServerRemove(i);
      }
    }

    /** The end of a pass of the waterfall loop. */
    method WaterfallPass(i: nat, leave: bool)
      requires Shape(St()) && i < conns.Length && conns[i].valid && conns[i].ty == Waterfall
      modifies this, conns, chans
      ensures Shape(St()) && St() == Pass(old(St()), i, leave)
    {
      hide Shape;
      SlotBounds(St());
      PassShape(St(), i, leave);
      var c := conns[i];
      if c.stopData {
        RxEnable(c.chan, ChanFree);
        RxServerRemove(i);
        return;
      }
      if leave || c.kick {
        var csnd := Other(i, Sound);
        if csnd.Some? {
          conns[csnd.value] := conns[csnd.value].(stopData := true);
          assert conns[..] == old(conns[..])[csnd.value := conns[csnd.value]];
        } else {
          RxEnable(c.chan, ChanFree);
        }
        RxServerRemove(i);
      }
    }

    /** rx_chan_free_count: how many channels are free, and the first of them in the order asked for. */
    method RxChanFreeCount(flag: CountFlag, wfChans: nat) returns (freeCnt: nat, idx: Option<nat>)
      ensures freeCnt == CountFree(chans[..], TryOrder(flag, wfChans, chans.Length))
      ensures idx == FirstFree(chans[..], TryOrder(flag, wfChans, chans.Length))
    {
      hide Up, Down, CountFree, FirstFree;
      freeCnt, idx := 0, None;
      ghost var order: seq<nat> := [];
      NoneCounted(chans[..]);
      var first := if flag != All && wfChans != 0 && wfChans <= chans.Length then wfChans else 0;
      var i := first;
      assert [] + Up(first, chans.Length) == Up(first, chans.Length);
      while i < chans.Length
        invariant first <= i <= chans.Length && order + Up(i, chans.Length) == Up(first, chans.Length)
        invariant freeCnt == CountFree(chans[..], order) && idx == FirstFree(chans[..], order)
      {
        freeCnt, idx := CountChan(i, freeCnt, idx, order);
        UpNext(order, i, chans.Length);
        order := order + [i];
        i := i + 1;
      }
      UpDone(i, chans.Length);
      assert order + [] == order;
      ghost var up := order;
      if flag != All && wfChans != 0 && wfChans <= chans.Length && flag != NoWfAtAll {
        var j := wfChans;
        while j > 0
          invariant 0 <= j <= wfChans && order + Down(j) == up + Down(wfChans)
          invariant freeCnt == CountFree(chans[..], order) && idx == FirstFree(chans[..], order)
        {
          j := j - 1;
          freeCnt, idx := CountChan(j, freeCnt, idx, order);
          DownNext(order, j);
          order := order + [j];
        }
        UpDone(0, 0);
        assert order + [] == order;
      }
    }

    method CountChan(i: nat, cnt: nat, idx0: Option<nat>, ghost order: seq<nat>) returns (freeCnt: nat, idx: Option<nat>)
      requires i < chans.Length && cnt == CountFree(chans[..], order) && idx0 == FirstFree(chans[..], order)
      ensures freeCnt == CountFree(chans[..], order + [i]) && idx == FirstFree(chans[..], order + [i])
    {
      freeCnt, idx := cnt, idx0;
      if !chans[i].busy {
        freeCnt := freeCnt + 1;
        if idx.None? { idx := Some(i); }
      }
      TryOneMore(chans[..], order, i);
    }

    /** rx_autorun_find_victim: among the busy channels whose record is an autorun, the one evicted least often. */
    method FindVictim(evictions: array<nat>) returns (r: Option<nat>)
      requires Shape(St()) && evictions.Length == chans.Length
      ensures r.Some? ==> r.value < chans.Length && IsAutorun(St(), r.value)
      ensures r.Some? ==> forall ch :: 0 <= ch < chans.Length && IsAutorun(St(), ch) ==> evictions[r.value] <= evictions[ch]
      ensures r.Some? ==> forall ch :: 0 <= ch < r.value && IsAutorun(St(), ch) ==> evictions[r.value] < evictions[ch]
      ensures r.None? ==> forall ch :: 0 <= ch < chans.Length ==> !IsAutorun(St(), ch)
    {
      r := None;
      for ch := 0 to chans.Length
        invariant r.Some? ==> r.value < ch && IsAutorun(St(), r.value)
        invariant r.Some? ==> forall c :: 0 <= c < r.value && IsAutorun(St(), c) ==> evictions[r.value] < evictions[c]
        invariant r.Some? ==> forall c :: 0 <= c < ch && IsAutorun(St(), c) ==> evictions[r.value] <= evictions[c]
        invariant r.None? ==> forall c :: 0 <= c < ch ==> !IsAutorun(St(), c)
      {
        if chans[ch].busy && conns[chans[ch].conn.value].arun {
          if r.None? || evictions[ch] < evictions[r.value] {
            r := Some(ch);
          }
        }
      }
    }

    /** A connection stuck after being told to stop is thrown out. */
    method CullAt(i: nat)
      requires Shape(St()) && i < conns.Length
      modifies this, conns, chans
      ensures Shape(St()) && St() == Cull(old(St()), i) && Aruns(St()) <= Aruns(old(St()))
      ensures forall k :: 0 <= k < conns.Length && k != i ==> conns[k] == old(conns[k])
    {
      CullShape(St(), i);
      var c := conns[i];
      if c.valid && c.stopData && !c.mc {
        RxEnable(c.chan, ChanFree);
        RxServerRemove(i);
      }
    }

    /** The loop over the table: cull, find a free slot, refuse duplicates, link. */
    method ScanTable(req: Req) returns (refused: bool, free: Option<nat>, other: Option<nat>, mons: nat)
      requires Shape(St())
      modifies this, conns, chans
      ensures Shape(St())
      ensures ScanFrom(old(St()), 0, req, None, None, 0)
           == if refused then Refused(St()) else Scanned(St(), free, other, mons)
      ensures !refused && free.Some? ==> free.value < conns.Length && !conns[free.value].valid
      ensures !refused && other.Some? ==> other.value < conns.Length && conns[other.value].valid
                                           && Links(req.ty, conns[other.value].ty)
      ensures Aruns(St()) <= Aruns(old(St()))
    {
      hide ScanFrom;
      refused, free, other, mons := false, None, None, 0;
      var i := 0;
      while i < conns.Length
        invariant 0 <= i <= conns.Length && Shape(St())
        invariant ScanFrom(old(St()), 0, req, None, None, 0) == ScanFrom(St(), i, req, free, other, mons)
        invariant free.Some? ==> free.value < i && !conns[free.value].valid
        invariant other.Some? ==> other.value < i && conns[other.value].valid && Links(req.ty, conns[other.value].ty)
        invariant Aruns(St()) <= Aruns(old(St()))
      {
        ghost var st := St();
        CullAt(i);
        ScanStep(st, i, req, free, other, mons);
        var c := conns[i];
        if !c.valid {
          if free.None? { free := Some(i); }
          i := i + 1;
          continue; // nothing to link to
        }
        if c.sess == req.sess {
          if (SndOrWf(req.ty) || req.ty == Ext) && c.ty == req.ty { return true, free, other, mons; }
          if Links(req.ty, c.ty) {
            if other.Some? { return true, free, other, mons; }
            other := Some(i);
          }
        }
        if c.ty == Monitor { mons := mons + 1; }
        i := i + 1;
      }
      ScanDone(St(), req, free, other, mons);
    }

    method SetSlot(i: nat, c: Conn)
      requires i < conns.Length
      modifies conns
      ensures St() == SetConn(old(St()), i, c)
    {
      conns[i] := c;
      assert conns[..] == old(conns[..])[i := c];
    }

    /** A sound or waterfall connection that found its client's other stream. */
    method JoinOther(req: Req, i: nat, o: nat)
      requires Shape(St()) && SndOrWf(req.ty) && i < conns.Length && o < conns.Length
      requires conns[o].valid && Links(req.ty, conns[o].ty)
      modifies this, conns, chans
      ensures St() == Settle(Scanned(old(St()), Some(i), Some(o), 0), req)
    {
      if conns[o].ty == Monitor {
        SetSlot(i, InitConn);
        return;
      }
      if req.ty == Waterfall && conns[o].chan >= req.wfChans && !req.kiwiUI {
        SetSlot(i, InitConn);
        return;
      }
      var ch := conns[o].chan;
      conns[o] := conns[o].(other := Some(i));
      assert conns[..] == old(conns[..])[o := conns[o]];
      AttachConn(req, i, Some(o), ch);
    }

    /** A connection of any other kind. */
    method PlainConn(req: Req, i: nat, other: Option<nat>)
      requires Shape(St()) && !SndOrWf(req.ty) && i < conns.Length
      requires other.Some? ==> other.value < conns.Length && conns[other.value].valid && Links(req.ty, conns[other.value].ty)
      modifies this, conns, chans
      ensures St() == Settle(Scanned(old(St()), Some(i), other, 0), req)
    {
      var ch := -1;
      if req.ty == Ext {
        if other.None? {
          SetSlot(i, InitConn.(ty := Ext));
          return;
        }
        ch := conns[other.value].chan; // a live sound stream has a channel
      }
      if !req.taskOk {
        RxEnable(ch, ChanFree);
        SetSlot(i, InitConn);
        return;
      }
      SetSlot(i, NewConn(req, if req.ty == Ext then other else None, ch));
    }

    /** A sound or waterfall connection that is its client's first and has found channel `rx`, or none. */
    method FirstConn(req: Req, i: nat, rx: Option<nat>, mons: nat)
      requires Shape(St()) && SndOrWf(req.ty) && i < conns.Length
      requires rx == if req.forceCamp then None else FirstFree(chans[..], req.order)
      modifies this, conns, chans
      ensures St() == Settle(Scanned(old(St()), Some(i), None, mons), req)
    {
      if rx.None? {
        if req.kiwiUI && mons < req.monitorsMax && req.taskOk {
          SetSlot(i, NewConn(req, None, -1).(ty := Monitor));
        } else {
          SetSlot(i, InitConn);
        }
        return;
      }
      if req.ty == Waterfall && rx.value >= req.wfChans && !req.kiwiUI {
        SetSlot(i, InitConn);
        return;
      }
      chans[rx.value] := chans[rx.value].(busy := true, conn := chans[rx.value].conn);
      allocs := allocs[rx.value := allocs[rx.value] + 1];
      assert chans[..] == old(chans[..])[rx.value := chans[rx.value]];
      AttachConn(req, i, None, rx.value);
    }

    /** The new connection takes its slot and its channel, if a task can be had for it. */
    method AttachConn(req: Req, i: nat, other: Option<nat>, ch: nat)
      requires i < conns.Length && ch < chans.Length && |allocs| == |frees| == chans.Length
      modifies this, conns, chans
      ensures St() == Attach(old(St()), req, i, other, ch)
    {
      if req.ty == Sound || chans[ch].conn.None? {
        chans[ch] := chans[ch].(conn := Some(i));
      }
      assert chans[..] == old(chans[..])[ch := chans[ch]];
      if !req.taskOk {
        chans[ch] := InitChan;
        frees := frees[ch := frees[ch] + 1];
        conns[i] := InitConn;
        assert chans[..] == old(chans[..])[ch := InitChan];
        assert conns[..] == old(conns[..])[i := InitConn];
        return;
      }
      conns[i] := NewConn(req, other, ch);
      assert conns[..] == old(conns[..])[i := conns[i]];
    }

    /** One try at a new connection; `victim` is the channel that was evicted if it has to be tried again. */
    method TryConnect(req: Req, flag: CountFlag, okPreempt: bool, evictions: array<nat>) returns (victim: Option<nat>)
      requires Shape(St()) && evictions.Length == chans.Length
      requires req.order == TryOrder(flag, req.wfChans, chans.Length)
      modifies this, conns, chans
      ensures victim.Some? <==> MustEvict(old(St()), req, okPreempt)
      ensures victim.None? ==> St() == Connect(old(St()), req)
      ensures victim.Some? ==> okPreempt && !req.forceCamp && victim.value < chans.Length && Shape(St())
      ensures victim.Some? ==> St() == Evict(old(St()), req, victim.value)
      ensures victim.Some? ==> Aruns(St()) < Aruns(old(St()))
    {
      hide ScanFrom, FirstFree, CountFree, TryOrder, Attach;
      victim := None;
      var refused, free, other, mons := ScanTable(req);
      if refused || free.None? { return; }
      var i := free.value;
      if !SndOrWf(req.ty) {
        PlainConn(req, i, other);
        return;
      }
      if other.Some? {
        JoinOther(req, i, other.value);
        return;
      }
      var cnt, rx := RxChanFreeCount(flag, req.wfChans);
      if req.forceCamp { rx := None; }
      if rx.None? && !req.forceCamp && okPreempt {
        victim := FindVictim(evictions);
        if victim.Some? {
          EvictOne(req, i, victim.value);
          return;
        }
      }
      FirstConn(req, i, rx, mons);
    }

    /** rx_server_websocket for a new connection: while no channel is free, an autorun is evicted (when that
        is allowed) and everything is tried again. The outcome is that of the atomic steps in that order. */
    method Websocket(req: Req, flag: CountFlag, okPreempt: bool, evictions: array<nat>) returns (ghost evicted: seq<nat>)
      requires Shape(St()) && evictions.Length == chans.Length
      requires req.order == TryOrder(flag, req.wfChans, chans.Length)
      modifies this, conns, chans, evictions
      ensures Shape(St()) && St() == ConnectRetry(old(St()), req, evicted)
      ensures EvictsWhileFull(old(St()), req, okPreempt, evicted)
    {
      hide MustEvict;
      evicted := [];
      ghost var cur := St();
      assert forall tail: seq<nat> :: [] + tail == tail;
      while true
        invariant Shape(St()) && cur == St()
        invariant forall tail :: ConnectRetry(old(St()), req, evicted + tail) == ConnectRetry(cur, req, tail)
        invariant forall tail ::
          EvictsWhileFull(old(St()), req, okPreempt, evicted + tail) == EvictsWhileFull(cur, req, okPreempt, tail)
        decreases Aruns(St())
      {
        assert EvictsWhileFull(old(St()), req, okPreempt, evicted + []) == EvictsWhileFull(cur, req, okPreempt, []);
        assert ConnectRetry(old(St()), req, evicted + []) == ConnectRetry(cur, req, []);
        assert evicted + [] == evicted;
        var victim := TryConnect(req, flag, okPreempt, evictions);
        if victim.None? {
          ConnectShape(cur, req);
          return;
        }
        evictions[victim.value] := evictions[victim.value] + 1;
        RetryMore(old(St()), cur, req, evicted, victim.value);
        EvictMore(old(St()), cur, req, okPreempt, evicted, victim.value);
        evicted, cur := evicted + [victim.value], St();
      }
    }

    /** The connection that a channel's record names is thrown out and its channel freed. */
    method EvictOne(req: Req, i: nat, ch: nat)
      requires Shape(St()) && i < conns.Length && !conns[i].valid && IsAutorun(St(), ch) && SndOrWf(req.ty)
      modifies this, conns, chans
      ensures Shape(St()) && St() == Preempt(SetConn(old(St()), i, InitConn.(ty := req.ty)), ch)
      ensures Aruns(St()) < Aruns(old(St()))
    {
      SetSlot(i, InitConn.(ty := req.ty));
      var c := chans[ch].conn.value;
      RxEnable(ch, ChanFree);
      RxServerRemove(c);
      assert c in Aruns(old(St())) && c !in Aruns(St());
    }
  }

  /** The slots that hold autoruns. */
  ghost function Aruns(st: State): set<nat> { set i: nat | 0 <= i < |st.conns| && st.conns[i].arun }

  predicate IsAutorun(st: State, ch: nat) {
    ch < |st.chans| && st.chans[ch].busy && st.chans[ch].conn.Some? && st.chans[ch].conn.value < |st.conns|
    && st.conns[st.chans[ch].conn.value].arun
  }

  /** The first free channel comes before all other free ones in the order in which channels are tried; there is none
      exactly when all of them are busy. */
  lemma {:induction false} FirstFreeExact(chans: seq<Chan>, order: seq<nat>)
    requires forall k :: 0 <= k < |order| ==> order[k] < |chans|
    ensures var r := FirstFree(chans, order);
      && (r.None? <==> forall k :: 0 <= k < |order| ==> chans[order[k]].busy)
      && (r.Some? ==> exists k :: 0 <= k < |order| && order[k] == r.value && !chans[order[k]].busy &&
                        forall m :: 0 <= m < k ==> chans[order[m]].busy)
    ensures CountFree(chans, order) == 0 <==> FirstFree(chans, order).None?
  {
    if |order| > 0 {
      var rest := order[1..];
      FirstFreeExact(chans, rest);
      assert forall k :: 0 < k < |order| ==> order[k] == rest[k - 1];
      var r := FirstFree(chans, order);
      if !chans[order[0]].busy {
        assert order[0] == r.value;
      } else if r.Some? {
        var k :| 0 <= k < |rest| && rest[k] == r.value && !chans[rest[k]].busy && forall m :: 0 <= m < k ==> chans[rest[m]].busy;
        assert order[k + 1] == r.value;
        assert forall m :: 0 < m < k + 1 ==> order[m] == rest[m - 1];
      }
    }
  }

  /** Streams that need a waterfall try the channels that have one first; those that do not try them last, from the top
      down, or not at all. Every order but the last tries every channel. */
  lemma OrderCovers(flag: CountFlag, wfChans: nat, rxChans: nat, ch: nat)
    requires ch < rxChans
    ensures ch in TryOrder(flag, wfChans, rxChans)
       <==> !(flag == NoWfAtAll && 0 < wfChans <= rxChans && ch < wfChans)
  {
    UpHolds(0, rxChans, ch);
    UpHolds(wfChans, rxChans, ch);
    DownHolds(wfChans, ch);
  }

  lemma {:induction false} UpHolds(lo: nat, hi: nat, ch: nat)
    ensures ch in Up(lo, hi) <==> lo <= ch < hi
    decreases hi - lo
  {
    if lo < hi { UpHolds(lo + 1, hi, ch); }
  }

  lemma {:induction false} DownHolds(hi: nat, ch: nat)
    ensures ch in Down(hi) <==> ch < hi
  {
    if hi > 0 { DownHolds(hi - 1, ch); }
  }

  lemma {:induction false} TryOneMore(chans: seq<Chan>, order: seq<nat>, i: nat)
    requires i < |chans|
    ensures CountFree(chans, order + [i]) == CountFree(chans, order) + if chans[i].busy then 0 else 1
    ensures FirstFree(chans, order + [i])
         == if FirstFree(chans, order).Some? then FirstFree(chans, order) else if chans[i].busy then None else Some(i)
  {
    if |order| == 0 {
      assert order + [i] == [i] && [i][1..] == [];
    } else {
      assert (order + [i])[1..] == order[1..] + [i];
      TryOneMore(chans, order[1..], i);
    }
  }

  lemma CullShape(st: State, i: nat)
    requires Shape(st) && i < |st.conns|
    ensures Shape(Cull(st, i)) && Aruns(Cull(st, i)) <= Aruns(st)
    ensures forall k :: 0 <= k < |st.conns| && k != i ==> Cull(st, i).conns[k] == st.conns[k]
  {
  }

  /** One turn of the scan. */
  lemma ScanStep(st: State, i: nat, req: Req, free: Option<nat>, other: Option<nat>, mons: nat)
    requires i < |st.conns|
    ensures var st1 := Cull(st, i);
            var c := st1.conns[i];
            var mons1 := mons + if c.valid && c.ty == Monitor then 1 else 0;
      ScanFrom(st, i, req, free, other, mons)
      == if !c.valid then ScanFrom(st1, i + 1, req, if free.None? then Some(i) else free, other, mons)
         else if c.sess == req.sess && (SndOrWf(req.ty) || req.ty == Ext) && c.ty == req.ty then Refused(st1)
         else if c.sess == req.sess && Links(req.ty, c.ty) then
           if other.Some? then Refused(st1) else ScanFrom(st1, i + 1, req, free, Some(i), mons1)
         else ScanFrom(st1, i + 1, req, free, other, mons1)
  {
  }

  lemma ScanDone(st: State, req: Req, free: Option<nat>, other: Option<nat>, mons: nat)
    ensures ScanFrom(st, |st.conns|, req, free, other, mons) == Scanned(st, free, other, mons)
  {
  }

  /** A new stream has to evict: it is its client's first, no channel is free, it may evict, and there is an autorun. */
  ghost predicate MustEvict(st: State, req: Req, okPreempt: bool) {
    var s := ScanFrom(st, 0, req, None, None, 0);
    && s.Scanned? && s.free.Some? && SndOrWf(req.ty) && s.other.None?
    && !req.forceCamp && okPreempt && FirstFree(s.st.chans, req.order).None?
    && exists ch: nat :: IsAutorun(s.st, ch)
  }

  /** Channels are evicted one after the other exactly while that is so. */
  ghost predicate EvictsWhileFull(st: State, req: Req, okPreempt: bool, evicted: seq<nat>)
    decreases |evicted|
  {
    if |evicted| == 0 then !MustEvict(st, req, okPreempt)
    else MustEvict(st, req, okPreempt) && EvictsWhileFull(Evict(st, req, evicted[0]), req, okPreempt, evicted[1..])
  }

  lemma EvictMore(st0: State, cur: State, req: Req, ok: bool, evicted: seq<nat>, ch: nat)
    requires MustEvict(cur, req, ok)
    requires forall tail :: EvictsWhileFull(st0, req, ok, evicted + tail) == EvictsWhileFull(cur, req, ok, tail)
    ensures forall tail ::
      EvictsWhileFull(st0, req, ok, (evicted + [ch]) + tail) == EvictsWhileFull(Evict(cur, req, ch), req, ok, tail)
  {
    hide MustEvict, Evict;
    forall tail: seq<nat>
      ensures EvictsWhileFull(st0, req, ok, (evicted + [ch]) + tail) == EvictsWhileFull(Evict(cur, req, ch), req, ok, tail)
    {
      assert (evicted + [ch]) + tail == evicted + ([ch] + tail);
      assert ([ch] + tail)[1..] == tail;
      assert EvictsWhileFull(st0, req, ok, evicted + ([ch] + tail)) == EvictsWhileFull(cur, req, ok, [ch] + tail);
    }
  }

  lemma RetryMore(st0: State, cur: State, req: Req, evicted: seq<nat>, ch: nat)
    requires forall tail :: ConnectRetry(st0, req, evicted + tail) == ConnectRetry(cur, req, tail)
    ensures forall tail :: ConnectRetry(st0, req, (evicted + [ch]) + tail) == ConnectRetry(Evict(cur, req, ch), req, tail)
  {
    forall tail ensures ConnectRetry(st0, req, (evicted + [ch]) + tail) == ConnectRetry(Evict(cur, req, ch), req, tail) {
      assert (evicted + [ch]) + tail == evicted + ([ch] + tail);
      assert ([ch] + tail)[1..] == tail;
      assert ConnectRetry(st0, req, evicted + ([ch] + tail)) == ConnectRetry(cur, req, [ch] + tail);
    }
  }

  lemma {:induction false} ScanShape(st: State, i: nat, req: Req, free: Option<nat>, other: Option<nat>, mons: nat)
    requires Shape(st) && i <= |st.conns|
    requires free.Some? ==> free.value < |st.conns|
    requires other.Some? ==> other.value < |st.conns|
    ensures var s := ScanFrom(st, i, req, free, other, mons);
      && Shape(s.st) && |s.st.conns| == |st.conns|
      && (s.Scanned? && s.free.Some? ==> s.free.value < |st.conns|)
      && (s.Scanned? && s.other.Some? ==> s.other.value < |st.conns|)
    decreases |st.conns| - i
  {
    hide Shape;
    if i < |st.conns| {
      var st1, c := Cull(st, i), Cull(st, i).conns[i];
      CullShape(st, i);
      var mons1 := mons + if c.valid && c.ty == Monitor then 1 else 0;
      if !c.valid {
        ScanShape(st1, i + 1, req, if free.None? then Some(i) else free, other, mons);
      } else if c.sess == req.sess && Links(req.ty, c.ty) {
        ScanShape(st1, i + 1, req, free, Some(i), mons1);
      } else {
        ScanShape(st1, i + 1, req, free, other, mons1);
      }
    }
  }

  lemma SlotShape(st: State, i: nat, c: Conn)
    requires Shape(st) && i < |st.conns| && -1 <= c.chan < |st.chans| && (c.other.Some? ==> c.other.value < |st.conns|)
    requires (c.arun ==> c.valid) && (c.valid && SndOrWf(c.ty) ==> c.chan != -1)
    ensures Shape(SetConn(st, i, c))
  {
  }

  lemma FreeShape(st: State, ch: int)
    requires Shape(st)
    ensures Shape(Free(st, ch))
  {
  }

  /** Sitting down on a channel whose only defect is that it is busy without a head. */
  lemma AttachShape(st: State, req: Req, i: nat, other: Option<nat>, ch: nat)
    requires Shape(st) && i < |st.conns| && SndOrWf(req.ty) && ChanOk(st, ch)
    requires other.Some? ==> other.value < |st.conns|
    ensures Shape(Attach(st, req, i, other, ch)) && Shape(Attach(TakeChan(st, ch), req, i, other, ch))
  {
  }

  lemma SettleShape(s: Scan, req: Req)
    requires s.Scanned? && Shape(s.st) && (s.free.Some? ==> s.free.value < |s.st.conns|)
    requires s.other.Some? ==> s.other.value < |s.st.conns|
    ensures Shape(Settle(s, req))
  {
    hide Shape, Attach, TakeChan, Free, SetConn, FirstFree;
    if s.free.Some? {
      var st, i := s.st, s.free.value;
      SlotBounds(st);
      SlotShape(st, i, InitConn);
      SlotShape(st, i, InitConn.(ty := Ext));
      SlotShape(st, i, InitConn.(ty := Ext, other := s.other));
      SlotShape(st, i, NewConn(req, None, -1).(ty := Monitor));
      if !SndOrWf(req.ty) { SlotShape(st, i, NewConn(req, None, -1)); }
      if s.other.Some? {
        var o := s.other.value;
        if SndOrWf(req.ty) {
          if ChanOk(st, st.conns[o].chan) {
            SlotShape(st, o, st.conns[o].(other := Some(i)));
            SameBounds(st, o, st.conns[o].(other := Some(i)));
            AttachShape(SetConn(st, o, st.conns[o].(other := Some(i))), req, i, s.other, st.conns[o].chan);
          }
        } else {
          SlotShape(st, i, NewConn(req, s.other, st.conns[o].chan));
          FreeShape(st, st.conns[o].chan);
          SlotShape(Free(st, st.conns[o].chan), i, InitConn);
        }
      } else {
        var rx := FirstFree(st.chans, req.order);
        if rx.Some? && ChanOk(st, rx.value) && SndOrWf(req.ty) { AttachShape(st, req, i, None, rx.value); }
      }
    }
  }

  lemma SlotBounds(st: State)
    requires Shape(st)
    ensures forall i :: 0 <= i < |st.conns| ==> -1 <= st.conns[i].chan < |st.chans|
    ensures forall i :: 0 <= i < |st.conns| && st.conns[i].valid && SndOrWf(st.conns[i].ty) ==> st.conns[i].chan != -1
    ensures forall i :: 0 <= i < |st.conns| && st.conns[i].arun ==> st.conns[i].valid
    ensures forall i :: 0 <= i < |st.conns| && st.conns[i].other.Some? ==> st.conns[i].other.value < |st.conns|
  {
  }

  lemma SameBounds(st: State, o: nat, c: Conn)
    requires o < |st.conns|
    ensures |SetConn(st, o, c).conns| == |st.conns| && SetConn(st, o, c).chans == st.chans
    ensures forall ch :: ChanOk(st, ch) ==> ChanOk(SetConn(st, o, c), ch)
  {
  }

  lemma ConnectShape(st: State, req: Req)
    requires Shape(st)
    ensures Shape(Connect(st, req))
  {
    hide ScanFrom, Shape;
    ScanShape(st, 0, req, None, None, 0);
    var s := ScanFrom(st, 0, req, None, None, 0);
    if s.Scanned? { SettleShape(s, req); }
  }

  lemma PassShape(st: State, i: nat, leave: bool)
    requires Shape(st) && i < |st.conns|
    ensures Shape(Pass(st, i, leave))
  {
  }
}
