/** The connection table and the receiver channels as one state, and every atomic step on them:
    connects, kicks, passes of the sound and waterfall loops, culls and preemptions. */
module RxState {
  import opened Options

  datatype Stream = Sound | Waterfall | Ext | Monitor | Plain

  /** A slot of the connection table. `other` points at another slot; `mc` tells whether a web
      connection is attached; `sess` identifies the client (timestamp, and address where it counts). */
  datatype Conn = Conn(valid: bool, ty: Stream, other: Option<nat>, chan: int, mc: bool, sess: int,
                       stopData: bool, kick: bool, arun: bool)

  datatype Chan = Chan(busy: bool, enabled: bool, conn: Option<nat>)

  /** `allocs` and `frees` count how often each channel has been taken and given back. */
  datatype State = State(conns: seq<Conn>, chans: seq<Chan>, allocs: seq<nat>, frees: seq<nat>)

  const InitConn := Conn(false, Plain, None, -1, false, 0, false, false, false)
  const InitChan := Chan(false, false, None)

  predicate SndOrWf(ty: Stream) { ty == Sound || ty == Waterfall }

  // ---- pieces of a step -------------------------------------------------------------------------

  predicate ChanOk(st: State, ch: int) {
    0 <= ch < |st.chans| && |st.allocs| == |st.frees| == |st.chans|
  }

  /** rx_enable(RX_CHAN_FREE): the channel is cleared; a negative channel is ignored. */
  function Free(st: State, ch: int): (r: State)
    ensures r.conns == st.conns && |r.chans| == |st.chans|
  {
    if !ChanOk(st, ch) then st
    else st.(chans := st.chans[ch := InitChan], frees := st.frees[ch := st.frees[ch] + 1])
  }

  function SetEnabled(st: State, ch: int, on: bool): (r: State)
    ensures r.conns == st.conns && |r.chans| == |st.chans|
  {
    if !ChanOk(st, ch) then st else st.(chans := st.chans[ch := st.chans[ch].(enabled := on)])
  }

  function SetConn(st: State, i: nat, c: Conn): State
    requires i < |st.conns|
  {
    st.(conns := st.conns[i := c])
  }

  /** rx_server_remove: the slot is cleared. */
  function Remove(st: State, i: nat): State
    requires i < |st.conns|
  {
    SetConn(st, i, InitConn)
  }

  /** conn_other: the slot that `other` points at, if it has the wanted type and the same channel. */
  function ConnOther(st: State, i: nat, ty: Stream): (r: Option<nat>)
    requires i < |st.conns|
  {
    var o := st.conns[i].other;
    if o.Some? && o.value < |st.conns| && st.conns[o.value].ty == ty && st.conns[o.value].chan == st.conns[i].chan
    then o else None
  }

  // ---- steps of existing connections --------------------------------------------------------------

  /** The end of a sound or waterfall loop pass: a connection told to stop frees its channel; one that is
      to leave (kicked, timed out or hung) tells its partner to stop, or frees the channel itself. Only
      the sound side also takes the channel off the data pump. */
  function Pass(st: State, i: nat, leave: bool): State
    requires i < |st.conns|
  {
    var c := st.conns[i];
    if !c.valid || !SndOrWf(c.ty) then st
    else if c.stopData then Remove(Free(st, c.chan), i)
    else if leave || c.kick then
      match ConnOther(st, i, if c.ty == Sound then Waterfall else Sound)
      case Some(o) =>
        var told := SetConn(st, o, st.conns[o].(stopData := true));
        Remove(if c.ty == Sound then SetEnabled(told, c.chan, false) else told, i)
      case None => Remove(Free(st, c.chan), i)
    else st
  }

  /** The sound task starts: its channel goes onto the data pump. */
  function Start(st: State, i: nat): State
    requires i < |st.conns|
  {
    if st.conns[i].valid && st.conns[i].ty == Sound then SetEnabled(st, st.conns[i].chan, true) else st
  }

  function Kick(st: State, i: nat): State
    requires i < |st.conns|
  {
    if st.conns[i].valid then SetConn(st, i, st.conns[i].(kick := true)) else st
  }

  /** WS_MODE_CLOSE: the web connection is gone. */
  function Close(st: State, i: nat): State
    requires i < |st.conns|
  {
    if st.conns[i].valid then SetConn(st, i, st.conns[i].(kick := true, mc := false)) else st
  }

  /** An extension marks its sound connection as an autorun that may be preempted. */
  function MarkArun(st: State, i: nat): State
    requires i < |st.conns|
  {
    if st.conns[i].valid && st.conns[i].ty == Sound then SetConn(st, i, st.conns[i].(arun := true)) else st
  }

  /** A connection without a channel of its own leaves. */
  function Leave(st: State, i: nat): State
    requires i < |st.conns|
  {
    if st.conns[i].valid && !SndOrWf(st.conns[i].ty) then Remove(st, i) else st
  }

  /** Evicting the autorun that the channel's record names. */
  function Preempt(st: State, ch: nat): State {
    if ChanOk(st, ch) && st.chans[ch].busy && st.chans[ch].conn.Some? && st.chans[ch].conn.value < |st.conns|
       && st.conns[st.chans[ch].conn.value].arun
    then Remove(Free(st, ch), st.chans[ch].conn.value) else st
  }

  // ---- a connect -----------------------------------------------------------------------------------

  /** A request for a new connection, with the parts of its environment that decide its outcome:
      whether a task can be created, and whether a monitor may be made of it. */
  datatype Req = Req(ty: Stream, sess: int, kiwiUI: bool, order: seq<nat>, wfChans: nat, forceCamp: bool,
                     monitorsMax: nat, taskOk: bool)

  datatype Scan = Refused(st: State) | Scanned(st: State, free: Option<nat>, other: Option<nat>, mons: nat)

  /** Connections stuck after being told to stop are culled when their client is gone. */
  function Cull(st: State, i: nat): (r: State)
    requires i < |st.conns|
    ensures |r.conns| == |st.conns|
  {
    var c := st.conns[i];
    if c.valid && c.stopData && !c.mc then Remove(Free(st, c.chan), i) else st
  }

  /** The streams that a new stream is linked to. */
  predicate Links(ty: Stream, old_: Stream) {
    || (ty == Sound && (old_ == Waterfall || old_ == Monitor))
    || (ty == Waterfall && (old_ == Sound || old_ == Monitor))
    || (ty == Ext && old_ == Sound)
  }

  /** The loop over the table from slot `i`: cull, remember the first free slot, refuse duplicates, link. */
  function ScanFrom(st: State, i: nat, req: Req, free: Option<nat>, other: Option<nat>, mons: nat): Scan
    requires i <= |st.conns|
    decreases |st.conns| - i
  {
    if i == |st.conns| then Scanned(st, free, other, mons)
    else
      var st1 := Cull(st, i);
      var c := st1.conns[i];
      var mons1 := mons + if c.valid && c.ty == Monitor then 1 else 0;
      if !c.valid then ScanFrom(st1, i + 1, req, if free.None? then Some(i) else free, other, mons)
      else if c.sess == req.sess && (SndOrWf(req.ty) || req.ty == Ext) && c.ty == req.ty then Refused(st1)
      else if c.sess == req.sess && Links(req.ty, c.ty) then
        if other.Some? then Refused(st1) else ScanFrom(st1, i + 1, req, free, Some(i), mons1)
      else ScanFrom(st1, i + 1, req, free, other, mons1)
  }

  /** The first free channel in the order in which the channels are tried. */
  function FirstFree(chans: seq<Chan>, order: seq<nat>): (r: Option<nat>)
    ensures r.Some? ==> r.value < |chans| && !chans[r.value].busy
  {
    if |order| == 0 then None
    else if order[0] < |chans| && !chans[order[0]].busy then Some(order[0])
    else FirstFree(chans, order[1..])
  }

  function NewConn(req: Req, other: Option<nat>, chan: int): Conn {
    Conn(true, req.ty, other, chan, true, req.sess, false, false, false)
  }

  /** A new sound or waterfall connection takes slot `i` and channel `ch`, which it heads if it is the
      sound stream or the first. */
  function Attach(st: State, req: Req, i: nat, other: Option<nat>, ch: nat): State
    requires i < |st.conns| && ChanOk(st, ch)
  {
    var chan := st.chans[ch];
    var head := if req.ty == Sound || chan.conn.None? then Some(i) else chan.conn;
    if req.taskOk then
      st.(conns := st.conns[i := NewConn(req, other, ch)], chans := st.chans[ch := chan.(conn := head)])
    else
      Free(SetConn(st, i, InitConn), ch)
  }

  function TakeChan(st: State, ch: nat): State
    requires ChanOk(st, ch)
  {
    st.(chans := st.chans[ch := st.chans[ch].(busy := true)], allocs := st.allocs[ch := st.allocs[ch] + 1])
  }

  /** What becomes of a connect after the table has been scanned. */
  function Settle(s: Scan, req: Req): State {
    if s.Refused? || s.free.None? || s.free.value >= |s.st.conns| then s.st
    else
      var st, i := s.st, s.free.value;
      if SndOrWf(req.ty) then
        match s.other
        case None =>
          var rx := if req.forceCamp then None else FirstFree(st.chans, req.order);
          if rx.None? || !ChanOk(st, rx.value) then
            if req.kiwiUI && s.mons < req.monitorsMax && req.taskOk then
              SetConn(st, i, NewConn(req, None, -1).(ty := Monitor))
            else SetConn(st, i, InitConn)
          else if req.ty == Waterfall && rx.value >= req.wfChans && !req.kiwiUI then SetConn(st, i, InitConn)
          else Attach(TakeChan(st, rx.value), req, i, None, rx.value)
        case Some(o) =>
          if o >= |st.conns| || st.conns[o].ty == Monitor || !ChanOk(st, st.conns[o].chan) then SetConn(st, i, InitConn)
          else if req.ty == Waterfall && st.conns[o].chan >= req.wfChans && !req.kiwiUI then SetConn(st, i, InitConn)
          else Attach(SetConn(st, o, st.conns[o].(other := Some(i))), req, i, Some(o), st.conns[o].chan)
      else if req.ty == Ext then
        match s.other
        case None => SetConn(st, i, InitConn.(ty := Ext))
        case Some(o) =>
          if o >= |st.conns| || st.conns[o].chan == -1 then SetConn(st, i, InitConn.(ty := Ext, other := s.other))
          else if req.taskOk then SetConn(st, i, NewConn(req, s.other, st.conns[o].chan))
          else SetConn(Free(st, st.conns[o].chan), i, InitConn)
      else if req.taskOk then SetConn(st, i, NewConn(req, None, -1))
      else SetConn(st, i, InitConn)
  }

  function Connect(st: State, req: Req): State {
    Settle(ScanFrom(st, 0, req, None, None, 0), req)
  }

  /** A connect that finds no channel evicts an autorun and tries again: what one failed try leaves behind.
      The slot it had picked keeps the type it was given. */
  function Evict(st: State, req: Req, ch: nat): State {
    var s := ScanFrom(st, 0, req, None, None, 0);
    if s.Refused? || s.free.None? || s.free.value >= |s.st.conns| || !SndOrWf(req.ty) || s.other.Some? then s.st
    else Preempt(SetConn(s.st, s.free.value, InitConn.(ty := req.ty)), ch)
  }

  /** A connect with its retries. */
  function ConnectRetry(st: State, req: Req, evicted: seq<nat>): State
    decreases |evicted|
  {
    if |evicted| == 0 then Connect(st, req) else ConnectRetry(Evict(st, req, evicted[0]), req, evicted[1..])
  }

  // ---- the order in which channels are tried -------------------------------------------------------------

  /** How a caller of rx_chan_free_count wants channels with a waterfall treated. */
  datatype CountFlag = All | NoWfFirst | NoWfAtAll

  function Up(lo: nat, hi: nat): seq<nat>
    decreases hi - lo
  {
    if lo >= hi then [] else [lo] + Up(lo + 1, hi)
  }

  function Down(hi: nat): seq<nat> {
    if hi == 0 then [] else [hi - 1] + Down(hi - 1)
  }

  function TryOrder(flag: CountFlag, wfChans: nat, rxChans: nat): seq<nat> {
    if flag != All && wfChans != 0 && wfChans <= rxChans then
      Up(wfChans, rxChans) + (if flag == NoWfAtAll then [] else Down(wfChans))
    else Up(0, rxChans)
  }

  function CountFree(chans: seq<Chan>, order: seq<nat>): nat {
    if |order| == 0 then 0
    else (if order[0] < |chans| && !chans[order[0]].busy then 1 else 0) + CountFree(chans, order[1..])
  }
}
