/** Safety of the channel life cycle over every run. */
module RxSafety {
  import opened Options
  import opened RxState

  // ---- the invariant -------------------------------------------------------------------------------

  /** A live sound or waterfall connection. */
  predicate Owner(st: State, i: int) {
    0 <= i < |st.conns| && st.conns[i].valid && SndOrWf(st.conns[i].ty)
  }

  predicate OwnerOn(st: State, i: int, ch: int) { Owner(st, i) && st.conns[i].chan == ch }

  /** Two connections that share a channel: one of each type, pointing at each other, for the same
      client, and neither told to stop. */
  predicate Partners(st: State, i: int, j: int)
    requires Owner(st, i) && Owner(st, j)
  {
    var a, b := st.conns[i], st.conns[j];
    a.ty != b.ty && a.other == Some(j) && b.other == Some(i) && a.sess == b.sess && !a.stopData && !b.stopData
  }

  ghost predicate OwnersHaveChannels(st: State) {
    forall i :: Owner(st, i) ==> 0 <= st.conns[i].chan < |st.chans| && st.chans[st.conns[i].chan].busy
  }

  ghost predicate BusyHasOwner(st: State) {
    forall ch :: 0 <= ch < |st.chans| && st.chans[ch].busy ==> exists i :: OwnerOn(st, i, ch)
  }

  ghost predicate SharingIsPairing(st: State) {
    forall i, j :: Owner(st, i) && Owner(st, j) && i != j && st.conns[i].chan == st.conns[j].chan ==> Partners(st, i, j)
  }

  ghost predicate LinksAreLive(st: State) {
    forall i :: Owner(st, i) && !st.conns[i].stopData && st.conns[i].other.Some? ==>
      st.conns[i].other.value != i && OwnerOn(st, st.conns[i].other.value, st.conns[i].chan)
  }

  ghost predicate FreeSlots(st: State) {
    forall i :: 0 <= i < |st.conns| ==>
      (!st.conns[i].valid ==> st.conns[i].chan == -1)
      && (st.conns[i].arun ==> st.conns[i].valid && st.conns[i].ty == Sound)
      && (st.conns[i].stopData ==> st.conns[i].valid && SndOrWf(st.conns[i].ty))
  }

  /** The sound connection heads its channel; only a channel so headed is on the data pump. */
  ghost predicate Heads(st: State) {
    && (forall i :: Owner(st, i) && st.conns[i].ty == Sound && 0 <= st.conns[i].chan < |st.chans| ==>
          st.chans[st.conns[i].chan].conn == Some(i))
    && (forall ch :: 0 <= ch < |st.chans| ==>
          (st.chans[ch].busy <==> st.chans[ch].conn.Some?)
          && (st.chans[ch].conn.Some? ==> st.chans[ch].conn.value < |st.conns|)
          && (st.chans[ch].enabled ==>
                st.chans[ch].conn.Some? && OwnerOn(st, st.chans[ch].conn.value, ch)
                && st.conns[st.chans[ch].conn.value].ty == Sound))
  }

  /** A channel has been given back as often as it was taken, but for the time it is busy. */
  ghost predicate Counted(st: State) {
    && |st.allocs| == |st.frees| == |st.chans|
    && forall ch :: 0 <= ch < |st.chans| ==> st.allocs[ch] == st.frees[ch] + if st.chans[ch].busy then 1 else 0
  }

  ghost predicate Inv(st: State) {
    && OwnersHaveChannels(st) && BusyHasOwner(st) && SharingIsPairing(st) && LinksAreLive(st)
    && FreeSlots(st) && Heads(st) && Counted(st)
  }

  // ---- giving a channel back -------------------------------------------------------------------------

  /** The only owner of its channel. */
  predicate Sole(st: State, i: nat)
    requires i < |st.conns|
  {
    st.conns[i].stopData || st.conns[i].other.None?
  }

  lemma SoleOwner(st: State, i: nat, j: nat)
    requires Inv(st) && Owner(st, i) && Sole(st, i) && Owner(st, j) && st.conns[j].chan == st.conns[i].chan
    ensures i == j
  {
  }

  /** The last owner leaves: its channel is freed, once, and nobody else loses anything. */
  lemma LastLeaves(st: State, i: nat)
    requires Inv(st) && Owner(st, i) && Sole(st, i)
    ensures Inv(Remove(Free(st, st.conns[i].chan), i))
  {
    hide OwnersHaveChannels, BusyHasOwner, SharingIsPairing, LinksAreLive, FreeSlots, Heads, Counted;
    OnChannel(st, i);
    var ch, r := st.conns[i].chan, Remove(Free(st, st.conns[i].chan), i);
    assert forall j :: Owner(r, j) ==> j != i && Owner(st, j) && r.conns[j] == st.conns[j];
    forall j | Owner(r, j) ensures r.conns[j].chan != ch {
      if r.conns[j].chan == ch { SoleOwner(st, i, j); }
    }
    LeftOwners(st, i, r);
    LeftLinks(st, i, r);
    LeftHeads(st, i, r);
  }

  lemma OnChannel(st: State, i: nat)
    requires OwnersHaveChannels(st) && Counted(st) && Owner(st, i)
    ensures ChanOk(st, st.conns[i].chan) && st.chans[st.conns[i].chan].busy
  {
  }

  /** `r` is `st` without connection `i` and with its channel cleared; no owner is left on that channel. */
  ghost predicate Left(st: State, i: nat, r: State) {
    && Owner(st, i) && ChanOk(st, st.conns[i].chan)
    && r == Remove(Free(st, st.conns[i].chan), i)
    && (forall j :: Owner(r, j) ==> j != i && Owner(st, j) && r.conns[j] == st.conns[j] && r.conns[j].chan != st.conns[i].chan)
  }

  lemma LeftOwners(st: State, i: nat, r: State)
    requires Left(st, i, r) && OwnersHaveChannels(st) && BusyHasOwner(st) && Counted(st)
    requires st.chans[st.conns[i].chan].busy
    ensures OwnersHaveChannels(r) && BusyHasOwner(r) && Counted(r)
  {
    forall c | 0 <= c < |r.chans| && r.chans[c].busy ensures exists j :: OwnerOn(r, j, c) {
      var j :| OwnerOn(st, j, c);
      assert OwnerOn(r, j, c);
    }
  }

  lemma LeftLinks(st: State, i: nat, r: State)
    requires Left(st, i, r) && SharingIsPairing(st) && LinksAreLive(st) && FreeSlots(st)
    ensures SharingIsPairing(r) && LinksAreLive(r) && FreeSlots(r)
  {
  }

  lemma LeftHeads(st: State, i: nat, r: State)
    requires Left(st, i, r) && Heads(st)
    ensures Heads(r)
  {
  }

  /** One of a pair leaves: the other is told to stop and keeps the channel. */
  lemma PartnerLeaves(st: State, i: nat, o: nat, leave: bool)
    requires Inv(st) && Owner(st, i) && !st.conns[i].stopData && st.conns[i].other == Some(o)
    requires leave || st.conns[i].kick
    ensures Inv(Pass(st, i, leave))
    ensures o < |st.conns| && Pass(st, i, leave).conns[o] == st.conns[o].(stopData := true)
  {
    hide OwnersHaveChannels, BusyHasOwner, SharingIsPairing, LinksAreLive, FreeSlots, Heads, Counted;
    var r := Pass(st, i, leave);
    PairedUp(st, i, o);
    OnChannel(st, i);
    assert ConnOther(st, i, if st.conns[i].ty == Sound then Waterfall else Sound) == Some(o);
    assert Halved(st, i, o, r);
    HalvedOwners(st, i, o, r);
    HalvedLinks(st, i, o, r);
    HalvedHeads(st, i, o, r);
  }

  lemma PairedUp(st: State, i: nat, o: nat)
    requires SharingIsPairing(st) && LinksAreLive(st)
    requires Owner(st, i) && !st.conns[i].stopData && st.conns[i].other == Some(o)
    ensures i != o && OwnerOn(st, o, st.conns[i].chan) && Partners(st, i, o)
  {
  }

  /** `r` is `st` without connection `i`, whose partner `o` is told to stop. */
  ghost predicate Halved(st: State, i: nat, o: nat, r: State) {
    && Owner(st, i) && i != o && OwnerOn(st, o, st.conns[i].chan) && Partners(st, i, o) && ChanOk(st, st.conns[i].chan)
    && |r.conns| == |st.conns| && r.conns[i] == InitConn && r.conns[o] == st.conns[o].(stopData := true)
    && (forall j :: 0 <= j < |st.conns| && j != i && j != o ==> r.conns[j] == st.conns[j])
    && (r.chans == st.chans || r.chans == st.chans[st.conns[i].chan := st.chans[st.conns[i].chan].(enabled := false)])
    && (st.conns[i].ty == Sound ==> !r.chans[st.conns[i].chan].enabled)
    && r.allocs == st.allocs && r.frees == st.frees
  }

  lemma HalvedOwners(st: State, i: nat, o: nat, r: State)
    requires Halved(st, i, o, r) && OwnersHaveChannels(st) && BusyHasOwner(st) && Counted(st)
    ensures OwnersHaveChannels(r) && BusyHasOwner(r) && Counted(r)
  {
    forall c | 0 <= c < |r.chans| && r.chans[c].busy ensures exists j :: OwnerOn(r, j, c) {
      var j :| OwnerOn(st, j, c);
      assert OwnerOn(r, if j == i then o else j, c);
    }
  }

  lemma HalvedLinks(st: State, i: nat, o: nat, r: State)
    requires Halved(st, i, o, r) && SharingIsPairing(st) && LinksAreLive(st) && FreeSlots(st)
    ensures SharingIsPairing(r) && LinksAreLive(r) && FreeSlots(r)
  {
    assert forall j :: Owner(r, j) ==> j != i && Owner(st, j) && r.conns[j].chan == st.conns[j].chan;
    forall j, k | Owner(r, j) && Owner(r, k) && j != k && r.conns[j].chan == r.conns[k].chan ensures Partners(r, j, k) {
      assert Partners(st, j, k);
    }
    forall j | Owner(r, j) && !r.conns[j].stopData && r.conns[j].other.Some?
      ensures r.conns[j].other.value != j && OwnerOn(r, r.conns[j].other.value, r.conns[j].chan)
    {
      assert Partners(st, j, st.conns[j].other.value);
    }
  }

  lemma HalvedHeads(st: State, i: nat, o: nat, r: State)
    requires Halved(st, i, o, r) && Heads(st)
    ensures Heads(r)
  {
  }

  // ---- steps that change no link --------------------------------------------------------------------

  /** `r` is `st` but for flags that ownership does not depend on. */
  ghost predicate SameLinks(st: State, r: State) {
    && |r.conns| == |st.conns| && r.allocs == st.allocs && r.frees == st.frees && |r.chans| == |st.chans|
    && (forall j :: 0 <= j < |st.conns| ==>
          r.conns[j].(kick := false, mc := false, arun := false) == st.conns[j].(kick := false, mc := false, arun := false))
    && (forall c :: 0 <= c < |st.chans| ==> r.chans[c].busy == st.chans[c].busy && r.chans[c].conn == st.chans[c].conn)
  }

  lemma SameLinksInv(st: State, r: State)
    requires Inv(st) && SameLinks(st, r) && FreeSlots(r)
    requires forall c :: 0 <= c < |st.chans| && r.chans[c].enabled ==>
               st.chans[c].conn.Some? && OwnerOn(st, st.chans[c].conn.value, c)
               && st.conns[st.chans[c].conn.value].ty == Sound
    ensures Inv(r)
  {
    hide BusyHasOwner, SharingIsPairing, LinksAreLive, FreeSlots, Heads;
    assert forall j :: Owner(r, j) <==> Owner(st, j);
    SameLinksBusy(st, r);
    SameLinksPairs(st, r);
    SameLinksHeads(st, r);
  }

  lemma SameLinksBusy(st: State, r: State)
    requires SameLinks(st, r) && BusyHasOwner(st)
    ensures BusyHasOwner(r)
  {
    forall c | 0 <= c < |r.chans| && r.chans[c].busy ensures exists j :: OwnerOn(r, j, c) {
      var j :| OwnerOn(st, j, c);
      assert OwnerOn(r, j, c);
    }
  }

  lemma SameLinksPairs(st: State, r: State)
    requires SameLinks(st, r) && SharingIsPairing(st) && LinksAreLive(st)
    ensures SharingIsPairing(r) && LinksAreLive(r)
  {
    assert forall j :: Owner(r, j) <==> Owner(st, j);
    forall j, k | Owner(r, j) && Owner(r, k) && j != k && r.conns[j].chan == r.conns[k].chan ensures Partners(r, j, k) {
      assert Partners(st, j, k);
    }
  }

  lemma SameLinksHeads(st: State, r: State)
    requires SameLinks(st, r) && Heads(st)
    requires forall c :: 0 <= c < |st.chans| && r.chans[c].enabled ==>
               st.chans[c].conn.Some? && OwnerOn(st, st.chans[c].conn.value, c)
               && st.conns[st.chans[c].conn.value].ty == Sound
    ensures Heads(r)
  {
    assert forall j :: Owner(r, j) <==> Owner(st, j);
  }

  lemma StartInv(st: State, i: nat)
    requires Inv(st) && i < |st.conns|
    ensures Inv(Start(st, i))
  {
    var r := Start(st, i);
    SameLinksInv(st, r);
  }

  lemma FlagInv(st: State, i: nat)
    requires Inv(st) && i < |st.conns|
    ensures Inv(Kick(st, i)) && Inv(Close(st, i)) && Inv(MarkArun(st, i))
  {
    hide BusyHasOwner, SharingIsPairing, LinksAreLive;
    SameLinksInv(st, Kick(st, i));
    SameLinksInv(st, Close(st, i));
    SameLinksInv(st, MarkArun(st, i));
  }

  /** A slot that is no owner before or after changes. */
  lemma BystanderInv(st: State, i: nat, c: Conn)
    requires Inv(st) && i < |st.conns| && !Owner(st, i) && !(c.valid && SndOrWf(c.ty))
    requires !c.arun && !c.stopData && (!c.valid ==> c.chan == -1)
    ensures Inv(SetConn(st, i, c))
  {
    hide BusyHasOwner, SharingIsPairing, LinksAreLive, Heads;
    var r := SetConn(st, i, c);
    assert forall j :: Owner(r, j) ==> Owner(st, j) && r.conns[j] == st.conns[j];
    assert forall j :: Owner(st, j) ==> j != i && Owner(r, j);
    BystanderBusy(st, i, r);
    BystanderPairs(st, i, r);
    BystanderHeads(st, i, r);
  }

  ghost predicate SameOwners(st: State, i: nat, r: State) {
    && i < |st.conns| == |r.conns| && r == SetConn(st, i, r.conns[i]) && !Owner(st, i) && !Owner(r, i)
  }

  lemma BystanderBusy(st: State, i: nat, r: State)
    requires SameOwners(st, i, r) && BusyHasOwner(st)
    ensures BusyHasOwner(r)
  {
    forall c | 0 <= c < |r.chans| && r.chans[c].busy ensures exists j :: OwnerOn(r, j, c) {
      var j :| OwnerOn(st, j, c);
      assert OwnerOn(r, j, c);
    }
  }

  lemma BystanderPairs(st: State, i: nat, r: State)
    requires SameOwners(st, i, r) && SharingIsPairing(st) && LinksAreLive(st)
    ensures SharingIsPairing(r) && LinksAreLive(r)
  {
    assert forall j :: Owner(r, j) <==> Owner(st, j);
    assert forall j :: Owner(r, j) ==> r.conns[j] == st.conns[j];
    forall j, k | Owner(r, j) && Owner(r, k) && j != k && r.conns[j].chan == r.conns[k].chan ensures Partners(r, j, k) {
      assert Partners(st, j, k);
    }
  }

  lemma BystanderHeads(st: State, i: nat, r: State)
    requires SameOwners(st, i, r) && Heads(st)
    ensures Heads(r)
  {
    assert forall j :: Owner(r, j) <==> Owner(st, j);
    assert forall j :: Owner(r, j) ==> r.conns[j] == st.conns[j];
  }

  // ---- passes, culls, leaves ---------------------------------------------------------------------------

  /** A pass of a task loop keeps the invariant. */
  lemma PassInv(st: State, i: nat, leave: bool)
    requires Inv(st) && i < |st.conns|
    ensures Inv(Pass(st, i, leave))
  {
    hide Inv;
    var c := st.conns[i];
    if Owner(st, i) {
      if c.stopData {
        LastLeaves(st, i);
      } else if leave || c.kick {
        if c.other.Some? {
          PartnerLeaves(st, i, c.other.value, leave);
        } else {
          LastLeaves(st, i);
        }
      }
    }
  }

  lemma CullInv(st: State, i: nat)
    requires Inv(st) && i < |st.conns|
    ensures Inv(Cull(st, i))
  {
    if st.conns[i].valid && st.conns[i].stopData && !st.conns[i].mc { LastLeaves(st, i); }
  }

  lemma LeaveInv(st: State, i: nat)
    requires Inv(st) && i < |st.conns|
    ensures Inv(Leave(st, i))
  {
    if st.conns[i].valid && !SndOrWf(st.conns[i].ty) { BystanderInv(st, i, InitConn); }
  }

  // ---- connects ------------------------------------------------------------------------------------------

  /** A live connection of the same client and type, which rules a connect out. */
  predicate Duplicate(st: State, k: int, req: Req) {
    && 0 <= k < |st.conns| && st.conns[k].valid && st.conns[k].sess == req.sess
    && (SndOrWf(req.ty) || req.ty == Ext) && st.conns[k].ty == req.ty
  }

  predicate Linked(st: State, k: int, req: Req) {
    0 <= k < |st.conns| && st.conns[k].valid && st.conns[k].sess == req.sess && Links(req.ty, st.conns[k].ty)
  }

  /** What the scan has established for the slots before `i`. */
  ghost predicate ScannedTo(st: State, i: nat, req: Req, free: Option<nat>, other: Option<nat>) {
    && i <= |st.conns|
    && (free.Some? ==> free.value < i && !st.conns[free.value].valid)
    && (other.Some? ==> other.value < i && Linked(st, other.value, req))
    && (forall k :: 0 <= k < i ==> !Duplicate(st, k, req))
    && (forall k :: 0 <= k < i && Linked(st, k, req) ==> other == Some(k))
  }

  /** The scan culls safely, and finds the only linked connection and no duplicate, or refuses. */
  lemma {:induction false} ScanInv(st: State, i: nat, req: Req, free: Option<nat>, other: Option<nat>, mons: nat)
    requires Inv(st) && ScannedTo(st, i, req, free, other)
    ensures var s := ScanFrom(st, i, req, free, other, mons);
      && Inv(s.st) && |s.st.conns| == |st.conns|
      && (s.Scanned? ==> ScannedTo(s.st, |st.conns|, req, s.free, s.other))
    decreases |st.conns| - i
  {
    hide Inv;
    if i < |st.conns| {
      var st1 := Cull(st, i);
      CullInv(st, i);
      assert forall k :: 0 <= k < |st.conns| && k != i ==> st1.conns[k] == st.conns[k];
      assert forall k :: 0 <= k < i ==> (Linked(st1, k, req) <==> Linked(st, k, req));
      assert forall k :: 0 <= k < i ==> (Duplicate(st1, k, req) <==> Duplicate(st, k, req));
      var c := st1.conns[i];
      var mons1 := mons + if c.valid && c.ty == Monitor then 1 else 0;
      if !c.valid {
        ScanInv(st1, i + 1, req, if free.None? then Some(i) else free, other, mons);
      } else if Duplicate(st1, i, req) {
      } else if Linked(st1, i, req) {
        if other.None? { ScanInv(st1, i + 1, req, free, Some(i), mons1); }
      } else {
        ScanInv(st1, i + 1, req, free, other, mons1);
      }
    }
  }

  lemma FreeIsBystander(st: State, i: nat)
    requires Inv(st) && i < |st.conns| && !st.conns[i].valid
    ensures Inv(SetConn(st, i, InitConn))
  {
    BystanderInv(st, i, InitConn);
  }

  /** A first connection takes a free channel. */
  lemma AttachFirst(st: State, req: Req, i: nat, ch: nat)
    requires Inv(st) && SndOrWf(req.ty) && i < |st.conns| && !st.conns[i].valid
    requires ChanOk(st, ch) && !st.chans[ch].busy
    ensures Inv(Attach(TakeChan(st, ch), req, i, None, ch))
  {
    var r := Attach(TakeChan(st, ch), req, i, None, ch);
    if req.taskOk {
      hide OwnersHaveChannels, BusyHasOwner, SharingIsPairing, LinksAreLive, FreeSlots, Heads, Counted;
      assert st.chans[ch].conn.None? by { NoHead(st, ch); }
      NobodyOn(st, ch);
      FirstOwners(st, i, ch, r);
      FirstLinks(st, i, ch, r);
      FirstHeads(st, i, ch, r);
    } else {
      FreeIsBystander(st, i);
      FailedFirst(st, i, ch, r);
    }
  }

  lemma NoHead(st: State, ch: nat)
    requires Heads(st) && ch < |st.chans| && !st.chans[ch].busy
    ensures st.chans[ch].conn.None?
  {
  }

  lemma NobodyOn(st: State, ch: nat)
    requires OwnersHaveChannels(st) && ch < |st.chans| && !st.chans[ch].busy
    ensures forall j :: Owner(st, j) ==> st.conns[j].chan != ch
  {
  }

  /** `r` is `st` with a new sole owner in slot `i` on channel `ch`. */
  ghost predicate Seated(st: State, i: nat, ch: nat, r: State) {
    && i < |st.conns| && !st.conns[i].valid && ChanOk(st, ch) && !st.chans[ch].busy
    && |r.conns| == |st.conns| && Owner(r, i) && r.conns[i].chan == ch && r.conns[i].other.None?
    && !r.conns[i].stopData && !r.conns[i].arun
    && (forall j :: 0 <= j < |st.conns| && j != i ==> r.conns[j] == st.conns[j])
    && r.chans == st.chans[ch := st.chans[ch].(busy := true, conn := Some(i))]
    && r.allocs == st.allocs[ch := st.allocs[ch] + 1] && r.frees == st.frees
    && (forall j :: Owner(st, j) ==> st.conns[j].chan != ch)
  }

  lemma FirstOwners(st: State, i: nat, ch: nat, r: State)
    requires Seated(st, i, ch, r) && OwnersHaveChannels(st) && BusyHasOwner(st) && Counted(st)
    ensures OwnersHaveChannels(r) && BusyHasOwner(r) && Counted(r)
  {
    forall c | 0 <= c < |r.chans| && r.chans[c].busy ensures exists j :: OwnerOn(r, j, c) {
      if c == ch {
        assert OwnerOn(r, i, c);
      } else {
        var j :| OwnerOn(st, j, c);
        assert OwnerOn(r, j, c);
      }
    }
  }

  lemma FirstLinks(st: State, i: nat, ch: nat, r: State)
    requires Seated(st, i, ch, r) && SharingIsPairing(st) && LinksAreLive(st) && FreeSlots(st)
    ensures SharingIsPairing(r) && LinksAreLive(r) && FreeSlots(r)
  {
    assert forall j :: Owner(r, j) && j != i ==> Owner(st, j);
    forall j, k | Owner(r, j) && Owner(r, k) && j != k && r.conns[j].chan == r.conns[k].chan ensures Partners(r, j, k) {
      assert Partners(st, j, k);
    }
  }

  lemma FirstHeads(st: State, i: nat, ch: nat, r: State)
    requires Seated(st, i, ch, r) && Heads(st)
    ensures Heads(r)
  {
    assert forall j :: Owner(r, j) && j != i ==> Owner(st, j);
    assert forall j :: Owner(st, j) ==> Owner(r, j) && j != i;
  }

  /** Without a task the channel is given back at once. */
  lemma FailedFirst(st: State, i: nat, ch: nat, r: State)
    requires i < |st.conns| && !st.conns[i].valid && ChanOk(st, ch) && Inv(SetConn(st, i, InitConn))
    requires !st.chans[ch].busy && st.chans[ch] == InitChan
    requires r == Free(SetConn(TakeChan(st, ch), i, InitConn), ch)
    ensures Inv(r)
  {
    var q := SetConn(st, i, InitConn);
    assert r.conns == q.conns && r.chans == q.chans;
    assert forall j :: Owner(q, j) <==> Owner(r, j);
    forall c | 0 <= c < |r.chans| && r.chans[c].busy ensures exists j :: OwnerOn(r, j, c) {
      var j :| OwnerOn(q, j, c);
      assert OwnerOn(r, j, c);
    }
    forall j, k | Owner(r, j) && Owner(r, k) && j != k && r.conns[j].chan == r.conns[k].chan ensures Partners(r, j, k) {
      assert Partners(q, j, k);
    }
  }

  /** `r` is `st` with a new owner in slot `i`, paired with the owner `o` on its channel. */
  ghost predicate Joined(st: State, i: nat, o: nat, r: State) {
    && i < |st.conns| && !st.conns[i].valid && Owner(st, o) && ChanOk(st, st.conns[o].chan)
    && !st.conns[o].stopData && st.conns[o].other.None?
    && |r.conns| == |st.conns| && Owner(r, i)
    && r.conns[i].chan == st.conns[o].chan && r.conns[i].other == Some(o) && r.conns[i].ty != st.conns[o].ty
    && r.conns[i].sess == st.conns[o].sess && !r.conns[i].stopData && !r.conns[i].arun
    && r.conns[o] == st.conns[o].(other := Some(i))
    && (forall j :: 0 <= j < |st.conns| && j != i && j != o ==> r.conns[j] == st.conns[j])
    && (forall j :: Owner(st, j) && j != o ==> st.conns[j].chan != st.conns[o].chan)
    && r.chans == st.chans[st.conns[o].chan := st.chans[st.conns[o].chan].(conn :=
         if r.conns[i].ty == Sound then Some(i) else st.chans[st.conns[o].chan].conn)]
    && r.allocs == st.allocs && r.frees == st.frees
  }

  lemma JoinOwners(st: State, i: nat, o: nat, r: State)
    requires Joined(st, i, o, r) && OwnersHaveChannels(st) && BusyHasOwner(st) && Counted(st)
    ensures OwnersHaveChannels(r) && BusyHasOwner(r) && Counted(r)
  {
    forall c | 0 <= c < |r.chans| && r.chans[c].busy ensures exists j :: OwnerOn(r, j, c) {
      var j :| OwnerOn(st, j, c);
      assert OwnerOn(r, j, c);
    }
  }

  lemma JoinLinks(st: State, i: nat, o: nat, r: State)
    requires Joined(st, i, o, r) && SharingIsPairing(st) && LinksAreLive(st) && FreeSlots(st)
    ensures SharingIsPairing(r) && LinksAreLive(r) && FreeSlots(r)
  {
    assert forall j :: Owner(r, j) && j != i ==> Owner(st, j);
    forall j, k | Owner(r, j) && Owner(r, k) && j != k && r.conns[j].chan == r.conns[k].chan ensures Partners(r, j, k) {
      if j != i && k != i { assert Partners(st, j, k); }
    }
    forall j | Owner(r, j) && !r.conns[j].stopData && r.conns[j].other.Some?
      ensures r.conns[j].other.value != j && OwnerOn(r, r.conns[j].other.value, r.conns[j].chan)
    {
      if j != i && j != o { assert OwnerOn(st, st.conns[j].other.value, st.conns[j].chan); }
    }
  }

  lemma JoinHeads(st: State, i: nat, o: nat, r: State)
    requires Joined(st, i, o, r) && Heads(st) && OwnersHaveChannels(st)
    ensures Heads(r)
  {
    assert forall j :: Owner(r, j) && j != i ==> Owner(st, j);
    assert forall j :: Owner(st, j) ==> Owner(r, j) && j != i;
  }

  /** A connection that a new one may join has no partner: it would be a duplicate of the new one. */
  lemma NoPartnerYet(st: State, req: Req, o: nat)
    requires Inv(st) && SndOrWf(req.ty) && Linked(st, o, req) && st.conns[o].ty != Monitor && !st.conns[o].stopData
    requires forall k :: 0 <= k < |st.conns| ==> !Duplicate(st, k, req)
    ensures st.conns[o].other.None?
    ensures forall j :: Owner(st, j) && j != o ==> st.conns[j].chan != st.conns[o].chan
  {
    forall j | Owner(st, j) && Partners(st, o, j) ensures Duplicate(st, j, req) {
    }
    if st.conns[o].other.Some? { PairedUp(st, o, st.conns[o].other.value); }
  }

  /** The second connection of a client joins the channel of the first. */
  lemma AttachSecond(st: State, req: Req, i: nat, o: nat)
    requires Inv(st) && SndOrWf(req.ty) && req.taskOk && i < |st.conns| && !st.conns[i].valid
    requires Linked(st, o, req) && st.conns[o].ty != Monitor && !st.conns[o].stopData && ChanOk(st, st.conns[o].chan)
    requires forall k :: 0 <= k < |st.conns| ==> !Duplicate(st, k, req)
    ensures Inv(Attach(SetConn(st, o, st.conns[o].(other := Some(i))), req, i, Some(o), st.conns[o].chan))
  {
    var r := Attach(SetConn(st, o, st.conns[o].(other := Some(i))), req, i, Some(o), st.conns[o].chan);
    NoPartnerYet(st, req, o);
    OnChannel(st, o);
    assert st.chans[st.conns[o].chan].conn.Some?;
    hide OwnersHaveChannels, BusyHasOwner, SharingIsPairing, LinksAreLive, FreeSlots, Heads, Counted;
    JoinOwners(st, i, o, r);
    JoinLinks(st, i, o, r);
    JoinHeads(st, i, o, r);
  }

  /** A connect that links to an existing connection goes on to use its channel. */
  predicate UsesPartner(s: Scan, req: Req)
  {
    && s.Scanned? && s.free.Some? && s.free.value < |s.st.conns| && s.other.Some? && s.other.value < |s.st.conns|
    && var o := s.st.conns[s.other.value];
       if SndOrWf(req.ty) then
         o.ty != Monitor && ChanOk(s.st, o.chan) && !(req.ty == Waterfall && o.chan >= req.wfChans && !req.kiwiUI)
       else req.ty == Ext && o.chan != -1
  }

  /** The condition under which a connect is safe, which the code does not test: the connection it joins has
      not been told to stop, and a task is available for the new one. */
  predicate ConnectSafe(st: State, req: Req) {
    var s := ScanFrom(st, 0, req, None, None, 0);
    UsesPartner(s, req) ==> req.taskOk && (SndOrWf(req.ty) ==> !s.st.conns[s.other.value].stopData)
  }

  lemma ConnectInv(st: State, req: Req)
    requires Inv(st)
    ensures Inv(Connect(st, req)) <==> ConnectSafe(st, req)
  {
    ScanInv(st, 0, req, None, None, 0);
    var s := ScanFrom(st, 0, req, None, None, 0);
    if s.Scanned? && s.free.Some? {
      SettleInv(s, req);
    }
  }

  lemma SettleInv(s: Scan, req: Req)
    requires s.Scanned? && Inv(s.st) && ScannedTo(s.st, |s.st.conns|, req, s.free, s.other) && s.free.Some?
    ensures Inv(Settle(s, req))
       <==> (UsesPartner(s, req) ==> req.taskOk && (SndOrWf(req.ty) ==> !s.st.conns[s.other.value].stopData))
  {
    hide Inv;
    var st, i := s.st, s.free.value;
    FreeIsBystander(st, i);
    if UsesPartner(s, req) {
      SettleSecond(s, req);
    } else if SndOrWf(req.ty) && s.other.None? {
      var rx := if req.forceCamp then None else FirstFree(st.chans, req.order);
      if rx.Some? && ChanOk(st, rx.value) {
        AttachFirst(st, req, i, rx.value);
      } else {
        MonitorInv(st, i, NewConn(req, None, -1).(ty := Monitor));
      }
    } else if !SndOrWf(req.ty) {
      MonitorInv(st, i, InitConn.(ty := Ext));
      MonitorInv(st, i, InitConn.(ty := Ext, other := s.other));
      MonitorInv(st, i, NewConn(req, None, -1));
    }
  }

  lemma MonitorInv(st: State, i: nat, c: Conn)
    requires Inv(st) && i < |st.conns| && !st.conns[i].valid && !SndOrWf(c.ty) && !c.arun && !c.stopData
    requires !c.valid ==> c.chan == -1
    ensures Inv(SetConn(st, i, c))
  {
    BystanderInv(st, i, c);
  }

  lemma SettleSecond(s: Scan, req: Req)
    requires UsesPartner(s, req) && Inv(s.st) && ScannedTo(s.st, |s.st.conns|, req, s.free, s.other)
    ensures Inv(Settle(s, req)) <==> req.taskOk && (SndOrWf(req.ty) ==> !s.st.conns[s.other.value].stopData)
  {
    var st, i, o := s.st, s.free.value, s.other.value;
    var r := Settle(s, req);
    OnChannel(st, o);
    assert i != o && Owner(st, o);
    if !req.taskOk {
      assert Owner(r, o) && r.conns[o].chan == st.conns[o].chan && !r.chans[st.conns[o].chan].busy;
    } else if SndOrWf(req.ty) {
      if st.conns[o].stopData {
        assert Owner(r, i) && Owner(r, o) && r.conns[i].chan == r.conns[o].chan && r.conns[o].stopData;
        assert !Partners(r, i, o);
      } else {
        AttachSecond(st, req, i, o);
      }
    } else {
      MonitorInv(st, i, NewConn(req, s.other, st.conns[o].chan));
    }
  }

  // ---- preemption -----------------------------------------------------------------------------------------

  /** The condition under which evicting an autorun is safe, which the code does not test: the record of
      the channel names a connection that is on that channel, alone. */
  predicate PreemptSafe(st: State, ch: nat) {
    ChanOk(st, ch) && st.chans[ch].busy && st.chans[ch].conn.Some? && st.chans[ch].conn.value < |st.conns|
    && st.conns[st.chans[ch].conn.value].arun
    ==> st.conns[st.chans[ch].conn.value].chan == ch && Sole(st, st.chans[ch].conn.value)
  }

  lemma PreemptInv(st: State, ch: nat)
    requires Inv(st)
    ensures Inv(Preempt(st, ch)) <==> PreemptSafe(st, ch)
  {
    var r := Preempt(st, ch);
    if r != st {
      var k := st.chans[ch].conn.value;
      assert Owner(st, k);
      if PreemptSafe(st, ch) {
        LastLeaves(st, k);
      } else {
        var w := WhoStays(st, ch, k);
        assert Owner(r, w) && r.conns[w].chan == ch && !r.chans[ch].busy;
      }
    }
  }

  /** Someone else is on the channel. */
  lemma WhoStays(st: State, ch: nat, k: nat) returns (w: nat)
    requires Inv(st) && ch < |st.chans| && st.chans[ch].busy && Owner(st, k) && (st.conns[k].chan != ch || !Sole(st, k))
    ensures w != k && OwnerOn(st, w, ch)
  {
    if st.conns[k].chan == ch {
      w := st.conns[k].other.value;
      PairedUp(st, k, w);
    } else {
      var j :| OwnerOn(st, j, ch);
      w := j;
    }
  }

  predicate EvictSafe(st: State, req: Req, ch: nat) {
    var s := ScanFrom(st, 0, req, None, None, 0);
    s.Scanned? && s.free.Some? && s.free.value < |s.st.conns| && SndOrWf(req.ty) && s.other.None?
    ==> PreemptSafe(SetConn(s.st, s.free.value, InitConn.(ty := req.ty)), ch)
  }

  lemma EvictInv(st: State, req: Req, ch: nat)
    requires Inv(st)
    ensures Inv(Evict(st, req, ch)) <==> EvictSafe(st, req, ch)
  {
    hide Inv;
    ScanInv(st, 0, req, None, None, 0);
    var s := ScanFrom(st, 0, req, None, None, 0);
    if s.Scanned? && s.free.Some? {
      BystanderInv(s.st, s.free.value, InitConn.(ty := req.ty));
      PreemptInv(SetConn(s.st, s.free.value, InitConn.(ty := req.ty)), ch);
    }
  }
}
