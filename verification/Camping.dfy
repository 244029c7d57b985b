/** Monitor connections camping on the sound of a channel: every channel has a few slots and a count. */
module Camping {
  import opened Options

  /** A slot: the connection camping, and the port it had when it came. */
  datatype Slot = Free | Taken(conn: nat, port: nat)

  /** How many slots are taken. */
  function Occupied(s: seq<Slot>): (n: nat)
    ensures n <= |s|
    ensures n == |s| ==> forall i :: 0 <= i < |s| ==> s[i].Taken?
    ensures n == 0 ==> forall i :: 0 <= i < |s| ==> s[i] == Free
  {
    if |s| == 0 then 0 else Occupied(s[..|s| - 1]) + if s[|s| - 1].Taken? then 1 else 0
  }

  lemma {:induction false} OccupiedAppend(a: seq<Slot>, b: seq<Slot>)
    ensures Occupied(a + b) == Occupied(a) + Occupied(b)
  {
    if |b| == 0 {
      assert a + b == a;
    } else {
      assert (a + b)[..|a + b| - 1] == a + b[..|b| - 1];
      OccupiedAppend(a, b[..|b| - 1]);
    }
  }

  lemma OccupiedUpdate(s: seq<Slot>, i: nat, x: Slot)
    requires i < |s|
    ensures Occupied(s[i := x]) == Occupied(s) - (if s[i].Taken? then 1 else 0) + (if x.Taken? then 1 else 0)
  {
    var a, b := s[..i], s[i + 1..];
    OccupiedAppend(a + [s[i]], b);
    OccupiedAppend(a, [s[i]]);
    OccupiedAppend(a + [x], b);
    OccupiedAppend(a, [x]);
    assert s == a + [s[i]] + b && s[i := x] == a + [x] + b;
    assert [x][..0] == [] && [s[i]][..0] == [];
  }

  // ---- what each step does to a channel's slots ---------------------------------------------------------------------

  predicate Holds(s: Slot, conn: nat) { s.Taken? && s.conn == conn }

  /** The slots without a connection. */
  function Without(s: seq<Slot>, conn: nat): (r: seq<Slot>)
    ensures |r| == |s| && forall i :: 0 <= i < |s| ==> r[i] == if Holds(s[i], conn) then Free else s[i]
  {
    seq(|s|, i requires 0 <= i < |s| => if Holds(s[i], conn) then Free else s[i])
  }

  /** Whether the connection in a slot is no longer the monitor that came: `port` gives the port of the monitor now on
      a connection, if there is one. */
  predicate Gone(s: Slot, port: nat -> Option<nat>) { s.Taken? && port(s.conn) != Some(s.port) }

  function Present(s: seq<Slot>, port: nat -> Option<nat>): (r: seq<Slot>)
    ensures |r| == |s| && forall i :: 0 <= i < |s| ==> r[i] == if Gone(s[i], port) then Free else s[i]
  {
    seq(|s|, i requires 0 <= i < |s| => if Gone(s[i], port) then Free else s[i])
  }

  /** The first free slot. */
  function FirstFree(s: seq<Slot>): (i: nat)
    ensures i <= |s|
    ensures forall k :: 0 <= k < i ==> s[k].Taken?
    ensures i < |s| ==> s[i] == Free
  {
    if |s| > 0 && s[0].Taken? then 1 + FirstFree(s[1..]) else 0
  }

  lemma {:induction false} AllTaken(s: seq<Slot>)
    requires forall i :: 0 <= i < |s| ==> s[i].Taken?
    ensures Occupied(s) == |s|
  {
    if |s| > 0 { AllTaken(s[..|s| - 1]); }
  }

  lemma RoomFree(s: seq<Slot>)
    ensures Occupied(s) < |s| <==> FirstFree(s) < |s|
  {
    hide Occupied, FirstFree;
    if FirstFree(s) == |s| { AllTaken(s); }
  }

  // ---- the channels ----------------------------------------------------------------------------------------------------

  /** No connection is in two slots of a channel. */
  ghost predicate Single(s: seq<Slot>) {
    forall i, k :: 0 <= i < k < |s| && s[i].Taken? && s[k].Taken? ==> s[i].conn != s[k].conn
  }

  ghost predicate Has(s: seq<Slot>, conn: nat) { exists i :: 0 <= i < |s| && Holds(s[i], conn) }

  /** No connection camps on two channels. */
  ghost predicate Exclusive(chans: seq<seq<Slot>>) {
    forall a, b, conn: nat :: 0 <= a < b < |chans| && Has(chans[a], conn) ==> !Has(chans[b], conn)
  }

  function Joined(s: seq<Slot>, conn: nat, port: nat): seq<Slot> {
    if FirstFree(s) < |s| then s[FirstFree(s) := Taken(conn, port)] else s
  }

  lemma JoinedSingle(s: seq<Slot>, conn: nat, port: nat)
    requires Single(s) && !Has(s, conn)
    ensures Single(Joined(s, conn, port))
  {
    hide FirstFree;
    assert forall i :: 0 <= i < |s| ==> !Holds(s[i], conn);
  }

  lemma OccupiedNone()
    ensures Occupied([]) == 0
  {
  }

  lemma OccupiedNext(s: seq<Slot>, i: nat)
    requires i < |s|
    ensures Occupied(s[..i + 1]) == Occupied(s[..i]) + if s[i].Taken? then 1 else 0
  {
    assert s[..i + 1][..i] == s[..i];
  }

  class Channel {
    const slots: array<Slot>
    var count: nat

    constructor (n: nat)
      ensures fresh(slots) && slots.Length == n && slots[..] == seq(n, i => Free) && count == 0
    {
      slots := new Slot[n](_ => Free);
      count := 0;
    }

    /** The count is the number of slots taken, and no connection is in two of them. */
    ghost predicate Valid() reads this, slots {
      count == Occupied(slots[..]) && Single(slots[..])
    }

    /** Frees a slot. */
    method Vacate(j: nat)
      requires count == Occupied(slots[..]) && j < slots.Length && slots[j].Taken?
      modifies this`count, slots
      ensures count == Occupied(slots[..]) && slots[..] == old(slots[..])[j := Free]
    {
      OccupiedUpdate(slots[..], j, Free);
      slots[j] := Free;
      count := count - 1;
    }

    /** Removes a connection. */
    method Clear(conn: nat) returns (stop: bool)
      requires Valid()
      modifies this`count, slots
      ensures Valid() && slots[..] == Without(old(slots[..]), conn)
      ensures stop == Has(old(slots[..]), conn)
    {
      hide Occupied, Without;
      ghost var was := slots[..];
      stop := false;
      var j := 0;
      while j < slots.Length
        invariant 0 <= j <= slots.Length
        invariant forall k :: 0 <= k < j ==> slots[k] == if Holds(was[k], conn) then Free else was[k]
        invariant forall k :: j <= k < slots.Length ==> slots[k] == was[k]
        invariant count == Occupied(slots[..])
        invariant stop == exists k :: 0 <= k < j && Holds(was[k], conn)
      {
        if slots[j].Taken? && slots[j].conn == conn {
          assert Holds(was[j], conn);
          Vacate(j);
          stop := true;
        }
        j := j + 1;
      }
      assert slots[..] == Without(was, conn);
    }

    /** Puts a connection in the first free slot, if there is one. */
    method Add(conn: nat, port: nat) returns (okay: bool)
      requires Valid() && !Has(slots[..], conn)
      modifies this`count, slots
      ensures Valid() && okay == (old(count) < slots.Length)
      ensures slots[..] == Joined(old(slots[..]), conn, port)
    {
      hide Occupied, FirstFree;
      okay := false;
      RoomFree(slots[..]);
      if count < slots.Length {
        ghost var was := slots[..];
        var i := 0;
        while i < slots.Length && slots[i].Taken?
          invariant 0 <= i <= slots.Length && forall k :: 0 <= k < i ==> slots[k].Taken?
        {
          i := i + 1;
        }
        assert i == FirstFree(was);
        OccupiedUpdate(was, i, Taken(conn, port));
        slots[i] := Taken(conn, port);
        okay := true;
        count := count + 1;
        JoinedSingle(was, conn, port);
        assert slots[..] == Joined(was, conn, port);
      }
    }

    /** The sound task sends to the monitors present, and drops those gone. `warned` is the complaint that the count
        was wrong, which is never made. */
    method Pass(port: nat -> Option<nat>) returns (warned: bool)
      requires Valid()
      modifies this`count, slots
      ensures Valid() && slots[..] == Present(old(slots[..]), port) && !warned
    {
      hide Occupied, Present;
      ghost var was := slots[..];
      var n := 0;
      var i := 0;
      OccupiedNone();
      while i < slots.Length
        invariant 0 <= i <= slots.Length
        invariant forall k :: 0 <= k < i ==> slots[k] == if Gone(was[k], port) then Free else was[k]
        invariant forall k :: i <= k < slots.Length ==> slots[k] == was[k]
        invariant count == Occupied(slots[..]) && n == Occupied(slots[..i])
      {
        var s := slots[i];
        if s.Taken? {
          if port(s.conn) != Some(s.port) {
            Vacate(i);
          } else {
            n := n + 1;
          }
        }
        OccupiedNext(slots[..], i);
        assert slots[..][..i] == slots[..i] && slots[..][..i + 1] == slots[..i + 1];
        i := i + 1;
      }
      assert slots[..i] == slots[..];
      warned := n != count;
      count := n; // which changes it only when they differ
      assert slots[..] == Present(was, port);
    }

    /** The channel is freed. */
    method Reset()
      modifies this`count, slots
      ensures Valid() && slots[..] == seq(slots.Length, i => Free)
    {
      forall i | 0 <= i < slots.Length { slots[i] := Free; }
      count := 0;
      AllFree(slots[..]);
    }
  }

  lemma {:induction false} AllFree(s: seq<Slot>)
    requires forall i :: 0 <= i < |s| ==> s[i] == Free
    ensures Occupied(s) == 0
  {
    if |s| > 0 { AllFree(s[..|s| - 1]); }
  }

  // ---- all channels ------------------------------------------------------------------------------------------------------

  lemma WithoutSingle(s: seq<Slot>, conn: nat)
    requires Single(s)
    ensures Single(Without(s, conn)) && !Has(Without(s, conn), conn)
    ensures forall c: nat :: Has(Without(s, conn), c) ==> Has(s, c)
  {
    hide Without;
    forall c: nat | Has(Without(s, conn), c) ensures Has(s, c) {
      var i :| 0 <= i < |s| && Holds(Without(s, conn)[i], c);
      assert Holds(s[i], c);
    }
  }

  lemma JoinedHas(s: seq<Slot>, conn: nat, port: nat)
    ensures forall c: nat :: Has(Joined(s, conn, port), c) ==> c == conn || Has(s, c)
    ensures Has(Joined(s, conn, port), conn) <==> (FirstFree(s) < |s| || Has(s, conn))
  {
    hide FirstFree;
    var t := Joined(s, conn, port);
    forall c: nat | Has(t, c) && c != conn ensures Has(s, c) {
      var i :| 0 <= i < |t| && Holds(t[i], c);
      assert Holds(s[i], c);
    }
    if FirstFree(s) < |s| { assert Holds(t[FirstFree(s)], conn); }
  }

  /** Moving a monitor to channel `rx`, or only off all channels, keeps every monitor on at most one channel. */
  lemma MovedExclusive(was: seq<seq<Slot>>, now: seq<seq<Slot>>, conn: nat, port: nat, rx: int)
    requires Exclusive(was) && |was| == |now| && (forall c :: 0 <= c < |was| ==> Single(was[c]))
    requires forall c :: 0 <= c < |was| ==>
               now[c] == if c == rx then Joined(Without(was[c], conn), conn, port) else Without(was[c], conn)
    ensures Exclusive(now)
    ensures forall c :: 0 <= c < |was| && c != rx ==> !Has(now[c], conn)
  {
    hide Without, Joined, Has, Single;
    forall c | 0 <= c < |was|
      ensures forall d: nat :: Has(now[c], d) ==> (c == rx && d == conn) || (d != conn && Has(was[c], d))
    {
      WithoutSingle(was[c], conn);
      JoinedHas(Without(was[c], conn), conn, port);
    }
  }

  /** The connection is gone from the channels before `i`; the others are as they were. */
  ghost predicate ClearedTo(was: seq<seq<Slot>>, now: seq<seq<Slot>>, i: nat, conn: nat) {
    |was| == |now| && forall k :: 0 <= k < |was| ==> now[k] == if k < i then Without(was[k], conn) else was[k]
  }

  class Camps {
    const chans: seq<Channel>

    ghost predicate Apart() {
      forall i, k :: 0 <= i < k < |chans| ==> chans[i] != chans[k] && chans[i].slots != chans[k].slots
    }

    ghost function Slots(): seq<array<Slot>> { seq(|chans|, i requires 0 <= i < |chans| => chans[i].slots) }

    ghost function Contents(): (r: seq<seq<Slot>>)
      reads Slots()
      ensures |r| == |chans| && forall i :: 0 <= i < |chans| ==> r[i] == chans[i].slots[..]
    {
      seq(|chans|, i requires 0 <= i < |chans| reads Slots() => assert chans[i].slots == Slots()[i]; chans[i].slots[..])
    }

    ghost predicate Valid() reads chans, Slots() {
      Apart() && Exclusive(Contents()) && AllValid()
    }

    ghost predicate AllValid() reads chans, Slots() {
      forall i :: 0 <= i < |chans| ==> assert chans[i].slots == Slots()[i]; chans[i].Valid()
    }

    constructor (cs: seq<Channel>)
      requires forall i, k :: 0 <= i < k < |cs| ==> cs[i] != cs[k] && cs[i].slots != cs[k].slots
      requires forall i :: 0 <= i < |cs| ==> cs[i].Valid() && cs[i].count == 0
      ensures chans == cs && Valid()
    {
      chans := cs;
      new;
      forall a, c: nat | 0 <= a < |chans| ensures !Has(Contents()[a], c) {
        assert chans[a].Valid();
      }
    }

    lemma AllSingle()
      requires AllValid()
      ensures forall i :: 0 <= i < |chans| ==> Single(Contents()[i])
    {
      hide Single, Occupied;
      forall i | 0 <= i < |chans| ensures Single(Contents()[i]) {
        assert chans[i].Valid();
      }
    }

    /** Removes a connection from one channel. */
    method ClearOne(i: nat, conn: nat) returns (stop: bool)
      requires Apart() && i < |chans| && AllValid()
      modifies chans[i], chans[i].slots
      ensures AllValid() && Contents() == old(Contents())[i := Without(old(Contents())[i], conn)]
      ensures stop == Has(old(Contents())[i], conn)
    {
      hide Without, Occupied, Has, Single;
      ghost var was := Contents();
      stop := chans[i].Clear(conn);
      forall k | 0 <= k < |chans| && k != i ensures chans[k].Valid() && Contents()[k] == was[k] {
        assert old(chans[k].Valid());
      }
    }

    /** Puts a connection in the first free slot of one channel, if there is one. */
    method AddOne(i: nat, conn: nat, port: nat) returns (okay: bool)
      requires Apart() && i < |chans| && AllValid() && !Has(Contents()[i], conn)
      modifies chans[i], chans[i].slots
      ensures AllValid() && Contents() == old(Contents())[i := Joined(old(Contents())[i], conn, port)]
      ensures okay == Has(Contents()[i], conn)
    {
      hide Joined, Occupied, Has, Single, FirstFree;
      ghost var was := Contents();
      RoomFree(was[i]);
      JoinedHas(was[i], conn, port);
      okay := chans[i].Add(conn, port);
      forall k | 0 <= k < |chans| && k != i ensures chans[k].Valid() && Contents()[k] == was[k] {
        assert old(chans[k].Valid());
      }
    }

    /** Removes a connection from every channel. */
    method ClearAll(conn: nat) returns (stop: bool)
      requires Valid()
      modifies chans, Slots()
      ensures AllValid() && ClearedTo(old(Contents()), Contents(), |chans|, conn)
      ensures stop <==> exists i :: 0 <= i < |chans| && Has(old(Contents())[i], conn)
    {
      hide Without, Occupied, Has, Single, Exclusive;
      ghost var was := Contents();
      stop := false;
      var i := 0;
      while i < |chans|
        invariant 0 <= i <= |chans| && AllValid()
        invariant ClearedTo(was, Contents(), i, conn)
        invariant stop <==> exists k :: 0 <= k < i && Has(was[k], conn)
      {
        assert chans[i].slots == Slots()[i];
        var s := ClearOne(i, conn);
        stop := stop || s;
        i := i + 1;
      }
    }

    /** A monitor asks to camp on channel `rx`, or with -1 to stop: it leaves wherever it was, and takes the first free
        slot of the channel, if there is one. */
    method Camp(conn: nat, port: nat, rx: int) returns (stop: bool, okay: bool)
      requires Valid() && -1 <= rx < |chans|
      modifies chans, Slots()
      ensures Valid()
      ensures stop <==> exists i :: 0 <= i < |chans| && Has(old(Contents())[i], conn)
      ensures forall i :: 0 <= i < |chans| ==>
        Contents()[i] ==
        if i == rx then Joined(Without(old(Contents())[i], conn), conn, port) else Without(old(Contents())[i], conn)
      ensures okay <==> rx >= 0 && Has(Contents()[rx], conn)
    {
      hide Without, Occupied, Has, Single, Exclusive, FirstFree, Joined;
      ghost var was := Contents();
      AllSingle();
      stop := ClearAll(conn);
      okay := false;
      if rx >= 0 {
        assert chans[rx].slots == Slots()[rx];
        WithoutSingle(was[rx], conn);
        okay := AddOne(rx, conn, port);
      }
      MovedExclusive(was, Contents(), conn, port, rx);
    }

    /** The sound task of a channel passes; it never finds the count wrong. */
    method PassOn(ch: nat, port: nat -> Option<nat>) returns (warned: bool)
      requires Valid() && ch < |chans|
      modifies chans, Slots()
      ensures Valid() && !warned
      ensures Contents() == old(Contents())[ch := Present(old(Contents())[ch], port)]
    {
      hide Present, Occupied, Has, Single, Exclusive;
      ghost var was := Contents();
      assert chans[ch].slots == Slots()[ch];
      warned := chans[ch].Pass(port);
      FewerExclusive(was, Contents(), ch);
    }

    /** A channel is freed. */
    method FreeChannel(ch: nat)
      requires Valid() && ch < |chans|
      modifies chans, Slots()
      ensures Valid() && Contents() == old(Contents())[ch := seq(chans[ch].slots.Length, i => Free)]
    {
      hide Occupied, Has, Single, Exclusive;
      ghost var was := Contents();
      assert chans[ch].slots == Slots()[ch];
      chans[ch].Reset();
      FewerExclusive(was, Contents(), ch);
    }
  }

  /** Emptying slots of one channel keeps every monitor on at most one. */
  lemma FewerExclusive(was: seq<seq<Slot>>, now: seq<seq<Slot>>, ch: nat)
    requires Exclusive(was) && |now| == |was| && ch < |was| && |now[ch]| == |was[ch]|
    requires forall i :: 0 <= i < |was| && i != ch ==> now[i] == was[i]
    requires forall i :: 0 <= i < |was[ch]| ==> now[ch][i] == Free || now[ch][i] == was[ch][i]
    ensures Exclusive(now)
  {
    forall c: nat | Has(now[ch], c) ensures Has(was[ch], c) {
      var i :| 0 <= i < |now[ch]| && Holds(now[ch][i], c);
      assert Holds(was[ch][i], c);
    }
  }
}
