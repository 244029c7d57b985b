/** The buffer queue as the linked list it is, each operation tied to the same operation on the sequence of
    entries. */
module NbufList {
  import opened NbufQueue

  class Nbuf {
    var buf: string
    var done: bool
    var dequeued: bool
    var ttl: nat
    var next: Nbuf?
    var prev: Nbuf?
    // the number of buffers queued before this one, which tells the buffers of a queue apart
    ghost var pos: int

    constructor (s: string, t: nat)
      ensures Is(Entry(s, false, false, t))
    {
      buf, done, dequeued, ttl, next, prev := s, false, false, t, null, null;
    }

    ghost predicate Is(e: Entry) reads this`buf, this`done, this`dequeued, this`ttl {
      buf == e.buf && done == e.done && dequeued == e.dequeued && ttl == e.ttl
    }
  }

  function At(nodes: seq<Nbuf>, i: int): Nbuf? { if 0 <= i < |nodes| then nodes[i] else null }

  /** The two chains are each other's inverse between the ends: `prev` leads to newer buffers and `next` to
      older ones. */
  ghost predicate Chained(nodes: seq<Nbuf>, base: int) reads nodes`pos, nodes`prev, nodes`next {
    && (forall i {:trigger nodes[i].pos} :: 0 <= i < |nodes| ==> nodes[i].pos == base + i)
    && (forall i {:trigger nodes[i].prev} :: 0 <= i < |nodes| ==> nodes[i].prev == At(nodes, i + 1))
    && (forall i {:trigger nodes[i].next} :: 0 <= i < |nodes| ==> nodes[i].next == At(nodes, i - 1))
  }

  ghost predicate Show(nodes: seq<Nbuf>, es: seq<Entry>) reads nodes`buf, nodes`done, nodes`dequeued, nodes`ttl {
    |nodes| == |es| && forall i {:trigger nodes[i]} {:trigger es[i]} :: 0 <= i < |nodes| ==> nodes[i].Is(es[i])
  }

  /** A chain in which nothing leads back to the oldest buffer. */
  ghost predicate Severed(nodes: seq<Nbuf>, base: int) reads nodes`pos, nodes`prev, nodes`next {
    && (forall i {:trigger nodes[i].pos} :: 0 <= i < |nodes| ==> nodes[i].pos == base + i)
    && (forall i {:trigger nodes[i].prev} :: 0 <= i < |nodes| ==> nodes[i].prev == At(nodes, i + 1))
    && (forall i {:trigger nodes[i].next} :: 2 <= i < |nodes| ==> nodes[i].next == At(nodes, i - 1))
    && (|nodes| > 1 ==> nodes[1].next == null)
  }

  lemma DropChained(nodes: seq<Nbuf>, base: int)
    requires |nodes| > 0 && Severed(nodes, base)
    ensures Chained(nodes[1..], base + 1)
  {
    var ns := nodes[1..];
    forall i | 0 <= i < |ns| ensures ns[i].pos == base + 1 + i && ns[i].prev == At(ns, i + 1) && ns[i].next == At(ns, i - 1) {
      assert ns[i] == nodes[i + 1];
    }
  }

  lemma ShowLength(nodes: seq<Nbuf>, es: seq<Entry>)
    requires Show(nodes, es)
    ensures |nodes| == |es|
  {
  }

  lemma DropShown(nodes: seq<Nbuf>, es: seq<Entry>)
    requires |nodes| > 0 && Show(nodes, es)
    ensures Show(nodes[1..], es[1..])
  {
    forall i | 0 <= i < |nodes| - 1 ensures nodes[1..][i].Is(es[1..][i]) {
      assert nodes[i + 1].Is(es[i + 1]);
    }
  }

  /** A chain whose newest buffer already leads to the next one. */
  ghost predicate Awaits(nodes: seq<Nbuf>, nb: Nbuf, base: int) reads nodes`pos, nodes`prev, nodes`next {
    && (forall i {:trigger nodes[i].pos} :: 0 <= i < |nodes| ==> nodes[i].pos == base + i)
    && (forall i {:trigger nodes[i].prev} :: 0 <= i < |nodes| - 1 ==> nodes[i].prev == At(nodes, i + 1))
    && (|nodes| > 0 ==> nodes[|nodes| - 1].prev == nb)
    && (forall i {:trigger nodes[i].next} :: 0 <= i < |nodes| ==> nodes[i].next == At(nodes, i - 1))
  }

  lemma AppendChained(nodes: seq<Nbuf>, nb: Nbuf, base: int)
    requires nb.pos == base + |nodes| && nb.prev == null && nb.next == At(nodes, |nodes| - 1)
    requires Awaits(nodes, nb, base)
    ensures Chained(nodes + [nb], base)
  {
    var ns := nodes + [nb];
    forall i | 0 <= i < |ns| ensures ns[i].pos == base + i && ns[i].prev == At(ns, i + 1) && ns[i].next == At(ns, i - 1) {
      assert i < |nodes| ==> ns[i] == nodes[i];
    }
  }

  lemma AppendShown(nodes: seq<Nbuf>, nb: Nbuf, es: seq<Entry>, e: Entry)
    requires Show(nodes, es) && nb.Is(e)
    ensures Show(nodes + [nb], es + [e])
  {
  }

  /** The first `i` entries have been aged. */
  ghost predicate Ticked(was: seq<Entry>, es: seq<Entry>, i: nat) {
    && |es| == |was|
    && (forall k :: 0 <= k < i && k < |was| ==>
          if was[k].done then was[k].ttl > 0 && es[k] == was[k].(ttl := was[k].ttl - 1) else es[k] == was[k])
    && (forall k :: i <= k < |was| ==> es[k] == was[k])
  }

  /** `q` is the newest buffer and `qHead` the oldest. `nodes` lists the buffers oldest first, and `st` is the
      queue they stand for. */
  class Ndesc {
    var q: Nbuf?
    var qHead: Nbuf?
    var cnt: nat
    var ovfl: bool
    const ttl: nat
    ghost var nodes: seq<Nbuf>
    ghost var base: int
    ghost var st: Queue

    ghost predicate Linked() reads this, nodes {
      && qHead == At(nodes, 0) && q == At(nodes, |nodes| - 1)
      && Chained(nodes, base)
      && Show(nodes, st.es)
    }

    ghost predicate Counted() reads this {
      cnt == st.cnt && ovfl == st.ovfl && ttl == st.ttl
    }

    ghost predicate Valid() reads this, nodes { Linked() && Counted() && Inv(st) }

    constructor (t: nat)
      ensures Valid() && st == Empty(t) && nodes == []
    {
      q, qHead, cnt, ovfl, ttl := null, null, 0, false, t;
      nodes, base, st := [], 0, Empty(t);
    }

    /** One buffer's countdown. */
    method AgeOne(nb: Nbuf, ghost k: nat)
      requires Linked() && k < |nodes| && nodes[k] == nb && nb.ttl > 0
      modifies nb`ttl, this`st
      ensures Linked() && st == old(st).(es := old(st).es[k := old(st).es[k].(ttl := old(st).es[k].ttl - 1)])
    {
      hide Inv;
      nb.ttl := nb.ttl - 1;
      st := st.(es := st.es[k := st.es[k].(ttl := st.es[k].ttl - 1)]);
      assert Chained(nodes, base);
      forall i | 0 <= i < |nodes| ensures nodes[i].Is(st.es[i]) {
        assert nodes[i].pos == base + i && nodes[k].pos == base + k;
      }
    }

    /** One buffer is taken; the queue already says so. */
    method Take(nb: Nbuf, ghost k: nat)
      requires Chained(nodes, base) && k < |nodes| && nodes[k] == nb
      requires |nodes| == |st.es| && st.es[k].dequeued
      requires Show(nodes, st.es[k := st.es[k].(dequeued := false)])
      modifies nb`dequeued
      ensures Chained(nodes, base) && Show(nodes, st.es)
    {
      ghost var es := st.es[k := st.es[k].(dequeued := false)];
      nb.dequeued := true;
      forall i | 0 <= i < |nodes| ensures nodes[i].Is(st.es[i]) {
        assert nodes[i].pos == base + i && nodes[k].pos == base + k && old(nodes[i].Is(es[i]));
      }
    }

    /** Counts down the time of every done buffer; false is the failed assertion. */
    method Age() returns (ok: bool)
      requires Linked()
      modifies nodes`ttl, this`st
      ensures ok == CanAge(old(st).es)
      ensures ok ==> Linked() && st == old(st).(es := Aged(old(st).es))
    {
      var dp := qHead;
      ghost var i := 0;
      ghost var was := st.es;
      while dp != null
        invariant 0 <= i <= |nodes| && dp == At(nodes, i)
        invariant Linked() && st == old(st).(es := st.es)
        invariant Ticked(was, st.es, i)
        decreases |nodes| - i
      {
        assert dp.Is(st.es[i]) && st.es[i] == was[i];
        if dp.done {
          if dp.ttl == 0 { return false; }
          AgeOne(dp, i);
        }
        dp := dp.prev;
        i := i + 1;
      }
      assert st.es == Aged(was);
      return true;
    }

    /** Takes the oldest buffer out of the chains. */
    method Unlink()
      requires Linked() && |nodes| > 0
      modifies this`q, this`qHead, nodes`next
      ensures Severed(nodes, base)
      ensures qHead == At(nodes, 1) && q == if |nodes| == 1 then null else nodes[|nodes| - 1]
    {
      hide Inv;
      var dp := qHead;
      assert nodes[0].prev == At(nodes, 1);
      assert q == nodes[|nodes| - 1] && nodes[|nodes| - 1].pos == base + |nodes| - 1 && nodes[0].pos == base;
      qHead := dp.prev;
      if q == dp {
        q := null;
      } else {
        assert qHead == nodes[1] && nodes[1].pos == base + 1;
        qHead.next := null;
        assert forall i {:trigger nodes[i].next} :: 2 <= i < |nodes| ==>
                 nodes[i].pos == base + i && nodes[i].next == At(nodes, i - 1);
      }
    }

    /** Frees the oldest buffer. */
    method DropOldest()
      requires Linked() && |nodes| > 0
      modifies this`q, this`qHead, this`nodes, this`base, this`st, nodes`next
      ensures Linked() && st == old(st).(es := old(st).es[1..]) && nodes == old(nodes)[1..]
    {
      hide Inv, Severed, Chained, Show;
      ghost var ns, es, b := nodes, st.es, base;
      ShowLength(ns, es);
      Unlink();
      nodes, base, st := ns[1..], b + 1, st.(es := es[1..]);
      DropChained(ns, b);
      DropShown(ns, es);
    }

    /** Frees ready buffers from the old end. */
    method Reclaim()
      requires Linked()
      modifies this`q, this`qHead, this`nodes, this`base, this`st, nodes`next
      ensures Linked() && st == old(st).(es := Reclaimed(old(st).es, ttl))
      ensures forall i :: 0 <= i < |nodes| ==> nodes[i] in old(nodes)
    {
      ghost var was := st;
      while qHead != null && qHead.done && (ttl == 0 || qHead.ttl == 0)
        invariant forall i :: 0 <= i < |nodes| ==> nodes[i] in old(nodes)
        invariant Linked() && st == was.(es := st.es) && Reclaimed(st.es, ttl) == Reclaimed(was.es, ttl)
        decreases |nodes|
      {
        assert nodes[0].Is(st.es[0]);
        DropOldest();
      }
      assert |nodes| > 0 ==> nodes[0].Is(st.es[0]);
    }

    /** The newest buffer so far, if any, is made to lead to the new one. */
    method LinkNewest(nb: Nbuf)
      requires Linked() && nb !in nodes
      modifies if q != null then {q} else {}
      ensures unchanged(this) && Show(nodes, st.es)
      ensures Awaits(nodes, nb, base)
    {
      hide Inv;
      assert |nodes| > 0 ==> nodes[|nodes| - 1].pos == base + |nodes| - 1;
      if q != null { q.prev := nb; }
      assert forall i {:trigger nodes[i].prev} :: 0 <= i < |nodes| - 1 ==>
               nodes[i].pos == base + i && nodes[i].prev == At(nodes, i + 1);
    }

    /** Puts a buffer at the new end. */
    method Append(nb: Nbuf, ghost e: Entry)
      requires Linked() && nb !in nodes && nb.Is(e)
      modifies this`q, this`qHead, this`nodes, this`st, nodes, nb
      ensures Linked() && st == old(st).(es := old(st).es + [e]) && nodes == old(nodes) + [nb]
    {
      hide Inv, Awaits, Chained, Show;
      ghost var ns, was := nodes, st.es;
      LinkNewest(nb);
      nb.next := q;
      q := nb;
      nb.prev := null;
      nb.pos := base + |ns|;
      if qHead == null { qHead := nb; }
      assert nb.Is(e);
      nodes, st := ns + [nb], st.(es := was + [e]);
      AppendChained(ns, nb, base);
      AppendShown(ns, nb, was, e);
    }

    /** Queues the buffer, or refuses it. */
    method Admit(nb: Nbuf, data: string)
      requires Linked() && Counted() && nb !in nodes && nb.Is(Entry(data, false, false, ttl))
      modifies this`q, this`qHead, this`nodes, this`st, this`cnt, this`ovfl, nodes, nb
      ensures Linked() && Counted() && st == AdmitOp(old(st), data)
      ensures nodes == old(nodes) || nodes == old(nodes) + [nb]
    {
      if ovfl && cnt < ND_LOWAT { ovfl := false; }
      if ovfl || cnt > ND_HIWAT {
        ovfl := true;
        st := st.(ovfl := true);
      } else {
        cnt := cnt + 1;
        Append(nb, Entry(data, false, false, ttl));
        st := st.(cnt := cnt, ovfl := false, accepted := st.accepted + [data]);
      }
    }

    /** Queues a copy of the data, or refuses it; false is the failed assertion. */
    method Allocq(data: string) returns (ok: bool)
      requires Valid() && |data| > 0
      modifies this, nodes
      ensures ok == AllocOp(old(st), data).Some?
      ensures ok ==> Valid() && st == AllocOp(old(st), data).value
      ensures ok ==> forall i :: 0 <= i < |nodes| ==> nodes[i] in old(nodes) || fresh(nodes[i])
    {
      hide Inv, Reclaimed, Aged, CanAge, AdmitOp, Chained, Show;
      ghost var was := st;
      var nb := new Nbuf(data, ttl);
      if ttl != 0 {
        ok := Age();
        if !ok { return; }
      }
      ok := true;
      AllocInv(was, data);
      assert st.es == AgedIf(was);
      Reclaim();
      Admit(nb, data);
    }

    /** Takes the oldest buffer that has not been taken; it is never a done one. */
    method Dequeue() returns (nb: Nbuf?)
      requires Valid()
      modifies this`cnt, this`st, nodes
      ensures Valid() && st == DequeueOp(old(st))
      ensures nb == null <==> Pending(old(st).es) == []
      ensures nb != null ==> nb in nodes && nb.dequeued && !nb.done && [nb.buf] + Pending(st.es) == Pending(old(st).es)
    {
      hide Pending, NextUp;
      ghost var was := st;
      ghost var k := 0;
      nb := qHead;
      while nb != null && nb.dequeued
        invariant 0 <= k <= |nodes| && nb == At(nodes, k)
        invariant forall i :: 0 <= i < k ==> st.es[i].dequeued
        decreases |nodes| - k
      {
        assert nodes[k].Is(st.es[k]);
        nb := nb.prev;
        k := k + 1;
      }
      assert nb != null ==> nodes[k].Is(st.es[k]);
      NextUpIs(was.es, k);
      DequeueInv(was);
      if nb != null {
        st := DequeueOp(was);
        cnt := cnt - 1;
        Take(nb, k);
      }
    }

    /** The reader is finished with a buffer it has taken. */
    method MarkDone(nb: Nbuf, ghost k: nat)
      requires Valid() && k < |nodes| && nodes[k] == nb && nb.dequeued
      modifies nb`done, this`st
      ensures Valid() && st == MarkDoneOp(old(st), k)
    {
      hide Inv;
      ghost var was := st;
      assert nodes[k].Is(was.es[k]);
      MarkDoneInv(was, k);
      nb.done := true;
      st := MarkDoneOp(was, k);
      assert Chained(nodes, base);
      forall i | 0 <= i < |nodes| ensures nodes[i].Is(st.es[i]) {
        assert nodes[i].pos == base + i && nodes[k].pos == base + k && old(nodes[i].Is(was.es[i]));
      }
    }

    /** Counts the buffers not yet taken, which is what `cnt` says. */
    method Queued() returns (queued: nat)
      requires Valid()
      ensures queued == |Pending(st.es)| == cnt <= ND_HIWAT + 1
    {
      var bp := q;
      ghost var i := |nodes|;
      queued := 0;
      while bp != null
        invariant 0 <= i <= |nodes| && bp == At(nodes, i - 1)
        invariant queued == |Pending(st.es[i..])|
        decreases i
      {
        assert nodes[i - 1].Is(st.es[i - 1]);
        assert st.es[i - 1..][1..] == st.es[i..];
        if !bp.dequeued { queued := queued + 1; }
        bp := bp.next;
        i := i - 1;
      }
      assert st.es[0..] == st.es;
    }

    /** Frees everything. */
    method Cleanup()
      requires Valid()
      modifies this`q, this`qHead, this`cnt, this`ovfl, this`nodes, this`base, this`st, nodes
      ensures Valid() && st == CleanupOp(old(st)) && nodes == []
    {
      ghost var was := st;
      while qHead != null
        invariant forall i :: 0 <= i < |nodes| ==> nodes[i] in old(nodes)
        invariant Linked() && st == was.(es := st.es)
        decreases |nodes|
      {
        DropOldest();
      }
      cnt, ovfl := 0, false;
      st := CleanupOp(was);
    }
  }
}
