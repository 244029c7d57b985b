/** The buffer queue as a sequence of entries, oldest first, and every operation on it. */
module NbufQueue {
  import opened Options

  const ND_HIWAT := 64
  const ND_LOWAT := 32

  /** A queued buffer: taken by the reader (`dequeued`), finished with (`done`), and how many more
      allocations it survives after that. */
  datatype Entry = Entry(buf: string, done: bool, dequeued: bool, ttl: nat)

  /** `ttl` is what new buffers start with. `accepted` and `delivered` record what went in and what
      came out since the last cleanup. */
  datatype Queue = Queue(es: seq<Entry>, cnt: nat, ovfl: bool, ttl: nat, accepted: seq<string>, delivered: seq<string>)

  datatype Op = Alloc(data: string) | Dequeue | MarkDone(k: nat) | Cleanup

  // ---- the operations --------------------------------------------------------------------------------

  /** The assertion made while ageing: a done buffer still has allocations to live. */
  predicate CanAge(es: seq<Entry>) {
    forall i :: 0 <= i < |es| && es[i].done ==> es[i].ttl > 0
  }

  function Aged(es: seq<Entry>): (r: seq<Entry>)
    requires CanAge(es)
    ensures |r| == |es|
  {
    seq(|es|, i requires 0 <= i < |es| => if es[i].done then es[i].(ttl := es[i].ttl - 1) else es[i])
  }

  predicate Expired(e: Entry, ttl: nat) { e.done && (ttl == 0 || e.ttl == 0) }

  /** Done buffers at the old end are reclaimed, up to the first that is not ready. */
  function Reclaimed(es: seq<Entry>, ttl: nat): seq<Entry> {
    if |es| > 0 && Expired(es[0], ttl) then Reclaimed(es[1..], ttl) else es
  }

  predicate Refuses(q: Queue) {
    (q.ovfl && q.cnt >= ND_LOWAT) || q.cnt > ND_HIWAT
  }

  /** High and low water: an arrival is queued or refused. */
  function AdmitOp(q: Queue, data: string): Queue {
    if Refuses(q) then q.(ovfl := true)
    else q.(es := q.es + [Entry(data, false, false, q.ttl)], cnt := q.cnt + 1, ovfl := false,
            accepted := q.accepted + [data])
  }

  /** An arrival: age, reclaim, admit; None when the ageing assertion fails. */
  function AllocOp(q: Queue, data: string): Option<Queue> {
    if q.ttl != 0 && !CanAge(q.es) then None
    else Some(AdmitOp(q.(es := Reclaimed(AgedIf(q), q.ttl)), data))
  }

  /** The oldest buffer that has not been taken. */
  function NextUp(es: seq<Entry>): (k: nat)
    ensures k <= |es|
    ensures forall i :: 0 <= i < k ==> es[i].dequeued
    ensures k < |es| ==> !es[k].dequeued
  {
    if |es| > 0 && es[0].dequeued then 1 + NextUp(es[1..]) else 0
  }

  function DequeueOp(q: Queue): Queue {
    var k := NextUp(q.es);
    if k == |q.es| then q
    else q.(es := q.es[k := q.es[k].(dequeued := true)], cnt := if q.cnt > 0 then q.cnt - 1 else 0,
            delivered := q.delivered + [q.es[k].buf])
  }

  function MarkDoneOp(q: Queue, k: nat): Queue {
    if k < |q.es| && q.es[k].dequeued then q.(es := q.es[k := q.es[k].(done := true)]) else q
  }

  function CleanupOp(q: Queue): Queue {
    q.(es := [], cnt := 0, ovfl := false, accepted := [], delivered := [])
  }

  function Apply(q: Queue, op: Op): Option<Queue> {
    match op
    case Alloc(data) => AllocOp(q, data)
    case Dequeue => Some(DequeueOp(q))
    case MarkDone(k) => Some(MarkDoneOp(q, k))
    case Cleanup => Some(CleanupOp(q))
  }

  function Run(q: Queue, ops: seq<Op>): Option<Queue>
    decreases |ops|
  {
    if |ops| == 0 then Some(q)
    else match Apply(q, ops[0])
         case None => None
         case Some(q1) => Run(q1, ops[1..])
  }

  function Empty(ttl: nat): Queue { Queue([], 0, false, ttl, [], []) }

  // ---- FIFO ------------------------------------------------------------------------------------------

  /** The buffers not yet taken, oldest first. */
  function Pending(es: seq<Entry>): seq<string> {
    if |es| == 0 then []
    else (if es[0].dequeued then [] else [es[0].buf]) + Pending(es[1..])
  }

  /** The taken entries are the oldest, and only taken ones are done. */
  ghost predicate TakenFirst(es: seq<Entry>) {
    forall i :: NextUp(es) <= i < |es| ==> !es[i].dequeued && !es[i].done
  }

  ghost predicate Inv(q: Queue) {
    && TakenFirst(q.es)
    && q.cnt == |Pending(q.es)| <= ND_HIWAT + 1
    && q.accepted == q.delivered + Pending(q.es)
  }

  lemma {:induction false} PendingAppend(a: seq<Entry>, b: seq<Entry>)
    ensures Pending(a + b) == Pending(a) + Pending(b)
  {
    if |a| == 0 {
      assert a + b == b;
    } else {
      assert (a + b)[1..] == a[1..] + b;
      PendingAppend(a[1..], b);
    }
  }

  /** Entries that keep their content and whether they have been taken keep what is pending. */
  lemma {:induction false} PendingSame(a: seq<Entry>, b: seq<Entry>)
    requires |a| == |b| && forall i :: 0 <= i < |a| ==> a[i].dequeued == b[i].dequeued && a[i].buf == b[i].buf
    ensures Pending(a) == Pending(b)
  {
    if |a| > 0 { PendingSame(a[1..], b[1..]); }
  }

  /** Reclaiming drops the ready entries from the old end, up to the first that is not ready. */
  lemma {:induction false} ReclaimedSuffix(es: seq<Entry>, ttl: nat)
    ensures var r := Reclaimed(es, ttl);
      && |r| <= |es| && r == es[|es| - |r|..]
      && (forall i :: 0 <= i < |es| - |r| ==> Expired(es[i], ttl))
      && (|r| > 0 ==> !Expired(r[0], ttl))
  {
    if |es| > 0 && Expired(es[0], ttl) { ReclaimedSuffix(es[1..], ttl); }
  }

  lemma {:induction false} PendingOfTaken(es: seq<Entry>)
    requires forall i :: 0 <= i < |es| ==> es[i].dequeued
    ensures Pending(es) == []
  {
    if |es| > 0 { PendingOfTaken(es[1..]); }
  }

  function AgedIf(q: Queue): (r: seq<Entry>)
    requires q.ttl != 0 ==> CanAge(q.es)
    ensures |r| == |q.es|
    ensures forall i :: 0 <= i < |r| ==>
              r[i].buf == q.es[i].buf && r[i].done == q.es[i].done && r[i].dequeued == q.es[i].dequeued
  {
    if q.ttl != 0 then Aged(q.es) else q.es
  }

  /** Where the taken entries end tells them apart from the others. */
  lemma {:induction false} NextUpIs(es: seq<Entry>, k: nat)
    requires k <= |es| && (forall i :: 0 <= i < k ==> es[i].dequeued) && (k < |es| ==> !es[k].dequeued)
    ensures NextUp(es) == k
  {
    if k > 0 { NextUpIs(es[1..], k - 1); }
  }

  /** Dropping done entries from the old end loses nothing that is pending. */
  lemma DropDone(es: seq<Entry>, n: nat)
    requires TakenFirst(es) && n <= |es| && forall i :: 0 <= i < n ==> es[i].done
    ensures TakenFirst(es[n..]) && Pending(es[n..]) == Pending(es)
  {
    hide Pending, NextUp;
    assert n <= NextUp(es) by { if n > 0 { assert es[n - 1].done; } }
    NextUpIs(es[n..], NextUp(es) - n);
    PendingOfTaken(es[..n]);
    PendingAppend(es[..n], es[n..]);
    assert es == es[..n] + es[n..];
    assert [] + Pending(es[n..]) == Pending(es[n..]);
  }

  lemma AgedKept(q: Queue)
    requires TakenFirst(q.es) && (q.ttl != 0 ==> CanAge(q.es))
    ensures TakenFirst(AgedIf(q)) && Pending(AgedIf(q)) == Pending(q.es)
  {
    PendingSame(q.es, AgedIf(q));
    NextUpIs(AgedIf(q), NextUp(q.es));
  }

  lemma AddNew(es: seq<Entry>, data: string, ttl: nat)
    requires TakenFirst(es)
    ensures TakenFirst(es + [Entry(data, false, false, ttl)])
    ensures Pending(es + [Entry(data, false, false, ttl)]) == Pending(es) + [data]
  {
    var e := Entry(data, false, false, ttl);
    NextUpIs(es + [e], NextUp(es));
    PendingAppend(es, [e]);
    assert [e][1..] == [];
  }

  lemma AllocInv(q: Queue, data: string)
    requires Inv(q) && AllocOp(q, data).Some?
    ensures Inv(AllocOp(q, data).value)
  {
    hide TakenFirst, Pending, Reclaimed;
    var es := Reclaimed(AgedIf(q), q.ttl);
    AgedKept(q);
    ReclaimedSuffix(AgedIf(q), q.ttl);
    DropDone(AgedIf(q), |AgedIf(q)| - |es|);
    AddNew(es, data, q.ttl);
  }

  lemma DequeueInv(q: Queue)
    requires Inv(q)
    ensures Inv(DequeueOp(q))
    ensures Pending(q.es) == [] ==> DequeueOp(q) == q
    ensures Pending(q.es) != [] ==>
      NextUp(q.es) < |q.es| && !q.es[NextUp(q.es)].done && q.es[NextUp(q.es)].buf == Pending(q.es)[0]
      && Pending(DequeueOp(q).es) == Pending(q.es)[1..]
  {
    hide Pending, NextUp;
    var k := NextUp(q.es);
    if k < |q.es| {
      TakeNext(q.es, k);
      NextUpIs(q.es[k := q.es[k].(dequeued := true)], k + 1);
    } else {
      PendingOfTaken(q.es);
    }
  }

  lemma TakeNext(es: seq<Entry>, k: nat)
    requires k < |es| && !es[k].dequeued && forall i :: 0 <= i < k ==> es[i].dequeued
    ensures Pending(es) == [es[k].buf] + Pending(es[k := es[k].(dequeued := true)])
  {
    var a, e, b := es[..k], es[k], es[k + 1..];
    var e' := e.(dequeued := true);
    PendingOfTaken(a);
    assert es == a + ([e] + b) && ([e] + b)[1..] == b;
    PendingAppend(a, [e] + b);
    assert es[k := e'] == a + ([e'] + b) && ([e'] + b)[1..] == b;
    PendingAppend(a, [e'] + b);
  }

  lemma MarkDoneInv(q: Queue, k: nat)
    requires Inv(q)
    ensures Inv(MarkDoneOp(q, k))
  {
    PendingSame(q.es, MarkDoneOp(q, k).es);
    NextUpIs(MarkDoneOp(q, k).es, NextUp(q.es));
  }

  /** Every operation keeps the queue a FIFO: what was accepted is what was delivered followed by what is
      pending; taken entries are the oldest; the count is that of the pending ones and at most 65. */
  lemma ApplyInv(q: Queue, op: Op)
    requires Inv(q) && Apply(q, op).Some?
    ensures Inv(Apply(q, op).value)
  {
    match op
    case Alloc(data) => AllocInv(q, data);
    case Dequeue => DequeueInv(q);
    case MarkDone(k) => MarkDoneInv(q, k);
    case Cleanup =>
  }

  lemma {:induction false} RunInv(q: Queue, ops: seq<Op>)
    requires Inv(q) && Run(q, ops).Some?
    ensures Inv(Run(q, ops).value)
    decreases |ops|
  {
    if |ops| > 0 {
      ApplyInv(q, ops[0]);
      RunInv(Apply(q, ops[0]).value, ops[1..]);
    }
  }

  // ---- overflow hysteresis -----------------------------------------------------------------------------

  predicate NoCleanup(ops: seq<Op>) { forall i :: 0 <= i < |ops| ==> !ops[i].Cleanup? }

  /** The count never drops below the low-water mark before the last of these operations. */
  ghost predicate StaysHigh(q: Queue, ops: seq<Op>)
    decreases |ops|
  {
    |ops| > 0 ==> q.cnt >= ND_LOWAT && (Apply(q, ops[0]).Some? ==> StaysHigh(Apply(q, ops[0]).value, ops[1..]))
  }

  /** After an overflow every arrival is refused for as long as the count stays at 32 or more. */
  lemma {:induction false} RefusedWhileHigh(q: Queue, ops: seq<Op>)
    requires q.ovfl && NoCleanup(ops) && StaysHigh(q, ops) && Run(q, ops).Some?
    ensures Run(q, ops).value.accepted == q.accepted && Run(q, ops).value.ovfl
    decreases |ops|
  {
    if |ops| > 0 { RefusedWhileHigh(Apply(q, ops[0]).value, ops[1..]); }
  }

  /** An arrival is refused exactly when the queue holds 65, or has overflowed and still holds 32 or more; a
      refusal is an overflow, and an acceptance ends it. */
  lemma AllocExact(q: Queue, data: string)
    requires AllocOp(q, data).Some? && Inv(q)
    ensures var r := AllocOp(q, data).value;
      && (r.accepted == q.accepted <==> q.cnt == ND_HIWAT + 1 || (q.ovfl && q.cnt >= ND_LOWAT))
      && (r.accepted == q.accepted || r.accepted == q.accepted + [data])
      && (r.ovfl <==> r.accepted == q.accepted)
  {
  }

  // ---- time to live ---------------------------------------------------------------------------------------

  /** The oldest buffer that is not done. */
  function FirstLive(es: seq<Entry>): (d: nat)
    ensures d <= |es|
    ensures forall i :: 0 <= i < d ==> es[i].done
    ensures d < |es| ==> !es[d].done
  {
    if |es| > 0 && es[0].done then 1 + FirstLive(es[1..]) else 0
  }

  lemma {:induction false} FirstLiveIs(es: seq<Entry>, d: nat)
    requires d <= |es| && (forall i :: 0 <= i < d ==> es[i].done) && (d < |es| ==> !es[d].done)
    ensures FirstLive(es) == d
  {
    if d > 0 { FirstLiveIs(es[1..], d - 1); }
  }

  ghost predicate Ascending(es: seq<Entry>) {
    forall i, j :: 0 <= i < j < |es| ==> es[i].ttl <= es[j].ttl
  }

  /** From position `d` on nothing is done and everything has its full time. */
  ghost predicate Lived(es: seq<Entry>, d: nat, ttl: nat) {
    && (forall i :: d <= i < |es| ==> !es[i].done && es[i].ttl == ttl)
    && (forall i :: 0 <= i < |es| ==> es[i].ttl <= ttl)
  }

  /** Buffers are done in the order in which they were taken; times to live never decrease from oldest to
      newest and are at least 1; a buffer that is not done has its full time. */
  ghost predicate Orderly(q: Queue) {
    && Lived(q.es, FirstLive(q.es), q.ttl)
    && (forall i :: 0 <= i < |q.es| ==> 1 <= q.es[i].ttl)
    && Ascending(q.es)
  }

  /** A buffer is marked done only after all older ones. */
  predicate InOrder(q: Queue, op: Op) {
    op.MarkDone? && op.k < |q.es| ==> op.k <= FirstLive(q.es)
  }

  lemma AgedAscending(es: seq<Entry>, ttl: nat)
    requires CanAge(es) && Ascending(es) && Lived(es, FirstLive(es), ttl)
    ensures Ascending(Aged(es)) && FirstLive(Aged(es)) == FirstLive(es)
  {
    FirstLiveIs(Aged(es), FirstLive(es));
    forall i, j | 0 <= i < j < |es| ensures Aged(es)[i].ttl <= Aged(es)[j].ttl {
      assert es[i].ttl <= es[j].ttl;
    }
  }

  lemma AscendingSuffix(es: seq<Entry>, n: nat)
    requires Ascending(es) && n <= |es|
    ensures Ascending(es[n..])
    ensures forall i :: 0 <= i < |es| - n ==> es[n].ttl <= es[n..][i].ttl
  {
    forall i | 0 <= i < |es| - n ensures es[n].ttl <= es[n..][i].ttl {
      if i > 0 { assert es[n].ttl <= es[n + i].ttl; }
    }
    forall i, j | 0 <= i < j < |es| - n ensures es[n..][i].ttl <= es[n..][j].ttl {
      assert es[n + i].ttl <= es[n + j].ttl;
    }
  }

  /** What ageing and reclaiming leave is still in order, and, its head not being ready, has time left. */
  lemma ReclaimedOrderly(es: seq<Entry>, n: nat, ttl: nat)
    requires n <= |es| && ttl > 0 && Ascending(es) && (n < |es| ==> !Expired(es[n], ttl))
    requires forall i :: 0 <= i < n ==> es[i].done
    requires Lived(es, FirstLive(es), ttl)
    ensures Ascending(es[n..]) && Lived(es[n..], FirstLive(es[n..]), ttl)
    ensures forall i :: 0 <= i < |es| - n ==> 1 <= es[n..][i].ttl
  {
    hide Ascending, FirstLive;
    AscendingSuffix(es, n);
    FirstLiveDrop(es, n);
  }

  lemma FirstLiveDrop(es: seq<Entry>, n: nat)
    requires n <= |es| && forall i :: 0 <= i < n ==> es[i].done
    ensures FirstLive(es[n..]) == FirstLive(es) - n
  {
    hide FirstLive;
    FirstLiveIs(es[n..], FirstLive(es) - n);
  }

  lemma AgedLived(es: seq<Entry>, d: nat, ttl: nat)
    requires CanAge(es) && Lived(es, d, ttl)
    ensures Lived(Aged(es), d, ttl)
  {
  }

  lemma AllocOrderly(q: Queue, data: string)
    requires q.ttl > 0 && Orderly(q)
    ensures AllocOp(q, data).Some? && Orderly(AllocOp(q, data).value) && AllocOp(q, data).value.ttl == q.ttl
  {
    hide Ascending, Reclaimed, FirstLive, Aged, Lived;
    var aged := Aged(q.es);
    var es := Reclaimed(aged, q.ttl);
    AgedAscending(q.es, q.ttl);
    AgedLived(q.es, FirstLive(q.es), q.ttl);
    ReclaimedSuffix(aged, q.ttl);
    ReclaimedOrderly(aged, |aged| - |es|, q.ttl);
    AppendOrderly(es, data, q.ttl);
  }

  lemma AppendOrderly(es: seq<Entry>, data: string, ttl: nat)
    requires Ascending(es) && Lived(es, FirstLive(es), ttl)
    ensures var r := es + [Entry(data, false, false, ttl)]; Ascending(r) && Lived(r, FirstLive(r), ttl)
  {
    FirstLiveIs(es + [Entry(data, false, false, ttl)], FirstLive(es));
  }

  /** With a constant positive time to live and buffers done in order, times to live never decrease from
      oldest to newest, every queued buffer has at least 1, and the ageing assertion holds. */
  lemma OrderlyKept(q: Queue, op: Op)
    requires q.ttl > 0 && Orderly(q) && InOrder(q, op)
    ensures Apply(q, op).Some? && Orderly(Apply(q, op).value) && Apply(q, op).value.ttl == q.ttl
  {
    hide Orderly, AllocOp;
    match op
    case Alloc(data) => AllocOrderly(q, data);
    case Dequeue => DequeueOrderly(q);
    case MarkDone(k) => MarkOrderly(q, k);
    case Cleanup => EmptyOrderly(q);
  }

  lemma DequeueOrderly(q: Queue)
    requires Orderly(q)
    ensures Orderly(DequeueOp(q))
  {
    hide Lived, Ascending;
    var k := NextUp(q.es);
    if k < |q.es| { TakenOrderly(q.es, k, q.ttl); }
  }

  lemma TakenOrderly(es: seq<Entry>, k: nat, ttl: nat)
    requires k < |es| && Lived(es, FirstLive(es), ttl) && Ascending(es)
    ensures var r := es[k := es[k].(dequeued := true)];
      Lived(r, FirstLive(r), ttl) && Ascending(r)
  {
    FirstLiveIs(es[k := es[k].(dequeued := true)], FirstLive(es));
  }

  lemma EmptyOrderly(q: Queue)
    ensures Orderly(CleanupOp(q))
  {
  }

  lemma MarkOrderly(q: Queue, k: nat)
    requires Orderly(q) && InOrder(q, MarkDone(k))
    ensures Orderly(MarkDoneOp(q, k))
  {
    var es := MarkDoneOp(q, k).es;
    if es != q.es { FirstLiveIs(es, if k == FirstLive(q.es) then k + 1 else FirstLive(q.es)); }
  }

  ghost predicate InOrderRun(q: Queue, ops: seq<Op>)
    decreases |ops|
  {
    |ops| > 0 ==> InOrder(q, ops[0]) && (Apply(q, ops[0]).Some? ==> InOrderRun(Apply(q, ops[0]).value, ops[1..]))
  }

  lemma {:induction false} InOrderNeverPanics(q: Queue, ops: seq<Op>)
    requires q.ttl > 0 && Orderly(q) && InOrderRun(q, ops)
    ensures Run(q, ops).Some? && Orderly(Run(q, ops).value)
    decreases |ops|
  {
    if |ops| > 0 {
      OrderlyKept(q, ops[0]);
      InOrderNeverPanics(Apply(q, ops[0]).value, ops[1..]);
    }
  }

  /** With no time to live the assertion is not made. */
  lemma {:induction false} ZeroTtlNeverPanics(q: Queue, ops: seq<Op>)
    requires q.ttl == 0
    ensures Run(q, ops).Some?
    decreases |ops|
  {
    if |ops| > 0 { ZeroTtlNeverPanics(Apply(q, ops[0]).value, ops[1..]); }
  }

  function Allocs(n: nat): seq<Op> { if n == 0 then [] else [Alloc("x")] + Allocs(n - 1) }

  /** Out of order: a buffer done behind an older one that is not makes the assertion fail, at the latest at
      the allocation after its time to live has run out. */
  lemma {:induction false} StuckPanics(q: Queue, j: nat, k: nat)
    requires q.ttl > 0 && j < k < |q.es| && !q.es[j].done && q.es[k].done
    ensures Run(q, Allocs(q.es[k].ttl + 1)).None?
    decreases q.es[k].ttl
  {
    hide AllocOp, CanAge;
    var ops := Allocs(q.es[k].ttl + 1);
    assert ops[1..] == Allocs(q.es[k].ttl);
    if AllocOp(q, "x").Some? {
      var n := StuckStep(q, j, k);
      StuckPanics(AllocOp(q, "x").value, j - n, k - n);
    }
  }

  /** A stuck buffer and the done one behind it stay queued, and the latter's time goes on running. */
  lemma StuckStep(q: Queue, j: nat, k: nat) returns (n: nat)
    requires q.ttl > 0 && j < k < |q.es| && !q.es[j].done && q.es[k].done && AllocOp(q, "x").Some?
    ensures var r := AllocOp(q, "x").value;
      && n <= j && k - n < |r.es| && !r.es[j - n].done && r.es[k - n].done
      && r.es[k - n].ttl + 1 == q.es[k].ttl && r.ttl == q.ttl
  {
    hide Reclaimed;
    var aged := Aged(q.es);
    var es := Reclaimed(aged, q.ttl);
    ReclaimedSuffix(aged, q.ttl);
    n := |aged| - |es|;
    assert !aged[j].done;
    assert es[j - n] == aged[j] && es[k - n] == aged[k];
  }

  lemma {:induction false} AllocsInOrder(q: Queue, n: nat)
    ensures InOrderRun(q, Allocs(n))
    decreases n
  {
    if n > 0 && Apply(q, Alloc("x")).Some? { AllocsInOrder(Apply(q, Alloc("x")).value, n - 1); }
  }

  /** With a positive time to live, marking a buffer done leaves a queue on which no number of allocations panics if and only
      if no older buffer is still to be done. */
  lemma MarkExact(q: Queue, k: nat)
    requires q.ttl > 0 && Orderly(q) && k < |q.es| && q.es[k].dequeued
    ensures k <= FirstLive(q.es) <==> forall n :: Run(MarkDoneOp(q, k), Allocs(n)).Some?
  {
    hide Run, Allocs, Ascending, Lived;
    var r := MarkDoneOp(q, k);
    if k <= FirstLive(q.es) {
      MarkOrderly(q, k);
      forall n ensures Run(r, Allocs(n)).Some? {
        AllocsInOrder(r, n);
        InOrderNeverPanics(r, Allocs(n));
      }
    } else {
      StuckPanics(r, FirstLive(q.es), k);
    }
  }
}
