/** The ring of sample blocks between the data pump and a sound task. */
module DpRing {
  import opened Options

  const N := 128

  type Block = seq<int>

  /** The slots; how many samples of the next block have been put into the slot at `wr`; the slot being processed,
      if any; and the history: the blocks published, and those taken. */
  datatype Ring = Ring(wr: nat, rd: nat, slots: seq<Block>, filled: nat, busy: Option<nat>,
                       published: seq<Block>, taken: seq<Block>)

  /** The pump puts a sample, or publishes a full block, or starts it over when no one listens; the task takes the
      next block, and processes it until it takes another. */
  datatype Step = Sample(v: int) | Publish(enabled: bool) | Take

  function Inc(p: nat): nat { (p + 1) % N }

  /** The lag as the pump computes it. */
  function Diff(wr: nat, rd: nat): int { if wr >= rd then wr - rd else N - rd + wr }

  predicate Shape(s: Ring, size: nat) {
    |s.slots| == N && s.wr < N && s.rd < N && s.filled <= size
    && forall i :: 0 <= i < N ==> |s.slots[i]| == size
  }

  function Next(s: Ring, step: Step, size: nat): Ring
    requires Shape(s, size)
  {
    match step
    case Sample(v) =>
      if s.filled < size then s.(slots := s.slots[s.wr := s.slots[s.wr][s.filled := v]], filled := s.filled + 1) else s
    case Publish(enabled) =>
      if s.filled < size then s
      else if enabled then s.(wr := Inc(s.wr), filled := 0, published := s.published + [s.slots[s.wr]])
      else s.(filled := 0)
    case Take =>
      if s.wr == s.rd then s
      else s.(rd := Inc(s.rd), busy := Some(s.rd), taken := s.taken + [s.slots[s.rd]])
  }

  /** How many published blocks have not been taken. */
  function Lag(s: Ring): int { |s.published| - |s.taken| }

  /** Positions count the blocks; what was taken is what was published, in order, once each; every block not yet taken,
      and the one being processed, is still in its slot; and the slot being filled is none of these. */
  ghost predicate Inv(s: Ring, size: nat) {
    && Shape(s, size)
    && 0 <= Lag(s) <= N - 1 && (s.filled > 0 ==> Lag(s) <= N - 2)
    && s.wr == |s.published| % N && s.rd == |s.taken| % N
    && s.taken == s.published[..|s.taken|]
    && (s.busy == if |s.taken| == 0 then None else Some((|s.taken| - 1) % N))
    && (forall k: nat :: |s.taken| - 1 <= k < |s.published| ==> s.slots[k % N] == s.published[k])
  }

  lemma Apart(a: nat, b: nat)
    requires a < b < a + N
    ensures a % N != b % N
  {
  }

  lemma IncMod(n: nat)
    ensures Inc(n % N) == (n + 1) % N
  {
  }

  /** The computed lag is the true one up to a full turn of the ring. */
  lemma DiffExact(published: nat, taken: nat)
    requires taken <= published
    ensures Diff(published % N, taken % N) == (published - taken) % N
  {
  }

  /** The slot being filled is the one being processed exactly when the lag is one short of full turns. */
  lemma SharedExact(published: nat, taken: nat)
    requires 0 < taken <= published
    ensures published % N == (taken - 1) % N <==> (published - taken) % N == N - 1
  {
  }

  /** A sample may only be put while the lag is at most 126. */
  predicate Fits(s: Ring, step: Step) { step.Sample? ==> Lag(s) <= N - 2 }

  lemma SampleInv(s: Ring, v: int, size: nat)
    requires Inv(s, size) && Lag(s) <= N - 2
    ensures Inv(Next(s, Sample(v), size), size)
  {
    forall k: nat | |s.taken| - 1 <= k < |s.published| ensures k % N != s.wr { Apart(k, |s.published|); }
  }

  lemma PublishInv(s: Ring, enabled: bool, size: nat)
    requires Inv(s, size) && size > 0
    ensures Inv(Next(s, Publish(enabled), size), size)
  {
    IncMod(|s.published|);
  }

  lemma TakeInv(s: Ring, size: nat)
    requires Inv(s, size)
    ensures Inv(Next(s, Take, size), size)
    ensures Lag(s) > 0 <==> s.wr != s.rd
  {
    IncMod(|s.taken|);
    if Lag(s) > 0 { Apart(|s.taken|, |s.published|); }
  }

  lemma StepInv(s: Ring, step: Step, size: nat)
    requires Inv(s, size) && size > 0 && Fits(s, step)
    ensures Inv(Next(s, step, size), size)
  {
    match step
    case Sample(v) => SampleInv(s, v, size);
    case Publish(e) => PublishInv(s, e, size);
    case Take => TakeInv(s, size);
  }

  // ---- runs ----------------------------------------------------------------------------------------------------

  function Run(s: Ring, steps: seq<Step>, size: nat): (r: Ring)
    requires Shape(s, size)
    ensures Shape(r, size)
    decreases |steps|
  {
    if |steps| == 0 then s else ShapeNext(s, steps[0], size); Run(Next(s, steps[0], size), steps[1..], size)
  }

  lemma ShapeNext(s: Ring, step: Step, size: nat)
    requires Shape(s, size)
    ensures Shape(Next(s, step, size), size)
  {
  }

  /** No sample is put while the lag is above 126. */
  ghost predicate KeepsUp(s: Ring, steps: seq<Step>, size: nat)
    requires Shape(s, size)
    decreases |steps|
  {
    |steps| > 0 ==>
      Fits(s, steps[0]) && (ShapeNext(s, steps[0], size); KeepsUp(Next(s, steps[0], size), steps[1..], size))
  }

  /** In every interleaving in which the task keeps up, the blocks taken are those published, in order and once each;
      the one being processed is still what was published; and the pump's lag is the true one. */
  lemma {:induction false} RunInv(s: Ring, steps: seq<Step>, size: nat)
    requires Inv(s, size) && size > 0 && KeepsUp(s, steps, size)
    ensures var r := Run(s, steps, size);
      && Inv(r, size)
      && r.taken <= r.published
      && (r.busy.Some? ==> |r.taken| > 0 && r.slots[r.busy.value] == r.taken[|r.taken| - 1])
      && Diff(r.wr, r.rd) == Lag(r)
    decreases |steps|
  {
    if |steps| == 0 {
      DiffExact(|s.published|, |s.taken|);
    } else {
      StepInv(s, steps[0], size);
      RunInv(Next(s, steps[0], size), steps[1..], size);
    }
  }

  function Start(size: nat): Ring {
    Ring(0, 0, seq(N, i => seq(size, j => 0)), 0, None, [], [])
  }

  lemma StartInv(size: nat)
    ensures Inv(Start(size), size)
  {
  }

  /** At a lag of 127 the next sample goes into the block being processed. */
  lemma Overruns(s: Ring, v: int, size: nat)
    requires Inv(s, size) && size > 0 && Lag(s) == N - 1 && |s.taken| > 0
    ensures s.busy == Some(s.wr)
    ensures Next(s, Sample(v), size).slots[s.wr] == s.taken[|s.taken| - 1][0 := v]
  {
    SharedExact(|s.published|, |s.taken|);
    assert s.slots[(|s.taken| - 1) % N] == s.published[|s.taken| - 1];
  }

  // ---- a run that overruns -------------------------------------------------------------------------------------------------

  /** `n` blocks of one sample each. */
  function Blocks(n: nat): seq<Step> {
    if n == 0 then [] else Blocks(n - 1) + [Sample(7), Publish(true)]
  }

  lemma {:induction false} RunAppend(s: Ring, a: seq<Step>, b: seq<Step>, size: nat)
    requires Shape(s, size)
    ensures Run(s, a + b, size) == Run(Run(s, a, size), b, size)
    decreases |a|
  {
    if |a| == 0 {
      assert a + b == b;
    } else {
      assert (a + b)[1..] == a[1..] + b;
      ShapeNext(s, a[0], size);
      RunAppend(Next(s, a[0], size), a[1..], b, size);
    }
  }

  /** A block taken, and then `n` more of one sample each put, with no one to take them. */
  lemma {:induction false} LagGrows(s: Ring, n: nat)
    requires Inv(s, 1) && s.filled == 0 && Lag(s) + n <= N - 1
    ensures var r := Run(s, Blocks(n), 1);
      Inv(r, 1) && r.filled == 0 && Lag(r) == Lag(s) + n && r.taken == s.taken
  {
    if n > 0 {
      LagGrows(s, n - 1);
      var r := Run(s, Blocks(n - 1), 1);
      RunAppend(s, Blocks(n - 1), [Sample(7), Publish(true)], 1);
      OneBlock(r);
    }
  }

  lemma OneBlock(s: Ring)
    requires Inv(s, 1) && s.filled == 0 && Lag(s) <= N - 2
    ensures var r := Run(s, [Sample(7), Publish(true)], 1);
      Inv(r, 1) && r.filled == 0 && r.taken == s.taken && r.published == s.published + [[7]]
  {
    hide Inv;
    var a, b := Sample(7), Publish(true);
    assert [a, b][1..] == [b] && [b][1..] == [];
    InvFacts(s);
    StepInv(s, a, 1);
    var s1 := Next(s, a, 1);
    StepInv(s1, b, 1);
    var s2 := Next(s1, b, 1);
    assert Run(s2, [], 1) == s2;
    assert Run(s1, [b], 1) == s2;
    assert s1.slots[s.wr] == [7];
  }

  lemma InvFacts(s: Ring)
    requires Inv(s, 1)
    ensures Shape(s, 1)
  {
  }

  lemma OneTaken()
    ensures var s := Run(Start(1), Blocks(1) + [Take], 1);
      Inv(s, 1) && s.filled == 0 && Lag(s) == 0 && s.taken == [[7]]
  {
    hide Inv;
    StartInv(1);
    InvFacts(Start(1));
    OneBlock(Start(1));
    assert Blocks(1) == [Sample(7), Publish(true)] by { assert Blocks(0) == []; }
    var s1 := Run(Start(1), Blocks(1), 1);
    RunAppend(Start(1), Blocks(1), [Take], 1);
    assert [Take][1..] == [];
    assert Run(s1, [Take], 1) == Run(Next(s1, Take, 1), [], 1) == Next(s1, Take, 1);
    StepInv(s1, Take, 1);
    OneToTake(s1);
  }

  lemma OneToTake(s: Ring)
    requires Inv(s, 1) && s.published == [[7]] && s.taken == [] && s.filled == 0
    ensures var r := Next(s, Take, 1); r.taken == [[7]] && Lag(r) == 0 && r.filled == 0
  {
    assert s.slots[0 % N] == s.published[0];
  }

  /** From the start: a block is put and taken, 127 more are put while it is processed, and the next sample is written over
      it. */
  lemma OverrunReached()
    ensures var s := Run(Start(1), Blocks(1) + [Take] + Blocks(127), 1);
      && s.taken == [[7]] && s.busy == Some(s.wr) && Next(s, Sample(9), 1).slots[s.wr] == [9]
  {
    hide Run, Blocks, Inv, Next;
    OneTaken();
    var s := Run(Start(1), Blocks(1) + [Take], 1);
    RunAppend(Start(1), Blocks(1) + [Take], Blocks(127), 1);
    LagGrows(s, 127);
    Overruns(Run(s, Blocks(127), 1), 9, 1);
    assert [7][0 := 9] == [9];
  }

  // ---- the ring in memory ------------------------------------------------------------------------------------------------

  class Channel {
    var wr: nat
    var rd: nat
    var slots: array<Block>
    var filled: nat
    var busy: Option<nat>
    ghost var published: seq<Block>
    ghost var taken: seq<Block>

    ghost function State(): Ring reads this, slots { Ring(wr, rd, slots[..], filled, busy, published, taken) }

    /** The pump converts a sample into the slot at `wr`. */
    method Put(v: int, size: nat)
      requires Shape(State(), size) && filled < size
      modifies slots, this`filled
      ensures State() == Next(old(State()), Sample(v), size)
    {
      slots[wr] := slots[wr][filled := v];
      filled := filled + 1;
    }

    /** The pump moves on to the next slot, if the channel is enabled, and measures the lag. */
    method Move(enabled: bool, size: nat) returns (diff: int)
      requires Shape(State(), size) && filled == size
      modifies this`wr, this`filled, this`published
      ensures State() == Next(old(State()), Publish(enabled), size)
      ensures enabled ==> diff == Diff(wr, rd)
    {
      filled := 0;
      diff := 0;
      if enabled {
        published := published + [slots[wr]];
        wr := (wr + 1) % N;
        diff := if wr >= rd then wr - rd else N - rd + wr;
      }
    }

    /** The task takes the next block; its position is advanced before the block is processed. */
    method Get(size: nat) returns (ok: bool)
      requires Shape(State(), size)
      modifies this`rd, this`busy, this`taken
      ensures State() == Next(old(State()), Take, size) && (ok <==> old(wr != rd))
    {
      if wr == rd { return false; }
      taken := taken + [slots[rd]];
      busy := Some(rd);
      rd := (rd + 1) % N;
      return true;
    }
  }
}
