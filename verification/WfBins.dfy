/** The waterfall's map from FFT bins to pixels, and the single pass that gathers the bins of every pixel. */
module WfBins {
  const WF_WIDTH := 1024

  // ---- the map ----------------------------------------------------------------------------------------------------

  /** The pixel of bin `i`, `p` pixels wide, out of `f` bins. */
  function Pixel(f: nat, p: nat, i: nat): nat
    requires f > 0
  {
    p * i / f
  }

  /** The first bin of pixel `j`: the ceiling of j f / p. */
  function First(f: nat, p: nat, j: nat): nat
    requires p > 0
  {
    (j * f + p - 1) / p
  }

  lemma DivAtLeast(a: nat, b: nat, q: nat)
    requires b > 0
    ensures a / b >= q <==> a >= q * b
  {
    var d := a / b;
    assert d * b <= a < (d + 1) * b;
    if d >= q { assert d * b >= q * b; } else { assert (d + 1) * b <= q * b; }
  }

  /** A bin belongs to pixel `j` exactly when it lies between the first bin of `j` and that of `j + 1`. */
  lemma PixelExact(f: nat, p: nat, i: nat, j: nat)
    requires f > 0 && p > 0
    ensures Pixel(f, p, i) >= j <==> i >= First(f, p, j)
    ensures Pixel(f, p, i) == j <==> First(f, p, j) <= i < First(f, p, j + 1)
  {
    AtLeast(f, p, i, j);
    AtLeast(f, p, i, j + 1);
  }

  lemma AtLeast(f: nat, p: nat, i: nat, j: nat)
    requires f > 0 && p > 0
    ensures Pixel(f, p, i) >= j <==> i >= First(f, p, j)
  {
    var a := j * f;
    DivAtLeast(p * i, f, j);
    DivAtLeast(a + p - 1, p, i + 1);
    assert (i + 1) * p == p * i + p;
  }

  /** The bins are shared out from the first to the last, each pixel getting the quotient or one more, and at least
      one when there are as many bins as pixels. */
  lemma Shares(f: nat, p: nat, j: nat)
    requires f > 0 && p > 0
    ensures First(f, p, 0) == 0 && First(f, p, p) == f
    ensures f / p <= First(f, p, j + 1) - First(f, p, j) <= (f + p - 1) / p
    ensures f >= p ==> First(f, p, j) < First(f, p, j + 1)
  {
    EndShares(f, p);
    var a, k := j * f, First(f, p, j);
    DivAtLeast(a + p - 1, p, k);
    DivAtLeast(a + p - 1, p, k + 1);
    Distribute(k, 1, p);
    SharedBetween(k, a, f, p);
    Distribute(j, 1, f);
    AtLeastOne(f, p);
  }

  lemma AtLeastOne(f: nat, p: nat)
    requires p > 0
    ensures f >= p ==> f / p >= 1
  {
    DivAtLeast(f, p, 1);
  }

  lemma EndShares(f: nat, p: nat)
    requires p > 0
    ensures First(f, p, 0) == 0 && First(f, p, p) == f
  {
    DivAtLeast(p - 1, p, 1);
    DivAtLeast(p * f + p - 1, p, f);
    DivAtLeast(p * f + p - 1, p, f + 1);
    assert (f + 1) * p == p * f + p && f * p == p * f;
  }

  lemma Distribute(a: nat, b: nat, p: nat)
    ensures (a + b) * p == a * p + b * p
  {
  }

  /** The ceiling is the least multiple that reaches. */
  lemma CeilingReaches(f: nat, p: nat)
    requires p > 0
    ensures f <= (f + p - 1) / p * p
  {
    var c := (f + p - 1) / p;
    DivAtLeast(f + p - 1, p, c + 1);
    Distribute(c, 1, p);
  }

  lemma SharedBetween(k: nat, a: nat, f: nat, p: nat)
    requires p > 0 && a <= k * p < a + p
    ensures k + f / p <= (a + f + p - 1) / p <= k + (f + p - 1) / p
  {
    var q, c := f / p, (f + p - 1) / p;
    DivAtLeast(f, p, q);
    CeilingReaches(f, p);
    Distribute(k, q, p);
    DivAtLeast(a + f + p - 1, p, k + q);
    Distribute(k, c, p);
    Distribute(k + c, 1, p);
    DivAtLeast(a + f + p - 1, p, k + c + 1);
  }

  lemma PixelOrder(f: nat, p: nat, i: nat, k: nat)
    requires f > 0 && i <= k
    ensures Pixel(f, p, i) <= Pixel(f, p, k)
  {
    DivAtLeast(p * k, f, Pixel(f, p, i));
    DivAtLeast(p * i, f, Pixel(f, p, i));
    assert p * i <= p * k;
  }

  /** The map's entry for a bin, kept in 16 bits. With the spectrum inverted the pixels run backwards, and what is
      off the display is -1. */
  function Entry(f: nat, p: nat, inverted: bool, i: nat): nat
    requires f > 0
  {
    var j := Pixel(f, p, i);
    (if !inverted then j else if j < WF_WIDTH then WF_WIDTH - 1 - j else -1) % 0x1_0000
  }

  method BuildMap(f: nat, p: nat, inverted: bool) returns (map_: array<nat>)
    requires f > 0
    ensures fresh(map_) && map_.Length == f && forall i :: 0 <= i < f ==> map_[i] == Entry(f, p, inverted, i)
  {
    map_ := new nat[f];
    var i := 0;
    while i < f
      invariant 0 <= i <= f && forall k :: 0 <= k < i ==> map_[k] == Entry(f, p, inverted, k)
    {
      var j: int := p * i / f;
      if inverted { j := if j < WF_WIDTH then WF_WIDTH - 1 - j else -1; }
      map_[i] := j % 0x1_0000;
      i := i + 1;
    }
  }

  // ---- gathering the bins -----------------------------------------------------------------------------------------------

  /** How the bins of a pixel are put together: added up, the largest, the smallest or the last. */
  datatype Interp = Sum | Max | Min | Last

  function Combine(how: Interp, a: real, p: real): real {
    match how
    case Sum => a + p
    case Max => if p > a then p else a
    case Min => if p < a then p else a
    case Last => p
  }

  /** The powers of a pixel's bins, put together. */
  function Together(how: Interp, g: seq<real>): real {
    if |g| == 0 then 0.0
    else if |g| == 1 then g[0]
    else Combine(how, Together(how, g[..|g| - 1]), g[|g| - 1])
  }

  /** The powers, in bin order, of those of the first `n` bins that fall on pixel `b`. */
  function Group(pwr: seq<real>, bins: seq<nat>, n: nat, b: nat): seq<real>
    requires n <= |bins| && n <= |pwr|
  {
    if n == 0 then []
    else Group(pwr, bins, n - 1, b) + if bins[n - 1] == b then [pwr[n - 1]] else []
  }

  /** The first bin, below `n`, that is off the display. */
  function Reach(bins: seq<nat>, n: nat): (r: nat)
    requires n <= |bins|
    ensures r <= n
    ensures forall i :: 0 <= i < r ==> bins[i] < WF_WIDTH
    ensures r < n ==> bins[r] >= WF_WIDTH
  {
    if n == 0 then 0
    else
      var r := Reach(bins, n - 1);
      if r < n - 1 || bins[n - 1] >= WF_WIDTH then r else n
  }

  /** The bins of a pixel follow each other. */
  ghost predicate Contiguous(bins: seq<nat>, n: nat)
    requires n <= |bins|
  {
    forall i, k :: 0 <= i < k < n && bins[i] == bins[k] ==> bins[k - 1] == bins[k]
  }

  /** A pixel holds its bins put together, and, for averages, their number in eight bits. */
  predicate Holds(how: Interp, g: seq<real>, o: real, a: nat) {
    o == Together(how, g) && (how.Sum? ==> a == |g| % 256)
  }

  /** What the pass has made of the first `n` bins. */
  ghost predicate Gathered(how: Interp, pwr: seq<real>, bins: seq<nat>, n: nat, out: seq<real>, avgs: seq<nat>)
    requires n <= |bins| && n <= |pwr|
  {
    && |out| == |avgs| == WF_WIDTH
    && forall b: nat :: b < WF_WIDTH ==> Holds(how, Group(pwr, bins, n, b), out[b], avgs[b])
  }

  /** A pixel other than that of the bin just before has had no bin yet. */
  lemma {:induction false} NewPixel(pwr: seq<real>, bins: seq<nat>, n: nat, m: nat)
    requires m <= n < |bins| && n <= |pwr| && Contiguous(bins, n + 1) && (n > 0 ==> bins[n - 1] != bins[n])
    ensures Group(pwr, bins, m, bins[n]) == []
  {
    if m > 0 { NewPixel(pwr, bins, n, m - 1); }
  }

  lemma TogetherNext(how: Interp, g: seq<real>, p: real)
    ensures Together(how, g + [p]) == if g == [] then p else Combine(how, Together(how, g), p)
  {
    hide Combine;
    assert (g + [p])[..|g|] == g;
  }

  lemma HoldsNext(how: Interp, g: seq<real>, o: real, a: nat, p: real)
    requires Holds(how, g, o, a)
    ensures g != [] ==> Holds(how, g + [p], Combine(how, o, p), (a + 1) % 256)
    ensures g == [] ==> Holds(how, g + [p], p, 1)
  {
    hide Combine, Together;
    TogetherNext(how, g, p);
  }

  lemma GroupNext(pwr: seq<real>, bins: seq<nat>, n: nat, b: nat)
    requires n < |bins| && n < |pwr|
    ensures Group(pwr, bins, n + 1, b) == if bins[n] == b then Group(pwr, bins, n, b) + [pwr[n]] else Group(pwr, bins, n, b)
  {
    assert Group(pwr, bins, n, b) + [] == Group(pwr, bins, n, b);
  }

  lemma HeldBefore(how: Interp, g: seq<real>, o: real, a: nat, b: nat)
    requires Holds(how, g, o, a) && !how.Sum?
    ensures Holds(how, g, o, b)
  {
  }

  lemma GatherNext(how: Interp, pwr: seq<real>, bins: seq<nat>, n: nat, out: seq<real>, avgs: seq<nat>, again: bool)
    requires n < |bins| && n < |pwr| && Contiguous(bins, n + 1) && bins[n] < WF_WIDTH
    requires Gathered(how, pwr, bins, n, out, avgs) && again == (n > 0 && bins[n - 1] == bins[n])
    ensures var b := bins[n];
      Gathered(how, pwr, bins, n + 1, out[b := if again then Combine(how, out[b], pwr[n]) else pwr[n]],
               if how.Sum? then avgs[b := if again then (avgs[b] + 1) % 256 else 1] else avgs)
  {
    hide Combine, Together, Contiguous, Holds, Group;
    var b := bins[n];
    var g := Group(pwr, bins, n, b);
    HoldsNext(how, g, out[b], avgs[b], pwr[n]);
    if again {
      GroupNext(pwr, bins, n - 1, b);
    } else {
      NewPixel(pwr, bins, n, n);
    }
    if !how.Sum? {
      var o := if again then Combine(how, out[b], pwr[n]) else pwr[n];
      HeldBefore(how, g + [pwr[n]], o, if again then (avgs[b] + 1) % 256 else 1, avgs[b]);
    }
    forall c: nat | c < WF_WIDTH
      ensures Group(pwr, bins, n + 1, c) == if c == b then g + [pwr[n]] else Group(pwr, bins, n, c)
    {
      GroupNext(pwr, bins, n, c);
    }
  }

  /** One pass over the bins, in which only the pixel of the bin before is remembered. */
  method Gather(how: Interp, pwr: array<real>, map_: array<nat>, limit0: nat)
    returns (out: array<real>, avgs: array<nat>, limit: nat)
    requires limit0 <= map_.Length && limit0 <= pwr.Length && Contiguous(map_[..], Reach(map_[..], limit0))
    ensures fresh(out) && fresh(avgs) && limit == Reach(map_[..], limit0)
    ensures Gathered(how, pwr[..], map_[..], limit, out[..], avgs[..])
  {
    hide Gathered;
    out := new real[WF_WIDTH](_ => 0.0);
    avgs := new nat[WF_WIDTH](_ => 0);
    ghost var bins, ps := map_[..], pwr[..];
    var before: int := -1;
    var i := 0;
    GatherNone(how, ps, bins, out[..], avgs[..]);
    while i < limit0
      invariant 0 <= i <= Reach(bins, limit0)
      invariant before == if i == 0 then -1 else bins[i - 1]
      invariant Gathered(how, ps, bins, i, out[..], avgs[..])
    {
      var p := pwr[i];
      var b := map_[i];
      if b >= WF_WIDTH { return out, avgs, i; }
      GatherNext(how, ps, bins, i, out[..], avgs[..], b == before);
      if b == before {
        out[b] := Combine(how, out[b], p);
        if how.Sum? { avgs[b] := (avgs[b] + 1) % 256; }
      } else {
        out[b] := p;
        if how.Sum? { avgs[b] := 1; }
        before := b;
      }
      i := i + 1;
    }
    limit := limit0;
  }

  lemma GatherNone(how: Interp, pwr: seq<real>, bins: seq<nat>, out: seq<real>, avgs: seq<nat>)
    requires |out| == |avgs| == WF_WIDTH && forall b :: 0 <= b < WF_WIDTH ==> out[b] == 0.0 && avgs[b] == 0
    ensures Gathered(how, pwr, bins, 0, out, avgs)
  {
  }

  // ---- a whole frame ------------------------------------------------------------------------------------------------------

  ghost predicate IsMap(bins: seq<nat>, f: nat, p: nat, inverted: bool) {
    0 < f == |bins| && 0 < p < 0x1_0000 && forall i :: 0 <= i < f ==> bins[i] == Entry(f, p, inverted, i)
  }

  /** Where on the display the `j`th pixel of the plot is. */
  function Place(inverted: bool, j: nat): nat
    requires j < WF_WIDTH
  {
    if inverted then WF_WIDTH - 1 - j else j
  }

  lemma EntryExact(f: nat, p: nat, inverted: bool, i: nat)
    requires 0 < p < 0x1_0000 && i < f
    ensures Entry(f, p, inverted, i) < WF_WIDTH <==> Pixel(f, p, i) < WF_WIDTH
    ensures Pixel(f, p, i) < WF_WIDTH ==> Entry(f, p, inverted, i) == Place(inverted, Pixel(f, p, i))
  {
    PixelBelow(f, p, i);
  }

  lemma PixelBelow(f: nat, p: nat, i: nat)
    requires p > 0 && i < f
    ensures Pixel(f, p, i) < p
  {
    EndShares(f, p);
    AtLeast(f, p, i, p);
  }

  /** The pass stops at the first bin that is off the display, if any. */
  lemma ReachExact(bins: seq<nat>, f: nat, p: nat, inverted: bool)
    requires IsMap(bins, f, p, inverted)
    ensures Reach(bins, f) == if p <= WF_WIDTH then f else First(f, p, WF_WIDTH)
  {
    hide Entry;
    var r := Reach(bins, f);
    if r < f {
      EntryExact(f, p, inverted, r);
      PixelExact(f, p, r, WF_WIDTH);
      PixelBelow(f, p, r);
    }
    if r > 0 {
      EntryExact(f, p, inverted, r - 1);
      PixelExact(f, p, r - 1, WF_WIDTH);
    }
    if p > WF_WIDTH {
      AtLeast(f, p, f - 1, WF_WIDTH);
      AtLeast(f, p, f, p);
      EndShares(f, p);
      FirstOrder(f, p, WF_WIDTH, p);
    }
  }

  lemma FirstOrder(f: nat, p: nat, j: nat, k: nat)
    requires f > 0 && p > 0 && j <= k
    ensures First(f, p, j) <= First(f, p, k)
  {
    AtLeast(f, p, First(f, p, k), k);
    AtLeast(f, p, First(f, p, k), j);
  }

  lemma MapContiguous(bins: seq<nat>, f: nat, p: nat, inverted: bool)
    requires IsMap(bins, f, p, inverted)
    ensures Contiguous(bins, Reach(bins, f))
  {
    hide Entry, Pixel;
    forall i, k | 0 <= i < k < Reach(bins, f) && bins[i] == bins[k] ensures bins[k - 1] == bins[k] {
      EntryExact(f, p, inverted, i);
      EntryExact(f, p, inverted, k - 1);
      EntryExact(f, p, inverted, k);
      PixelOrder(f, p, i, k - 1);
      PixelOrder(f, p, k - 1, k);
    }
  }

  function Least(a: nat, b: nat): nat { if a < b then a else b }

  lemma {:induction false} GroupSlice(pwr: seq<real>, bins: seq<nat>, n: nat, b: nat, lo: nat, hi: nat)
    requires n <= |bins| && n <= |pwr| && lo <= hi
    requires forall i :: 0 <= i < n ==> (bins[i] == b <==> lo <= i < hi)
    ensures Group(pwr, bins, n, b) == pwr[Least(lo, n)..Least(hi, n)]
  {
    if n > 0 {
      GroupSlice(pwr, bins, n - 1, b, lo, hi);
      SliceNext(pwr, n - 1, lo, hi);
    }
  }

  lemma SliceNext(pwr: seq<real>, n: nat, lo: nat, hi: nat)
    requires n < |pwr| && lo <= hi
    ensures pwr[Least(lo, n)..Least(hi, n)] + (if lo <= n < hi then [pwr[n]] else []) == pwr[Least(lo, n + 1)..Least(hi, n + 1)]
  {
  }

  lemma InPixel(bins: seq<nat>, f: nat, p: nat, inverted: bool, i: nat, j: nat)
    requires IsMap(bins, f, p, inverted) && i < Reach(bins, f) && j < WF_WIDTH
    ensures bins[i] == Place(inverted, j) <==> First(f, p, j) <= i < First(f, p, j + 1)
  {
    hide Entry, Pixel, First;
    EntryExact(f, p, inverted, i);
    PixelExact(f, p, i, j);
  }

  /** Every pixel of the plot that is on the display gathers exactly its own bins: those from its first up to the next
      pixel's first, of which there is at least one. */
  lemma PlotExact(pwr: seq<real>, bins: seq<nat>, f: nat, p: nat, inverted: bool, j: nat)
    requires IsMap(bins, f, p, inverted) && f <= |pwr| && p <= f && j < p && j < WF_WIDTH
    ensures First(f, p, j) < First(f, p, j + 1) <= f
    ensures Group(pwr, bins, Reach(bins, f), Place(inverted, j)) == pwr[First(f, p, j)..First(f, p, j + 1)]
  {
    hide Entry, Pixel, First, Group, Reach;
    var b, n := Place(inverted, j), Reach(bins, f);
    Shares(f, p, j);
    FirstOrder(f, p, j + 1, p);
    ReachExact(bins, f, p, inverted);
    FirstOrder(f, p, j + 1, if p <= WF_WIDTH then p else WF_WIDTH);
    forall i | 0 <= i < n ensures bins[i] == b <==> First(f, p, j) <= i < First(f, p, j + 1) {
      InPixel(bins, f, p, inverted, i, j);
    }
    GroupSlice(pwr, bins, n, b, First(f, p, j), First(f, p, j + 1));
  }

  /** Display pixels outside the plot gather nothing. */
  lemma {:induction false} OutsideEmpty(pwr: seq<real>, bins: seq<nat>, f: nat, p: nat, inverted: bool, b: nat, n: nat)
    requires IsMap(bins, f, p, inverted) && f <= |pwr| && b < WF_WIDTH && n <= Reach(bins, f)
    requires if inverted then WF_WIDTH - 1 - b >= p else b >= p
    ensures Group(pwr, bins, n, b) == []
  {
    hide Entry, Pixel;
    if n > 0 {
      EntryExact(f, p, inverted, n - 1);
      PixelBelow(f, p, n - 1);
      OutsideEmpty(pwr, bins, f, p, inverted, b, n - 1);
    }
  }

  /** The powers added up from the first. */
  function Total(g: seq<real>): real { if |g| == 0 then 0.0 else g[0] + Total(g[1..]) }

  lemma {:induction false} TotalLast(g: seq<real>)
    requires |g| > 0
    ensures Total(g) == Total(g[..|g| - 1]) + g[|g| - 1]
  {
    if |g| > 1 {
      TotalLast(g[1..]);
      assert g[1..][..|g| - 2] == g[..|g| - 1][1..];
    }
  }

  /** What the sum, the largest, the smallest and the last mean. */
  lemma {:induction false} TogetherMeans(how: Interp, g: seq<real>)
    requires |g| > 0
    ensures how.Sum? ==> Together(how, g) == Total(g)
    ensures how.Max? ==> Together(how, g) in g && forall i :: 0 <= i < |g| ==> g[i] <= Together(how, g)
    ensures how.Min? ==> Together(how, g) in g && forall i :: 0 <= i < |g| ==> g[i] >= Together(how, g)
    ensures how.Last? ==> Together(how, g) == g[|g| - 1]
  {
    TotalLast(g);
    if |g| > 1 { TogetherMeans(how, g[..|g| - 1]); }
  }

  /** The number of bins of every pixel fits in eight bits exactly when there are at most 255 to a pixel. */
  lemma CountFits(f: nat, p: nat)
    requires f > 0 && p > 0
    ensures (f + p - 1) / p <= 255 ==>
              forall j: nat :: (First(f, p, j + 1) - First(f, p, j)) % 256 == First(f, p, j + 1) - First(f, p, j)
    ensures (f + p - 1) / p >= 256 ==> exists j: nat :: j < p && First(f, p, j + 1) - First(f, p, j) >= 256
  {
    hide First;
    forall j: nat ensures First(f, p, j + 1) - First(f, p, j) <= (f + p - 1) / p && First(f, p, j) <= First(f, p, j + 1) {
      Shares(f, p, j);
      FirstOrder(f, p, j, j + 1);
    }
    FirstIsCeiling(f, p);
  }

  /** A transform of the size in use, drawn at least 17 pixels wide, has at most 255 bins to a pixel: no count wraps. */
  lemma CountsExact(f: nat, p: nat, j: nat)
    requires 0 < f <= 4096 && p >= 17
    ensures (First(f, p, j + 1) - First(f, p, j)) % 256 == First(f, p, j + 1) - First(f, p, j)
  {
    hide First;
    CountFits(f, p);
    DivAtLeast(f + p - 1, p, 256);
  }

  lemma FirstIsCeiling(f: nat, p: nat)
    requires p > 0
    ensures First(f, p, 0) == 0 && First(f, p, 0 + 1) == (f + p - 1) / p
  {
    EndShares(f, p);
  }

  /** Later frames, which start from the limit found, gather the same bins. */
  lemma ReachStays(bins: seq<nat>, n: nat)
    requires n <= |bins|
    ensures Reach(bins, Reach(bins, n)) == Reach(bins, n)
  {
    hide Reach;
  }

  /** Pixel `j` of the plot shows its own bins put together. */
  ghost predicate Shows(how: Interp, pwr: seq<real>, f: nat, p: nat, inverted: bool, out: seq<real>, avgs: seq<nat>, j: nat)
    requires |out| == |avgs| == WF_WIDTH && p > 0 && j < WF_WIDTH
  {
    First(f, p, j) < First(f, p, j + 1) <= |pwr| &&
    Holds(how, pwr[First(f, p, j)..First(f, p, j + 1)], out[Place(inverted, j)], avgs[Place(inverted, j)])
  }

  /** A frame: every pixel of the plot on the display ends up with its own bins put together. */
  method Frame(how: Interp, pwr: array<real>, f: nat, p: nat, inverted: bool) returns (out: array<real>, avgs: array<nat>)
    requires 0 < p <= f <= pwr.Length && p < 0x1_0000
    ensures out.Length == avgs.Length == WF_WIDTH
    ensures forall j: nat :: j < p && j < WF_WIDTH ==> Shows(how, pwr[..], f, p, inverted, out[..], avgs[..], j)
    ensures how.Sum? && f <= 4096 && p >= 17 ==> forall j: nat :: j < p && j < WF_WIDTH ==>
              avgs[Place(inverted, j)] == First(f, p, j + 1) - First(f, p, j)
  {
    hide First, Entry, Contiguous, Together;
    var map_ := BuildMap(f, p, inverted);
    MapContiguous(map_[..], f, p, inverted);
    var limit;
    out, avgs, limit := Gather(how, pwr, map_, f);
    forall j: nat | j < p && j < WF_WIDTH ensures Shows(how, pwr[..], f, p, inverted, out[..], avgs[..], j) {
      PlotExact(pwr[..], map_[..], f, p, inverted, j);
    }
    if f <= 4096 && p >= 17 {
      forall j: nat | j < p && j < WF_WIDTH && how.Sum?
        ensures avgs[Place(inverted, j)] == First(f, p, j + 1) - First(f, p, j)
      {
        assert Shows(how, pwr[..], f, p, inverted, out[..], avgs[..], j);
        CountsExact(f, p, j);
      }
    }
  }
}
