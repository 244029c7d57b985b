/** The automatic aperture: the most frequent band of the spectrum is taken for noise, the highest for signal. */
module WfAperture {
  import opened Sorting

  const RESOLUTION := 5
  const MASKED := -190

  /** How often a band occurs. */
  function Count(s: seq<int>, x: int): (n: nat)
    ensures n > 0 <==> x in s
  {
    if |s| == 0 then 0 else Count(s[..|s| - 1], x) + if s[|s| - 1] == x then 1 else 0
  }

  function Band(pwr: real): int { (pwr / (RESOLUTION as real)).Floor * RESOLUTION }

  /** The bands of the spectrum, except masked areas. */
  function Bands(pwr: seq<real>): seq<int> {
    if |pwr| == 0 then []
    else
      var b := Band(pwr[|pwr| - 1]);
      Bands(pwr[..|pwr| - 1]) + if b <= MASKED then [] else [b]
  }

  ghost predicate Ascending(s: seq<int>) { forall i, j :: 0 <= i < j < |s| ==> s[i] <= s[j] }

  ghost predicate SortOf(s: seq<int>, t: seq<int>) {
    |s| == |t| && Ascending(s) && forall x :: Count(s, x) == Count(t, x)
  }

  // ---- sorting ---------------------------------------------------------------------------------------------------------

  function AsReal(x: int): real { x as real }

  function Same(x: int): int { x }

  lemma CountLast(s: seq<int>, x: int, y: int)
    ensures Count(s + [x], y) == Count(s, y) + if x == y then 1 else 0
  {
    assert (s + [x])[..|s|] == s;
  }

  lemma {:induction false} CountInImage(s: seq<int>, x: int)
    ensures Image(s, Same)[x] == Count(s, x)
  {
    if |s| > 0 { CountInImage(s[..|s| - 1], x); }
  }

  lemma {:induction false} ImageSize(s: seq<int>)
    ensures |Image(s, Same)| == |s|
  {
    if |s| > 0 { ImageSize(s[..|s| - 1]); }
  }

  /** The bands sorted in place. */
  method QsortBands(a: array<int>, n: nat)
    requires n <= a.Length
    modifies a
    ensures SortOf(a[..n], old(a[..n]))
  {
    hide Count;
    Qsort(a, n, AsReal, Same);
    ghost var s, t := a[..n], old(a[..n]);
    ImageSize(s);
    ImageSize(t);
    forall i, j | 0 <= i < j < n ensures s[i] <= s[j] { assert AsReal(s[i]) <= AsReal(s[j]); }
    forall x ensures Count(s, x) == Count(t, x) {
      CountInImage(s, x);
      CountInImage(t, x);
    }
  }

  // ---- noise and signal --------------------------------------------------------------------------------------------------

  /** The lowest of the most frequent bands. */
  ghost predicate IsNoise(s: seq<int>, noise: int) {
    && noise in s
    && (forall x :: x in s ==> Count(s, x) <= Count(s, noise))
    && (forall x :: x in s && Count(s, x) == Count(s, noise) ==> noise <= x)
  }

  ghost predicate IsHighest(s: seq<int>, m: int) { m in s && forall x :: x in s ==> x <= m }

  /** The bands below the current one have been weighed: `best` is the lowest of the most frequent ones, with `count`
      occurrences. */
  ghost predicate Weighed(s: seq<int>, last: int, count: nat, best: int) {
    && (forall x :: x in s && x != last ==> x < last && Count(s, x) <= count)
    && (forall x :: x in s && x != last && Count(s, x) == count ==> best <= x)
    && (count > 0 ==> best in s && best < last && Count(s, best) == count)
  }

  lemma {:induction false} CountBelow(s: seq<int>, x: int)
    requires forall i :: 0 <= i < |s| ==> s[i] < x
    ensures Count(s, x) == 0
  {
    if |s| > 0 { CountBelow(s[..|s| - 1], x); }
  }

  /** The bands seen so far are all weighed once the last one is: it becomes the best if it occurs more often. */
  lemma WeighLast(s: seq<int>, last: int, count: nat, best: int)
    requires |s| > 0 && last in s && Weighed(s, last, count, best)
    ensures var more := Count(s, last) > count;
      IsNoise(s, if more then last else best) && Count(s, if more then last else best) == if more then Count(s, last) else count
  {
  }

  /** Moving on to a higher band. */
  lemma WeighNext(s: seq<int>, x: int, best: int)
    requires |s| > 0 && IsNoise(s, best) && forall i :: 0 <= i < |s| ==> s[i] < x
    ensures Weighed(s + [x], x, Count(s, best), best) && Count(s + [x], x) == 1
  {
    CountBelow(s, x);
    CountLast(s, x, x);
    forall y | y in s ensures Count(s + [x], y) == Count(s, y) { CountLast(s, x, y); }
  }

  /** One more of the same band. */
  lemma WeighSame(s: seq<int>, last: int, count: nat, best: int)
    requires Weighed(s, last, count, best)
    ensures Weighed(s + [last], last, count, best) && Count(s + [last], last) == Count(s, last) + 1
  {
    CountLast(s, last, last);
    forall y | y != last ensures Count(s + [last], y) == Count(s, y) { CountLast(s, last, y); }
  }

  lemma NoiseOfSorted(s: seq<int>, t: seq<int>, noise: int)
    requires SortOf(s, t)
    ensures IsNoise(s, noise) <==> IsNoise(t, noise)
    ensures IsHighest(s, noise) <==> IsHighest(t, noise)
  {
    assert forall x :: x in s <==> Count(s, x) > 0;
    assert forall x :: x in t <==> Count(t, x) > 0;
  }

  /** `highest` is the highest of the first `i` bands below `last`, if any. */
  ghost predicate HighestBelow(s: seq<int>, i: nat, last: int, highest: int)
    requires i <= |s|
  {
    && highest < last && (highest in s[..i] || highest == -999)
    && forall k :: 0 <= k < i && s[k] != last ==> s[k] <= highest
  }

  lemma HighestNext(s: seq<int>, i: nat, last: int, highest: int)
    requires i < |s| && Ascending(s) && HighestBelow(s, i, last, highest) && s[i] >= last && (i > 0 ==> last == s[i - 1])
    ensures HighestBelow(s, i + 1, s[i], if s[i] != last && i > 0 then last else highest)
  {
    if i > 0 { assert last in s[..i + 1]; }
  }

  lemma HighestLast(s: seq<int>, last: int, highest: int)
    requires HighestBelow(s, |s|, last, highest) && last in s
    ensures IsHighest(s, last)
  {
    assert s[..|s|] == s;
    forall x | x in s ensures x <= last { var k :| 0 <= k < |s| && s[k] == x; }
  }

  /** The run-length loop over the sorted bands. */
  method Weigh(band: array<int>, len: nat) returns (noise: int, highest: int)
    requires 0 < len <= band.Length && Ascending(band[..len]) && band[0] > MASKED
    ensures IsNoise(band[..len], noise) && IsHighest(band[..len], highest)
  {
    hide Count, IsNoise, IsHighest, Weighed;
    ghost var s := band[..len];
    var maxCount := 0;
    highest, noise := -999, 0;
    var last, same := band[0], 0;
    var i := 0;
    StartWeighing(last, noise);
    while true
      invariant 0 <= i <= len && last == s[if i == 0 then 0 else i - 1]
      invariant same == Count(s[..i], last) && Weighed(s[..i], last, maxCount, noise)
      invariant HighestBelow(s, i, last, highest)
      decreases len - i
    {
      assert i == len ==> s[..i] == s;
      if i < len { HighestNext(s, i, last, highest); } else { HighestLast(s, last, highest); }
      if i == len || band[i] != last {
        WeighLast(s[..i], last, maxCount, noise);
        if same > maxCount { maxCount := same; noise := last; }
        if last > highest { highest := last; }
        if i == len { break; }
        WeighNext(s[..i], s[i], noise);
        same := 1;
        last := band[i];
      } else {
        WeighSame(s[..i], last, maxCount, noise);
        same := same + 1;
      }
      assert s[..i] + [s[i]] == s[..i + 1];
      i := i + 1;
    }
    assert s[..len] == s;
  }

  lemma StartWeighing(last: int, best: int)
    ensures Count([], last) == 0 && Weighed([], last, 0, best)
  {
  }

  const FLOOR := -80

  /** The unmasked bands of a stretch of the spectrum. */
  method Collect(avg: array<real>, start: nat, stop: nat) returns (band: array<int>, len: nat)
    requires start <= stop <= avg.Length
    ensures fresh(band) && len <= band.Length && band[..len] == Bands(avg[start..stop])
  {
    hide Band;
    band := new int[avg.Length];
    len := 0;
    var i := start;
    while i < stop
      invariant start <= i <= stop && len <= i - start
      invariant band[..len] == Bands(avg[start..i])
    {
      assert avg[start..i + 1][..i - start] == avg[start..i];
      var b := Band(avg[i]);
      if b > MASKED {
        band[len] := b;
        len := len + 1;
      }
      i := i + 1;
    }
  }

  /** The aperture of a stretch of the spectrum: noise is the lowest of the most frequent unmasked bands, signal the
      highest band, or -80 when that is higher. With everything masked they are -120 and -80. */
  method Auto(avg: array<real>, start: nat, stop: nat) returns (noise: int, signal: int)
    requires start <= stop <= avg.Length
    ensures var s := Bands(avg[start..stop]);
      && (if s == [] then noise == -120 else IsNoise(s, noise))
      && IsHighest(s + [FLOOR], signal)
  {
    hide IsNoise, SortOf, Count, Bands, Ascending;
    var band, len := Collect(avg, start, stop);
    ghost var s := band[..len];
    BandsUnmasked(avg[start..stop]);
    if len > 0 {
      QsortBands(band, len);
      SortedMembers(band[..len], s);
      assert band[0] in band[..len];
      noise, signal := Weigh(band, len);
      NoiseOfSorted(band[..len], s, noise);
      NoiseOfSorted(band[..len], s, signal);
    } else {
      signal := -110;
      noise := -120;
    }
    if signal < FLOOR { signal := FLOOR; }
  }

  lemma {:induction false} BandsUnmasked(pwr: seq<real>)
    ensures forall x :: x in Bands(pwr) ==> x > MASKED
  {
    if |pwr| > 0 { BandsUnmasked(pwr[..|pwr| - 1]); }
  }

  lemma SortedMembers(s: seq<int>, t: seq<int>)
    requires SortOf(s, t)
    ensures Ascending(s) && forall x :: x in s ==> x in t
  {
    assert forall x :: x in s <==> Count(s, x) > 0;
    assert forall x :: x in t <==> Count(t, x) > 0;
  }
}
