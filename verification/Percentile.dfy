/** Percentiles over a sample vector: selection in place of the element at a rounded rank. */
module Percentiles {

  const MAX: int := 0xFFFF_FFFF

  type uint32 = x: int | 0 <= x <= MAX

  // ----- what a rank is -----

  function Insert(s: seq<uint32>, x: uint32): seq<uint32> {
    if s == [] || s[|s| - 1] <= x then s + [x] else Insert(s[..|s| - 1], x) + [s[|s| - 1]]
  }

  // The samples in ascending order.
  function Sorted(s: seq<uint32>): seq<uint32> {
    if s == [] then [] else Insert(Sorted(s[..|s| - 1]), s[|s| - 1])
  }

  ghost predicate Ascending(s: seq<uint32>) {
    forall i, j :: 0 <= i < j < |s| ==> s[i] <= s[j]
  }

  // The samples at or below `v`.
  function CountLe(s: seq<uint32>, v: int): nat {
    if s == [] then 0 else CountLe(s[..|s| - 1], v) + (if s[|s| - 1] <= v then 1 else 0)
  }

  lemma {:induction false} InsertKeeps(s: seq<uint32>, x: uint32)
    ensures multiset(Insert(s, x)) == multiset(s) + multiset{x}
  {
    if s != [] && s[|s| - 1] > x {
      var n := |s| - 1;
      InsertKeeps(s[..n], x);
      var r := Insert(s[..n], x);
      assert Insert(s, x) == r + [s[n]];
      hide Insert;
      assert multiset(r + [s[n]]) == multiset(r) + multiset{s[n]};
      assert s == s[..n] + [s[n]];
      assert multiset(s) == multiset(s[..n]) + multiset{s[n]};
    }
  }

  lemma InsertHolds(s: seq<uint32>, x: uint32, y: uint32)
    requires y in Insert(s, x)
    ensures y in s || y == x
  {
    InsertKeeps(s, x);
    assert y in multiset(Insert(s, x));
  }

  lemma {:induction false} InsertSorts(s: seq<uint32>, x: uint32)
    requires Ascending(s)
    ensures Ascending(Insert(s, x))
  {
    if s != [] && s[|s| - 1] > x {
      var n := |s| - 1;
      InsertSorts(s[..n], x);
      var r := Insert(s[..n], x);
      forall i | 0 <= i < |r| ensures r[i] <= s[n] {
        InsertHolds(s[..n], x, r[i]);
      }
    }
  }

  lemma {:induction false} SortedSorts(s: seq<uint32>)
    ensures Ascending(Sorted(s)) && multiset(Sorted(s)) == multiset(s) && |Sorted(s)| == |s|
  {
    if s != [] {
      var n := |s| - 1;
      SortedSorts(s[..n]);
      assert s == s[..n] + [s[n]];
      InsertSorts(Sorted(s[..n]), s[n]);
      InsertKeeps(Sorted(s[..n]), s[n]);
    }
    assert |multiset(Sorted(s))| == |Sorted(s)| && |multiset(s)| == |s|;
  }

  lemma {:induction false} CountAdds(s: seq<uint32>, t: seq<uint32>, v: int)
    ensures CountLe(s + t, v) == CountLe(s, v) + CountLe(t, v)
  {
    if t == [] {
      assert s + t == s;
    } else {
      var n := |t| - 1;
      CountAdds(s, t[..n], v);
      assert (s + t)[..|s| + n] == s + t[..n];
    }
  }

  // Reordering changes no count.
  lemma {:induction false} CountReorders(s: seq<uint32>, t: seq<uint32>, v: int)
    requires multiset(s) == multiset(t)
    ensures CountLe(s, v) == CountLe(t, v)
    decreases |s|
  {
    assert |multiset(s)| == |s| && |multiset(t)| == |t|;
    if s != [] {
      var n := |s| - 1;
      hide CountLe;
      assert s[n] in multiset(t);
      var i :| 0 <= i < |t| && t[i] == s[n];
      RemoveOne(s, n);
      RemoveOne(t, i);
      CountReorders(Without(s, n), Without(t, i), v);
      CountWithout(s, n, v);
      CountWithout(t, i, v);
    }
  }

  function Without(s: seq<uint32>, i: nat): seq<uint32>
    requires i < |s|
  {
    s[..i] + s[i + 1..]
  }

  lemma RemoveOne(s: seq<uint32>, i: nat)
    requires i < |s|
    ensures multiset(Without(s, i)) == multiset(s) - multiset{s[i]} && |Without(s, i)| == |s| - 1
  {
    assert s == s[..i] + [s[i]] + s[i + 1..];
  }

  lemma CountWithout(s: seq<uint32>, i: nat, v: int)
    requires i < |s|
    ensures CountLe(s, v) == CountLe(Without(s, i), v) + (if s[i] <= v then 1 else 0)
  {
    CountAdds(s[..i], s[i + 1..], v);
    CountAdds(s[..i + 1], s[i + 1..], v);
    assert s == s[..i + 1] + s[i + 1..];
    assert s[..i + 1][..i] == s[..i];
  }

  lemma {:induction false} CountBounds(s: seq<uint32>, v: int)
    ensures (forall i :: 0 <= i < |s| ==> s[i] <= v) ==> CountLe(s, v) == |s|
    ensures (forall i :: 0 <= i < |s| ==> s[i] > v) ==> CountLe(s, v) == 0
    ensures CountLe(s, v) <= |s|
  {
    if s != [] { CountBounds(s[..|s| - 1], v); }
  }

  // Position `k` splits the samples: nothing before it is larger, nothing after it smaller.
  ghost predicate Selected(s: seq<uint32>, k: nat) {
    && k < |s|
    && (forall i :: 0 <= i < k ==> s[i] <= s[k])
    && (forall i :: k < i < |s| ==> s[k] <= s[i])
  }

  lemma {:induction false} SelectedCounts(s: seq<uint32>, k: nat, v: int)
    requires Selected(s, k)
    ensures s[k] <= v ==> CountLe(s, v) >= k + 1
    ensures v < s[k] ==> CountLe(s, v) <= k
  {
    hide CountLe;
    if s[k] <= v {
      assert s == s[..k + 1] + s[k + 1..];
      CountAdds(s[..k + 1], s[k + 1..], v);
      CountBounds(s[..k + 1], v);
    } else {
      assert s == s[..k] + s[k..];
      CountAdds(s[..k], s[k..], v);
      CountBounds(s[..k], v);
      CountBounds(s[k..], v);
    }
  }

  /** A position that splits any reordering of the samples holds the same value: the one the sorted
      samples have there. */
  lemma {:induction false} SelectedIsRank(s: seq<uint32>, t: seq<uint32>, k: nat)
    requires Selected(s, k) && Selected(t, k) && multiset(s) == multiset(t)
    ensures s[k] == t[k]
  {
    var v := if s[k] < t[k] then s[k] else t[k];
    SelectedCounts(s, k, v);
    SelectedCounts(t, k, v);
    CountReorders(s, t, v);
  }

  lemma {:induction false} SelectedIsSorted(s: seq<uint32>, k: nat, original: seq<uint32>)
    requires Selected(s, k) && multiset(s) == multiset(original)
    ensures k < |Sorted(original)| && s[k] == Sorted(original)[k]
  {
    SortedSorts(original);
    assert |multiset(s)| == |s| && |multiset(original)| == |original|;
    assert Selected(Sorted(original), k);
    SelectedIsRank(s, Sorted(original), k);
  }

  /** The order the samples are in is invisible to a rank. */
  lemma {:induction false} SortedReorders(s: seq<uint32>, t: seq<uint32>)
    requires multiset(s) == multiset(t)
    ensures Sorted(s) == Sorted(t)
  {
    SortedSorts(s);
    SortedSorts(t);
    assert |multiset(s)| == |s| && |multiset(t)| == |t|;
    forall k | 0 <= k < |s| ensures Sorted(s)[k] == Sorted(t)[k] {
      assert Selected(Sorted(s), k) && Selected(Sorted(t), k);
      SelectedIsRank(Sorted(s), Sorted(t), k);
    }
  }

  // ----- the rank of a fraction -----

  function Clamp(f: real): real { if f < 0.0 then 0.0 else if f > 1.0 then 1.0 else f }

  // The exact position of a fraction among `last + 1` samples.
  function Position(fraction: real, last: real): real { Clamp(fraction) * last }

  function RankOf(n: nat, fraction: real): int
    requires n > 0
  {
    (Position(fraction, (n - 1) as real) + 0.5).Floor
  }

  lemma NonNegative(x: real, y: real)
    requires x >= 0.0 && y >= 0.0
    ensures x * y >= 0.0
  {
  }

  lemma Positions(f: real, g: real, last: real)
    requires f <= g && last >= 0.0
    ensures 0.0 <= Position(f, last) <= Position(g, last) <= last
    ensures Position(0.0, last) == 0.0 && Position(1.0, last) == last
  {
    var p, q := Clamp(f), Clamp(g);
    NonNegative(q - p, last);
    NonNegative(1.0 - q, last);
    NonNegative(p, last);
  }

  lemma PositionWithin(f: real, last: real)
    ensures 0.0 <= f <= 1.0 ==> Position(f, last) == f * last
    ensures (f <= 0.0 ==> Position(f, last) == Position(0.0, last)) && (f >= 1.0 ==> Position(f, last) == Position(1.0, last))
  {
  }

  lemma Floors(x: real, y: real)
    requires x <= y
    ensures x.Floor <= y.Floor && x - 1.0 < x.Floor as real <= x
  {
  }

  /** The rank is in range whatever the fraction, a larger fraction has no smaller rank, the ends are
      the smallest and the largest sample, and the rank is the nearest to the exact position. */
  lemma RankInRange(n: nat, f: real, g: real)
    requires n > 0 && f <= g
    ensures 0 <= RankOf(n, f) <= RankOf(n, g) < n
    ensures RankOf(n, 0.0) == 0 && RankOf(n, 1.0) == n - 1
    ensures 0.0 <= f <= 1.0 ==> -0.5 < RankOf(n, f) as real - f * (n - 1) as real <= 0.5
    ensures (f <= 0.0 ==> RankOf(n, f) == 0) && (f >= 1.0 ==> RankOf(n, f) == n - 1)
  {
    var last := (n - 1) as real;
    Positions(f, g, last);
    PositionWithin(f, last);
    hide Position;
    var x, y := Position(f, last) + 0.5, Position(g, last) + 0.5;
    Floors(x, y);
    Floors(0.5, x);
    Floors(y, last + 0.5);
    assert (last + 0.5).Floor == n - 1;
  }

  // What the percentile of the samples is.
  function PercentileOf(s: seq<uint32>, fraction: real): uint32 {
    if s == [] then 0
    else
      RankInRange(|s|, fraction, fraction);
      SortedSorts(s);
      Sorted(s)[RankOf(|s|, fraction)]
  }

  // The percentile is the sorted samples' element at the rank.
  lemma {:induction false} PercentileAt(s: seq<uint32>, f: real)
    requires s != []
    ensures 0 <= RankOf(|s|, f) < |s| == |Sorted(s)| && PercentileOf(s, f) == Sorted(s)[RankOf(|s|, f)]
    ensures RankOf(|s|, f) < |Sorted(s)| && Selected(Sorted(s), RankOf(|s|, f)) && Ascending(Sorted(s)) && multiset(Sorted(s)) == multiset(s)
  {
    SortedSorts(s);
    RankInRange(|s|, f, f);
  }

  /** A larger fraction never answers with a smaller sample, no order of the samples matters, and the
      answer is one of them. */
  lemma {:induction false} PercentileMonotone(s: seq<uint32>, t: seq<uint32>, f: real, g: real)
    requires f <= g && multiset(s) == multiset(t)
    ensures PercentileOf(s, f) <= PercentileOf(t, g)
    ensures s != [] ==> PercentileOf(s, f) in s
  {
    assert |multiset(s)| == |s| && |multiset(t)| == |t|;
    if s != [] {
      hide *;
      SortedReorders(s, t);
      PercentileAt(s, f);
      PercentileAt(t, g);
      RankInRange(|s|, f, g);
      SampleOf(s, Sorted(s), RankOf(|s|, f));
      AscendingAt(Sorted(s), RankOf(|s|, f), RankOf(|s|, g));
    }
  }

  lemma SampleOf(s: seq<uint32>, t: seq<uint32>, k: nat)
    requires k < |t| && multiset(s) == multiset(t)
    ensures t[k] in s
  {
    assert t[k] in multiset(t);
  }

  lemma AscendingAt(s: seq<uint32>, i: nat, j: nat)
    requires Ascending(s) && i <= j < |s|
    ensures s[i] <= s[j]
  {
  }

  /** At least the rounded rank and one more of the samples are at or below the percentile, and no
      more than the rank are strictly below it. */
  lemma {:induction false} PercentileCovers(s: seq<uint32>, f: real)
    requires s != []
    ensures CountLe(s, PercentileOf(s, f)) >= RankOf(|s|, f) + 1
    ensures CountLe(s, PercentileOf(s, f) as int - 1) <= RankOf(|s|, f)
  {
    hide *;
    PercentileAt(s, f);
    SelectedCovers(s, Sorted(s), RankOf(|s|, f));
  }

  lemma SelectedCovers(s: seq<uint32>, t: seq<uint32>, k: nat)
    requires Selected(t, k) && multiset(s) == multiset(t)
    ensures CountLe(s, t[k]) >= k + 1 && CountLe(s, t[k] as int - 1) <= k
  {
    SelectedCounts(t, k, t[k]);
    SelectedCounts(t, k, t[k] as int - 1);
    CountReorders(s, t, t[k]);
    CountReorders(s, t, t[k] as int - 1);
  }

  // ----- selection in place -----

  method Swap(a: array<uint32>, i: nat, j: nat)
    requires i < a.Length && j < a.Length
    modifies a
    ensures a[i] == old(a[j]) && a[j] == old(a[i])
    ensures forall k :: 0 <= k < a.Length && k != i && k != j ==> a[k] == old(a[k])
    ensures multiset(a[..]) == old(multiset(a[..]))
  {
    a[i], a[j] := a[j], a[i];
  }

  // Everything at `from <= k < to` lies between the two values.
  ghost predicate Within(s: seq<uint32>, from: nat, to: nat, low: int, high: int)
  {
    from <= to <= |s| && forall k :: from <= k < to ==> low <= s[k] <= high
  }

  // Around the last element of the range: smaller ones before it, the others after.
  method Partition(a: array<uint32>, lo: nat, hi: nat, ghost low: int, ghost high: int) returns (p: nat)
    requires lo < hi <= a.Length && Within(a[..], lo, hi, low, high)
    modifies a
    ensures lo <= p < hi && Within(a[..], lo, p, low, a[p]) && Within(a[..], p, hi, a[p], high)
    ensures low <= a[p] <= high
    ensures forall k :: 0 <= k < lo || hi <= k < a.Length ==> a[k] == old(a[k])
    ensures multiset(a[..]) == old(multiset(a[..]))
  {
    var pivot := a[hi - 1];
    p := lo;
    for j := lo to hi - 1
      invariant lo <= p <= j && a[hi - 1] == pivot
      invariant forall k :: lo <= k < p ==> a[k] < pivot
      invariant forall k :: p <= k < j ==> a[k] >= pivot
      invariant forall k :: lo <= k < hi ==> low <= a[k] <= high
      invariant forall k :: 0 <= k < lo || hi <= k < a.Length ==> a[k] == old(a[k])
      invariant multiset(a[..]) == old(multiset(a[..]))
    {
      if a[j] < pivot {
        Swap(a, p, j);
        p := p + 1;
      }
    }
    Swap(a, p, hi - 1);
  }

  // The k-th smallest goes to position `k`, nothing larger before it and nothing smaller after.
  method NthElement(a: array<uint32>, k: nat)
    requires k < a.Length
    modifies a
    ensures Selected(a[..], k)
    ensures multiset(a[..]) == old(multiset(a[..]))
  {
    var lo, hi := 0, a.Length;
    ghost var low, high := 0, MAX;
    while hi - lo > 1
      invariant lo <= k < hi <= a.Length
      invariant Within(a[..], 0, lo, 0, low) && Within(a[..], lo, hi, low, high) && Within(a[..], hi, a.Length, high, MAX)
      invariant low <= high
      invariant multiset(a[..]) == old(multiset(a[..]))
      decreases hi - lo
    {
      var p := Partition(a, lo, hi, low, high);
      if k < p {
        hi, high := p, a[p];
      } else if p < k {
        lo, low := p + 1, a[p];
      } else {
        return;
      }
    }
  }

  /** The sample at the rounded rank, from a vector this reorders. */
  method Percentile(samples: array<uint32>, fraction: real) returns (r: uint32)
    modifies samples
    ensures multiset(samples[..]) == old(multiset(samples[..]))
    ensures r == PercentileOf(old(samples[..]), fraction)
    ensures samples.Length == 0 ==> r == 0
  {
    if samples.Length == 0 { return 0; }
    RankInRange(samples.Length, fraction, fraction);
    var rank := RankOf(samples.Length, fraction);
    NthElement(samples, rank);
    SelectedIsSorted(samples[..], rank, old(samples[..]));
    return samples[rank];
  }

  // The largest sample, or zero without one.
  method Largest(samples: array<uint32>) returns (m: uint32)
    ensures samples.Length == 0 ==> m == 0
    ensures samples.Length > 0 ==> m in samples[..] && forall x <- samples[..] :: x <= m
  {
    if samples.Length == 0 { return 0; }
    m := samples[0];
    for i := 1 to samples.Length
      invariant m in samples[..] && forall k :: 0 <= k < i ==> samples[k] <= m
    {
      if samples[i] > m { m := samples[i]; }
    }
  }

  lemma {:induction false} LargestIsLast(s: seq<uint32>, m: uint32)
    requires s != [] && m in s && forall x <- s :: x <= m
    ensures PercentileOf(s, 1.0) == m
  {
    hide *;
    PercentileAt(s, 1.0);
    RankInRange(|s|, 1.0, 1.0);
    var t := Sorted(s);
    SampleOf(s, t, |t| - 1);
    assert m in multiset(t);
    var i :| 0 <= i < |t| && t[i] == m;
    AscendingAt(t, i, |t| - 1);
  }

  /** One window's report: each percentile is read from a vector the ones before it reordered, and is
      still that of the samples as they came. */
  method ReportWindow(samples: array<uint32>) returns (count: nat, p50: uint32, p95: uint32, p99: uint32, max: uint32)
    modifies samples
    ensures count == samples.Length && multiset(samples[..]) == old(multiset(samples[..]))
    ensures p50 == PercentileOf(old(samples[..]), 0.50)
    ensures p95 == PercentileOf(old(samples[..]), 0.95)
    ensures p99 == PercentileOf(old(samples[..]), 0.99)
    ensures max == PercentileOf(old(samples[..]), 1.0)
    ensures p50 <= p95 <= p99 <= max
    ensures samples.Length == 0 ==> max == 0
  {
    ghost var s := samples[..];
    count := samples.Length;
    p50 := Percentile(samples, 0.50);
    SortedReorders(s, samples[..]);
    p95 := Percentile(samples, 0.95);
    SortedReorders(s, samples[..]);
    p99 := Percentile(samples, 0.99);
    SortedReorders(s, samples[..]);
    max := Largest(samples);
    if samples.Length > 0 { LargestIsLast(samples[..], max); }
    PercentileMonotone(s, s, 0.50, 0.95);
    PercentileMonotone(s, s, 0.95, 0.99);
    PercentileMonotone(s, s, 0.99, 1.0);
  }
}
