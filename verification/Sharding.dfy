/** Splitting a fleet of cameras over shard processes: longest-processing-time-first balancing. */
module Sharding {

  // ----- loads and assignments -----

  // The total load an assignment gives to shard `s`.
  function WeightOf(loads: seq<real>, a: seq<nat>, s: nat): real
    requires |a| == |loads|
  {
    if loads == [] then 0.0
    else
      var n := |loads| - 1;
      WeightOf(loads[..n], a[..n], s) + (if a[n] == s then loads[n] else 0.0)
  }

  function Total(loads: seq<real>): real {
    if loads == [] then 0.0 else Total(loads[..|loads| - 1]) + loads[|loads| - 1]
  }

  // The weights of the first `m` shards, added up.
  function SumShards(loads: seq<real>, a: seq<nat>, m: nat): real
    requires |a| == |loads|
  {
    if m == 0 then 0.0 else SumShards(loads, a, m - 1) + WeightOf(loads, a, m - 1)
  }

  // Every camera goes to one of `m` shards.
  predicate Assigns(loads: seq<real>, a: seq<nat>, m: nat) {
    |a| == |loads| && forall i :: 0 <= i < |a| ==> a[i] < m
  }

  ghost predicate NonNegative(loads: seq<real>) {
    forall i :: 0 <= i < |loads| ==> loads[i] >= 0.0
  }

  ghost predicate Descending(loads: seq<real>) {
    forall i, j :: 0 <= i < j < |loads| ==> loads[i] >= loads[j]
  }

  lemma {:induction false} SumShardsLast(loads: seq<real>, a: seq<nat>, m: nat)
    requires |a| == |loads| > 0
    ensures
      var n := |loads| - 1;
      SumShards(loads, a, m) == SumShards(loads[..n], a[..n], m) + (if a[n] < m then loads[n] else 0.0)
  {
    if m > 0 { SumShardsLast(loads, a, m - 1); }
  }

  lemma {:induction false} SumShardsEmpty(m: nat)
    ensures SumShards([], [], m) == 0.0
  {
    if m > 0 { SumShardsEmpty(m - 1); }
  }

  /** No load is lost: the shards' weights add up to the fleet's load. */
  lemma {:induction false} WeightsConserve(loads: seq<real>, a: seq<nat>, m: nat)
    requires Assigns(loads, a, m)
    ensures SumShards(loads, a, m) == Total(loads)
  {
    if loads == [] {
      SumShardsEmpty(m);
    } else {
      SumShardsLast(loads, a, m);
      WeightsConserve(loads[..|loads| - 1], a[..|a| - 1], m);
    }
  }

  lemma {:induction false} WeightNonNegative(loads: seq<real>, a: seq<nat>, s: nat)
    requires |a| == |loads| && NonNegative(loads)
    ensures WeightOf(loads, a, s) >= 0.0
  {
    if loads != [] { WeightNonNegative(loads[..|loads| - 1], a[..|a| - 1], s); }
  }

  function Times(m: nat, x: real): real {
    m as real * x
  }

  lemma Scale(m: nat, x: real)
    ensures Times(m + 1, x) == Times(m, x) + x
  {
  }

  lemma {:induction false} SumAtMost(loads: seq<real>, a: seq<nat>, m: nat, bound: real)
    requires |a| == |loads| && forall s: nat :: s < m ==> WeightOf(loads, a, s) <= bound
    ensures SumShards(loads, a, m) <= Times(m, bound)
  {
    if m > 0 {
      SumAtMost(loads, a, m - 1, bound);
      Scale(m - 1, bound);
    }
  }

  lemma {:induction false} SumAtLeast(loads: seq<real>, a: seq<nat>, m: nat, bound: real)
    requires |a| == |loads| && forall s: nat :: s < m ==> WeightOf(loads, a, s) >= bound
    ensures SumShards(loads, a, m) >= Times(m, bound)
  {
    if m > 0 {
      SumAtLeast(loads, a, m - 1, bound);
      Scale(m - 1, bound);
    }
  }

  // ----- the greedy rule -----

  // Load per unit of device.
  function Rate(weight: real, capacity: real): real
    requires capacity > 0.0
  {
    weight / capacity
  }

  // The lowest-numbered shard among the first `n` that is lightest per unit of device.
  function Lightest(weights: seq<real>, capacity: seq<real>, n: nat): (t: nat)
    requires 0 < n <= |weights| == |capacity|
    requires forall i :: 0 <= i < |capacity| ==> capacity[i] > 0.0
    ensures t < n
    ensures forall i :: 0 <= i < n ==> Rate(weights[t], capacity[t]) <= Rate(weights[i], capacity[i])
    ensures forall i :: 0 <= i < t ==> Rate(weights[t], capacity[t]) < Rate(weights[i], capacity[i])
  {
    if n == 1 then 0
    else
      var best := Lightest(weights, capacity, n - 1);
      if Rate(weights[n - 1], capacity[n - 1]) < Rate(weights[best], capacity[best]) then n - 1 else best
  }

  ghost predicate Positive(capacity: seq<real>) {
    capacity != [] && forall i :: 0 <= i < |capacity| ==> capacity[i] > 0.0
  }

  function Weights(loads: seq<real>, a: seq<nat>, m: nat): (w: seq<real>)
    requires |a| == |loads|
    ensures |w| == m && forall s :: 0 <= s < m ==> w[s] == WeightOf(loads, a, s)
  {
    seq(m, s requires 0 <= s < m => WeightOf(loads, a, s))
  }

  // Give each camera in turn to the lightest shard.
  function Greedy(loads: seq<real>, capacity: seq<real>): (a: seq<nat>)
    requires Positive(capacity)
    ensures Assigns(loads, a, |capacity|)
  {
    if loads == [] then []
    else
      var n := |loads| - 1;
      var a := Greedy(loads[..n], capacity);
      a + [Lightest(Weights(loads[..n], a, |capacity|), capacity, |capacity|)]
  }

  // ----- the bound -----

  // What a shard of this capacity carries at `rate` per unit of device.
  function Carries(rate: real, capacity: real): real {
    rate * capacity
  }

  // No shard of the assignment carries more than `t` per unit of its device.
  ghost predicate Fits(loads: seq<real>, a: seq<nat>, capacity: seq<real>, t: real)
    requires |a| == |loads|
  {
    forall s: nat :: s < |capacity| ==> WeightOf(loads, a, s) <= Carries(t, capacity[s])
  }

  ghost predicate Even(capacity: seq<real>, c: real) {
    forall i :: 0 <= i < |capacity| ==> capacity[i] == c
  }

  lemma {:induction false} PrefixWeight(loads: seq<real>, a: seq<nat>, s: nat)
    requires |a| == |loads| > 0 && NonNegative(loads)
    ensures WeightOf(loads[..|loads| - 1], a[..|a| - 1], s) <= WeightOf(loads, a, s)
  {
  }

  // A camera counts double when no other of at least `p` fits beside it below `t`.
  function Cost(load: real, p: real, t: real): real {
    if load + p > t then 2.0 else 1.0
  }

  function Costs(loads: seq<real>, p: real, t: real): (c: seq<real>)
    ensures |c| == |loads| && forall i :: 0 <= i < |c| ==> c[i] == Cost(loads[i], p, t)
  {
    seq(|loads|, i requires 0 <= i < |loads| => Cost(loads[i], p, t))
  }

  // Where no camera is below a third of `t`, a shard that fits below `t` costs at most 2.
  lemma {:induction false} FittingShardCosts(loads: seq<real>, a: seq<nat>, s: nat, p: real, t: real)
    requires |a| == |loads| && 3.0 * p > t >= 0.0
    requires forall i :: 0 <= i < |loads| ==> loads[i] >= p
    requires WeightOf(loads, a, s) <= t
    ensures
      var c, w := WeightOf(Costs(loads, p, t), a, s), WeightOf(loads, a, s);
      (c == 0.0 && w == 0.0) || (c == 1.0 && w >= p) || (c == 2.0 && w + p > t)
  {
    if loads != [] {
      var n := |loads| - 1;
      assert Costs(loads, p, t)[..n] == Costs(loads[..n], p, t);
      FittingShardCosts(loads[..n], a[..n], s, p, t);
    }
  }

  // A shard that would pass `t` with one more camera of `p` costs at least 2 already.
  lemma {:induction false} FullShardCosts(loads: seq<real>, a: seq<nat>, s: nat, p: real, t: real)
    requires |a| == |loads| && p <= t
    ensures
      var c, w := WeightOf(Costs(loads, p, t), a, s), WeightOf(loads, a, s);
      (c == 0.0 && w == 0.0) || (c == 1.0 && w + p <= t) || c >= 2.0
  {
    if loads != [] {
      var n := |loads| - 1;
      assert Costs(loads, p, t)[..n] == Costs(loads[..n], p, t);
      FullShardCosts(loads[..n], a[..n], s, p, t);
    }
  }

  // A camera above a third of the bound still fits on some shard of any earlier assignment.
  lemma LargeCameraFits(loads: seq<real>, a: seq<nat>, b: seq<nat>, m: nat, t: real) returns (s: nat)
    requires loads != [] && m > 0 && Descending(loads) && NonNegative(loads)
    requires Assigns(loads[..|loads| - 1], a, m) && Assigns(loads, b, m)
    requires forall s: nat :: s < m ==> WeightOf(loads, b, s) <= t
    requires 3.0 * loads[|loads| - 1] > t >= 0.0
    ensures s < m && WeightOf(loads[..|loads| - 1], a, s) + loads[|loads| - 1] <= t
  {
    var n := |loads| - 1;
    var p := loads[n];
    var costs := Costs(loads, p, t);
    assert costs[..n] == Costs(loads[..n], p, t);
    PrefixAndLast(loads, b);
    if forall s: nat :: s < m ==> WeightOf(loads[..n], a, s) + p > t {
      forall s: nat | s < m ensures WeightOf(costs, b, s) <= 2.0 { FittingShardCosts(loads, b, s, p, t); }
      forall s: nat | s < m ensures WeightOf(costs[..n], a, s) >= 2.0 { FullShardCosts(loads[..n], a, s, p, t); }
      SumAtMost(costs, b, m, 2.0);
      SumAtLeast(costs[..n], a, m, 2.0);
      WeightsConserve(costs, b, m);
      WeightsConserve(costs[..n], a, m);
      assert false;
    }
    s :| s < m && WeightOf(loads[..n], a, s) + p <= t;
  }

  // Each camera is no heavier than the shard it sits on.
  lemma PrefixAndLast(loads: seq<real>, b: seq<nat>)
    requires loads != [] && |b| == |loads| && NonNegative(loads)
    ensures loads[|loads| - 1] <= WeightOf(loads, b, b[|b| - 1])
  {
    WeightNonNegative(loads[..|loads| - 1], b[..|b| - 1], b[|b| - 1]);
  }

  lemma RateCancels(x: real, y: real, c: real)
    requires c > 0.0 && Rate(x, c) <= Rate(y, c)
    ensures x <= y
  {
    assert x == (x / c) * c && y == (y / c) * c;
  }

  // `x` is at most 4/3 - 1/(3m) times `t`.
  ghost predicate FourThirds(m: nat, x: real, t: real) {
    3.0 * m as real * x <= (4.0 * m as real - 1.0) * t
  }

  lemma FourThirdsByMean(m: nat, least: real, rest: real, p: real, t: real)
    requires m >= 1 && Times(m, least) <= rest && rest + p <= Times(m, t) && 3.0 * p <= t
    ensures FourThirds(m, least + p, t)
  {
    var r := m as real;
    assert r * (least + p) == r * least + r * p;
    assert r * p - p == (r - 1.0) * p;
    assert 3.0 * ((r - 1.0) * p) == (r - 1.0) * (3.0 * p);
    assert (r - 1.0) * (3.0 * p) <= (r - 1.0) * t;
    assert 3.0 * (r * t) + (r - 1.0) * t == (4.0 * r - 1.0) * t;
  }

  lemma FourThirdsBelow(m: nat, x: real, t: real)
    requires m >= 1 && 0.0 <= x <= t
    ensures FourThirds(m, x, t)
  {
    var r := m as real;
    assert 3.0 * r * x <= 3.0 * r * t;
    assert (4.0 * r - 1.0) * t == 3.0 * r * t + (r - 1.0) * t;
    assert (r - 1.0) * t >= 0.0;
  }

  lemma TargetIsLightest(loads: seq<real>, a: seq<nat>, capacity: seq<real>, c: real)
    requires |a| == |loads| && Positive(capacity) && Even(capacity, c)
    ensures
      var target := Lightest(Weights(loads, a, |capacity|), capacity, |capacity|);
      forall s: nat :: s < |capacity| ==> WeightOf(loads, a, target) <= WeightOf(loads, a, s)
  {
    var w := Weights(loads, a, |capacity|);
    var target := Lightest(w, capacity, |capacity|);
    hide Rate;
    forall s: nat | s < |capacity| ensures w[target] <= w[s] { RateCancels(w[target], w[s], c); }
  }

  // A camera of at most a third of the bound joins a shard that is at most the mean.
  lemma {:induction false} SmallCameraBounded(loads: seq<real>, earlier: seq<real>, a: seq<nat>, b: seq<nat>, m: nat, least: real, bound: real)
    requires loads != [] && m > 0
    requires earlier == loads[..|loads| - 1] && Assigns(earlier, a, m) && Assigns(loads, b, m)
    requires forall s: nat :: s < m ==> WeightOf(loads, b, s) <= bound
    requires forall s: nat :: s < m ==> least <= WeightOf(earlier, a, s)
    requires 3.0 * loads[|loads| - 1] <= bound
    ensures FourThirds(m, least + loads[|loads| - 1], bound)
  {
    hide FourThirds;
    hide SumShards;
    hide Times;
    hide WeightOf;
    SumAtLeast(earlier, a, m, least);
    SumAtMost(loads, b, m, bound);
    WeightsConserve(earlier, a, m);
    WeightsConserve(loads, b, m);
    FourThirdsByMean(m, least, Total(earlier), loads[|loads| - 1], bound);
  }

  // Wherever the last camera finds its lightest shard, that shard stays within the bound.
  lemma {:induction false} LastCameraBounded(loads: seq<real>, earlier: seq<real>, a: seq<nat>, b: seq<nat>, m: nat, target: nat, bound: real)
    requires loads != [] && m > 0 && Descending(loads) && NonNegative(loads)
    requires earlier == loads[..|loads| - 1] && Assigns(earlier, a, m) && Assigns(loads, b, m)
    requires forall s: nat :: s < m ==> WeightOf(loads, b, s) <= bound
    requires target < m && forall s: nat :: s < m ==> WeightOf(earlier, a, target) <= WeightOf(earlier, a, s)
    ensures FourThirds(m, WeightOf(earlier, a, target) + loads[|loads| - 1], bound)
  {
    hide FourThirds;
    hide WeightOf;
    hide Descending;
    var least, p := WeightOf(earlier, a, target), loads[|loads| - 1];
    WeightNonNegative(loads, b, 0);
    WeightNonNegative(earlier, a, target);
    if 3.0 * p > bound {
      var s := LargeCameraFits(loads, a, b, m, bound);
      FourThirdsBelow(m, least + p, bound);
    } else {
      SmallCameraBounded(loads, earlier, a, b, m, least, bound);
    }
  }

  /** Longest-processing-time-first is within 4/3 - 1/(3m) of every other plan, and so of the best,
      when every shard has the same capacity. */
  lemma {:induction false} WithinFourThirds(loads: seq<real>, capacity: seq<real>, c: real, b: seq<nat>, bound: real)
    requires Positive(capacity) && Even(capacity, c) && Descending(loads) && NonNegative(loads)
    requires Assigns(loads, b, |capacity|)
    requires forall s: nat :: s < |capacity| ==> WeightOf(loads, b, s) <= bound
    ensures forall s: nat :: s < |capacity| ==>
      FourThirds(|capacity|, WeightOf(loads, Greedy(loads, capacity), s), bound)
    decreases loads
  {
    hide FourThirds;
    hide Lightest;
    WeightNonNegative(loads, b, 0);
    if loads == [] {
      FourThirdsBelow(|capacity|, 0.0, bound);
    } else {
      var n := |loads| - 1;
      forall s: nat | s < |capacity| ensures WeightOf(loads[..n], b[..n], s) <= bound { PrefixWeight(loads, b, s); }
      WithinFourThirds(loads[..n], capacity, c, b[..n], bound);
      var a := Greedy(loads[..n], capacity);
      var target := Lightest(Weights(loads[..n], a, |capacity|), capacity, |capacity|);
      TargetIsLightest(loads[..n], a, capacity, c);
      LastCameraBounded(loads, loads[..n], a, b, |capacity|, target, bound);
      assert Greedy(loads, capacity) == a + [target];
      assert (a + [target])[..n] == a;
    }
  }

  // ----- capacities that differ -----

  ghost function SumCapacity(capacity: seq<real>, n: nat): real
    requires n <= |capacity|
  {
    if n == 0 then 0.0 else SumCapacity(capacity, n - 1) + capacity[n - 1]
  }

  lemma CarriesAdds(rate: real, c: real, d: real)
    ensures Carries(rate, c + d) == Carries(rate, c) + Carries(rate, d)
  {
  }

  lemma CarriesMonotone(x: real, y: real, c: real, d: real)
    requires 0.0 <= c <= d && 0.0 <= x <= y
    ensures 0.0 <= Carries(x, c) <= Carries(y, d)
  {
    assert x * c <= y * c <= y * d;
  }

  lemma CarriesOrder(x: real, y: real, c: real)
    requires c > 0.0
    ensures x <= y <==> Carries(x, c) <= Carries(y, c)
  {
  }

  lemma CarriesRate(w: real, c: real)
    requires c > 0.0
    ensures Carries(Rate(w, c), c) == w
  {
  }

  lemma CarriesZero(rate: real)
    ensures Carries(rate, 0.0) == 0.0
  {
  }

  lemma {:induction false} SumAtLeastRate(loads: seq<real>, a: seq<nat>, capacity: seq<real>, n: nat, rate: real)
    requires |a| == |loads| && n <= |capacity|
    requires forall s: nat :: s < n ==> WeightOf(loads, a, s) >= Carries(rate, capacity[s])
    ensures SumShards(loads, a, n) >= Carries(rate, SumCapacity(capacity, n))
  {
    hide Carries;
    CarriesZero(rate);
    if n > 0 {
      SumAtLeastRate(loads, a, capacity, n - 1, rate);
      CarriesAdds(rate, SumCapacity(capacity, n - 1), capacity[n - 1]);
    }
  }

  lemma {:induction false} SumAtMostRate(loads: seq<real>, a: seq<nat>, capacity: seq<real>, n: nat, rate: real)
    requires |a| == |loads| && n <= |capacity|
    requires forall s: nat :: s < n ==> WeightOf(loads, a, s) <= Carries(rate, capacity[s])
    ensures SumShards(loads, a, n) <= Carries(rate, SumCapacity(capacity, n))
  {
    hide Carries;
    CarriesZero(rate);
    if n > 0 {
      SumAtMostRate(loads, a, capacity, n - 1, rate);
      CarriesAdds(rate, SumCapacity(capacity, n - 1), capacity[n - 1]);
    }
  }

  lemma {:induction false} SumCapacityPositive(capacity: seq<real>, n: nat)
    requires Positive(capacity) && 0 < n <= |capacity|
    ensures SumCapacity(capacity, n) > 0.0
  {
    if n > 1 { SumCapacityPositive(capacity, n - 1); }
  }

  // The lightest shard is no heavier per device than any other plan's bound.
  lemma LightestBelowBound(loads: seq<real>, earlier: seq<real>, a: seq<nat>, b: seq<nat>, capacity: seq<real>, t: real)
    requires loads != [] && Positive(capacity) && NonNegative(loads)
    requires earlier == loads[..|loads| - 1] && Assigns(earlier, a, |capacity|)
    requires Assigns(loads, b, |capacity|) && Fits(loads, b, capacity, t)
    ensures
      var s := Lightest(Weights(earlier, a, |capacity|), capacity, |capacity|);
      WeightOf(earlier, a, s) <= Carries(t, capacity[s])
  {
    hide Carries;
    hide Rate;
    hide Lightest;
    hide WeightOf;
    hide SumShards;
    hide SumCapacity;
    var m := |capacity|;
    var w := Weights(earlier, a, m);
    var s := Lightest(w, capacity, m);
    var rate := Rate(w[s], capacity[s]);
    forall i: nat | i < m ensures WeightOf(earlier, a, i) >= Carries(rate, capacity[i]) {
      CarriesOrder(rate, Rate(w[i], capacity[i]), capacity[i]);
      CarriesRate(w[i], capacity[i]);
    }
    SumAtLeastRate(earlier, a, capacity, m, rate);
    SumAtMostRate(loads, b, capacity, m, t);
    WeightsConserve(earlier, a, m);
    WeightsConserve(loads, b, m);
    SumCapacityPositive(capacity, m);
    CarriesOrder(rate, t, SumCapacity(capacity, m));
    CarriesOrder(rate, t, capacity[s]);
    CarriesRate(w[s], capacity[s]);
  }

  lemma BoundNonNegative(loads: seq<real>, capacity: seq<real>, b: seq<nat>, t: real)
    requires Positive(capacity) && NonNegative(loads) && |b| == |loads| && Fits(loads, b, capacity, t)
    ensures t >= 0.0
  {
    WeightNonNegative(loads, b, 0);
    CarriesOrder(0.0, t, capacity[0]);
  }

  /** Whatever the capacities, no shard carries more than any other plan's bound for it plus that
      plan's bound for the largest: a factor of one plus the ratio of the capacities. */
  lemma {:induction false} WithinCapacityRatio(loads: seq<real>, capacity: seq<real>, largest: real, b: seq<nat>, t: real)
    requires Positive(capacity) && NonNegative(loads)
    requires forall i :: 0 <= i < |capacity| ==> capacity[i] <= largest
    requires Assigns(loads, b, |capacity|) && Fits(loads, b, capacity, t)
    ensures forall s: nat :: s < |capacity| ==>
      WeightOf(loads, Greedy(loads, capacity), s) <= Carries(t, capacity[s]) + Carries(t, largest)
    decreases loads
  {
    hide Lightest;
    hide Carries;
    BoundNonNegative(loads, capacity, b, t);
    forall s: nat | s < |capacity| ensures 0.0 <= Carries(t, capacity[s]) <= Carries(t, largest) {
      CarriesMonotone(t, t, capacity[s], largest);
    }
    if loads != [] {
      var n, m := |loads| - 1, |capacity|;
      forall s: nat | s < m ensures WeightOf(loads[..n], b[..n], s) <= Carries(t, capacity[s]) {
        PrefixWeight(loads, b, s);
      }
      WithinCapacityRatio(loads[..n], capacity, largest, b[..n], t);
      var a := Greedy(loads[..n], capacity);
      LightestBelowBound(loads, loads[..n], a, b, capacity, t);
      PrefixAndLast(loads, b);
      assert Greedy(loads, capacity)[..n] == a;
    }
  }

  // ----- which shards get a camera at all -----

  lemma {:induction false} GreedyPrefix(loads: seq<real>, capacity: seq<real>, n: nat)
    requires Positive(capacity) && n <= |loads|
    ensures Greedy(loads, capacity)[..n] == Greedy(loads[..n], capacity)
    decreases loads
  {
    hide Lightest;
    if n < |loads| {
      var k := |loads| - 1;
      GreedyPrefix(loads[..k], capacity, n);
      assert loads[..k][..n] == loads[..n];
      assert Greedy(loads, capacity)[..k] == Greedy(loads[..k], capacity);
      assert Greedy(loads, capacity)[..k][..n] == Greedy(loads, capacity)[..n];
    } else {
      assert loads[..n] == loads;
    }
  }

  // Camera `i` of the ranking alone on shard `i`, and weightless ones from `zero` on.
  ghost predicate OneEach(loads: seq<real>, a: seq<nat>, zero: nat) {
    |a| == |loads|
    && (forall i :: 0 <= i < |a| ==> a[i] == if i < zero then i else zero)
    && (forall i :: 0 <= i < |a| ==> if i < zero then loads[i] > 0.0 else loads[i] == 0.0)
  }

  lemma {:induction false} OneEachWeight(loads: seq<real>, a: seq<nat>, zero: nat, s: nat)
    requires OneEach(loads, a, zero)
    ensures WeightOf(loads, a, s) == if s < zero && s < |loads| then loads[s] else 0.0
  {
    if loads != [] { OneEachWeight(loads[..|loads| - 1], a[..|a| - 1], zero, s); }
  }

  lemma RateSign(w: real, c: real)
    requires c > 0.0
    ensures w > 0.0 ==> Rate(w, c) > 0.0
    ensures w == 0.0 ==> Rate(w, c) == 0.0
  {
  }

  // The next camera goes to the first shard that carries nothing.
  lemma NextIsFirstFree(loads: seq<real>, a: seq<nat>, capacity: seq<real>, zero: nat)
    requires Positive(capacity) && OneEach(loads, a, zero)
    requires (if |loads| < zero then |loads| else zero) < |capacity|
    ensures Lightest(Weights(loads, a, |capacity|), capacity, |capacity|) == if |loads| < zero then |loads| else zero
  {
    hide Lightest;
    hide WeightOf;
    hide Rate;
    var free := if |loads| < zero then |loads| else zero;
    var w := Weights(loads, a, |capacity|);
    forall s: nat | s < |capacity| ensures if s < free then Rate(w[s], capacity[s]) > 0.0 else Rate(w[s], capacity[s]) == 0.0 {
      OneEachWeight(loads, a, zero, s);
      RateSign(w[s], capacity[s]);
    }
    var target := Lightest(w, capacity, |capacity|);
    assert Rate(w[target], capacity[target]) <= Rate(w[free], capacity[free]);
  }

  lemma {:induction false} GreedyOneEach(loads: seq<real>, capacity: seq<real>, zero: nat)
    requires Positive(capacity)
    requires |loads| <= |capacity| || zero < |capacity|
    requires forall i :: 0 <= i < |loads| ==> if i < zero then loads[i] > 0.0 else loads[i] == 0.0
    ensures OneEach(loads, Greedy(loads, capacity), zero)
    decreases loads
  {
    hide Lightest;
    hide WeightOf;
    if loads != [] {
      var n := |loads| - 1;
      GreedyOneEach(loads[..n], capacity, zero);
      NextIsFirstFree(loads[..n], Greedy(loads[..n], capacity), capacity, zero);
    }
  }

  /** A fleet of at least `m` ranked cameras leaves no shard without one exactly when all but one
      of its `m` heaviest cameras offer any load. */
  lemma EveryShardGetsACameraIff(loads: seq<real>, capacity: seq<real>)
    requires Positive(capacity) && |loads| >= |capacity| && Descending(loads) && NonNegative(loads)
    ensures (forall s: nat :: s < |capacity| ==> s in Greedy(loads, capacity))
      <==> |capacity| == 1 || loads[|capacity| - 2] > 0.0
  {
    hide Lightest;
    hide Greedy;
    var m := |capacity|;
    var a := Greedy(loads, capacity);
    if m == 1 || loads[m - 2] > 0.0 {
      var head := loads[..m];
      var zero := if head[m - 1] > 0.0 then m else m - 1;
      GreedyOneEach(head, capacity, zero);
      GreedyPrefix(loads, capacity, m);
      forall s: nat | s < m ensures s in a { assert a[..m][s] == s && a[s] == a[..m][s]; }
    } else {
      var zero := FirstZero(loads, m - 2);
      GreedyOneEach(loads, capacity, zero);
      assert m - 1 !in a;
    }
  }

  lemma {:induction false} FirstZero(loads: seq<real>, k: nat) returns (zero: nat)
    requires k < |loads| && loads[k] == 0.0 && Descending(loads) && NonNegative(loads)
    ensures zero <= k
    ensures forall i :: 0 <= i < |loads| ==> if i < zero then loads[i] > 0.0 else loads[i] == 0.0
    decreases k
  {
    if k == 0 || loads[k - 1] > 0.0 { zero := k; } else { zero := FirstZero(loads, k - 1); }
  }

  // ----- devices -----

  // Where shard `i`'s devices start, when there are fewer shards than devices.
  function Start(shards: nat, gpus: nat, i: nat): nat
    requires shards > 0
  {
    i * (gpus / shards) + (if i < gpus % shards then i else gpus % shards)
  }

  // The positions, in the list of devices, that shard `i` owns.
  function Devices(shards: nat, gpus: nat, i: nat): (d: seq<nat>)
    requires i < shards && gpus > 0
  {
    if shards >= gpus then [i % gpus]
    else
      Consecutive(Start(shards, gpus, i), gpus / shards + (if i < gpus % shards then 1 else 0))
  }

  function Consecutive(from: nat, size: nat): (d: seq<nat>)
    ensures |d| == size && forall k :: 0 <= k < size ==> d[k] == from + k
    ensures forall p :: p in d <==> from <= p < from + size
    decreases size
  {
    if size == 0 then [] else [from] + Consecutive(from + 1, size - 1)
  }

  // How many of the first `n` shards own device `p`.
  function Owners(shards: nat, gpus: nat, n: nat, p: nat): nat
    requires n <= shards && gpus > 0
  {
    if n == 0 then 0
    else Owners(shards, gpus, n - 1, p) + (if p in Devices(shards, gpus, n - 1) then 1 else 0)
  }

  lemma StartNext(shards: nat, gpus: nat, i: nat)
    requires i < shards
    ensures Start(shards, gpus, i + 1) == Start(shards, gpus, i) + gpus / shards + (if i < gpus % shards then 1 else 0)
    ensures Start(shards, gpus, shards) == gpus
  {
    assert (i + 1) * (gpus / shards) == i * (gpus / shards) + gpus / shards;
    assert shards * (gpus / shards) + gpus % shards == gpus;
  }

  // Fewer shards than devices: contiguous groups, each device in exactly one of them.
  lemma {:induction false} GroupedOwners(shards: nat, gpus: nat, n: nat, p: nat)
    requires 0 < shards < gpus && n <= shards
    ensures Owners(shards, gpus, n, p) == if p < Start(shards, gpus, n) then 1 else 0
  {
    hide Start;
    if n == 0 {
      StartZero(shards, gpus);
    } else {
      GroupedOwners(shards, gpus, n - 1, p);
      StartNext(shards, gpus, n - 1);
    }
  }

  lemma StartZero(shards: nat, gpus: nat)
    requires shards > 0
    ensures Start(shards, gpus, 0) == 0
  {
  }

  lemma MulOrder(a: int, b: int, g: nat)
    ensures a < b ==> (a + 1) * g <= b * g
  {
  }

  lemma DivIs(x: nat, k: nat, g: nat, r: nat)
    requires r < g && x == k * g + r
    ensures x / g == k && x % g == r
  {
    assert x == (x / g) * g + x % g;
    MulOrder(k, x / g, g);
    MulOrder(x / g, k, g);
  }

  lemma DivNext(n: nat, g: nat)
    requires g > 0
    ensures n % g == g - 1 ==> (n + 1) / g == n / g + 1 && (n + 1) % g == 0
    ensures n % g < g - 1 ==> (n + 1) / g == n / g && (n + 1) % g == n % g + 1
  {
    var k, r := n / g, n % g;
    assert n == k * g + r;
    if r == g - 1 {
      assert n + 1 == (k + 1) * g + 0;
      DivIs(n + 1, k + 1, g, 0);
    } else {
      DivIs(n + 1, k, g, r + 1);
    }
  }

  lemma AtLeastOnce(n: nat, g: nat)
    requires 0 < g <= n
    ensures n / g >= 1
  {
    assert n == (n / g) * g + n % g;
  }

  // At least as many shards as devices: dealt round-robin.
  lemma {:induction false} DealtOwners(shards: nat, gpus: nat, n: nat, p: nat)
    requires p < gpus <= shards && n <= shards
    ensures Owners(shards, gpus, n, p) == n / gpus + (if p < n % gpus then 1 else 0)
  {
    if n == 0 {
      DivIs(0, 0, gpus, 0);
    } else {
      DealtOwners(shards, gpus, n - 1, p);
      DivNext(n - 1, gpus);
    }
  }

  // A shard's share of its devices.
  function CapacityFrom(shards: nat, gpus: nat, d: seq<nat>): real
    requires shards > 0 && gpus > 0 && forall p :: p in d ==> Owners(shards, gpus, shards, p) > 0
  {
    if d == [] then 0.0
    else 1.0 / Owners(shards, gpus, shards, d[0]) as real + CapacityFrom(shards, gpus, d[1..])
  }

  /** No device is left idle, and a device is shared by a shard more than another at most. */
  lemma EveryDeviceOwned(shards: nat, gpus: nat, p: nat)
    requires shards > 0 && p < gpus
    ensures
      var owners := Owners(shards, gpus, shards, p);
      if shards < gpus then owners == 1
      else owners == shards / gpus + (if p < shards % gpus then 1 else 0) && owners >= 1
  {
    hide Owners;
    hide Start;
    if shards < gpus {
      GroupedOwners(shards, gpus, shards, p);
      StartNext(shards, gpus, 0);
    } else {
      DealtOwners(shards, gpus, shards, p);
      AtLeastOnce(shards, gpus);
    }
  }

  lemma DevicesOwned(shards: nat, gpus: nat, i: nat)
    requires i < shards && gpus > 0
    ensures forall p :: p in Devices(shards, gpus, i) ==> p < gpus && Owners(shards, gpus, shards, p) > 0
    ensures |Devices(shards, gpus, i)| > 0
  {
    forall p | p in Devices(shards, gpus, i) ensures p < gpus && Owners(shards, gpus, shards, p) > 0 {
      if shards < gpus {
        StartNext(shards, gpus, i);
        StartGrows(shards, gpus, i + 1, shards);
        StartNext(shards, gpus, 0);
      }
      EveryDeviceOwned(shards, gpus, p);
    }
    if shards < gpus { AtLeastOnce(gpus, shards); }
  }

  lemma {:induction false} StartGrows(shards: nat, gpus: nat, i: nat, j: nat)
    requires 0 < shards && i <= j <= shards
    ensures Start(shards, gpus, i) <= Start(shards, gpus, j)
    decreases j - i
  {
    hide Start;
    if i < j {
      StartNext(shards, gpus, i);
      StartGrows(shards, gpus, i + 1, j);
    }
  }

  lemma {:induction false} UniformCapacity(shards: nat, gpus: nat, d: seq<nat>, k: nat)
    requires shards > 0 && gpus > 0 && k > 0 && forall p :: p in d ==> Owners(shards, gpus, shards, p) == k
    ensures CapacityFrom(shards, gpus, d) == |d| as real * (1.0 / k as real)
  {
    hide Owners;
    if d != [] {
      assert d[0] in d;
      UniformCapacity(shards, gpus, d[1..], k);
      var unit := 1.0 / k as real;
      assert |d| as real * unit == |d[1..]| as real * unit + unit;
    }
  }

  function Capacity(shards: nat, gpus: nat): (c: seq<real>)
    requires shards > 0 && gpus > 0
    ensures |c| == shards
  {
    seq(shards, i requires 0 <= i < shards => DevicesOwned(shards, gpus, i); CapacityFrom(shards, gpus, Devices(shards, gpus, i)))
  }

  /** A shard's capacity: the devices it owns alone, or its part of the one it shares. */
  lemma {:induction false} CapacityValue(shards: nat, gpus: nat, i: nat)
    requires i < shards && gpus > 0
    ensures shards < gpus ==> Capacity(shards, gpus)[i] == (gpus / shards + (if i < gpus % shards then 1 else 0)) as real
    ensures shards >= gpus ==>
      shards / gpus >= 1
      && Capacity(shards, gpus)[i] == 1.0 / (shards / gpus + (if i % gpus < shards % gpus then 1 else 0)) as real
    ensures Capacity(shards, gpus)[i] > 0.0
  {
    hide Owners;
    hide CapacityFrom;
    hide Start;
    DevicesOwned(shards, gpus, i);
    var d := Devices(shards, gpus, i);
    assert d[0] in d;
    SameOwners(shards, gpus, i);
    EveryDeviceOwned(shards, gpus, d[0]);
    UniformCapacity(shards, gpus, d, Owners(shards, gpus, shards, d[0]));
    if shards >= gpus { AtLeastOnce(shards, gpus); }
  }

  // The devices of one shard are all shared by as many.
  lemma {:induction false} SameOwners(shards: nat, gpus: nat, i: nat)
    requires i < shards && gpus > 0
    ensures
      var d := Devices(shards, gpus, i);
      |d| > 0 && forall p :: p in d ==> Owners(shards, gpus, shards, p) == Owners(shards, gpus, shards, d[0])
  {
    hide Owners;
    hide Start;
    DevicesOwned(shards, gpus, i);
    var d := Devices(shards, gpus, i);
    assert d[0] in d;
    EveryDeviceOwned(shards, gpus, d[0]);
    forall p | p in d ensures Owners(shards, gpus, shards, p) == Owners(shards, gpus, shards, d[0]) {
      EveryDeviceOwned(shards, gpus, p);
    }
  }

  // Shards that divide over the devices, or devices over the shards, all have one capacity.
  lemma CapacityEven(shards: nat, gpus: nat, i: nat)
    requires i < shards && gpus > 0 && (shards % gpus == 0 || gpus % shards == 0)
    ensures Capacity(shards, gpus)[i] == Capacity(shards, gpus)[0] > 0.0
  {
    hide Capacity;
    CapacityValue(shards, gpus, i);
    CapacityValue(shards, gpus, 0);
    if shards < gpus {
      DivIs(shards, 0, gpus, shards);
    } else if gpus < shards {
      DivIs(gpus, 0, shards, gpus);
    } else {
      DivIs(shards, 1, gpus, 0);
    }
  }

  /** The plan's bound: where the shards divide over the devices, or the devices over the shards,
      every plan of the same fleet has a shard at least 3m/(4m - 1) as busy as the busiest here. */
  lemma PlanWithinFourThirds(loads: seq<real>, shards: nat, gpus: nat, b: seq<nat>, bound: real)
    requires shards > 0 && gpus > 0 && (shards % gpus == 0 || gpus % shards == 0)
    requires Descending(loads) && NonNegative(loads) && Assigns(loads, b, shards)
    requires forall s: nat :: s < shards ==> WeightOf(loads, b, s) <= bound
    ensures Positive(Capacity(shards, gpus))
    ensures forall s: nat :: s < shards ==>
      FourThirds(shards, WeightOf(loads, Greedy(loads, Capacity(shards, gpus)), s), bound)
  {
    hide Capacity;
    hide Greedy;
    hide FourThirds;
    hide WeightOf;
    var capacity := Capacity(shards, gpus);
    forall i | 0 <= i < shards ensures capacity[i] == capacity[0] > 0.0 { CapacityEven(shards, gpus, i); }
    WithinFourThirds(loads, capacity, capacity[0], b, bound);
  }

  // ----- where the 4/3 fails -----

  lemma {:induction false} OnlyOne(loads: seq<real>, a: seq<nat>, s: nat, i: nat)
    requires |a| == |loads| && i < |a| && a[i] == s && forall j :: 0 <= j < |a| && j != i ==> a[j] != s
    ensures WeightOf(loads, a, s) == loads[i]
  {
    var n := |loads| - 1;
    if i == n { NoneOn(loads[..n], a[..n], s); } else { OnlyOne(loads[..n], a[..n], s, i); }
  }

  lemma {:induction false} NoneOn(loads: seq<real>, a: seq<nat>, s: nat)
    requires |a| == |loads| && forall j :: 0 <= j < |a| ==> a[j] != s
    ensures WeightOf(loads, a, s) == 0.0
  {
    if loads != [] { NoneOn(loads[..|loads| - 1], a[..|a| - 1], s); }
  }

  // One camera of load 2, and as many of load 1 as fill the other shards.
  function OneBusyCamera(shards: nat): (loads: seq<real>)
    requires shards > 0
    ensures |loads| == shards && loads[0] == 2.0 && forall i :: 0 < i < shards ==> loads[i] == 1.0
  {
    seq(shards, i => if i == 0 then 2.0 else 1.0)
  }

  // Camera `i` on shard `i`, but for the first and the `r`-th, which trade places.
  function Traded(shards: nat, r: nat): (b: seq<nat>)
    requires 0 < r < shards
    ensures |b| == shards && b[0] == r && b[r] == 0
    ensures forall i :: 0 < i < shards && i != r ==> b[i] == i
  {
    seq(shards, (i: nat) => if i == 0 then r else if i == r then 0 else i)
  }

  /** With more shards than devices, fewer than three times as many, and some devices shared by a
      shard more than others, the plan is not within 4/3 of the best: the busiest camera is dealt
      to a shard that shares its device. */
  lemma UnevenSharingBreaksFourThirds(shards: nat, gpus: nat)
    requires 0 < gpus < shards < 3 * gpus && shards % gpus != 0
    ensures
      var loads, capacity := OneBusyCamera(shards), Capacity(shards, gpus);
      var b, t := Traded(shards, shards % gpus), 2.0 * (shards / gpus) as real;
      && Positive(capacity) && Descending(loads) && Assigns(loads, b, shards) && Fits(loads, b, capacity, t)
      && 3.0 * WeightOf(loads, Greedy(loads, capacity), 0) > 4.0 * Carries(t, capacity[0])
  {
    hide Capacity;
    hide Greedy;
    hide WeightOf;
    hide Carries;
    var loads, capacity := OneBusyCamera(shards), Capacity(shards, gpus);
    var q, r := shards / gpus, shards % gpus;
    SharedTwiceOrThrice(shards, gpus);
    var b, t := Traded(shards, r), 2.0 * q as real;
    forall s: nat | s < shards ensures capacity[s] > 0.0 { CapacityValue(shards, gpus, s); }
    GreedyOneEach(loads, capacity, shards);
    OneEachWeight(loads, Greedy(loads, capacity), shards, 0);
    forall s: nat | s < shards ensures WeightOf(loads, b, s) <= Carries(t, capacity[s]) {
      OnlyOne(loads, b, s, if s == r then 0 else if s == 0 then r else s);
      TradeFits(shards, gpus, s);
    }
    TradeFits(shards, gpus, 0);
  }

  lemma TradeFits(shards: nat, gpus: nat, s: nat)
    requires 0 < gpus < shards < 3 * gpus && shards % gpus != 0 && s < shards
    ensures
      var carried := Carries(2.0 * (shards / gpus) as real, Capacity(shards, gpus)[s]);
      carried >= 1.0 && (s == shards % gpus ==> carried >= 2.0) && (s == 0 ==> 4.0 * carried < 6.0)
  {
    hide Capacity;
    SharedTwiceOrThrice(shards, gpus);
    CapacityValue(shards, gpus, s);
    if s < gpus { DivIs(s, 0, gpus, s); }
  }

  lemma SharedTwiceOrThrice(shards: nat, gpus: nat)
    requires 0 < gpus < shards < 3 * gpus && shards % gpus != 0
    ensures 1 <= shards / gpus <= 2 && 0 < shards % gpus < gpus
  {
    assert shards == (shards / gpus) * gpus + shards % gpus;
    MulOrder(2, shards / gpus, gpus);
    MulOrder(shards / gpus, 1, gpus);
  }

  // ----- the balancing loop -----

  // The cameras, by rank, that an assignment gives to shard `s`.
  function Members(a: seq<nat>, s: nat): seq<nat> {
    if a == [] then []
    else Members(a[..|a| - 1], s) + (if a[|a| - 1] == s then [|a| - 1] else [])
  }

  method LightestShard(weights: seq<real>, capacity: seq<real>) returns (target: nat)
    requires |weights| == |capacity| && Positive(capacity)
    ensures target == Lightest(weights, capacity, |capacity|)
  {
    hide Rate;
    var i := 1;
    target := 0;
    while i < |capacity|
      invariant 1 <= i <= |capacity|
      invariant target == Lightest(weights, capacity, i)
    {
      if Rate(weights[i], capacity[i]) < Rate(weights[target], capacity[target]) { target := i; }
      i := i + 1;
    }
  }

  lemma GreedyNext(loads: seq<real>, capacity: seq<real>, n: nat)
    requires Positive(capacity) && n < |loads|
    ensures
      var a := Greedy(loads[..n], capacity);
      Greedy(loads[..n + 1], capacity) == a + [Lightest(Weights(loads[..n], a, |capacity|), capacity, |capacity|)]
  {
    assert loads[..n + 1][..n] == loads[..n];
  }

  lemma ShardNext(loads: seq<real>, a: seq<nat>, n: nat, target: nat, s: nat)
    requires |a| == n < |loads|
    ensures Members(a + [target], s) == Members(a, s) + (if s == target then [n] else [])
    ensures WeightOf(loads[..n + 1], a + [target], s) == WeightOf(loads[..n], a, s) + (if s == target then loads[n] else 0.0)
  {
    assert loads[..n + 1][..n] == loads[..n];
    assert (a + [target])[..n] == a;
  }

  /** Give each ranked camera in turn to the shard that is lightest per unit of device. */
  method Balance(loads: seq<real>, capacity: seq<real>) returns (buckets: seq<seq<nat>>, weights: seq<real>)
    requires Positive(capacity)
    ensures |buckets| == |weights| == |capacity|
    ensures forall s :: 0 <= s < |capacity| ==> buckets[s] == Members(Greedy(loads, capacity), s)
    ensures forall s :: 0 <= s < |capacity| ==> weights[s] == WeightOf(loads, Greedy(loads, capacity), s)
  {
    hide Lightest;
    buckets := seq(|capacity|, _ => []);
    weights := seq(|capacity|, _ => 0.0);
    var n := 0;
    while n < |loads|
      invariant 0 <= n <= |loads| && |buckets| == |weights| == |capacity|
      invariant forall s :: 0 <= s < |capacity| ==> buckets[s] == Members(Greedy(loads[..n], capacity), s)
      invariant forall s :: 0 <= s < |capacity| ==> weights[s] == WeightOf(loads[..n], Greedy(loads[..n], capacity), s)
    {
      ghost var a := Greedy(loads[..n], capacity);
      assert weights == Weights(loads[..n], a, |capacity|);
      var target := LightestShard(weights, capacity);
      GreedyNext(loads, capacity, n);
      forall s: nat ensures Members(a + [target], s) == Members(a, s) + (if s == target then [n] else [])
        ensures WeightOf(loads[..n + 1], a + [target], s) == WeightOf(loads[..n], a, s) + (if s == target then loads[n] else 0.0) {
        ShardNext(loads, a, n, target, s);
      }
      hide Members;
      hide WeightOf;
      hide Greedy;
      hide Weights;
      buckets := buckets[target := buckets[target] + [n]];
      weights := weights[target := weights[target] + loads[n]];
      n := n + 1;
    }
    assert loads[..n] == loads;
  }
}
