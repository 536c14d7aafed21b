/** Plans whose shards have different shares of the devices: how far from the best they can be. */
module UnevenSharding {
  import opened Sharding

  // ----- where capacities differ by at most a half -----

  // No capacity is below two thirds of the largest.
  ghost predicate Close(capacity: seq<real>, largest: real) {
    forall i :: 0 <= i < |capacity| ==> 2.0 * largest <= 3.0 * capacity[i] && capacity[i] <= largest
  }

  lemma RateScales(x: real, y: real, c: real, d: real)
    requires c > 0.0 && d > 0.0 && Rate(x, c) <= Rate(y, d)
    ensures Carries(x, d) <= Carries(y, c)
  {
    assert x / c * (c * d) <= y / d * (c * d);
    assert x / c * (c * d) == x * d && y / d * (c * d) == y * c;
  }

  // A shard of capacity `c`, no busier than one of capacity `d` on which `p` would still fit below
  // `top`, takes `p` within `top`, or within a share of it larger in proportion.
  lemma LighterTakes(w: real, v: real, p: real, c: real, d: real, top: real)
    requires c > 0.0 && d > 0.0 && w * d <= v * c && v + p <= top && 0.0 <= p <= top
    ensures d * (w + p) <= c * top + p * (d - c)
    ensures c <= d ==> w + p <= top
  {
    assert v * c <= (top - p) * c;
    assert d * (w + p) == w * d + p * d;
    if c <= d {
      assert (top - p) * c <= (top - p) * d;
      assert d * (w + p) <= d * top;
    }
  }

  // The proportional share, with `p` above a third of `top` and `d` at least two thirds of the largest.
  lemma ShareIsClose(w: real, p: real, c: real, d: real, largest: real, t: real)
    requires 0.0 < d < c <= largest && 2.0 * largest <= 3.0 * d && t >= 0.0
    requires 3.0 * p > largest * t && d * (w + p) <= c * (largest * t) + p * (d - c)
    ensures w + p <= t * c + t * largest / 3.0
  {
    var top := largest * t;
    assert p * (d - c) <= (top / 3.0) * (d - c) by { assert (p - top / 3.0) * (c - d) >= 0.0; }
    calc {
      d * (w + p);
      <=
      c * top + (top / 3.0) * (d - c);
      ==
      (2.0 * top / 3.0) * c + (top / 3.0) * d;
    }
    assert (2.0 * top / 3.0) * c <= (t * d) * c by {
      assert 2.0 * top / 3.0 == t * (2.0 * largest / 3.0);
      assert t * (2.0 * largest / 3.0) <= t * d;
    }
    assert d * (w + p) <= d * (t * c + top / 3.0);
  }

  lemma LandsBelow(w: real, v: real, p: real, c: real, d: real, largest: real, t: real)
    requires 0.0 < c <= largest && 0.0 < d <= largest && 2.0 * largest <= 3.0 * c && 2.0 * largest <= 3.0 * d
    requires Rate(w, c) <= Rate(v, d) && t >= 0.0
    requires v + p <= Carries(t, largest) && 0.0 <= p <= Carries(t, largest) < 3.0 * p
    ensures w + p <= Carries(t, c) + Carries(t, largest) / 3.0
    ensures c <= d ==> w + p <= Carries(t, largest)
  {
    RateScales(w, v, c, d);
    hide Rate;
    LighterTakes(w, v, p, c, d, Carries(t, largest));
    if d < c {
      ShareIsClose(w, p, c, d, largest, t);
    } else {
      CarriesMonotone(t, t, 2.0 * largest, 3.0 * c);
      assert Carries(t, 2.0 * largest) == 2.0 * Carries(t, largest) && Carries(t, 3.0 * c) == 3.0 * Carries(t, c);
    }
  }

  // Shard `s` is no busier per unit of device than any other.
  ghost predicate IsLightest(loads: seq<real>, a: seq<nat>, capacity: seq<real>, s: nat)
    requires |a| == |loads| && Positive(capacity)
  {
    s < |capacity| && forall u: nat :: u < |capacity| ==>
      Rate(WeightOf(loads, a, s), capacity[s]) <= Rate(WeightOf(loads, a, u), capacity[u])
  }

  // A camera above a third of the largest shard's bound lands where it almost fits.
  lemma LargeLands(loads: seq<real>, earlier: seq<real>, a: seq<nat>, b: seq<nat>, capacity: seq<real>, largest: real, t: real, s: nat)
    requires loads != [] && Positive(capacity) && Close(capacity, largest) && Descending(loads) && NonNegative(loads)
    requires earlier == loads[..|loads| - 1] && Assigns(earlier, a, |capacity|) && IsLightest(earlier, a, capacity, s)
    requires Assigns(loads, b, |capacity|) && Fits(loads, b, capacity, t) && t >= 0.0
    requires 3.0 * loads[|loads| - 1] > Carries(t, largest)
    ensures WeightOf(earlier, a, s) + loads[|loads| - 1] <= Carries(t, capacity[s]) + Carries(t, largest) / 3.0
    ensures (forall i :: 0 <= i < |capacity| ==> capacity[s] <= capacity[i]) ==>
      WeightOf(earlier, a, s) + loads[|loads| - 1] <= Carries(t, largest)
  {
    hide Carries;
    hide Rate;
    var top, p := Carries(t, largest), loads[|loads| - 1];
    forall u: nat | u < |capacity| ensures WeightOf(loads, b, u) <= top && 0.0 <= top {
      CarriesMonotone(t, t, capacity[u], largest);
    }
    PrefixAndLast(loads, b);
    hide WeightOf;
    var u := LargeCameraFits(loads, a, b, |capacity|, top);
    var w, v, c, d := WeightOf(earlier, a, s), WeightOf(earlier, a, u), capacity[s], capacity[u];
    hide *;
    LandsBelow(w, v, p, c, d, largest, t);
  }

  /** Largest first, wherever no shard has less than two thirds of the largest share of the devices:
      no shard carries more than any other plan's bound for it and a third of that plan's bound for
      the largest shard. For equal shares this is the 4/3. */
  lemma {:induction false} WithinThirdOfLargest(loads: seq<real>, capacity: seq<real>, largest: real, b: seq<nat>, t: real)
    requires Positive(capacity) && Close(capacity, largest) && Descending(loads) && NonNegative(loads)
    requires Assigns(loads, b, |capacity|) && Fits(loads, b, capacity, t)
    ensures forall s: nat :: s < |capacity| ==>
      WeightOf(loads, Greedy(loads, capacity), s) <= Carries(t, capacity[s]) + Carries(t, largest) / 3.0
    decreases loads
  {
    hide Lightest;
    hide Carries;
    BoundNonNegative(loads, capacity, b, t);
    forall s: nat | s < |capacity| ensures 0.0 <= Carries(t, capacity[s]) <= Carries(t, largest) {
      CarriesMonotone(t, t, capacity[s], largest);
    }
    if loads != [] {
      var n, m := |loads| - 1, |capacity|;
      forall s: nat | s < m ensures WeightOf(loads[..n], b[..n], s) <= Carries(t, capacity[s]) {
        PrefixWeight(loads, b, s);
      }
      WithinThirdOfLargest(loads[..n], capacity, largest, b[..n], t);
      var a := Greedy(loads[..n], capacity);
      NextTarget(loads, a, b, capacity, largest, t);
      assert Greedy(loads, capacity)[..n] == a;
    }
  }

  lemma NextTarget(loads: seq<real>, a: seq<nat>, b: seq<nat>, capacity: seq<real>, largest: real, t: real)
    requires loads != [] && Positive(capacity) && Close(capacity, largest) && Descending(loads) && NonNegative(loads)
    requires Assigns(loads[..|loads| - 1], a, |capacity|)
    requires Assigns(loads, b, |capacity|) && Fits(loads, b, capacity, t) && t >= 0.0
    ensures
      var earlier := loads[..|loads| - 1];
      var s := Lightest(Weights(earlier, a, |capacity|), capacity, |capacity|);
      WeightOf(earlier, a, s) + loads[|loads| - 1] <= Carries(t, capacity[s]) + Carries(t, largest) / 3.0
  {
    hide Carries;
    hide Rate;
    hide WeightOf;
    var earlier := loads[..|loads| - 1];
    var s := Lightest(Weights(earlier, a, |capacity|), capacity, |capacity|);
    if 3.0 * loads[|loads| - 1] > Carries(t, largest) {
      LargeLands(loads, earlier, a, b, capacity, largest, t, s);
    } else {
      LightestBelowBound(loads, earlier, a, b, capacity, t);
    }
  }

  // The largest share of the devices any shard has.
  function LargestShare(shards: nat, gpus: nat): real
    requires shards > 0 && gpus > 0
  {
    if shards >= gpus then 1.0 / (shards / gpus) as real
    else if gpus % shards == 0 then (gpus / shards) as real else (gpus / shards + 1) as real
  }

  lemma SharesAreClose(shards: nat, gpus: nat, i: nat)
    requires i < shards && gpus > 0 && (2 * gpus <= shards || 2 * shards <= gpus)
    ensures
      var c, largest := Capacity(shards, gpus)[i], LargestShare(shards, gpus);
      0.0 < c <= largest && 2.0 * largest <= 3.0 * c
  {
    hide Capacity;
    CapacityValue(shards, gpus, i);
    if shards >= gpus {
      TwiceAtLeast(shards, gpus);
      var q := (shards / gpus) as real;
      Reciprocals(q);
    } else {
      TwiceAtLeast(gpus, shards);
    }
  }

  lemma TwiceAtLeast(n: nat, g: nat)
    requires 0 < g && 2 * g <= n
    ensures n / g >= 2
  {
    assert n == (n / g) * g + n % g;
    MulOrder(n / g, 2, g);
  }

  lemma Reciprocals(q: real)
    requires q >= 2.0
    ensures 0.0 < 1.0 / (q + 1.0) <= 1.0 / q && 2.0 * (1.0 / q) <= 3.0 * (1.0 / (q + 1.0))
  {
    var x, y := 1.0 / q, 1.0 / (q + 1.0);
    assert x * q == 1.0 && y * (q + 1.0) == 1.0;
    assert y * (q + 1.0) == y * q + y;
    assert (3.0 * y - 2.0 * x) * q == 3.0 - 3.0 * y - 2.0 && y <= 1.0 / 3.0;
  }

  /** Whenever there are at least twice as many shards as devices, or devices as shards, even or not:
      no shard of the plan carries more than any other plan's bound for it and a third of that plan's
      bound for the largest share, and so never more than 3/2 of the bound for it. */
  lemma PlanWithinThirdOfLargest(loads: seq<real>, shards: nat, gpus: nat, b: seq<nat>, t: real)
    requires shards > 0 && gpus > 0 && (2 * gpus <= shards || 2 * shards <= gpus)
    requires Descending(loads) && NonNegative(loads) && Assigns(loads, b, shards)
    requires Fits(loads, b, Capacity(shards, gpus), t)
    ensures Positive(Capacity(shards, gpus))
    ensures forall s: nat :: s < shards ==>
      var w, bound := WeightOf(loads, Greedy(loads, Capacity(shards, gpus)), s), Carries(t, Capacity(shards, gpus)[s]);
      w <= bound + Carries(t, LargestShare(shards, gpus)) / 3.0 && 2.0 * w <= 3.0 * bound
  {
    var capacity, largest := Capacity(shards, gpus), LargestShare(shards, gpus);
    forall i: nat | i < shards ensures 0.0 < capacity[i] <= largest && 2.0 * largest <= 3.0 * capacity[i] {
      SharesAreClose(shards, gpus, i);
    }
    hide Capacity;
    hide LargestShare;
    hide Greedy;
    hide WeightOf;
    WithinThirdOfLargest(loads, capacity, largest, b, t);
    BoundNonNegative(loads, capacity, b, t);
    forall s: nat | s < shards ensures Carries(t, largest) / 3.0 <= Carries(t, capacity[s]) / 2.0 {
      TwoThirds(t, capacity[s], largest);
    }
  }

  lemma TwoThirds(t: real, c: real, largest: real)
    requires t >= 0.0 && 2.0 * largest <= 3.0 * c
    ensures Carries(t, largest) / 3.0 <= Carries(t, c) / 2.0
  {
    assert t * (2.0 * largest) <= t * (3.0 * c);
  }

  /** The 3/2 is attained: with between two and three shards to a device, the busiest camera is dealt
      to a shard that shares its device with two others. */
  lemma ThreeHalvesAttained(shards: nat, gpus: nat)
    requires 0 < 2 * gpus < shards < 3 * gpus
    ensures
      var loads, capacity := OneBusyCamera(shards), Capacity(shards, gpus);
      var b, t := Traded(shards, shards - 2 * gpus), 4.0;
      && Positive(capacity) && Assigns(loads, b, shards) && Fits(loads, b, capacity, t)
      && 2.0 * WeightOf(loads, Greedy(loads, capacity), 0) == 3.0 * Carries(t, capacity[0])
  {
    hide Capacity;
    hide Greedy;
    hide WeightOf;
    DivIs(shards, 2, gpus, shards - 2 * gpus);
    UnevenSharingBreaksFourThirds(shards, gpus);
    CapacityValue(shards, gpus, 0);
    DivIs(0, 0, gpus, 0);
    GreedyOneEach(OneBusyCamera(shards), Capacity(shards, gpus), shards);
    OneEachWeight(OneBusyCamera(shards), Greedy(OneBusyCamera(shards), Capacity(shards, gpus)), shards, 0);
  }

  // ----- few shards on many devices -----

  // Two capacities, no further apart than 3 to 4, and so few shards that a third of the larger bound
  // is at most a third of the smaller one and what the last camera itself adds to the mean.
  ghost predicate Few(capacity: seq<real>, small: real, large: real) {
    && 0.0 < small <= large && 3.0 * large <= 4.0 * small
    && (forall i :: 0 <= i < |capacity| ==> capacity[i] == small || capacity[i] == large)
    && large * (SumCapacity(capacity, |capacity|) - small) <= small * SumCapacity(capacity, |capacity|)
  }

  // The lightest shard's rate leaves room below the bound for the last camera, spread over all devices.
  lemma MeanLeavesRoom(loads: seq<real>, earlier: seq<real>, a: seq<nat>, b: seq<nat>, capacity: seq<real>, t: real, s: nat)
    requires loads != [] && Positive(capacity) && NonNegative(loads)
    requires earlier == loads[..|loads| - 1] && Assigns(earlier, a, |capacity|) && IsLightest(earlier, a, capacity, s)
    requires Assigns(loads, b, |capacity|) && Fits(loads, b, capacity, t)
    ensures
      var all := SumCapacity(capacity, |capacity|);
      all > 0.0 && Carries(Rate(WeightOf(earlier, a, s), capacity[s]), all) + loads[|loads| - 1] <= Carries(t, all)
  {
    hide Carries;
    hide Rate;
    hide WeightOf;
    hide SumShards;
    hide SumCapacity;
    var m := |capacity|;
    var rate := Rate(WeightOf(earlier, a, s), capacity[s]);
    forall i: nat | i < m ensures WeightOf(earlier, a, i) >= Carries(rate, capacity[i]) {
      CarriesOrder(rate, Rate(WeightOf(earlier, a, i), capacity[i]), capacity[i]);
      CarriesRate(WeightOf(earlier, a, i), capacity[i]);
    }
    SumAtLeastRate(earlier, a, capacity, m, rate);
    SumAtMostRate(loads, b, capacity, m, t);
    WeightsConserve(earlier, a, m);
    WeightsConserve(loads, b, m);
    SumCapacityPositive(capacity, m);
  }

  lemma RoomIsEnough(rate: real, p: real, small: real, large: real, all: real, t: real)
    requires 0.0 < small <= large && all > 0.0 && large * (all - small) <= small * all
    requires rate * all + p <= t * all && 0.0 <= 3.0 * p <= t * large && t >= 0.0
    ensures 3.0 * (rate * small + p) <= 4.0 * (t * small)
  {
    if all <= small {
      assert p * (all - small) <= 0.0;
    } else {
      assert (t * large - 3.0 * p) * (all - small) >= 0.0;
      assert t * (large * (all - small)) <= t * (small * all);
    }
    assert 3.0 * p * (all - small) <= t * (small * all) by {
      if all > small {
        assert 3.0 * p * (all - small) <= t * large * (all - small);
        assert t * large * (all - small) == t * (large * (all - small));
      } else {
        assert t * (small * all) >= 0.0;
      }
    }
    assert small * (rate * all + p) <= small * (t * all);
    Gather(rate, p, small, all, t);
  }

  lemma Gather(rate: real, p: real, small: real, all: real, t: real)
    requires all > 0.0 && small * (rate * all + p) <= small * (t * all) && 3.0 * p * (all - small) <= t * (small * all)
    ensures 3.0 * (rate * small + p) <= 4.0 * (t * small)
  {
    var x, y := 3.0 * (rate * small + p), 4.0 * (t * small);
    calc {
      all * x;
      ==
      3.0 * (rate * small * all) + 3.0 * p * all;
      ==
      3.0 * (small * (rate * all + p)) + 3.0 * p * (all - small);
      <=
      3.0 * (small * (t * all)) + t * (small * all);
      ==
      all * y;
    }
    CarriesOrder(x, y, all);
  }

  lemma FewTarget(loads: seq<real>, a: seq<nat>, b: seq<nat>, capacity: seq<real>, small: real, large: real, t: real, s: nat)
    requires loads != [] && Positive(capacity) && Few(capacity, small, large) && Descending(loads) && NonNegative(loads)
    requires Assigns(loads[..|loads| - 1], a, |capacity|) && IsLightest(loads[..|loads| - 1], a, capacity, s)
    requires Assigns(loads, b, |capacity|) && Fits(loads, b, capacity, t) && t >= 0.0
    ensures 3.0 * (WeightOf(loads[..|loads| - 1], a, s) + loads[|loads| - 1]) <= 4.0 * Carries(t, capacity[s])
  {
    hide Carries;
    hide Rate;
    hide WeightOf;
    var earlier, p := loads[..|loads| - 1], loads[|loads| - 1];
    if 3.0 * p > Carries(t, large) {
      LargeLands(loads, earlier, a, b, capacity, large, t, s);
      FourOfSmall(t, small, large);
    } else {
      if capacity[s] == small {
        MeanLeavesRoom(loads, earlier, a, b, capacity, t, s);
        CarriesRate(WeightOf(earlier, a, s), small);
        RoomOf(Rate(WeightOf(earlier, a, s), small), p, small, large, SumCapacity(capacity, |capacity|), t);
      } else {
        NextBelowBound(loads, a, b, capacity, t, s);
      }
    }
  }

  lemma FourOfSmall(t: real, small: real, large: real)
    requires t >= 0.0 && 3.0 * large <= 4.0 * small
    ensures 3.0 * Carries(t, large) <= 4.0 * Carries(t, small)
  {
  }

  lemma RoomOf(rate: real, p: real, small: real, large: real, all: real, t: real)
    requires 0.0 < small <= large && all > 0.0 && large * (all - small) <= small * all
    requires Carries(rate, all) + p <= Carries(t, all) && 0.0 <= 3.0 * p <= Carries(t, large) && t >= 0.0
    ensures 3.0 * (Carries(rate, small) + p) <= 4.0 * Carries(t, small)
  {
    RoomIsEnough(rate, p, small, large, all, t);
  }

  lemma NextBelowBound(loads: seq<real>, a: seq<nat>, b: seq<nat>, capacity: seq<real>, t: real, s: nat)
    requires loads != [] && Positive(capacity) && NonNegative(loads)
    requires Assigns(loads[..|loads| - 1], a, |capacity|) && IsLightest(loads[..|loads| - 1], a, capacity, s)
    requires Assigns(loads, b, |capacity|) && Fits(loads, b, capacity, t)
    ensures WeightOf(loads[..|loads| - 1], a, s) <= Carries(t, capacity[s])
  {
    hide Carries;
    hide Rate;
    hide WeightOf;
    var earlier := loads[..|loads| - 1];
    MeanLeavesRoom(loads, earlier, a, b, capacity, t, s);
    var rate, all := Rate(WeightOf(earlier, a, s), capacity[s]), SumCapacity(capacity, |capacity|);
    CarriesOrder(rate, t, all);
    CarriesOrder(rate, t, capacity[s]);
    CarriesRate(WeightOf(earlier, a, s), capacity[s]);
  }

  lemma {:induction false} FewWithinFourThirds(loads: seq<real>, capacity: seq<real>, small: real, large: real, b: seq<nat>, t: real)
    requires Positive(capacity) && Few(capacity, small, large) && Descending(loads) && NonNegative(loads)
    requires Assigns(loads, b, |capacity|) && Fits(loads, b, capacity, t)
    ensures forall s: nat :: s < |capacity| ==>
      3.0 * WeightOf(loads, Greedy(loads, capacity), s) <= 4.0 * Carries(t, capacity[s])
    decreases loads
  {
    hide Lightest;
    hide Carries;
    hide Few;
    BoundNonNegative(loads, capacity, b, t);
    forall s: nat | s < |capacity| ensures 0.0 <= Carries(t, capacity[s]) {
      CarriesMonotone(t, t, capacity[s], capacity[s]);
    }
    if loads != [] {
      var n, m := |loads| - 1, |capacity|;
      forall s: nat | s < m ensures WeightOf(loads[..n], b[..n], s) <= Carries(t, capacity[s]) {
        PrefixWeight(loads, b, s);
      }
      FewWithinFourThirds(loads[..n], capacity, small, large, b[..n], t);
      var a := Greedy(loads[..n], capacity);
      FewTarget(loads, a, b, capacity, small, large, t, Lightest(Weights(loads[..n], a, m), capacity, m));
      assert Greedy(loads, capacity)[..n] == a;
    }
  }

  lemma {:induction false} DevicesAddUp(shards: nat, gpus: nat, n: nat)
    requires n <= shards < gpus
    ensures shards > 0 ==>
      SumCapacity(Capacity(shards, gpus), n) == (n * (gpus / shards) + (if n < gpus % shards then n else gpus % shards)) as real
  {
    hide Capacity;
    if n > 0 {
      DevicesAddUp(shards, gpus, n - 1);
      CapacityValue(shards, gpus, n - 1);
      assert n * (gpus / shards) == (n - 1) * (gpus / shards) + gpus / shards;
    }
  }

  lemma SquareHasRoom(shards: nat, gpus: nat)
    requires 0 < shards && 3 * shards <= gpus && shards * shards <= gpus
    ensures
      var q := gpus / shards;
      q >= 3 && (q + 1) * (gpus - q) <= q * gpus && shards * q + gpus % shards == gpus
  {
    var q, r := gpus / shards, gpus % shards;
    assert gpus == q * shards + r;
    if q < shards {
      MulOrder(q, shards, shards);
      assert false;
    }
    MulOrder(q, 3, shards);
    assert q * shards <= q * q;
    assert (q + 1) * (gpus - q) == q * gpus + gpus - q * q - q;
  }

  /** Few shards on many devices: with at least three devices to a shard and no fewer devices than
      shards squared, the plan is within 4/3 of the best whether or not the devices divide evenly. */
  lemma SquareWithinFourThirds(loads: seq<real>, shards: nat, gpus: nat, b: seq<nat>, t: real)
    requires shards > 0 && 3 * shards <= gpus && shards * shards <= gpus
    requires Descending(loads) && NonNegative(loads) && Assigns(loads, b, shards)
    requires Fits(loads, b, Capacity(shards, gpus), t)
    ensures Positive(Capacity(shards, gpus))
    ensures forall s: nat :: s < shards ==>
      3.0 * WeightOf(loads, Greedy(loads, Capacity(shards, gpus)), s) <= 4.0 * Carries(t, Capacity(shards, gpus)[s])
  {
    var capacity, q := Capacity(shards, gpus), gpus / shards;
    SquareIsFew(shards, gpus);
    hide *;
    FewWithinFourThirds(loads, capacity, q as real, (q + 1) as real, b, t);
  }

  lemma SquareIsFew(shards: nat, gpus: nat)
    requires shards > 0 && 3 * shards <= gpus && shards * shards <= gpus
    ensures
      var capacity, q := Capacity(shards, gpus), gpus / shards;
      Positive(capacity) && Few(capacity, q as real, (q + 1) as real)
  {
    hide Capacity;
    hide Few;
    hide SumCapacity;
    var capacity, q := Capacity(shards, gpus), gpus / shards;
    SquareHasRoom(shards, gpus);
    forall i | 0 <= i < shards ensures capacity[i] > 0.0 && (capacity[i] == q as real || capacity[i] == (q + 1) as real) {
      CapacityValue(shards, gpus, i);
    }
    DevicesAddUp(shards, gpus, shards);
    FewFrom(capacity, q, gpus);
  }

  lemma FewFrom(capacity: seq<real>, q: nat, gpus: nat)
    requires q >= 3 && (q + 1) * (gpus - q) <= q * gpus && SumCapacity(capacity, |capacity|) == gpus as real
    requires forall i :: 0 <= i < |capacity| ==> capacity[i] == q as real || capacity[i] == (q + 1) as real
    ensures Few(capacity, q as real, (q + 1) as real)
  {
    hide SumCapacity;
    RealRoom(q, gpus);
    assert q as real >= 3.0 && (q + 1) as real == q as real + 1.0;
  }

  lemma RealRoom(q: nat, gpus: nat)
    requires q >= 3 && (q + 1) * (gpus - q) <= q * gpus
    ensures (q + 1) as real * (gpus as real - q as real) <= q as real * gpus as real
  {
    assert ((q + 1) * (gpus - q)) as real == (q + 1) as real * (gpus - q) as real;
    assert (q * gpus) as real == q as real * gpus as real;
  }

  // ----- following the rule camera by camera -----

  // With these weights the next camera goes to shard `t`.
  predicate Next(w: seq<real>, capacity: seq<real>, t: nat)
    requires |w| == |capacity|
  {
    t < |w| && forall s :: 0 <= s < |w| && s != t ==>
      if s < t then Carries(w[t], capacity[s]) < Carries(w[s], capacity[t])
      else Carries(w[t], capacity[s]) <= Carries(w[s], capacity[t])
  }

  lemma RateOrder(x: real, y: real, c: real, d: real)
    requires c > 0.0 && d > 0.0
    ensures Carries(x, d) <= Carries(y, c) <==> Rate(x, c) <= Rate(y, d)
    ensures Carries(x, d) < Carries(y, c) <==> Rate(x, c) < Rate(y, d)
  {
    var k := c * d;
    assert x / c * k == x * d && y / d * k == y * c;
    assert x / c <= y / d ==> x / c * k <= y / d * k;
    assert x / c > y / d ==> x / c * k > y / d * k;
    assert x / c < y / d ==> x / c * k < y / d * k;
  }

  lemma NextIsLightest(w: seq<real>, capacity: seq<real>, t: nat)
    requires |w| == |capacity| && Positive(capacity) && Next(w, capacity, t)
    ensures Lightest(w, capacity, |capacity|) == t
  {
    hide Carries;
    hide Rate;
    hide Lightest;
    var l := Lightest(w, capacity, |capacity|);
    if l != t { RateOrder(w[t], w[l], capacity[t], capacity[l]); }
  }

  ghost predicate Reaches(loads: seq<real>, capacity: seq<real>, n: nat, w: seq<real>)
    requires n <= |loads| && Positive(capacity)
  {
    w == Weights(loads[..n], Greedy(loads[..n], capacity), |capacity|)
  }

  lemma PlaceNext(loads: seq<real>, capacity: seq<real>, n: nat, w: seq<real>, t: nat, v: seq<real>)
    requires n < |loads| && Positive(capacity) && Reaches(loads, capacity, n, w)
    requires |w| == |capacity| && Next(w, capacity, t) && v == w[t := w[t] + loads[n]]
    ensures Reaches(loads, capacity, n + 1, v)
  {
    hide Lightest;
    hide Next;
    NextIsLightest(w, capacity, t);
    GreedyNext(loads, capacity, n);
    var a := Greedy(loads[..n], capacity);
    forall s: nat ensures WeightOf(loads[..n + 1], a + [t], s) == WeightOf(loads[..n], a, s) + (if s == t then loads[n] else 0.0) {
      ShardNext(loads, a, n, t, s);
    }
    hide WeightOf;
    hide Greedy;
    assert v == Weights(loads[..n + 1], a + [t], |capacity|);
  }

  // The same for an assignment that is given.
  lemma AddNext(loads: seq<real>, b: seq<nat>, n: nat, w: seq<real>)
    requires |b| == |loads| > n && b[n] < |w| && w == Weights(loads[..n], b[..n], |w|)
    ensures w[b[n] := w[b[n]] + loads[n]] == Weights(loads[..n + 1], b[..n + 1], |w|)
  {
    forall s: nat ensures WeightOf(loads[..n + 1], b[..n + 1], s) == WeightOf(loads[..n], b[..n], s) + (if s == b[n] then loads[n] else 0.0) {
      assert b[..n + 1] == b[..n] + [b[n]];
      ShardNext(loads, b[..n], n, b[n], s);
    }
    hide WeightOf;
  }

  // One camera each on the first shards, all of them with a load.
  lemma OneEachReached(loads: seq<real>, capacity: seq<real>)
    requires Positive(capacity) && |loads| >= |capacity| && forall i :: 0 <= i < |capacity| ==> loads[i] > 0.0
    ensures Reaches(loads, capacity, |capacity|, loads[..|capacity|])
  {
    var head := loads[..|capacity|];
    GreedyOneEach(head, capacity, |capacity|);
    forall s: nat | s < |capacity| ensures WeightOf(head, Greedy(head, capacity), s) == head[s] {
      OneEachWeight(head, Greedy(head, capacity), |capacity|, s);
    }
    hide WeightOf;
    hide Greedy;
  }

  // ----- fewer shards than devices -----

  // Loads for `shards` shards of which the first `r` own two devices: the last two cameras follow a
  // camera that looks light for the shard it is alone on.
  function LateCameras(shards: nat, r: nat): (loads: seq<real>)
    requires 0 < r < shards
    ensures |loads| == shards + 2 && loads[r - 1] == 120.0 && loads[shards] == 84.0 && loads[shards + 1] == 70.0
    ensures forall i :: 0 <= i < r - 1 ==> loads[i] == 254.0
    ensures forall i :: r <= i < shards ==> loads[i] == 100.0
  {
    seq(shards + 2, i => if i < r - 1 then 254.0 else if i == r - 1 then 120.0 else if i < shards then 100.0
                         else if i == shards then 84.0 else 70.0)
  }

  // Better: the camera of 120 alone on one device, and the last two with one of 100 on two.
  function Better(shards: nat, r: nat): (b: seq<nat>)
    requires 0 < r < shards
    ensures |b| == shards + 2 && b[r - 1] == r && b[r] == r - 1 && b[shards] == r - 1 && b[shards + 1] == r - 1
    ensures forall i :: 0 <= i < shards && i != r - 1 && i != r ==> b[i] == i
  {
    seq(shards + 2, (i: nat) => if i == r - 1 then r else if i == r || i >= shards then r - 1 else i)
  }

  lemma OneOrTwo(shards: nat, gpus: nat, i: nat)
    requires i < shards < gpus < 2 * shards
    ensures Capacity(shards, gpus)[i] == if i < gpus - shards then 2.0 else 1.0
  {
    DivIs(gpus, 1, shards, gpus - shards);
    CapacityValue(shards, gpus, i);
  }

  // The camera of 120 is alone on two devices, so that its shard looks lightest; then the shards of one.
  lemma LateTargets(shards: nat, r: nat, capacity: seq<real>)
    requires 0 < r < shards == |capacity|
    requires forall i :: 0 <= i < shards ==> capacity[i] == if i < r then 2.0 else 1.0
    ensures
      var w := LateCameras(shards, r)[..shards];
      Next(w, capacity, r - 1) && Next(w[r - 1 := 204.0], capacity, r)
  {
  }

  lemma LateCamerasPlanned(shards: nat, r: nat, capacity: seq<real>)
    requires 0 < r < shards == |capacity|
    requires forall i :: 0 <= i < shards ==> capacity[i] == if i < r then 2.0 else 1.0
    ensures Positive(capacity)
    ensures WeightOf(LateCameras(shards, r), Greedy(LateCameras(shards, r), capacity), r) == 170.0
  {
    var loads := LateCameras(shards, r);
    hide Greedy;
    hide WeightOf;
    hide Next;
    LateTargets(shards, r, capacity);
    OneEachReached(loads, capacity);
    var w := loads[..shards];
    var v := w[r - 1 := 204.0];
    PlaceNext(loads, capacity, shards, w, r - 1, v);
    PlaceNext(loads, capacity, shards + 1, v, r, v[r := 170.0]);
    assert loads[..shards + 2] == loads;
  }

  lemma BetterFits(shards: nat, r: nat, capacity: seq<real>)
    requires 0 < r < shards == |capacity|
    requires forall i :: 0 <= i < shards ==> capacity[i] == if i < r then 2.0 else 1.0
    ensures Fits(LateCameras(shards, r), Better(shards, r), capacity, 127.0)
  {
    var loads, b := LateCameras(shards, r), Better(shards, r);
    var w := Weights(loads[..shards], b[..shards], shards);
    forall s: nat | s < shards ensures w[s] == if s == r - 1 then 100.0 else if s == r then 120.0 else loads[s] {
      OnlyOne(loads[..shards], b[..shards], s, if s == r - 1 then r else if s == r then r - 1 else s);
    }
    hide WeightOf;
    AddNext(loads, b, shards, w);
    var v := w[r - 1 := w[r - 1] + loads[shards]];
    AddNext(loads, b, shards + 1, v);
    var u := v[r - 1 := v[r - 1] + loads[shards + 1]];
    assert loads[..shards + 2] == loads && b[..shards + 2] == b;
    assert u == Weights(loads, b, shards);
    forall s: nat | s < shards ensures WeightOf(loads, b, s) <= Carries(127.0, capacity[s]) {
      assert WeightOf(loads, b, s) == u[s];
    }
  }

  /** With fewer shards than devices, more than half as many, the plan is not within 4/3 of the best
      either: a shard that owns one device gets 170 where another plan gives no device more than 127. */
  lemma FewShardsBreakFourThirds(shards: nat, gpus: nat)
    requires shards < gpus < 2 * shards
    ensures
      var r := gpus - shards;
      var loads, capacity := LateCameras(shards, r), Capacity(shards, gpus);
      && Positive(capacity) && Descending(loads) && Assigns(loads, Better(shards, r), shards)
      && Fits(loads, Better(shards, r), capacity, 127.0)
      && 3.0 * WeightOf(loads, Greedy(loads, capacity), r) > 4.0 * Carries(127.0, capacity[r])
  {
    var r := gpus - shards;
    var capacity := Capacity(shards, gpus);
    forall i | 0 <= i < shards ensures capacity[i] == if i < r then 2.0 else 1.0 { OneOrTwo(shards, gpus, i); }
    hide Capacity;
    hide Greedy;
    hide WeightOf;
    LateCamerasPlanned(shards, r, capacity);
    BetterFits(shards, r, capacity);
  }
}
