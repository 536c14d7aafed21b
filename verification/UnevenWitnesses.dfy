/** Two plans of many shards, with more than two devices to a shard or three shards to a device, on
    which the balance misses 4/3 as well. */
module UnevenWitnesses {
  import opened Sharding
  import opened UnevenSharding

  lemma WeightReached(loads: seq<real>, capacity: seq<real>, w: seq<real>, s: nat)
    requires Positive(capacity) && s < |capacity| && Reaches(loads, capacity, |loads|, w)
    ensures |w| == |capacity| && WeightOf(loads, Greedy(loads, capacity), s) == w[s]
  {
    hide Greedy;
    hide WeightOf;
    assert loads[..|loads|] == loads;
  }

  lemma FitsReached(loads: seq<real>, b: seq<nat>, capacity: seq<real>, t: real, w: seq<real>)
    requires |b| == |loads| && |w| == |capacity| && w == Weights(loads, b, |w|)
    requires forall s :: 0 <= s < |w| ==> w[s] <= Carries(t, capacity[s])
    ensures Fits(loads, b, capacity, t)
  {
    hide WeightOf;
    forall s: nat | s < |capacity| ensures WeightOf(loads, b, s) <= Carries(t, capacity[s]) {
      assert WeightOf(loads, b, s) == w[s];
    }
  }

  // The same step, with the capacities in other units.
  lemma PlaceScaled(loads: seq<real>, capacity: seq<real>, units: seq<real>, k: real, n: nat, w: seq<real>, t: nat, v: seq<real>)
    requires n < |loads| && Positive(capacity) && Reaches(loads, capacity, n, w)
    requires k > 0.0 && |units| == |capacity| && forall i :: 0 <= i < |units| ==> units[i] == Carries(k, capacity[i])
    requires |w| == |capacity| && Next(w, units, t) && v == w[t := w[t] + loads[n]]
    ensures Reaches(loads, capacity, n + 1, v)
  {
    hide Reaches;
    forall s | 0 <= s < |w| && s != t
      ensures if s < t then Carries(w[t], capacity[s]) < Carries(w[s], capacity[t])
              else Carries(w[t], capacity[s]) <= Carries(w[s], capacity[t])
    {
      Unscale(k, w[t], capacity[s], w[s], capacity[t]);
    }
    hide Carries;
    PlaceNext(loads, capacity, n, w, t, v);
  }

  lemma Unscale(k: real, x: real, c: real, y: real, d: real)
    requires k > 0.0
    ensures Carries(x, Carries(k, c)) < Carries(y, Carries(k, d)) ==> Carries(x, c) < Carries(y, d)
    ensures Carries(x, Carries(k, c)) <= Carries(y, Carries(k, d)) ==> Carries(x, c) <= Carries(y, d)
  {
    assert x * (k * c) == k * (x * c) && y * (k * d) == k * (y * d);
  }

  // ----- seven shards on twenty devices, ten shards on three -----

  const SEVEN_CAPACITY: seq<real> := [3.0, 3.0, 3.0, 3.0, 3.0, 3.0, 2.0]

  const SEVEN_LOADS: seq<real> :=
    [189.0, 188.0, 185.0, 109.0, 93.0, 92.0, 90.0, 86.0, 86.0, 79.0, 79.0, 76.0, 75.0, 69.0, 66.0, 66.0, 66.0, 66.0]

  const SEVEN_BETTER: seq<nat> := [3, 5, 4, 1, 0, 0, 6, 1, 6, 4, 0, 5, 3, 1, 2, 2, 2, 2]

  lemma SevenOnTwentyLeg0()
    requires Positive(SEVEN_CAPACITY) && Reaches(SEVEN_LOADS, SEVEN_CAPACITY, 7, [189.0, 188.0, 185.0, 109.0, 93.0, 92.0, 90.0])
    ensures Reaches(SEVEN_LOADS, SEVEN_CAPACITY, 10, [189.0, 188.0, 185.0, 188.0, 179.0, 178.0, 90.0])
  {
    hide Reaches;
    PlaceNext(SEVEN_LOADS, SEVEN_CAPACITY, 7, [189.0, 188.0, 185.0, 109.0, 93.0, 92.0, 90.0], 5,
              [189.0, 188.0, 185.0, 109.0, 93.0, 178.0, 90.0]);
    PlaceNext(SEVEN_LOADS, SEVEN_CAPACITY, 8, [189.0, 188.0, 185.0, 109.0, 93.0, 178.0, 90.0], 4,
              [189.0, 188.0, 185.0, 109.0, 179.0, 178.0, 90.0]);
    PlaceNext(SEVEN_LOADS, SEVEN_CAPACITY, 9, [189.0, 188.0, 185.0, 109.0, 179.0, 178.0, 90.0], 3,
              [189.0, 188.0, 185.0, 188.0, 179.0, 178.0, 90.0]);
  }

  lemma SevenOnTwentyLeg1()
    requires Positive(SEVEN_CAPACITY) && Reaches(SEVEN_LOADS, SEVEN_CAPACITY, 10, [189.0, 188.0, 185.0, 188.0, 179.0, 178.0, 90.0])
    ensures Reaches(SEVEN_LOADS, SEVEN_CAPACITY, 13, [189.0, 188.0, 185.0, 188.0, 254.0, 254.0, 169.0])
  {
    hide Reaches;
    PlaceNext(SEVEN_LOADS, SEVEN_CAPACITY, 10, [189.0, 188.0, 185.0, 188.0, 179.0, 178.0, 90.0], 6,
              [189.0, 188.0, 185.0, 188.0, 179.0, 178.0, 169.0]);
    PlaceNext(SEVEN_LOADS, SEVEN_CAPACITY, 11, [189.0, 188.0, 185.0, 188.0, 179.0, 178.0, 169.0], 5,
              [189.0, 188.0, 185.0, 188.0, 179.0, 254.0, 169.0]);
    PlaceNext(SEVEN_LOADS, SEVEN_CAPACITY, 12, [189.0, 188.0, 185.0, 188.0, 179.0, 254.0, 169.0], 4,
              [189.0, 188.0, 185.0, 188.0, 254.0, 254.0, 169.0]);
  }

  lemma SevenOnTwentyLeg2()
    requires Positive(SEVEN_CAPACITY) && Reaches(SEVEN_LOADS, SEVEN_CAPACITY, 13, [189.0, 188.0, 185.0, 188.0, 254.0, 254.0, 169.0])
    ensures Reaches(SEVEN_LOADS, SEVEN_CAPACITY, 16, [189.0, 254.0, 254.0, 254.0, 254.0, 254.0, 169.0])
  {
    hide Reaches;
    PlaceNext(SEVEN_LOADS, SEVEN_CAPACITY, 13, [189.0, 188.0, 185.0, 188.0, 254.0, 254.0, 169.0], 2,
              [189.0, 188.0, 254.0, 188.0, 254.0, 254.0, 169.0]);
    PlaceNext(SEVEN_LOADS, SEVEN_CAPACITY, 14, [189.0, 188.0, 254.0, 188.0, 254.0, 254.0, 169.0], 1,
              [189.0, 254.0, 254.0, 188.0, 254.0, 254.0, 169.0]);
    PlaceNext(SEVEN_LOADS, SEVEN_CAPACITY, 15, [189.0, 254.0, 254.0, 188.0, 254.0, 254.0, 169.0], 3,
              [189.0, 254.0, 254.0, 254.0, 254.0, 254.0, 169.0]);
  }

  lemma SevenOnTwentyLeg3()
    requires Positive(SEVEN_CAPACITY) && Reaches(SEVEN_LOADS, SEVEN_CAPACITY, 16, [189.0, 254.0, 254.0, 254.0, 254.0, 254.0, 169.0])
    ensures Reaches(SEVEN_LOADS, SEVEN_CAPACITY, 18, [255.0, 254.0, 254.0, 254.0, 254.0, 254.0, 235.0])
  {
    hide Reaches;
    PlaceNext(SEVEN_LOADS, SEVEN_CAPACITY, 16, [189.0, 254.0, 254.0, 254.0, 254.0, 254.0, 169.0], 0,
              [255.0, 254.0, 254.0, 254.0, 254.0, 254.0, 169.0]);
    PlaceNext(SEVEN_LOADS, SEVEN_CAPACITY, 17, [255.0, 254.0, 254.0, 254.0, 254.0, 254.0, 169.0], 6,
              [255.0, 254.0, 254.0, 254.0, 254.0, 254.0, 235.0]);
  }

  lemma SevenOnTwentyBetter0()
    requires [0.0, 0.0, 0.0, 0.0, 0.0, 0.0, 0.0] == Weights(SEVEN_LOADS[..0], SEVEN_BETTER[..0], 7)
    ensures [185.0, 109.0, 0.0, 189.0, 185.0, 188.0, 0.0] == Weights(SEVEN_LOADS[..6], SEVEN_BETTER[..6], 7)
  {
    hide Weights;
    hide WeightOf;
    AddNext(SEVEN_LOADS, SEVEN_BETTER, 0, [0.0, 0.0, 0.0, 0.0, 0.0, 0.0, 0.0]);
    AddNext(SEVEN_LOADS, SEVEN_BETTER, 1, [0.0, 0.0, 0.0, 189.0, 0.0, 0.0, 0.0]);
    AddNext(SEVEN_LOADS, SEVEN_BETTER, 2, [0.0, 0.0, 0.0, 189.0, 0.0, 188.0, 0.0]);
    AddNext(SEVEN_LOADS, SEVEN_BETTER, 3, [0.0, 0.0, 0.0, 189.0, 185.0, 188.0, 0.0]);
    AddNext(SEVEN_LOADS, SEVEN_BETTER, 4, [0.0, 109.0, 0.0, 189.0, 185.0, 188.0, 0.0]);
    AddNext(SEVEN_LOADS, SEVEN_BETTER, 5, [93.0, 109.0, 0.0, 189.0, 185.0, 188.0, 0.0]);
  }

  lemma SevenOnTwentyBetter1()
    requires [185.0, 109.0, 0.0, 189.0, 185.0, 188.0, 0.0] == Weights(SEVEN_LOADS[..6], SEVEN_BETTER[..6], 7)
    ensures [264.0, 195.0, 0.0, 189.0, 264.0, 264.0, 176.0] == Weights(SEVEN_LOADS[..12], SEVEN_BETTER[..12], 7)
  {
    hide Weights;
    hide WeightOf;
    AddNext(SEVEN_LOADS, SEVEN_BETTER, 6, [185.0, 109.0, 0.0, 189.0, 185.0, 188.0, 0.0]);
    AddNext(SEVEN_LOADS, SEVEN_BETTER, 7, [185.0, 109.0, 0.0, 189.0, 185.0, 188.0, 90.0]);
    AddNext(SEVEN_LOADS, SEVEN_BETTER, 8, [185.0, 195.0, 0.0, 189.0, 185.0, 188.0, 90.0]);
    AddNext(SEVEN_LOADS, SEVEN_BETTER, 9, [185.0, 195.0, 0.0, 189.0, 185.0, 188.0, 176.0]);
    AddNext(SEVEN_LOADS, SEVEN_BETTER, 10, [185.0, 195.0, 0.0, 189.0, 264.0, 188.0, 176.0]);
    AddNext(SEVEN_LOADS, SEVEN_BETTER, 11, [264.0, 195.0, 0.0, 189.0, 264.0, 188.0, 176.0]);
  }

  lemma SevenOnTwentyBetter2()
    requires [264.0, 195.0, 0.0, 189.0, 264.0, 264.0, 176.0] == Weights(SEVEN_LOADS[..12], SEVEN_BETTER[..12], 7)
    ensures [264.0, 264.0, 264.0, 264.0, 264.0, 264.0, 176.0] == Weights(SEVEN_LOADS[..18], SEVEN_BETTER[..18], 7)
  {
    hide Weights;
    hide WeightOf;
    AddNext(SEVEN_LOADS, SEVEN_BETTER, 12, [264.0, 195.0, 0.0, 189.0, 264.0, 264.0, 176.0]);
    AddNext(SEVEN_LOADS, SEVEN_BETTER, 13, [264.0, 195.0, 0.0, 264.0, 264.0, 264.0, 176.0]);
    AddNext(SEVEN_LOADS, SEVEN_BETTER, 14, [264.0, 264.0, 0.0, 264.0, 264.0, 264.0, 176.0]);
    AddNext(SEVEN_LOADS, SEVEN_BETTER, 15, [264.0, 264.0, 66.0, 264.0, 264.0, 264.0, 176.0]);
    AddNext(SEVEN_LOADS, SEVEN_BETTER, 16, [264.0, 264.0, 132.0, 264.0, 264.0, 264.0, 176.0]);
    AddNext(SEVEN_LOADS, SEVEN_BETTER, 17, [264.0, 264.0, 198.0, 264.0, 264.0, 264.0, 176.0]);
  }

  lemma SevenOnTwentyPlanned()
    ensures Positive(SEVEN_CAPACITY) && WeightOf(SEVEN_LOADS, Greedy(SEVEN_LOADS, SEVEN_CAPACITY), 6) == 235.0
  {
    hide Greedy;
    hide WeightOf;
    assert SEVEN_LOADS[..7] == [189.0, 188.0, 185.0, 109.0, 93.0, 92.0, 90.0];
    OneEachReached(SEVEN_LOADS, SEVEN_CAPACITY);
    SevenOnTwentyLeg0();
    SevenOnTwentyLeg1();
    SevenOnTwentyLeg2();
    SevenOnTwentyLeg3();
    assert SEVEN_LOADS[..18] == SEVEN_LOADS;
    WeightReached(SEVEN_LOADS, SEVEN_CAPACITY, [255.0, 254.0, 254.0, 254.0, 254.0, 254.0, 235.0], 6);
  }

  lemma SevenOnTwentyStart()
    ensures [0.0, 0.0, 0.0, 0.0, 0.0, 0.0, 0.0] == Weights(SEVEN_LOADS[..0], SEVEN_BETTER[..0], 7)
  {
  }

  lemma SevenOnTwentyFits()
    ensures Assigns(SEVEN_LOADS, SEVEN_BETTER, 7) && Fits(SEVEN_LOADS, SEVEN_BETTER, SEVEN_CAPACITY, 88.0)
  {
    hide WeightOf;
    SevenOnTwentyStart();
    SevenOnTwentyBetter0();
    SevenOnTwentyBetter1();
    SevenOnTwentyBetter2();
    assert SEVEN_LOADS[..18] == SEVEN_LOADS && SEVEN_BETTER[..18] == SEVEN_BETTER;
    FitsReached(SEVEN_LOADS, SEVEN_BETTER, SEVEN_CAPACITY, 88.0, [264.0, 264.0, 264.0, 264.0, 264.0, 264.0, 176.0]);
  }

  lemma SevenOnTwentyCapacity()
    ensures Capacity(7, 20) == SEVEN_CAPACITY
  {
    hide Capacity;
    forall i: nat | i < 7 ensures Capacity(7, 20)[i] == SEVEN_CAPACITY[i] { CapacityValue(7, 20, i); }
  }

  /** Seven shards on twenty devices: the shard of two devices carries 235 where another plan gives no
      device more than 88, so two devices at most 176. */
  lemma SevenOnTwenty()
    ensures
      var loads, b, capacity := SEVEN_LOADS, SEVEN_BETTER, Capacity(7, 20);
      && Positive(capacity) && Descending(loads) && Assigns(loads, b, 7) && Fits(loads, b, capacity, 88.0)
      && 3.0 * WeightOf(loads, Greedy(loads, capacity), 6) > 4.0 * Carries(88.0, capacity[6])
  {
    hide Capacity;
    hide Greedy;
    hide WeightOf;
    SevenOnTwentyCapacity();
    SevenOnTwentyPlanned();
    SevenOnTwentyFits();
    hide Fits;
    hide Assigns;
  }

  const TEN_CAPACITY: seq<real> := [0.25, 1.0 / 3.0, 1.0 / 3.0, 0.25, 1.0 / 3.0, 1.0 / 3.0, 0.25, 1.0 / 3.0, 1.0 / 3.0, 0.25]

  // In twelfths.
  const TEN_UNITS: seq<real> := [3.0, 4.0, 4.0, 3.0, 4.0, 4.0, 3.0, 4.0, 4.0, 3.0]

  const TEN_LOADS: seq<real> :=
    [81.0, 70.0, 69.0, 61.0, 61.0, 60.0, 59.0, 59.0, 58.0, 51.0, 50.0, 50.0, 50.0, 50.0, 40.0, 40.0, 40.0, 40.0, 40.0, 40.0]

  const TEN_BETTER: seq<nat> := [6, 7, 2, 5, 1, 8, 8, 1, 5, 2, 7, 0, 9, 3, 3, 9, 4, 0, 4, 4]

  lemma TenOnThreeLeg0()
    requires Positive(TEN_CAPACITY) && Reaches(TEN_LOADS, TEN_CAPACITY, 10, [81.0, 70.0, 69.0, 61.0, 61.0, 60.0, 59.0, 59.0, 58.0, 51.0])
    ensures Reaches(TEN_LOADS, TEN_CAPACITY, 12, [81.0, 70.0, 69.0, 61.0, 61.0, 60.0, 59.0, 109.0, 108.0, 51.0])
  {
    hide Reaches;
    PlaceScaled(TEN_LOADS, TEN_CAPACITY, TEN_UNITS, 12.0, 10, [81.0, 70.0, 69.0, 61.0, 61.0, 60.0, 59.0, 59.0, 58.0, 51.0], 8,
                [81.0, 70.0, 69.0, 61.0, 61.0, 60.0, 59.0, 59.0, 108.0, 51.0]);
    PlaceScaled(TEN_LOADS, TEN_CAPACITY, TEN_UNITS, 12.0, 11, [81.0, 70.0, 69.0, 61.0, 61.0, 60.0, 59.0, 59.0, 108.0, 51.0], 7,
                [81.0, 70.0, 69.0, 61.0, 61.0, 60.0, 59.0, 109.0, 108.0, 51.0]);
  }

  lemma TenOnThreeLeg1()
    requires Positive(TEN_CAPACITY) && Reaches(TEN_LOADS, TEN_CAPACITY, 12, [81.0, 70.0, 69.0, 61.0, 61.0, 60.0, 59.0, 109.0, 108.0, 51.0])
    ensures Reaches(TEN_LOADS, TEN_CAPACITY, 14, [81.0, 70.0, 69.0, 61.0, 111.0, 110.0, 59.0, 109.0, 108.0, 51.0])
  {
    hide Reaches;
    PlaceScaled(TEN_LOADS, TEN_CAPACITY, TEN_UNITS, 12.0, 12, [81.0, 70.0, 69.0, 61.0, 61.0, 60.0, 59.0, 109.0, 108.0, 51.0], 5,
                [81.0, 70.0, 69.0, 61.0, 61.0, 110.0, 59.0, 109.0, 108.0, 51.0]);
    PlaceScaled(TEN_LOADS, TEN_CAPACITY, TEN_UNITS, 12.0, 13, [81.0, 70.0, 69.0, 61.0, 61.0, 110.0, 59.0, 109.0, 108.0, 51.0], 4,
                [81.0, 70.0, 69.0, 61.0, 111.0, 110.0, 59.0, 109.0, 108.0, 51.0]);
  }

  lemma TenOnThreeLeg2()
    requires Positive(TEN_CAPACITY) && Reaches(TEN_LOADS, TEN_CAPACITY, 14, [81.0, 70.0, 69.0, 61.0, 111.0, 110.0, 59.0, 109.0, 108.0, 51.0])
    ensures Reaches(TEN_LOADS, TEN_CAPACITY, 16, [81.0, 70.0, 109.0, 61.0, 111.0, 110.0, 59.0, 109.0, 108.0, 91.0])
  {
    hide Reaches;
    PlaceScaled(TEN_LOADS, TEN_CAPACITY, TEN_UNITS, 12.0, 14, [81.0, 70.0, 69.0, 61.0, 111.0, 110.0, 59.0, 109.0, 108.0, 51.0], 9,
                [81.0, 70.0, 69.0, 61.0, 111.0, 110.0, 59.0, 109.0, 108.0, 91.0]);
    PlaceScaled(TEN_LOADS, TEN_CAPACITY, TEN_UNITS, 12.0, 15, [81.0, 70.0, 69.0, 61.0, 111.0, 110.0, 59.0, 109.0, 108.0, 91.0], 2,
                [81.0, 70.0, 109.0, 61.0, 111.0, 110.0, 59.0, 109.0, 108.0, 91.0]);
  }

  lemma TenOnThreeLeg3()
    requires Positive(TEN_CAPACITY) && Reaches(TEN_LOADS, TEN_CAPACITY, 16, [81.0, 70.0, 109.0, 61.0, 111.0, 110.0, 59.0, 109.0, 108.0, 91.0])
    ensures Reaches(TEN_LOADS, TEN_CAPACITY, 18, [81.0, 110.0, 109.0, 61.0, 111.0, 110.0, 99.0, 109.0, 108.0, 91.0])
  {
    hide Reaches;
    PlaceScaled(TEN_LOADS, TEN_CAPACITY, TEN_UNITS, 12.0, 16, [81.0, 70.0, 109.0, 61.0, 111.0, 110.0, 59.0, 109.0, 108.0, 91.0], 1,
                [81.0, 110.0, 109.0, 61.0, 111.0, 110.0, 59.0, 109.0, 108.0, 91.0]);
    PlaceScaled(TEN_LOADS, TEN_CAPACITY, TEN_UNITS, 12.0, 17, [81.0, 110.0, 109.0, 61.0, 111.0, 110.0, 59.0, 109.0, 108.0, 91.0], 6,
                [81.0, 110.0, 109.0, 61.0, 111.0, 110.0, 99.0, 109.0, 108.0, 91.0]);
  }

  lemma TenOnThreeLeg4()
    requires Positive(TEN_CAPACITY) && Reaches(TEN_LOADS, TEN_CAPACITY, 18, [81.0, 110.0, 109.0, 61.0, 111.0, 110.0, 99.0, 109.0, 108.0, 91.0])
    ensures Reaches(TEN_LOADS, TEN_CAPACITY, 19, [81.0, 110.0, 109.0, 101.0, 111.0, 110.0, 99.0, 109.0, 108.0, 91.0])
  {
    hide Reaches;
    PlaceScaled(TEN_LOADS, TEN_CAPACITY, TEN_UNITS, 12.0, 18, [81.0, 110.0, 109.0, 61.0, 111.0, 110.0, 99.0, 109.0, 108.0, 91.0], 3,
                [81.0, 110.0, 109.0, 101.0, 111.0, 110.0, 99.0, 109.0, 108.0, 91.0]);
  }

  lemma TenOnThreeLeg5()
    requires Positive(TEN_CAPACITY) && Reaches(TEN_LOADS, TEN_CAPACITY, 19, [81.0, 110.0, 109.0, 101.0, 111.0, 110.0, 99.0, 109.0, 108.0, 91.0])
    ensures Reaches(TEN_LOADS, TEN_CAPACITY, 20, [121.0, 110.0, 109.0, 101.0, 111.0, 110.0, 99.0, 109.0, 108.0, 91.0])
  {
    hide Reaches;
    PlaceScaled(TEN_LOADS, TEN_CAPACITY, TEN_UNITS, 12.0, 19, [81.0, 110.0, 109.0, 101.0, 111.0, 110.0, 99.0, 109.0, 108.0, 91.0], 0,
                [121.0, 110.0, 109.0, 101.0, 111.0, 110.0, 99.0, 109.0, 108.0, 91.0]);
  }

  lemma TenOnThreeBetter0()
    requires [0.0, 0.0, 0.0, 0.0, 0.0, 0.0, 0.0, 0.0, 0.0, 0.0] == Weights(TEN_LOADS[..0], TEN_BETTER[..0], 10)
    ensures [0.0, 0.0, 69.0, 0.0, 0.0, 61.0, 81.0, 70.0, 0.0, 0.0] == Weights(TEN_LOADS[..4], TEN_BETTER[..4], 10)
  {
    hide Weights;
    hide WeightOf;
    AddNext(TEN_LOADS, TEN_BETTER, 0, [0.0, 0.0, 0.0, 0.0, 0.0, 0.0, 0.0, 0.0, 0.0, 0.0]);
    AddNext(TEN_LOADS, TEN_BETTER, 1, [0.0, 0.0, 0.0, 0.0, 0.0, 0.0, 81.0, 0.0, 0.0, 0.0]);
    AddNext(TEN_LOADS, TEN_BETTER, 2, [0.0, 0.0, 0.0, 0.0, 0.0, 0.0, 81.0, 70.0, 0.0, 0.0]);
    AddNext(TEN_LOADS, TEN_BETTER, 3, [0.0, 0.0, 69.0, 0.0, 0.0, 0.0, 81.0, 70.0, 0.0, 0.0]);
  }

  lemma TenOnThreeBetter1()
    requires [0.0, 0.0, 69.0, 0.0, 0.0, 61.0, 81.0, 70.0, 0.0, 0.0] == Weights(TEN_LOADS[..4], TEN_BETTER[..4], 10)
    ensures [0.0, 120.0, 69.0, 0.0, 0.0, 61.0, 81.0, 70.0, 119.0, 0.0] == Weights(TEN_LOADS[..8], TEN_BETTER[..8], 10)
  {
    hide Weights;
    hide WeightOf;
    AddNext(TEN_LOADS, TEN_BETTER, 4, [0.0, 0.0, 69.0, 0.0, 0.0, 61.0, 81.0, 70.0, 0.0, 0.0]);
    AddNext(TEN_LOADS, TEN_BETTER, 5, [0.0, 61.0, 69.0, 0.0, 0.0, 61.0, 81.0, 70.0, 0.0, 0.0]);
    AddNext(TEN_LOADS, TEN_BETTER, 6, [0.0, 61.0, 69.0, 0.0, 0.0, 61.0, 81.0, 70.0, 60.0, 0.0]);
    AddNext(TEN_LOADS, TEN_BETTER, 7, [0.0, 61.0, 69.0, 0.0, 0.0, 61.0, 81.0, 70.0, 119.0, 0.0]);
  }

  lemma TenOnThreeBetter2()
    requires [0.0, 120.0, 69.0, 0.0, 0.0, 61.0, 81.0, 70.0, 119.0, 0.0] == Weights(TEN_LOADS[..8], TEN_BETTER[..8], 10)
    ensures [50.0, 120.0, 120.0, 0.0, 0.0, 119.0, 81.0, 120.0, 119.0, 0.0] == Weights(TEN_LOADS[..12], TEN_BETTER[..12], 10)
  {
    hide Weights;
    hide WeightOf;
    AddNext(TEN_LOADS, TEN_BETTER, 8, [0.0, 120.0, 69.0, 0.0, 0.0, 61.0, 81.0, 70.0, 119.0, 0.0]);
    AddNext(TEN_LOADS, TEN_BETTER, 9, [0.0, 120.0, 69.0, 0.0, 0.0, 119.0, 81.0, 70.0, 119.0, 0.0]);
    AddNext(TEN_LOADS, TEN_BETTER, 10, [0.0, 120.0, 120.0, 0.0, 0.0, 119.0, 81.0, 70.0, 119.0, 0.0]);
    AddNext(TEN_LOADS, TEN_BETTER, 11, [0.0, 120.0, 120.0, 0.0, 0.0, 119.0, 81.0, 120.0, 119.0, 0.0]);
  }

  lemma TenOnThreeBetter3()
    requires [50.0, 120.0, 120.0, 0.0, 0.0, 119.0, 81.0, 120.0, 119.0, 0.0] == Weights(TEN_LOADS[..12], TEN_BETTER[..12], 10)
    ensures [50.0, 120.0, 120.0, 90.0, 0.0, 119.0, 81.0, 120.0, 119.0, 90.0] == Weights(TEN_LOADS[..16], TEN_BETTER[..16], 10)
  {
    hide Weights;
    hide WeightOf;
    AddNext(TEN_LOADS, TEN_BETTER, 12, [50.0, 120.0, 120.0, 0.0, 0.0, 119.0, 81.0, 120.0, 119.0, 0.0]);
    AddNext(TEN_LOADS, TEN_BETTER, 13, [50.0, 120.0, 120.0, 0.0, 0.0, 119.0, 81.0, 120.0, 119.0, 50.0]);
    AddNext(TEN_LOADS, TEN_BETTER, 14, [50.0, 120.0, 120.0, 50.0, 0.0, 119.0, 81.0, 120.0, 119.0, 50.0]);
    AddNext(TEN_LOADS, TEN_BETTER, 15, [50.0, 120.0, 120.0, 90.0, 0.0, 119.0, 81.0, 120.0, 119.0, 50.0]);
  }

  lemma TenOnThreeBetter4()
    requires [50.0, 120.0, 120.0, 90.0, 0.0, 119.0, 81.0, 120.0, 119.0, 90.0] == Weights(TEN_LOADS[..16], TEN_BETTER[..16], 10)
    ensures [90.0, 120.0, 120.0, 90.0, 120.0, 119.0, 81.0, 120.0, 119.0, 90.0] == Weights(TEN_LOADS[..20], TEN_BETTER[..20], 10)
  {
    hide Weights;
    hide WeightOf;
    AddNext(TEN_LOADS, TEN_BETTER, 16, [50.0, 120.0, 120.0, 90.0, 0.0, 119.0, 81.0, 120.0, 119.0, 90.0]);
    AddNext(TEN_LOADS, TEN_BETTER, 17, [50.0, 120.0, 120.0, 90.0, 40.0, 119.0, 81.0, 120.0, 119.0, 90.0]);
    AddNext(TEN_LOADS, TEN_BETTER, 18, [90.0, 120.0, 120.0, 90.0, 40.0, 119.0, 81.0, 120.0, 119.0, 90.0]);
    AddNext(TEN_LOADS, TEN_BETTER, 19, [90.0, 120.0, 120.0, 90.0, 80.0, 119.0, 81.0, 120.0, 119.0, 90.0]);
  }

  lemma TenOnThreePlanned()
    ensures Positive(TEN_CAPACITY) && WeightOf(TEN_LOADS, Greedy(TEN_LOADS, TEN_CAPACITY), 0) == 121.0
  {
    hide Greedy;
    hide WeightOf;
    assert TEN_LOADS[..10] == [81.0, 70.0, 69.0, 61.0, 61.0, 60.0, 59.0, 59.0, 58.0, 51.0];
    OneEachReached(TEN_LOADS, TEN_CAPACITY);
    TenOnThreeLeg0();
    TenOnThreeLeg1();
    TenOnThreeLeg2();
    TenOnThreeLeg3();
    TenOnThreeLeg4();
    TenOnThreeLeg5();
    assert TEN_LOADS[..20] == TEN_LOADS;
    WeightReached(TEN_LOADS, TEN_CAPACITY, [121.0, 110.0, 109.0, 101.0, 111.0, 110.0, 99.0, 109.0, 108.0, 91.0], 0);
  }

  lemma TenOnThreeStart()
    ensures [0.0, 0.0, 0.0, 0.0, 0.0, 0.0, 0.0, 0.0, 0.0, 0.0] == Weights(TEN_LOADS[..0], TEN_BETTER[..0], 10)
  {
  }

  lemma TenOnThreeFits()
    ensures Assigns(TEN_LOADS, TEN_BETTER, 10) && Fits(TEN_LOADS, TEN_BETTER, TEN_CAPACITY, 360.0)
  {
    hide WeightOf;
    TenOnThreeStart();
    TenOnThreeBetter0();
    TenOnThreeBetter1();
    TenOnThreeBetter2();
    TenOnThreeBetter3();
    TenOnThreeBetter4();
    assert TEN_LOADS[..20] == TEN_LOADS && TEN_BETTER[..20] == TEN_BETTER;
    FitsReached(TEN_LOADS, TEN_BETTER, TEN_CAPACITY, 360.0, [90.0, 120.0, 120.0, 90.0, 120.0, 119.0, 81.0, 120.0, 119.0, 90.0]);
  }

  lemma TenOnThreeCapacity()
    ensures Capacity(10, 3) == TEN_CAPACITY
  {
    hide Capacity;
    forall i: nat | i < 10 ensures Capacity(10, 3)[i] == TEN_CAPACITY[i] { CapacityValue(10, 3, i); }
  }

  /** Ten shards on three devices: the first shard, on the device shared by four, carries 121 where
      another plan gives no device more than 360, so that shard at most 90. */
  lemma TenOnThree()
    ensures
      var loads, b, capacity := TEN_LOADS, TEN_BETTER, Capacity(10, 3);
      && Positive(capacity) && Descending(loads) && Assigns(loads, b, 10) && Fits(loads, b, capacity, 360.0)
      && 3.0 * WeightOf(loads, Greedy(loads, capacity), 0) > 4.0 * Carries(360.0, capacity[0])
  {
    hide Capacity;
    hide Greedy;
    hide WeightOf;
    TenOnThreeCapacity();
    TenOnThreePlanned();
    TenOnThreeFits();
    hide Fits;
    hide Assigns;
  }
}
