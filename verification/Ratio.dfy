/** What a pair of throughput numbers supports: a measured capacity, a floor under one, or nothing,
    and the verdict their ratio can carry. */
module Ratios {
  import opened Options
  import opened Growth

  datatype Kind = Capacity | Floor | Nothing

  datatype Throughput = Throughput(rate: Option<real>, verdict: Verdict)

  // A rate is clamped at zero where it is computed.
  predicate Sensible(t: Throughput) { t.rate.Some? ==> t.rate.value >= 0.0 }

  function KindOf(t: Throughput): Kind {
    if t.rate.None? then Nothing
    else if t.verdict.Saturated? then Capacity
    else if t.verdict.Sustained? || t.verdict.Draining? then Floor
    else Nothing
  }

  // ----- a module's sustained rate -----

  function Sustained(offered: real, slope: real): real {
    var kept := if offered - slope > 0.0 then offered - slope else 0.0;
    if offered < kept then offered else kept
  }

  /** The sustained rate lies between zero and the offer, and is the offer less the growth exactly
      when the growth is neither negative nor above the offer. */
  lemma SustainedIsClamped(offered: real, slope: real)
    requires offered >= 0.0
    ensures 0.0 <= Sustained(offered, slope) <= offered
    ensures Sustained(offered, slope) == offered - slope <==> 0.0 <= slope <= offered
  {
  }

  // A module of a run: the verdict of its fit, and whether its buffer hit its bound.
  datatype Module = Module(verdict: Verdict, capped: bool)

  function RunVerdict(modules: seq<Module>): Verdict {
    if exists m <- modules :: m.capped then Unmeasured
    else if exists m <- modules :: m.verdict.Unmeasured? then Unmeasured
    else if exists m <- modules :: m.verdict.Saturated? then Saturated
    else if modules != [] && forall m <- modules :: m.verdict.Draining? then Draining
    else Verdict.Sustained
  }

  /** A run supports a claim only when every module's buffer was neither capped nor unbounded; a run
      counts as saturated exactly when moreover one module is, and the order of modules is nothing. */
  lemma RunVerdictFailsClosed(modules: seq<Module>, others: seq<Module>)
    requires multiset(modules) == multiset(others)
    ensures RunVerdict(modules) == RunVerdict(others)
    ensures RunVerdict(modules).Unmeasured? <==> exists m <- modules :: m.capped || m.verdict.Unmeasured?
    ensures RunVerdict(modules).Saturated? <==>
      (forall m <- modules :: !m.capped && !m.verdict.Unmeasured?) && exists m <- modules :: m.verdict.Saturated?
    ensures RunVerdict(modules).Draining? <==> modules != [] && forall m <- modules :: !m.capped && m.verdict.Draining?
  {
    assert forall m :: m in modules <==> m in multiset(modules);
    assert forall m :: m in others <==> m in multiset(others);
    assert |modules| == |multiset(modules)| && |others| == |multiset(others)|;
  }

  // ----- the ratio -----

  datatype Claim = Exact | AtLeast | AtMost

  datatype Judgement = Met | NotMet | Inconclusive | Unavailable

  datatype Ratio = Ratio(value: Option<real>, claim: Option<Claim>, judgement: Judgement)

  function Over(x: real, y: real): real
    requires y != 0.0
  {
    x / y
  }

  function RatioOf(base: Throughput, ours: Throughput, target: real): Ratio {
    var b, o := KindOf(base), KindOf(ours);
    if b.Nothing? || o.Nothing? then Ratio(None, None, Unavailable)
    else if b.Floor? && o.Floor? then Ratio(None, None, Unavailable)
    else if base.rate.value == 0.0 then Ratio(None, None, Unavailable)
    else
      var value := Over(ours.rate.value, base.rate.value);
      if b.Capacity? && o.Capacity? then Ratio(Some(value), Some(Exact), if value >= target then Met else NotMet)
      else if o.Floor? then Ratio(Some(value), Some(AtLeast), if value >= target then Met else Inconclusive)
      else Ratio(Some(value), Some(AtMost), if value < target then NotMet else Inconclusive)
  }

  // ----- what the numbers say about true capacities -----

  // A true capacity that this measurement does not rule out: a buffer that grew shows it, one that did
  // not is only below it, and no measurement says nothing.
  predicate Consistent(t: Throughput, capacity: real) {
    if t.rate.None? || t.verdict.Unmeasured? then capacity >= 0.0
    else if t.verdict.Saturated? then capacity == t.rate.value
    else capacity >= t.rate.value
  }

  // True capacities the two measurements allow, with a baseline there is something to divide by.
  predicate Possible(base: Throughput, ours: Throughput, b: real, o: real) {
    b > 0.0 && Consistent(base, b) && Consistent(ours, o)
  }

  ghost predicate CanMeet(base: Throughput, ours: Throughput, target: real) {
    exists b, o :: Possible(base, ours, b, o) && Over(o, b) >= target
  }

  ghost predicate CanMiss(base: Throughput, ours: Throughput, target: real) {
    exists b, o :: Possible(base, ours, b, o) && Over(o, b) < target
  }

  // Numbers that settle the question without supporting a division: a baseline that did nothing,
  // or ours that did nothing against a baseline with no positive number.
  predicate Degenerate(base: Throughput, ours: Throughput) {
    || base == Throughput(Some(0.0), Saturated)
    || (ours == Throughput(Some(0.0), Saturated) && (base.rate.None? || base.verdict.Unmeasured? || base.rate.value == 0.0))
  }

  lemma Cancel(x: real, y: real)
    requires y > 0.0
    ensures Over(x * y, y) == x && Over(x, y) * y == x
  {
  }

  lemma OverOrder(x: real, z: real, y: real)
    requires y > 0.0
    ensures x >= z <==> Over(x, y) >= Over(z, y)
  {
    Cancel(x, y);
    Cancel(z, y);
    Times(Over(x, y), Over(z, y), y);
  }

  lemma Times(p: real, q: real, y: real)
    requires y > 0.0
    ensures p >= q <==> p * y >= q * y
  {
    if p >= q { Products(p - q, y); } else { Products(q - p, y); }
  }

  lemma Products(d: real, y: real)
    requires d >= 0.0 && y > 0.0
    ensures d * y >= 0.0 && (d > 0.0 ==> d * y > 0.0)
  {
  }

  lemma OverLarger(x: real, y: real, z: real)
    requires x >= 0.0 && 0.0 < y <= z
    ensures Over(x, z) <= Over(x, y)
  {
    Cancel(x, y);
    Cancel(x, z);
    var p, q := Over(x, y), Over(x, z);
    Scale(z, x);
    assert q * z == q * y + q * (z - y);
    if z > y { Products(q, z - y); }
    Times(p, q, y);
  }

  lemma Scale(t: real, x: real)
    requires t > 0.0 && x >= 0.0
    ensures Over(x, t) >= 0.0
  {
    OverOrder(x, 0.0, t);
    Cancel(0.0, t);
  }

  // Ours can always be large enough to reach the target.
  lemma FarEnough(b: real, floor: real, target: real) returns (o: real)
    requires b > 0.0
    ensures o >= floor && o >= 0.0 && Over(o, b) >= target
  {
    Cancel(target, b);
    o := if target * b >= floor then target * b else floor;
    if o < 0.0 { o := 0.0; }
    OverOrder(o, target * b, b);
  }

  // The baseline can always be fast enough for the target to be missed.
  lemma FastEnough(o: real, floor: real, target: real) returns (b: real)
    requires o >= 0.0 && target > 0.0
    ensures b >= floor && b > 0.0 && Over(o, b) < target
  {
    Scale(target, o);
    b := Over(o, target) + 1.0;
    if b < floor { b := floor; }
    Cancel(o, target);
    Cancel(target, b);
    var d := b - Over(o, target);
    Products(d, target);
    assert target * b == target * Over(o, target) + target * d;
    OverOrder(o, target * b, b);
  }

  // The baseline can always be slow enough for a working system of ours to reach the target.
  lemma SlowEnough(o: real, target: real) returns (b: real)
    requires o > 0.0 && target > 0.0
    ensures b > 0.0 && Over(o, b) >= target
  {
    b := Over(o, target);
    Cancel(o, target);
    OverOrder(0.0, o, target);
    Cancel(0.0, target);
    Cancel(target, b);
    assert o == target * b;
  }

  /** Soundness: what is called met is met by every pair of true capacities the measurements allow,
      and what is called not met is met by none. */
  lemma JudgementIsSound(base: Throughput, ours: Throughput, target: real, b: real, o: real)
    requires Sensible(base) && Sensible(ours) && Possible(base, ours, b, o)
    ensures
      var r := RatioOf(base, ours, target);
      && (r.judgement.Met? ==> Over(o, b) >= target)
      && (r.judgement.NotMet? ==> Over(o, b) < target)
      && (r.claim == Some(Exact) ==> Over(o, b) == r.value.value)
      && (r.claim == Some(AtLeast) ==> Over(o, b) >= r.value.value)
      && (r.claim == Some(AtMost) ==> Over(o, b) <= r.value.value)
  {
    var r := RatioOf(base, ours, target);
    if r.claim == Some(AtLeast) { OverOrder(o, ours.rate.value, b); }
    if r.claim == Some(AtMost) { OverLarger(o, base.rate.value, b); }
  }

  /** Tightness: no verdict is withheld that the measurements support. The answer is left open exactly
      when true capacities on both sides of the target are possible, or one side did nothing at all. */
  lemma JudgementIsTight(base: Throughput, ours: Throughput, target: real)
    requires Sensible(base) && Sensible(ours) && target > 0.0
    ensures
      var j := RatioOf(base, ours, target).judgement;
      j.Inconclusive? || j.Unavailable? <==> (CanMeet(base, ours, target) && CanMiss(base, ours, target)) || Degenerate(base, ours)
  {
    hide Over;
    var j := RatioOf(base, ours, target).judgement;
    if j.Met? {
      if CanMiss(base, ours, target) {
        var b, o :| Possible(base, ours, b, o) && Over(o, b) < target;
        JudgementIsSound(base, ours, target, b, o);
      }
    } else if j.NotMet? {
      if CanMeet(base, ours, target) {
        var b, o :| Possible(base, ours, b, o) && Over(o, b) >= target;
        JudgementIsSound(base, ours, target, b, o);
      }
    } else if !Degenerate(base, ours) {
      BothSides(base, ours, target);
    }
  }

  // A capacity the measurement allows, as large as it has to be only if nothing bounds it.
  function Least(t: Throughput): real {
    if t.rate.Some? && !KindOf(t).Nothing? then t.rate.value else 0.0
  }

  lemma BothSides(base: Throughput, ours: Throughput, target: real)
    requires Sensible(base) && Sensible(ours) && target > 0.0 && !Degenerate(base, ours)
    requires RatioOf(base, ours, target).judgement.Inconclusive? || RatioOf(base, ours, target).judgement.Unavailable?
    ensures CanMeet(base, ours, target) && CanMiss(base, ours, target)
  {
    hide Over;
    var b0, o0 := if Least(base) > 0.0 then Least(base) else 1.0, Least(ours);
    assert Consistent(base, b0) && Consistent(ours, o0);
    // reaching the target
    if KindOf(ours).Capacity? {
      if KindOf(base).Floor? && b0 == base.rate.value {
        assert Possible(base, ours, b0, o0) && Over(o0, b0) >= target;
      } else {
        var b := SlowEnough(o0, target);
        assert Possible(base, ours, b, o0);
      }
    } else {
      var o := FarEnough(b0, o0, target);
      assert Possible(base, ours, b0, o);
    }
    // missing it
    if KindOf(base).Capacity? {
      if KindOf(ours).Floor? {
        assert Possible(base, ours, b0, o0) && Over(o0, b0) < target;
      } else {
        Cancel(0.0, b0);
        assert Possible(base, ours, b0, 0.0) && Over(0.0, b0) < target;
      }
    } else {
      var b := FastEnough(o0, b0, target);
      assert Possible(base, ours, b, o0);
    }
  }

  // ----- the sweep -----

  // What measuring one rung of the ladder gives.
  datatype Rung = Raised | Measured(result: Throughput)

  const NO_MEASUREMENT := Throughput(None, Unmeasured)

  // The rungs measured before the climb ends: at a refusal, or with the first capacity.
  function Climbed(rungs: seq<Rung>): seq<Throughput> {
    if rungs == [] || rungs[0].Raised? then []
    else if KindOf(rungs[0].result).Capacity? then [rungs[0].result]
    else [rungs[0].result] + Climbed(rungs[1..])
  }

  // The answer is one of the measurements climbed, and none of them is a stronger number.
  ghost predicate Strongest(climbed: seq<Throughput>, best: Throughput) {
    match KindOf(best)
    case Capacity => climbed != [] && climbed[|climbed| - 1] == best
    case Floor => best in climbed && forall t <- climbed ::
      !KindOf(t).Capacity? && (KindOf(t).Floor? ==> t.rate.value <= best.rate.value)
    case Nothing => best == NO_MEASUREMENT && forall t <- climbed :: KindOf(t).Nothing?
  }

  // A rate as a number, zero where there is none.
  function Number(t: Throughput): real { if t.rate.Some? then t.rate.value else 0.0 }

  // The strongest floor so far, if there is one, and no capacity yet.
  ghost predicate BestFloor(runs: seq<Throughput>, floor: Option<Throughput>) {
    && (forall t <- runs :: !KindOf(t).Capacity?)
    && (floor.None? ==> forall t <- runs :: KindOf(t).Nothing?)
    && (floor.Some? ==> KindOf(floor.value).Floor? && floor.value in runs
                        && forall t <- runs :: KindOf(t).Floor? ==> t.rate.value <= floor.value.rate.value)
  }

  lemma BestFloorNext(runs: seq<Throughput>, floor: Option<Throughput>, t: Throughput)
    requires BestFloor(runs, floor) && !KindOf(t).Capacity?
    ensures BestFloor(runs + [t],
      if KindOf(t).Floor? && (floor.None? || Number(t) > Number(floor.value)) then Some(t) else floor)
  {
    assert forall u :: u in runs + [t] <==> u in runs || u == t;
  }

  lemma ClimbedNext(rungs: seq<Rung>, i: nat)
    requires i < |rungs|
    ensures rungs[i].Raised? ==> Climbed(rungs[i..]) == []
    ensures rungs[i].Measured? ==>
      Climbed(rungs[i..]) == [rungs[i].result] + (if KindOf(rungs[i].result).Capacity? then [] else Climbed(rungs[i + 1..]))
  {
    assert rungs[i..][1..] == rungs[i + 1..];
  }

  // The climb's answer: the strongest floor, or that nothing was measured.
  lemma BestFloorIsStrongest(runs: seq<Throughput>, floor: Option<Throughput>)
    requires BestFloor(runs, floor)
    ensures Strongest(runs, if floor.Some? then floor.value else NO_MEASUREMENT)
  {
  }

  lemma CapacityIsStrongest(runs: seq<Throughput>, t: Throughput)
    requires KindOf(t).Capacity?
    ensures Strongest(runs + [t], t)
  {
  }

  lemma ClimbEnds(rungs: seq<Rung>)
    ensures Climbed(rungs[|rungs|..]) == [] && Climbed(rungs[0..]) == Climbed(rungs) && BestFloor([], None)
  {
    assert rungs[0..] == rungs;
  }

  // Climb the offered rate until the system saturates, over the rungs in ascending order.
  method SweepSystem(rungs: seq<Rung>) returns (runs: seq<Throughput>, best: Throughput)
    ensures runs == Climbed(rungs)
    ensures Strongest(runs, best)
  {
    hide *;
    ClimbEnds(rungs);
    runs := [];
    var floor: Option<Throughput> := None;
    var i := 0;
    while i < |rungs|
      invariant 0 <= i <= |rungs|
      invariant Climbed(rungs) == runs + Climbed(rungs[i..])
      invariant BestFloor(runs, floor)
    {
      ClimbedNext(rungs, i);
      if rungs[i].Raised? {
        BestFloorIsStrongest(runs, floor);
        return runs, if floor.Some? then floor.value else NO_MEASUREMENT;
      }
      var t := rungs[i].result;
      if KindOf(t).Capacity? {
        CapacityIsStrongest(runs, t);
        return runs + [t], t;
      }
      BestFloorNext(runs, floor, t);
      runs := runs + [t];
      if KindOf(t).Floor? && (floor.None? || Number(t) > Number(floor.value)) {
        floor := Some(t);
      }
      i := i + 1;
    }
    BestFloorIsStrongest(runs, floor);
    best := if floor.Some? then floor.value else NO_MEASUREMENT;
  }

  /** A sweep says nothing false: if every rung measured is consistent with one true capacity, so is
      the sweep's answer, and two sweeps give a sound verdict. */
  lemma SweepKeepsTruth(climbed: seq<Throughput>, best: Throughput, capacity: real)
    requires Strongest(climbed, best) && capacity >= 0.0
    requires forall t <- climbed :: Consistent(t, capacity)
    ensures Consistent(best, capacity)
  {
  }

  lemma SweptVerdictIsSound(base: seq<Throughput>, b: Throughput, ours: seq<Throughput>, o: Throughput,
                            baseCapacity: real, ourCapacity: real, target: real)
    requires Strongest(base, b) && Strongest(ours, o) && Sensible(b) && Sensible(o)
    requires baseCapacity > 0.0 && ourCapacity >= 0.0
    requires (forall t <- base :: Consistent(t, baseCapacity)) && forall t <- ours :: Consistent(t, ourCapacity)
    ensures RatioOf(b, o, target).judgement.Met? ==> Over(ourCapacity, baseCapacity) >= target
    ensures RatioOf(b, o, target).judgement.NotMet? ==> Over(ourCapacity, baseCapacity) < target
  {
    SweepKeepsTruth(base, b, baseCapacity);
    SweepKeepsTruth(ours, o, ourCapacity);
    JudgementIsSound(b, o, target, baseCapacity, ourCapacity);
  }
}
