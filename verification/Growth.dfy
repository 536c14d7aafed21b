/** Sums of real sequences. */
module RealSums {

  function Sum(s: seq<real>): real {
    if s == [] then 0.0 else Sum(s[..|s| - 1]) + s[|s| - 1]
  }

  lemma SumNext(s: seq<real>, x: real)
    ensures Sum(s + [x]) == Sum(s) + x
  {
    assert (s + [x])[..|s|] == s;
  }

  // Products and quotients by name, so that lemmas about sums need not look inside them.
  function Mul(x: real, y: real): real { x * y }

  function Quot(x: real, y: real): real
    requires y > 0.0
  {
    x / y
  }

  lemma MulAdds(x: real, y: real, z: real)
    ensures Mul(x, y + z) == Mul(x, y) + Mul(x, z)
    ensures Mul(y + z, x) == Mul(y, x) + Mul(z, x)
  {
  }

  lemma MulOne(x: real)
    ensures Mul(x, 1.0) == x && Mul(x, 0.0) == 0.0 && Mul(0.0, x) == 0.0
  {
  }

  lemma QuotAdds(x: real, y: real, c: real)
    requires y > 0.0
    ensures Quot(x + Mul(c, y), y) == Quot(x, y) + c
  {
    assert (c * y) / y == c;
  }

  function Mean(s: seq<real>): real
    requires s != []
  {
    Quot(Sum(s), |s| as real)
  }

  // The sum of the products of two sequences' deviations from `x` and `y`.
  function Cross(s: seq<real>, x: real, t: seq<real>, y: real): real
    requires |s| == |t|
  {
    if s == [] then 0.0
    else
      var n := |s| - 1;
      Cross(s[..n], x, t[..n], y) + Mul(s[n] - x, t[n] - y)
  }

  lemma {:induction false} CrossNonNegative(s: seq<real>, x: real)
    ensures Cross(s, x, s, x) >= 0.0
  {
    hide Mul;
    if s != [] {
      CrossNonNegative(s[..|s| - 1], x);
      SquareNonNegative(s[|s| - 1] - x);
    }
  }

  lemma SquareNonNegative(d: real)
    ensures Mul(d, d) >= 0.0
  {
  }

  lemma ProductPositive(x: real, y: real)
    requires x > 0.0 && y > 0.0
    ensures Mul(x, y) > 0.0
  {
  }

  lemma ProductNonNegative(x: real, y: real)
    requires x >= 0.0 && y >= 0.0
    ensures Mul(x, y) >= 0.0
  {
  }

  lemma SquarePositive(d: real)
    requires d != 0.0
    ensures Mul(d, d) > 0.0
  {
    if d > 0.0 {
      ProductPositive(d, d);
    } else {
      ProductPositive(-d, -d);
      assert Mul(-d, -d) == Mul(d, d);
    }
  }

  lemma {:induction false} CrossPositive(s: seq<real>, x: real, i: nat)
    requires i < |s| && s[i] != x
    ensures Cross(s, x, s, x) > 0.0
  {
    hide Mul;
    var n := |s| - 1;
    if i == n {
      CrossNonNegative(s[..n], x);
      SquarePositive(s[n] - x);
    } else {
      CrossPositive(s[..n], x, i);
      SquareNonNegative(s[n] - x);
    }
  }

  lemma MeanTimes(s: seq<real>)
    requires s != []
    ensures Mul(Mean(s), |s| as real) == Sum(s)
  {
  }

  lemma MeanFrom(s: seq<real>, m: real)
    requires s != [] && Sum(s) == Mul(m, |s| as real)
    ensures Mean(s) == m
  {
    assert (m * |s| as real) / |s| as real == m;
  }
}

/** The buffer-growth estimator: a slope, the interval around it, and the verdict they support. */
module Growth {
  import opened RealSums

  // ----- first differences -----

  // Per-second first differences, over the steps that go forward in time.
  function Diffs(times: seq<real>, values: seq<real>): (d: seq<real>)
    requires |times| == |values|
    ensures |d| == Forward(times)
  {
    if |times| < 2 then []
    else
      var n := |times| - 1;
      Diffs(times[..n], values[..n])
      + (if times[n] > times[n - 1] then [Quot(values[n] - values[n - 1], times[n] - times[n - 1])] else [])
  }

  // How many steps go forward.
  function Forward(times: seq<real>): nat {
    if |times| < 2 then 0
    else
      var n := |times| - 1;
      Forward(times[..n]) + (if times[n] > times[n - 1] then 1 else 0)
  }

  // ----- the fit -----

  // The half-width of the 95% interval, by its square; unbounded with fewer than two differences.
  datatype HalfWidth = Unbounded | Half(squared: real)

  datatype Fit = Fit(slope: real, half: HalfWidth, ols: real, samples: nat, span: real)

  datatype Outcome = Fitted(fit: Fit) | LengthsDiffer | NoDuration | NoStep

  datatype Verdict = Saturated | Sustained | Draining | Unmeasured

  // The square of t * sqrt(var / n), over `critical` for the critical value.
  function HalfSquared(diffs: seq<real>, critical: real): real
    requires |diffs| >= 2
  {
    var m := Mean(diffs);
    var variance := Quot(Cross(diffs, m, diffs, m), (|diffs| - 1) as real);
    Mul(Mul(critical, critical), Quot(variance, |diffs| as real))
  }

  function OlsSlope(times: seq<real>, values: seq<real>): real
    requires |times| == |values| > 0
  {
    var tm, vm := Mean(times), Mean(values);
    var sxx := Cross(times, tm, times, tm);
    if sxx > 0.0 then Quot(Cross(times, tm, values, vm), sxx) else 0.0
  }

  // `critical(df)` is the Student-t critical value of that many degrees of freedom.
  function FitGrowth(times: seq<real>, values: seq<real>, critical: nat -> real): Outcome {
    if |times| != |values| then LengthsDiffer
    else if |values| < 2 then Fitted(Fit(0.0, Unbounded, 0.0, |values|, 0.0))
    else
      var span := times[|times| - 1] - times[0];
      if span <= 0.0 then NoDuration
      else
        var diffs := Diffs(times, values);
        if diffs == [] then NoStep
        else
          Fitted(Fit(Mean(diffs),
                     if |diffs| < 2 then Unbounded else Half(HalfSquared(diffs, critical(|diffs| - 1))),
                     OlsSlope(times, values), |values|, span))
  }

  // `low > 0` and `high < 0`, without the square root.
  function VerdictOf(fit: Fit): Verdict {
    if fit.half.Unbounded? then Unmeasured
    else if fit.slope > 0.0 && Mul(fit.slope, fit.slope) > fit.half.squared then Saturated
    else if fit.slope < 0.0 && Mul(fit.slope, fit.slope) > fit.half.squared then Draining
    else Sustained
  }

  predicate Linear(fit: Fit) {
    fit.half.Unbounded? || Mul(fit.ols - fit.slope, fit.ols - fit.slope) <= fit.half.squared
  }

  lemma SquareOrder(x: real, h: real)
    requires x >= 0.0 && h >= 0.0
    ensures x > h <==> x * x > h * h
  {
    assert x * x - h * h == Mul(x - h, x + h);
    if x > h {
      ProductPositive(x - h, x + h);
    } else {
      assert Mul(x - h, x + h) == -Mul(h - x, x + h);
      ProductNonNegative(h - x, x + h);
    }
  }

  /** The comparisons on squares are the comparisons on the interval's ends: whatever number `h` is
      the half-width, the verdict and `linear` are what `slope - h`, `slope + h` and the distance
      between the two slopes decide. */
  lemma VerdictIsByInterval(fit: Fit, h: real)
    requires fit.half.Half? && h >= 0.0 && h * h == fit.half.squared
    ensures VerdictOf(fit) == (if fit.slope - h > 0.0 then Saturated else if fit.slope + h < 0.0 then Draining else Sustained)
    ensures Linear(fit) <==> -h <= fit.ols - fit.slope <= h
  {
    var s, d := fit.slope, fit.ols - fit.slope;
    SquareOrder(if s >= 0.0 then s else -s, h);
    SquareOrder(if d >= 0.0 then d else -d, h);
  }

  /** The verdict is withheld exactly when fewer than two steps go forward in time: a series of one or
      two samples is never called sustained. */
  lemma UnmeasuredIff(times: seq<real>, values: seq<real>, critical: nat -> real)
    requires FitGrowth(times, values, critical).Fitted?
    ensures VerdictOf(FitGrowth(times, values, critical).fit).Unmeasured? <==> Forward(times) < 2
    ensures |times| < 3 ==> VerdictOf(FitGrowth(times, values, critical).fit).Unmeasured?
  {
    ForwardAtMost(times);
    hide Mean;
    hide HalfSquared;
    hide OlsSlope;
  }

  lemma {:induction false} ForwardAtMost(times: seq<real>)
    ensures Forward(times) <= |times| - 1 || times == []
  {
    if |times| >= 2 { ForwardAtMost(times[..|times| - 1]); }
  }

  // ----- adding a line to a series -----

  function AddLine(times: seq<real>, values: seq<real>, a: real, c: real): (r: seq<real>)
    requires |times| == |values|
    ensures |r| == |values| && forall i :: 0 <= i < |r| ==> r[i] == values[i] + a + Mul(c, times[i])
  {
    seq(|values|, i requires 0 <= i < |values| => values[i] + a + Mul(c, times[i]))
  }

  function Shift(s: seq<real>, c: real): (r: seq<real>)
    ensures |r| == |s| && forall i :: 0 <= i < |r| ==> r[i] == s[i] + c
  {
    seq(|s|, i requires 0 <= i < |s| => s[i] + c)
  }

  lemma ShiftNext(s: seq<real>, x: real, c: real)
    ensures Shift(s + [x], c) == Shift(s, c) + [x + c] && Shift(s + [], c) == Shift(s, c) + []
  {
    assert s + [] == s;
  }

  lemma DiffsNext(times: seq<real>, values: seq<real>)
    requires |times| == |values| >= 2
    ensures
      var n := |times| - 1;
      Diffs(times, values) == Diffs(times[..n], values[..n])
        + (if times[n] > times[n - 1] then [Quot(values[n] - values[n - 1], times[n] - times[n - 1])] else [])
  {
  }

  lemma FewDiffs(times: seq<real>, values: seq<real>)
    requires |times| == |values| < 2
    ensures Diffs(times, values) == []
  {
  }

  lemma {:induction false} DiffsShift(times: seq<real>, values: seq<real>, a: real, c: real)
    requires |times| == |values|
    ensures Diffs(times, AddLine(times, values, a, c)) == Shift(Diffs(times, values), c)
  {
    var moved := AddLine(times, values, a, c);
    hide *;
    if |times| < 2 {
      FewDiffs(times, values);
      FewDiffs(times, moved);
    } else {
      var n := |times| - 1;
      DiffsShift(times[..n], values[..n], a, c);
      DiffsNext(times, values);
      DiffsNext(times, moved);
      assert moved[..n] == AddLine(times[..n], values[..n], a, c);
      if times[n] > times[n - 1] {
        StepShift(times, values, a, c, n);
        ShiftNext(Diffs(times[..n], values[..n]), Quot(values[n] - values[n - 1], times[n] - times[n - 1]), c);
      } else {
        ShiftNext(Diffs(times[..n], values[..n]), 0.0, c);
      }
    }
  }

  // One step of a series a line is added to.
  lemma StepShift(times: seq<real>, values: seq<real>, a: real, c: real, n: nat)
    requires 0 < n < |times| == |values| && times[n] > times[n - 1]
    ensures
      var moved, dt := AddLine(times, values, a, c), times[n] - times[n - 1];
      Quot(moved[n] - moved[n - 1], dt) == Quot(values[n] - values[n - 1], dt) + c
  {
    hide Mul;
    hide Quot;
    var moved, dt := AddLine(times, values, a, c), times[n] - times[n - 1];
    MulAdds(c, times[n - 1], dt);
    QuotAdds(values[n] - values[n - 1], dt, c);
    assert moved[n] - moved[n - 1] == (values[n] - values[n - 1]) + Mul(c, dt);
  }

  lemma {:induction false} SumShift(s: seq<real>, c: real)
    ensures Sum(Shift(s, c)) == Sum(s) + Mul(c, |s| as real)
  {
    hide Mul;
    MulOne(c);
    if s != [] {
      var n := |s| - 1;
      SumShift(s[..n], c);
      assert Shift(s, c)[..n] == Shift(s[..n], c);
      MulAdds(c, n as real, 1.0);
    }
  }

  lemma MeanShift(s: seq<real>, c: real)
    requires s != []
    ensures Mean(Shift(s, c)) == Mean(s) + c
  {
    hide Mul;
    hide Mean;
    SumShift(s, c);
    MeanTimes(s);
    MulAdds(|s| as real, Mean(s), c);
    MeanFrom(Shift(s, c), Mean(s) + c);
  }

  lemma {:induction false} CrossShift(s: seq<real>, x: real, c: real)
    ensures Cross(Shift(s, c), x + c, Shift(s, c), x + c) == Cross(s, x, s, x)
  {
    hide Mul;
    if s != [] {
      var n := |s| - 1;
      CrossShift(s[..n], x, c);
      assert Shift(s, c)[..n] == Shift(s[..n], c);
      assert Shift(s, c)[n] - (x + c) == s[n] - x;
    }
  }

  lemma {:induction false} SumAddLine(times: seq<real>, values: seq<real>, a: real, c: real)
    requires |times| == |values|
    ensures Sum(AddLine(times, values, a, c)) == Sum(values) + Mul(a, |values| as real) + Mul(c, Sum(times))
  {
    hide Mul;
    MulOne(a);
    MulOne(c);
    if values != [] {
      var n := |values| - 1;
      SumAddLine(times[..n], values[..n], a, c);
      assert AddLine(times, values, a, c)[..n] == AddLine(times[..n], values[..n], a, c);
      MulAdds(a, n as real, 1.0);
      MulAdds(c, Sum(times[..n]), times[n]);
    }
  }

  lemma MulSwap(x: real, y: real, z: real)
    ensures Mul(x, Mul(y, z)) == Mul(Mul(x, y), z)
  {
  }

  lemma MeanAddLine(times: seq<real>, values: seq<real>, a: real, c: real)
    requires |times| == |values| > 0
    ensures Mean(AddLine(times, values, a, c)) == Mean(values) + a + Mul(c, Mean(times))
  {
    hide Mul;
    hide Mean;
    SumAddLine(times, values, a, c);
    MeanTimes(values);
    MeanTimes(times);
    var k := |values| as real;
    MulSwap(c, Mean(times), k);
    MulAdds(k, Mean(values) + a, Mul(c, Mean(times)));
    MulAdds(k, Mean(values), a);
    MeanFrom(AddLine(times, values, a, c), Mean(values) + a + Mul(c, Mean(times)));
  }

  lemma TermShift(u: real, w: real, c: real)
    ensures Mul(u, w + Mul(c, u)) == Mul(u, w) + Mul(c, Mul(u, u))
  {
  }

  lemma {:induction false} CrossAddLine(times: seq<real>, tm: real, values: seq<real>, vm: real, a: real, c: real)
    requires |times| == |values|
    ensures Cross(times, tm, AddLine(times, values, a, c), vm + a + Mul(c, tm))
      == Cross(times, tm, values, vm) + Mul(c, Cross(times, tm, times, tm))
  {
    hide Mul;
    MulOne(c);
    if times != [] {
      var n := |times| - 1;
      CrossAddLine(times[..n], tm, values[..n], vm, a, c);
      var moved := AddLine(times, values, a, c);
      assert moved[..n] == AddLine(times[..n], values[..n], a, c);
      var u, w := times[n] - tm, values[n] - vm;
      MulAdds(c, tm, u);
      assert moved[n] - (vm + a + Mul(c, tm)) == w + Mul(c, u);
      TermShift(u, w, c);
      MulAdds(c, Cross(times[..n], tm, times[..n], tm), Mul(u, u));
    }
  }

  // Times that span a duration are not all equal to their mean.
  lemma SpreadPositive(times: seq<real>)
    requires |times| >= 2 && times[0] != times[|times| - 1]
    ensures Cross(times, Mean(times), times, Mean(times)) > 0.0
  {
    hide Mul;
    hide Quot;
    var m := Mean(times);
    if times[0] != m { CrossPositive(times, m, 0); } else { CrossPositive(times, m, |times| - 1); }
  }

  lemma OlsAddLine(times: seq<real>, values: seq<real>, a: real, c: real)
    requires |times| == |values| >= 2 && times[0] != times[|times| - 1]
    ensures OlsSlope(times, AddLine(times, values, a, c)) == OlsSlope(times, values) + c
  {
    hide Mul;
    hide Quot;
    hide Cross;
    hide Mean;
    var tm, vm := Mean(times), Mean(values);
    SpreadPositive(times);
    MeanAddLine(times, values, a, c);
    CrossAddLine(times, tm, values, vm, a, c);
    QuotAdds(Cross(times, tm, values, vm), Cross(times, tm, times, tm), c);
  }

  lemma HalfShift(diffs: seq<real>, c: real, critical: real)
    requires |diffs| >= 2
    ensures HalfSquared(Shift(diffs, c), critical) == HalfSquared(diffs, critical)
  {
    hide Mul;
    hide Quot;
    hide Mean;
    MeanShift(diffs, c);
    CrossShift(diffs, Mean(diffs), c);
  }

  /** Adding any line `a + c*t` to a series moves both slopes by exactly `c` and leaves the half-width,
      the span and `linear` as they were; a refusal stays the same refusal. */
  lemma FitShifts(times: seq<real>, values: seq<real>, a: real, c: real, critical: nat -> real)
    requires |times| == |values| >= 2
    ensures
      var before, after := FitGrowth(times, values, critical), FitGrowth(times, AddLine(times, values, a, c), critical);
      if before.Fitted?
      then after == Fitted(before.fit.(slope := before.fit.slope + c, ols := before.fit.ols + c))
           && Linear(after.fit) == Linear(before.fit)
      else after == before
  {
    hide Diffs;
    hide HalfSquared;
    hide OlsSlope;
    hide Mul;
    hide Mean;
    DiffsShift(times, values, a, c);
    var diffs := Diffs(times, values);
    if times[|times| - 1] - times[0] > 0.0 {
      OlsAddLine(times, values, a, c);
      if diffs != [] {
        MeanShift(diffs, c);
        if |diffs| >= 2 { HalfShift(diffs, c, critical(|diffs| - 1)); }
        var before := FitGrowth(times, values, critical).fit;
        assert (before.ols + c) - (before.slope + c) == before.ols - before.slope;
      }
    }
  }

  // ----- an exact line -----

  ghost predicate Increasing(times: seq<real>) {
    forall i :: 0 <= i < |times| - 1 ==> times[i] < times[i + 1]
  }

  lemma {:induction false} IncreasingEnds(times: seq<real>)
    requires Increasing(times) && |times| >= 2
    ensures times[0] < times[|times| - 1] && Forward(times) == |times| - 1
  {
    if |times| > 2 { IncreasingEnds(times[..|times| - 1]); }
    else { assert |times[..1]| < 2; }
  }

  function Zeros(n: nat): (s: seq<real>)
    ensures |s| == n && forall i :: 0 <= i < n ==> s[i] == 0.0
  {
    seq(n, _ => 0.0)
  }

  lemma {:induction false} ZeroDiffs(times: seq<real>)
    ensures Diffs(times, Zeros(|times|)) == Zeros(Forward(times))
  {
    if |times| >= 2 {
      var n := |times| - 1;
      ZeroDiffs(times[..n]);
      assert Zeros(|times|)[..n] == Zeros(n);
      if times[n] > times[n - 1] { assert Quot(0.0, times[n] - times[n - 1]) == 0.0; }
    }
  }

  lemma {:induction false} ZeroSums(n: nat)
    ensures Sum(Zeros(n)) == 0.0 && Cross(Zeros(n), 0.0, Zeros(n), 0.0) == 0.0
  {
    if n > 0 {
      ZeroSums(n - 1);
      assert Zeros(n)[..n - 1] == Zeros(n - 1);
    }
  }

  lemma {:induction false} CrossZeros(times: seq<real>, tm: real)
    ensures Cross(times, tm, Zeros(|times|), 0.0) == 0.0
  {
    if times != [] {
      var n := |times| - 1;
      CrossZeros(times[..n], tm);
      assert Zeros(|times|)[..n] == Zeros(n);
    }
  }

  lemma ZeroFit(times: seq<real>, critical: nat -> real)
    requires Increasing(times) && |times| >= 3
    ensures FitGrowth(times, Zeros(|times|), critical)
      == Fitted(Fit(0.0, Half(0.0), 0.0, |times|, times[|times| - 1] - times[0]))
  {
    var n := |times| - 1;
    IncreasingEnds(times);
    ZeroDiffs(times);
    ZeroSums(n);
    ZeroSums(|times|);
    MulOne(n as real);
    MulOne(|times| as real);
    MeanFrom(Zeros(n), 0.0);
    MeanFrom(Zeros(|times|), 0.0);
    CrossZeros(times, Mean(times));
    hide Cross;
    hide Diffs;
    hide Mean;
  }

  /** On an exact line of at least three samples the slope and the OLS slope are the line's, the
      interval is a point, and the verdict is the sign of the slope. */
  lemma ExactLine(times: seq<real>, values: seq<real>, a: real, b: real, critical: nat -> real)
    requires Increasing(times) && |times| == |values| >= 3
    requires forall i :: 0 <= i < |times| ==> values[i] == a + Mul(b, times[i])
    ensures
      var o := FitGrowth(times, values, critical);
      && o.Fitted? && o.fit.slope == b && o.fit.ols == b && o.fit.half == Half(0.0)
      && VerdictOf(o.fit) == (if b > 0.0 then Saturated else if b < 0.0 then Draining else Sustained)
      && Linear(o.fit)
  {
    var zeros := Zeros(|times|);
    ZeroFit(times, critical);
    FitShifts(times, zeros, a, b, critical);
    assert values == AddLine(times, zeros, a, b);
    hide FitGrowth;
    SquareNonNegative(0.0);
    if b != 0.0 { SquarePositive(b); }
  }

  // ----- the endpoint slope -----

  function Endpoint(times: seq<real>, values: seq<real>): real
    requires |times| == |values| >= 2 && times[0] < times[|times| - 1]
  {
    Quot(values[|values| - 1] - values[0], times[|times| - 1] - times[0])
  }

  ghost predicate Uniform(times: seq<real>, dt: real) {
    forall i :: 0 <= i < |times| - 1 ==> times[i + 1] - times[i] == dt
  }

  lemma {:induction false} UniformSpan(times: seq<real>, dt: real)
    requires Uniform(times, dt) && |times| >= 1
    ensures times[|times| - 1] - times[0] == Mul(dt, (|times| - 1) as real)
  {
    hide Mul;
    MulOne(dt);
    if |times| > 1 {
      UniformSpan(times[..|times| - 1], dt);
      MulAdds(dt, (|times| - 2) as real, 1.0);
    }
  }

  // Differences over equal steps telescope.
  lemma {:induction false} DiffsTelescope(times: seq<real>, values: seq<real>, dt: real)
    requires |times| == |values| >= 1 && dt > 0.0 && Uniform(times, dt)
    ensures Sum(Diffs(times, values)) == Quot(values[|values| - 1] - values[0], dt)
    ensures |Diffs(times, values)| == |times| - 1
  {
    hide Quot;
    QuotZero(dt);
    if |times| > 1 {
      var n := |times| - 1;
      DiffsTelescope(times[..n], values[..n], dt);
      SumNext(Diffs(times[..n], values[..n]), Quot(values[n] - values[n - 1], dt));
      QuotSum(values[n - 1] - values[0], values[n] - values[n - 1], dt);
    }
  }

  lemma QuotZero(y: real)
    requires y > 0.0
    ensures Quot(0.0, y) == 0.0
  {
  }

  lemma QuotSum(a: real, b: real, y: real)
    requires y > 0.0
    ensures Quot(a + b, y) == Quot(a, y) + Quot(b, y)
  {
  }

  lemma QuotQuot(x: real, y: real, z: real)
    requires y > 0.0 && z > 0.0 && Mul(y, z) > 0.0
    ensures Quot(Quot(x, y), z) == Quot(x, Mul(y, z))
  {
    assert (x / y) / z == x / (y * z);
  }

  /** On uniform spacing the mean difference is the endpoint slope. */
  lemma UniformIsEndpoint(times: seq<real>, values: seq<real>, dt: real)
    requires |times| == |values| >= 2 && dt > 0.0 && Uniform(times, dt)
    ensures times[0] < times[|times| - 1] && |Diffs(times, values)| == |times| - 1
    ensures Mean(Diffs(times, values)) == Endpoint(times, values)
  {
    hide Mul;
    hide Quot;
    DiffsTelescope(times, values, dt);
    UniformSpan(times, dt);
    var steps := (|times| - 1) as real;
    ProductPositive(dt, steps);
    QuotQuot(values[|values| - 1] - values[0], dt, steps);
  }

  // Nothing up to sample `i`, one from there on.
  function StepAt(n: nat, i: nat): (s: seq<real>)
    ensures |s| == n && forall j :: 0 <= j < n ==> s[j] == if j <= i then 0.0 else 1.0
  {
    seq(n, j => if j <= i then 0.0 else 1.0)
  }

  lemma {:induction false} StepDiffs(times: seq<real>, i: nat)
    requires Increasing(times) && |times| >= 1
    ensures |Diffs(times, StepAt(|times|, i))| == |times| - 1
    ensures Sum(Diffs(times, StepAt(|times|, i))) == if i + 1 < |times| then Quot(1.0, times[i + 1] - times[i]) else 0.0
  {
    hide Quot;
    if |times| > 1 {
      var n := |times| - 1;
      var s := StepAt(|times|, i);
      StepDiffs(times[..n], i);
      assert s[..n] == StepAt(n, i);
      QuotZero(times[n] - times[n - 1]);
      hide Sum;
      SumNext(Diffs(times[..n], s[..n]), Quot(s[n] - s[n - 1], times[n] - times[n - 1]));
    }
  }

  lemma QuotEqual(a: real, b: real, k: real)
    requires a > 0.0 && b > 0.0 && k > 0.0 && Quot(Quot(1.0, a), k) == Quot(1.0, b)
    ensures b == Mul(a, k)
  {
    ProductPositive(a, k);
    QuotQuot(1.0, a, k);
    assert 1.0 / (a * k) == 1.0 / b;
    assert (1.0 / b) * b == 1.0 && (1.0 / (a * k)) * (a * k) == 1.0;
  }

  lemma MulCancels(a: real, b: real, k: real)
    requires k > 0.0 && Mul(a, k) == Mul(b, k)
    ensures a == b
  {
    if a > b { ProductPositive(a - b, k); } else if a < b { ProductPositive(b - a, k); }
  }

  // If the estimator is the endpoint slope on the step series, that step has the mean length.
  lemma StepHasMeanLength(times: seq<real>, i: nat)
    requires Increasing(times) && i + 1 < |times|
    requires times[0] < times[|times| - 1] && |Diffs(times, StepAt(|times|, i))| > 0
    requires Mean(Diffs(times, StepAt(|times|, i))) == Endpoint(times, StepAt(|times|, i))
    ensures times[|times| - 1] - times[0] == Mul(times[i + 1] - times[i], (|times| - 1) as real)
  {
    hide Quot;
    hide Mul;
    hide Diffs;
    StepDiffs(times, i);
    QuotEqual(times[i + 1] - times[i], times[|times| - 1] - times[0], (|times| - 1) as real);
  }

  // The mean difference is the endpoint slope, whatever was measured.
  ghost predicate AlwaysEndpoint(times: seq<real>)
    requires |times| >= 2 && times[0] < times[|times| - 1]
  {
    forall values: seq<real> :: |values| == |times| ==>
      Diffs(times, values) != [] && Mean(Diffs(times, values)) == Endpoint(times, values)
  }

  /** The estimator is algebraically the endpoint slope exactly when the samples are equally spaced. */
  lemma EndpointIffUniform(times: seq<real>)
    requires Increasing(times) && |times| >= 2
    ensures times[0] < times[|times| - 1]
    ensures AlwaysEndpoint(times) <==> Uniform(times, times[1] - times[0])
  {
    hide Quot;
    hide Mul;
    hide Mean;
    hide Diffs;
    IncreasingEnds(times);
    var dt := times[1] - times[0];
    assert times[0] < times[0 + 1];
    if Uniform(times, dt) {
      forall values: seq<real> | |values| == |times|
        ensures Diffs(times, values) != [] && Mean(Diffs(times, values)) == Endpoint(times, values) {
        UniformIsEndpoint(times, values, dt);
      }
    }
    if AlwaysEndpoint(times) {
      var steps := (|times| - 1) as real;
      assert |StepAt(|times|, 0)| == |times|;
      StepHasMeanLength(times, 0);
      forall i | 0 <= i < |times| - 1 ensures times[i + 1] - times[i] == dt {
        assert |StepAt(|times|, i)| == |times|;
        StepHasMeanLength(times, i);
        MulCancels(times[i + 1] - times[i], dt, steps);
      }
    }
  }

  // ----- least squares -----

  // The sum of the squared residuals of the line `a + b*t`.
  function Residuals(times: seq<real>, values: seq<real>, a: real, b: real): real
    requires |times| == |values|
  {
    if times == [] then 0.0
    else
      var n := |times| - 1;
      var e := values[n] - a - Mul(b, times[n]);
      Residuals(times[..n], values[..n], a, b) + Mul(e, e)
  }

  lemma {:induction false} ResidualsExpand(times: seq<real>, tm: real, values: seq<real>, vm: real, a: real, b: real)
    requires |times| == |values|
    ensures
      var e := vm - a - Mul(b, tm);
      Residuals(times, values, a, b)
        == Cross(values, vm, values, vm) - Mul(2.0, Mul(b, Cross(times, tm, values, vm)))
           + Mul(Mul(b, b), Cross(times, tm, times, tm))
           + Mul(Mul(2.0, e), (Sum(values) - Mul(vm, |values| as real)) - Mul(b, Sum(times) - Mul(tm, |times| as real)))
           + Mul(Mul(e, e), |times| as real)
  {
    var e := vm - a - Mul(b, tm);
    if times != [] {
      var n := |times| - 1;
      ResidualsExpand(times[..n], tm, values[..n], vm, a, b);
      var u, w := times[n] - tm, values[n] - vm;
      ExpandTerm(u, w, b, e, times[n], values[n], a, tm, vm);
      CollectTerm(Cross(values[..n], vm, values[..n], vm), Cross(times[..n], tm, values[..n], vm),
                  Cross(times[..n], tm, times[..n], tm),
                  Sum(values[..n]) - Mul(vm, n as real), Sum(times[..n]) - Mul(tm, n as real), n as real, u, w, b, e);
      MulAdds(vm, n as real, 1.0);
      MulAdds(tm, n as real, 1.0);
      MulOne(vm);
      MulOne(tm);
      hide Mul;
    }
  }

  lemma SquareOfSum(z: real, e: real)
    ensures (z + e) * (z + e) == z * z + (2.0 * e) * z + e * e
  {
  }

  lemma SquareOfDifference(w: real, b: real, u: real)
    ensures (w - b * u) * (w - b * u) == w * w - 2.0 * (b * (u * w)) + (b * b) * (u * u)
  {
  }

  lemma ExpandTerm(u: real, w: real, b: real, e: real, t: real, v: real, a: real, tm: real, vm: real)
    requires u == t - tm && w == v - vm && e == vm - a - Mul(b, tm)
    ensures
      var r := v - a - Mul(b, t);
      Mul(r, r) == Mul(w, w) - Mul(2.0, Mul(b, Mul(u, w))) + Mul(Mul(b, b), Mul(u, u))
                   + Mul(Mul(2.0, e), w - Mul(b, u)) + Mul(e, e)
  {
    ResidualIs(u, w, b, e, t, v, a, tm, vm);
    SquareOfSum(w - b * u, e);
    SquareOfDifference(w, b, u);
  }

  lemma ResidualIs(u: real, w: real, b: real, e: real, t: real, v: real, a: real, tm: real, vm: real)
    requires u == t - tm && w == v - vm && e == vm - a - Mul(b, tm)
    ensures v - a - b * t == (w - b * u) + e
  {
    assert b * u == b * t - b * tm;
  }

  lemma CollectTerm(sww: real, suw: real, suu: real, sw: real, su: real, n: real, u: real, w: real, b: real, e: real)
    ensures
      sww - Mul(2.0, Mul(b, suw)) + Mul(Mul(b, b), suu) + Mul(Mul(2.0, e), sw - Mul(b, su)) + Mul(Mul(e, e), n)
      + (Mul(w, w) - Mul(2.0, Mul(b, Mul(u, w))) + Mul(Mul(b, b), Mul(u, u)) + Mul(Mul(2.0, e), w - Mul(b, u)) + Mul(e, e))
      == (sww + Mul(w, w)) - Mul(2.0, Mul(b, suw + Mul(u, w))) + Mul(Mul(b, b), suu + Mul(u, u))
         + Mul(Mul(2.0, e), (sw + w) - Mul(b, su + u)) + Mul(Mul(e, e), n + 1.0)
  {
  }

  lemma BestSlope(sxx: real, sxy: real, b: real)
    requires sxx > 0.0
    ensures
      var best := Quot(sxy, sxx);
      Mul(Mul(b, b), sxx) - Mul(2.0, Mul(b, sxy))
        == Mul(Mul(best, best), sxx) - Mul(2.0, Mul(best, sxy)) + Mul(sxx, Mul(b - best, b - best))
  {
    var best := Quot(sxy, sxx);
    assert sxy == best * sxx;
  }

  /** The OLS slope is the least-squares slope: the line through the means with that slope has the
      smallest sum of squared residuals of all lines, and every other slope has a larger one. */
  lemma OlsIsLeastSquares(times: seq<real>, values: seq<real>, a: real, b: real)
    requires |times| == |values| >= 2 && times[0] != times[|times| - 1]
    ensures
      var best := OlsSlope(times, values);
      var through := Mean(values) - Mul(best, Mean(times));
      && Residuals(times, values, through, best) <= Residuals(times, values, a, b)
      && (b != best ==> Residuals(times, values, through, best) < Residuals(times, values, a, b))
  {
    hide Residuals;
    hide Sum;
    hide Cross;
    hide Mean;
    hide Mul;
    hide Quot;
    var tm, vm := Mean(times), Mean(values);
    var best := OlsSlope(times, values);
    var through := vm - Mul(best, tm);
    var sxx, sxy := Cross(times, tm, times, tm), Cross(times, tm, values, vm);
    SpreadPositive(times);
    MeanTimes(times);
    MeanTimes(values);
    ResidualsExpand(times, tm, values, vm, a, b);
    ResidualsExpand(times, tm, values, vm, through, best);
    BestSlope(sxx, sxy, b);
    var e := vm - a - Mul(b, tm);
    MulOne(b);
    MulOne(best);
    MulOne(Mul(2.0, e));
    MulOne(Mul(2.0, 0.0));
    MulOne(2.0);
    MulOne(|times| as real);
    SquareNonNegative(e);
    SquareNonNegative(b - best);
    ProductNonNegative(Mul(e, e), |times| as real);
    ProductNonNegative(sxx, Mul(b - best, b - best));
    MulOne(0.0);
    if b != best {
      SquarePositive(b - best);
      ProductPositive(sxx, Mul(b - best, b - best));
    }
  }

  // ----- the width of the interval -----

  function Square(x: real): real { Mul(x, x) }

  // The squared distances of `x` from the elements of `s`.
  ghost function Apart(s: seq<real>, x: real): real {
    if s == [] then 0.0 else Apart(s[1..], x) + Square(s[0] - x)
  }

  // The squared distance of every two elements, each two counted once.
  ghost function PairSquares(s: seq<real>): real {
    if s == [] then 0.0 else PairSquares(s[1..]) + Apart(s[1..], s[0])
  }

  ghost function Squares(s: seq<real>): real {
    if s == [] then 0.0 else Squares(s[1..]) + Square(s[0])
  }

  // The squared distances from `x` of `k` numbers with that sum and those squares.
  ghost function ApartFrom(k: real, squares: real, sum: real, x: real): real {
    squares - 2.0 * (x * sum) + k * (x * x)
  }

  ghost function PairsFrom(k: real, squares: real, sum: real): real {
    k * squares - sum * sum
  }

  lemma ApartStep(k: real, squares: real, sum: real, x: real, d: real)
    ensures ApartFrom(k, squares, sum, x) + Square(d - x) == ApartFrom(k + 1.0, squares + Square(d), sum + d, x)
    ensures ApartFrom(0.0, 0.0, 0.0, x) == 0.0
  {
  }

  lemma PairStep(k: real, squares: real, sum: real, d: real)
    ensures PairsFrom(k, squares, sum) + ApartFrom(k, squares, sum, d) == PairsFrom(k + 1.0, squares + Square(d), sum + d)
    ensures PairsFrom(0.0, 0.0, 0.0) == 0.0
  {
  }

  lemma {:induction false} SumFirst(s: seq<real>)
    requires s != []
    ensures Sum(s) == s[0] + Sum(s[1..])
  {
    var n := |s| - 1;
    if n > 0 {
      SumFirst(s[..n]);
      assert s[..n][1..] == s[1..][..n - 1];
    } else {
      assert s[..0] == [] && s[1..] == [];
    }
  }

  lemma {:induction false} ApartExpands(s: seq<real>, x: real)
    ensures Apart(s, x) == ApartFrom(|s| as real, Squares(s), Sum(s), x)
  {
    hide ApartFrom;
    hide Square;
    ApartStep(0.0, 0.0, 0.0, x, 0.0);
    if s != [] {
      ApartExpands(s[1..], x);
      SumFirst(s);
      ApartStep((|s| - 1) as real, Squares(s[1..]), Sum(s[1..]), x, s[0]);
    }
  }

  lemma {:induction false} PairsExpand(s: seq<real>)
    ensures PairSquares(s) == PairsFrom(|s| as real, Squares(s), Sum(s))
  {
    hide ApartFrom;
    hide PairsFrom;
    hide Square;
    PairStep(0.0, 0.0, 0.0, 0.0);
    if s != [] {
      PairsExpand(s[1..]);
      ApartExpands(s[1..], s[0]);
      SumFirst(s);
      PairStep((|s| - 1) as real, Squares(s[1..]), Sum(s[1..]), s[0]);
    }
  }

  lemma {:induction false} CrossFirst(s: seq<real>, x: real)
    requires s != []
    ensures Cross(s, x, s, x) == Square(s[0] - x) + Cross(s[1..], x, s[1..], x)
  {
    hide Mul;
    var n := |s| - 1;
    if n > 0 {
      CrossFirst(s[..n], x);
      assert s[..n][1..] == s[1..][..n - 1];
    } else {
      assert s[..0] == [] && s[1..] == [];
    }
  }

  lemma {:induction false} CrossIsApart(s: seq<real>, x: real)
    ensures Cross(s, x, s, x) == Apart(s, x)
  {
    hide Square;
    hide Mul;
    if s != [] {
      CrossIsApart(s[1..], x);
      CrossFirst(s, x);
    }
  }

  lemma SpreadIdentity(k: real, squares: real, sum: real, m: real)
    requires Mul(m, k) == sum
    ensures Mul(k, ApartFrom(k, squares, sum, m)) == PairsFrom(k, squares, sum)
  {
    assert k * (m * sum) == sum * sum;
    assert k * (k * (m * m)) == (m * k) * (m * k);
  }

  // The deviations from the mean, times how many there are, are the distances of all pairs.
  lemma SpreadIsPairs(s: seq<real>)
    requires s != []
    ensures Mul(|s| as real, Cross(s, Mean(s), s, Mean(s))) == PairSquares(s)
  {
    MeanTimes(s);
    hide *;
    CrossIsApart(s, Mean(s));
    ApartExpands(s, Mean(s));
    PairsExpand(s);
    SpreadIdentity(|s| as real, Squares(s), Sum(s), Mean(s));
  }

  // n^2 (n - 1).
  ghost function Scale(n: nat): real { (n * n * (n - 1)) as real }

  lemma Unscaled(n: nat, spread: real, t: real, pairs: real)
    requires n >= 2 && Mul(n as real, spread) == pairs
    ensures Mul(Scale(n), Mul(Square(t), Quot(Quot(spread, (n - 1) as real), n as real))) == Mul(Square(t), pairs)
  {
    var k := n as real;
    var v := spread / (k - 1.0);
    var w := v / k;
    assert w * k == v && v * (k - 1.0) == spread;
    ScaleReal(n);
    Regroup(k, w, t * t);
  }

  lemma ScaleReal(n: nat)
    ensures Scale(n) == (n as real * n as real) * (n as real - 1.0)
  {
    var nn := n * n;
    assert nn as real == n as real * n as real;
    assert (nn * (n - 1)) as real == nn as real * (n - 1) as real;
  }

  lemma Regroup(k: real, w: real, tt: real)
    ensures ((k * k) * (k - 1.0)) * (tt * w) == tt * (k * ((w * k) * (k - 1.0)))
  {
  }

  /** How wide the interval is, by the differences alone: n^2 (n - 1) times the squared half-width is
      the squared critical value times the squared distances of all pairs of differences. */
  lemma WidthIsPairwise(diffs: seq<real>, t: real)
    requires |diffs| >= 2
    ensures Mul(Scale(|diffs|), HalfSquared(diffs, t)) == Mul(Square(t), PairSquares(diffs))
  {
    SpreadIsPairs(diffs);
    hide Mul;
    hide Quot;
    hide Mean;
    hide Cross;
    hide PairSquares;
    hide Scale;
    Unscaled(|diffs|, Cross(diffs, Mean(diffs), diffs, Mean(diffs)), t, PairSquares(diffs));
  }

  // The spread of the differences outweighs their sum: the interval reaches zero.
  ghost predicate Noisy(diffs: seq<real>, t: real)
    requires |diffs| >= 2
  {
    Mul((|diffs| - 1) as real, Square(Sum(diffs))) <= Mul(Square(t), PairSquares(diffs))
  }

  lemma ScaledSquare(n: nat, slope: real, sum: real)
    requires n >= 2 && Mul(slope, n as real) == sum
    ensures Scale(n) > 0.0 && Mul(Scale(n), Square(slope)) == Mul((n - 1) as real, Square(sum))
    ensures (slope > 0.0 <==> sum > 0.0) && (slope < 0.0 <==> sum < 0.0)
  {
    ScaleReal(n);
    var k := n as real;
    assert k * k > 0.0;
    assert ((k * k) * (k - 1.0)) * (slope * slope) == (k - 1.0) * ((slope * k) * (slope * k));
  }

  lemma ScalesOrder(x: real, y: real, k: real)
    requires k > 0.0
    ensures x > y <==> Mul(k, x) > Mul(k, y)
  {
  }

  /** The verdict by the differences alone, with no mean, variance or root: saturated or draining as
      their sum is positive or negative and (n - 1) times its square exceeds the squared critical value
      of n - 1 degrees of freedom times the squared distances of all pairs. */
  lemma VerdictIsByPairs(times: seq<real>, values: seq<real>, critical: nat -> real)
    requires FitGrowth(times, values, critical).Fitted? && |times| == |values| && Forward(times) >= 2
    ensures
      var diffs, fit := Diffs(times, values), FitGrowth(times, values, critical).fit;
      var noisy := Noisy(diffs, critical(|diffs| - 1));
      && fit.half.Half? && Mul(Scale(|diffs|), fit.half.squared) == Mul(Square(critical(|diffs| - 1)), PairSquares(diffs))
      && VerdictOf(fit) == (if noisy || Sum(diffs) == 0.0 then Sustained else if Sum(diffs) > 0.0 then Saturated else Draining)
  {
    ForwardAtMost(times);
    var diffs, fit := Diffs(times, values), FitGrowth(times, values, critical).fit;
    var t := critical(|diffs| - 1);
    MeanTimes(diffs);
    WidthIsPairwise(diffs, t);
    hide Mul;
    hide Mean;
    hide Diffs;
    hide HalfSquared;
    hide OlsSlope;
    hide PairSquares;
    hide Scale;
    hide Sum;
    ScaledSquare(|diffs|, fit.slope, Sum(diffs));
    ScalesOrder(Square(fit.slope), fit.half.squared, Scale(|diffs|));
  }
}
