/** The fit as the harness calls it: the growth estimator over the Student-t critical values. */
module GrowthFit {
  import opened RealSums
  import opened Growth
  import T = TCritical

  // The critical value of that many degrees of freedom; the fit asks for at least one.
  function StudentT(df: nat): real {
    match T.TCritical(df)
    case Value(v) => v
    case Infinite => 0.0
  }

  // The normal value, whatever the sample size.
  function Normal(df: nat): real { T.NORMAL }

  function FitOf(times: seq<real>, values: seq<real>): Outcome {
    FitGrowth(times, values, StudentT)
  }

  lemma StudentAboveNormal(df: nat)
    requires df > 0
    ensures StudentT(df) > T.NORMAL > 0.0
  {
    hide T.TCritical;
    T.CriticalFalls(df, df + 1);
  }

  lemma SpreadNonNegative(diffs: seq<real>)
    requires |diffs| >= 2
    ensures Quot(Quot(Cross(diffs, Mean(diffs), diffs, Mean(diffs)), (|diffs| - 1) as real), |diffs| as real) >= 0.0
  {
    hide Mean;
    CrossNonNegative(diffs, Mean(diffs));
  }

  lemma WiderByCritical(diffs: seq<real>, s: real, t: real)
    requires |diffs| >= 2 && 0.0 < s <= t
    ensures 0.0 <= HalfSquared(diffs, s) <= HalfSquared(diffs, t)
  {
    SpreadNonNegative(diffs);
    var spread := Quot(Quot(Cross(diffs, Mean(diffs), diffs, Mean(diffs)), (|diffs| - 1) as real), |diffs| as real);
    hide Mean;
    hide Cross;
    hide Quot;
    assert 0.0 <= Mul(s, s) <= Mul(t, t) by { assert s * s <= s * t <= t * t; }
    Scales(Mul(s, s), Mul(t, t), spread);
  }

  lemma Scales(x: real, y: real, spread: real)
    requires 0.0 <= x <= y && spread >= 0.0
    ensures 0.0 <= Mul(x, spread) <= Mul(y, spread)
  {
  }

  /** The harness's interval contains the normal one at every sample size, so its verdict is the more
      cautious: it is refused and withheld on the same series, says saturated or draining only where
      the normal interval says the same, and sustained wherever that does. */
  lemma CautiousVerdict(times: seq<real>, values: seq<real>)
    ensures
      var t, z := FitOf(times, values), FitGrowth(times, values, Normal);
      && t.Fitted? == z.Fitted? && (!t.Fitted? ==> t == z)
      && (t.Fitted? ==>
            && t.fit.slope == z.fit.slope && t.fit.half.Unbounded? == z.fit.half.Unbounded?
            && (t.fit.half.Half? ==> t.fit.half.squared >= z.fit.half.squared >= 0.0)
            && (VerdictOf(t.fit) == VerdictOf(z.fit) || VerdictOf(t.fit) == Sustained)
            && (Linear(z.fit) ==> Linear(t.fit)))
  {
    hide StudentT;
    hide HalfSquared;
    hide OlsSlope;
    hide Mean;
    if |times| == |values| >= 2 {
      var diffs := Diffs(times, values);
      if |diffs| >= 2 {
        StudentAboveNormal(|diffs| - 1);
        WiderByCritical(diffs, T.NORMAL, StudentT(|diffs| - 1));
      }
    }
  }

  /** The harness's verdict by the differences alone, over the Student-t value of one degree of freedom
      less than there are differences. */
  lemma VerdictByPairs(times: seq<real>, values: seq<real>)
    requires FitOf(times, values).Fitted? && |times| == |values| && Forward(times) >= 2
    ensures
      var diffs, fit := Diffs(times, values), FitOf(times, values).fit;
      var t := T.TCritical(|diffs| - 1);
      && t.Value? && fit.half.Half? && Mul(Scale(|diffs|), fit.half.squared) == Mul(Square(t.value), PairSquares(diffs))
      && VerdictOf(fit) == (if Noisy(diffs, t.value) || Sum(diffs) == 0.0 then Sustained
                            else if Sum(diffs) > 0.0 then Saturated else Draining)
  {
    T.CriticalFalls(Forward(times) - 1, Forward(times));
    assert StudentT(Forward(times) - 1) == T.TCritical(Forward(times) - 1).value;
    assert FitOf(times, values) == FitGrowth(times, values, StudentT);
    hide *;
    VerdictIsByPairs(times, values, StudentT);
  }
}
