/** Two-sided 95% Student-t critical values: a table, straight lines between its entries, and a
    tail that falls towards the normal value. */
module TCritical {

  datatype Knot = Knot(df: nat, value: real)

  const NORMAL := 1.960

  // The tabulated values, by increasing degrees of freedom.
  function Entry(i: nat): Knot {
    if i == 0 then Knot(1, 12.706)
    else if i == 1 then Knot(2, 4.303)
    else if i == 2 then Knot(3, 3.182)
    else if i == 3 then Knot(4, 2.776)
    else if i == 4 then Knot(5, 2.571)
    else if i == 5 then Knot(6, 2.447)
    else if i == 6 then Knot(7, 2.365)
    else if i == 7 then Knot(8, 2.306)
    else if i == 8 then Knot(9, 2.262)
    else if i == 9 then Knot(10, 2.228)
    else if i == 10 then Knot(11, 2.201)
    else if i == 11 then Knot(12, 2.179)
    else if i == 12 then Knot(13, 2.160)
    else if i == 13 then Knot(14, 2.145)
    else if i == 14 then Knot(15, 2.131)
    else if i == 15 then Knot(16, 2.120)
    else if i == 16 then Knot(17, 2.110)
    else if i == 17 then Knot(18, 2.101)
    else if i == 18 then Knot(19, 2.093)
    else if i == 19 then Knot(20, 2.086)
    else if i == 20 then Knot(21, 2.080)
    else if i == 21 then Knot(22, 2.074)
    else if i == 22 then Knot(23, 2.069)
    else if i == 23 then Knot(24, 2.064)
    else if i == 24 then Knot(25, 2.060)
    else if i == 25 then Knot(26, 2.056)
    else if i == 26 then Knot(27, 2.052)
    else if i == 27 then Knot(28, 2.048)
    else if i == 28 then Knot(29, 2.045)
    else if i == 29 then Knot(30, 2.042)
    else if i == 30 then Knot(40, 2.021)
    else if i == 31 then Knot(50, 2.009)
    else if i == 32 then Knot(60, 2.000)
    else if i == 33 then Knot(80, 1.990)
    else Knot(100, 1.984)
  }

  function Table(): (t: seq<Knot>)
    ensures |t| == 35 && forall i :: 0 <= i < 35 ==> t[i] == Entry(i)
  {
    seq(35, i requires 0 <= i => Entry(i))
  }

  // Entries in order: degrees of freedom up, values down and above the normal one.
  predicate Falling(t: seq<Knot>) {
    && (forall k <- t :: k.df > 0 && k.value > NORMAL)
    && forall i, j :: 0 <= i < j < |t| ==> t[i].df < t[j].df && t[i].value > t[j].value
  }

  // Each entry follows from its neighbour's.
  predicate Steps(t: seq<Knot>) {
    forall i :: 0 < i < |t| ==> t[i - 1].df < t[i].df && t[i - 1].value > t[i].value
  }

  lemma {:induction false} StepsFall(t: seq<Knot>)
    requires Steps(t) && t != [] && t[0].df > 0 && t[|t| - 1].value > NORMAL
    ensures Falling(t)
  {
    forall i, j | 0 <= i < j < |t| ensures t[i].df < t[j].df && t[i].value > t[j].value {
      StepsOrder(t, i, j);
    }
  }

  lemma {:induction false} StepsOrder(t: seq<Knot>, i: nat, j: nat)
    requires Steps(t) && i < j < |t|
    ensures t[i].df < t[j].df && t[i].value > t[j].value
    decreases j
  {
    if i < j - 1 { StepsOrder(t, i, j - 1); }
  }

  lemma TableFalls()
    ensures Falling(Table()) && |Table()| == 35 && Table()[0].df == 1 && Table()[34].df == 100
  {
    forall i | 0 < i < 35 ensures Table()[i - 1].df < Table()[i].df && Table()[i - 1].value > Table()[i].value {
      EntryStep(i);
    }
    hide Entry;
    StepsFall(Table());
  }

  lemma EntryStep(i: nat)
    requires 0 < i < 35
    ensures Entry(i - 1).df < Entry(i).df && Entry(i - 1).value > Entry(i).value
  {
  }

  // How many entries lie below `df`: the index of the first entry at or above it.
  function Below(t: seq<Knot>, df: nat): (n: nat)
    requires Falling(t)
    ensures n <= |t|
    ensures forall i :: 0 <= i < |t| ==> (t[i].df < df <==> i < n)
  {
    if t == [] then 0
    else if t[|t| - 1].df < df then |t|
    else
      var r := t[..|t| - 1];
      assert forall i :: 0 <= i < |r| ==> t[i] == r[i];
      Below(r, df)
  }

  // A fraction of the way down from one entry to the next.
  function Line(a: Knot, b: Knot, df: nat): real
    requires a.df < b.df
  {
    a.value + (b.value - a.value) * ((df - a.df) as real) / ((b.df - a.df) as real)
  }

  function Tail(last: Knot, df: nat): real
    requires df > 0
  {
    NORMAL + (last.value - NORMAL) * (last.df as real) / (df as real)
  }

  datatype Critical = Infinite | Value(value: real)

  // The critical value over table `t`; no finite one without a degree of freedom.
  function CriticalOn(t: seq<Knot>, df: int): Critical
    requires Falling(t) && t != [] && t[0].df == 1
  {
    if df <= 0 then Infinite
    else
      var n := Below(t, df);
      if n < |t| && t[n].df == df then Value(t[n].value)
      else if n == |t| then Value(Tail(t[n - 1], df))
      else
        assert t[0].df < df;
        Value(Line(t[n - 1], t[n], df))
  }

  function TCritical(df: int): Critical {
    TableFalls();
    CriticalOn(Table(), df)
  }

  lemma LineFalls(a: Knot, b: Knot, df: nat)
    requires a.df <= df < b.df && a.value > b.value
    ensures Line(a, b, df) > Line(a, b, df + 1)
    ensures Line(a, b, a.df) == a.value && Line(a, b, b.df) == b.value
  {
    var s, d, x := (b.df - a.df) as real, b.value - a.value, (df - a.df) as real;
    assert (df + 1 - a.df) as real == x + 1.0;
    ShareFalls(d, x, s);
    assert d * s / s == d;
  }

  lemma ShareFalls(d: real, x: real, s: real)
    requires d < 0.0 && s > 0.0
    ensures d * (x + 1.0) / s < d * x / s
  {
    assert d * (x + 1.0) == d * x + d;
    assert (d * x + d) / s == d * x / s + d / s;
  }

  lemma TailFalls(last: Knot, df: nat)
    requires last.value > NORMAL && 0 < last.df <= df
    ensures Tail(last, df) > Tail(last, df + 1) > NORMAL
    ensures Tail(last, last.df) == last.value
  {
    var c, x := (last.value - NORMAL) * (last.df as real), df as real;
    assert c > 0.0;
    QuotientFalls(c, x);
  }

  lemma QuotientFalls(c: real, x: real)
    requires c > 0.0 && x > 0.0
    ensures c / x > c / (x + 1.0) > 0.0
  {
    var q := c / (x + 1.0);
    assert q * (x + 1.0) == c;
    assert q > 0.0;
    assert (q * x + q) / x == q + q / x;
    assert q / x > 0.0;
  }

  // Between two neighbouring entries, both included, the value lies on the line through them.
  lemma OnLine(t: seq<Knot>, i: nat, df: nat)
    requires Falling(t) && t != [] && t[0].df == 1 && i + 1 < |t| && t[i].df <= df <= t[i + 1].df
    ensures CriticalOn(t, df) == Value(Line(t[i], t[i + 1], df))
  {
    LineFalls(t[i], t[i + 1], t[i].df);
    hide Line;
    var n := Below(t, df);
  }

  lemma OnTail(t: seq<Knot>, df: nat)
    requires Falling(t) && t != [] && t[0].df == 1 && t[|t| - 1].df <= df
    ensures CriticalOn(t, df) == Value(Tail(t[|t| - 1], df))
  {
    TailFalls(t[|t| - 1], df);
    hide Tail;
    var n := Below(t, df);
  }

  lemma NextIsLower(t: seq<Knot>, df: nat)
    requires Falling(t) && t != [] && t[0].df == 1 && df > 0
    ensures CriticalOn(t, df).Value? && CriticalOn(t, df + 1).Value?
    ensures CriticalOn(t, df).value > CriticalOn(t, df + 1).value
  {
    hide Line;
    hide Tail;
    hide CriticalOn;
    var n := Below(t, df + 1);
    assert 0 < n;
    if n == |t| {
      OnTail(t, df);
      OnTail(t, df + 1);
      TailFalls(t[n - 1], df);
    } else {
      OnLine(t, n - 1, df);
      OnLine(t, n - 1, df + 1);
      LineFalls(t[n - 1], t[n], df);
    }
  }

  lemma {:induction false} FallsOn(t: seq<Knot>, a: nat, b: nat)
    requires Falling(t) && t != [] && t[0].df == 1 && 0 < a < b
    ensures CriticalOn(t, a).Value? && CriticalOn(t, b).Value?
    ensures CriticalOn(t, a).value > CriticalOn(t, b).value
    decreases b
  {
    hide CriticalOn;
    if a < b - 1 { FallsOn(t, a, b - 1); }
    NextIsLower(t, b - 1);
  }

  /** Over all positive degrees of freedom the critical value strictly falls and stays above the
      normal one: more samples never widen an interval, and no interval is narrower than the normal. */
  lemma CriticalFalls(a: int, b: int)
    requires 0 < a < b
    ensures TCritical(a).Value? && TCritical(b).Value?
    ensures TCritical(a).value > TCritical(b).value > NORMAL
  {
    TableFalls();
    FallsOn(Table(), a, b);
    var far := b + 100;
    hide TCritical;
    hide CriticalOn;
    FarAbove(far);
    AgreesWithTable(a);
    AgreesWithTable(b);
    AgreesWithTable(far);
    FallsOn(Table(), b, far);
  }

  lemma AgreesWithTable(df: int)
    ensures Falling(Table()) && |Table()| == 35 && Table()[0].df == 1 && TCritical(df) == CriticalOn(Table(), df)
  {
    TableFalls();
  }

  lemma FarAbove(df: int)
    requires df > 100
    ensures TCritical(df).Value? && TCritical(df).value > NORMAL
  {
    TableFalls();
    OnTail(Table(), df);
    TailFalls(Table()[34], df - 1);
  }

  /** The interpolation passes through the table: every tabulated value is returned as it stands. */
  lemma TabulatedExactly(i: nat)
    requires i < |Table()|
    ensures TCritical(Table()[i].df) == Value(Table()[i].value)
  {
    TableFalls();
    hide Entry;
    var n := Below(Table(), Table()[i].df);
    assert forall j :: 0 <= j < i ==> Table()[j].df < Table()[i].df;
  }
}
