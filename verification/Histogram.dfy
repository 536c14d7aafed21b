/** Bucketed distributions: the live histogram, the export it is read through, the record the
    reader builds, and that record differenced over time. */
module Histograms {
  import opened Options
  import opened RealSums

  datatype Labels = Labels(pairs: seq<(string, string)>)

  datatype Observation = Observation(labels: Labels, value: real)

  ghost predicate Ascending(edges: seq<real>) {
    forall i, j :: 0 <= i < j < |edges| ==> edges[i] < edges[j]
  }

  // ----- what a cell should hold -----

  // The bucket a value falls in: the first edge at or above it, or the one past the last edge.
  function Bucket(edges: seq<real>, v: real): (n: nat)
    requires Ascending(edges)
    ensures n <= |edges|
    ensures forall i :: 0 <= i < |edges| ==> (edges[i] < v <==> i < n)
  {
    if edges == [] then 0
    else if edges[|edges| - 1] < v then |edges|
    else Bucket(edges[..|edges| - 1], v)
  }

  // How many values fall in bucket `b`.
  function CountIn(edges: seq<real>, values: seq<real>, b: nat): nat
    requires Ascending(edges)
  {
    if values == [] then 0
    else
      var n := |values| - 1;
      CountIn(edges, values[..n], b) + (if Bucket(edges, values[n]) == b then 1 else 0)
  }

  // How many values are at or below `e`.
  function CountLe(values: seq<real>, e: real): nat {
    if values == [] then 0
    else
      var n := |values| - 1;
      CountLe(values[..n], e) + (if values[n] <= e then 1 else 0)
  }

  // One label set's histogram as plain numbers, at one instant or over one window.
  datatype Cell = Cell(edges: seq<real>, counts: seq<int>, count: int, total: real)

  // The cell of exactly these observed values.
  function CellOf(edges: seq<real>, values: seq<real>): (c: Cell)
    requires Ascending(edges)
    ensures c.edges == edges && c.count == |values| && c.total == Sum(values)
    ensures |c.counts| == |edges| + 1 && forall b :: 0 <= b <= |edges| ==> c.counts[b] == CountIn(edges, values, b)
  {
    Cell(edges, seq(|edges| + 1, b requires 0 <= b <= |edges| => CountIn(edges, values, b)), |values|, Sum(values))
  }

  // The observed values of the label sets in `keys`, in order.
  function Select(stream: seq<Observation>, keys: set<Labels>): seq<real> {
    if stream == [] then []
    else
      var n := |stream| - 1;
      Select(stream[..n], keys) + (if stream[n].labels in keys then [stream[n].value] else [])
  }

  // The label sets observed.
  function Observed(stream: seq<Observation>): set<Labels> {
    set o <- stream :: o.labels
  }

  // ----- counting -----

  lemma {:induction false} CountInNext(edges: seq<real>, values: seq<real>, v: real, b: nat)
    requires Ascending(edges)
    ensures CountIn(edges, values + [v], b) == CountIn(edges, values, b) + (if Bucket(edges, v) == b then 1 else 0)
  {
    assert (values + [v])[..|values|] == values;
  }

  lemma {:induction false} CountInAdds(edges: seq<real>, u: seq<real>, v: seq<real>, b: nat)
    requires Ascending(edges)
    ensures CountIn(edges, u + v, b) == CountIn(edges, u, b) + CountIn(edges, v, b)
  {
    if v == [] {
      assert u + v == u;
    } else {
      CountInAdds(edges, u, v[..|v| - 1], b);
      assert u + v == u + v[..|v| - 1] + [v[|v| - 1]];
      CountInNext(edges, u + v[..|v| - 1], v[|v| - 1], b);
    }
  }

  lemma {:induction false} SumAdds(u: seq<real>, v: seq<real>)
    ensures Sum(u + v) == Sum(u) + Sum(v)
  {
    if v == [] {
      assert u + v == u;
    } else {
      SumAdds(u, v[..|v| - 1]);
      assert u + v == u + v[..|v| - 1] + [v[|v| - 1]];
      SumNext(u + v[..|v| - 1], v[|v| - 1]);
    }
  }

  // A bucket holds what lies at or below its edge and not at or below the edge before.
  lemma {:induction false} BucketIsDifference(edges: seq<real>, values: seq<real>, b: nat)
    requires Ascending(edges) && b <= |edges|
    ensures CountIn(edges, values, b)
      == (if b < |edges| then CountLe(values, edges[b]) else |values|)
         - (if b > 0 then CountLe(values, edges[b - 1]) else 0)
  {
    if values != [] {
      BucketIsDifference(edges, values[..|values| - 1], b);
    }
  }

  function Prefix(counts: seq<int>, n: nat): int
    requires n <= |counts|
  {
    if n == 0 then 0 else Prefix(counts, n - 1) + counts[n - 1]
  }

  lemma {:induction false} PrefixCounts(edges: seq<real>, values: seq<real>, b: nat)
    requires Ascending(edges) && b <= |edges|
    ensures Prefix(CellOf(edges, values).counts, b + 1) == if b < |edges| then CountLe(values, edges[b]) else |values|
  {
    BucketIsDifference(edges, values, b);
    if b > 0 { PrefixCounts(edges, values, b - 1); }
  }

  // ----- differencing -----

  datatype Difference = Window(cell: Cell) | BucketsDiffer | NotTheSameCell

  predicate WellFormed(c: Cell) { |c.counts| == |c.edges| + 1 }

  // This cell over the window since `earlier` was read.
  function Minus(now: Cell, earlier: Option<Cell>): Difference
    requires WellFormed(now) && (earlier.Some? ==> WellFormed(earlier.value))
  {
    if earlier.None? then Window(now)
    else if earlier.value.edges != now.edges then BucketsDiffer
    else
      var was := earlier.value;
      var counts := seq(|now.counts|, i requires 0 <= i < |now.counts| => now.counts[i] - was.counts[i]);
      if now.count < was.count || exists n <- counts :: n < 0 then NotTheSameCell
      else Window(Cell(now.edges, counts, now.count - was.count, now.total - was.total))
  }

  /** For any values cut at any point, the cell at the end minus the cell at the cut is the cell of
      the values after the cut: the subtraction never refuses. */
  lemma WindowIsTheSuffix(edges: seq<real>, before: seq<real>, after: seq<real>)
    requires Ascending(edges)
    ensures Minus(CellOf(edges, before + after), Some(CellOf(edges, before))) == Window(CellOf(edges, after))
  {
    var now, was := CellOf(edges, before + after), CellOf(edges, before);
    var counts := seq(|now.counts|, i requires 0 <= i < |now.counts| => now.counts[i] - was.counts[i]);
    forall b | 0 <= b <= |edges| ensures counts[b] == CountIn(edges, after, b) {
      CountInAdds(edges, before, after, b);
    }
    assert counts == CellOf(edges, after).counts;
    assert forall n <- counts :: n >= 0;
    SumAdds(before, after);
  }

  /** Read the wrong way round, the difference is refused as soon as anything was observed between. */
  lemma BackwardsIsRefused(edges: seq<real>, before: seq<real>, after: seq<real>)
    requires Ascending(edges) && after != []
    ensures Minus(CellOf(edges, before), Some(CellOf(edges, before + after))) == NotTheSameCell
  {
  }

  // ----- quantiles -----

  // How many observations a fraction of them is.
  function Target(q: real, count: int): real { q * count as real }

  // The bucket-resolution quantile of any record.
  method Quantile(c: Cell, q: real) returns (r: real)
    requires WellFormed(c)
    ensures c.count <= 0 || c.edges == [] ==> r == 0.0
    ensures c.count > 0 && c.edges != [] ==> r == QuantileFrom(c, Target(q, c.count), 0)
  {
    if c.count <= 0 || c.edges == [] { return 0.0; }
    var target := Target(q, c.count);
    var seen := 0;
    for i := 0 to |c.counts|
      invariant seen == Prefix(c.counts, i)
      invariant QuantileFrom(c, target, i) == QuantileFrom(c, target, 0)
    {
      seen := seen + c.counts[i];
      if seen as real >= target {
        return if i < |c.edges| then c.edges[i] else c.edges[|c.edges| - 1];
      }
    }
    return c.edges[|c.edges| - 1];
  }

  // The edge of the first bucket from `i` on whose running count covers the target.
  function QuantileFrom(c: Cell, target: real, i: nat): real
    requires WellFormed(c) && c.edges != [] && i <= |c.counts|
    decreases |c.counts| - i
  {
    if i >= |c.edges| then c.edges[|c.edges| - 1]
    else if Prefix(c.counts, i + 1) as real >= target then c.edges[i]
    else QuantileFrom(c, target, i + 1)
  }

  ghost function QuantileOf(c: Cell, q: real): real
    requires WellFormed(c)
  {
    if c.count <= 0 || c.edges == [] then 0.0 else QuantileFrom(c, Target(q, c.count), 0)
  }

  // Edge `k` covers the target: that many values are at or below it.
  ghost predicate Covers(edges: seq<real>, values: seq<real>, target: real, k: nat)
    requires k < |edges|
  {
    CountLe(values, edges[k]) as real >= target
  }

  lemma {:induction false} FirstCovering(edges: seq<real>, values: seq<real>, target: real, i: nat, k: nat)
    requires Ascending(edges) && edges != [] && i <= k < |edges|
    requires forall j :: i <= j < k ==> !Covers(edges, values, target, j)
    requires Covers(edges, values, target, k) || k == |edges| - 1
    ensures QuantileFrom(CellOf(edges, values), target, i) == edges[k]
    decreases k - i
  {
    PrefixCounts(edges, values, i);
    if i < k {
      assert !Covers(edges, values, target, i);
      FirstCovering(edges, values, target, i + 1, k);
    } else if !Covers(edges, values, target, k) {
      assert QuantileFrom(CellOf(edges, values), target, k + 1) == edges[k];
    }
  }

  lemma CoveringEdge(edges: seq<real>, values: seq<real>, q: real, target: real) returns (k: nat)
    requires Ascending(edges) && edges != [] && values != [] && target == Target(q, |values|)
    ensures k < |edges| && QuantileOf(CellOf(edges, values), q) == edges[k]
    ensures forall j :: 0 <= j < k ==> CountLe(values, edges[j]) as real < target
    ensures CountLe(values, edges[k]) as real >= target || k == |edges| - 1
  {
    hide Target;
    k := 0;
    while k < |edges| - 1 && !Covers(edges, values, target, k)
      invariant k < |edges|
      invariant forall j :: 0 <= j < k ==> CountLe(values, edges[j]) as real < target
    {
      k := k + 1;
    }
    FirstCovering(edges, values, target, 0, k);
  }

  /** The quantile is an edge: the first that at least `q * count` of the observed values lie at or
      below, and the last edge when none does. */
  lemma QuantileIsFirstCoveringEdge(edges: seq<real>, values: seq<real>, q: real) returns (k: nat)
    requires Ascending(edges) && edges != [] && values != []
    ensures k < |edges| && QuantileOf(CellOf(edges, values), q) == edges[k]
    ensures forall j :: 0 <= j < k ==> CountLe(values, edges[j]) as real < q * |values| as real
    ensures CountLe(values, edges[k]) as real >= q * |values| as real || k == |edges| - 1
  {
    var target := q * |values| as real;
    assert target == Target(q, |values|);
    hide *;
    k := CoveringEdge(edges, values, q, target);
  }

  /** A larger fraction never gives a smaller quantile. */
  lemma QuantileMonotone(edges: seq<real>, values: seq<real>, p: real, q: real)
    requires Ascending(edges) && p <= q
    ensures QuantileOf(CellOf(edges, values), p) <= QuantileOf(CellOf(edges, values), q)
  {
    if edges != [] && values != [] {
      var n := |values| as real;
      assert Target(p, |values|) <= Target(q, |values|) by { assert (q - p) * n >= 0.0; }
      var i := QuantileIsFirstCoveringEdge(edges, values, p);
      var j := QuantileIsFirstCoveringEdge(edges, values, q);
      assert forall l :: 0 <= l < i ==> CountLe(values, edges[l]) as real < p * n;
    }
  }

  // ----- the export -----

  datatype Edge = At(edge: real) | Infinity

  datatype Row = BucketRow(labels: Labels, le: Edge, value: int)
               | SumRow(labels: Labels, total: real)
               | CountRow(labels: Labels, value: int)

  // One cell's rows: running bucket counts, then everything, then the sum and the count.
  function CellRows(labels: Labels, c: Cell): seq<Row>
    requires WellFormed(c)
  {
    BucketRows(labels, c, |c.edges|) + [BucketRow(labels, Infinity, c.count), SumRow(labels, c.total), CountRow(labels, c.count)]
  }

  function BucketRows(labels: Labels, c: Cell, n: nat): seq<Row>
    requires WellFormed(c) && n <= |c.edges|
  {
    if n == 0 then [] else BucketRows(labels, c, n - 1) + [BucketRow(labels, At(c.edges[n - 1]), Prefix(c.counts, n))]
  }

  // What a reader asking for `key` (or for everything) gathers from the rows, by name.
  function Wanted(key: Option<Labels>, labels: Labels): bool { key.None? || key.value == labels }

  function Running(rows: seq<Row>, key: Option<Labels>, le: Edge): int {
    if rows == [] then 0
    else
      var r := rows[|rows| - 1];
      Running(rows[..|rows| - 1], key, le)
      + (if r.BucketRow? && Wanted(key, r.labels) && r.le == le then r.value else 0)
  }

  function Totalled(rows: seq<Row>, key: Option<Labels>): real {
    if rows == [] then 0.0
    else
      var r := rows[|rows| - 1];
      Totalled(rows[..|rows| - 1], key) + (if r.SumRow? && Wanted(key, r.labels) then r.total else 0.0)
  }

  function Counted(rows: seq<Row>, key: Option<Labels>): int {
    if rows == [] then 0
    else
      var r := rows[|rows| - 1];
      Counted(rows[..|rows| - 1], key) + (if r.CountRow? && Wanted(key, r.labels) then r.value else 0)
  }

  predicate Mentions(rows: seq<Row>, key: Option<Labels>, le: Edge) {
    exists r <- rows :: r.BucketRow? && Wanted(key, r.labels) && r.le == le
  }

  lemma {:induction false} GatherAdds(rows: seq<Row>, more: seq<Row>, key: Option<Labels>, le: Edge)
    ensures Running(rows + more, key, le) == Running(rows, key, le) + Running(more, key, le)
    ensures Totalled(rows + more, key) == Totalled(rows, key) + Totalled(more, key)
    ensures Counted(rows + more, key) == Counted(rows, key) + Counted(more, key)
  {
    if more == [] {
      assert rows + more == rows;
    } else {
      var n := |more| - 1;
      GatherAdds(rows, more[..n], key, le);
      assert (rows + more)[..|rows| + n] == rows + more[..n];
    }
  }

  lemma GatherNext(rows: seq<Row>, r: Row, key: Option<Labels>, le: Edge)
    ensures Running(rows + [r], key, le)
      == Running(rows, key, le) + (if r.BucketRow? && Wanted(key, r.labels) && r.le == le then r.value else 0)
    ensures Totalled(rows + [r], key) == Totalled(rows, key) + (if r.SumRow? && Wanted(key, r.labels) then r.total else 0.0)
    ensures Counted(rows + [r], key) == Counted(rows, key) + (if r.CountRow? && Wanted(key, r.labels) then r.value else 0)
  {
    assert (rows + [r])[..|rows|] == rows;
  }

  // What one bucket's row adds to a reading.
  function RowAdds(labels: Labels, c: Cell, n: nat, key: Option<Labels>, le: Edge): int
    requires WellFormed(c) && n < |c.edges|
  {
    if Wanted(key, labels) && le == At(c.edges[n]) then Prefix(c.counts, n + 1) else 0
  }

  lemma {:induction false} BucketRowsNext(labels: Labels, c: Cell, n: nat, key: Option<Labels>, le: Edge)
    requires WellFormed(c) && n < |c.edges|
    ensures
      var before, after := BucketRows(labels, c, n), BucketRows(labels, c, n + 1);
      && Running(after, key, le) == Running(before, key, le) + RowAdds(labels, c, n, key, le)
      && Totalled(after, key) == Totalled(before, key) && Counted(after, key) == Counted(before, key)
  {
    GatherNext(BucketRows(labels, c, n), BucketRow(labels, At(c.edges[n]), Prefix(c.counts, n + 1)), key, le);
  }

  // Rows that are not asked for, or of other edges, add nothing.
  lemma {:induction false} BucketRowsNothing(labels: Labels, c: Cell, n: nat, key: Option<Labels>, le: Edge)
    requires WellFormed(c) && n <= |c.edges|
    requires !Wanted(key, labels) || forall b :: 0 <= b < n ==> le != At(c.edges[b])
    ensures Running(BucketRows(labels, c, n), key, le) == 0
    ensures Totalled(BucketRows(labels, c, n), key) == 0.0 && Counted(BucketRows(labels, c, n), key) == 0
  {
    if n > 0 {
      hide Running;
      hide Totalled;
      hide Counted;
      hide BucketRows;
      hide Wanted;
      BucketRowsNothing(labels, c, n - 1, key, le);
      BucketRowsNext(labels, c, n - 1, key, le);
    }
  }

  lemma {:induction false} BucketRowsGather(labels: Labels, c: Cell, n: nat, b: nat, key: Option<Labels>)
    requires WellFormed(c) && b < n <= |c.edges| && Ascending(c.edges) && Wanted(key, labels)
    ensures Running(BucketRows(labels, c, n), key, At(c.edges[b])) == Prefix(c.counts, b + 1)
    ensures Totalled(BucketRows(labels, c, n), key) == 0.0 && Counted(BucketRows(labels, c, n), key) == 0
  {
    hide Running;
    hide Totalled;
    hide Counted;
    hide BucketRows;
    BucketRowsNext(labels, c, n - 1, key, At(c.edges[b]));
    if b == n - 1 {
      BucketRowsNothing(labels, c, n - 1, key, At(c.edges[b]));
    } else {
      BucketRowsGather(labels, c, n - 1, b, key);
    }
  }

  lemma {:induction false} BucketRowsLength(labels: Labels, c: Cell, n: nat)
    requires WellFormed(c) && n <= |c.edges|
    ensures |BucketRows(labels, c, n)| == n
  {
    if n > 0 { BucketRowsLength(labels, c, n - 1); }
  }

  // The number of values a reading at this edge stands for.
  function Below(values: seq<real>, le: Edge): nat {
    if le.Infinity? then |values| else CountLe(values, le.edge)
  }

  // The rows of the cell of `values`, read back.
  lemma CellRowsGather(labels: Labels, edges: seq<real>, values: seq<real>, key: Option<Labels>, le: Edge)
    requires Ascending(edges) && (le.At? ==> le.edge in edges)
    ensures
      var rows := CellRows(labels, CellOf(edges, values));
      var mine := if Wanted(key, labels) then values else [];
      Running(rows, key, le) == Below(mine, le) && Totalled(rows, key) == Sum(mine) && Counted(rows, key) == |mine|
  {
    var c := CellOf(edges, values);
    var tail := [BucketRow(labels, Infinity, c.count), SumRow(labels, c.total), CountRow(labels, c.count)];
    GatherAdds(BucketRows(labels, c, |edges|), tail, key, le);
    TailGather(labels, c, key, le);
    if le.At? && Wanted(key, labels) {
      var b :| 0 <= b < |edges| && edges[b] == le.edge;
      BucketRowsGather(labels, c, |edges|, b, key);
      PrefixCounts(edges, values, b);
    } else {
      BucketRowsNothing(labels, c, |edges|, key, le);
    }
  }

  lemma TailGather(labels: Labels, c: Cell, key: Option<Labels>, le: Edge)
    ensures
      var tail := [BucketRow(labels, Infinity, c.count), SumRow(labels, c.total), CountRow(labels, c.count)];
      && Running(tail, key, le) == (if Wanted(key, labels) && le.Infinity? then c.count else 0)
      && Totalled(tail, key) == (if Wanted(key, labels) then c.total else 0.0)
      && Counted(tail, key) == (if Wanted(key, labels) then c.count else 0)
  {
    var tail := [BucketRow(labels, Infinity, c.count), SumRow(labels, c.total), CountRow(labels, c.count)];
    GatherNext([], tail[0], key, le);
    GatherNext([] + [tail[0]], tail[1], key, le);
    GatherNext([] + [tail[0]] + [tail[1]], tail[2], key, le);
    assert tail == [] + [tail[0]] + [tail[1]] + [tail[2]];
  }

  // The cells of these label sets, exported in this order.
  function Export(edges: seq<real>, stream: seq<Observation>, keys: seq<Labels>): seq<Row>
    requires Ascending(edges)
  {
    if keys == [] then []
    else
      var k := keys[|keys| - 1];
      Export(edges, stream, keys[..|keys| - 1]) + CellRows(k, CellOf(edges, Select(stream, {k})))
  }

  function WantedOf(key: Option<Labels>, keys: seq<Labels>): set<Labels> {
    set k <- keys | Wanted(key, k)
  }

  // Selecting two disjoint groups of label sets splits every count.
  lemma {:induction false} SelectSplits(stream: seq<Observation>, s: set<Labels>, t: set<Labels>, le: Edge)
    requires s !! t
    ensures Below(Select(stream, s + t), le) == Below(Select(stream, s), le) + Below(Select(stream, t), le)
    ensures |Select(stream, s + t)| == |Select(stream, s)| + |Select(stream, t)|
    ensures Sum(Select(stream, s + t)) == Sum(Select(stream, s)) + Sum(Select(stream, t))
  {
    if stream != [] {
      var n := |stream| - 1;
      SelectSplits(stream[..n], s, t, le);
      BelowNext(Select(stream[..n], s + t), stream[n].value, le);
      BelowNext(Select(stream[..n], s), stream[n].value, le);
      BelowNext(Select(stream[..n], t), stream[n].value, le);
    }
  }

  lemma BelowNext(values: seq<real>, v: real, le: Edge)
    ensures Below(values + [v], le) == Below(values, le) + (if le.Infinity? || v <= le.edge then 1 else 0)
    ensures Sum(values + [v]) == Sum(values) + v
    ensures values + [] == values
  {
    SumNext(values, v);
    assert (values + [v])[..|values|] == values;
  }

  lemma {:induction false} SelectNone(stream: seq<Observation>)
    ensures Select(stream, {}) == []
  {
    if stream != [] { SelectNone(stream[..|stream| - 1]); }
  }

  ghost predicate DistinctLabels(keys: seq<Labels>) {
    forall i, j :: 0 <= i < j < |keys| ==> keys[i] != keys[j]
  }

  lemma LastIsNew(keys: seq<Labels>)
    requires DistinctLabels(keys) && keys != []
    ensures DistinctLabels(keys[..|keys| - 1]) && keys[|keys| - 1] !in keys[..|keys| - 1]
  {
  }

  // Reading an export gathers exactly the values of the label sets wanted.
  lemma {:induction false} ExportGathers(edges: seq<real>, stream: seq<Observation>, keys: seq<Labels>, key: Option<Labels>, le: Edge)
    requires Ascending(edges) && DistinctLabels(keys) && (le.At? ==> le.edge in edges)
    ensures
      var rows := Export(edges, stream, keys);
      var mine := Select(stream, WantedOf(key, keys));
      Running(rows, key, le) == Below(mine, le) && Totalled(rows, key) == Sum(mine) && Counted(rows, key) == |mine|
  {
    if keys == [] {
      assert WantedOf(key, keys) == {};
      SelectNone(stream);
    } else {
      hide Running;
      hide Totalled;
      hide Counted;
      hide Below;
      hide CellOf;
      hide CellRows;
      hide Select;
      hide Sum;
      var n := |keys| - 1;
      var k := keys[n];
      var mine := Select(stream, {k});
      LastIsNew(keys);
      hide DistinctLabels;
      hide Ascending;
      ExportGathers(edges, stream, keys[..n], key, le);
      GatherAdds(Export(edges, stream, keys[..n]), CellRows(k, CellOf(edges, mine)), key, le);
      CellRowsGather(k, edges, mine, key, le);
      if Wanted(key, k) {
        assert WantedOf(key, keys) == WantedOf(key, keys[..n]) + {k};
        SelectSplits(stream, WantedOf(key, keys[..n]), {k}, le);
      } else {
        assert WantedOf(key, keys) == WantedOf(key, keys[..n]);
      }
    }
  }

  // ----- the reader -----

  // The differences of a running count.
  function Unroll(running: seq<int>): (counts: seq<int>)
    ensures |counts| == |running|
  {
    seq(|running|, i requires 0 <= i < |running| => if i == 0 then running[0] else running[i] - running[i - 1])
  }

  // A reading as a record; a label set never observed is an empty cell over the same edges.
  method Read(edges: seq<real>, rows: seq<Row>, key: Option<Labels>) returns (c: Cell)
    ensures WellFormed(c) && c.edges == edges
    ensures (forall le :: !Mentions(rows, key, le)) ==>
      c == Cell(edges, seq(|edges| + 1, _ => 0), 0, 0.0)
    ensures (exists le :: Mentions(rows, key, le)) ==>
      && c.count == Counted(rows, key) && c.total == Totalled(rows, key)
      && c.counts == Unroll(seq(|edges|, i requires 0 <= i < |edges| => Running(rows, key, At(edges[i])))
                            + [if Mentions(rows, key, Infinity) then Running(rows, key, Infinity) else c.count])
  {
    var cumulative: map<Edge, int> := map[];
    var count, total := 0, 0.0;
    for i := 0 to |rows|
      invariant count == Counted(rows[..i], key) && total == Totalled(rows[..i], key)
      invariant forall le :: le in cumulative <==> Mentions(rows[..i], key, le)
      invariant forall le :: Running(rows[..i], key, le) == if le in cumulative then cumulative[le] else 0
    {
      assert rows[..i + 1][..i] == rows[..i];
      assert rows[..i + 1] == rows[..i] + [rows[i]];
      match rows[i] {
        case BucketRow(labels, le, value) =>
          if Wanted(key, labels) {
            cumulative := cumulative[le := (if le in cumulative then cumulative[le] else 0) + value];
          }
        case SumRow(labels, value) =>
          if Wanted(key, labels) { total := total + value; }
        case CountRow(labels, value) =>
          if Wanted(key, labels) { count := count + value; }
      }
    }
    assert rows[..|rows|] == rows;
    if cumulative == map[] {
      return Cell(edges, seq(|edges| + 1, _ => 0), 0, 0.0);
    }
    assert exists le :: le in cumulative;
    var running := seq(|edges|, i requires 0 <= i < |edges| => if At(edges[i]) in cumulative then cumulative[At(edges[i])] else 0);
    assert running == seq(|edges|, i requires 0 <= i < |edges| => Running(rows, key, At(edges[i])));
    running := running + [if Infinity in cumulative then cumulative[Infinity] else count];
    return Cell(edges, Unroll(running), count, total);
  }

  lemma {:induction false} SelectAgrees(stream: seq<Observation>, s: set<Labels>, t: set<Labels>)
    requires forall o <- stream :: o.labels in s <==> o.labels in t
    ensures Select(stream, s) == Select(stream, t)
  {
    if stream != [] { SelectAgrees(stream[..|stream| - 1], s, t); }
  }

  // What a reader asking for `key` is asking about.
  function Asked(stream: seq<Observation>, key: Option<Labels>): seq<real> {
    Select(stream, if key.None? then Observed(stream) else {key.value})
  }

  lemma AskedIsWanted(stream: seq<Observation>, keys: seq<Labels>, key: Option<Labels>)
    requires forall o <- stream :: o.labels in keys
    ensures Asked(stream, key) == Select(stream, WantedOf(key, keys))
  {
    SelectAgrees(stream, if key.None? then Observed(stream) else {key.value}, WantedOf(key, keys));
  }

  lemma {:induction false} ExportMentions(edges: seq<real>, stream: seq<Observation>, keys: seq<Labels>, key: Option<Labels>)
    requires Ascending(edges)
    ensures WantedOf(key, keys) != {} ==> Mentions(Export(edges, stream, keys), key, Infinity)
    ensures WantedOf(key, keys) == {} ==> forall le :: !Mentions(Export(edges, stream, keys), key, le)
  {
    if keys != [] {
      var n := |keys| - 1;
      var k := keys[n];
      var c := CellOf(edges, Select(stream, {k}));
      ExportMentions(edges, stream, keys[..n], key);
      assert forall l :: l in WantedOf(key, keys) <==> l in WantedOf(key, keys[..n]) || (l == k && Wanted(key, k));
      var last := CellRows(k, c);
      BucketRowsLength(k, c, |edges|);
      assert last[|edges|] == BucketRow(k, Infinity, c.count);
      assert last[|edges|] in Export(edges, stream, keys);
      assert forall r <- last :: r.labels == k by { RowsAreLabelled(k, c, |edges|); }
      assert Wanted(key, k) ==> k in WantedOf(key, keys);
      forall le ensures Mentions(Export(edges, stream, keys), key, le)
          <==> Mentions(Export(edges, stream, keys[..n]), key, le) || Mentions(last, key, le) {
      }
      assert WantedOf(key, keys[..n]) <= WantedOf(key, keys);
      if WantedOf(key, keys) != {} && WantedOf(key, keys[..n]) == {} {
        assert Wanted(key, k);
      }
    }
  }

  lemma {:induction false} RowsAreLabelled(labels: Labels, c: Cell, n: nat)
    requires WellFormed(c) && n <= |c.edges|
    ensures forall r <- BucketRows(labels, c, n) :: r.labels == labels
  {
    if n > 0 { RowsAreLabelled(labels, c, n - 1); }
  }

  // Gathered numbers that are those of `values` make the cell of `values`.
  lemma GatheredCell(edges: seq<real>, values: seq<real>, running: seq<int>)
    requires Ascending(edges) && |running| == |edges| + 1
    requires forall i :: 0 <= i < |edges| ==> running[i] == CountLe(values, edges[i])
    requires running[|edges|] == |values|
    ensures Unroll(running) == CellOf(edges, values).counts
  {
    forall b | 0 <= b <= |edges| ensures Unroll(running)[b] == CountIn(edges, values, b) {
      BucketIsDifference(edges, values, b);
    }
  }

  lemma EmptyCell(edges: seq<real>)
    requires Ascending(edges)
    ensures CellOf(edges, []) == Cell(edges, seq(|edges| + 1, _ => 0), 0, 0.0)
  {
  }

  // The keys are the label sets observed, and each cell is the cell of its own values.
  ghost predicate Holds(edges: seq<real>, keys: seq<Labels>, cells: map<Labels, Cell>, stream: seq<Observation>)
    requires Ascending(edges)
  {
    && DistinctLabels(keys)
    && (forall k :: k in keys <==> k in cells)
    && (forall k :: k in cells <==> k in Observed(stream))
    && (forall k :: k in cells ==> cells[k] == CellOf(edges, Select(stream, {k})))
  }

  lemma HoldsNext(edges: seq<real>, keys: seq<Labels>, cells: map<Labels, Cell>, stream: seq<Observation>,
                  labels: Labels, value: real, keys': seq<Labels>, cell: Cell)
    requires Ascending(edges) && Holds(edges, keys, cells, stream)
    requires keys' == if labels in cells then keys else keys + [labels]
    requires cell == CellOf(edges, Select(stream, {labels}) + [value])
    ensures Holds(edges, keys', cells[labels := cell], stream + [Observation(labels, value)])
  {
    hide CellOf;
    hide Select;
    hide Observed;
    SelectObserves(stream, labels, value);
    var next := stream + [Observation(labels, value)];
    var cells' := cells[labels := cell];
    forall k ensures k in keys' <==> k in cells' {
      assert k in keys <==> k in cells;
    }
    forall k | k in cells' ensures cells'[k] == CellOf(edges, Select(next, {k})) {
      assert Select(next, {k}) == if k == labels then Select(stream, {labels}) + [value] else Select(stream, {k});
    }
  }

  /** A histogram: label sets in the order they were first seen, and a cell for each. */
  class Histogram {
    const buckets: seq<real>
    var keys: seq<Labels>
    var cells: map<Labels, Cell>
    // Everything observed so far.
    ghost var stream: seq<Observation>

    ghost predicate Valid()
      reads this
    {
      Ascending(buckets) && Holds(buckets, keys, cells, stream)
    }

    constructor (buckets: seq<real>)
      requires Ascending(buckets)
      ensures Valid() && this.buckets == buckets && stream == []
    {
      this.buckets := buckets;
      keys := [];
      cells := map[];
      stream := [];
    }

    method Observe(labels: Labels, value: real)
      requires Valid()
      modifies this
      ensures Valid() && stream == old(stream) + [Observation(labels, value)]
    {
      hide CellOf;
      hide Bucket;
      hide Select;
      hide Observed;
      hide DistinctLabels;
      ghost var keys0, cells0 := keys, cells;
      if labels !in cells {
        ObserveFirst(stream, labels);
        EmptyCell(buckets);
        keys := keys + [labels];
        cells := cells[labels := Cell(buckets, seq(|buckets| + 1, _ => 0), 0, 0.0)];
      }
      var c := cells[labels];
      var b := Bucket(buckets, value);
      CellNext(buckets, Select(stream, {labels}), value);
      cells := cells[labels := Cell(buckets, c.counts[b := c.counts[b] + 1], c.count + 1, c.total + value)];
      HoldsNext(buckets, keys0, cells0, stream, labels, value, keys, cells[labels]);
      assert cells == cells0[labels := cells[labels]];
      stream := stream + [Observation(labels, value)];
    }

    method Samples() returns (rows: seq<Row>)
      requires Valid()
      ensures rows == Export(buckets, stream, keys)
    {
      hide CellOf;
      hide Select;
      hide Observed;
      hide DistinctLabels;
      hide CountIn;
      hide Sum;
      hide Ascending;
      rows := [];
      for i := 0 to |keys|
        invariant rows == Export(buckets, stream, keys[..i])
      {
        var k := keys[i];
        assert k in keys;
        var c := cells[k];
        ghost var start := rows;
        var cumulative := 0;
        for j := 0 to |buckets|
          invariant cumulative == Prefix(c.counts, j)
          invariant rows == start + BucketRows(k, c, j)
        {
          cumulative := cumulative + c.counts[j];
          rows := rows + [BucketRow(k, At(buckets[j]), cumulative)];
        }
        rows := rows + [BucketRow(k, Infinity, c.count), SumRow(k, c.total), CountRow(k, c.count)];
        assert rows == start + CellRows(k, c);
        assert keys[..i + 1][..i] == keys[..i];
      }
      assert keys[..|keys|] == keys;
    }

    // `read_cell` for a label set, `read_total` for none: the cell of the values asked about.
    method ReadThrough(key: Option<Labels>) returns (c: Cell)
      requires Valid()
      ensures c == CellOf(buckets, Asked(stream, key))
    {
      var rows := Samples();
      c := Read(buckets, rows, key);
      ReadIsExact(buckets, stream, keys, key, c);
    }
  }

  // Whatever meets the reader's contract on an export is the cell of the values asked about.
  lemma ReadIsExact(edges: seq<real>, stream: seq<Observation>, keys: seq<Labels>, key: Option<Labels>, c: Cell)
    requires Ascending(edges) && DistinctLabels(keys) && forall o <- stream :: o.labels in keys
    requires
      var rows := Export(edges, stream, keys);
      && WellFormed(c) && c.edges == edges
      && ((forall le :: !Mentions(rows, key, le)) ==> c == Cell(edges, seq(|edges| + 1, _ => 0), 0, 0.0))
      && ((exists le :: Mentions(rows, key, le)) ==>
            && c.count == Counted(rows, key) && c.total == Totalled(rows, key)
            && c.counts == Unroll(seq(|edges|, i requires 0 <= i < |edges| => Running(rows, key, At(edges[i])))
                                  + [if Mentions(rows, key, Infinity) then Running(rows, key, Infinity) else c.count]))
    ensures c == CellOf(edges, Asked(stream, key))
  {
    var rows := Export(edges, stream, keys);
    var values := Asked(stream, key);
    AskedIsWanted(stream, keys, key);
    ExportMentions(edges, stream, keys, key);
    if WantedOf(key, keys) == {} {
      SelectNone(stream);
      EmptyCell(edges);
    } else {
      var running := seq(|edges|, i requires 0 <= i < |edges| => Running(rows, key, At(edges[i]))) + [Running(rows, key, Infinity)];
      forall i | 0 <= i < |edges| ensures running[i] == CountLe(values, edges[i]) {
        ExportGathers(edges, stream, keys, key, At(edges[i]));
      }
      ExportGathers(edges, stream, keys, key, Infinity);
      GatheredCell(edges, values, running);
    }
  }

  lemma SelectObserves(stream: seq<Observation>, labels: Labels, value: real)
    ensures
      var next := stream + [Observation(labels, value)];
      && (forall k :: Select(next, {k}) == Select(stream, {k}) + (if k == labels then [value] else []))
      && Observed(next) == Observed(stream) + {labels}
  {
    var next := stream + [Observation(labels, value)];
    assert next[..|stream|] == stream;
    assert next[|stream|] in next;
  }

  lemma ObserveFirst(stream: seq<Observation>, labels: Labels)
    requires labels !in Observed(stream)
    ensures Select(stream, {labels}) == []
  {
    SelectAgrees(stream, {labels}, {});
    SelectNone(stream);
  }

  lemma CellNext(edges: seq<real>, values: seq<real>, v: real)
    requires Ascending(edges)
    ensures
      var c, b := CellOf(edges, values), Bucket(edges, v);
      CellOf(edges, values + [v]) == Cell(edges, c.counts[b := c.counts[b] + 1], c.count + 1, c.total + v)
  {
    var c, b := CellOf(edges, values), Bucket(edges, v);
    var d := CellOf(edges, values + [v]);
    forall i | 0 <= i <= |edges| ensures d.counts[i] == c.counts[b := c.counts[b] + 1][i] {
      CountInNext(edges, values, v, i);
    }
    SumNext(values, v);
  }

  // ----- the two claims about readings over time and over labels -----

  lemma {:induction false} SelectAppend(before: seq<Observation>, after: seq<Observation>, s: set<Labels>)
    ensures Select(before + after, s) == Select(before, s) + Select(after, s)
  {
    if after == [] {
      assert before + after == before;
    } else {
      var n := |after| - 1;
      SelectAppend(before, after[..n], s);
      assert (before + after)[..|before| + n] == before + after[..n];
    }
  }

  /** For any stream cut at any point and any label set, or all of them, the reading at the end minus
      the reading at the cut is the reading of the suffix alone. */
  lemma ReadingsDifference(edges: seq<real>, before: seq<Observation>, after: seq<Observation>, key: Option<Labels>)
    requires Ascending(edges)
    ensures Minus(CellOf(edges, Asked(before + after, key)), Some(CellOf(edges, Asked(before, key))))
      == Window(CellOf(edges, Asked(after, key)))
  {
    var s := if key.None? then Observed(before + after) else {key.value};
    SelectAppend(before, after, s);
    SelectAgrees(before, s, if key.None? then Observed(before) else {key.value});
    SelectAgrees(after, s, if key.None? then Observed(after) else {key.value});
    WindowIsTheSuffix(edges, Asked(before, key), Asked(after, key));
  }

  // Two cells over the same edges, added.
  function Plus(a: Cell, b: Cell): Cell
    requires WellFormed(a) && WellFormed(b) && a.edges == b.edges
  {
    Cell(a.edges, seq(|a.counts|, i requires 0 <= i < |a.counts| => a.counts[i] + b.counts[i]), a.count + b.count, a.total + b.total)
  }

  // The cells of these label sets, added up.
  function Together(edges: seq<real>, stream: seq<Observation>, keys: seq<Labels>): (c: Cell)
    requires Ascending(edges)
    ensures WellFormed(c) && c.edges == edges
  {
    if keys == [] then CellOf(edges, [])
    else Plus(Together(edges, stream, keys[..|keys| - 1]), CellOf(edges, Asked(stream, Some(keys[|keys| - 1]))))
  }

  lemma {:induction false} PlusIs(edges: seq<real>, u: seq<real>, v: seq<real>, w: seq<real>)
    requires Ascending(edges) && |w| == |u| + |v| && Sum(w) == Sum(u) + Sum(v)
    requires forall b :: 0 <= b <= |edges| ==> CountIn(edges, w, b) == CountIn(edges, u, b) + CountIn(edges, v, b)
    ensures CellOf(edges, w) == Plus(CellOf(edges, u), CellOf(edges, v))
  {
    hide CountIn;
    hide Sum;
    assert CellOf(edges, w).counts == Plus(CellOf(edges, u), CellOf(edges, v)).counts;
  }

  lemma {:induction false} TogetherSelects(edges: seq<real>, stream: seq<Observation>, keys: seq<Labels>)
    requires Ascending(edges) && DistinctLabels(keys)
    ensures Together(edges, stream, keys) == CellOf(edges, Select(stream, set k <- keys))
  {
    if keys == [] {
      assert (set k <- keys) == {};
      SelectNone(stream);
    } else {
      hide CountIn;
      hide Select;
      hide Sum;
      hide Below;
      var n := |keys| - 1;
      TogetherSelects(edges, stream, keys[..n]);
      var s, t := (set k <- keys[..n]), {keys[n]};
      assert (set k <- keys) == s + t;
      SelectSplits(stream, s, t, Infinity);
      hide CellOf;
      forall b | 0 <= b <= |edges|
        ensures CountIn(edges, Select(stream, s + t), b) == CountIn(edges, Select(stream, s), b) + CountIn(edges, Select(stream, t), b) {
        SplitBucket(edges, stream, s, t, b);
      }
      PlusIs(edges, Select(stream, s), Select(stream, t), Select(stream, s + t));
    }
  }

  lemma SplitBucket(edges: seq<real>, stream: seq<Observation>, s: set<Labels>, t: set<Labels>, b: nat)
    requires Ascending(edges) && s !! t && b <= |edges|
    ensures CountIn(edges, Select(stream, s + t), b) == CountIn(edges, Select(stream, s), b) + CountIn(edges, Select(stream, t), b)
  {
    BucketIsDifference(edges, Select(stream, s + t), b);
    BucketIsDifference(edges, Select(stream, s), b);
    BucketIsDifference(edges, Select(stream, t), b);
    SelectSplits(stream, s, t, if b < |edges| then At(edges[b]) else Infinity);
    SelectSplits(stream, s, t, if b > 0 then At(edges[b - 1]) else Infinity);
  }

  /** The fleet's reading is the sum of the label sets' readings, in whatever order they are added. */
  lemma TotalIsSumOfCells(edges: seq<real>, stream: seq<Observation>, keys: seq<Labels>)
    requires Ascending(edges) && DistinctLabels(keys) && (set k <- keys) == Observed(stream)
    ensures Together(edges, stream, keys) == CellOf(edges, Asked(stream, None))
  {
    TogetherSelects(edges, stream, keys);
  }
}
