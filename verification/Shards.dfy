/** A run split over shard processes: which cameras each drives, and what their summaries add up to. */
module Shards {
  import opened Options
  import opened Sums
  import opened Growth
  import opened Ratios
  import R = RealSums

  // ----- the explicit split -----

  datatype Config = Config(cameras: nat, fps: real, gpus: seq<nat>, shards: int, sizes: seq<int>, single: bool)

  function SumSizes(sizes: seq<int>): int {
    if sizes == [] then 0 else SumSizes(sizes[..|sizes| - 1]) + sizes[|sizes| - 1]
  }

  datatype Refusal = NegativeShards | NeedsProcesses | EmptyShard | WrongSum | WrongCount | TooFewGpus

  // The checks a configuration makes of itself, in their order.
  function Check(c: Config): Option<Refusal> {
    if c.shards < 0 then Some(NegativeShards)
    else if c.sizes == [] then None
    else if c.single then Some(NeedsProcesses)
    else if exists n <- c.sizes :: n <= 0 then Some(EmptyShard)
    else if SumSizes(c.sizes) != c.cameras then Some(WrongSum)
    else if c.shards != 0 && |c.sizes| != c.shards then Some(WrongCount)
    else if |c.sizes| > |c.gpus| then Some(TooFewGpus)
    else None
  }

  // Cameras by number, in order.
  function Names(n: nat): (s: seq<nat>)
    ensures |s| == n && forall i :: 0 <= i < n ==> s[i] == i
  {
    seq(n, i => i)
  }

  datatype Shard = Shard(index: nat, cameras: seq<nat>, gpu: nat, offered: real)

  function Camera(shards: seq<Shard>): seq<nat> {
    if shards == [] then [] else Camera(shards[..|shards| - 1]) + shards[|shards| - 1].cameras
  }

  function Offered(shards: seq<Shard>): real {
    if shards == [] then 0.0 else Offered(shards[..|shards| - 1]) + shards[|shards| - 1].offered
  }

  function Load(cameras: int, fps: real): real { cameras as real * fps }

  // Every camera offers the run's rate.
  lemma LoadAdds(a: int, b: int, fps: real)
    ensures Load(a + b, fps) == Load(a, fps) + Load(b, fps) && Load(0, fps) == 0.0 && Load(1, fps) == fps
  {
  }

  lemma {:induction false} SizesFit(sizes: seq<int>, n: nat)
    requires n <= |sizes| && forall i :: 0 <= i < |sizes| ==> sizes[i] > 0
    ensures 0 <= SumSizes(sizes[..n]) <= SumSizes(sizes)
    decreases |sizes|
  {
    if n < |sizes| {
      assert sizes[..|sizes| - 1][..n] == sizes[..n];
      SizesFit(sizes[..|sizes| - 1], n);
    } else {
      assert sizes[..n] == sizes;
      SizesPositive(sizes);
    }
  }

  lemma {:induction false} SizesPositive(sizes: seq<int>)
    requires forall i :: 0 <= i < |sizes| ==> sizes[i] > 0
    ensures SumSizes(sizes) >= |sizes|
  {
    if sizes != [] { SizesPositive(sizes[..|sizes| - 1]); }
  }

  // Shard `i` of the plan: its size in cameras, its GPU, its share of the load.
  ghost predicate Planned(c: Config, i: nat, shard: Shard)
    requires i < |c.sizes| <= |c.gpus|
  {
    && shard.index == i && |shard.cameras| == c.sizes[i] > 0 && shard.gpu == c.gpus[i]
    && shard.offered == Load(|shard.cameras|, c.fps)
  }

  // The first `n` shards take the first cameras, as many as their sizes add up to.
  ghost predicate PlannedUpTo(c: Config, plan: seq<Shard>, n: nat)
    requires n <= |c.sizes| <= |c.gpus|
  {
    && |plan| == n && 0 <= SumSizes(c.sizes[..n]) <= c.cameras
    && Camera(plan) == Names(c.cameras)[..SumSizes(c.sizes[..n])]
    && Offered(plan) == Load(SumSizes(c.sizes[..n]), c.fps)
    && forall i :: 0 <= i < n ==> Planned(c, i, plan[i])
  }

  lemma {:induction false} PlannedNext(c: Config, plan: seq<Shard>, n: nat, shard: Shard)
    requires n < |c.sizes| <= |c.gpus| && PlannedUpTo(c, plan, n)
    requires SumSizes(c.sizes) == c.cameras && forall i :: 0 <= i < |c.sizes| ==> c.sizes[i] > 0
    requires 0 <= SumSizes(c.sizes[..n]) <= SumSizes(c.sizes[..n]) + c.sizes[n] <= c.cameras
    requires
      var start := SumSizes(c.sizes[..n]);
      shard == Shard(n, Names(c.cameras)[start..start + c.sizes[n]], c.gpus[n], Load(c.sizes[n], c.fps))
    ensures PlannedUpTo(c, plan + [shard], n + 1)
  {
    hide Load;
    hide Camera;
    hide Offered;
    hide SumSizes;
    var names, start, size := Names(c.cameras), SumSizes(c.sizes[..n]), c.sizes[n];
    SizeNext(c, n);
    LoadAdds(start, size, c.fps);
    PlanNext(plan, shard);
    assert names[..start] + names[start..start + size] == names[..start + size];
  }

  lemma PlanNext(plan: seq<Shard>, shard: Shard)
    ensures Camera(plan + [shard]) == Camera(plan) + shard.cameras
    ensures Offered(plan + [shard]) == Offered(plan) + shard.offered
  {
    assert (plan + [shard])[..|plan|] == plan;
  }

  lemma SizeNext(c: Config, n: nat)
    requires n < |c.sizes| && SumSizes(c.sizes) == c.cameras && forall i :: 0 <= i < |c.sizes| ==> c.sizes[i] > 0
    ensures SumSizes(c.sizes[..n + 1]) == SumSizes(c.sizes[..n]) + c.sizes[n] <= c.cameras
  {
    assert c.sizes[..n + 1][..n] == c.sizes[..n];
    SizesFit(c.sizes, n + 1);
  }

  // Contiguous slices of the camera list, one GPU each: together the whole list in order, no shard
  // empty, and the offered rates adding up to the run's.
  method PlanExplicit(c: Config) returns (plan: seq<Shard>)
    requires Check(c).None? && c.sizes != []
    ensures |plan| == |c.sizes| && Camera(plan) == Names(c.cameras) && Offered(plan) == Load(c.cameras, c.fps)
    ensures forall i :: 0 <= i < |plan| ==> Planned(c, i, plan[i])
  {
    plan := [];
    var names, start := Names(c.cameras), 0;
    LoadAdds(0, 0, c.fps);
    assert forall i :: 0 <= i < |c.sizes| ==> c.sizes[i] in c.sizes;
    assert PlannedUpTo(c, [], 0);
    for i := 0 to |c.sizes|
      invariant start == SumSizes(c.sizes[..i]) && 0 <= start <= c.cameras
      invariant PlannedUpTo(c, plan, i)
    {
      hide PlannedUpTo;
      hide Load;
      hide Camera;
      hide Offered;
      hide SumSizes;
      var size := c.sizes[i];
      SizeNext(c, i);
      var shard := Shard(i, names[start..start + size], c.gpus[i], Load(size, c.fps));
      PlannedNext(c, plan, i, shard);
      plan := plan + [shard];
      start := start + size;
    }
    assert c.sizes[..|c.sizes|] == c.sizes;
  }

  lemma {:induction false} CamerasAre(c: Config, plan: seq<Shard>, n: nat)
    requires n <= |plan| == |c.sizes| <= |c.gpus| && forall i :: 0 <= i < |plan| ==> Planned(c, i, plan[i])
    ensures |Camera(plan[..n])| == SumSizes(c.sizes[..n])
  {
    if n > 0 {
      CamerasAre(c, plan, n - 1);
      assert plan[..n][..n - 1] == plan[..n - 1] && c.sizes[..n][..n - 1] == c.sizes[..n - 1];
    }
  }

  lemma {:induction false} PlanUpTo(c: Config, n: nat) returns (plan: seq<Shard>)
    requires n <= |c.sizes| <= |c.gpus|
    requires SumSizes(c.sizes) == c.cameras && forall i :: 0 <= i < |c.sizes| ==> c.sizes[i] > 0
    ensures PlannedUpTo(c, plan, n)
  {
    if n == 0 {
      plan := [];
      LoadAdds(0, 0, c.fps);
    } else {
      plan := PlanUpTo(c, n - 1);
      SizeNext(c, n - 1);
      SizesFit(c.sizes, n - 1);
      var start, size := SumSizes(c.sizes[..n - 1]), c.sizes[n - 1];
      var shard := Shard(n - 1, Names(c.cameras)[start..start + size], c.gpus[n - 1], Load(size, c.fps));
      hide PlannedUpTo;
      PlannedNext(c, plan, n - 1, shard);
      plan := plan + [shard];
    }
  }

  // A split of the whole camera list into shards of the sizes asked for, with a GPU for each.
  ghost predicate Splits(c: Config, plan: seq<Shard>) {
    && |plan| == |c.sizes| <= |c.gpus| && Camera(plan) == Names(c.cameras)
    && forall i :: 0 <= i < |plan| ==> Planned(c, i, plan[i])
  }

  /** The checks refuse exactly what cannot be planned: an explicit split passes if and only if the
      topology has processes, their number is the one asked for if one is, and there is a split. */
  lemma PassesIffSplits(c: Config)
    requires c.sizes != []
    ensures Check(c).None? <==>
      c.shards >= 0 && !c.single && (c.shards == 0 || c.shards == |c.sizes|) && exists plan :: Splits(c, plan)
  {
    assert forall i :: 0 <= i < |c.sizes| ==> c.sizes[i] in c.sizes;
    if Check(c).None? {
      var plan := PlanUpTo(c, |c.sizes|);
      assert c.sizes[..|c.sizes|] == c.sizes;
      assert Splits(c, plan);
    }
    if plan :| Splits(c, plan) {
      CamerasAre(c, plan, |plan|);
      assert plan[..|plan|] == plan && c.sizes[..|plan|] == c.sizes;
      forall n | n in c.sizes ensures n > 0 {
        var i :| 0 <= i < |c.sizes| && c.sizes[i] == n;
        assert Planned(c, i, plan[i]);
      }
    }
  }

  // ----- tables -----

  // A device as a child names it: the n-th GPU it sees, or something else.
  datatype Device = Cuda(index: nat) | Other(name: nat)

  datatype Key = Key(model: nat, device: Device)

  datatype Entry = Entry(key: Key, count: real)

  type Table = map<Key, real>

  function Put(m: Table, k: Key, count: real): Table {
    m[k := (if k in m then m[k] else 0.0) + count]
  }

  // Entries added one by one into a table.
  function Gather(entries: seq<Entry>): Table {
    if entries == [] then map[]
    else Put(Gather(entries[..|entries| - 1]), entries[|entries| - 1].key, entries[|entries| - 1].count)
  }

  // The entries of a table, in some order.
  ghost predicate ItemsOf(items: seq<Entry>, m: Table) {
    && (forall i, j :: 0 <= i < j < |items| ==> items[i].key != items[j].key)
    && (forall k :: k in m <==> exists i :: 0 <= i < |items| && items[i].key == k)
    && (forall i :: 0 <= i < |items| ==> items[i].key in m && m[items[i].key] == items[i].count)
  }

  // One model's total, over a table and over entries.
  function ModelKeys(m: Table, model: nat): set<Key> { set k <- m | k.model == model }

  ghost function ModelTotal(m: Table, model: nat): real {
    SumOver(ModelKeys(m, model), At(m))
  }

  function At(m: Table): Key -> real { k => if k in m then m[k] else 0.0 }

  function EntriesTotal(entries: seq<Entry>, model: nat): real {
    if entries == [] then 0.0
    else
      var e := entries[|entries| - 1];
      EntriesTotal(entries[..|entries| - 1], model) + (if e.key.model == model then e.count else 0.0)
  }

  lemma PutTotal(m: Table, k: Key, count: real, model: nat)
    ensures ModelTotal(Put(m, k, count), model) == ModelTotal(m, model) + (if k.model == model then count else 0.0)
  {
    var now := Put(m, k, count);
    var before, after := ModelKeys(m, model), ModelKeys(now, model);
    if k.model == model {
      assert after == before + {k};
      SumOverSplit(after, At(now), k);
      SumOverSame(after - {k}, At(now), At(m));
      if k in m {
        assert after - {k} == before - {k};
        SumOverSplit(before, At(m), k);
      } else {
        assert after - {k} == before;
      }
    } else {
      assert after == before;
      SumOverSame(before, At(now), At(m));
    }
  }

  /** Adding entries into a table loses and invents nothing: each model's total is that of the entries. */
  lemma {:induction false} GatherConserves(entries: seq<Entry>, model: nat)
    ensures ModelTotal(Gather(entries), model) == EntriesTotal(entries, model)
  {
    if entries == [] {
      assert ModelKeys(map[], model) == {};
    } else {
      var n := |entries| - 1;
      GatherConserves(entries[..n], model);
      PutTotal(Gather(entries[..n]), entries[n].key, entries[n].count, model);
    }
  }

  // A key's total over entries.
  function KeyTotal(entries: seq<Entry>, k: Key): real {
    if entries == [] then 0.0
    else
      var e := entries[|entries| - 1];
      KeyTotal(entries[..|entries| - 1], k) + (if e.key == k then e.count else 0.0)
  }

  predicate HasKey(entries: seq<Entry>, k: Key) { exists e <- entries :: e.key == k }

  // A table gathered holds each key's total, and no other keys.
  lemma {:induction false} GatherAt(entries: seq<Entry>, k: Key)
    ensures k in Gather(entries) <==> HasKey(entries, k)
    ensures k in Gather(entries) ==> Gather(entries)[k] == KeyTotal(entries, k)
    ensures !HasKey(entries, k) ==> KeyTotal(entries, k) == 0.0
  {
    if entries != [] {
      var n := |entries| - 1;
      GatherAt(entries[..n], k);
      assert entries == entries[..n] + [entries[n]];
      assert HasKey(entries, k) <==> HasKey(entries[..n], k) || entries[n].key == k;
    }
  }

  lemma ItemsKeys(items: seq<Entry>, m: Table, k: Key)
    requires ItemsOf(items, m)
    ensures HasKey(items, k) <==> k in m
  {
    if k in m {
      var i :| 0 <= i < |items| && items[i].key == k;
      assert items[i] in items;
    }
    if HasKey(items, k) {
      var e :| e in items && e.key == k;
      var i :| 0 <= i < |items| && items[i] == e;
    }
  }

  // A table's own items gather back into it.
  lemma ItemsGather(items: seq<Entry>, m: Table)
    requires ItemsOf(items, m)
    ensures Gather(items) == m
  {
    forall k ensures (k in Gather(items) <==> k in m) && (k in m ==> Gather(items)[k] == m[k]) {
      GatherAt(items, k);
      ItemsKeys(items, m, k);
      if k in m {
        var i :| 0 <= i < |items| && items[i].key == k;
        SoleKey(items, i, |items|);
        assert items[..|items|] == items;
      }
    }
  }

  lemma {:induction false} SoleKey(items: seq<Entry>, i: nat, n: nat)
    requires i < |items| && n <= |items|
    requires forall a, b :: 0 <= a < b < |items| ==> items[a].key != items[b].key
    ensures KeyTotal(items[..n], items[i].key) == if i < n then items[i].count else 0.0
  {
    if n > 0 {
      SoleKey(items, i, n - 1);
      assert items[..n][..n - 1] == items[..n - 1];
      assert items[n - 1].key == items[i].key <==> n - 1 == i;
    }
  }

  // ----- relabelling -----

  // The n-th GPU of a child by its physical number; an index past the child's GPUs stays.
  function Relabel(d: Device, gpus: seq<nat>): Device {
    if d.Cuda? && d.index < |gpus| then Cuda(gpus[d.index]) else d
  }

  function RelabelEntries(entries: seq<Entry>, gpus: seq<nat>): (r: seq<Entry>)
    ensures |r| == |entries|
    ensures forall i :: 0 <= i < |r| ==>
      r[i] == Entry(Key(entries[i].key.model, Relabel(entries[i].key.device, gpus)), entries[i].count)
  {
    seq(|entries|, i requires 0 <= i < |entries| =>
      Entry(Key(entries[i].key.model, Relabel(entries[i].key.device, gpus)), entries[i].count))
  }

  method RelabelTable(entries: seq<Entry>, gpus: seq<nat>) returns (out: Table)
    ensures out == Gather(RelabelEntries(entries, gpus))
  {
    out := map[];
    var renamed := RelabelEntries(entries, gpus);
    for i := 0 to |entries|
      invariant out == Gather(renamed[..i])
    {
      assert renamed[..i + 1][..i] == renamed[..i];
      var key := Key(entries[i].key.model, Relabel(entries[i].key.device, gpus));
      out := out[key := (if key in out then out[key] else 0.0) + entries[i].count];
    }
    assert renamed[..|entries|] == renamed;
  }

  /** Relabelling keeps every model's total, even where two labels fall together. */
  lemma {:induction false} RelabelConserves(entries: seq<Entry>, gpus: seq<nat>, model: nat)
    ensures ModelTotal(Gather(RelabelEntries(entries, gpus)), model) == EntriesTotal(entries, model)
  {
    GatherConserves(RelabelEntries(entries, gpus), model);
    RelabelTotal(entries, gpus, model);
  }

  lemma {:induction false} RelabelTotal(entries: seq<Entry>, gpus: seq<nat>, model: nat)
    ensures EntriesTotal(RelabelEntries(entries, gpus), model) == EntriesTotal(entries, model)
  {
    if entries != [] {
      var n := |entries| - 1;
      RelabelTotal(entries[..n], gpus, model);
      assert RelabelEntries(entries, gpus)[..n] == RelabelEntries(entries[..n], gpus);
    }
  }

  // The child's device is that physical GPU: the one at its place in the child's list, or, past the
  // list, the one of that number.
  ghost predicate IsGpu(d: Device, gpus: seq<nat>, g: nat) {
    d.Cuda? && (if d.index < |gpus| then gpus[d.index] == g else d.index == g)
  }

  // What the entries of one model count on one physical GPU.
  ghost function GpuTotal(entries: seq<Entry>, gpus: seq<nat>, model: nat, g: nat): real {
    if entries == [] then 0.0
    else
      var e := entries[|entries| - 1];
      GpuTotal(entries[..|entries| - 1], gpus, model, g) + (if e.key.model == model && IsGpu(e.key.device, gpus, g) then e.count else 0.0)
  }

  /** Every count ends under the physical GPU it was made on, and what is no GPU stays where it is. */
  lemma {:induction false} RelabelMoves(entries: seq<Entry>, gpus: seq<nat>, model: nat, g: nat, other: nat)
    ensures KeyTotal(RelabelEntries(entries, gpus), Key(model, Cuda(g))) == GpuTotal(entries, gpus, model, g)
    ensures KeyTotal(RelabelEntries(entries, gpus), Key(model, Other(other))) == KeyTotal(entries, Key(model, Other(other)))
  {
    if entries != [] {
      var n := |entries| - 1;
      RelabelMoves(entries[..n], gpus, model, g, other);
      assert RelabelEntries(entries, gpus)[..n] == RelabelEntries(entries[..n], gpus);
    }
  }

  // ----- aggregation -----

  // One shard's summary: its throughput, and its table's items in order.
  datatype Summary = Summary(throughput: Throughput, items: seq<Entry>)

  function AllItems(summaries: seq<Summary>): seq<Entry> {
    if summaries == [] then [] else AllItems(summaries[..|summaries| - 1]) + summaries[|summaries| - 1].items
  }

  lemma GatherNext(entries: seq<Entry>, e: Entry)
    ensures Gather(entries + [e]) == Put(Gather(entries), e.key, e.count)
  {
    assert (entries + [e])[..|entries|] == entries;
  }

  lemma AllItemsNext(summaries: seq<Summary>, n: nat)
    requires n < |summaries|
    ensures AllItems(summaries[..n + 1]) == AllItems(summaries[..n]) + summaries[n].items
  {
    assert summaries[..n + 1][..n] == summaries[..n];
  }

  // One shard's items added into the fleet's table.
  method AddItems(before: Table, items: seq<Entry>, ghost sofar: seq<Entry>) returns (table: Table)
    requires before == Gather(sofar)
    ensures table == Gather(sofar + items)
  {
    hide Gather;
    table := before;
    assert sofar + items[..0] == sofar;
    for i := 0 to |items|
      invariant table == Gather(sofar + items[..i])
    {
      var e := items[i];
      GatherNext(sofar + items[..i], e);
      assert sofar + items[..i] + [e] == sofar + items[..i + 1];
      table := table[e.key := (if e.key in table then table[e.key] else 0.0) + e.count];
    }
    assert items[..|items|] == items;
  }

  method AggregateTable(summaries: seq<Summary>) returns (table: Table)
    ensures table == Gather(AllItems(summaries))
  {
    table := map[];
    for s := 0 to |summaries|
      invariant table == Gather(AllItems(summaries[..s]))
    {
      AllItemsNext(summaries, s);
      table := AddItems(table, summaries[s].items, AllItems(summaries[..s]));
    }
    assert summaries[..|summaries|] == summaries;
  }

  function SummedTotals(summaries: seq<Summary>, model: nat): real {
    if summaries == [] then 0.0
    else SummedTotals(summaries[..|summaries| - 1], model) + EntriesTotal(summaries[|summaries| - 1].items, model)
  }

  lemma {:induction false} EntriesTotalAdds(a: seq<Entry>, b: seq<Entry>, model: nat)
    ensures EntriesTotal(a + b, model) == EntriesTotal(a, model) + EntriesTotal(b, model)
  {
    if b == [] {
      assert a + b == a;
    } else {
      EntriesTotalAdds(a, b[..|b| - 1], model);
      assert (a + b)[..|a| + |b| - 1] == a + b[..|b| - 1];
    }
  }

  /** The fleet's table conserves every model's total over the shards' tables. */
  lemma {:induction false} AggregateConserves(summaries: seq<Summary>, model: nat)
    ensures ModelTotal(Gather(AllItems(summaries)), model) == SummedTotals(summaries, model)
  {
    GatherConserves(AllItems(summaries), model);
    AllItemsTotal(summaries, model);
  }

  lemma {:induction false} AllItemsTotal(summaries: seq<Summary>, model: nat)
    ensures EntriesTotal(AllItems(summaries), model) == SummedTotals(summaries, model)
  {
    if summaries != [] {
      var n := |summaries| - 1;
      AllItemsTotal(summaries[..n], model);
      EntriesTotalAdds(AllItems(summaries[..n]), summaries[n].items, model);
    }
  }

  /** From a child's own table to the fleet's: relabelled by each shard and then added up, a model's
      total is what the children counted. */
  lemma {:induction false} RelabelledFleetConserves(raw: seq<seq<Entry>>, gpus: seq<seq<nat>>, summaries: seq<Summary>, model: nat)
    requires |raw| == |gpus| == |summaries|
    requires forall i :: 0 <= i < |raw| ==> ItemsOf(summaries[i].items, Gather(RelabelEntries(raw[i], gpus[i])))
    ensures ModelTotal(Gather(AllItems(summaries)), model) == RawTotals(raw, model)
  {
    AggregateConserves(summaries, model);
    forall i | 0 <= i < |raw| ensures EntriesTotal(summaries[i].items, model) == EntriesTotal(raw[i], model) {
      ShardTotal(raw[i], gpus[i], summaries[i].items, model);
    }
    RawIsSummed(raw, summaries, model);
  }

  function RawTotals(raw: seq<seq<Entry>>, model: nat): real {
    if raw == [] then 0.0 else RawTotals(raw[..|raw| - 1], model) + EntriesTotal(raw[|raw| - 1], model)
  }

  // What one shard reports of a model is what its own table counted.
  lemma {:induction false} ShardTotal(raw: seq<Entry>, gpus: seq<nat>, items: seq<Entry>, model: nat)
    requires ItemsOf(items, Gather(RelabelEntries(raw, gpus)))
    ensures EntriesTotal(items, model) == EntriesTotal(raw, model)
  {
    ItemsGather(items, Gather(RelabelEntries(raw, gpus)));
    hide *;
    GatherConserves(items, model);
    RelabelConserves(raw, gpus, model);
  }

  lemma {:induction false} RawIsSummed(raw: seq<seq<Entry>>, summaries: seq<Summary>, model: nat)
    requires |raw| == |summaries|
    requires forall i :: 0 <= i < |raw| ==> EntriesTotal(summaries[i].items, model) == EntriesTotal(raw[i], model)
    ensures SummedTotals(summaries, model) == RawTotals(raw, model)
  {
    hide EntriesTotal;
    if raw != [] { RawIsSummed(raw[..|raw| - 1], summaries[..|raw| - 1], model); }
  }

  // ----- the order of shards -----

  function KeyTotals(summaries: seq<Summary>, k: Key): real {
    if summaries == [] then 0.0 else KeyTotals(summaries[..|summaries| - 1], k) + KeyTotal(summaries[|summaries| - 1].items, k)
  }

  lemma {:induction false} KeyTotalAdds(a: seq<Entry>, b: seq<Entry>, k: Key)
    ensures KeyTotal(a + b, k) == KeyTotal(a, k) + KeyTotal(b, k)
  {
    if b == [] {
      assert a + b == a;
    } else {
      KeyTotalAdds(a, b[..|b| - 1], k);
      assert (a + b)[..|a| + |b| - 1] == a + b[..|b| - 1];
    }
  }

  lemma {:induction false} AllItemsAt(summaries: seq<Summary>, k: Key)
    ensures KeyTotal(AllItems(summaries), k) == KeyTotals(summaries, k)
    ensures HasKey(AllItems(summaries), k) <==> exists s <- summaries :: HasKey(s.items, k)
  {
    if summaries != [] {
      var n := |summaries| - 1;
      AllItemsAt(summaries[..n], k);
      KeyTotalAdds(AllItems(summaries[..n]), summaries[n].items, k);
      assert summaries == summaries[..n] + [summaries[n]];
      assert HasKey(AllItems(summaries), k) <==> HasKey(AllItems(summaries[..n]), k) || HasKey(summaries[n].items, k);
    }
  }

  function Without(s: seq<Summary>, i: nat): seq<Summary>
    requires i < |s|
  {
    s[..i] + s[i + 1..]
  }

  lemma WithoutOne(s: seq<Summary>, i: nat)
    requires i < |s|
    ensures multiset(Without(s, i)) == multiset(s) - multiset{s[i]}
  {
    assert s == s[..i] + [s[i]] + s[i + 1..];
  }

  lemma {:induction false} KeyTotalsWithout(s: seq<Summary>, i: nat, k: Key)
    requires i < |s|
    ensures KeyTotals(s, k) == KeyTotals(Without(s, i), k) + KeyTotal(s[i].items, k)
    decreases |s|
  {
    var n := |s| - 1;
    if i < n {
      KeyTotalsWithout(s[..n], i, k);
      assert Without(s, i)[..n - 1] == Without(s[..n], i);
    } else {
      assert Without(s, i) == s[..n];
    }
  }

  lemma {:induction false} KeyTotalsReorder(a: seq<Summary>, b: seq<Summary>, k: Key)
    requires multiset(a) == multiset(b)
    ensures KeyTotals(a, k) == KeyTotals(b, k)
    decreases |a|
  {
    assert |multiset(a)| == |a| && |multiset(b)| == |b|;
    if a != [] {
      hide KeyTotals;
      var n := |a| - 1;
      assert a[n] in multiset(b);
      var i :| 0 <= i < |b| && b[i] == a[n];
      WithoutOne(a, n);
      WithoutOne(b, i);
      KeyTotalsReorder(Without(a, n), Without(b, i), k);
      KeyTotalsWithout(a, n, k);
      KeyTotalsWithout(b, i, k);
    }
  }

  /** Shards reported in another order give the same table. */
  lemma {:induction false} TableIgnoresOrder(a: seq<Summary>, b: seq<Summary>)
    requires multiset(a) == multiset(b)
    ensures Gather(AllItems(a)) == Gather(AllItems(b))
  {
    forall k
      ensures k in Gather(AllItems(a)) <==> k in Gather(AllItems(b))
      ensures k in Gather(AllItems(a)) ==> Gather(AllItems(a))[k] == Gather(AllItems(b))[k] {
      GatherAt(AllItems(a), k);
      GatherAt(AllItems(b), k);
      AllItemsAt(a, k);
      AllItemsAt(b, k);
      KeyTotalsReorder(a, b, k);
      assert forall s :: s in a <==> s in multiset(a);
      assert forall s :: s in b <==> s in multiset(b);
    }
  }

  // ----- the fleet's number and verdict -----

  function Rates(ts: seq<Throughput>): Option<real> {
    if ts == [] then Some(0.0)
    else
      var before, last := Rates(ts[..|ts| - 1]), ts[|ts| - 1].rate;
      if before.None? || last.None? then None else Some(before.value + last.value)
  }

  // The first of saturated, unmeasured, draining and sustained that some shard has.
  function WorstOf(ts: seq<Throughput>): Verdict {
    if exists t <- ts :: t.verdict.Saturated? then Saturated
    else if exists t <- ts :: t.verdict.Unmeasured? then Unmeasured
    else if exists t <- ts :: t.verdict.Draining? then Draining
    else if ts != [] then Verdict.Sustained
    else Unmeasured
  }

  function Fleet(ts: seq<Throughput>): Throughput {
    Throughput(Rates(ts), WorstOf(ts))
  }

  // How bad a verdict is for the fleet's number.
  function Severity(v: Verdict): nat {
    match v
    case Saturated => 3
    case Unmeasured => 2
    case Draining => 1
    case Sustained => 0
  }

  /** The fleet's verdict is the worst of its shards', no shards are no measurement, and the order of
      shards is nothing. */
  lemma WorstIgnoresOrder(a: seq<Throughput>, b: seq<Throughput>)
    requires multiset(a) == multiset(b)
    ensures WorstOf(a) == WorstOf(b)
    ensures forall t <- a :: Severity(t.verdict) <= Severity(WorstOf(a))
    ensures if a == [] then WorstOf(a) == Unmeasured else exists t <- a :: t.verdict == WorstOf(a)
  {
    assert a != [] ==> a[0] in a;
    assert |multiset(a)| == |a| && |multiset(b)| == |b|;
    assert forall t :: t in a <==> t in multiset(a);
    assert forall t :: t in b <==> t in multiset(b);
  }

  function AsModules(ts: seq<Throughput>): (ms: seq<Module>)
    ensures |ms| == |ts| && forall i :: 0 <= i < |ms| ==> ms[i] == Module(ts[i].verdict, false)
  {
    seq(|ts|, i requires 0 <= i < |ts| => Module(ts[i].verdict, false))
  }

  /** One saturated shard does not make the fleet's number what one saturated module makes a process's:
      a process with an unbounded module claims nothing, while a fleet with an unmeasured shard beside
      a saturated one is called saturated. The two agree on what is claimed exactly otherwise. */
  lemma FleetAgreesWithProcess(ts: seq<Throughput>, rate: real)
    requires ts != []
    ensures KindOf(Throughput(Some(rate), WorstOf(ts))) == KindOf(Throughput(Some(rate), RunVerdict(AsModules(ts))))
      <==> !((exists t <- ts :: t.verdict.Saturated?) && exists t <- ts :: t.verdict.Unmeasured?)
  {
    var ms := AsModules(ts);
    forall t | t in ts ensures Module(t.verdict, false) in ms {
      var i :| 0 <= i < |ts| && ts[i] == t;
      assert ms[i] == Module(t.verdict, false);
    }
    forall m | m in ms ensures !m.capped && exists t <- ts :: t.verdict == m.verdict {
      var i :| 0 <= i < |ms| && ms[i] == m;
      assert ts[i] in ts;
    }
  }

  // True capacities, one per shard, that their measurements do not rule out.
  ghost predicate Truths(ts: seq<Throughput>, capacities: seq<real>) {
    |ts| == |capacities| && forall i :: 0 <= i < |ts| ==> capacities[i] >= 0.0 && Consistent(ts[i], capacities[i])
  }

  // The fleet's number says nothing false, whatever the shards' true capacities.
  ghost predicate FleetIsSound(ts: seq<Throughput>) {
    forall capacities: seq<real> :: Truths(ts, capacities) ==> Consistent(Fleet(ts), R.Sum(capacities))
  }

  lemma {:induction false} CapacitiesAbove(ts: seq<Throughput>, capacities: seq<real>)
    requires Truths(ts, capacities) && Rates(ts).Some?
    ensures (forall t <- ts :: KindOf(t).Capacity?) ==> R.Sum(capacities) == Rates(ts).value
    ensures (forall t <- ts :: KindOf(t).Capacity? || KindOf(t).Floor?) ==> R.Sum(capacities) >= Rates(ts).value
  {
    if ts != [] {
      var n := |ts| - 1;
      CapacitiesAbove(ts[..n], capacities[..n]);
      assert ts[n] in ts;
    }
  }

  lemma {:induction false} SumNonNegative(s: seq<real>)
    requires forall i :: 0 <= i < |s| ==> s[i] >= 0.0
    ensures R.Sum(s) >= 0.0
  {
    if s != [] { SumNonNegative(s[..|s| - 1]); }
  }

  lemma {:induction false} RatesPresent(ts: seq<Throughput>)
    ensures Rates(ts).Some? <==> forall t <- ts :: t.rate.Some?
  {
    if ts != [] {
      RatesPresent(ts[..|ts| - 1]);
      assert ts == ts[..|ts| - 1] + [ts[|ts| - 1]];
    }
  }

  // The least capacities the measurements allow, with `more` added to shard `i`.
  function Raised(ts: seq<Throughput>, i: nat, more: real): (c: seq<real>)
    ensures |c| == |ts| && forall k :: 0 <= k < |c| ==> c[k] == Least(ts[k]) + (if k == i then more else 0.0)
  {
    seq(|ts|, k requires 0 <= k < |ts| => Least(ts[k]) + (if k == i then more else 0.0))
  }

  lemma {:induction false} RaisedSum(ts: seq<Throughput>, i: nat, more: real)
    ensures R.Sum(Raised(ts, i, more)) == R.Sum(Raised(ts, i, 0.0)) + (if i < |ts| then more else 0.0)
  {
    if ts != [] {
      var n := |ts| - 1;
      RaisedSum(ts[..n], i, more);
      assert Raised(ts, i, more)[..n] == Raised(ts[..n], i, more);
      assert Raised(ts, i, 0.0)[..n] == Raised(ts[..n], i, 0.0);
    }
  }

  /** Taking a fleet's capacity to be the sum of its shards', the aggregate is sound exactly when no
      shard saturated, or every shard did, or some shard has no number: next to a saturated shard, one
      that only kept up makes the sum a floor that is reported as a capacity. */
  lemma {:induction false} FleetSoundIff(ts: seq<Throughput>)
    requires forall t <- ts :: Sensible(t)
    ensures FleetIsSound(ts) <==>
      || (forall t <- ts :: !t.verdict.Saturated?)
      || (forall t <- ts :: t.verdict.Saturated?)
      || (exists t <- ts :: t.rate.None?)
  {
    RatesPresent(ts);
    if (exists t <- ts :: t.verdict.Saturated?) && (exists u <- ts :: !u.verdict.Saturated?) && forall t <- ts :: t.rate.Some? {
      var u :| u in ts && !u.verdict.Saturated?;
      var i :| 0 <= i < |ts| && ts[i] == u;
      Refuted(ts, i);
    } else {
      forall capacities: seq<real> | Truths(ts, capacities) ensures Consistent(Fleet(ts), R.Sum(capacities)) {
        SumNonNegative(capacities);
        if Rates(ts).Some? { CapacitiesAbove(ts, capacities); }
      }
    }
  }

  lemma {:induction false} Refuted(ts: seq<Throughput>, i: nat)
    requires i < |ts| && !ts[i].verdict.Saturated? && exists t <- ts :: t.verdict.Saturated?
    requires forall t <- ts :: Sensible(t) && t.rate.Some?
    ensures !FleetIsSound(ts)
  {
    RatesPresent(ts);
    forall more: real | more >= 0.0 ensures Truths(ts, Raised(ts, i, more)) {
      forall k | 0 <= k < |ts|
        ensures Raised(ts, i, more)[k] >= 0.0 && Consistent(ts[k], Raised(ts, i, more)[k]) {
        assert ts[k] in ts;
      }
    }
    RaisedSum(ts, i, 1.0);
    assert Truths(ts, Raised(ts, i, 0.0)) && Truths(ts, Raised(ts, i, 1.0));
    assert KindOf(Fleet(ts)).Capacity?;
  }
}
