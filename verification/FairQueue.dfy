/** The lane as the object the queue mutates, proved against the lane's value. */
module LaneObjects {
  import opened Options
  import opened WorkItems
  import opened KeySeqs
  import L = Lanes

  class Lane {
    var byKey: map<Camera, seq<Item>>
    var keys: seq<Camera>
    var order: seq<Camera>
    var size: nat

    ghost predicate Valid()
      reads this
    {
      L.RawLane(byKey, keys, order).Valid() && size == |L.Items(L.RawLane(byKey, keys, order))|
    }

    ghost function State(): L.LaneState
      requires Valid()
      reads this
    {
      L.RawLane(byKey, keys, order)
    }

    constructor ()
      ensures Valid() && State() == L.EMPTY
    {
      byKey, keys, order, size := map[], [], [], 0;
    }

    method Push(item: Item)
      requires Valid()
      modifies this
      ensures Valid() && State() == L.Push(old(State()), item)
    {
      hide L.RawLane.Valid;
      hide L.ItemsOf;
      L.PushItems(State(), item);
      var key := FairnessKey(item);
      if key in byKey {
        byKey := byKey[key := byKey[key] + [item]];
      } else {
        byKey := byKey[key := [item]];
        keys := keys + [key];
        order := order + [key];
      }
      size := size + 1;
      assert L.RawLane(byKey, keys, order) == L.Push(old(State()), item);
    }

    method Pop() returns (item: Item)
      requires Valid() && order != []
      modifies this
      ensures Valid() && State() == L.Pop(old(State()))
      ensures item == L.Peek(old(State()))
    {
      L.PopItems(State());
      var key := order[0];
      assert key in order;
      assert byKey[key] != [];
      hide L.RawLane.Valid;
      hide L.ItemsOf;
      order := order[1..];
      var bucket := byKey[key];
      item := bucket[0];
      bucket := bucket[1..];
      if bucket != [] {
        order := order + [key];
        byKey := byKey[key := bucket];
      } else {
        byKey := byKey - {key};
        keys := Remove(keys, key);
      }
      size := size - 1;
      assert L.RawLane(byKey, keys, order) == L.Pop(old(State()));
    }

    method Peek() returns (head: Option<Item>)
      requires Valid()
      ensures head == if order == [] then None else Some(L.Peek(State()))
    {
      if order == [] { return None; }
      assert order[0] in order;
      head := Some(byKey[order[0]][0]);
    }

    // The first key, in dictionary order, whose bucket is longest.
    static method LongestKey(byKey: map<Camera, seq<Item>>, keys: seq<Camera>) returns (key: Camera)
      requires keys != [] && forall i :: 0 <= i < |keys| ==> keys[i] in byKey
      ensures key == keys[L.FirstLargest(L.Lengths(byKey, keys), |keys|)]
    {
      ghost var lengths := L.Lengths(byKey, keys);
      var best, i := 0, 1;
      while i < |keys|
        invariant 1 <= i <= |keys|
        invariant best == L.FirstLargest(lengths, i)
      {
        if |byKey[keys[i]]| > |byKey[keys[best]]| { best := i; }
        i := i + 1;
      }
      key := keys[best];
    }

    method EvictFromLongest() returns (victim: Option<Item>)
      requires Valid()
      modifies this
      ensures Valid()
      ensures old(keys) == [] ==> victim == None && State() == old(State())
      ensures old(keys) != [] ==> victim == Some(L.Victim(old(State()))) && State() == L.Evict(old(State()))
    {
      assert forall i :: 0 <= i < |keys| ==> keys[i] in byKey;
      hide L.RawLane.Valid;
      hide L.ItemsOf;
      if keys == [] { return None; }
      ghost var s := State();
      var key := LongestKey(byKey, keys);
      L.EvictItems(s);
      victim := Some(byKey[key][0]);
      var bucket := byKey[key][1..];
      size := size - 1;
      if bucket == [] {
        byKey := byKey - {key};
        keys := Remove(keys, key);
        order := Remove(order, key);
      } else {
        byKey := byKey[key := bucket];
      }
      assert L.RawLane(byKey, keys, order) == L.Evict(s);
    }

    // Empties the lane, one bucket after the other in dictionary order, each oldest first.
    method Drain() returns (items: seq<Item>)
      requires Valid()
      modifies this
      ensures Valid() && State() == L.EMPTY
      ensures items == L.Flattened(old(State()))
      ensures multiset(items) == L.Items(old(State()))
    {
      assert forall k :: k in keys ==> k in byKey;
      hide Distinct;
      hide L.Filed;
      items := [];
      var i := 0;
      assert keys[..0] == [];
      while i < |keys|
        invariant 0 <= i <= |keys|
        invariant byKey == old(byKey) && keys == old(keys) && order == old(order)
        invariant forall k :: k in keys[..i] ==> k in byKey
        invariant items == L.FlattenedKeys(byKey, keys[..i])
      {
        assert keys[i] in keys;
        assert keys[..i + 1] == keys[..i] + [keys[i]];
        L.FlattenedNext(byKey, keys[..i], keys[i]);
        items := items + byKey[keys[i]];
        i := i + 1;
      }
      assert keys[..|keys|] == keys;
      L.FlattenedItems(byKey, keys);
      byKey, keys, order, size := map[], [], [], 0;
    }
  }
}

/** The value of the whole queue: priority lanes, overflow policy, row-bounded drain, counters. */
module FairQueues {
  import opened Options
  import opened WorkItems
  import opened KeySeqs
  import opened LaneObjects
  import opened L = Lanes

  datatype Overflow = Reject | Block | DropOldest

  // `capacity >= 1` is what the constructor insists on.
  datatype Config = Config(capacity: nat, overflow: Overflow, dropExpired: bool)

  // Losses are attributed to the camera that caused them.
  datatype Counters = Counters(
    accepted: nat, rejected: nat, evicted: nat, expired: nat,
    rejectedBy: map<Camera, nat>, evictedBy: map<Camera, nat>, expiredBy: map<Camera, nat>)

  datatype QueueState = QueueState(lanes: seq<LaneState>, closed: bool, counters: Counters)

  const NO_COUNTS := Counters(0, 0, 0, 0, map[], map[], map[])

  ghost predicate WellPlaced(lanes: seq<LaneState>) {
    forall p, item :: 0 <= p < |lanes| && item in Items(lanes[p]) ==> item.priority == p
  }

  ghost predicate Valid(q: QueueState) {
    |q.lanes| == LEVELS && WellPlaced(q.lanes)
  }

  // ----- contents -----

  ghost function Union(parts: seq<multiset<Item>>): multiset<Item> {
    if parts == [] then multiset{} else parts[0] + Union(parts[1..])
  }

  lemma {:induction false} UnionUpdate(parts: seq<multiset<Item>>, i: nat, m: multiset<Item>)
    requires i < |parts|
    ensures Union(parts[i := m]) + parts[i] == Union(parts) + m
  {
    if i == 0 {
      assert parts[0 := m][1..] == parts[1..];
    } else {
      var rest := parts[1..];
      UnionUpdate(rest, i - 1, m);
      assert parts[i := m][1..] == rest[i - 1 := m];
      calc {
        Union(parts[i := m]) + parts[i];
        parts[0] + (Union(rest[i - 1 := m]) + rest[i - 1]);
        parts[0] + (Union(rest) + m);
      }
    }
  }

  ghost function PerLane(lanes: seq<LaneState>): (parts: seq<multiset<Item>>)
    ensures |parts| == |lanes|
    ensures forall i :: 0 <= i < |lanes| ==> parts[i] == Items(lanes[i])
  {
    seq(|lanes|, i requires 0 <= i < |lanes| => Items(lanes[i]))
  }

  ghost function AllItems(lanes: seq<LaneState>): multiset<Item> {
    Union(PerLane(lanes))
  }

  ghost function Depth(lanes: seq<LaneState>): nat {
    |AllItems(lanes)|
  }

  lemma AllItemsUpdate(lanes: seq<LaneState>, i: nat, s: LaneState)
    requires i < |lanes|
    ensures AllItems(lanes[i := s]) + Items(lanes[i]) == AllItems(lanes) + Items(s)
  {
    UnionUpdate(PerLane(lanes), i, Items(s));
    assert PerLane(lanes[i := s]) == PerLane(lanes)[i := Items(s)];
  }

  lemma {:induction false} UnionMember(parts: seq<multiset<Item>>, item: Item)
    ensures item in Union(parts) <==> exists p :: 0 <= p < |parts| && item in parts[p]
  {
    if parts != [] {
      UnionMember(parts[1..], item);
      if p :| 0 <= p < |parts| && item in parts[p] {
        if p > 0 { assert item in parts[1..][p - 1]; }
      }
      if item in Union(parts[1..]) {
        var p :| 0 <= p < |parts[1..]| && item in parts[1..][p];
        assert item in parts[p + 1];
      }
    }
  }

  lemma AllItemsMember(lanes: seq<LaneState>, item: Item)
    ensures item in AllItems(lanes) <==> exists p :: 0 <= p < |lanes| && item in Items(lanes[p])
  {
    var parts := PerLane(lanes);
    UnionMember(parts, item);
    if p :| 0 <= p < |lanes| && item in Items(lanes[p]) { assert item in parts[p]; }
  }

  // Popping lane `i` takes its head out of the queue, and nothing else.
  lemma PopConserves(lanes: seq<LaneState>, i: nat)
    requires i < |lanes| && lanes[i].order != []
    ensures AllItems(lanes) == AllItems(lanes[i := Pop(lanes[i])]) + multiset{Peek(lanes[i])}
    ensures |Items(Pop(lanes[i]))| < |Items(lanes[i])|
  {
    var s, r := lanes[i], Pop(lanes[i]);
    PopItems(s);
    AllItemsUpdate(lanes, i, r);
    Cancel(AllItems(lanes[i := r]), AllItems(lanes), Items(r), multiset{Peek(s)});
  }

  lemma Cancel(after: multiset<Item>, before: multiset<Item>, rest: multiset<Item>, one: multiset<Item>)
    requires after + (rest + one) == before + rest
    ensures before == after + one
  {
    assert before == (before + rest) - rest;
    assert after + one == (after + (rest + one)) - rest;
  }

  // ----- counting by camera -----

  function CountOf(m: map<Camera, nat>, k: Camera): nat {
    if k in m then m[k] else 0
  }

  function Bump(m: map<Camera, nat>, k: Camera): map<Camera, nat> {
    m[k := CountOf(m, k) + 1]
  }

  function BumpAll(m: map<Camera, nat>, items: seq<Item>): map<Camera, nat> {
    if items == [] then m
    else Bump(BumpAll(m, items[..|items| - 1]), FairnessKey(items[|items| - 1]))
  }

  // How many of `items` belong to `k`.
  function Of(items: seq<Item>, k: Camera): nat {
    if items == [] then 0
    else Of(items[..|items| - 1], k) + (if FairnessKey(items[|items| - 1]) == k then 1 else 0)
  }

  lemma {:induction false} BumpAllCounts(m: map<Camera, nat>, items: seq<Item>, k: Camera)
    ensures CountOf(BumpAll(m, items), k) == CountOf(m, k) + Of(items, k)
  {
    if items != [] { BumpAllCounts(m, items[..|items| - 1], k); }
  }

  lemma BumpAllExtend(m: map<Camera, nat>, items: seq<Item>, item: Item)
    ensures BumpAll(m, items + [item]) == Bump(BumpAll(m, items), FairnessKey(item))
  {
    assert (items + [item])[..|items|] == items;
  }

  // ----- put -----

  datatype PutOutcome = Enqueued(victim: Option<Item>) | QueueFull(depth: nat, capacity: nat) | Cancelled

  // The lowest-priority lane that holds anything, scanning the first `n` lanes from the end.
  function LowestNonEmpty(lanes: seq<LaneState>, n: nat): (r: Option<nat>)
    requires n <= |lanes|
    ensures r.Some? ==> r.value < n && lanes[r.value].keys != []
    ensures forall p :: (if r.Some? then r.value + 1 else 0) <= p < n ==> lanes[p].keys == []
  {
    if n == 0 then None
    else if lanes[n - 1].keys != [] then Some(n - 1)
    else LowestNonEmpty(lanes, n - 1)
  }

  function Enqueue(q: QueueState, item: Item): QueueState
    requires |q.lanes| == LEVELS
  {
    q.(lanes := q.lanes[item.priority := Push(q.lanes[item.priority], item)],
       counters := q.counters.(accepted := q.counters.accepted + 1))
  }

  function EvictLane(q: QueueState, p: nat): (r: QueueState)
    requires p < |q.lanes| && q.lanes[p].keys != []
    ensures |r.lanes| == |q.lanes|
  {
    q.(lanes := q.lanes[p := Evict(q.lanes[p])],
       counters := q.counters.(evicted := q.counters.evicted + 1,
                               evictedBy := Bump(q.counters.evictedBy, FairnessKey(Victim(q.lanes[p])))))
  }

  function Refuse(q: QueueState, item: Item): QueueState {
    q.(counters := q.counters.(rejected := q.counters.rejected + 1,
                               rejectedBy := Bump(q.counters.rejectedBy, FairnessKey(item))))
  }

  // A blocked producer is modelled at the moment its wait ends: with room, closed, or timed out.
  ghost function PutState(cfg: Config, q: QueueState, item: Item): QueueState
    requires |q.lanes| == LEVELS
  {
    if q.closed then q
    else if Depth(q.lanes) < cfg.capacity then Enqueue(q, item)
    else
      match (cfg.overflow, LowestNonEmpty(q.lanes, LEVELS))
      case (DropOldest, Some(p)) => Enqueue(EvictLane(q, p), item)
      case _ => Refuse(q, item)
  }

  ghost function PutResult(cfg: Config, q: QueueState): PutOutcome
    requires |q.lanes| == LEVELS
  {
    if q.closed then Cancelled
    else if Depth(q.lanes) < cfg.capacity then Enqueued(None)
    else
      match (cfg.overflow, LowestNonEmpty(q.lanes, LEVELS))
      case (DropOldest, Some(p)) => Enqueued(Some(Victim(q.lanes[p])))
      case _ => QueueFull(Depth(q.lanes), cfg.capacity)
  }

  // ----- drain -----

  // The first lane that holds anything.
  function First(lanes: seq<LaneState>, i: nat): (r: Option<nat>)
    requires i <= |lanes|
    ensures r.Some? ==> i <= r.value < |lanes| && lanes[r.value].order != []
    ensures forall p :: i <= p < (if r.Some? then r.value else |lanes|) ==> lanes[p].order == []
    decreases |lanes| - i
  {
    if i == |lanes| then None else if lanes[i].order != [] then Some(i) else First(lanes, i + 1)
  }

  function Head(lanes: seq<LaneState>): Item
    requires First(lanes, 0).Some?
  {
    Peek(lanes[First(lanes, 0).value])
  }

  function PopFirst(lanes: seq<LaneState>): (r: seq<LaneState>)
    requires First(lanes, 0).Some?
    ensures |r| == |lanes|
  {
    var p := First(lanes, 0).value;
    lanes[p := Pop(lanes[p])]
  }

  lemma PopFirstItems(lanes: seq<LaneState>)
    requires First(lanes, 0).Some?
    ensures AllItems(lanes) == AllItems(PopFirst(lanes)) + multiset{Head(lanes)}
  {
    PopConserves(lanes, First(lanes, 0).value);
  }

  // Everything queued, in the order the queue would serve it if nothing else arrived.
  ghost function Schedule(lanes: seq<LaneState>): (items: seq<Item>)
    decreases Depth(lanes)
  {
    if First(lanes, 0).None? then []
    else
      PopFirstItems(lanes);
      [Head(lanes)] + Schedule(PopFirst(lanes))
  }

  function PopMany(lanes: seq<LaneState>, n: nat): (r: seq<LaneState>)
    ensures |r| == |lanes|
    decreases n
  {
    if n == 0 || First(lanes, 0).None? then lanes else PopMany(PopFirst(lanes), n - 1)
  }

  // An item the drain discards instead of serving.
  predicate Stale(cfg: Config, item: Item, now: int) {
    cfg.dropExpired && Expired(item, now)
  }

  function Keep(cfg: Config, items: seq<Item>, now: int, stale: bool): seq<Item> {
    if items == [] then []
    else (if Stale(cfg, items[0], now) == stale then [items[0]] else []) + Keep(cfg, items[1..], now, stale)
  }

  function TotalRows(batch: seq<Item>): nat {
    if batch == [] then 0 else RowsOf(batch[0]) + TotalRows(batch[1..])
  }

  // How many items of the schedule one drain consumes, with `rows` rows batched already.
  function Cut(cfg: Config, items: seq<Item>, maxRows: nat, now: int, rows: nat): (n: nat)
    ensures n <= |items|
  {
    if items == [] || (rows > 0 && rows + RowsOf(items[0]) > maxRows) then 0
    else if Stale(cfg, items[0], now) then 1 + Cut(cfg, items[1..], maxRows, now, rows)
    else if rows + RowsOf(items[0]) >= maxRows then 1
    else 1 + Cut(cfg, items[1..], maxRows, now, rows + RowsOf(items[0]))
  }

  datatype Drained = Drained(lanes: seq<LaneState>, batch: seq<Item>, expired: seq<Item>)

  ghost function Drain(cfg: Config, lanes: seq<LaneState>, maxRows: nat, now: int): Drained {
    var items := Schedule(lanes);
    var n := Cut(cfg, items, maxRows, now, 0);
    Drained(PopMany(lanes, n), Keep(cfg, items[..n], now, false), Keep(cfg, items[..n], now, true))
  }

  ghost function DrainState(cfg: Config, q: QueueState, maxRows: nat, now: int): QueueState {
    var d := Drain(cfg, q.lanes, maxRows, now);
    q.(lanes := d.lanes,
       counters := q.counters.(expired := q.counters.expired + |d.expired|,
                               expiredBy := BumpAll(q.counters.expiredBy, d.expired)))
  }

  // ----- what a drain promises -----

  lemma {:induction false} ScheduleItems(lanes: seq<LaneState>)
    ensures multiset(Schedule(lanes)) == AllItems(lanes)
    decreases Depth(lanes)
  {
    if First(lanes, 0).None? {
      forall item ensures item !in AllItems(lanes) {
        AllItemsMember(lanes, item);
        forall p | 0 <= p < |lanes| ensures item !in Items(lanes[p]) { EmptyLane(lanes[p]); }
      }
    } else {
      PopFirstItems(lanes);
      ScheduleItems(PopFirst(lanes));
    }
  }

  lemma {:induction false} PopManySchedule(lanes: seq<LaneState>, n: nat)
    requires n <= |Schedule(lanes)|
    ensures Schedule(PopMany(lanes, n)) == Schedule(lanes)[n..]
    decreases n
  {
    hide RawLane.Valid;
    hide Pop;
    if n > 0 {
      var rest := PopFirst(lanes);
      PopManySchedule(rest, n - 1);
      assert Schedule(lanes)[1..] == Schedule(rest);
    }
  }

  lemma {:induction false} KeepPartitions(cfg: Config, items: seq<Item>, now: int)
    ensures multiset(Keep(cfg, items, now, false)) + multiset(Keep(cfg, items, now, true)) == multiset(items)
    ensures forall x :: x in Keep(cfg, items, now, false) ==> !Stale(cfg, x, now)
    ensures forall x :: x in Keep(cfg, items, now, true) ==> Stale(cfg, x, now)
  {
    if items != [] {
      KeepPartitions(cfg, items[1..], now);
      assert items == [items[0]] + items[1..];
    }
  }

  lemma CutConserves(cfg: Config, items: seq<Item>, n: nat, now: int)
    requires n <= |items|
    ensures multiset(items) == multiset(items[n..])
      + multiset(Keep(cfg, items[..n], now, false)) + multiset(Keep(cfg, items[..n], now, true))
  {
    KeepPartitions(cfg, items[..n], now);
    assert items == items[..n] + items[n..];
  }

  /** Nothing is lost or duplicated by a drain, and only expired items are discarded. */
  lemma DrainConserves(cfg: Config, lanes: seq<LaneState>, maxRows: nat, now: int)
    ensures
      var d := Drain(cfg, lanes, maxRows, now);
      && AllItems(lanes) == AllItems(d.lanes) + multiset(d.batch) + multiset(d.expired)
      && (forall x :: x in d.batch ==> !(cfg.dropExpired && 0 < x.deadline < now))
      && (forall x :: x in d.expired ==> cfg.dropExpired && 0 < x.deadline < now)
  {
    hide RawLane.Valid;
    hide Pop;
    hide AllItems;
    var items := Schedule(lanes);
    var n := Cut(cfg, items, maxRows, now, 0);
    ScheduleItems(lanes);
    PopManySchedule(lanes, n);
    ScheduleItems(PopMany(lanes, n));
    CutConserves(cfg, items, n, now);
    KeepPartitions(cfg, items[..n], now);
  }

  lemma {:induction false} CutFits(cfg: Config, items: seq<Item>, maxRows: nat, now: int, rows: nat)
    ensures
      var batch := Keep(cfg, items[..Cut(cfg, items, maxRows, now, rows)], now, false);
      batch == [] || rows + TotalRows(batch) <= maxRows || (rows == 0 && |batch| == 1)
    decreases items
  {
    hide Stale;
    hide RowsOf;
    if items != [] && !(rows > 0 && rows + RowsOf(items[0]) > maxRows) {
      var n := Cut(cfg, items, maxRows, now, rows);
      assert items[..n][1..] == items[1..][..n - 1];
      if Stale(cfg, items[0], now) {
        CutFits(cfg, items[1..], maxRows, now, rows);
        assert Keep(cfg, items[..n], now, false) == Keep(cfg, items[1..][..n - 1], now, false);
      } else if rows + RowsOf(items[0]) < maxRows {
        CutFits(cfg, items[1..], maxRows, now, rows + RowsOf(items[0]));
        var rest := Keep(cfg, items[1..][..n - 1], now, false);
        assert ([items[0]] + rest)[1..] == rest;
      } else {
        assert items[..n] == [items[0]];
        assert Keep(cfg, [items[0]], now, false) == [items[0]];
      }
    }
  }

  lemma {:induction false} PopManyNext(lanes: seq<LaneState>, n: nat)
    requires First(PopMany(lanes, n), 0).Some?
    ensures PopMany(lanes, n + 1) == PopFirst(PopMany(lanes, n))
    decreases n
  {
    hide RawLane.Valid;
    hide PopFirst;
    if n > 0 && First(lanes, 0).Some? { PopManyNext(PopFirst(lanes), n - 1); }
  }

  lemma {:induction false} KeepNext(cfg: Config, items: seq<Item>, item: Item, now: int, stale: bool)
    ensures Keep(cfg, items + [item], now, stale)
      == Keep(cfg, items, now, stale) + (if Stale(cfg, item, now) == stale then [item] else [])
  {
    if items == [] {
      assert ([] + [item])[1..] == [];
    } else {
      assert (items + [item])[1..] == items[1..] + [item];
      KeepNext(cfg, items[1..], item, now, stale);
    }
  }

  lemma {:induction false} TotalRowsNext(batch: seq<Item>, item: Item)
    ensures TotalRows(batch + [item]) == TotalRows(batch) + RowsOf(item)
  {
    if batch == [] {
      assert ([] + [item])[1..] == [];
    } else {
      assert (batch + [item])[1..] == batch[1..] + [item];
      TotalRowsNext(batch[1..], item);
    }
  }

  // Consuming one more item of the schedule.
  lemma CutNext(cfg: Config, items: seq<Item>, n: nat, maxRows: nat, now: int, rows: nat)
    requires n < |items| && !(rows > 0 && rows + RowsOf(items[n]) > maxRows)
    ensures
      var item := items[n];
      && Keep(cfg, items[..n + 1], now, false)
           == Keep(cfg, items[..n], now, false) + (if Stale(cfg, item, now) then [] else [item])
      && Keep(cfg, items[..n + 1], now, true)
           == Keep(cfg, items[..n], now, true) + (if Stale(cfg, item, now) then [item] else [])
      && Cut(cfg, items[n..], maxRows, now, rows)
           == 1 + (if Stale(cfg, item, now) then Cut(cfg, items[n + 1..], maxRows, now, rows)
                   else if rows + RowsOf(item) >= maxRows then 0
                   else Cut(cfg, items[n + 1..], maxRows, now, rows + RowsOf(item)))
  {
    assert items[..n + 1] == items[..n] + [items[n]];
    KeepNext(cfg, items[..n], items[n], now, false);
    KeepNext(cfg, items[..n], items[n], now, true);
    assert items[n..][1..] == items[n + 1..] && items[n..][0] == items[n];
  }

  // The inputs the requests carry.
  ghost function Inputs(batch: seq<Item>): nat {
    if batch == [] then 0 else Inputs(batch[..|batch| - 1]) + batch[|batch| - 1].batchSize
  }

  // How many of the requests carry none.
  ghost function Inputless(batch: seq<Item>): nat {
    if batch == [] then 0 else Inputless(batch[..|batch| - 1]) + (if batch[|batch| - 1].batchSize == 0 then 1 else 0)
  }

  /** The unit of the budget: a row for each input, and exactly one for a request without any. */
  lemma {:induction false} RowsAreInputs(batch: seq<Item>)
    ensures TotalRows(batch) == Inputs(batch) + Inputless(batch)
  {
    if batch != [] {
      var n := |batch| - 1;
      RowsAreInputs(batch[..n]);
      TotalRowsNext(batch[..n], batch[n]);
      assert batch == batch[..n] + [batch[n]];
    }
  }

  ghost predicate Fits(batch: seq<Item>, maxRows: nat) {
    Inputs(batch) + Inputless(batch) <= maxRows || (|batch| == 1 && batch[0].batchSize > maxRows)
  }

  /** The row budget: a batch holds more inputs than it allows, a request without any counted as one,
      only as a single item too large on its own. */
  lemma DrainFitsBudget(cfg: Config, lanes: seq<LaneState>, maxRows: nat, now: int)
    requires maxRows >= 1
    ensures Fits(Drain(cfg, lanes, maxRows, now).batch, maxRows)
  {
    var batch := Drain(cfg, lanes, maxRows, now).batch;
    CutFits(cfg, Schedule(lanes), maxRows, now, 0);
    RowsAreInputs(batch);
    if |batch| == 1 { assert batch[..0] == []; }
  }

  lemma {:induction false} CutIsMaximal(cfg: Config, items: seq<Item>, maxRows: nat, now: int, rows: nat)
    ensures
      var n := Cut(cfg, items, maxRows, now, rows);
      var batch := Keep(cfg, items[..n], now, false);
      n == |items| || rows + TotalRows(batch) >= maxRows || rows + TotalRows(batch) + RowsOf(items[n]) > maxRows
    decreases items
  {
    hide Stale;
    hide RowsOf;
    if items != [] && !(rows > 0 && rows + RowsOf(items[0]) > maxRows) {
      var n := Cut(cfg, items, maxRows, now, rows);
      assert items[..n][1..] == items[1..][..n - 1];
      if Stale(cfg, items[0], now) {
        CutIsMaximal(cfg, items[1..], maxRows, now, rows);
        assert Keep(cfg, items[..n], now, false) == Keep(cfg, items[1..][..n - 1], now, false);
      } else {
        var rest := Keep(cfg, items[1..][..n - 1], now, false);
        assert ([items[0]] + rest)[1..] == rest;
        if rows + RowsOf(items[0]) < maxRows {
          CutIsMaximal(cfg, items[1..], maxRows, now, rows + RowsOf(items[0]));
        } else {
          assert rest == [];
        }
      }
    }
  }

  /** A drain stops only at the end of the queue, with its row budget spent, or before an item whose
      own inputs do not fit. */
  lemma DrainIsMaximal(cfg: Config, lanes: seq<LaneState>, maxRows: nat, now: int)
    ensures
      var d := Drain(cfg, lanes, maxRows, now);
      var rows := Inputs(d.batch) + Inputless(d.batch);
      || AllItems(d.lanes) == multiset{}
      || rows >= maxRows
      || (First(d.lanes, 0).Some? && rows + Head(d.lanes).batchSize > maxRows)
  {
    var items := Schedule(lanes);
    var n := Cut(cfg, items, maxRows, now, 0);
    var d := Drain(cfg, lanes, maxRows, now);
    CutIsMaximal(cfg, items, maxRows, now, 0);
    PopManySchedule(lanes, n);
    hide *;
    RowsAreInputs(d.batch);
    ScheduleItems(d.lanes);
    if n < |items| {
      assert Schedule(d.lanes)[0] == items[n];
      NextInSchedule(d.lanes);
    }
  }

  lemma NextInSchedule(lanes: seq<LaneState>)
    requires Schedule(lanes) != []
    ensures First(lanes, 0).Some? && Schedule(lanes)[0] == Head(lanes)
    ensures RowsOf(Head(lanes)) == 1 || RowsOf(Head(lanes)) == Head(lanes).batchSize
  {
    hide RawLane.Valid;
    hide PopFirst;
    hide First;
    hide Peek;
  }

  lemma {:induction false} CutEmptyIffAllStale(cfg: Config, items: seq<Item>, maxRows: nat, now: int)
    ensures Keep(cfg, items[..Cut(cfg, items, maxRows, now, 0)], now, false) == []
      <==> forall item :: item in items ==> Stale(cfg, item, now)
  {
    if items != [] {
      var n := Cut(cfg, items, maxRows, now, 0);
      assert items[..n][1..] == items[1..][..n - 1];
      if Stale(cfg, items[0], now) {
        CutEmptyIffAllStale(cfg, items[1..], maxRows, now);
        assert forall x :: x in items <==> x == items[0] || x in items[1..];
      } else {
        assert items[..n][0] == items[0] && items[0] in items;
      }
    }
  }

  /** The consumer gets an empty batch exactly when everything queued has expired: an empty batch
      does not mean that the queue was closed. */
  lemma EmptyBatchIffAllStale(cfg: Config, lanes: seq<LaneState>, maxRows: nat, now: int)
    ensures Drain(cfg, lanes, maxRows, now).batch == []
      <==> forall item :: item in AllItems(lanes) ==> Stale(cfg, item, now)
  {
    hide RawLane.Valid;
    hide Pop;
    hide AllItems;
    CutEmptyIffAllStale(cfg, Schedule(lanes), maxRows, now);
    ScheduleItems(lanes);
    assert forall item :: item in Schedule(lanes) <==> item in multiset(Schedule(lanes));
  }
}
