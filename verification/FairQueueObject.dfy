/** The queue as the object its producers and its consumer share, proved against the queue's value. */
module FairQueueObjects {
  import opened Options
  import opened WorkItems
  import opened LaneObjects
  import L = Lanes
  import opened FairQueues
  import opened FairQueueRuns

  // ----- a drain in progress, on its schedule and on the lanes -----

  function Expire(c: Counters, gone: seq<Item>): Counters {
    c.(expired := c.expired + |gone|, expiredBy := BumpAll(c.expiredBy, gone))
  }

  lemma ExpireOneMore(c: Counters, gone: seq<Item>, item: Item)
    ensures Expire(c, gone + [item])
      == Expire(c, gone).(expired := Expire(c, gone).expired + 1,
                          expiredBy := Bump(Expire(c, gone).expiredBy, FairnessKey(item)))
    ensures Expire(c, []) == c
  {
    BumpAllExtend(c.expiredBy, gone, item);
  }

  // What a drain asks of its schedule.
  datatype Ask = Ask(cfg: Config, items: seq<Item>, maxRows: nat, now: int) {
    function Whole(): nat { Cut(cfg, items, maxRows, now, 0) }

    // The first `n` items are consumed into `batch` and `gone`, and the drain is not over.
    ghost predicate Scanned(n: nat, batch: seq<Item>, gone: seq<Item>, rows: nat) {
      && n <= |items|
      && batch == Keep(cfg, items[..n], now, false) && gone == Keep(cfg, items[..n], now, true)
      && rows == TotalRows(batch) && (rows == 0 <==> batch == [])
      && Whole() == n + Cut(cfg, items[n..], maxRows, now, rows)
    }

    // The drain consumes exactly the first `n` items, into `batch` and `gone`.
    ghost predicate Over(n: nat, batch: seq<Item>, gone: seq<Item>) {
      && n <= |items| && n == Whole()
      && batch == Keep(cfg, items[..n], now, false) && gone == Keep(cfg, items[..n], now, true)
    }
  }

  lemma ScanStarts(ask: Ask)
    ensures ask.Scanned(0, [], [], 0)
  {
    assert ask.items[..0] == [] && ask.items[0..] == ask.items;
  }

  lemma ScanStops(ask: Ask, n: nat, batch: seq<Item>, gone: seq<Item>, rows: nat)
    requires ask.Scanned(n, batch, gone, rows)
    ensures n == |ask.items| ==> ask.Over(n, batch, gone)
    ensures n < |ask.items| && batch != [] && rows + RowsOf(ask.items[n]) > ask.maxRows ==> ask.Over(n, batch, gone)
  {
  }

  lemma ScanDiscards(ask: Ask, n: nat, batch: seq<Item>, gone: seq<Item>, rows: nat)
    requires ask.Scanned(n, batch, gone, rows) && n < |ask.items|
    requires Stale(ask.cfg, ask.items[n], ask.now)
    requires batch == [] || rows + RowsOf(ask.items[n]) <= ask.maxRows
    ensures ask.Scanned(n + 1, batch, gone + [ask.items[n]], rows)
  {
    CutNext(ask.cfg, ask.items, n, ask.maxRows, ask.now, rows);
    assert batch + [] == batch;
  }

  lemma ScanServes(ask: Ask, n: nat, batch: seq<Item>, gone: seq<Item>, rows: nat)
    requires ask.Scanned(n, batch, gone, rows) && n < |ask.items|
    requires !Stale(ask.cfg, ask.items[n], ask.now)
    requires batch == [] || rows + RowsOf(ask.items[n]) <= ask.maxRows
    ensures
      var item := ask.items[n];
      if rows + RowsOf(item) >= ask.maxRows then ask.Over(n + 1, batch + [item], gone)
      else ask.Scanned(n + 1, batch + [item], gone, rows + RowsOf(item))
  {
    CutNext(ask.cfg, ask.items, n, ask.maxRows, ask.now, rows);
    TotalRowsNext(batch, ask.items[n]);
    assert gone + [] == gone;
  }

  lemma ScanFacts(ask: Ask, n: nat, batch: seq<Item>, gone: seq<Item>, rows: nat)
    requires ask.Scanned(n, batch, gone, rows)
    ensures n <= |ask.items|
  {
  }

  lemma PopNone(lanes: seq<L.LaneState>)
    ensures PopMany(lanes, 0) == lanes
  {
  }

  lemma {:induction false} FirstIs(lanes: seq<L.LaneState>, i: nat)
    requires i < |lanes| && lanes[i].order != [] && forall p :: 0 <= p < i ==> lanes[p].order == []
    ensures First(lanes, 0) == Some(i)
  {
    hide First;
    hide L.RawLane.Valid;
    var first := First(lanes, 0);
    assert first.Some?;
  }

  // Popping the first lane that holds anything, as the loop does it.
  lemma PopAt(lanes: seq<L.LaneState>, i: nat)
    requires WellPlaced(lanes) && First(lanes, 0) == Some(i)
    ensures lanes[i := L.Pop(lanes[i])] == PopFirst(lanes)
    ensures WellPlaced(PopFirst(lanes)) && Depth(PopFirst(lanes)) == Depth(lanes) - 1
  {
    hide L.RawLane.Valid;
    hide L.Pop;
    hide AllItems;
    PopFirstPlaced(lanes);
    PopFirstItems(lanes);
  }

  lemma LanesNext(before: seq<L.LaneState>, n: nat, i: nat)
    requires n <= |Schedule(before)| && First(PopMany(before, n), 0) == Some(i)
    ensures
      var lanes := PopMany(before, n);
      && n < |Schedule(before)| && Schedule(before)[n] == Head(lanes) == L.Peek(lanes[i])
      && PopMany(before, n + 1) == PopFirst(lanes)
      && (forall p :: 0 <= p < i ==> PopFirst(lanes)[p] == lanes[p])
  {
    hide L.RawLane.Valid;
    hide L.Pop;
    PopManySchedule(before, n);
    PopManyNext(before, n);
    var lanes := PopMany(before, n);
    assert Schedule(before)[n..] == [Head(lanes)] + Schedule(PopFirst(lanes));
  }

  lemma LanesEnd(before: seq<L.LaneState>, n: nat)
    requires n <= |Schedule(before)| && First(PopMany(before, n), 0) == None
    ensures n == |Schedule(before)|
  {
    hide L.RawLane.Valid;
    PopManySchedule(before, n);
  }

  lemma Concludes(ask: Ask, q: QueueState, n: nat, batch: seq<Item>, gone: seq<Item>)
    requires ask.items == Schedule(q.lanes) && ask.Over(n, batch, gone)
    ensures QueueState(PopMany(q.lanes, n), q.closed, Expire(q.counters, gone))
      == DrainState(ask.cfg, q, ask.maxRows, ask.now)
    ensures batch == Drain(ask.cfg, q.lanes, ask.maxRows, ask.now).batch
  {
    hide L.RawLane.Valid;
    hide PopMany;
    hide Schedule;
  }

  class FairPriorityQueue {
    const cfg: Config
    var lanes: seq<L.LaneState>
    var size: nat
    var closed: bool
    var counters: Counters

    ghost function State(): QueueState
      reads this
    {
      QueueState(lanes, closed, counters)
    }

    ghost predicate Valid()
      reads this
    {
      && cfg.capacity >= 1 && |lanes| == LEVELS && WellPlaced(lanes)
      && size == Depth(lanes) <= cfg.capacity
    }

    constructor (cfg: Config)
      requires cfg.capacity >= 1
      ensures Valid() && this.cfg == cfg
      ensures State() == QueueState(NO_LANES, false, NO_COUNTS)
    {
      this.cfg := cfg;
      lanes, size, closed, counters := NO_LANES, 0, false, NO_COUNTS;
      NoItems();
      NonePlaced();
    }

    // Frees a slot if the policy is DROP_OLDEST: the victim is taken from the lowest-priority
    // lane that holds anything.
    method MakeRoom() returns (victim: Option<Item>)
      requires |lanes| == LEVELS && size > 0
      modifies `size, `counters, `lanes
      ensures |lanes| == LEVELS
      ensures
        var low := LowestNonEmpty(old(lanes), LEVELS);
        if cfg.overflow == DropOldest && low.Some?
        then victim == Some(L.Victim(old(lanes)[low.value])) && State() == EvictLane(old(State()), low.value)
             && size == old(size) - 1
        else victim == None && State() == old(State()) && size == old(size)
    {
      hide L.RawLane.Valid;
      hide L.Evict;
      hide L.Victim;
      if cfg.overflow != DropOldest { return None; }
      var i := LEVELS;
      while i > 0
        invariant 0 <= i <= LEVELS && lanes == old(lanes) && counters == old(counters) && size == old(size)
        invariant LowestNonEmpty(lanes, LEVELS) == LowestNonEmpty(lanes, i)
      {
        i := i - 1;
        if lanes[i].keys != [] {
          victim := Some(L.Victim(lanes[i]));
          size := size - 1;
          counters := counters.(evicted := counters.evicted + 1,
                                evictedBy := Bump(counters.evictedBy, FairnessKey(victim.value)));
          lanes := lanes[i := L.Evict(lanes[i])];
          return;
        }
      }
      victim := None;
    }

    /** Enqueue one item, applying the overflow policy. */
    method Put(item: Item) returns (outcome: PutOutcome)
      requires Valid()
      modifies `size, `counters, `lanes
      ensures Valid()
      ensures outcome == PutResult(cfg, old(State()))
      ensures State() == PutState(cfg, old(State()), item)
    {
      hide L.RawLane.Valid;
      hide AllItems;
      hide WellPlaced;
      hide Depth;
      hide L.Push;
      hide L.Victim;
      ghost var before := State();
      StepPlaced(cfg, before, PutOp(item));
      AdmitBalanced(before, item);
      if closed { return Cancelled; }
      var victim := None;
      if size >= cfg.capacity {
        ghost var low := LowestNonEmpty(lanes, LEVELS);
        if low.Some? { ReplaceBalanced(before, low.value, item); }
        victim := MakeRoom();
        if victim == None {
          counters := counters.(rejected := counters.rejected + 1,
                                rejectedBy := Bump(counters.rejectedBy, FairnessKey(item)));
          return QueueFull(size, cfg.capacity);
        }
      }
      lanes := lanes[item.priority := L.Push(lanes[item.priority], item)];
      size := size + 1;
      counters := counters.(accepted := counters.accepted + 1);
      outcome := Enqueued(victim);
    }

    /** Hand out up to `maxRows` rows, most urgent band first, round-robin within it. */
    method DrainLocked(maxRows: nat, now: int) returns (batch: seq<Item>)
      requires Valid()
      modifies `size, `counters, `lanes
      ensures Valid()
      ensures State() == DrainState(cfg, old(State()), maxRows, now)
      ensures batch == Drain(cfg, old(State()).lanes, maxRows, now).batch
      ensures maxRows >= 1 ==> Fits(batch, maxRows)
    {
      hide L.RawLane.Valid;
      hide AllItems;
      hide WellPlaced;
      hide PopMany;
      hide L.Peek;
      hide L.Pop;
      hide Schedule;
      hide Drain;
      hide DrainState;
      hide Ask.Scanned;
      hide Ask.Over;
      hide Expire;
      hide BumpAll;
      hide Bump;
      hide FairnessKey;
      hide RowsOf;
      hide Expired;
      hide Head;
      hide Depth;
      hide PopFirst;
      ghost var q := State();
      if maxRows >= 1 { DrainFitsBudget(cfg, q.lanes, maxRows, now); }
      hide Fits;
      ghost var ask := Ask(cfg, Schedule(q.lanes), maxRows, now);
      ghost var n, gone := 0, [];
      var rows: nat, i := 0, 0;
      batch := [];
      ScanStarts(ask);
      ScanFacts(ask, n, batch, gone, rows);
      ExpireOneMore(counters, [], Item(0, 0, 0, 0, 0));
      PopNone(q.lanes);
      while i < LEVELS
        invariant 0 <= i <= LEVELS && Valid()
        invariant n <= |ask.items| && lanes == PopMany(q.lanes, n) && counters == Expire(q.counters, gone)
        invariant ask.Scanned(n, batch, gone, rows)
        invariant forall p :: 0 <= p < i ==> lanes[p].order == []
      {
        while lanes[i].order != []
          invariant Valid()
          invariant n <= |ask.items| && lanes == PopMany(q.lanes, n) && counters == Expire(q.counters, gone)
          invariant ask.Scanned(n, batch, gone, rows)
          invariant forall p :: 0 <= p < i ==> lanes[p].order == []
          decreases |ask.items| - n
        {
          var head := L.Peek(lanes[i]);
          FirstIs(lanes, i);
          LanesNext(q.lanes, n, i);
          ScanStops(ask, n, batch, gone, rows);
          if batch != [] && rows + RowsOf(head) > maxRows {
            Concludes(ask, q, n, batch, gone);
            return;
          }
          PopAt(lanes, i);
          lanes := lanes[i := L.Pop(lanes[i])];
          size := size - 1;
          if cfg.dropExpired && Expired(head, now) {
            ScanDiscards(ask, n, batch, gone, rows);
            ExpireOneMore(q.counters, gone, head);
            counters := counters.(expired := counters.expired + 1,
                                  expiredBy := Bump(counters.expiredBy, FairnessKey(head)));
            gone := gone + [head];
          } else {
            ScanServes(ask, n, batch, gone, rows);
            batch := batch + [head];
            rows := rows + RowsOf(head);
            if rows >= maxRows {
              Concludes(ask, q, n + 1, batch, gone);
              return;
            }
          }
          n := n + 1;
          ScanFacts(ask, n, batch, gone, rows);
        }
        i := i + 1;
      }
      LanesEnd(q.lanes, n);
      ScanStops(ask, n, batch, gone, rows);
      Concludes(ask, q, n, batch, gone);
    }

    /** Close and hand back everything still queued; nobody is charged for it. */
    method Close() returns (drained: seq<Item>)
      requires Valid()
      modifies `size, `closed, `lanes
      ensures Valid()
      ensures State() == StepQueue(cfg, old(State()), CloseOp)
      ensures drained == FlattenedLanes(old(lanes), LEVELS)
      ensures multiset(drained) == AllItems(old(lanes))
    {
      hide L.RawLane.Valid;
      hide AllItems;
      hide WellPlaced;
      hide L.Flattened;
      closed := true;
      drained := [];
      NothingFlattened(lanes);
      hide FlattenedLanes;
      hide Depth;
      var i := 0;
      while i < LEVELS
        invariant 0 <= i <= LEVELS && |lanes| == LEVELS
        invariant forall p :: 0 <= p < i ==> lanes[p] == L.EMPTY
        invariant forall p :: i <= p < LEVELS ==> lanes[p] == old(lanes)[p]
        invariant drained == FlattenedLanes(old(lanes), i)
        invariant closed && counters == old(counters)
        invariant multiset(drained) + AllItems(lanes) == AllItems(old(lanes))
      {
        var items := L.Flattened(lanes[i]);
        FlattenedNext(old(lanes), i);
        L.FlattenedLane(lanes[i]);
        EmptyItems();
        AllItemsUpdate(lanes, i, L.EMPTY);
        Moved(multiset(drained), multiset(items), AllItems(lanes[i := L.EMPTY]), AllItems(lanes), AllItems(old(lanes)));
        drained := drained + items;
        lanes := lanes[i := L.EMPTY];
        i := i + 1;
      }
      size := 0;
      assert lanes == NO_LANES;
      NoItems();
      NonePlaced();
    }
  }

  // Everything in the first `n` lanes, most urgent lane first, camera by camera.
  function FlattenedLanes(lanes: seq<L.LaneState>, n: nat): seq<Item>
    requires n <= |lanes|
  {
    if n == 0 then [] else FlattenedLanes(lanes, n - 1) + L.Flattened(lanes[n - 1])
  }

  lemma NothingFlattened(lanes: seq<L.LaneState>)
    ensures FlattenedLanes(lanes, 0) == []
  {
  }

  lemma FlattenedNext(lanes: seq<L.LaneState>, n: nat)
    requires n < |lanes|
    ensures FlattenedLanes(lanes, n + 1) == FlattenedLanes(lanes, n) + L.Flattened(lanes[n])
  {
  }

  lemma Moved(done: multiset<Item>, part: multiset<Item>, rest: multiset<Item>, had: multiset<Item>, all: multiset<Item>)
    requires done + had == all && rest + part == had
    ensures (done + part) + rest == all
  {
  }
}
