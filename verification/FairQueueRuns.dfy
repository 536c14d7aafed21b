/** The queue over whole runs: conservation, attribution, priority, and fairness between cameras. */
module FairQueueRuns {
  import opened Options
  import opened WorkItems
  import opened KeySeqs
  import opened LaneObjects
  import opened Lanes
  import opened FairQueues

  // One critical section of the queue: a put that finished, a batch handed out, a close.
  datatype QueueOp = PutOp(item: Item) | DrainOp(maxRows: nat, now: int) | CloseOp

  const NO_LANES: seq<LaneState> := [EMPTY, EMPTY, EMPTY, EMPTY]

  ghost function StepQueue(cfg: Config, q: QueueState, op: QueueOp): (r: QueueState)
    requires |q.lanes| == LEVELS
    ensures |r.lanes| == LEVELS
  {
    match op
    case PutOp(item) => PutState(cfg, q, item)
    case DrainOp(maxRows, now) => DrainState(cfg, q, maxRows, now)
    case CloseOp => q.(lanes := NO_LANES, closed := true)
  }

  ghost function RunQueue(cfg: Config, q: QueueState, ops: seq<QueueOp>): (r: QueueState)
    requires |q.lanes| == LEVELS
    ensures |r.lanes| == LEVELS
    decreases ops
  {
    if ops == [] then q else RunQueue(cfg, StepQueue(cfg, q, ops[0]), ops[1..])
  }

  // ----- where every item goes -----

  datatype Flow = Flow(arrived: seq<Item>, refused: seq<Item>, served: seq<Item>,
                       expired: seq<Item>, evicted: seq<Item>, abandoned: multiset<Item>)

  function Join(a: Flow, b: Flow): Flow {
    Flow(a.arrived + b.arrived, a.refused + b.refused, a.served + b.served,
         a.expired + b.expired, a.evicted + b.evicted, a.abandoned + b.abandoned)
  }

  const STILL := Flow([], [], [], [], [], multiset{})

  ghost function PutFlow(cfg: Config, q: QueueState, item: Item): Flow
    requires |q.lanes| == LEVELS
  {
    match PutResult(cfg, q)
    case Cancelled => STILL
    case QueueFull(_, _) => STILL.(refused := [item])
    case Enqueued(None) => STILL.(arrived := [item])
    case Enqueued(Some(victim)) => STILL.(arrived := [item], evicted := [victim])
  }

  ghost function FlowOf(cfg: Config, q: QueueState, op: QueueOp): Flow
    requires |q.lanes| == LEVELS
  {
    match op
    case PutOp(item) => PutFlow(cfg, q, item)
    case DrainOp(maxRows, now) =>
      var d := Drain(cfg, q.lanes, maxRows, now);
      STILL.(served := d.batch, expired := d.expired)
    case CloseOp => STILL.(abandoned := AllItems(q.lanes))
  }

  ghost function RunFlow(cfg: Config, q: QueueState, ops: seq<QueueOp>): Flow
    requires |q.lanes| == LEVELS
    decreases ops
  {
    if ops == [] then STILL
    else Join(FlowOf(cfg, q, ops[0]), RunFlow(cfg, StepQueue(cfg, q, ops[0]), ops[1..]))
  }

  // What came in is what is still there plus what left, each item by exactly one door.
  ghost predicate Balanced(before: QueueState, after: QueueState, f: Flow) {
    AllItems(before.lanes) + multiset(f.arrived)
      == AllItems(after.lanes) + multiset(f.served) + multiset(f.expired) + multiset(f.evicted) + f.abandoned
  }

  // The counters moved by exactly that flow, in total and per camera; a close charges nobody.
  ghost predicate Charged(c: Counters, d: Counters, f: Flow) {
    && d.accepted == c.accepted + |f.arrived|
    && d.rejected == c.rejected + |f.refused|
    && d.evicted == c.evicted + |f.evicted|
    && d.expired == c.expired + |f.expired|
    && (forall k :: CountOf(d.rejectedBy, k) == CountOf(c.rejectedBy, k) + Of(f.refused, k))
    && (forall k :: CountOf(d.evictedBy, k) == CountOf(c.evictedBy, k) + Of(f.evicted, k))
    && (forall k :: CountOf(d.expiredBy, k) == CountOf(c.expiredBy, k) + Of(f.expired, k))
  }

  lemma EnqueueItems(q: QueueState, item: Item)
    requires |q.lanes| == LEVELS
    ensures AllItems(Enqueue(q, item).lanes) == AllItems(q.lanes) + multiset{item}
  {
    var s := q.lanes[item.priority];
    PushItems(s, item);
    AllItemsUpdate(q.lanes, item.priority, Push(s, item));
    Cancel(AllItems(q.lanes), AllItems(Enqueue(q, item).lanes), Items(s), multiset{item});
  }

  lemma EvictLaneItems(q: QueueState, p: nat)
    requires p < |q.lanes| && q.lanes[p].keys != []
    ensures AllItems(q.lanes) == AllItems(EvictLane(q, p).lanes) + multiset{Victim(q.lanes[p])}
  {
    var s := q.lanes[p];
    EvictItems(s);
    AllItemsUpdate(q.lanes, p, Evict(s));
    Cancel(AllItems(EvictLane(q, p).lanes), AllItems(q.lanes), Items(Evict(s)), multiset{Victim(s)});
  }

  lemma OfOne(item: Item, k: Camera)
    ensures Of([item], k) == if FairnessKey(item) == k then 1 else 0
  {
    assert [item][..0] == [];
  }

  lemma AdmitBalanced(q: QueueState, item: Item)
    requires |q.lanes| == LEVELS
    ensures Balanced(q, Enqueue(q, item), STILL.(arrived := [item]))
    ensures Depth(Enqueue(q, item).lanes) == Depth(q.lanes) + 1
  {
    EnqueueItems(q, item);
    hide AllItems;
    hide Enqueue;
  }

  lemma ReplaceBalanced(q: QueueState, p: nat, item: Item)
    requires p < |q.lanes| == LEVELS && q.lanes[p].keys != []
    ensures Balanced(q, Enqueue(EvictLane(q, p), item), STILL.(arrived := [item], evicted := [Victim(q.lanes[p])]))
    ensures Depth(Enqueue(EvictLane(q, p), item).lanes) == Depth(q.lanes)
    ensures Depth(EvictLane(q, p).lanes) == Depth(q.lanes) - 1
  {
    EvictLaneItems(q, p);
    EnqueueItems(EvictLane(q, p), item);
    hide AllItems;
    hide Enqueue;
    hide EvictLane;
    hide Victim;
    hide RawLane.Valid;
    assert multiset([Victim(q.lanes[p])]) == multiset{Victim(q.lanes[p])};
    assert multiset([item]) == multiset{item};
  }

  lemma PutBalanced(cfg: Config, q: QueueState, item: Item)
    requires |q.lanes| == LEVELS
    ensures Balanced(q, PutState(cfg, q, item), PutFlow(cfg, q, item))
    ensures Depth(q.lanes) <= cfg.capacity ==> Depth(PutState(cfg, q, item).lanes) <= cfg.capacity
  {
    hide RawLane.Valid;
    hide AllItems;
    hide Victim;
    hide Enqueue;
    hide EvictLane;
    hide Balanced;
    hide Depth;
    hide LowestNonEmpty;
    var low := LowestNonEmpty(q.lanes, LEVELS);
    if !q.closed && Depth(q.lanes) < cfg.capacity {
      AdmitBalanced(q, item);
    } else if !q.closed && cfg.overflow == DropOldest && low.Some? {
      ReplaceBalanced(q, low.value, item);
    } else {
      RefuseBalanced(q, item);
    }
  }

  lemma RefuseBalanced(q: QueueState, item: Item)
    ensures Balanced(q, Refuse(q, item), STILL.(refused := [item]))
    ensures Balanced(q, q, STILL)
    ensures Refuse(q, item).lanes == q.lanes
  {
    hide AllItems;
  }

  lemma StepBalanced(cfg: Config, q: QueueState, op: QueueOp)
    requires |q.lanes| == LEVELS
    ensures Balanced(q, StepQueue(cfg, q, op), FlowOf(cfg, q, op))
    ensures Depth(q.lanes) <= cfg.capacity ==> Depth(StepQueue(cfg, q, op).lanes) <= cfg.capacity
  {
    hide RawLane.Valid;
    hide Pop;
    hide PutState;
    hide PutFlow;
    hide AllItems;
    match op {
      case PutOp(item) => PutBalanced(cfg, q, item);
      case DrainOp(maxRows, now) => DrainConserves(cfg, q.lanes, maxRows, now);
      case CloseOp => NoItems();
    }
  }

  lemma EmptyItems()
    ensures Items(EMPTY) == multiset{}
  {
  }

  lemma NoItems()
    ensures AllItems(NO_LANES) == multiset{}
  {
    forall item ensures item !in AllItems(NO_LANES) { AllItemsMember(NO_LANES, item); }
  }

  lemma StepCharged(cfg: Config, q: QueueState, op: QueueOp)
    requires |q.lanes| == LEVELS
    ensures Charged(q.counters, StepQueue(cfg, q, op).counters, FlowOf(cfg, q, op))
  {
    hide RawLane.Valid;
    hide Pop;
    hide Evict;
    hide Push;
    hide AllItems;
    match op {
      case PutOp(item) =>
        forall k ensures Of([item], k) == if FairnessKey(item) == k then 1 else 0 { OfOne(item, k); }
        var low := LowestNonEmpty(q.lanes, LEVELS);
        if low.Some? {
          var victim := Victim(q.lanes[low.value]);
          forall k ensures Of([victim], k) == if FairnessKey(victim) == k then 1 else 0 { OfOne(victim, k); }
        }
      case DrainOp(maxRows, now) =>
        var d := Drain(cfg, q.lanes, maxRows, now);
        forall k ensures CountOf(BumpAll(q.counters.expiredBy, d.expired), k)
                         == CountOf(q.counters.expiredBy, k) + Of(d.expired, k) {
          BumpAllCounts(q.counters.expiredBy, d.expired, k);
        }
      case CloseOp =>
    }
  }

  lemma {:induction false} OfJoin(a: seq<Item>, b: seq<Item>, k: Camera)
    ensures Of(a + b, k) == Of(a, k) + Of(b, k)
  {
    if b == [] {
      assert a + b == a;
    } else {
      OfJoin(a, b[..|b| - 1], k);
      assert (a + b)[..|a + b| - 1] == a + b[..|b| - 1];
    }
  }

  lemma ChargedJoin(c: Counters, d: Counters, e: Counters, f: Flow, g: Flow)
    requires Charged(c, d, f) && Charged(d, e, g)
    ensures Charged(c, e, Join(f, g))
  {
    forall k
      ensures Of(f.refused + g.refused, k) == Of(f.refused, k) + Of(g.refused, k)
      ensures Of(f.evicted + g.evicted, k) == Of(f.evicted, k) + Of(g.evicted, k)
      ensures Of(f.expired + g.expired, k) == Of(f.expired, k) + Of(g.expired, k)
    {
      OfJoin(f.refused, g.refused, k);
      OfJoin(f.evicted, g.evicted, k);
      OfJoin(f.expired, g.expired, k);
    }
  }

  lemma BalancedJoin(a: QueueState, b: QueueState, c: QueueState, f: Flow, g: Flow)
    requires Balanced(a, b, f) && Balanced(b, c, g)
    ensures Balanced(a, c, Join(f, g))
  {
    hide AllItems;
    var h := Join(f, g);
    var leaves := multiset(f.served) + multiset(f.expired) + multiset(f.evicted) + f.abandoned;
    var leaves' := multiset(g.served) + multiset(g.expired) + multiset(g.evicted) + g.abandoned;
    Chain(AllItems(a.lanes), AllItems(b.lanes), AllItems(c.lanes),
          multiset(f.arrived), multiset(g.arrived), leaves, leaves');
    assert multiset(h.served) + multiset(h.expired) + multiset(h.evicted) + h.abandoned == leaves + leaves';
  }

  lemma Chain(a: multiset<Item>, b: multiset<Item>, c: multiset<Item>,
              into: multiset<Item>, into': multiset<Item>, out: multiset<Item>, out': multiset<Item>)
    requires a + into == b + out && b + into' == c + out'
    ensures a + (into + into') == c + (out + out')
  {
    calc {
      a + (into + into');
      (a + into) + into';
      (b + into') + out;
      c + (out + out');
    }
  }

  /** Over every run, every accepted item is still queued or left by exactly one door, the
      counters say how many left by each, per camera, and the depth never passes the capacity. */
  lemma {:induction false} EveryRunBalances(cfg: Config, q: QueueState, ops: seq<QueueOp>)
    requires |q.lanes| == LEVELS
    ensures Balanced(q, RunQueue(cfg, q, ops), RunFlow(cfg, q, ops))
    ensures Charged(q.counters, RunQueue(cfg, q, ops).counters, RunFlow(cfg, q, ops))
    ensures Depth(q.lanes) <= cfg.capacity ==> Depth(RunQueue(cfg, q, ops).lanes) <= cfg.capacity
    decreases ops
  {
    hide StepQueue;
    hide FlowOf;
    hide Balanced;
    hide Charged;
    if ops == [] {
      Unmoved(q);
    } else {
      var r := StepQueue(cfg, q, ops[0]);
      StepBalanced(cfg, q, ops[0]);
      StepCharged(cfg, q, ops[0]);
      EveryRunBalances(cfg, r, ops[1..]);
      var end := RunQueue(cfg, r, ops[1..]);
      var f, g := FlowOf(cfg, q, ops[0]), RunFlow(cfg, r, ops[1..]);
      BalancedJoin(q, r, end, f, g);
      ChargedJoin(q.counters, r.counters, end.counters, f, g);
    }
  }

  lemma Unmoved(q: QueueState)
    ensures Balanced(q, q, STILL)
    ensures Charged(q.counters, q.counters, STILL)
  {
  }

  // How many of `items` are of camera `k`, callers without one being of the shared id.
  ghost function OfCamera(items: seq<Item>, k: Camera): nat {
    if items == [] then 0
    else
      var x := items[|items| - 1].camera;
      OfCamera(items[..|items| - 1], k) + (if x == k != NO_CAMERA || (x == NO_CAMERA && k == SHARED) then 1 else 0)
  }

  lemma {:induction false} OfIsOfCamera(items: seq<Item>, k: Camera)
    ensures Of(items, k) == OfCamera(items, k)
  {
    if items != [] { OfIsOfCamera(items[..|items| - 1], k); }
  }

  // The counter holds, for every camera, how many of `lost` were its own; one without any is not in it.
  ghost predicate Attributes(counter: map<Camera, nat>, lost: seq<Item>) {
    forall k :: if k in counter then counter[k] == OfCamera(lost, k) else OfCamera(lost, k) == 0
  }

  /** Every loss is charged to the camera whose item it was: over any run of a new queue the three
      per-camera counters are the cameras of the items refused, evicted and expired. */
  lemma LossesAreAttributed(cfg: Config, ops: seq<QueueOp>)
    ensures
      var q := QueueState(NO_LANES, false, NO_COUNTS);
      var c, f := RunQueue(cfg, q, ops).counters, RunFlow(cfg, q, ops);
      Attributes(c.rejectedBy, f.refused) && Attributes(c.evictedBy, f.evicted) && Attributes(c.expiredBy, f.expired)
  {
    var q := QueueState(NO_LANES, false, NO_COUNTS);
    var c, f := RunQueue(cfg, q, ops).counters, RunFlow(cfg, q, ops);
    EveryRunBalances(cfg, q, ops);
    assert Charged(NO_COUNTS, c, f);
    hide *;
    OwnLosses(c, f);
  }

  lemma OwnLosses(c: Counters, f: Flow)
    requires Charged(NO_COUNTS, c, f)
    ensures Attributes(c.rejectedBy, f.refused) && Attributes(c.evictedBy, f.evicted) && Attributes(c.expiredBy, f.expired)
  {
    assert forall k :: CountOf(map[], k) == 0;
    OwnLoss(c.rejectedBy, f.refused);
    OwnLoss(c.evictedBy, f.evicted);
    OwnLoss(c.expiredBy, f.expired);
    hide Attributes;
  }

  lemma OwnLoss(counter: map<Camera, nat>, lost: seq<Item>)
    ensures (forall k :: CountOf(counter, k) == Of(lost, k)) ==> Attributes(counter, lost)
  {
    forall k ensures Of(lost, k) == OfCamera(lost, k) { OfIsOfCamera(lost, k); }
    hide Of;
    hide OfCamera;
  }

  /** What a put answers and leaves: a closed queue takes nothing; an open one takes the item for nothing
      while it is below its capacity; at its capacity DROP_OLDEST takes it for a queued item and the
      other policies refuse it and keep what is queued. */
  lemma PutIff(cfg: Config, q: QueueState, item: Item)
    requires Valid(q) && cfg.capacity >= 1
    ensures
      var r, after := PutResult(cfg, q), AllItems(PutState(cfg, q, item).lanes);
      var before := AllItems(q.lanes);
      && (r.Cancelled? <==> q.closed)
      && (r.QueueFull? <==> !q.closed && |before| >= cfg.capacity && cfg.overflow != DropOldest)
      && (r.Enqueued? && r.victim.None? <==> !q.closed && |before| < cfg.capacity)
      && (!r.Enqueued? ==> after == before)
      && (r.Enqueued? && r.victim.None? ==> after == before + multiset{item})
      && (r.Enqueued? && r.victim.Some? ==> r.victim.value in before && after == before - multiset{r.victim.value} + multiset{item})
  {
    PutAnswers(cfg, q);
    PutLeaves(cfg, q, item);
    hide *;
  }

  lemma PutAnswers(cfg: Config, q: QueueState)
    requires Valid(q) && cfg.capacity >= 1
    ensures
      var r, before := PutResult(cfg, q), |AllItems(q.lanes)|;
      && (r.Cancelled? <==> q.closed)
      && (r.QueueFull? <==> !q.closed && before >= cfg.capacity && cfg.overflow != DropOldest)
      && (r.Enqueued? && r.victim.None? <==> !q.closed && before < cfg.capacity)
  {
    if LowestNonEmpty(q.lanes, LEVELS).None? { NothingQueued(q); }
    hide AllItems;
    hide WellPlaced;
    hide LowestNonEmpty;
    hide Victim;
  }

  lemma PutLeaves(cfg: Config, q: QueueState, item: Item)
    requires |q.lanes| == LEVELS
    ensures
      var r, after := PutResult(cfg, q), AllItems(PutState(cfg, q, item).lanes);
      var before := AllItems(q.lanes);
      && (!r.Enqueued? ==> after == before)
      && (r.Enqueued? && r.victim.None? ==> after == before + multiset{item})
      && (r.Enqueued? && r.victim.Some? ==> r.victim.value in before && after == before - multiset{r.victim.value} + multiset{item})
  {
    hide AllItems;
    hide Victim;
    hide Enqueue;
    hide EvictLane;
    match PutResult(cfg, q)
    case Enqueued(None) => EnqueueItems(q, item);
    case Enqueued(Some(_)) => ReplaceItems(q, LowestNonEmpty(q.lanes, LEVELS).value, item);
    case _ =>
  }

  lemma ReplaceItems(q: QueueState, p: nat, item: Item)
    requires p < |q.lanes| == LEVELS && q.lanes[p].keys != []
    ensures
      var victim, before := Victim(q.lanes[p]), AllItems(q.lanes);
      victim in before && AllItems(Enqueue(EvictLane(q, p), item).lanes) == before - multiset{victim} + multiset{item}
  {
    hide AllItems;
    hide Victim;
    hide Enqueue;
    EvictLaneItems(q, p);
    EnqueueItems(EvictLane(q, p), item);
    hide EvictLane;
  }

  lemma NothingQueued(q: QueueState)
    requires Valid(q) && LowestNonEmpty(q.lanes, LEVELS).None?
    ensures AllItems(q.lanes) == multiset{}
  {
    forall item ensures item !in AllItems(q.lanes) {
      AllItemsMember(q.lanes, item);
      forall p | 0 <= p < |q.lanes| ensures item !in Items(q.lanes[p]) { EmptyLane(q.lanes[p]); }
    }
  }

  // ----- priority -----

  lemma EnqueuePlaced(q: QueueState, item: Item)
    requires Valid(q)
    ensures Valid(Enqueue(q, item))
  {
    hide RawLane.Valid;
    hide Push;
    hide ItemsOf;
    PushItems(q.lanes[item.priority], item);
  }

  lemma EvictPlaced(q: QueueState, p: nat)
    requires Valid(q) && p < LEVELS && q.lanes[p].keys != []
    ensures Valid(EvictLane(q, p))
  {
    hide RawLane.Valid;
    hide Evict;
    hide ItemsOf;
    EvictItems(q.lanes[p]);
  }

  lemma PopFirstPlaced(lanes: seq<LaneState>)
    requires WellPlaced(lanes) && First(lanes, 0).Some?
    ensures WellPlaced(PopFirst(lanes))
    ensures Head(lanes).priority == First(lanes, 0).value
  {
    hide RawLane.Valid;
    hide Pop;
    hide ItemsOf;
    var p := First(lanes, 0).value;
    PopItems(lanes[p]);
    assert Head(lanes) in Items(lanes[p]);
  }

  lemma {:induction false} PopManyPlaced(lanes: seq<LaneState>, n: nat)
    requires WellPlaced(lanes)
    ensures WellPlaced(PopMany(lanes, n))
    decreases n
  {
    hide WellPlaced;
    hide PopFirst;
    if n > 0 && First(lanes, 0).Some? {
      PopFirstPlaced(lanes);
      PopManyPlaced(PopFirst(lanes), n - 1);
    }
  }

  /** Every operation keeps each item in the lane of its priority. */
  lemma StepPlaced(cfg: Config, q: QueueState, op: QueueOp)
    requires Valid(q)
    ensures Valid(StepQueue(cfg, q, op))
  {
    hide RawLane.Valid;
    hide WellPlaced;
    match op {
      case PutOp(item) =>
        EnqueuePlaced(q, item);
        var low := LowestNonEmpty(q.lanes, LEVELS);
        if low.Some? {
          EvictPlaced(q, low.value);
          EnqueuePlaced(EvictLane(q, low.value), item);
        }
      case DrainOp(maxRows, now) =>
        PopManyPlaced(q.lanes, Cut(cfg, Schedule(q.lanes), maxRows, now, 0));
      case CloseOp => NonePlaced();
    }
  }

  lemma NonePlaced()
    ensures WellPlaced(NO_LANES)
  {
  }

  // The head is at least as urgent as anything queued.
  lemma HeadIsMostUrgent(lanes: seq<LaneState>, item: Item)
    requires WellPlaced(lanes) && First(lanes, 0).Some? && item in AllItems(lanes)
    ensures Head(lanes).priority <= item.priority
  {
    hide RawLane.Valid;
    PopFirstPlaced(lanes);
    AllItemsMember(lanes, item);
    var p :| 0 <= p < |lanes| && item in Items(lanes[p]);
    EmptyLane(lanes[p]);
  }

  lemma {:induction false} ScheduleByPriority(lanes: seq<LaneState>, i: nat, j: nat)
    requires WellPlaced(lanes) && i <= j < |Schedule(lanes)|
    ensures Schedule(lanes)[i].priority <= Schedule(lanes)[j].priority
    decreases Depth(lanes)
  {
    hide RawLane.Valid;
    hide WellPlaced;
    hide AllItems;
    hide PopFirst;
    hide Head;
    hide First;
    PopFirstItems(lanes);
    PopFirstPlaced(lanes);
    if i > 0 {
      ScheduleByPriority(PopFirst(lanes), i - 1, j - 1);
    } else {
      ScheduleItems(lanes);
      assert Schedule(lanes)[j] in multiset(Schedule(lanes));
      HeadIsMostUrgent(lanes, Schedule(lanes)[j]);
    }
  }

  lemma {:induction false} KeptIsQueued(cfg: Config, items: seq<Item>, now: int, stale: bool, x: Item)
    requires x in Keep(cfg, items, now, stale)
    ensures x in items
  {
    if items != [] && x in Keep(cfg, items[1..], now, stale) {
      KeptIsQueued(cfg, items[1..], now, stale, x);
    }
  }

  /** No item is served while a more urgent one stays behind. */
  lemma DrainByPriority(cfg: Config, lanes: seq<LaneState>, maxRows: nat, now: int, served: Item, left: Item)
    requires WellPlaced(lanes)
    requires served in Drain(cfg, lanes, maxRows, now).batch
    requires left in AllItems(Drain(cfg, lanes, maxRows, now).lanes)
    ensures served.priority <= left.priority
  {
    hide RawLane.Valid;
    hide WellPlaced;
    hide AllItems;
    hide Schedule;
    hide PopMany;
    var items := Schedule(lanes);
    var n := Cut(cfg, items, maxRows, now, 0);
    KeptIsQueued(cfg, items[..n], now, false, served);
    PopManySchedule(lanes, n);
    ScheduleItems(PopMany(lanes, n));
    assert left in items[n..];
    var i :| 0 <= i < n && items[i] == served;
    var j :| n <= j < |items| && items[j] == left;
    ScheduleByPriority(lanes, i, j);
  }

  /** Who an overflowing put displaces. Eviction takes the least urgent item queued, but it does
      not look at the item being put: a less urgent arrival displaces a more urgent item exactly
      when everything queued is more urgent than it. */
  lemma DisplacesMoreUrgentIff(cfg: Config, q: QueueState, item: Item)
    requires Valid(q)
    requires PutResult(cfg, q).Enqueued? && PutResult(cfg, q).victim.Some?
    ensures
      var victim := PutResult(cfg, q).victim.value;
      && (forall x :: x in AllItems(q.lanes) ==> x.priority <= victim.priority)
      && (victim.priority < item.priority <==> forall x :: x in AllItems(q.lanes) ==> x.priority < item.priority)
  {
    hide RawLane.Valid;
    var p := LowestNonEmpty(q.lanes, LEVELS).value;
    var victim := Victim(q.lanes[p]);
    EvictItems(q.lanes[p]);
    assert victim in Items(q.lanes[p]);
    AllItemsMember(q.lanes, victim);
    forall x | x in AllItems(q.lanes) ensures x.priority <= p {
      AllItemsMember(q.lanes, x);
      var r :| 0 <= r < |q.lanes| && x in Items(q.lanes[r]);
      EmptyLane(q.lanes[r]);
    }
  }

  // ----- fairness between cameras -----

  // The turns a sequence of pops takes in lane `p`.
  function TurnsIn(lanes: seq<LaneState>, n: nat, p: nat): nat
    decreases n
  {
    if n == 0 || First(lanes, 0).None? then 0
    else (if First(lanes, 0).value == p then 1 else 0) + TurnsIn(PopFirst(lanes), n - 1, p)
  }

  function Pops(n: nat): seq<Op> {
    if n == 0 then [] else [PopOp] + Pops(n - 1)
  }

  // What one queue operation other than a close does to lane `p`.
  ghost function LaneOps(cfg: Config, q: QueueState, op: QueueOp, p: nat): seq<Op>
    requires |q.lanes| == LEVELS
  {
    match op
    case PutOp(item) =>
      var push := if item.priority == p then [PushOp(item)] else [];
      (match PutResult(cfg, q)
       case Enqueued(None) => push
       case Enqueued(Some(_)) => (if LowestNonEmpty(q.lanes, LEVELS) == Some(p) then [EvictOp] else []) + push
       case _ => [])
    case DrainOp(maxRows, now) => Pops(TurnsIn(q.lanes, Cut(cfg, Schedule(q.lanes), maxRows, now, 0), p))
    case CloseOp => []
  }

  lemma {:induction false} PopManyIsTurns(lanes: seq<LaneState>, n: nat, p: nat)
    requires p < |lanes|
    ensures PopMany(lanes, n)[p] == Run(lanes[p], Pops(TurnsIn(lanes, n, p)))
    decreases n
  {
    hide RawLane.Valid;
    hide Pop;
    if n > 0 && First(lanes, 0).Some? {
      var rest := PopFirst(lanes);
      PopManyIsTurns(rest, n - 1, p);
      if First(lanes, 0).value == p {
        var t := TurnsIn(rest, n - 1, p);
        assert Pops(t + 1)[1..] == Pops(t);
      }
    }
  }

  lemma RunOne(s: LaneState, op: Op)
    ensures Run(s, [op]) == Step(s, op)
  {
    hide RawLane.Valid;
    hide Step;
    assert [op][1..] == [];
    assert Run(Step(s, op), []) == Step(s, op);
  }

  lemma RunTwo(s: LaneState, a: Op, b: Op)
    ensures Run(s, [a] + [b]) == Step(Step(s, a), b)
  {
    hide RawLane.Valid;
    hide Step;
    RunAppend(s, [a], [b]);
    RunOne(s, a);
    RunOne(Step(s, a), b);
  }

  lemma PutProjects(cfg: Config, q: QueueState, item: Item, p: nat)
    requires |q.lanes| == LEVELS && p < LEVELS
    ensures PutState(cfg, q, item).lanes[p] == Run(q.lanes[p], LaneOps(cfg, q, PutOp(item), p))
  {
    hide RawLane.Valid;
    hide Push;
    hide Evict;
    hide AllItems;
    var s := q.lanes[p];
    RunOne(s, PushOp(item));
    if s.keys != [] {
      RunOne(s, EvictOp);
      RunTwo(s, EvictOp, PushOp(item));
    }
    assert [EvictOp] + [] == [EvictOp] && [] + [PushOp(item)] == [PushOp(item)];
  }

  /** Each lane of the queue goes through a run of its own operations. */
  lemma StepProjects(cfg: Config, q: QueueState, op: QueueOp, p: nat)
    requires |q.lanes| == LEVELS && p < LEVELS && !op.CloseOp?
    ensures StepQueue(cfg, q, op).lanes[p] == Run(q.lanes[p], LaneOps(cfg, q, op, p))
  {
    hide RawLane.Valid;
    hide Pop;
    hide PutState;
    hide PutResult;
    match op {
      case PutOp(item) => PutProjects(cfg, q, item, p);
      case DrainOp(maxRows, now) => PopManyIsTurns(q.lanes, Cut(cfg, Schedule(q.lanes), maxRows, now, 0), p);
    }
  }

  ghost predicate NeverCloses(ops: seq<QueueOp>) {
    forall i :: 0 <= i < |ops| ==> !ops[i].CloseOp?
  }

  ghost function RunLaneOps(cfg: Config, q: QueueState, ops: seq<QueueOp>, p: nat): seq<Op>
    requires |q.lanes| == LEVELS
    decreases ops
  {
    if ops == [] then [] else LaneOps(cfg, q, ops[0], p) + RunLaneOps(cfg, StepQueue(cfg, q, ops[0]), ops[1..], p)
  }

  // How many of `items` are of priority `p` and camera `c`.
  function CountIn(items: seq<Item>, p: nat, c: Camera): nat {
    if items == [] then 0
    else (if items[0].priority == p && FairnessKey(items[0]) == c then 1 else 0) + CountIn(items[1..], p, c)
  }

  // How many items of priority `p` and camera `c` the batches of a run handed out.
  ghost function Served(cfg: Config, q: QueueState, ops: seq<QueueOp>, p: nat, c: Camera): nat
    requires |q.lanes| == LEVELS
    decreases ops
  {
    if ops == [] then 0
    else CountIn(FlowOf(cfg, q, ops[0]).served, p, c) + Served(cfg, StepQueue(cfg, q, ops[0]), ops[1..], p, c)
  }

  // How many of them its drains discarded as expired.
  ghost function Discarded(cfg: Config, q: QueueState, ops: seq<QueueOp>, p: nat, c: Camera): nat
    requires |q.lanes| == LEVELS
    decreases ops
  {
    if ops == [] then 0
    else CountIn(FlowOf(cfg, q, ops[0]).expired, p, c) + Discarded(cfg, StepQueue(cfg, q, ops[0]), ops[1..], p, c)
  }

  // How many turns camera `c` got in band `p`: a turn takes its oldest item, fresh or expired.
  ghost function TurnsTaken(cfg: Config, q: QueueState, ops: seq<QueueOp>, p: nat, c: Camera): nat
    requires |q.lanes| == LEVELS
  {
    Served(cfg, q, ops, p, c) + Discarded(cfg, q, ops, p, c)
  }

  lemma CountInFirst(item: Item, items: seq<Item>, p: nat, c: Camera)
    ensures CountIn([item] + items, p, c) == (if item.priority == p && FairnessKey(item) == c then 1 else 0) + CountIn(items, p, c)
  {
    assert ([item] + items)[1..] == items;
  }

  lemma {:induction false} CountKept(cfg: Config, items: seq<Item>, now: int, p: nat, c: Camera)
    ensures CountIn(Keep(cfg, items, now, false), p, c) + CountIn(Keep(cfg, items, now, true), p, c)
      == CountIn(items, p, c)
  {
    if items != [] {
      CountKept(cfg, items[1..], now, p, c);
      var kept, stale := Keep(cfg, items[1..], now, false), Keep(cfg, items[1..], now, true);
      assert items == [items[0]] + items[1..];
      hide CountIn;
      hide Stale;
      CountInFirst(items[0], items[1..], p, c);
      CountInFirst(items[0], kept, p, c);
      CountInFirst(items[0], stale, p, c);
      assert [] + kept == kept && [] + stale == stale;
    }
  }

  lemma PeekKey(s: LaneState)
    requires s.order != []
    ensures FairnessKey(Peek(s)) == s.order[0]
  {
    assert s.order[0] in s.order;
  }

  lemma {:induction false} TurnsAreItems(lanes: seq<LaneState>, n: nat, p: nat, c: Camera)
    requires WellPlaced(lanes) && p < |lanes| && n <= |Schedule(lanes)|
    ensures Turns(lanes[p], Pops(TurnsIn(lanes, n, p)), c) == CountIn(Schedule(lanes)[..n], p, c)
    decreases n
  {
    hide RawLane.Valid;
    hide Pop;
    hide WellPlaced;
    if n > 0 {
      var rest := PopFirst(lanes);
      PopFirstPlaced(lanes);
      TurnsAreItems(rest, n - 1, p, c);
      assert Schedule(lanes)[..n][1..] == Schedule(rest)[..n - 1];
      var first := First(lanes, 0).value;
      if first == p {
        PeekKey(lanes[p]);
        var t := TurnsIn(rest, n - 1, p);
        assert Pops(t + 1)[1..] == Pops(t);
      }
    }
  }

  lemma {:induction false} TurnsAppend(s: LaneState, a: seq<Op>, b: seq<Op>, c: Camera)
    ensures Turns(s, a + b, c) == Turns(s, a, c) + Turns(Run(s, a), b, c)
    decreases a
  {
    hide RawLane.Valid;
    hide Step;
    if a == [] {
      assert a + b == b;
    } else {
      assert (a + b)[1..] == a[1..] + b;
      TurnsAppend(Step(s, a[0]), a[1..], b, c);
    }
  }

  lemma {:induction false} NoPopNoTurn(s: LaneState, ops: seq<Op>, c: Camera)
    requires forall i :: 0 <= i < |ops| ==> !ops[i].PopOp?
    ensures Turns(s, ops, c) == 0
    decreases ops
  {
    hide RawLane.Valid;
    hide Step;
    if ops != [] { NoPopNoTurn(Step(s, ops[0]), ops[1..], c); }
  }

  lemma StepTurns(cfg: Config, q: QueueState, op: QueueOp, p: nat, c: Camera)
    requires Valid(q) && p < LEVELS
    ensures Turns(q.lanes[p], LaneOps(cfg, q, op, p), c)
      == CountIn(FlowOf(cfg, q, op).served, p, c) + CountIn(FlowOf(cfg, q, op).expired, p, c)
  {
    hide RawLane.Valid;
    hide Pop;
    hide WellPlaced;
    hide AllItems;
    match op {
      case PutOp(item) => NoPopNoTurn(q.lanes[p], LaneOps(cfg, q, op, p), c);
      case DrainOp(maxRows, now) =>
        var items := Schedule(q.lanes);
        var n := Cut(cfg, items, maxRows, now, 0);
        TurnsAreItems(q.lanes, n, p, c);
        CountKept(cfg, items[..n], now, p, c);
      case CloseOp =>
    }
  }

  lemma {:induction false} RunTurns(cfg: Config, q: QueueState, ops: seq<QueueOp>, p: nat, c: Camera)
    requires Valid(q) && p < LEVELS && NeverCloses(ops)
    ensures Turns(q.lanes[p], RunLaneOps(cfg, q, ops, p), c) == TurnsTaken(cfg, q, ops, p, c)
    decreases ops
  {
    hide RawLane.Valid;
    hide StepQueue;
    hide LaneOps;
    hide FlowOf;
    if ops != [] {
      var r := StepQueue(cfg, q, ops[0]);
      StepPlaced(cfg, q, ops[0]);
      StepTurns(cfg, q, ops[0], p, c);
      StepProjects(cfg, q, ops[0], p);
      RunTurns(cfg, r, ops[1..], p, c);
      TurnsAppend(q.lanes[p], LaneOps(cfg, q, ops[0], p), RunLaneOps(cfg, r, ops[1..], p), c);
    }
  }

  /** Fairness of the whole queue, under any overflow policy: while camera `k` keeps its place in
      band `p`, no other camera gets more than one turn of that band more than `k` does. */
  lemma CameraFairness(cfg: Config, q: QueueState, ops: seq<QueueOp>, p: nat, j: Camera, k: Camera)
    requires Valid(q) && p < LEVELS && NeverCloses(ops)
    requires j != k && Backlogged(q.lanes[p], RunLaneOps(cfg, q, ops, p), k)
    ensures TurnsTaken(cfg, q, ops, p, j) <= TurnsTaken(cfg, q, ops, p, k) + 1
  {
    hide RawLane.Valid;
    RunTurns(cfg, q, ops, p, j);
    RunTurns(cfg, q, ops, p, k);
    RoundRobinFair(q.lanes[p], RunLaneOps(cfg, q, ops, p), j, k);
  }

  // Camera `k` has something queued in band `p` before and after every operation.
  ghost predicate Present(cfg: Config, q: QueueState, ops: seq<QueueOp>, p: nat, k: Camera)
    requires |q.lanes| == LEVELS && p < LEVELS
    decreases ops
  {
    k in q.lanes[p].byKey && (ops == [] || Present(cfg, StepQueue(cfg, q, ops[0]), ops[1..], p, k))
  }

  lemma {:induction false} BackloggedAppend(s: LaneState, a: seq<Op>, b: seq<Op>, k: Camera)
    requires Backlogged(s, a, k) && Backlogged(Run(s, a), b, k)
    ensures Backlogged(s, a + b, k)
    decreases a
  {
    hide RawLane.Valid;
    hide Step;
    if a == [] {
      assert a + b == b;
    } else {
      assert (a + b)[1..] == a[1..] + b;
      BackloggedAppend(Step(s, a[0]), a[1..], b, k);
    }
  }

  // Pops only shorten buckets, so a key that survives them was there throughout.
  lemma {:induction false} SurvivesPops(s: LaneState, n: nat, k: Camera)
    requires k in Run(s, Pops(n)).byKey
    ensures Backlogged(s, Pops(n), k)
    decreases n
  {
    if n > 0 {
      assert Pops(n)[1..] == Pops(n - 1);
      SurvivesPops(Step(s, PopOp), n - 1, k);
    }
  }

  lemma SurvivesPush(s: LaneState, item: Item, k: Camera)
    requires k in s.byKey
    ensures Backlogged(s, [PushOp(item)], k)
  {
    assert [PushOp(item)][1..] == [];
    assert Backlogged(Step(s, PushOp(item)), [], k);
  }

  lemma StepBacklogged(cfg: Config, q: QueueState, op: QueueOp, p: nat, k: Camera)
    requires |q.lanes| == LEVELS && p < LEVELS && cfg.overflow != DropOldest && !op.CloseOp?
    requires k in q.lanes[p].byKey && k in StepQueue(cfg, q, op).lanes[p].byKey
    ensures Backlogged(q.lanes[p], LaneOps(cfg, q, op, p), k)
  {
    hide RawLane.Valid;
    hide Pop;
    hide AllItems;
    StepProjects(cfg, q, op, p);
    match op {
      case PutOp(item) => SurvivesPush(q.lanes[p], item, k);
      case DrainOp(maxRows, now) =>
        SurvivesPops(q.lanes[p], TurnsIn(q.lanes, Cut(cfg, Schedule(q.lanes), maxRows, now, 0), p), k);
    }
  }

  lemma {:induction false} PresentIsBacklogged(cfg: Config, q: QueueState, ops: seq<QueueOp>, p: nat, k: Camera)
    requires |q.lanes| == LEVELS && p < LEVELS && cfg.overflow != DropOldest && Present(cfg, q, ops, p, k)
    ensures NeverCloses(ops)
    ensures Backlogged(q.lanes[p], RunLaneOps(cfg, q, ops, p), k)
    decreases ops
  {
    hide RawLane.Valid;
    hide LaneOps;
    hide PutState;
    hide DrainState;
    if ops != [] {
      var r := StepQueue(cfg, q, ops[0]);
      PresentIsBacklogged(cfg, r, ops[1..], p, k);
      assert k in r.lanes[p].byKey;
      assert !ops[0].CloseOp?;
      StepBacklogged(cfg, q, ops[0], p, k);
      StepProjects(cfg, q, ops[0], p);
      BackloggedAppend(q.lanes[p], LaneOps(cfg, q, ops[0], p), RunLaneOps(cfg, r, ops[1..], p), k);
    }
  }

  /** The guarantee the queue exists for. Under the default policy, and under BLOCK: over every
      window of puts and batches in which camera `quiet` always has something queued in band `p`, no
      other camera, however loud, is served more than one item of that band more than `quiet` had
      turns, and `quiet`'s turns are its served items and the ones it let expire. */
  lemma LoudCameraCannotStarveQuiet(cfg: Config, q: QueueState, ops: seq<QueueOp>, p: nat, loud: Camera, quiet: Camera)
    requires Valid(q) && p < LEVELS && cfg.overflow != DropOldest
    requires loud != quiet && Present(cfg, q, ops, p, quiet)
    ensures TurnsTaken(cfg, q, ops, p, loud) <= TurnsTaken(cfg, q, ops, p, quiet) + 1
    ensures Served(cfg, q, ops, p, loud) <= Served(cfg, q, ops, p, quiet) + Discarded(cfg, q, ops, p, quiet) + 1
  {
    hide RawLane.Valid;
    PresentIsBacklogged(cfg, q, ops, p, quiet);
    CameraFairness(cfg, q, ops, p, loud, quiet);
  }

  // ----- two claims that do not hold as documented -----

  const CRITICAL := Item(1, 17, 0, 1, 0)
  const BACKGROUND := Item(2, 23, 3, 1, 0)

  /** A BACKGROUND request does displace a TRACKING_CRITICAL one when nothing else is queued. */
  lemma BackgroundDisplacesCritical()
    ensures
      var cfg := Config(1, DropOldest, true);
      var q := Enqueue(QueueState(NO_LANES, false, NO_COUNTS), CRITICAL);
      Valid(q) && PutResult(cfg, q) == Enqueued(Some(CRITICAL)) && BACKGROUND.priority > CRITICAL.priority
  {
    var idle := QueueState(NO_LANES, false, NO_COUNTS);
    var q := Enqueue(idle, CRITICAL);
    NonePlaced();
    EnqueuePlaced(idle, CRITICAL);
    NoItems();
    EnqueueItems(idle, CRITICAL);
    var k := FairnessKey(CRITICAL);
    assert q.lanes[0].keys == [] + [k] && q.lanes[0].byKey == map[k := [CRITICAL]];
    assert q.lanes[1].keys == [] && q.lanes[2].keys == [] && q.lanes[3].keys == [];
    assert LowestNonEmpty(q.lanes, 2) == Some(0);
    assert Victim(q.lanes[0]) == CRITICAL;
  }

  /** An open queue answers an empty batch when everything in it has expired. */
  lemma OpenQueueAnswersEmptyBatch()
    ensures
      var q := Enqueue(QueueState(NO_LANES, false, NO_COUNTS), Item(1, 17, 2, 1, 5));
      !q.closed && Drain(Config(8, Reject, true), q.lanes, 4, 6).batch == []
  {
    var cfg := Config(8, Reject, true);
    var late := Item(1, 17, 2, 1, 5);
    var idle := QueueState(NO_LANES, false, NO_COUNTS);
    NoItems();
    EnqueueItems(idle, late);
    EmptyBatchIffAllStale(cfg, Enqueue(idle, late).lanes, 4, 6);
  }
}
