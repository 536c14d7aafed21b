/** How far fairness between cameras reaches: exactly which configurations give every camera that
    stays queued its turns, and exactly which give it its share of what is served. */
module FairService {
  import opened Options
  import opened WorkItems
  import opened KeySeqs
  import opened Lanes
  import opened FairQueues
  import opened FairQueueRuns

  // A stretch of puts and batches on a queue within its capacity, over which camera `k` has
  // something queued in band `p` before and after every operation.
  ghost predicate Window(cfg: Config, q: QueueState, ops: seq<QueueOp>, p: nat, j: Camera, k: Camera) {
    && Valid(q) && Depth(q.lanes) <= cfg.capacity
    && p < LEVELS && j != k && Present(cfg, q, ops, p, k)
  }

  // No camera gets more than one turn more than one that stays queued.
  ghost predicate FairTurns(cfg: Config) {
    forall q, ops, p, j, k :: Window(cfg, q, ops, p, j, k) ==>
      TurnsTaken(cfg, q, ops, p, j) <= TurnsTaken(cfg, q, ops, p, k) + 1
  }

  // No camera is served more than one item more than one that stays queued.
  ghost predicate FairShares(cfg: Config) {
    forall q, ops, p, j, k :: Window(cfg, q, ops, p, j, k) ==>
      Served(cfg, q, ops, p, j) <= Served(cfg, q, ops, p, k) + 1
  }

  // ----- where it holds -----

  lemma {:induction false} NothingStale(cfg: Config, items: seq<Item>, now: int)
    requires !cfg.dropExpired
    ensures Keep(cfg, items, now, true) == []
  {
    if items != [] { NothingStale(cfg, items[1..], now); }
  }

  lemma CutTakesOne(cfg: Config, items: seq<Item>, maxRows: nat, now: int)
    ensures items != [] ==> Cut(cfg, items, maxRows, now, 0) >= 1
    ensures |items| >= 2 && Stale(cfg, items[0], now) ==> Cut(cfg, items, maxRows, now, 0) >= 2
  {
  }

  lemma ActiveIsQueued(lanes: seq<LaneState>, p: nat, k: Camera)
    requires p < |lanes| && k in lanes[p].byKey
    ensures Depth(lanes) >= 1
  {
    EmptyLane(lanes[p]);
    assert k in lanes[p].keys;
    var item :| item in Items(lanes[p]);
    AllItemsMember(lanes, item);
  }

  // What is left of a queue after a drain is what the drain did not reach.
  lemma DrainLeaves(cfg: Config, lanes: seq<LaneState>, maxRows: nat, now: int)
    ensures
      var items := Schedule(lanes);
      |items| == Depth(lanes) && Depth(Drain(cfg, lanes, maxRows, now).lanes) == |items| - Cut(cfg, items, maxRows, now, 0)
  {
    hide RawLane.Valid;
    hide Pop;
    hide AllItems;
    var n := Cut(cfg, Schedule(lanes), maxRows, now, 0);
    ScheduleItems(lanes);
    PopManySchedule(lanes, n);
    ScheduleItems(PopMany(lanes, n));
    assert |multiset(Schedule(lanes))| == |Schedule(lanes)|;
    assert |multiset(Schedule(PopMany(lanes, n)))| == |Schedule(PopMany(lanes, n))|;
  }

  // A camera that survives a drain of so short a queue had nothing of it discarded.
  lemma ShortQueueDrain(cfg: Config, lanes: seq<LaneState>, maxRows: nat, now: int, p: nat, k: Camera)
    requires p < |lanes| && Depth(lanes) <= 2 && k in Drain(cfg, lanes, maxRows, now).lanes[p].byKey
    ensures Drain(cfg, lanes, maxRows, now).expired == []
    ensures Depth(lanes) == 2
  {
    hide RawLane.Valid;
    hide Pop;
    hide AllItems;
    var items := Schedule(lanes);
    DrainLeaves(cfg, lanes, maxRows, now);
    ActiveIsQueued(Drain(cfg, lanes, maxRows, now).lanes, p, k);
    CutTakesOne(cfg, items, maxRows, now);
    var n := Cut(cfg, items, maxRows, now, 0);
    if n == 1 {
      assert items[..1] == [items[0]];
      KeepOne(cfg, items[0], now);
    }
  }

  lemma KeepOne(cfg: Config, item: Item, now: int)
    ensures Keep(cfg, [item], now, false) == if Stale(cfg, item, now) then [] else [item]
    ensures Keep(cfg, [item], now, true) == if Stale(cfg, item, now) then [item] else []
  {
    assert [item][1..] == [];
  }

  lemma {:induction false} DiscardsNothing(cfg: Config, q: QueueState, ops: seq<QueueOp>, p: nat, j: Camera, k: Camera)
    requires Window(cfg, q, ops, p, j, k) && (!cfg.dropExpired || cfg.capacity <= 2)
    ensures Discarded(cfg, q, ops, p, k) == 0
    decreases ops
  {
    hide RawLane.Valid;
    hide AllItems;
    hide PutState;
    hide PutFlow;
    hide Pop;
    if ops != [] {
      var r := StepQueue(cfg, q, ops[0]);
      StepBalanced(cfg, q, ops[0]);
      StepPlaced(cfg, q, ops[0]);
      DiscardsNothing(cfg, r, ops[1..], p, j, k);
      match ops[0] {
        case PutOp(item) => PutDiscardsNothing(cfg, q, item);
        case CloseOp =>
        case DrainOp(maxRows, now) =>
          assert k in r.lanes[p].byKey;
          if cfg.dropExpired {
            ShortQueueDrain(cfg, q.lanes, maxRows, now, p, k);
          } else {
            NothingStale(cfg, Schedule(q.lanes)[..Cut(cfg, Schedule(q.lanes), maxRows, now, 0)], now);
          }
      }
    }
  }

  lemma PutDiscardsNothing(cfg: Config, q: QueueState, item: Item)
    requires |q.lanes| == LEVELS
    ensures PutFlow(cfg, q, item).served == [] && PutFlow(cfg, q, item).expired == []
  {
  }

  // With one slot the camera that stays queued holds it, and every batch would empty the queue.
  lemma {:induction false} OneSlotNoTurns(cfg: Config, q: QueueState, ops: seq<QueueOp>, p: nat, j: Camera, k: Camera)
    requires Window(cfg, q, ops, p, j, k) && cfg.capacity <= 1
    ensures TurnsTaken(cfg, q, ops, p, j) == 0
    decreases ops
  {
    hide RawLane.Valid;
    hide AllItems;
    hide PutState;
    hide PutFlow;
    hide Pop;
    if ops != [] {
      var r := StepQueue(cfg, q, ops[0]);
      StepBalanced(cfg, q, ops[0]);
      StepPlaced(cfg, q, ops[0]);
      OneSlotNoTurns(cfg, r, ops[1..], p, j, k);
      match ops[0] {
        case PutOp(item) => PutDiscardsNothing(cfg, q, item);
        case CloseOp =>
        case DrainOp(maxRows, now) => ShortQueueDrain(cfg, q.lanes, maxRows, now, p, k);
      }
    }
  }

  // ----- where it fails: running the same round for ever -----

  // From `q`, `ops` leave the lanes at `end` with the queue open; `k` is queued throughout and
  // served nothing, `d` of its items expire, and `j` is served `n`, none of it expiring.
  ghost predicate Starves(cfg: Config, q: QueueState, ops: seq<QueueOp>, end: seq<LaneState>,
                          p: nat, j: Camera, k: Camera, n: nat, d: nat)
    requires |q.lanes| == LEVELS && p < LEVELS
  {
    && RunQueue(cfg, q, ops).lanes == end && !RunQueue(cfg, q, ops).closed
    && Present(cfg, q, ops, p, k)
    && Served(cfg, q, ops, p, k) == 0 && Discarded(cfg, q, ops, p, k) == d
    && Served(cfg, q, ops, p, j) == n && Discarded(cfg, q, ops, p, j) == 0
  }

  lemma {:induction false} StarvesJoin(cfg: Config, q: QueueState, a: seq<QueueOp>, b: seq<QueueOp>, mid: seq<LaneState>,
                                       end: seq<LaneState>, p: nat, j: Camera, k: Camera, n: nat, d: nat, n': nat, d': nat)
    requires |q.lanes| == LEVELS && p < LEVELS
    requires Starves(cfg, q, a, mid, p, j, k, n, d) && Starves(cfg, RunQueue(cfg, q, a), b, end, p, j, k, n', d')
    ensures Starves(cfg, q, a + b, end, p, j, k, n + n', d + d')
    decreases a
  {
    hide RawLane.Valid;
    hide StepQueue;
    hide FlowOf;
    if a == [] {
      assert a + b == b;
    } else {
      assert (a + b)[0] == a[0] && (a + b)[1..] == a[1..] + b;
      var r := StepQueue(cfg, q, a[0]);
      var f := FlowOf(cfg, q, a[0]);
      StarvesJoin(cfg, r, a[1..], b, mid, end, p, j, k,
                  n - CountIn(f.served, p, j), d - CountIn(f.expired, p, k), n', d');
    }
  }

  lemma StarvesStep(cfg: Config, q: QueueState, op: QueueOp, p: nat, j: Camera, k: Camera, n: nat, d: nat)
    requires |q.lanes| == LEVELS && p < LEVELS && !StepQueue(cfg, q, op).closed
    requires k in q.lanes[p].byKey && k in StepQueue(cfg, q, op).lanes[p].byKey
    requires CountIn(FlowOf(cfg, q, op).served, p, k) == 0 && CountIn(FlowOf(cfg, q, op).expired, p, k) == d
    requires CountIn(FlowOf(cfg, q, op).served, p, j) == n && CountIn(FlowOf(cfg, q, op).expired, p, j) == 0
    ensures Starves(cfg, q, [op], StepQueue(cfg, q, op).lanes, p, j, k, n, d)
  {
    hide RawLane.Valid;
    hide StepQueue;
    hide FlowOf;
    var r := StepQueue(cfg, q, op);
    var ops := [op];
    assert ops[1..] == [] && ops[0] == op;
    assert RunQueue(cfg, r, []) == r && Present(cfg, r, [], p, k);
    assert RunQueue(cfg, q, ops) == RunQueue(cfg, r, []);
    assert Present(cfg, q, ops, p, k);
    forall c: Camera ensures Served(cfg, q, ops, p, c) == CountIn(FlowOf(cfg, q, op).served, p, c)
      ensures Discarded(cfg, q, ops, p, c) == CountIn(FlowOf(cfg, q, op).expired, p, c)
    {
      assert Served(cfg, r, [], p, c) == 0 && Discarded(cfg, r, [], p, c) == 0;
    }
  }

  function Repeat(round: seq<QueueOp>, times: nat): seq<QueueOp> {
    if times == 0 then [] else round + Repeat(round, times - 1)
  }

  // As many expiries as `times` rounds of `d` make.
  function Expiries(times: nat, d: nat): nat {
    if times == 0 then 0 else d + Expiries(times - 1, d)
  }

  // From any open queue with these lanes, `round` serves `j` once, `k` not at all, and comes back.
  ghost predicate StarvingRound(cfg: Config, round: seq<QueueOp>, lanes: seq<LaneState>, p: nat, j: Camera, k: Camera, d: nat)
    requires |lanes| == LEVELS && p < LEVELS
  {
    k in lanes[p].byKey
    && forall counters :: Starves(cfg, QueueState(lanes, false, counters), round, lanes, p, j, k, 1, d)
  }

  lemma RoundLeads(cfg: Config, q: QueueState, round: seq<QueueOp>, lanes: seq<LaneState>, p: nat, j: Camera, k: Camera, d: nat)
    requires q.lanes == lanes && |lanes| == LEVELS && !q.closed && p < LEVELS && StarvingRound(cfg, round, lanes, p, j, k, d)
    ensures Starves(cfg, q, round, lanes, p, j, k, 1, d)
    ensures RunQueue(cfg, q, round).lanes == lanes && !RunQueue(cfg, q, round).closed
    ensures Starves(cfg, q, [], lanes, p, j, k, 0, 0)
  {
    hide RunQueue;
    hide Served;
    hide Discarded;
    assert q == QueueState(lanes, false, q.counters);
    NoOps(cfg, q, p, j, k);
  }

  lemma NoOps(cfg: Config, q: QueueState, p: nat, j: Camera, k: Camera)
    requires |q.lanes| == LEVELS && !q.closed && p < LEVELS && k in q.lanes[p].byKey
    ensures Starves(cfg, q, [], q.lanes, p, j, k, 0, 0)
  {
  }

  lemma {:induction false} StarvesForEver(cfg: Config, q: QueueState, round: seq<QueueOp>, lanes: seq<LaneState>,
                                          p: nat, j: Camera, k: Camera, d: nat, times: nat)
    requires q.lanes == lanes && |lanes| == LEVELS && !q.closed && p < LEVELS && StarvingRound(cfg, round, lanes, p, j, k, d)
    ensures Starves(cfg, q, Repeat(round, times), lanes, p, j, k, times, Expiries(times, d))
    decreases times
  {
    hide RawLane.Valid;
    hide StarvingRound;
    hide Starves;
    hide RunQueue;
    RoundLeads(cfg, q, round, lanes, p, j, k, d);
    if times > 0 {
      StarvesForEver(cfg, RunQueue(cfg, q, round), round, lanes, p, j, k, d, times - 1);
      StarvesJoin(cfg, q, round, Repeat(round, times - 1), lanes, lanes, p, j, k, 1, d, times - 1, Expiries(times - 1, d));
    }
  }

  const IDLE := QueueState(NO_LANES, false, NO_COUNTS)

  // A queue with only its most urgent band in use.
  function Solo(s: LaneState): (lanes: seq<LaneState>)
    ensures |lanes| == LEVELS && lanes[0] == s
  {
    NO_LANES[0 := s]
  }

  lemma SoloItems(s: LaneState)
    ensures AllItems(Solo(s)) == Items(s)
  {
    NoItems();
    EmptyItems();
    AllItemsUpdate(NO_LANES, 0, s);
    hide *;
    assert multiset{} + Items(s) == Items(s);
    assert AllItems(NO_LANES[0 := s]) + multiset{} == AllItems(NO_LANES[0 := s]);
  }

  // ----- eviction takes a camera's place -----

  function Single(c: Camera): Item { Item(c, c, 0, 1, 0) }

  ghost predicate Named(cams: seq<Camera>) {
    Distinct(cams) && NO_CAMERA !in cams
  }

  // One item of each camera, in this order.
  function Singles(cams: seq<Camera>): LaneState
    requires Named(cams)
  {
    RawLane(map c | c in cams :: [Single(c)], cams, cams)
  }

  lemma SinglesPop(cams: seq<Camera>)
    requires Named(cams) && cams != []
    ensures Named(cams[1..]) && Pop(Singles(cams)) == Singles(cams[1..]) && Peek(Singles(cams)) == Single(cams[0])
  {
    assert cams[0] in cams;
    assert Remove(cams, cams[0]) == cams[1..];
    assert forall c :: c in cams <==> c == cams[0] || c in cams[1..];
    assert (map c | c in cams :: [Single(c)]) - {cams[0]} == map c | c in cams[1..] :: [Single(c)];
  }

  lemma SinglesEvict(cams: seq<Camera>)
    requires Named(cams) && cams != []
    ensures Named(cams[1..]) && Evict(Singles(cams)) == Singles(cams[1..]) && Victim(Singles(cams)) == Single(cams[0])
  {
    assert cams[0] in cams;
    assert Remove(cams, cams[0]) == cams[1..];
    assert forall c :: c in cams <==> c == cams[0] || c in cams[1..];
    assert (map c | c in cams :: [Single(c)]) - {cams[0]} == map c | c in cams[1..] :: [Single(c)];
    assert Hog(Singles(cams)) == cams[0];
  }

  lemma SinglesPush(cams: seq<Camera>, c: Camera)
    requires Named(cams) && c !in cams && c != NO_CAMERA
    ensures Named(cams + [c]) && Push(Singles(cams), Single(c)) == Singles(cams + [c])
  {
    assert Push(Singles(cams), Single(c)).byKey == map x | x in cams + [c] :: [Single(x)];
  }

  lemma {:induction false} SinglesDepth(cams: seq<Camera>)
    requires Named(cams)
    ensures Depth(Solo(Singles(cams))) == |cams|
  {
    SoloItems(Singles(cams));
    if cams == [] {
      EmptyLane(Singles(cams));
    } else {
      SinglesPop(cams);
      PopItems(Singles(cams));
      SinglesDepth(cams[1..]);
      SoloItems(Singles(cams[1..]));
    }
  }

  // Where everything queued is in the first band, an overflowing put replaces that band's victim.
  lemma FullPut(cfg: Config, q: QueueState, s: LaneState, item: Item)
    requires q.lanes == Solo(s) && !q.closed && s.keys != [] && item.priority == 0
    requires cfg.overflow == DropOldest && Depth(q.lanes) >= cfg.capacity
    ensures
      var r := StepQueue(cfg, q, PutOp(item));
      r.lanes == Solo(Push(Evict(s), item)) && !r.closed
  {
    hide Depth;
    hide Push;
    hide Evict;
    hide Victim;
    hide RawLane.Valid;
    assert q.lanes[1].keys == [] && q.lanes[2].keys == [] && q.lanes[3].keys == [];
    assert LowestNonEmpty(q.lanes, 2) == Some(0);
    var r := EvictLane(q, 0);
    assert PutState(cfg, q, item) == Enqueue(r, item);
  }

  // A full queue of single items gives up the camera at the front for the one being put.
  lemma PutRotates(cfg: Config, q: QueueState, cams: seq<Camera>)
    requires Named(cams) && cams != [] && q.lanes == Solo(Singles(cams)) && !q.closed
    requires cfg.overflow == DropOldest && cfg.capacity == |cams|
    ensures Named(cams[1..] + [cams[0]])
    ensures
      var r := StepQueue(cfg, q, PutOp(Single(cams[0])));
      r.lanes == Solo(Singles(cams[1..] + [cams[0]])) && !r.closed
  {
    SinglesDepth(cams);
    SinglesEvict(cams);
    SinglesPush(cams[1..], cams[0]);
    FullPut(cfg, q, Singles(cams), Single(cams[0]));
    hide *;
  }

  lemma PutAppends(cfg: Config, q: QueueState, cams: seq<Camera>, c: Camera)
    requires Named(cams) && c !in cams && c != NO_CAMERA && q.lanes == Solo(Singles(cams)) && !q.closed
    requires cfg.capacity > |cams|
    ensures Named(cams + [c])
    ensures
      var r := StepQueue(cfg, q, PutOp(Single(c)));
      r.lanes == Solo(Singles(cams + [c])) && !r.closed
  {
    SinglesDepth(cams);
    SinglesPush(cams, c);
    hide Depth;
    hide Push;
    hide RawLane.Valid;
  }

  // A batch of one row takes the item the schedule starts with, when it is fresh.
  lemma DrainOneRow(cfg: Config, lanes: seq<LaneState>, now: int)
    requires First(lanes, 0).Some? && RowsOf(Head(lanes)) == 1 && !Stale(cfg, Head(lanes), now)
    ensures Drain(cfg, lanes, 1, now) == Drained(PopFirst(lanes), [Head(lanes)], [])
  {
    hide RawLane.Valid;
    hide Pop;
    hide AllItems;
    var items := Schedule(lanes);
    assert items[0] == Head(lanes);
    assert Cut(cfg, items, 1, now, 0) == 1;
    assert items[..1] == [Head(lanes)];
    KeepOne(cfg, Head(lanes), now);
    assert PopMany(lanes, 1) == PopMany(PopFirst(lanes), 0);
  }

  lemma DrainSingle(cfg: Config, cams: seq<Camera>)
    requires Named(cams) && cams != []
    ensures Named(cams[1..])
    ensures Drain(cfg, Solo(Singles(cams)), 1, 0) == Drained(Solo(Singles(cams[1..])), [Single(cams[0])], [])
  {
    SinglesPop(cams);
    var s := Singles(cams);
    hide Singles;
    SoloFirst(s);
    DrainOneRow(cfg, Solo(s), 0);
  }

  lemma SoloFirst(s: LaneState)
    requires s.order != []
    ensures First(Solo(s), 0) == Some(0) && Head(Solo(s)) == Peek(s) && PopFirst(Solo(s)) == Solo(Pop(s))
  {
    hide Pop;
    hide Peek;
    hide RawLane.Valid;
  }

  function Puts(cams: seq<Camera>): seq<QueueOp> {
    if cams == [] then [] else [PutOp(Single(cams[0]))] + Puts(cams[1..])
  }

  // Putting a full queue's cameras again, front first, turns it round without serving anybody.
  lemma {:induction false} PutsRotate(cfg: Config, q: QueueState, front: seq<Camera>, back: seq<Camera>, j: Camera, k: Camera)
    requires Named(front + back) && q.lanes == Solo(Singles(front + back)) && !q.closed
    requires cfg.overflow == DropOldest && cfg.capacity == |front + back| && k in front + back
    ensures Named(back + front) && Starves(cfg, q, Puts(front), Solo(Singles(back + front)), 0, j, k, 0, 0)
    decreases front
  {
    hide RawLane.Valid;
    hide StepQueue;
    hide FlowOf;
    if front == [] {
      assert front + back == back == back + front;
      NoOps(cfg, q, 0, j, k);
    } else {
      var op, next := PutOp(Single(front[0])), front[1..] + (back + [front[0]]);
      RotateOne(cfg, q, front, back, j, k);
      RunQueueOne(cfg, q, op);
      hide RunQueue;
      hide Starves;
      hide Singles;
      hide Named;
      var r := StepQueue(cfg, q, op);
      PutsRotate(cfg, r, front[1..], back + [front[0]], j, k);
      assert (back + [front[0]]) + front[1..] == back + front;
      StarvesJoin(cfg, q, [op], Puts(front[1..]), r.lanes, Solo(Singles(back + front)), 0, j, k, 0, 0, 0, 0);
    }
  }

  lemma RotateOne(cfg: Config, q: QueueState, front: seq<Camera>, back: seq<Camera>, j: Camera, k: Camera)
    requires front != [] && Named(front + back) && q.lanes == Solo(Singles(front + back)) && !q.closed
    requires cfg.overflow == DropOldest && cfg.capacity == |front + back| && k in front + back
    ensures
      var next, op := front[1..] + (back + [front[0]]), PutOp(Single(front[0]));
      var r := StepQueue(cfg, q, op);
      && Named(next) && k in next && |next| == |front + back|
      && r.lanes == Solo(Singles(next)) && !r.closed && Starves(cfg, q, [op], r.lanes, 0, j, k, 0, 0)
  {
    hide RawLane.Valid;
    hide StepQueue;
    hide FlowOf;
    hide Starves;
    var cams := front + back;
    PutRotates(cfg, q, cams);
    assert cams[1..] + [cams[0]] == front[1..] + (back + [front[0]]);
    assert k in cams[1..] + [cams[0]];
    PutServesNobody(cfg, q, Single(cams[0]), 0, j, k);
  }

  lemma PutServesNobody(cfg: Config, q: QueueState, item: Item, p: nat, j: Camera, k: Camera)
    requires |q.lanes| == LEVELS && p < LEVELS && !StepQueue(cfg, q, PutOp(item)).closed
    requires k in q.lanes[p].byKey && k in StepQueue(cfg, q, PutOp(item)).lanes[p].byKey
    ensures Starves(cfg, q, [PutOp(item)], StepQueue(cfg, q, PutOp(item)).lanes, p, j, k, 0, 0)
  {
    hide RawLane.Valid;
    hide StepQueue;
    hide PutFlow;
    PutDiscardsNothing(cfg, q, item);
    StarvesStep(cfg, q, PutOp(item), p, j, k, 0, 0);
  }

  // Cameras 2, 3, 4 and so on, as many as the queue holds.
  function Crowd(n: nat): (cams: seq<Camera>)
    ensures |cams| == n && Named(cams)
  {
    seq(n, i => i + 2)
  }

  lemma {:induction false} FillsUp(cfg: Config, q: QueueState, queued: seq<Camera>, cams: seq<Camera>)
    requires Named(queued + cams) && |queued + cams| <= cfg.capacity
    requires Named(queued) && q.lanes == Solo(Singles(queued)) && !q.closed
    ensures RunQueue(cfg, q, Puts(cams)).lanes == Solo(Singles(queued + cams)) && !RunQueue(cfg, q, Puts(cams)).closed
    decreases cams
  {
    hide RawLane.Valid;
    hide StepQueue;
    if cams == [] {
      assert queued + cams == queued;
    } else {
      assert (queued + cams)[|queued|] == cams[0];
      assert cams[0] in queued + cams;
      forall i | 0 <= i < |queued| ensures queued[i] != cams[0] { assert (queued + cams)[i] == queued[i]; }
      PutAppends(cfg, q, queued, cams[0]);
      assert (queued + [cams[0]]) + cams[1..] == queued + cams;
      FillsUp(cfg, StepQueue(cfg, q, PutOp(Single(cams[0]))), queued + [cams[0]], cams[1..]);
    }
  }

  // The round: one row is served, then every camera puts a frame, the one served first.
  function EvictionRound(n: nat): seq<QueueOp> {
    [DrainOp(1, 0)] + Puts(Crowd(n))
  }

  lemma CrowdTurns(n: nat)
    requires n >= 2
    ensures var cams := Crowd(n);
      && cams[0] == 2 && cams[1] == 3 && 3 in cams[1..] && 2 !in cams[1..]
      && Named(cams[1..]) && Named(cams[1..] + [2]) && [2] + cams[1..] == cams
  {
    var cams := Crowd(n);
    assert cams[1..][0] == 3;
  }

  lemma EvictionDrain(cfg: Config, q: QueueState, cams: seq<Camera>)
    requires Named(cams) && |cams| >= 2 && cams[0] == 2 && cams[1] == 3
    requires q.lanes == Solo(Singles(cams)) && !q.closed
    ensures Named(cams[1..]) && Starves(cfg, q, [DrainOp(1, 0)], Solo(Singles(cams[1..])), 0, 2, 3, 1, 0)
  {
    DrainSingle(cfg, cams);
    assert 3 in cams && cams[1..][0] == 3 && 3 in cams[1..];
    hide RawLane.Valid;
    hide Drain;
    hide Schedule;
    var r := StepQueue(cfg, q, DrainOp(1, 0));
    assert CountIn([Single(2)], 0, 2) == 1 && CountIn([Single(2)], 0, 3) == 0 by { assert [Single(2)][1..] == []; }
    StarvesStep(cfg, q, DrainOp(1, 0), 0, 2, 3, 1, 0);
  }

  lemma EvictionPut(cfg: Config, q: QueueState, rest: seq<Camera>)
    requires Named(rest) && 2 !in rest && 3 in rest && cfg.capacity > |rest|
    requires q.lanes == Solo(Singles(rest)) && !q.closed
    ensures Named(rest + [2]) && Starves(cfg, q, [PutOp(Single(2))], Solo(Singles(rest + [2])), 0, 2, 3, 0, 0)
  {
    hide RawLane.Valid;
    hide StepQueue;
    PutAppends(cfg, q, rest, 2);
    assert 3 in rest + [2];
    PutServesNobody(cfg, q, Single(2), 0, 2, 3);
  }

  lemma StarvesEnds(cfg: Config, q: QueueState, ops: seq<QueueOp>, end: seq<LaneState>, p: nat, j: Camera, k: Camera, n: nat, d: nat)
    requires |q.lanes| == LEVELS && p < LEVELS && Starves(cfg, q, ops, end, p, j, k, n, d)
    ensures RunQueue(cfg, q, ops).lanes == end && !RunQueue(cfg, q, ops).closed
  {
  }

  lemma EvictionRoundStarves(cfg: Config, q: QueueState)
    requires cfg.overflow == DropOldest && cfg.capacity >= 2
    requires q.lanes == Solo(Singles(Crowd(cfg.capacity))) && !q.closed
    ensures Starves(cfg, q, EvictionRound(cfg.capacity), q.lanes, 0, 2, 3, 1, 0)
  {
    hide Starves;
    hide Singles;
    hide Named;
    hide RunQueue;
    hide RawLane.Valid;
    var cams := Crowd(cfg.capacity);
    var rest := cams[1..];
    CrowdTurns(cfg.capacity);
    var drain, put := DrainOp(1, 0), PutOp(Single(2));
    EvictionDrain(cfg, q, cams);
    StarvesEnds(cfg, q, [drain], Solo(Singles(rest)), 0, 2, 3, 1, 0);
    var r := RunQueue(cfg, q, [drain]);
    EvictionPut(cfg, r, rest);
    StarvesEnds(cfg, r, [put], Solo(Singles(rest + [2])), 0, 2, 3, 0, 0);
    var t := RunQueue(cfg, r, [put]);
    assert 3 in rest + [2];
    PutsRotate(cfg, t, rest, [2], 2, 3);
    StarvesJoin(cfg, r, [put], Puts(rest), t.lanes, q.lanes, 0, 2, 3, 0, 0, 0, 0);
    StarvesJoin(cfg, q, [drain], [put] + Puts(rest), r.lanes, q.lanes, 0, 2, 3, 1, 0, 0, 0);
    assert Puts(cams) == [put] + Puts(rest);
  }

  lemma RunQueueOne(cfg: Config, q: QueueState, op: QueueOp)
    requires |q.lanes| == LEVELS
    ensures RunQueue(cfg, q, [op]) == StepQueue(cfg, q, op)
  {
    hide StepQueue;
    assert [op][1..] == [];
    assert RunQueue(cfg, StepQueue(cfg, q, op), []) == StepQueue(cfg, q, op);
  }

  /** Under DROP_OLDEST with two slots or more, a camera that has something queued before and after
      every operation can be passed over for ever: each put of its own evicts its only item and sends
      it to the back. From a queue filled by puts, `times` rounds serve another camera `times` items
      and this one none. */
  lemma EvictionStarves(cfg: Config, times: nat)
    requires cfg.overflow == DropOldest && cfg.capacity >= 2
    ensures
      var q := RunQueue(cfg, IDLE, Puts(Crowd(cfg.capacity)));
      var ops := Repeat(EvictionRound(cfg.capacity), times);
      && Window(cfg, q, ops, 0, 2, 3)
      && TurnsTaken(cfg, q, ops, 0, 3) == 0 && Served(cfg, q, ops, 0, 2) == times
  {
    var cams := Crowd(cfg.capacity);
    var q := RunQueue(cfg, IDLE, Puts(cams));
    assert Singles([]) == EMPTY;
    assert [] + cams == cams;
    FillsUp(cfg, IDLE, [], cams);
    IdleRuns(cfg, Puts(cams));
    var lanes := Solo(Singles(cams));
    SinglesDepth(cams);
    hide StepQueue;
    hide Depth;
    forall counters ensures Starves(cfg, QueueState(lanes, false, counters), EvictionRound(cfg.capacity), lanes, 0, 2, 3, 1, 0) {
      EvictionRoundStarves(cfg, QueueState(lanes, false, counters));
    }
    CrowdTurns(cfg.capacity);
    assert 3 in cams;
    StarvesForEver(cfg, q, EvictionRound(cfg.capacity), lanes, 0, 2, 3, 0, times);
    NoExpiries(times);
  }

  lemma {:induction false} NoExpiries(times: nat)
    ensures Expiries(times, 0) == 0
  {
    if times > 0 { NoExpiries(times - 1); }
  }

  lemma {:induction false} StaysPlaced(cfg: Config, q: QueueState, ops: seq<QueueOp>)
    requires Valid(q)
    ensures Valid(RunQueue(cfg, q, ops))
    decreases ops
  {
    hide StepQueue;
    hide WellPlaced;
    if ops != [] {
      StepPlaced(cfg, q, ops[0]);
      StaysPlaced(cfg, StepQueue(cfg, q, ops[0]), ops[1..]);
    }
  }

  lemma IdleRuns(cfg: Config, ops: seq<QueueOp>)
    ensures Valid(RunQueue(cfg, IDLE, ops))
  {
    NonePlaced();
    StaysPlaced(cfg, IDLE, ops);
  }

  // ----- an expired item costs its camera a turn -----

  // A frame of camera 3 that has expired by time 6, and one of camera 2 that never does.
  const LATE := Item(1, 3, 0, 1, 5)
  const FRESH := Item(2, 2, 0, 1, 0)

  const ONE_LATE: LaneState := RawLane(map[3 := [LATE]], [3], [3])
  const TWO_LATE: LaneState := RawLane(map[3 := [LATE, LATE]], [3], [3])
  const BOTH: LaneState := RawLane(map[3 := [LATE, LATE], 2 := [FRESH]], [3, 2], [3, 2])

  const EXPIRY_ROUND: seq<QueueOp> := [DrainOp(1, 6)] + ([PutOp(LATE)] + [PutOp(FRESH)])

  lemma LatePushes()
    ensures Push(EMPTY, LATE) == ONE_LATE && Push(ONE_LATE, LATE) == TWO_LATE && Push(TWO_LATE, FRESH) == BOTH
    ensures Depth(NO_LANES) == 0 && Depth(Solo(ONE_LATE)) == 1 && Depth(Solo(TWO_LATE)) == 2 && Depth(Solo(BOTH)) == 3
  {
    assert [] + [3] == [3];
    assert Push(EMPTY, LATE) == ONE_LATE;
    assert [LATE] + [LATE] == [LATE, LATE];
    assert Push(ONE_LATE, LATE) == TWO_LATE;
    assert [3] + [2] == [3, 2];
    assert Push(TWO_LATE, FRESH) == BOTH;
    NoItems();
    EmptyItems();
    SoloItems(ONE_LATE);
    SoloItems(TWO_LATE);
    SoloItems(BOTH);
    PushItems(EMPTY, LATE);
    PushItems(ONE_LATE, LATE);
    PushItems(TWO_LATE, FRESH);
  }

  const MID: LaneState := RawLane(map[3 := [LATE], 2 := [FRESH]], [3, 2], [2, 3])

  lemma LatePops()
    ensures Pop(BOTH) == MID && Peek(BOTH) == LATE && Pop(MID) == ONE_LATE && Peek(MID) == FRESH
  {
    LatePop();
    FreshPop();
  }

  lemma LatePop()
    ensures Pop(BOTH) == MID && Peek(BOTH) == LATE
  {
    assert [LATE, LATE][1..] == [LATE] && [3, 2][1..] + [3] == [2, 3];
    assert BOTH.byKey[3 := [LATE]] == MID.byKey;
  }

  lemma FreshPop()
    ensures Pop(MID) == ONE_LATE && Peek(MID) == FRESH
  {
    assert Remove([3, 2], 2) == [3] && [2, 3][1..] == [3];
    assert MID.byKey - {2} == ONE_LATE.byKey;
  }

  lemma LateSchedule()
    ensures First(Solo(BOTH), 0) == Some(0) && First(Solo(MID), 0) == Some(0)
    ensures PopFirst(Solo(BOTH)) == Solo(MID) && PopFirst(Solo(MID)) == Solo(ONE_LATE)
    ensures |Schedule(Solo(BOTH))| >= 2 && Schedule(Solo(BOTH))[..2] == [LATE] + [FRESH]
  {
    LatePops();
    hide Pop;
    hide Peek;
    hide RawLane.Valid;
    hide AllItems;
    var lanes := Solo(BOTH);
    assert First(lanes, 0) == Some(0) && First(Solo(MID), 0) == Some(0);
    assert PopFirst(lanes) == Solo(MID) && PopFirst(Solo(MID)) == Solo(ONE_LATE);
    assert Schedule(Solo(MID)) == [FRESH] + Schedule(Solo(ONE_LATE));
    assert Schedule(lanes) == [LATE] + Schedule(Solo(MID));
  }

  lemma LateCut(cfg: Config, items: seq<Item>)
    requires cfg.dropExpired && |items| >= 2 && items[..2] == [LATE] + [FRESH]
    ensures Cut(cfg, items, 1, 6, 0) == 2
    ensures Keep(cfg, items[..2], 6, false) == [FRESH] && Keep(cfg, items[..2], 6, true) == [LATE]
  {
    assert items[0] == items[..2][0] == LATE && items[1] == items[..2][1] == FRESH;
    assert Cut(cfg, items[1..], 1, 6, 0) == 1;
    KeepOne(cfg, LATE, 6);
    KeepNext(cfg, [LATE], FRESH, 6, false);
    KeepNext(cfg, [LATE], FRESH, 6, true);
  }

  lemma LateDrain(cfg: Config)
    requires cfg.dropExpired
    ensures Drain(cfg, Solo(BOTH), 1, 6) == Drained(Solo(ONE_LATE), [FRESH], [LATE])
  {
    LateSchedule();
    LateCut(cfg, Schedule(Solo(BOTH)));
    hide PopFirst;
    hide First;
    hide Schedule;
    hide RawLane.Valid;
    assert PopMany(Solo(BOTH), 2) == PopMany(Solo(MID), 1);
    assert PopMany(Solo(MID), 1) == PopMany(Solo(ONE_LATE), 0);
  }

  lemma RoomyPut(cfg: Config, q: QueueState, s: LaneState, item: Item)
    requires q.lanes == Solo(s) && !q.closed && Depth(q.lanes) < cfg.capacity && item.priority == 0
    ensures StepQueue(cfg, q, PutOp(item)).lanes == Solo(Push(s, item)) && !StepQueue(cfg, q, PutOp(item)).closed
  {
    hide Push;
    hide Depth;
    hide RawLane.Valid;
  }

  lemma ExpiryDrain(cfg: Config, q: QueueState)
    requires cfg.dropExpired && q.lanes == Solo(BOTH) && !q.closed
    ensures Starves(cfg, q, [DrainOp(1, 6)], Solo(ONE_LATE), 0, 2, 3, 1, 1)
  {
    LateDrain(cfg);
    hide RawLane.Valid;
    hide Drain;
    hide Schedule;
    assert [FRESH][1..] == [] && [LATE][1..] == [];
    assert CountIn([FRESH], 0, 2) == 1 && CountIn([FRESH], 0, 3) == 0;
    assert CountIn([LATE], 0, 3) == 1 && CountIn([LATE], 0, 2) == 0;
    StarvesStep(cfg, q, DrainOp(1, 6), 0, 2, 3, 1, 1);
  }

  lemma LatePut(cfg: Config, q: QueueState, s: LaneState, item: Item)
    requires q.lanes == Solo(s) && !q.closed && Depth(q.lanes) < cfg.capacity && item.priority == 0
    requires 3 in s.byKey && 3 in Push(s, item).byKey
    ensures Starves(cfg, q, [PutOp(item)], Solo(Push(s, item)), 0, 2, 3, 0, 0)
  {
    hide RawLane.Valid;
    hide StepQueue;
    hide Push;
    RoomyPut(cfg, q, s, item);
    PutServesNobody(cfg, q, item, 0, 2, 3);
  }

  lemma ExpiryRoundStarves(cfg: Config, q: QueueState)
    requires cfg.dropExpired && cfg.capacity >= 3 && q.lanes == Solo(BOTH) && !q.closed
    ensures Starves(cfg, q, EXPIRY_ROUND, q.lanes, 0, 2, 3, 1, 1)
  {
    LatePushes();
    hide Starves;
    hide RunQueue;
    hide Push;
    hide Depth;
    hide RawLane.Valid;
    var drain, late, young := DrainOp(1, 6), PutOp(LATE), PutOp(FRESH);
    ExpiryDrain(cfg, q);
    StarvesEnds(cfg, q, [drain], Solo(ONE_LATE), 0, 2, 3, 1, 1);
    var r := RunQueue(cfg, q, [drain]);
    LatePut(cfg, r, ONE_LATE, LATE);
    StarvesEnds(cfg, r, [late], Solo(TWO_LATE), 0, 2, 3, 0, 0);
    var t := RunQueue(cfg, r, [late]);
    LatePut(cfg, t, TWO_LATE, FRESH);
    StarvesJoin(cfg, r, [late], [young], t.lanes, q.lanes, 0, 2, 3, 0, 0, 0, 0);
    StarvesJoin(cfg, q, [drain], [late] + [young], r.lanes, q.lanes, 0, 2, 3, 1, 1, 0, 0);
  }

  /** Where expired items are dropped and the queue holds three or more, a camera that always has
      something queued can be served nothing for ever: its turns go to items that have expired. From
      a queue filled by puts, `times` rounds serve another camera `times` items and this one none. */
  lemma ExpiryStarves(cfg: Config, times: nat)
    requires cfg.dropExpired && cfg.capacity >= 3
    ensures
      var q := RunQueue(cfg, IDLE, [PutOp(LATE)] + ([PutOp(LATE)] + [PutOp(FRESH)]));
      var ops := Repeat(EXPIRY_ROUND, times);
      && Window(cfg, q, ops, 0, 2, 3)
      && Served(cfg, q, ops, 0, 3) == 0 && Served(cfg, q, ops, 0, 2) == times
  {
    var filling := [PutOp(LATE)] + ([PutOp(LATE)] + [PutOp(FRESH)]);
    var q := RunQueue(cfg, IDLE, filling);
    FilledLate(cfg);
    IdleRuns(cfg, filling);
    LatePushes();
    hide StepQueue;
    hide Depth;
    var lanes := Solo(BOTH);
    forall counters ensures Starves(cfg, QueueState(lanes, false, counters), EXPIRY_ROUND, lanes, 0, 2, 3, 1, 1) {
      ExpiryRoundStarves(cfg, QueueState(lanes, false, counters));
    }
    StarvesForEver(cfg, q, EXPIRY_ROUND, lanes, 0, 2, 3, 1, times);
  }

  lemma FilledLate(cfg: Config)
    requires cfg.capacity >= 3
    ensures
      var q := RunQueue(cfg, IDLE, [PutOp(LATE)] + ([PutOp(LATE)] + [PutOp(FRESH)]));
      q.lanes == Solo(BOTH) && !q.closed
  {
    LatePushes();
    hide RawLane.Valid;
    hide Depth;
    hide Push;
    assert NO_LANES == Solo(EMPTY);
    RoomyPut(cfg, IDLE, EMPTY, LATE);
    var r := StepQueue(cfg, IDLE, PutOp(LATE));
    RoomyPut(cfg, r, ONE_LATE, LATE);
    var t := StepQueue(cfg, r, PutOp(LATE));
    RoomyPut(cfg, t, TWO_LATE, FRESH);
    RunQueueOne(cfg, t, PutOp(FRESH));
    hide StepQueue;
    var tail := [PutOp(LATE)] + [PutOp(FRESH)];
    assert tail[1..] == [PutOp(FRESH)] && ([PutOp(LATE)] + tail)[1..] == tail;
    assert RunQueue(cfg, r, tail) == RunQueue(cfg, t, [PutOp(FRESH)]);
  }

  // ----- the exact conditions -----

  /** Turns are shared within one, over every window, exactly where a put cannot take a queued
      camera's place: unless the policy is DROP_OLDEST with two slots or more. */
  lemma FairTurnsIff(cfg: Config)
    ensures FairTurns(cfg) <==> cfg.overflow != DropOldest || cfg.capacity <= 1
  {
    hide RawLane.Valid;
    hide Present;
    hide RunQueue;
    hide WellPlaced;
    hide Depth;
    if cfg.overflow != DropOldest || cfg.capacity <= 1 {
      forall q, ops, p, j, k | Window(cfg, q, ops, p, j, k)
        ensures TurnsTaken(cfg, q, ops, p, j) <= TurnsTaken(cfg, q, ops, p, k) + 1
      {
        if cfg.capacity <= 1 {
          OneSlotNoTurns(cfg, q, ops, p, j, k);
        } else {
          LoudCameraCannotStarveQuiet(cfg, q, ops, p, j, k);
        }
      }
    } else {
      EvictionStarves(cfg, 2);
    }
  }

  /** What is served is shared within one, over every window, exactly where moreover no drain can
      spend a queued camera's turn on an expired item: expired items are kept, or there are two slots. */
  lemma FairSharesIff(cfg: Config)
    ensures FairShares(cfg) <==>
      cfg.capacity <= 1 || (cfg.overflow != DropOldest && (!cfg.dropExpired || cfg.capacity <= 2))
  {
    hide RawLane.Valid;
    hide Present;
    hide RunQueue;
    hide WellPlaced;
    hide Depth;
    if cfg.capacity <= 1 || (cfg.overflow != DropOldest && (!cfg.dropExpired || cfg.capacity <= 2)) {
      forall q, ops, p, j, k | Window(cfg, q, ops, p, j, k)
        ensures Served(cfg, q, ops, p, j) <= Served(cfg, q, ops, p, k) + 1
      {
        if cfg.capacity <= 1 {
          OneSlotNoTurns(cfg, q, ops, p, j, k);
        } else {
          LoudCameraCannotStarveQuiet(cfg, q, ops, p, j, k);
          DiscardsNothing(cfg, q, ops, p, j, k);
        }
      }
    } else if cfg.overflow == DropOldest {
      EvictionStarves(cfg, 2);
    } else {
      ExpiryStarves(cfg, 2);
    }
  }
}
