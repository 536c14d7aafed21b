/** The unit of work that travels through the scheduler: a request as the queue sees it. */
module WorkItems {

  // Lower value is served first: TRACKING_CRITICAL, HIGH, NORMAL, BACKGROUND.
  type Priority = p: nat | p < 4 witness 0

  const LEVELS: nat := 4

  // Camera ids are only ever compared for equality, so they are numbers here. The empty id and
  // the shared bucket "-" of callers without a camera are two of them.
  type Camera = nat

  const NO_CAMERA: Camera := 0
  const SHARED: Camera := 1

  // `deadline == 0` means no deadline, and `batchSize == 0` a request without inputs.
  datatype Item = Item(id: nat, camera: Camera, priority: Priority, batchSize: nat, deadline: nat)

  // The identity fairness is measured against; callers without a camera share one bucket.
  function FairnessKey(item: Item): Camera {
    if item.camera == NO_CAMERA then SHARED else item.camera
  }

  // An item is charged at least one row of a batch.
  function RowsOf(item: Item): (rows: nat)
    ensures rows >= 1
  {
    if item.batchSize == 0 then 1 else item.batchSize
  }

  predicate Expired(item: Item, now: int) {
    item.deadline != 0 && now > item.deadline
  }
}

/** Sequences of distinct keys: removal, position and relative order. */
module KeySeqs {

  ghost predicate Distinct<T>(s: seq<T>) {
    forall i, j :: 0 <= i < j < |s| ==> s[i] != s[j]
  }

  // Drops the first occurrence of `k`, keeping everything else in order.
  function Remove<T(==)>(s: seq<T>, k: T): (r: seq<T>)
    ensures |r| <= |s|
  {
    if s == [] then [] else if s[0] == k then s[1..] else [s[0]] + Remove(s[1..], k)
  }

  lemma {:induction false} RemoveMembers<T>(s: seq<T>, k: T)
    requires Distinct(s)
    ensures Distinct(Remove(s, k))
    ensures forall x :: x in Remove(s, k) <==> x in s && x != k
    ensures k in s ==> |Remove(s, k)| == |s| - 1
  {
    if s != [] {
      assert forall x :: x in s <==> x == s[0] || x in s[1..];
      if s[0] != k {
        RemoveMembers(s[1..], k);
        var r := Remove(s[1..], k);
        assert forall x :: x in [s[0]] + r <==> x == s[0] || x in r;
        assert s[0] !in s[1..];
        forall i, j | 0 <= i < j < |r| + 1 ensures ([s[0]] + r)[i] != ([s[0]] + r)[j] {
          assert r[j - 1] in r;
        }
      }
    }
  }

  // Where `k` first occurs in `s`, or `|s|`.
  function IndexOf<T(==)>(s: seq<T>, k: T): (i: nat)
    ensures i <= |s|
    ensures k in s <==> i < |s|
    ensures i < |s| ==> s[i] == k
  {
    if s == [] || s[0] == k then 0 else 1 + IndexOf(s[1..], k)
  }

  // `j` occurs in `s` before any `k`.
  predicate Ahead<T(==)>(s: seq<T>, j: T, k: T) {
    s != [] && s[0] != k && (s[0] == j || Ahead(s[1..], j, k))
  }

  lemma {:induction false} AheadAppend<T>(s: seq<T>, x: T, j: T, k: T)
    requires k in s
    ensures Ahead(s + [x], j, k) == Ahead(s, j, k)
    ensures IndexOf(s + [x], k) == IndexOf(s, k)
  {
    if s[0] != k {
      assert (s + [x])[1..] == s[1..] + [x];
      AheadAppend(s[1..], x, j, k);
    }
  }

  lemma {:induction false} AheadRemove<T>(s: seq<T>, x: T, j: T, k: T)
    requires x != k
    ensures Ahead(Remove(s, x), j, k) ==> Ahead(s, j, k)
    ensures k in s ==> IndexOf(Remove(s, x), k) <= IndexOf(s, k)
  {
    if s != [] && s[0] != x {
      AheadRemove(s[1..], x, j, k);
      assert ([s[0]] + Remove(s[1..], x))[1..] == Remove(s[1..], x);
    }
  }

  lemma {:induction false} AheadIsMember<T>(s: seq<T>, j: T, k: T)
    ensures Ahead(s, j, k) ==> j in s
  {
    if s != [] { AheadIsMember(s[1..], j, k); }
  }
}

/** One priority level of the fair queue: per-key FIFOs and a round-robin order over active keys. */
module Lanes {
  import opened WorkItems
  import opened KeySeqs

  // `s` lists the keys of `byKey`, each once.
  ghost predicate Lists(s: seq<Camera>, byKey: map<Camera, seq<Item>>) {
    Distinct(s) && forall k :: k in s <==> k in byKey
  }

  // Buckets are never left empty, and hold their own key's items only.
  ghost predicate Filed(byKey: map<Camera, seq<Item>>) {
    && (forall k :: k in byKey ==> byKey[k] != [])
    && (forall k, i :: k in byKey && 0 <= i < |byKey[k]| ==> FairnessKey(byKey[k][i]) == k)
  }

  // `keys` is the dictionary's iteration order, which decides ties and the drain order;
  // `order` is the round-robin deque.
  datatype RawLane = RawLane(byKey: map<Camera, seq<Item>>, keys: seq<Camera>, order: seq<Camera>)
  {
    ghost predicate Valid() {
      Lists(keys, byKey) && Lists(order, byKey) && Filed(byKey)
    }

    // The queued items of one key, oldest first.
    function Bucket(k: Camera): seq<Item> {
      if k in byKey then byKey[k] else []
    }
  }

  type LaneState = s: RawLane | s.Valid() witness RawLane(map[], [], [])

  const EMPTY: LaneState := RawLane(map[], [], [])

  // A caller without a camera, or with the id those share.
  ghost predicate Anonymous(item: Item) { item.camera == NO_CAMERA || item.camera == SHARED }

  /** Who takes turns with whom: two queued items wait in one bucket exactly when they are of one
      camera, or when neither has a camera of its own. */
  lemma OneBucketPerCamera(s: LaneState, x: Item, y: Item, j: Camera, k: Camera)
    requires j in s.byKey && k in s.byKey && x in s.byKey[j] && y in s.byKey[k]
    ensures j == k <==> x.camera == y.camera || (Anonymous(x) && Anonymous(y))
    ensures !Anonymous(x) ==> j == x.camera
  {
    var m :| 0 <= m < |s.byKey[j]| && s.byKey[j][m] == x;
    var n :| 0 <= n < |s.byKey[k]| && s.byKey[k][n] == y;
    assert FairnessKey(x) == j && FairnessKey(y) == k;
  }

  // ----- the four operations on the value of a lane -----

  function Push(s: LaneState, item: Item): (r: LaneState)
    ensures FairnessKey(item) in r.byKey
  {
    var k := FairnessKey(item);
    if k in s.byKey then
      RawLane(s.byKey[k := s.byKey[k] + [item]], s.keys, s.order)
    else
      RawLane(s.byKey[k := [item]], s.keys + [k], s.order + [k])
  }

  // The item `Pop` would return.
  function Peek(s: LaneState): (item: Item)
    requires s.order != []
    ensures item in s.Bucket(s.order[0])
  {
    s.byKey[s.order[0]][0]
  }

  // The lane without the oldest item of `k`, and with `order` as its round-robin order.
  function Shorten(s: RawLane, k: Camera, order: seq<Camera>): RawLane
    requires k in s.byKey && s.byKey[k] != []
  {
    if |s.byKey[k]| > 1 then RawLane(s.byKey[k := s.byKey[k][1..]], s.keys, order)
    else RawLane(s.byKey - {k}, Remove(s.keys, k), order)
  }

  lemma ShortenValid(s: LaneState, k: Camera, order: seq<Camera>)
    requires k in s.byKey && Distinct(order)
    requires forall x :: x in order <==> x in s.byKey && (x != k || |s.byKey[k]| > 1)
    ensures Shorten(s, k, order).Valid()
  {
    RemoveMembers(s.keys, k);
    ShortenFiled(s, k, order);
    hide Remove;
    hide Distinct;
    hide Filed;
  }

  lemma ShortenFiled(s: RawLane, k: Camera, order: seq<Camera>)
    requires k in s.byKey && Filed(s.byKey)
    ensures Filed(Shorten(s, k, order).byKey)
  {
    var r := Shorten(s, k, order);
    assert forall x :: x in r.byKey ==> x in s.byKey && (x == k || r.byKey[x] == s.byKey[x]);
  }

  // `k` first in the order: it goes to the back if it has more, and out otherwise.
  function Rotate(order: seq<Camera>, stays: bool): seq<Camera>
    requires order != []
  {
    if stays then order[1..] + [order[0]] else order[1..]
  }

  lemma RotateMembers(order: seq<Camera>, stays: bool)
    requires order != [] && Distinct(order)
    ensures Distinct(Rotate(order, stays))
    ensures forall x :: x in Rotate(order, stays) <==> x in order && (x != order[0] || stays)
  {
    assert forall x :: x in order <==> x == order[0] || x in order[1..];
    assert order[0] !in order[1..];
  }

  function Pop(s: LaneState): (r: LaneState)
    requires s.order != []
  {
    var k := s.order[0];
    assert k in s.order;
    var order := Rotate(s.order, |s.byKey[k]| > 1);
    RotateMembers(s.order, |s.byKey[k]| > 1);
    ShortenValid(s, k, order);
    Shorten(s, k, order)
  }

  // The first position of the largest of the first `n` lengths: what `max` over a dictionary answers.
  function FirstLargest(lengths: seq<nat>, n: nat): (i: nat)
    requires 0 < n <= |lengths|
    ensures i < n
    ensures forall j :: 0 <= j < i ==> lengths[j] < lengths[i]
    ensures forall j :: i <= j < n ==> lengths[j] <= lengths[i]
  {
    if n == 1 then 0
    else
      var best := FirstLargest(lengths, n - 1);
      if lengths[n - 1] > lengths[best] then n - 1 else best
  }

  function Lengths(byKey: map<Camera, seq<Item>>, keys: seq<Camera>): (lengths: seq<nat>)
    requires forall i :: 0 <= i < |keys| ==> keys[i] in byKey
    ensures |lengths| == |keys|
    ensures forall i :: 0 <= i < |keys| ==> lengths[i] == |byKey[keys[i]]|
  {
    seq(|keys|, i requires 0 <= i < |keys| => |byKey[keys[i]]|)
  }

  // The key hogging the lane.
  function Hog(s: LaneState): (k: Camera)
    requires s.keys != []
    ensures k in s.byKey && s.byKey[k] != []
    ensures forall x :: x in s.byKey ==> |s.byKey[x]| <= |s.byKey[k]|
  {
    assert forall i :: 0 <= i < |s.keys| ==> s.keys[i] in s.byKey;
    var lengths := Lengths(s.byKey, s.keys);
    var i := FirstLargest(lengths, |s.keys|);
    assert forall x :: x in s.byKey ==> x in s.keys;
    s.keys[i]
  }

  function Victim(s: LaneState): (item: Item)
    requires s.keys != []
  {
    s.byKey[Hog(s)][0]
  }

  function Evict(s: LaneState): (r: LaneState)
    requires s.keys != []
  {
    var k := Hog(s);
    var order := if |s.byKey[k]| > 1 then s.order else Remove(s.order, k);
    RemoveMembers(s.order, k);
    ShortenValid(s, k, order);
    Shorten(s, k, order)
  }

  // ----- what a lane holds -----

  ghost function ItemsOf(byKey: map<Camera, seq<Item>>, keys: seq<Camera>): multiset<Item>
    requires forall k :: k in keys ==> k in byKey
  {
    if keys == [] then multiset{}
    else multiset(byKey[keys[0]]) + ItemsOf(byKey, keys[1..])
  }

  ghost function Items(s: LaneState): multiset<Item> {
    ItemsOf(s.byKey, s.keys)
  }

  lemma {:induction false} ItemsOfFrame(a: map<Camera, seq<Item>>, b: map<Camera, seq<Item>>, keys: seq<Camera>)
    requires forall k :: k in keys ==> k in a && k in b && a[k] == b[k]
    ensures ItemsOf(a, keys) == ItemsOf(b, keys)
  {
    if keys != [] { ItemsOfFrame(a, b, keys[1..]); }
  }

  // One key's bucket can be split off wherever the key stands.
  lemma {:induction false} ItemsOfSplit(byKey: map<Camera, seq<Item>>, keys: seq<Camera>, k: Camera)
    requires forall x :: x in keys ==> x in byKey
    requires Distinct(keys) && k in keys
    ensures forall x :: x in Remove(keys, k) ==> x in byKey
    ensures ItemsOf(byKey, keys) == multiset(byKey[k]) + ItemsOf(byKey, Remove(keys, k))
  {
    RemoveMembers(keys, k);
    if keys[0] != k {
      ItemsOfSplit(byKey, keys[1..], k);
      var r := Remove(keys[1..], k);
      assert ([keys[0]] + r)[1..] == r;
    }
  }

  lemma {:induction false} ItemsOfAppend(byKey: map<Camera, seq<Item>>, keys: seq<Camera>, k: Camera)
    requires forall x :: x in keys + [k] ==> x in byKey
    ensures forall x :: x in keys ==> x in byKey
    ensures ItemsOf(byKey, keys + [k]) == ItemsOf(byKey, keys) + multiset(byKey[k])
  {
    assert forall x :: x in keys ==> x in keys + [k];
    if keys == [] {
      assert keys + [k] == [k];
    } else {
      assert (keys + [k])[1..] == keys[1..] + [k];
      ItemsOfAppend(byKey, keys[1..], k);
    }
  }

  // Everything in these buckets, bucket by bucket, each oldest first.
  function FlattenedKeys(byKey: map<Camera, seq<Item>>, keys: seq<Camera>): seq<Item>
    requires forall k :: k in keys ==> k in byKey
  {
    if keys == [] then [] else byKey[keys[0]] + FlattenedKeys(byKey, keys[1..])
  }

  function Flattened(s: LaneState): seq<Item> {
    FlattenedKeys(s.byKey, s.keys)
  }

  lemma {:induction false} FlattenedItems(byKey: map<Camera, seq<Item>>, keys: seq<Camera>)
    requires forall k :: k in keys ==> k in byKey
    ensures multiset(FlattenedKeys(byKey, keys)) == ItemsOf(byKey, keys)
  {
    if keys != [] { FlattenedItems(byKey, keys[1..]); }
  }

  lemma FlattenedLane(s: LaneState)
    ensures multiset(Flattened(s)) == Items(s)
  {
    FlattenedItems(s.byKey, s.keys);
  }

  lemma {:induction false} FlattenedNext(byKey: map<Camera, seq<Item>>, keys: seq<Camera>, k: Camera)
    requires forall x :: x in keys + [k] ==> x in byKey
    ensures forall x :: x in keys ==> x in byKey
    ensures FlattenedKeys(byKey, keys + [k]) == FlattenedKeys(byKey, keys) + byKey[k]
  {
    assert forall x :: x in keys ==> x in keys + [k];
    if keys == [] {
      assert keys + [k] == [k];
    } else {
      assert (keys + [k])[1..] == keys[1..] + [k];
      FlattenedNext(byKey, keys[1..], k);
    }
  }

  lemma PushItems(s: LaneState, item: Item)
    ensures Items(Push(s, item)) == Items(s) + multiset{item}
  {
    var k := FairnessKey(item);
    var r := Push(s, item);
    if k in s.byKey {
      ItemsOfSplit(s.byKey, s.keys, k);
      ItemsOfSplit(r.byKey, s.keys, k);
      RemoveMembers(s.keys, k);
      ItemsOfFrame(s.byKey, r.byKey, Remove(s.keys, k));
    } else {
      ItemsOfAppend(r.byKey, s.keys, k);
      ItemsOfFrame(s.byKey, r.byKey, s.keys);
    }
  }

  lemma OldestFirst(bucket: seq<Item>)
    requires bucket != []
    ensures multiset(bucket) == multiset{bucket[0]} + multiset(bucket[1..])
  {
    assert bucket == [bucket[0]] + bucket[1..];
  }

  // A bucket one item shorter holds everything but its oldest item.
  lemma {:induction false} ShorterBucket(byKey: map<Camera, seq<Item>>, keys: seq<Camera>, k: Camera)
    requires (forall x :: x in keys ==> x in byKey) && Distinct(keys) && k in keys && byKey[k] != []
    ensures ItemsOf(byKey, keys) == ItemsOf(byKey[k := byKey[k][1..]], keys) + multiset{byKey[k][0]}
  {
    var now := byKey[k := byKey[k][1..]];
    ItemsOfSplit(byKey, keys, k);
    ItemsOfSplit(now, keys, k);
    RemoveMembers(keys, k);
    OldestFirst(byKey[k]);
    ItemsOfFrame(byKey, now, Remove(keys, k));
    hide *;
  }

  // A bucket of one item is gone with it.
  lemma {:induction false} LastOfBucket(byKey: map<Camera, seq<Item>>, keys: seq<Camera>, k: Camera)
    requires (forall x :: x in keys ==> x in byKey) && Distinct(keys) && k in keys && |byKey[k]| == 1
    ensures forall x :: x in Remove(keys, k) ==> x in byKey - {k}
    ensures ItemsOf(byKey, keys) == ItemsOf(byKey - {k}, Remove(keys, k)) + multiset{byKey[k][0]}
  {
    ItemsOfSplit(byKey, keys, k);
    RemoveMembers(keys, k);
    OldestFirst(byKey[k]);
    ItemsOfFrame(byKey, byKey - {k}, Remove(keys, k));
    hide *;
  }

  // Taking the oldest item of one key takes exactly that item.
  lemma {:induction false} ShortenItems(s: LaneState, k: Camera, order: seq<Camera>)
    requires k in s.byKey && Shorten(s, k, order).Valid()
    ensures Items(s) == Items(Shorten(s, k, order)) + multiset{s.byKey[k][0]}
  {
    hide ItemsOf;
    if |s.byKey[k]| > 1 { ShorterBucket(s.byKey, s.keys, k); } else { LastOfBucket(s.byKey, s.keys, k); }
  }

  lemma PopItems(s: LaneState)
    requires s.order != []
    ensures Items(s) == Items(Pop(s)) + multiset{Peek(s)}
  {
    assert s.order[0] in s.order;
    var k := s.order[0];
    assert Pop(s).Valid();
    hide RawLane.Valid;
    ShortenItems(s, k, Rotate(s.order, |s.byKey[k]| > 1));
  }

  lemma EvictItems(s: LaneState)
    requires s.keys != []
    ensures Items(s) == Items(Evict(s)) + multiset{Victim(s)}
  {
    var k := Hog(s);
    assert Evict(s).Valid();
    hide RawLane.Valid;
    ShortenItems(s, k, if |s.byKey[k]| > 1 then s.order else Remove(s.order, k));
  }

  lemma EmptyLane(s: LaneState)
    ensures s.keys == [] <==> Items(s) == multiset{}
    ensures s.keys == [] <==> s.order == []
  {
    if s.keys != [] {
      assert s.keys[0] in s.keys;
      assert s.byKey[s.keys[0]][0] in Items(s);
      assert s.keys[0] in s.order;
    }
    if s.order != [] {
      assert s.order[0] in s.order;
    }
  }

  // ----- runs of a lane -----

  datatype Op = PushOp(item: Item) | PopOp | EvictOp

  // A pop or an eviction finds nothing in an empty lane and changes nothing.
  function Step(s: LaneState, op: Op): LaneState {
    match op
    case PushOp(item) => Push(s, item)
    case PopOp => if s.order == [] then s else Pop(s)
    case EvictOp => if s.keys == [] then s else Evict(s)
  }

  function Run(s: LaneState, ops: seq<Op>): LaneState
    decreases ops
  {
    if ops == [] then s else Run(Step(s, ops[0]), ops[1..])
  }

  lemma {:induction false} RunAppend(s: LaneState, a: seq<Op>, b: seq<Op>)
    ensures Run(s, a + b) == Run(Run(s, a), b)
    decreases a
  {
    if a == [] {
      assert a + b == b;
    } else {
      assert (a + b)[1..] == a[1..] + b;
      RunAppend(Step(s, a[0]), a[1..], b);
    }
  }

  // Whether this step is a pop that takes a turn for `k`.
  predicate TurnOf(s: LaneState, op: Op, k: Camera) {
    op.PopOp? && s.order != [] && s.order[0] == k
  }

  // How many turns `k` got over a run, and how many were handed out in all.
  function Turns(s: LaneState, ops: seq<Op>, k: Camera): nat
    decreases ops
  {
    if ops == [] then 0
    else (if TurnOf(s, ops[0], k) then 1 else 0) + Turns(Step(s, ops[0]), ops[1..], k)
  }

  function AllTurns(s: LaneState, ops: seq<Op>): nat
    decreases ops
  {
    if ops == [] then 0
    else (if ops[0].PopOp? && s.order != [] then 1 else 0) + AllTurns(Step(s, ops[0]), ops[1..])
  }

  // `k` has something queued before, between and after all the steps.
  ghost predicate Backlogged(s: LaneState, ops: seq<Op>, k: Camera)
    decreases ops
  {
    k in s.byKey && (ops == [] || Backlogged(Step(s, ops[0]), ops[1..], k))
  }

  // At most `n` keys are active at any moment of the run.
  ghost predicate ActiveAtMost(s: LaneState, ops: seq<Op>, n: nat)
    decreases ops
  {
    |s.order| <= n && (ops == [] || ActiveAtMost(Step(s, ops[0]), ops[1..], n))
  }

  // What one step does to the standing of a key `k` that stays active.
  lemma StepStanding(s: LaneState, op: Op, j: Camera, k: Camera)
    requires j != k && k in s.byKey && k in Step(s, op).byKey
    ensures TurnOf(s, op, j) ==> Ahead(s.order, j, k) && !Ahead(Step(s, op).order, j, k)
    ensures !TurnOf(s, op, j) && !TurnOf(s, op, k) && Ahead(Step(s, op).order, j, k) ==> Ahead(s.order, j, k)
    ensures TurnOf(s, op, k) ==> !Ahead(s.order, j, k)
  {
    var r := Step(s, op);
    match op {
      case PushOp(item) =>
        AheadAppend(s.order, FairnessKey(item), j, k);
      case EvictOp =>
        if s.keys != [] && r.order != s.order { AheadRemove(s.order, Hog(s), j, k); }
      case PopOp =>
        var h := s.order[0];
        assert k in s.order;
        if h != k {
          assert k in s.order[1..];
          AheadAppend(s.order[1..], h, j, k);
          if h == j { AheadIsMember(s.order[1..], j, k); }
        }
    }
  }

  /** Round-robin fairness: while `k` stays backlogged, no other key gets more than one turn
      more than `k` — whatever is pushed, popped or evicted meanwhile, and from any state. */
  lemma {:induction false} RoundRobinFair(s: LaneState, ops: seq<Op>, j: Camera, k: Camera)
    requires j != k && Backlogged(s, ops, k)
    ensures Turns(s, ops, j) <= Turns(s, ops, k) + (if Ahead(s.order, j, k) then 1 else 0)
    decreases ops
  {
    if ops != [] {
      StepStanding(s, ops[0], j, k);
      RoundRobinFair(Step(s, ops[0]), ops[1..], j, k);
    }
  }

  /** Two keys that both stay backlogged are served within one turn of each other. */
  lemma BackloggedKeysShareEvenly(s: LaneState, ops: seq<Op>, j: Camera, k: Camera)
    requires Backlogged(s, ops, j) && Backlogged(s, ops, k)
    ensures -1 <= Turns(s, ops, j) - Turns(s, ops, k) <= 1
  {
    if j != k {
      RoundRobinFair(s, ops, j, k);
      RoundRobinFair(s, ops, k, j);
    }
  }

  lemma StepPosition(s: LaneState, op: Op, k: Camera)
    requires k in s.byKey && k in Step(s, op).byKey
    ensures
      var before, after := IndexOf(s.order, k), IndexOf(Step(s, op).order, k);
      if op.PopOp? && !TurnOf(s, op, k) then after == before - 1 else TurnOf(s, op, k) || after <= before
    ensures TurnOf(s, op, k) ==> IndexOf(s.order, k) == 0
  {
    match op {
      case PushOp(item) => AheadAppend(s.order, FairnessKey(item), k, k);
      case EvictOp => if s.keys != [] && Evict(s).order != s.order { AheadRemove(s.order, Hog(s), k, k); }
      case PopOp =>
        assert k in s.order;
        if s.order[0] != k {
          assert k in s.order[1..];
          AheadAppend(s.order[1..], s.order[0], k, k);
        }
    }
  }

  lemma Shares(n: nat, turns: nat, later: nat, turn: bool)
    requires turns == (if turn then 1 else 0) + later
    ensures n * turns == (if turn then n else 0) + n * later
  {
  }

  lemma TurnsNext(s: LaneState, ops: seq<Op>, k: Camera)
    requires ops != []
    ensures AllTurns(s, ops) == (if ops[0].PopOp? && s.order != [] then 1 else 0) + AllTurns(Step(s, ops[0]), ops[1..])
    ensures Turns(s, ops, k) == (if TurnOf(s, ops[0], k) then 1 else 0) + Turns(Step(s, ops[0]), ops[1..], k)
  {
  }

  /** No starvation: with at most `n` active keys, a key that stays backlogged gets at least one
      turn in every `n` that are handed out, after the ones already ahead of it. */
  lemma {:induction false} BoundedWait(s: LaneState, ops: seq<Op>, k: Camera, n: nat)
    requires Backlogged(s, ops, k) && ActiveAtMost(s, ops, n)
    ensures AllTurns(s, ops) <= IndexOf(s.order, k) + n * Turns(s, ops, k)
    decreases ops
  {
    if ops != [] {
      var r := Step(s, ops[0]);
      StepPosition(s, ops[0], k);
      assert k in r.byKey && k in r.order;
      assert IndexOf(r.order, k) < |r.order| <= n;
      BoundedWait(r, ops[1..], k, n);
      hide *;
      TurnsNext(s, ops, k);
      Shares(n, Turns(s, ops, k), Turns(r, ops[1..], k), TurnOf(s, ops[0], k));
    }
  }

  // ----- FIFO within a key -----

  // What one step takes out of `k`'s bucket, by a pop or by an eviction, and what it adds.
  function LeavesBy(s: LaneState, op: Op, k: Camera): seq<Item> {
    match op
    case PushOp(_) => []
    case PopOp => if s.order != [] && s.order[0] == k then [Peek(s)] else []
    case EvictOp => if s.keys != [] && Hog(s) == k then [Victim(s)] else []
  }

  function ArrivesBy(op: Op, k: Camera): seq<Item> {
    if op.PushOp? && FairnessKey(op.item) == k then [op.item] else []
  }

  // The same over a run, in the order it happens.
  function Left(s: LaneState, ops: seq<Op>, k: Camera): seq<Item>
    decreases ops
  {
    if ops == [] then [] else LeavesBy(s, ops[0], k) + Left(Step(s, ops[0]), ops[1..], k)
  }

  function Pushed(ops: seq<Op>, k: Camera): seq<Item> {
    if ops == [] then [] else ArrivesBy(ops[0], k) + Pushed(ops[1..], k)
  }

  lemma ShortenBucket(s: RawLane, k: Camera, order: seq<Camera>, x: Camera)
    requires k in s.byKey && s.byKey[k] != []
    ensures (if x == k then [s.byKey[k][0]] else []) + Shorten(s, k, order).Bucket(x) == s.Bucket(x)
  {
  }

  lemma PopFifo(s: LaneState, k: Camera)
    requires s.order != []
    ensures LeavesBy(s, PopOp, k) + Pop(s).Bucket(k) == s.Bucket(k)
  {
    assert s.order[0] in s.order;
    assert s.byKey[s.order[0]] != [];
    hide RawLane.Valid;
    ShortenBucket(s, s.order[0], Pop(s).order, k);
  }

  lemma EvictFifo(s: LaneState, k: Camera)
    requires s.keys != []
    ensures LeavesBy(s, EvictOp, k) + Evict(s).Bucket(k) == s.Bucket(k)
  {
    hide RawLane.Valid;
    ShortenBucket(s, Hog(s), Evict(s).order, k);
  }

  lemma StepFifo(s: LaneState, op: Op, k: Camera)
    ensures LeavesBy(s, op, k) + Step(s, op).Bucket(k) == s.Bucket(k) + ArrivesBy(op, k)
  {
    hide RawLane.Valid;
    hide Pop;
    hide Evict;
    match op {
      case PushOp(item) =>
      case PopOp => if s.order != [] { PopFifo(s, k); }
      case EvictOp => if s.keys != [] { EvictFifo(s, k); }
    }
  }

  lemma Regroup(gone: seq<Item>, mid: seq<Item>, start: seq<Item>, came: seq<Item>,
                left: seq<Item>, end: seq<Item>, pushed: seq<Item>)
    requires gone + mid == start + came
    requires left + end == mid + pushed
    ensures (gone + left) + end == start + (came + pushed)
  {
    assert (gone + left) + end == gone + (left + end);
    assert gone + (mid + pushed) == (gone + mid) + pushed;
    assert (start + came) + pushed == start + (came + pushed);
  }

  /** A camera's items leave in the order they arrived, none lost and none invented: what left
      followed by what is still queued is what was queued followed by what was pushed. */
  lemma {:induction false} FirstInFirstOut(s: LaneState, ops: seq<Op>, k: Camera)
    ensures Left(s, ops, k) + Run(s, ops).Bucket(k) == s.Bucket(k) + Pushed(ops, k)
    decreases ops
  {
    if ops != [] {
      var r := Step(s, ops[0]);
      var gone, came := LeavesBy(s, ops[0], k), ArrivesBy(ops[0], k);
      StepFifo(s, ops[0], k);
      FirstInFirstOut(r, ops[1..], k);
      Regroup(gone, r.Bucket(k), s.Bucket(k), came,
              Left(r, ops[1..], k), Run(r, ops[1..]).Bucket(k), Pushed(ops[1..], k));
    }
  }

  // ----- who pays for an eviction -----

  lemma {:induction false} SizeAtMost(byKey: map<Camera, seq<Item>>, keys: seq<Camera>, bound: nat)
    requires forall k :: k in keys ==> k in byKey && |byKey[k]| <= bound
    ensures |ItemsOf(byKey, keys)| <= bound * |keys|
  {
    if keys != [] {
      assert keys[0] in keys;
      SizeAtMost(byKey, keys[1..], bound);
      Shares(bound, |keys|, |keys| - 1, true);
    }
  }

  /** The camera that pays for an eviction holds at least its fair share of the lane: the lane's
      size over its active cameras. A camera below that share, or merely shorter than some other,
      never loses an item. */
  lemma EvictionChargesTheGreedy(s: LaneState, quiet: Camera)
    requires s.keys != []
    ensures |Items(s)| <= |s.byKey[Hog(s)]| * |s.keys|
    ensures (exists other :: other in s.byKey && |s.byKey[other]| > |s.Bucket(quiet)|)
      ==> Evict(s).Bucket(quiet) == s.Bucket(quiet)
    ensures |s.Bucket(quiet)| * |s.keys| < |Items(s)| ==> Evict(s).Bucket(quiet) == s.Bucket(quiet)
  {
    SizeAtMost(s.byKey, s.keys, |s.byKey[Hog(s)]|);
  }
}
