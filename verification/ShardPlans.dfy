/** A fleet given as named cameras, ranked and split: the plan the launcher prints. */
module ShardPlans {
  import opened Sharding

  // A camera id and its offered frames per second. Ids are only compared, so they are numbers here.
  datatype Camera = Camera(name: nat, load: real)

  // The key of the sort: descending by load, then by name.
  predicate Before(a: Camera, b: Camera) {
    a.load > b.load || (a.load == b.load && a.name < b.name)
  }

  ghost predicate Named(fleet: seq<Camera>) {
    forall i, j :: 0 <= i < j < |fleet| ==> fleet[i].name != fleet[j].name
  }

  function Insert(c: Camera, ranked: seq<Camera>): seq<Camera> {
    if ranked == [] || Before(c, ranked[0]) then [c] + ranked else [ranked[0]] + Insert(c, ranked[1..])
  }

  // The fleet, in whatever order it is given, sorted by that key.
  function Ranked(fleet: seq<Camera>): seq<Camera> {
    if fleet == [] then [] else Insert(fleet[0], Ranked(fleet[1..]))
  }

  ghost predicate InOrder(ranked: seq<Camera>) {
    forall i, j :: 0 <= i < j < |ranked| ==> Before(ranked[i], ranked[j])
  }

  lemma {:induction false} InsertKeeps(c: Camera, ranked: seq<Camera>)
    ensures multiset(Insert(c, ranked)) == multiset{c} + multiset(ranked)
    ensures |Insert(c, ranked)| == |ranked| + 1
  {
    if ranked != [] && !Before(c, ranked[0]) {
      InsertKeeps(c, ranked[1..]);
      assert ranked == [ranked[0]] + ranked[1..];
    }
  }

  lemma {:induction false} InsertInOrder(c: Camera, ranked: seq<Camera>)
    requires InOrder(ranked) && forall x :: x in ranked ==> x.name != c.name
    ensures InOrder(Insert(c, ranked))
  {
    if ranked != [] && !Before(c, ranked[0]) {
      var rest := Insert(c, ranked[1..]);
      InsertInOrder(c, ranked[1..]);
      InsertKeeps(c, ranked[1..]);
      forall j | 0 <= j < |rest| ensures Before(ranked[0], rest[j]) {
        assert rest[j] in multiset(rest);
        assert rest[j] == c || rest[j] in ranked[1..];
      }
    }
  }

  /** The ranking holds every camera once, heaviest first and ties by name. */
  lemma {:induction false} RankedSorts(fleet: seq<Camera>)
    requires Named(fleet)
    ensures multiset(Ranked(fleet)) == multiset(fleet) && |Ranked(fleet)| == |fleet| && InOrder(Ranked(fleet))
  {
    hide Insert;
    hide InOrder;
    if fleet == [] {
      NoneInOrder();
    } else {
      var rest := Ranked(fleet[1..]);
      RankedSorts(fleet[1..]);
      InsertKeeps(fleet[0], rest);
      assert fleet == [fleet[0]] + fleet[1..];
      forall x | x in rest ensures x.name != fleet[0].name {
        assert x in multiset(rest);
        assert x in fleet[1..];
      }
      InsertInOrder(fleet[0], rest);
    }
  }

  lemma NoneInOrder()
    ensures InOrder([])
  {
  }

  lemma SameHead(a: seq<Camera>, b: seq<Camera>)
    requires InOrder(a) && InOrder(b) && multiset(a) == multiset(b) && a != []
    ensures b != [] && a[0] == b[0]
  {
    assert a[0] in multiset(b);
    assert b[0] in multiset(a);
    var i :| 0 <= i < |a| && a[i] == b[0];
    var j :| 0 <= j < |b| && b[j] == a[0];
  }

  lemma TailsInOrder(a: seq<Camera>)
    requires InOrder(a) && a != []
    ensures InOrder(a[1..]) && multiset(a[1..]) == multiset(a) - multiset{a[0]}
  {
    assert a == [a[0]] + a[1..];
  }

  // Two sorted sequences of the same cameras are one.
  lemma {:induction false} SortedOnce(a: seq<Camera>, b: seq<Camera>)
    requires InOrder(a) && InOrder(b) && multiset(a) == multiset(b)
    ensures a == b
  {
    if a == [] {
      assert |multiset(a)| == |a| && |multiset(b)| == |b|;
    } else {
      SameHead(a, b);
      TailsInOrder(a);
      TailsInOrder(b);
      hide InOrder;
      SortedOnce(a[1..], b[1..]);
      assert a == [a[0]] + a[1..] && b == [b[0]] + b[1..];
    }
  }

  lemma NamedAnyhow(f: seq<Camera>, g: seq<Camera>)
    requires Named(f) && multiset(f) == multiset(g)
    ensures Named(g)
  {
    if i, j :| 0 <= i < j < |g| && g[i].name == g[j].name {
      TwicePlaced(g, i, j);
      assert g[i] in multiset(f) && g[j] in multiset(f);
      var a :| 0 <= a < |f| && f[a] == g[i];
      var b :| 0 <= b < |f| && f[b] == g[j];
      assert a == b;
      OnceOnly(f, a);
    }
  }

  // Equal elements at two places count twice.
  lemma TwicePlaced(s: seq<Camera>, i: nat, j: nat)
    requires i < j < |s|
    ensures s[i] == s[j] ==> multiset(s)[s[i]] >= 2
  {
    assert s == s[..i] + [s[i]] + s[i + 1..j] + [s[j]] + s[j + 1..];
  }

  lemma OnceOnly(s: seq<Camera>, i: nat)
    requires i < |s| && Named(s)
    ensures multiset(s)[s[i]] == 1
  {
    assert s == s[..i] + [s[i]] + s[i + 1..];
    assert s[i] !in s[..i] && s[i] !in s[i + 1..];
  }

  /** The ranking depends only on which cameras offer what, not on the order they are given in. */
  lemma RankedIgnoresOrder(f: seq<Camera>, g: seq<Camera>)
    requires Named(f) && multiset(f) == multiset(g)
    ensures Ranked(f) == Ranked(g)
  {
    NamedAnyhow(f, g);
    RankedSorts(f);
    RankedSorts(g);
    SortedOnce(Ranked(f), Ranked(g));
  }

  function Loads(ranked: seq<Camera>): (loads: seq<real>)
    ensures |loads| == |ranked| && forall i :: 0 <= i < |ranked| ==> loads[i] == ranked[i].load
  {
    seq(|ranked|, i requires 0 <= i < |ranked| => ranked[i].load)
  }

  // A list of ids alone: each camera once, all of the same load.
  function FromNames(names: seq<nat>): (fleet: seq<Camera>)
    ensures Named(fleet)
    ensures forall c :: c in fleet <==> c.load == 1.0 && c.name in names
  {
    if names == [] then []
    else
      var n := |names| - 1;
      var fleet := FromNames(names[..n]);
      assert names == names[..n] + [names[n]];
      if Camera(names[n], 1.0) in fleet then fleet
      else
        assert forall c :: c in fleet ==> c.name != names[n];
        fleet + [Camera(names[n], 1.0)]
  }

  // ----- the plan -----

  datatype Refusal = NoShards | NoGpus | MoreShardsThanCameras

  // Per shard: its camera names, ascending; what they offer; the positions of its devices.
  datatype Plan =
    | Plan(cameras: seq<seq<nat>>, offered: seq<real>, devices: seq<seq<nat>>)
    | Refused(why: Refusal)

  function InsertName(x: nat, names: seq<nat>): seq<nat> {
    if names == [] || x <= names[0] then [x] + names else [names[0]] + InsertName(x, names[1..])
  }

  function SortedNames(names: seq<nat>): seq<nat> {
    if names == [] then [] else InsertName(names[0], SortedNames(names[1..]))
  }

  function NamesAt(ranked: seq<Camera>, ranks: seq<nat>): (names: seq<nat>)
    requires forall i :: 0 <= i < |ranks| ==> ranks[i] < |ranked|
    ensures |names| == |ranks| && forall i :: 0 <= i < |ranks| ==> names[i] == ranked[ranks[i]].name
  {
    seq(|ranks|, i requires 0 <= i < |ranks| => ranked[ranks[i]].name)
  }

  lemma {:induction false} MembersExactly(a: seq<nat>, s: nat)
    ensures forall i :: 0 <= i < |Members(a, s)| ==> Members(a, s)[i] < |a| && a[Members(a, s)[i]] == s
    ensures forall k: nat :: k < |a| && a[k] == s ==> k in Members(a, s)
    ensures forall i, j :: 0 <= i < j < |Members(a, s)| ==> Members(a, s)[i] < Members(a, s)[j]
  {
    if a != [] {
      var n := |a| - 1;
      MembersExactly(a[..n], s);
      var before := Members(a[..n], s);
      forall k: nat | k < |a| && a[k] == s ensures k in Members(a, s) {
        if k < n { assert a[..n][k] == s && k in before; }
      }
    }
  }

  // The names a ranked fleet's assignment gives to shard `s`.
  function Bucket(ranked: seq<Camera>, a: seq<nat>, s: nat): seq<nat>
    requires |a| == |ranked|
  {
    MembersExactly(a, s);
    SortedNames(NamesAt(ranked, Members(a, s)))
  }

  // Which shard each ranked camera goes to.
  function Placed(fleet: seq<Camera>, shards: nat, gpus: nat): (a: seq<nat>)
    requires shards > 0 && gpus > 0
    ensures Assigns(Loads(Ranked(fleet)), a, shards)
  {
    PositiveShares(shards, gpus);
    Greedy(Loads(Ranked(fleet)), Capacity(shards, gpus))
  }

  lemma PositiveShares(shards: nat, gpus: nat)
    requires shards > 0 && gpus > 0
    ensures Positive(Capacity(shards, gpus))
  {
    forall i: nat | i < shards ensures Capacity(shards, gpus)[i] > 0.0 { CapacityValue(shards, gpus, i); }
  }

  // What each shard reads, and which devices it owns.
  function Buckets(ranked: seq<Camera>, a: seq<nat>, shards: nat): (cameras: seq<seq<nat>>)
    requires |a| == |ranked|
    ensures |cameras| == shards && forall s :: 0 <= s < shards ==> cameras[s] == Bucket(ranked, a, s)
  {
    seq(shards, s requires 0 <= s < shards => Bucket(ranked, a, s))
  }

  function AllDevices(shards: nat, gpus: nat): (devices: seq<seq<nat>>)
    requires gpus > 0
    ensures |devices| == shards && forall s :: 0 <= s < shards ==> devices[s] == Devices(shards, gpus, s)
  {
    seq(shards, s requires 0 <= s < shards => Devices(shards, gpus, s))
  }

  function PlanFor(fleet: seq<Camera>, shards: int, gpus: nat): Plan {
    if shards < 1 then Refused(NoShards)
    else if gpus == 0 then Refused(NoGpus)
    else if fleet != [] && shards > |fleet| then Refused(MoreShardsThanCameras)
    else
      var ranked, a := Ranked(fleet), Placed(fleet, shards, gpus);
      Plan(Buckets(ranked, a, shards), Weights(Loads(ranked), a, shards), AllDevices(shards, gpus))
  }

  // The loop that names each shard's cameras and sorts them.
  method NameBuckets(ranked: seq<Camera>, buckets: seq<seq<nat>>, ghost a: seq<nat>) returns (cameras: seq<seq<nat>>)
    requires |a| == |ranked| && forall s :: 0 <= s < |buckets| ==> buckets[s] == Members(a, s)
    ensures cameras == Buckets(ranked, a, |buckets|)
  {
    hide Members;
    hide SortedNames;
    cameras := [];
    for s := 0 to |buckets|
      invariant |cameras| == s && forall i :: 0 <= i < s ==> cameras[i] == Bucket(ranked, a, i)
    {
      MembersExactly(a, s);
      cameras := cameras + [SortedNames(NamesAt(ranked, buckets[s]))];
    }
  }

  // The loop that deals the devices.
  method DealDevices(shards: nat, gpus: nat) returns (devices: seq<seq<nat>>)
    requires gpus > 0
    ensures devices == AllDevices(shards, gpus)
  {
    hide Devices;
    devices := [];
    for s := 0 to shards
      invariant |devices| == s && forall i :: 0 <= i < s ==> devices[i] == Devices(shards, gpus, i)
    {
      devices := devices + [Devices(shards, gpus, s)];
    }
  }

  /** Rank the fleet, deal the devices, and give each camera in turn to the lightest shard. */
  method PlanShards(fleet: seq<Camera>, shards: int, gpus: nat) returns (plan: Plan)
    ensures plan == PlanFor(fleet, shards, gpus)
    ensures Named(fleet) && plan.Plan? ==>
      |plan.cameras| == |plan.offered| == shards && forall s :: 0 <= s < shards ==> plan.offered[s] == ListedLoad(fleet, plan.cameras[s])
  {
    if Named(fleet) && PlanFor(fleet, shards, gpus).Plan? { AllOfferedAreListed(fleet, shards, gpus); }
    hide ListedLoad;
    hide Named;
    if shards < 1 { return Refused(NoShards); }
    if gpus == 0 { return Refused(NoGpus); }
    if fleet != [] && shards > |fleet| { return Refused(MoreShardsThanCameras); }
    PositiveShares(shards, gpus);
    hide Capacity;
    hide Greedy;
    hide WeightOf;
    hide Members;
    hide Ranked;
    hide Devices;
    var ranked := Ranked(fleet);
    var devices := DealDevices(shards, gpus);
    ghost var a := Placed(fleet, shards, gpus);
    var buckets, weights := Balance(Loads(ranked), Capacity(shards, gpus));
    var cameras := NameBuckets(ranked, buckets, a);
    assert weights == Weights(Loads(ranked), a, shards);
    plan := Plan(cameras, weights, devices);
  }

  /** The plan is deterministic: it depends only on which cameras offer what, never on the order the
      mapping lists them in. */
  lemma PlanIgnoresOrder(f: seq<Camera>, g: seq<Camera>, shards: int, gpus: nat)
    requires Named(f) && multiset(f) == multiset(g)
    ensures PlanFor(f, shards, gpus) == PlanFor(g, shards, gpus)
  {
    RankedIgnoresOrder(f, g);
    assert |multiset(f)| == |f| && |multiset(g)| == |g|;
    hide Ranked;
  }

  // ----- every camera is read by exactly one shard -----

  ghost predicate Rising(names: seq<nat>) {
    forall i, j :: 0 <= i < j < |names| ==> names[i] <= names[j]
  }

  lemma {:induction false} InsertNameAdds(x: nat, names: seq<nat>)
    ensures multiset(InsertName(x, names)) == multiset{x} + multiset(names)
  {
    if names != [] && x > names[0] {
      InsertNameAdds(x, names[1..]);
      assert names == [names[0]] + names[1..];
    }
  }

  lemma RisingFirst(x: nat, rest: seq<nat>)
    requires Rising(rest) && forall y :: y in rest ==> x <= y
    ensures Rising([x] + rest)
  {
    forall j | 0 <= j < |rest| ensures x <= rest[j] { assert rest[j] in rest; }
  }

  lemma RisingRest(names: seq<nat>)
    requires names != [] && Rising(names)
    ensures Rising(names[1..]) && forall y :: y in names ==> names[0] <= y
  {
  }

  lemma {:induction false} InsertNameSorts(x: nat, names: seq<nat>)
    requires Rising(names)
    ensures Rising(InsertName(x, names))
  {
    hide Rising;
    if names == [] {
      NoneRising();
      RisingFirst(x, []);
    } else {
      RisingRest(names);
      if x <= names[0] {
        RisingFirst(x, names);
      } else {
        var rest := InsertName(x, names[1..]);
        InsertNameSorts(x, names[1..]);
        InsertNameAdds(x, names[1..]);
        forall y | y in rest ensures names[0] <= y {
          assert y in multiset(rest);
          assert y == x || (y in names[1..] && y in names);
        }
        RisingFirst(names[0], rest);
      }
    }
  }

  lemma NoneRising()
    ensures Rising([])
  {
  }

  lemma {:induction false} SortedNamesSorts(names: seq<nat>)
    ensures multiset(SortedNames(names)) == multiset(names) && Rising(SortedNames(names))
  {
    if names != [] {
      SortedNamesSorts(names[1..]);
      InsertNameAdds(names[0], SortedNames(names[1..]));
      InsertNameSorts(names[0], SortedNames(names[1..]));
      assert names == [names[0]] + names[1..];
    }
  }

  // `bucket` names exactly the ranked cameras assigned to `s`.
  ghost predicate Exactly(ranked: seq<Camera>, a: seq<nat>, s: nat, bucket: seq<nat>)
    requires |a| == |ranked|
  {
    && (forall k :: 0 <= k < |ranked| && a[k] == s ==> ranked[k].name in bucket)
    && (forall x :: x in bucket ==> exists k :: 0 <= k < |ranked| && a[k] == s && ranked[k].name == x)
  }

  /** A shard lists exactly the cameras assigned to it, ascending. */
  lemma BucketExactly(ranked: seq<Camera>, a: seq<nat>, s: nat)
    requires |a| == |ranked|
    ensures Exactly(ranked, a, s, Bucket(ranked, a, s))
    ensures Rising(Bucket(ranked, a, s))
  {
    MembersExactly(a, s);
    var ranks := Members(a, s);
    var names := NamesAt(ranked, ranks);
    SortedNamesSorts(names);
    hide Members;
    hide SortedNames;
    var bucket := SortedNames(names);
    forall x ensures x in bucket <==> x in names { assert x in multiset(bucket) <==> x in multiset(names); }
    forall k | 0 <= k < |ranked| && a[k] == s ensures ranked[k].name in bucket {
      var i :| 0 <= i < |ranks| && ranks[i] == k;
      assert names[i] == ranked[k].name;
    }
    forall x | x in bucket ensures exists k :: 0 <= k < |ranked| && a[k] == s && ranked[k].name == x {
      var i :| 0 <= i < |names| && names[i] == x;
      assert a[ranks[i]] == s && ranked[ranks[i]].name == x;
    }
  }

  // A camera of the fleet is listed by one shard and no other.
  lemma ListedOnce(ranked: seq<Camera>, a: seq<nat>, cameras: seq<seq<nat>>, x: nat, s: nat, u: nat)
    requires |a| == |ranked| && Named(ranked) && s < |cameras| && u < |cameras| && s != u
    requires Exactly(ranked, a, s, cameras[s]) && Exactly(ranked, a, u, cameras[u]) && x in cameras[s]
    ensures x !in cameras[u]
  {
  }

  /** No camera is lost and none is read twice: every camera of the fleet is listed by exactly one
      shard, and the shards list nothing else. */
  lemma EveryCameraPlanned(fleet: seq<Camera>, shards: nat, gpus: nat)
    requires Named(fleet) && PlanFor(fleet, shards, gpus).Plan?
    ensures var cameras := PlanFor(fleet, shards, gpus).cameras;
      && |cameras| == shards
      && (forall c :: c in fleet ==> exists s :: 0 <= s < shards && c.name in cameras[s])
      && (forall x, s, u :: 0 <= s < u < shards && x in cameras[s] ==> x !in cameras[u])
      && (forall s, x :: 0 <= s < shards && x in cameras[s] ==> exists c :: c in fleet && c.name == x)
  {
    var ranked, a, cameras := Ranked(fleet), Placed(fleet, shards, gpus), PlanFor(fleet, shards, gpus).cameras;
    assert forall s :: 0 <= s < shards ==> cameras[s] == Bucket(ranked, a, s);
    RankedSorts(fleet);
    hide *;
    NamedAnyhow(fleet, ranked);
    forall s: nat | s < shards ensures Exactly(ranked, a, s, cameras[s]) { BucketExactly(ranked, a, s); }
    ExactlyOnce(fleet, ranked, a, cameras);
  }

  lemma ExactlyOnce(fleet: seq<Camera>, ranked: seq<Camera>, a: seq<nat>, cameras: seq<seq<nat>>)
    requires multiset(ranked) == multiset(fleet) && Named(ranked) && |a| == |ranked|
    requires forall k :: 0 <= k < |a| ==> a[k] < |cameras|
    requires forall s: nat :: s < |cameras| ==> Exactly(ranked, a, s, cameras[s])
    ensures forall c :: c in fleet ==> exists s :: 0 <= s < |cameras| && c.name in cameras[s]
    ensures forall x, s, u :: 0 <= s < u < |cameras| && x in cameras[s] ==> x !in cameras[u]
    ensures forall s, x :: 0 <= s < |cameras| && x in cameras[s] ==> exists c :: c in fleet && c.name == x
  {
    hide Named;
    hide Exactly;
    forall x, s, u | 0 <= s < u < |cameras| && x in cameras[s] ensures x !in cameras[u] {
      ListedOnce(ranked, a, cameras, x, s, u);
    }
    forall c | c in fleet ensures exists s :: 0 <= s < |cameras| && c.name in cameras[s] {
      assert c in multiset(ranked);
      var k :| 0 <= k < |ranked| && ranked[k] == c;
      ExactlyThere(ranked, a, a[k], cameras[a[k]], k);
    }
    forall s, x | 0 <= s < |cameras| && x in cameras[s] ensures exists c :: c in fleet && c.name == x {
      var k := ExactlyWho(ranked, a, s, cameras[s], x);
      assert ranked[k] in multiset(fleet);
    }
  }

  lemma ExactlyThere(ranked: seq<Camera>, a: seq<nat>, s: nat, bucket: seq<nat>, k: nat)
    requires |a| == |ranked| && Exactly(ranked, a, s, bucket) && k < |ranked| && a[k] == s
    ensures ranked[k].name in bucket
  {
  }

  lemma ExactlyWho(ranked: seq<Camera>, a: seq<nat>, s: nat, bucket: seq<nat>, x: nat) returns (k: nat)
    requires |a| == |ranked| && Exactly(ranked, a, s, bucket) && x in bucket
    ensures k < |ranked| && ranked[k].name == x
  {
    k :| k < |ranked| && a[k] == s && ranked[k].name == x;
  }

  // ----- the bound, for the fleet as given -----

  // What any other plan, by camera name, gives to shard `s`.
  ghost function WeightBy(fleet: seq<Camera>, other: nat -> nat, s: nat): real {
    if fleet == [] then 0.0
    else (if other(fleet[0].name) == s then fleet[0].load else 0.0) + WeightBy(fleet[1..], other, s)
  }

  lemma {:induction false} WeightByInsert(c: Camera, ranked: seq<Camera>, other: nat -> nat, s: nat)
    ensures WeightBy(Insert(c, ranked), other, s) == WeightBy([c] + ranked, other, s)
  {
    if ranked != [] && !Before(c, ranked[0]) {
      WeightByInsert(c, ranked[1..], other, s);
      var rest := Insert(c, ranked[1..]);
      assert ([ranked[0]] + rest)[1..] == rest && ([c] + ranked)[1..] == ranked && ([c] + ranked[1..])[1..] == ranked[1..];
    }
  }

  lemma {:induction false} WeightByRanked(fleet: seq<Camera>, other: nat -> nat, s: nat)
    ensures WeightBy(Ranked(fleet), other, s) == WeightBy(fleet, other, s)
  {
    if fleet != [] {
      WeightByRanked(fleet[1..], other, s);
      WeightByInsert(fleet[0], Ranked(fleet[1..]), other, s);
      assert ([fleet[0]] + Ranked(fleet[1..]))[1..] == Ranked(fleet[1..]);
    }
  }

  function Other(ranked: seq<Camera>, other: nat -> nat): (b: seq<nat>)
    ensures |b| == |ranked| && forall i :: 0 <= i < |b| ==> b[i] == other(ranked[i].name)
  {
    seq<nat>(|ranked|, i requires 0 <= i < |ranked| => other(ranked[i].name))
  }

  lemma {:induction false} WeightByLast(fleet: seq<Camera>, other: nat -> nat, s: nat)
    requires fleet != []
    ensures
      var n := |fleet| - 1;
      WeightBy(fleet, other, s) == WeightBy(fleet[..n], other, s) + (if other(fleet[n].name) == s then fleet[n].load else 0.0)
  {
    var n := |fleet| - 1;
    if n == 0 {
      assert fleet[1..] == [] && fleet[..n] == [];
    } else {
      WeightByLast(fleet[1..], other, s);
      assert fleet[1..][..n - 1] == fleet[..n][1..];
    }
  }

  lemma {:induction false} WeightByIsWeightOf(ranked: seq<Camera>, other: nat -> nat, s: nat)
    ensures WeightBy(ranked, other, s) == WeightOf(Loads(ranked), Other(ranked, other), s)
  {
    if ranked != [] {
      var n := |ranked| - 1;
      WeightByLast(ranked, other, s);
      WeightByIsWeightOf(ranked[..n], other, s);
      assert Loads(ranked)[..n] == Loads(ranked[..n]) && Other(ranked, other)[..n] == Other(ranked[..n], other);
    }
  }

  // What the cameras of the fleet listed in `names` offer together.
  ghost function ListedLoad(fleet: seq<Camera>, names: seq<nat>): real {
    if fleet == [] then 0.0
    else (if fleet[0].name in names then fleet[0].load else 0.0) + ListedLoad(fleet[1..], names)
  }

  lemma {:induction false} ListedIsWeightBy(fleet: seq<Camera>, names: seq<nat>, other: nat -> nat, s: nat)
    requires forall x :: other(x) == s <==> x in names
    ensures ListedLoad(fleet, names) == WeightBy(fleet, other, s)
  {
    if fleet != [] { ListedIsWeightBy(fleet[1..], names, other, s); }
  }

  // Two assignments that give a shard the same cameras give it the same weight.
  lemma {:induction false} SameMembersWeigh(loads: seq<real>, a: seq<nat>, b: seq<nat>, s: nat)
    requires |a| == |b| == |loads| && forall k :: 0 <= k < |a| ==> (a[k] == s <==> b[k] == s)
    ensures WeightOf(loads, a, s) == WeightOf(loads, b, s)
  {
    if loads != [] {
      var n := |loads| - 1;
      SameMembersWeigh(loads[..n], a[..n], b[..n], s);
    }
  }

  // Exactly the cameras assigned to `s` are on its list.
  lemma ListedIsAssigned(ranked: seq<Camera>, a: seq<nat>, s: nat, bucket: seq<nat>, k: nat)
    requires |a| == |ranked| && Named(ranked) && Exactly(ranked, a, s, bucket) && k < |ranked|
    ensures a[k] == s <==> ranked[k].name in bucket
  {
  }

  lemma BucketWeighs(ranked: seq<Camera>, a: seq<nat>, s: nat, names: seq<nat>)
    requires |a| == |ranked| && Named(ranked) && Exactly(ranked, a, s, names)
    ensures WeightOf(Loads(ranked), a, s) == ListedLoad(ranked, names)
  {
    hide WeightOf;
    var other: nat -> nat := x => if x in names then s else s + 1;
    ListedIsWeightBy(ranked, names, other, s);
    WeightByIsWeightOf(ranked, other, s);
    forall k | 0 <= k < |ranked| ensures a[k] == s <==> Other(ranked, other)[k] == s {
      ListedIsAssigned(ranked, a, s, names, k);
    }
    hide Exactly;
    SameMembersWeigh(Loads(ranked), a, Other(ranked, other), s);
  }

  lemma ListedRanked(fleet: seq<Camera>, names: seq<nat>)
    ensures ListedLoad(Ranked(fleet), names) == ListedLoad(fleet, names)
  {
    hide Ranked;
    var other: nat -> nat := x => if x in names then 0 else 1;
    ListedIsWeightBy(fleet, names, other, 0);
    ListedIsWeightBy(Ranked(fleet), names, other, 0);
    WeightByRanked(fleet, other, 0);
  }

  /** A shard offers what the cameras it lists offer: the number reported for it is the sum of the
      loads of the fleet's cameras whose names are on its list. */
  lemma OfferedIsListed(fleet: seq<Camera>, shards: nat, gpus: nat, s: nat)
    requires Named(fleet) && PlanFor(fleet, shards, gpus).Plan? && s < shards
    ensures
      var plan := PlanFor(fleet, shards, gpus);
      && |plan.offered| == |plan.cameras| == shards
      && plan.offered[s] == ListedLoad(fleet, plan.cameras[s])
  {
    var ranked, a := Ranked(fleet), Placed(fleet, shards, gpus);
    var plan := PlanFor(fleet, shards, gpus);
    assert plan.cameras[s] == Bucket(ranked, a, s) && plan.offered[s] == WeightOf(Loads(ranked), a, s);
    RankedSorts(fleet);
    hide *;
    NamedAnyhow(fleet, ranked);
    BucketExactly(ranked, a, s);
    BucketWeighs(ranked, a, s, plan.cameras[s]);
    ListedRanked(fleet, plan.cameras[s]);
  }

  lemma AllOfferedAreListed(fleet: seq<Camera>, shards: nat, gpus: nat)
    requires Named(fleet) && PlanFor(fleet, shards, gpus).Plan?
    ensures
      var plan := PlanFor(fleet, shards, gpus);
      |plan.offered| == |plan.cameras| == shards && forall s :: 0 <= s < shards ==> plan.offered[s] == ListedLoad(fleet, plan.cameras[s])
  {
    forall s: nat | s < shards
      ensures
        var plan := PlanFor(fleet, shards, gpus);
        |plan.offered| == |plan.cameras| == shards && plan.offered[s] == ListedLoad(fleet, plan.cameras[s]) {
      OfferedIsListed(fleet, shards, gpus, s);
    }
  }

  lemma RankedLoads(fleet: seq<Camera>)
    requires Named(fleet) && forall c :: c in fleet ==> c.load >= 0.0
    ensures Descending(Loads(Ranked(fleet))) && NonNegative(Loads(Ranked(fleet)))
  {
    RankedSorts(fleet);
    var ranked := Ranked(fleet);
    forall i | 0 <= i < |ranked| ensures ranked[i] in fleet { assert ranked[i] in multiset(ranked); }
  }

  /** The documented bound, for the fleet as it is given: where shards divide over devices or devices
      over shards, no other placing of the same cameras, by name, has a busiest shard below 3m/(4m - 1)
      of what the cameras listed by any shard of this plan offer. */
  lemma FleetWithinFourThirds(fleet: seq<Camera>, shards: nat, gpus: nat, other: nat -> nat, bound: real)
    requires Named(fleet) && forall c :: c in fleet ==> c.load >= 0.0
    requires shards > 0 && gpus > 0 && (shards % gpus == 0 || gpus % shards == 0)
    requires PlanFor(fleet, shards, gpus).Plan?
    requires forall x :: other(x) < shards
    requires forall s: nat :: s < shards ==> WeightBy(fleet, other, s) <= bound
    ensures |PlanFor(fleet, shards, gpus).offered| == |PlanFor(fleet, shards, gpus).cameras| == shards
    ensures forall s: nat :: s < shards ==> FourThirds(shards, ListedLoad(fleet, PlanFor(fleet, shards, gpus).cameras[s]), bound)
    ensures forall s: nat :: s < shards ==> PlanFor(fleet, shards, gpus).offered[s] == ListedLoad(fleet, PlanFor(fleet, shards, gpus).cameras[s])
  {
    AllOfferedAreListed(fleet, shards, gpus);
    hide ListedLoad;
    var ranked := Ranked(fleet);
    RankedLoads(fleet);
    hide Ranked;
    hide FourThirds;
    var b := Other(ranked, other);
    forall s: nat | s < shards ensures WeightOf(Loads(ranked), b, s) <= bound {
      WeightByRanked(fleet, other, s);
      WeightByIsWeightOf(ranked, other, s);
    }
    hide WeightOf;
    PlanWithinFourThirds(Loads(ranked), shards, gpus, b, bound);
  }
}
