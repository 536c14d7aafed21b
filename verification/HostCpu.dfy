/** Sums over finite sets. */
module Sums {

  ghost function SumOver<T(!new)>(s: set<T>, f: T -> real): real {
    if s == {} then 0.0 else var x :| x in s; f(x) + SumOver(s - {x}, f)
  }

  lemma SumOverEmpty<T(!new)>(f: T -> real)
    ensures SumOver({}, f) == 0.0
  {
  }

  lemma {:induction false} SumOverSplit<T(!new)>(s: set<T>, f: T -> real, x: T)
    requires x in s
    ensures SumOver(s, f) == f(x) + SumOver(s - {x}, f)
  {
    var y :| y in s && SumOver(s, f) == f(y) + SumOver(s - {y}, f);
    if y != x {
      SumOverSplit(s - {y}, f, x);
      SumOverSplit(s - {x}, f, y);
      assert s - {y} - {x} == s - {x} - {y};
    }
  }

  lemma {:induction false} SumOverUnion<T(!new)>(a: set<T>, b: set<T>, f: T -> real)
    requires a !! b
    ensures SumOver(a + b, f) == SumOver(a, f) + SumOver(b, f)
  {
    if a == {} {
      assert a + b == b;
    } else {
      var x :| x in a;
      SumOverUnion(a - {x}, b, f);
      SumOverSplit(a, f, x);
      SumOverSplit(a + b, f, x);
      assert (a + b) - {x} == (a - {x}) + b;
    }
  }

  lemma {:induction false} SumOverNonNegative<T(!new)>(s: set<T>, f: T -> real)
    requires forall x :: x in s ==> f(x) >= 0.0
    ensures SumOver(s, f) >= 0.0
  {
    if s != {} {
      var x :| x in s;
      SumOverNonNegative(s - {x}, f);
      SumOverSplit(s, f, x);
    }
  }

  lemma SumOverSubset<T(!new)>(a: set<T>, b: set<T>, f: T -> real)
    requires a <= b && forall x :: x in b ==> f(x) >= 0.0
    ensures SumOver(a, f) <= SumOver(b, f)
  {
    SumOverNonNegative(b - a, f);
    SumOverUnion(a, b - a, f);
    assert a + (b - a) == b;
  }

  lemma {:induction false} SumOverSame<T(!new)>(s: set<T>, f: T -> real, g: T -> real)
    requires forall x :: x in s ==> f(x) == g(x)
    ensures SumOver(s, f) == SumOver(s, g)
  {
    if s != {} {
      var x :| x in s;
      SumOverSame(s - {x}, f, g);
      SumOverSplit(s, f, x);
      SumOverSplit(s, g, x);
    }
  }
}

/** The host-CPU sampler: one tick per snapshot of /proc. */
module HostCpu {
  import opened Options
  import opened Reachability
  import opened ProcessTree
  import opened Sums

  type Tid = nat

  // One thread's counter as a tick reads it. `incarnation` says which thread of a recycled tid
  // this is; the sampler cannot see it and never looks at it.
  datatype Reading = Reading(pid: Pid, tid: Tid, name: string, cpu: real, incarnation: nat)

  // What one tick finds: the declared generators, or None when the file cannot be read; the
  // children and the threads of each readable process; the lifetime CPU of live generators.
  datatype Snapshot = Snapshot(declared: Option<set<Pid>>, kids: Children,
                               threads: map<Pid, seq<Reading>>, lifetime: map<Pid, real>)

  datatype Row = Row(pid: Pid, name: string, cpu: real)
  datatype Retired = Retired(pid: Pid, tid: Tid, name: string, cpu: real)

  datatype State = State(seen: map<Tid, Row>, retired: seq<Retired>,
                         generatorCpu: map<Pid, real>, generatorTree: set<Pid>)

  const START := State(map[], [], map[], {})

  function Generators(snap: Snapshot): set<Pid> {
    if snap.declared.Some? then snap.declared.value else {}
  }

  // ----- one tick -----

  function Forget(s: State, pids: set<Pid>): State {
    s.(seen := map t | t in s.seen && s.seen[t].pid !in pids :: s.seen[t],
       retired := KeepRetired(s.retired, pids))
  }

  function KeepRetired(rows: seq<Retired>, pids: set<Pid>): seq<Retired> {
    if rows == [] then []
    else (if rows[0].pid !in pids then [rows[0]] else []) + KeepRetired(rows[1..], pids)
  }

  // A lower reading than the stored one is a new thread on a recycled tid.
  function Observe(s: State, r: Reading): State {
    var row := Row(r.pid, r.name, r.cpu);
    if r.tid !in s.seen || r.cpu >= s.seen[r.tid].cpu then s.(seen := s.seen[r.tid := row])
    else
      var prior := s.seen[r.tid];
      s.(retired := s.retired + [Retired(prior.pid, r.tid, prior.name, prior.cpu)], seen := s.seen[r.tid := row])
  }

  function ObserveAll(s: State, readings: seq<Reading>): State
    decreases readings
  {
    if readings == [] then s else ObserveAll(Observe(s, readings[0]), readings[1..])
  }

  // The readings of the visited processes, in visiting order.
  function ReadingsOf(snap: Snapshot, order: seq<Pid>): seq<Reading> {
    if order == [] then []
    else (if order[0] in snap.threads then snap.threads[order[0]] else []) + ReadingsOf(snap, order[1..])
  }

  function Later(a: real, b: real): real {
    if a >= b then a else b
  }

  function ChargeGenerators(cpu: map<Pid, real>, generators: set<Pid>, lifetime: map<Pid, real>): map<Pid, real> {
    map p | p in cpu.Keys + (generators * lifetime.Keys) ::
      if p in generators && p in lifetime
      then Later(if p in cpu then cpu[p] else 0.0, lifetime[p]) else cpu[p]
  }

  lemma ChargeNext(cpu: map<Pid, real>, charged: set<Pid>, lifetime: map<Pid, real>, p: Pid)
    requires p !in charged
    ensures
      var before, after := ChargeGenerators(cpu, charged, lifetime), ChargeGenerators(cpu, charged + {p}, lifetime);
      after == if p in lifetime then before[p := Later(if p in before then before[p] else 0.0, lifetime[p])] else before
  {
  }

  // The walks of one tick: everything under a generator, and the processes sampled, in order.
  datatype Visit = Visit(under: set<Pid>, order: seq<Pid>)

  ghost predicate UnderGenerators(snap: Snapshot, under: set<Pid>) {
    forall x :: x in under <==> exists g :: g in Generators(snap) && Descends(snap.kids, {}, g, x)
  }

  // `visit` is what the tree walks of this tick answer.
  ghost predicate Walked(root: Pid, s: State, snap: Snapshot, visit: Visit) {
    && UnderGenerators(snap, visit.under)
    && (forall i, j :: 0 <= i < j < |visit.order| ==> visit.order[i] != visit.order[j])
    && (forall x :: x in visit.order
          <==> Descends(snap.kids, Generators(snap) + s.generatorTree + visit.under, root, x))
  }

  function Excluded(s: State, snap: Snapshot, visit: Visit): set<Pid> {
    Generators(snap) + s.generatorTree + visit.under
  }

  function Tick(s: State, snap: Snapshot, visit: Visit): State {
    var f := Forget(s, Excluded(s, snap, visit));
    ObserveAll(f.(generatorTree := s.generatorTree + visit.under,
                  generatorCpu := ChargeGenerators(s.generatorCpu, Generators(snap), snap.lifetime)),
               ReadingsOf(snap, visit.order))
  }

  // ----- totals -----

  function CpuOf(seen: map<Tid, Row>): Tid -> real {
    (t: Tid) => if t in seen then seen[t].cpu else 0.0
  }

  function SumRetired(rows: seq<Retired>): real {
    if rows == [] then 0.0 else SumRetired(rows[..|rows| - 1]) + rows[|rows| - 1].cpu
  }

  ghost function Total(s: State): real {
    SumOver(s.seen.Keys, CpuOf(s.seen)) + SumRetired(s.retired)
  }

  lemma SumSeenUpdate(seen: map<Tid, Row>, t: Tid, row: Row)
    ensures SumOver(seen[t := row].Keys, CpuOf(seen[t := row]))
      == SumOver(seen.Keys, CpuOf(seen)) + row.cpu - CpuOf(seen)(t)
  {
    var next := seen[t := row];
    SumOverSplit(next.Keys, CpuOf(next), t);
    assert next.Keys - {t} == seen.Keys - {t};
    SumOverSame(seen.Keys - {t}, CpuOf(next), CpuOf(seen));
    if t in seen { SumOverSplit(seen.Keys, CpuOf(seen), t); } else { assert seen.Keys - {t} == seen.Keys; }
  }

  lemma SumRetiredNext(rows: seq<Retired>, row: Retired)
    ensures SumRetired(rows + [row]) == SumRetired(rows) + row.cpu
  {
    assert (rows + [row])[..|rows|] == rows;
  }

  // A reading never lowers the total: it replaces a lower one, or retires a higher one.
  lemma ObserveGrows(s: State, r: Reading)
    requires r.cpu >= 0.0
    ensures Total(Observe(s, r)) >= Total(s)
  {
    var row := Row(r.pid, r.name, r.cpu);
    SumSeenUpdate(s.seen, r.tid, row);
    if r.tid in s.seen {
      var prior := s.seen[r.tid];
      SumRetiredNext(s.retired, Retired(prior.pid, r.tid, prior.name, prior.cpu));
    }
  }

  lemma {:induction false} ObserveAllGrows(s: State, readings: seq<Reading>)
    requires forall i :: 0 <= i < |readings| ==> readings[i].cpu >= 0.0
    ensures Total(ObserveAll(s, readings)) >= Total(s)
    decreases readings
  {
    if readings != [] {
      ObserveGrows(s, readings[0]);
      ObserveAllGrows(Observe(s, readings[0]), readings[1..]);
    }
  }

  /** The total never decreases on a tick that forgets no row. */
  lemma TotalNeverDecreases(s: State, snap: Snapshot, visit: Visit)
    requires forall i :: 0 <= i < |ReadingsOf(snap, visit.order)| ==> ReadingsOf(snap, visit.order)[i].cpu >= 0.0
    requires Forget(s, Excluded(s, snap, visit)) == s
    ensures Total(Tick(s, snap, visit)) >= Total(s)
  {
    var f := s.(generatorTree := s.generatorTree + visit.under,
                generatorCpu := ChargeGenerators(s.generatorCpu, Generators(snap), snap.lifetime));
    ObserveAllGrows(f, ReadingsOf(snap, visit.order));
  }

  // ----- runs -----

  datatype Moment = Moment(snap: Snapshot, visit: Visit)

  function RunTicks(s: State, run: seq<Moment>): State
    decreases run
  {
    if run == [] then s else RunTicks(Tick(s, run[0].snap, run[0].visit), run[1..])
  }

  ghost predicate AllWalked(root: Pid, s: State, run: seq<Moment>)
    decreases run
  {
    run == [] ||
    (Walked(root, s, run[0].snap, run[0].visit)
     && AllWalked(root, Tick(s, run[0].snap, run[0].visit), run[1..]))
  }

  // ----- no row of a generator -----

  ghost predicate FreeOf(s: State, pids: set<Pid>) {
    && (forall t :: t in s.seen ==> s.seen[t].pid !in pids)
    && (forall i :: 0 <= i < |s.retired| ==> s.retired[i].pid !in pids)
  }

  lemma {:induction false} KeepRetiredFree(rows: seq<Retired>, pids: set<Pid>)
    ensures forall i :: 0 <= i < |KeepRetired(rows, pids)| ==> KeepRetired(rows, pids)[i].pid !in pids
  {
    if rows != [] { KeepRetiredFree(rows[1..], pids); }
  }

  lemma {:induction false} ObserveAllFree(s: State, readings: seq<Reading>, pids: set<Pid>)
    requires FreeOf(s, pids) && forall i :: 0 <= i < |readings| ==> readings[i].pid !in pids
    ensures FreeOf(ObserveAll(s, readings), pids)
    ensures ObserveAll(s, readings).generatorTree == s.generatorTree
    decreases readings
  {
    if readings != [] {
      assert FreeOf(Observe(s, readings[0]), pids);
      ObserveAllFree(Observe(s, readings[0]), readings[1..], pids);
    }
  }

  // A process's thread listing names the process it was read from.
  ghost predicate Labelled(snap: Snapshot) {
    forall p, i :: p in snap.threads && 0 <= i < |snap.threads[p]| ==> snap.threads[p][i].pid == p
  }

  lemma {:induction false} ReadingsFrom(snap: Snapshot, order: seq<Pid>)
    requires Labelled(snap)
    ensures forall i :: 0 <= i < |ReadingsOf(snap, order)| ==> ReadingsOf(snap, order)[i].pid in order
  {
    if order != [] {
      ReadingsFrom(snap, order[1..]);
      assert forall p :: p in order[1..] ==> p in order;
    }
  }

  lemma TickFree(root: Pid, s: State, snap: Snapshot, visit: Visit)
    requires Walked(root, s, snap, visit) && Labelled(snap)
    ensures FreeOf(Tick(s, snap, visit), Excluded(s, snap, visit))
    ensures Tick(s, snap, visit).generatorTree == s.generatorTree + visit.under
  {
    var pids := Excluded(s, snap, visit);
    var f := Forget(s, pids).(generatorTree := s.generatorTree + visit.under,
                              generatorCpu := ChargeGenerators(s.generatorCpu, Generators(snap), snap.lifetime));
    KeepRetiredFree(s.retired, pids);
    ReadingsFrom(snap, visit.order);
    forall x | x in visit.order ensures x !in pids {
      ReachesNeedsRoot(ChildrenOf(snap.kids), Outside(pids), root, x);
    }
    ObserveAllFree(f, ReadingsOf(snap, visit.order), pids);
  }

  // `x` was declared a generator, or seen alive under one, at some tick of the run.
  ghost predicate EverGenerator(run: seq<Moment>, x: Pid) {
    exists i :: 0 <= i < |run| && WasGenerator(run[i].snap, x)
  }

  ghost predicate WasGenerator(snap: Snapshot, x: Pid) {
    exists g :: g in Generators(snap) && Descends(snap.kids, {}, g, x)
  }

  /** After every run, no row, live or retired, belongs to a generator ever read or to a process ever
      seen alive under one, unreadable ticks included. */
  lemma {:induction false} NoGeneratorRows(root: Pid, s: State, run: seq<Moment>, x: Pid)
    requires AllWalked(root, s, run) && forall i :: 0 <= i < |run| ==> Labelled(run[i].snap)
    requires FreeOf(s, s.generatorTree)
    requires x in s.generatorTree || EverGenerator(run, x)
    ensures FreeOf(RunTicks(s, run), {x})
    decreases run
  {
    if run != [] {
      var snap, visit := run[0].snap, run[0].visit;
      TickFree(root, s, snap, visit);
      var r := Tick(s, snap, visit);
      if x !in r.generatorTree {
        var i :| 0 <= i < |run| && WasGenerator(run[i].snap, x);
        assert i > 0;
        assert run[1..][i - 1] == run[i];
      }
      assert FreeOf(r, r.generatorTree);
      hide Tick;
      hide WasGenerator;
      NoGeneratorRows(root, r, run[1..], x);
    }
  }

  lemma DeclaredIsGenerator(snap: Snapshot, g: Pid)
    requires g in Generators(snap)
    ensures WasGenerator(snap, g)
  {
    ReachesItself(ChildrenOf(snap.kids), Outside({}), g);
    assert Descends(snap.kids, {}, g, g);
  }

  // ----- the lower bound -----

  // A thread that existed: a tid, and which of its threads.
  type Thread = (Tid, nat)

  function ThreadOf(r: Reading): Thread {
    (r.tid, r.incarnation)
  }

  // Counters only grow, and a recycled tid does not come back to an earlier thread.
  ghost predicate Follows(latest: map<Tid, Reading>, r: Reading) {
    r.tid in latest ==>
      && latest[r.tid].incarnation <= r.incarnation
      && (latest[r.tid].incarnation == r.incarnation ==> latest[r.tid].cpu <= r.cpu)
  }

  ghost predicate AllFollow(latest: map<Tid, Reading>, readings: seq<Reading>)
    decreases readings
  {
    readings == [] || (Follows(latest, readings[0]) && AllFollow(latest[readings[0].tid := readings[0]], readings[1..]))
  }

  ghost function Latest(latest: map<Tid, Reading>, readings: seq<Reading>): map<Tid, Reading>
    decreases readings
  {
    if readings == [] then latest else Latest(latest[readings[0].tid := readings[0]], readings[1..])
  }

  function ReadingsAt(m: Moment): seq<Reading> {
    ReadingsOf(m.snap, m.visit.order)
  }

  ghost predicate CountersGrow(latest: map<Tid, Reading>, run: seq<Moment>)
    decreases run
  {
    run == [] || (AllFollow(latest, ReadingsAt(run[0])) && CountersGrow(Latest(latest, ReadingsAt(run[0])), run[1..]))
  }

  function ThreadsIn(readings: seq<Reading>): set<Thread> {
    set i | 0 <= i < |readings| :: ThreadOf(readings[i])
  }

  // Every thread some tick of the run has read.
  function ThreadsSeen(run: seq<Moment>): set<Thread> {
    if run == [] then {} else ThreadsIn(ReadingsAt(run[0])) + ThreadsSeen(run[1..])
  }

  // `used` is at least what any reading of a thread says it used.
  ghost predicate Accounts(used: Thread -> real, readings: seq<Reading>) {
    forall i :: 0 <= i < |readings| ==> readings[i].cpu <= used(ThreadOf(readings[i]))
  }

  // A retired row together with the thread it was.
  datatype Past = Past(row: Retired, incarnation: nat) {
    function Who(): Thread { (row.tid, incarnation) }
  }

  function Rows(past: seq<Past>): seq<Retired> {
    seq(|past|, i requires 0 <= i < |past| => past[i].row)
  }

  // Every row stands for a thread of its own, and holds no more than that thread used.
  ghost predicate OnePerThread(s: State, past: seq<Past>, latest: map<Tid, Reading>, known: set<Thread>, used: Thread -> real) {
    && s.retired == Rows(past)
    && (forall t :: t in s.seen ==>
          t in latest && s.seen[t].cpu == latest[t].cpu
          && (t, latest[t].incarnation) in known && s.seen[t].cpu <= used((t, latest[t].incarnation)))
    && (forall i :: 0 <= i < |past| ==>
          past[i].row.tid in latest && past[i].incarnation < latest[past[i].row.tid].incarnation
          && past[i].Who() in known && past[i].row.cpu <= used(past[i].Who()))
    && Separate(past)
  }

  lemma ObserveKeepsOnePerThread(s: State, past: seq<Past>, latest: map<Tid, Reading>, known: set<Thread>,
                                 used: Thread -> real, r: Reading) returns (past': seq<Past>)
    requires OnePerThread(s, past, latest, known, used)
    requires Follows(latest, r) && r.cpu <= used(ThreadOf(r)) && ThreadOf(r) in known
    requires forall t :: t in latest ==> latest[t].tid == t
    ensures OnePerThread(Observe(s, r), past', latest[r.tid := r], known, used)
  {
    past' := past;
    if r.tid in s.seen && r.cpu < s.seen[r.tid].cpu {
      var prior := s.seen[r.tid];
      past' := past + [Past(Retired(prior.pid, r.tid, prior.name, prior.cpu), latest[r.tid].incarnation)];
      assert Rows(past') == Rows(past) + [past'[|past|].row];
    }
  }

  function KeepPast(past: seq<Past>, pids: set<Pid>): seq<Past> {
    if past == [] then []
    else (if past[0].row.pid !in pids then [past[0]] else []) + KeepPast(past[1..], pids)
  }

  lemma {:induction false} KeepPastRows(past: seq<Past>, pids: set<Pid>)
    ensures Rows(KeepPast(past, pids)) == KeepRetired(Rows(past), pids)
    ensures forall x :: x in KeepPast(past, pids) ==> x in past
  {
    if past != [] {
      KeepPastRows(past[1..], pids);
      assert Rows(past)[1..] == Rows(past[1..]);
      var rest := KeepPast(past[1..], pids);
      if past[0].row.pid !in pids {
        assert Rows([past[0]] + rest) == [past[0].row] + Rows(rest);
      } else {
        assert [] + rest == rest;
      }
    }
  }

  ghost predicate Separate(past: seq<Past>) {
    forall i, j :: 0 <= i < j < |past| ==> past[i].Who() != past[j].Who()
  }

  lemma {:induction false} KeepPastSeparate(past: seq<Past>, pids: set<Pid>)
    requires Separate(past)
    ensures Separate(KeepPast(past, pids))
  {
    if past != [] {
      KeepPastSeparate(past[1..], pids);
      KeepPastRows(past[1..], pids);
      var rest := KeepPast(past[1..], pids);
      forall j | 0 <= j < |rest| ensures rest[j].Who() != past[0].Who() { assert rest[j] in past[1..]; }
    }
  }

  lemma ForgetKeepsOnePerThread(s: State, past: seq<Past>, latest: map<Tid, Reading>, known: set<Thread>,
                                used: Thread -> real, pids: set<Pid>)
    requires OnePerThread(s, past, latest, known, used)
    ensures OnePerThread(Forget(s, pids), KeepPast(past, pids), latest, known, used)
  {
    KeepPastRows(past, pids);
    KeepPastSeparate(past, pids);
    forall i | 0 <= i < |KeepPast(past, pids)| ensures KeepPast(past, pids)[i] in past {}
  }

  lemma {:induction false} ReadingsKeepOnePerThread(s: State, past: seq<Past>, latest: map<Tid, Reading>, known: set<Thread>,
                                                    used: Thread -> real, readings: seq<Reading>) returns (past': seq<Past>)
    requires OnePerThread(s, past, latest, known, used) && forall t :: t in latest ==> latest[t].tid == t
    requires AllFollow(latest, readings) && Accounts(used, readings) && ThreadsIn(readings) <= known
    ensures OnePerThread(ObserveAll(s, readings), past', Latest(latest, readings), known, used)
    ensures forall t :: t in Latest(latest, readings) ==> Latest(latest, readings)[t].tid == t
    decreases readings
  {
    past' := past;
    if readings != [] {
      var r := readings[0];
      assert ThreadOf(r) in ThreadsIn(readings);
      past' := ObserveKeepsOnePerThread(s, past, latest, known, used, r);
      forall i | 0 <= i < |readings[1..]| ensures ThreadOf(readings[1..][i]) in known {
        assert ThreadOf(readings[i + 1]) in ThreadsIn(readings);
      }
      past' := ReadingsKeepOnePerThread(Observe(s, r), past', latest[r.tid := r], known, used, readings[1..]);
    }
  }

  lemma TickKeepsOnePerThread(s: State, past: seq<Past>, latest: map<Tid, Reading>, known: set<Thread>,
                              used: Thread -> real, m: Moment) returns (past': seq<Past>)
    requires OnePerThread(s, past, latest, known, used) && forall t :: t in latest ==> latest[t].tid == t
    requires AllFollow(latest, ReadingsAt(m)) && Accounts(used, ReadingsAt(m)) && ThreadsIn(ReadingsAt(m)) <= known
    ensures OnePerThread(Tick(s, m.snap, m.visit), past', Latest(latest, ReadingsAt(m)), known, used)
    ensures forall t :: t in Latest(latest, ReadingsAt(m)) ==> Latest(latest, ReadingsAt(m))[t].tid == t
  {
    var pids := Excluded(s, m.snap, m.visit);
    ForgetKeepsOnePerThread(s, past, latest, known, used, pids);
    var f := Forget(s, pids).(generatorTree := s.generatorTree + m.visit.under,
                              generatorCpu := ChargeGenerators(s.generatorCpu, Generators(m.snap), m.snap.lifetime));
    past' := ReadingsKeepOnePerThread(f, KeepPast(past, pids), latest, known, used, ReadingsAt(m));
  }

  // The live rows' threads.
  ghost function LiveThreads(keys: set<Tid>, latest: map<Tid, Reading>): set<Thread>
    requires keys <= latest.Keys
  {
    set t | t in keys :: (t, latest[t].incarnation)
  }

  lemma {:induction false} LiveBound(keys: set<Tid>, seen: map<Tid, Row>, latest: map<Tid, Reading>, used: Thread -> real)
    requires keys <= latest.Keys && keys <= seen.Keys
    requires forall t :: t in keys ==> seen[t].cpu <= used((t, latest[t].incarnation))
    ensures SumOver(keys, CpuOf(seen)) <= SumOver(LiveThreads(keys, latest), used)
  {
    hide SumOver;
    SumOverEmpty(CpuOf(seen));
    SumOverEmpty(used);
    if keys == {} {
      assert LiveThreads(keys, latest) == {};
    } else {
      var t :| t in keys;
      LiveBound(keys - {t}, seen, latest, used);
      SumOverSplit(keys, CpuOf(seen), t);
      var who := (t, latest[t].incarnation);
      SumOverSplit(LiveThreads(keys, latest), used, who);
      assert LiveThreads(keys, latest) - {who} == LiveThreads(keys - {t}, latest);
    }
  }

  ghost function PastThreads(past: seq<Past>): set<Thread> {
    set i | 0 <= i < |past| :: past[i].Who()
  }

  lemma {:induction false} PastBound(past: seq<Past>, used: Thread -> real)
    requires forall i :: 0 <= i < |past| ==> past[i].row.cpu <= used(past[i].Who())
    requires Separate(past)
    ensures SumRetired(Rows(past)) <= SumOver(PastThreads(past), used)
  {
    hide SumOver;
    SumOverEmpty(used);
    if past == [] {
      assert PastThreads(past) == {};
    } else {
      var n := |past| - 1;
      PastBound(past[..n], used);
      assert Rows(past)[..n] == Rows(past[..n]);
      assert PastThreads(past) == PastThreads(past[..n]) + {past[n].Who()};
      SumOverSplit(PastThreads(past), used, past[n].Who());
      assert PastThreads(past) - {past[n].Who()} == PastThreads(past[..n]);
    }
  }

  lemma TotalBounded(s: State, past: seq<Past>, latest: map<Tid, Reading>, known: set<Thread>, used: Thread -> real)
    requires OnePerThread(s, past, latest, known, used) && forall w :: used(w) >= 0.0
    ensures Total(s) <= SumOver(known, used)
  {
    var live, gone := LiveThreads(s.seen.Keys, latest), PastThreads(past);
    LiveBound(s.seen.Keys, s.seen, latest, used);
    PastBound(past, used);
    assert live !! gone;
    SumOverUnion(live, gone, used);
    SumOverSubset(live + gone, known, used);
  }

  lemma {:induction false} LowerBoundFrom(s: State, past: seq<Past>, latest: map<Tid, Reading>, known: set<Thread>,
                                          used: Thread -> real, run: seq<Moment>)
    requires OnePerThread(s, past, latest, known, used) && forall t :: t in latest ==> latest[t].tid == t
    requires CountersGrow(latest, run) && ThreadsSeen(run) <= known
    requires forall i :: 0 <= i < |run| ==> Accounts(used, ReadingsAt(run[i]))
    requires forall w :: used(w) >= 0.0
    ensures Total(RunTicks(s, run)) <= SumOver(known, used)
    decreases run
  {
    if run == [] {
      TotalBounded(s, past, latest, known, used);
    } else {
      var past' := TickKeepsOnePerThread(s, past, latest, known, used, run[0]);
      hide Tick;
      hide OnePerThread;
      hide Total;
      LowerBoundFrom(Tick(s, run[0].snap, run[0].visit), past', Latest(latest, ReadingsAt(run[0])), known, used, run[1..]);
    }
  }

  /** The documented bound, over every run of ticks in which each thread's counter only grows: the
      total never exceeds what the threads ever read have used, each counted once, even when their
      tids are recycled and generators are forgotten meanwhile. */
  lemma TotalIsALowerBound(run: seq<Moment>, used: Thread -> real)
    requires CountersGrow(map[], run)
    requires forall i :: 0 <= i < |run| ==> Accounts(used, ReadingsAt(run[i]))
    requires forall w :: used(w) >= 0.0
    ensures Total(RunTicks(START, run)) <= SumOver(ThreadsSeen(run), used)
  {
    LowerBoundFrom(START, [], map[], ThreadsSeen(run), used, run);
  }

  // ----- the breakdown by thread class -----

  // Everything before the first dash, if anything follows it.
  function ThreadClass(name: string): string {
    var i := FirstDash(name);
    if i + 1 < |name| then name[..i] else name
  }

  function FirstDash(name: string): (i: nat)
    ensures i <= |name|
  {
    if name == "" || name[0] == '-' then 0 else 1 + FirstDash(name[1..])
  }

  lemma {:induction false} FirstDashIs(head: string, rest: string)
    requires '-' !in head && (rest == "" || rest[0] == '-')
    ensures FirstDash(head + rest) == |head|
  {
    var name := head + rest;
    if head == "" {
      assert name == rest;
    } else {
      assert name[0] == head[0] && head[0] in head && name[1..] == head[1..] + rest;
      FirstDashIs(head[1..], rest);
    }
  }

  /** The class of a thread: the name before its discriminator, and the whole name where there is no
      dash or nothing after the first one. */
  lemma ThreadClassIs(head: string, discriminator: string)
    requires '-' !in head
    ensures ThreadClass(head) == head
    ensures ThreadClass(head + "-" + discriminator) == if discriminator == "" then head + "-" else head
  {
    assert head + "" == head;
    FirstDashIs(head, "");
    var name := head + "-" + discriminator;
    assert name == head + ("-" + discriminator);
    FirstDashIs(head, "-" + discriminator);
    assert name[..|head|] == head;
    if discriminator == "" { assert name == head + "-"; }
  }

  datatype Line = Line(tid: Tid, name: string, cpu: real)

  function SumLines(lines: seq<Line>): real {
    if lines == [] then 0.0 else SumLines(lines[..|lines| - 1]) + lines[|lines| - 1].cpu
  }

  function ClassCpu(lines: seq<Line>, c: string): real {
    if lines == [] then 0.0
    else
      var n := |lines| - 1;
      ClassCpu(lines[..n], c) + (if ThreadClass(lines[n].name) == c then lines[n].cpu else 0.0)
  }

  function ClassThreads(lines: seq<Line>, c: string): nat {
    if lines == [] then 0
    else
      var n := |lines| - 1;
      ClassThreads(lines[..n], c) + (if ThreadClass(lines[n].name) == c then 1 else 0)
  }

  function ClassesOf(lines: seq<Line>): set<string> {
    set i | 0 <= i < |lines| :: ThreadClass(lines[i].name)
  }

  // The lines whose thread is of that class.
  ghost function Carriers(lines: seq<Line>, c: string): set<nat> {
    set i: nat | i < |lines| && ThreadClass(lines[i].name) == c
  }

  function LineCpu(lines: seq<Line>): nat -> real {
    (i: nat) => if i < |lines| then lines[i].cpu else 0.0
  }

  /** A class has the CPU of the lines whose thread is of that class, and as many threads as there are. */
  lemma {:induction false} ClassIsItsCarriers(lines: seq<Line>, c: string)
    ensures ClassThreads(lines, c) == |Carriers(lines, c)|
    ensures ClassCpu(lines, c) == SumOver(Carriers(lines, c), LineCpu(lines))
  {
    hide ThreadClass;
    hide SumOver;
    if lines == [] {
      assert Carriers(lines, c) == {};
      SumOverEmpty(LineCpu(lines));
    } else {
      var n: nat := |lines| - 1;
      var before, all := Carriers(lines[..n], c), Carriers(lines, c);
      ClassIsItsCarriers(lines[..n], c);
      assert all == before + if ThreadClass(lines[n].name) == c then {n} else {};
      SumOverSame(before, LineCpu(lines[..n]), LineCpu(lines));
      if n in all {
        SumOverSplit(all, LineCpu(lines), n);
        assert all - {n} == before;
      }
    }
  }

  datatype Entry = Entry(cpu: real, threads: nat)

  method ByClass(lines: seq<Line>) returns (totals: map<string, Entry>)
    ensures totals.Keys == ClassesOf(lines)
    ensures forall c :: c in totals ==> totals[c] == Entry(ClassCpu(lines, c), ClassThreads(lines, c))
  {
    hide ThreadClass;
    totals := map[];
    var n := 0;
    while n < |lines|
      invariant 0 <= n <= |lines|
      invariant totals.Keys == ClassesOf(lines[..n])
      invariant forall c :: c in totals ==> totals[c] == Entry(ClassCpu(lines[..n], c), ClassThreads(lines[..n], c))
    {
      assert lines[..n + 1][..n] == lines[..n];
      var c := ThreadClass(lines[n].name);
      ClassesNext(lines, n);
      if c !in totals { AbsentClass(lines[..n], c); }
      var entry := if c in totals then totals[c] else Entry(0.0, 0);
      totals := totals[c := Entry(entry.cpu + lines[n].cpu, entry.threads + 1)];
      n := n + 1;
    }
    assert lines[..n] == lines;
  }

  lemma ClassesNext(lines: seq<Line>, n: nat)
    requires n < |lines|
    ensures ClassesOf(lines[..n + 1]) == ClassesOf(lines[..n]) + {ThreadClass(lines[n].name)}
  {
    hide ThreadClass;
    var longer := lines[..n + 1];
    assert forall i :: 0 <= i < n ==> longer[i] == lines[..n][i];
    assert longer[n] == lines[n];
    forall c | c in ClassesOf(lines[..n]) ensures c in ClassesOf(longer) {
      var i :| 0 <= i < n && ThreadClass(lines[..n][i].name) == c;
      assert ThreadClass(longer[i].name) == c;
    }
  }

  lemma {:induction false} AbsentClass(lines: seq<Line>, c: string)
    requires c !in ClassesOf(lines)
    ensures ClassCpu(lines, c) == 0.0 && ClassThreads(lines, c) == 0
  {
    hide ThreadClass;
    if lines != [] {
      var n := |lines| - 1;
      assert lines[..n + 1] == lines;
      ClassesNext(lines, n);
      AbsentClass(lines[..n], c);
    }
  }

  /** Before rounding, the classes of the breakdown add up to the total. */
  lemma {:induction false} ClassesAddUp(lines: seq<Line>, classes: set<string>)
    requires ClassesOf(lines) <= classes
    ensures SumOver(classes, c => ClassCpu(lines, c)) == SumLines(lines)
  {
    hide ThreadClass;
    if lines == [] {
      SumOverSame(classes, c => ClassCpu(lines, c), c => 0.0);
      SumOverZero(classes);
    } else {
      var n := |lines| - 1;
      var c := ThreadClass(lines[n].name);
      assert lines[..n + 1] == lines;
      ClassesNext(lines, n);
      ClassesAddUp(lines[..n], classes);
      var f, g := x => ClassCpu(lines, x), x => ClassCpu(lines[..n], x);
      SumOverSplit(classes, f, c);
      SumOverSplit(classes, g, c);
      SumOverSame(classes - {c}, f, g);
    }
  }

  lemma {:induction false} SumOverZero(s: set<string>)
    ensures SumOver(s, c => 0.0) == 0.0
  {
    if s != {} {
      var x :| x in s;
      SumOverSplit(s, c => 0.0, x);
      SumOverZero(s - {x});
    }
  }

  lemma SumLinesNext(lines: seq<Line>, line: Line)
    ensures SumLines(lines + [line]) == SumLines(lines) + line.cpu
  {
    assert (lines + [line])[..|lines|] == lines;
  }

  // ----- the sampler object -----

  class ThreadSampler {
    const root: Pid
    var seen: map<Tid, Row>
    var retired: seq<Retired>
    var generatorCpu: map<Pid, real>
    var generatorTree: set<Pid>

    ghost function Now(): State
      reads this
    {
      State(seen, retired, generatorCpu, generatorTree)
    }

    constructor (root: Pid)
      ensures this.root == root && Now() == START
    {
      this.root := root;
      seen, retired, generatorCpu, generatorTree := map[], [], map[], {};
    }

    method Drop(pids: set<Pid>)
      modifies `seen, `retired
      ensures Now() == Forget(old(Now()), pids)
    {
      seen := map t | t in seen && seen[t].pid !in pids :: seen[t];
      var kept: seq<Retired> := [];
      var i := |retired|;
      while i > 0
        invariant 0 <= i <= |retired| && retired == old(retired)
        invariant kept == KeepRetired(retired[i..], pids)
      {
        i := i - 1;
        assert retired[i..][1..] == retired[i + 1..];
        if retired[i].pid !in pids { kept := [retired[i]] + kept; }
      }
      assert retired[0..] == retired;
      retired := kept;
    }

    method Record(r: Reading)
      modifies `seen, `retired
      ensures Now() == Observe(old(Now()), r)
      ensures r.tid in seen && seen[r.tid] == Row(r.pid, r.name, r.cpu)
    {
      if r.tid in seen && r.cpu < seen[r.tid].cpu {
        var prior := seen[r.tid];
        retired := retired + [Retired(prior.pid, r.tid, prior.name, prior.cpu)];
      }
      seen := seen[r.tid := Row(r.pid, r.name, r.cpu)];
    }

    /** One tick. */
    method Sample(snap: Snapshot) returns (ghost visit: Visit)
      modifies this
      ensures Walked(root, old(Now()), snap, visit)
      ensures Now() == Tick(old(Now()), snap, visit)
    {
      ghost var before := Now();
      var generators := Generators(snap);
      var under := UnderAll(generators, snap.kids);
      var excluded := generators + generatorTree + under;
      generatorTree := generatorTree + under;
      Drop(excluded);
      ChargeAll(generators, snap.lifetime);
      var order := Walk(root, excluded, snap.kids);
      visit := Visit(under, order);
      assert excluded == Excluded(before, snap, visit);
      ghost var start := Now();
      assert start == Forget(before, excluded).(generatorTree := before.generatorTree + under,
                                                generatorCpu := ChargeGenerators(before.generatorCpu, generators, snap.lifetime));
      var i := 0;
      assert ReadingsOf(snap, order[..0]) == [];
      while i < |order|
        invariant 0 <= i <= |order|
        invariant Now() == ObserveAll(start, ReadingsOf(snap, order[..i]))
      {
        ReadingsNext(snap, order, i);
        if order[i] in snap.threads {
          RecordAll(snap.threads[order[i]]);
          ObserveAppend(start, ReadingsOf(snap, order[..i]), snap.threads[order[i]]);
        } else {
          assert ReadingsOf(snap, order[..i]) + [] == ReadingsOf(snap, order[..i]);
        }
        i := i + 1;
      }
      assert order[..i] == order;
    }

    method RecordAll(readings: seq<Reading>)
      modifies `seen, `retired
      ensures Now() == ObserveAll(old(Now()), readings)
    {
      var i := 0;
      while i < |readings|
        invariant 0 <= i <= |readings|
        invariant generatorCpu == old(generatorCpu) && generatorTree == old(generatorTree)
        invariant ObserveAll(Now(), readings[i..]) == ObserveAll(old(Now()), readings)
      {
        assert readings[i..][1..] == readings[i + 1..];
        Record(readings[i]);
        i := i + 1;
      }
    }

    method ChargeAll(generators: set<Pid>, lifetime: map<Pid, real>)
      modifies `generatorCpu
      ensures generatorCpu == ChargeGenerators(old(generatorCpu), generators, lifetime)
    {
      var rest := generators;
      assert generators - rest == {};
      while rest != {}
        invariant rest <= generators
        invariant generatorCpu == ChargeGenerators(old(generatorCpu), generators - rest, lifetime)
        decreases rest
      {
        var p :| p in rest;
        ChargeNext(old(generatorCpu), generators - rest, lifetime, p);
        assert generators - (rest - {p}) == generators - rest + {p};
        hide ChargeGenerators;
        if p in lifetime {
          generatorCpu := generatorCpu[p := Later(if p in generatorCpu then generatorCpu[p] else 0.0, lifetime[p])];
        }
        rest := rest - {p};
      }
    }

    // Every thread seen: the live ones, each once, then the retired ones in order.
    method AllLines() returns (lines: seq<Line>)
      ensures |lines| == |seen| + |retired|
      ensures ListsLive(lines[..|seen|], seen)
      ensures lines[|seen|..] == PastLines(retired)
      ensures SumLines(lines) == Total(Now())
    {
      hide ListsLive;
      hide SumLines;
      hide SumOver;
      hide SumRetired;
      hide CpuOf;
      var live := LiveLines(seen);
      var past := RetiredLines(retired);
      SumLinesAppend(live, past);
      lines := live + past;
      Halves(live, past);
    }
  }

  function LineOf(r: Retired): Line { Line(r.tid, r.name, r.cpu) }

  // The retired rows, in the order they were retired.
  function PastLines(retired: seq<Retired>): (lines: seq<Line>)
    ensures |lines| == |retired| && forall i :: 0 <= i < |retired| ==> lines[i] == LineOf(retired[i])
  {
    seq(|retired|, i requires 0 <= i < |retired| => LineOf(retired[i]))
  }

  lemma Halves(a: seq<Line>, b: seq<Line>)
    ensures (a + b)[..|a|] == a && (a + b)[|a|..] == b
  {
  }

  // `lines` shows exactly the rows of `seen`, each thread once.
  ghost predicate ListsLive(lines: seq<Line>, seen: map<Tid, Row>) {
    && (forall i :: 0 <= i < |lines| ==> Shows(lines[i], seen))
    && (forall i, j :: 0 <= i < j < |lines| ==> lines[i].tid != lines[j].tid)
    && (forall t :: t in seen ==> exists i :: 0 <= i < |lines| && lines[i].tid == t)
  }

  ghost predicate Shows(line: Line, seen: map<Tid, Row>) {
    line.tid in seen && line == Line(line.tid, seen[line.tid].name, seen[line.tid].cpu)
  }

  ghost predicate ListsOnly(lines: seq<Line>, seen: map<Tid, Row>, tids: set<Tid>) {
    && (forall i :: 0 <= i < |lines| ==> lines[i].tid in tids && Shows(lines[i], seen))
    && (forall i, j :: 0 <= i < j < |lines| ==> lines[i].tid != lines[j].tid)
    && (forall t :: t in tids ==> exists i :: 0 <= i < |lines| && lines[i].tid == t)
  }

  lemma ListsNext(lines: seq<Line>, seen: map<Tid, Row>, tids: set<Tid>, t: Tid)
    requires ListsOnly(lines, seen, tids) && t !in tids && t in seen
    ensures ListsOnly(lines + [Line(t, seen[t].name, seen[t].cpu)], seen, tids + {t})
  {
    var more := lines + [Line(t, seen[t].name, seen[t].cpu)];
    assert more[|lines|].tid == t;
    forall u | u in tids ensures exists i :: 0 <= i < |more| && more[i].tid == u {
      var i :| 0 <= i < |lines| && lines[i].tid == u;
      assert more[i].tid == u;
    }
  }

  method LiveLines(seen: map<Tid, Row>) returns (lines: seq<Line>)
    ensures SumLines(lines) == SumOver(seen.Keys, CpuOf(seen)) && |lines| == |seen| && ListsLive(lines, seen)
  {
    hide SumOver;
    hide SumLines;
    SumOverEmpty(CpuOf(seen));
    NoLines();
    lines := [];
    var rest := seen.Keys;
    assert |rest| == |seen|;
    assert seen.Keys - rest == {};
    while rest != {}
      invariant rest <= seen.Keys && |lines| + |rest| == |seen|
      invariant ListsOnly(lines, seen, seen.Keys - rest)
      invariant SumLines(lines) + SumOver(rest, CpuOf(seen)) == SumOver(seen.Keys, CpuOf(seen))
      decreases rest
    {
      var t :| t in rest;
      SumOverSplit(rest, CpuOf(seen), t);
      SumLinesNext(lines, Line(t, seen[t].name, seen[t].cpu));
      ListsNext(lines, seen, seen.Keys - rest, t);
      assert seen.Keys - (rest - {t}) == (seen.Keys - rest) + {t};
      hide ListsOnly;
      lines := lines + [Line(t, seen[t].name, seen[t].cpu)];
      rest := rest - {t};
    }
    assert seen.Keys - rest == seen.Keys;
  }

  lemma NoLines()
    ensures SumLines([]) == 0.0
  {
  }

  method RetiredLines(retired: seq<Retired>) returns (lines: seq<Line>)
    ensures SumLines(lines) == SumRetired(retired) && |lines| == |retired|
    ensures lines == PastLines(retired)
  {
    lines := [];
    var i := 0;
    while i < |retired|
      invariant 0 <= i <= |retired| && |lines| == i
      invariant forall j :: 0 <= j < i ==> lines[j] == LineOf(retired[j])
      invariant SumLines(lines) == SumRetired(retired[..i])
    {
      var r := retired[i];
      assert retired[..i + 1] == retired[..i] + [r];
      SumRetiredNext(retired[..i], r);
      SumLinesNext(lines, LineOf(r));
      lines := lines + [LineOf(r)];
      i := i + 1;
    }
    assert retired[..i] == retired;
  }

  lemma {:induction false} SumLinesAppend(a: seq<Line>, b: seq<Line>)
    ensures SumLines(a + b) == SumLines(a) + SumLines(b)
  {
    if b == [] {
      assert a + b == a;
    } else {
      var n := |b| - 1;
      SumLinesAppend(a, b[..n]);
      assert (a + b)[..|a| + n] == a + b[..n];
    }
  }

  method UnderAll(generators: set<Pid>, kids: Children) returns (under: set<Pid>)
    ensures forall x :: x in under <==> exists g :: g in generators && Descends(kids, {}, g, x)
  {
    under := {};
    var rest := generators;
    while rest != {}
      invariant rest <= generators
      invariant forall x :: x in under <==> exists g :: g in generators - rest && Descends(kids, {}, g, x)
      decreases rest
    {
      var g :| g in rest;
      var tree := Walk(g, {}, kids);
      under := under + Members(tree);
      rest := rest - {g};
    }
    assert generators - rest == generators;
  }

  lemma {:induction false} ReadingsNext(snap: Snapshot, order: seq<Pid>, i: nat)
    requires i < |order|
    ensures ReadingsOf(snap, order[..i + 1])
      == ReadingsOf(snap, order[..i]) + (if order[i] in snap.threads then snap.threads[order[i]] else [])
    decreases i
  {
    if i > 0 {
      ReadingsNext(snap, order[1..], i - 1);
      assert order[..i + 1][1..] == order[1..][..i] && order[..i][1..] == order[1..][..i - 1];
    } else {
      assert order[..1][1..] == [];
    }
  }

  lemma {:induction false} ObserveAppend(s: State, a: seq<Reading>, b: seq<Reading>)
    ensures ObserveAll(s, a + b) == ObserveAll(ObserveAll(s, a), b)
    decreases a
  {
    if a == [] {
      assert a + b == b;
    } else {
      assert (a + b)[1..] == a[1..] + b;
      ObserveAppend(Observe(s, a[0]), a[1..], b);
    }
  }
}
