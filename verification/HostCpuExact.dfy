/** What the host-CPU sampler reports, by the readings alone: which row stands for which reading after
    any run of ticks, and what the total adds up. */
module HostCpuExact {
  import opened Options
  import opened Reachability
  import opened ProcessTree
  import opened Sums
  import opened HostCpu

  // Every reading of a run, in the order it was taken.
  function AllReadings(run: seq<Moment>): seq<Reading> {
    if run == [] then [] else ReadingsAt(run[0]) + AllReadings(run[1..])
  }

  // ----- the table by the readings -----

  // Where the last reading of that tid is.
  function Last(readings: seq<Reading>, t: Tid): (k: Option<nat>)
    ensures k.Some? ==> k.value < |readings| && readings[k.value].tid == t
    ensures forall i :: (if k.Some? then k.value + 1 else 0) <= i < |readings| ==> readings[i].tid != t
  {
    if readings == [] then None
    else
      var n := |readings| - 1;
      if readings[n].tid == t then Some(n) else Last(readings[..n], t)
  }

  function RowOf(r: Reading): Row { Row(r.pid, r.name, r.cpu) }

  function RetiredOf(r: Reading): Retired { Retired(r.pid, r.tid, r.name, r.cpu) }

  // The readings that the next reading of their tid fell below, in the order it was taken.
  function FallenBelow(readings: seq<Reading>): seq<Retired> {
    if readings == [] then []
    else
      var n := |readings| - 1;
      var before := Last(readings[..n], readings[n].tid);
      FallenBelow(readings[..n])
      + (if before.Some? && readings[n].cpu < readings[before.value].cpu then [RetiredOf(readings[before.value])] else [])
  }

  // One row for each tid ever read, holding its last reading.
  ghost predicate HoldsLast(seen: map<Tid, Row>, readings: seq<Reading>) {
    forall t :: (t in seen <==> Last(readings, t).Some?) && (t in seen ==> seen[t] == RowOf(readings[Last(readings, t).value]))
  }

  ghost predicate SameRows(a: State, b: State) {
    a.seen == b.seen && a.retired == b.retired
  }

  lemma LastNext(readings: seq<Reading>, r: Reading, t: Tid)
    ensures Last(readings + [r], t) == if r.tid == t then Some(|readings|) else Last(readings, t)
  {
    assert (readings + [r])[..|readings|] == readings;
  }

  lemma ObserveOne(s: State, readings: seq<Reading>, r: Reading)
    ensures ObserveAll(s, readings + [r]) == Observe(ObserveAll(s, readings), r)
  {
    ObserveAppend(s, readings, [r]);
    assert [r][1..] == [];
  }

  lemma HoldsLastNext(seen: map<Tid, Row>, before: seq<Reading>, r: Reading)
    requires HoldsLast(seen, before)
    ensures HoldsLast(seen[r.tid := RowOf(r)], before + [r])
  {
    forall t ensures Last(before + [r], t) == if r.tid == t then Some(|before|) else Last(before, t) { LastNext(before, r, t); }
  }

  lemma FallenNext(before: seq<Reading>, r: Reading)
    ensures
      var k := Last(before, r.tid);
      FallenBelow(before + [r])
        == FallenBelow(before) + (if k.Some? && r.cpu < before[k.value].cpu then [RetiredOf(before[k.value])] else [])
  {
    var more := before + [r];
    assert more[..|before|] == before && more[|before|] == r;
    hide Last;
  }

  lemma {:induction false} TableOf(readings: seq<Reading>)
    ensures HoldsLast(ObserveAll(START, readings).seen, readings)
    ensures ObserveAll(START, readings).retired == FallenBelow(readings)
  {
    if readings != [] {
      var n := |readings| - 1;
      var before, r := readings[..n], readings[n];
      assert readings == before + [r];
      TableOf(before);
      ObserveOne(START, before, r);
      HoldsLastNext(ObserveAll(START, before).seen, before, r);
      FallenNext(before, r);
      assert r.tid in ObserveAll(START, before).seen <==> Last(before, r.tid).Some?;
      hide ObserveAll;
      hide Last;
      hide FallenBelow;
    }
  }

  // ----- forgetting late is forgetting from the start -----

  lemma {:induction false} KeepRetiredNext(rows: seq<Retired>, row: Retired, pids: set<Pid>)
    ensures KeepRetired(rows + [row], pids) == KeepRetired(rows, pids) + (if row.pid in pids then [] else [row])
  {
    if rows == [] {
      assert (rows + [row])[1..] == [];
    } else {
      KeepRetiredNext(rows[1..], row, pids);
      assert (rows + [row])[1..] == rows[1..] + [row];
    }
  }

  lemma {:induction false} KeepRetiredTwice(rows: seq<Retired>, a: set<Pid>, b: set<Pid>)
    requires a <= b
    ensures KeepRetired(KeepRetired(rows, a), b) == KeepRetired(rows, b)
  {
    if rows != [] {
      var rest := KeepRetired(rows[1..], a);
      KeepRetiredTwice(rows[1..], a, b);
      if rows[0].pid !in a {
        assert ([rows[0]] + rest)[1..] == rest;
      } else {
        assert [] + rest == rest;
      }
    }
  }

  lemma ForgetTwice(s: State, a: set<Pid>, b: set<Pid>)
    requires a <= b
    ensures SameRows(Forget(Forget(s, a), b), Forget(s, b))
  {
    KeepRetiredTwice(s.retired, a, b);
  }

  lemma ObserveForgets(s: State, all: State, r: Reading, pids: set<Pid>)
    requires SameRows(s, Forget(all, pids)) && r.pid !in pids
    ensures SameRows(Observe(s, r), Forget(Observe(all, r), pids))
  {
    if r.tid in all.seen {
      var prior := all.seen[r.tid];
      KeepRetiredNext(all.retired, Retired(prior.pid, r.tid, prior.name, prior.cpu), pids);
    }
    hide KeepRetired;
  }

  lemma {:induction false} ObserveAllForgets(s: State, all: State, readings: seq<Reading>, pids: set<Pid>)
    requires SameRows(s, Forget(all, pids)) && forall i :: 0 <= i < |readings| ==> readings[i].pid !in pids
    ensures SameRows(ObserveAll(s, readings), Forget(ObserveAll(all, readings), pids))
    decreases readings
  {
    if readings != [] {
      ObserveForgets(s, all, readings[0], pids);
      hide Forget;
      hide Observe;
      ObserveAllForgets(Observe(s, readings[0]), Observe(all, readings[0]), readings[1..], pids);
    }
  }

  // What a tick excludes is what it remembers as a generator's tree.
  lemma ExcludedIsTree(root: Pid, s: State, snap: Snapshot, visit: Visit)
    requires Walked(root, s, snap, visit)
    ensures Excluded(s, snap, visit) == s.generatorTree + visit.under
  {
    forall g | g in Generators(snap) ensures g in visit.under {
      DeclaredIsGenerator(snap, g);
      assert WasGenerator(snap, g);
    }
  }

  lemma TickForgets(root: Pid, s: State, all: State, snap: Snapshot, visit: Visit)
    requires Walked(root, s, snap, visit) && Labelled(snap) && SameRows(s, Forget(all, s.generatorTree))
    ensures
      var now := Tick(s, snap, visit);
      && now.generatorTree == s.generatorTree + visit.under
      && SameRows(now, Forget(ObserveAll(all, ReadingsOf(snap, visit.order)), now.generatorTree))
  {
    var pids := Excluded(s, snap, visit);
    ExcludedIsTree(root, s, snap, visit);
    TickFree(root, s, snap, visit);
    ForgetTwice(all, s.generatorTree, pids);
    assert SameRows(Forget(s, pids), Forget(all, pids));
    ReadingsFrom(snap, visit.order);
    forall x | x in visit.order ensures x !in pids {
      ReachesNeedsRoot(ChildrenOf(snap.kids), Outside(pids), root, x);
    }
    var f := Forget(s, pids).(generatorTree := s.generatorTree + visit.under,
                              generatorCpu := ChargeGenerators(s.generatorCpu, Generators(snap), snap.lifetime));
    ObserveAllForgets(f, all, ReadingsOf(snap, visit.order), pids);
  }

  lemma {:induction false} RunForgets(root: Pid, s: State, all: State, run: seq<Moment>)
    requires AllWalked(root, s, run) && forall i :: 0 <= i < |run| ==> Labelled(run[i].snap)
    requires SameRows(s, Forget(all, s.generatorTree))
    ensures
      var now := RunTicks(s, run);
      && SameRows(now, Forget(ObserveAll(all, AllReadings(run)), now.generatorTree))
      && forall x :: x in now.generatorTree <==> x in s.generatorTree || EverGenerator(run, x)
    decreases run
  {
    if run != [] {
      var snap, visit := run[0].snap, run[0].visit;
      TickForgets(root, s, all, snap, visit);
      ObserveAppend(all, ReadingsAt(run[0]), AllReadings(run[1..]));
      assert forall x :: x in visit.under <==> WasGenerator(snap, x);
      forall x ensures EverGenerator(run, x) <==> WasGenerator(snap, x) || EverGenerator(run[1..], x) {
        EverNext(run, x);
      }
      hide Tick;
      hide Forget;
      hide ObserveAll;
      hide WasGenerator;
      hide EverGenerator;
      RunForgets(root, Tick(s, snap, visit), ObserveAll(all, ReadingsAt(run[0])), run[1..]);
    }
  }

  lemma EverNext(run: seq<Moment>, x: Pid)
    requires run != []
    ensures EverGenerator(run, x) <==> WasGenerator(run[0].snap, x) || EverGenerator(run[1..], x)
  {
    hide WasGenerator;
    if i :| 0 <= i < |run| && WasGenerator(run[i].snap, x) {
      if i > 0 { assert run[1..][i - 1] == run[i]; }
    }
    if i :| 0 <= i < |run[1..]| && WasGenerator(run[1..][i].snap, x) { assert run[i + 1] == run[1..][i]; }
  }

  // The rows that everything read since the start leaves, without those of `pids`.
  ghost predicate RowsExactly(now: State, readings: seq<Reading>, pids: set<Pid>) {
    && (forall t :: t in now.seen <==> Last(readings, t).Some? && readings[Last(readings, t).value].pid !in pids)
    && (forall t :: t in now.seen ==> Last(readings, t).Some? && now.seen[t] == RowOf(readings[Last(readings, t).value]))
    && now.retired == KeepRetired(FallenBelow(readings), pids)
  }

  /** The whole table after any run, by the readings alone: a tid has a row exactly when its last reading
      is not of a process ever under a generator, and the row is that reading; the retired rows are, in
      order, the readings that the next reading of their tid fell below, without those of such processes.
      Forgetting when a generator becomes known is as if it had been known from the start. */
  lemma RowsByReadings(root: Pid, run: seq<Moment>)
    requires AllWalked(root, START, run) && forall i :: 0 <= i < |run| ==> Labelled(run[i].snap)
    ensures
      var now := RunTicks(START, run);
      && RowsExactly(now, AllReadings(run), now.generatorTree)
      && forall x :: x in now.generatorTree <==> EverGenerator(run, x)
  {
    assert SameRows(START, Forget(START, {}));
    assert START.generatorTree == {};
    hide *;
    RunForgets(root, START, START, run);
    TableOf(AllReadings(run));
    RowsWithout(RunTicks(START, run), ObserveAll(START, AllReadings(run)), AllReadings(run), RunTicks(START, run).generatorTree);
  }

  lemma RowsWithout(now: State, all: State, readings: seq<Reading>, pids: set<Pid>)
    requires SameRows(now, Forget(all, pids)) && HoldsLast(all.seen, readings) && all.retired == FallenBelow(readings)
    ensures RowsExactly(now, readings, pids)
  {
    hide FallenBelow;
    hide KeepRetired;
    hide Last;
  }

  // ----- what the total adds up -----

  // Reading `j` is the next one of the tid of reading `i`.
  ghost predicate NextOf(readings: seq<Reading>, i: nat, j: nat) {
    && i < j < |readings| && readings[j].tid == readings[i].tid
    && forall k :: i < k < j ==> readings[k].tid != readings[i].tid
  }

  // No later reading of its tid, or the next one is lower.
  ghost predicate Peak(readings: seq<Reading>, i: nat) {
    i < |readings| && forall j: nat :: NextOf(readings, i, j) ==> readings[j].cpu < readings[i].cpu
  }

  ghost function Peaks(readings: seq<Reading>): set<nat> {
    set i: nat | i < |readings| && Peak(readings, i)
  }

  // What a reading counts for when the processes of `pids` count nothing.
  function Charged(readings: seq<Reading>, pids: set<Pid>): nat -> real {
    (i: nat) => if i < |readings| && readings[i].pid !in pids then readings[i].cpu else 0.0
  }

  lemma NextOfMore(before: seq<Reading>, r: Reading, i: nat, j: nat)
    requires i < |before|
    ensures NextOf(before + [r], i, j) <==> NextOf(before, i, j) || (j == |before| && Last(before, r.tid) == Some(i))
  {
    var more := before + [r];
    assert forall k :: 0 <= k < |before| ==> more[k] == before[k];
    if NextOf(more, i, j) && j == |before| {
      var k := Last(before, r.tid);
      assert before[i].tid == r.tid;
      assert k.Some? && k.value >= i;
    }
  }

  lemma PeakNext(before: seq<Reading>, r: Reading, i: nat)
    requires i < |before|
    ensures Peak(before + [r], i) <==> Peak(before, i) && !(Last(before, r.tid) == Some(i) && r.cpu >= before[i].cpu)
  {
    var more, k, n := before + [r], Last(before, r.tid), |before|;
    forall j: nat ensures NextOf(more, i, j) <==> NextOf(before, i, j) || (j == n && k == Some(i)) {
      NextOfMore(before, r, i, j);
    }
    assert forall j: nat :: NextOf(before, i, j) ==> j < n;
    hide NextOf;
    hide Last;
    assert more[i] == before[i] && more[n] == r;
    if Peak(more, i) {
      forall j: nat | NextOf(before, i, j) ensures before[j].cpu < before[i].cpu {
        assert NextOf(more, i, j);
        assert more[j] == before[j];
      }
      if k == Some(i) { assert NextOf(more, i, n); }
    } else {
      var j: nat :| NextOf(more, i, j) && more[j].cpu >= more[i].cpu;
      if NextOf(before, i, j) { assert more[j] == before[j]; }
    }
  }

  lemma EndIsPeak(readings: seq<Reading>, t: Tid)
    ensures Last(readings, t).Some? ==> Peak(readings, Last(readings, t).value)
  {
  }

  // The last reading of the tid of `r`, unless `r` falls below it: no peak any more.
  ghost function Replaced(before: seq<Reading>, r: Reading): set<nat> {
    var k := Last(before, r.tid);
    if k.Some? && r.cpu >= before[k.value].cpu then {k.value} else {}
  }

  lemma PeaksNext(before: seq<Reading>, r: Reading)
    ensures Replaced(before, r) <= Peaks(before)
    ensures Peaks(before + [r]) == Peaks(before) - Replaced(before, r) + {|before|}
  {
    EndIsPeak(before, r.tid);
    EndIsPeak(before + [r], r.tid);
    LastNext(before, r, r.tid);
    hide Peak;
    forall i: nat ensures i in Peaks(before + [r]) <==> i in Peaks(before) - Replaced(before, r) + {|before|} {
      if i < |before| { PeakNext(before, r, i); }
    }
  }

  ghost function PeakSum(readings: seq<Reading>, pids: set<Pid>): real {
    SumOver(Peaks(readings), Charged(readings, pids))
  }

  lemma PeakSumNext(before: seq<Reading>, r: Reading, pids: set<Pid>)
    ensures
      PeakSum(before + [r], pids)
        == PeakSum(before, pids) + (if r.pid in pids then 0.0 else r.cpu) - SumOver(Replaced(before, r), Charged(before, pids))
  {
    hide SumOver;
    hide Peaks;
    PeaksNext(before, r);
    var more, gone := before + [r], Replaced(before, r);
    hide Replaced;
    var f, g := Charged(before, pids), Charged(more, pids);
    var n: nat := |before|;
    assert n !in Peaks(before) by { NoPeakBeyond(before); }
    SumOverSplit(Peaks(more), g, n);
    var rest := Peaks(before) - gone;
    assert Peaks(more) - {n} == rest;
    NoPeakBeyond(before);
    SumOverSame(rest, f, g);
    SumOverUnion(rest, gone, f);
    assert rest + gone == Peaks(before);
  }

  lemma NoPeakBeyond(readings: seq<Reading>)
    ensures forall i :: i in Peaks(readings) ==> i < |readings|
  {
  }

  lemma ReplacedSum(before: seq<Reading>, r: Reading, pids: set<Pid>)
    ensures
      var k := Last(before, r.tid);
      SumOver(Replaced(before, r), Charged(before, pids))
        == if k.Some? && r.cpu >= before[k.value].cpu then Charged(before, pids)(k.value) else 0.0
  {
    hide Last;
    hide SumOver;
    var k, f := Last(before, r.tid), Charged(before, pids);
    SumOverEmpty(f);
    if k.Some? {
      SumOverSplit({k.value}, f, k.value);
      assert {k.value} - {k.value} == {};
    }
  }

  // What a row counts for.
  function Counts(seen: map<Tid, Row>, pids: set<Pid>): Tid -> real {
    (t: Tid) => if t in seen && seen[t].pid !in pids then seen[t].cpu else 0.0
  }

  lemma {:induction false} NothingCounts(tids: set<Tid>, f: Tid -> real)
    requires forall t :: t in tids ==> f(t) == 0.0
    ensures SumOver(tids, f) == 0.0
  {
    if tids != {} {
      var t :| t in tids;
      SumOverSplit(tids, f, t);
      NothingCounts(tids - {t}, f);
    }
  }

  lemma KeptCounts(seen: map<Tid, Row>, pids: set<Pid>)
    ensures
      var kept := map t | t in seen && seen[t].pid !in pids :: seen[t];
      SumOver(kept.Keys, CpuOf(kept)) == SumOver(seen.Keys, Counts(seen, pids))
  {
    hide SumOver;
    var kept := map t | t in seen && seen[t].pid !in pids :: seen[t];
    SumOverSame(kept.Keys, CpuOf(kept), Counts(seen, pids));
    NothingCounts(seen.Keys - kept.Keys, Counts(seen, pids));
    SumOverUnion(kept.Keys, seen.Keys - kept.Keys, Counts(seen, pids));
    assert kept.Keys + (seen.Keys - kept.Keys) == seen.Keys;
  }

  lemma CountsNext(seen: map<Tid, Row>, t: Tid, row: Row, pids: set<Pid>)
    ensures
      var next := seen[t := row];
      SumOver(next.Keys, Counts(next, pids))
        == SumOver(seen.Keys, Counts(seen, pids)) + (if row.pid in pids then 0.0 else row.cpu) - Counts(seen, pids)(t)
  {
    hide SumOver;
    var next := seen[t := row];
    SumOverSplit(next.Keys, Counts(next, pids), t);
    assert next.Keys - {t} == seen.Keys - {t};
    SumOverSame(seen.Keys - {t}, Counts(next, pids), Counts(seen, pids));
    if t in seen { SumOverSplit(seen.Keys, Counts(seen, pids), t); } else { assert seen.Keys - {t} == seen.Keys; }
  }

  ghost function Kept(s: State, pids: set<Pid>): real {
    SumOver(s.seen.Keys, Counts(s.seen, pids)) + SumRetired(KeepRetired(s.retired, pids))
  }

  lemma TotalIsKept(s: State, pids: set<Pid>)
    ensures Total(Forget(s, pids)) == Kept(s, pids)
  {
    KeptCounts(s.seen, pids);
    hide SumOver;
    hide SumRetired;
    hide KeepRetired;
  }

  lemma KeptNext(s: State, r: Reading, pids: set<Pid>)
    ensures
      var was := Counts(s.seen, pids)(r.tid);
      Kept(Observe(s, r), pids) == Kept(s, pids) + (if r.pid in pids then 0.0 else r.cpu)
        - (if r.tid in s.seen && r.cpu >= s.seen[r.tid].cpu then was else 0.0)
  {
    hide SumOver;
    hide KeepRetired;
    hide SumRetired;
    CountsNext(s.seen, r.tid, RowOf(r), pids);
    if r.tid in s.seen && r.cpu < s.seen[r.tid].cpu {
      var prior := s.seen[r.tid];
      var row := Retired(prior.pid, r.tid, prior.name, prior.cpu);
      KeepRetiredNext(s.retired, row, pids);
      SumRetiredNext(KeepRetired(s.retired, pids), row);
      assert KeepRetired(s.retired, pids) + [] == KeepRetired(s.retired, pids);
    }
  }

  lemma {:induction false} KeptIsPeaks(readings: seq<Reading>, pids: set<Pid>)
    ensures Kept(ObserveAll(START, readings), pids) == PeakSum(readings, pids)
  {
    if readings == [] {
      assert Peaks(readings) == {};
      SumOverEmpty(Counts(map[], pids));
      SumOverEmpty(Charged(readings, pids));
    } else {
      var n := |readings| - 1;
      var before, r := readings[..n], readings[n];
      assert readings == before + [r];
      KeptIsPeaks(before, pids);
      TableOf(before);
      ObserveOne(START, before, r);
      KeptNext(ObserveAll(START, before), r, pids);
      PeakSumNext(before, r, pids);
      ReplacedSum(before, r, pids);
      var k := Last(before, r.tid);
      assert k.Some? <==> r.tid in ObserveAll(START, before).seen;
      hide Kept;
      hide PeakSum;
      hide ObserveAll;
      hide Last;
      hide FallenBelow;
    }
  }

  /** The total after any run, by the readings alone: the readings that are the last of their tid, or
      that its next reading fell below, added up without those of a process ever under a generator. */
  lemma TotalByReadings(root: Pid, run: seq<Moment>)
    requires AllWalked(root, START, run) && forall i :: 0 <= i < |run| ==> Labelled(run[i].snap)
    ensures
      var now := RunTicks(START, run);
      && Total(now) == PeakSum(AllReadings(run), now.generatorTree)
      && forall x :: x in now.generatorTree <==> EverGenerator(run, x)
  {
    assert SameRows(START, Forget(START, {}));
    RunForgets(root, START, START, run);
    var now := RunTicks(START, run);
    var all := ObserveAll(START, AllReadings(run));
    assert Total(now) == Total(Forget(all, now.generatorTree));
    hide *;
    TotalIsKept(all, now.generatorTree);
    KeptIsPeaks(AllReadings(run), now.generatorTree);
  }

  // ----- the total and the last readings -----

  ghost function LastRead(readings: seq<Reading>): set<nat> {
    set i: nat | i < |readings| && Last(readings, readings[i].tid) == Some(i)
  }

  // A charged reading that the next of its tid fell below: its tid went to another thread.
  ghost predicate Reused(readings: seq<Reading>, pids: set<Pid>) {
    exists i: nat, j: nat :: NextOf(readings, i, j) && readings[j].cpu < readings[i].cpu && readings[i].pid !in pids
  }

  lemma LastIsPeak(readings: seq<Reading>)
    ensures LastRead(readings) <= Peaks(readings)
  {
    hide Last;
  }

  lemma SomeNext(readings: seq<Reading>, i: nat, j: nat) returns (k: nat)
    requires i < j < |readings| && readings[j].tid == readings[i].tid
    ensures NextOf(readings, i, k)
    decreases j
  {
    k := j;
    if m :| i < m < j && readings[m].tid == readings[i].tid { k := SomeNext(readings, i, m); }
  }

  lemma SumOverPositive(s: set<nat>, f: nat -> real, x: nat)
    requires x in s && f(x) > 0.0 && forall y :: y in s ==> f(y) >= 0.0
    ensures SumOver(s, f) > 0.0
  {
    SumOverSplit(s, f, x);
    SumOverNonNegative(s - {x}, f);
  }

  lemma {:induction false} PeaksZero(s: set<nat>, f: nat -> real)
    requires forall x :: x in s ==> f(x) == 0.0
    ensures SumOver(s, f) == 0.0
  {
    if s != {} {
      var x :| x in s;
      SumOverSplit(s, f, x);
      PeaksZero(s - {x}, f);
    }
  }

  // The peaks that are not last readings.
  lemma Overtaken(readings: seq<Reading>, pids: set<Pid>)
    requires forall i :: 0 <= i < |readings| ==> readings[i].cpu >= 0.0
    ensures Reused(readings, pids) <==> exists i: nat :: i in Peaks(readings) - LastRead(readings) && Charged(readings, pids)(i) > 0.0
  {
    if Reused(readings, pids) {
      var i: nat, j: nat :| NextOf(readings, i, j) && readings[j].cpu < readings[i].cpu && readings[i].pid !in pids;
      forall m: nat | NextOf(readings, i, m) ensures m == j {}
      assert Peak(readings, i);
      assert i in Peaks(readings) - LastRead(readings) && Charged(readings, pids)(i) > 0.0;
    }
    if i: nat :| i in Peaks(readings) - LastRead(readings) && Charged(readings, pids)(i) > 0.0 {
      var m := Last(readings, readings[i].tid);
      var j := SomeNext(readings, i, m.value);
      assert NextOf(readings, i, j) && readings[j].cpu < readings[i].cpu;
    }
  }

  /** The total is at least the last readings of the tids ever read, without those of generators, and it
      is no more than them exactly when no such reading was followed by a lower one of its tid. */
  lemma TotalCoversLast(root: Pid, run: seq<Moment>)
    requires AllWalked(root, START, run) && forall i :: 0 <= i < |run| ==> Labelled(run[i].snap)
    requires forall i :: 0 <= i < |AllReadings(run)| ==> AllReadings(run)[i].cpu >= 0.0
    ensures
      var now, readings := RunTicks(START, run), AllReadings(run);
      var last := SumOver(LastRead(readings), Charged(readings, now.generatorTree));
      Total(now) >= last && (Total(now) == last <==> !Reused(readings, now.generatorTree))
  {
    TotalByReadings(root, run);
    var readings, pids := AllReadings(run), RunTicks(START, run).generatorTree;
    hide RunTicks;
    hide AllReadings;
    PeaksCoverLast(readings, pids);
  }

  lemma PeaksCoverLast(readings: seq<Reading>, pids: set<Pid>)
    requires forall i :: 0 <= i < |readings| ==> readings[i].cpu >= 0.0
    ensures
      var last := SumOver(LastRead(readings), Charged(readings, pids));
      PeakSum(readings, pids) >= last && (PeakSum(readings, pids) == last <==> !Reused(readings, pids))
  {
    var f, peaks, lasts := Charged(readings, pids), Peaks(readings), LastRead(readings);
    LastIsPeak(readings);
    Overtaken(readings, pids);
    assert forall i :: f(i) >= 0.0;
    hide SumOver;
    hide Peaks;
    hide LastRead;
    hide Reused;
    SumOverUnion(lasts, peaks - lasts, f);
    assert lasts + (peaks - lasts) == peaks;
    SumOverNonNegative(peaks - lasts, f);
    if i :| i in peaks - lasts && f(i) > 0.0 {
      SumOverPositive(peaks - lasts, f, i);
    } else {
      PeaksZero(peaks - lasts, f);
    }
  }

  // ----- what generators are charged -----

  // At that tick the pid is declared and its lifetime CPU can be read.
  ghost predicate ReadsGenerator(m: Moment, p: Pid) {
    p in Generators(m.snap) && p in m.snap.lifetime
  }

  // Such a tick of the run read that much.
  ghost predicate ReadAs(run: seq<Moment>, p: Pid, cpu: real) {
    exists i :: 0 <= i < |run| && ReadsGenerator(run[i], p) && run[i].snap.lifetime[p] == cpu
  }

  // `cpu` is the highest of `before` and what the run read of `p`.
  ghost predicate HighestOf(cpu: real, before: real, run: seq<Moment>, p: Pid) {
    && cpu >= before && (forall x :: ReadAs(run, p, x) ==> cpu >= x)
    && (cpu == before || ReadAs(run, p, cpu))
  }

  function Charge(cpu: map<Pid, real>, p: Pid): real {
    if p in cpu then cpu[p] else 0.0
  }

  lemma ReadAsNext(run: seq<Moment>, p: Pid, x: real)
    requires run != []
    ensures ReadAs(run, p, x) <==> ReadAs(run[1..], p, x) || (ReadsGenerator(run[0], p) && run[0].snap.lifetime[p] == x)
  {
    if i :| 0 <= i < |run| && ReadsGenerator(run[i], p) && run[i].snap.lifetime[p] == x {
      if i > 0 { assert run[1..][i - 1] == run[i]; }
    }
    if i :| 0 <= i < |run[1..]| && ReadsGenerator(run[1..][i], p) && run[1..][i].snap.lifetime[p] == x {
      assert run[i + 1] == run[1..][i];
    }
  }

  lemma {:induction false} ObserveAllCharges(s: State, readings: seq<Reading>)
    ensures ObserveAll(s, readings).generatorCpu == s.generatorCpu
    decreases readings
  {
    if readings != [] { ObserveAllCharges(Observe(s, readings[0]), readings[1..]); }
  }

  // One tick raises what the generators it can read are charged, and nothing else.
  lemma TickCharges(s: State, m: Moment, p: Pid)
    ensures
      var was, now := s.generatorCpu, Tick(s, m.snap, m.visit).generatorCpu;
      && (p in now <==> p in was || ReadsGenerator(m, p))
      && (!ReadsGenerator(m, p) ==> Charge(now, p) == Charge(was, p))
      && (ReadsGenerator(m, p) ==>
            && Charge(now, p) >= Charge(was, p) && Charge(now, p) >= m.snap.lifetime[p]
            && (Charge(now, p) == Charge(was, p) || Charge(now, p) == m.snap.lifetime[p]))
  {
    var f := Forget(s, Excluded(s, m.snap, m.visit)).(
               generatorTree := s.generatorTree + m.visit.under,
               generatorCpu := ChargeGenerators(s.generatorCpu, Generators(m.snap), m.snap.lifetime));
    ObserveAllCharges(f, ReadingsAt(m));
  }

  lemma {:induction false} ChargesFrom(s: State, run: seq<Moment>, p: Pid)
    ensures
      var now := RunTicks(s, run).generatorCpu;
      && (p in now <==> p in s.generatorCpu || exists x :: ReadAs(run, p, x))
      && HighestOf(Charge(now, p), Charge(s.generatorCpu, p), run, p)
    decreases run
  {
    if run == [] {
      assert forall x :: !ReadAs(run, p, x);
    } else {
      var m := run[0];
      var next := Tick(s, m.snap, m.visit);
      TickCharges(s, m, p);
      forall x ensures ReadAs(run, p, x) <==> ReadAs(run[1..], p, x) || (ReadsGenerator(m, p) && m.snap.lifetime[p] == x) {
        ReadAsNext(run, p, x);
      }
      assert ReadsGenerator(m, p) ==> ReadAs(run, p, m.snap.lifetime[p]);
      hide Tick;
      hide ReadAs;
      ChargesFrom(next, run[1..], p);
    }
  }

  /** A generator is charged the highest lifetime CPU any tick read of it while it was declared, and no
      process that none did is charged anything. */
  lemma GeneratorsCharged(run: seq<Moment>, p: Pid)
    ensures
      var now := RunTicks(START, run).generatorCpu;
      && (p in now <==> exists x :: ReadAs(run, p, x))
      && (p in now ==> HighestOf(now[p], 0.0, run, p))
  {
    ChargesFrom(START, run, p);
  }
}
