/** The calibration set: frames of several directories interleaved, then fed in batches. */
module Calibration {
  import opened Options
  import opened Sequences

  const IMAGES := 256
  const BATCH := 8

  // The frame at place `pos` of directory `dir`'s sorted list.
  datatype File = File(dir: nat, pos: nat)

  // ----- the interleave -----

  // Round `r` takes the frame at place `r` of each of the first `n` directories that has one.
  function Round(sizes: seq<nat>, r: nat, n: nat): seq<File>
    requires n <= |sizes|
  {
    if n == 0 then [] else Round(sizes, r, n - 1) + (if r < sizes[n - 1] then [File(n - 1, r)] else [])
  }

  function Rounds(sizes: seq<nat>, k: nat): seq<File> {
    if k == 0 then [] else Rounds(sizes, k - 1) + Round(sizes, k - 1, |sizes|)
  }

  function Longest(sizes: seq<nat>): nat {
    if sizes == [] then 0
    else
      var before, last := Longest(sizes[..|sizes| - 1]), sizes[|sizes| - 1];
      if before >= last then before else last
  }

  // The places one directory contributes, in order.
  function Of(files: seq<File>, d: nat): seq<int> {
    if files == [] then []
    else
      var f := files[|files| - 1];
      Of(files[..|files| - 1], d) + (if f.dir == d then [f.pos] else [])
  }

  // The places from zero up to `n`.
  function Upto(n: nat): (s: seq<int>)
    ensures |s| == n
  {
    if n == 0 then [] else Upto(n - 1) + [n - 1]
  }

  function Min(a: int, b: int): int { if a <= b then a else b }

  lemma {:induction false} OfAdds(a: seq<File>, b: seq<File>, d: nat)
    ensures Of(a + b, d) == Of(a, d) + Of(b, d)
  {
    if b == [] {
      assert a + b == a;
    } else {
      OfAdds(a, b[..|b| - 1], d);
      assert (a + b)[..|a| + |b| - 1] == a + b[..|b| - 1];
    }
  }

  lemma {:induction false} OfNext(a: seq<File>, f: File, d: nat)
    ensures Of(a + [f], d) == Of(a, d) + (if f.dir == d then [f.pos] else [])
  {
    assert (a + [f])[..|a|] == a;
  }

  // A round takes one frame of each directory still long enough, and none of the others.
  lemma {:induction false} OfRound(sizes: seq<nat>, r: nat, n: nat, d: nat)
    requires n <= |sizes|
    ensures Of(Round(sizes, r, n), d) == if d < n && r < sizes[d] then [r] else []
  {
    if d < n && r < sizes[d] { OfRoundOne(sizes, r, n, d); } else { OfRoundNone(sizes, r, n, d); }
  }

  lemma {:induction false} OfRoundNone(sizes: seq<nat>, r: nat, n: nat, d: nat)
    requires n <= |sizes| && (d >= n || r >= sizes[d])
    ensures Of(Round(sizes, r, n), d) == []
  {
    if n > 0 {
      hide *;
      OfRoundNone(sizes, r, n - 1, d);
      RoundNext(sizes, r, n, d);
    }
  }

  lemma {:induction false} OfRoundOne(sizes: seq<nat>, r: nat, n: nat, d: nat)
    requires d < n <= |sizes| && r < sizes[d]
    ensures Of(Round(sizes, r, n), d) == [r]
  {
    hide *;
    RoundNext(sizes, r, n, d);
    if d == n - 1 { OfRoundNone(sizes, r, n - 1, d); } else { OfRoundOne(sizes, r, n - 1, d); }
  }

  lemma {:induction false} RoundNext(sizes: seq<nat>, r: nat, n: nat, d: nat)
    requires 0 < n <= |sizes|
    ensures Of(Round(sizes, r, n), d) == Of(Round(sizes, r, n - 1), d) + (if d == n - 1 && r < sizes[d] then [r] else [])
  {
    if r < sizes[n - 1] {
      OfNext(Round(sizes, r, n - 1), File(n - 1, r), d);
    } else {
      assert Round(sizes, r, n) == Round(sizes, r, n - 1);
    }
  }

  lemma {:induction false} OfRounds(sizes: seq<nat>, k: nat, d: nat)
    requires d < |sizes|
    ensures Of(Rounds(sizes, k), d) == Upto(Min(k, sizes[d]))
  {
    if k == 0 {
      assert Upto(Min(k, sizes[d])) == [];
    } else {
      OfRounds(sizes, k - 1, d);
      OfRoundsNext(sizes, k, d, Upto(Min(k - 1, sizes[d])));
      UptoMin(k, sizes[d]);
    }
  }

  lemma {:induction false} OfRoundsNext(sizes: seq<nat>, k: nat, d: nat, before: seq<int>)
    requires k > 0 && d < |sizes| && Of(Rounds(sizes, k - 1), d) == before
    ensures Of(Rounds(sizes, k), d) == before + (if k - 1 < sizes[d] then [k - 1] else [])
  {
    hide Of;
    hide Round;
    OfRound(sizes, k - 1, |sizes|, d);
    OfAdds(Rounds(sizes, k - 1), Round(sizes, k - 1, |sizes|), d);
  }

  lemma {:induction false} UptoMin(k: nat, size: nat)
    requires k > 0
    ensures Upto(Min(k - 1, size)) + (if k - 1 < size then [k - 1] else []) == Upto(Min(k, size))
  {
  }

  lemma {:induction false} RoundsNext(sizes: seq<nat>, k: nat)
    requires k > 0
    ensures Rounds(sizes, k) == Rounds(sizes, k - 1) + Round(sizes, k - 1, |sizes|)
  {
  }

  lemma {:induction false} LongestBounds(sizes: seq<nat>, d: nat)
    requires d < |sizes|
    ensures sizes[d] <= Longest(sizes)
  {
    if d < |sizes| - 1 { LongestBounds(sizes[..|sizes| - 1], d); }
  }

  /** The interleave is each directory's whole list, in its own order. */
  lemma {:induction false} InterleaveKeepsOrder(sizes: seq<nat>, d: nat)
    requires d < |sizes|
    ensures Of(Rounds(sizes, Longest(sizes)), d) == Upto(sizes[d])
  {
    LongestBounds(sizes, d);
    OfRounds(sizes, Longest(sizes), d);
  }

  // A stretch of a round takes no more than one frame of any directory.
  lemma {:induction false} OfPrefix(files: seq<File>, i: nat, d: nat)
    requires i <= |files|
    ensures |Of(files[..i], d)| <= |Of(files, d)|
  {
    assert files == files[..i] + files[i..];
    OfAdds(files[..i], files[i..], d);
  }

  // Any prefix is whole rounds and a part of one more.
  lemma {:induction false} PrefixIsRounds(sizes: seq<nat>, k: nat, i: nat) returns (r: nat)
    requires i <= |Rounds(sizes, k)|
    ensures forall d :: 0 <= d < |sizes| ==> Min(r, sizes[d]) <= |Of(Rounds(sizes, k)[..i], d)| <= Min(r + 1, sizes[d])
  {
    if k == 0 {
      r := 0;
    } else {
      hide *;
      RoundsNext(sizes, k);
      var before, last := Rounds(sizes, k - 1), Round(sizes, k - 1, |sizes|);
      if i <= |before| {
        r := PrefixIsRounds(sizes, k - 1, i);
        assert Rounds(sizes, k)[..i] == before[..i];
      } else {
        r := k - 1;
        assert Rounds(sizes, k)[..i] == before + last[..i - |before|];
        forall d | 0 <= d < |sizes| ensures Min(r, sizes[d]) <= |Of(Rounds(sizes, k)[..i], d)| <= Min(r + 1, sizes[d]) {
          PartOfRound(sizes, r, i - |before|, d);
        }
      }
    }
  }

  lemma {:induction false} PartOfRound(sizes: seq<nat>, r: nat, j: nat, d: nat)
    requires j <= |Round(sizes, r, |sizes|)| && d < |sizes|
    ensures Min(r, sizes[d]) <= |Of(Rounds(sizes, r) + Round(sizes, r, |sizes|)[..j], d)| <= Min(r + 1, sizes[d])
  {
    var last := Round(sizes, r, |sizes|);
    OfAdds(Rounds(sizes, r), last[..j], d);
    OfRounds(sizes, r, d);
    OfPrefix(last, j, d);
    OfRound(sizes, r, |sizes|, d);
    hide Of;
    hide Rounds;
    hide Round;
  }

  /** Cut anywhere, the set holds every subject: each directory has given all it has, or no fewer than
      one less than any other. */
  lemma {:induction false} EveryPrefixIsFair(sizes: seq<nat>, i: nat, d: nat, e: nat)
    requires i <= |Rounds(sizes, Longest(sizes))| && d < |sizes| && e < |sizes|
    ensures
      var cut := Rounds(sizes, Longest(sizes))[..i];
      |Of(cut, d)| >= Min(sizes[d], |Of(cut, e)| - 1)
  {
    var r := PrefixIsRounds(sizes, Longest(sizes), i);
  }

  method CalibrationFiles(sizes: seq<nat>) returns (interleaved: seq<File>)
    ensures interleaved == Rounds(sizes, Longest(sizes))
  {
    interleaved := [];
    for index := 0 to Longest(sizes)
      invariant interleaved == Rounds(sizes, index)
    {
      ghost var start := interleaved;
      for d := 0 to |sizes|
        invariant interleaved == start + Round(sizes, index, d)
      {
        if index < sizes[d] { interleaved := interleaved + [File(d, index)]; }
      }
    }
  }

  // The files the feeder takes.
  function Chosen(sizes: seq<nat>): seq<File> {
    var all := Rounds(sizes, Longest(sizes));
    if |all| <= IMAGES then all else all[..IMAGES]
  }

  /** The files calibrated on are the first of the interleave, as many as are asked for or all there are,
      and fair between directories however many there are. */
  lemma {:induction false} ChosenIsFair(sizes: seq<nat>, d: nat, e: nat)
    requires d < |sizes| && e < |sizes|
    ensures |Of(Chosen(sizes), d)| >= Min(sizes[d], |Of(Chosen(sizes), e)| - 1)
    ensures Chosen(sizes) <= Rounds(sizes, Longest(sizes)) && |Chosen(sizes)| <= IMAGES
    ensures |Chosen(sizes)| == IMAGES || Of(Chosen(sizes), d) == Upto(sizes[d])
  {
    InterleaveKeepsOrder(sizes, d);
    var all := Rounds(sizes, Longest(sizes));
    assert all[..|all|] == all;
    EveryPrefixIsFair(sizes, if |all| <= IMAGES then |all| else IMAGES, d, e);
  }

  // ----- batches -----

  // The frames that decode.
  function Decoded<T>(frames: seq<Option<T>>): (r: seq<T>)
    ensures |r| <= |frames|
  {
    if frames == [] then []
    else
      var f := frames[|frames| - 1];
      Decoded(frames[..|frames| - 1]) + (if f.Some? then [f.value] else [])
  }

  // How many of the first `n` frames decode.
  ghost function Readable<T>(frames: seq<Option<T>>, n: nat): set<nat>
    requires n <= |frames|
  {
    set i: nat | i < n && frames[i].Some?
  }

  /** Every frame that decodes is kept, in its place among those, and nothing else is. */
  lemma {:induction false} DecodedInOrder<T>(frames: seq<Option<T>>)
    ensures |Decoded(frames)| == |Readable(frames, |frames|)|
    ensures forall i: nat :: i < |frames| && frames[i].Some? ==>
      |Readable(frames, i)| < |Decoded(frames)| && Decoded(frames)[|Readable(frames, i)|] == frames[i].value
  {
    if frames != [] {
      var n := |frames| - 1;
      var before := Decoded(frames[..n]);
      DecodedInOrder(frames[..n]);
      forall i: nat | i <= n ensures Readable(frames[..n], i) == Readable(frames, i) {}
      ReadableNext(frames, n);
      assert Decoded(frames) == before + if frames[n].Some? then [frames[n].value] else [];
      hide Decoded;
      hide Readable;
      forall i: nat | i < |frames| && frames[i].Some?
        ensures |Readable(frames, i)| < |Decoded(frames)| && Decoded(frames)[|Readable(frames, i)|] == frames[i].value {
        if i < n { assert frames[..n][i] == frames[i]; }
      }
    }
  }

  lemma ReadableNext<T>(frames: seq<Option<T>>, n: nat)
    requires n < |frames|
    ensures |Readable(frames, n + 1)| == |Readable(frames, n)| + if frames[n].Some? then 1 else 0
  {
    assert Readable(frames, n + 1) == Readable(frames, n) + if frames[n].Some? then {n} else {};
  }

  lemma {:induction false} FullLength<T>(batches: seq<seq<T>>)
    requires forall i :: 0 <= i < |batches| ==> |batches[i]| == BATCH
    ensures |Flatten(batches)| == BATCH * |batches|
  {
    if batches != [] { FullLength(batches[..|batches| - 1]); }
  }

  // How many batches the feeder allows for this many files.
  function Limit(files: nat): nat { (files + BATCH - 1) / BATCH }

  // Batches of what decodes: in order, all full but perhaps the last, which is not empty.
  ghost predicate Batched<T(!new)>(frames: seq<Option<T>>, batches: seq<seq<T>>) {
    && Flatten(batches) == Decoded(frames)
    && (forall i :: 0 <= i < |batches| - 1 ==> |batches[i]| == BATCH)
    && (batches != [] ==> 0 < |batches[|batches| - 1]| <= BATCH)
  }

  lemma NothingFlat<T>()
    ensures Flatten<T>([]) == []
  {
  }

  method CalibrationBatches<T(!new)>(frames: seq<Option<T>>) returns (batches: seq<seq<T>>)
    ensures Batched(frames, batches)
  {
    hide Flatten;
    assert Flatten<T>([]) == [] by { NothingFlat<T>(); }
    batches := [];
    var pending: seq<T> := [];
    for i := 0 to |frames|
      invariant |pending| < BATCH && forall k :: 0 <= k < |batches| ==> |batches[k]| == BATCH
      invariant Flatten(batches) + pending == Decoded(frames[..i])
    {
      assert frames[..i + 1][..i] == frames[..i];
      if frames[i].None? { continue; }
      pending := pending + [frames[i].value];
      if |pending| < BATCH { continue; }
      FlattenNext(batches, pending);
      batches := batches + [pending];
      pending := [];
    }
    assert frames[..|frames|] == frames;
    FlattenNext(batches, pending);
    if pending != [] { batches := batches + [pending]; }
  }

  /** The feeder's limit never cuts the set short: there are just enough batches for the frames that
      decode, and never more than the limit counted from the files. */
  lemma {:induction false} LimitSuffices<T(!new)>(frames: seq<Option<T>>, batches: seq<seq<T>>)
    requires Batched(frames, batches)
    ensures |batches| == Limit(|Decoded(frames)|) <= Limit(|frames|)
  {
    if batches != [] {
      var n := |batches| - 1;
      FullLength(batches[..n]);
      assert |Flatten(batches)| == BATCH * n + |batches[n]|;
    }
  }
}
