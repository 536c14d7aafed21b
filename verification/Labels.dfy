/** Track labels: each id gets the next number when it is first seen, so a rendering says which rows
    share an identity and nothing about the ids themselves. */
module Labels {
  import opened Options

  // ----- labelling one stream -----

  // The label of `id`, minted if it has none, and the labels from then on.
  function Mint(seen: map<int, nat>, id: int): map<int, nat> {
    if id in seen then seen else seen[id := |seen| + 1]
  }

  function SeenAfter(ids: seq<int>): map<int, nat> {
    if ids == [] then map[] else Mint(SeenAfter(ids[..|ids| - 1]), ids[|ids| - 1])
  }

  // The label each id of the stream is given in its turn.
  function LabelsOf(ids: seq<int>): (r: seq<nat>)
    ensures |r| == |ids|
  {
    if ids == [] then []
    else
      SeenCovers(ids);
      LabelsOf(ids[..|ids| - 1]) + [SeenAfter(ids)[ids[|ids| - 1]]]
  }

  lemma {:induction false} SeenCovers(ids: seq<int>)
    ensures forall x :: x in SeenAfter(ids) <==> x in ids
  {
    if ids != [] {
      SeenCovers(ids[..|ids| - 1]);
      assert ids == ids[..|ids| - 1] + [ids[|ids| - 1]];
    }
  }

  // Labels are the numbers from one on, each used once.
  ghost predicate Numbered(seen: map<int, nat>) {
    && (forall x <- seen :: 1 <= seen[x] <= |seen|)
    && (forall x <- seen, y <- seen :: seen[x] == seen[y] ==> x == y)
  }

  lemma MintNumbers(seen: map<int, nat>, id: int)
    requires Numbered(seen)
    ensures Numbered(Mint(seen, id))
  {
    if id !in seen {
      assert Mint(seen, id).Keys == seen.Keys + {id};
      assert |Mint(seen, id)| == |Mint(seen, id).Keys|;
    }
  }

  lemma {:induction false} SeenNumbers(ids: seq<int>)
    ensures Numbered(SeenAfter(ids))
  {
    if ids != [] {
      SeenNumbers(ids[..|ids| - 1]);
      MintNumbers(SeenAfter(ids[..|ids| - 1]), ids[|ids| - 1]);
    }
  }

  // Once given, a label stays.
  lemma {:induction false} LabelStays(ids: seq<int>, i: nat)
    requires i < |ids|
    ensures ids[i] in SeenAfter(ids) && LabelsOf(ids)[i] == SeenAfter(ids)[ids[i]]
  {
    SeenCovers(ids);
    if i < |ids| - 1 {
      LabelStays(ids[..|ids| - 1], i);
    }
  }

  /** Two places carry one label exactly when they carry one id. */
  lemma LabelsSeparate(ids: seq<int>, i: nat, j: nat)
    requires i < |ids| && j < |ids|
    ensures LabelsOf(ids)[i] == LabelsOf(ids)[j] <==> ids[i] == ids[j]
  {
    LabelStays(ids, i);
    LabelStays(ids, j);
    SeenNumbers(ids);
  }

  // ----- when two streams look the same -----

  // The same places carry the same id in both.
  ghost predicate SamePattern(a: seq<int>, b: seq<int>) {
    |a| == |b| && forall i, j :: 0 <= i < |a| && 0 <= j < |a| ==> (a[i] == a[j] <==> b[i] == b[j])
  }

  // The ids seen correspond: as many, and the same label at every place so far.
  ghost predicate SeenAlike(a: seq<int>, b: seq<int>) {
    |SeenAfter(a)| == |SeenAfter(b)| && LabelsOf(a) == LabelsOf(b)
  }

  lemma SeenTogether(a: seq<int>, b: seq<int>, n: nat)
    requires SamePattern(a, b) && n < |a| && a[n] in a[..n]
    ensures b[n] in b[..n]
  {
    var i :| 0 <= i < n && a[i] == a[n];
    assert b[..n][i] == b[n];
  }

  lemma {:induction false} PatternLabels(a: seq<int>, b: seq<int>)
    requires SamePattern(a, b)
    ensures SeenAlike(a, b)
  {
    if a != [] {
      var n := |a| - 1;
      PatternLabels(a[..n], b[..n]);
      SeenCovers(a[..n]);
      SeenCovers(b[..n]);
      if a[n] in a[..n] { SeenTogether(a, b, n); }
      if b[n] in b[..n] { SeenTogether(b, a, n); }
      if a[n] in a[..n] {
        var i :| 0 <= i < n && a[i] == a[n];
        assert b[i] == b[n];
        LabelStays(a[..n], i);
        LabelStays(b[..n], i);
      }
    }
  }

  /** Two id streams mint one label stream exactly when the same places share an id in both: that is,
      when a bijection between their ids relates them place by place. */
  lemma {:induction false} LabelsEqualIff(a: seq<int>, b: seq<int>)
    ensures LabelsOf(a) == LabelsOf(b) <==> SamePattern(a, b)
  {
    if SamePattern(a, b) { PatternLabels(a, b); }
    if LabelsOf(a) == LabelsOf(b) {
      forall i, j | 0 <= i < |a| && 0 <= j < |a| ensures a[i] == a[j] <==> b[i] == b[j] {
        LabelsSeparate(a, i, j);
        LabelsSeparate(b, i, j);
      }
    }
  }

  // `f` carries the ids of `a` one to one onto those of `b`, place by place.
  ghost predicate Relates(f: map<int, int>, a: seq<int>, b: seq<int>) {
    && |a| == |b|
    && (forall x :: x in f <==> x in a)
    && (forall x <- f, y <- f :: f[x] == f[y] ==> x == y)
    && (forall i :: 0 <= i < |a| ==> a[i] in f && f[a[i]] == b[i])
  }

  /** The pattern is the same exactly when such a bijection exists. */
  lemma {:induction false} PatternIffBijection(a: seq<int>, b: seq<int>)
    ensures SamePattern(a, b) <==> exists f :: Relates(f, a, b)
  {
    if SamePattern(a, b) {
      var f := Pairing(a, b);
      PairingRelates(a, b);
      assert Relates(f, a, b);
    }
    if exists f :: Relates(f, a, b) {
      var f :| Relates(f, a, b);
      forall i, j | 0 <= i < |a| && 0 <= j < |a| ensures a[i] == a[j] <==> b[i] == b[j] {
        assert a[i] in f && a[j] in f;
      }
    }
  }

  // Each id of `a` with the id `b` has in its last place.
  ghost function Pairing(a: seq<int>, b: seq<int>): map<int, int>
    requires |a| == |b|
  {
    if a == [] then map[] else Pairing(a[..|a| - 1], b[..|b| - 1])[a[|a| - 1] := b[|b| - 1]]
  }

  lemma {:induction false} PairingRelates(a: seq<int>, b: seq<int>)
    requires SamePattern(a, b)
    ensures Relates(Pairing(a, b), a, b)
  {
    PairingCovers(a, b);
    var f := Pairing(a, b);
    forall i | 0 <= i < |a| ensures a[i] in f && f[a[i]] == b[i] {
      assert a[i] in a;
      PairingAt(a, b, a[i]);
      var k :| 0 <= k < |a| && a[k] == a[i] && f[a[i]] == b[k];
    }
    forall x, y | x in f && y in f && f[x] == f[y] ensures x == y {
      PairingAt(a, b, x);
      PairingAt(a, b, y);
      var k :| 0 <= k < |a| && a[k] == x && f[x] == b[k];
      var m :| 0 <= m < |a| && a[m] == y && f[y] == b[m];
      assert b[k] == b[m];
    }
  }

  lemma {:induction false} PairingCovers(a: seq<int>, b: seq<int>)
    requires |a| == |b|
    ensures forall x :: x in Pairing(a, b) <==> x in a
  {
    if a != [] {
      PairingCovers(a[..|a| - 1], b[..|b| - 1]);
      assert a == a[..|a| - 1] + [a[|a| - 1]];
    }
  }

  lemma {:induction false} PairingAt(a: seq<int>, b: seq<int>, x: int)
    requires |a| == |b| && x in Pairing(a, b)
    ensures exists k :: 0 <= k < |a| && a[k] == x && Pairing(a, b)[x] == b[k]
  {
    var n := |a| - 1;
    if a[n] == x {
      assert Pairing(a, b)[x] == b[n];
    } else {
      PairingAt(a[..n], b[..n], x);
      var k :| 0 <= k < n && a[..n][k] == x && Pairing(a[..n], b[..n])[x] == b[..n][k];
      assert a[k] == x;
    }
  }

  // ----- rendering a scenario -----

  // What tracking a frame gave: how many boxes it had, and each track's id and claimed row.
  datatype Track = Track(id: int, row: int)

  datatype Frame = Frame(boxes: nat, tracks: seq<Track>)

  // The tracks that are drawn, in order: those whose row is one of the frame's.
  function Drawn(f: Frame): seq<Track> {
    DrawnOf(f.boxes, f.tracks)
  }

  function DrawnOf(boxes: nat, tracks: seq<Track>): seq<Track> {
    if tracks == [] then []
    else
      var t := tracks[|tracks| - 1];
      DrawnOf(boxes, tracks[..|tracks| - 1]) + (if 0 <= t.row < boxes then [t] else [])
  }

  // One frame's rows and the labels after it: later tracks overwrite earlier ones on a row.
  datatype Rendered = Rendered(rows: seq<Option<nat>>, seen: map<int, nat>)

  function Blank(n: nat): (rows: seq<Option<nat>>)
    ensures |rows| == n && forall i :: 0 <= i < n ==> rows[i].None?
  {
    seq(n, _ => None)
  }

  function Draw(boxes: nat, tracks: seq<Track>, seen: map<int, nat>): (r: Rendered)
    ensures |r.rows| == boxes
  {
    if tracks == [] then Rendered(Blank(boxes), seen)
    else
      var t := tracks[|tracks| - 1];
      var before := Draw(boxes, tracks[..|tracks| - 1], seen);
      if 0 <= t.row < boxes then
        var now := Mint(before.seen, t.id);
        Rendered(before.rows[t.row := Some(now[t.id])], now)
      else before
  }

  function Render(frames: seq<Frame>): (seq<seq<Option<nat>>>, map<int, nat>) {
    if frames == [] then ([], map[])
    else
      var f := frames[|frames| - 1];
      var (lines, seen) := Render(frames[..|frames| - 1]);
      var r := Draw(f.boxes, f.tracks, seen);
      (lines + [r.rows], r.seen)
  }

  method RenderFrame(boxes: nat, tracks: seq<Track>, seen0: map<int, nat>) returns (rows: seq<Option<nat>>, seen: map<int, nat>)
    ensures Rendered(rows, seen) == Draw(boxes, tracks, seen0)
  {
    rows, seen := Blank(boxes), seen0;
    for i := 0 to |tracks|
      invariant Rendered(rows, seen) == Draw(boxes, tracks[..i], seen0)
    {
      assert tracks[..i + 1][..i] == tracks[..i];
      var t := tracks[i];
      if 0 <= t.row < |rows| {
        if t.id !in seen { seen := seen[t.id := |seen| + 1]; }
        rows := rows[t.row := Some(seen[t.id])];
      }
    }
    assert tracks[..|tracks|] == tracks;
  }

  method RenderTracking(frames: seq<Frame>) returns (lines: seq<seq<Option<nat>>>)
    ensures lines == Render(frames).0
  {
    var seen: map<int, nat> := map[];
    lines := [];
    for i := 0 to |frames|
      invariant (lines, seen) == Render(frames[..i])
    {
      assert frames[..i + 1][..i] == frames[..i];
      var rows;
      rows, seen := RenderFrame(frames[i].boxes, frames[i].tracks, seen);
      lines := lines + [rows];
    }
    assert frames[..|frames|] == frames;
  }

  // ----- renaming -----

  function RenameTracks(f: int -> int, tracks: seq<Track>): (r: seq<Track>)
    ensures |r| == |tracks| && forall i :: 0 <= i < |r| ==> r[i] == Track(f(tracks[i].id), tracks[i].row)
  {
    seq(|tracks|, i requires 0 <= i < |tracks| => Track(f(tracks[i].id), tracks[i].row))
  }

  function Rename(f: int -> int, frames: seq<Frame>): (r: seq<Frame>)
    ensures |r| == |frames|
    ensures forall i :: 0 <= i < |r| ==> r[i] == Frame(frames[i].boxes, RenameTracks(f, frames[i].tracks))
  {
    seq(|frames|, i requires 0 <= i < |frames| => Frame(frames[i].boxes, RenameTracks(f, frames[i].tracks)))
  }

  // `other` is `seen` with its ids renamed.
  ghost predicate Renamed(f: int -> int, seen: map<int, nat>, other: map<int, nat>) {
    |seen| == |other| && forall x: int :: RenamedAt(f, seen, other, x)
  }

  ghost predicate RenamedAt(f: int -> int, seen: map<int, nat>, other: map<int, nat>, x: int) {
    (x in seen <==> f(x) in other) && (x in seen ==> other[f(x)] == seen[x])
  }

  ghost predicate Injective(f: int -> int) { forall x, y :: f(x) == f(y) ==> x == y }

  lemma Separates(f: int -> int, x: int, y: int)
    requires Injective(f) && x != y
    ensures f(x) != f(y)
  {
  }

  lemma MintSize(seen: map<int, nat>, id: int)
    ensures |Mint(seen, id)| == |seen| + if id in seen then 0 else 1
  {
    if id !in seen {
      assert Mint(seen, id).Keys == seen.Keys + {id};
      assert |Mint(seen, id)| == |Mint(seen, id).Keys|;
    }
  }

  lemma MintRenamed(f: int -> int, seen: map<int, nat>, other: map<int, nat>, id: int)
    requires Injective(f) && Renamed(f, seen, other)
    ensures Renamed(f, Mint(seen, id), Mint(other, f(id)))
    ensures id in Mint(seen, id) && f(id) in Mint(other, f(id)) && Mint(seen, id)[id] == Mint(other, f(id))[f(id)]
  {
    hide Injective;
    assert RenamedAt(f, seen, other, id);
    MintSize(seen, id);
    MintSize(other, f(id));
    forall x: int ensures RenamedAt(f, Mint(seen, id), Mint(other, f(id)), x) {
      assert RenamedAt(f, seen, other, x);
      if x != id { Separates(f, x, id); }
    }
  }

  lemma {:induction false} DrawRenamed(f: int -> int, boxes: nat, tracks: seq<Track>, seen: map<int, nat>, other: map<int, nat>)
    requires Injective(f) && Renamed(f, seen, other)
    ensures
      var r, s := Draw(boxes, tracks, seen), Draw(boxes, RenameTracks(f, tracks), other);
      r.rows == s.rows && Renamed(f, r.seen, s.seen)
  {
    hide Renamed;
    hide Injective;
    hide Mint;
    if tracks != [] {
      var n := |tracks| - 1;
      DrawRenamed(f, boxes, tracks[..n], seen, other);
      assert RenameTracks(f, tracks)[..n] == RenameTracks(f, tracks[..n]);
      MintRenamed(f, Draw(boxes, tracks[..n], seen).seen, Draw(boxes, RenameTracks(f, tracks[..n]), other).seen, tracks[n].id);
    }
  }

  lemma {:induction false} RenderRenamed(f: int -> int, frames: seq<Frame>)
    requires Injective(f)
    ensures Render(Rename(f, frames)).0 == Render(frames).0
    ensures Renamed(f, Render(frames).1, Render(Rename(f, frames)).1)
  {
    if frames == [] {
      assert forall x: int :: RenamedAt(f, map[], map[], x);
    }
    if frames != [] {
      var n := |frames| - 1;
      RenderRenamed(f, frames[..n]);
      assert Rename(f, frames)[..n] == Rename(f, frames[..n]);
      DrawRenamed(f, frames[n].boxes, frames[n].tracks, Render(frames[..n]).1, Render(Rename(f, frames[..n])).1);
    }
  }

  // ----- what the rendering shows -----

  // The ids drawn over a scenario, in order.
  function Stream(frames: seq<Frame>): seq<int> {
    if frames == [] then [] else Stream(frames[..|frames| - 1]) + Ids(Drawn(frames[|frames| - 1]))
  }

  function Ids(tracks: seq<Track>): (r: seq<int>)
    ensures |r| == |tracks|
  {
    if tracks == [] then [] else Ids(tracks[..|tracks| - 1]) + [tracks[|tracks| - 1].id]
  }

  lemma {:induction false} DrawSees(boxes: nat, tracks: seq<Track>, before: seq<int>)
    ensures Draw(boxes, tracks, SeenAfter(before)).seen == SeenAfter(before + Ids(DrawnOf(boxes, tracks)))
  {
    if tracks == [] {
      assert before + Ids(DrawnOf(boxes, tracks)) == before;
    } else {
      var n := |tracks| - 1;
      var t := tracks[n];
      DrawSees(boxes, tracks[..n], before);
      var drawn := DrawnOf(boxes, tracks[..n]);
      hide Mint;
      hide SeenAfter;
      if 0 <= t.row < boxes {
        IdsNext(drawn, t);
        SeenNext(before + Ids(drawn), t.id);
        assert before + (Ids(drawn) + [t.id]) == (before + Ids(drawn)) + [t.id];
      } else {
        assert drawn + [] == drawn;
      }
    }
  }

  lemma IdsNext(tracks: seq<Track>, t: Track)
    ensures Ids(tracks + [t]) == Ids(tracks) + [t.id]
  {
    assert (tracks + [t])[..|tracks|] == tracks;
  }

  lemma SeenNext(ids: seq<int>, id: int)
    ensures SeenAfter(ids + [id]) == Mint(SeenAfter(ids), id)
  {
    hide Mint;
    assert (ids + [id])[..|ids|] == ids;
  }

  /** The labels a scenario uses are those of the one stream of ids drawn over all its frames, so a row
      of any frame keeps the number its identity was first given. */
  lemma {:induction false} RenderSees(frames: seq<Frame>)
    ensures Render(frames).1 == SeenAfter(Stream(frames))
  {
    if frames != [] {
      var n := |frames| - 1;
      RenderSees(frames[..n]);
      DrawSees(frames[n].boxes, frames[n].tracks, Stream(frames[..n]));
    }
  }
}
