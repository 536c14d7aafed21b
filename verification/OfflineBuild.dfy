/** The build script's include closure, and what the offline tier compiles and links. */
module OfflineBuild {
  import opened Reachability

  // A file under csrc/: where it is and its stem, and its suffix.
  datatype Suffix = H | Cpp | Cu | Other(kind: nat)
  datatype Path = Path(stem: nat, suffix: Suffix)

  type Lane = nat

  // What the script reads: for every existing file the `shipinfer/` headers it includes, the
  // units each external lane is declared to need, and the files called core/platform.h.
  datatype Tree = Tree(includes: map<Path, seq<Path>>, external: map<Lane, set<Path>>, platform: set<Path>)

  // Reaching a header means linking the unit beside it with the same stem.
  function Named(headers: seq<Path>): (files: seq<Path>)
    ensures forall f :: f in files <==> exists h :: h in headers && (f == h || f == h.(suffix := Cpp) || f == h.(suffix := Cu))
  {
    if headers == [] then []
    else
      var h := headers[0];
      assert forall x :: x in headers <==> x == h || x in headers[1..];
      [h, h.(suffix := Cpp), h.(suffix := Cu)] + Named(headers[1..])
  }

  function Reads(tree: Tree): Path -> seq<Path> {
    (f: Path) => if f in tree.includes then Named(tree.includes[f]) else []
  }

  function Exists(tree: Tree): Path -> bool {
    (f: Path) => f in tree.includes
  }

  // `f` is an existing file reached from `app` through existing files.
  ghost predicate Includes(tree: Tree, app: Path, f: Path) {
    Reaches(Reads(tree), Exists(tree), app, f)
  }

  ghost predicate Covered(tree: Tree, seen: set<Path>, todo: seq<Path>) {
    forall x, y :: x in seen && y in Reads(tree)(x) && Exists(tree)(y) ==> y in seen || y in todo
  }

  lemma {:induction false} IncludesExists(tree: Tree, app: Path, f: Path)
    requires Includes(tree, app, f)
    ensures f in tree.includes
  {
    ReachesNeedsRoot(Reads(tree), Exists(tree), app, f);
  }

  // The set of files a unit reaches: existing files are finitely many.
  ghost function Closure(tree: Tree, app: Path): (c: set<Path>)
    ensures forall f :: f in c <==> Includes(tree, app, f)
  {
    var c := set f | f in tree.includes && Includes(tree, app, f);
    assert forall f :: Includes(tree, app, f) ==> f in c by {
      forall f | Includes(tree, app, f) ensures f in c { IncludesExists(tree, app, f); }
    }
    c
  }

  /** Every existing file `app` reaches, units beside their headers included. */
  method IncludeClosure(tree: Tree, app: Path) returns (seen: set<Path>)
    ensures seen == Closure(tree, app)
  {
    seen := {};
    var todo := [app];
    WalkStarts(tree, app);
    hide Walking;
    while todo != []
      invariant Walking(tree, app, seen, todo)
      decreases tree.includes.Keys - seen, |todo|
    {
      var path := todo[|todo| - 1];
      WalkNext(tree, app, seen, todo);
      todo := todo[..|todo| - 1];
      if path in seen || path !in tree.includes { continue; }
      seen := seen + {path};
      todo := todo + Named(tree.includes[path]);
    }
    WalkEnds(tree, app, seen);
  }

  // The worklist: what is seen or to be looked at is reached, and nothing reached from a file seen is missing.
  ghost predicate Walking(tree: Tree, app: Path, seen: set<Path>, todo: seq<Path>) {
    && (forall f :: f in seen ==> Includes(tree, app, f))
    && (forall f :: f in todo && f in tree.includes ==> Includes(tree, app, f))
    && (app in seen || app in todo || app !in tree.includes)
    && Covered(tree, seen, todo)
  }

  lemma WalkStarts(tree: Tree, app: Path)
    ensures Walking(tree, app, {}, [app])
  {
  }

  lemma WalkNext(tree: Tree, app: Path, seen: set<Path>, todo: seq<Path>)
    requires todo != [] && Walking(tree, app, seen, todo)
    ensures
      var path, rest := todo[|todo| - 1], todo[..|todo| - 1];
      if path in seen || path !in tree.includes then Walking(tree, app, seen, rest)
      else Walking(tree, app, seen + {path}, rest + Named(tree.includes[path]))
  {
    var path, rest := todo[|todo| - 1], todo[..|todo| - 1];
    assert path in todo;
    assert forall f :: f in todo <==> f in rest || f == path;
    assert todo == rest + [path];
    if path !in seen && path in tree.includes { WalkInto(tree, app, seen, rest, path); }
    hide Includes;
    hide Named;
    hide Reads;
  }

  lemma WalkInto(tree: Tree, app: Path, seen: set<Path>, rest: seq<Path>, path: Path)
    requires path in tree.includes && Includes(tree, app, path) && Walking(tree, app, seen, rest + [path])
    ensures Walking(tree, app, seen + {path}, rest + Named(tree.includes[path]))
  {
    var files := Named(tree.includes[path]);
    assert files == Reads(tree)(path);
    assert forall f :: f in rest + [path] <==> f in rest || f == path;
    forall f | f in files && f in tree.includes ensures Includes(tree, app, f) {
      ReachesChild(Reads(tree), Exists(tree), app, path, f);
    }
    hide Includes;
    hide Named;
  }

  lemma WalkEnds(tree: Tree, app: Path, seen: set<Path>)
    requires Walking(tree, app, seen, [])
    ensures seen == Closure(tree, app)
  {
    if app in tree.includes {
      ClosedHoldsAll(Reads(tree), Exists(tree), seen, app);
    } else {
      forall f ensures !Includes(tree, app, f) {
        if Includes(tree, app, f) { ReachesNeedsRoot(Reads(tree), Exists(tree), app, f); }
      }
    }
  }

  /** Closures nest: what a reached unit reaches, its app reaches. */
  lemma ClosuresNest(tree: Tree, app: Path, unit: Path)
    requires unit in Closure(tree, app)
    ensures Closure(tree, unit) <= Closure(tree, app)
  {
    forall f | f in Closure(tree, unit) ensures f in Closure(tree, app) {
      ReachesThrough(Reads(tree), Exists(tree), app, unit, f);
    }
  }

  // ----- what may join an offline build -----

  predicate NeedsAccelerator(tree: Tree, closure: set<Path>) {
    exists f :: f in closure && f in tree.platform
  }

  function LanesOf(tree: Tree, unit: Path): set<Lane> {
    set lane | lane in tree.external && unit in tree.external[lane]
  }

  method LanesIn(tree: Tree, closure: set<Path>) returns (lanes: set<Lane>)
    ensures lanes == Lanes(tree, closure)
  {
    lanes := {};
    var rest := closure;
    while rest != {}
      invariant rest <= closure
      invariant lanes == Lanes(tree, closure - rest)
      decreases rest
    {
      var f :| f in rest;
      lanes := lanes + LanesOf(tree, f);
      assert closure - (rest - {f}) == (closure - rest) + {f};
      rest := rest - {f};
    }
    assert closure - rest == closure;
  }

  // The lanes some unit of the closure needs.
  function Lanes(tree: Tree, closure: set<Path>): set<Lane> {
    set lane | lane in tree.external && exists f :: f in closure && f in tree.external[lane]
  }

  predicate OfflineReady(tree: Tree, closure: set<Path>, enabled: set<Lane>) {
    !NeedsAccelerator(tree, closure) && Lanes(tree, closure) <= enabled
  }

  lemma ReadyIsInherited(tree: Tree, closure: set<Path>, part: set<Path>, enabled: set<Lane>)
    requires OfflineReady(tree, closure, enabled) && part <= closure
    ensures OfflineReady(tree, part, enabled)
  {
    forall lane | lane in Lanes(tree, part) ensures lane in enabled {
      assert lane in Lanes(tree, closure);
    }
  }

  // ----- the offline build -----

  datatype Build = Build(apps: seq<Path>, compiled: seq<Path>, linked: seq<Path>, lanes: set<Lane>) | NoApps | NoSources

  function Keep(s: seq<Path>, keep: Path -> bool): (r: seq<Path>)
    ensures forall x :: x in r <==> x in s && keep(x)
  {
    if s == [] then []
    else
      assert forall x :: x in s <==> x == s[0] || x in s[1..];
      (if keep(s[0]) then [s[0]] else []) + Keep(s[1..], keep)
  }

  /** `main` under --offline, from its entry points and the package's .cpp files: what is built,
      what is compiled, and what goes on the link line of every app. */
  method OfflineBuildOf(tree: Tree, entries: seq<Path>, units: seq<Path>, enabled: set<Lane>) returns (b: Build)
    ensures b == PlanOf(tree, entries, units, enabled)
  {
    var apps: seq<Path> := [];
    var i := 0;
    while i < |entries|
      invariant 0 <= i <= |entries|
      invariant apps == KeepReady(tree, entries[..i], enabled)
    {
      var closure := IncludeClosure(tree, entries[i]);
      var ready := OfflineReadyOf(tree, closure, enabled);
      KeepReadyNext(tree, entries, i, enabled);
      if ready { apps := apps + [entries[i]]; }
      i := i + 1;
    }
    assert entries[..i] == entries;
    if apps == [] { return NoApps; }
    var sources := Keep(units, q => q !in apps);
    if sources == [] { return NoSources; }
    var compiled: seq<Path> := [];
    i := 0;
    while i < |sources|
      invariant 0 <= i <= |sources|
      invariant compiled == KeepReady(tree, sources[..i], enabled)
    {
      var closure := IncludeClosure(tree, sources[i]);
      var ready := OfflineReadyOf(tree, closure, enabled);
      KeepReadyNext(tree, sources, i, enabled);
      if ready { compiled := compiled + [sources[i]]; }
      i := i + 1;
    }
    assert sources[..i] == sources;
    var lanes := LanesIn(tree, set q | q in compiled);
    b := Build(apps, compiled, compiled, lanes);
  }

  method OfflineReadyOf(tree: Tree, closure: set<Path>, enabled: set<Lane>) returns (ready: bool)
    ensures ready == OfflineReady(tree, closure, enabled)
  {
    var lanes := LanesIn(tree, closure);
    ready := !NeedsAccelerator(tree, closure) && lanes <= enabled;
  }

  // The files whose own closure an offline build can take.
  ghost function KeepReady(tree: Tree, files: seq<Path>, enabled: set<Lane>): (r: seq<Path>)
    ensures forall f :: f in r <==> f in files && OfflineReady(tree, Closure(tree, f), enabled)
  {
    if files == [] then []
    else
      var n := |files| - 1;
      assert forall x :: x in files <==> x in files[..n] || x == files[n];
      KeepReady(tree, files[..n], enabled) + (if OfflineReady(tree, Closure(tree, files[n]), enabled) then [files[n]] else [])
  }

  lemma KeepReadyNext(tree: Tree, files: seq<Path>, i: nat, enabled: set<Lane>)
    requires i < |files|
    ensures KeepReady(tree, files[..i + 1], enabled) == KeepReady(tree, files[..i], enabled)
      + (if OfflineReady(tree, Closure(tree, files[i]), enabled) then [files[i]] else [])
  {
    assert files[..i + 1][..i] == files[..i];
  }

  ghost function PlanOf(tree: Tree, entries: seq<Path>, units: seq<Path>, enabled: set<Lane>): Build {
    var apps := KeepReady(tree, entries, enabled);
    if apps == [] then NoApps
    else
      var sources := Keep(units, q => q !in apps);
      if sources == [] then NoSources
      else
        var compiled := KeepReady(tree, sources, enabled);
        Build(apps, compiled, compiled, Lanes(tree, set q | q in compiled))
  }

  // Nothing the file reaches is the driver's header or a unit of a lane nobody asked for.
  ghost predicate ReachesNothingMissing(tree: Tree, f: Path, enabled: set<Lane>) {
    forall x :: Includes(tree, f, x) ==>
      x !in tree.platform && forall lane :: lane in tree.external && x in tree.external[lane] ==> lane in enabled
  }

  lemma ReadyIff(tree: Tree, f: Path, enabled: set<Lane>)
    ensures OfflineReady(tree, Closure(tree, f), enabled) <==> ReachesNothingMissing(tree, f, enabled)
  {
    hide Includes;
  }

  /** What an offline build takes, no more and no less: the entry points that reach nothing missing are
      the apps, the package's other units that reach nothing missing are compiled, and there is nothing
      to build exactly when no entry point does. */
  lemma BuiltIff(tree: Tree, entries: seq<Path>, units: seq<Path>, enabled: set<Lane>)
    ensures
      var b := PlanOf(tree, entries, units, enabled);
      && (b.NoApps? <==> forall f :: f in entries ==> !ReachesNothingMissing(tree, f, enabled))
      && (b.Build? ==>
            && (forall f :: f in b.apps <==> f in entries && ReachesNothingMissing(tree, f, enabled))
            && (forall f :: f in b.compiled <==> f in units && f !in b.apps && ReachesNothingMissing(tree, f, enabled))
            && b.linked == b.compiled)
      && (b.NoSources? ==> forall f :: f in units ==> f in entries && ReachesNothingMissing(tree, f, enabled))
  {
    forall f ensures OfflineReady(tree, Closure(tree, f), enabled) <==> ReachesNothingMissing(tree, f, enabled) {
      ReadyIff(tree, f, enabled);
    }
    hide ReachesNothingMissing;
    hide OfflineReady;
    var apps := KeepReady(tree, entries, enabled);
    assert apps != [] ==> apps[0] in apps;
    var sources := Keep(units, q => q !in apps);
    forall f | f in units && sources == [] ensures f in apps { assert f !in sources; }
  }

  /** The link line is complete: every unit of the package that a built app reaches, and that is not
      itself a built app, is offline-ready, compiled and linked. */
  lemma OfflineLinkIsComplete(tree: Tree, entries: seq<Path>, units: seq<Path>, enabled: set<Lane>, app: Path, unit: Path)
    requires PlanOf(tree, entries, units, enabled).Build?
    requires app in PlanOf(tree, entries, units, enabled).apps
    requires unit in Closure(tree, app) && unit in units && unit !in PlanOf(tree, entries, units, enabled).apps
    ensures OfflineReady(tree, Closure(tree, unit), enabled)
    ensures
      var b := PlanOf(tree, entries, units, enabled);
      unit in b.compiled && unit in b.linked
  {
    ClosuresNest(tree, app, unit);
    ReadyIsInherited(tree, Closure(tree, app), Closure(tree, unit), enabled);
  }

  /** The tier's promise: nothing compiled or built reaches the driver's headers or a library nobody
      asked for, no entry point that was left out sneaks in as a source, and the libraries linked
      are among the enabled lanes. */
  lemma OfflineNeedsNothingInstalled(tree: Tree, entries: seq<Path>, units: seq<Path>, enabled: set<Lane>, f: Path)
    requires PlanOf(tree, entries, units, enabled).Build?
    ensures
      var b := PlanOf(tree, entries, units, enabled);
      && (f in b.apps || f in b.compiled ==>
            (forall x :: x in Closure(tree, f) ==> x !in tree.platform)
            && Lanes(tree, Closure(tree, f)) <= enabled)
      && (f in entries && f !in b.apps ==> f !in b.compiled)
      && ((forall u :: u in units ==> u in tree.includes) ==> b.lanes <= enabled)
  {
    var b := PlanOf(tree, entries, units, enabled);
    if forall u :: u in units ==> u in tree.includes {
      forall lane | lane in b.lanes ensures lane in enabled {
        var q :| q in b.compiled && q in tree.external[lane];
        ReachesItself(Reads(tree), Exists(tree), q);
        assert q in Closure(tree, q);
        assert lane in Lanes(tree, Closure(tree, q));
      }
    }
  }
}
