/** The walk over a snapshot of the process tree. */
module ProcessTree {
  import opened Reachability

  type Pid = nat

  // The children listed by each readable process; a pid that is absent could not be read.
  type Children = map<Pid, seq<Pid>>

  function ChildrenOf(kids: Children): Pid -> seq<Pid> {
    (p: Pid) => if p in kids then kids[p] else []
  }

  function Outside(skip: set<Pid>): Pid -> bool {
    (p: Pid) => p !in skip
  }

  // `x` is `root` or a descendant of it, on a path that meets no skipped process.
  ghost predicate Descends(kids: Children, skip: set<Pid>, root: Pid, x: Pid) {
    Reaches(ChildrenOf(kids), Outside(skip), root, x)
  }

  /** What the walk is to find, by the listed children alone: the root unless it is skipped, every child
      that is not skipped of what it finds, and nothing that a set closed that way leaves out. */
  lemma DescendsIsLeast(kids: Children, skip: set<Pid>, root: Pid, closed: set<Pid>)
    ensures root !in skip ==> Descends(kids, skip, root, root)
    ensures forall x, y :: Descends(kids, skip, root, x) && x in kids && y in kids[x] && y !in skip ==> Descends(kids, skip, root, y)
    ensures (root in closed && forall x, y :: x in closed && x in kids && y in kids[x] && y !in skip ==> y in closed) ==>
      forall x :: Descends(kids, skip, root, x) ==> x in closed && x !in skip
  {
    var children, outside := ChildrenOf(kids), Outside(skip);
    if root !in skip { ReachesItself(children, outside, root); }
    forall x, y | Descends(kids, skip, root, x) && x in kids && y in kids[x] && y !in skip
      ensures Descends(kids, skip, root, y) {
      ReachesChild(children, outside, root, x, y);
    }
    if root in closed && forall x, y :: x in closed && x in kids && y in kids[x] && y !in skip ==> y in closed {
      assert ClosedUnder(children, outside, closed);
      ClosedHoldsAll(children, outside, closed, root);
      forall x | Descends(kids, skip, root, x) ensures x !in skip { ReachesNeedsRoot(children, outside, root, x); }
    }
  }

  function Members(s: seq<Pid>): set<Pid> {
    set x | x in s
  }

  // Every child of a visited process is visited, skipped or still to visit.
  ghost predicate Covered(kids: Children, skip: set<Pid>, seen: seq<Pid>, pending: seq<Pid>) {
    forall x, y :: x in seen && y in ChildrenOf(kids)(x) ==> y in seen || y in skip || y in pending
  }

  /** `root` and its descendants, each once, without the skipped processes and what is only below them. */
  method Walk(root: Pid, skip: set<Pid>, kids: Children) returns (seen: seq<Pid>)
    ensures forall i, j :: 0 <= i < j < |seen| ==> seen[i] != seen[j]
    ensures forall x :: x in seen <==> Descends(kids, skip, root, x)
  {
    var children, outside := ChildrenOf(kids), Outside(skip);
    seen := [];
    var pending := [root];
    while pending != []
      invariant forall i, j :: 0 <= i < j < |seen| ==> seen[i] != seen[j]
      invariant forall x :: x in seen ==> Descends(kids, skip, root, x)
      invariant forall x :: x in pending && x !in skip ==> Descends(kids, skip, root, x)
      invariant root in seen || root in skip || root in pending
      invariant Covered(kids, skip, seen, pending)
      decreases kids.Keys - Members(seen), |pending|
    {
      var current := pending[|pending| - 1];
      assert current in pending;
      ghost var before, was := seen, pending;
      pending := pending[..|pending| - 1];
      assert forall x :: x in was <==> x in pending || x == current;
      if current in seen || current in skip {
        continue;
      }
      seen := seen + [current];
      assert forall x :: x in seen <==> x in before || x == current;
      if current in kids {
        var more := kids[current];
        forall y | y in more && y !in skip ensures Descends(kids, skip, root, y) {
          ReachesChild(children, outside, root, current, y);
        }
        pending := pending + more;
        assert current in kids.Keys - Members(before);
        assert kids.Keys - Members(seen) == kids.Keys - Members(before) - {current};
      } else {
        assert kids.Keys - Members(seen) == kids.Keys - Members(before);
      }
    }
    if root in skip {
      forall x ensures !Descends(kids, skip, root, x) {
        if Descends(kids, skip, root, x) { ReachesNeedsRoot(children, outside, root, x); }
      }
    } else {
      ClosedHoldsAll(children, outside, Members(seen), root);
    }
  }
}
