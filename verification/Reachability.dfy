/** Reachability in a graph given by its children, through nodes that are allowed. */
module Reachability {

  ghost predicate IsPath<T(!new)>(children: T -> seq<T>, allowed: T -> bool, p: seq<T>) {
    && p != []
    && (forall i :: 0 <= i < |p| ==> allowed(p[i]))
    && (forall i :: 0 <= i < |p| - 1 ==> p[i + 1] in children(p[i]))
  }

  // `x` is reached from `root` along allowed nodes, both ends included.
  ghost predicate Reaches<T(!new)>(children: T -> seq<T>, allowed: T -> bool, root: T, x: T) {
    exists p :: IsPath(children, allowed, p) && p[0] == root && p[|p| - 1] == x
  }

  lemma ReachesItself<T(!new)>(children: T -> seq<T>, allowed: T -> bool, root: T)
    requires allowed(root)
    ensures Reaches(children, allowed, root, root)
  {
    assert IsPath(children, allowed, [root]);
  }

  lemma ReachesChild<T(!new)>(children: T -> seq<T>, allowed: T -> bool, root: T, x: T, y: T)
    requires Reaches(children, allowed, root, x) && y in children(x) && allowed(y)
    ensures Reaches(children, allowed, root, y)
  {
    var p :| IsPath(children, allowed, p) && p[0] == root && p[|p| - 1] == x;
    var q := p + [y];
    assert IsPath(children, allowed, q);
    assert q[0] == root && q[|q| - 1] == y;
  }

  lemma ReachesThrough<T(!new)>(children: T -> seq<T>, allowed: T -> bool, a: T, b: T, c: T)
    requires Reaches(children, allowed, a, b) && Reaches(children, allowed, b, c)
    ensures Reaches(children, allowed, a, c)
  {
    var p :| IsPath(children, allowed, p) && p[0] == a && p[|p| - 1] == b;
    var q :| IsPath(children, allowed, q) && q[0] == b && q[|q| - 1] == c;
    var r := p + q[1..];
    assert forall i :: 0 <= i < |r| ==> r[i] == if i < |p| then p[i] else q[i - |p| + 1];
    assert IsPath(children, allowed, r);
    assert r[0] == a && r[|r| - 1] == c;
  }

  ghost predicate ClosedUnder<T(!new)>(children: T -> seq<T>, allowed: T -> bool, seen: set<T>) {
    forall x, y :: x in seen && y in children(x) && allowed(y) ==> y in seen
  }

  lemma {:induction false} PathStaysInside<T(!new)>(children: T -> seq<T>, allowed: T -> bool, seen: set<T>, p: seq<T>)
    requires IsPath(children, allowed, p) && ClosedUnder(children, allowed, seen) && p[0] in seen
    ensures p[|p| - 1] in seen
  {
    if |p| > 1 {
      var q := p[..|p| - 1];
      assert IsPath(children, allowed, q);
      PathStaysInside(children, allowed, seen, q);
      assert p[|p| - 2 + 1] in children(p[|p| - 2]);
    }
  }

  /** A closed set that holds the root holds everything reached from it. */
  lemma ClosedHoldsAll<T(!new)>(children: T -> seq<T>, allowed: T -> bool, seen: set<T>, root: T)
    requires ClosedUnder(children, allowed, seen) && root in seen
    ensures forall x :: Reaches(children, allowed, root, x) ==> x in seen
  {
    forall x | Reaches(children, allowed, root, x) ensures x in seen {
      var p :| IsPath(children, allowed, p) && p[0] == root && p[|p| - 1] == x;
      PathStaysInside(children, allowed, seen, p);
    }
  }

  // Nothing is reached from a root that is not allowed.
  lemma ReachesNeedsRoot<T(!new)>(children: T -> seq<T>, allowed: T -> bool, root: T, x: T)
    requires Reaches(children, allowed, root, x)
    ensures allowed(root) && allowed(x)
  {
  }
}
