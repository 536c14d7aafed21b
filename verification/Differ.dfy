/** The parity differ: two traces in, one report out. */
module Differ {
  import opened Options
  import opened StringOrder
  import opened Traces

  // ----- two records -----

  // The sequences disagree at a position of this name.
  ghost predicate DisagreeOn<T>(names: seq<string>, a: seq<T>, b: seq<T>, name: string)
    requires |names| == |a| == |b|
  {
    exists i :: 0 <= i < |names| && names[i] == name && a[i] != b[i]
  }

  lemma DisagreeOnFirst<T>(names: seq<string>, a: seq<T>, b: seq<T>)
    requires |names| == |a| == |b| && a != []
    ensures forall name ::
      DisagreeOn(names, a, b, name) <==> (names[0] == name && a[0] != b[0]) || DisagreeOn(names[1..], a[1..], b[1..], name)
  {
    forall name, i | 0 < i < |names| && names[i] == name && a[i] != b[i]
      ensures DisagreeOn(names[1..], a[1..], b[1..], name) {
      assert names[1..][i - 1] == name && a[1..][i - 1] != b[1..][i - 1];
    }
    forall name, i | 0 <= i < |names[1..]| && names[1..][i] == name && a[1..][i] != b[1..][i]
      ensures DisagreeOn(names, a, b, name) {
      assert names[i + 1] == name && a[i + 1] != b[i + 1];
    }
  }

  // The names of the positions at which two equally long sequences disagree.
  function Disagreements<T(==)>(names: seq<string>, a: seq<T>, b: seq<T>): (r: seq<string>)
    requires |names| == |a| == |b|
    ensures r == [] <==> a == b
    ensures forall name :: name in r <==> DisagreeOn(names, a, b, name)
  {
    if a == [] then []
    else
      assert a == b <==> a[0] == b[0] && a[1..] == b[1..];
      DisagreeOnFirst(names, a, b);
      (if a[0] != b[0] then [names[0]] else []) + Disagreements(names[1..], a[1..], b[1..])
  }

  // Which named fields two records disagree on, or that they are not the same event at all.
  function DifferingFields(table: Table, left: Record, right: Record): (fields: seq<string>)
    requires RightArity(table, left) && RightArity(table, right)
    ensures fields == [] <==> left == right
    ensures left.kind != right.kind ==> fields == ["kind"]
    ensures left.kind == right.kind && left.camera != right.camera ==> fields == ["camera"]
    ensures left.kind == right.kind && left.camera == right.camera ==>
      var shape := table[left.kind];
      forall name :: name in fields <==>
        (DisagreeOn(shape.numbers, left.numbers, right.numbers, name) || DisagreeOn(shape.text, left.text, right.text, name))
  {
    if left.kind != right.kind then ["kind"]
    else if left.camera != right.camera then ["camera"]
    else
      var shape := table[left.kind];
      Disagreements(shape.numbers, left.numbers, right.numbers) + Disagreements(shape.text, left.text, right.text)
  }

  // ----- the register of decided divergences -----

  // `explains` is None for a divergence that shows up in no trace field.
  datatype Known = Known(id: string, seam: string, explains: Explanation)
  datatype Explanation = Documentary | Explains(test: (Record, Record) -> bool)

  predicate Matches(e: Known, python: Record, cpp: Record) {
    e.explains.Explains? && e.explains.test(python, cpp)
  }

  predicate Accounts(e: Known, field: string, python: Record, cpp: Record) {
    e.seam == python.kind + "." + field && Matches(e, python, cpp)
  }

  // Some entry of the register accounts for this field of this pair.
  predicate FieldExplained(known: seq<Known>, field: string, python: Record, cpp: Record) {
    exists i :: 0 <= i < |known| && Accounts(known[i], field, python, cpp)
  }

  // Every differing field is accounted for, and there is one.
  predicate Explained(known: seq<Known>, fields: seq<string>, python: Record, cpp: Record) {
    fields != [] && forall i :: 0 <= i < |fields| ==> FieldExplained(known, fields[i], python, cpp)
  }

  // The first entry of the register that accounts for this field.
  function FirstId(known: seq<Known>, field: string, python: Record, cpp: Record): (id: Option<string>)
    ensures id.Some? <==> FieldExplained(known, field, python, cpp)
  {
    if known == [] then None
    else if Accounts(known[0], field, python, cpp) then Some(known[0].id)
    else
      var id := FirstId(known[1..], field, python, cpp);
      assert FieldExplained(known, field, python, cpp) <==> FieldExplained(known[1..], field, python, cpp) by {
        if i :| 0 <= i < |known| && Accounts(known[i], field, python, cpp) { assert known[1..][i - 1] == known[i]; }
        if i :| 0 <= i < |known[1..]| && Accounts(known[1..][i], field, python, cpp) { assert known[i + 1] == known[1..][i]; }
      }
      id
  }

  // The entries that account for the fields, one for each.
  function IdsOf(known: seq<Known>, fields: seq<string>, python: Record, cpp: Record): seq<string> {
    if fields == [] then []
    else
      var n := |fields| - 1;
      IdsOf(known, fields[..n], python, cpp)
        + (match FirstId(known, fields[n], python, cpp) case Some(id) => [id] case None => [])
  }

  method FirstEntry(known: seq<Known>, field: string, python: Record, cpp: Record) returns (id: Option<string>)
    ensures id == FirstId(known, field, python, cpp)
    ensures id.Some? ==>
      exists i ::
        && 0 <= i < |known| && id.value == known[i].id && Accounts(known[i], field, python, cpp)
        && (forall j :: 0 <= j < i ==> !Accounts(known[j], field, python, cpp))
  {
    var i := 0;
    while i < |known|
      invariant 0 <= i <= |known|
      invariant forall j :: 0 <= j < i ==> !Accounts(known[j], field, python, cpp)
      invariant FirstId(known, field, python, cpp) == FirstId(known[i..], field, python, cpp)
    {
      assert known[i..][0] == known[i] && known[i..][1..] == known[i + 1..];
      if Accounts(known[i], field, python, cpp) { return Some(known[i].id); }
      i := i + 1;
    }
    id := None;
  }

  /** The entries that account for the differing fields, each once and in order, or None if a field is
      unexplained. */
  method Explain(known: seq<Known>, fields: seq<string>, python: Record, cpp: Record) returns (ids: Option<seq<string>>)
    ensures ids == if Explained(known, fields, python, cpp) then Some(Sorted(IdsOf(known, fields, python, cpp))) else None
  {
    hide FirstId;
    var found: seq<string> := [];
    var i := 0;
    while i < |fields|
      invariant 0 <= i <= |fields|
      invariant forall j :: 0 <= j < i ==> FieldExplained(known, fields[j], python, cpp)
      invariant found == IdsOf(known, fields[..i], python, cpp)
    {
      assert fields[..i + 1][..i] == fields[..i];
      var id := FirstEntry(known, fields[i], python, cpp);
      if id == None { return None; }
      found := found + [id.value];
      i := i + 1;
    }
    assert fields[..i] == fields;
    ids := if fields == [] then None else Some(Sorted(found));
  }

  // ----- two traces -----

  datatype Difference = Difference(camera: string, index: nat, left: Option<Record>, right: Option<Record>)
  datatype Excused = Excused(ids: seq<string>, camera: string, index: nat, fields: seq<string>)
  datatype Report = Report(differences: seq<Difference>, excused: seq<Excused>)

  // The register is consulted only across planes, and always as (python, cpp).
  datatype Terms = Terms(table: Table, known: seq<Known>, crossPlane: bool, pythonFirst: bool)

  predicate Agree(terms: Terms, one: Record, other: Record)
    requires RightArity(terms.table, one) && RightArity(terms.table, other)
  {
    var fields := DifferingFields(terms.table, one, other);
    var (python, cpp) := Roles(terms, one, other);
    fields == [] || (terms.crossPlane && Explained(terms.known, fields, python, cpp))
  }

  // Which record the register is asked about as the Python one.
  function Roles(terms: Terms, one: Record, other: Record): (Record, Record) {
    if terms.pythonFirst then (one, other) else (other, one)
  }

  // The two records are not the same event, or disagree on a field of this name.
  ghost predicate DifferOn(table: Table, one: Record, other: Record, name: string)
    requires RightArity(table, one) && RightArity(table, other)
  {
    if one.kind != other.kind then name == "kind"
    else if one.camera != other.camera then name == "camera"
    else
      || DisagreeOn(table[one.kind].numbers, one.numbers, other.numbers, name)
      || DisagreeOn(table[one.kind].text, one.text, other.text, name)
  }

  // The entry is a decision on exactly that field of that kind, and the pair passes its test.
  ghost predicate Decides(e: Known, kind: string, name: string, python: Record, cpp: Record) {
    e.seam == kind + "." + name && e.explains.Explains? && e.explains.test(python, cpp)
  }

  // The register holds such a decision.
  ghost predicate Decided(known: seq<Known>, kind: string, name: string, python: Record, cpp: Record) {
    exists i :: 0 <= i < |known| && Decides(known[i], kind, name, python, cpp)
  }

  lemma ExplainedIsDecided(known: seq<Known>, name: string, python: Record, cpp: Record)
    ensures FieldExplained(known, name, python, cpp) <==> Decided(known, python.kind, name, python, cpp)
    ensures forall e :: Accounts(e, name, python, cpp) <==> Decides(e, python.kind, name, python, cpp)
  {
    assert forall e :: Accounts(e, name, python, cpp) <==> Decides(e, python.kind, name, python, cpp);
    hide Accounts;
    hide Decides;
  }

  /** What the register can excuse: two records agree exactly when they are equal or, across planes,
      every field they differ on has a decision of its own; a decision on another field or another
      kind excuses nothing. */
  lemma AgreeIff(terms: Terms, one: Record, other: Record)
    requires RightArity(terms.table, one) && RightArity(terms.table, other)
    ensures
      var (python, cpp) := if terms.pythonFirst then (one, other) else (other, one);
      Agree(terms, one, other) <==> one == other || (terms.crossPlane && forall name ::
        DifferOn(terms.table, one, other, name) ==> Decided(terms.known, python.kind, name, python, cpp))
  {
    var (python, cpp) := if terms.pythonFirst then (one, other) else (other, one);
    var fields := DifferingFields(terms.table, one, other);
    assert forall name :: name in fields <==> DifferOn(terms.table, one, other, name) && one != other;
    forall name ensures FieldExplained(terms.known, name, python, cpp) <==> Decided(terms.known, python.kind, name, python, cpp) {
      ExplainedIsDecided(terms.known, name, python, cpp);
    }
    hide DifferOn;
    hide FieldExplained;
    hide Decided;
    if Explained(terms.known, fields, python, cpp) {
      forall name | name in fields ensures FieldExplained(terms.known, name, python, cpp) {
        var i :| 0 <= i < |fields| && fields[i] == name;
      }
    } else if fields != [] {
      var i :| 0 <= i < |fields| && !FieldExplained(terms.known, fields[i], python, cpp);
      assert fields[i] in fields;
    }
  }

  ghost predicate AllRight(table: Table, rs: seq<Record>) {
    forall i :: 0 <= i < |rs| ==> RightArity(table, rs[i])
  }

  // One camera's two sequences: as long as each other, and every pair agreeing.
  ghost predicate SameSequence(terms: Terms, ours: seq<Record>, yours: seq<Record>)
    requires AllRight(terms.table, ours) && AllRight(terms.table, yours)
  {
    |ours| == |yours| && forall i :: 0 <= i < |ours| ==> Agree(terms, ours[i], yours[i])
  }

  // The first place at or after `i` where the sequences disagree, or where the shorter one ends.
  function FirstDispute(terms: Terms, ours: seq<Record>, yours: seq<Record>, i: nat): (k: nat)
    requires AllRight(terms.table, ours) && AllRight(terms.table, yours) && i <= |ours| && i <= |yours|
    ensures i <= k <= |ours| && k <= |yours|
    ensures forall j :: i <= j < k ==> Agree(terms, ours[j], yours[j])
    ensures k < |ours| && k < |yours| ==> !Agree(terms, ours[k], yours[k])
    decreases |ours| - i
  {
    if i == |ours| || i == |yours| || !Agree(terms, ours[i], yours[i]) then i
    else FirstDispute(terms, ours, yours, i + 1)
  }

  function At(rs: seq<Record>, i: nat): Option<Record> {
    if i < |rs| then Some(rs[i]) else None
  }

  // The one difference reported of a camera: its first dispute, with what each side has there.
  function DifferenceOf(terms: Terms, camera: string, ours: seq<Record>, yours: seq<Record>): (found: Option<Difference>)
    requires AllRight(terms.table, ours) && AllRight(terms.table, yours)
    ensures found.None? <==> SameSequence(terms, ours, yours)
    ensures found.Some? ==>
      var d := found.value;
      && d.camera == camera && d.index <= |ours| && d.index <= |yours|
      && (if d.index < |ours| then d.left == Some(ours[d.index]) else d.left.None?)
      && (if d.index < |yours| then d.right == Some(yours[d.index]) else d.right.None?)
      && (d.left.None? || d.right.None? || !Agree(terms, d.left.value, d.right.value))
  {
    var k := FirstDispute(terms, ours, yours, 0);
    if k == |ours| == |yours| then None else Some(Difference(camera, k, At(ours, k), At(yours, k)))
  }

  // The places before `n` at which the register excuses a difference, with the entries that do.
  function Excuses(terms: Terms, camera: string, ours: seq<Record>, yours: seq<Record>, n: nat): seq<Excused>
    requires AllRight(terms.table, ours) && AllRight(terms.table, yours) && n <= |ours| && n <= |yours|
  {
    if n == 0 then []
    else
      var i := n - 1;
      var fields := DifferingFields(terms.table, ours[i], yours[i]);
      var (python, cpp) := Roles(terms, ours[i], yours[i]);
      Excuses(terms, camera, ours, yours, i)
        + (if fields == [] then [] else [Excused(Sorted(IdsOf(terms.known, fields, python, cpp)), camera, i, fields)])
  }

  // Entry `j` is the first of the register to decide that field.
  ghost predicate FirstToDecide(known: seq<Known>, j: nat, name: string, python: Record, cpp: Record) {
    && j < |known| && Decides(known[j], python.kind, name, python, cpp)
    && forall l :: 0 <= l < j ==> !Decides(known[l], python.kind, name, python, cpp)
  }

  // The id is that of the first entry to decide this field.
  ghost predicate CreditedFor(known: seq<Known>, name: string, python: Record, cpp: Record, id: string) {
    exists j: nat :: FirstToDecide(known, j, name, python, cpp) && known[j].id == id
  }

  // ... or one of these fields.
  ghost predicate Credited(known: seq<Known>, fields: seq<string>, python: Record, cpp: Record, id: string) {
    exists i :: 0 <= i < |fields| && CreditedFor(known, fields[i], python, cpp, id)
  }

  lemma {:induction false} FirstIdDecides(known: seq<Known>, name: string, python: Record, cpp: Record, id: string)
    ensures FirstId(known, name, python, cpp) == Some(id) <==> CreditedFor(known, name, python, cpp, id)
  {
    ExplainedIsDecided(known, name, python, cpp);
    hide Accounts;
    hide Decides;
    if known != [] {
      var rest := known[1..];
      FirstIdDecides(rest, name, python, cpp, id);
      forall j: nat | !Decides(known[0], python.kind, name, python, cpp)
        ensures FirstToDecide(known, j + 1, name, python, cpp) <==> FirstToDecide(rest, j, name, python, cpp) {
        if FirstToDecide(rest, j, name, python, cpp) {
          forall l | 0 <= l < j + 1 ensures !Decides(known[l], python.kind, name, python, cpp) {
            if l > 0 { assert rest[l - 1] == known[l]; }
          }
        }
        if FirstToDecide(known, j + 1, name, python, cpp) {
          forall l | 0 <= l < j ensures !Decides(rest[l], python.kind, name, python, cpp) { assert rest[l] == known[l + 1]; }
        }
      }
      if j: nat :| FirstToDecide(known, j, name, python, cpp) && known[j].id == id {
        if j > 0 { assert FirstToDecide(rest, j - 1, name, python, cpp) && rest[j - 1].id == id; }
      }
      if j: nat :| FirstToDecide(rest, j, name, python, cpp) && rest[j].id == id {
        if !Decides(known[0], python.kind, name, python, cpp) {
          assert FirstToDecide(known, j + 1, name, python, cpp) && known[j + 1].id == id;
        }
      }
      if Decides(known[0], python.kind, name, python, cpp) { assert FirstToDecide(known, 0, name, python, cpp); }
    }
  }

  lemma {:induction false} IdsAreCredited(known: seq<Known>, fields: seq<string>, python: Record, cpp: Record, id: string)
    ensures id in IdsOf(known, fields, python, cpp) <==> Credited(known, fields, python, cpp, id)
  {
    if fields != [] {
      var n := |fields| - 1;
      IdsAreCredited(known, fields[..n], python, cpp, id);
      FirstIdDecides(known, fields[n], python, cpp, id);
      hide FirstId;
      hide CreditedFor;
    }
  }

  // An excused place, in full: what differs there, and the entries that excuse it.
  ghost predicate ExcusedPlace(terms: Terms, camera: string, ours: seq<Record>, yours: seq<Record>, e: Excused)
    requires AllRight(terms.table, ours) && AllRight(terms.table, yours)
  {
    && e.camera == camera && e.index < |ours| && e.index < |yours| && ours[e.index] != yours[e.index]
    && (forall name :: name in e.fields <==> DifferOn(terms.table, ours[e.index], yours[e.index], name))
    && (forall id :: id in e.ids <==>
          if terms.pythonFirst then Credited(terms.known, e.fields, ours[e.index], yours[e.index], id)
          else Credited(terms.known, e.fields, yours[e.index], ours[e.index], id))
  }

  lemma ExcusedHere(terms: Terms, camera: string, ours: seq<Record>, yours: seq<Record>, i: nat)
    requires AllRight(terms.table, ours) && AllRight(terms.table, yours) && i < |ours| && i < |yours| && ours[i] != yours[i]
    ensures
      var before, out := Excuses(terms, camera, ours, yours, i), Excuses(terms, camera, ours, yours, i + 1);
      |out| == |before| + 1 && out[..|before|] == before && out[|before|].index == i
      && ExcusedPlace(terms, camera, ours, yours, out[|before|])
  {
    var fields := DifferingFields(terms.table, ours[i], yours[i]);
    var (python, cpp) := Roles(terms, ours[i], yours[i]);
    var ids := IdsOf(terms.known, fields, python, cpp);
    SortedSorts(ids);
    forall id ensures id in Sorted(ids) <==> Credited(terms.known, fields, python, cpp, id) {
      IdsAreCredited(terms.known, fields, python, cpp, id);
    }
    hide IdsOf;
    hide Credited;
    hide Sorted;
  }

  // `out` lists, in order, the places before `n` whose records are not equal.
  ghost predicate ExcusedBefore(terms: Terms, camera: string, ours: seq<Record>, yours: seq<Record>, n: nat, out: seq<Excused>)
    requires AllRight(terms.table, ours) && AllRight(terms.table, yours) && n <= |ours| && n <= |yours|
  {
    && (forall k :: 0 <= k < |out| ==> out[k].index < n && ExcusedPlace(terms, camera, ours, yours, out[k]))
    && (forall k, l :: 0 <= k < l < |out| ==> out[k].index < out[l].index)
    && (forall i :: 0 <= i < n && ours[i] != yours[i] ==> exists k :: 0 <= k < |out| && out[k].index == i)
  }

  lemma NotExcusedHere(terms: Terms, camera: string, ours: seq<Record>, yours: seq<Record>, i: nat)
    requires AllRight(terms.table, ours) && AllRight(terms.table, yours) && i < |ours| && i < |yours| && ours[i] == yours[i]
    requires ExcusedBefore(terms, camera, ours, yours, i, Excuses(terms, camera, ours, yours, i))
    ensures ExcusedBefore(terms, camera, ours, yours, i + 1, Excuses(terms, camera, ours, yours, i + 1))
  {
    hide *;
    SameExcuses(terms, camera, ours, yours, i);
    NothingMore(terms, camera, ours, yours, i, Excuses(terms, camera, ours, yours, i));
  }

  lemma NothingMore(terms: Terms, camera: string, ours: seq<Record>, yours: seq<Record>, i: nat, out: seq<Excused>)
    requires AllRight(terms.table, ours) && AllRight(terms.table, yours) && i < |ours| && i < |yours| && ours[i] == yours[i]
    requires ExcusedBefore(terms, camera, ours, yours, i, out)
    ensures ExcusedBefore(terms, camera, ours, yours, i + 1, out)
  {
    hide ExcusedPlace;
    hide AllRight;
  }

  lemma SameExcuses(terms: Terms, camera: string, ours: seq<Record>, yours: seq<Record>, i: nat)
    requires AllRight(terms.table, ours) && AllRight(terms.table, yours) && i < |ours| && i < |yours| && ours[i] == yours[i]
    ensures Excuses(terms, camera, ours, yours, i + 1) == Excuses(terms, camera, ours, yours, i)
  {
    assert RightArity(terms.table, ours[i]);
    assert DifferingFields(terms.table, ours[i], yours[i]) == [];
    hide DifferingFields;
    hide IdsOf;
    hide Sorted;
    hide RightArity;
  }

  lemma ExcusedOneMore(terms: Terms, camera: string, ours: seq<Record>, yours: seq<Record>, i: nat, before: seq<Excused>, e: Excused)
    requires AllRight(terms.table, ours) && AllRight(terms.table, yours) && i < |ours| && i < |yours|
    requires ExcusedBefore(terms, camera, ours, yours, i, before)
    requires e.index == i && ExcusedPlace(terms, camera, ours, yours, e)
    ensures ExcusedBefore(terms, camera, ours, yours, i + 1, before + [e])
  {
    hide ExcusedPlace;
    var out := before + [e];
    forall j | 0 <= j < i + 1 && ours[j] != yours[j] ensures exists k :: 0 <= k < |out| && out[k].index == j {
      if j < i {
        var k :| 0 <= k < |before| && before[k].index == j;
        assert out[k].index == j;
      } else {
        assert out[|before|].index == j;
      }
    }
  }

  /** The excused places are exactly the places before the dispute whose records are not equal, in
      order, each with exactly the fields that differ and the first entry that decides each, asked about
      the Python record first. */
  lemma {:induction false} ExcusesExactly(terms: Terms, camera: string, ours: seq<Record>, yours: seq<Record>, n: nat)
    requires AllRight(terms.table, ours) && AllRight(terms.table, yours) && n <= |ours| && n <= |yours|
    ensures ExcusedBefore(terms, camera, ours, yours, n, Excuses(terms, camera, ours, yours, n))
    decreases n
  {
    if n == 0 {
      assert Excuses(terms, camera, ours, yours, n) == [];
    } else {
      var i, out, before := n - 1, Excuses(terms, camera, ours, yours, n), Excuses(terms, camera, ours, yours, n - 1);
      ExcusesExactly(terms, camera, ours, yours, i);
      hide *;
      if ours[i] == yours[i] {
        NotExcusedHere(terms, camera, ours, yours, i);
      } else {
        ExcusedHere(terms, camera, ours, yours, i);
        ExcusedOneMore(terms, camera, ours, yours, i, before, out[|before|]);
        assert out == before + [out[|before|]];
      }
    }
  }

  /** One camera: its first dispute if it has one, and every place excused before it. */
  method CompareCamera(terms: Terms, camera: string, ours: seq<Record>, yours: seq<Record>)
    returns (found: Option<Difference>, excused: seq<Excused>)
    requires AllRight(terms.table, ours) && AllRight(terms.table, yours)
    ensures found == DifferenceOf(terms, camera, ours, yours)
    ensures excused == Excuses(terms, camera, ours, yours, FirstDispute(terms, ours, yours, 0))
  {
    hide DifferingFields;
    hide Sorted;
    hide IdsOf;
    excused := [];
    var shorter := if |ours| <= |yours| then |ours| else |yours|;
    var i := 0;
    while i < shorter
      invariant 0 <= i <= shorter
      invariant FirstDispute(terms, ours, yours, 0) == FirstDispute(terms, ours, yours, i)
      invariant excused == Excuses(terms, camera, ours, yours, i)
    {
      var one, other := ours[i], yours[i];
      var fields := DifferingFields(terms.table, one, other);
      if fields != [] {
        var ids := None;
        if terms.crossPlane {
          var (python, cpp) := Roles(terms, one, other);
          ids := Explain(terms.known, fields, python, cpp);
        }
        if ids == None {
          return Some(Difference(camera, i, Some(one), Some(other))), excused;
        }
        excused := excused + [Excused(ids.value, camera, i, fields)];
      }
      i := i + 1;
    }
    if |ours| != |yours| {
      found := Some(Difference(camera, i, At(ours, i), At(yours, i)));
    } else {
      found := None;
    }
  }

  function TermsOf(table: Table, known: seq<Known>, left: Trace, right: Trace): Terms {
    Terms(table, known, left.plane != right.plane, left.plane == "python")
  }

  lemma {:induction false} OfCameraRight(table: Table, rs: seq<Record>, c: string)
    requires AllRight(table, rs)
    ensures AllRight(table, OfCamera(rs, c))
  {
    OfCameraMembers(rs, c);
    forall i | 0 <= i < |OfCamera(rs, c)| ensures RightArity(table, OfCamera(rs, c)[i]) {
      assert OfCamera(rs, c)[i] in rs;
    }
  }

  ghost predicate CameraAgrees(terms: Terms, left: Trace, right: Trace, c: string)
    requires AllRight(terms.table, left.records) && AllRight(terms.table, right.records)
  {
    OfCameraRight(terms.table, left.records, c);
    OfCameraRight(terms.table, right.records, c);
    SameSequence(terms, OfCamera(left.records, c), OfCamera(right.records, c))
  }

  lemma AgreesIs(terms: Terms, left: Trace, right: Trace, c: string)
    requires AllRight(terms.table, left.records) && AllRight(terms.table, right.records)
    ensures AllRight(terms.table, OfCamera(left.records, c)) && AllRight(terms.table, OfCamera(right.records, c))
    ensures CameraAgrees(terms, left, right, c)
      <==> SameSequence(terms, OfCamera(left.records, c), OfCamera(right.records, c))
  {
    OfCameraRight(terms.table, left.records, c);
    OfCameraRight(terms.table, right.records, c);
  }

  lemma NothingAgrees(terms: Terms)
    ensures SameSequence(terms, [], [])
  {
  }

  // The cameras a report speaks of, in order.
  function Reported(ds: seq<Difference>): seq<string> {
    seq(|ds|, i requires 0 <= i < |ds| => ds[i].camera)
  }

  datatype Outcome = Compared(report: Report) | DifferentScenarios

  function Lookup(grouped: map<string, seq<Record>>, c: string): seq<Record> {
    if c in grouped then grouped[c] else []
  }

  // Camera `c`'s difference in the report, and the places of it excused.
  ghost function DifferenceAt(terms: Terms, left: Trace, right: Trace, c: string): Option<Difference>
    requires AllRight(terms.table, left.records) && AllRight(terms.table, right.records)
  {
    OfCameraRight(terms.table, left.records, c);
    OfCameraRight(terms.table, right.records, c);
    DifferenceOf(terms, c, OfCamera(left.records, c), OfCamera(right.records, c))
  }

  ghost function ExcusedAt(terms: Terms, left: Trace, right: Trace, c: string): seq<Excused>
    requires AllRight(terms.table, left.records) && AllRight(terms.table, right.records)
  {
    OfCameraRight(terms.table, left.records, c);
    OfCameraRight(terms.table, right.records, c);
    var ours, yours := OfCamera(left.records, c), OfCamera(right.records, c);
    Excuses(terms, c, ours, yours, FirstDispute(terms, ours, yours, 0))
  }

  // The report over these cameras, in order.
  ghost function ReportOver(terms: Terms, left: Trace, right: Trace, cs: seq<string>): Report
    requires AllRight(terms.table, left.records) && AllRight(terms.table, right.records)
  {
    if cs == [] then Report([], [])
    else
      var n := |cs| - 1;
      var before := ReportOver(terms, left, right, cs[..n]);
      Report(before.differences + (match DifferenceAt(terms, left, right, cs[n]) case Some(d) => [d] case None => []),
             before.excused + ExcusedAt(terms, left, right, cs[n]))
  }

  lemma ReportNext(terms: Terms, left: Trace, right: Trace, cs: seq<string>, n: nat)
    requires AllRight(terms.table, left.records) && AllRight(terms.table, right.records) && n < |cs|
    ensures
      var before := ReportOver(terms, left, right, cs[..n]);
      ReportOver(terms, left, right, cs[..n + 1])
        == Report(before.differences + (match DifferenceAt(terms, left, right, cs[n]) case Some(d) => [d] case None => []),
                  before.excused + ExcusedAt(terms, left, right, cs[n]))
  {
    hide DifferenceAt;
    hide ExcusedAt;
    assert cs[..n + 1][..n] == cs[..n] && cs[..n + 1][n] == cs[n];
  }

  // A report names exactly the cameras in dispute.
  lemma {:induction false} ReportNamesDisputed(terms: Terms, left: Trace, right: Trace, cs: seq<string>)
    requires AllRight(terms.table, left.records) && AllRight(terms.table, right.records)
    ensures Reported(ReportOver(terms, left, right, cs).differences) == Disputed(terms, left, right, cs)
  {
    hide SameSequence;
    hide FirstDispute;
    if cs != [] {
      var n := |cs| - 1;
      ReportNamesDisputed(terms, left, right, cs[..n]);
      AgreesIs(terms, left, right, cs[n]);
      var d := DifferenceAt(terms, left, right, cs[n]);
      if d.Some? { ReportedNext(ReportOver(terms, left, right, cs[..n]).differences, d.value); }
    }
  }

  /** Compare two traces of one scenario: for every camera of either, in order, its first dispute and
      the places excused before it. So the report names each camera at most once, in order, and is
      empty exactly when every camera's sequences agree. */
  method Compare(table: Table, known: seq<Known>, left: Trace, right: Trace) returns (o: Outcome)
    requires AllRight(table, left.records) && AllRight(table, right.records)
    ensures left.scenario != right.scenario ==> o == DifferentScenarios
    ensures left.scenario == right.scenario ==>
      && o == Compared(ReportOver(TermsOf(table, known, left, right), left, right, Sorted(Names(left.records) + Names(right.records))))
      && Ascending(Reported(o.report.differences))
      && (forall c :: c in Reported(o.report.differences) <==> !CameraAgrees(TermsOf(table, known, left, right), left, right, c))
  {
    if left.scenario != right.scenario { return DifferentScenarios; }
    hide SameSequence;
    hide Disputed;
    hide Ascending;
    hide DifferenceOf;
    hide Excuses;
    hide FirstDispute;
    var terms := TermsOf(table, known, left, right);
    var mine := ByCamera(left.records);
    var theirs := ByCamera(right.records);
    var cameras := Sorted(Names(left.records) + Names(right.records));
    hide Sorted;
    var differences: seq<Difference> := [];
    var excused: seq<Excused> := [];
    var n := 0;
    assert cameras[..0] == [];
    while n < |cameras|
      invariant 0 <= n <= |cameras|
      invariant Report(differences, excused) == ReportOver(terms, left, right, cameras[..n])
    {
      var c := cameras[n];
      OfCameraRight(table, left.records, c);
      OfCameraRight(table, right.records, c);
      ReportNext(terms, left, right, cameras, n);
      var found, more := CompareCamera(terms, c, Lookup(mine, c), Lookup(theirs, c));
      assert found == DifferenceAt(terms, left, right, c) && more == ExcusedAt(terms, left, right, c);
      hide ReportOver;
      excused := excused + more;
      if found.Some? { differences := differences + [found.value]; }
      n := n + 1;
    }
    assert cameras[..n] == cameras;
    ReportNamesDisputed(terms, left, right, cameras);
    DisputedIsAll(terms, left, right);
    o := Compared(Report(differences, excused));
  }

  // The cameras of `cs` whose sequences do not agree.
  ghost function Disputed(terms: Terms, left: Trace, right: Trace, cs: seq<string>): seq<string>
    requires AllRight(terms.table, left.records) && AllRight(terms.table, right.records)
  {
    if cs == [] then []
    else
      var n := |cs| - 1;
      Disputed(terms, left, right, cs[..n]) + (if CameraAgrees(terms, left, right, cs[n]) then [] else [cs[n]])
  }

  lemma {:induction false} DisputedMembers(terms: Terms, left: Trace, right: Trace, cs: seq<string>)
    requires AllRight(terms.table, left.records) && AllRight(terms.table, right.records) && Ascending(cs)
    ensures Ascending(Disputed(terms, left, right, cs))
    ensures forall c :: c in Disputed(terms, left, right, cs) <==> c in cs && !CameraAgrees(terms, left, right, c)
  {
    hide Less;
    hide CameraAgrees;
    if cs != [] {
      var n := |cs| - 1;
      DisputedMembers(terms, left, right, cs[..n]);
      var before := Disputed(terms, left, right, cs[..n]);
      assert forall c :: c in cs <==> c in cs[..n] || c == cs[n];
      forall i | 0 <= i < |before| ensures Less(before[i], cs[n]) { assert before[i] in cs[..n]; }
    }
  }

  lemma DisputedIsAll(terms: Terms, left: Trace, right: Trace)
    requires AllRight(terms.table, left.records) && AllRight(terms.table, right.records)
    ensures
      var all := Disputed(terms, left, right, Sorted(Names(left.records) + Names(right.records)));
      Ascending(all) && forall c :: c in all <==> !CameraAgrees(terms, left, right, c)
  {
    hide Less;
    hide CameraAgrees;
    hide SameSequence;
    hide Sorted;
    var names := Names(left.records) + Names(right.records);
    SortedSorts(names);
    DisputedMembers(terms, left, right, Sorted(names));
    forall c | c !in Sorted(names) ensures CameraAgrees(terms, left, right, c) {
      NotNamed(left.records, c);
      NotNamed(right.records, c);
      AgreesIs(terms, left, right, c);
      NothingAgrees(terms);
    }
  }

  function Names(rs: seq<Record>): (cs: seq<string>)
    ensures |cs| == |rs| && forall i :: 0 <= i < |rs| ==> cs[i] == rs[i].camera
  {
    seq(|rs|, i requires 0 <= i < |rs| => rs[i].camera)
  }

  lemma {:induction false} NotNamed(rs: seq<Record>, c: string)
    requires c !in Names(rs)
    ensures OfCamera(rs, c) == []
  {
    if rs != [] {
      assert Names(rs)[0] == rs[0].camera;
      assert Names(rs)[1..] == Names(rs[1..]);
      NotNamed(rs[1..], c);
    }
  }

  lemma ReportedNext(ds: seq<Difference>, d: Difference)
    ensures Reported(ds + [d]) == Reported(ds) + [d.camera]
  {
  }

  // ----- what `ok` means -----

  lemma {:induction false} SamePlaneIsEquality(terms: Terms, ours: seq<Record>, yours: seq<Record>)
    requires !terms.crossPlane && AllRight(terms.table, ours) && AllRight(terms.table, yours)
    ensures SameSequence(terms, ours, yours) <==> ours == yours
  {
    hide DifferingFields;
  }

  /** On one plane a camera agrees exactly when its two sequences are identical: no known
      divergence excuses drift within a plane. */
  lemma SamePlaneOkIff(table: Table, known: seq<Known>, left: Trace, right: Trace, c: string)
    requires AllRight(table, left.records) && AllRight(table, right.records) && left.plane == right.plane
    ensures CameraAgrees(TermsOf(table, known, left, right), left, right, c)
      <==> OfCamera(left.records, c) == OfCamera(right.records, c)
  {
    var terms := TermsOf(table, known, left, right);
    AgreesIs(terms, left, right, c);
    SamePlaneIsEquality(terms, OfCamera(left.records, c), OfCamera(right.records, c));
  }

  lemma {:induction false} DisagreementsSymmetric<T>(names: seq<string>, a: seq<T>, b: seq<T>)
    requires |names| == |a| == |b|
    ensures Disagreements(names, a, b) == Disagreements(names, b, a)
  {
    if a != [] { DisagreementsSymmetric(names[1..], a[1..], b[1..]); }
  }

  lemma DifferingSymmetric(table: Table, a: Record, b: Record)
    requires RightArity(table, a) && RightArity(table, b)
    ensures DifferingFields(table, a, b) == DifferingFields(table, b, a)
  {
    if a.kind == b.kind && a.camera == b.camera {
      DisagreementsSymmetric(table[a.kind].numbers, a.numbers, b.numbers);
      DisagreementsSymmetric(table[a.kind].text, a.text, b.text);
    }
  }

  /** With exactly one of the two traces from the Python plane, the verdict does not depend on which
      is given first. */
  lemma VerdictIsSymmetric(table: Table, known: seq<Known>, left: Trace, right: Trace, c: string)
    requires AllRight(table, left.records) && AllRight(table, right.records)
    requires (left.plane == "python") != (right.plane == "python")
    ensures CameraAgrees(TermsOf(table, known, left, right), left, right, c)
      <==> CameraAgrees(TermsOf(table, known, right, left), right, left, c)
  {
    OfCameraRight(table, left.records, c);
    OfCameraRight(table, right.records, c);
    var a, b := OfCamera(left.records, c), OfCamera(right.records, c);
    var there, back := TermsOf(table, known, left, right), TermsOf(table, known, right, left);
    forall i | 0 <= i < |a| && i < |b| ensures Agree(there, a[i], b[i]) <==> Agree(back, b[i], a[i]) {
      DifferingSymmetric(table, a[i], b[i]);
    }
  }

  /** A trace read back from its own file passes against the trace it was written from, whatever
      order its records were collected in. */
  lemma FileComparesEqual(table: Table, known: seq<Known>, h: Header, rs: seq<Record>, c: string)
    requires PlainTable(table) && forall i :: 0 <= i < |rs| ==> Accepted(table, rs[i])
    ensures
      var written, collected := Trace(h.scenario, h.plane, h.schema, Ordered(rs)), Trace(h.scenario, h.plane, h.schema, rs);
      && AllRight(table, written.records) && AllRight(table, collected.records)
      && CameraAgrees(TermsOf(table, known, written, collected), written, collected, c)
  {
    GroupedMembers(rs, Sorted(CamerasIn(rs)));
    OfCameraMembers(rs, "");
    forall i | 0 <= i < |Ordered(rs)| ensures RightArity(table, Ordered(rs)[i]) { assert Ordered(rs)[i] in rs; }
    OrderedKeepsEveryCamera(rs, c);
    hide Ordered;
    var written, collected := Trace(h.scenario, h.plane, h.schema, Ordered(rs)), Trace(h.scenario, h.plane, h.schema, rs);
    OfCameraRight(table, rs, c);
    OfCameraRight(table, Ordered(rs), c);
    SamePlaneIsEquality(TermsOf(table, known, written, collected), OfCamera(Ordered(rs), c), OfCamera(rs, c));
  }

  // ----- when the order of the arguments matters -----

  const ONE_FIELD: Table := map["frame" := Shape(["frame_id"], [], false)]

  const FIRST := Record("frame", "c", [1], [])
  const SECOND := Record("frame", "c", [2], [])

  // A register that excuses a frame id when the record in the Python role has id 1.
  const ONE_SIDED: seq<Known> := [Known("id", "frame.frame_id", Explains((p: Record, q: Record) => p.numbers == [1]))]

  // Whichever table, register and records two traces of these planes carry, the verdict on a camera
  // does not depend on which is given first.
  ghost predicate OrderIsNothing(plane: string, other: string) {
    forall table, known, scenario, a, b, c ::
      AllRight(table, a) && AllRight(table, b) ==>
        SameEitherWay(table, known, Trace(scenario, plane, SCHEMA_VERSION, a), Trace(scenario, other, SCHEMA_VERSION, b), c)
  }

  ghost predicate SameEitherWay(table: Table, known: seq<Known>, left: Trace, right: Trace, c: string)
    requires AllRight(table, left.records) && AllRight(table, right.records)
  {
    CameraAgrees(TermsOf(table, known, left, right), left, right, c)
    <==> CameraAgrees(TermsOf(table, known, right, left), right, left, c)
  }

  lemma OneSidedPair()
    ensures RightArity(ONE_FIELD, FIRST) && RightArity(ONE_FIELD, SECOND)
    ensures DifferingFields(ONE_FIELD, FIRST, SECOND) == ["frame_id"] == DifferingFields(ONE_FIELD, SECOND, FIRST)
    ensures Explained(ONE_SIDED, ["frame_id"], FIRST, SECOND) && !Explained(ONE_SIDED, ["frame_id"], SECOND, FIRST)
  {
    assert [1][1..] == [] && [2][1..] == [] && ["frame_id"][1..] == [];
    assert Disagreements(["frame_id"], [1], [2]) == ["frame_id"];
    assert Disagreements(["frame_id"], [2], [1]) == ["frame_id"];
    assert "frame" + "." + "frame_id" == "frame.frame_id";
    assert Accounts(ONE_SIDED[0], "frame_id", FIRST, SECOND);
    assert SECOND.numbers[0] != 1;
    assert !FieldExplained(ONE_SIDED, "frame_id", SECOND, FIRST);
  }

  /** Two traces of different planes, neither Python: the register is asked with the second trace's
      record in the Python role, so that swapping the traces swaps the verdict. */
  lemma WithoutPythonOrderMatters(scenario: string, plane: string, other: string)
    requires plane != other && plane != "python" && other != "python"
    ensures
      var left, right := Trace(scenario, plane, SCHEMA_VERSION, [FIRST]), Trace(scenario, other, SCHEMA_VERSION, [SECOND]);
      && AllRight(ONE_FIELD, left.records) && AllRight(ONE_FIELD, right.records)
      && !CameraAgrees(TermsOf(ONE_FIELD, ONE_SIDED, left, right), left, right, "c")
      && CameraAgrees(TermsOf(ONE_FIELD, ONE_SIDED, right, left), right, left, "c")
  {
    OneSidedPair();
    hide DifferingFields;
    hide Explained;
    var left, right := Trace(scenario, plane, SCHEMA_VERSION, [FIRST]), Trace(scenario, other, SCHEMA_VERSION, [SECOND]);
    assert [FIRST][1..] == [] && [SECOND][1..] == [];
    assert OfCamera([FIRST], "c") == [FIRST] + [] && OfCamera([SECOND], "c") == [SECOND] + [];
    AgreesIs(TermsOf(ONE_FIELD, ONE_SIDED, left, right), left, right, "c");
    AgreesIs(TermsOf(ONE_FIELD, ONE_SIDED, right, left), right, left, "c");
    assert !Agree(TermsOf(ONE_FIELD, ONE_SIDED, left, right), OfCamera(left.records, "c")[0], OfCamera(right.records, "c")[0]);
    assert Agree(TermsOf(ONE_FIELD, ONE_SIDED, right, left), OfCamera(right.records, "c")[0], OfCamera(left.records, "c")[0]);
  }

  /** The order of two traces is nothing, under every register, exactly when they are of one plane or
      exactly one of them is Python's. */
  lemma OrderIsNothingIff(plane: string, other: string)
    ensures OrderIsNothing(plane, other) <==> plane == other || ((plane == "python") != (other == "python"))
  {
    hide CameraAgrees;
    if plane == other || ((plane == "python") != (other == "python")) {
      forall table, known, scenario, a, b, c | AllRight(table, a) && AllRight(table, b)
        ensures SameEitherWay(table, known, Trace(scenario, plane, SCHEMA_VERSION, a), Trace(scenario, other, SCHEMA_VERSION, b), c)
      {
        var left, right := Trace(scenario, plane, SCHEMA_VERSION, a), Trace(scenario, other, SCHEMA_VERSION, b);
        if plane == other {
          SamePlaneOkIff(table, known, left, right, c);
          SamePlaneOkIff(table, known, right, left, c);
        } else {
          VerdictIsSymmetric(table, known, left, right, c);
        }
      }
    } else {
      WithoutPythonOrderMatters("s", plane, other);
      var left, right := Trace("s", plane, SCHEMA_VERSION, [FIRST]), Trace("s", other, SCHEMA_VERSION, [SECOND]);
      assert !SameEitherWay(ONE_FIELD, ONE_SIDED, left, right, "c");
    }
  }
}
