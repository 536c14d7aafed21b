/** Code-point order on strings, and sorting without repetition. */
module StringOrder {

  predicate Less(a: string, b: string) {
    b != "" && (a == "" || a[0] < b[0] || (a[0] == b[0] && Less(a[1..], b[1..])))
  }

  lemma {:induction false} LessIrreflexive(a: string)
    ensures !Less(a, a)
  {
    if a != "" { LessIrreflexive(a[1..]); }
  }

  lemma {:induction false} LessTransitive(a: string, b: string, c: string)
    requires Less(a, b) && Less(b, c)
    ensures Less(a, c)
  {
    if a != "" && a[0] == b[0] && b[0] == c[0] { LessTransitive(a[1..], b[1..], c[1..]); }
  }

  lemma {:induction false} LessTotal(a: string, b: string)
    ensures a == b || Less(a, b) || Less(b, a)
  {
    if a != "" && b != "" && a[0] == b[0] {
      LessTotal(a[1..], b[1..]);
      assert a == [a[0]] + a[1..] && b == [b[0]] + b[1..];
    }
  }

  ghost predicate Ascending(s: seq<string>) {
    forall i, j :: 0 <= i < j < |s| ==> Less(s[i], s[j])
  }

  function Insert(x: string, s: seq<string>): (r: seq<string>) {
    if s == [] then [x]
    else if x == s[0] then s
    else if Less(x, s[0]) then [x] + s
    else [s[0]] + Insert(x, s[1..])
  }

  lemma {:induction false} InsertSorts(x: string, s: seq<string>)
    requires Ascending(s)
    ensures Ascending(Insert(x, s))
    ensures forall y :: y in Insert(x, s) <==> y == x || y in s
  {
    hide Less;
    if s != [] && x != s[0] {
      LessTotal(x, s[0]);
      if Less(x, s[0]) {
        forall j | 0 <= j < |s| ensures Less(x, s[j]) { if j > 0 { LessTransitive(x, s[0], s[j]); } }
      } else {
        InsertSorts(x, s[1..]);
        var r := Insert(x, s[1..]);
        assert forall y :: y in s <==> y == s[0] || y in s[1..];
        forall j | 0 <= j < |r| ensures Less(s[0], r[j]) { assert r[j] in r; }
      }
    }
  }

  // The distinct strings of `s`, in order.
  function Sorted(s: seq<string>): seq<string> {
    if s == [] then [] else Insert(s[0], Sorted(s[1..]))
  }

  lemma {:induction false} SortedSorts(s: seq<string>)
    ensures Ascending(Sorted(s))
    ensures forall y :: y in Sorted(s) <==> y in s
  {
    if s != [] {
      SortedSorts(s[1..]);
      InsertSorts(s[0], Sorted(s[1..]));
      assert forall y :: y in s <==> y == s[0] || y in s[1..];
    }
  }

  lemma AscendingDistinct(s: seq<string>)
    requires Ascending(s)
    ensures forall i, j :: 0 <= i < j < |s| ==> s[i] != s[j]
  {
    forall i, j | 0 <= i < j < |s| ensures s[i] != s[j] { LessIrreflexive(s[i]); }
  }

  // The head of an ascending sequence is below everything else in it.
  lemma HeadIsLeast(s: seq<string>, x: string)
    requires Ascending(s) && s != [] && x in s
    ensures x == s[0] || Less(s[0], x)
  {
  }

  /** There is one way to put a set of strings in order. */
  lemma {:induction false} AscendingUnique(s: seq<string>, t: seq<string>)
    requires Ascending(s) && Ascending(t) && forall x :: x in s <==> x in t
    ensures s == t
  {
    hide Less;
    assert t != [] ==> t[0] in t;
    if s != [] {
      assert s[0] in t;
      assert t[0] in s;
      HeadIsLeast(s, t[0]);
      HeadIsLeast(t, s[0]);
      if s[0] != t[0] {
        LessTransitive(s[0], t[0], s[0]);
        LessIrreflexive(s[0]);
        assert false;
      }
      AscendingDistinct(s);
      AscendingDistinct(t);
      assert forall x :: x in s <==> x == s[0] || x in s[1..];
      assert forall x :: x in t <==> x == t[0] || x in t[1..];
      AscendingUnique(s[1..], t[1..]);
    }
  }
}

/** The parity trace: what the writer accepts, the file it emits, and what the reader makes of it. */
module Traces {
  import opened StringOrder
  import opened Json

  datatype Record = Record(kind: string, camera: string, numbers: seq<int>, text: seq<string>)

  // What one kind of record carries, and whether it is fleet-level.
  datatype Shape = Shape(numbers: seq<string>, text: seq<string>, fleet: bool)

  // The table of record kinds. Everything below holds for any table of plain kinds.
  type Table = map<string, Shape>

  const SCHEMA_VERSION := 1

  datatype Trace = Trace(scenario: string, plane: string, schema: int, records: seq<Record>)

  datatype Problem =
    | UnknownKind | CameraRule | WrongArity | NotPlain
    | HeaderTwice | NoHeader | EmptyTrace | NotJson | OtherSchema | MissingKey

  datatype Result<T> = Ok(value: T) | Err(problem: Problem)

  ghost predicate PlainTable(table: Table) {
    forall k :: k in table ==> PlainWord(k)
  }

  predicate RightArity(table: Table, r: Record) {
    r.kind in table && |r.numbers| == |table[r.kind].numbers| && |r.text| == |table[r.kind].text|
  }

  predicate PlainWords(words: seq<string>) {
    forall i :: 0 <= i < |words| ==> PlainWord(words[i])
  }

  // What `record()` lets into a trace.
  predicate Accepted(table: Table, r: Record) {
    && RightArity(table, r) && (table[r.kind].fleet <==> r.camera == "")
    && PlainWord(r.camera) && PlainWords(r.text)
  }

  // ----- one line -----

  function Nums(ns: seq<int>): (vs: seq<Value>)
    ensures |vs| == |ns| && forall i :: 0 <= i < |ns| ==> vs[i] == Num(ns[i])
  {
    seq(|ns|, i requires 0 <= i < |ns| => Num(ns[i]))
  }

  function Strs(ws: seq<string>): (vs: seq<Value>)
    ensures |vs| == |ws| && forall i :: 0 <= i < |ws| ==> vs[i] == Str(ws[i])
  {
    seq(|ws|, i requires 0 <= i < |ws| => Str(ws[i]))
  }

  function ToJson(r: Record): Value {
    Obj([Field("kind", Str(r.kind)), Field("camera", Str(r.camera)),
         Field("n", Arr(Nums(r.numbers))), Field("t", Arr(Strs(r.text)))])
  }

  function ToLine(r: Record): string {
    Print(ToJson(r))
  }

  // A key's value in an object; the last one wins when a key is repeated.
  function Get(fields: seq<Field>, key: string): (v: Parsed<Value>) {
    if fields == [] then Bad
    else
      var n := |fields| - 1;
      if fields[n].key == key then Good(fields[n].value, "") else Get(fields[..n], key)
  }

  function IntsOf(vs: seq<Value>): Result<seq<int>> {
    if vs == [] then Ok([])
    else if !vs[0].Num? then Err(NotJson)
    else
      match IntsOf(vs[1..])
      case Err(p) => Err(p)
      case Ok(ns) => Ok([vs[0].n] + ns)
  }

  function WordsOf(vs: seq<Value>): Result<seq<string>> {
    if vs == [] then Ok([])
    else if !vs[0].Str? then Err(NotJson)
    else
      match WordsOf(vs[1..])
      case Err(p) => Err(p)
      case Ok(ws) => Ok([vs[0].s] + ws)
  }

  // The array under `key`, or nothing at all.
  function ItemsAt(fields: seq<Field>, key: string): Result<seq<Value>> {
    match Get(fields, key)
    case Bad => Ok([])
    case Good(Arr(items), _) => Ok(items)
    case _ => Err(NotJson)
  }

  function RecordOf(table: Table, v: Value): Result<Record> {
    if !v.Obj? then Err(NotJson)
    else
      match Get(v.fields, "kind")
      case Good(Str(kind), _) =>
        if kind !in table then Err(UnknownKind)
        else Body(table, v.fields, kind)
      case _ => Err(UnknownKind)
  }

  function Body(table: Table, fields: seq<Field>, kind: string): Result<Record>
    requires kind in table
  {
    var n, t := ItemsAt(fields, "n"), ItemsAt(fields, "t");
    if n.Err? || t.Err? then Err(NotJson)
    else if |n.value| != |table[kind].numbers| || |t.value| != |table[kind].text| then Err(WrongArity)
    else
      match (Get(fields, "camera"), IntsOf(n.value), WordsOf(t.value))
      case (Good(Str(camera), _), Ok(numbers), Ok(text)) => Ok(Record(kind, camera, numbers, text))
      case (Bad, _, _) => Err(MissingKey)
      case _ => Err(NotJson)
  }

  function FromLine(table: Table, line: string): Result<Record> {
    match Loads(line)
    case Bad => Err(NotJson)
    case Good(v, _) => RecordOf(table, v)
  }

  lemma {:induction false} SameNumber(vs: seq<Value>)
    ensures IntsOf(vs).Ok? ==> |IntsOf(vs).value| == |vs|
    ensures WordsOf(vs).Ok? ==> |WordsOf(vs).value| == |vs|
  {
    if vs != [] { SameNumber(vs[1..]); }
  }

  /** Whatever text it is given, the reader never answers with a record that is not of its kind's shape. */
  lemma ReadIsRight(table: Table, line: string)
    ensures FromLine(table, line).Ok? ==> RightArity(table, FromLine(table, line).value)
  {
    hide Loads;
    hide Get;
    hide IntsOf;
    hide WordsOf;
    forall vs: seq<Value>
      ensures (IntsOf(vs).Ok? ==> |IntsOf(vs).value| == |vs|) && (WordsOf(vs).Ok? ==> |WordsOf(vs).value| == |vs|) {
      SameNumber(vs);
    }
  }

  lemma {:induction false} IntsBack(ns: seq<int>)
    ensures IntsOf(Nums(ns)) == Ok(ns)
  {
    if ns != [] {
      IntsBack(ns[1..]);
      assert Nums(ns)[1..] == Nums(ns[1..]);
      assert ns == [ns[0]] + ns[1..];
    }
  }

  lemma {:induction false} WordsBack(ws: seq<string>)
    ensures WordsOf(Strs(ws)) == Ok(ws)
  {
    if ws != [] {
      WordsBack(ws[1..]);
      assert Strs(ws)[1..] == Strs(ws[1..]);
      assert ws == [ws[0]] + ws[1..];
    }
  }

  lemma KeysFound(a: Value, b: Value, c: Value, d: Value)
    ensures
      var fields := [Field("kind", a), Field("camera", b), Field("n", c), Field("t", d)];
      && Get(fields, "kind") == Good(a, "") && Get(fields, "camera") == Good(b, "")
      && Get(fields, "n") == Good(c, "") && Get(fields, "t") == Good(d, "")
  {
    var one, two := [Field("kind", a)], [Field("kind", a), Field("camera", b)];
    var three := two + [Field("n", c)];
    var four := three + [Field("t", d)];
    assert four == [Field("kind", a), Field("camera", b), Field("n", c), Field("t", d)];
    assert four[..3] == three && three[..2] == two && two[..1] == one;
    assert "kind" != "t" && "camera" != "t" && "n" != "t" && "kind" != "n" && "camera" != "n";
    assert "kind"[0] != "camera"[0];
    assert Get(two, "kind") == Good(a, "") && Get(two, "camera") == Good(b, "");
    assert Get(three, "kind") == Good(a, "") && Get(three, "camera") == Good(b, "") && Get(three, "n") == Good(c, "");
  }

  lemma PlainRecord(table: Table, r: Record)
    requires PlainTable(table) && Accepted(table, r)
    ensures Plain(ToJson(r))
  {
    assert PlainWord("kind") && PlainWord("camera") && PlainWord("n") && PlainWord("t");
    var fields := ToJson(r).fields;
    assert Plain(fields[0].value) && Plain(fields[1].value);
    assert Plain(fields[2].value) && Plain(fields[3].value);
  }

  /** The reader gives back exactly the record the writer accepted. */
  lemma LineRoundTrip(table: Table, r: Record)
    requires PlainTable(table) && Accepted(table, r)
    ensures FromLine(table, ToLine(r)) == Ok(r)
  {
    PlainRecord(table, r);
    LoadsPrint(ToJson(r));
    hide Print;
    hide Plain;
    hide Get;
    KeysFound(Str(r.kind), Str(r.camera), Arr(Nums(r.numbers)), Arr(Strs(r.text)));
    IntsBack(r.numbers);
    WordsBack(r.text);
  }

  /** Two accepted records with the same line are the same record. */
  lemma ToLineInjective(table: Table, a: Record, b: Record)
    requires PlainTable(table) && Accepted(table, a) && Accepted(table, b)
    requires ToLine(a) == ToLine(b)
    ensures a == b
  {
    LineRoundTrip(table, a);
    LineRoundTrip(table, b);
  }

  // ----- the whole file -----

  // One camera's records, or the fleet's under "", in order.
  function OfCamera(rs: seq<Record>, c: string): seq<Record> {
    if rs == [] then []
    else (if rs[0].camera == c then [rs[0]] else []) + OfCamera(rs[1..], c)
  }

  function CamerasIn(rs: seq<Record>): seq<string> {
    if rs == [] then []
    else (if rs[0].camera != "" then [rs[0].camera] else []) + CamerasIn(rs[1..])
  }

  function Grouped(rs: seq<Record>, cameras: seq<string>): seq<Record> {
    if cameras == [] then [] else OfCamera(rs, cameras[0]) + Grouped(rs, cameras[1..])
  }

  // Each camera's records in id order, then the fleet's.
  function Ordered(rs: seq<Record>): seq<Record> {
    Grouped(rs, Sorted(CamerasIn(rs))) + OfCamera(rs, "")
  }

  lemma {:induction false} CameraListed(rs: seq<Record>, c: string)
    ensures c in CamerasIn(rs) <==> c != "" && OfCamera(rs, c) != []
  {
    if rs != [] { CameraListed(rs[1..], c); }
  }

  lemma {:induction false} GroupedSame(a: seq<Record>, b: seq<Record>, cameras: seq<string>)
    requires forall c :: OfCamera(a, c) == OfCamera(b, c)
    ensures Grouped(a, cameras) == Grouped(b, cameras)
  {
    if cameras != [] { GroupedSame(a, b, cameras[1..]); }
  }

  /** The file depends on each camera's own sequence and the fleet's, never on how they interleave. */
  lemma InterleavingIsInvisible(a: seq<Record>, b: seq<Record>)
    requires forall c :: OfCamera(a, c) == OfCamera(b, c)
    ensures Ordered(a) == Ordered(b)
  {
    var x, y := Sorted(CamerasIn(a)), Sorted(CamerasIn(b));
    SortedSorts(CamerasIn(a));
    SortedSorts(CamerasIn(b));
    forall c ensures c in x <==> c in y {
      CameraListed(a, c);
      CameraListed(b, c);
    }
    AscendingUnique(x, y);
    GroupedSame(a, b, x);
  }

  lemma {:induction false} OfCameraAppend(a: seq<Record>, b: seq<Record>, c: string)
    ensures OfCamera(a + b, c) == OfCamera(a, c) + OfCamera(b, c)
  {
    if a == [] {
      assert a + b == b;
    } else {
      assert (a + b)[1..] == a[1..] + b;
      OfCameraAppend(a[1..], b, c);
      var first := if a[0].camera == c then [a[0]] else [];
      assert OfCamera(a + b, c) == first + OfCamera(a[1..] + b, c) && OfCamera(a, c) == first + OfCamera(a[1..], c);
      hide OfCamera;
      assert first + (OfCamera(a[1..], c) + OfCamera(b, c)) == (first + OfCamera(a[1..], c)) + OfCamera(b, c);
    }
  }

  lemma {:induction false} OfCameraTwice(rs: seq<Record>, c: string, d: string)
    ensures OfCamera(OfCamera(rs, c), d) == if c == d then OfCamera(rs, c) else []
  {
    if rs != [] {
      OfCameraTwice(rs[1..], c, d);
      if rs[0].camera == c {
        assert ([rs[0]] + OfCamera(rs[1..], c))[1..] == OfCamera(rs[1..], c);
      } else {
        assert [] + OfCamera(rs[1..], c) == OfCamera(rs[1..], c);
      }
    }
  }

  lemma {:induction false} GroupedKeeps(rs: seq<Record>, cameras: seq<string>, c: string)
    requires forall i, j :: 0 <= i < j < |cameras| ==> cameras[i] != cameras[j]
    ensures OfCamera(Grouped(rs, cameras), c) == if c in cameras then OfCamera(rs, c) else []
  {
    if cameras != [] {
      GroupedKeeps(rs, cameras[1..], c);
      OfCameraAppend(OfCamera(rs, cameras[0]), Grouped(rs, cameras[1..]), c);
      OfCameraTwice(rs, cameras[0], c);
      assert c in cameras <==> c == cameras[0] || c in cameras[1..];
    }
  }

  /** Emitting the file changes no camera's sequence. */
  lemma OrderedKeepsEveryCamera(rs: seq<Record>, c: string)
    ensures OfCamera(Ordered(rs), c) == OfCamera(rs, c)
  {
    var cameras := Sorted(CamerasIn(rs));
    SortedSorts(CamerasIn(rs));
    AscendingDistinct(cameras);
    CameraListed(rs, c);
    CameraListed(rs, "");
    GroupedKeeps(rs, cameras, c);
    OfCameraAppend(Grouped(rs, cameras), OfCamera(rs, ""), c);
    OfCameraTwice(rs, "", c);
  }

  lemma {:induction false} OfCameraMembers(rs: seq<Record>, c: string)
    ensures forall r :: r in OfCamera(rs, c) ==> r in rs
  {
    if rs != [] { OfCameraMembers(rs[1..], c); }
  }

  lemma {:induction false} GroupedMembers(rs: seq<Record>, cameras: seq<string>)
    ensures forall r :: r in Grouped(rs, cameras) ==> r in rs
  {
    if cameras != [] {
      GroupedMembers(rs, cameras[1..]);
      OfCameraMembers(rs, cameras[0]);
    }
  }

  // ----- header and lines -----

  datatype Header = Header(schema: int, scenario: string, plane: string)

  function HeaderJson(h: Header): Value {
    Obj([Field("schema", Num(h.schema)), Field("scenario", Str(h.scenario)), Field("plane", Str(h.plane))])
  }

  function ToLines(rs: seq<Record>): seq<string> {
    if rs == [] then [] else [ToLine(rs[0])] + ToLines(rs[1..])
  }

  predicate IsSpace(c: char) { c == ' ' || c == '\t' || c == '\n' || c == '\r' || c == '\U{0b}' || c == '\U{0c}' }

  predicate Blank(line: string) { forall i :: 0 <= i < |line| ==> IsSpace(line[i]) }

  function NonBlank(lines: seq<string>): seq<string> {
    if lines == [] then []
    else (if Blank(lines[0]) then [] else [lines[0]]) + NonBlank(lines[1..])
  }

  function HeaderOf(line: string): Result<Header> {
    match Loads(line)
    case Good(Obj(fields), _) =>
      if Get(fields, "schema") != Good(Num(SCHEMA_VERSION), "") then Err(OtherSchema)
      else
        (match (Get(fields, "scenario"), Get(fields, "plane"))
         case (Good(Str(scenario), _), Good(Str(plane), _)) => Ok(Header(SCHEMA_VERSION, scenario, plane))
         case _ => Err(MissingKey))
    case _ => Err(NotJson)
  }

  function RecordsOf(table: Table, lines: seq<string>): Result<seq<Record>> {
    if lines == [] then Ok([])
    else
      var n := |lines| - 1;
      match RecordsOf(table, lines[..n])
      case Err(p) => Err(p)
      case Ok(rs) =>
        match FromLine(table, lines[n])
        case Err(p) => Err(p)
        case Ok(r) => Ok(rs + [r])
  }

  // The specification of the reader: the first problem met, or the trace.
  function Reads(table: Table, lines: seq<string>): Result<Trace> {
    var kept := NonBlank(lines);
    if kept == [] then Err(EmptyTrace)
    else
      match HeaderOf(kept[0])
      case Err(p) => Err(p)
      case Ok(h) =>
        match RecordsOf(table, kept[1..])
        case Err(p) => Err(p)
        case Ok(rs) => Ok(Trace(h.scenario, h.plane, h.schema, rs))
  }

  lemma {:induction false} RecordsFail(table: Table, lines: seq<string>, n: nat)
    requires n <= |lines| && RecordsOf(table, lines[..n]).Err?
    ensures RecordsOf(table, lines) == RecordsOf(table, lines[..n])
    decreases |lines| - n
  {
    if n < |lines| {
      assert lines[..n + 1][..n] == lines[..n];
      RecordsFail(table, lines, n + 1);
    } else {
      assert lines[..n] == lines;
    }
  }

  lemma {:induction false} RecordsAreRight(table: Table, lines: seq<string>)
    ensures RecordsOf(table, lines).Ok? ==>
      forall i :: 0 <= i < |RecordsOf(table, lines).value| ==> RightArity(table, RecordsOf(table, lines).value[i])
  {
    hide FromLine;
    if lines != [] {
      RecordsAreRight(table, lines[..|lines| - 1]);
      ReadIsRight(table, lines[|lines| - 1]);
    }
  }

  /** The reader: blank lines are dropped, and the first bad line is the answer. */
  method ParseLines(table: Table, lines: seq<string>) returns (r: Result<Trace>)
    ensures r == Reads(table, lines)
    ensures r.Ok? ==> forall i :: 0 <= i < |r.value.records| ==> RightArity(table, r.value.records[i])
  {
    hide FromLine;
    hide HeaderOf;
    var kept := NonBlank(lines);
    if kept == [] { return Err(EmptyTrace); }
    var head := HeaderOf(kept[0]);
    if head.Err? { return Err(head.problem); }
    var body := kept[1..];
    var records: seq<Record> := [];
    var n := 0;
    while n < |body|
      invariant 0 <= n <= |body|
      invariant RecordsOf(table, body[..n]) == Ok(records)
    {
      var one := FromLine(table, body[n]);
      assert body[..n + 1][..n] == body[..n];
      if one.Err? {
        RecordsFail(table, body, n + 1);
        return Err(one.problem);
      }
      records := records + [one.value];
      n := n + 1;
    }
    assert body[..n] == body;
    RecordsAreRight(table, body);
    r := Ok(Trace(head.value.scenario, head.value.plane, head.value.schema, records));
  }

  lemma {:induction false} LinesReadBack(table: Table, rs: seq<Record>)
    requires PlainTable(table) && forall i :: 0 <= i < |rs| ==> Accepted(table, rs[i])
    ensures RecordsOf(table, ToLines(rs)) == Ok(rs)
    ensures NonBlank(ToLines(rs)) == ToLines(rs)
    decreases rs
  {
    hide FromLine;
    hide ToLine;
    hide Accepted;
    if rs != [] {
      var n := |rs| - 1;
      LinesReadBack(table, rs[..n]);
      LineRoundTrip(table, rs[n]);
      ToLinesLast(rs);
      NonBlankLast(ToLines(rs[..n]), ToLine(rs[n]));
      LineNotBlank(rs[n]);
      assert ToLines(rs)[..n] == ToLines(rs[..n]);
      assert rs == rs[..n] + [rs[n]];
    }
  }

  lemma {:induction false} ToLinesLast(rs: seq<Record>)
    requires rs != []
    ensures |ToLines(rs)| == |rs| && ToLines(rs) == ToLines(rs[..|rs| - 1]) + [ToLine(rs[|rs| - 1])]
  {
    hide ToLine;
    if |rs| > 1 {
      ToLinesLast(rs[1..]);
      assert rs[1..][..|rs| - 2] == rs[..|rs| - 1][1..];
    }
  }

  lemma {:induction false} NonBlankLast(lines: seq<string>, line: string)
    ensures NonBlank(lines + [line]) == NonBlank(lines) + (if Blank(line) then [] else [line])
  {
    hide Blank;
    if lines == [] {
      assert ([] + [line])[1..] == [];
    } else {
      assert (lines + [line])[1..] == lines[1..] + [line];
      NonBlankLast(lines[1..], line);
    }
  }

  lemma LineNotBlank(r: Record)
    ensures !Blank(ToLine(r))
  {
    assert ToLine(r)[0] == '{';
  }

  lemma HeaderReadsBack(h: Header)
    requires PlainWord(h.scenario) && PlainWord(h.plane)
    ensures HeaderOf(Print(HeaderJson(h))) == if h.schema == SCHEMA_VERSION then Ok(h) else Err(OtherSchema)
    ensures !Blank(Print(HeaderJson(h)))
  {
    var fields := HeaderJson(h).fields;
    assert PlainWord("schema") && PlainWord("scenario") && PlainWord("plane");
    assert Plain(fields[0].value) && Plain(fields[1].value) && Plain(fields[2].value);
    assert Print(HeaderJson(h))[0] == '{';
    LoadsPrint(HeaderJson(h));
    hide Print;
    assert fields[..2] == [fields[0], fields[1]] && fields[..2][..1] == [fields[0]];
    assert "schema" != "plane" && "scenario" != "plane" && "schema"[1] != "scenario"[2];
    assert |"schema"| != |"scenario"|;
    assert Get(fields[..2], "schema") == Good(Num(h.schema), "");
    assert Get(fields[..2], "scenario") == Good(Str(h.scenario), "");
  }

  function FileOf(h: Header, rs: seq<Record>): seq<string> {
    [Print(HeaderJson(h))] + ToLines(Ordered(rs))
  }

  /** Reading back the emitted file gives the header and the ordered records, so every camera's
      sequence survives exactly. */
  lemma {:induction false} FileReadsBack(table: Table, h: Header, rs: seq<Record>)
    requires PlainTable(table) && forall i :: 0 <= i < |rs| ==> Accepted(table, rs[i])
    requires PlainWord(h.scenario) && PlainWord(h.plane) && h.schema == SCHEMA_VERSION
    ensures Reads(table, FileOf(h, rs)) == Ok(Trace(h.scenario, h.plane, SCHEMA_VERSION, Ordered(rs)))
    ensures forall c :: OfCamera(Ordered(rs), c) == OfCamera(rs, c)
  {
    OrderedAccepted(table, rs);
    forall c ensures OfCamera(Ordered(rs), c) == OfCamera(rs, c) { OrderedKeepsEveryCamera(rs, c); }
    LinesReadBack(table, Ordered(rs));
    HeaderReadsBack(h);
    ReadsTogether(table, Print(HeaderJson(h)), ToLines(Ordered(rs)), h, Ordered(rs));
    hide *;
    assert FileOf(h, rs) == [Print(HeaderJson(h))] + ToLines(Ordered(rs)) by { FileIs(h, rs); }
  }

  lemma FileIs(h: Header, rs: seq<Record>)
    ensures FileOf(h, rs) == [Print(HeaderJson(h))] + ToLines(Ordered(rs))
  {
  }

  /** A file declared under another schema is refused by the reader, whatever it holds. */
  lemma OtherSchemaIsRefused(table: Table, h: Header, rs: seq<Record>)
    requires PlainWord(h.scenario) && PlainWord(h.plane) && h.schema != SCHEMA_VERSION
    ensures Reads(table, FileOf(h, rs)) == Err(OtherSchema)
  {
    HeaderReadsBack(h);
    hide HeaderOf;
    hide ToLines;
    hide Ordered;
    var first := Print(HeaderJson(h));
    assert NonBlank(FileOf(h, rs))[0] == first;
  }

  lemma {:induction false} OrderedAccepted(table: Table, rs: seq<Record>)
    requires forall i :: 0 <= i < |rs| ==> Accepted(table, rs[i])
    ensures forall i :: 0 <= i < |Ordered(rs)| ==> Accepted(table, Ordered(rs)[i])
  {
    hide Accepted;
    var sorted := Ordered(rs);
    GroupedMembers(rs, Sorted(CamerasIn(rs)));
    OfCameraMembers(rs, "");
    forall i | 0 <= i < |sorted| ensures Accepted(table, sorted[i]) { assert sorted[i] in rs; }
  }

  // A header line and record lines, none blank, read as the header and the records.
  lemma {:induction false} ReadsTogether(table: Table, first: string, lines: seq<string>, h: Header, rs: seq<Record>)
    requires !Blank(first) && HeaderOf(first) == Ok(h) && NonBlank(lines) == lines && RecordsOf(table, lines) == Ok(rs)
    ensures Reads(table, [first] + lines) == Ok(Trace(h.scenario, h.plane, h.schema, rs))
  {
    assert ([first] + lines)[1..] == lines;
    assert NonBlank([first] + lines) == [first] + lines;
    hide HeaderOf;
    hide RecordsOf;
  }

  // ----- the writer object -----

  class TraceWriter {
    const table: Table
    var header: Result<Header>
    var records: seq<Record>

    ghost predicate Valid()
      reads this
    {
      && PlainTable(table)
      && (forall i :: 0 <= i < |records| ==> Accepted(table, records[i]))
      && (header.Ok? ==> PlainWord(header.value.scenario) && PlainWord(header.value.plane))
    }

    constructor (table: Table)
      requires PlainTable(table)
      ensures Valid() && header == Err(NoHeader) && records == []
    {
      this.table := table;
      header, records := Err(NoHeader), [];
    }

    method Declare(scenario: string, plane: string, schema: int) returns (r: Result<()>)
      requires Valid()
      modifies `header
      ensures Valid()
      ensures old(header).Ok? ==> r == Err(HeaderTwice)
      ensures old(header).Err? && !(PlainWord(scenario) && PlainWord(plane)) ==> r == Err(NotPlain)
      ensures r.Ok? ==> header == Ok(Header(schema, scenario, plane))
      ensures r.Err? ==> header == old(header)
      ensures r.Ok? <==> old(header).Err? && PlainWord(scenario) && PlainWord(plane)
    {
      if header.Ok? { return Err(HeaderTwice); }
      if !PlainWord(scenario) || !PlainWord(plane) { return Err(NotPlain); }
      header := Ok(Header(schema, scenario, plane));
      r := Ok(());
    }

    /** Append one record, or refuse it and change nothing. */
    method Add(kind: string, camera: string, numbers: seq<int>, text: seq<string>) returns (r: Result<()>)
      requires Valid()
      modifies `records
      ensures Valid()
      ensures r.Ok? <==> Accepted(table, Record(kind, camera, numbers, text))
      ensures records == if r.Ok? then old(records) + [Record(kind, camera, numbers, text)] else old(records)
      ensures kind !in table ==> r == Err(UnknownKind)
      ensures kind in table && (if table[kind].fleet then camera != "" else camera == "") ==> r == Err(CameraRule)
    {
      if kind !in table { return Err(UnknownKind); }
      if table[kind].fleet != (camera == "") { return Err(CameraRule); }
      var entry := Record(kind, camera, numbers, text);
      if !RightArity(table, entry) { return Err(WrongArity); }
      if !PlainWord(camera) || !PlainWords(text) { return Err(NotPlain); }
      records := records + [entry];
      r := Ok(());
    }

    // One pass over the records for a camera's own, or the fleet's under "".
    static method Filter(rs: seq<Record>, c: string) returns (own: seq<Record>)
      ensures own == OfCamera(rs, c)
    {
      own := [];
      assert rs[..0] == [];
      for n := 0 to |rs|
        invariant own == OfCamera(rs[..n], c)
      {
        OfCameraNext(rs, n, c);
        if rs[n].camera == c { own := own + [rs[n]]; }
      }
      assert rs[..|rs|] == rs;
    }

    // Each camera's records in id order, then the fleet's.
    static method Sort(rs: seq<Record>) returns (ordered: seq<Record>)
      ensures ordered == Ordered(rs)
    {
      hide OfCamera;
      hide Sorted;
      var cameras := Sorted(CamerasIn(rs));
      ordered := [];
      assert cameras[..0] == [];
      for i := 0 to |cameras|
        invariant ordered == Grouped(rs, cameras[..i])
      {
        var own := Filter(rs, cameras[i]);
        assert cameras[..i + 1] == cameras[..i] + [cameras[i]];
        GroupedExtend(rs, cameras[..i], cameras[i]);
        ordered := ordered + own;
      }
      assert cameras[..|cameras|] == cameras;
      var fleet := Filter(rs, "");
      ordered := ordered + fleet;
    }

    static method PrintFile(h: Header, rs: seq<Record>) returns (lines: seq<string>)
      ensures lines == FileOf(h, rs)
    {
      hide ToLine;
      hide Print;
      hide Ordered;
      var ordered := Sort(rs);
      lines := [Print(HeaderJson(h))];
      assert ordered[..0] == [];
      for i := 0 to |ordered|
        invariant lines == [Print(HeaderJson(h))] + ToLines(ordered[..i])
      {
        ToLinesLast(ordered[..i + 1]);
        assert ordered[..i + 1][..i] == ordered[..i];
        lines := lines + [ToLine(ordered[i])];
      }
      assert ordered[..|ordered|] == ordered;
    }

    /** The file: the header, each camera's records in id order, then the fleet's. Read back, it is
        the header declared and every camera's records exactly as they were added, and it is refused
        when the header is of another schema. */
    method Lines() returns (r: Result<seq<string>>)
      requires Valid()
      ensures header.Err? ==> r == Err(NoHeader)
      ensures header.Ok? ==> r.Ok? && r.value == FileOf(header.value, records)
      ensures header.Ok? && header.value.schema == SCHEMA_VERSION ==>
        && Reads(table, r.value) == Ok(Trace(header.value.scenario, header.value.plane, SCHEMA_VERSION, Ordered(records)))
        && forall c :: OfCamera(Ordered(records), c) == OfCamera(records, c)
      ensures header.Ok? && header.value.schema != SCHEMA_VERSION ==> Reads(table, r.value) == Err(OtherSchema)
    {
      if header.Err? { return Err(NoHeader); }
      hide FileOf;
      hide Accepted;
      hide Reads;
      hide OfCamera;
      var lines := PrintFile(header.value, records);
      if header.value.schema == SCHEMA_VERSION {
        FileReadsBack(table, header.value, records);
      } else {
        OtherSchemaIsRefused(table, header.value, records);
      }
      r := Ok(lines);
    }
  }

  lemma {:induction false} GroupedExtend(rs: seq<Record>, cameras: seq<string>, c: string)
    ensures Grouped(rs, cameras + [c]) == Grouped(rs, cameras) + OfCamera(rs, c)
  {
    hide OfCamera;
    if cameras == [] {
      assert ([] + [c])[1..] == [];
    } else {
      assert (cameras + [c])[1..] == cameras[1..] + [c];
      GroupedExtend(rs, cameras[1..], c);
    }
  }

  lemma OfCameraNext(rs: seq<Record>, n: nat, c: string)
    requires n < |rs|
    ensures OfCamera(rs[..n + 1], c) == if rs[n].camera == c then OfCamera(rs[..n], c) + [rs[n]] else OfCamera(rs[..n], c)
  {
    assert rs[..n + 1] == rs[..n] + [rs[n]];
    OfCameraAppend(rs[..n], [rs[n]], c);
    assert [rs[n]][1..] == [];
  }

  // Camera `c` has exactly its own sequence, or is absent without one.
  ghost predicate GroupedAt(grouped: map<string, seq<Record>>, rs: seq<Record>, c: string) {
    (c in grouped <==> OfCamera(rs, c) != []) && (c in grouped ==> grouped[c] == OfCamera(rs, c))
  }

  function AddTo(grouped: map<string, seq<Record>>, r: Record): map<string, seq<Record>> {
    grouped[r.camera := (if r.camera in grouped then grouped[r.camera] else []) + [r]]
  }

  lemma GroupedNext(grouped: map<string, seq<Record>>, rs: seq<Record>, n: nat, c: string)
    requires n < |rs| && GroupedAt(grouped, rs[..n], c)
    ensures GroupedAt(AddTo(grouped, rs[n]), rs[..n + 1], c)
  {
    OfCameraNext(rs, n, c);
    hide OfCamera;
  }

  /** The records grouped by camera. */
  method ByCamera(rs: seq<Record>) returns (grouped: map<string, seq<Record>>)
    ensures forall c :: c in grouped <==> OfCamera(rs, c) != []
    ensures forall c :: c in grouped ==> grouped[c] == OfCamera(rs, c)
  {
    grouped := map[];
    var n := 0;
    assert rs[..0] == [];
    while n < |rs|
      invariant 0 <= n <= |rs|
      invariant forall c :: GroupedAt(grouped, rs[..n], c)
    {
      var r := rs[n];
      ghost var next, upto := AddTo(grouped, r), rs[..n + 1];
      forall c ensures GroupedAt(next, upto, c) {
        GroupedNext(grouped, rs, n, c);
      }
      hide GroupedAt;
      hide OfCamera;
      grouped := grouped[r.camera := (if r.camera in grouped then grouped[r.camera] else []) + [r]];
      n := n + 1;
    }
    assert rs[..n] == rs;
    hide OfCamera;
    forall c ensures (c in grouped <==> OfCamera(rs, c) != []) && (c in grouped ==> grouped[c] == OfCamera(rs, c)) {
      assert GroupedAt(grouped, rs[..n], c);
    }
  }
}

/** The record kinds of schema 1. */
module TraceTable {
  import opened Json
  import opened Traces

  const HEALTH := Shape(["frames_read", "frames_published", "frames_dropped", "empty_reads", "connects",
                         "connect_failures", "consecutive_failures"], ["state", "last_error"], false)
  const END := Shape(["cameras", "frames_read", "frames_published", "frames_dropped"], [], true)
  const QPUT := Shape(["rows", "depth"], ["camera", "status"], true)
  const QSTATS := Shape(["accepted", "rejected", "evicted", "expired", "depth", "capacity"], [], true)
  const QCAM := Shape(["depth", "rejected", "evicted", "expired"], ["camera"], true)

  // What a camera's own thread records.
  const CAMERA_FIELDS: Table := map[
    "source_open" := Shape(["attempt"], ["outcome"], false),
    "source_read" := Shape(["index"], ["outcome"], false),
    "source_close" := Shape(["index"], [], false),
    "frame" := Shape(["frame_id"], [], false),
    "drop" := Shape([], ["reason"], false),
    "retry" := Shape(["attempt", "peek_us"], [], false),
    "state" := Shape([], ["from", "to"], false),
    "health" := HEALTH]

  // What is recorded of the fleet and its queue.
  const FLEET_FIELDS: Table := map[
    "stop" := Shape(["abandoned"], [], true),
    "end" := END,
    "qput" := QPUT,
    "qbatch" := Shape(["items", "rows"], [], true),
    "qserved" := Shape(["rows"], ["camera"], true),
    "qdrop" := Shape([], ["camera", "reason"], true),
    "qstats" := QSTATS,
    "qcam" := QCAM]

  const FIELDS: Table := CAMERA_FIELDS + FLEET_FIELDS

  lemma CameraFieldsPlain()
    ensures PlainTable(CAMERA_FIELDS)
  {
  }

  lemma FleetFieldsPlain()
    ensures PlainTable(FLEET_FIELDS)
  {
  }

  /** The shipped table is one the round trip holds for. */
  lemma FieldsArePlain()
    ensures PlainTable(FIELDS)
  {
    CameraFieldsPlain();
    FleetFieldsPlain();
  }

  // No two fields of a kind share a name, so a record by name is a record by position.
  ghost predicate NamesDistinct(s: Shape) {
    var names := s.numbers + s.text;
    forall i, j :: 0 <= i < j < |names| ==> names[i] != names[j]
  }

  lemma HealthDistinct()
    ensures NamesDistinct(HEALTH)
  {
  }

  lemma LongShapesDistinct()
    ensures NamesDistinct(END) && NamesDistinct(QPUT) && NamesDistinct(QSTATS) && NamesDistinct(QCAM)
  {
  }

  lemma PairDistinct(s: Shape)
    requires |s.numbers| + |s.text| <= 2
    requires |s.numbers| == 2 ==> s.numbers[0] != s.numbers[1]
    requires |s.text| == 2 ==> s.text[0] != s.text[1]
    requires |s.numbers| == 1 && |s.text| == 1 ==> s.numbers[0] != s.text[0]
    ensures NamesDistinct(s)
  {
  }

  lemma FieldNamesDistinct(kind: string)
    requires kind in FIELDS
    ensures NamesDistinct(FIELDS[kind])
  {
    HealthDistinct();
    LongShapesDistinct();
    hide NamesDistinct;
    var s := FIELDS[kind];
    if s != HEALTH && s != END && s != QPUT && s != QSTATS && s != QCAM { PairDistinct(s); }
  }
}
