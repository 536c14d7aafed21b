/** The canonical trace line: the subset of JSON (sections 4 to 7 of RFC 8259) with integers only,
    no whitespace and no escapes, as a printer and a parser. */
module Json {

  datatype Value =
    | Num(n: int)
    | Str(s: string)
    | Arr(items: seq<Value>)
    | Obj(fields: seq<Field>)

  datatype Field = Field(key: string, value: Value)

  datatype Parsed<T> = Bad | Good(value: T, rest: string)

  // ----- characters -----

  predicate IsDigit(c: char) { '0' <= c <= '9' }

  // Printable ASCII without a quote or a backslash: what neither writer has to escape.
  predicate PlainChar(c: char) { ' ' <= c <= '~' && c != '"' && c != '\\' }

  predicate PlainWord(s: string) { forall i :: 0 <= i < |s| ==> PlainChar(s[i]) }

  // ----- numbers -----

  function Digit(d: nat): (c: char)
    requires d < 10
    ensures IsDigit(c)
  {
    ('0' as int + d) as char
  }

  function DigitValue(c: char): (d: nat)
    requires IsDigit(c)
    ensures d < 10
  {
    c as int - '0' as int
  }

  function PrintNat(n: nat): (s: string)
    ensures s != "" && forall i :: 0 <= i < |s| ==> IsDigit(s[i])
  {
    if n < 10 then [Digit(n)] else PrintNat(n / 10) + [Digit(n % 10)]
  }

  function NatOf(s: string): nat
    requires forall i :: 0 <= i < |s| ==> IsDigit(s[i])
  {
    if s == "" then 0 else NatOf(s[..|s| - 1]) * 10 + DigitValue(s[|s| - 1])
  }

  lemma {:induction false} NatRoundTrip(n: nat)
    ensures NatOf(PrintNat(n)) == n
    ensures PrintNat(n)[0] == '0' ==> |PrintNat(n)| == 1
  {
    if n < 10 {
      assert [Digit(n)][..0] == "";
      assert NatOf("") == 0;
    } else {
      NatRoundTrip(n / 10);
      var head := PrintNat(n / 10);
      assert PrintNat(n)[..|head|] == head;
      NatNotZero(n / 10);
    }
  }

  // A positive number's first digit is not zero.
  lemma {:induction false} NatNotZero(n: nat)
    ensures n > 0 ==> PrintNat(n)[0] != '0'
  {
    if n >= 10 { NatNotZero(n / 10); }
  }

  // How many digits `s` starts with.
  function Digits(s: string): (k: nat)
    ensures k <= |s| && forall i :: 0 <= i < k ==> IsDigit(s[i])
    ensures k < |s| ==> !IsDigit(s[k])
  {
    if s == "" || !IsDigit(s[0]) then 0 else 1 + Digits(s[1..])
  }

  predicate StartsWithDigit(s: string) { s != "" && IsDigit(s[0]) }

  lemma {:induction false} DigitsAll(ds: string, rest: string)
    requires (forall i :: 0 <= i < |ds| ==> IsDigit(ds[i])) && !StartsWithDigit(rest)
    ensures Digits(ds + rest) == |ds|
  {
    if ds == "" {
      assert ds + rest == rest;
    } else {
      assert (ds + rest)[1..] == ds[1..] + rest;
      DigitsAll(ds[1..], rest);
    }
  }

  // No digits, or a leading zero before more of them, is not a number.
  function ParseNat(s: string): (r: Parsed<nat>)
    ensures r.Good? ==> |r.rest| < |s|
  {
    var k := Digits(s);
    if k == 0 || (k > 1 && s[0] == '0') then Bad else Good(NatOf(s[..k]), s[k..])
  }

  lemma ParsePrintNat(n: nat, rest: string)
    requires !StartsWithDigit(rest)
    ensures ParseNat(PrintNat(n) + rest) == Good(n, rest)
  {
    var ds := PrintNat(n);
    DigitsAll(ds, rest);
    NatRoundTrip(n);
    assert (ds + rest)[..|ds|] == ds && (ds + rest)[|ds|..] == rest;
    assert (ds + rest)[0] == ds[0];
  }

  function PrintInt(n: int): string {
    if n < 0 then "-" + PrintNat(-n) else PrintNat(n)
  }

  function ParseInt(s: string): (r: Parsed<int>)
    ensures r.Good? ==> |r.rest| < |s|
  {
    var minus := s != "" && s[0] == '-';
    var r := ParseNat(if minus then s[1..] else s);
    if r.Bad? then Bad
    else
      var n: int := r.value;
      Good(if minus then -n else n, r.rest)
  }

  lemma ParsePrintInt(n: int, rest: string)
    requires !StartsWithDigit(rest)
    ensures ParseInt(PrintInt(n) + rest) == Good(n, rest)
    ensures PrintInt(n) != "" && (PrintInt(n)[0] == '-' || IsDigit(PrintInt(n)[0]))
  {
    hide ParseNat;
    hide PrintNat;
    var s := PrintInt(n) + rest;
    if n < 0 {
      ParsePrintNat(-n, rest);
      assert s[1..] == PrintNat(-n) + rest;
    } else {
      ParsePrintNat(n, rest);
      assert s[0] == PrintNat(n)[0];
    }
  }

  // ----- words -----

  // How many plain characters `s` starts with.
  function PlainLength(s: string): (k: nat)
    ensures k <= |s| && forall i :: 0 <= i < k ==> PlainChar(s[i])
    ensures k < |s| ==> !PlainChar(s[k])
  {
    if s == "" || !PlainChar(s[0]) then 0 else 1 + PlainLength(s[1..])
  }

  function PrintWord(s: string): string { "\"" + s + "\"" }

  // A quoted word; `s` starts at the opening quote.
  function ParseWord(s: string): (r: Parsed<string>)
    ensures r.Good? ==> |r.rest| < |s|
  {
    if s == "" || s[0] != '"' then Bad
    else
      var k := PlainLength(s[1..]);
      if k + 1 < |s| && s[k + 1] == '"' then Good(s[1..k + 1], s[k + 2..]) else Bad
  }

  lemma {:induction false} PlainLengthStops(w: string, rest: string)
    requires PlainWord(w) && rest != "" && !PlainChar(rest[0])
    ensures PlainLength(w + rest) == |w|
  {
    if w == "" {
      assert w + rest == rest;
    } else {
      assert (w + rest)[1..] == w[1..] + rest;
      PlainLengthStops(w[1..], rest);
    }
  }

  lemma ParsePrintWord(w: string, rest: string)
    requires PlainWord(w)
    ensures ParseWord(PrintWord(w) + rest) == Good(w, rest)
  {
    var s := PrintWord(w) + rest;
    assert s[1..] == w + ("\"" + rest);
    PlainLengthStops(w, "\"" + rest);
    assert s[1..|w| + 1] == w && s[|w| + 2..] == rest;
  }

  // ----- values -----

  ghost predicate Plain(v: Value) {
    match v
    case Num(_) => true
    case Str(s) => PlainWord(s)
    case Arr(items) => forall i :: 0 <= i < |items| ==> Plain(items[i])
    case Obj(fields) => forall i :: 0 <= i < |fields| ==> PlainWord(fields[i].key) && Plain(fields[i].value)
  }

  function Print(v: Value): string
    decreases v, 0
  {
    match v
    case Num(n) => PrintInt(n)
    case Str(s) => PrintWord(s)
    case Arr(items) => "[" + (if items == [] then "]" else PrintItems(items))
    case Obj(fields) => "{" + (if fields == [] then "}" else PrintFields(fields))
  }

  // The items and the closing bracket.
  function PrintItems(items: seq<Value>): string
    requires items != []
    decreases items, 1
  {
    Print(items[0]) + (if |items| == 1 then "]" else "," + PrintItems(items[1..]))
  }

  function PrintField(f: Field): string
    decreases f, 1
  {
    PrintWord(f.key) + ":" + Print(f.value)
  }

  function PrintFields(fields: seq<Field>): string
    requires fields != []
    decreases fields, 1
  {
    PrintField(fields[0]) + (if |fields| == 1 then "}" else "," + PrintFields(fields[1..]))
  }

  function Parse(s: string): (r: Parsed<Value>)
    ensures r.Good? ==> |r.rest| < |s|
    decreases |s|, 0
  {
    if s == "" then Bad
    else if s[0] == '"' then
      match ParseWord(s)
      case Bad => Bad
      case Good(w, rest) => Good(Str(w), rest)
    else if s[0] == '[' then
      if |s| > 1 && s[1] == ']' then Good(Arr([]), s[2..])
      else
        match ParseItems(s[1..])
        case Bad => Bad
        case Good(items, rest) => Good(Arr(items), rest)
    else if s[0] == '{' then
      if |s| > 1 && s[1] == '}' then Good(Obj([]), s[2..])
      else
        match ParseFields(s[1..])
        case Bad => Bad
        case Good(fields, rest) => Good(Obj(fields), rest)
    else
      match ParseInt(s)
      case Bad => Bad
      case Good(n, rest) => Good(Num(n), rest)
  }

  function ParseItems(s: string): (r: Parsed<seq<Value>>)
    ensures r.Good? ==> |r.rest| < |s|
    decreases |s|, 1
  {
    match Parse(s)
    case Bad => Bad
    case Good(v, rest) =>
      if rest != "" && rest[0] == ']' then Good([v], rest[1..])
      else if rest != "" && rest[0] == ',' then
        match ParseItems(rest[1..])
        case Bad => Bad
        case Good(more, last) => Good([v] + more, last)
      else Bad
  }

  function ParseField(s: string): (r: Parsed<Field>)
    ensures r.Good? ==> |r.rest| < |s|
    decreases |s|, 1
  {
    match ParseWord(s)
    case Bad => Bad
    case Good(key, rest) =>
      if rest == "" || rest[0] != ':' then Bad
      else
        match Parse(rest[1..])
        case Bad => Bad
        case Good(v, last) => Good(Field(key, v), last)
  }

  function ParseFields(s: string): (r: Parsed<seq<Field>>)
    ensures r.Good? ==> |r.rest| < |s|
    decreases |s|, 2
  {
    match ParseField(s)
    case Bad => Bad
    case Good(f, rest) =>
      if rest != "" && rest[0] == '}' then Good([f], rest[1..])
      else if rest != "" && rest[0] == ',' then
        match ParseFields(rest[1..])
        case Bad => Bad
        case Good(more, last) => Good([f] + more, last)
      else Bad
  }

  // ----- the round trip -----

  lemma PrintStarts(v: Value)
    ensures Print(v) != "" && Print(v)[0] != ']' && Print(v)[0] != '}'
  {
    hide PrintInt;
    if v.Num? { ParsePrintInt(v.n, ""); }
  }

  // How the first character decides.
  lemma ParseOpensArray(t: string)
    requires t != "" && t[0] != ']' && ParseItems(t).Good?
    ensures Parse("[" + t) == Good(Arr(ParseItems(t).value), ParseItems(t).rest)
  {
    hide ParseItems;
    assert ("[" + t)[1..] == t && ("[" + t)[1] == t[0];
  }

  lemma ParseOpensObject(t: string)
    requires t != "" && t[0] != '}' && ParseFields(t).Good?
    ensures Parse("{" + t) == Good(Obj(ParseFields(t).value), ParseFields(t).rest)
  {
    hide ParseFields;
    assert ("{" + t)[1..] == t && ("{" + t)[1] == t[0];
  }

  lemma ParseOpensNumber(s: string)
    requires s != "" && (s[0] == '-' || IsDigit(s[0])) && ParseInt(s).Good?
    ensures Parse(s) == Good(Num(ParseInt(s).value), ParseInt(s).rest)
  {
    hide ParseInt;
  }

  lemma ParseEmpty(rest: string)
    ensures Parse("[]" + rest) == Good(Arr([]), rest)
    ensures Parse("{}" + rest) == Good(Obj([]), rest)
  {
    assert ("[]" + rest)[2..] == rest && ("{}" + rest)[2..] == rest;
  }

  lemma Assoc(a: string, b: string, c: string)
    ensures (a + b) + c == a + (b + c)
  {
  }

  /** Parsing what was printed gives the value back, whatever follows it. */
  lemma {:induction false} ParsePrint(v: Value, rest: string)
    requires Plain(v) && !StartsWithDigit(rest)
    ensures Parse(Print(v) + rest) == Good(v, rest)
    decreases v, 0
  {
    hide PrintInt;
    hide ParseInt;
    hide PrintWord;
    hide ParseWord;
    hide Parse;
    match v {
      case Num(n) =>
        ParsePrintInt(n, rest);
        assert (PrintInt(n) + rest)[0] == PrintInt(n)[0];
        ParseOpensNumber(PrintInt(n) + rest);
      case Str(w) =>
        ParsePrintWord(w, rest);
        ParseQuoted(w, rest);
      case Arr(items) =>
        if items == [] {
          assert "[" + "]" == "[]";
          ParseEmpty(rest);
        } else {
          ParsePrintItems(items, rest);
          ItemsStart(items, rest);
          Assoc("[", PrintItems(items), rest);
          ParseOpensArray(PrintItems(items) + rest);
        }
      case Obj(fields) =>
        if fields == [] {
          assert "{" + "}" == "{}";
          ParseEmpty(rest);
        } else {
          ParsePrintFields(fields, rest);
          FieldsStart(fields, rest);
          Assoc("{", PrintFields(fields), rest);
          ParseOpensObject(PrintFields(fields) + rest);
        }
    }
  }

  lemma ParseQuoted(w: string, rest: string)
    requires ParseWord(PrintWord(w) + rest) == Good(w, rest)
    ensures Parse(PrintWord(w) + rest) == Good(Str(w), rest)
  {
    hide ParseWord;
    assert (PrintWord(w) + rest)[0] == '"';
  }

  lemma ItemsStart(items: seq<Value>, rest: string)
    requires items != []
    ensures PrintItems(items) + rest != "" && (PrintItems(items) + rest)[0] != ']'
  {
    PrintStarts(items[0]);
    hide Print;
    assert (PrintItems(items) + rest)[0] == Print(items[0])[0];
  }

  lemma FieldsStart(fields: seq<Field>, rest: string)
    requires fields != []
    ensures PrintFields(fields) + rest != "" && (PrintFields(fields) + rest)[0] == '"'
  {
    hide Print;
    assert PrintField(fields[0])[0] == '"';
    assert (PrintFields(fields) + rest)[0] == PrintField(fields[0])[0];
  }

  lemma {:induction false} ParsePrintItems(items: seq<Value>, rest: string)
    requires items != [] && forall i :: 0 <= i < |items| ==> Plain(items[i])
    ensures ParseItems(PrintItems(items) + rest) == Good(items, rest)
    decreases items, 1
  {
    hide Print;
    hide Parse;
    hide Plain;
    var head := Print(items[0]);
    if |items| == 1 {
      ParsePrint(items[0], "]" + rest);
      Assoc(head, "]", rest);
      assert ("]" + rest)[1..] == rest;
      assert items == [items[0]];
    } else {
      var more := PrintItems(items[1..]);
      ParsePrintItems(items[1..], rest);
      Assoc(",", more, rest);
      ParsePrint(items[0], "," + (more + rest));
      Assoc(head, "," + more, rest);
      assert ("," + (more + rest))[1..] == more + rest;
      assert items == [items[0]] + items[1..];
    }
  }

  lemma {:induction false} ParsePrintField(f: Field, rest: string)
    requires PlainWord(f.key) && Plain(f.value) && !StartsWithDigit(rest)
    ensures ParseField(PrintField(f) + rest) == Good(f, rest)
    decreases f, 1
  {
    hide Print;
    hide Parse;
    hide Plain;
    hide PlainWord;
    hide PrintWord;
    hide ParseWord;
    var key, value := PrintWord(f.key), Print(f.value);
    var tail := ":" + (value + rest);
    ParsePrintWord(f.key, tail);
    ParsePrint(f.value, rest);
    Assoc(key, ":", value);
    Assoc(key, ":" + value, rest);
    Assoc(":", value, rest);
    assert tail[1..] == value + rest;
  }

  lemma {:induction false} ParsePrintFields(fields: seq<Field>, rest: string)
    requires fields != [] && forall i :: 0 <= i < |fields| ==> PlainWord(fields[i].key) && Plain(fields[i].value)
    ensures ParseFields(PrintFields(fields) + rest) == Good(fields, rest)
    decreases fields, 1
  {
    hide PrintField;
    hide ParseField;
    hide Plain;
    hide PlainWord;
    var head := PrintField(fields[0]);
    if |fields| == 1 {
      ParsePrintField(fields[0], "}" + rest);
      Assoc(head, "}", rest);
      assert ("}" + rest)[1..] == rest;
      assert fields == [fields[0]];
    } else {
      var more := PrintFields(fields[1..]);
      ParsePrintFields(fields[1..], rest);
      Assoc(",", more, rest);
      ParsePrintField(fields[0], "," + (more + rest));
      Assoc(head, "," + more, rest);
      assert ("," + (more + rest))[1..] == more + rest;
      assert fields == [fields[0]] + fields[1..];
    }
  }

  // What `json.loads` answers: one value and nothing after it.
  function Loads(line: string): (r: Parsed<Value>) {
    match Parse(line)
    case Good(v, "") => Good(v, "")
    case _ => Bad
  }

  /** The printed line of a plain value loads back as that value. */
  lemma LoadsPrint(v: Value)
    requires Plain(v)
    ensures Loads(Print(v)) == Good(v, "")
  {
    ParsePrint(v, "");
    assert Print(v) + "" == Print(v);
  }
}
