/** Reading a shell command: lexed lines are cut into segments, one per command, and a segment is
    stripped of assignments and wrappers down to the command it really runs. */
module Segments {
  import opened Options
  import opened Sequences

  predicate IsOperator(t: string) { t in {"&&", "||", "|", ";", "&", "\n"} }

  predicate IsRedirect(t: string) { t in {">", ">>", "<", "<<", "2>", "2>>", "&>", ">&"} }

  lemma OperatorShape(t: string)
    requires IsOperator(t)
    ensures |t| > 0 && t[0] in {'&', '|', ';', '\n'} && (|t| > 1 ==> t[1] == t[0])
  {
  }

  lemma RedirectShape(t: string)
    requires IsRedirect(t)
    ensures |t| > 0 && (t[0] in {'>', '<', '2'} || (|t| > 1 && t[1] != t[0]))
  {
  }

  lemma OperatorIsNoRedirect(t: string)
    requires IsOperator(t)
    ensures !IsRedirect(t)
  {
    hide *;
    if IsRedirect(t) {
      OperatorShape(t);
      RedirectShape(t);
    }
  }

  // ----- which tokens are files -----

  // The token at `i` is the file a redirection before it names. A redirection sign that is itself
  // such a file redirects nothing.
  predicate IsTarget(tokens: seq<string>, i: nat)
    requires i <= |tokens|
  {
    i > 0 && IsRedirect(tokens[i - 1]) && !IsTarget(tokens, i - 1)
  }

  // How many redirection signs stand right before `i`.
  function SignsBefore(tokens: seq<string>, i: nat): (n: nat)
    requires i <= |tokens|
    ensures n <= i
  {
    if i > 0 && IsRedirect(tokens[i - 1]) then SignsBefore(tokens, i - 1) + 1 else 0
  }

  /** Redirection signs pair up from the left: what follows a run of them is a file exactly when the
      run is odd. */
  lemma {:induction false} TargetIsOdd(tokens: seq<string>, i: nat)
    requires i <= |tokens|
    ensures IsTarget(tokens, i) <==> SignsBefore(tokens, i) % 2 == 1
  {
    if i > 0 { TargetIsOdd(tokens, i - 1); }
  }

  predicate IsKept(tokens: seq<string>, i: nat)
    requires i < |tokens|
  {
    !IsTarget(tokens, i) && !IsRedirect(tokens[i]) && !IsOperator(tokens[i])
  }

  // The first `n` tokens less operators, redirections and their files.
  function Kept(tokens: seq<string>, n: nat): seq<string>
    requires n <= |tokens|
  {
    if n == 0 then [] else Kept(tokens, n - 1) + (if IsKept(tokens, n - 1) then [tokens[n - 1]] else [])
  }

  // ----- the scan -----

  datatype Scan = Scan(out: seq<seq<string>>, current: seq<string>, target: bool)

  function Next(s: Scan, t: string): Scan {
    if s.target then s.(target := false)
    else if IsRedirect(t) then s.(target := true)
    else if IsOperator(t) then (if s.current == [] then s else Scan(s.out + [s.current], [], false))
    else s.(current := s.current + [t])
  }

  function ScanOf(tokens: seq<string>, n: nat): Scan
    requires n <= |tokens|
  {
    if n == 0 then Scan([], [], false) else Next(ScanOf(tokens, n - 1), tokens[n - 1])
  }

  // The end of a line ends its last segment.
  function Close(s: Scan): seq<seq<string>> {
    if s.current == [] then s.out else s.out + [s.current]
  }

  lemma CloseAfter(before: seq<seq<string>>, s: Scan)
    ensures Close(s.(out := before + s.out)) == before + Close(s)
  {
    assert before + (s.out + [s.current]) == before + s.out + [s.current];
  }

  // The segments of one line.
  function Line(tokens: seq<string>): seq<seq<string>> {
    Close(ScanOf(tokens, |tokens|))
  }

  lemma {:induction false} FlattenAdds(a: seq<seq<string>>, b: seq<seq<string>>)
    ensures Flatten(a + b) == Flatten(a) + Flatten(b)
  {
    if b == [] {
      assert a + b == a;
    } else {
      hide Flatten;
      var n := |b| - 1;
      assert b == b[..n] + [b[n]];
      FlattenNext(b[..n], b[n]);
      FlattenAdds(a, b[..n]);
      assert a + b == (a + b[..n]) + [b[n]];
      FlattenNext(a + b[..n], b[n]);
    }
  }

  predicate CleanToken(t: string) { !IsOperator(t) && !IsRedirect(t) }

  predicate Clean(s: seq<string>) { forall t <- s :: CleanToken(t) }

  // After `n` tokens: whether a file is awaited, what was kept so far, and that it is clean.
  ghost predicate Scanned(tokens: seq<string>, n: nat, s: Scan)
    requires n <= |tokens|
  {
    && s.target == IsTarget(tokens, n)
    && Flatten(s.out) + s.current == Kept(tokens, n)
    && Clean(s.current) && forall g <- s.out :: g != [] && Clean(g)
  }

  lemma {:induction false} ScannedNext(tokens: seq<string>, n: nat, s: Scan)
    requires n < |tokens| && Scanned(tokens, n, s)
    ensures Scanned(tokens, n + 1, Next(s, tokens[n]))
  {
    hide IsOperator;
    hide IsRedirect;
    hide Flatten;
    var t, after := tokens[n], Next(s, tokens[n]);
    if !s.target && !IsRedirect(t) {
      if !IsOperator(t) {
        assert Flatten(s.out) + (s.current + [t]) == Kept(tokens, n) + [t];
        assert Clean(s.current + [t]);
      } else if s.current != [] {
        FlattenNext(s.out, s.current);
        assert forall g :: g in after.out <==> g in s.out || g == s.current;
      }
    }
  }

  lemma {:induction false} ScanKeeps(tokens: seq<string>, n: nat)
    requires n <= |tokens|
    ensures Scanned(tokens, n, ScanOf(tokens, n))
  {
    if n > 0 {
      ScanKeeps(tokens, n - 1);
      hide Scanned;
      hide Next;
      ScannedNext(tokens, n - 1, ScanOf(tokens, n - 1));
    }
  }

  /** Every segment is non-empty and free of operators and redirections, and end to end the segments
      are the line's tokens less operators, redirections and the files those name, in order. */
  lemma {:induction false} LineKeeps(tokens: seq<string>)
    ensures Flatten(Line(tokens)) == Kept(tokens, |tokens|)
    ensures forall g <- Line(tokens) :: g != [] && Clean(g)
  {
    ScanKeeps(tokens, |tokens|);
    var s := ScanOf(tokens, |tokens|);
    FlattenNext(s.out, s.current);
  }

  // ----- where a line is cut -----

  lemma {:induction false} ScanPrefix(a: seq<string>, b: seq<string>, n: nat)
    requires n <= |a|
    ensures ScanOf(a + b, n) == ScanOf(a, n)
  {
    if n > 0 { ScanPrefix(a, b, n - 1); }
  }

  // Past an operator that is no file, the scan goes on as if the line began there.
  lemma {:induction false} ScanRestarts(a: seq<string>, op: string, b: seq<string>, n: nat)
    requires IsOperator(op) && !IsRedirect(op) && !IsTarget(a, |a|) && n <= |b|
    ensures ScanOf(a + [op] + b, |a| + 1 + n) == Scan(Line(a) + ScanOf(b, n).out, ScanOf(b, n).current, ScanOf(b, n).target)
  {
    hide IsOperator;
    hide IsRedirect;
    var whole := a + [op] + b;
    assert whole == a + ([op] + b);
    if n == 0 {
      ScanPrefix(a, [op] + b, |a|);
      ScanKeeps(a, |a|);
    } else {
      ScanRestarts(a, op, b, n - 1);
      assert whole[|a| + n] == b[n - 1];
      var s := ScanOf(b, n - 1);
      assert Line(a) + (s.out + [s.current]) == Line(a) + s.out + [s.current];
    }
  }

  /** An operator that is not a redirection's file cuts the line in two. */
  lemma {:induction false} OperatorCuts(a: seq<string>, op: string, b: seq<string>)
    requires op in {"&&", "||", "|", ";", "&", "\n"} && !IsTarget(a, |a|)
    ensures Line(a + [op] + b) == Line(a) + Line(b)
  {
    OperatorIsNoRedirect(op);
    ScanRestarts(a, op, b, |b|);
    hide *;
    var whole, s := a + [op] + b, ScanOf(b, |b|);
    assert |a| + 1 + |b| == |whole|;
    CloseAfter(Line(a), s);
    LineCloses(whole);
    LineCloses(b);
  }

  // The scan of what follows does not look back past its state.
  lemma {:induction false} ScanGoesOn(a: seq<string>, c: seq<string>, b: seq<string>, n: nat)
    requires n <= |b| && ScanOf(a, |a|) == ScanOf(c, |c|)
    ensures ScanOf(a + b, |a| + n) == ScanOf(c + b, |c| + n)
  {
    if n == 0 {
      ScanPrefix(a, b, |a|);
      ScanPrefix(c, b, |c|);
    } else {
      ScanGoesOn(a, c, b, n - 1);
      assert (a + b)[|a| + n - 1] == b[n - 1] && (c + b)[|c| + n - 1] == b[n - 1];
      hide Next;
    }
  }

  lemma RedirectIsForgotten(a: seq<string>, sign: string, file: string)
    requires IsRedirect(sign) && !IsTarget(a, |a|)
    ensures ScanOf(a + [sign, file], |a| + 2) == ScanOf(a, |a|)
  {
    var long := a + [sign, file];
    assert long[|a|] == sign && long[|a| + 1] == file;
    ScanPrefix(a, [sign, file], |a|);
    ScanKeeps(a, |a|);
    hide IsRedirect;
    hide IsOperator;
  }

  lemma RedirectGone(a: seq<string>, sign: string, file: string, b: seq<string>)
    requires IsRedirect(sign) && !IsTarget(a, |a|)
    ensures Line(a + [sign, file] + b) == Line(a + b)
  {
    hide *;
    RedirectIsForgotten(a, sign, file);
    ScanGoesOn(a + [sign, file], a, b, |b|);
    LineCloses(a + [sign, file] + b);
    LineCloses(a + b);
  }

  /** A redirection and the file it names leave no trace, whatever the file is called. */
  lemma RedirectVanishes(a: seq<string>, sign: string, file: string, b: seq<string>)
    requires sign in {">", ">>", "<", "<<", "2>", "2>>", "&>", ">&"} && !IsTarget(a, |a|)
    ensures Line(a + [sign, file] + b) == Line(a + b)
  {
    assert IsRedirect(sign);
    hide *;
    RedirectGone(a, sign, file, b);
  }

  lemma LineCloses(tokens: seq<string>)
    ensures Line(tokens) == Close(ScanOf(tokens, |tokens|))
  {
  }

  /** Nothing else does: a line whose operators are all files is one segment, or none. */
  lemma {:induction false} NothingElseCuts(tokens: seq<string>, n: nat)
    requires n <= |tokens|
    requires forall i :: 0 <= i < n && IsOperator(tokens[i]) ==> IsTarget(tokens, i)
    ensures ScanOf(tokens, n) == Scan([], Kept(tokens, n), IsTarget(tokens, n))
    ensures n == |tokens| ==> Line(tokens) == if Kept(tokens, n) == [] then [] else [Kept(tokens, n)]
  {
    if n > 0 { NothingElseCuts(tokens, n - 1); }
    ScanKeeps(tokens, n);
  }

  // ----- the whole command -----

  // The segments of lines that may not lex; one that does not is skipped.
  function Lines(lexed: seq<Option<seq<string>>>): seq<seq<string>> {
    if lexed == [] then []
    else
      var last := lexed[|lexed| - 1];
      Lines(lexed[..|lexed| - 1]) + (if last.Some? then Line(last.value) else [])
  }

  // What the lines that lex keep, one after another.
  function KeptLines(lexed: seq<Option<seq<string>>>): seq<string> {
    if lexed == [] then []
    else
      var last := lexed[|lexed| - 1];
      KeptLines(lexed[..|lexed| - 1]) + (if last.Some? then Kept(last.value, |last.value|) else [])
  }

  /** A line that does not lex costs that line alone, and a redirection sign left at the end of a line
      takes nothing from the next. */
  lemma {:induction false} LinesKeep(lexed: seq<Option<seq<string>>>)
    ensures Flatten(Lines(lexed)) == KeptLines(lexed)
  {
    if lexed != [] {
      hide Line;
      hide Kept;
      hide Flatten;
      var n := |lexed| - 1;
      LinesKeep(lexed[..n]);
      if lexed[n].Some? {
        LineKeeps(lexed[n].value);
        FlattenAdds(Lines(lexed[..n]), Line(lexed[n].value));
      } else {
        assert Lines(lexed[..n]) + [] == Lines(lexed[..n]);
      }
    }
  }

  // One line's tokens, through the two mode variables of the loop.
  method SegmentsOfLine(tokens: seq<string>) returns (out: seq<seq<string>>)
    ensures out == Line(tokens)
  {
    hide IsOperator;
    hide IsRedirect;
    out := [];
    var current: seq<string> := [];
    var target := false;
    for i := 0 to |tokens|
      invariant Scan(out, current, target) == ScanOf(tokens, i)
    {
      var token := tokens[i];
      if target {
        target := false;
      } else if IsRedirect(token) {
        target := true;
      } else if IsOperator(token) {
        if current != [] {
          out := out + [current];
          current := [];
        }
      } else {
        current := current + [token];
      }
    }
    if current != [] { out := out + [current]; }
  }

  method SegmentsOf(lexed: seq<Option<seq<string>>>) returns (out: seq<seq<string>>)
    ensures out == Lines(lexed)
    ensures forall g <- out :: g != [] && Clean(g)
  {
    hide Line;
    hide Clean;
    hide Flatten;
    out := [];
    for k := 0 to |lexed|
      invariant out == Lines(lexed[..k])
      invariant forall g <- out :: g != [] && Clean(g)
    {
      assert lexed[..k + 1][..k] == lexed[..k];
      if lexed[k].None? { continue; }
      var segments := SegmentsOfLine(lexed[k].value);
      LineKeeps(lexed[k].value);
      out := out + segments;
    }
    assert lexed[..|lexed|] == lexed;
  }

  // ----- wrappers -----

  // The part of a token after its last slash.
  function Base(t: string): string {
    if t == "" then "" else if t[|t| - 1] == '/' then "" else Base(t[..|t| - 1]) + [t[|t| - 1]]
  }

  predicate IsWrapper(b: string) {
    || b in {"sudo", "env", "time", "nice", "ionice", "nohup", "stdbuf", "xargs", "timeout", "command", "exec"}
    || b in {"bash", "sh", "-c", "mpirun", "srun", "ncu", "nvprof", "compute-sanitizer", "cuda-memcheck"}
    || b in {"strace", "ltrace", "valgrind", "setsid", "chrt", "taskset", "unbuffer", "watch"}
    || b in {"flock", "chroot", "su", "setarch", "gdb", "parallel", "screen"}
  }

  // The wrapper takes this subcommand and then runs what follows.
  predicate IsSubcommand(b: string, sub: string) {
    if b in {"uv", "poetry", "pipenv", "pdm", "hatch", "conda", "micromamba", "rye"} then sub == "run"
    else b == "nsys" && sub in {"profile", "launch", "start", "stats", "sessions"}
  }

  // The wrapper's flag takes the next token as its value.
  predicate TakesValue(owner: string, flag: string) {
    match owner
    case "conda" => flag in {"-n", "--name", "-p", "--prefix"}
    case "micromamba" => flag in {"-n", "--name", "-p", "--prefix"}
    case "env" => flag in {"-u", "--unset", "-C", "--chdir"}
    case "sudo" => flag in {"-u", "--user", "-g", "--group"}
    case "srun" => flag in {"-n", "--ntasks", "-p", "--partition", "--gres"}
    case "mpirun" => flag in {"-n", "-np", "--host", "--hostfile"}
    case "nsys" => flag in {"-o", "--output", "-t", "--trace", "-s", "--sample", "-c", "--capture-range"}
    case "ncu" => flag in {"-o", "--set", "--metrics", "-k", "--kernel-name"}
    case "nvprof" => flag in {"-o", "--output-profile", "--metrics", "--events"}
    case "strace" => flag in {"-o", "-e"}
    case "ltrace" => flag in {"-o", "-e"}
    case "valgrind" => flag in {"--log-file", "--tool", "--suppressions"}
    case "compute-sanitizer" => flag in {"--tool", "--log-file", "-o", "--destroy-on-device-error"}
    case "cuda-memcheck" => flag in {"--tool", "--log-file", "-o"}
    case "taskset" => flag in {"-c", "--cpu-list"}
    case "gdb" => flag in {"-ex", "--eval-command", "-x", "--command", "-cd", "--directory"}
    case "parallel" => flag in {"-j", "--jobs", "-S", "--sshlogin", "--results"}
    case _ => false
  }

  // How many operands of its own the wrapper takes before the command.
  function Positionals(b: string): nat {
    if b in {"flock", "chroot", "su", "setarch"} then 1 else 0
  }

  predicate IsDigit(c: char) { '0' <= c <= '9' }

  predicate IsHex(c: char) { IsDigit(c) || 'a' <= c <= 'f' || 'A' <= c <= 'F' }

  predicate IsLetter(c: char) { c == '_' || 'a' <= c <= 'z' || 'A' <= c <= 'Z' }

  // A name, an equals sign, anything.
  predicate IsAssignment(t: string) {
    exists k: nat :: 0 < k < |t| && t[k] == '=' && IsLetter(t[0]) && forall j :: 0 <= j < k ==> IsLetter(t[j]) || IsDigit(t[j])
  }

  predicate AllDigits(t: string) { t != "" && forall c <- t :: IsDigit(c) }

  // Digits, with at most one point between two runs of them.
  predicate IsDecimal(t: string) {
    AllDigits(t) || exists k: nat :: k < |t| && t[k] == '.' && AllDigits(t[..k]) && AllDigits(t[k + 1..])
  }

  // A count, a duration or a hexadecimal mask.
  predicate IsOperand(t: string) {
    || (|t| > 2 && t[0] == '0' && t[1] in {'x', 'X'} && forall c <- t[2..] :: IsHex(c))
    || IsDecimal(t)
    || (t != "" && t[|t| - 1] in {'s', 'm', 'h', 'd'} && IsDecimal(t[..|t| - 1]))
  }

  predicate IsFlag(t: string) { t != "" && t[0] == '-' }

  // Nothing a command can be: an assignment, a wrapper, a flag, or a wrapper's operand.
  predicate IsSkipped(t: string) {
    (IsAssignment(t) && !IsFlag(t)) || IsWrapper(Base(t)) || IsFlag(t) || IsOperand(t)
  }

  datatype Command = Command(exe: Option<string>, rest: seq<string>)

  // The token after `i`, or nothing.
  function Following(tokens: seq<string>, i: nat): string {
    if i + 1 < |tokens| then tokens[i + 1] else ""
  }

  // The command from token `i` on, inside the flags of wrapper `owner` with `owed` operands to come.
  function RealFrom(tokens: seq<string>, i: nat, owner: string, owed: nat): Command
    decreases |tokens| - i
  {
    if i >= |tokens| then Command(None, [])
    else
      var t := tokens[i];
      var b := Base(t);
      if IsSubcommand(b, Following(tokens, i)) then RealFrom(tokens, i + 2, b, owed)
      else if TakesValue(owner, t) then RealFrom(tokens, i + 2, owner, owed)
      else if owed > 0 && !IsFlag(t) then RealFrom(tokens, i + 1, owner, owed - 1)
      else if IsSkipped(t) then
        if IsWrapper(b) then RealFrom(tokens, i + 1, b, Positionals(b)) else RealFrom(tokens, i + 1, owner, owed)
      else Command(Some(t), tokens[i + 1..])
  }

  function Real(tokens: seq<string>): Command { RealFrom(tokens, 0, "", 0) }

  method RealCommand(tokens: seq<string>) returns (c: Command)
    ensures c == Real(tokens)
    ensures c == Command(None, []) || exists k: nat :: 0 <= k && FoundAt(tokens, k, c)
  {
    hide *;
    var i := 0;
    var owner := "";
    var owed: nat := 0;
    RealStarts(tokens);
    RealIsSuffix(tokens);
    while i < |tokens|
      invariant 0 <= i
      invariant RealFrom(tokens, i, owner, owed) == Real(tokens)
    {
      var t := tokens[i];
      var b := Base(t);
      RealStep(tokens, i, owner, owed);
      if IsSubcommand(b, Following(tokens, i)) {
        owner := b;
        i := i + 2;
      } else if TakesValue(owner, t) {
        i := i + 2;
      } else if owed > 0 && !IsFlag(t) {
        owed := owed - 1;
        i := i + 1;
      } else if IsSkipped(t) {
        if IsWrapper(b) {
          owner := b;
          owed := Positionals(b);
        }
        i := i + 1;
      } else {
        return Command(Some(t), tokens[i + 1..]);
      }
    }
    RealStep(tokens, i, owner, owed);
    return Command(None, []);
  }

  lemma RealStarts(tokens: seq<string>)
    ensures RealFrom(tokens, 0, "", 0) == Real(tokens)
  {
  }

  // One turn of the loop.
  lemma RealStep(tokens: seq<string>, i: nat, owner: string, owed: nat)
    ensures i >= |tokens| ==> RealFrom(tokens, i, owner, owed) == Command(None, [])
    ensures i < |tokens| ==>
      var t := tokens[i];
      var b := Base(t);
      RealFrom(tokens, i, owner, owed) ==
      if IsSubcommand(b, Following(tokens, i)) then RealFrom(tokens, i + 2, b, owed)
      else if TakesValue(owner, t) then RealFrom(tokens, i + 2, owner, owed)
      else if owed > 0 && !IsFlag(t) then RealFrom(tokens, i + 1, owner, owed - 1)
      else if IsSkipped(t) then
        if IsWrapper(b) then RealFrom(tokens, i + 1, b, Positionals(b)) else RealFrom(tokens, i + 1, owner, owed)
      else Command(Some(t), tokens[i + 1..])
  {
  }

  // The command found is the token at `k`, with everything after it, and could be a command.
  ghost predicate FoundAt(tokens: seq<string>, k: nat, c: Command) {
    && k < |tokens| && c == Command(Some(tokens[k]), tokens[k + 1..])
    && !IsSkipped(tokens[k]) && !IsSubcommand(Base(tokens[k]), Following(tokens, k))
  }

  lemma {:induction false} RealFound(tokens: seq<string>, i: nat, owner: string, owed: nat)
    ensures
      var c := RealFrom(tokens, i, owner, owed);
      c == Command(None, []) || exists k: nat :: i <= k && FoundAt(tokens, k, c)
    decreases |tokens| - i
  {
    hide *;
    RealStep(tokens, i, owner, owed);
    if i < |tokens| {
      var t := tokens[i];
      var b := Base(t);
      if IsSubcommand(b, Following(tokens, i)) {
        RealFound(tokens, i + 2, b, owed);
      } else if TakesValue(owner, t) {
        RealFound(tokens, i + 2, owner, owed);
      } else if owed > 0 && !IsFlag(t) {
        RealFound(tokens, i + 1, owner, owed - 1);
      } else if IsSkipped(t) {
        if IsWrapper(b) { RealFound(tokens, i + 1, b, Positionals(b)); } else { RealFound(tokens, i + 1, owner, owed); }
      } else {
        FoundHere(tokens, i);
      }
    }
  }

  lemma FoundHere(tokens: seq<string>, i: nat)
    requires i < |tokens| && !IsSkipped(tokens[i]) && !IsSubcommand(Base(tokens[i]), Following(tokens, i))
    ensures FoundAt(tokens, i, Command(Some(tokens[i]), tokens[i + 1..]))
  {
  }

  /** The command is a token of the segment with exactly what follows it, and is no assignment,
      wrapper, flag or operand; or there is none and nothing is left. */
  lemma {:induction false} RealIsSuffix(tokens: seq<string>)
    ensures
      var c := Real(tokens);
      c == Command(None, []) || exists k: nat :: 0 <= k && FoundAt(tokens, k, c)
  {
    RealFound(tokens, 0, "", 0);
  }

  /** Stripping again finds nothing more to strip. */
  lemma {:induction false} RealIdempotent(tokens: seq<string>)
    requires Real(tokens).exe.Some?
    ensures Real([Real(tokens).exe.value] + Real(tokens).rest) == Real(tokens)
  {
    RealIsSuffix(tokens);
    var c := Real(tokens);
    var k: nat :| FoundAt(tokens, k, c);
    var again := [c.exe.value] + c.rest;
    assert Following(again, 0) == Following(tokens, k);
    assert !TakesValue("", again[0]);
    assert again[1..] == c.rest;
    RealStep(again, 0, "", 0);
  }

  // ----- what stands before a command -----

  lemma {:induction false} BaseOfPath(dir: string, name: string)
    requires '/' !in name
    ensures Base(name) == name && Base(dir + "/" + name) == name
    decreases |name|
  {
    var path := dir + "/" + name;
    if name == "" {
      assert path[|path| - 1] == '/';
    } else {
      var n := |name| - 1;
      assert name[n] in name;
      BaseOfPath(dir, name[..n]);
      assert path[..|path| - 1] == dir + "/" + name[..n];
    }
  }

  // What follows the first token does not depend on it.
  lemma RealTail(t: string, u: string, tokens: seq<string>, i: nat, owner: string, owed: nat)
    requires i > 0
    ensures RealFrom([t] + tokens, i, owner, owed) == RealFrom([u] + tokens, i, owner, owed)
  {
    RealShift(t, tokens, i - 1, owner, owner, owed);
    RealShift(u, tokens, i - 1, owner, owner, owed);
  }

  // No flag of this wrapper takes a value.
  ghost predicate Flagless(owner: string) { forall flag: string :: !TakesValue(owner, flag) }

  // A token to skip with no flags, operands or subcommands of its own.
  ghost predicate Transparent(t: string) {
    && IsSkipped(t)
    && (forall sub: string :: !IsSubcommand(Base(t), sub))
    && (IsWrapper(Base(t)) ==> Positionals(Base(t)) == 0 && Flagless(Base(t)))
  }

  // A token put in front changes nothing further on, nor does which flagless wrapper owns the flags.
  lemma {:induction false} RealShift(t: string, tokens: seq<string>, i: nat, owner: string, other: string, owed: nat)
    requires owner == other || (Flagless(owner) && Flagless(other))
    ensures RealFrom([t] + tokens, i + 1, owner, owed) == RealFrom(tokens, i, other, owed)
    decreases |tokens| - i
  {
    hide *;
    var longer := [t] + tokens;
    RealStep(longer, i + 1, owner, owed);
    RealStep(tokens, i, other, owed);
    if i < |tokens| {
      SameHere(t, tokens, i, owner, other);
      var u := tokens[i];
      var b := Base(u);
      if IsSubcommand(b, Following(tokens, i)) {
        RealShift(t, tokens, i + 2, b, b, owed);
      } else if TakesValue(other, u) {
        RealShift(t, tokens, i + 2, owner, other, owed);
      } else if owed > 0 && !IsFlag(u) {
        RealShift(t, tokens, i + 1, owner, other, owed - 1);
      } else if IsSkipped(u) {
        if IsWrapper(b) { RealShift(t, tokens, i + 1, b, b, Positionals(b)); } else { RealShift(t, tokens, i + 1, owner, other, owed); }
      }
    }
  }

  lemma SameHere(t: string, tokens: seq<string>, i: nat, owner: string, other: string)
    requires i < |tokens| && (owner == other || (Flagless(owner) && Flagless(other)))
    ensures ([t] + tokens)[i + 1] == tokens[i] && ([t] + tokens)[i + 2..] == tokens[i + 1..]
    ensures Following([t] + tokens, i + 1) == Following(tokens, i)
    ensures TakesValue(owner, tokens[i]) == TakesValue(other, tokens[i])
  {
  }

  lemma NoOwnerIsFlagless()
    ensures Flagless("")
  {
  }

  /** A wrapper without flags, operands or subcommands of its own, an assignment, a flag or a number in
      front of any command leaves the command found unchanged. */
  lemma {:induction false} TransparentPrefix(t: string, tokens: seq<string>)
    requires Transparent(t)
    ensures Real([t] + tokens) == Real(tokens)
  {
    var longer := [t] + tokens;
    NoOwnerIsFlagless();
    hide IsSkipped;
    hide IsWrapper;
    hide IsFlag;
    hide IsSubcommand;
    hide TakesValue;
    hide Positionals;
    hide RealFrom;
    hide Base;
    RealStarts(longer);
    RealStarts(tokens);
    RealStep(longer, 0, "", 0);
    if IsWrapper(Base(t)) { RealShift(t, tokens, 0, Base(t), "", 0); } else { RealShift(t, tokens, 0, "", "", 0); }
  }

  /** What only looks like an assignment is the command. */
  lemma BadNameIsCommand(name: string, value: string, tokens: seq<string>)
    requires '=' !in name && !VariableName(name) && (name != "" ==> name[0] != '-') && '/' !in name && '/' !in value
    ensures Real([name + "=" + value] + tokens) == Command(Some(name + "=" + value), tokens)
  {
    var t := name + "=" + value;
    assert t[|name|] == '=' && '/' !in t;
    BaseOfPath("", t);
    EqualsIsNoWrapper(t);
    if IsOperand(t) { OperandHas(t, |name|); }
    if IsAssignment(t) { AssignmentHasName(name, value); }
    assert t[0] != '-';
    hide Base;
    hide IsWrapper;
    hide IsSubcommand;
    hide IsAssignment;
    hide IsOperand;
    assert ([t] + tokens)[1..] == tokens;
    NoOwnerIsFlagless();
    RealStep([t] + tokens, 0, "", 0);
  }

  lemma AssignmentHasName(name: string, value: string)
    requires '=' !in name && IsAssignment(name + "=" + value)
    ensures VariableName(name)
  {
    var t := name + "=" + value;
    assert forall j :: 0 <= j < |name| ==> t[j] == name[j] && name[j] in name;
    assert t[|name|] == '=';
    var k: nat :| 0 < k < |t| && t[k] == '=' && IsLetter(t[0]) && forall j :: 0 <= j < k ==> IsLetter(t[j]) || IsDigit(t[j]);
    assert k == |name|;
    forall c | c in name ensures c == '_' || 'a' <= c <= 'z' || 'A' <= c <= 'Z' || '0' <= c <= '9' {
      var j :| 0 <= j < |name| && name[j] == c;
      assert t[j] == c;
    }
  }

  lemma DecimalHas(t: string, i: nat)
    requires IsDecimal(t) && i < |t|
    ensures IsDigit(t[i]) || t[i] == '.'
  {
    if !AllDigits(t) {
      var k: nat :| k < |t| && t[k] == '.' && AllDigits(t[..k]) && AllDigits(t[k + 1..]);
      if i < k { assert t[i] in t[..k]; }
      if i > k { assert t[i] == t[k + 1..][i - k - 1]; }
    }
  }

  lemma OperandHas(t: string, i: nat)
    requires IsOperand(t) && i < |t|
    ensures t[i] != '='
  {
    var u := t[..|t| - 1];
    if IsDecimal(t) {
      DecimalHas(t, i);
    } else if t[|t| - 1] in {'s', 'm', 'h', 'd'} && IsDecimal(u) {
      if i < |u| {
        DecimalHas(u, i);
        assert u[i] == t[i];
      }
    } else if i >= 2 {
      assert t[i] == t[2..][i - 2] && t[i] in t[2..];
    }
  }

  // A shell variable's name: a letter or underscore, then letters, underscores and digits.
  ghost predicate VariableName(name: string) {
    && name != "" && !('0' <= name[0] <= '9')
    && forall c <- name :: c == '_' || 'a' <= c <= 'z' || 'A' <= c <= 'Z' || '0' <= c <= '9'
  }

  lemma EqualsIsNoWrapper(b: string)
    requires '=' in b
    ensures !IsWrapper(b) && forall sub: string :: !IsSubcommand(b, sub)
  {
  }

  lemma DigitIsNoWrapper(b: string)
    requires b != "" && '0' <= b[0] <= '9'
    ensures !IsWrapper(b) && forall sub: string :: !IsSubcommand(b, sub)
  {
  }

  /** A wrapper is known by its name, wherever it is installed. */
  lemma WrapperByPath(dir: string, name: string, tokens: seq<string>)
    requires '/' !in name && IsWrapper(name)
    ensures Real([dir + "/" + name] + tokens) == Real([name] + tokens)
  {
    BaseOfPath(dir, name);
    hide *;
    ByBase(dir + "/" + name, name, tokens);
  }

  // Two wrappers of one name.
  lemma ByBase(t: string, u: string, tokens: seq<string>)
    requires Base(t) == Base(u) && IsWrapper(Base(t))
    ensures Real([t] + tokens) == Real([u] + tokens)
  {
    var long, short, b := [t] + tokens, [u] + tokens, Base(t);
    assert Following(long, 0) == Following(short, 0);
    WrappersAreSkipped(t);
    WrappersAreSkipped(u);
    NoOwnerIsFlagless();
    hide Base;
    hide IsWrapper;
    hide IsSkipped;
    hide IsSubcommand;
    hide RealFrom;
    hide Real;
    hide Positionals;
    RealStarts(long);
    RealStarts(short);
    RealStep(long, 0, "", 0);
    RealStep(short, 0, "", 0);
    RealTail(t, u, tokens, 1, b, Positionals(b));
    RealTail(t, u, tokens, 2, b, 0);
    hide *;
  }

  /** Setting variables in front of a command leaves the command found as it is. */
  lemma AssignmentPrefix(name: string, value: string, tokens: seq<string>)
    requires VariableName(name) && '/' !in value
    ensures Real([name + "=" + value] + tokens) == Real(tokens)
  {
    var t := name + "=" + value;
    assert t[|name|] == '=' && t[0] == name[0] && forall j :: 0 <= j < |name| ==> t[j] == name[j] && name[j] in name;
    assert IsAssignment(t);
    assert '/' !in t;
    BaseOfPath("", t);
    EqualsIsNoWrapper(t);
    hide Base;
    hide IsWrapper;
    hide IsSubcommand;
    hide IsAssignment;
    TransparentPrefix(t, tokens);
  }

  ghost predicate Digits(s: string) { s != "" && forall c <- s :: '0' <= c <= '9' }

  // Nothing, or a point and digits.
  ghost predicate Fraction(s: string) { s == "" || (s[0] == '.' && Digits(s[1..])) }

  lemma DecimalIs(digits: string, fraction: string)
    requires Digits(digits) && Fraction(fraction)
    ensures IsDecimal(digits + fraction) && (digits + fraction)[0] == digits[0] && digits[0] in digits
  {
    var t := digits + fraction;
    assert AllDigits(digits);
    if fraction == "" {
      assert t == digits;
    } else {
      var k: nat := |digits|;
      assert t[..k] == digits && t[k + 1..] == fraction[1..] && t[k] == '.';
    }
  }

  /** A count or a duration in front of a command leaves the command found as it is. */
  lemma NumberPrefix(digits: string, fraction: string, unit: string, tokens: seq<string>)
    requires Digits(digits) && Fraction(fraction) && unit in {"", "s", "m", "h", "d"}
    ensures Real([digits + fraction + unit] + tokens) == Real(tokens)
  {
    var number := digits + fraction;
    var t := number + unit;
    DecimalIs(digits, fraction);
    hide IsDecimal;
    if unit == "" {
      assert t == number;
    } else {
      assert t[..|t| - 1] == number && t[|t| - 1] == unit[0];
    }
    assert IsOperand(t);
    forall c | c in fraction ensures c != '/' {
      var k :| 0 <= k < |fraction| && fraction[k] == c;
      if k > 0 { assert fraction[1..][k - 1] == c && c in fraction[1..]; }
    }
    assert '/' !in t;
    BaseOfPath("", t);
    DigitIsNoWrapper(t);
    hide Base;
    hide IsWrapper;
    hide IsSubcommand;
    hide IsOperand;
    TransparentPrefix(t, tokens);
  }

  /** So does a hexadecimal mask. */
  lemma MaskPrefix(x: char, hex: string, tokens: seq<string>)
    requires x == 'x' || x == 'X'
    requires hex != "" && forall c <- hex :: '0' <= c <= '9' || 'a' <= c <= 'f' || 'A' <= c <= 'F'
    ensures Real([['0', x] + hex] + tokens) == Real(tokens)
  {
    var t := ['0', x] + hex;
    assert t[2..] == hex && t[0] == '0' && t[1] == x;
    assert IsOperand(t);
    assert '/' !in t;
    BaseOfPath("", t);
    DigitIsNoWrapper(t);
    hide Base;
    hide IsWrapper;
    hide IsSubcommand;
    hide IsOperand;
    TransparentPrefix(t, tokens);
  }

  ghost predicate Word(t: string) { t != "" && forall c <- t :: 'a' <= c <= 'z' || 'A' <= c <= 'Z' }

  lemma WordIsNotSkipped(t: string)
    requires Word(t) && !IsWrapper(t)
    ensures !IsSkipped(t) && Base(t) == t
  {
    assert t[0] in t;
    assert '/' !in t;
    BaseOfPath("", t);
    forall k: nat | k < |t| ensures t[k] != '=' && t[k] != '.' { assert t[k] in t; }
    assert !AllDigits(t) by { assert !IsDigit(t[0]); }
    assert |t| > 1 ==> t[..|t| - 1][0] == t[0];
    assert |t| > 1 ==> t[0] in t[..|t| - 1];
    assert !AllDigits(t[..|t| - 1]);
  }

  /** A plain word that is no wrapper is the command, with everything after it. */
  lemma WordIsCommand(t: string, tokens: seq<string>)
    requires Word(t) && !IsWrapper(t) && !IsSubcommand(t, Following([t] + tokens, 0))
    ensures Real([t] + tokens) == Command(Some(t), tokens)
  {
    WordIsNotSkipped(t);
    hide IsSkipped;
    hide Base;
    assert ([t] + tokens)[1..] == tokens;
    RealStep([t] + tokens, 0, "", 0);
  }

  lemma BareName(name: string)
    requires '/' !in name
    ensures Base(name) == name
  {
    BaseOfPath("", name);
  }

  // The tokens of the command lines below, each for what it is.
  lemma KnownTokens()
    ensures IsWrapper("timeout") && IsWrapper("sudo") && IsWrapper("flock") && !IsWrapper("uv") && !IsWrapper("pytest")
    ensures TakesValue("sudo", "-u") && !TakesValue("sudo", "-n") && !TakesValue("timeout", "900")
    ensures IsSubcommand("uv", "run") && !IsSubcommand("uv", "pip")
    ensures Positionals("flock") == 1 && Positionals("sudo") == 0 && Positionals("timeout") == 0
    ensures IsFlag("-u") && IsFlag("-n") && !IsFlag("/tmp/l") && !TakesValue("flock", "/tmp/l")
  {
  }

  lemma LockFile()
    ensures Base("/tmp/l") == "l"
  {
    BaseOfPath("/tmp", "l");
    hide Base;
    assert "/tmp/l" == "/tmp" + "/" + "l";
  }

  /** A wrapper's flag that takes a value goes with it, and only that wrapper's: the hook's tests have
      `sudo -u root pytest` run pytest, and so does `sudo -n pytest`, whose flag takes none. */
  lemma SudoRunsPytest()
    ensures Real(["sudo", "-u", "root", "pytest"]) == Command(Some("pytest"), [])
    ensures Real(["sudo", "-n", "pytest"]) == Command(Some("pytest"), [])
  {
    hide *;
    PytestUnderSudo(["sudo", "-u", "root", "pytest"], 3);
    PytestUnderSudo(["sudo", "-n", "pytest"], 2);
    SudoAsRoot();
    SudoQuietly();
  }

  // Within sudo's flags, pytest is the command.
  lemma PytestUnderSudo(line: seq<string>, i: nat)
    requires i < |line| && line[i] == "pytest"
    ensures RealFrom(line, i, "sudo", 0) == Command(Some("pytest"), line[i + 1..])
  {
    BareName("pytest");
    PytestIsCommand();
    NoSubcommands();
    hide *;
    RealStep(line, i, "sudo", 0);
  }

  lemma SudoAsRoot()
    ensures
      var line := ["sudo", "-u", "root", "pytest"];
      Real(line) == RealFrom(line, 3, "sudo", 0)
  {
    KnownTokens();
    BareName("sudo");
    BareName("-u");
    NoSubcommands();
    hide *;
    var line := ["sudo", "-u", "root", "pytest"];
    RealStarts(line);
    WrapperFirst(line);
    RealStep(line, 1, "sudo", 0);
  }

  lemma SudoQuietly()
    ensures
      var line := ["sudo", "-n", "pytest"];
      Real(line) == RealFrom(line, 2, "sudo", 0)
  {
    KnownTokens();
    BareName("sudo");
    BareName("-n");
    NoSubcommands();
    FlagsAreSkipped("-n");
    hide *;
    var line := ["sudo", "-n", "pytest"];
    RealStarts(line);
    WrapperFirst(line);
    RealStep(line, 1, "sudo", 0);
  }

  lemma FlagsAreSkipped(t: string)
    requires IsFlag(t)
    ensures IsSkipped(t)
  {
  }

  // A wrapper at the head of a line owns what follows.
  lemma WrapperFirst(line: seq<string>)
    requires line != [] && IsWrapper(Base(line[0])) && forall sub: string :: !IsSubcommand(Base(line[0]), sub)
    ensures RealFrom(line, 0, "", 0) == RealFrom(line, 1, Base(line[0]), Positionals(Base(line[0])))
  {
    NoOwnerIsFlagless();
    WrappersAreSkipped(line[0]);
    hide RealFrom;
    hide IsSkipped;
    hide IsWrapper;
    hide IsSubcommand;
    hide Base;
    hide Positionals;
    RealStep(line, 0, "", 0);
  }

  lemma WrappersAreSkipped(t: string)
    requires IsWrapper(Base(t))
    ensures IsSkipped(t)
  {
  }

  /** A lock file is the wrapper's operand and not the command. */
  lemma FlockRunsPytest()
    ensures Real(["flock", "/tmp/l", "pytest"]) == Command(Some("pytest"), [])
  {
    KnownTokens();
    LockFile();
    BareName("flock");
    BareName("pytest");
    PytestIsCommand();
    hide Base;
    hide RealFrom;
    hide IsAssignment;
    hide IsOperand;
    hide IsWrapper;
    hide TakesValue;
    hide IsSubcommand;
    NoSubcommands();
    var line := ["flock", "/tmp/l", "pytest"];
    RealStarts(line);
    RealStep(line, 0, "", 0);
    RealStep(line, 1, "flock", 1);
    RealStep(line, 2, "flock", 0);
  }

  /** Two tokens together are a wrapper: `uv run pytest` runs pytest, and `uv pip` runs uv. */
  lemma UvRunsPytest()
    ensures Real(["uv", "run", "pytest"]) == Command(Some("pytest"), [])
    ensures Real(["uv", "pip", "install"]) == Command(Some("uv"), ["pip", "install"])
  {
    KnownTokens();
    BareName("uv");
    BareName("pytest");
    PytestIsCommand();
    assert Word("uv");
    WordIsCommand("uv", ["pip", "install"]);
    assert ["uv"] + ["pip", "install"] == ["uv", "pip", "install"];
    hide Base;
    hide RealFrom;
    hide IsSkipped;
    hide IsWrapper;
    hide TakesValue;
    hide IsSubcommand;
    NoSubcommands();
    var line := ["uv", "run", "pytest"];
    RealStarts(line);
    RealStep(line, 0, "", 0);
    RealStep(line, 2, "uv", 0);
  }

  // Which tokens of those lines are no wrappers with subcommands.
  lemma NoSubcommands()
    ensures forall sub: string :: !IsSubcommand("sudo", sub) && !IsSubcommand("flock", sub) && !IsSubcommand("pytest", sub)
    ensures forall sub: string :: !IsSubcommand("-u", sub) && !IsSubcommand("-n", sub) && !IsSubcommand("l", sub)
    ensures forall flag: string :: !TakesValue("", flag) && !TakesValue("flock", flag) && !TakesValue("uv", flag)
    ensures !TakesValue("sudo", "pytest")
    ensures !IsWrapper("-u") && !IsWrapper("-n")
  {
  }

  lemma PytestIsCommand()
    ensures !IsSkipped("pytest")
  {
    assert Word("pytest");
    KnownTokens();
    WordIsNotSkipped("pytest");
  }
}
