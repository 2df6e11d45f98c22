/** Quoting arguments for a Windows command line, and reading them back.
    The reader follows Microsoft's "Parsing C command-line arguments". */
module WindowsArguments {
  import opened Prelude

  const QUOTE: char := '\"'
  const BACKSLASH: char := '\\'

  predicate IsBlank(c: char) {
    c == ' ' || c == '\t'
  }

  predicate NeedsQuotes(arg: string) {
    arg == [] || exists k :: 0 <= k < |arg| && (IsBlank(arg[k]) || arg[k] == QUOTE)
  }

  // ---------- writing ----------

  /** What follows an opening quote for the characters `rest`, after a run of
      `backslashes` not written yet, the closing quote included. */
  function QuotedTail(rest: string, backslashes: nat): string {
    if rest == [] then
      Repeat(BACKSLASH, backslashes * 2) + [QUOTE]
    else if rest[0] == BACKSLASH then
      QuotedTail(rest[1..], backslashes + 1)
    else
      Repeat(BACKSLASH, if rest[0] == QUOTE then backslashes * 2 + 1 else backslashes)
      + [rest[0]] + QuotedTail(rest[1..], 0)
  }

  function Quoted(arg: string): string {
    if NeedsQuotes(arg) then [QUOTE] + QuotedTail(arg, 0) else arg
  }

  lemma {:induction false} QuotedTailIsLonger(rest: string, backslashes: nat)
    ensures |QuotedTail(rest, backslashes)| > |rest| + backslashes
    decreases |rest|
  {
    if rest == [] {
    } else if rest[0] == BACKSLASH {
      QuotedTailIsLonger(rest[1..], backslashes + 1);
    } else {
      QuotedTailIsLonger(rest[1..], 0);
    }
  }

  /** An argument is left as it is exactly when it is not empty and holds no
      space, tab, or double quote. */
  lemma UnchangedExactly(arg: string)
    ensures Quoted(arg) == arg <==> arg != [] && ' ' !in arg && '\t' !in arg && QUOTE !in arg
  {
    QuotedTailIsLonger(arg, 0);
    assert Quoted(arg) == arg <==> !NeedsQuotes(arg);
  }

  /** The quoting loop: a counter of backslashes held back until it is known
      what follows them. */
  method WindowsArg(arg: string) returns (quoted: string)
    ensures quoted == Quoted(arg)
  {
    if !NeedsQuotes(arg) {
      return arg;
    }
    quoted := [QUOTE];
    var backslashes: nat := 0;
    for i := 0 to |arg|
      invariant quoted + QuotedTail(arg[i..], backslashes) == Quoted(arg)
    {
      var c := arg[i];
      assert arg[i..][0] == c && arg[i..][1..] == arg[i + 1..];
      if c == BACKSLASH {
        backslashes := backslashes + 1;
      } else {
        var run := if c == QUOTE then backslashes * 2 + 1 else backslashes;
        ghost var tail := QuotedTail(arg[i + 1..], 0);
        assert quoted + (Repeat(BACKSLASH, run) + [c] + tail) == quoted + Repeat(BACKSLASH, run) + [c] + tail;
        quoted := quoted + Repeat(BACKSLASH, run) + [c];
        backslashes := 0;
      }
    }
    assert arg[|arg|..] == [];
    assert quoted + (Repeat(BACKSLASH, backslashes * 2) + [QUOTE])
        == quoted + Repeat(BACKSLASH, backslashes * 2) + [QUOTE];
    quoted := quoted + Repeat(BACKSLASH, backslashes * 2) + [QUOTE];
  }

  /** The arguments, each quoted, with one space between them. */
  function CommandLine(args: seq<string>): string {
    if args == [] then []
    else if |args| == 1 then Quoted(args[0])
    else Quoted(args[0]) + [' '] + CommandLine(args[1..])
  }

  /** Two lists of arguments after one another have one blank between them. */
  lemma {:induction false} OneBlankBetween(a: seq<string>, b: seq<string>)
    requires a != [] && b != []
    ensures CommandLine(a + b) == CommandLine(a) + " " + CommandLine(b)
  {
    hide Quoted;
    assert (a + b)[0] == a[0] && (a + b)[1..] == a[1..] + b;
    if |a| == 1 {
      assert a[1..] + b == b;
    } else {
      OneBlankBetween(a[1..], b);
      var first, rest, last := Quoted(a[0]), CommandLine(a[1..]), CommandLine(b);
      assert first + [' '] + (rest + " " + last) == first + [' '] + rest + " " + last;
    }
  }

  // ---------- reading ----------

  function LeadingBackslashes(s: string): (k: nat)
    ensures k <= |s|
    ensures forall j :: 0 <= j < k ==> s[j] == BACKSLASH
    ensures k < |s| ==> s[k] != BACKSLASH
  {
    if s != [] && s[0] == BACKSLASH then 1 + LeadingBackslashes(s[1..]) else 0
  }

  /** One argument's characters, added to `acc`, and what follows it: a pair
      of backslashes before a quote is one backslash, an odd one escapes the
      quote, and a doubled quote inside quotes is one quote. */
  function ReadArgument(s: string, quoted: bool, acc: string): (r: (string, string))
    ensures |r.1| <= |s|
    decreases |s|
  {
    var k := LeadingBackslashes(s);
    if k == |s| then
      (acc + Repeat(BACKSLASH, k), [])
    else if s[k] == QUOTE then
      if k % 2 == 1 then
        ReadArgument(s[k + 1..], quoted, acc + Repeat(BACKSLASH, k / 2) + [QUOTE])
      else if quoted && k + 1 < |s| && s[k + 1] == QUOTE then
        ReadArgument(s[k + 2..], quoted, acc + Repeat(BACKSLASH, k / 2) + [QUOTE])
      else
        ReadArgument(s[k + 1..], !quoted, acc + Repeat(BACKSLASH, k / 2))
    else if !quoted && IsBlank(s[k]) then
      (acc + Repeat(BACKSLASH, k), s[k..])
    else
      ReadArgument(s[k + 1..], quoted, acc + Repeat(BACKSLASH, k) + [s[k]])
  }

  lemma ReadArgumentConsumes(s: string, acc: string)
    requires s != [] && !IsBlank(s[0])
    ensures |ReadArgument(s, false, acc).1| < |s|
  {
  }

  /** The arguments of a command line. */
  function ParseArguments(line: string): seq<string>
    decreases |line|
  {
    if line == [] then []
    else if IsBlank(line[0]) then ParseArguments(line[1..])
    else
      var (arg, rest) := ReadArgument(line, false, []);
      ReadArgumentConsumes(line, []);
      [arg] + ParseArguments(rest)
  }

  // ---------- the round trip ----------

  /** A run of backslashes in front of another character. */
  lemma RunThen(n: nat, c: char, rest: string)
    requires c != BACKSLASH
    ensures var s := Repeat(BACKSLASH, n) + [c] + rest;
      LeadingBackslashes(s) == n && s[n] == c && s[n..] == [c] + rest && s[n + 1..] == rest
  {
    var s := Repeat(BACKSLASH, n) + [c] + rest;
    assert s[n] == c;
  }

  /** A quote behind an odd run of backslashes is a character. */
  lemma ReadEscapedQuote(n: nat, rest: string, quoted: bool, acc: string)
    ensures ReadArgument(Repeat(BACKSLASH, n * 2 + 1) + [QUOTE] + rest, quoted, acc)
         == ReadArgument(rest, quoted, acc + Repeat(BACKSLASH, n) + [QUOTE])
  {
    RunThen(n * 2 + 1, QUOTE, rest);
  }

  /** A quote behind an even run ends or begins quoting, unless another
      quote doubles it. */
  lemma ReadQuote(n: nat, rest: string, quoted: bool, acc: string)
    requires quoted ==> rest == [] || rest[0] != QUOTE
    ensures ReadArgument(Repeat(BACKSLASH, n * 2) + [QUOTE] + rest, quoted, acc)
         == ReadArgument(rest, !quoted, acc + Repeat(BACKSLASH, n))
  {
    var s := Repeat(BACKSLASH, n * 2) + [QUOTE] + rest;
    RunThen(n * 2, QUOTE, rest);
    hide LeadingBackslashes, Repeat;
    assert n * 2 / 2 == n && n * 2 % 2 == 0;
    assert s[n * 2 + 1..] == rest;
    assert rest != [] ==> s[n * 2 + 1] == s[n * 2 + 1..][0];
  }

  /** Backslashes before any other character are themselves. */
  lemma ReadCharacter(n: nat, c: char, rest: string, quoted: bool, acc: string)
    requires c != BACKSLASH && c != QUOTE && (quoted || !IsBlank(c))
    ensures ReadArgument(Repeat(BACKSLASH, n) + [c] + rest, quoted, acc)
         == ReadArgument(rest, quoted, acc + Repeat(BACKSLASH, n) + [c])
  {
    RunThen(n, c, rest);
  }

  /** What ends an argument: nothing, or the space before the next one. */
  predicate Ends(after: string) {
    after == [] || IsBlank(after[0])
  }

  /** Inside quotes, the reader gives back the backslashes held back and the
      characters that follow them, and leaves at the closing quote. */
  lemma {:induction false} ReadQuoted(rest: string, backslashes: nat, after: string, acc: string)
    requires Ends(after)
    ensures ReadArgument(QuotedTail(rest, backslashes) + after, true, acc)
         == (acc + Repeat(BACKSLASH, backslashes) + rest, after)
    decreases |rest|
  {
    hide ReadArgument, LeadingBackslashes;
    var run := Repeat(BACKSLASH, backslashes);
    if rest == [] {
      ReadQuote(backslashes, after, true, acc);
      ReadEnd(after, acc + run);
      assert acc + run == acc + run + rest;
    } else if rest[0] == BACKSLASH {
      ReadQuoted(rest[1..], backslashes + 1, after, acc);
      assert acc + Repeat(BACKSLASH, backslashes + 1) + rest[1..] == acc + run + rest;
    } else {
      var tail := QuotedTail(rest[1..], 0) + after;
      var acc' := acc + run + [rest[0]];
      if rest[0] == QUOTE {
        assert QuotedTail(rest, backslashes) + after == Repeat(BACKSLASH, backslashes * 2 + 1) + [QUOTE] + tail;
        ReadEscapedQuote(backslashes, tail, true, acc);
      } else {
        assert QuotedTail(rest, backslashes) + after == run + [rest[0]] + tail;
        ReadCharacter(backslashes, rest[0], tail, true, acc);
      }
      ReadQuoted(rest[1..], 0, after, acc');
      assert acc' + Repeat(BACKSLASH, 0) + rest[1..] == acc + run + rest;
    }
  }

  /** A run of backslashes that ends an argument outside quotes. */
  lemma ReadRunEnd(n: nat, after: string, acc: string)
    requires Ends(after)
    ensures ReadArgument(Repeat(BACKSLASH, n) + after, false, acc) == (acc + Repeat(BACKSLASH, n), after)
  {
    var s := Repeat(BACKSLASH, n) + after;
    if after == [] {
      assert s == Repeat(BACKSLASH, n);
    } else {
      assert s == Repeat(BACKSLASH, n) + [after[0]] + after[1..];
      RunThen(n, after[0], after[1..]);
      assert [after[0]] + after[1..] == after;
    }
  }

  lemma ReadEnd(after: string, acc: string)
    requires Ends(after)
    ensures ReadArgument(after, false, acc) == (acc, after)
  {
    ReadRunEnd(0, after, acc);
    assert Repeat(BACKSLASH, 0) + after == after;
    assert acc + Repeat(BACKSLASH, 0) == acc;
  }

  /** Outside quotes, characters that need no quoting are read as they are. */
  lemma {:induction false} ReadPlain(arg: string, after: string, acc: string)
    requires Ends(after)
    requires forall k :: 0 <= k < |arg| ==> !IsBlank(arg[k]) && arg[k] != QUOTE
    ensures ReadArgument(arg + after, false, acc) == (acc + arg, after)
    decreases |arg|
  {
    hide ReadArgument;
    var k := LeadingBackslashes(arg);
    var run := Repeat(BACKSLASH, k);
    assert arg[..k] == run;
    if k == |arg| {
      assert arg == run;
      ReadRunEnd(k, after, acc);
    } else {
      var tail := arg[k + 1..] + after;
      assert arg + after == run + [arg[k]] + tail;
      ReadCharacter(k, arg[k], tail, false, acc);
      ReadPlain(arg[k + 1..], after, acc + run + [arg[k]]);
      assert acc + run + [arg[k]] + arg[k + 1..] == acc + arg;
    }
  }

  lemma ReadOne(arg: string, after: string)
    requires Ends(after)
    ensures ReadArgument(Quoted(arg) + after, false, []) == (arg, after)
    ensures Quoted(arg) != [] && !IsBlank(Quoted(arg)[0])
  {
    hide ReadArgument;
    if NeedsQuotes(arg) {
      var inside := QuotedTail(arg, 0) + after;
      assert Quoted(arg) + after == Repeat(BACKSLASH, 0) + [QUOTE] + inside;
      ReadQuote(0, inside, false, []);
      assert [] + Repeat(BACKSLASH, 0) == [];
      ReadQuoted(arg, 0, after, []);
      assert [] + Repeat(BACKSLASH, 0) + arg == arg;
    } else {
      ReadPlain(arg, after, []);
      assert [] + arg == arg;
    }
  }

  /** Every list of arguments is read back as it was. */
  lemma {:induction false} CommandLineRoundTrip(args: seq<string>)
    ensures ParseArguments(CommandLine(args)) == args
  {
    if args == [] {
    } else if |args| == 1 {
      ReadOne(args[0], []);
      assert Quoted(args[0]) + [] == CommandLine(args);
      assert ParseArguments(CommandLine(args)) == [args[0]] + ParseArguments([]);
    } else {
      var after := [' '] + CommandLine(args[1..]);
      ReadOne(args[0], after);
      assert Quoted(args[0]) + after == CommandLine(args);
      assert after[1..] == CommandLine(args[1..]);
      CommandLineRoundTrip(args[1..]);
      assert args == [args[0]] + args[1..];
    }
  }
}
