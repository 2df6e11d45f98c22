/** The command lines passalong writes into Windows: the argument line of a
    Task Scheduler task, which is XML, and the Run key's command. */
module ServiceUnits {
  import opened Prelude
  import opened WindowsArguments

  /** What serve is started with. */
  function ServeArgs(config: Option<string>, daemon: bool): seq<string> {
    (if config.Some? then ["--config", config.value] else [])
    + ["serve"]
    + (if daemon then ["--daemon"] else [])
  }

  // ---------- escaping ----------

  /** Every `c` of `text` replaced by `to`. */
  function ReplaceAll(text: string, c: char, to: string): string {
    if text == [] then []
    else (if text[0] == c then to else [text[0]]) + ReplaceAll(text[1..], c, to)
  }

  /** The five replacements, one after another over the whole text. */
  function XmlEscape(text: string): string {
    var amp := ReplaceAll(text, '&', "&amp;");
    var lt := ReplaceAll(amp, '<', "&lt;");
    var gt := ReplaceAll(lt, '>', "&gt;");
    var quot := ReplaceAll(gt, '\"', "&quot;");
    ReplaceAll(quot, '\'', "&apos;")
  }

  /** The predefined entity of a character, or the character. */
  function EscapeOf(c: char): string {
    match c
    case '&' => "&amp;"
    case '<' => "&lt;"
    case '>' => "&gt;"
    case '\"' => "&quot;"
    case '\'' => "&apos;"
    case _ => [c]
  }

  /** Every character escaped by itself. */
  function EscapeEach(text: string): string {
    if text == [] then [] else EscapeOf(text[0]) + EscapeEach(text[1..])
  }

  lemma {:induction false} ReplaceAllConcat(a: string, b: string, c: char, to: string)
    ensures ReplaceAll(a + b, c, to) == ReplaceAll(a, c, to) + ReplaceAll(b, c, to)
  {
    if a == [] {
      assert a + b == b;
    } else {
      assert (a + b)[0] == a[0] && (a + b)[1..] == a[1..] + b;
      ReplaceAllConcat(a[1..], b, c, to);
    }
  }

  lemma {:induction false} ReplaceAllAbsent(text: string, c: char, to: string)
    requires c !in text
    ensures ReplaceAll(text, c, to) == text
  {
    if text != [] {
      ReplaceAllAbsent(text[1..], c, to);
    }
  }

  lemma XmlEscapeConcat(a: string, b: string)
    ensures XmlEscape(a + b) == XmlEscape(a) + XmlEscape(b)
  {
    ReplaceAllConcat(a, b, '&', "&amp;");
    var a1, b1 := ReplaceAll(a, '&', "&amp;"), ReplaceAll(b, '&', "&amp;");
    ReplaceAllConcat(a1, b1, '<', "&lt;");
    var a2, b2 := ReplaceAll(a1, '<', "&lt;"), ReplaceAll(b1, '<', "&lt;");
    ReplaceAllConcat(a2, b2, '>', "&gt;");
    var a3, b3 := ReplaceAll(a2, '>', "&gt;"), ReplaceAll(b2, '>', "&gt;");
    ReplaceAllConcat(a3, b3, '\"', "&quot;");
    ReplaceAllConcat(ReplaceAll(a3, '\"', "&quot;"), ReplaceAll(b3, '\"', "&quot;"), '\'', "&apos;");
  }

  lemma ReplaceOne(c: char, to: string)
    ensures ReplaceAll([c], c, to) == to
  {
    assert ReplaceAll([c], c, to) == to + ReplaceAll([], c, to);
  }

  /** A replacement leaves the entities earlier ones wrote alone. */
  lemma XmlEscapeOne(c: char)
    ensures XmlEscape([c]) == EscapeOf(c)
  {
    ReplaceOne(c, EscapeOf(c));
    if c != '&' { ReplaceAllAbsent([c], '&', "&amp;"); }
    var amp := if c == '&' then "&amp;" else [c];
    if c != '<' { ReplaceAllAbsent(amp, '<', "&lt;"); }
    var lt := if c == '<' then "&lt;" else amp;
    if c != '>' { ReplaceAllAbsent(lt, '>', "&gt;"); }
    var gt := if c == '>' then "&gt;" else lt;
    if c != '\"' { ReplaceAllAbsent(gt, '\"', "&quot;"); }
    var quot := if c == '\"' then "&quot;" else gt;
    if c != '\'' { ReplaceAllAbsent(quot, '\'', "&apos;"); }
  }

  /** The five successive replacements are one simultaneous substitution. */
  lemma {:induction false} EscapesAreSimultaneous(text: string)
    ensures XmlEscape(text) == EscapeEach(text)
  {
    if text == [] {
    } else {
      assert text == [text[0]] + text[1..];
      XmlEscapeConcat([text[0]], text[1..]);
      XmlEscapeOne(text[0]);
      EscapesAreSimultaneous(text[1..]);
    }
  }

  // ---------- reading XML content ----------

  predicate StartsWith(text: string, start: string) {
    start <= text
  }

  /** Character data with the five predefined entities (XML 1.0, section
      4.6) replaced; `None` for text that is not well formed without others. */
  function Unescape(text: string): Option<string>
    decreases |text|
  {
    if text == [] then Some([])
    else
      var (c, taken) :=
        if text[0] != '&' then (text[0], 1)
        else if StartsWith(text, "&amp;") then ('&', 5)
        else if StartsWith(text, "&lt;") then ('<', 4)
        else if StartsWith(text, "&gt;") then ('>', 4)
        else if StartsWith(text, "&quot;") then ('\"', 6)
        else if StartsWith(text, "&apos;") then ('\'', 6)
        else ('&', 0);
      if taken == 0 || text[0] == '<' then None
      else
        var rest := Unescape(text[taken..]);
        if rest.None? then None else Some([c] + rest.value)
  }

  /** Line ends as an XML processor passes them on (XML 1.0, section 2.11). */
  function NormaliseLineEnds(text: string): string {
    if text == [] then []
    else if text[0] == '\r' then
      (if |text| > 1 && text[1] == '\n' then [] else ['\n']) + NormaliseLineEnds(text[1..])
    else [text[0]] + NormaliseLineEnds(text[1..])
  }

  /** The characters XML text may hold (XML 1.0, section 2.2). */
  predicate IsXmlChar(c: char) {
    var n := c as int;
    n == 9 || n == 10 || n == 13 || 0x20 <= n <= 0xD7FF || 0xE000 <= n <= 0xFFFD || 0x1_0000 <= n <= 0x10_FFFF
  }

  /** What an XML processor makes of an element's text. */
  function ReadContent(text: string): Option<string> {
    if forall k :: 0 <= k < |text| ==> IsXmlChar(text[k])
    then Unescape(NormaliseLineEnds(text))
    else None
  }

  /** Whether XML text can carry `c` as itself. */
  predicate Survives(c: char) {
    IsXmlChar(c) && c != '\r'
  }

  lemma UnescapeOne(c: char, rest: string)
    requires Unescape(rest).Some?
    ensures Unescape(EscapeOf(c) + rest) == Some([c] + Unescape(rest).value)
  {
    var e := EscapeOf(c);
    assert (e + rest)[|e|..] == rest;
    assert (e + rest)[0] == e[0];
    if c == '&' { assert StartsWith(e + rest, "&amp;"); }
    if c == '<' { assert (e + rest)[1] == 'l'; assert StartsWith(e + rest, "&lt;"); }
    if c == '>' { assert (e + rest)[1] == 'g'; assert StartsWith(e + rest, "&gt;"); }
    if c == '\"' { assert (e + rest)[1] == 'q'; assert StartsWith(e + rest, "&quot;"); }
    if c == '\'' { assert (e + rest)[1] == 'a' && (e + rest)[2] == 'p'; assert StartsWith(e + rest, "&apos;"); }
  }

  lemma {:induction false} UnescapeEscape(text: string)
    ensures Unescape(XmlEscape(text)) == Some(text)
  {
    EscapesAreSimultaneous(text);
    if text != [] {
      EscapesAreSimultaneous(text[1..]);
      UnescapeEscape(text[1..]);
      UnescapeOne(text[0], EscapeEach(text[1..]));
      assert text == [text[0]] + text[1..];
    }
  }

  lemma {:induction false} NormalisedHasNoReturn(text: string)
    ensures '\r' !in NormaliseLineEnds(text)
    ensures '\r' !in text ==> NormaliseLineEnds(text) == text
  {
    if text != [] {
      NormalisedHasNoReturn(text[1..]);
    }
  }

  lemma {:induction false} EscapeKeeps(text: string, c: char)
    requires !Survives(c)
    ensures c in EscapeEach(text) <==> c in text
  {
    if text != [] {
      EscapeKeeps(text[1..], c);
      assert forall e :: e in EscapeOf(text[0]) ==> e == text[0] || Survives(e);
    }
  }

  lemma {:induction false} EscapeStaysLegal(text: string)
    requires forall c :: c in text ==> Survives(c)
    ensures forall c :: c in EscapeEach(text) ==> Survives(c)
  {
    if text != [] {
      EscapeStaysLegal(text[1..]);
      assert forall e :: e in EscapeOf(text[0]) ==> e == text[0] || Survives(e);
    }
  }

  lemma {:induction false} UnescapeAddsNoReturn(text: string)
    requires '\r' !in text && Unescape(text).Some?
    ensures '\r' !in Unescape(text).value
    decreases |text|
  {
    if text != [] {
      if text[0] != '&' { UnescapeAddsNoReturn(text[1..]); }
      else if StartsWith(text, "&amp;") { UnescapeAddsNoReturn(text[5..]); }
      else if StartsWith(text, "&lt;") { UnescapeAddsNoReturn(text[4..]); }
      else if StartsWith(text, "&gt;") { UnescapeAddsNoReturn(text[4..]); }
      else if StartsWith(text, "&quot;") { UnescapeAddsNoReturn(text[6..]); }
      else { UnescapeAddsNoReturn(text[6..]); }
    }
  }

  /** Escaped content is read back exactly unless it holds a character XML
      does not allow, or a carriage return, which a processor rewrites. */
  lemma ContentRoundTrip(text: string)
    ensures ReadContent(XmlEscape(text)) == Some(text) <==> forall c :: c in text ==> Survives(c)
  {
    EscapesAreSimultaneous(text);
    var escaped := XmlEscape(text);
    NormalisedHasNoReturn(escaped);
    if c :| c in text && !Survives(c) {
      EscapeKeeps(text, c);
      ReturnsAreLost(escaped);
    } else {
      EscapeStaysLegal(text);
      assert !Survives('\r') && forall k :: 0 <= k < |escaped| ==> escaped[k] in escaped;
      UnescapeEscape(text);
    }
  }

  lemma ReturnsAreLost(content: string)
    ensures var read := ReadContent(content); read.Some? ==> '\r' !in read.value
    ensures forall c :: c in content && !IsXmlChar(c) ==> ReadContent(content) == None
  {
    NormalisedHasNoReturn(content);
    if ReadContent(content).Some? {
      UnescapeAddsNoReturn(NormaliseLineEnds(content));
    }
  }

  // ---------- the task's argument line ----------

  /** The content of a task's `<Arguments>` element. */
  function TaskArguments(args: seq<string>): string {
    XmlEscape(CommandLine(args))
  }

  /** What the program the scheduler starts gets from that element. */
  function ReadTaskArguments(content: string): Option<seq<string>> {
    var line := ReadContent(content);
    if line.None? then None else Some(ParseArguments(line.value))
  }

  predicate AnyHas(args: seq<string>, c: char) {
    exists k :: 0 <= k < |args| && c in args[k]
  }

  /** Whether XML text can carry every character of every argument. */
  ghost predicate AllSurvive(args: seq<string>) {
    forall c :: AnyHas(args, c) ==> Survives(c)
  }

  lemma AnyHasSplit(args: seq<string>, c: char)
    requires args != []
    ensures AnyHas(args, c) <==> c in args[0] || AnyHas(args[1..], c)
  {
    if AnyHas(args[1..], c) {
      var k :| 0 <= k < |args[1..]| && c in args[1..][k];
      assert c in args[k + 1];
    }
    if AnyHas(args, c) && c !in args[0] {
      var k :| 0 <= k < |args| && c in args[k];
      assert args[1..][k - 1] == args[k];
    }
  }

  lemma {:induction false} QuotedTailHas(rest: string, backslashes: nat, c: char)
    requires c != BACKSLASH && c != QUOTE
    ensures c in QuotedTail(rest, backslashes) <==> c in rest
    decreases |rest|
  {
    if rest == [] {
    } else if rest[0] == BACKSLASH {
      QuotedTailHas(rest[1..], backslashes + 1, c);
    } else {
      QuotedTailHas(rest[1..], 0, c);
    }
  }

  lemma {:induction false} CommandLineHas(args: seq<string>, c: char)
    requires c != BACKSLASH && c != QUOTE && c != ' '
    ensures c in CommandLine(args) <==> AnyHas(args, c)
  {
    if args != [] {
      QuotedTailHas(args[0], 0, c);
      assert c in Quoted(args[0]) <==> c in args[0];
      AnyHasSplit(args, c);
      if |args| > 1 {
        CommandLineHas(args[1..], c);
        assert c in CommandLine(args) <==> c in Quoted(args[0]) || c in CommandLine(args[1..]);
      }
    }
  }

  /** The program gets the task's arguments back exactly when XML can carry
      all their characters. */
  lemma TaskArgumentsRoundTrip(args: seq<string>)
    ensures ReadTaskArguments(TaskArguments(args)) == Some(args) <==> AllSurvive(args)
  {
    var line := CommandLine(args);
    CommandLineRoundTrip(args);
    ContentRoundTrip(line);
    if c :| AnyHas(args, c) && !Survives(c) {
      CommandLineHas(args, c);
      EscapesAreSimultaneous(line);
      EscapeKeeps(line, c);
      ReturnsAreLost(TaskArguments(args));
      var read := ReadContent(TaskArguments(args));
      if read.Some? {
        assert c == '\r';
        var k :| 0 <= k < |args| && c in args[k];
        if k < |ParseArguments(read.value)| {
          ParseAddsNothing(read.value, c, k);
        }
      }
    } else {
      forall c | c in line ensures Survives(c) {
        if c != BACKSLASH && c != QUOTE && c != ' ' { CommandLineHas(args, c); }
      }
    }
  }

  lemma {:induction false} ReadArgumentHas(s: string, quoted: bool, acc: string, c: char)
    requires c != BACKSLASH && c != QUOTE && c !in s && c !in acc
    ensures c !in ReadArgument(s, quoted, acc).0 && c !in ReadArgument(s, quoted, acc).1
    decreases |s|
  {
    var k := LeadingBackslashes(s);
    if k < |s| {
      if s[k] == QUOTE {
        if k % 2 == 1 {
          ReadArgumentHas(s[k + 1..], quoted, acc + Repeat(BACKSLASH, k / 2) + [QUOTE], c);
        } else if quoted && k + 1 < |s| && s[k + 1] == QUOTE {
          ReadArgumentHas(s[k + 2..], quoted, acc + Repeat(BACKSLASH, k / 2) + [QUOTE], c);
        } else {
          ReadArgumentHas(s[k + 1..], !quoted, acc + Repeat(BACKSLASH, k / 2), c);
        }
      } else if !(!quoted && IsBlank(s[k])) {
        ReadArgumentHas(s[k + 1..], quoted, acc + Repeat(BACKSLASH, k) + [s[k]], c);
      }
    }
  }

  /** Parsing makes up no characters. */
  lemma {:induction false} ParseAddsNothing(line: string, c: char, k: nat)
    requires c != BACKSLASH && c != QUOTE && c !in line
    requires k < |ParseArguments(line)|
    ensures c !in ParseArguments(line)[k]
    decreases |line|
  {
    if IsBlank(line[0]) {
      ParseAddsNothing(line[1..], c, k);
    } else {
      ReadArgumentHas(line, false, [], c);
      ReadArgumentConsumes(line, []);
      if k > 0 {
        ParseAddsNothing(ReadArgument(line, false, []).1, c, k - 1);
      }
    }
  }

  lemma ServeArgsSurvive(config: Option<string>, daemon: bool)
    ensures AllSurvive(ServeArgs(config, daemon))
       <==> (config.Some? ==> forall c :: c in config.value ==> Survives(c))
  {
    var args := ServeArgs(config, daemon);
    assert forall c :: c in "--config" ==> Survives(c);
    assert forall c :: c in "serve" ==> Survives(c);
    assert forall c :: c in "--daemon" ==> Survives(c);
    assert forall k :: 0 <= k < |args| ==>
      args[k] in {"--config", "serve", "--daemon"} || (config.Some? && args[k] == config.value);
    if config.Some? {
      assert args[1] == config.value;
    }
  }

  /** In particular serve's own arguments come back, for every path of a
      config file XML can carry. */
  lemma ServeArgsReachTheTask(config: Option<string>, daemon: bool)
    ensures ReadTaskArguments(TaskArguments(ServeArgs(config, daemon))) ==
        Some(if config.None? && !daemon then ["serve"]
             else if config.None? then ["serve", "--daemon"]
             else if !daemon then ["--config", config.value, "serve"]
             else ["--config", config.value, "serve", "--daemon"])
      <==> (config.Some? ==> forall c :: c in config.value ==> Survives(c))
  {
    ServeArgsSurvive(config, daemon);
    TaskArgumentsRoundTrip(ServeArgs(config, daemon));
    ServeArgsAre(config, daemon);
    hide *;
  }

  lemma ServeArgsAre(config: Option<string>, daemon: bool)
    ensures ServeArgs(config, daemon) ==
      if config.None? && !daemon then ["serve"]
      else if config.None? then ["serve", "--daemon"]
      else if !daemon then ["--config", config.value, "serve"]
      else ["--config", config.value, "serve", "--daemon"]
  {
  }

  // ---------- the Run key's command ----------

  /** `"EXE" ARGUMENTS`, the executable always quoted. */
  function RunKeyCommand(exe: string, config: Option<string>): string {
    [QUOTE] + exe + [QUOTE] + [' '] + CommandLine(ServeArgs(config, true))
  }

  /** The program's own name, which quotes delimit and nothing escapes, and
      what follows the blank after it. */
  function ReadProgram(s: string, quoted: bool, acc: string): (string, string) {
    if s == [] then (acc, [])
    else if s[0] == QUOTE then ReadProgram(s[1..], !quoted, acc)
    else if !quoted && IsBlank(s[0]) then (acc, s[1..])
    else ReadProgram(s[1..], quoted, acc + [s[0]])
  }

  function ReadCommand(line: string): seq<string> {
    var (program, rest) := ReadProgram(line, false, []);
    [program] + ParseArguments(rest)
  }

  lemma {:induction false} ReadProgramQuoted(exe: string, rest: string, acc: string)
    requires QUOTE !in exe
    ensures ReadProgram(exe + [QUOTE] + rest, true, acc) == ReadProgram(rest, false, acc + exe)
  {
    if exe == [] {
      assert exe + [QUOTE] + rest == [QUOTE] + rest;
      assert acc + exe == acc;
    } else {
      assert (exe + [QUOTE] + rest)[1..] == exe[1..] + [QUOTE] + rest;
      ReadProgramQuoted(exe[1..], rest, acc + [exe[0]]);
      assert acc + [exe[0]] + exe[1..] == acc + exe;
    }
  }

  lemma {:induction false} ProgramHasNoQuote(s: string, quoted: bool, acc: string)
    requires QUOTE !in acc
    ensures QUOTE !in ReadProgram(s, quoted, acc).0
    decreases |s|
  {
    if s == [] {
    } else if s[0] == QUOTE {
      ProgramHasNoQuote(s[1..], !quoted, acc);
    } else if !quoted && IsBlank(s[0]) {
    } else {
      ProgramHasNoQuote(s[1..], quoted, acc + [s[0]]);
    }
  }

  /** The Run key starts exactly the program with exactly serve's arguments,
      unless the executable's path holds a double quote. */
  lemma RunKeyRoundTrip(exe: string, config: Option<string>)
    ensures ReadCommand(RunKeyCommand(exe, config)) ==
        (if config.None? then [exe, "serve", "--daemon"] else [exe, "--config", config.value, "serve", "--daemon"])
      <==> QUOTE !in exe
    ensures "\"" + exe + "\" " <= RunKeyCommand(exe, config)
  {
    var args := ServeArgs(config, true);
    var line := RunKeyCommand(exe, config);
    ProgramHasNoQuote(line, false, []);
    if QUOTE !in exe {
      var rest := [' '] + CommandLine(args);
      assert line[0] == QUOTE && line[1..] == exe + [QUOTE] + rest;
      ReadProgramQuoted(exe, rest, []);
      assert [] + exe == exe;
      assert rest[1..] == CommandLine(args);
      CommandLineRoundTrip(args);
    } else {
      assert ReadCommand(line)[0] != exe;
    }
  }
}
