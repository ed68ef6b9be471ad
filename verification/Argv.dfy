/** Windows command-line assembly in `hidden-process.cs`, against the documented C/C++ argument parser. */
module Argv {

  function Slashes(n: nat): (r: string)
    ensures |r| == n && forall k :: 0 <= k < n ==> r[k] == '\\'
  {
    if n == 0 then "" else "\\" + Slashes(n - 1)
  }

  /** What `Quote` still has to append for `rest`, with `slashes` backslashes pending. */
  function QuotedTail(rest: string, slashes: nat): string {
    if rest == "" then Slashes(2 * slashes) + "\""
    else if rest[0] == '\\' then QuotedTail(rest[1..], slashes + 1)
    else Slashes(if rest[0] == '"' then 2 * slashes + 1 else slashes) + [rest[0]] + QuotedTail(rest[1..], 0)
  }

  function Quoted(value: string): string { "\"" + QuotedTail(value, 0) }

  function CommandLine(executable: string, arguments: seq<string>): string {
    Quoted(executable) + Arguments(arguments)
  }

  function Arguments(arguments: seq<string>): string {
    if arguments == [] then "" else " " + Quoted(arguments[0]) + Arguments(arguments[1..])
  }

  method Quote(value: string) returns (quoted: string)
    ensures quoted == Quoted(value)
  {
    quoted := "\"";
    var slashes: nat := 0;
    for i := 0 to |value|
      invariant quoted + QuotedTail(value[i..], slashes) == Quoted(value)
    {
      var character := value[i];
      assert value[i..][1..] == value[i + 1..];
      if character == '\\' {
        slashes := slashes + 1;
        continue;
      }
      quoted := quoted + Slashes(if character == '"' then 2 * slashes + 1 else slashes);
      quoted := quoted + [character];
      slashes := 0;
    }
    quoted := quoted + Slashes(2 * slashes);
    quoted := quoted + "\"";
  }

  lemma {:induction false} ArgumentsSnoc(arguments: seq<string>, last: string)
    ensures Arguments(arguments + [last]) == Arguments(arguments) + " " + Quoted(last)
  {
    var all := arguments + [last];
    if arguments == [] {
      assert all[0] == last && all[1..] == [];
      assert Arguments(all[1..]) == "";
    } else {
      assert all[0] == arguments[0] && all[1..] == arguments[1..] + [last];
      ArgumentsSnoc(arguments[1..], last);
    }
  }

  lemma LineGrows(executable: string, arguments: seq<string>, last: string)
    ensures CommandLine(executable, []) == Quoted(executable)
    ensures CommandLine(executable, arguments + [last]) == CommandLine(executable, arguments) + " " + Quoted(last)
  {
    ArgumentsSnoc(arguments, last);
  }

  /** The command buffer `Start` hands to `CreateProcessW`. */
  method BuildCommand(executable: string, arguments: seq<string>) returns (command: string)
    ensures command == CommandLine(executable, arguments)
  {
    command := Quote(executable);
    for i := 0 to |arguments|
      invariant command == CommandLine(executable, arguments[..i])
    {
      var quoted := Quote(arguments[i]);
      LineGrows(executable, arguments[..i], arguments[i]);
      assert arguments[..i + 1] == arguments[..i] + [arguments[i]];
      command := command + " " + quoted;
    }
    assert arguments[..|arguments|] == arguments;
  }

  lemma {:induction false} PlainTail(value: string)
    requires '\\' !in value && '"' !in value
    ensures QuotedTail(value, 0) == value + "\""
  {
    if value != "" {
      assert value[0] in value && forall c :: c in value[1..] ==> c in value;
      PlainTail(value[1..]);
      assert Slashes(0) + [value[0]] + (value[1..] + "\"") == [value[0]] + value[1..] + "\"";
    }
  }

  /** Plain text is written as it is, in quotes. */
  lemma PlainIsQuoted(value: string)
    requires '\\' !in value && '"' !in value
    ensures Quoted(value) == "\"" + value + "\""
  {
    PlainTail(value);
  }

  // The receiving side: Microsoft's "Parsing C++ command-line arguments".

  predicate IsSeparator(c: char) { c == ' ' || c == '\t' }

  function SlashRun(s: string): (n: nat)
    ensures n <= |s|
    ensures forall k :: 0 <= k < n ==> s[k] == '\\'
    ensures n < |s| ==> s[n] != '\\'
  {
    if s == "" || s[0] != '\\' then 0 else 1 + SlashRun(s[1..])
  }

  /** One argument read from the front of `s`, and the text after it. */
  function ReadArgument(s: string, quoted: bool): (r: (string, string))
    ensures |r.1| <= |s|
    ensures s != "" && (quoted || !IsSeparator(s[0])) ==> |r.1| < |s|
    decreases |s|
  {
    var n := SlashRun(s);
    if n == |s| then (s, "")
    else if s[n] == '"' then
      if n % 2 == 1 then
        var r := ReadArgument(s[n + 1..], quoted);
        (Slashes(n / 2) + "\"" + r.0, r.1)
      else if quoted && n + 1 < |s| && s[n + 1] == '"' then
        var r := ReadArgument(s[n + 2..], true);
        (Slashes(n / 2) + "\"" + r.0, r.1)
      else
        var r := ReadArgument(s[n + 1..], !quoted);
        (Slashes(n / 2) + r.0, r.1)
    else if !quoted && IsSeparator(s[n]) then (s[..n], s[n..])
    else
      var r := ReadArgument(s[n + 1..], quoted);
      (s[..n + 1] + r.0, r.1)
  }

  function ReadArguments(s: string): seq<string>
    decreases |s|
  {
    if s == "" then []
    else if IsSeparator(s[0]) then ReadArguments(s[1..])
    else
      var r := ReadArgument(s, false);
      [r.0] + ReadArguments(r.1)
  }

  /** The program name has its own rule: quotes toggle and vanish, a backslash is an ordinary character. */
  function ReadProgram(s: string, quoted: bool): (r: (string, string))
    ensures '"' !in r.0
  {
    if s == "" || (!quoted && IsSeparator(s[0])) then ("", s)
    else if s[0] == '"' then ReadProgram(s[1..], !quoted)
    else
      var r := ReadProgram(s[1..], quoted);
      ([s[0]] + r.0, r.1)
  }

  function ParseCommandLine(s: string): seq<string> {
    var program := ReadProgram(s, false);
    [program.0] + ReadArguments(program.1)
  }

  // Round trip.

  /** Text that ends an argument: the end of the line or a separator. */
  predicate EndsArgument(rest: string) { rest == "" || IsSeparator(rest[0]) }

  lemma {:induction false} SlashRunOf(n: nat, rest: string)
    requires rest == "" || rest[0] != '\\'
    ensures SlashRun(Slashes(n) + rest) == n
  {
    if n == 0 {
      assert Slashes(0) + rest == rest;
    } else {
      assert (Slashes(n) + rest)[1..] == Slashes(n - 1) + rest;
      SlashRunOf(n - 1, rest);
    }
  }

  lemma RunThen(k: nat, c: char, tail: string)
    requires c != '\\'
    ensures var s := Slashes(k) + ([c] + tail);
            SlashRun(s) == k && |s| > k && s[k] == c && s[k + 1..] == tail && s[..k + 1] == Slashes(k) + [c]
  {
    SlashRunOf(k, [c] + tail);
  }

  /** One parser step, inside quotes, over `k` backslashes and an escaped quote. */
  lemma ReadsEscapedQuote(k: nat, tail: string)
    requires k % 2 == 1
    ensures var r := ReadArgument(tail, true);
            ReadArgument(Slashes(k) + (['"'] + tail), true) == (Slashes(k / 2) + "\"" + r.0, r.1)
  {
    RunThen(k, '"', tail);
  }

  /** Over `k` backslashes and the closing quote. */
  lemma ReadsClosingQuote(k: nat, tail: string)
    requires k % 2 == 0 && EndsArgument(tail)
    ensures ReadArgument(Slashes(k) + (['"'] + tail), true) == (Slashes(k / 2), tail)
  {
    var s := Slashes(k) + (['"'] + tail);
    RunThen(k, '"', tail);
    assert k + 1 < |s| ==> s[k + 1] == tail[0];
    EndsAtOnce(tail);
    assert Slashes(k / 2) + "" == Slashes(k / 2);
  }

  /** Inside quotes a doubled quote is one, and the argument goes on. */
  lemma ReadsDoubledQuote(k: nat, tail: string)
    requires k % 2 == 0
    ensures var r := ReadArgument(tail, true);
            ReadArgument(Slashes(k) + (['"'] + (['"'] + tail)), true) == (Slashes(k / 2) + "\"" + r.0, r.1)
  {
    var s, more := Slashes(k) + (['"'] + (['"'] + tail)), ['"'] + tail;
    RunThen(k, '"', more);
    assert |s| > k + 1 && s[k + 1] == s[k + 1..][0] == '"';
    assert s[k + 2..] == more[1..] == tail;
  }

  /** Outside quotes plain text ends at a space or a tab. */
  lemma {:induction false} ReadsPlainWord(word: string, c: char, tail: string)
    requires '\\' !in word && '"' !in word && ' ' !in word && '\t' !in word && c in [' ', '\t']
    ensures ReadArgument(word + ([c] + tail), false) == (word, [c] + tail)
  {
    var s := word + ([c] + tail);
    if word == "" {
      assert s == [c] + tail && SlashRun(s) == 0;
    } else {
      assert word[0] in word && forall d :: d in word[1..] ==> d in word;
      assert s[0] == word[0] && s[1..] == word[1..] + ([c] + tail) && SlashRun(s) == 0;
      ReadsPlainWord(word[1..], c, tail);
      assert s[..1] + word[1..] == word;
    }
  }

  /** Over `k` backslashes and any other character. */
  lemma ReadsPlain(k: nat, c: char, tail: string)
    requires c != '\\' && c != '"'
    ensures var r := ReadArgument(tail, true);
            ReadArgument(Slashes(k) + ([c] + tail), true) == (Slashes(k) + [c] + r.0, r.1)
  {
    RunThen(k, c, tail);
  }

  lemma TailUnfolds(rest: string, slashes: nat, after: string)
    requires rest != "" && rest[0] != '\\'
    ensures var k := if rest[0] == '"' then 2 * slashes + 1 else slashes;
            QuotedTail(rest, slashes) + after == Slashes(k) + ([rest[0]] + (QuotedTail(rest[1..], 0) + after))
  {
  }

  lemma SlashesJoin(slashes: nat, rest: string)
    requires rest != ""
    ensures Slashes(0) + rest == rest
    ensures Slashes(slashes) + [rest[0]] + rest[1..] == Slashes(slashes) + rest
    ensures rest[0] == '\\' ==> Slashes(slashes + 1) + rest[1..] == Slashes(slashes) + rest
  {
  }

  lemma ReadsCharOver(slashes: nat, k: nat, c: char, tail: string, value: string, after: string)
    requires c != '\\' && k == (if c == '"' then 2 * slashes + 1 else slashes)
    requires ReadArgument(tail, true) == (value, after)
    ensures ReadArgument(Slashes(k) + ([c] + tail), true) == (Slashes(slashes) + [c] + value, after)
  {
    if c == '"' {
      ReadsEscapedQuote(k, tail);
      assert k / 2 == slashes;
    } else {
      ReadsPlain(k, c, tail);
    }
  }

  lemma ReadsCharBack(rest: string, slashes: nat, after: string)
    requires rest != "" && rest[0] != '\\'
    requires ReadArgument(QuotedTail(rest[1..], 0) + after, true) == (rest[1..], after)
    ensures ReadArgument(QuotedTail(rest, slashes) + after, true) == (Slashes(slashes) + rest, after)
  {
    TailUnfolds(rest, slashes, after);
    SlashesJoin(slashes, rest);
    var k := if rest[0] == '"' then 2 * slashes + 1 else slashes;
    ReadsCharOver(slashes, k, rest[0], QuotedTail(rest[1..], 0) + after, rest[1..], after);
  }

  lemma ReadsEndBack(slashes: nat, after: string)
    requires EndsArgument(after)
    ensures ReadArgument(Slashes(2 * slashes) + "\"" + after, true) == (Slashes(slashes), after)
  {
    var k := 2 * slashes;
    assert Slashes(k) + "\"" + after == Slashes(k) + (['"'] + after);
    ReadsClosingQuote(k, after);
  }

  /**
   * The `slashes` counter's meaning: the pending backslashes followed by `rest` are what the
   * parser still reads back.
   */
  lemma {:induction false} ReadsTailBack(rest: string, slashes: nat, after: string)
    requires EndsArgument(after)
    ensures ReadArgument(QuotedTail(rest, slashes) + after, true) == (Slashes(slashes) + rest, after)
    decreases |rest|
  {
    if rest == "" {
      ReadsEndBack(slashes, after);
      assert Slashes(slashes) + rest == Slashes(slashes);
    } else if rest[0] == '\\' {
      SlashesJoin(slashes, rest);
      ReadsTailBack(rest[1..], slashes + 1, after);
    } else {
      ReadsTailBack(rest[1..], 0, after);
      assert Slashes(0) + rest[1..] == rest[1..];
      ReadsCharBack(rest, slashes, after);
    }
  }

  lemma EndsAtOnce(after: string)
    requires EndsArgument(after)
    ensures ReadArgument(after, false) == ("", after)
  {
  }

  lemma ReadsQuotedBack(value: string, after: string)
    requires EndsArgument(after)
    ensures ReadArgument(Quoted(value) + after, false) == (value, after)
  {
    var s := Quoted(value) + after;
    assert s[1..] == QuotedTail(value, 0) + after;
    ReadsTailBack(value, 0, after);
    assert SlashRun(s) == 0;
    assert Slashes(0) + value == value;
  }

  /**
   * Every argument list survives: whatever backslashes, quotes and blanks it holds, the parser
   * returns it unchanged.
   */
  lemma {:induction false} ArgumentsRoundTrip(arguments: seq<string>)
    ensures ReadArguments(Arguments(arguments)) == arguments
  {
    if arguments != [] {
      var s := Arguments(arguments);
      var after := Arguments(arguments[1..]);
      assert s[1..] == Quoted(arguments[0]) + after;
      ReadsQuotedBack(arguments[0], after);
      ArgumentsRoundTrip(arguments[1..]);
    }
  }

  /** An executable path the program-name rule can carry. */
  predicate PlainProgram(executable: string) {
    '"' !in executable && (executable == "" || executable[|executable| - 1] != '\\')
  }

  lemma ReadProgramOfEnd(slashes: nat, after: string)
    requires EndsArgument(after)
    ensures ReadProgram(Slashes(2 * slashes) + "\"" + after, true) == (Slashes(slashes) + Slashes(slashes), after)
  {
    var s := ['"'] + after;
    assert Slashes(2 * slashes) + "\"" + after == Slashes(2 * slashes) + s;
    ReadProgramSlashes(2 * slashes, s);
    assert s[1..] == after;
    assert ReadProgram(s, true) == ("", after);
    assert Slashes(2 * slashes) + "" == Slashes(slashes) + Slashes(slashes);
  }

  lemma Regroup(a: string, b: string, c: string)
    requires b != ""
    ensures a + ([b[0]] + (b[1..] + c)) == a + b + c
  {
  }

  lemma ReadProgramOfChar(rest: string, slashes: nat, after: string, run: nat)
    requires rest != "" && rest[0] != '\\' && rest[0] != '"'
    requires ReadProgram(QuotedTail(rest[1..], 0) + after, true) == (rest[1..] + Slashes(run), after)
    ensures ReadProgram(QuotedTail(rest, slashes) + after, true) == (Slashes(slashes) + rest + Slashes(run), after)
  {
    var tail := QuotedTail(rest[1..], 0) + after;
    var s := [rest[0]] + tail;
    TailUnfolds(rest, slashes, after);
    ReadProgramSlashes(slashes, s);
    assert s[1..] == tail;
    assert ReadProgram(s, true) == ([rest[0]] + (rest[1..] + Slashes(run)), after);
    Regroup(Slashes(slashes), rest, Slashes(run));
  }

  /** Read as a program name, the quoted text gives back the value with its trailing backslashes doubled. */
  lemma {:induction false} ReadProgramOfTail(rest: string, slashes: nat, after: string)
    requires '"' !in rest && EndsArgument(after)
    ensures var run := TrailingSlashes(rest, slashes);
            ReadProgram(QuotedTail(rest, slashes) + after, true) == (Slashes(slashes) + rest + Slashes(run), after)
    decreases |rest|
  {
    if rest == "" {
      ReadProgramOfEnd(slashes, after);
      assert Slashes(slashes) + rest == Slashes(slashes);
    } else if rest[0] == '\\' {
      ReadProgramOfTail(rest[1..], slashes + 1, after);
      SlashesJoin(slashes, rest);
    } else {
      ReadProgramOfTail(rest[1..], 0, after);
      assert Slashes(0) + rest[1..] == rest[1..];
      ReadProgramOfChar(rest, slashes, after, TrailingSlashes(rest, slashes));
    }
  }

  /** Backslashes at the end of `slashes` of them followed by `rest`. */
  function TrailingSlashes(rest: string, slashes: nat): nat {
    if rest == "" then slashes
    else TrailingSlashes(rest[1..], if rest[0] == '\\' then slashes + 1 else 0)
  }

  lemma {:induction false} ReadProgramSlashes(n: nat, rest: string)
    ensures var r := ReadProgram(rest, true);
            ReadProgram(Slashes(n) + rest, true) == (Slashes(n) + r.0, r.1)
  {
    var s := Slashes(n) + rest;
    if n == 0 {
      assert s == rest;
      assert Slashes(0) + ReadProgram(rest, true).0 == ReadProgram(rest, true).0;
    } else {
      assert s[0] == '\\' && s[1..] == Slashes(n - 1) + rest;
      ReadProgramSlashes(n - 1, rest);
      assert ['\\'] + (Slashes(n - 1) + ReadProgram(rest, true).0) == Slashes(n) + ReadProgram(rest, true).0;
    }
  }

  lemma {:induction false} TrailingSlashesZero(rest: string, slashes: nat)
    ensures TrailingSlashes(rest, slashes) == 0 <==>
            if rest == "" then slashes == 0 else rest[|rest| - 1] != '\\'
    decreases |rest|
  {
    if rest != "" {
      TrailingSlashesZero(rest[1..], if rest[0] == '\\' then slashes + 1 else 0);
    }
  }

  lemma ReadProgramOfQuoted(executable: string, after: string)
    requires '"' !in executable && EndsArgument(after)
    ensures ReadProgram(Quoted(executable) + after, false)
         == (executable + Slashes(TrailingSlashes(executable, 0)), after)
  {
    var s := Quoted(executable) + after;
    assert s[1..] == QuotedTail(executable, 0) + after;
    ReadProgramOfTail(executable, 0, after);
    assert Slashes(0) + executable == executable;
  }

  /** The whole command line round-trips exactly when the program name holds no quote and ends in no backslash. */
  lemma CommandLineRoundTrip(executable: string, arguments: seq<string>)
    ensures ParseCommandLine(CommandLine(executable, arguments)) == [executable] + arguments
            <==> PlainProgram(executable)
  {
    var program := ReadProgram(CommandLine(executable, arguments), false).0;
    var run := TrailingSlashes(executable, 0);
    TrailingSlashesZero(executable, 0);
    if '"' !in executable {
      ReadProgramOfQuoted(executable, Arguments(arguments));
      ArgumentsRoundTrip(arguments);
      assert run == 0 ==> executable + Slashes(run) == executable;
    }
    assert ([executable] + arguments)[0] == executable;
    assert ParseCommandLine(CommandLine(executable, arguments))[0] == program;
    assert program == executable ==> |program| == |executable|;
  }
}
