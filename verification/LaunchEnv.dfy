/** The `daruda --env` parser and what it does to a child's environment (`env_strip.rs`). */
module EnvStrip {
  import opened Text

  /** A platform string: UTF-8 text, or bytes that are not. */
  datatype OsString = Utf8(text: string) | NotUtf8(units: seq<nat>)

  datatype Assignment = Assignment(name: string, value: string)

  datatype Request = Request(unset: seq<OsString>, assignments: seq<Assignment>, program: OsString, args: seq<OsString>)

  const UNSET_FLAG := Utf8("-u")

  function SplitAssignment(arg: OsString): Option<Assignment> {
    match arg
    case NotUtf8(_) => None
    case Utf8(text) =>
      var cut := IndexOf(text, '=');
      if cut == |text| || cut == 0 then None else Some(Assignment(text[..cut], text[cut + 1..]))
  }

  function WithUnset(name: OsString, rest: Option<Request>): Option<Request> {
    match rest
    case None => None
    case Some(q) => Some(q.(unset := [name] + q.unset))
  }

  function WithAssignment(a: Assignment, rest: Option<Request>): Option<Request> {
    match rest
    case None => None
    case Some(q) => Some(q.(assignments := [a] + q.assignments))
  }

  function ParseArgs(args: seq<OsString>): Option<Request> {
    if args == [] then None
    else if args[0] != UNSET_FLAG then ParseOperands(args)
    else if |args| == 1 then None
    else WithUnset(args[1], ParseArgs(args[2..]))
  }

  function ParseOperands(args: seq<OsString>): Option<Request> {
    if args == [] then None
    else
      match SplitAssignment(args[0])
      case None => Some(Request([], [], args[0], args[1..]))
      case Some(a) => WithAssignment(a, ParseOperands(args[1..]))
  }

  /** A parse result with what the two loops have already read put in front. */
  function Resumed(unset: seq<OsString>, assignments: seq<Assignment>, rest: Option<Request>): Option<Request> {
    match rest
    case None => None
    case Some(q) => Some(Request(unset + q.unset, assignments + q.assignments, q.program, q.args))
  }

  lemma ResumedNothing(rest: Option<Request>)
    ensures Resumed([], [], rest) == rest
  {
    if rest.Some? {
      assert [] + rest.value.unset == rest.value.unset;
      assert [] + rest.value.assignments == rest.value.assignments;
    }
  }

  lemma ResumedUnset(unset: seq<OsString>, name: OsString, rest: Option<Request>)
    ensures Resumed(unset, [], WithUnset(name, rest)) == Resumed(unset + [name], [], rest)
  {
    if rest.Some? {
      assert unset + ([name] + rest.value.unset) == unset + [name] + rest.value.unset;
    }
  }

  lemma ResumedAssignment(unset: seq<OsString>, assignments: seq<Assignment>, a: Assignment, rest: Option<Request>)
    ensures Resumed(unset, assignments, WithAssignment(a, rest)) == Resumed(unset, assignments + [a], rest)
  {
    if rest.Some? {
      assert assignments + ([a] + rest.value.assignments) == assignments + [a] + rest.value.assignments;
    }
  }

  lemma UnsetStep(args: seq<OsString>, i: nat, unset: seq<OsString>)
    requires i + 1 < |args| && args[i] == UNSET_FLAG
    ensures Resumed(unset, [], ParseArgs(args[i..])) == Resumed(unset + [args[i + 1]], [], ParseArgs(args[i + 2..]))
  {
    ResumedUnset(unset, args[i + 1], ParseArgs(args[i + 2..]));
    assert args[i..][2..] == args[i + 2..];
  }

  lemma AssignmentStep(args: seq<OsString>, i: nat, unset: seq<OsString>, assignments: seq<Assignment>, a: Assignment)
    requires i < |args| && SplitAssignment(args[i]) == Some(a)
    ensures Resumed(unset, assignments, ParseOperands(args[i..]))
         == Resumed(unset, assignments + [a], ParseOperands(args[i + 1..]))
  {
    ResumedAssignment(unset, assignments, a, ParseOperands(args[i + 1..]));
    assert args[i..][1..] == args[i + 1..];
  }

  lemma ProgramStep(args: seq<OsString>, i: nat, unset: seq<OsString>, assignments: seq<Assignment>)
    requires i < |args| && SplitAssignment(args[i]) == None
    ensures Resumed(unset, assignments, ParseOperands(args[i..]))
         == Some(Request(unset, assignments, args[i], args[i + 1..]))
  {
    assert args[i..][1..] == args[i + 1..];
    assert unset + [] == unset && assignments + [] == assignments;
  }

  method Parse(args: seq<OsString>) returns (r: Option<Request>)
    ensures r == ParseArgs(args)
  {
    var i := 0;
    var unset: seq<OsString> := [];
    ResumedNothing(ParseArgs(args));
    assert args[0..] == args;
    while i < |args| && args[i] == UNSET_FLAG
      invariant 0 <= i <= |args|
      invariant ParseArgs(args) == Resumed(unset, [], ParseArgs(args[i..]))
    {
      if i + 1 == |args| {
        return None;
      }
      UnsetStep(args, i, unset);
      unset := unset + [args[i + 1]];
      i := i + 2;
    }
    var assignments: seq<Assignment> := [];
    while i < |args| && SplitAssignment(args[i]).Some?
      invariant 0 <= i <= |args|
      invariant ParseArgs(args) == Resumed(unset, assignments, ParseOperands(args[i..]))
    {
      var a := SplitAssignment(args[i]).value;
      AssignmentStep(args, i, unset, assignments, a);
      assignments := assignments + [a];
      i := i + 1;
    }
    if i == |args| {
      return None;
    }
    ProgramStep(args, i, unset, assignments);
    r := Some(Request(unset, assignments, args[i], args[i + 1..]));
  }

  // The printer the parser undoes.

  function FlattenUnset(unset: seq<OsString>): seq<OsString> {
    if unset == [] then [] else [UNSET_FLAG, unset[0]] + FlattenUnset(unset[1..])
  }

  function FlattenAssignments(assignments: seq<Assignment>): seq<OsString> {
    if assignments == [] then []
    else [Utf8(assignments[0].name + "=" + assignments[0].value)] + FlattenAssignments(assignments[1..])
  }

  function Flatten(q: Request): seq<OsString> {
    FlattenUnset(q.unset) + FlattenAssignments(q.assignments) + [q.program] + q.args
  }

  predicate IsName(name: string) { name != "" && '=' !in name }

  /** The requests the grammar can spell: every name is one, and the program cannot be taken for anything earlier. */
  predicate WellFormed(q: Request) {
    && (forall a :: a in q.assignments ==> IsName(a.name))
    && SplitAssignment(q.program) == None
    && (q.assignments == [] ==> q.program != UNSET_FLAG)
  }

  lemma SplitsAtFirstEquals(a: Assignment)
    requires IsName(a.name)
    ensures SplitAssignment(Utf8(a.name + "=" + a.value)) == Some(a)
  {
    var text, n := a.name + "=" + a.value, |a.name|;
    assert text[n] == '=';
    assert forall k :: 0 <= k < n ==> text[k] == a.name[k] && a.name[k] in a.name;
    assert IndexOf(text, '=') == n;
    assert text[..n] == a.name && text[n + 1..] == a.value;
  }

  lemma SplitJoinsBack(arg: OsString)
    requires SplitAssignment(arg).Some?
    ensures var a := SplitAssignment(arg).value;
            IsName(a.name) && arg == Utf8(a.name + "=" + a.value) && arg != UNSET_FLAG
  {
    var cut := IndexOf(arg.text, '=');
    CutAt(arg.text, cut);
    assert arg.text[cut] == '=';
  }

  lemma {:induction false} OperandsRoundTrip(assignments: seq<Assignment>, program: OsString, args: seq<OsString>)
    requires forall a :: a in assignments ==> IsName(a.name)
    requires SplitAssignment(program) == None
    ensures ParseOperands(FlattenAssignments(assignments) + [program] + args)
         == Some(Request([], assignments, program, args))
  {
    var s := FlattenAssignments(assignments) + [program] + args;
    if assignments == [] {
      assert s[0] == program && s[1..] == args;
    } else {
      SplitsAtFirstEquals(assignments[0]);
      assert s[1..] == FlattenAssignments(assignments[1..]) + [program] + args;
      OperandsRoundTrip(assignments[1..], program, args);
      assert [assignments[0]] + assignments[1..] == assignments;
    }
  }

  lemma {:induction false} FlattenParses(q: Request)
    requires WellFormed(q)
    ensures ParseArgs(Flatten(q)) == Some(q)
    decreases |q.unset|
  {
    var s := Flatten(q);
    if q.unset == [] {
      assert s == FlattenAssignments(q.assignments) + [q.program] + q.args;
      OperandsRoundTrip(q.assignments, q.program, q.args);
      if q.assignments != [] {
        SplitsAtFirstEquals(q.assignments[0]);
        SplitJoinsBack(s[0]);
      }
    } else {
      var rest := q.(unset := q.unset[1..]);
      assert s[2..] == Flatten(rest);
      FlattenParses(rest);
      assert [q.unset[0]] + rest.unset == q.unset;
    }
  }

  lemma FlattenGrows(p: Request, name: OsString, a: Assignment)
    ensures Flatten(p.(unset := [name] + p.unset)) == [UNSET_FLAG, name] + Flatten(p)
    ensures p.unset == []
            ==> Flatten(p.(assignments := [a] + p.assignments)) == [Utf8(a.name + "=" + a.value)] + Flatten(p)
  {
    assert ([name] + p.unset)[1..] == p.unset && ([a] + p.assignments)[1..] == p.assignments;
  }

  lemma {:induction false} ParsedOperandsFlatten(args: seq<OsString>)
    requires ParseOperands(args).Some?
    ensures var q := ParseOperands(args).value;
            && q.unset == [] && Flatten(q) == args
            && (forall a :: a in q.assignments ==> IsName(a.name)) && SplitAssignment(q.program) == None
            && (q.assignments == [] ==> q.program == args[0])
  {
    var split := SplitAssignment(args[0]);
    if split.Some? {
      ParsedOperandsFlatten(args[1..]);
      SplitJoinsBack(args[0]);
      FlattenGrows(ParseOperands(args[1..]).value, args[0], split.value);
    }
  }

  lemma {:induction false} ParsedFlattens(args: seq<OsString>)
    requires ParseArgs(args).Some?
    ensures WellFormed(ParseArgs(args).value) && Flatten(ParseArgs(args).value) == args
  {
    if args[0] == UNSET_FLAG {
      ParsedFlattens(args[2..]);
      FlattenGrows(ParseArgs(args[2..]).value, args[1], Assignment("", ""));
      assert args == [args[0], args[1]] + args[2..];
    } else {
      ParsedOperandsFlatten(args);
    }
  }

  /**
   * The parser inverts the printer, and only it: an argv parses to `q` exactly when `q` is a
   * spellable request and prints as that argv.
   */
  lemma ParsesIffFlattens(args: seq<OsString>, q: Request)
    ensures ParseArgs(args) == Some(q) <==> WellFormed(q) && Flatten(q) == args
  {
    if ParseArgs(args) == Some(q) {
      ParsedFlattens(args);
    }
    if WellFormed(q) && Flatten(q) == args {
      FlattenParses(q);
    }
  }

  // Environment.

  /** How a host compares the names of variables: alike exactly when they fold alike. */
  type Fold = OsString -> OsString

  /** Folded names and their values. */
  type Environment = map<OsString, OsString>

  /** The part of `std::process::Command` that `run` touches. */
  class Command {
    const fold: Fold
    var program: OsString
    var args: seq<OsString>
    /** Explicit changes by folded name, in the end state: `None` removes an inherited variable. */
    var changes: map<OsString, Option<OsString>>

    constructor (fold: Fold, program: OsString)
      ensures this.fold == fold && this.program == program && args == [] && changes == map[]
    {
      this.fold, this.program, args, changes := fold, program, [], map[];
    }

    method SetArgs(args: seq<OsString>)
      modifies this
      ensures program == old(program) && this.args == old(this.args) + args && changes == old(changes)
    {
      this.args := this.args + args;
    }

    method EnvRemove(name: OsString)
      modifies this
      ensures program == old(program) && args == old(args) && changes == old(changes)[fold(name) := None]
    {
      changes := changes[fold(name) := None];
    }

    method Env(name: OsString, value: OsString)
      modifies this
      ensures program == old(program) && args == old(args) && changes == old(changes)[fold(name) := Some(value)]
    {
      changes := changes[fold(name) := Some(value)];
    }
  }

  /** The environment a child gets from a parent's and a command's explicit changes. */
  function Apply(inherited: Environment, changes: map<OsString, Option<OsString>>): Environment {
    map name | name in inherited.Keys + changes.Keys && (name in changes ==> changes[name].Some?)
      :: if name in changes then changes[name].value else inherited[name]
  }

  /** `assignments` in order, so that the last one for a name wins. */
  function Assigned(fold: Fold, assignments: seq<Assignment>): Environment {
    if assignments == [] then map[]
    else
      var last := assignments[|assignments| - 1];
      Assigned(fold, assignments[..|assignments| - 1])[fold(Utf8(last.name)) := Utf8(last.value)]
  }

  function Names(fold: Fold, names: seq<OsString>): set<OsString> { set n | n in names :: fold(n) }

  function ChildEnvironment(fold: Fold, inherited: Environment, q: Request): Environment {
    (inherited - Names(fold, q.unset)) + Assigned(fold, q.assignments)
  }

  /** Every removed name is marked removed unless it was assigned since. */
  ghost predicate Reflects(changes: map<OsString, Option<OsString>>, unset: set<OsString>, given: Environment) {
    && changes.Keys == unset + given.Keys
    && (forall n :: n in changes ==> changes[n] == if n in given then Some(given[n]) else None)
  }

  lemma ReflectedApplies(fold: Fold, inherited: Environment, changes: map<OsString, Option<OsString>>, q: Request)
    requires Reflects(changes, Names(fold, q.unset), Assigned(fold, q.assignments))
    ensures Apply(inherited, changes) == ChildEnvironment(fold, inherited, q)
  {
  }

  lemma OneMoreName(fold: Fold, names: seq<OsString>, name: OsString)
    ensures Names(fold, names + [name]) == Names(fold, names) + {fold(name)}
  {
  }

  lemma OneMoreAssigned(fold: Fold, assignments: seq<Assignment>, a: Assignment)
    ensures Assigned(fold, assignments + [a]) == Assigned(fold, assignments)[fold(Utf8(a.name)) := Utf8(a.value)]
  {
    assert (assignments + [a])[..|assignments|] == assignments;
  }

  /**
   * `run` up to the point where the process is handed over: removals first, then assignments, on
   * top of what is inherited, however the host compares names.
   */
  method Run(fold: Fold, request: Request) returns (command: Command)
    ensures fresh(command)
    ensures command.program == request.program && command.args == request.args
    ensures forall inherited: Environment ::
              Apply(inherited, command.changes) == ChildEnvironment(fold, inherited, request)
  {
    command := new Command(fold, request.program);
    command.SetArgs(request.args);
    for i := 0 to |request.unset|
      invariant command.program == request.program && command.args == request.args && command.fold == fold
      invariant Reflects(command.changes, Names(fold, request.unset[..i]), map[])
    {
      command.EnvRemove(request.unset[i]);
      OneMoreName(fold, request.unset[..i], request.unset[i]);
      assert request.unset[..i + 1] == request.unset[..i] + [request.unset[i]];
    }
    assert request.unset[..|request.unset|] == request.unset;
    for i := 0 to |request.assignments|
      invariant command.program == request.program && command.args == request.args && command.fold == fold
      invariant Reflects(command.changes, Names(fold, request.unset), Assigned(fold, request.assignments[..i]))
    {
      var a := request.assignments[i];
      OneMoreAssigned(fold, request.assignments[..i], a);
      assert request.assignments[..i + 1] == request.assignments[..i] + [a];
      command.Env(Utf8(a.name), Utf8(a.value));
    }
    assert request.assignments[..|request.assignments|] == request.assignments;
    forall inherited: Environment
      ensures Apply(inherited, command.changes) == ChildEnvironment(fold, inherited, request)
    {
      ReflectedApplies(fold, inherited, command.changes, request);
    }
  }
}

/** Building the command line that removes variables from a launch (`launch_config.rs`). */
module LaunchConfig {
  import opened Text
  import opened EnvStrip

  /** A JSON launch; its environment in the order it is applied. */
  datatype Config = Config(command: string, arguments: seq<string>, environment: seq<Assignment>)

  /** The host a launch is built on, and how it compares the names of variables. */
  datatype Host = Host(windows: bool, ownExe: Option<string>, fold: Fold)

  const ENV_BIN := "/usr/bin/env"
  const DARUDA_ENV_SUBCOMMAND := "--env"

  function EnvLauncherFor(host: Host): (string, seq<string>) {
    if host.windows then
      (match host.ownExe { case Some(exe) => exe case None => "daruda" }, [DARUDA_ENV_SUBCOMMAND])
    else (ENV_BIN, [])
  }

  function EnvUnsetArgs(strip: seq<string>): seq<string> {
    if strip == [] then [] else ["-u", strip[0]] + EnvUnsetArgs(strip[1..])
  }

  function WithEnvUnsetsArgv(
        host: Host, launcher: string, args: seq<string>, strip: seq<string>): (string, seq<string>) {
    if strip == [] then (launcher, args)
    else
      var (program, leading) := EnvLauncherFor(host);
      (program, leading + EnvUnsetArgs(strip) + [launcher] + args)
  }

  function FinalizeConfig(host: Host, config: Config, strip: seq<string>): Config {
    var (command, arguments) := WithEnvUnsetsArgv(host, config.command, config.arguments, strip);
    Config(command, arguments, config.environment)
  }

  /** The words of the shell line `prefixed` builds; `command` is the words of the line it is given. */
  function PrefixWithEnvUnsets(host: Host, command: seq<string>, strip: seq<string>): seq<string> {
    if strip == [] then command
    else
      var (program, leading) := EnvLauncherFor(host);
      [program] + leading + EnvUnsetArgs(strip) + command
  }

  function OsStrings(words: seq<string>): seq<OsString> {
    seq(|words|, i requires 0 <= i < |words| => Utf8(words[i]))
  }

  /** What the launched wrapper is asked for: its argv past the tokens that select it. */
  function WrapperRequest(host: Host, argv: seq<string>): Option<Request> {
    var n := |EnvLauncherFor(host).1|;
    if n <= |argv| then ParseArgs(OsStrings(argv[n..])) else None
  }

  lemma {:induction false} UnsetArgsAreFlags(strip: seq<string>)
    ensures OsStrings(EnvUnsetArgs(strip)) == FlattenUnset(OsStrings(strip))
  {
    if strip != [] {
      UnsetArgsAreFlags(strip[1..]);
      assert OsStrings(strip)[1..] == OsStrings(strip[1..]);
      assert OsStrings(EnvUnsetArgs(strip)) == [UNSET_FLAG, Utf8(strip[0])] + OsStrings(EnvUnsetArgs(strip[1..]));
    }
  }

  /** A program that can be taken neither for an option nor for an assignment. */
  predicate PlainCommand(command: string) { command != "-u" && SplitAssignment(Utf8(command)) == None }

  /**
   * JSON launch: with anything to strip, the wrapper reads back exactly the stripped names, no
   * assignment, and the configured program and arguments, if and only if the program cannot be
   * taken for an option or an assignment.
   */
  lemma JsonLaunchRequest(host: Host, config: Config, strip: seq<string>)
    requires strip != []
    ensures FinalizeConfig(host, config, strip).command == EnvLauncherFor(host).0
    ensures WrapperRequest(host, FinalizeConfig(host, config, strip).arguments)
              == Some(Request(OsStrings(strip), [], Utf8(config.command), OsStrings(config.arguments)))
            <==> PlainCommand(config.command)
  {
    var q := Request(OsStrings(strip), [], Utf8(config.command), OsStrings(config.arguments));
    var leading := EnvLauncherFor(host).1;
    var tail := [config.command] + config.arguments;
    LeadingDropped(leading, EnvUnsetArgs(strip), [config.command], config.arguments);
    UnsetArgsAreFlags(strip);
    OsStringsConcat([config.command], config.arguments);
    OsStringsConcat(EnvUnsetArgs(strip), tail);
    FlattenIs(q, OsStrings(tail));
    ParsesIffFlattens(Flatten(q), q);
  }

  lemma LeadingDropped(leading: seq<string>, flags: seq<string>, a: seq<string>, b: seq<string>)
    ensures (leading + flags + a + b)[|leading|..] == flags + (a + b)
    ensures (leading + flags + a)[|leading|..] == flags + a
  {
  }

  lemma OsStringsConcat(a: seq<string>, b: seq<string>)
    ensures OsStrings(a + b) == OsStrings(a) + OsStrings(b)
  {
  }

  /** `Flatten`, grouped as the launch builders produce it. */
  lemma FlattenIs(q: Request, tail: seq<OsString>)
    requires tail == FlattenAssignments(q.assignments) + [q.program] + q.args
    ensures Flatten(q) == FlattenUnset(q.unset) + tail
  {
  }

  /** Shell launch: the words of a command line are its own leading assignments, a program and arguments. */
  function ShellWords(assignments: seq<Assignment>, program: string, args: seq<string>): seq<string> {
    if assignments == [] then [program] + args
    else [assignments[0].name + "=" + assignments[0].value] + ShellWords(assignments[1..], program, args)
  }

  lemma {:induction false} ShellWordsFlatten(assignments: seq<Assignment>, program: string, args: seq<string>)
    ensures OsStrings(ShellWords(assignments, program, args))
              == FlattenAssignments(assignments) + [Utf8(program)] + OsStrings(args)
  {
    if assignments == [] {
      OsStringsConcat([program], args);
      assert OsStrings([program]) == [Utf8(program)];
    } else {
      var word, rest := assignments[0].name + "=" + assignments[0].value, ShellWords(assignments[1..], program, args);
      ShellWordsFlatten(assignments[1..], program, args);
      OsStringsConcat([word], rest);
      assert OsStrings([word]) == [Utf8(word)];
      AppendAssoc([Utf8(word)], FlattenAssignments(assignments[1..]), [Utf8(program)]);
      AppendAssoc([Utf8(word)], FlattenAssignments(assignments[1..]) + [Utf8(program)], OsStrings(args));
    }
  }

  lemma ShellLaunchRequest(
        host: Host, assignments: seq<Assignment>, program: string, args: seq<string>, strip: seq<string>)
    requires strip != []
    ensures var line := PrefixWithEnvUnsets(host, ShellWords(assignments, program, args), strip);
            && |line| > |EnvLauncherFor(host).1| && line[0] == EnvLauncherFor(host).0
            && (var q := Request(OsStrings(strip), assignments, Utf8(program), OsStrings(args));
                WrapperRequest(host, line[1..]) == Some(q) <==> WellFormed(q))
  {
    var q := Request(OsStrings(strip), assignments, Utf8(program), OsStrings(args));
    var (wrapper, leading) := EnvLauncherFor(host);
    var words := ShellWords(assignments, program, args);
    var flags := EnvUnsetArgs(strip);
    assert ([wrapper] + leading + flags + words)[1..] == leading + flags + words;
    LeadingDropped(leading, flags, words, []);
    UnsetArgsAreFlags(strip);
    ShellWordsFlatten(assignments, program, args);
    OsStringsConcat(flags, words);
    FlattenIs(q, OsStrings(words));
    ParsesIffFlattens(Flatten(q), q);
  }

  lemma {:induction false} UnsetArgsAt(strip: seq<string>, i: nat)
    requires i < |strip|
    ensures |EnvUnsetArgs(strip)| == 2 * |strip|
    ensures EnvUnsetArgs(strip)[2 * i] == "-u" && EnvUnsetArgs(strip)[2 * i + 1] == strip[i]
  {
    if |strip| > 1 {
      UnsetArgsAt(strip[1..], if i == 0 then 0 else i - 1);
    } else {
      assert EnvUnsetArgs(strip[1..]) == [];
    }
  }

  /** `words`, from `at` on, unsets the names of `strip` in order and nothing else before `next`. */
  predicate UnsetsBefore(words: seq<string>, at: nat, strip: seq<string>, next: seq<string>) {
    && |words| == at + 2 * |strip| + |next|
    && (forall i :: 0 <= i < |strip| ==> words[at + 2 * i] == "-u" && words[at + 2 * i + 1] == strip[i])
    && words[at + 2 * |strip|..] == next
  }

  lemma FlagsUnset(before: seq<string>, strip: seq<string>, next: seq<string>)
    requires strip != []
    ensures UnsetsBefore(before + EnvUnsetArgs(strip) + next, |before|, strip, next)
  {
    UnsetArgsAt(strip, 0);
    var words := before + EnvUnsetArgs(strip) + next;
    forall i | 0 <= i < |strip| ensures words[|before| + 2 * i] == "-u" && words[|before| + 2 * i + 1] == strip[i] {
      UnsetArgsAt(strip, i);
    }
  }

  /**
   * What a host launches for a JSON config with names to strip, word for word: on Windows its own
   * executable, or `daruda` if that is not known, told to be `env`; elsewhere the system's `env`.
   * Then the flags, the configured command and its arguments; the config's environment stays.
   */
  lemma JsonLaunchIs(host: Host, config: Config, strip: seq<string>)
    requires strip != []
    ensures var built, own := FinalizeConfig(host, config, strip), [config.command] + config.arguments;
            && built.environment == config.environment
            && (host.windows ==>
                  && built.command == (if host.ownExe.Some? then host.ownExe.value else "daruda")
                  && |built.arguments| > 0 && built.arguments[0] == "--env"
                  && UnsetsBefore(built.arguments, 1, strip, own))
            && (!host.windows ==> built.command == "/usr/bin/env" && UnsetsBefore(built.arguments, 0, strip, own))
  {
    var leading := EnvLauncherFor(host).1;
    FlagsUnset(leading, strip, [config.command] + config.arguments);
    AppendAssoc(leading + EnvUnsetArgs(strip), [config.command], config.arguments);
  }

  /** The same of a shell line, whose own words follow the flags as they are. */
  lemma ShellLaunchIs(host: Host, command: seq<string>, strip: seq<string>)
    requires strip != []
    ensures var line := PrefixWithEnvUnsets(host, command, strip);
            && (host.windows ==>
                  && |line| > 1 && line[0] == (if host.ownExe.Some? then host.ownExe.value else "daruda")
                  && line[1] == "--env" && UnsetsBefore(line, 2, strip, command))
            && (!host.windows ==> |line| > 0 && line[0] == "/usr/bin/env" && UnsetsBefore(line, 1, strip, command))
  {
    var (program, leading) := EnvLauncherFor(host);
    FlagsUnset([program] + leading, strip, command);
  }

  /** With nothing to strip neither shape is touched. */
  lemma NothingStrippedNothingWrapped(host: Host, config: Config, command: seq<string>)
    ensures FinalizeConfig(host, config, []) == config && PrefixWithEnvUnsets(host, command, []) == command
  {
  }
}
