/** What the child of a built launch sees: the launches of `launch_config.rs` through the parser of `env_strip.rs`. */
module WrappedLaunch {
  import opened EnvStrip
  import opened LaunchConfig
  import opened Text

  /** What the wrapper makes of a launch's own words, without anything in front of them. */
  function OwnReading(words: seq<string>): Option<Request> { ParseArgs(OsStrings(words)) }

  function ChildOf(fold: Fold, inherited: Environment, request: Option<Request>): Option<Environment> {
    match request
    case None => None
    case Some(q) => Some(ChildEnvironment(fold, inherited, q))
  }

  /**
   * The environment of the program that a built JSON launch runs, or `None` when the wrapper
   * refuses its argv. The SDK applies the config's own `env` when it spawns the wrapper, so the
   * wrapper inherits that.
   */
  function JsonChildEnvironment(host: Host, inherited: Environment, config: Config, strip: seq<string>)
    : Option<Environment>
    requires strip != []
  {
    ChildOf(host.fold, inherited + Assigned(host.fold, config.environment),
            WrapperRequest(host, FinalizeConfig(host, config, strip).arguments))
  }

  /** The same for a built shell line, of which `words` are the words that were given. */
  function ShellChildEnvironment(host: Host, inherited: Environment, words: seq<string>, strip: seq<string>)
    : Option<Environment>
    requires strip != []
  {
    ChildOf(host.fold, inherited, WrapperRequest(host, PrefixWithEnvUnsets(host, words, strip)[1..]))
  }

  lemma UnsetBefore(name: OsString, unset: seq<OsString>, rest: Option<Request>)
    ensures WithUnset(name, Resumed(unset, [], rest)) == Resumed([name] + unset, [], rest)
  {
    if rest.Some? {
      AppendAssoc([name], unset, rest.value.unset);
    }
  }

  lemma AssignmentBefore(a: Assignment, assignments: seq<Assignment>, rest: Option<Request>)
    ensures WithAssignment(a, Resumed([], assignments, rest)) == Resumed([], [a] + assignments, rest)
  {
    if rest.Some? {
      AppendAssoc([a], assignments, rest.value.assignments);
    }
  }

  lemma ReadUnset(name: OsString, rest: seq<OsString>)
    ensures ParseArgs([Utf8("-u"), name] + rest) == WithUnset(name, ParseArgs(rest))
  {
    var args := [UNSET_FLAG, name] + rest;
    assert args[0] == UNSET_FLAG && args[1] == name && args[2..] == rest;
  }

  lemma ReadAssignment(a: Assignment, rest: seq<OsString>)
    requires IsName(a.name)
    ensures ParseOperands([Utf8(a.name + "=" + a.value)] + rest) == WithAssignment(a, ParseOperands(rest))
  {
    var args := [Utf8(a.name + "=" + a.value)] + rest;
    SplitsAtFirstEquals(a);
    assert args[1..] == rest;
  }

  lemma {:induction false} UnsetsThenRest(unset: seq<OsString>, rest: seq<OsString>)
    ensures ParseArgs(FlattenUnset(unset) + rest) == Resumed(unset, [], ParseArgs(rest))
  {
    if unset == [] {
      ResumedNothing(ParseArgs(rest));
      assert FlattenUnset(unset) + rest == rest;
    } else {
      UnsetsThenRest(unset[1..], rest);
      AppendAssoc([UNSET_FLAG, unset[0]], FlattenUnset(unset[1..]), rest);
      ReadUnset(unset[0], FlattenUnset(unset[1..]) + rest);
      UnsetBefore(unset[0], unset[1..], ParseArgs(rest));
      assert [unset[0]] + unset[1..] == unset;
    }
  }

  lemma {:induction false} OperandsThenRest(assignments: seq<Assignment>, rest: seq<OsString>)
    requires forall a :: a in assignments ==> IsName(a.name)
    ensures ParseOperands(FlattenAssignments(assignments) + rest) == Resumed([], assignments, ParseOperands(rest))
  {
    if assignments == [] {
      ResumedNothing(ParseOperands(rest));
      assert FlattenAssignments(assignments) + rest == rest;
    } else {
      var a, more := assignments[0], FlattenAssignments(assignments[1..]);
      OperandsThenRest(assignments[1..], rest);
      AppendAssoc([Utf8(a.name + "=" + a.value)], more, rest);
      ReadAssignment(a, more + rest);
      AssignmentBefore(a, assignments[1..], ParseOperands(rest));
      assert [a] + assignments[1..] == assignments;
    }
  }

  /** Whatever the configured command is, the wrapper reads the stripped names and then the command's own words. */
  lemma JsonReading(host: Host, config: Config, strip: seq<string>)
    requires strip != []
    ensures WrapperRequest(host, FinalizeConfig(host, config, strip).arguments)
         == Resumed(OsStrings(strip), [], OwnReading([config.command] + config.arguments))
  {
    var leading, flags := EnvLauncherFor(host).1, EnvUnsetArgs(strip);
    var words := [config.command] + config.arguments;
    LeadingDropped(leading, flags, [config.command], config.arguments);
    UnsetArgsAreFlags(strip);
    OsStringsConcat(flags, words);
    UnsetsThenRest(OsStrings(strip), OsStrings(words));
  }

  lemma ShellReading(host: Host, words: seq<string>, strip: seq<string>)
    requires strip != []
    ensures WrapperRequest(host, PrefixWithEnvUnsets(host, words, strip)[1..])
         == Resumed(OsStrings(strip), [], OwnReading(words))
  {
    var (wrapper, leading) := EnvLauncherFor(host);
    var flags := EnvUnsetArgs(strip);
    assert ([wrapper] + leading + flags + words)[1..] == leading + flags + words;
    LeadingDropped(leading, flags, words, []);
    UnsetArgsAreFlags(strip);
    OsStringsConcat(flags, words);
    UnsetsThenRest(OsStrings(strip), OsStrings(words));
  }

  lemma PlainReading(command: string, args: seq<string>)
    requires PlainCommand(command)
    ensures OwnReading([command] + args) == Some(Request([], [], Utf8(command), OsStrings(args)))
  {
    OsStringsConcat([command], args);
    assert OsStrings([command]) == [Utf8(command)];
  }

  lemma StripHolds(fold: Fold, strip: seq<string>, name: string)
    requires name in strip
    ensures fold(Utf8(name)) in Names(fold, OsStrings(strip))
  {
    var i :| 0 <= i < |strip| && strip[i] == name;
    assert OsStrings(strip)[i] == Utf8(name);
  }

  /** All a child sees of a stripped name is what the words of its own launch assign it. */
  ghost predicate SeesOnlyAssigned(fold: Fold, env: Environment, name: string, assignments: seq<Assignment>) {
    var n, given := fold(Utf8(name)), Assigned(fold, assignments);
    (n in env <==> n in given) && (n in given ==> env[n] == given[n])
  }

  ghost predicate Sees(fold: Fold, env: Option<Environment>, name: string, own: Option<Request>) {
    && (env.Some? <==> own.Some?)
    && (env.Some? ==> SeesOnlyAssigned(fold, env.value, name, own.value.assignments))
  }

  lemma StrippedThenAssigned(
        fold: Fold, inherited: Environment, own: Option<Request>, strip: seq<string>, name: string)
    requires name in strip
    ensures Sees(fold, ChildOf(fold, inherited, Resumed(OsStrings(strip), [], own)), name, own)
  {
    StripHolds(fold, strip, name);
    if own.Some? {
      assert [] + own.value.assignments == own.value.assignments;
    }
  }

  /**
   * What becomes of a stripped name in a JSON launch as built: neither the environment nor the
   * config's own `env` brings it back, only an assignment among the command's own words; and a
   * plain command has none.
   */
  lemma JsonStripPrecedence(host: Host, inherited: Environment, config: Config, strip: seq<string>, name: string)
    requires name in strip
    ensures Sees(host.fold, JsonChildEnvironment(host, inherited, config, strip), name,
                 OwnReading([config.command] + config.arguments))
    ensures PlainCommand(config.command)
            ==> (var env := JsonChildEnvironment(host, inherited, config, strip);
                 env.Some? && host.fold(Utf8(name)) !in env.value)
  {
    var own := OwnReading([config.command] + config.arguments);
    JsonReading(host, config, strip);
    StrippedThenAssigned(host.fold, inherited + Assigned(host.fold, config.environment), own, strip, name);
    if PlainCommand(config.command) {
      PlainReading(config.command, config.arguments);
      NothingAssigned(host.fold, name);
    }
  }

  lemma NothingAssigned(fold: Fold, name: string)
    ensures fold(Utf8(name)) !in Assigned(fold, [])
  {
  }

  /** In a shell line as built, a stripped name survives exactly as the line's own assignments set it. */
  lemma ShellStripPrecedence(host: Host, inherited: Environment, words: seq<string>, strip: seq<string>, name: string)
    requires name in strip
    ensures Sees(host.fold, ShellChildEnvironment(host, inherited, words, strip), name, OwnReading(words))
  {
    ShellReading(host, words, strip);
    StrippedThenAssigned(host.fold, inherited, OwnReading(words), strip, name);
  }

  /** A stripped name reaches the child of a JSON launch. */
  ghost predicate Escapes(host: Host, inherited: Environment, config: Config, strip: seq<string>, name: string) {
    name in strip
    && var env := JsonChildEnvironment(host, inherited, config, strip);
       env.Some? && host.fold(Utf8(name)) in env.value
  }

  /** A command that spells an assignment brings its stripped name back, whatever it is. */
  lemma AssignmentCommandEscapes(host: Host, inherited: Environment, config: Config, a: Assignment, program: string)
    requires IsName(a.name) && config.command == a.name + "=" + a.value
    requires PlainCommand(program) && config.arguments == [program]
    ensures Escapes(host, inherited, config, [a.name], a.name)
  {
    var words := [config.command] + config.arguments;
    assert OsStrings(words) == [Utf8(config.command), Utf8(program)];
    OneAssignmentReads([], a, program);
    assert FlattenUnset([]) + [Utf8(config.command), Utf8(program)] == OsStrings(words);
    JsonStripPrecedence(host, inherited, config, [a.name], a.name);
    AssignsOnly(host.fold, a);
  }

  lemma OneAssignmentReads(unset: seq<OsString>, a: Assignment, program: string)
    requires IsName(a.name) && PlainCommand(program)
    ensures ParseArgs(FlattenUnset(unset) + [Utf8(a.name + "=" + a.value), Utf8(program)])
         == Some(Request(unset, [a], Utf8(program), []))
  {
    var q := Request(unset, [a], Utf8(program), []);
    assert [a][1..] == [];
    assert FlattenAssignments([a]) == [Utf8(a.name + "=" + a.value)];
    assert Flatten(q) == FlattenUnset(unset) + [Utf8(a.name + "=" + a.value), Utf8(program)];
    ParsesIffFlattens(Flatten(q), q);
  }

  lemma AssignsOnly(fold: Fold, a: Assignment)
    ensures fold(Utf8(a.name)) in Assigned(fold, [a])
  {
    assert [a][..0] == [];
  }

  lemma NoEqualsIsPlain(program: string)
    requires '=' !in program && program != "-u"
    ensures PlainCommand(program)
  {
    assert forall k :: 0 <= k < |program| ==> program[k] in program;
  }

  /** The input on which stripping fails: the command `K=v` with `K` to strip. */
  lemma StrippedNameComesBack(host: Host, inherited: Environment) returns (config: Config, name: string)
    ensures config.command == "K=v" && name == "K"
    ensures Escapes(host, inherited, config, [name], name)
  {
    var a := Assignment("K", "v");
    NoEqualsIsPlain("agent");
    config, name := Config(a.name + "=" + a.value, ["agent"], []), a.name;
    AssignmentCommandEscapes(host, inherited, config, a, "agent");
  }

  /** A command read as an option lets its arguments be read as assignments. */
  lemma OptionCommandEscapes(host: Host, inherited: Environment, config: Config, a: Assignment, program: string)
    requires IsName(a.name) && PlainCommand(program)
    requires config.command == "-u" && config.arguments == [a.name, a.name + "=" + a.value, program]
    ensures Escapes(host, inherited, config, [a.name], a.name)
  {
    var words := [config.command] + config.arguments;
    var assignment := Utf8(a.name + "=" + a.value);
    assert OsStrings(words) == [UNSET_FLAG, Utf8(a.name), assignment, Utf8(program)];
    assert [Utf8(a.name)][1..] == [];
    assert FlattenUnset([Utf8(a.name)]) == [UNSET_FLAG, Utf8(a.name)];
    OneAssignmentReads([Utf8(a.name)], a, program);
    JsonStripPrecedence(host, inherited, config, [a.name], a.name);
    AssignsOnly(host.fold, a);
  }

  /** A command keeps every stripped name from its child, whatever its arguments, exactly when it is plain. */
  lemma StripHoldsIffPlainCommand(
        host: Host, inherited: Environment, command: string, environment: seq<Assignment>)
    ensures (forall arguments, strip, name ::
               !Escapes(host, inherited, Config(command, arguments, environment), strip, name))
            <==> PlainCommand(command)
  {
    if PlainCommand(command) {
      forall arguments, strip, name
        ensures !Escapes(host, inherited, Config(command, arguments, environment), strip, name) {
        if name in strip {
          JsonStripPrecedence(host, inherited, Config(command, arguments, environment), strip, name);
        }
      }
    } else {
      var arguments, name := SomeNameEscapes(host, inherited, command, environment);
      assert Escapes(host, inherited, Config(command, arguments, environment), [name], name);
    }
  }

  lemma SomeNameEscapes(host: Host, inherited: Environment, command: string, environment: seq<Assignment>)
    returns (arguments: seq<string>, name: string)
    requires !PlainCommand(command)
    ensures Escapes(host, inherited, Config(command, arguments, environment), [name], name)
  {
    var program := "agent";
    NoEqualsIsPlain(program);
    if command == "-u" {
      var a := Assignment("K", "v");
      arguments, name := [a.name, a.name + "=" + a.value, program], a.name;
      OptionCommandEscapes(host, inherited, Config(command, arguments, environment), a, program);
    } else {
      var a := SplitAssignment(Utf8(command)).value;
      arguments, name := [program], a.name;
      SplitJoinsBack(Utf8(command));
      AssignmentCommandEscapes(host, inherited, Config(command, arguments, environment), a, program);
    }
  }

  // The two shapes of one launch.

  lemma {:induction false} AssignedConcat(fold: Fold, a: seq<Assignment>, b: seq<Assignment>)
    ensures Assigned(fold, a + b) == Assigned(fold, a) + Assigned(fold, b)
  {
    if b == [] {
      assert a + b == a;
    } else {
      var n := |b| - 1;
      assert (a + b)[..|a| + n] == a + b[..n] && (a + b)[|a| + n] == b[n];
      AssignedConcat(fold, a, b[..n]);
    }
  }

  /** The words of the two shapes are read as one command behind the assignments of the shell line. */
  predicate ReadAlike(program: string, assignments: seq<Assignment>) { program != "-u" || assignments == [] }

  lemma ShellWordsReading(assignments: seq<Assignment>, program: string, args: seq<string>)
    requires ReadAlike(program, assignments) && forall a :: a in assignments ==> IsName(a.name)
    ensures OwnReading(ShellWords(assignments, program, args)) == Resumed([], assignments, OwnReading([program] + args))
  {
    if assignments == [] {
      ResumedNothing(OwnReading([program] + args));
    } else {
      ShellWordsFlatten(assignments, program, args);
      OsStringsConcat([program], args);
      var rest := OsStrings([program] + args);
      AppendAssoc(FlattenAssignments(assignments), [Utf8(program)], OsStrings(args));
      assert rest == [Utf8(program)] + OsStrings(args);
      OperandsThenRest(assignments, rest);
      SplitsAtFirstEquals(assignments[0]);
      SplitJoinsBack(Utf8(assignments[0].name + "=" + assignments[0].value));
    }
  }

  /** Stripping before and stripping after `given` differ exactly in stripped names given and not assigned later. */
  lemma StripOrder(inherited: Environment, given: Environment, later: Environment, stripped: set<OsString>)
    ensures (inherited + given) - stripped + later == (inherited - stripped) + (given + later)
            <==> forall n :: n in stripped && n in given ==> n in later
  {
    var json, shell := (inherited + given) - stripped + later, (inherited - stripped) + (given + later);
    if n :| n in stripped && n in given && n !in later {
      assert n in shell && n !in json;
    }
  }

  /** Some assignment is to `name`, as the host compares names. */
  ghost predicate Gives(fold: Fold, assignments: seq<Assignment>, name: string) {
    exists a :: a in assignments && fold(Utf8(a.name)) == fold(Utf8(name))
  }

  lemma {:induction false} GivesIffAssigned(fold: Fold, assignments: seq<Assignment>, name: string)
    ensures Gives(fold, assignments, name) <==> fold(Utf8(name)) in Assigned(fold, assignments)
  {
    if assignments != [] {
      var n := |assignments| - 1;
      GivesIffAssigned(fold, assignments[..n], name);
      assert assignments == assignments[..n] + [assignments[n]];
    }
  }

  /** Every stripped name the launch's own environment sets is assigned again by its command's words. */
  ghost predicate Reassigns(fold: Fold, own: Request, environment: seq<Assignment>, strip: seq<string>) {
    forall name :: name in strip && Gives(fold, environment, name) ==> Gives(fold, own.assignments, name)
  }

  ghost predicate Disjoint(fold: Fold, environment: seq<Assignment>, strip: seq<string>) {
    forall name :: name in strip ==> !Gives(fold, environment, name)
  }

  /**
   * The two shapes of one launch, as built, give its child the same environment exactly when no
   * stripped name is assigned. This is for plain commands; a command that spells assignments
   * itself may reassign the name in both shapes.
   */
  lemma ShapesAgreeIffDisjoint(
      host: Host, inherited: Environment, program: string, args: seq<string>,
      environment: seq<Assignment>, assignments: seq<Assignment>, strip: seq<string>)
    requires strip != [] && forall a :: a in assignments ==> IsName(a.name)
    ensures var json := JsonChildEnvironment(host, inherited, Config(program, args, environment), strip);
            var shell := ShellChildEnvironment(host, inherited, ShellWords(assignments, program, args), strip);
            var own := OwnReading([program] + args);
            ReadAlike(program, assignments) && Assigned(host.fold, environment) == Assigned(host.fold, assignments) ==>
              && (json == shell <==> own.None? || Reassigns(host.fold, own.value, environment, strip))
              && (PlainCommand(program) ==> (json == shell <==> Disjoint(host.fold, environment, strip)))
  {
    JsonReading(host, Config(program, args, environment), strip);
    ShellReading(host, ShellWords(assignments, program, args), strip);
    var own := OwnReading([program] + args);
    if ReadAlike(program, assignments) {
      ShellWordsReading(assignments, program, args);
      if own.Some? && assignments != [] { OwnUnsetNothing(program, args); }
      ReadingsAgree(host.fold, inherited, own, environment, assignments, strip);
      if PlainCommand(program) { PlainReading(program, args); }
    }
  }

  lemma ReadingsAgree(
      fold: Fold, inherited: Environment, own: Option<Request>, environment: seq<Assignment>,
      assignments: seq<Assignment>, strip: seq<string>)
    requires own.Some? && assignments != [] ==> own.value.unset == []
    ensures var names, given := OsStrings(strip), Assigned(fold, environment);
            given == Assigned(fold, assignments) ==>
              (ChildOf(fold, inherited + given, Resumed(names, [], own))
                 == ChildOf(fold, inherited, Resumed(names, [], Resumed([], assignments, own)))
               <==> own.None? || Reassigns(fold, own.value, environment, strip))
  {
    var given := Assigned(fold, environment);
    if own.Some? && given == Assigned(fold, assignments) {
      var names, q := OsStrings(strip), own.value;
      if assignments == [] {
        ResumedNothing(own);
        assert inherited + given == inherited;
      } else {
        JsonSide(fold, inherited + given, q, names);
        ShellSide(fold, inherited, q, assignments, names);
        StripOrder(inherited, given, Assigned(fold, q.assignments), Names(fold, names));
      }
      StrippedNames(fold, q, environment, strip);
    }
  }

  lemma JsonSide(fold: Fold, inherited: Environment, q: Request, names: seq<OsString>)
    requires q.unset == []
    ensures ChildOf(fold, inherited, Resumed(names, [], Some(q)))
         == Some((inherited - Names(fold, names)) + Assigned(fold, q.assignments))
  {
    assert names + [] == names && [] + q.assignments == q.assignments;
  }

  lemma ShellSide(
      fold: Fold, inherited: Environment, q: Request, assignments: seq<Assignment>, names: seq<OsString>)
    requires q.unset == []
    ensures ChildOf(fold, inherited, Resumed(names, [], Resumed([], assignments, Some(q))))
         == Some((inherited - Names(fold, names)) + (Assigned(fold, assignments) + Assigned(fold, q.assignments)))
  {
    AssignedConcat(fold, assignments, q.assignments);
    assert [] + q.unset == q.unset;
    JsonSide(fold, inherited, q.(assignments := assignments + q.assignments), names);
  }

  lemma OwnUnsetNothing(program: string, args: seq<string>)
    requires program != "-u" && OwnReading([program] + args).Some?
    ensures OwnReading([program] + args).value.unset == []
  {
    OsStringsConcat([program], args);
    assert OsStrings([program] + args)[0] == Utf8(program);
    ParsedOperandsFlatten(OsStrings([program] + args));
  }

  lemma StrippedNames(fold: Fold, own: Request, environment: seq<Assignment>, strip: seq<string>)
    ensures (forall n :: n in Names(fold, OsStrings(strip)) && n in Assigned(fold, environment)
                         ==> n in Assigned(fold, own.assignments))
            <==> Reassigns(fold, own, environment, strip)
  {
    forall name
      ensures Gives(fold, environment, name) <==> fold(Utf8(name)) in Assigned(fold, environment)
      ensures Gives(fold, own.assignments, name) <==> fold(Utf8(name)) in Assigned(fold, own.assignments)
    {
      GivesIffAssigned(fold, environment, name);
      GivesIffAssigned(fold, own.assignments, name);
    }
    forall name | name in strip ensures fold(Utf8(name)) in Names(fold, OsStrings(strip)) {
      StripHolds(fold, strip, name);
    }
    forall n | n in Names(fold, OsStrings(strip)) ensures exists name :: name in strip && n == fold(Utf8(name)) {
      var i :| 0 <= i < |strip| && fold(OsStrings(strip)[i]) == n;
    }
  }

  /**
   * The command left over: `-u` behind an assignment is the program of the shell line, while the
   * JSON launch reads it as an option. What the two launch is never the same.
   */
  lemma OptionCommandShapesDiffer(
      host: Host, args: seq<string>, environment: seq<Assignment>, assignments: seq<Assignment>, strip: seq<string>)
    requires strip != [] && assignments != [] && forall a :: a in assignments ==> IsName(a.name)
    ensures var json := WrapperRequest(host, FinalizeConfig(host, Config("-u", args, environment), strip).arguments);
            var line := PrefixWithEnvUnsets(host, ShellWords(assignments, "-u", args), strip);
            && json == Resumed(OsStrings(strip), [], OwnReading(["-u"] + args))
            && WrapperRequest(host, line[1..])
                 == Some(Request(OsStrings(strip), assignments, UNSET_FLAG, OsStrings(args)))
            && (json.Some? ==> |json.value.args| < |args|)
  {
    JsonReading(host, Config("-u", args, environment), strip);
    assert SplitAssignment(Utf8("-u")) == None;
    ShellLaunchRequest(host, assignments, "-u", args, strip);
    if OwnReading(["-u"] + args).Some? { OptionTakesArguments(args); }
  }

  lemma OptionTakesArguments(args: seq<string>)
    requires OwnReading(["-u"] + args).Some?
    ensures |OwnReading(["-u"] + args).value.args| < |args|
  {
    var words := OsStrings(["-u"] + args);
    assert words[0] == UNSET_FLAG && |words| == |args| + 1;
    ParsedFlattens(words[2..]);
  }
}
