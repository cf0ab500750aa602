/** Command-line arguments: the registry's parser and the second scan of the shell over
    the tokens it returns. */
module Arguments {
  import opened Options

  datatype ArgumentMetadata = ArgumentMetadata(name: string, takesArg: bool)

  datatype ParseResult = ParseResult(success: bool, parsedArgs: seq<string>, unregistered: seq<string>,
                                     warnings: seq<string>, error: string)

  type Registry = seq<ArgumentMetadata>

  function Lookup(reg: Registry, name: string): (m: Option<ArgumentMetadata>)
    ensures m.Some? ==> m.value in reg && m.value.name == name
    ensures m.None? ==> forall k :: 0 <= k < |reg| ==> reg[k].name != name
  {
    if reg == [] then None else if reg[0].name == name then Some(reg[0]) else Lookup(reg[1..], name)
  }

  ghost predicate UniqueNames(reg: Registry) {
    forall i, j :: 0 <= i < j < |reg| ==> reg[i].name != reg[j].name
  }

  // ---- Parsing ----

  const NOTHING := ParseResult(true, [], [], [], "")

  function Join(a: ParseResult, b: ParseResult): ParseResult {
    ParseResult(b.success, a.parsedArgs + b.parsedArgs, a.unregistered + b.unregistered,
                a.warnings + b.warnings, b.error)
  }

  function UnregisteredWarning(arg: string): string { "Unregistered argument: " + arg }

  function UnknownError(arg: string): string { "Unknown argument: " + arg }

  function MissingError(arg: string): string { "Argument " + arg + " requires a value" }

  /** What the argument at the front contributes, and how many tokens it takes. */
  function Head(reg: Registry, args: seq<string>, debug: bool): (h: (ParseResult, nat))
    requires args != []
    ensures 1 <= h.1 && (h.0.success ==> h.1 <= |args| && h.0.error == "")
  {
    var m := Lookup(reg, args[0]);
    if m.None? then
      if debug then (ParseResult(true, [], [args[0]], [UnregisteredWarning(args[0])], ""), 1)
      else (ParseResult(false, [], [], [], UnknownError(args[0])), 1)
    else if m.value.takesArg then
      if |args| == 1 then (ParseResult(false, [], [], [], MissingError(args[0])), 2)
      else (ParseResult(true, [args[0], args[1]], [], [], ""), 2)
    else (ParseResult(true, [args[0]], [], [], ""), 1)
  }

  function ParseTokens(reg: Registry, args: seq<string>, debug: bool): ParseResult
    decreases |args|
  {
    if args == [] then NOTHING
    else
      var (part, width) := Head(reg, args, debug);
      if !part.success then part else Join(part, ParseTokens(reg, args[width..], debug))
  }

  /** `xs` is `a` and `b` merged, each in its own order. */
  predicate Interleaves(xs: seq<string>, a: seq<string>, b: seq<string>)
    decreases |xs|
  {
    if xs == [] then
      a == [] && b == []
    else
      || (a != [] && a[0] == xs[0] && Interleaves(xs[1..], a[1..], b))
      || (b != [] && b[0] == xs[0] && Interleaves(xs[1..], a, b[1..]))
  }

  lemma {:induction false} InterleavePrefix(p: seq<string>, xs: seq<string>, a: seq<string>, b: seq<string>)
    requires Interleaves(xs, a, b)
    ensures Interleaves(p + xs, p + a, b) && Interleaves(p + xs, a, p + b)
  {
    if p == [] {
      assert p + xs == xs && p + a == a && p + b == b;
    } else {
      InterleavePrefix(p[1..], xs, a, b);
      assert (p + xs)[1..] == p[1..] + xs && (p + a)[1..] == p[1..] + a && (p + b)[1..] == p[1..] + b;
    }
  }

  /** No token is lost, invented or reordered. */
  lemma {:induction false} TokensConserved(reg: Registry, args: seq<string>, debug: bool)
    requires ParseTokens(reg, args, debug).success
    ensures var r := ParseTokens(reg, args, debug);
            Interleaves(args, r.parsedArgs, r.unregistered) && (!debug ==> r.unregistered == [])
    decreases |args|
  {
    hide Interleaves;
    if args == [] {
      InterleaveNothing();
    } else {
      var (part, width) := Head(reg, args, debug);
      TokensConserved(reg, args[width..], debug);
      var rest := ParseTokens(reg, args[width..], debug);
      InterleavePrefix(args[..width], args[width..], rest.parsedArgs, rest.unregistered);
      assert args == args[..width] + args[width..];
      HeadTokens(reg, args, debug);
      assert [] + rest.parsedArgs == rest.parsedArgs && [] + rest.unregistered == rest.unregistered;
    }
  }

  lemma InterleaveNothing()
    ensures Interleaves([], [], [])
  {
  }

  lemma HeadTokens(reg: Registry, args: seq<string>, debug: bool)
    requires args != [] && Head(reg, args, debug).0.success
    ensures var (part, width) := Head(reg, args, debug);
            || (part.parsedArgs == args[..width] && part.unregistered == [])
            || (part.parsedArgs == [] && part.unregistered == args[..width] && debug)
  {
  }

  /** Parsing what was parsed, even strictly, returns it unchanged. */
  lemma {:induction false} ReparseStable(reg: Registry, args: seq<string>, debug: bool)
    requires ParseTokens(reg, args, debug).success
    ensures var parsed := ParseTokens(reg, args, debug).parsedArgs;
            ParseTokens(reg, parsed, false) == ParseResult(true, parsed, [], [], "")
    decreases |args|
  {
    hide Lookup;
    if args != [] {
      var m := Lookup(reg, args[0]);
      var width := if m.Some? && m.value.takesArg then 2 else 1;
      ReparseStable(reg, args[width..], debug);
      var rest := ParseTokens(reg, args[width..], debug).parsedArgs;
      var part := Head(reg, args, debug).0.parsedArgs;
      if m.Some? {
        assert (part + rest)[|part|..] == rest;
        assert Head(reg, part + rest, false) == (ParseResult(true, part, [], [], ""), |part|);
      } else {
        assert [] + rest == rest;
      }
    }
  }

  /** The strict parser fails exactly on an unknown token or a missing value where a new
      argument would start. */
  predicate StrictlyBad(reg: Registry, args: seq<string>) {
    args != [] &&
    var m := Lookup(reg, args[0]);
    || m.None?
    || (m.value.takesArg && (|args| == 1 || StrictlyBad(reg, args[2..])))
    || (!m.value.takesArg && StrictlyBad(reg, args[1..]))
  }

  lemma {:induction false} StrictFailsExactly(reg: Registry, args: seq<string>)
    ensures ParseTokens(reg, args, false).success <==> !StrictlyBad(reg, args)
    decreases |args|
  {
    if args != [] && Lookup(reg, args[0]).Some? {
      var width := if Lookup(reg, args[0]).value.takesArg then 2 else 1;
      if width <= |args| {
        StrictFailsExactly(reg, args[width..]);
      }
    }
  }

  /** A failing parse names the token it failed on: an unknown one, or the last one when
      its value is missing. */
  lemma {:induction false} ErrorNames(reg: Registry, args: seq<string>, debug: bool) returns (k: nat)
    requires !ParseTokens(reg, args, debug).success
    ensures k < |args|
    ensures var (m, error) := (Lookup(reg, args[k]), ParseTokens(reg, args, debug).error);
            || (m.None? && !debug && error == "Unknown argument: " + args[k])
            || (m.Some? && m.value.takesArg && k == |args| - 1
                && error == "Argument " + args[k] + " requires a value")
    decreases |args|
  {
    hide Lookup;
    var (part, width) := Head(reg, args, debug);
    if part.success {
      k := ErrorNames(reg, args[width..], debug);
      k := k + width;
    } else {
      k := 0;
    }
  }

  /** In debug mode each unregistered token gets its own warning, in order. */
  lemma {:induction false} WarningsName(reg: Registry, args: seq<string>, debug: bool)
    ensures var r := ParseTokens(reg, args, debug);
            && |r.warnings| == |r.unregistered|
            && forall i :: 0 <= i < |r.warnings| ==> r.warnings[i] == "Unregistered argument: " + r.unregistered[i]
    decreases |args|
  {
    hide Lookup;
    if args != [] {
      var (part, width) := Head(reg, args, debug);
      if part.success {
        WarningsName(reg, args[width..], debug);
      }
    }
  }

  // ---- The shell's registry and its scan ----

  const SHELL_REGISTRY: Registry := [
    ArgumentMetadata("--help", false),
    ArgumentMetadata("-c", true),
    ArgumentMetadata("--no-import", false),
    ArgumentMetadata("--debug", false),
    ArgumentMetadata("--port", true),
    ArgumentMetadata("-p", true)
  ]

  datatype Settings = Settings(numDatabases: int, noImport: bool, showHelp: bool, debug: bool)

  /** One argument as the parser groups it: a flag alone or with its value. */
  type Group = g: seq<string> | |g| == 1 || |g| == 2 witness [""]

  function Groups(reg: Registry, tokens: seq<string>): seq<Group>
    requires ParseTokens(reg, tokens, false).success
    decreases |tokens|
  {
    if tokens == [] then []
    else
      var width := if Lookup(reg, tokens[0]).value.takesArg then 2 else 1;
      [tokens[..width]] + Groups(reg, tokens[width..])
  }

  /** The effect of one argument; nothing when the number of databases is not numeric. */
  function Effect(s: Settings, g: Group, stoi: string -> Option<int>): Option<Settings> {
    if g[0] == "--help" then Some(s.(showHelp := true))
    else if g[0] == "-c" && |g| == 2 then
      if stoi(g[1]).None? then None else Some(s.(numDatabases := stoi(g[1]).value))
    else if g[0] == "--no-import" then Some(s.(noImport := true))
    else if g[0] == "--debug" then Some(s.(debug := true))
    else Some(s)
  }

  function Effects(s: Settings, groups: seq<Group>, stoi: string -> Option<int>): Option<Settings>
    decreases |groups|
  {
    if groups == [] then Some(s)
    else
      var t := Effect(s, groups[0], stoi);
      if t.None? then None else Effects(t.value, groups[1..], stoi)
  }

  /** Some group is for this flag. */
  ghost predicate Has(groups: seq<Group>, flag: string) {
    exists k :: 0 <= k < |groups| && groups[k][0] == flag
  }

  /** The last group for `-c`, if any, gives the number of databases. */
  ghost predicate CountFrom(groups: seq<Group>, stoi: string -> Option<int>, before: int, after: int) {
    && (!Has(groups, "-c") ==> after == before)
    && (forall k :: 0 <= k < |groups| && groups[k][0] == "-c" && !Has(groups[k + 1..], "-c")
                    ==> |groups[k]| == 2 && stoi(groups[k][1]) == Some(after))
  }

  ghost predicate CountsHaveValues(groups: seq<Group>) {
    forall k :: 0 <= k < |groups| && groups[k][0] == "-c" ==> |groups[k]| == 2
  }

  /** What the settings are in terms of the groups: each flag is set exactly when it was
      set or occurs, and the last number of databases counts. */
  lemma {:induction false} EffectsExactly(s: Settings, groups: seq<Group>, stoi: string -> Option<int>)
    requires CountsHaveValues(groups) && Effects(s, groups, stoi).Some?
    ensures var t := Effects(s, groups, stoi).value;
            && (t.showHelp <==> s.showHelp || Has(groups, "--help"))
            && (t.noImport <==> s.noImport || Has(groups, "--no-import"))
            && (t.debug <==> s.debug || Has(groups, "--debug"))
            && CountFrom(groups, stoi, s.numDatabases, t.numDatabases)
    decreases |groups|
  {
    if groups != [] {
      hide Has, CountFrom;
      var t := Effect(s, groups[0], stoi).value;
      assert CountsHaveValues(groups[1..]);
      EffectsExactly(t, groups[1..], stoi);
      HasFirst(groups, "--help");
      HasFirst(groups, "--no-import");
      HasFirst(groups, "--debug");
      CountFirst(groups, stoi, s.numDatabases, t.numDatabases, Effects(s, groups, stoi).value.numDatabases);
    } else {
      NoGroups(stoi, s.numDatabases);
    }
  }

  lemma NoGroups(stoi: string -> Option<int>, n: int)
    ensures CountFrom([], stoi, n, n) && forall flag :: !Has([], flag)
  {
  }

  lemma HasFirst(groups: seq<Group>, flag: string)
    requires groups != []
    ensures Has(groups, flag) <==> groups[0][0] == flag || Has(groups[1..], flag)
  {
    if Has(groups[1..], flag) {
      var k :| 0 <= k < |groups[1..]| && groups[1..][k][0] == flag;
      assert groups[k + 1][0] == flag;
    }
  }

  lemma CountFirst(groups: seq<Group>, stoi: string -> Option<int>, before: int, first: int, after: int)
    requires groups != [] && CountFrom(groups[1..], stoi, first, after)
    requires if groups[0][0] == "-c" then |groups[0]| == 2 && stoi(groups[0][1]) == Some(first) else first == before
    ensures CountFrom(groups, stoi, before, after)
  {
    hide Has;
    HasFirst(groups, "-c");
    forall k | 0 <= k < |groups| && groups[k][0] == "-c" && !Has(groups[k + 1..], "-c")
      ensures |groups[k]| == 2 && stoi(groups[k][1]) == Some(after)
    {
      if k > 0 {
        assert groups[1..][k - 1] == groups[k] && groups[1..][k..] == groups[k + 1..];
      }
    }
  }

  /** The scan, which finds the values by the names of the flags alone. */
  function ScanTokens(s: Settings, tokens: seq<string>, stoi: string -> Option<int>): Option<Settings>
    decreases |tokens|
  {
    if tokens == [] then Some(s)
    else if tokens[0] == "--help" then ScanTokens(s.(showHelp := true), tokens[1..], stoi)
    else if tokens[0] == "-c" && |tokens| > 1 then
      if stoi(tokens[1]).None? then None
      else ScanTokens(s.(numDatabases := stoi(tokens[1]).value), tokens[2..], stoi)
    else if tokens[0] == "--no-import" then ScanTokens(s.(noImport := true), tokens[1..], stoi)
    else if tokens[0] == "--debug" then ScanTokens(s.(debug := true), tokens[1..], stoi)
    else if (tokens[0] == "-p" || tokens[0] == "--port") && |tokens| > 1 then ScanTokens(s, tokens[2..], stoi)
    else ScanTokens(s, tokens[1..], stoi)
  }

  lemma ShellNamesDiffer()
    ensures UniqueNames(SHELL_REGISTRY)
  {
    assert "--help"[2] != "--port"[2] && "-c"[1] != "-p"[1];
  }

  lemma ShellEntries()
    ensures |SHELL_REGISTRY| == 6
    ensures SHELL_REGISTRY[0] == ArgumentMetadata("--help", false)
    ensures SHELL_REGISTRY[1] == ArgumentMetadata("-c", true)
    ensures SHELL_REGISTRY[2] == ArgumentMetadata("--no-import", false)
    ensures SHELL_REGISTRY[3] == ArgumentMetadata("--debug", false)
    ensures SHELL_REGISTRY[4] == ArgumentMetadata("--port", true)
    ensures SHELL_REGISTRY[5] == ArgumentMetadata("-p", true)
  {
  }

  /** The registry after one registration: the first of a name wins. */
  ghost function Registered(reg: Registry, meta: ArgumentMetadata): Registry {
    if exists m :: m in reg && m.name == meta.name then reg else reg + [meta]
  }

  /** The entries of a registry without repeated names can be registered one by one. */
  lemma NextRegistered(reg: Registry, k: nat)
    requires UniqueNames(reg) && k < |reg|
    ensures Registered(reg[..k], reg[k]) == reg[..k + 1]
  {
    assert reg[..k] + [reg[k]] == reg[..k + 1];
  }

  lemma LookupAt(reg: Registry, k: nat)
    requires UniqueNames(reg) && k < |reg|
    ensures Lookup(reg, reg[k].name) == Some(reg[k])
  {
    hide Lookup;
    var m := Lookup(reg, reg[k].name);
    assert m.Some?;
    var j :| 0 <= j < |reg| && reg[j] == m.value;
    assert j == k;
  }

  lemma ShellTakesArg(name: string)
    ensures Lookup(SHELL_REGISTRY, name).Some?
       <==> name in ["--help", "-c", "--no-import", "--debug", "--port", "-p"]
    ensures Lookup(SHELL_REGISTRY, name).Some?
            ==> (Lookup(SHELL_REGISTRY, name).value.takesArg <==> name == "-c" || name == "--port" || name == "-p")
  {
    hide SHELL_REGISTRY, Lookup, UniqueNames;
    ShellEntries();
    ShellNamesDiffer();
    LookupAt(SHELL_REGISTRY, 0);
    LookupAt(SHELL_REGISTRY, 1);
    LookupAt(SHELL_REGISTRY, 2);
    LookupAt(SHELL_REGISTRY, 3);
    LookupAt(SHELL_REGISTRY, 4);
    LookupAt(SHELL_REGISTRY, 5);
    var m := Lookup(SHELL_REGISTRY, name);
    if m.Some? {
      var k :| 0 <= k < |SHELL_REGISTRY| && SHELL_REGISTRY[k] == m.value;
      assert k == 0 || k == 1 || k == 2 || k == 3 || k == 4 || k == 5;
    }
  }

  /** On tokens the parser accepted, the scan finds the same arguments as the parser: it
      has the effects of the parser's groups, and fails exactly when they do. */
  lemma {:induction false} ScanFollowsParse(s: Settings, tokens: seq<string>, stoi: string -> Option<int>)
    requires ParseTokens(SHELL_REGISTRY, tokens, false).success
    ensures ScanTokens(s, tokens, stoi) == Effects(s, Groups(SHELL_REGISTRY, tokens), stoi)
    decreases |tokens|
  {
    hide Lookup;
    if tokens != [] {
      ShellTakesArg(tokens[0]);
      var width := if Lookup(SHELL_REGISTRY, tokens[0]).value.takesArg then 2 else 1;
      var t := Effect(s, tokens[..width], stoi);
      if t.Some? {
        ScanFollowsParse(t.value, tokens[width..], stoi);
      }
    }
  }

  /** The scan fails exactly when some `-c` has a value that is not a number. */
  lemma {:induction false} EffectsFailExactly(s: Settings, groups: seq<Group>, stoi: string -> Option<int>)
    ensures Effects(s, groups, stoi).None?
       <==> exists k :: 0 <= k < |groups| && |groups[k]| == 2 && groups[k][0] == "-c" && stoi(groups[k][1]).None?
    decreases |groups|
  {
    if groups != [] {
      var t := Effect(s, groups[0], stoi);
      if t.Some? {
        EffectsFailExactly(t.value, groups[1..], stoi);
        forall k | 0 <= k < |groups| && |groups[k]| == 2 && groups[k][0] == "-c" && stoi(groups[k][1]).None?
          ensures Effects(s, groups, stoi).None?
        {
          assert groups[k] == groups[1..][k - 1];
        }
      }
    }
  }

  // ---- The code ----

  class ArgumentRegistry {
    var registry: Registry

    constructor ()
      ensures registry == []
    {
      registry := [];
    }

    /** The first registration of a name wins. */
    method RegisterArgument(meta: ArgumentMetadata)
      modifies this
      ensures registry == Registered(old(registry), meta)
      ensures UniqueNames(old(registry)) ==> UniqueNames(registry)
    {
      for k := 0 to |registry|
        invariant registry == old(registry)
        invariant forall j :: 0 <= j < k ==> registry[j].name != meta.name
      {
        if registry[k].name == meta.name {
          return;
        }
      }
      registry := registry + [meta];
    }

    /** Parses `argv` after the program name. */
    method Parse(argv: seq<string>, debug: bool) returns (result: ParseResult)
      requires |argv| >= 1
      ensures result == ParseTokens(registry, argv[1..], debug)
    {
      hide Join, ParseTokens, Head, UnregisteredWarning, UnknownError, MissingError;
      result := NOTHING;
      var i := 1;
      JoinNothing(ParseTokens(registry, argv[1..], debug));
      while i < |argv|
        invariant 1 <= i <= |argv| && result.success && result.error == ""
        invariant ParseTokens(registry, argv[1..], debug) == Join(result, ParseTokens(registry, argv[i..], debug))
      {
        var arg := argv[i];
        var it := Lookup(registry, arg);
        HeadAt(registry, argv, i, debug);
        ParseStep(registry, argv, i, debug, result);
        if it.None? {
          if debug {
            result := Extend(result, [], [arg], [UnregisteredWarning(arg)]);
            i := i + 1;
            continue;
          } else {
            return Fail(result, UnknownError(arg));
          }
        }
        if it.value.takesArg {
          if i + 1 >= |argv| {
            return Fail(result, MissingError(arg));
          }
          result := Extend(result, [arg, argv[i + 1]], [], []);
          i := i + 2;
        } else {
          result := Extend(result, [arg], [], []);
          i := i + 1;
        }
      }
      assert argv[i..] == [];
      NoTokens(registry, debug);
      JoinNothing(result);
    }
  }

  /** The `push_back` calls of one successful pass, and the fields set by a failing one. */
  function Extend(r: ParseResult, parsed: seq<string>, unregistered: seq<string>, warnings: seq<string>): ParseResult {
    r.(parsedArgs := r.parsedArgs + parsed,
       unregistered := r.unregistered + unregistered,
       warnings := r.warnings + warnings)
  }

  function Fail(r: ParseResult, error: string): ParseResult {
    r.(success := false, error := error)
  }

  lemma NoTokens(reg: Registry, debug: bool)
    ensures ParseTokens(reg, [], debug) == NOTHING
  {
  }

  lemma JoinNothing(r: ParseResult)
    ensures Join(NOTHING, r) == r
    ensures r.success && r.error == "" ==> Join(r, NOTHING) == r
  {
  }

  lemma HeadAt(reg: Registry, argv: seq<string>, i: nat, debug: bool)
    requires i < |argv|
    ensures var (part, width) := Head(reg, argv[i..], debug);
            var m := Lookup(reg, argv[i]);
            && (m.None? && debug ==>
                  width == 1
                  && part == ParseResult(true, [], [argv[i]], [UnregisteredWarning(argv[i])], ""))
            && (m.None? && !debug ==> part == ParseResult(false, [], [], [], UnknownError(argv[i])))
            && (m.Some? && !m.value.takesArg ==> width == 1 && part == ParseResult(true, [argv[i]], [], [], ""))
            && (m.Some? && m.value.takesArg && i + 1 < |argv|
                ==> width == 2 && part == ParseResult(true, [argv[i], argv[i + 1]], [], [], ""))
            && (m.Some? && m.value.takesArg && i + 1 == |argv|
                ==> part == ParseResult(false, [], [], [], MissingError(argv[i])))
  {
  }

  lemma JoinExtend(r: ParseResult, part: ParseResult, rest: ParseResult)
    requires r.success && r.error == ""
    ensures part.success ==> Join(r, Join(part, rest))
                             == Join(Extend(r, part.parsedArgs, part.unregistered, part.warnings), rest)
    ensures !part.success && part.parsedArgs == part.unregistered == part.warnings == []
            ==> Join(r, part) == Fail(r, part.error)
  {
  }

  lemma HeadFails(reg: Registry, args: seq<string>, debug: bool)
    requires args != []
    ensures var part := Head(reg, args, debug).0;
            !part.success ==> part.parsedArgs == part.unregistered == part.warnings == []
  {
  }

  /** What one pass of the loop does to the result. */
  lemma ParseStep(reg: Registry, argv: seq<string>, i: nat, debug: bool, result: ParseResult)
    requires i < |argv| && result.success && result.error == ""
    ensures var (part, width) := Head(reg, argv[i..], debug);
            Join(result, ParseTokens(reg, argv[i..], debug))
            == if !part.success then Fail(result, part.error)
               else Join(Extend(result, part.parsedArgs, part.unregistered, part.warnings),
                         ParseTokens(reg, argv[i + width..], debug))
  {
    hide Head, Join, Extend, Fail;
    var (part, width) := Head(reg, argv[i..], debug);
    HeadFails(reg, argv[i..], debug);
    if part.success {
      assert argv[i..][width..] == argv[i + width..];
      JoinExtend(result, part, ParseTokens(reg, argv[i + width..], debug));
    } else {
      JoinExtend(result, part, NOTHING);
    }
  }

  class Shell {
    var debug: bool

    constructor ()
      ensures !debug
    {
      debug := false;
    }

    method RegisterAllArguments(reg: ArgumentRegistry)
      requires reg.registry == []
      modifies reg
      ensures reg.registry == SHELL_REGISTRY
    {
      hide SHELL_REGISTRY, Registered, UniqueNames;
      ShellEntries();
      ShellNamesDiffer();
      assert reg.registry == SHELL_REGISTRY[..0];
      NextRegistered(SHELL_REGISTRY, 0);
      reg.RegisterArgument(ArgumentMetadata("--help", false));
      NextRegistered(SHELL_REGISTRY, 1);
      reg.RegisterArgument(ArgumentMetadata("-c", true));
      NextRegistered(SHELL_REGISTRY, 2);
      reg.RegisterArgument(ArgumentMetadata("--no-import", false));
      NextRegistered(SHELL_REGISTRY, 3);
      reg.RegisterArgument(ArgumentMetadata("--debug", false));
      NextRegistered(SHELL_REGISTRY, 4);
      reg.RegisterArgument(ArgumentMetadata("--port", true));
      NextRegistered(SHELL_REGISTRY, 5);
      reg.RegisterArgument(ArgumentMetadata("-p", true));
      assert SHELL_REGISTRY[..6] == SHELL_REGISTRY;
    }

    /** The scan of `run` over the parsed tokens; none when a `-c` value is not numeric. */
    method Scan(tokens: seq<string>, stoi: string -> Option<int>) returns (settings: Option<Settings>)
      modifies this
      ensures settings == ScanTokens(Settings(1, false, false, old(debug)), tokens, stoi)
      ensures settings.Some? ==> debug == settings.value.debug
    {
      var numDatabases, noImport, showHelp := 1, false, false;
      var i := 0;
      assert tokens[0..] == tokens;
      while i < |tokens|
        invariant 0 <= i <= |tokens|
        invariant ScanTokens(Settings(1, false, false, old(debug)), tokens, stoi)
               == ScanTokens(Settings(numDatabases, noImport, showHelp, debug), tokens[i..], stoi)
      {
        var arg := tokens[i];
        if arg == "--help" {
          showHelp := true;
        } else if arg == "-c" && i + 1 < |tokens| {
          i := i + 1;
          var n := stoi(tokens[i]);
          if n.None? {
            return None;
          }
          numDatabases := n.value;
        } else if arg == "--no-import" {
          noImport := true;
        } else if arg == "--debug" {
          debug := true;
        } else if (arg == "-p" || arg == "--port") && i + 1 < |tokens| {
          i := i + 1;
        }
        i := i + 1;
      }
      return Some(Settings(numDatabases, noImport, showHelp, debug));
    }

    /** `run` up to the use of the settings, on a fresh registry. It gets none exactly when
        the arguments are bad or a `-c` value is not numeric. */
    method Run(argv: seq<string>, stoi: string -> Option<int>) returns (settings: Option<Settings>)
      requires |argv| >= 1 && !debug
      modifies this
      ensures settings == RunSettings(argv[1..], stoi)
    {
      hide ParseTokens, ScanTokens, Effects, Lookup, Groups, StrictlyBad;
      var reg := new ArgumentRegistry();
      RegisterAllArguments(reg);
      var result := reg.Parse(argv, debug);
      StrictFailsExactly(SHELL_REGISTRY, argv[1..]);
      if !result.success {
        return None;
      }
      ReparseStable(SHELL_REGISTRY, argv[1..], false);
      StrictParsesAll(SHELL_REGISTRY, argv[1..]);
      settings := Scan(result.parsedArgs, stoi);
      ScanFollowsParse(Settings(1, false, false, false), argv[1..], stoi);
    }
  }

  /** The settings the parser's groups call for, if the arguments are good. */
  function RunSettings(args: seq<string>, stoi: string -> Option<int>): Option<Settings> {
    if StrictlyBad(SHELL_REGISTRY, args) then None
    else
      StrictFailsExactly(SHELL_REGISTRY, args);
      Effects(Settings(1, false, false, false), Groups(SHELL_REGISTRY, args), stoi)
  }

  lemma {:induction false} GroupsHaveValues(tokens: seq<string>)
    requires ParseTokens(SHELL_REGISTRY, tokens, false).success
    ensures CountsHaveValues(Groups(SHELL_REGISTRY, tokens))
    decreases |tokens|
  {
    hide Lookup, SHELL_REGISTRY;
    if tokens != [] {
      ShellTakesArg(tokens[0]);
      var width := if Lookup(SHELL_REGISTRY, tokens[0]).value.takesArg then 2 else 1;
      GroupsHaveValues(tokens[width..]);
    }
  }

  /** From one database, import, no help and no debug mode, the arguments set exactly what
      their flags say. */
  lemma RunSettingsExactly(args: seq<string>, stoi: string -> Option<int>)
    requires RunSettings(args, stoi).Some?
    ensures !StrictlyBad(SHELL_REGISTRY, args) && ParseTokens(SHELL_REGISTRY, args, false).success
    ensures var (t, groups) := (RunSettings(args, stoi).value, Groups(SHELL_REGISTRY, args));
            && (t.showHelp <==> Has(groups, "--help")) && (t.noImport <==> Has(groups, "--no-import"))
            && (t.debug <==> Has(groups, "--debug")) && CountFrom(groups, stoi, 1, t.numDatabases)
  {
    hide Has, CountFrom, ParseTokens, Groups, StrictlyBad, Effects, CountsHaveValues;
    StrictFailsExactly(SHELL_REGISTRY, args);
    GroupsHaveValues(args);
    EffectsExactly(Settings(1, false, false, false), Groups(SHELL_REGISTRY, args), stoi);
  }

  /** Without debug mode a successful parse keeps every token. */
  lemma {:induction false} StrictParsesAll(reg: Registry, args: seq<string>)
    requires ParseTokens(reg, args, false).success
    ensures ParseTokens(reg, args, false).parsedArgs == args
    decreases |args|
  {
    hide Head;
    if args != [] {
      var (part, width) := Head(reg, args, false);
      StrictParsesAll(reg, args[width..]);
      HeadTokens(reg, args, false);
      assert args == args[..width] + args[width..];
    }
  }

  /** The parse happens before the scan sets debug mode, so `--debug` on the command line
      does not make the parser tolerate an unknown argument. */
  lemma DebugFlagNotRelaxing(unknown: string)
    requires Lookup(SHELL_REGISTRY, unknown).None?
    ensures StrictlyBad(SHELL_REGISTRY, ["--debug", unknown])
    ensures ParseTokens(SHELL_REGISTRY, ["--debug", unknown], true).success
  {
    var args := ["--debug", unknown];
    hide Lookup;
    ShellTakesArg("--debug");
    assert args[1..] == [unknown];
    assert [unknown][1..] == [];
    assert StrictlyBad(SHELL_REGISTRY, [unknown]);
    assert ParseTokens(SHELL_REGISTRY, [unknown], true).success;
  }
}
