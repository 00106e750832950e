/**
 * TugCli: the option table, the validation of a parsed command line and the choice main
 * makes from it (print the usage, print the help, reject with a message, or run Tug with
 * an action, a manifest path, a resource list and a parallelism).
 *
 * The parser itself is not modelled: a command line is what it hands back, the options it
 * found (under their short names) with their values, or nothing when parsing failed.
 */
module Cli {
  import opened Wrappers
  import opened Numbers
  import opened Build
  import opened Tug

  /** How many values an option takes. */
  datatype Arity = NoValue | OneValue | Values

  /** The options buildOptions defines, in the order it adds them. */
  datatype Opt = PushOpt | PullOpt | RepushOpt | ResourceOpt | AllOpt | ManifestOpt | ConcurrencyOpt | HelpOpt

  function Short(o: Opt): string {
    match o
    case PushOpt => "push"
    case PullOpt => "pull"
    case RepushOpt => "repush"
    case ResourceOpt => "r"
    case AllOpt => "a"
    case ManifestOpt => "m"
    case ConcurrencyOpt => "c"
    case HelpOpt => "help"
  }

  function Long(o: Opt): string {
    match o
    case PushOpt => "push"
    case PullOpt => "pull"
    case RepushOpt => "repush"
    case ResourceOpt => "resource"
    case AllOpt => "all"
    case ManifestOpt => "manifest"
    case ConcurrencyOpt => "concurrency"
    case HelpOpt => "help"
  }

  function ArityOf(o: Opt): Arity {
    match o
    case ResourceOpt => Values
    case ManifestOpt | ConcurrencyOpt => OneValue
    case _ => NoValue
  }

  const DefaultManifest: string := "tug-manifest.yaml"
  const DefaultParallelism: int := 6

  const OnlyOneAction: string := "only one of -push, -pull, or -repush is allowed"
  const ActionRequired: string := "one of -push, -pull, or -repush is required"
  const OnlyOneScope: string := "only one of -a or -r is allowed"
  const ScopeRequired: string := "one of -a or -r is required"
  const NotAnInteger: string := "concurrency must be an integer"
  const NotPositive: string := "concurrency must be greater than zero"

  /** A parsed command line: each option found, with its values. */
  datatype CommandLine = CommandLine(found: map<Opt, seq<string>>)

  /**
   * The option a name stands for, looked up by short name or long name, None when there is
   * none; the one-letter names are told apart by their letter.
   */
  function Resolve(name: string): (r: Option<Opt>)
    ensures r.Some? ==> Short(r.value) == name || Long(r.value) == name
    ensures r.None? ==> forall o: Opt :: Short(o) != name && Long(o) != name
  {
    if |name| == 1 then
      (if name[0] == 'r' then Some(ResourceOpt)
       else if name[0] == 'a' then Some(AllOpt)
       else if name[0] == 'm' then Some(ManifestOpt)
       else if name[0] == 'c' then Some(ConcurrencyOpt)
       else None)
    else if name == "push" then Some(PushOpt)
    else if name == "pull" then Some(PullOpt)
    else if name == "repush" then Some(RepushOpt)
    else if name == "resource" then Some(ResourceOpt)
    else if name == "all" then Some(AllOpt)
    else if name == "manifest" then Some(ManifestOpt)
    else if name == "concurrency" then Some(ConcurrencyOpt)
    else if name == "help" then Some(HelpOpt)
    else None
  }

  /** No two options share a name, so each of an option's names resolves to that option. */
  lemma ResolveNames(o: Opt)
    ensures Resolve(Short(o)) == Some(o) && Resolve(Long(o)) == Some(o)
  {
  }

  /** CommandLine.hasOption: the name resolves to an option, and the parser found it. */
  predicate HasOption(cmd: CommandLine, name: string) {
    var o := Resolve(name);
    o.Some? && o.value in cmd.found
  }

  /** CommandLine.getOptionValue: the option's first value, None for Java's null. */
  function OptionValue(cmd: CommandLine, name: string): (r: Option<string>)
    ensures r.Some? ==> HasOption(cmd, name)
  {
    var o := Resolve(name);
    if o.Some? && o.value in cmd.found && cmd.found[o.value] != [] then Some(cmd.found[o.value][0]) else None
  }

  /** CommandLine.getOptionValues: the option's values, in order. */
  function OptionValues(cmd: CommandLine, name: string): seq<string> {
    var o := Resolve(name);
    if o.Some? && o.value in cmd.found then cmd.found[o.value] else []
  }

  /** "h" is neither a short nor a long name of any option, so hasOption("h") is false on every command line. */
  lemma NoOptionH(cmd: CommandLine)
    ensures Resolve("h") == None
    ensures !HasOption(cmd, "h")
  {
  }

  /** Asking by an option's short name is asking whether the parser found that option. */
  lemma FoundByShortName(cmd: CommandLine, o: Opt)
    ensures HasOption(cmd, Short(o)) <==> o in cmd.found
    ensures OptionValue(cmd, Short(o)) ==
      (if o in cmd.found && cmd.found[o] != [] then Some(cmd.found[o][0]) else None)
    ensures OptionValues(cmd, Short(o)) == (if o in cmd.found then cmd.found[o] else [])
  {
    ResolveNames(o);
  }

  /** hasOption and getOptionValue(s) under each name validate and main ask about. */
  lemma FoundByName(cmd: CommandLine)
    ensures HasOption(cmd, "push") <==> PushOpt in cmd.found
    ensures HasOption(cmd, "pull") <==> PullOpt in cmd.found
    ensures HasOption(cmd, "repush") <==> RepushOpt in cmd.found
    ensures HasOption(cmd, "r") <==> ResourceOpt in cmd.found
    ensures HasOption(cmd, "a") <==> AllOpt in cmd.found
    ensures HasOption(cmd, "m") <==> ManifestOpt in cmd.found
    ensures HasOption(cmd, "c") <==> ConcurrencyOpt in cmd.found
    ensures HasOption(cmd, "help") <==> HelpOpt in cmd.found
    ensures OptionValue(cmd, "c") ==
      (if ConcurrencyOpt in cmd.found && cmd.found[ConcurrencyOpt] != [] then Some(cmd.found[ConcurrencyOpt][0]) else None)
  {
    FoundByShortName(cmd, PushOpt);
    FoundByShortName(cmd, PullOpt);
    FoundByShortName(cmd, RepushOpt);
    FoundByShortName(cmd, ResourceOpt);
    FoundByShortName(cmd, AllOpt);
    FoundByShortName(cmd, ManifestOpt);
    FoundByShortName(cmd, ConcurrencyOpt);
    FoundByShortName(cmd, HelpOpt);
  }

  /**
   * validate: count the action flags, then the resource flags, then read the concurrency;
   * the first complaint is returned, the empty string when there is none.
   */
  function Validate(cmd: CommandLine): (message: string)
  {
    var actionCount := (if HasOption(cmd, "push") then 1 else 0)
                     + (if HasOption(cmd, "pull") then 1 else 0)
                     + (if HasOption(cmd, "repush") then 1 else 0);
    if actionCount > 1 then OnlyOneAction
    else if actionCount == 0 then ActionRequired
    else
      var resourceCount := (if HasOption(cmd, "r") then 1 else 0) + (if HasOption(cmd, "a") then 1 else 0);
      if resourceCount > 1 then OnlyOneScope
      else if resourceCount == 0 then ScopeRequired
      else
        var concurrency := if HasOption(cmd, "c") then OptionValue(cmd, "c") else None;
        if concurrency.None? then ""
        else match ParseInt(concurrency.value)
          case None => NotAnInteger
          case Some(c) => if c <= 0 then NotPositive else ""
  }

  /** Exactly one of three flags. */
  predicate ExactlyOne(x: bool, y: bool, z: bool) {
    (x && !y && !z) || (!x && y && !z) || (!x && !y && z)
  }

  /** Exactly one action flag was given. */
  predicate OneAction(cmd: CommandLine) {
    ExactlyOne(HasOption(cmd, "push"), HasOption(cmd, "pull"), HasOption(cmd, "repush"))
  }

  /** Exactly one of -a and -r was given. */
  predicate OneScope(cmd: CommandLine) {
    HasOption(cmd, "a") != HasOption(cmd, "r")
  }

  /** No concurrency value, or one that parses to a positive int. */
  predicate ConcurrencyOk(cmd: CommandLine) {
    var v := OptionValue(cmd, "c");
    v.None? || (ParseInt(v.value).Some? && ParseInt(v.value).value > 0)
  }

  /** validate accepts a command line exactly when it names one action, one scope, and no bad concurrency. */
  lemma ValidateAccepts(cmd: CommandLine)
    ensures Validate(cmd) == "" <==> OneAction(cmd) && OneScope(cmd) && ConcurrencyOk(cmd)
  {
  }

  /** The action flags are checked first: two or more, or none, is refused whatever else was given. */
  lemma ValidateActionsFirst(cmd: CommandLine)
    ensures !OneAction(cmd) ==>
      Validate(cmd) == (if HasOption(cmd, "push") || HasOption(cmd, "pull") || HasOption(cmd, "repush")
                        then OnlyOneAction else ActionRequired)
  {
  }

  /** With one action, -a together with -r is refused, and so is neither of them. */
  lemma ValidateScopeNext(cmd: CommandLine)
    requires OneAction(cmd)
    ensures !OneScope(cmd) ==> Validate(cmd) == (if HasOption(cmd, "a") then OnlyOneScope else ScopeRequired)
  {
  }

  /** With one action and one scope, a concurrency that does not parse, or is not positive, is refused. */
  lemma ValidateConcurrencyLast(cmd: CommandLine)
    requires OneAction(cmd) && OneScope(cmd) && OptionValue(cmd, "c").Some?
    ensures ParseInt(OptionValue(cmd, "c").value).None? ==> Validate(cmd) == NotAnInteger
    ensures ParseInt(OptionValue(cmd, "c").value).Some? && ParseInt(OptionValue(cmd, "c").value).value <= 0 ==>
      Validate(cmd) == NotPositive
  {
  }

  /** What main ends with. */
  datatype Command =
    | Usage                       // parsing failed: help printed, exit status 1
    | Help                        // help printed, nothing run
    | Rejected(message: string)   // validate's message and the help printed, exit status 1
    | Launch(action: TugAction, manifest: string, resources: seq<string>, parallelism: int)

  /**
   * main, with the name it asks hasOption about before validating: the help, or validate's
   * complaint, or the defaults filled in and Tug started.
   */
  function Dispatch(parsed: Option<CommandLine>, helpName: string): Command {
    if parsed.None? then Usage
    else
      var cmd := parsed.value;
      if HasOption(cmd, helpName) then Help
      else
        var error := Validate(cmd);
        if error != "" then Rejected(error)
        else
          var action := if HasOption(cmd, "pull") then Pull else if HasOption(cmd, "push") then Push else Repush;
          var manifest := if HasOption(cmd, "m") then OptionValue(cmd, "m").GetOr("") else DefaultManifest;
          var resources := if HasOption(cmd, "r") then OptionValues(cmd, "r") else [];
          var concurrency := if HasOption(cmd, "c") then OptionValue(cmd, "c") else None;
          var parallelism := if concurrency.Some? then ParseInt(concurrency.value).GetOr(DefaultParallelism) else DefaultParallelism;
          Launch(action, manifest, resources, parallelism)
  }

  /** main as written: it asks for the option "h". */
  function MainAsWritten(parsed: Option<CommandLine>): Command {
    Dispatch(parsed, "h")
  }

  /** main as intended: it asks for the option it defines, "help". */
  function MainCommand(parsed: Option<CommandLine>): Command {
    Dispatch(parsed, "help")
  }

  /** As written, the help branch is dead: main never ends by printing only the help. */
  lemma HelpUnreachableAsWritten(parsed: Option<CommandLine>)
    ensures MainAsWritten(parsed) != Help
  {
    if parsed.Some? {
      NoOptionH(parsed.value);
    }
  }

  /** `-push -a -help`: main as written pushes every resource; the intended main prints the help. */
  lemma HelpIgnoredExample(cmd: CommandLine)
    requires cmd.found == map[PushOpt := [], AllOpt := [], HelpOpt := []]
    ensures MainAsWritten(Some(cmd)) == Launch(Push, DefaultManifest, [], DefaultParallelism)
    ensures MainCommand(Some(cmd)) == Help
  {
    FoundByName(cmd);
    assert Validate(cmd) == "" by {
      ValidateAccepts(cmd);
    }
    NoOptionH(cmd);
  }

  /** The intended main prints the help exactly when -help (or --help) was given. */
  lemma HelpShown(cmd: CommandLine)
    ensures MainCommand(Some(cmd)) == Help <==> HelpOpt in cmd.found
  {
  }

  /**
   * main, as written or as intended, starts Tug exactly when the help option it asks about
   * is absent and validate accepts; it then runs the
   * one action flag given, the manifest given or "tug-manifest.yaml", the resources given
   * with -r or none (all of them), and the concurrency given or 6, which is then at least 1.
   */
  lemma LaunchChoices(cmd: CommandLine, helpName: string)
    ensures Dispatch(Some(cmd), helpName).Launch? <==> !HasOption(cmd, helpName) && Validate(cmd) == ""
    ensures Dispatch(Some(cmd), helpName).Launch? ==>
      var launch := Dispatch(Some(cmd), helpName);
      && (launch.action == Push <==> HasOption(cmd, "push"))
      && (launch.action == Pull <==> HasOption(cmd, "pull"))
      && (launch.action == Repush <==> HasOption(cmd, "repush"))
      && launch.manifest == (if HasOption(cmd, "m") then OptionValue(cmd, "m").GetOr("") else DefaultManifest)
      && launch.resources == (if HasOption(cmd, "a") then [] else OptionValues(cmd, "r"))
      && (OptionValue(cmd, "c").None? ==> launch.parallelism == DefaultParallelism)
      && (OptionValue(cmd, "c").Some? ==> Some(launch.parallelism) == ParseInt(OptionValue(cmd, "c").value))
      && launch.parallelism >= 1
  {
    if Dispatch(Some(cmd), helpName).Launch? {
      ValidateAccepts(cmd);
    }
  }

  /**
   * validate lets through a concurrency the work-stealing pool refuses: `-push -a -c 40000`
   * starts Tug with a parallelism above 32767, so each executor's constructor then throws.
   */
  lemma OversizedConcurrencyAccepted(cmd: CommandLine)
    requires cmd.found == map[PushOpt := [], AllOpt := [], ConcurrencyOpt := ["40000"]]
    ensures Validate(cmd) == ""
    ensures MainCommand(Some(cmd)) == Launch(Push, DefaultManifest, [], 40000)
    ensures 40000 > MaxParallelism
  {
    assert ParseInt("40000") == Some(40000) by {
      assert "40000"[1..] == "0000";
      assert DigitsValue("40000") == 40000 by {
        assert "40000"[..4] == "4000";
        assert "4000"[..3] == "400";
        assert "400"[..2] == "40";
        assert "40"[..1] == "4";
        assert "4"[..0] == "";
      }
    }
    FoundByName(cmd);
    assert Validate(cmd) == "" by {
      ValidateAccepts(cmd);
    }
  }

}
