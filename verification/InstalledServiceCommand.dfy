/** The command line an installed service is registered with. */
module InstalledServiceCommand {
  import opened Wrappers
  import opened CommandLineParser
  import opened CommandLinePrinter
  import opened CommandLineRoundTrip
  import opened Texts

  datatype CommandError = Unterminated | TooShort | NotServiceRun | NoConfigValue | NoConfig

  datatype ServiceCommand = ServiceCommand(executable: string, config: string)

  const CONFIG := "--config"
  const CONFIG_EQUALS := "--config="

  /** The configuration path the options from `index` on give: the last one named. */
  function ConfigFrom(args: seq<string>, index: nat, found: Option<string>): Result<Option<string>, CommandError>
    decreases |args| - index
  {
    if index >= |args| then Ok(found)
    else if args[index] == CONFIG then
      if index + 1 < |args| then ConfigFrom(args, index + 2, Some(args[index + 1])) else Err(NoConfigValue)
    else if CONFIG_EQUALS <= args[index] then ConfigFrom(args, index + 1, Some(args[index][|CONFIG_EQUALS|..]))
    else ConfigFrom(args, index + 1, found)
  }

  /** What the arguments of a service command line ask for. */
  function CommandOf(args: seq<string>): Result<ServiceCommand, CommandError> {
    if |args| < 4 then Err(TooShort)
    else if args[1] != "service" || args[2] != "run" then Err(NotServiceRun)
    else match ConfigFrom(args, 3, None)
      case Err(e) => Err(e)
      case Ok(None) => Err(NoConfig)
      case Ok(Some(config)) => Ok(ServiceCommand(args[0], config))
  }

  method ParseInstalledServiceCommand(commandLine: string) returns (r: Result<ServiceCommand, CommandError>)
    ensures match Arguments(commandLine)
      case Err(_) => r == Err(Unterminated)
      case Ok(args) => r == CommandOf(args)
  {
    var split := SplitCommandLine(commandLine);
    if split.Err? {
      return Err(Unterminated);
    }
    var args := split.value;
    if |args| < 4 {
      return Err(TooShort);
    }
    if args[1] != "service" || args[2] != "run" {
      return Err(NotServiceRun);
    }
    var configPath: Option<string>, index := None, 3;
    while index < |args|
      invariant 3 <= index
      invariant ConfigFrom(args, index, configPath) == ConfigFrom(args, 3, None)
    {
      if args[index] == CONFIG {
        if index + 1 >= |args| {
          return Err(NoConfigValue);
        }
        configPath := Some(args[index + 1]);
        index := index + 2;
        continue;
      }
      if CONFIG_EQUALS <= args[index] {
        configPath := Some(args[index][|CONFIG_EQUALS|..]);
        index := index + 1;
        continue;
      }
      index := index + 1;
    }
    if configPath.None? {
      return Err(NoConfig);
    }
    r := Ok(ServiceCommand(args[0], configPath.value));
  }

  // ----- Which path the options name -----

  /** From the fourth argument on, each is an option unless it is the value of a `--config` before it. */
  predicate IsOption(args: seq<string>, i: nat)
    requires i <= |args|
  {
    i >= 3 && (i == 3 || !(args[i - 1] == CONFIG && IsOption(args, i - 1)))
  }

  /** The option at `i` names this path, in the argument after it or behind its equals sign. */
  predicate NamesPath(args: seq<string>, i: nat, path: string)
    requires i < |args|
  {
    IsOption(args, i) && ((args[i] == CONFIG && i + 1 < |args| && args[i + 1] == path)
                          || args[i] == CONFIG_EQUALS + path)
  }

  ghost predicate NamesAny(args: seq<string>, i: nat)
    requires i < |args|
  {
    exists path :: NamesPath(args, i, path)
  }

  /** Of the arguments before `end`, the last that names a path names this one. */
  ghost predicate IsLastNamed(args: seq<string>, end: nat, path: string)
    requires end <= |args|
  {
    exists i :: 0 <= i < end && NamesPath(args, i, path) && forall j :: i < j < end ==> !NamesAny(args, j)
  }

  ghost predicate IsLastOrNone(args: seq<string>, end: nat, found: Option<string>)
    requires end <= |args|
  {
    match found
    case Some(path) => IsLastNamed(args, end, path)
    case None => forall i :: 0 <= i < end ==> !NamesAny(args, i)
  }

  /** The last argument is a `--config` without its value. */
  predicate Dangles(args: seq<string>) {
    |args| > 3 && args[|args| - 1] == CONFIG && IsOption(args, |args| - 1)
  }

  /** Where an option names a path, that path is the last named. */
  lemma NamedNow(args: seq<string>, i: nat, end: nat, path: string)
    requires i < end <= |args| && NamesPath(args, i, path)
    requires forall j :: i < j < end ==> !IsOption(args, j)
    ensures IsLastOrNone(args, end, Some(path))
  {
  }

  lemma NothingNamed(args: seq<string>, i: nat, found: Option<string>)
    requires i < |args| && args[i] != CONFIG && !(CONFIG_EQUALS <= args[i]) && IsLastOrNone(args, i, found)
    ensures IsLastOrNone(args, i + 1, found)
  {
    assert !NamesAny(args, i);
  }

  lemma {:induction false} OptionsNameTheLast(args: seq<string>, index: nat, found: Option<string>)
    requires index <= |args| && IsOption(args, index) && IsLastOrNone(args, index, found)
    ensures match ConfigFrom(args, index, found)
      case Ok(path) => !Dangles(args) && IsLastOrNone(args, |args|, path)
      case Err(e) => e == NoConfigValue && Dangles(args)
    decreases |args| - index
  {
    if index < |args| {
      hide IsLastOrNone, IsLastNamed;
      if args[index] == CONFIG {
        if index + 1 < |args| {
          assert !IsOption(args, index + 1) && IsOption(args, index + 2);
          NamedNow(args, index, index + 2, args[index + 1]);
          OptionsNameTheLast(args, index + 2, Some(args[index + 1]));
        }
      } else if CONFIG_EQUALS <= args[index] {
        var path := args[index][|CONFIG_EQUALS|..];
        assert args[index] == CONFIG_EQUALS + path;
        NamedNow(args, index, index + 1, path);
        OptionsNameTheLast(args, index + 1, Some(path));
      } else {
        NothingNamed(args, index, found);
        OptionsNameTheLast(args, index + 1, found);
      }
    }
  }

  /**
   * A service command names its executable first, then `service run`, and the configuration path is the one that the
   * last option naming a path names; the first of these that is missed is the error.
   */
  lemma LastPathNamedWins(args: seq<string>)
    ensures var runs := |args| >= 4 && args[1] == "service" && args[2] == "run";
      match CommandOf(args)
      case Ok(command) =>
        runs && !Dangles(args) && command.executable == args[0] && IsLastNamed(args, |args|, command.config)
      case Err(TooShort) => |args| < 4
      case Err(NotServiceRun) => |args| >= 4 && !runs
      case Err(NoConfigValue) => runs && Dangles(args)
      case Err(NoConfig) => runs && !Dangles(args) && forall i :: 0 <= i < |args| ==> !NamesAny(args, i)
      case Err(Unterminated) => false
  {
    if |args| >= 4 {
      assert IsLastOrNone(args, 3, None);
      OptionsNameTheLast(args, 3, None);
    }
  }

  function RunArgs(executable: string, config: string): seq<string> {
    [executable, "service", "run", CONFIG, config]
  }

  /** A found path is one of the arguments, or the text after `--config=` in one. */
  lemma {:induction false} ConfigIsAnArgument(args: seq<string>, index: nat, found: Option<string>)
    requires ConfigFrom(args, index, found).Ok? && ConfigFrom(args, index, found).value.Some?
    requires ConfigFrom(args, index, found).value != found
    ensures var path := ConfigFrom(args, index, found).value.value;
      exists i :: 0 <= i < |args| && (args[i] == path || args[i] == CONFIG_EQUALS + path)
    decreases |args| - index
  {
    var path := ConfigFrom(args, index, found).value.value;
    if args[index] == CONFIG {
      if Some(args[index + 1]) != Some(path) { ConfigIsAnArgument(args, index + 2, Some(args[index + 1])); }
    } else if CONFIG_EQUALS <= args[index] {
      var rest := args[index][|CONFIG_EQUALS|..];
      assert args[index] == CONFIG_EQUALS + rest;
      if rest != path { ConfigIsAnArgument(args, index + 1, Some(rest)); }
    } else {
      ConfigIsAnArgument(args, index + 1, found);
    }
  }

  lemma TriggersAdd(a: string, b: string)
    requires ServiceQuotes(a + b)
    ensures ServiceQuotes(a) || ServiceQuotes(b)
  {
    var j :| 0 <= j < |a + b| && IsServiceTrigger((a + b)[j]);
    assert if j < |a| then IsServiceTrigger(a[j]) else IsServiceTrigger(b[j - |a|]);
  }

  lemma UnsafeInside(prefix: string, arg: string)
    requires !IsSafe(arg) && !ServiceQuotes(prefix)
    ensures !IsSafe(prefix + arg)
  {
    var i :| 0 <= i < |arg| && IsWhitespace(arg[i]);
    assert (prefix + arg)[|prefix| + i] == arg[i];
    if ServiceQuotes(prefix + arg) {
      TriggersAdd(prefix, arg);
    }
  }

  lemma FixedWordsAreSafe()
    ensures IsSafe("service") && IsSafe("run") && IsSafe(CONFIG)
  {
  }

  lemma SafeCommandIsRead(executable: string, config: string)
    requires IsSafe(executable) && IsSafe(config)
    ensures Arguments(Joined(ServiceParts(RunArgs(executable, config)), ' ')) == Ok(RunArgs(executable, config))
    ensures CommandOf(RunArgs(executable, config)) == Ok(ServiceCommand(executable, config))
  {
    var given := RunArgs(executable, config);
    FixedWordsAreSafe();
    assert forall i :: 0 <= i < |given| ==> IsSafe(given[i]);
    hide IsSafe;
    ServiceRoundTrip(given);
    assert ConfigFrom(given, 5, Some(config)) == Ok(Some(config));
  }

  lemma ReadCommandIsSafe(executable: string, config: string)
    requires CommandOf(Concat(AllReadAs(RunArgs(executable, config)))) == Ok(ServiceCommand(executable, config))
    ensures IsSafe(executable) && IsSafe(config)
  {
    hide IsSafe, AllReadAs, Concat;
    var given := RunArgs(executable, config);
    var read := Concat(AllReadAs(given));
    OnlySafeComesOut(given, 0);
    ConfigIsAnArgument(read, 3, None);
    var i :| 0 <= i < |read| && (read[i] == config || read[i] == CONFIG_EQUALS + config);
    OnlySafeComesOut(given, i);
    if !IsSafe(config) { UnsafeInside(CONFIG_EQUALS, config); }
  }

  /**
   * The service command line gives back its executable and configuration path if and only if both are
   * safe to write.
   */
  lemma ServiceCommandRoundTrip(executable: string, config: string)
    ensures var line := Arguments(Joined(ServiceParts(RunArgs(executable, config)), ' '));
      && line.Ok?
      && (CommandOf(line.value) == Ok(ServiceCommand(executable, config)) <==> IsSafe(executable) && IsSafe(config))
  {
    hide IsSafe, Concat, CommandOf, Arguments;
    ServiceLineIsReadAs(RunArgs(executable, config));
    if IsSafe(executable) && IsSafe(config) {
      SafeCommandIsRead(executable, config);
    } else if CommandOf(Concat(AllReadAs(RunArgs(executable, config)))) == Ok(ServiceCommand(executable, config)) {
      ReadCommandIsSafe(executable, config);
    }
  }
}
