/** The command line front end: the verbosity flags, the validation in
    `parse_arguments`, the keep mode as two protection flags, the stderr
    logging level and the exit code `main` ends with. argparse itself, the
    terminal and the GitLab connection are inputs. */
module Cli {
  import opened Wrappers
  import Text
  import Config
  import Cleanup

  // ---------------------------------------------------------------------
  // Verbosity flags

  /** The mutually exclusive flags `-q`, `--error`, `--warn`, `-v`, `--debug`. */
  datatype VerbosityFlags = VerbosityFlags(quiet: bool, error: bool, warn: bool, verbose: bool, debug: bool)

  /** Whether the flag that selects level `v` is set. */
  predicate Flagged(flags: VerbosityFlags, v: Config.Verbosity) {
    match v
    case Quiet => flags.quiet
    case Error => flags.error
    case Warn => flags.warn
    case Verbose => flags.verbose
    case Debug => flags.debug
  }

  predicate NoFlag(flags: VerbosityFlags) {
    !flags.quiet && !flags.error && !flags.warn && !flags.verbose && !flags.debug
  }

  /** `args.verbosity_level`: the nested conditional over the flags, ending
      in the configured level. */
  function ResolveVerbosity(flags: VerbosityFlags, configured: Config.Verbosity): Config.Verbosity {
    if flags.quiet then Config.Quiet
    else if flags.error then Config.Error
    else if flags.warn then Config.Warn
    else if flags.verbose then Config.Verbose
    else if flags.debug then Config.Debug
    else configured
  }

  /** Reference definition: the first of `levels` whose flag is set, else
      the configured level. */
  function FirstFlagged(flags: VerbosityFlags, levels: seq<Config.Verbosity>, configured: Config.Verbosity): Config.Verbosity
    decreases |levels|
  {
    if |levels| == 0 then configured
    else if Flagged(flags, levels[0]) then levels[0]
    else FirstFlagged(flags, levels[1..], configured)
  }

  /** The conditional tries the flags in the order the levels are declared. */
  lemma ResolveVerbosityIsFirstFlagged(flags: VerbosityFlags, configured: Config.Verbosity)
    ensures ResolveVerbosity(flags, configured) == FirstFlagged(flags, Config.Verbosities, configured)
  {
    var vs := Config.Verbosities;
    assert vs[1..][1..][1..][1..][1..] == [];
  }

  /** Precedence quiet > error > warn > verbose > debug: level `v` is chosen
      exactly when its flag is set and no flag of an earlier level is, or
      when no flag is set and `v` is the configured level. */
  lemma VerbosityPrecedence(flags: VerbosityFlags, configured: Config.Verbosity, v: Config.Verbosity)
    ensures ResolveVerbosity(flags, configured) == v <==>
      || (Flagged(flags, v) && forall w :: Config.VerbosityRank(w) < Config.VerbosityRank(v) ==> !Flagged(flags, w))
      || (NoFlag(flags) && v == configured)
  {
    var r := ResolveVerbosity(flags, configured);
    if r == v && !NoFlag(flags) {
      forall w | Config.VerbosityRank(w) < Config.VerbosityRank(v) ensures !Flagged(flags, w) {
        assert w != v;
      }
    }
    if Flagged(flags, v) && forall w :: Config.VerbosityRank(w) < Config.VerbosityRank(v) ==> !Flagged(flags, w) {
      assert !Flagged(flags, Config.Quiet) || v == Config.Quiet;
      assert Config.VerbosityRank(Config.Error) < Config.VerbosityRank(v) ==> !Flagged(flags, Config.Error);
      assert Config.VerbosityRank(Config.Warn) < Config.VerbosityRank(v) ==> !Flagged(flags, Config.Warn);
      assert Config.VerbosityRank(Config.Verbose) < Config.VerbosityRank(v) ==> !Flagged(flags, Config.Verbose);
    }
  }

  // ---------------------------------------------------------------------
  // Keep mode as protection flags

  /** The two protection switches `delete_old_artifacts` takes. */
  datatype Protection = Protection(latestBranchCommit: bool, tags: bool)

  /** `handle_clean_artifacts`: membership of the mode in the two pairs of
      modes that keep branch heads and that keep tags. */
  function KeepFlags(k: Config.KeepArtifacts): Protection {
    Protection(
      k in [Config.KeepBranchAndTag, Config.KeepBranch],
      k in [Config.KeepBranchAndTag, Config.KeepTag])
  }

  /** The mapping, mode by mode. */
  lemma KeepFlagsTable()
    ensures KeepFlags(Config.KeepBranchAndTag) == Protection(true, true)
    ensures KeepFlags(Config.KeepBranch) == Protection(true, false)
    ensures KeepFlags(Config.KeepTag) == Protection(false, true)
    ensures KeepFlags(Config.KeepNone) == Protection(false, false)
  {
    assert [Config.KeepBranchAndTag, Config.KeepBranch][1] == Config.KeepBranch;
    assert [Config.KeepBranchAndTag, Config.KeepTag][1] == Config.KeepTag;
  }

  /** Every pair of switches comes from exactly one mode. */
  lemma KeepFlagsBijective(p: Protection)
    ensures exists k :: KeepFlags(k) == p
    ensures forall k1, k2 :: KeepFlags(k1) == p && KeepFlags(k2) == p ==> k1 == k2
  {
    KeepFlagsTable();
    if p == Protection(true, true) {
      assert KeepFlags(Config.KeepBranchAndTag) == p;
    } else if p == Protection(true, false) {
      assert KeepFlags(Config.KeepBranch) == p;
    } else if p == Protection(false, true) {
      assert KeepFlags(Config.KeepTag) == p;
    } else {
      assert KeepFlags(Config.KeepNone) == p;
    }
  }

  // ---------------------------------------------------------------------
  // Exceptions and exit codes

  datatype Exception =
    | ArgumentException(message: string)
    | AuthenticationException
    | ListException
    | ProjectException(path: string)
      /** `OverflowError` from `timedelta(days=days_to_keep)`. */
    | OverflowException(days: int)
      /** `setup_stderr_logging` for a level it does not handle. */
    | NotImplementedException(level: Config.Verbosity)
      /** `KeepArtifacts[name]` for a name that is not a member. */
    | KeyException(key: string)

  /** The failures the GitLab library raises while the run talks to the
      server. */
  datatype ServerFailure = AuthenticationFailed | ListFailed

  function ServerException(f: ServerFailure): Exception {
    match f
    case AuthenticationFailed => AuthenticationException
    case ListFailed => ListException
  }

  /** The classes `main` catches, in the order it lists them. */
  datatype ExceptionClass = ArgumentErrorClass | GitlabAuthenticationErrorClass | GitlabListErrorClass | ProjectGetErrorClass

  const ExpectedExceptions: seq<ExceptionClass> :=
    [ArgumentErrorClass, GitlabAuthenticationErrorClass, GitlabListErrorClass, ProjectGetErrorClass]

  predicate IsInstance(e: Exception, c: ExceptionClass) {
    match c
    case ArgumentErrorClass => e.ArgumentException?
    case GitlabAuthenticationErrorClass => e.AuthenticationException?
    case GitlabListErrorClass => e.ListException?
    case ProjectGetErrorClass => e.ProjectException?
  }

  /** The exception is one `main` catches. */
  predicate IsExpected(e: Exception) {
    e.ArgumentException? || e.AuthenticationException? || e.ListException? || e.ProjectException?
  }

  /** The exit code of each caught exception; 1 for any other. */
  function ExitCodeOf(e: Exception): int {
    match e
    case ArgumentException(_) => 3
    case AuthenticationException => 4
    case ListException => 5
    case ProjectException(_) => 6
    case NotImplementedException(_) => 1
    case KeyException(_) => 1
    case OverflowException(_) => 1
  }

  /** `enumerate(expected_exceptions, start=3)`: the first class the
      exception is an instance of gives the code, counting from 3. */
  method SelectExitCode(e: Exception) returns (code: int)
    ensures code == ExitCodeOf(e)
  {
    var i := 0;
    while i < |ExpectedExceptions|
      invariant 0 <= i <= |ExpectedExceptions|
      invariant forall j :: 0 <= j < i ==> !IsInstance(e, ExpectedExceptions[j])
    {
      if IsInstance(e, ExpectedExceptions[i]) {
        return i + 3;
      }
      i := i + 1;
    }
    assert !IsExpected(e) by {
      assert !IsInstance(e, ExpectedExceptions[0]) && !IsInstance(e, ExpectedExceptions[1]);
      assert !IsInstance(e, ExpectedExceptions[2]) && !IsInstance(e, ExpectedExceptions[3]);
    }
    code := 1;
  }

  /** Each caught class has its own code, 3 to 6, and the code of a caught
      exception is 3 plus the position of its class. */
  lemma ExitCodesDistinct(e: Exception, f: Exception)
    ensures IsExpected(e) <==> 3 <= ExitCodeOf(e) <= 6
    ensures IsExpected(e) ==> IsInstance(e, ExpectedExceptions[ExitCodeOf(e) - 3])
    ensures IsExpected(e) && IsExpected(f) && ExitCodeOf(e) == ExitCodeOf(f) ==>
      forall c :: IsInstance(e, c) <==> IsInstance(f, c)
  {
  }

  // ---------------------------------------------------------------------
  // Logging setup

  /** `logging.WARNING`, `logging.INFO`, `logging.DEBUG` */
  const WarningLevel := 30
  const InfoLevel := 20
  const DebugLevel := 10

  /** What `setup_stderr_logging` installs: either no handlers at all, or a
      basic configuration at a threshold with the colored formatter. */
  datatype LoggingSetup = NoHandlers | StderrHandler(threshold: int)

  function SetupStderrLogging(v: Config.Verbosity): Result<LoggingSetup, Exception> {
    match v
    case Quiet => Ok(NoHandlers)
    case Warn => Ok(StderrHandler(WarningLevel))
    case Verbose => Ok(StderrHandler(InfoLevel))
    case Debug => Ok(StderrHandler(DebugLevel))
    case Error => Err(NotImplementedException(v))
  }

  /** Only the error level is missing; a more verbose level has a lower
      threshold, so it shows every message the less verbose one shows. */
  lemma LoggingLevels(v: Config.Verbosity, w: Config.Verbosity)
    ensures SetupStderrLogging(v).Err? <==> v == Config.Error
    ensures SetupStderrLogging(v) == Ok(NoHandlers) <==> v == Config.Quiet
    ensures SetupStderrLogging(v).Ok? && SetupStderrLogging(w).Ok?
      && SetupStderrLogging(v).value.StderrHandler? && SetupStderrLogging(w).value.StderrHandler?
      && Config.VerbosityRank(v) < Config.VerbosityRank(w)
      ==> SetupStderrLogging(w).value.threshold < SetupStderrLogging(v).value.threshold
  {
  }

  // ---------------------------------------------------------------------
  // parse_arguments

  /** What argparse leaves in the namespace: each option as given or its
      configured default. */
  datatype CommandLine = CommandLine(
    repositoryPaths: seq<string>,
    alwaysKeep: string,
    daysToKeep: int,
    deleteLogs: bool,
    dryRun: bool,
    gitlabUrl: string,
    printVersion: bool,
    writeDefaultConfig: bool,
    verbosityFlags: VerbosityFlags)

  /** Where a missing token comes from: the text typed at the `getpass`
      prompt on a terminal, otherwise the first line of standard input. */
  datatype Terminal = Terminal(isTty: bool, typed: string, stdinLine: string)

  /** The values `parse_arguments` reads from the configuration. */
  datatype Settings = Settings(verbosity: Config.Verbosity, accessToken: Option<string>)

  const NoRepositoryPathMessage := "No repository path is given."
  const NegativeDaysMessage := "The number of days to keep must be positive."
  const NoTokenMessage := "No GitLab login token is given."

  /** The parsed arguments: argparse's values and the three attributes
      `parse_arguments` adds (unset until it reaches them). */
  class Namespace {
    const line: CommandLine
    var verbosityLevel: Option<Config.Verbosity>
    var alwaysKeep: Option<Config.KeepArtifacts>
    var gitlabAccessToken: Option<string>

    constructor (line: CommandLine)
      ensures this.line == line
      ensures verbosityLevel == None && alwaysKeep == None && gitlabAccessToken == None
    {
      this.line := line;
      verbosityLevel := None;
      alwaysKeep := None;
      gitlabAccessToken := None;
    }
  }

  /** The attributes `parse_arguments` has set when it returns or raises,
      and what it raised. */
  datatype Parsed = Parsed(
    verbosityLevel: Option<Config.Verbosity>,
    alwaysKeep: Option<Config.KeepArtifacts>,
    gitlabAccessToken: Option<string>,
    error: Option<Exception>)

  /** The token the configuration gives, else the one the terminal gives. */
  function TokenOf(configured: Option<string>, terminal: Terminal): string {
    if configured.Some? then configured.value
    else if terminal.isTty then terminal.typed
    else Text.Strip(terminal.stdinLine)
  }

  function ParseArgumentsSpec(line: CommandLine, settings: Settings, terminal: Terminal): Parsed {
    if line.printVersion then Parsed(None, None, None, None)
    else
      var v := Some(ResolveVerbosity(line.verbosityFlags, settings.verbosity));
      if line.writeDefaultConfig then Parsed(v, None, None, None)
      else if |line.repositoryPaths| == 0 then Parsed(v, None, None, Some(ArgumentException(NoRepositoryPathMessage)))
      else if line.daysToKeep < 0 then Parsed(v, None, None, Some(ArgumentException(NegativeDaysMessage)))
      else
        var key := Text.Upper(line.alwaysKeep);
        match Config.KeepArtifactsByName(key)
        case None => Parsed(v, None, None, Some(KeyException(key)))
        case Some(k) =>
          var token := TokenOf(settings.accessToken, terminal);
          if settings.accessToken.None? && token == "" then
            Parsed(v, Some(k), Some(token), Some(ArgumentException(NoTokenMessage)))
          else Parsed(v, Some(k), Some(token), None)
  }

  /** `parse_arguments`: a new namespace whose added attributes are those of
      the specification, and the exception it raises. */
  method ParseArguments(line: CommandLine, settings: Settings, terminal: Terminal)
    returns (args: Namespace, error: Option<Exception>)
    ensures fresh(args) && args.line == line
    ensures Parsed(args.verbosityLevel, args.alwaysKeep, args.gitlabAccessToken, error)
      == ParseArgumentsSpec(line, settings, terminal)
  {
    args := new Namespace(line);
    error := None;
    if line.printVersion {
      return;
    }
    args.verbosityLevel := Some(ResolveVerbosity(line.verbosityFlags, settings.verbosity));
    if line.writeDefaultConfig {
      return;
    }
    if |line.repositoryPaths| == 0 {
      error := Some(ArgumentException(NoRepositoryPathMessage));
      return;
    }
    if line.daysToKeep < 0 {
      error := Some(ArgumentException(NegativeDaysMessage));
      return;
    }
    var key := Text.Upper(line.alwaysKeep);
    var mode := Config.KeepArtifactsByName(key);
    if mode.None? {
      error := Some(KeyException(key));
      return;
    }
    args.alwaysKeep := mode;
    args.gitlabAccessToken := settings.accessToken;
    if args.gitlabAccessToken.None? {
      if terminal.isTty {
        args.gitlabAccessToken := Some(terminal.typed);
      } else {
        args.gitlabAccessToken := Some(Text.Strip(terminal.stdinLine));
      }
      if args.gitlabAccessToken.value == "" {
        error := Some(ArgumentException(NoTokenMessage));
      }
    }
  }

  /** With `--version` nothing is computed or checked. */
  lemma VersionReturnsFirst(line: CommandLine, settings: Settings, terminal: Terminal)
    requires line.printVersion
    ensures ParseArgumentsSpec(line, settings, terminal) == Parsed(None, None, None, None)
  {
  }

  /** With `--write-default-config` the verbosity is resolved but nothing
      is validated. */
  lemma WriteConfigSkipsValidation(line: CommandLine, settings: Settings, terminal: Terminal)
    requires !line.printVersion && line.writeDefaultConfig
    ensures var p := ParseArgumentsSpec(line, settings, terminal);
      && p.verbosityLevel == Some(ResolveVerbosity(line.verbosityFlags, settings.verbosity))
      && p.error.None? && p.alwaysKeep.None? && p.gitlabAccessToken.None?
  {
  }

  /** A mode name argparse accepts (a lower-cased member name) is found. */
  lemma ChoiceIsMember(choice: string)
    requires choice in Config.KeepArtifactsChoices
    ensures exists k ::
        && Config.KeepArtifactsByName(Text.Upper(choice)) == Some(k)
        && choice == Text.Lower(Config.KeepArtifactsName(k))
  {
    var i :| 0 <= i < |Config.KeepArtifactsChoices| && Config.KeepArtifactsChoices[i] == choice;
    var k := Config.KeepArtifactsMembers[i];
    Config.KeepArtifactsNamesRoundTrip(k);
  }

  /** When validation is reached: the arguments are rejected exactly when
      the path list is empty, the number of days is negative (0 is
      accepted), or no token is configured and the one read is empty; for
      a mode argparse accepts, that is every way the call can fail. */
  lemma ValidationIff(line: CommandLine, settings: Settings, terminal: Terminal)
    requires !line.printVersion && !line.writeDefaultConfig
    requires line.alwaysKeep in Config.KeepArtifactsChoices
    ensures var p := ParseArgumentsSpec(line, settings, terminal);
      && (p.error.Some? <==>
        || |line.repositoryPaths| == 0
        || line.daysToKeep < 0
        || (settings.accessToken.None? && TokenOf(None, terminal) == ""))
      && (p.error.Some? ==> p.error.value.ArgumentException?)
  {
    ChoiceIsMember(line.alwaysKeep);
  }

  /** The error messages, in the order the checks are made. */
  lemma ValidationMessages(line: CommandLine, settings: Settings, terminal: Terminal)
    requires !line.printVersion && !line.writeDefaultConfig
    ensures |line.repositoryPaths| == 0 ==>
      ParseArgumentsSpec(line, settings, terminal).error == Some(ArgumentException(NoRepositoryPathMessage))
    ensures |line.repositoryPaths| > 0 && line.daysToKeep < 0 ==>
      ParseArgumentsSpec(line, settings, terminal).error == Some(ArgumentException(NegativeDaysMessage))
    ensures |line.repositoryPaths| > 0 && line.daysToKeep >= 0 ==>
      ParseArgumentsSpec(line, settings, terminal).error != Some(ArgumentException(NegativeDaysMessage))
  {
  }

  /** On success the namespace holds the mode named on the command line
      and a non-empty token: the configured one, else the typed one, else
      the stripped line from standard input. */
  lemma AcceptedArguments(line: CommandLine, settings: Settings, terminal: Terminal)
    requires settings.accessToken.Some? ==> settings.accessToken.value != ""
    requires !line.printVersion && !line.writeDefaultConfig
    requires ParseArgumentsSpec(line, settings, terminal).error.None?
    ensures var p := ParseArgumentsSpec(line, settings, terminal);
      && p.alwaysKeep.Some? && Text.Lower(Config.KeepArtifactsName(p.alwaysKeep.value)) == Text.Lower(Text.Upper(line.alwaysKeep))
      && p.gitlabAccessToken == Some(TokenOf(settings.accessToken, terminal))
      && p.gitlabAccessToken.value != ""
      && (settings.accessToken.None? && !terminal.isTty ==> p.gitlabAccessToken.value == Text.Strip(terminal.stdinLine))
  {
    var key := Text.Upper(line.alwaysKeep);
    var k := Config.KeepArtifactsByName(key).value;
    Config.KeepArtifactsNamesRoundTrip(k);
    assert key == Config.KeepArtifactsName(k);
  }

  // ---------------------------------------------------------------------
  // handle_clean_artifacts and main

  /** `handle_clean_artifacts`: a connection for the namespace's URL, token
      and dry-run switch, and one run over the given paths with the mode's
      protection switches. */
  method HandleCleanArtifacts(args: Namespace, server: Cleanup.Server, now: int)
    returns (gitlab: Cleanup.Gitlab, error: Option<Cleanup.RunError>)
    requires args.alwaysKeep.Some? && args.gitlabAccessToken.Some?
    ensures fresh(gitlab) && gitlab.dryRun == args.line.dryRun && gitlab.server == server
    ensures gitlab.url == args.line.gitlabUrl && gitlab.accessToken == args.gitlabAccessToken.value
    ensures var r := Cleanup.Run(args.line.repositoryPaths, server, PolicyOf(args.line, args.alwaysKeep.value), now, args.line.dryRun);
      && gitlab.calls == r.calls && gitlab.log == r.events && error == r.error
  {
    gitlab := new Cleanup.Gitlab(args.line.gitlabUrl, args.gitlabAccessToken.value, server, args.line.dryRun);
    var protection := KeepFlags(args.alwaysKeep.value);
    error := gitlab.DeleteOldArtifacts(Cleanup.Many(args.line.repositoryPaths), args.line.daysToKeep, now,
      keepLatestBranchCommit := protection.latestBranchCommit, keepTags := protection.tags,
      deleteLogs := args.line.deleteLogs);
  }

  /** The exception a cleanup run raises. */
  function RunException(e: Cleanup.RunError): Exception {
    match e
    case ProjectGetError(path) => ProjectException(path)
    case KeepTimedeltaOverflow(days) => OverflowException(days)
  }

  /** The retention settings of a run. */
  function PolicyOf(line: CommandLine, k: Config.KeepArtifacts): Cleanup.Policy {
    Cleanup.Policy(line.daysToKeep, KeepFlags(k).latestBranchCommit, KeepFlags(k).tags, line.deleteLogs)
  }

  /** How `main` ends: `sys.exit` with a code, or an exception it lets
      through. */
  datatype Outcome = Exited(code: int) | Raised(exception: Exception)

  /** What `main` did besides ending. */
  datatype Action = NoAction | PrintVersion | WriteDefaultConfig | CleanArtifacts

  /** A message `main` logs: one of the cleanup run's, the `logger.error`
      line of a caught exception, or the note that the default
      configuration file was written. */
  datatype LogEntry =
    | RunMessage(event: Cleanup.Event)
    | CaughtError(exception: Exception)
    | WroteDefaultConfigFile(path: string)

  /** The cleanup run's messages, in order, as entries of `main`'s log. */
  function RunMessages(events: seq<Cleanup.Event>): (r: seq<LogEntry>)
    ensures |r| == |events| && forall i :: 0 <= i < |events| ==> r[i] == RunMessage(events[i])
  {
    if |events| == 0 then []
    else RunMessages(events[..|events| - 1]) + [RunMessage(events[|events| - 1])]
  }

  /** The handler logs the error of an exception it catches; any other
      exception escapes without a message. */
  function HandlerLog(e: Exception): seq<LogEntry> {
    if IsExpected(e) then [CaughtError(e)] else []
  }

  datatype MainResult = MainResult(outcome: Outcome, action: Action, calls: seq<Cleanup.Call>, log: seq<LogEntry>)

  /** The handler of `main`: a caught exception is re-raised at DEBUG
      verbosity once the arguments were parsed, else it ends the program
      with its code. */
  function Caught(e: Exception, parsedVerbosity: Option<Config.Verbosity>): Outcome {
    if !IsExpected(e) then Raised(e)
    else if parsedVerbosity == Some(Config.Debug) then Raised(e)
    else Exited(ExitCodeOf(e))
  }

  function MainSpec(line: CommandLine, settings: Settings, terminal: Terminal, server: Cleanup.Server, now: int,
                    serverFailure: Option<ServerFailure>): MainResult
  {
    var p := ParseArgumentsSpec(line, settings, terminal);
    if p.error.Some? then MainResult(Caught(p.error.value, None), NoAction, [], HandlerLog(p.error.value))
    else if line.printVersion then MainResult(Exited(0), PrintVersion, [], [])
    else
      var v := p.verbosityLevel.value;
      match SetupStderrLogging(v)
      case Err(e) => MainResult(Raised(e), NoAction, [], [])
      case Ok(_) =>
        if line.writeDefaultConfig then
          MainResult(Exited(0), WriteDefaultConfig, [], [WroteDefaultConfigFile(Config.DefaultConfigFilepath)])
        else if Cleanup.KeepTimedeltaOverflows(line.daysToKeep) then
          MainResult(Raised(OverflowException(line.daysToKeep)), CleanArtifacts, [], [])
        else if serverFailure.Some? then
          MainResult(Caught(ServerException(serverFailure.value), Some(v)), CleanArtifacts, [],
            HandlerLog(ServerException(serverFailure.value)))
        else
          var r := Cleanup.Run(line.repositoryPaths, server, PolicyOf(line, p.alwaysKeep.value), now, line.dryRun);
          var outcome := if r.error.Some? then Caught(RunException(r.error.value), Some(v)) else Exited(0);
          var handled := if r.error.Some? then HandlerLog(RunException(r.error.value)) else [];
          MainResult(outcome, CleanArtifacts, r.calls, RunMessages(r.events) + handled)
  }

  /** `main`. The verbosity level's logging setup comes before writing the
      default configuration; a day count a `timedelta` cannot hold raises
      before any request, and a server failure before any project is
      scanned. */
  method RunMain(line: CommandLine, settings: Settings, terminal: Terminal, server: Cleanup.Server, now: int,
                 serverFailure: Option<ServerFailure>)
    returns (outcome: Outcome, action: Action, log: seq<LogEntry>, ghost calls: seq<Cleanup.Call>)
    ensures var m := MainSpec(line, settings, terminal, server, now, serverFailure);
      outcome == m.outcome && action == m.action && log == m.log
    ensures calls == MainSpec(line, settings, terminal, server, now, serverFailure).calls
  {
    action, log, calls := NoAction, [], [];
    var args, error := ParseArguments(line, settings, terminal);
    if error.Some? {
      log := log + HandlerLog(error.value);
      outcome := Caught(error.value, None);
      if outcome.Exited? {
        var code := SelectExitCode(error.value);
        outcome := Exited(code);
      }
      return;
    }
    if line.printVersion {
      outcome, action := Exited(0), PrintVersion;
      return;
    }
    var verbosity := args.verbosityLevel.value;
    var logging := SetupStderrLogging(verbosity);
    if logging.Err? {
      outcome := Raised(logging.error);
      return;
    }
    if line.writeDefaultConfig {
      log := log + [WroteDefaultConfigFile(Config.DefaultConfigFilepath)];
      outcome, action := Exited(0), WriteDefaultConfig;
      return;
    }
    action := CleanArtifacts;
    if Cleanup.KeepTimedeltaOverflows(line.daysToKeep) {
      outcome := Raised(OverflowException(line.daysToKeep));
      return;
    }
    if serverFailure.Some? {
      log := log + HandlerLog(ServerException(serverFailure.value));
      outcome := Caught(ServerException(serverFailure.value), Some(verbosity));
      if outcome.Exited? {
        var code := SelectExitCode(ServerException(serverFailure.value));
        outcome := Exited(code);
      }
      return;
    }
    var gitlab, runError := HandleCleanArtifacts(args, server, now);
    log, calls := RunMessages(gitlab.log), gitlab.calls;
    if runError.Some? {
      log := log + HandlerLog(RunException(runError.value));
      outcome := Caught(RunException(runError.value), Some(verbosity));
      if outcome.Exited? {
        var code := SelectExitCode(RunException(runError.value));
        outcome := Exited(code);
      }
    } else {
      outcome := Exited(0);
    }
  }

  /** A bad argument ends the program with code 3, even with `--debug`:
      the handler re-raises only after the arguments were parsed. */
  lemma ArgumentErrorExitsThree(line: CommandLine, settings: Settings, terminal: Terminal, server: Cleanup.Server, now: int,
                                serverFailure: Option<ServerFailure>)
    requires ParseArgumentsSpec(line, settings, terminal).error.Some?
    requires ParseArgumentsSpec(line, settings, terminal).error.value.ArgumentException?
    ensures MainSpec(line, settings, terminal, server, now, serverFailure).outcome == Exited(3)
    ensures MainSpec(line, settings, terminal, server, now, serverFailure).calls == []
    ensures MainSpec(line, settings, terminal, server, now, serverFailure).log
      == [CaughtError(ParseArgumentsSpec(line, settings, terminal).error.value)]
  {
  }

  /** A run that completes exits with 0, after exactly the calls and
      messages of the cleanup run with the mode's protection switches. */
  lemma NormalCompletionExitsZero(line: CommandLine, settings: Settings, terminal: Terminal, server: Cleanup.Server, now: int)
    requires !line.printVersion && !line.writeDefaultConfig
    requires ParseArgumentsSpec(line, settings, terminal).error.None?
    requires ResolveVerbosity(line.verbosityFlags, settings.verbosity) != Config.Error
    requires line.daysToKeep <= Cleanup.MaxTimedeltaDays
    requires forall i :: 0 <= i < |line.repositoryPaths| ==> line.repositoryPaths[i] in server.projects
    ensures var m := MainSpec(line, settings, terminal, server, now, None);
      var k := ParseArgumentsSpec(line, settings, terminal).alwaysKeep.value;
      var r := Cleanup.Run(line.repositoryPaths, server, PolicyOf(line, k), now, line.dryRun);
      && m.outcome == Exited(0) && m.action == CleanArtifacts
      && m.calls == r.calls && m.log == RunMessages(r.events)
  {
    var k := ParseArgumentsSpec(line, settings, terminal).alwaysKeep.value;
    Cleanup.AllFoundNoError(line.repositoryPaths, server, PolicyOf(line, k), now, line.dryRun);
  }

  /** A repository the server does not know ends the program with 6, or
      re-raises the error at DEBUG verbosity. */
  lemma MissingProjectOutcome(line: CommandLine, settings: Settings, terminal: Terminal, server: Cleanup.Server, now: int, i: nat)
    requires !line.printVersion && !line.writeDefaultConfig
    requires ParseArgumentsSpec(line, settings, terminal).error.None?
    requires ResolveVerbosity(line.verbosityFlags, settings.verbosity) != Config.Error
    requires line.daysToKeep <= Cleanup.MaxTimedeltaDays
    requires i < |line.repositoryPaths| && line.repositoryPaths[i] !in server.projects
    requires forall j :: 0 <= j < i ==> line.repositoryPaths[j] in server.projects
    ensures var m := MainSpec(line, settings, terminal, server, now, None);
      var e := ProjectException(line.repositoryPaths[i]);
      && (if ResolveVerbosity(line.verbosityFlags, settings.verbosity) == Config.Debug then m.outcome == Raised(e)
          else m.outcome == Exited(6))
      && |m.log| > 0 && m.log[|m.log| - 1] == CaughtError(e)
  {
    var k := ParseArgumentsSpec(line, settings, terminal).alwaysKeep.value;
    Cleanup.FirstMissingPathRaises(line.repositoryPaths, i, server, PolicyOf(line, k), now, line.dryRun);
  }

  /** A day count above what a `timedelta` holds passes validation, which
      only rejects negative counts, but the run raises `OverflowError`
      before any project is scanned. `main` does not catch it, so it
      escapes at every verbosity, with no call made and nothing logged,
      before any request could fail on the server. */
  lemma DaysOverflowRaises(line: CommandLine, settings: Settings, terminal: Terminal, server: Cleanup.Server, now: int,
                           serverFailure: Option<ServerFailure>)
    requires !line.printVersion && !line.writeDefaultConfig
    requires ParseArgumentsSpec(line, settings, terminal).error.None?
    requires ResolveVerbosity(line.verbosityFlags, settings.verbosity) != Config.Error
    ensures var m := MainSpec(line, settings, terminal, server, now, serverFailure);
      && (m.outcome == Raised(OverflowException(line.daysToKeep)) <==> line.daysToKeep > Cleanup.MaxTimedeltaDays)
      && (line.daysToKeep > Cleanup.MaxTimedeltaDays ==> m.calls == [] && m.log == [])
  {
    var k := ParseArgumentsSpec(line, settings, terminal).alwaysKeep.value;
    var policy := PolicyOf(line, k);
    Cleanup.OverflowScansNothing(line.repositoryPaths, server, policy, now, line.dryRun);
  }

  /** Writing the default configuration exits with 0 after logging the
      file's path, and cleans nothing. */
  lemma WriteDefaultConfigOutcome(line: CommandLine, settings: Settings, terminal: Terminal, server: Cleanup.Server, now: int,
                                  serverFailure: Option<ServerFailure>)
    requires !line.printVersion && line.writeDefaultConfig
    requires ParseArgumentsSpec(line, settings, terminal).error.None?
    requires ResolveVerbosity(line.verbosityFlags, settings.verbosity) != Config.Error
    ensures var m := MainSpec(line, settings, terminal, server, now, serverFailure);
      && m.outcome == Exited(0) && m.action == WriteDefaultConfig && m.calls == []
      && m.log == [WroteDefaultConfigFile(Config.DefaultConfigFilepath)]
  {
  }

  /** The error verbosity level, from a flag or the configuration, is not
      implemented: once past `--version`, `main` lets the exception
      through, before any file is written or any project scanned. */
  lemma ErrorVerbosityRaises(line: CommandLine, settings: Settings, terminal: Terminal, server: Cleanup.Server, now: int,
                             serverFailure: Option<ServerFailure>)
    requires !line.printVersion
    requires ResolveVerbosity(line.verbosityFlags, settings.verbosity) == Config.Error
    requires ParseArgumentsSpec(line, settings, terminal).error.None?
    ensures var m := MainSpec(line, settings, terminal, server, now, serverFailure);
      m.outcome == Raised(NotImplementedException(Config.Error)) && m.action == NoAction && m.calls == [] && m.log == []
  {
  }

  /** With a day count a `timedelta` holds, a server failure exits with 4
      (authentication) or 5 (listing), or is re-raised at DEBUG verbosity. */
  lemma ServerFailureOutcome(line: CommandLine, settings: Settings, terminal: Terminal, server: Cleanup.Server, now: int,
                             f: ServerFailure)
    requires !line.printVersion && !line.writeDefaultConfig
    requires ParseArgumentsSpec(line, settings, terminal).error.None?
    requires ResolveVerbosity(line.verbosityFlags, settings.verbosity) != Config.Error
    requires line.daysToKeep <= Cleanup.MaxTimedeltaDays
    ensures var m := MainSpec(line, settings, terminal, server, now, Some(f));
      && (if ResolveVerbosity(line.verbosityFlags, settings.verbosity) == Config.Debug then m.outcome == Raised(ServerException(f))
          else m.outcome == Exited(if f == AuthenticationFailed then 4 else 5))
      && m.log == [CaughtError(ServerException(f))] && m.calls == []
  {
  }
}
