/** The configuration of the cleanup tool: the enumerations of verbosity
    levels and of the artifacts always kept, their lower-case choice lists,
    the built-in defaults, and a `Config` object over the stored
    (section, option) values whose properties normalise the raw strings. */
module Config {
  import opened Wrappers
  import Text

  // ---------------------------------------------------------------------
  // Enumerations and their choice lists

  /** The verbosity levels, from quietest to most verbose. */
  datatype Verbosity = Quiet | Error | Warn | Verbose | Debug

  /** The members in declaration order. */
  const Verbosities: seq<Verbosity> := [Quiet, Error, Warn, Verbose, Debug]

  /** The position of `v` in declaration order. */
  function VerbosityRank(v: Verbosity): (r: nat)
    ensures r < |Verbosities| && Verbosities[r] == v
  {
    match v
    case Quiet => 0
    case Error => 1
    case Warn => 2
    case Verbose => 3
    case Debug => 4
  }

  function VerbosityName(v: Verbosity): string {
    match v
    case Quiet => "QUIET"
    case Error => "ERROR"
    case Warn => "WARN"
    case Verbose => "VERBOSE"
    case Debug => "DEBUG"
  }

  /** `Verbosity[name]`: the member with exactly that name, if any. */
  function VerbosityByName(name: string): Option<Verbosity> {
    if name == "QUIET" then Some(Quiet)
    else if name == "ERROR" then Some(Error)
    else if name == "WARN" then Some(Warn)
    else if name == "VERBOSE" then Some(Verbose)
    else if name == "DEBUG" then Some(Debug)
    else None
  }

  /** The lower-cased names of `vs`, in order. */
  function LowerVerbosityNames(vs: seq<Verbosity>): (r: seq<string>)
    ensures |r| == |vs| && forall i :: 0 <= i < |vs| ==> r[i] == Text.Lower(VerbosityName(vs[i]))
  {
    if |vs| == 0 then [] else LowerVerbosityNames(vs[..|vs| - 1]) + [Text.Lower(VerbosityName(vs[|vs| - 1]))]
  }

  /** `VERBOSITY_CHOICES`: the lower-cased member names in declaration order. */
  const VerbosityChoices: seq<string> := LowerVerbosityNames(Verbosities)

  /** Which artifacts are kept regardless of their age. */
  datatype KeepArtifacts = KeepNone | KeepBranch | KeepTag | KeepBranchAndTag

  const KeepArtifactsMembers: seq<KeepArtifacts> := [KeepNone, KeepBranch, KeepTag, KeepBranchAndTag]

  function KeepArtifactsRank(k: KeepArtifacts): (r: nat)
    ensures r < |KeepArtifactsMembers| && KeepArtifactsMembers[r] == k
  {
    match k
    case KeepNone => 0
    case KeepBranch => 1
    case KeepTag => 2
    case KeepBranchAndTag => 3
  }

  function KeepArtifactsName(k: KeepArtifacts): string {
    match k
    case KeepNone => "NONE"
    case KeepBranch => "BRANCH_ARTIFACTS"
    case KeepTag => "TAG_ARTIFACTS"
    case KeepBranchAndTag => "BRANCH_AND_TAG_ARTIFACTS"
  }

  /** `KeepArtifacts[name]` */
  function KeepArtifactsByName(name: string): Option<KeepArtifacts> {
    if name == "NONE" then Some(KeepNone)
    else if name == "BRANCH_ARTIFACTS" then Some(KeepBranch)
    else if name == "TAG_ARTIFACTS" then Some(KeepTag)
    else if name == "BRANCH_AND_TAG_ARTIFACTS" then Some(KeepBranchAndTag)
    else None
  }

  function LowerKeepArtifactsNames(ks: seq<KeepArtifacts>): (r: seq<string>)
    ensures |r| == |ks| && forall i :: 0 <= i < |ks| ==> r[i] == Text.Lower(KeepArtifactsName(ks[i]))
  {
    if |ks| == 0 then [] else LowerKeepArtifactsNames(ks[..|ks| - 1]) + [Text.Lower(KeepArtifactsName(ks[|ks| - 1]))]
  }

  /** `KEEP_ARTIFACTS_CHOICES` */
  const KeepArtifactsChoices: seq<string> := LowerKeepArtifactsNames(KeepArtifactsMembers)

  /** The choices of the verbosity option, written out. */
  lemma VerbosityChoicesValue()
    ensures VerbosityChoices == ["quiet", "error", "warn", "verbose", "debug"]
  {
    assert Text.Lower("QUIET") == "quiet";
    assert Text.Lower("ERROR") == "error";
    assert Text.Lower("WARN") == "warn";
    assert Text.Lower("VERBOSE") == "verbose";
    assert Text.Lower("DEBUG") == "debug";
  }

  /** The lower-cased name of each always-keep mode. */
  lemma LowerKeepArtifactsName(k: KeepArtifacts)
    ensures Text.Lower(KeepArtifactsName(k)) == match k
      case KeepNone => "none"
      case KeepBranch => "branch_artifacts"
      case KeepTag => "tag_artifacts"
      case KeepBranchAndTag => "branch_and_tag_artifacts"
  {
    var t := Text.Lower(KeepArtifactsName(k));
    match k
    case KeepNone =>
    case KeepBranch =>
      assert t == "branch_artifacts";
    case KeepTag =>
      assert t == "tag_artifacts";
    case KeepBranchAndTag =>
      LowerBranchAndTagName();
  }

  lemma LowerBranchAndTagName()
    ensures Text.Lower("BRANCH_AND_TAG_ARTIFACTS") == "branch_and_tag_artifacts"
  {
  }

  /** The choices of the always-keep option, written out. */
  lemma KeepArtifactsChoicesValue()
    ensures KeepArtifactsChoices == ["none", "branch_artifacts", "tag_artifacts", "branch_and_tag_artifacts"]
  {
    var c := KeepArtifactsChoices;
    LowerKeepArtifactsName(KeepNone);
    LowerKeepArtifactsName(KeepBranch);
    LowerKeepArtifactsName(KeepTag);
    LowerKeepArtifactsName(KeepBranchAndTag);
    assert |c| == 4;
    assert c[0] == "none" && c[1] == "branch_artifacts";
    assert c[2] == "tag_artifacts" && c[3] == "branch_and_tag_artifacts";
  }

  // ---------------------------------------------------------------------
  // Errors of the configuration properties

  /** The stored location of one option. */
  datatype Key = Key(section: string, option: string)

  datatype ConfigError =
    | UnknownAlwaysKeep(value: Option<string>, listedChoices: seq<string>)
    | UnknownVerbosityLevel(value: Option<string>, listedChoices: seq<string>)
      /** `getint`/`getboolean` could not convert the stored value, or the
          option is present without a value. */
    | InvalidValue(key: Key)

  /** The `verbosity` property's normalisation: a stored string that is one
      of the choices (case-sensitively) names the member of that name;
      anything else is an `UnknownVerbosityLevelError` listing the choices. */
  function ParseVerbosity(value: Option<string>): Result<Verbosity, ConfigError> {
    if value.Some? && value.value in VerbosityChoices then
      match VerbosityByName(Text.Upper(value.value))
      case Some(v) => Ok(v)
      case None => Err(UnknownVerbosityLevel(value, VerbosityChoices))  // a KeyError: unreachable, see VerbosityNamesRoundTrip
    else Err(UnknownVerbosityLevel(value, VerbosityChoices))
  }

  /** The `always_keep` property's normalisation, with the choices listed in
      the error being the always-keep choices. */
  function ParseAlwaysKeep(value: Option<string>): Result<KeepArtifacts, ConfigError> {
    if value.Some? && value.value in KeepArtifactsChoices then
      match KeepArtifactsByName(Text.Upper(value.value))
      case Some(k) => Ok(k)
      case None => Err(UnknownAlwaysKeep(value, KeepArtifactsChoices))  // a KeyError: unreachable, see KeepArtifactsNamesRoundTrip
    else Err(UnknownAlwaysKeep(value, KeepArtifactsChoices))
  }

  /** The `always_keep` property as the source writes it: the error lists
      the verbosity choices instead of the always-keep choices. */
  function ParseAlwaysKeepAsWritten(value: Option<string>): Result<KeepArtifacts, ConfigError> {
    if value.Some? && value.value in KeepArtifactsChoices then
      match KeepArtifactsByName(Text.Upper(value.value))
      case Some(k) => Ok(k)
      case None => Err(UnknownAlwaysKeep(value, VerbosityChoices))  // a KeyError: unreachable, see KeepArtifactsNamesRoundTrip
    else Err(UnknownAlwaysKeep(value, VerbosityChoices))
  }

  lemma VerbosityNamesRoundTrip(v: Verbosity)
    ensures Text.HasNoLowerCase(VerbosityName(v))
    ensures Text.Upper(Text.Lower(VerbosityName(v))) == VerbosityName(v)
    ensures VerbosityByName(VerbosityName(v)) == Some(v)
  {
    Text.UpperOfLower(VerbosityName(v));
  }

  lemma KeepArtifactsNamesRoundTrip(k: KeepArtifacts)
    ensures Text.HasNoLowerCase(KeepArtifactsName(k))
    ensures Text.Upper(Text.Lower(KeepArtifactsName(k))) == KeepArtifactsName(k)
    ensures KeepArtifactsByName(KeepArtifactsName(k)) == Some(k)
  {
    Text.UpperOfLower(KeepArtifactsName(k));
  }

  /** A stored verbosity is accepted exactly when it is the lower-cased name
      of a level, and then it gives that level; the match is therefore
      case-sensitive. */
  lemma ParseVerbosityIff(s: string, v: Verbosity)
    ensures ParseVerbosity(Some(s)) == Ok(v) <==> s == Text.Lower(VerbosityName(v))
    ensures ParseVerbosity(Some(s)).Err? <==> s !in VerbosityChoices
  {
    VerbosityChoicesValue();
    VerbosityNamesRoundTrip(v);
    forall w: Verbosity ensures s == Text.Lower(VerbosityName(w)) ==> ParseVerbosity(Some(s)) == Ok(w) {
      VerbosityNamesRoundTrip(w);
      assert VerbosityChoices[VerbosityRank(w)] == Text.Lower(VerbosityName(w));
    }
    if s in VerbosityChoices {
      var i :| 0 <= i < |VerbosityChoices| && VerbosityChoices[i] == s;
      VerbosityNamesRoundTrip(Verbosities[i]);
    }
  }

  /** A stored always-keep value is accepted exactly when it is the
      lower-cased name of a mode, and then it gives that mode. */
  lemma ParseAlwaysKeepIff(s: string, k: KeepArtifacts)
    ensures ParseAlwaysKeep(Some(s)) == Ok(k) <==> s == Text.Lower(KeepArtifactsName(k))
    ensures ParseAlwaysKeep(Some(s)).Err? <==> s !in KeepArtifactsChoices
  {
    KeepArtifactsChoicesValue();
    KeepArtifactsNamesRoundTrip(k);
    forall w: KeepArtifacts ensures s == Text.Lower(KeepArtifactsName(w)) ==> ParseAlwaysKeep(Some(s)) == Ok(w) {
      KeepArtifactsNamesRoundTrip(w);
      assert KeepArtifactsChoices[KeepArtifactsRank(w)] == Text.Lower(KeepArtifactsName(w));
    }
    if s in KeepArtifactsChoices {
      var i :| 0 <= i < |KeepArtifactsChoices| && KeepArtifactsChoices[i] == s;
      KeepArtifactsNamesRoundTrip(KeepArtifactsMembers[i]);
    }
  }

  /** Upper-case spellings of valid values are rejected. */
  lemma ParsingIsCaseSensitive()
    ensures ParseVerbosity(Some("DEBUG")).Err?
    ensures ParseAlwaysKeep(Some("NONE")).Err?
  {
    VerbosityChoicesValue();
    KeepArtifactsChoicesValue();
  }

  /** The corrected error lists exactly the accepted values. */
  lemma AlwaysKeepErrorListsValidChoices(value: Option<string>, c: string)
    requires ParseAlwaysKeep(value).Err?
    ensures c in ParseAlwaysKeep(value).error.listedChoices <==> ParseAlwaysKeep(Some(c)).Ok?
  {
    ParseAlwaysKeepIff(c, KeepNone);
  }

  /** The error as written lists "quiet", which is rejected, and omits
      "none", which is accepted; e.g. for the stored value "all". */
  lemma AlwaysKeepErrorAsWrittenMisleads()
    ensures ParseAlwaysKeepAsWritten(Some("all")).Err?
    ensures "quiet" in ParseAlwaysKeepAsWritten(Some("all")).error.listedChoices
    ensures ParseAlwaysKeep(Some("quiet")).Err?
    ensures "none" !in ParseAlwaysKeepAsWritten(Some("all")).error.listedChoices
    ensures ParseAlwaysKeep(Some("none")) == Ok(KeepNone)
  {
    VerbosityChoicesValue();
    KeepArtifactsChoicesValue();
    assert "all" !in KeepArtifactsChoices && "quiet" !in KeepArtifactsChoices;
    assert ParseAlwaysKeepAsWritten(Some("all")) == Err(UnknownAlwaysKeep(Some("all"), VerbosityChoices));
    assert "none" in KeepArtifactsChoices && "none" !in VerbosityChoices;
    KeepArtifactsNamesRoundTrip(KeepNone);
  }

  // ---------------------------------------------------------------------
  // Built-in defaults

  /** `f"{text:{fill}^{width}}"`: `text` centred in `width` characters, the
      odd padding character going to the right. */
  function Center(text: string, width: nat, fill: char): string {
    if |text| >= width then text
    else
      var pad := width - |text|;
      seq(pad / 2, _ => fill) + text + seq(pad - pad / 2, _ => fill)
  }

  /** The access token written into a fresh configuration file. */
  const AccessTokenPlaceholder: string := Center(" REPLACE OR DELETE ME! ", 40, 'x')

  /** A shorter text is centred: `width` characters, the text at offset
      half the padding, the fill character around it, one more of it on
      the right when the padding is odd. */
  lemma CenterLayout(text: string, width: nat, fill: char)
    requires |text| < width
    ensures var r := Center(text, width, fill); var left := (width - |text|) / 2;
      && |r| == width && r[left..left + |text|] == text
      && (forall i :: 0 <= i < left ==> r[i] == fill)
      && (forall i :: left + |text| <= i < width ==> r[i] == fill)
      && width - |text| - left - left <= 1 && left <= width - |text| - left
  {
    var r := Center(text, width, fill);
    var left := (width - |text|) / 2;
    assert r[left..left + |text|] == text;
  }

  /** The placeholder is the message centred in 40 characters: 8 fill
      characters on the left and 9 on the right. */
  lemma AccessTokenPlaceholderLayout()
    ensures var r := AccessTokenPlaceholder;
      && |r| == 40 && r[8..31] == " REPLACE OR DELETE ME! "
      && (forall i :: 0 <= i < 8 ==> r[i] == 'x')
      && (forall i :: 31 <= i < 40 ==> r[i] == 'x')
  {
    var text := " REPLACE OR DELETE ME! ";
    assert |text| == 23;
    CenterLayout(text, 40, 'x');
  }

  const VerbosityKey := Key("general", "verbosity")
  const UrlKey := Key("gitlab", "url")
  const AccessTokenKey := Key("gitlab", "access_token")
  const RepositoryPathsKey := Key("cleanup", "repository_paths")
  const AlwaysKeepKey := Key("cleanup", "always_keep")
  const DaysToKeepKey := Key("cleanup", "days_to_keep")
  const DeleteLogsKey := Key("cleanup", "delete_logs")

  /** `CONFIG_FILEPATH`, before the home directory is expanded. */
  const DefaultConfigFilepath := "~/.gitlab-artifact-cleanuprc"

  const DefaultVerbosity := "verbose"
  const DefaultUrl := "https://gitlab.com/"
  const DefaultRepositoryPaths := ""
  const DefaultAlwaysKeep := "branch_and_tag_artifacts"
  const DefaultDaysToKeep: int := 7
  const DefaultDeleteLogs := false

  /** Stored values: an option read without a value is `None`. */
  type Store = map<Key, Option<string>>

  /** `_default_config` as `read_dict` stores it: every value turned into
      its string form. */
  const DefaultConfig: Store := map[
    VerbosityKey := Some(DefaultVerbosity),
    UrlKey := Some(DefaultUrl),
    AccessTokenKey := Some(AccessTokenPlaceholder),
    RepositoryPathsKey := Some(DefaultRepositoryPaths),
    AlwaysKeepKey := Some(DefaultAlwaysKeep),
    DaysToKeepKey := Some("7"),
    DeleteLogsKey := Some("False")
  ]

  /** `getboolean`'s conversion: the eight words ConfigParser knows, in any
      letter case. */
  function ParseBoolean(value: string): Option<bool> {
    var v := Text.Lower(value);
    if v in {"1", "yes", "true", "on"} then Some(true)
    else if v in {"0", "no", "false", "off"} then Some(false)
    else None
  }

  /** `getboolean` ignores the letter case of the stored word. */
  lemma ParseBooleanIgnoresCase(s: string)
    ensures ParseBoolean(Text.Upper(s)) == ParseBoolean(s)
    ensures ParseBoolean(Text.Lower(s)) == ParseBoolean(s)
  {
    assert Text.Lower(Text.Upper(s)) == Text.Lower(s) by {
      forall i | 0 <= i < |s| ensures Text.Lower(Text.Upper(s))[i] == Text.Lower(s)[i] {}
    }
    assert Text.Lower(Text.Lower(s)) == Text.Lower(s) by {
      forall i | 0 <= i < |s| ensures Text.Lower(Text.Lower(s))[i] == Text.Lower(s)[i] {}
    }
  }

  /** The result of reading the file at `path` into `store`: the file's
      options override, a path with no file behind it changes nothing. */
  function Merged(store: Store, path: Option<string>, files: map<string, Store>): Store {
    if path.Some? && path.value in files then store + files[path.value] else store
  }

  // ---------------------------------------------------------------------
  // The configuration object

  class Config {
    var configFilepath: Option<string>
    var store: Store

    /** Starts from the defaults and reads the file at `configFilepath`. */
    constructor (files: map<string, Store>, configFilepath: Option<string> := Some(DefaultConfigFilepath))
      ensures this.configFilepath == configFilepath
      ensures store == Merged(DefaultConfig, configFilepath, files)
    {
      this.configFilepath := configFilepath;
      store := DefaultConfig;
      new;
      ReadConfig(files);
    }

    /** `read_config`: a given path replaces the stored one; the file is
        read only when a path is set. */
    method ReadConfig(files: map<string, Store>, configFilepath: Option<string> := None)
      modifies this
      ensures this.configFilepath == if configFilepath.Some? then configFilepath else old(this.configFilepath)
      ensures store == Merged(old(store), this.configFilepath, files)
    {
      if configFilepath.Some? {
        this.configFilepath := configFilepath;
      }
      if this.configFilepath.Some? {
        store := Merged(store, this.configFilepath, files);
      }
    }

    /** `section.get(option, fallback=...)` */
    function Get(key: Key, fallback: Option<string>): Option<string>
      reads this
    {
      if key in store then store[key] else fallback
    }

    function AlwaysKeep(): Result<KeepArtifacts, ConfigError>
      reads this
    {
      ParseAlwaysKeep(Get(AlwaysKeepKey, Some(DefaultAlwaysKeep)))
    }

    function VerbosityLevel(): Result<Verbosity, ConfigError>
      reads this
    {
      ParseVerbosity(Get(VerbosityKey, Some(DefaultVerbosity)))
    }

    /** `getint` with the default 7 when the option is absent. */
    function DaysToKeep(): Result<int, ConfigError>
      reads this
    {
      if DaysToKeepKey !in store then Ok(DefaultDaysToKeep)
      else match store[DaysToKeepKey]
        case None => Err(InvalidValue(DaysToKeepKey))
        case Some(s) =>
          match Text.ParseInt(s)
          case Some(n) => Ok(n)
          case None => Err(InvalidValue(DaysToKeepKey))
    }

    /** `getboolean` with the default false when the option is absent. */
    function DeleteLogs(): Result<bool, ConfigError>
      reads this
    {
      if DeleteLogsKey !in store then Ok(DefaultDeleteLogs)
      else match store[DeleteLogsKey]
        case None => Err(InvalidValue(DeleteLogsKey))
        case Some(s) =>
          match ParseBoolean(s)
          case Some(b) => Ok(b)
          case None => Err(InvalidValue(DeleteLogsKey))
    }

    function GitlabUrl(): Option<string>
      reads this
    {
      Get(UrlKey, Some(DefaultUrl))
    }

    /** The access token, or `None` when it is missing, empty or still the
        placeholder. */
    function GitlabAccessToken(): Option<string>
      reads this
    {
      var token := Get(AccessTokenKey, None);
      if token.None? || token.value == "" || token.value == AccessTokenPlaceholder then None else token
    }

    /** The whitespace-separated repository paths, or `None` when the stored
        string is empty. */
    function RepositoryPaths(): Option<seq<string>>
      reads this
    {
      var paths := Get(RepositoryPathsKey, Some(DefaultRepositoryPaths));
      if paths.None? || paths.value == "" then None else Some(Text.Split(paths.value))
    }

    /** The path of the configuration file; the source asserts one is set. */
    function ConfigFilepath(): string
      requires configFilepath.Some?
      reads this
    {
      configFilepath.value
    }
  }

  // ---------------------------------------------------------------------
  // Properties of the configuration object

  /** The entries of the defaults table. */
  lemma DefaultConfigEntries()
    ensures DefaultConfig.Keys == {VerbosityKey, UrlKey, AccessTokenKey, RepositoryPathsKey,
      AlwaysKeepKey, DaysToKeepKey, DeleteLogsKey}
    ensures DefaultConfig[VerbosityKey] == Some(DefaultVerbosity)
    ensures DefaultConfig[UrlKey] == Some(DefaultUrl)
    ensures DefaultConfig[AccessTokenKey] == Some(AccessTokenPlaceholder)
    ensures DefaultConfig[RepositoryPathsKey] == Some(DefaultRepositoryPaths)
    ensures DefaultConfig[AlwaysKeepKey] == Some(DefaultAlwaysKeep)
    ensures DefaultConfig[DaysToKeepKey] == Some("7")
    ensures DefaultConfig[DeleteLogsKey] == Some("False")
  {
  }

  /** With nothing read beyond the defaults, every string property gives
      its default, and neither a token nor repository paths are set. */
  lemma DefaultProperties(c: Config)
    requires c.store == DefaultConfig
    ensures c.VerbosityLevel() == Ok(Verbose)
    ensures c.GitlabUrl() == Some("https://gitlab.com/")
    ensures c.AlwaysKeep() == Ok(KeepBranchAndTag)
    ensures c.GitlabAccessToken() == None
    ensures c.RepositoryPaths() == None
  {
    DefaultConfigEntries();
    VerbosityChoicesValue();
    KeepArtifactsChoicesValue();
    assert VerbosityChoices[VerbosityRank(Verbose)] == DefaultVerbosity;
    assert KeepArtifactsChoices[KeepArtifactsRank(KeepBranchAndTag)] == DefaultAlwaysKeep;
    ParseVerbosityIff(DefaultVerbosity, Verbose);
    ParseAlwaysKeepIff(DefaultAlwaysKeep, KeepBranchAndTag);
  }

  /** The stored defaults "7" and "False" convert to 7 and false. */
  lemma DefaultConvertedProperties(c: Config)
    requires c.store == DefaultConfig
    ensures c.DaysToKeep() == Ok(7)
    ensures c.DeleteLogs() == Ok(false)
  {
    DefaultConfigEntries();
    Text.ParseIntOfIntToString(7);
    assert Text.IntToString(7) == "7";
    assert Text.Lower("False") == "false";
  }

  /** Options that are absent altogether fall back to the same defaults. */
  lemma FallbackProperties(c: Config)
    requires c.store == map[]
    ensures c.VerbosityLevel() == Ok(Verbose)
    ensures c.GitlabUrl() == Some("https://gitlab.com/")
    ensures c.AlwaysKeep() == Ok(KeepBranchAndTag)
    ensures c.DaysToKeep() == Ok(7)
    ensures c.DeleteLogs() == Ok(false)
    ensures c.GitlabAccessToken() == None
    ensures c.RepositoryPaths() == None
  {
    ParseVerbosityIff(DefaultVerbosity, Verbose);
    ParseAlwaysKeepIff(DefaultAlwaysKeep, KeepBranchAndTag);
    VerbosityChoicesValue();
    KeepArtifactsChoicesValue();
  }

  /** The token is absent exactly when the stored one is missing, empty or
      the placeholder; otherwise it is the stored string. */
  lemma AccessTokenIff(c: Config)
    ensures c.GitlabAccessToken().None? <==>
      || AccessTokenKey !in c.store
      || c.store[AccessTokenKey] == None
      || c.store[AccessTokenKey] == Some("")
      || c.store[AccessTokenKey] == Some(AccessTokenPlaceholder)
    ensures c.GitlabAccessToken().Some? ==> Some(c.GitlabAccessToken().value) == c.store[AccessTokenKey]
  {
  }

  /** The repository paths: `None` for an empty (or value-less) option,
      otherwise the split words, which are empty exactly for a
      whitespace-only string. */
  lemma RepositoryPathsCases(c: Config, s: string)
    requires RepositoryPathsKey in c.store && c.store[RepositoryPathsKey] == Some(s)
    ensures s == "" ==> c.RepositoryPaths() == None
    ensures s != "" ==> c.RepositoryPaths() == Some(Text.Split(s))
    ensures s != "" ==> (c.RepositoryPaths() == Some([]) <==> Text.AllSpace(s))
  {
    assert c.Get(RepositoryPathsKey, Some(DefaultRepositoryPaths)) == Some(s);
    if s != "" {
      Text.SplitEmptyIff(s);
    }
  }

  /** A stored `str(n)` converts back to `n`, negative numbers included. */
  lemma DaysToKeepOfStored(c: Config, n: int)
    requires DaysToKeepKey in c.store && c.store[DaysToKeepKey] == Some(Text.IntToString(n))
    ensures c.DaysToKeep() == Ok(n)
  {
    Text.ParseIntOfIntToString(n);
  }

  /** Options read from a file override the defaults and the previously
      read options, and no option is ever removed. */
  lemma MergedOverrides(store: Store, path: string, files: map<string, Store>, key: Key)
    requires path in files
    ensures Merged(store, Some(path), files).Keys == store.Keys + files[path].Keys
    ensures key in files[path] ==> Merged(store, Some(path), files)[key] == files[path][key]
    ensures key in store && key !in files[path] ==> Merged(store, Some(path), files)[key] == store[key]
  {
  }
}
