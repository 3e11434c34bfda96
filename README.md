# gitlab-artifact-cleanup in Dafny

`gitlab-artifact-cleanup` deletes old CI/CD job artifacts from the
repositories of a GitLab server. For every repository it indexes the branch
heads and tags. It then walks the jobs and cleans every job that meets all
of these conditions:

- it has artifacts;
- it has an archive artifact, unless logs are deleted too;
- when branch heads are kept: its ref is not a branch whose head is the job's commit;
- when tags are kept: its ref is not a tag that points to the job's commit;
- it is strictly older than the retention period.

Cleaning either deletes the job's artifacts or erases the whole job together
with its log. A dry run only reports what it would do. The tool logs one
message per cleaned job, a summary per repository and, when more than one
repository was scanned, a grand total. Sizes are shown in binary units. The
settings come from an INI-style configuration file and the command line.
`main` maps the errors it expects to exit codes 3 to 6. A retention period
above 999999999 days passes the command-line check but overflows Python's
`timedelta` before any repository is scanned, and that `OverflowError`
escapes `main`.

The project has six modules:

- `Wrappers` holds `Option` and `Result`.
- `Text` models the Python string operations the core relies on:
  - `lower` and `upper` on ASCII;
  - `isspace`, `split()` and `strip()`;
  - `str(int)` and `int(str)`.
- `Util` models `human_size` (`util.py`). The unit is chosen exactly and
  the magnitude is an exact rational. The loop is a method proved against
  the unit-index function.
- `Config` models `config.py`:
  - the two enumerations and their lower-case choice tuples;
  - the defaults table, including the centred access-token placeholder;
  - a `Config` class over the stored (section, option) values, whose
    properties normalise the raw strings and return a `Result` for
    `UnknownAlwaysKeepError`, `UnknownVerbosityLevelError` and conversion
    failures.
- `Cleanup` models `artifact_cleanup.py`:
  - the server is a value: projects with branches, tags and jobs, looked up
    by path;
  - the skip guards and the reclaimed size are functions;
  - `delete_old_artifacts` is the `Gitlab` class. It records the
    destructive calls it makes (`erase` or `delete_artifacts`) and the
    messages it logs with their data. Its repository loop and job loop are
    methods proved equal to the functional `Run`.
- `Cli` models `cli.py`:
  - the verbosity-flag precedence;
  - the validation in `parse_arguments`, a method over a `Namespace` object;
  - the keep mode as two protection switches;
  - `setup_stderr_logging`, `handle_clean_artifacts`;
  - `main`'s outcome: an exit code or an exception it lets through.

Time is integer seconds. The clock and the terminal are inputs.

## Model

| member | source | states |
|---|---|---|
| `Util.UnitIndex` | gitlab_artifact_cleanup/util.py:11-19 | Defines the index of the unit the loop stops at, searching from "B". `UnitIndexIsLeast`, `UnitCapped`, `UnitIndexMonotone` and `SmallSizesInBytes` state which unit that is. |
| `Util.Magnitude` | gitlab_artifact_cleanup/util.py:13-19 | Defines the shown number: the size divided by 1024 once per unit passed, as an exact rational. `HumanSize` returns it, and `ScaleStep` relates each division to the next power. |
| `Util.PowersOf1024` | gitlab_artifact_cleanup/util.py:11-17 | The divisor of unit 0 is 1, and each next unit's divisor is 1024 times the previous one. |
| `Util.UnitIndexFrom` | gitlab_artifact_cleanup/util.py:14-19 | Searching from unit `k` gives a unit from `k` to TiB. Every skipped unit's bound 1024^(j+1) is at most the size. The chosen unit other than TiB has a bound above the size. |
| `Util.UnitIndexIsLeast` | gitlab_artifact_cleanup/util.py:11-19 | Both directions: the chosen unit is the least index below 4 whose bound exceeds the size, or TiB when there is none. |
| `Util.SmallSizesInBytes` | gitlab_artifact_cleanup/util.py:14-16 | Any size below 1024, negative ones included, is shown unscaled in "B". |
| `Util.UnitCapped` | gitlab_artifact_cleanup/util.py:18-19 | The unit is always one of the five. From 1024^4 bytes on it is "TiB". |
| `Util.UnitIndexMonotone` | gitlab_artifact_cleanup/util.py:11-19 | A larger size never gets a smaller unit. |
| `Util.ScaleStep` | gitlab_artifact_cleanup/util.py:15-17 | One more division by 1024 is a division by the next power. The scaled value is below 1024 exactly when the size is below the unit's bound. |
| `Util.HumanSize` | gitlab_artifact_cleanup/util.py:4-19 | The loop returns the unit `UnitIndex` selects and the size divided by that unit's power of 1024. |
| `Util.UnitNamesAreWords` | gitlab_artifact_cleanup/util.py:11 | Every unit name is non-empty and has no whitespace. |
| `Util.SizeText` | gitlab_artifact_cleanup/util.py:16-19 | Defines the returned text: the rendered magnitude, one space, then the name of the unit `UnitIndex` picks. `SizeTextWords` states its two words. |
| `Util.SizeTextWords` | gitlab_artifact_cleanup/util.py:16 | A whitespace-free rendered magnitude and the unit are exactly the two words of the text. |
| `Util.HumanSizeExamples` | gitlab_artifact_cleanup/util.py:4-19 | 0 bytes is 0 B, 1536 bytes is 1.5 KiB and 2^30 bytes is 1 GiB. |
| `Text.IsSpace` | gitlab_artifact_cleanup/config.py:167 | Defines `str.isspace` on one character: 0x09-0x0D, 0x1C-0x20, 0x85, 0xA0, 0x1680, 0x2000-0x200A, 0x2028, 0x2029, 0x202F, 0x205F and 0x3000. |
| `Text.Strip` | gitlab_artifact_cleanup/cli.py:191 | Defines `strip()` as `lstrip` then `rstrip`. `StripIsSlice` and `StripUnchanged` state what it returns. |
| `Text.Split` | gitlab_artifact_cleanup/config.py:167 | Defines `split()` as the leading word followed by the split of the rest. `SplitGivesWords`, `SplitEmptyIff` and `SplitJoin` state what it returns. |
| `Text.ParseInt` | gitlab_artifact_cleanup/config.py:139 | Defines `int(str)`: surrounding whitespace, an optional sign and decimal digits, else `None` for the `ValueError`. `ParseIntOfIntToString` inverts `IntToString` with it. |
| `Text.IntToString` | gitlab_artifact_cleanup/config.py:136-139 | Defines `str(int)`, the form in which a number is stored in the file. `NatToStringValue` and `ParseIntOfIntToString` state that it denotes the number, and `DaysToKeepOfStored` that `getint` reads it back. |
| `Text.Lower` | gitlab_artifact_cleanup/config.py:41 | Defines `str.lower` on ASCII letters, the form of the choice tuples. `LowerVerbosityNames`, `LowerKeepArtifactsNames` and `UpperOfLower` state its use. |
| `Text.Upper` | gitlab_artifact_cleanup/config.py:134 | Defines `str.upper` on ASCII letters, the member-name lookup. `UpperOfLower`, `VerbosityNamesRoundTrip` and `KeepArtifactsNamesRoundTrip` state that it inverts `Lower` on member names. |
| `Text.UpperOfLower` | gitlab_artifact_cleanup/config.py:134 | Upper-casing the lower-cased form of a name without lower-case letters gives the name back. |
| `Text.TrimStartIsSuffix` | gitlab_artifact_cleanup/cli.py:191 | `lstrip` leaves the suffix after the leading whitespace. |
| `Text.TrimEndIsPrefix` | gitlab_artifact_cleanup/cli.py:191 | `rstrip` leaves the prefix before the trailing whitespace. |
| `Text.StripIsSlice` | gitlab_artifact_cleanup/cli.py:191 | `strip` returns a slice of its input with only whitespace around it and no whitespace at either of its ends. |
| `Text.StripUnchanged` | gitlab_artifact_cleanup/cli.py:191 | A string with no whitespace at either end is unchanged by `strip`. |
| `Text.WordLengthIsRun` | gitlab_artifact_cleanup/config.py:167 | The leading word run has no whitespace and is followed by whitespace or the end. |
| `Text.SplitGivesWords` | gitlab_artifact_cleanup/config.py:167 | Every piece `split()` returns is non-empty and has no whitespace. |
| `Text.SplitEmptyIff` | gitlab_artifact_cleanup/config.py:167 | `split()` returns no words exactly when the string is all whitespace. |
| `Text.SplitJoin` | gitlab_artifact_cleanup/config.py:167 | Splitting words joined by single spaces gives back the same words, in order. |
| `Text.NatToStringValue` | gitlab_artifact_cleanup/config.py:139 | The digits of `str(n)` denote `n`. |
| `Text.ParseIntOfIntToString` | gitlab_artifact_cleanup/config.py:139 | `int(str(n)) == n` for every integer, negative ones included. |
| `Config.VerbosityName` | gitlab_artifact_cleanup/config.py:19-29 | Defines `.name` of each `Verbosity` member, the upper-case identifier it is declared with. `LowerVerbosityNames` and `VerbosityNamesRoundTrip` state what is built from it. |
| `Config.VerbosityByName` | gitlab_artifact_cleanup/config.py:185 | Defines `Verbosity[name]`: the member declared with exactly that name, else none (Python's `KeyError`). `VerbosityNamesRoundTrip` states that it inverts `VerbosityName`. |
| `Config.VerbosityRank` | gitlab_artifact_cleanup/config.py:19-26 | Each level sits at its own position in declaration order. |
| `Config.LowerVerbosityNames` | gitlab_artifact_cleanup/config.py:29 | One lower-cased name per level, in the given order. |
| `Config.VerbosityChoicesValue` | gitlab_artifact_cleanup/config.py:29 | `VERBOSITY_CHOICES` is ("quiet", "error", "warn", "verbose", "debug"). |
| `Config.KeepArtifactsName` | gitlab_artifact_cleanup/config.py:32-41 | Defines `.name` of each `KeepArtifacts` member, the upper-case identifier it is declared with. `LowerKeepArtifactsNames` and `KeepArtifactsNamesRoundTrip` state what is built from it. |
| `Config.KeepArtifactsByName` | gitlab_artifact_cleanup/config.py:134 | Defines `KeepArtifacts[name]`, as also used at cli.py line 184: the member declared with exactly that name, else none (Python's `KeyError`). `KeepArtifactsNamesRoundTrip` states that it inverts `KeepArtifactsName`. |
| `Config.KeepArtifactsRank` | gitlab_artifact_cleanup/config.py:32-38 | Each keep mode sits at its own position in declaration order. |
| `Config.LowerKeepArtifactsNames` | gitlab_artifact_cleanup/config.py:41 | One lower-cased name per keep mode, in the given order. |
| `Config.LowerKeepArtifactsName` | gitlab_artifact_cleanup/config.py:35-41 | The lower-cased name of each keep mode, written out. |
| `Config.KeepArtifactsChoicesValue` | gitlab_artifact_cleanup/config.py:41 | `KEEP_ARTIFACTS_CHOICES` is ("none", "branch_artifacts", "tag_artifacts", "branch_and_tag_artifacts"). |
| `Config.VerbosityNamesRoundTrip` | gitlab_artifact_cleanup/config.py:185 | `Verbosity[choice.upper()]` gives back the level the choice was made from. |
| `Config.KeepArtifactsNamesRoundTrip` | gitlab_artifact_cleanup/config.py:134 | `KeepArtifacts[choice.upper()]` gives back the mode the choice was made from. |
| `Config.ParseVerbosity` | gitlab_artifact_cleanup/config.py:177-185 | Defines the check of a stored verbosity against `VERBOSITY_CHOICES` and the member lookup. `ParseVerbosityIff` states both directions. |
| `Config.ParseAlwaysKeep` | gitlab_artifact_cleanup/config.py:127-134 | Defines the check of a stored always-keep value, with the error listing `KEEP_ARTIFACTS_CHOICES`. `ParseAlwaysKeepIff` and `AlwaysKeepErrorListsValidChoices` state its results. |
| `Config.ParseAlwaysKeepAsWritten` | gitlab_artifact_cleanup/config.py:127-134 | Defines the same check with the error listing `VERBOSITY_CHOICES`, as the code is written. `AlwaysKeepErrorAsWrittenMisleads` shows the misleading message. |
| `Config.ParseVerbosityIff` | gitlab_artifact_cleanup/config.py:170-185 | Both directions: a stored verbosity gives level `v` exactly when it is `v`'s lower-cased name. It is an error exactly when it is not one of the choices. |
| `Config.ParseAlwaysKeepIff` | gitlab_artifact_cleanup/config.py:120-134 | Both directions: a stored always-keep value gives mode `k` exactly when it is `k`'s lower-cased name. It is an error exactly when it is not one of the choices. |
| `Config.ParsingIsCaseSensitive` | gitlab_artifact_cleanup/config.py:130-185 | "DEBUG" and "NONE" are rejected, because only the lower-case spellings are choices. |
| `Config.AlwaysKeepErrorListsValidChoices` | gitlab_artifact_cleanup/config.py:130-133 | In the corrected error, a value is listed exactly when it would be accepted. |
| `Config.AlwaysKeepErrorAsWrittenMisleads` | gitlab_artifact_cleanup/config.py:130-133 | As written, the error for "all" lists "quiet", which is rejected, and omits "none", which is accepted. |
| `Config.Center` | gitlab_artifact_cleanup/config.py:53 | Defines `^` centring in a width with a fill character. `CenterLayout` states the layout. |
| `Config.CenterLayout` | gitlab_artifact_cleanup/config.py:53 | `^` centring with a fill character fills the width. The text sits at half the padding, with fill around it and the odd fill character on the right. |
| `Config.AccessTokenPlaceholderLayout` | gitlab_artifact_cleanup/config.py:53 | The placeholder is 40 characters: 8 'x', then " REPLACE OR DELETE ME! ", then 9 'x'. |
| `Config.ParseBoolean` | gitlab_artifact_cleanup/config.py:141-146 | Defines the spellings `getboolean` accepts (1, yes, true, on and 0, no, false, off, in any ASCII letter case). `DefaultConvertedProperties` applies it to the default. `ParseBooleanIgnoresCase` states that the letter case of the word does not matter. |
| `Config.ParseBooleanIgnoresCase` | gitlab_artifact_cleanup/config.py:141-146 | `getboolean` gives the same result for a stored word and for its upper-cased or lower-cased form. |
| `Config.Merged` | gitlab_artifact_cleanup/config.py:109-112 | Defines reading the file at a set path over the store. `MergedOverrides` states what is kept and what is replaced. |
| `Config.Config.constructor` | gitlab_artifact_cleanup/config.py:89-101 | The object keeps the given path, by default `~/.gitlab-artifact-cleanuprc`. The store is the defaults with the file at that path read over them. |
| `Config.Config.ReadConfig` | gitlab_artifact_cleanup/config.py:103-112 | A given path replaces the stored one. Without one, by default, the stored path stays. The file is read over the store only when a path is set. |
| `Config.Config.Get` | gitlab_artifact_cleanup/config.py:127-129 | Defines `section.get(option, fallback=...)`: the raw stored value when the option is present, else the fallback. ConfigParser's interpolation is not applied. |
| `Config.Config.VerbosityLevel` | gitlab_artifact_cleanup/config.py:170-185 | Defines the `verbosity` property. `DefaultProperties`, `FallbackProperties` and `ParseVerbosityIff` state its values. |
| `Config.Config.AlwaysKeep` | gitlab_artifact_cleanup/config.py:120-134 | Defines the `always_keep` property, with the corrected error message. `DefaultProperties`, `FallbackProperties` and `ParseAlwaysKeepIff` state its values. |
| `Config.Config.DaysToKeep` | gitlab_artifact_cleanup/config.py:136-139 | Defines the `days_to_keep` property: `getint` with the default 7, and an error for a value-less or non-integer option. `DefaultConvertedProperties` and `DaysToKeepOfStored` state its values. |
| `Config.Config.DeleteLogs` | gitlab_artifact_cleanup/config.py:141-146 | Defines the `delete_logs` property: `getboolean` with the default false. `DefaultConvertedProperties` and `FallbackProperties` state its values. |
| `Config.Config.GitlabUrl` | gitlab_artifact_cleanup/config.py:148-151 | Defines the `gitlab_url` property. `DefaultProperties` and `FallbackProperties` state its default. |
| `Config.Config.GitlabAccessToken` | gitlab_artifact_cleanup/config.py:153-159 | Defines the `gitlab_access_token` property. `AccessTokenIff` states both directions. |
| `Config.Config.RepositoryPaths` | gitlab_artifact_cleanup/config.py:161-168 | Defines the `repository_paths` property. `RepositoryPathsCases` states its cases. |
| `Config.Config.ConfigFilepath` | gitlab_artifact_cleanup/config.py:114-118 | Defines the `config_filepath` property: the stored path, which must be set, as the source asserts. The constructor and `ReadConfig` rows state how the path is set. |
| `Config.DefaultConfigEntries` | gitlab_artifact_cleanup/config.py:47-61 | The defaults table has exactly the seven options, in their string forms. |
| `Config.DefaultProperties` | gitlab_artifact_cleanup/config.py:120-168 | On the defaults: verbosity is verbose, the URL is https://gitlab.com/, the mode is branch_and_tag_artifacts, and neither a token nor repository paths are set. |
| `Config.DefaultConvertedProperties` | gitlab_artifact_cleanup/config.py:136-146 | On the defaults, `getint` gives 7 days and `getboolean` gives false. |
| `Config.FallbackProperties` | gitlab_artifact_cleanup/config.py:127-179 | With no option stored at all, every property falls back to the same defaults. |
| `Config.AccessTokenIff` | gitlab_artifact_cleanup/config.py:153-159 | Both directions: the token is absent exactly when it is missing, empty, value-less or the placeholder. Otherwise it is the stored string. |
| `Config.RepositoryPathsCases` | gitlab_artifact_cleanup/config.py:161-168 | An empty stored string gives `None`. Any other string gives its `split()` words, which are empty exactly when the string is all whitespace. |
| `Config.DaysToKeepOfStored` | gitlab_artifact_cleanup/config.py:136-139 | A stored `str(n)` reads back as `n`. |
| `Config.MergedOverrides` | gitlab_artifact_cleanup/config.py:99-112 | Reading a file overrides the options it contains, keeps every other option and removes none. |
| `Cleanup.RefIndex` | gitlab_artifact_cleanup/artifact_cleanup.py:68-69 | Defines the name-to-commit dictionary of the branches or tags, with a later name replacing an earlier one. `RefIndexNames`, `RefIndexSources` and `RefIndexLastWins` state its keys and values. |
| `Cleanup.RefIndexNames` | gitlab_artifact_cleanup/artifact_cleanup.py:68-69 | Every branch or tag name is a key of its index. |
| `Cleanup.RefIndexSources` | gitlab_artifact_cleanup/artifact_cleanup.py:68-69 | Every key of the index comes from an entry with that name and that commit. |
| `Cleanup.RefIndexLastWins` | gitlab_artifact_cleanup/artifact_cleanup.py:68-69 | When names repeat, the last entry of a name determines its commit. |
| `Cleanup.LinkedRef` | gitlab_artifact_cleanup/artifact_cleanup.py:74-77 | Defines `job_branch` and `job_tag`: the job's ref when its commit is the one the index holds for that ref. `LinkedRefIff` and `NoCommitNoLink` state when it is set. |
| `Cleanup.TooYoungToClean` | gitlab_artifact_cleanup/artifact_cleanup.py:86 | Defines the age guard: the job is at most `days_to_keep` days old. `CleanStaysCleanLater` states that a job only ages out of it. |
| `Cleanup.SkipReasonOf` | gitlab_artifact_cleanup/artifact_cleanup.py:78-88 | Defines the skip guards in the source's order. `CleanIff` states both directions. |
| `Cleanup.LinkedRefIff` | gitlab_artifact_cleanup/artifact_cleanup.py:74-77 | Both directions, for unique names: a job is linked exactly when a branch (or tag) named by its ref points to its commit. The link is the job's ref. |
| `Cleanup.NoCommitNoLink` | gitlab_artifact_cleanup/artifact_cleanup.py:74-77 | A job without a commit is linked to neither a branch nor a tag. |
| `Cleanup.ReclaimedSize` | gitlab_artifact_cleanup/artifact_cleanup.py:90-94 | Defines the reclaimed size of a job. `ReclaimedSizeSums` and `ReclaimedSizeBounds` state its value and bounds. |
| `Cleanup.CountedSize` | gitlab_artifact_cleanup/artifact_cleanup.py:90-94 | Defines one artifact's term of the sum: its size, or 0 when the size is null or when logs are kept and the artifact is not an archive. `ReclaimedSizeSums` states the sum it builds. |
| `Cleanup.Decide` | gitlab_artifact_cleanup/artifact_cleanup.py:78-117 | Defines the decision for one job: skipped with its reason, or cleaned with its description. `CleanIff` and `CleanDescription` state both. |
| `Cleanup.DescriptionText` | gitlab_artifact_cleanup/artifact_cleanup.py:99-117 | Defines `job_description`'s text. `DanglingIff` states how the link part is chosen. |
| `Cleanup.HumanSizeText` | gitlab_artifact_cleanup/artifact_cleanup.py:107-165 | Defines the `human_size(...)` text used in the job description and both summaries: `Util.SizeText` of the rendered exact magnitude. |
| `Cleanup.ReclaimedSizeSums` | gitlab_artifact_cleanup/artifact_cleanup.py:90-94 | With logs, the reclaimed size is the sum over all artifacts. Without, it is the sum over the archives. A null size counts as 0. |
| `Cleanup.ReclaimedSizeBounds` | gitlab_artifact_cleanup/artifact_cleanup.py:90-94 | With non-negative sizes, 0 ≤ the size without logs ≤ the size with logs. |
| `Cleanup.CleanIff` | gitlab_artifact_cleanup/artifact_cleanup.py:78-88 | Both directions: a job is cleaned exactly when it has artifacts, has an archive unless logs go too, is not protected as a branch head or a tag, and is strictly older than the retention period. |
| `Cleanup.CleanDescription` | gitlab_artifact_cleanup/artifact_cleanup.py:74-117 | A cleaned job's description has its id, its local creation time, its reclaimed size and its links. A kept protection implies the matching link is absent. |
| `Cleanup.CleanStaysCleanLater` | gitlab_artifact_cleanup/artifact_cleanup.py:86 | A job cleaned now would still be cleaned at any later time. |
| `Cleanup.CleanUnderWeakerProtection` | gitlab_artifact_cleanup/artifact_cleanup.py:78-88 | A job cleaned under one policy is also cleaned under any policy that deletes logs whenever the first does, keeps branch heads or tags only where the first does, and has a retention period no longer than the first. |
| `Cleanup.LinkAnnotation` | gitlab_artifact_cleanup/artifact_cleanup.py:109-116 | Defines the link part of `job_description`: both links, the branch, the tag, or ", dangling". `DanglingIff` states when each is chosen. |
| `Cleanup.DanglingIff` | gitlab_artifact_cleanup/artifact_cleanup.py:109-116 | Both directions: a description says ", dangling" exactly when the job has neither link. Otherwise it starts ", linked to ". |
| `Cleanup.Cleaned` | gitlab_artifact_cleanup/artifact_cleanup.py:73-144 | Defines the cleaned jobs of a project, in listing order. `CleanedIff`, `CleanedStep` and `JobWithoutArtifactsIgnored` state what it holds. |
| `Cleanup.CleanedIff` | gitlab_artifact_cleanup/artifact_cleanup.py:73-88 | Both directions: a description is among the cleaned jobs exactly when some job of the project is cleaned with it. |
| `Cleanup.JobWithoutArtifactsIgnored` | gitlab_artifact_cleanup/artifact_cleanup.py:78-79 | Appending a job without artifacts changes nothing cleaned. |
| `Cleanup.EmptyJobsCleanNothing` | gitlab_artifact_cleanup/artifact_cleanup.py:78-79 | A project whose jobs all lack artifacts cleans nothing. |
| `Cleanup.EventText` | gitlab_artifact_cleanup/artifact_cleanup.py:67-168 | Defines the text of each logged message. `JobCleanedTextPrefix` states the job messages' openings. |
| `Cleanup.JobCleanedTextPrefix` | gitlab_artifact_cleanup/artifact_cleanup.py:119-142 | Both directions: a job message starts "Would delete " exactly in a dry run, otherwise "Deleted ". It says "artifacts and log of " exactly when logs go too. |
| `Cleanup.CleanedStep` | gitlab_artifact_cleanup/artifact_cleanup.py:73-88 | The cleaned jobs of one more job are the previous ones plus that job's description, if it is cleaned. |
| `Cleanup.EffectsAppend` | gitlab_artifact_cleanup/artifact_cleanup.py:119-144 | One more cleaned job appends its call, its message, one to the count and its size. |
| `Cleanup.JobLoopStep` | gitlab_artifact_cleanup/artifact_cleanup.py:73-144 | One turn of the job loop extends its calls, messages, count and size to those of the cleaned jobs of one more listed job. |
| `Cleanup.ProjectRun` | gitlab_artifact_cleanup/artifact_cleanup.py:67-158 | Defines one project's effects: the scanning message, the cleaned jobs' calls and messages, and the summary. `ScanRepository` is proved to produce them. |
| `Cleanup.ScanProject` | gitlab_artifact_cleanup/artifact_cleanup.py:143-147 | Defines what one found project adds to the run: its calls and messages appended, its count and size added to the totals, and one more repository counted. `ScanFromTotals` and `ScanFromCalls` state the sums it builds. |
| `Cleanup.ProjectSummaryEvent` | gitlab_artifact_cleanup/artifact_cleanup.py:148-158 | Defines the project summary: with the count and size when a job was cleaned, else "found no". `ProjectSummaryIff` states when each is logged. |
| `Cleanup.ProjectSummaryIff` | gitlab_artifact_cleanup/artifact_cleanup.py:67-158 | A project's messages open with "Scanning". Both directions: its summary says nothing was found exactly when every job of the project is skipped. Otherwise the summary carries the project's cleaned-job count and size. |
| `Cleanup.TotalSummaryEvent` | gitlab_artifact_cleanup/artifact_cleanup.py:160-168 | Defines the grand total: with the count and size when a job was cleaned, else "found no ... in any project". `TotalSummaryIff` states when it is logged. |
| `Cleanup.ScanFrom` | gitlab_artifact_cleanup/artifact_cleanup.py:62-158 | Defines the repository loop from path `i`, stopping at the first unknown path. `ScanFromMissing`, `ScanFromNoError`, `ScanFromCalls` and `ScanFromTotals` state its results. |
| `Cleanup.ScanAll` | gitlab_artifact_cleanup/artifact_cleanup.py:58-158 | Defines the repository loop from zero counters. `ScanRepositories` is proved to produce it. |
| `Cleanup.Run` | gitlab_artifact_cleanup/artifact_cleanup.py:34-168 | Defines a whole run: an `OverflowError` for a day count beyond 999999999 either way before anything is scanned, else the scan with the grand total appended after more than one found project. `OverflowScansNothing`, `AllFoundNoError`, `TotalSummaryIff`, `RunCalls` and `RunTotalsAreSums` state its results. |
| `Cleanup.KeepTimedeltaOverflows` | gitlab_artifact_cleanup/artifact_cleanup.py:54 | Defines when `timedelta(days=days_to_keep)` raises `OverflowError`: a day count whose magnitude exceeds 999999999. `OverflowScansNothing` states its effect on a run. |
| `Cleanup.OverflowScansNothing` | gitlab_artifact_cleanup/artifact_cleanup.py:54 | Both directions: the run's error is the overflow exactly when the day count is out of `timedelta`'s range. Then no repository is scanned, no call is made, nothing is logged and the totals are zero. |
| `Cleanup.ScanFromErrors` | gitlab_artifact_cleanup/artifact_cleanup.py:62-66 | The repository loop raises only `ProjectGetError`. |
| `Cleanup.Gitlab.constructor` | gitlab_artifact_cleanup/artifact_cleanup.py:23-32 | A connection to the given server with the given URL, token and dry-run switch (off by default), before any call or message. |
| `Cleanup.Gitlab.DeleteOldArtifacts` | gitlab_artifact_cleanup/artifact_cleanup.py:34-168 | The new calls, the new messages and the raised error are exactly those of `Run`, with the policy made from the arguments; a day count out of `timedelta`'s range raises before any path is looked up. A single path is scanned as a one-element list. Branch heads and tags are kept and logs are not deleted unless the caller says otherwise. |
| `Cleanup.Gitlab.ScanRepositories` | gitlab_artifact_cleanup/artifact_cleanup.py:58-158 | The repository loop's calls, messages, error, totals and repository count are those of `ScanAll`. |
| `Cleanup.Gitlab.ScanRepository` | gitlab_artifact_cleanup/artifact_cleanup.py:67-158 | One project's calls, messages (scanning, one per job, summary), job count and size are those of `ProjectRun`. |
| `Cleanup.Gitlab.CleanProject` | gitlab_artifact_cleanup/artifact_cleanup.py:68-144 | The job loop makes one call and one message per cleaned job. Its count and size are the number and total size of the cleaned jobs. |
| `Cleanup.Gitlab.CleanJobs` | gitlab_artifact_cleanup/artifact_cleanup.py:73-144 | The job loop appends to the recorded calls and messages job by job. At the end, they have grown by exactly the cleaned jobs' calls and messages, and the count and size are those of the cleaned jobs. |
| `Cleanup.Gitlab.CleanJob` | gitlab_artifact_cleanup/artifact_cleanup.py:78-144 | One job: nothing when it is skipped. Otherwise one `erase` (with logs) or `delete_artifacts` call unless it is a dry run, then one message, a count of 1 and its reclaimed size. |
| `Cleanup.ScanFromMissing` | gitlab_artifact_cleanup/artifact_cleanup.py:62-66 | Scanning up to the first unknown path gives the effects of the paths before it, plus that path's error. |
| `Cleanup.FirstMissingPathRaises` | gitlab_artifact_cleanup/artifact_cleanup.py:62-66 | The first path the server does not find is the one the error names. Nothing after it is scanned, and, with a day count in `timedelta`'s range, no grand total is logged. |
| `Cleanup.ScanFromNoError` | gitlab_artifact_cleanup/artifact_cleanup.py:62-147 | Both directions: scanning from `i` ends without error exactly when every later path is found, and then each counts once. |
| `Cleanup.AllFoundNoError` | gitlab_artifact_cleanup/artifact_cleanup.py:62-147 | Both directions: a run ends without error exactly when every path names a project. Then the repository count is the number of paths. |
| `Cleanup.TotalSummaryIff` | gitlab_artifact_cleanup/artifact_cleanup.py:160-168 | For a day count in `timedelta`'s range (otherwise `OverflowScansNothing` applies), both directions: the grand total is logged exactly when there are over one path and all are found. It is the last message. |
| `Cleanup.PathList` | gitlab_artifact_cleanup/artifact_cleanup.py:56-57 | Defines the `isinstance(..., str)` step: a single path becomes a one-element list, and a list is kept. `SinglePathNoTotal` states its effect on a run. |
| `Cleanup.SinglePathNoTotal` | gitlab_artifact_cleanup/artifact_cleanup.py:56-57 | A single repository path never gets a grand total: with a day count in `timedelta`'s range, the run is the scan of that one path. |
| `Cleanup.JobCall` | gitlab_artifact_cleanup/artifact_cleanup.py:119-142 | Defines the call cleaning one job: none in a dry run, else `erase` with logs and `delete_artifacts` without. `JobCallsFacts` and `RunCalls` state it over a run. |
| `Cleanup.JobCalls` | gitlab_artifact_cleanup/artifact_cleanup.py:119-142 | Defines the calls of the cleaned jobs, in order. `JobCallsFacts` states their number and kind, and `EffectsAppend` their growth. |
| `Cleanup.JobEvents` | gitlab_artifact_cleanup/artifact_cleanup.py:119-142 | Defines the messages of the cleaned jobs, in order. `EffectsAppend` states their growth, and `JobCleanedTextPrefix` their wording. |
| `Cleanup.JobCallsFacts` | gitlab_artifact_cleanup/artifact_cleanup.py:119-142 | A dry run makes no call. Otherwise there is one call per cleaned job, of the kind the log switch selects. |
| `Cleanup.ScanFromCalls` | gitlab_artifact_cleanup/artifact_cleanup.py:62-147 | Scanning more repositories keeps the calls in agreement with the job count and the policy. |
| `Cleanup.RunCalls` | gitlab_artifact_cleanup/artifact_cleanup.py:119-142 | A dry run makes no destructive call. Otherwise it makes one per cleaned job: `erase` with logs, `delete_artifacts` without. |
| `Cleanup.ScanFromTotals` | gitlab_artifact_cleanup/artifact_cleanup.py:143-147 | The counters grow by the found projects' cleaned-job counts and sizes. |
| `Cleanup.RunTotalsAreSums` | gitlab_artifact_cleanup/artifact_cleanup.py:143-147 | The run totals are the sums of the project totals up to the first unknown path, and zero when the day count overflows. |
| `Cleanup.ScenarioProjectACleaned` | gitlab_artifact_cleanup/artifact_cleanup.py:73-144 | On a sample project, only the old dangling job is cleaned. The branch head, tagged, young and artifact-less jobs are kept. |
| `Cleanup.TwoProjectScenario` | gitlab_artifact_cleanup/artifact_cleanup.py:34-168 | A two-project run yields one `delete_artifacts` call, the per-project messages in order and the grand total. |
| `Cli.ResolveVerbosity` | gitlab_artifact_cleanup/cli.py:162-174 | Defines the nested conditional over the five flags. `ResolveVerbosityIsFirstFlagged` and `VerbosityPrecedence` state which level wins. |
| `Cli.ResolveVerbosityIsFirstFlagged` | gitlab_artifact_cleanup/cli.py:162-174 | The nested conditional is the first set flag in declaration order of the levels, else the configured level. |
| `Cli.VerbosityPrecedence` | gitlab_artifact_cleanup/cli.py:162-174 | Both directions: level `v` is chosen exactly when its flag is set and no earlier level's flag is, or when no flag is set and `v` is configured. |
| `Cli.KeepFlags` | gitlab_artifact_cleanup/cli.py:218-223 | Defines the two protection switches of a keep mode. `KeepFlagsTable` and `KeepFlagsBijective` state the table. |
| `Cli.KeepFlagsTable` | gitlab_artifact_cleanup/cli.py:218-223 | Branch heads are kept for branch and branch_and_tag. Tags are kept for tag and branch_and_tag. Nothing is kept for none. |
| `Cli.KeepFlagsBijective` | gitlab_artifact_cleanup/cli.py:218-223 | Every pair of protection switches comes from exactly one keep mode. |
| `Cli.IsInstance` | gitlab_artifact_cleanup/cli.py:252-253 | Defines `isinstance(e, exception_class)` for the four classes of `expected_exceptions`. `SelectExitCode` uses it. |
| `Cli.IsExpected` | gitlab_artifact_cleanup/cli.py:229-247 | Defines membership in the `expected_exceptions` tuple, the exceptions `main`'s handler catches: `ArgumentError`, `GitlabAuthenticationError`, `GitlabListError` and `ProjectGetError`. `ExitCodesDistinct` states that exactly these get codes 3 to 6. |
| `Cli.ExitCodeOf` | gitlab_artifact_cleanup/cli.py:251-254 | Defines the exit code of an exception: 3 plus the position of its class, else 1. `SelectExitCode` and `ExitCodesDistinct` state it. |
| `Cli.SelectExitCode` | gitlab_artifact_cleanup/cli.py:251-254 | The `enumerate` loop returns 3 plus the position of the first class the exception belongs to, else 1. |
| `Cli.ExitCodesDistinct` | gitlab_artifact_cleanup/cli.py:229-254 | Both directions: an exception is caught exactly when its code is 3 to 6. Its code locates its class, and no two caught classes share a code. |
| `Cli.SetupStderrLogging` | gitlab_artifact_cleanup/cli.py:198-210 | Defines the logging setup of each level, and `NotImplementedError` for ERROR. `LoggingLevels` states it. |
| `Cli.LoggingLevels` | gitlab_artifact_cleanup/cli.py:198-208 | Only ERROR is not implemented, and only QUIET removes the handlers. A more verbose level has a lower threshold. |
| `Cli.TokenOf` | gitlab_artifact_cleanup/cli.py:186-191 | Defines the token: the configured one, else the typed one on a terminal, else the stripped stdin line. `AcceptedArguments` states the result on success, and `ValidationIff` that an empty one fails. |
| `Cli.ParseArgumentsSpec` | gitlab_artifact_cleanup/cli.py:155-195 | Defines the attributes `parse_arguments` adds and the error it raises. `ParseArguments` is proved to produce them, and `VersionReturnsFirst`, `WriteConfigSkipsValidation`, `ValidationIff`, `ValidationMessages` and `AcceptedArguments` state them. |
| `Cli.Namespace.constructor` | gitlab_artifact_cleanup/cli.py:155-157 | argparse's values, with none of the three added attributes set yet. |
| `Cli.ParseArguments` | gitlab_artifact_cleanup/cli.py:155-195 | A fresh namespace whose added attributes and raised error are those of `ParseArgumentsSpec`. |
| `Cli.VersionReturnsFirst` | gitlab_artifact_cleanup/cli.py:159-160 | With `--version`, nothing is resolved or validated. |
| `Cli.WriteConfigSkipsValidation` | gitlab_artifact_cleanup/cli.py:162-176 | With `--write-default-config`, the verbosity is resolved and nothing is validated. |
| `Cli.ChoiceIsMember` | gitlab_artifact_cleanup/cli.py:184 | A mode argparse accepts upper-cases to the name of the member it came from. |
| `Cli.ValidationIff` | gitlab_artifact_cleanup/cli.py:178-193 | Both directions: validation fails exactly for no paths, negative days (0 is accepted), or no configured token and an empty one read. Each failure is an `ArgumentError`. |
| `Cli.ValidationMessages` | gitlab_artifact_cleanup/cli.py:178-182 | The missing paths message comes first, then the negative days message. |
| `Cli.AcceptedArguments` | gitlab_artifact_cleanup/cli.py:184-195 | On success, the mode is the named one, and the token is non-empty: the configured one, the typed one or the stripped stdin line. |
| `Cli.HandleCleanArtifacts` | gitlab_artifact_cleanup/cli.py:213-225 | A fresh connection with the namespace's URL, token and dry-run switch, whose calls, messages and error are those of `Run` with the mode's protection switches. |
| `Cli.PolicyOf` | gitlab_artifact_cleanup/cli.py:215-224 | Defines the retention settings `handle_clean_artifacts` passes: the days, the mode's switches and the log switch. |
| `Cli.RunException` | gitlab_artifact_cleanup/cli.py:228-257 | Defines the exception a run error becomes in `main`: `ProjectGetError` for an unknown path, `OverflowError` for the day count. |
| `Cli.RunMessages` | gitlab_artifact_cleanup/cli.py:235-245 | The cleanup run's messages become `main`'s log entries one for one, in order. |
| `Cli.HandlerLog` | gitlab_artifact_cleanup/cli.py:247-248 | Defines the handler's `logger.error(str(e))`: one error entry for a caught exception, none for one that escapes. |
| `Cli.Caught` | gitlab_artifact_cleanup/cli.py:247-254 | Defines the handler: re-raised at DEBUG once the arguments are parsed, else the exit code of its class. `ArgumentErrorExitsThree`, `MissingProjectOutcome`, `ServerFailureOutcome` and `DaysOverflowRaises` state its cases; an exception outside the four expected classes escapes. |
| `Cli.MainSpec` | gitlab_artifact_cleanup/cli.py:228-257 | Defines `main`'s outcome, action, log and calls, with the day-count overflow raised before any server failure can occur. The log holds the cleanup run's messages, the "wrote a default config file" note and the handler's error line for a caught exception. `RunMain` is proved to produce them, and the lemmas below state its cases. |
| `Cli.RunMain` | gitlab_artifact_cleanup/cli.py:228-257 | The outcome (exit code or escaping exception, including the uncaught `OverflowError` of a day count above 999999999), the action taken, the messages and the destructive calls are those of `MainSpec`. |
| `Cli.ArgumentErrorExitsThree` | gitlab_artifact_cleanup/cli.py:247-254 | A bad argument exits with 3, even with `--debug`, makes no call and logs only its error. |
| `Cli.DaysOverflowRaises` | gitlab_artifact_cleanup/cli.py:181-257 | Both directions, whatever the server would do: once the arguments are accepted, `main` lets `OverflowError` escape exactly when the day count exceeds 999999999, which validation lets through. Then no call is made and nothing is logged. |
| `Cli.NormalCompletionExitsZero` | gitlab_artifact_cleanup/cli.py:235-257 | With a day count in `timedelta`'s range, a run that completes exits 0, after exactly the calls and messages of the cleanup run, with no error line. |
| `Cli.MissingProjectOutcome` | gitlab_artifact_cleanup/cli.py:247-254 | With a day count in `timedelta`'s range, an unknown repository exits with 6, or is re-raised at DEBUG verbosity; either way the last log entry is its error. |
| `Cli.ErrorVerbosityRaises` | gitlab_artifact_cleanup/cli.py:198-208 | The ERROR level lets `NotImplementedError` escape `main` before any file is written or any project is scanned, with nothing logged. |
| `Cli.ServerFailureOutcome` | gitlab_artifact_cleanup/cli.py:247-254 | With a day count in `timedelta`'s range, an authentication failure exits with 4 and a listing failure with 5, or either is re-raised at DEBUG verbosity; the log holds only its error and no call is made. |
| `Cli.WriteDefaultConfigOutcome` | gitlab_artifact_cleanup/cli.py:242-245 | Writing the default configuration exits with 0, makes no call and logs only the note naming "~/.gitlab-artifact-cleanuprc". |

## Left out

- The GitLab connection (python-gitlab and the network) is not modelled. The server is a value: a map from repository path to project. A project lookup that fails is the only server error inside a run.
- `GitlabAuthenticationError` and `GitlabListError` are a `main` input raised before any project is scanned. A server failure in the middle of a run, with its partial calls and messages, is not modelled.
- Exceptions from `erase`, `delete_artifacts` and `datetime.fromisoformat` are not modelled.
- Dates are integer seconds. `datetime.now`, the time zone and `strftime` are not modelled: the current time is a parameter, and each job carries its already rendered local creation time.
- `human_size`'s `%.2f` rendering of the float magnitude is not modelled. The magnitude is an exact rational, and its text form is a parameter. The unit choice is exact for the sizes the source handles precisely, below 2^53 bytes. The float rounding of larger sizes and the `OverflowError` of `float()` beyond about 1.8e308 are not modelled.
- Logging is not modelled: handlers, formatting, colour, severities and `yacl`. Messages are events that carry the values they format, and their text is a function of the event. `main`'s error line carries the exception itself; the `str(e)` text of an exception is not modelled.
- argparse is not modelled: parser construction, help texts, `--help`, and the exit with status 2 on an invalid choice. The parsed values are an input.
- `getpass` and standard input are not modelled: the terminal is an input value.
- Printing the version text and `KeyboardInterrupt` are not modelled.
- `sys.exit` becomes the `Outcome` value.
- `Config.Config.Get`: values are taken raw, without ConfigParser's default `BasicInterpolation`. The model does not replace `%%` by `%` or substitute `%(name)s`. Where the real parser raises `InterpolationSyntaxError` for a lone `%` (a stored `verbosity = 50%`, say), the properties report their own error or return the raw text.
- ConfigParser's file syntax and `write_default_config` are not modelled, including the `[DEFAULT]` section, whose options the real parser would show in every section. A configuration file is a map of parsed (section, option) values, a path without a file changes nothing, and the write becomes the `WriteDefaultConfig` action.
- `os.path.expanduser` is not modelled.
- The module-level `config` singleton is not modelled: `parse_arguments` receives the configured verbosity and token as a `Settings` value.
- Configuration errors raised while the argument parser is built are not modelled. These happen when its defaults and help texts read `config.verbosity`, `config.always_keep` and the other properties.
- `int()` is modelled on ASCII digits only: it does not accept Unicode digits or underscores.
- `lower()` and `upper()` are modelled on ASCII only. They are applied to enum names and stored choices, and `lower()` also to the stored `delete_logs` text in `getboolean`. Python's full `lower()` maps two non-ASCII characters into ASCII: KELVIN SIGN (U+212A) becomes "k", and U+0130 becomes "i" followed by the non-ASCII U+0307. No word of ConfigParser's boolean table (1, yes, true, on, 0, no, false, off) contains a "k", and U+0130 always leaves U+0307 behind, so the accepted boolean words are the same either way. `isspace()` covers Python's full set of whitespace characters.
- `__init__.py`, which holds the version string, is not part of this model.
- `Config.Config.AlwaysKeep`: uses the corrected `ParseAlwaysKeep`, whose error lists `KEEP_ARTIFACTS_CHOICES`. The code as written lists `VERBOSITY_CHOICES` (see Findings). `Config.ParseAlwaysKeepAsWritten` models that message. Only the message differs: the accepted values and the returned modes are the same.
- `Cleanup.Run` and `Cleanup.ScanFrom`: the server is a value that the destructive calls do not change. Every repository path is scanned against the starting state. A job reached through two equal (or aliased) paths is cleaned, counted and called twice, whereas the real server would no longer list the artifacts deleted the first time.
- `Config.AccessTokenPlaceholderLayout`: states the placeholder's layout (the message at offset 8 inside 40 fill characters) rather than the full literal.

## Findings

| source | as written | input that shows it | evidently intended | confidence | as-written member | corrected member |
|---|---|---|---|---|---|---|
| gitlab_artifact_cleanup/config.py:130-133 | The `UnknownAlwaysKeepError` message lists `VERBOSITY_CHOICES` as the valid choices. | stored `always_keep = all`: the message lists "quiet", which is itself rejected, and omits "none", which is accepted | The message lists `KEEP_ARTIFACTS_CHOICES`. | not executed | `Config.AlwaysKeepErrorAsWrittenMisleads` | `Config.AlwaysKeepErrorListsValidChoices` |
