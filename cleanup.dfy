/** The retention and cleanup engine: for every repository, the jobs whose
    artifacts are old enough and not protected by a branch head or a tag are
    cleaned (their artifacts deleted, or the whole job erased together with
    its log), and per-project and run-wide totals are reported. */
module Cleanup {
  import opened Wrappers
  import Text
  import Util

  const SecondsPerDay: int := 86400

  // ---------------------------------------------------------------------
  // What the server reports

  /** One entry of a job's artifact list; the size may be null. */
  datatype Artifact = Artifact(fileType: string, size: Option<int>)

  /** A CI/CD job. `createdAt` is its creation time in seconds;
      `createdAtLocal` is that time already rendered in local time. The
      commit is the id of the job's commit, if the job has one. */
  datatype Job = Job(
    id: int,
    ref: string,
    commit: Option<string>,
    createdAt: int,
    createdAtLocal: string,
    artifacts: seq<Artifact>)

  /** A branch or a tag: its name and the id of the commit it points to. */
  datatype RefHead = RefHead(name: string, commitId: string)

  datatype Project = Project(
    pathWithNamespace: string,
    branches: seq<RefHead>,
    tags: seq<RefHead>,
    jobs: seq<Job>)

  /** The projects the server finds, by the path they are requested with. */
  datatype Server = Server(projects: map<string, Project>)

  /** The arguments of one cleanup run. */
  datatype Policy = Policy(
    daysToKeep: int,
    keepLatestBranchCommit: bool,
    keepTags: bool,
    deleteLogs: bool)

  /** The errors a run raises: `ProjectGetError` when a repository path
      names no project on the server, and Python's `OverflowError` when the
      day count lies outside the range of a `timedelta`. */
  datatype RunError = ProjectGetError(path: string) | KeepTimedeltaOverflow(days: int)

  /** A `timedelta` holds at most 999999999 days either way. */
  const MaxTimedeltaDays := 999999999

  /** `timedelta(days=days)` raises `OverflowError`. */
  predicate KeepTimedeltaOverflows(days: int) {
    days < -MaxTimedeltaDays || MaxTimedeltaDays < days
  }

  // ---------------------------------------------------------------------
  // Per-project indexes and per-job links

  /** `{ref.name: ref.commit["id"] for ref in refs}`: a later entry of the
      same name replaces an earlier one. */
  function RefIndex(refs: seq<RefHead>): (index: map<string, string>) {
    if |refs| == 0 then map[]
    else
      var last := refs[|refs| - 1];
      RefIndex(refs[..|refs| - 1])[last.name := last.commitId]
  }

  /** Every entry's name is in the index. */
  lemma {:induction false} RefIndexNames(refs: seq<RefHead>)
    ensures forall i :: 0 <= i < |refs| ==> refs[i].name in RefIndex(refs)
  {
    if |refs| > 0 {
      var init := refs[..|refs| - 1];
      RefIndexNames(init);
      assert RefIndex(refs) == RefIndex(init)[refs[|refs| - 1].name := refs[|refs| - 1].commitId];
      forall i | 0 <= i < |refs| - 1 ensures refs[i].name in RefIndex(refs) {
        assert refs[i] == init[i];
      }
    }
  }

  /** Every name in the index comes from an entry of that name, with that
      entry's commit. */
  lemma {:induction false} RefIndexSources(refs: seq<RefHead>, name: string)
    requires name in RefIndex(refs)
    ensures exists i :: 0 <= i < |refs| && refs[i].name == name && refs[i].commitId == RefIndex(refs)[name]
  {
    var last := refs[|refs| - 1];
    var init := refs[..|refs| - 1];
    assert RefIndex(refs) == RefIndex(init)[last.name := last.commitId];
    if name != last.name {
      RefIndexSources(init, name);
      var i :| 0 <= i < |init| && init[i].name == name && init[i].commitId == RefIndex(init)[name];
      assert refs[i] == init[i];
    } else {
      assert refs[|refs| - 1] == last;
    }
  }

  /** The index maps a name to the commit of the last entry of that name. */
  lemma {:induction false} RefIndexLastWins(refs: seq<RefHead>, i: nat)
    requires i < |refs|
    requires forall j :: i < j < |refs| ==> refs[j].name != refs[i].name
    ensures refs[i].name in RefIndex(refs) && RefIndex(refs)[refs[i].name] == refs[i].commitId
  {
    if i < |refs| - 1 {
      RefIndexLastWins(refs[..|refs| - 1], i);
    }
  }

  /** `job_branch` / `job_tag`: the job's ref when the job has a commit and
      that commit is the one the index gives for the ref. */
  function LinkedRef(job: Job, index: map<string, string>): Option<string> {
    if job.commit.Some? && job.ref in index && index[job.ref] == job.commit.value then Some(job.ref) else None
  }

  /** With unique names, a job is linked exactly when a branch (or tag) of
      the job's ref points to the job's commit, and the link is the ref. */
  lemma LinkedRefIff(job: Job, refs: seq<RefHead>)
    requires forall i, j :: 0 <= i < j < |refs| ==> refs[i].name != refs[j].name
    ensures LinkedRef(job, RefIndex(refs)).Some? <==>
      exists i :: 0 <= i < |refs| && refs[i].name == job.ref && job.commit == Some(refs[i].commitId)
    ensures LinkedRef(job, RefIndex(refs)).Some? ==> LinkedRef(job, RefIndex(refs)).value == job.ref
  {
    if job.ref in RefIndex(refs) {
      RefIndexSources(refs, job.ref);
    }
    if exists i :: 0 <= i < |refs| && refs[i].name == job.ref && job.commit == Some(refs[i].commitId) {
      var i :| 0 <= i < |refs| && refs[i].name == job.ref && job.commit == Some(refs[i].commitId);
      RefIndexLastWins(refs, i);
    }
  }

  /** A job without a commit is never linked. */
  lemma NoCommitNoLink(job: Job, index: map<string, string>)
    requires job.commit.None?
    ensures LinkedRef(job, index).None?
  {
  }

  // ---------------------------------------------------------------------
  // The skip guards

  /** Why a job is left alone, in the order the guards are tried. */
  datatype SkipReason = NoArtifacts | NoArchive | LatestBranchCommit | TaggedCommit | TooYoung

  predicate IsArchive(a: Artifact) {
    a.fileType == "archive"
  }

  predicate HasArchive(artifacts: seq<Artifact>) {
    exists i :: 0 <= i < |artifacts| && IsArchive(artifacts[i])
  }

  /** Age protection is inclusive: a job exactly `daysToKeep` days old is
      still kept. */
  predicate TooYoungToClean(job: Job, daysToKeep: int, now: int) {
    now - job.createdAt <= daysToKeep * SecondsPerDay
  }

  /** The first guard, in source order, that skips the job. */
  function SkipReasonOf(job: Job, branches: map<string, string>, tags: map<string, string>, policy: Policy, now: int): Option<SkipReason> {
    if |job.artifacts| == 0 then Some(NoArtifacts)
    else if !policy.deleteLogs && !HasArchive(job.artifacts) then Some(NoArchive)
    else if policy.keepLatestBranchCommit && LinkedRef(job, branches).Some? then Some(LatestBranchCommit)
    else if policy.keepTags && LinkedRef(job, tags).Some? then Some(TaggedCommit)
    else if TooYoungToClean(job, policy.daysToKeep, now) then Some(TooYoung)
    else None
  }

  // ---------------------------------------------------------------------
  // Reclaimed size

  /** What one artifact adds to the job's size: its size (null counting as
      0) when it is deleted, which is always with logs and otherwise only for
      archives. */
  function CountedSize(a: Artifact, deleteLogs: bool): int {
    if deleteLogs || IsArchive(a) then (if a.size.Some? then a.size.value else 0) else 0
  }

  function ReclaimedSize(artifacts: seq<Artifact>, deleteLogs: bool): int {
    if |artifacts| == 0 then 0
    else ReclaimedSize(artifacts[..|artifacts| - 1], deleteLogs) + CountedSize(artifacts[|artifacts| - 1], deleteLogs)
  }

  /** The size of one artifact, null counting as 0. */
  function SizeOrZero(a: Artifact): int {
    if a.size.Some? then a.size.value else 0
  }

  /** Sum of the sizes of all artifacts. */
  function SumOfSizes(artifacts: seq<Artifact>): int {
    if |artifacts| == 0 then 0 else SumOfSizes(artifacts[..|artifacts| - 1]) + SizeOrZero(artifacts[|artifacts| - 1])
  }

  /** The archives among the artifacts, in order. */
  function Archives(artifacts: seq<Artifact>): seq<Artifact> {
    if |artifacts| == 0 then []
    else
      var last := artifacts[|artifacts| - 1];
      Archives(artifacts[..|artifacts| - 1]) + (if IsArchive(last) then [last] else [])
  }

  /** With logs the whole job is reclaimed; without, only its archives. */
  lemma {:induction false} ReclaimedSizeSums(artifacts: seq<Artifact>)
    ensures ReclaimedSize(artifacts, true) == SumOfSizes(artifacts)
    ensures ReclaimedSize(artifacts, false) == SumOfSizes(Archives(artifacts))
  {
    if |artifacts| > 0 {
      var init, last := artifacts[..|artifacts| - 1], artifacts[|artifacts| - 1];
      ReclaimedSizeSums(init);
      var archives := Archives(init) + (if IsArchive(last) then [last] else []);
      assert Archives(artifacts) == archives;
      if IsArchive(last) {
        assert archives[..|archives| - 1] == Archives(init);
      } else {
        assert archives == Archives(init);
      }
    }
  }

  /** With non-negative sizes the reclaimed size is non-negative and
      deleting the logs too never reclaims less. */
  lemma {:induction false} ReclaimedSizeBounds(artifacts: seq<Artifact>)
    requires forall i :: 0 <= i < |artifacts| ==> SizeOrZero(artifacts[i]) >= 0
    ensures 0 <= ReclaimedSize(artifacts, false) <= ReclaimedSize(artifacts, true)
  {
    if |artifacts| > 0 {
      ReclaimedSizeBounds(artifacts[..|artifacts| - 1]);
    }
  }

  // ---------------------------------------------------------------------
  // Decisions and descriptions

  /** Everything `job_description` shows about a cleaned job. */
  datatype Description = Description(
    jobId: int,
    createdAtLocal: string,
    size: int,
    branch: Option<string>,
    tag: Option<string>)

  datatype Decision = Skip(reason: SkipReason) | Clean(description: Description)

  function Decide(job: Job, branches: map<string, string>, tags: map<string, string>, policy: Policy, now: int): Decision {
    match SkipReasonOf(job, branches, tags, policy, now)
    case Some(reason) => Skip(reason)
    case None =>
      Clean(Description(job.id, job.createdAtLocal, ReclaimedSize(job.artifacts, policy.deleteLogs),
        LinkedRef(job, branches), LinkedRef(job, tags)))
  }

  /** A job is cleaned exactly when it has artifacts, has an archive unless
      logs go too, is not protected as a branch head or a tag, and is
      strictly older than the retention period. */
  lemma CleanIff(job: Job, branches: map<string, string>, tags: map<string, string>, policy: Policy, now: int)
    ensures Decide(job, branches, tags, policy, now).Clean? <==>
      && |job.artifacts| > 0
      && (policy.deleteLogs || exists a :: a in job.artifacts && IsArchive(a))
      && !(policy.keepLatestBranchCommit && LinkedRef(job, branches).Some?)
      && !(policy.keepTags && LinkedRef(job, tags).Some?)
      && now - job.createdAt > policy.daysToKeep * SecondsPerDay
  {
    if exists a :: a in job.artifacts && IsArchive(a) {
      var a :| a in job.artifacts && IsArchive(a);
      var i :| 0 <= i < |job.artifacts| && job.artifacts[i] == a;
    }
  }

  /** A cleaned job's description carries its id, local creation time,
      reclaimed size and links. */
  lemma CleanDescription(job: Job, branches: map<string, string>, tags: map<string, string>, policy: Policy, now: int)
    requires Decide(job, branches, tags, policy, now).Clean?
    ensures var d := Decide(job, branches, tags, policy, now).description;
      && d.jobId == job.id && d.createdAtLocal == job.createdAtLocal
      && d.size == ReclaimedSize(job.artifacts, policy.deleteLogs)
      && d.branch == LinkedRef(job, branches) && d.tag == LinkedRef(job, tags)
      && (policy.keepLatestBranchCommit ==> d.branch.None?)
      && (policy.keepTags ==> d.tag.None?)
  {
  }

  /** A job that stays eligible keeps being eligible as time passes. */
  lemma CleanStaysCleanLater(job: Job, branches: map<string, string>, tags: map<string, string>, policy: Policy, now: int, later: int)
    requires now <= later
    requires Decide(job, branches, tags, policy, now).Clean?
    ensures Decide(job, branches, tags, policy, later).Clean?
  {
  }

  /** Turning on log deletion or turning off a protection never saves a job
      that was cleaned before. */
  lemma CleanUnderWeakerProtection(job: Job, branches: map<string, string>, tags: map<string, string>, policy: Policy, weaker: Policy, now: int)
    requires policy.deleteLogs ==> weaker.deleteLogs
    requires weaker.keepLatestBranchCommit ==> policy.keepLatestBranchCommit
    requires weaker.keepTags ==> policy.keepTags
    requires weaker.daysToKeep <= policy.daysToKeep
    requires Decide(job, branches, tags, policy, now).Clean?
    ensures Decide(job, branches, tags, weaker, now).Clean?
  {
    assert policy.daysToKeep * SecondsPerDay >= weaker.daysToKeep * SecondsPerDay;
  }

  /** The link annotation of a description. */
  function LinkAnnotation(branch: Option<string>, tag: Option<string>): string {
    if branch.Some? && tag.Some? then ", linked to branch \"" + branch.value + "\" and tag \"" + tag.value + "\""
    else if branch.Some? then ", linked to branch \"" + branch.value + "\""
    else if tag.Some? then ", linked to tag \"" + tag.value + "\""
    else ", dangling"
  }

  /** A job is described as dangling exactly when it is linked to neither a
      branch nor a tag; otherwise the annotation starts ", linked to". */
  lemma DanglingIff(branch: Option<string>, tag: Option<string>)
    ensures LinkAnnotation(branch, tag) == ", dangling" <==> branch.None? && tag.None?
    ensures branch.Some? || tag.Some? ==> LinkAnnotation(branch, tag)[..12] == ", linked to "
  {
    var s := LinkAnnotation(branch, tag);
    if branch.Some? || tag.Some? {
      assert s[2] == 'l';
    }
  }

  /** `human_size(size)` with the `%.2f` rendering of the magnitude given. */
  function HumanSizeText(size: int, render: real -> string): string {
    Util.SizeText(render(Util.Magnitude(size)), size)
  }

  /** `job_description(...)` */
  function DescriptionText(d: Description, render: real -> string): string {
    "job \"" + Text.IntToString(d.jobId) + "\", created at \"" + d.createdAtLocal
      + "\", size \"" + HumanSizeText(d.size, render) + "\"" + LinkAnnotation(d.branch, d.tag)
  }

  // ---------------------------------------------------------------------
  // One project

  /** The cleaned jobs of a job sequence, in order. */
  function Cleaned(jobs: seq<Job>, branches: map<string, string>, tags: map<string, string>, policy: Policy, now: int): seq<Description> {
    if |jobs| == 0 then []
    else
      var init := Cleaned(jobs[..|jobs| - 1], branches, tags, policy, now);
      match Decide(jobs[|jobs| - 1], branches, tags, policy, now)
      case Clean(d) => init + [d]
      case Skip(_) => init
  }

  /** A description is reported exactly when some job is cleaned with it. */
  lemma {:induction false} CleanedIff(jobs: seq<Job>, branches: map<string, string>, tags: map<string, string>, policy: Policy, now: int, d: Description)
    ensures d in Cleaned(jobs, branches, tags, policy, now) <==>
      exists i :: 0 <= i < |jobs| && Decide(jobs[i], branches, tags, policy, now) == Clean(d)
  {
    if |jobs| > 0 {
      var init := jobs[..|jobs| - 1];
      CleanedIff(init, branches, tags, policy, now, d);
      if exists i :: 0 <= i < |init| && Decide(init[i], branches, tags, policy, now) == Clean(d) {
        var i :| 0 <= i < |init| && Decide(init[i], branches, tags, policy, now) == Clean(d);
        assert jobs[i] == init[i];
      }
      if exists i :: 0 <= i < |jobs| && Decide(jobs[i], branches, tags, policy, now) == Clean(d) {
        var i :| 0 <= i < |jobs| && Decide(jobs[i], branches, tags, policy, now) == Clean(d);
        if i < |init| {
          assert init[i] == jobs[i];
        }
      }
    }
  }

  /** A job without artifacts never contributes to the cleaned jobs, their
      count or their size. */
  lemma {:induction false} JobWithoutArtifactsIgnored(jobs: seq<Job>, job: Job, branches: map<string, string>, tags: map<string, string>, policy: Policy, now: int)
    requires |job.artifacts| == 0
    ensures Cleaned(jobs + [job], branches, tags, policy, now) == Cleaned(jobs, branches, tags, policy, now)
  {
    assert (jobs + [job])[..|jobs|] == jobs;
  }

  /** The number of bytes the cleaned jobs reclaim. */
  function TotalSize(descriptions: seq<Description>): int {
    if |descriptions| == 0 then 0
    else TotalSize(descriptions[..|descriptions| - 1]) + descriptions[|descriptions| - 1].size
  }

  // ---------------------------------------------------------------------
  // Effects: remote calls and log events

  datatype CallKind = Erase | DeleteArtifacts

  /** A destructive call on the job `jobId` of the project `projectPath`. */
  datatype Call = Call(kind: CallKind, projectPath: string, jobId: int)

  /** The call cleaning one job: none in a dry run, `erase` with logs,
      `delete_artifacts` without. */
  function JobCall(d: Description, projectPath: string, deleteLogs: bool, dryRun: bool): seq<Call> {
    if dryRun then [] else [Call(if deleteLogs then Erase else DeleteArtifacts, projectPath, d.jobId)]
  }

  function JobCalls(descriptions: seq<Description>, projectPath: string, deleteLogs: bool, dryRun: bool): seq<Call> {
    if |descriptions| == 0 then []
    else
      JobCalls(descriptions[..|descriptions| - 1], projectPath, deleteLogs, dryRun)
        + JobCall(descriptions[|descriptions| - 1], projectPath, deleteLogs, dryRun)
  }

  /** The log messages of a run, with the values they format. */
  datatype Event =
    | Scanning(projectPath: string)
    | JobCleaned(dryRun: bool, withLog: bool, description: Description)
    | ProjectSummary(projectPath: string, jobCount: nat, size: int)
    | ProjectNothingFound(projectPath: string)
    | TotalSummary(jobCount: nat, size: int)
    | TotalNothingFound

  function JobEvents(descriptions: seq<Description>, deleteLogs: bool, dryRun: bool): seq<Event> {
    if |descriptions| == 0 then []
    else
      JobEvents(descriptions[..|descriptions| - 1], deleteLogs, dryRun)
        + [JobCleaned(dryRun, deleteLogs, descriptions[|descriptions| - 1])]
  }

  /** The summary of one project: counts only when a job was cleaned. */
  function ProjectSummaryEvent(projectPath: string, count: nat, size: int): Event {
    if count > 0 then ProjectSummary(projectPath, count, size) else ProjectNothingFound(projectPath)
  }

  /** The summary of the whole run. */
  function TotalSummaryEvent(count: nat, size: int): Event {
    if count > 0 then TotalSummary(count, size) else TotalNothingFound
  }

  /** The text of a log message. */
  function EventText(e: Event, render: real -> string): string {
    match e
    case Scanning(p) => "Scanning project \"" + p + "\"..."
    case JobCleaned(dryRun, withLog, d) =>
      (if dryRun then "Would delete " else "Deleted ")
        + (if withLog then "artifacts and log of " else "artifacts of ")
        + DescriptionText(d, render)
    case ProjectSummary(p, n, size) =>
      "Found \"" + Text.IntToString(n) + "\" old dangling jobs, with \"" + HumanSizeText(size, render)
        + "\" of attached artifacts in total in project \"" + p + "\"."
    case ProjectNothingFound(p) =>
      "Found no old dangling jobs with attached artifacts in project \"" + p + "\"."
    case TotalSummary(n, size) =>
      "Found \"" + Text.IntToString(n) + "\" old dangling jobs, with \"" + HumanSizeText(size, render)
        + "\" of attached artifacts in total."
    case TotalNothingFound => "Found no old dangling jobs with attached artifacts in any project."
  }

  /** The message of a cleaned job says whether anything was deleted and
      whether the log went too. */
  lemma JobCleanedTextPrefix(dryRun: bool, withLog: bool, d: Description, render: real -> string)
    ensures var t := EventText(JobCleaned(dryRun, withLog, d), render);
      && (dryRun <==> t[..13] == "Would delete ")
      && (!dryRun ==> t[..8] == "Deleted " && (withLog <==> t[8..29] == "artifacts and log of "))
      && (dryRun ==> (withLog <==> t[13..34] == "artifacts and log of "))
  {
    var t := EventText(JobCleaned(dryRun, withLog, d), render);
    if !dryRun {
      assert t[0] == 'D';
      if !withLog {
        assert t[18] == 'o' && "artifacts and log of "[10] == 'a';
      }
    } else if !withLog {
      assert t[23] == 'o' && "artifacts and log of "[10] == 'a';
    }
  }

  // ---------------------------------------------------------------------
  // The whole run

  /** The repository argument: one path or several. */
  datatype RepositoryPaths = Single(path: string) | Many(paths: seq<string>)

  /** A single string is treated as a one-element list. */
  function PathList(paths: RepositoryPaths): seq<string> {
    match paths
    case Single(p) => [p]
    case Many(ps) => ps
  }

  /** The effects and counters after scanning some repositories. */
  datatype RunState = RunState(
    calls: seq<Call>,
    events: seq<Event>,
    jobCount: nat,
    size: int,
    repositoryCount: nat,
    error: Option<RunError>)

  /** The cleaned jobs of one project. */
  function ProjectCleaned(project: Project, policy: Policy, now: int): seq<Description> {
    Cleaned(project.jobs, RefIndex(project.branches), RefIndex(project.tags), policy, now)
  }

  /** What scanning one found project produces. */
  datatype ProjectResult = ProjectResult(calls: seq<Call>, events: seq<Event>, jobCount: nat, size: int)

  /** The calls and messages of one project: the scanning message, one
      message per cleaned job and the project summary. */
  function ProjectRun(project: Project, policy: Policy, now: int, dryRun: bool): ProjectResult {
    var cleaned := ProjectCleaned(project, policy, now);
    var path := project.pathWithNamespace;
    ProjectResult(
      JobCalls(cleaned, path, policy.deleteLogs, dryRun),
      [Scanning(path)] + JobEvents(cleaned, policy.deleteLogs, dryRun)
        + [ProjectSummaryEvent(path, |cleaned|, TotalSize(cleaned))],
      |cleaned|,
      TotalSize(cleaned))
  }

  /** A project's messages open with "Scanning" and close with its summary,
      which reports nothing found exactly when no job of the project is
      cleaned; otherwise it carries the count and size of the cleaned jobs. */
  lemma {:induction false} ProjectSummaryIff(project: Project, policy: Policy, now: int, dryRun: bool)
    ensures var r := ProjectRun(project, policy, now, dryRun);
      var path := project.pathWithNamespace;
      var last := r.events[|r.events| - 1];
      && |r.events| >= 2 && r.events[0] == Scanning(path)
      && (last == ProjectNothingFound(path) <==>
          forall i :: 0 <= i < |project.jobs| ==>
            Decide(project.jobs[i], RefIndex(project.branches), RefIndex(project.tags), policy, now).Skip?)
      && (last.ProjectSummary? ==> last == ProjectSummary(path, r.jobCount, r.size) && r.jobCount > 0)
  {
    var branches, tags := RefIndex(project.branches), RefIndex(project.tags);
    var cleaned := ProjectCleaned(project, policy, now);
    if |cleaned| > 0 {
      CleanedIff(project.jobs, branches, tags, policy, now, cleaned[0]);
      var i :| 0 <= i < |project.jobs| && Decide(project.jobs[i], branches, tags, policy, now) == Clean(cleaned[0]);
      assert !Decide(project.jobs[i], branches, tags, policy, now).Skip?;
    } else {
      forall i | 0 <= i < |project.jobs|
        ensures Decide(project.jobs[i], branches, tags, policy, now).Skip?
      {
        if Decide(project.jobs[i], branches, tags, policy, now).Clean? {
          CleanedIff(project.jobs, branches, tags, policy, now, Decide(project.jobs[i], branches, tags, policy, now).description);
        }
      }
    }
  }

  /** Everything one project adds to the run. */
  function ScanProject(prev: RunState, project: Project, policy: Policy, now: int, dryRun: bool): RunState {
    var p := ProjectRun(project, policy, now, dryRun);
    RunState(prev.calls + p.calls, prev.events + p.events, prev.jobCount + p.jobCount, prev.size + p.size,
      prev.repositoryCount + 1, None)
  }

  /** Nothing scanned yet. */
  const Initial: RunState := RunState([], [], 0, 0, 0, None)

  /** The repositories from index `i` on, scanned in order after `state`; a
      path the server does not find raises, and nothing after it is
      scanned. */
  function ScanFrom(paths: seq<string>, i: nat, state: RunState, server: Server, policy: Policy, now: int, dryRun: bool): RunState
    requires i <= |paths|
    decreases |paths| - i
  {
    if i == |paths| then state
    else if paths[i] !in server.projects then state.(error := Some(ProjectGetError(paths[i])))
    else ScanFrom(paths, i + 1, ScanProject(state, server.projects[paths[i]], policy, now, dryRun), server, policy, now, dryRun)
  }

  function ScanAll(paths: seq<string>, server: Server, policy: Policy, now: int, dryRun: bool): RunState {
    ScanFrom(paths, 0, Initial, server, policy, now, dryRun)
  }

  /** The run: a day count a `timedelta` cannot hold raises before any
      repository is scanned; otherwise the grand total is reported only
      after more than one repository was scanned without error. */
  function Run(paths: seq<string>, server: Server, policy: Policy, now: int, dryRun: bool): RunState {
    if KeepTimedeltaOverflows(policy.daysToKeep) then Initial.(error := Some(KeepTimedeltaOverflow(policy.daysToKeep)))
    else
      var s := ScanAll(paths, server, policy, now, dryRun);
      if s.error.None? && s.repositoryCount > 1 then s.(events := s.events + [TotalSummaryEvent(s.jobCount, s.size)])
      else s
  }

  /** The cleaned jobs of one more job. */
  function CleanedOne(job: Job, branches: map<string, string>, tags: map<string, string>, policy: Policy, now: int): seq<Description> {
    match Decide(job, branches, tags, policy, now)
    case Clean(d) => [d]
    case Skip(_) => []
  }

  lemma CleanedStep(jobs: seq<Job>, j: nat, branches: map<string, string>, tags: map<string, string>, policy: Policy, now: int)
    requires j < |jobs|
    ensures Cleaned(jobs[..j + 1], branches, tags, policy, now)
      == Cleaned(jobs[..j], branches, tags, policy, now) + CleanedOne(jobs[j], branches, tags, policy, now)
  {
    assert jobs[..j + 1][..j] == jobs[..j];
  }

  /** One turn of the job loop keeps its effects equal to those of the
      cleaned prefix. */
  lemma JobLoopStep(jobs: seq<Job>, j: nat, branches: map<string, string>, tags: map<string, string>, path: string,
                    policy: Policy, now: int, dryRun: bool, calls0: seq<Call>, log0: seq<Event>,
                    callsBefore: seq<Call>, logBefore: seq<Event>, callsAfter: seq<Call>, logAfter: seq<Event>,
                    jobCount: int, size: int, jobCountJob: int, sizeJob: int)
    requires j < |jobs|
    requires var done := Cleaned(jobs[..j], branches, tags, policy, now);
      && callsBefore == calls0 + JobCalls(done, path, policy.deleteLogs, dryRun)
      && logBefore == log0 + JobEvents(done, policy.deleteLogs, dryRun)
      && jobCount == |done| && size == TotalSize(done)
    requires var more := CleanedOne(jobs[j], branches, tags, policy, now);
      && callsAfter == callsBefore + JobCalls(more, path, policy.deleteLogs, dryRun)
      && logAfter == logBefore + JobEvents(more, policy.deleteLogs, dryRun)
      && jobCountJob == |more| && sizeJob == TotalSize(more)
    ensures var done := Cleaned(jobs[..j + 1], branches, tags, policy, now);
      && callsAfter == calls0 + JobCalls(done, path, policy.deleteLogs, dryRun)
      && logAfter == log0 + JobEvents(done, policy.deleteLogs, dryRun)
      && jobCount + jobCountJob == |done| && size + sizeJob == TotalSize(done)
  {
    var done := Cleaned(jobs[..j], branches, tags, policy, now);
    var more := CleanedOne(jobs[j], branches, tags, policy, now);
    CleanedStep(jobs, j, branches, tags, policy, now);
    EffectsAppend(done, more, path, policy.deleteLogs, dryRun);
    assert callsAfter == calls0 + (JobCalls(done, path, policy.deleteLogs, dryRun) + JobCalls(more, path, policy.deleteLogs, dryRun));
    assert logAfter == log0 + (JobEvents(done, policy.deleteLogs, dryRun) + JobEvents(more, policy.deleteLogs, dryRun));
  }

  /** Calls, messages and sizes of one more cleaned job are appended. */
  lemma EffectsAppend(descriptions: seq<Description>, more: seq<Description>, projectPath: string, deleteLogs: bool, dryRun: bool)
    requires |more| <= 1
    ensures JobCalls(descriptions + more, projectPath, deleteLogs, dryRun)
      == JobCalls(descriptions, projectPath, deleteLogs, dryRun) + JobCalls(more, projectPath, deleteLogs, dryRun)
    ensures JobEvents(descriptions + more, deleteLogs, dryRun)
      == JobEvents(descriptions, deleteLogs, dryRun) + JobEvents(more, deleteLogs, dryRun)
    ensures TotalSize(descriptions + more) == TotalSize(descriptions) + TotalSize(more)
    ensures |descriptions + more| == |descriptions| + |more|
  {
    if |more| == 1 {
      assert (descriptions + more)[..|descriptions|] == descriptions;
      assert more[..0] == [];
    } else {
      assert descriptions + more == descriptions;
    }
  }

  // ---------------------------------------------------------------------
  // The engine

  class Gitlab {
    const url: string
    const accessToken: string
    const dryRun: bool
    /** The projects the server at `url` serves. */
    const server: Server
    /** The destructive calls made on the server so far. */
    ghost var calls: seq<Call>
    /** The log messages emitted so far. */
    var log: seq<Event>

    constructor (url: string, accessToken: string, server: Server, dryRun: bool := false)
      ensures this.url == url && this.accessToken == accessToken
      ensures this.server == server && this.dryRun == dryRun
      ensures calls == [] && log == []
    {
      this.url := url;
      this.accessToken := accessToken;
      this.server := server;
      this.dryRun := dryRun;
      calls := [];
      log := [];
    }

    /** `delete_old_artifacts`: its calls, its messages and its error are
        those of `Run`. */
    method DeleteOldArtifacts(
      repositoryPaths: RepositoryPaths,
      daysToKeep: int,
      now: int,
      keepLatestBranchCommit: bool := true,
      keepTags: bool := true,
      deleteLogs: bool := false)
      returns (error: Option<RunError>)
      modifies this
      ensures var r := Run(PathList(repositoryPaths), server,
        Policy(daysToKeep, keepLatestBranchCommit, keepTags, deleteLogs), now, dryRun);
        && calls == old(calls) + r.calls
        && log == old(log) + r.events
        && error == r.error
    {
      var policy := Policy(daysToKeep, keepLatestBranchCommit, keepTags, deleteLogs);
      if KeepTimedeltaOverflows(daysToKeep) {
        error := Some(KeepTimedeltaOverflow(daysToKeep));
        return;
      }
      var jobCountTotal, sizeTotal, repositoryCount;
      error, jobCountTotal, sizeTotal, repositoryCount := ScanRepositories(PathList(repositoryPaths), policy, now);
      if error.None? && repositoryCount > 1 {
        log := log + [TotalSummaryEvent(jobCountTotal, sizeTotal)];
      }
    }

    /** The repository loop: every project in turn, stopping at the first
        path the server does not know. */
    method ScanRepositories(paths: seq<string>, policy: Policy, now: int)
      returns (error: Option<RunError>, jobCountTotal: nat, sizeTotal: int, repositoryCount: nat)
      modifies this
      ensures var r := ScanAll(paths, server, policy, now, dryRun);
        && calls == old(calls) + r.calls && log == old(log) + r.events
        && error == r.error && jobCountTotal == r.jobCount && sizeTotal == r.size
        && repositoryCount == r.repositoryCount
    {
      sizeTotal, jobCountTotal, repositoryCount := 0, 0, 0;
      var i := 0;
      ghost var state := Initial;
      ghost var result := ScanAll(paths, server, policy, now, dryRun);
      while i < |paths|
        invariant 0 <= i <= |paths|
        invariant ScanFrom(paths, i, state, server, policy, now, dryRun) == result
        invariant state.error.None?
        invariant calls == old(calls) + state.calls && log == old(log) + state.events
        invariant jobCountTotal == state.jobCount && sizeTotal == state.size
        invariant repositoryCount == state.repositoryCount
      {
        var path := paths[i];
        if path !in server.projects {
          assert result == state.(error := Some(ProjectGetError(path)));
          error := Some(ProjectGetError(path));
          return;
        }
        var project := server.projects[path];
        ghost var next := ScanProject(state, project, policy, now, dryRun);
        assert ScanFrom(paths, i + 1, next, server, policy, now, dryRun) == result;
        var jobCountProject, sizeProject := ScanRepository(project, policy, now);
        jobCountTotal := jobCountTotal + jobCountProject;
        sizeTotal := sizeTotal + sizeProject;
        repositoryCount := repositoryCount + 1;
        ghost var p := ProjectRun(project, policy, now, dryRun);
        assert calls == old(calls) + (state.calls + p.calls);
        assert log == old(log) + (state.events + p.events);
        state := next;
        i := i + 1;
      }
      assert result == state;
      error := None;
    }

    /** The body of the repository loop once the project is found: the
        project's messages around its job loop. */
    method ScanRepository(project: Project, policy: Policy, now: int) returns (jobCount: nat, size: int)
      modifies this
      ensures var p := ProjectRun(project, policy, now, dryRun);
        && calls == old(calls) + p.calls && log == old(log) + p.events
        && jobCount == p.jobCount && size == p.size
    {
      log := log + [Scanning(project.pathWithNamespace)];
      jobCount, size := CleanProject(project, policy, now);
      log := log + [ProjectSummaryEvent(project.pathWithNamespace, jobCount, size)];
    }

    /** The job loop of one project: the cleaned jobs' calls and messages,
        their number and their reclaimed size. */
    method CleanProject(project: Project, policy: Policy, now: int) returns (jobCount: nat, size: int)
      modifies this
      ensures var cleaned := ProjectCleaned(project, policy, now);
        && calls == old(calls) + JobCalls(cleaned, project.pathWithNamespace, policy.deleteLogs, dryRun)
        && log == old(log) + JobEvents(cleaned, policy.deleteLogs, dryRun)
        && jobCount == |cleaned| && size == TotalSize(cleaned)
    {
      var branches := RefIndex(project.branches);
      var tags := RefIndex(project.tags);
      jobCount, size := CleanJobs(project.jobs, branches, tags, project.pathWithNamespace, policy, now);
    }

    /** `for job in project.jobs.list(...)`, given the branch and tag
        indexes of the project. */
    method CleanJobs(jobs: seq<Job>, branches: map<string, string>, tags: map<string, string>, path: string, policy: Policy, now: int)
      returns (jobCount: nat, size: int)
      modifies this
      ensures var cleaned := Cleaned(jobs, branches, tags, policy, now);
        && calls == old(calls) + JobCalls(cleaned, path, policy.deleteLogs, dryRun)
        && log == old(log) + JobEvents(cleaned, policy.deleteLogs, dryRun)
        && jobCount == |cleaned| && size == TotalSize(cleaned)
    {
      jobCount, size := 0, 0;
      ghost var calls0, log0 := calls, log;
      var j := 0;
      while j < |jobs|
        invariant 0 <= j <= |jobs|
        invariant var done := Cleaned(jobs[..j], branches, tags, policy, now);
          && calls == calls0 + JobCalls(done, path, policy.deleteLogs, dryRun)
          && log == log0 + JobEvents(done, policy.deleteLogs, dryRun)
          && jobCount == |done| && size == TotalSize(done)
      {
        ghost var callsBefore, logBefore := calls, log;
        var jobCountJob, sizeJob := CleanJob(jobs[j], branches, tags, path, policy, now);
        JobLoopStep(jobs, j, branches, tags, path, policy, now, dryRun, calls0, log0, callsBefore, logBefore, calls, log, jobCount, size, jobCountJob, sizeJob);
        jobCount := jobCount + jobCountJob;
        size := size + sizeJob;
        j := j + 1;
      }
      assert jobs[..j] == jobs;
    }

    /** The body of the job loop: a job that passes the guards is deleted
        (or erased with its log) unless this is a dry run, and is logged. */
    method CleanJob(job: Job, branches: map<string, string>, tags: map<string, string>, path: string, policy: Policy, now: int)
      returns (jobCount: nat, size: int)
      modifies this
      ensures var more := CleanedOne(job, branches, tags, policy, now);
        && calls == old(calls) + JobCalls(more, path, policy.deleteLogs, dryRun)
        && log == old(log) + JobEvents(more, policy.deleteLogs, dryRun)
        && jobCount == |more| && size == TotalSize(more)
    {
      var decision := Decide(job, branches, tags, policy, now);
      if decision.Skip? {
        return 0, 0;
      }
      var description := decision.description;
      assert [description][..0] == [];
      if policy.deleteLogs {
        if !dryRun {
          calls := calls + [Call(Erase, path, job.id)];
        }
        log := log + [JobCleaned(dryRun, true, description)];
      } else {
        if !dryRun {
          calls := calls + [Call(DeleteArtifacts, path, job.id)];
        }
        log := log + [JobCleaned(dryRun, false, description)];
      }
      jobCount, size := 1, description.size;
    }
  }

  // ---------------------------------------------------------------------
  // Properties of a run

  /** Scanning from `i` when the first path from `i` on that the server
      does not find is at `k`: the effects are those of the paths before
      `k`, and the error names `paths[k]`. */
  lemma {:induction false} ScanFromMissing(paths: seq<string>, i: nat, k: nat, state: RunState, server: Server, policy: Policy, now: int, dryRun: bool)
    requires i <= k < |paths| && paths[k] !in server.projects
    requires forall j :: i <= j < k ==> paths[j] in server.projects
    ensures ScanFrom(paths, i, state, server, policy, now, dryRun)
      == ScanFrom(paths[..k], i, state, server, policy, now, dryRun).(error := Some(ProjectGetError(paths[k])))
    decreases k - i
  {
    if i < k {
      assert paths[..k][i] == paths[i];
      ScanFromMissing(paths, i + 1, k, ScanProject(state, server.projects[paths[i]], policy, now, dryRun), server, policy, now, dryRun);
    }
  }

  /** The first path the server does not find is the one the error names,
      and no later repository is scanned: the calls, messages and totals are
      those of the paths before it. */
  lemma FirstMissingPathRaises(paths: seq<string>, k: nat, server: Server, policy: Policy, now: int, dryRun: bool)
    requires k < |paths| && paths[k] !in server.projects
    requires forall j :: 0 <= j < k ==> paths[j] in server.projects
    ensures ScanAll(paths, server, policy, now, dryRun)
      == ScanAll(paths[..k], server, policy, now, dryRun).(error := Some(ProjectGetError(paths[k])))
    ensures !KeepTimedeltaOverflows(policy.daysToKeep) ==>
      Run(paths, server, policy, now, dryRun) == ScanAll(paths, server, policy, now, dryRun)
  {
    ScanFromMissing(paths, 0, k, Initial, server, policy, now, dryRun);
  }

  /** Scanning from `i` ends without error exactly when the server finds
      every path from `i` on, and then each of them was scanned. */
  lemma {:induction false} ScanFromNoError(paths: seq<string>, i: nat, state: RunState, server: Server, policy: Policy, now: int, dryRun: bool)
    requires i <= |paths| && state.error.None?
    ensures ScanFrom(paths, i, state, server, policy, now, dryRun).error.None? <==>
      forall j :: i <= j < |paths| ==> paths[j] in server.projects
    ensures ScanFrom(paths, i, state, server, policy, now, dryRun).error.None? ==>
      ScanFrom(paths, i, state, server, policy, now, dryRun).repositoryCount == state.repositoryCount + |paths| - i
    decreases |paths| - i
  {
    if i < |paths| && paths[i] in server.projects {
      ScanFromNoError(paths, i + 1, ScanProject(state, server.projects[paths[i]], policy, now, dryRun), server, policy, now, dryRun);
    }
  }

  /** A run ends without error exactly when every path names a project,
      and then every repository was scanned. */
  lemma AllFoundNoError(paths: seq<string>, server: Server, policy: Policy, now: int, dryRun: bool)
    ensures ScanAll(paths, server, policy, now, dryRun).error.None? <==> forall j :: 0 <= j < |paths| ==> paths[j] in server.projects
    ensures ScanAll(paths, server, policy, now, dryRun).error.None? ==> ScanAll(paths, server, policy, now, dryRun).repositoryCount == |paths|
  {
    ScanFromNoError(paths, 0, Initial, server, policy, now, dryRun);
  }

  /** A day count a `timedelta` cannot hold raises before anything else:
      no repository is looked up, no call is made and nothing is logged. */
  lemma OverflowScansNothing(paths: seq<string>, server: Server, policy: Policy, now: int, dryRun: bool)
    ensures var r := Run(paths, server, policy, now, dryRun);
      && (r.error == Some(KeepTimedeltaOverflow(policy.daysToKeep)) <==> KeepTimedeltaOverflows(policy.daysToKeep))
      && (KeepTimedeltaOverflows(policy.daysToKeep) ==>
            r.calls == [] && r.events == [] && r.jobCount == 0 && r.size == 0 && r.repositoryCount == 0)
  {
    if !KeepTimedeltaOverflows(policy.daysToKeep) {
      ScanFromErrors(paths, 0, Initial, server, policy, now, dryRun);
    }
  }

  /** Scanning only ever raises `ProjectGetError`. */
  lemma {:induction false} ScanFromErrors(paths: seq<string>, i: nat, state: RunState, server: Server, policy: Policy, now: int, dryRun: bool)
    requires i <= |paths| && state.error.None?
    ensures ScanFrom(paths, i, state, server, policy, now, dryRun).error.None?
      || ScanFrom(paths, i, state, server, policy, now, dryRun).error.value.ProjectGetError?
    decreases |paths| - i
  {
    if i < |paths| && paths[i] in server.projects {
      ScanFromErrors(paths, i + 1, ScanProject(state, server.projects[paths[i]], policy, now, dryRun), server, policy, now, dryRun);
    }
  }

  /** With a day count a `timedelta` holds, the grand total is reported
      exactly when the run found every repository and there were more than
      one; it is the last message. */
  lemma TotalSummaryIff(paths: seq<string>, server: Server, policy: Policy, now: int, dryRun: bool)
    requires !KeepTimedeltaOverflows(policy.daysToKeep)
    ensures var r := Run(paths, server, policy, now, dryRun);
      var s := ScanAll(paths, server, policy, now, dryRun);
      && (|r.events| == |s.events| + 1 <==> |paths| > 1 && forall j :: 0 <= j < |paths| ==> paths[j] in server.projects)
      && (|r.events| == |s.events| + 1 ==> r.events[|s.events|] == TotalSummaryEvent(s.jobCount, s.size))
      && r.calls == s.calls && r.error == s.error
  {
    AllFoundNoError(paths, server, policy, now, dryRun);
  }

  /** A single repository never gets a grand total. */
  lemma SinglePathNoTotal(path: string, server: Server, policy: Policy, now: int, dryRun: bool)
    ensures !KeepTimedeltaOverflows(policy.daysToKeep) ==>
      Run(PathList(Single(path)), server, policy, now, dryRun) == ScanAll([path], server, policy, now, dryRun)
  {
    AllFoundNoError([path], server, policy, now, dryRun);
  }

  lemma {:induction false} JobCallsFacts(descriptions: seq<Description>, projectPath: string, deleteLogs: bool, dryRun: bool)
    ensures dryRun ==> JobCalls(descriptions, projectPath, deleteLogs, dryRun) == []
    ensures !dryRun ==> |JobCalls(descriptions, projectPath, deleteLogs, dryRun)| == |descriptions|
    ensures forall c :: c in JobCalls(descriptions, projectPath, deleteLogs, dryRun) ==>
      c.kind == (if deleteLogs then Erase else DeleteArtifacts)
  {
    if |descriptions| > 0 {
      JobCallsFacts(descriptions[..|descriptions| - 1], projectPath, deleteLogs, dryRun);
    }
  }

  /** The calls of a run are what makes a state well-formed: none in a dry
      run, one per cleaned job otherwise, all of the kind the policy asks. */
  ghost predicate CallsAgree(s: RunState, policy: Policy, dryRun: bool) {
    && (dryRun ==> s.calls == [])
    && (!dryRun ==> |s.calls| == s.jobCount)
    && (forall c :: c in s.calls ==> c.kind == (if policy.deleteLogs then Erase else DeleteArtifacts))
  }

  lemma {:induction false} ScanFromCalls(paths: seq<string>, i: nat, state: RunState, server: Server, policy: Policy, now: int, dryRun: bool)
    requires i <= |paths| && CallsAgree(state, policy, dryRun)
    ensures CallsAgree(ScanFrom(paths, i, state, server, policy, now, dryRun), policy, dryRun)
    decreases |paths| - i
  {
    if i < |paths| && paths[i] in server.projects {
      var p := server.projects[paths[i]];
      JobCallsFacts(ProjectCleaned(p, policy, now), p.pathWithNamespace, policy.deleteLogs, dryRun);
      ScanFromCalls(paths, i + 1, ScanProject(state, p, policy, now, dryRun), server, policy, now, dryRun);
    }
  }

  /** A dry run makes no destructive call; otherwise there is exactly one
      call per cleaned job, `erase` when logs go too and `delete_artifacts`
      otherwise. */
  lemma RunCalls(paths: seq<string>, server: Server, policy: Policy, now: int, dryRun: bool)
    ensures var r := Run(paths, server, policy, now, dryRun);
      && (dryRun ==> r.calls == [])
      && (!dryRun ==> |r.calls| == r.jobCount)
      && (forall c :: c in r.calls ==> c.kind == (if policy.deleteLogs then Erase else DeleteArtifacts))
  {
    ScanFromCalls(paths, 0, Initial, server, policy, now, dryRun);
  }

  /** The cleaned-job count and the size of the found projects from `i` on. */
  function FoundTotals(paths: seq<string>, i: nat, server: Server, policy: Policy, now: int): (int, int)
    requires i <= |paths|
    decreases |paths| - i
  {
    if i == |paths| || paths[i] !in server.projects then (0, 0)
    else
      var cleaned := ProjectCleaned(server.projects[paths[i]], policy, now);
      var rest := FoundTotals(paths, i + 1, server, policy, now);
      (|cleaned| + rest.0, TotalSize(cleaned) + rest.1)
  }

  lemma {:induction false} ScanFromTotals(paths: seq<string>, i: nat, state: RunState, server: Server, policy: Policy, now: int, dryRun: bool)
    requires i <= |paths|
    ensures var r := ScanFrom(paths, i, state, server, policy, now, dryRun);
      var t := FoundTotals(paths, i, server, policy, now);
      r.jobCount == state.jobCount + t.0 && r.size == state.size + t.1
    decreases |paths| - i
  {
    if i < |paths| && paths[i] in server.projects {
      ScanFromTotals(paths, i + 1, ScanProject(state, server.projects[paths[i]], policy, now, dryRun), server, policy, now, dryRun);
    }
  }

  /** The run totals are the sums of the project totals, up to the first
      path the server does not find; they are zero when the day count
      overflows, since nothing is scanned. */
  lemma RunTotalsAreSums(paths: seq<string>, server: Server, policy: Policy, now: int, dryRun: bool)
    ensures var r := Run(paths, server, policy, now, dryRun);
      var t := if KeepTimedeltaOverflows(policy.daysToKeep) then (0, 0) else FoundTotals(paths, 0, server, policy, now);
      r.jobCount == t.0 && r.size == t.1
  {
    ScanFromTotals(paths, 0, Initial, server, policy, now, dryRun);
  }

  /** A repository whose jobs all lack artifacts adds nothing to the
      counters and no destructive call. */
  lemma {:induction false} EmptyJobsCleanNothing(jobs: seq<Job>, branches: map<string, string>, tags: map<string, string>, policy: Policy, now: int)
    requires forall i :: 0 <= i < |jobs| ==> |jobs[i].artifacts| == 0
    ensures Cleaned(jobs, branches, tags, policy, now) == []
  {
    if |jobs| > 0 {
      EmptyJobsCleanNothing(jobs[..|jobs| - 1], branches, tags, policy, now);
    }
  }

  // An end-to-end run over two projects, not a dry run, that keeps branch
  // heads and tags for seven days.

  const ScenarioNow := 100 * SecondsPerDay
  const ScenarioPast := 10 * SecondsPerDay
  const ScenarioArtifacts := [Artifact("archive", Some(2048)), Artifact("trace", None)]
  const ScenarioPolicy := Policy(7, true, true, false)

  /** Project "group/a": a job on the branch head, one on the tagged
      commit, an old and a young job on a commit no ref points to, and a
      job without artifacts. */
  const ScenarioProjectA := Project("group/a", [RefHead("main", "c1")], [RefHead("v1", "c0")], [
    Job(1, "main", Some("c1"), ScenarioPast, "t1", ScenarioArtifacts),
    Job(2, "v1", Some("c0"), ScenarioPast, "t2", ScenarioArtifacts),
    Job(3, "main", Some("c9"), ScenarioPast, "t3", ScenarioArtifacts),
    Job(4, "main", Some("c9"), ScenarioNow - SecondsPerDay, "t4", ScenarioArtifacts),
    Job(5, "main", None, ScenarioPast, "t5", [])])

  /** Project "group/b": no jobs at all. */
  const ScenarioProjectB := Project("group/b", [], [], [])

  /** In project "group/a" only the old dangling job is cleaned. */
  lemma ScenarioProjectACleaned()
    ensures ProjectCleaned(ScenarioProjectA, ScenarioPolicy, ScenarioNow)
      == [Description(3, "t3", 2048, None, None)]
  {
    var jobs := ScenarioProjectA.jobs;
    var now := ScenarioNow;
    var branches := map["main" := "c1"];
    var tags := map["v1" := "c0"];
    var policy := ScenarioPolicy;
    var archive := ScenarioArtifacts;
    assert RefIndex(ScenarioProjectA.branches) == branches;
    assert RefIndex(ScenarioProjectA.tags) == tags;
    assert IsArchive(archive[0]);
    assert ReclaimedSize(archive, false) == 2048 by {
      assert archive[..1] == [Artifact("archive", Some(2048))];
      assert archive[..1][..0] == [];
    }
    assert CleanedOne(jobs[0], branches, tags, policy, now) == [] by {
      assert Decide(jobs[0], branches, tags, policy, now) == Skip(LatestBranchCommit);
    }
    assert CleanedOne(jobs[1], branches, tags, policy, now) == [] by {
      assert Decide(jobs[1], branches, tags, policy, now) == Skip(TaggedCommit);
    }
    assert CleanedOne(jobs[2], branches, tags, policy, now) == [Description(3, "t3", 2048, None, None)] by {
      assert Decide(jobs[2], branches, tags, policy, now) == Clean(Description(3, "t3", 2048, None, None));
    }
    assert CleanedOne(jobs[3], branches, tags, policy, now) == [] by {
      assert Decide(jobs[3], branches, tags, policy, now) == Skip(TooYoung);
    }
    assert CleanedOne(jobs[4], branches, tags, policy, now) == [] by {
      assert Decide(jobs[4], branches, tags, policy, now) == Skip(NoArtifacts);
    }
    assert jobs[..0] == [];
    CleanedStep(jobs, 0, branches, tags, policy, now);
    CleanedStep(jobs, 1, branches, tags, policy, now);
    CleanedStep(jobs, 2, branches, tags, policy, now);
    CleanedStep(jobs, 3, branches, tags, policy, now);
    CleanedStep(jobs, 4, branches, tags, policy, now);
    assert jobs[..5] == jobs;
  }

  /** The whole run: one deletion call (logs are kept), the messages of both
      projects and the grand total, since two repositories were scanned. */
  lemma TwoProjectScenario()
    ensures var server := Server(map["group/a" := ScenarioProjectA, "group/b" := ScenarioProjectB]);
      var r := Run(["group/a", "group/b"], server, ScenarioPolicy, ScenarioNow, false);
      && r.calls == [Call(DeleteArtifacts, "group/a", 3)]
      && r.jobCount == 1 && r.size == 2048 && r.error.None?
      && r.events == [
        Scanning("group/a"),
        JobCleaned(false, false, Description(3, "t3", 2048, None, None)),
        ProjectSummary("group/a", 1, 2048),
        Scanning("group/b"),
        ProjectNothingFound("group/b"),
        TotalSummary(1, 2048)]
  {
    var server := Server(map["group/a" := ScenarioProjectA, "group/b" := ScenarioProjectB]);
    var paths := ["group/a", "group/b"];
    ScenarioProjectACleaned();
    var d := Description(3, "t3", 2048, None, None);
    assert [d][..0] == [];
    assert TotalSize([d]) == 2048;
    assert JobCalls([d], "group/a", false, false) == [Call(DeleteArtifacts, "group/a", 3)];
    assert JobEvents([d], false, false) == [JobCleaned(false, false, d)];
    var pa := ProjectRun(ScenarioProjectA, ScenarioPolicy, ScenarioNow, false);
    assert pa.calls == [Call(DeleteArtifacts, "group/a", 3)];
    assert pa.events == [Scanning("group/a"), JobCleaned(false, false, d), ProjectSummary("group/a", 1, 2048)];
    assert ProjectCleaned(ScenarioProjectB, ScenarioPolicy, ScenarioNow) == [];
    var pb := ProjectRun(ScenarioProjectB, ScenarioPolicy, ScenarioNow, false);
    assert pb.calls == [] && pb.events == [Scanning("group/b"), ProjectNothingFound("group/b")];
    var s1 := ScanProject(Initial, ScenarioProjectA, ScenarioPolicy, ScenarioNow, false);
    var s2 := ScanProject(s1, ScenarioProjectB, ScenarioPolicy, ScenarioNow, false);
    assert ScanFrom(paths, 2, s2, server, ScenarioPolicy, ScenarioNow, false) == s2;
    assert ScanFrom(paths, 1, s1, server, ScenarioPolicy, ScenarioNow, false) == s2;
    assert ScanAll(paths, server, ScenarioPolicy, ScenarioNow, false) == s2;
  }
}
