/**
 The deployment gate over CI check runs: filter to trusted items of the commit, pick the newest
 workflow run, resolve reruns of a job, and require every mandatory job to have succeeded.
 */
module CiVerification {
  import opened Common

  datatype CheckRun = CheckRun(
    name: string, headSha: string, appSlug: Option<string>, workflowPath: string, repository: string,
    runId: Option<int>, id: int, status: string, conclusion: string)

  datatype CiError =
    | InvalidSha | NoCheckRuns | MissingName | MissingSha | MissingApp | MissingWorkflow | MissingRepository
    | NoTrustedRuns | MissingRunId | MissingJob(name: string) | JobNotCompleted(name: string)
    | JobNotSuccessful(name: string)

  const REQUIRED_CI_JOBS := ["Backend", "Infrastructure", "Frontend", "Security"]

  /** What is being deployed; an empty repository switches that check off. */
  datatype Target = Target(sha: string, repository: string, workflow: string)

  /** What the later stages read of a trusted item. */
  datatype JobRun = JobRun(runId: Option<int>, name: string, id: int, completed: bool, successful: bool)

  // ---------------------------------------------------------------- one item

  function LowerChar(c: char): char {
    if 'A' <= c <= 'Z' then (c as int + 32) as char else c
  }

  function Lower(s: string): string {
    seq(|s|, i requires 0 <= i < |s| => LowerChar(s[i]))
  }

  function ForwardSlashes(s: string): string {
    seq(|s|, i requires 0 <= i < |s| => if s[i] == '\\' then '/' else s[i])
  }

  predicate StartsWith(s: string, prefix: string) {
    |prefix| <= |s| && s[..|prefix|] == prefix
  }

  predicate HasSubstring(s: string, w: string) {
    exists i :: 0 <= i <= |s| - |w| && StartsWith(s[i..], w)
  }

  predicate IsDeploymentName(name: string) {
    || name in ["Preflight Safety Gate", "CDK diff", "CDK deploy", "Deploy", "preflight-safety", "cdk-action"]
    || StartsWith(name, "CDK ")
    || (HasSubstring(Lower(name), "deploy") && !HasSubstring(Lower(name), "ci"))
  }

  datatype Screening = Refused(error: CiError) | Skipped | Trusted(job: JobRun)

  function ViewOf(c: CheckRun): JobRun {
    JobRun(c.runId, Strip(c.name), c.id, Strip(c.status) == "completed", Strip(c.conclusion) == "success")
  }

  /** The checks on one item in their order, given what its comparisons with the target say. */
  function ScreenedBy(c: CheckRun, t: Target, deployment: bool, app: bool, path: bool, repository: bool): Screening {
    if Strip(c.name) == "" then Refused(MissingName)
    else if deployment then Skipped
    else if c.headSha == "" then Refused(MissingSha)
    else if Strip(c.headSha) != t.sha then Skipped
    else if c.appSlug.None? then Refused(MissingApp)
    else if !app then Skipped
    else if c.workflowPath == "" then Refused(MissingWorkflow)
    else if !path then Skipped
    else if t.repository != "" && c.repository == "" then Refused(MissingRepository)
    else if t.repository != "" && !repository then Skipped
    else Trusted(ViewOf(c))
  }

  predicate AppMatches(c: CheckRun) {
    c.appSlug.Some? && Lower(Strip(c.appSlug.value)) == "github-actions"
  }

  predicate PathMatches(c: CheckRun, t: Target) {
    ForwardSlashes(Lower(Strip(c.workflowPath))) == Lower(t.workflow)
  }

  predicate RepositoryMatches(c: CheckRun, t: Target) {
    Lower(c.repository) == Lower(t.repository)
  }

  /** The filter applied to one item: refuse the whole list, skip the item, or trust it. */
  function Screen(c: CheckRun, t: Target): Screening {
    ScreenedBy(c, t, IsDeploymentName(Strip(c.name)), AppMatches(c), PathMatches(c, t), RepositoryMatches(c, t))
  }

  // ---------------------------------------------------------------- what being trusted means

  /** Equal up to the case of ASCII letters. */
  predicate SameChar(a: char, b: char) {
    || a == b
    || ('A' <= a <= 'Z' && b as int == a as int + 32)
    || ('A' <= b <= 'Z' && a as int == b as int + 32)
  }

  predicate SameText(a: string, b: string) {
    |a| == |b| && forall i :: 0 <= i < |a| ==> SameChar(a[i], b[i])
  }

  /** A path names an expected one: equal up to case, a backslash standing for a slash. */
  predicate SamePath(path: string, expected: string) {
    && |path| == |expected|
    && forall i :: 0 <= i < |path| ==> if path[i] == '\\' then expected[i] == '/' else SameChar(path[i], expected[i])
  }

  lemma LowerComparesText(a: string, b: string)
    ensures Lower(a) == Lower(b) <==> SameText(a, b)
  {
    if Lower(a) == Lower(b) {
      assert |a| == |Lower(a)| == |Lower(b)| == |b|;
      forall i | 0 <= i < |a| ensures SameChar(a[i], b[i]) {
        assert Lower(a)[i] == Lower(b)[i];
      }
    }
  }

  lemma LowerComparesPaths(path: string, expected: string)
    ensures ForwardSlashes(Lower(path)) == Lower(expected) <==> SamePath(path, expected)
  {
    var normal, wanted := ForwardSlashes(Lower(path)), Lower(expected);
    if normal == wanted {
      assert |path| == |normal| == |wanted| == |expected|;
      forall i | 0 <= i < |path|
        ensures if path[i] == '\\' then expected[i] == '/' else SameChar(path[i], expected[i])
      {
        assert normal[i] == wanted[i];
      }
    }
  }

  /** The job runs of the gate's own deployment: these names are passed over. */
  predicate NamesDeployment(name: string) {
    || name in {"Preflight Safety Gate", "CDK diff", "CDK deploy", "Deploy", "preflight-safety", "cdk-action"}
    || "CDK " <= name
    || (Mentions(name, "deploy") && !Mentions(name, "ci"))
  }

  /** The word stands at a position of the text, up to case. */
  predicate MentionedAt(text: string, word: string, i: int) {
    0 <= i <= |text| - |word| && SameText(text[i..i + |word|], word)
  }

  predicate Mentions(text: string, word: string) {
    exists i :: 0 <= i <= |text| && MentionedAt(text, word, i)
  }

  lemma SubstringIsMention(text: string, word: string, i: nat)
    requires Lower(word) == word && i + |word| <= |text|
    ensures StartsWith(Lower(text)[i..], word) <==> MentionedAt(text, word, i)
  {
    assert Lower(text)[i..][..|word|] == Lower(text[i..i + |word|]);
    LowerComparesText(text[i..i + |word|], word);
  }

  lemma MentionsIsSubstring(text: string, word: string)
    requires Lower(word) == word
    ensures HasSubstring(Lower(text), word) <==> Mentions(text, word)
  {
    if HasSubstring(Lower(text), word) {
      var i :| 0 <= i <= |Lower(text)| - |word| && StartsWith(Lower(text)[i..], word);
      SubstringIsMention(text, word, i);
    }
    if Mentions(text, word) {
      var i :| 0 <= i <= |text| && MentionedAt(text, word, i);
      SubstringIsMention(text, word, i);
      assert 0 <= i <= |Lower(text)| - |word| && StartsWith(Lower(text)[i..], word);
    }
  }

  /** An item that counts: named, no deployment, of this commit, this app, this workflow and repository. */
  predicate Counts(c: CheckRun, sha: string, repository: string, workflow: string) {
    && Strip(c.name) != "" && !NamesDeployment(Strip(c.name))
    && c.headSha != "" && Strip(c.headSha) == sha
    && c.appSlug.Some? && SameText(Strip(c.appSlug.value), "github-actions")
    && c.workflowPath != "" && SamePath(Strip(c.workflowPath), workflow)
    && (repository != "" ==> c.repository != "" && SameText(c.repository, repository))
  }

  /** Missing provenance on an item that still counts so far. */
  predicate LacksProvenance(c: CheckRun, sha: string, repository: string, workflow: string) {
    || Strip(c.name) == ""
    || (!NamesDeployment(Strip(c.name))
        && (c.headSha == ""
            || (Strip(c.headSha) == sha
                && (c.appSlug.None?
                    || (SameText(Strip(c.appSlug.value), "github-actions")
                        && (c.workflowPath == ""
                            || (SamePath(Strip(c.workflowPath), workflow) && repository != "" && c.repository == "")))))))
  }

  lemma DeploymentNames(name: string)
    ensures IsDeploymentName(name) <==> NamesDeployment(name)
  {
    LowerIsItself("deploy");
    LowerIsItself("ci");
    MentionsIsSubstring(name, "deploy");
    MentionsIsSubstring(name, "ci");
    assert StartsWith(name, "CDK ") <==> "CDK " <= name;
  }

  /** Field by field: which items are trusted, which refuse the whole list, and what is read of a trusted one. */
  lemma TrustedExactly(c: CheckRun, t: Target)
    ensures Screen(c, t).Trusted? <==> Counts(c, t.sha, t.repository, t.workflow)
    ensures Screen(c, t).Refused? <==> LacksProvenance(c, t.sha, t.repository, t.workflow)
    ensures Screen(c, t).Trusted? ==>
              var job := Screen(c, t).job;
              && job.runId == c.runId && job.id == c.id && job.name == Strip(c.name)
              && (job.completed <==> Strip(c.status) == "completed")
              && (job.successful <==> Strip(c.conclusion) == "success")
  {
    var deployment, app, path, repository := CompareFields(c, t);
    ScreenByChecks(c, t, deployment, app, path, repository);
    CountsByChecks(c, t, deployment, app, path, repository);
  }

  /** The four comparisons, as the code makes them and as they are meant. */
  lemma CompareFields(c: CheckRun, t: Target) returns (deployment: bool, app: bool, path: bool, repository: bool)
    ensures Screen(c, t) == ScreenedBy(c, t, deployment, app, path, repository)
    ensures deployment == NamesDeployment(Strip(c.name))
    ensures app == (c.appSlug.Some? && SameText(Strip(c.appSlug.value), "github-actions"))
    ensures path == SamePath(Strip(c.workflowPath), t.workflow)
    ensures repository == SameText(c.repository, t.repository)
  {
    DeploymentNames(Strip(c.name));
    GithubActions(if c.appSlug.Some? then Strip(c.appSlug.value) else "");
    LowerComparesPaths(Strip(c.workflowPath), t.workflow);
    LowerComparesText(c.repository, t.repository);
    deployment, app := IsDeploymentName(Strip(c.name)), AppMatches(c);
    path, repository := PathMatches(c, t), RepositoryMatches(c, t);
  }

  lemma CountsByChecks(c: CheckRun, t: Target, deployment: bool, app: bool, path: bool, repository: bool)
    requires deployment == NamesDeployment(Strip(c.name))
    requires app == (c.appSlug.Some? && SameText(Strip(c.appSlug.value), "github-actions"))
    requires path == SamePath(Strip(c.workflowPath), t.workflow) && repository == SameText(c.repository, t.repository)
    ensures Counts(c, t.sha, t.repository, t.workflow) <==>
            && Strip(c.name) != "" && !deployment && c.headSha != "" && Strip(c.headSha) == t.sha
            && c.appSlug.Some? && app && c.workflowPath != "" && path
            && (t.repository != "" ==> c.repository != "" && repository)
    ensures LacksProvenance(c, t.sha, t.repository, t.workflow) <==>
            || Strip(c.name) == ""
            || (!deployment
                && (c.headSha == ""
                    || (Strip(c.headSha) == t.sha
                        && (c.appSlug.None?
                            || (app && (c.workflowPath == "" || (path && t.repository != "" && c.repository == "")))))))
  {
  }

  /** The outcome in terms of the four comparisons. */
  lemma ScreenByChecks(c: CheckRun, t: Target, deployment: bool, app: bool, path: bool, repository: bool)
    ensures var outcome := ScreenedBy(c, t, deployment, app, path, repository);
            && (outcome.Trusted? <==>
                && Strip(c.name) != "" && !deployment && c.headSha != "" && Strip(c.headSha) == t.sha
                && c.appSlug.Some? && app && c.workflowPath != "" && path
                && (t.repository != "" ==> c.repository != "" && repository))
            && (outcome.Refused? <==>
                || Strip(c.name) == ""
                || (!deployment
                    && (c.headSha == ""
                        || (Strip(c.headSha) == t.sha
                            && (c.appSlug.None?
                                || (app && (c.workflowPath == ""
                                            || (path && t.repository != "" && c.repository == ""))))))))
            && (outcome.Trusted? ==> outcome.job == ViewOf(c))
  {
  }

  /** A refusal names the first field that is missing. */
  lemma RefusalNamesTheGap(c: CheckRun, t: Target)
    ensures Screen(c, t).Refused? ==>
              Screen(c, t).error == if Strip(c.name) == "" then MissingName else if c.headSha == "" then MissingSha
                                    else if c.appSlug.None? then MissingApp
                                    else if c.workflowPath == "" then MissingWorkflow else MissingRepository
  {
  }

  lemma GithubActions(app: string)
    ensures Lower(app) == "github-actions" <==> SameText(app, "github-actions")
  {
    LowerIsItself("github-actions");
    LowerComparesText(app, "github-actions");
  }

  lemma LowerIsItself(s: string)
    requires forall i :: 0 <= i < |s| ==> !('A' <= s[i] <= 'Z')
    ensures Lower(s) == s
  {
  }

  type Screener = CheckRun -> Screening

  function ScreenFor(t: Target): Screener {
    (c: CheckRun) => Screen(c, t)
  }

  // ---------------------------------------------------------------- the stages

  predicate ShaShape(s: string) {
    |s| == 40 && forall i :: 0 <= i < |s| ==> '0' <= s[i] <= '9' || 'a' <= s[i] <= 'f'
  }

  /** Forty small hexadecimal digits. */
  lemma ShaIsHexadecimal(s: string)
    ensures ShaShape(s) <==>
            |s| == 40 && forall c :: c in s ==> c in {'0', '1', '2', '3', '4', '5', '6', '7', '8', '9',
                                                     'a', 'b', 'c', 'd', 'e', 'f'}
  {
    forall i | 0 <= i < |s| ensures s[i] in s {
    }
    if ShaShape(s) {
      forall c | c in s
        ensures c in {'0', '1', '2', '3', '4', '5', '6', '7', '8', '9', 'a', 'b', 'c', 'd', 'e', 'f'}
      {
        var i :| 0 <= i < |s| && s[i] == c;
      }
    }
  }

  predicate NoneRefused(items: seq<CheckRun>, screen: Screener) {
    forall i :: 0 <= i < |items| ==> !screen(items[i]).Refused?
  }

  function TrustedJobs(items: seq<CheckRun>, screen: Screener): seq<JobRun> {
    if items == [] then []
    else
      var rest := TrustedJobs(items[..|items| - 1], screen);
      var last := screen(items[|items| - 1]);
      if last.Trusted? then rest + [last.job] else rest
  }

  predicate AllHaveRuns(cs: seq<JobRun>) {
    forall i :: 0 <= i < |cs| ==> cs[i].runId.Some?
  }

  /** The items of one workflow run, in order. */
  function OfRun(cs: seq<JobRun>, run: int): seq<JobRun> {
    if cs == [] then []
    else
      var rest := OfRun(cs[..|cs| - 1], run);
      if cs[|cs| - 1].runId == Some(run) then rest + [cs[|cs| - 1]] else rest
  }

  /** The job that counts for a name: a greater identifier wins, a later item among equals. */
  function LatestJob(cs: seq<JobRun>, name: string): Option<JobRun> {
    if cs == [] then None
    else
      var last := cs[|cs| - 1];
      var rest := LatestJob(cs[..|cs| - 1], name);
      if last.name != name then rest
      else if rest.None? || last.id >= rest.value.id then Some(last)
      else rest
  }

  function GreatestRun(cs: seq<JobRun>): int
    requires cs != [] && AllHaveRuns(cs)
  {
    if |cs| == 1 then cs[0].runId.value
    else Max(GreatestRun(cs[..|cs| - 1]), cs[|cs| - 1].runId.value)
  }

  predicate Passed(c: JobRun) {
    c.completed && c.successful
  }

  /** The gate on the trusted items, as computed. */
  predicate Accepts(cs: seq<JobRun>, required: seq<string>) {
    && cs != [] && AllHaveRuns(cs)
    && forall k :: 0 <= k < |required| ==>
         var latest := LatestJob(OfRun(cs, GreatestRun(cs)), required[k]);
         latest.Some? && Passed(latest.value)
  }

  /** The gate's verdict on a list. */
  predicate Opens(items: seq<CheckRun>, screen: Screener, required: seq<string>) {
    NoneRefused(items, screen) && Accepts(TrustedJobs(items, screen), required)
  }

  /** The first item that is refused, and why. */
  predicate FirstRefusal(items: seq<CheckRun>, screen: Screener, e: CiError) {
    exists k :: 0 <= k < |items| && screen(items[k]) == Refused(e) && NoneRefused(items[..k], screen)
  }

  method FilterTrusted(items: seq<CheckRun>, screen: Screener) returns (r: Result<seq<JobRun>, CiError>)
    ensures r.Ok? <==> NoneRefused(items, screen)
    ensures r.Ok? ==> r.value == TrustedJobs(items, screen)
    ensures r.Err? ==> FirstRefusal(items, screen, r.error)
  {
    var trusted: seq<JobRun> := [];
    for k := 0 to |items|
      invariant NoneRefused(items[..k], screen)
      invariant trusted == TrustedJobs(items[..k], screen)
    {
      assert items[..k + 1][..k] == items[..k];
      match screen(items[k]) {
        case Refused(e) => return Err(e);
        case Skipped =>
        case Trusted(job) => trusted := trusted + [job];
      }
    }
    assert items[..|items|] == items;
    return Ok(trusted);
  }

  function RunsOf(cs: seq<JobRun>): set<int> {
    set i | 0 <= i < |cs| && cs[i].runId.Some? :: cs[i].runId.value
  }

  ghost predicate Grouped(groups: map<int, seq<JobRun>>, cs: seq<JobRun>) {
    && (forall run :: run in groups <==> run in RunsOf(cs))
    && forall run :: run in groups ==> groups[run] == OfRun(cs, run)
  }

  method GroupByRun(cs: seq<JobRun>) returns (r: Result<map<int, seq<JobRun>>, CiError>)
    ensures r.Ok? <==> AllHaveRuns(cs)
    ensures r.Ok? ==> Grouped(r.value, cs)
    ensures r.Err? ==> r.error == MissingRunId
  {
    var groups: map<int, seq<JobRun>> := map[];
    for k := 0 to |cs|
      invariant AllHaveRuns(cs[..k])
      invariant Grouped(groups, cs[..k])
    {
      if cs[k].runId.None? {
        return Err(MissingRunId);
      }
      var run := cs[k].runId.value;
      GroupGrows(groups, cs, k);
      groups := groups[run := (if run in groups then groups[run] else []) + [cs[k]]];
    }
    assert cs[..|cs|] == cs;
    return Ok(groups);
  }

  lemma {:induction false} UnseenRunIsEmpty(cs: seq<JobRun>, run: int)
    requires run !in RunsOf(cs)
    ensures OfRun(cs, run) == []
    decreases |cs|
  {
    if cs != [] {
      var n := |cs| - 1;
      assert cs[n].runId != Some(run);
      forall i | 0 <= i < n && cs[..n][i].runId.Some? ensures cs[..n][i].runId.value in RunsOf(cs) {
        assert cs[i].runId.Some?;
      }
      UnseenRunIsEmpty(cs[..n], run);
    }
  }

  lemma GroupGrows(groups: map<int, seq<JobRun>>, cs: seq<JobRun>, k: nat)
    requires k < |cs| && Grouped(groups, cs[..k]) && cs[k].runId.Some?
    ensures var run := cs[k].runId.value;
            Grouped(groups[run := (if run in groups then groups[run] else []) + [cs[k]]], cs[..k + 1])
  {
    var run := cs[k].runId.value;
    assert cs[..k + 1][..k] == cs[..k];
    RunsGrow(cs, k);
    if run !in groups {
      UnseenRunIsEmpty(cs[..k], run);
    }
  }

  lemma RunsGrow(cs: seq<JobRun>, k: nat)
    requires k < |cs| && cs[k].runId.Some?
    ensures RunsOf(cs[..k + 1]) == RunsOf(cs[..k]) + {cs[k].runId.value}
  {
    var next := cs[..k + 1];
    assert next[k] == cs[k] && forall i :: 0 <= i < k ==> next[i] == cs[..k][i];
    forall run | run in RunsOf(cs[..k]) + {cs[k].runId.value} ensures run in RunsOf(next) {
      if run == cs[k].runId.value {
        assert next[k].runId.value == run;
      } else {
        var i :| 0 <= i < k && cs[..k][i].runId.Some? && cs[..k][i].runId.value == run;
        assert next[i].runId.value == run;
      }
    }
  }

  lemma {:induction false} GreatestIsGreatest(cs: seq<JobRun>)
    requires cs != [] && AllHaveRuns(cs)
    ensures GreatestRun(cs) in RunsOf(cs)
    ensures forall i :: 0 <= i < |cs| ==> cs[i].runId.value <= GreatestRun(cs)
    decreases |cs|
  {
    if |cs| > 1 {
      var n := |cs| - 1;
      GreatestIsGreatest(cs[..n]);
      assert cs[..n + 1] == cs;
      RunsGrow(cs, n);
    } else {
      assert cs[0].runId.value in RunsOf(cs);
    }
  }

  ghost predicate NewestByName(latest: map<string, JobRun>, cs: seq<JobRun>) {
    forall name :: (name in latest <==> LatestJob(cs, name).Some?)
                   && (name in latest ==> LatestJob(cs, name) == Some(latest[name]))
  }

  method LatestByName(cs: seq<JobRun>) returns (latest: map<string, JobRun>)
    ensures NewestByName(latest, cs)
  {
    latest := map[];
    for k := 0 to |cs|
      invariant NewestByName(latest, cs[..k])
    {
      assert cs[..k + 1][..k] == cs[..k];
      var name := cs[k].name;
      if name !in latest || cs[k].id >= latest[name].id {
        latest := latest[name := cs[k]];
      }
    }
    assert cs[..|cs|] == cs;
  }

  /** The error names a required job that is missing, unfinished or unsuccessful. */
  predicate JobErrorFits(e: CiError, latest: string -> Option<JobRun>, required: seq<string>) {
    match e
    case MissingJob(name) => name in required && latest(name).None?
    case JobNotCompleted(name) => name in required && latest(name).Some? && !latest(name).value.completed
    case JobNotSuccessful(name) =>
      name in required && latest(name).Some? && latest(name).value.completed && !latest(name).value.successful
    case _ => false
  }

  method RequireJobs(latest: map<string, JobRun>, required: seq<string>) returns (error: Option<CiError>)
    ensures error.None? <==> forall k :: 0 <= k < |required| ==> required[k] in latest && Passed(latest[required[k]])
    ensures error.Some? ==>
              JobErrorFits(error.value, name => if name in latest then Some(latest[name]) else None, required)
  {
    for k := 0 to |required|
      invariant forall j :: 0 <= j < k ==> required[j] in latest && Passed(latest[required[j]])
    {
      if required[k] !in latest {
        return Some(MissingJob(required[k]));
      }
      var job := latest[required[k]];
      if !job.completed {
        return Some(JobNotCompleted(required[k]));
      }
      if !job.successful {
        return Some(JobNotSuccessful(required[k]));
      }
    }
    return None;
  }

  /** Why a gate stays shut: the first refusal, else no trusted item, else a missing run, else a job. */
  ghost predicate ErrorFits(items: seq<CheckRun>, screen: Screener, required: seq<string>, e: CiError) {
    var cs := TrustedJobs(items, screen);
    if !NoneRefused(items, screen) then FirstRefusal(items, screen, e)
    else if cs == [] then e == NoTrustedRuns
    else if !AllHaveRuns(cs) then e == MissingRunId
    else JobErrorFits(e, name => LatestJob(OfRun(cs, GreatestRun(cs)), name), required)
  }

  /** From the list to the verdict, for any screening and any required names. */
  method VerifyItems(items: seq<CheckRun>, screen: Screener, required: seq<string>) returns (r: Option<CiError>)
    ensures r.None? <==> Opens(items, screen, required)
    ensures r.Some? ==> ErrorFits(items, screen, required, r.value)
  {
    var filtered := FilterTrusted(items, screen);
    if filtered.Err? {
      return Some(filtered.error);
    }
    var trusted := filtered.value;
    if trusted == [] {
      return Some(NoTrustedRuns);
    }
    var groups := GroupByRun(trusted);
    if groups.Err? {
      return Some(groups.error);
    }
    GreatestIsGreatest(trusted);
    var selected := groups.value[GreatestRun(trusted)];
    var latest := LatestByName(selected);
    r := RequireJobs(latest, required);
    if r.Some? {
      SameJobErrors(r.value, latest, selected, required);
    }
  }

  lemma SameJobErrors(e: CiError, latest: map<string, JobRun>, cs: seq<JobRun>, required: seq<string>)
    requires NewestByName(latest, cs)
    requires JobErrorFits(e, name => if name in latest then Some(latest[name]) else None, required)
    ensures JobErrorFits(e, name => LatestJob(cs, name), required)
  {
    if e.MissingJob? || e.JobNotCompleted? || e.JobNotSuccessful? {
      assert e.name in latest <==> LatestJob(cs, e.name).Some?;
    }
  }

  /** The gate opens exactly when the commit is well formed and its trusted items are accepted. */
  method VerifyDeploymentCi(items: seq<CheckRun>, expectedSha: string, repository: string, workflow: string)
    returns (r: Option<CiError>)
    ensures var sha := Strip(expectedSha);
            var screen := ScreenFor(Target(sha, repository, workflow));
            && (r.None? <==> ShaShape(sha) && Opens(items, screen, REQUIRED_CI_JOBS))
            && (r.None? ==> VouchedFor(items, sha, repository, workflow))
            && (!ShaShape(sha) ==> r == Some(InvalidSha))
            && (ShaShape(sha) && items == [] ==> r == Some(NoCheckRuns))
            && (ShaShape(sha) && items != [] && r.Some? ==> ErrorFits(items, screen, REQUIRED_CI_JOBS, r.value))
  {
    var sha := Strip(expectedSha);
    if !ShaShape(sha) {
      return Some(InvalidSha);
    }
    if items == [] {
      return Some(NoCheckRuns);
    }
    var target := Target(sha, repository, workflow);
    r := VerifyItems(items, ScreenFor(target), REQUIRED_CI_JOBS);
    if r.None? {
      OpenGateIsVouchedFor(items, target);
    }
  }

  lemma RequiredNames(name: string)
    requires name in {"Backend", "Infrastructure", "Frontend", "Security"}
    ensures name in REQUIRED_CI_JOBS
  {
    assert REQUIRED_CI_JOBS[0] == "Backend" && REQUIRED_CI_JOBS[1] == "Infrastructure";
    assert REQUIRED_CI_JOBS[2] == "Frontend" && REQUIRED_CI_JOBS[3] == "Security";
  }

  /** A successful job of this name on this commit, from the trusted app, workflow and repository. */
  predicate Vouches(c: CheckRun, name: string, sha: string, repository: string, workflow: string) {
    && Strip(c.name) == name && Strip(c.headSha) == sha
    && c.appSlug.Some? && SameText(Strip(c.appSlug.value), "github-actions")
    && SamePath(Strip(c.workflowPath), workflow)
    && (repository != "" ==> SameText(c.repository, repository))
    && Strip(c.status) == "completed" && Strip(c.conclusion) == "success"
  }

  ghost predicate SomeoneVouches(items: seq<CheckRun>, name: string, sha: string, repository: string, workflow: string) {
    exists i :: 0 <= i < |items| && Vouches(items[i], name, sha, repository, workflow)
  }

  /** One successful job of this very commit for each of the four names. */
  ghost predicate VouchedFor(items: seq<CheckRun>, sha: string, repository: string, workflow: string) {
    forall name :: name in {"Backend", "Infrastructure", "Frontend", "Security"} ==>
      SomeoneVouches(items, name, sha, repository, workflow)
  }

  /** An open gate rests on one successful job of this very commit for every required name. */
  lemma OpenGateIsVouchedFor(items: seq<CheckRun>, t: Target)
    requires Opens(items, ScreenFor(t), REQUIRED_CI_JOBS)
    ensures VouchedFor(items, t.sha, t.repository, t.workflow)
  {
    forall name | name in {"Backend", "Infrastructure", "Frontend", "Security"}
      ensures SomeoneVouches(items, name, t.sha, t.repository, t.workflow)
    {
      RequiredNames(name);
      RequiredJobIsVouchedFor(items, t, name);
    }
  }

  lemma RequiredJobIsVouchedFor(items: seq<CheckRun>, t: Target, name: string)
    requires Opens(items, ScreenFor(t), REQUIRED_CI_JOBS) && name in REQUIRED_CI_JOBS
    ensures SomeoneVouches(items, name, t.sha, t.repository, t.workflow)
  {
    var job := AcceptedJob(items, ScreenFor(t), REQUIRED_CI_JOBS, name);
    TrustedMembers(items, ScreenFor(t), job);
    var i :| 0 <= i < |items| && ScreenFor(t)(items[i]) == Trusted(job);
    TrustedExactly(items[i], t);
    assert Vouches(items[i], name, t.sha, t.repository, t.workflow);
  }

  lemma AcceptedJob(items: seq<CheckRun>, screen: Screener, required: seq<string>, name: string) returns (job: JobRun)
    requires Opens(items, screen, required) && name in required
    ensures job in TrustedJobs(items, screen) && job.name == name && Passed(job)
  {
    var cs := TrustedJobs(items, screen);
    var selected := OfRun(cs, GreatestRun(cs));
    job := LatestJob(selected, name).value;
    LatestJobIsNewest(selected, name);
    OfRunMembers(cs, GreatestRun(cs), job);
  }

  // ---------------------------------------------------------------- what the verdict means

  ghost predicate IsGreatestRun(s: set<JobRun>, run: int) {
    && (exists c :: c in s && c.runId == Some(run))
    && forall c :: c in s ==> c.runId.Some? && c.runId.value <= run
  }

  predicate Candidate(s: set<JobRun>, run: int, name: string, c: JobRun) {
    c in s && c.runId == Some(run) && c.name == name
  }

  /** The item with the greatest identifier among those of the run with that name. */
  ghost predicate IsNewest(s: set<JobRun>, run: int, name: string, c: JobRun) {
    Candidate(s, run, name, c) && forall d :: Candidate(s, run, name, d) ==> d.id <= c.id
  }

  ghost predicate JobPasses(s: set<JobRun>, run: int, name: string) {
    exists c :: IsNewest(s, run, name, c) && Passed(c)
  }

  /** In the newest run, the newest job of every required name is completed with success. */
  ghost predicate Passing(s: set<JobRun>, required: seq<string>) {
    exists run :: IsGreatestRun(s, run) && forall k :: 0 <= k < |required| ==> JobPasses(s, run, required[k])
  }

  predicate DistinctJobIds(cs: seq<JobRun>) {
    forall i, j :: 0 <= i < |cs| && 0 <= j < |cs| && cs[i].id == cs[j].id ==> cs[i] == cs[j]
  }

  function Elements(cs: seq<JobRun>): set<JobRun> {
    set c | c in cs
  }

  lemma {:induction false} OfRunMembers(cs: seq<JobRun>, run: int, c: JobRun)
    ensures c in OfRun(cs, run) <==> c in cs && c.runId == Some(run)
    decreases |cs|
  {
    if cs != [] {
      var n := |cs| - 1;
      OfRunMembers(cs[..n], run, c);
      assert cs == cs[..n] + [cs[n]];
    }
  }

  lemma {:induction false} LatestJobIsNewest(cs: seq<JobRun>, name: string)
    ensures var latest := LatestJob(cs, name);
            && (latest.Some? ==> latest.value in cs && latest.value.name == name)
            && forall d :: d in cs && d.name == name ==> latest.Some? && d.id <= latest.value.id
    decreases |cs|
  {
    if cs != [] {
      var n := |cs| - 1;
      LatestJobIsNewest(cs[..n], name);
      assert cs == cs[..n] + [cs[n]];
    }
  }

  lemma LatestJobOfRun(cs: seq<JobRun>, run: int, name: string)
    requires DistinctJobIds(cs)
    ensures JobPasses(Elements(cs), run, name) <==>
            LatestJob(OfRun(cs, run), name).Some? && Passed(LatestJob(OfRun(cs, run), name).value)
  {
    var latest := LatestJob(OfRun(cs, run), name);
    LatestJobIsNewest(OfRun(cs, run), name);
    forall c ensures c in OfRun(cs, run) <==> c in cs && c.runId == Some(run) {
      OfRunMembers(cs, run, c);
    }
    if latest.Some? {
      assert IsNewest(Elements(cs), run, name, latest.value);
    }
    if JobPasses(Elements(cs), run, name) {
      var c :| IsNewest(Elements(cs), run, name, c) && Passed(c);
      SameIdSameItem(cs, c, latest.value);
    }
  }

  lemma SameIdSameItem(cs: seq<JobRun>, c: JobRun, d: JobRun)
    requires DistinctJobIds(cs) && c in cs && d in cs && c.id == d.id
    ensures c == d
  {
    var i :| 0 <= i < |cs| && cs[i] == c;
    var j :| 0 <= j < |cs| && cs[j] == d;
  }

  lemma GreatestRunIsIt(cs: seq<JobRun>)
    requires cs != [] && AllHaveRuns(cs)
    ensures forall run :: IsGreatestRun(Elements(cs), run) <==> run == GreatestRun(cs)
  {
    GreatestIsGreatest(cs);
    var g := GreatestRun(cs);
    var i :| 0 <= i < |cs| && cs[i].runId.Some? && cs[i].runId.value == g;
    assert cs[i] in Elements(cs);
    forall c | c in Elements(cs) ensures c.runId.Some? && c.runId.value <= g {
      var j :| 0 <= j < |cs| && cs[j] == c;
    }
    assert IsGreatestRun(Elements(cs), g);
  }

  /** With distinct job identifiers the computed verdict is the declarative one, a matter of sets only. */
  lemma VerdictIsDeclarative(cs: seq<JobRun>, required: seq<string>)
    requires AllHaveRuns(cs) && DistinctJobIds(cs)
    ensures Accepts(cs, required) <==> Passing(Elements(cs), required)
  {
    if cs != [] {
      GreatestRunIsIt(cs);
      var g := GreatestRun(cs);
      assert IsGreatestRun(Elements(cs), g);
      forall k | 0 <= k < |required|
        ensures JobPasses(Elements(cs), g, required[k]) <==>
                LatestJob(OfRun(cs, g), required[k]).Some? && Passed(LatestJob(OfRun(cs, g), required[k]).value)
      {
        LatestJobOfRun(cs, g, required[k]);
      }
    }
  }

  lemma {:induction false} TrustedMembers(items: seq<CheckRun>, screen: Screener, job: JobRun)
    ensures job in TrustedJobs(items, screen) <==> exists i :: 0 <= i < |items| && screen(items[i]) == Trusted(job)
    decreases |items|
  {
    if items != [] {
      var n := |items| - 1;
      TrustedMembers(items[..n], screen, job);
      if job in TrustedJobs(items[..n], screen) {
        var i :| 0 <= i < n && screen(items[..n][i]) == Trusted(job);
        assert screen(items[i]) == Trusted(job);
      }
      if i :| 0 <= i < n && screen(items[i]) == Trusted(job) {
        assert screen(items[..n][i]) == Trusted(job);
      }
    }
  }

  /** Nothing is refused, and the trusted items carry integer run identities and distinct job identifiers. */
  predicate WellFormed(items: seq<CheckRun>, screen: Screener) {
    && NoneRefused(items, screen)
    && AllHaveRuns(TrustedJobs(items, screen)) && DistinctJobIds(TrustedJobs(items, screen))
  }

  function TrustedSet(items: seq<CheckRun>, screen: Screener): set<JobRun> {
    Elements(TrustedJobs(items, screen))
  }

  /**
   On well-formed items the gate opens exactly when, in the greatest trusted run of the commit, the
   greatest job of each required name is completed with success.
   */
  lemma GateMeaning(items: seq<CheckRun>, t: Target)
    requires WellFormed(items, ScreenFor(t))
    ensures Opens(items, ScreenFor(t), REQUIRED_CI_JOBS) <==>
            Passing(TrustedSet(items, ScreenFor(t)), REQUIRED_CI_JOBS)
  {
    GateMeaningFor(items, ScreenFor(t), REQUIRED_CI_JOBS);
  }

  lemma GateMeaningFor(items: seq<CheckRun>, screen: Screener, required: seq<string>)
    requires WellFormed(items, screen)
    ensures Opens(items, screen, required) <==> Passing(TrustedSet(items, screen), required)
  {
    VerdictIsDeclarative(TrustedJobs(items, screen), required);
  }

  lemma SubsetOfTrusted(a: seq<CheckRun>, b: seq<CheckRun>, screen: Screener)
    requires forall c :: c in a ==> c in b
    ensures TrustedSet(a, screen) <= TrustedSet(b, screen)
    ensures NoneRefused(b, screen) ==> NoneRefused(a, screen)
  {
    forall job | job in TrustedJobs(a, screen) ensures job in TrustedJobs(b, screen) {
      TrustedMembers(a, screen, job);
      TrustedMembers(b, screen, job);
      var i :| 0 <= i < |a| && screen(a[i]) == Trusted(job);
      assert a[i] in b;
    }
    forall i | 0 <= i < |a| && NoneRefused(b, screen) ensures !screen(a[i]).Refused? {
      assert a[i] in b;
    }
  }

  lemma WellFormedBySet(a: seq<JobRun>, b: seq<JobRun>)
    requires Elements(a) == Elements(b) && AllHaveRuns(a) && DistinctJobIds(a)
    ensures AllHaveRuns(b) && DistinctJobIds(b)
  {
    forall i | 0 <= i < |b| ensures b[i] in a {
      assert b[i] in Elements(b);
    }
    forall i, j | 0 <= i < |b| && 0 <= j < |b| && b[i].id == b[j].id ensures b[i] == b[j] {
      SameIdSameItem(a, b[i], b[j]);
    }
  }

  /** Reordering or repeating items does not change the verdict. */
  lemma OrderAndRepetitionDoNotMatter(a: seq<CheckRun>, b: seq<CheckRun>, screen: Screener, required: seq<string>)
    requires WellFormed(a, screen)
    requires forall c :: c in a <==> c in b
    ensures WellFormed(b, screen) && (Opens(a, screen, required) <==> Opens(b, screen, required))
  {
    SubsetOfTrusted(a, b, screen);
    SubsetOfTrusted(b, a, screen);
    WellFormedBySet(TrustedJobs(a, screen), TrustedJobs(b, screen));
    GateMeaningFor(a, screen, required);
    GateMeaningFor(b, screen, required);
  }

  /** Items of older runs, wherever they are inserted and whatever they report, do not matter. */
  lemma OlderRunsDoNotMatter(a: seq<CheckRun>, b: seq<CheckRun>, screen: Screener, required: seq<string>, run: int)
    requires WellFormed(a, screen) && WellFormed(b, screen)
    requires forall c :: c in a ==> c in b
    requires IsGreatestRun(TrustedSet(a, screen), run)
    requires forall job :: job in TrustedSet(b, screen) ==> job in TrustedSet(a, screen) || OlderThan(job, run)
    ensures Opens(a, screen, required) <==> Opens(b, screen, required)
  {
    GateMeaningFor(a, screen, required);
    GateMeaningFor(b, screen, required);
    SubsetOfTrusted(a, b, screen);
    OlderItemsDoNotMatter(TrustedSet(a, screen), TrustedSet(b, screen), run, required);
  }

  predicate OlderThan(job: JobRun, run: int) {
    job.runId.Some? && job.runId.value < run
  }

  lemma OneGreatestRun(s: set<JobRun>, r: int, q: int)
    requires IsGreatestRun(s, r) && IsGreatestRun(s, q)
    ensures r == q
  {
  }

  lemma OlderItemsDoNotMatter(s: set<JobRun>, u: set<JobRun>, run: int, required: seq<string>)
    requires s <= u && IsGreatestRun(s, run)
    requires forall c :: c in u ==> c in s || OlderThan(c, run)
    ensures Passing(s, required) <==> Passing(u, required)
  {
    assert IsGreatestRun(u, run);
    forall k | 0 <= k < |required| ensures JobPasses(s, run, required[k]) <==> JobPasses(u, run, required[k]) {
      SamePassing(s, u, run, required[k]);
    }
    forall r ensures IsGreatestRun(s, r) ==> r == run {
      if IsGreatestRun(s, r) {
        OneGreatestRun(s, r, run);
      }
    }
    forall r ensures IsGreatestRun(u, r) ==> r == run {
      if IsGreatestRun(u, r) {
        OneGreatestRun(u, r, run);
      }
    }
  }

  lemma SamePassing(s: set<JobRun>, u: set<JobRun>, run: int, name: string)
    requires s <= u && forall c :: c in u ==> c in s || OlderThan(c, run)
    ensures JobPasses(s, run, name) <==> JobPasses(u, run, name)
  {
    forall c ensures Candidate(s, run, name, c) <==> Candidate(u, run, name, c) {
    }
    forall c ensures IsNewest(s, run, name, c) <==> IsNewest(u, run, name, c) {
    }
  }
}
