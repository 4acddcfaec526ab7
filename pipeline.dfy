/** The pipeline driver (main.py): the required-variable check and the run —
    fetch, then per commit generate and publish, then export and deploy. The
    generation service, WordPress, the exporter and git are oracles; every
    call the run makes on them is recorded, in order, as a `Call`. */
module Pipeline {
  import opened Common
  import opened Transform
  import opened Ingest
  import opened Publishing
  import opened Deployment

  /** The variables whose absence, or emptiness, aborts the run, in the order checked. */
  const RequiredVars: seq<string> := [
    "GITHUB_TOKEN", "GITHUB_REPO", "GEMINI_API_KEY", "WP_XMLRPC_URL",
    "WP_USERNAME", "WP_APP_PASSWORD", "SIMPLY_STATIC_EXPORT_PATH", "GITHUB_PAGES_REPO_URL"]

  /** The variables that are read but may be missing. */
  const OptionalVars: seq<string> := [
    "NOTION_TOKEN", "NOTION_DATABASE_ID", "WP_URL", "SIMPLY_STATIC_TRIGGER_URL"]

  const Tags: seq<string> := ["automated", "github", "gemini"]
  const Categories: seq<string> := ["Development"]
  const DeployMessage := "Automated blog update from pipeline"

  /** `os.getenv(name)`. */
  function Getenv(env: map<string, string>, name: string): Option<string> {
    if name in env then Some(env[name]) else None
  }

  /** A variable passes the check when it is set to a non-empty value. */
  predicate Present(env: map<string, string>, name: string) {
    name in env && env[name] != ""
  }

  /** The index of the first name that is not present, or `|names|`. */
  function FirstMissing(env: map<string, string>, names: seq<string>): (k: nat)
    ensures k <= |names|
    ensures forall j :: 0 <= j < k ==> Present(env, names[j])
    ensures k < |names| ==> !Present(env, names[k])
    decreases |names|
  {
    if names == [] then 0
    else if !Present(env, names[0]) then 0
    else 1 + FirstMissing(env, names[1..])
  }

  datatype Config = Config(
    githubToken: string, githubRepo: string, geminiApiKey: string,
    notionToken: Option<string>, notionDatabaseId: Option<string>,
    wpUrl: Option<string>, wpXmlrpcUrl: string, wpUsername: string, wpAppPassword: string,
    simplyStaticExportPath: string, simplyStaticTriggerUrl: Option<string>,
    githubPagesRepoUrl: string)

  /** The outcome of the variable check: the configuration, or the first
      required variable found missing (the process then exits). */
  datatype EnvResult = Loaded(config: Config) | Missing(name: string)

  /** `load_env_variables`. */
  function LoadEnvVariables(env: map<string, string>): (r: EnvResult)
    ensures r.Missing? <==> exists k :: 0 <= k < |RequiredVars| && !Present(env, RequiredVars[k])
    ensures r.Missing? ==> exists k :: (0 <= k < |RequiredVars| && RequiredVars[k] == r.name
      && !Present(env, r.name) && forall j :: 0 <= j < k ==> Present(env, RequiredVars[j]))
    ensures r.Loaded? ==>
      && Getenv(env, "GITHUB_TOKEN") == Some(r.config.githubToken)
      && Getenv(env, "GITHUB_REPO") == Some(r.config.githubRepo)
      && Getenv(env, "GEMINI_API_KEY") == Some(r.config.geminiApiKey)
      && Getenv(env, "WP_XMLRPC_URL") == Some(r.config.wpXmlrpcUrl)
      && Getenv(env, "WP_USERNAME") == Some(r.config.wpUsername)
      && Getenv(env, "WP_APP_PASSWORD") == Some(r.config.wpAppPassword)
      && Getenv(env, "SIMPLY_STATIC_EXPORT_PATH") == Some(r.config.simplyStaticExportPath)
      && Getenv(env, "GITHUB_PAGES_REPO_URL") == Some(r.config.githubPagesRepoUrl)
      && r.config.notionToken == Getenv(env, "NOTION_TOKEN")
      && r.config.notionDatabaseId == Getenv(env, "NOTION_DATABASE_ID")
      && r.config.wpUrl == Getenv(env, "WP_URL")
      && r.config.simplyStaticTriggerUrl == Getenv(env, "SIMPLY_STATIC_TRIGGER_URL")
  {
    var k := FirstMissing(env, RequiredVars);
    if k < |RequiredVars| then
      Missing(RequiredVars[k])
    else
      assert Present(env, RequiredVars[0]) && Present(env, RequiredVars[1]);
      assert Present(env, RequiredVars[2]) && Present(env, RequiredVars[3]);
      assert Present(env, RequiredVars[4]) && Present(env, RequiredVars[5]);
      assert Present(env, RequiredVars[6]) && Present(env, RequiredVars[7]);
      Loaded(Config(
        Getenv(env, "GITHUB_TOKEN").GetOr(""), Getenv(env, "GITHUB_REPO").GetOr(""),
        Getenv(env, "GEMINI_API_KEY").GetOr(""),
        Getenv(env, "NOTION_TOKEN"), Getenv(env, "NOTION_DATABASE_ID"),
        Getenv(env, "WP_URL"), Getenv(env, "WP_XMLRPC_URL").GetOr(""),
        Getenv(env, "WP_USERNAME").GetOr(""), Getenv(env, "WP_APP_PASSWORD").GetOr(""),
        Getenv(env, "SIMPLY_STATIC_EXPORT_PATH").GetOr(""), Getenv(env, "SIMPLY_STATIC_TRIGGER_URL"),
        Getenv(env, "GITHUB_PAGES_REPO_URL").GetOr("")))
  }

  /** Removing an optional variable never changes whether the check passes. */
  lemma OptionalVarsNotChecked(env: map<string, string>, v: string)
    requires v in OptionalVars
    ensures LoadEnvVariables(env - {v}).Loaded? == LoadEnvVariables(env).Loaded?
  {
    assert v !in RequiredVars;
    forall k | 0 <= k < |RequiredVars| ensures Present(env - {v}, RequiredVars[k]) == Present(env, RequiredVars[k]) {
      assert RequiredVars[k] != v;
    }
  }

  /** A call the run makes on an outside service. */
  datatype Call =
    | Generate(prompt: Prompt)
    | Publish(title: string, content: string, tags: seq<string>, categories: seq<string>)
    | TriggerExport
    | WaitForExport
    | DeploySite(message: string)

  /** The prompt for a commit's blog post; no notes are passed. */
  function BlogPromptOf(c: CommitData): Prompt {
    BlogPostPrompt(c.message, DiffSummary(c.files), "")
  }

  /** The blog post generated for a commit. */
  function BlogPostOf(c: CommitData, gemini: Prompt -> Attempt<string>): string {
    ReplyText(gemini(BlogPromptOf(c)))
  }

  /** The prompt for a commit's title, which quotes the generated post. */
  function TitlePromptOf(c: CommitData, gemini: Prompt -> Attempt<string>): Prompt {
    TitlePrompt(c.message, BlogPostOf(c, gemini))
  }

  /** The title picked for a commit. */
  function TitleOf(c: CommitData, gemini: Prompt -> Attempt<string>): string {
    PickTitle(gemini(TitlePromptOf(c, gemini)))
  }

  /** The three generation calls: the post, the LinkedIn summary, the title. */
  function GeneratedCalls(c: CommitData, gemini: Prompt -> Attempt<string>): seq<Call> {
    [Generate(BlogPromptOf(c)), Generate(LinkedInPrompt(c.message, DiffSummary(c.files), "")),
     Generate(TitlePromptOf(c, gemini))]
  }

  /** The publish call, made unless the post or the title is empty. */
  function PublishCalls(c: CommitData, gemini: Prompt -> Attempt<string>): seq<Call> {
    if BlogPostOf(c, gemini) == "" || TitleOf(c, gemini) == "" then []
    else [Publish(TitleOf(c, gemini), BlogPostOf(c, gemini), Tags, Categories)]
  }

  /** The calls made while processing one commit. The progress log line takes
      the first line of the message; an empty message has none, so the line
      raises, the handler catches it, and the commit yields no call at all.
      Otherwise the post, the LinkedIn summary and the title are generated,
      and the post is published unless its content or title is empty. */
  function CommitCalls(c: CommitData, gemini: Prompt -> Attempt<string>): seq<Call> {
    if c.message == "" then [] else GeneratedCalls(c, gemini) + PublishCalls(c, gemini)
  }

  /** `f` applied to each element in turn, the results run together. */
  function ConcatMap<T, U>(xs: seq<T>, f: T -> seq<U>): seq<U>
    decreases |xs|
  {
    if xs == [] then [] else ConcatMap(xs[..|xs| - 1], f) + f(xs[|xs| - 1])
  }

  lemma {:induction false} ConcatMapAppend<T, U>(xs: seq<T>, ys: seq<T>, f: T -> seq<U>)
    ensures ConcatMap(xs + ys, f) == ConcatMap(xs, f) + ConcatMap(ys, f)
    decreases |ys|
  {
    if ys == [] {
      assert xs + ys == xs;
    } else {
      var ys', last := ys[..|ys| - 1], ys[|ys| - 1];
      assert (xs + ys)[..|xs + ys| - 1] == xs + ys';
      assert (xs + ys)[|xs + ys| - 1] == last;
      ConcatMapAppend(xs, ys', f);
    }
  }

  /** The calls made by the per-commit loop, commit after commit. */
  function ProcessAll(commits: seq<CommitData>, gemini: Prompt -> Attempt<string>): seq<Call> {
    ConcatMap(commits, c => CommitCalls(c, gemini))
  }

  /** The export and deploy chain: each step only after the previous one returned true. */
  function ExportCalls(triggerOk: bool, exportReady: bool): seq<Call> {
    [TriggerExport] + (if triggerOk then [WaitForExport] + (if exportReady then [DeploySite(DeployMessage)] else []) else [])
  }

  /** One pass of the per-commit loop of `run_pipeline`: the body of its `try`. */
  method ProcessCommit(commitData: CommitData, gemini: Prompt -> Attempt<string>,
                       wordpress: (string, string) -> Attempt<string>)
    returns (calls: seq<Call>)
    ensures calls == CommitCalls(commitData, gemini)
  {
    if commitData.message == "" {
      // `splitlines()[0]` raises; the handler logs it and moves on.
      return [];
    }
    var blogPost, blogPrompt := GenerateBlogPost(commitData.message, commitData.files, "", gemini);
    var linkedInSummary, linkedInPrompt := GenerateLinkedInSummary(commitData.message, commitData.files, "", gemini);
    var title, titlePrompt := GenerateClickWorthyTitle(commitData.message, blogPost, gemini);
    calls := [Generate(blogPrompt), Generate(linkedInPrompt), Generate(titlePrompt)];
    if blogPost == "" || title == "" {
      return;
    }
    var post, postId := PublishPost(title, blogPost, Tags, Categories, DefaultStatus, wordpress(title, blogPost));
    calls := calls + [Publish(title, blogPost, Tags, Categories)];
  }

  /** The per-commit loop of `run_pipeline`. */
  method ProcessCommits(commits: seq<CommitData>, gemini: Prompt -> Attempt<string>,
                        wordpress: (string, string) -> Attempt<string>)
    returns (calls: seq<Call>)
    ensures calls == ProcessAll(commits, gemini)
  {
    calls := [];
    for i := 0 to |commits|
      invariant calls == ProcessAll(commits[..i], gemini)
    {
      assert commits[..i + 1][..i] == commits[..i];
      var commitCalls := ProcessCommit(commits[i], gemini, wordpress);
      calls := calls + commitCalls;
    }
    assert commits[..|commits|] == commits;
  }

  /** Commits are processed independently and in input order: the calls for a
      list run together are the calls for each part, one after the other. */
  lemma ProcessAllAppend(a: seq<CommitData>, b: seq<CommitData>, gemini: Prompt -> Attempt<string>)
    ensures ProcessAll(a + b, gemini) == ProcessAll(a, gemini) + ProcessAll(b, gemini)
  {
    ConcatMapAppend(a, b, c => CommitCalls(c, gemini));
  }

  /** A commit whose processing raises contributes no call, and the commits
      after it are processed exactly as if it had not been there. */
  lemma RaisingCommitIsIsolated(a: seq<CommitData>, c: CommitData, b: seq<CommitData>, gemini: Prompt -> Attempt<string>)
    requires c.message == ""
    ensures ProcessAll(a + [c] + b, gemini) == ProcessAll(a, gemini) + ProcessAll(b, gemini)
  {
    assert [c][..0] == [];
    assert ProcessAll([c], gemini) == ProcessAll([], gemini) + CommitCalls(c, gemini) == [];
    calc {
      ProcessAll(a + [c] + b, gemini);
      { ProcessAllAppend(a + [c], b, gemini); }
      ProcessAll(a + [c], gemini) + ProcessAll(b, gemini);
      { ProcessAllAppend(a, [c], gemini); }
      ProcessAll(a, gemini) + ProcessAll([c], gemini) + ProcessAll(b, gemini);
    }
  }

  function CountPublishes(calls: seq<Call>): nat
    decreases |calls|
  {
    if calls == [] then 0
    else CountPublishes(calls[..|calls| - 1]) + (if calls[|calls| - 1].Publish? then 1 else 0)
  }

  lemma {:induction false} CountPublishesAppend(a: seq<Call>, b: seq<Call>)
    ensures CountPublishes(a + b) == CountPublishes(a) + CountPublishes(b)
    decreases |b|
  {
    if b == [] {
      assert a + b == a;
    } else {
      CountPublishesAppend(a, b[..|b| - 1]);
      assert (a + b)[..|a + b| - 1] == a + b[..|b| - 1];
    }
  }

  /** One commit is published at most once, and it is published exactly when
      its message is non-empty and its generated post is non-empty (the title
      is never empty); the publish call is the last call for that commit. */
  lemma CommitPublishedIff(c: CommitData, gemini: Prompt -> Attempt<string>)
    ensures CountPublishes(CommitCalls(c, gemini)) <= 1
    ensures CountPublishes(CommitCalls(c, gemini)) == 1 <==> c.message != "" && BlogPostOf(c, gemini) != ""
    ensures CountPublishes(CommitCalls(c, gemini)) == 1 ==>
      CommitCalls(c, gemini)[|CommitCalls(c, gemini)| - 1].Publish?
  {
    if c.message != "" {
      var g := GeneratedCalls(c, gemini);
      assert g[..1][..0] == [];
      assert CountPublishes(g[..1]) == 0;
      assert g[..2][..1] == g[..1];
      assert CountPublishes(g[..2]) == 0;
      assert g[..|g| - 1] == g[..2];
      assert CountPublishes(g) == 0;
      CountPublishesAppend(g, PublishCalls(c, gemini));
      if PublishCalls(c, gemini) != [] {
        assert [Publish(TitleOf(c, gemini), BlogPostOf(c, gemini), Tags, Categories)][..0] == [];
      }
    }
  }

  /** At most one publish per commit over the whole loop. */
  lemma {:induction false} AtMostOnePublishPerCommit(commits: seq<CommitData>, gemini: Prompt -> Attempt<string>)
    ensures CountPublishes(ProcessAll(commits, gemini)) <= |commits|
    decreases |commits|
  {
    if commits != [] {
      var prefix := commits[..|commits| - 1];
      AtMostOnePublishPerCommit(prefix, gemini);
      CountPublishesAppend(ProcessAll(prefix, gemini), CommitCalls(commits[|commits| - 1], gemini));
      CommitPublishedIff(commits[|commits| - 1], gemini);
    }
  }

  /** Every publish call carries a non-empty title and content and the fixed
      tags and category. */
  lemma {:induction false} PublishCallsWellFormed(commits: seq<CommitData>, gemini: Prompt -> Attempt<string>)
    ensures forall call :: call in ProcessAll(commits, gemini) && call.Publish? ==>
      call.title != "" && call.content != "" && call.tags == Tags && call.categories == Categories
    decreases |commits|
  {
    if commits != [] {
      PublishCallsWellFormed(commits[..|commits| - 1], gemini);
    }
  }

  /** The run after a non-empty fetch: the per-commit loop, then the export
      trigger, the wait for the export, and the deploy, each only after the
      previous step reported success. Export runs whether or not any commit
      was published. */
  method ProcessAndDeploy(commits: seq<CommitData>, deployer: Deployer,
                          gemini: Prompt -> Attempt<string>, wordpress: (string, string) -> Attempt<string>,
                          triggerOk: bool, exportReady: bool, gitDirExists: bool, git: Command -> GitResult)
    returns (deployed: bool, calls: seq<Call>)
    ensures calls == ProcessAll(commits, gemini) + ExportCalls(triggerOk, exportReady)
    ensures deployed == (triggerOk && exportReady
      && DeploySucceeds(deployer.githubRepoUrl, deployer.branch, DeployMessage, gitDirExists, git))
  {
    calls := ProcessCommits(commits, gemini, wordpress);
    deployed := false;
    calls := calls + [TriggerExport];
    if triggerOk {
      calls := calls + [WaitForExport];
      if exportReady {
        calls := calls + [DeploySite(DeployMessage)];
        var trace;
        deployed, trace := deployer.Deploy(DeployMessage, gitDirExists, git);
      }
    }
  }

  /** What the run ended with. */
  datatype RunStatus =
    | ConfigError(name: string)
    | ExportPathMissing
    | ListingFailed
    | InvalidMode
    | NoNewCommits
    | Finished(deployed: bool)

  predicate ValidMode(mode: string) {
    mode == "batch" || mode == "incremental"
  }

  /** `run_pipeline`. `savedState` is the state file afterwards. */
  method RunPipeline(mode: string, env: map<string, string>, stateFile: Option<seq<string>>,
                     exportPathExists: bool, listing: Attempt<seq<ListedCommit>>,
                     gemini: Prompt -> Attempt<string>, wordpress: (string, string) -> Attempt<string>,
                     triggerOk: bool, exportReady: bool, gitDirExists: bool, git: Command -> GitResult)
    returns (status: RunStatus, calls: seq<Call>, savedState: Option<seq<string>>)
    ensures LoadEnvVariables(env).Missing? ==>
      status == ConfigError(LoadEnvVariables(env).name) && calls == [] && savedState == stateFile
    ensures LoadEnvVariables(env).Loaded? && !exportPathExists ==>
      status == ExportPathMissing && calls == [] && savedState == stateFile
    ensures LoadEnvVariables(env).Loaded? && exportPathExists && !ValidMode(mode) ==>
      status == InvalidMode && calls == [] && savedState == stateFile
    ensures LoadEnvVariables(env).Loaded? && exportPathExists && ValidMode(mode) && listing.Raised? ==>
      status == ListingFailed && calls == [] && savedState == stateFile
    ensures LoadEnvVariables(env).Loaded? && exportPathExists && ValidMode(mode) && listing.Returned? ==>
      var fetched := Fetch(listing.value, mode == "batch", LoadShas(stateFile));
      var url := LoadEnvVariables(env).config.githubPagesRepoUrl;
      && savedState.Some? && LoadShas(savedState) == fetched.seen
      && ShaSet(fetched.commits) <= LoadShas(savedState)
      && (fetched.commits == [] ==> status == NoNewCommits && calls == [])
      && (fetched.commits != [] ==>
            && calls == ProcessAll(fetched.commits, gemini) + ExportCalls(triggerOk, exportReady)
            && status == Finished(triggerOk && exportReady && DeploySucceeds(url, DefaultBranch, DeployMessage, gitDirExists, git)))
  {
    calls := [];
    savedState := stateFile;
    var loaded := LoadEnvVariables(env);
    if loaded.Missing? {
      return ConfigError(loaded.name), calls, savedState;
    }
    var config := loaded.config;
    var ingester := new Ingester(stateFile);
    var deployerOrNone := Deployer.Open(config.simplyStaticExportPath, config.githubPagesRepoUrl, DefaultBranch, exportPathExists);
    if deployerOrNone.None? {
      return ExportPathMissing, calls, savedState;
    }
    var deployer := deployerOrNone.value;

    var fetchedCommits: Option<seq<CommitData>>;
    if mode == "batch" {
      fetchedCommits := ingester.FetchGithubCommits(listing, true);
    } else if mode == "incremental" {
      fetchedCommits := ingester.FetchGithubCommits(listing, false);
    } else {
      return InvalidMode, calls, savedState;
    }
    if fetchedCommits.None? {
      return ListingFailed, calls, savedState;
    }
    savedState := ingester.stateFile;
    FetchMarksReturned(listing.value, mode == "batch", LoadShas(stateFile));
    var commitsToProcess := fetchedCommits.value;
    if commitsToProcess == [] {
      return NoNewCommits, calls, savedState;
    }

    var deployed;
    deployed, calls := ProcessAndDeploy(commitsToProcess, deployer, gemini, wordpress, triggerOk, exportReady, gitDirExists, git);
    status := Finished(deployed);
  }
}
