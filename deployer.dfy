/** The Deployer (deployer.py): the git command sequences that prepare the
    export directory as a repository and push it to the pages branch. Running
    git is an oracle from a command to its (return code, stdout, stderr). */
module Deployment {
  import opened Common
  import opened Text

  /** What one git command reports. */
  datatype GitResult = GitResult(code: int, stdout: string, stderr: string)

  /** A git command line, without the leading `git`. */
  type Command = seq<string>

  const DefaultBranch := "gh-pages"
  const NothingToCommitText := "nothing to commit"

  const InitCmd: Command := ["init"]
  const AddAllCmd: Command := ["add", "."]
  function RemoteAddCmd(url: string): Command { ["remote", "add", "origin", url] }
  function SetUrlCmd(url: string): Command { ["remote", "set-url", "origin", url] }
  function CheckoutCmd(branch: string): Command { ["checkout", "-B", branch] }
  function CommitCmd(message: string): Command { ["commit", "-m", message] }
  function PushCmd(branch: string): Command { ["push", "origin", branch, "--force"] }

  /** How `deploy` reads the result of `git commit`. */
  datatype CommitVerdict = CommitFailed | NothingCommitted | Committed

  /** "nothing to commit" in either stream means success without a push, even
      with a zero code; otherwise a non-zero code is a failure. */
  function ClassifyCommit(r: GitResult): (v: CommitVerdict)
    ensures v == NothingCommitted <==>
      Contains(r.stdout, NothingToCommitText) || Contains(r.stderr, NothingToCommitText)
    ensures v == CommitFailed <==>
      r.code != 0 && !Contains(r.stdout, NothingToCommitText) && !Contains(r.stderr, NothingToCommitText)
    ensures v == Committed ==> r.code == 0
  {
    var nothing := Contains(r.stderr, NothingToCommitText) || Contains(r.stdout, NothingToCommitText);
    if r.code != 0 && !nothing then CommitFailed
    else if nothing then NothingCommitted
    else Committed
  }

  /** Whether `initialize_repo` succeeds: a fresh directory needs `init` and
      `remote add` to succeed; an existing repository only warns on `set-url`;
      either way `checkout -B` must succeed. */
  predicate InitSucceeds(url: string, branch: string, gitDirExists: bool, git: Command -> GitResult) {
    && (gitDirExists || (git(InitCmd).code == 0 && git(RemoteAddCmd(url)).code == 0))
    && git(CheckoutCmd(branch)).code == 0
  }

  /** The commands `initialize_repo` runs, in order: `set-url` then
      `checkout -B` for an existing repository; otherwise `init`, `remote add`
      and `checkout -B`, stopping after the first of `init` and `remote add`
      that fails. */
  function InitTrace(url: string, branch: string, gitDirExists: bool, git: Command -> GitResult): seq<Command> {
    if gitDirExists then [SetUrlCmd(url), CheckoutCmd(branch)]
    else if git(InitCmd).code != 0 then [InitCmd]
    else if git(RemoteAddCmd(url)).code != 0 then [InitCmd, RemoteAddCmd(url)]
    else [InitCmd, RemoteAddCmd(url), CheckoutCmd(branch)]
  }

  /** The commands `deploy` runs, in order: the repository preparation, then,
      if it succeeded, `add .`, then `commit -m` if the add succeeded, then a
      force push only after a real commit. */
  function DeployTrace(url: string, branch: string, message: string, gitDirExists: bool, git: Command -> GitResult): seq<Command> {
    InitTrace(url, branch, gitDirExists, git) +
      if !InitSucceeds(url, branch, gitDirExists, git) then []
      else if git(AddAllCmd).code != 0 then [AddAllCmd]
      else if ClassifyCommit(git(CommitCmd(message))) != Committed then [AddAllCmd, CommitCmd(message)]
      else [AddAllCmd, CommitCmd(message), PushCmd(branch)]
  }

  /** Whether `deploy` succeeds. */
  predicate DeploySucceeds(url: string, branch: string, message: string, gitDirExists: bool, git: Command -> GitResult) {
    && InitSucceeds(url, branch, gitDirExists, git)
    && git(AddAllCmd).code == 0
    && match ClassifyCommit(git(CommitCmd(message)))
       case CommitFailed => false
       case NothingCommitted => true
       case Committed => git(PushCmd(branch)).code == 0
  }

  class Deployer {
    const localRepoPath: string
    const githubRepoUrl: string
    const branch: string

    constructor (localRepoPath: string, githubRepoUrl: string, branch: string)
      ensures this.localRepoPath == localRepoPath
      ensures this.githubRepoUrl == githubRepoUrl
      ensures this.branch == branch
    {
      this.localRepoPath := localRepoPath;
      this.githubRepoUrl := githubRepoUrl;
      this.branch := branch;
    }

    /** The constructor's path check: a missing local path raises instead of
        giving a deployer. */
    static method Open(localRepoPath: string, githubRepoUrl: string, branch: string, pathExists: bool)
      returns (d: Option<Deployer>)
      ensures d.Some? <==> pathExists
      ensures d.Some? ==>
        d.value.localRepoPath == localRepoPath && d.value.githubRepoUrl == githubRepoUrl && d.value.branch == branch
    {
      if !pathExists {
        return None;
      }
      var deployer := new Deployer(localRepoPath, githubRepoUrl, branch);
      d := Some(deployer);
    }

    /** `initialize_repo`: the commands run, in order, and the verdict. */
    method InitializeRepo(gitDirExists: bool, git: Command -> GitResult) returns (ok: bool, trace: seq<Command>)
      ensures ok == InitSucceeds(githubRepoUrl, branch, gitDirExists, git)
      ensures !gitDirExists && git(InitCmd).code != 0 ==> trace == [InitCmd]
      ensures !gitDirExists && git(InitCmd).code == 0 && git(RemoteAddCmd(githubRepoUrl)).code != 0 ==>
        trace == [InitCmd, RemoteAddCmd(githubRepoUrl)]
      ensures !gitDirExists && git(InitCmd).code == 0 && git(RemoteAddCmd(githubRepoUrl)).code == 0 ==>
        trace == [InitCmd, RemoteAddCmd(githubRepoUrl), CheckoutCmd(branch)]
      ensures gitDirExists ==> trace == [SetUrlCmd(githubRepoUrl), CheckoutCmd(branch)]
      ensures trace == InitTrace(githubRepoUrl, branch, gitDirExists, git)
      ensures ok ==> trace[|trace| - 1] == CheckoutCmd(branch)
      ensures AddAllCmd !in trace && PushCmd(branch) !in trace
      ensures forall m :: CommitCmd(m) !in trace
    {
      trace := [];
      var result: GitResult;
      if !gitDirExists {
        result := git(InitCmd);
        trace := trace + [InitCmd];
        if result.code != 0 { return false, trace; }
        result := git(RemoteAddCmd(githubRepoUrl));
        trace := trace + [RemoteAddCmd(githubRepoUrl)];
        if result.code != 0 { return false, trace; }
      } else {
        // A failing set-url is only reported, never fatal.
        result := git(SetUrlCmd(githubRepoUrl));
        trace := trace + [SetUrlCmd(githubRepoUrl)];
      }
      result := git(CheckoutCmd(branch));
      trace := trace + [CheckoutCmd(branch)];
      if result.code != 0 { return false, trace; }
      return true, trace;
    }

    /** `deploy`: prepare the repository, `add .`, `commit -m`, and force-push
        unless the commit failed or there was nothing to commit. */
    method Deploy(commitMessage: string, gitDirExists: bool, git: Command -> GitResult)
      returns (ok: bool, trace: seq<Command>)
      ensures ok == DeploySucceeds(githubRepoUrl, branch, commitMessage, gitDirExists, git)
      ensures trace == DeployTrace(githubRepoUrl, branch, commitMessage, gitDirExists, git)
      ensures trace != []
      ensures !InitSucceeds(githubRepoUrl, branch, gitDirExists, git) ==>
        AddAllCmd !in trace && CommitCmd(commitMessage) !in trace && PushCmd(branch) !in trace
      ensures InitSucceeds(githubRepoUrl, branch, gitDirExists, git) && git(AddAllCmd).code != 0 ==>
        trace[|trace| - 1] == AddAllCmd && CommitCmd(commitMessage) !in trace
      ensures InitSucceeds(githubRepoUrl, branch, gitDirExists, git) && git(AddAllCmd).code == 0 ==>
        && AddAllCmd in trace
        && (ClassifyCommit(git(CommitCmd(commitMessage))) != Committed ==>
              trace[|trace| - 1] == CommitCmd(commitMessage) && PushCmd(branch) !in trace)
        && (ClassifyCommit(git(CommitCmd(commitMessage))) == Committed ==>
              trace[|trace| - 1] == PushCmd(branch) && ok == (git(PushCmd(branch)).code == 0))
      ensures PushCmd(branch) in trace ==>
        trace[|trace| - 1] == PushCmd(branch) && ClassifyCommit(git(CommitCmd(commitMessage))) == Committed
    {
      var initOk, initTrace := InitializeRepo(gitDirExists, git);
      trace := initTrace;
      if !initOk {
        return false, trace;
      }
      var result := git(AddAllCmd);
      trace := trace + [AddAllCmd];
      if result.code != 0 { return false, trace; }
      result := git(CommitCmd(commitMessage));
      trace := trace + [CommitCmd(commitMessage)];
      var nothing := Contains(result.stderr, NothingToCommitText) || Contains(result.stdout, NothingToCommitText);
      if result.code != 0 && !nothing {
        return false, trace;
      } else if nothing {
        return true, trace;
      }
      result := git(PushCmd(branch));
      trace := trace + [PushCmd(branch)];
      if result.code != 0 { return false, trace; }
      return true, trace;
    }
  }
}
