# commitBlogger, modelled in Dafny

commitBlogger turns the commits of a GitHub repository into blog posts. It
fetches the commits it has not handled yet and records their SHAs in a state
file. For each commit it builds a short digest of the diff and asks Gemini for
a blog post, a LinkedIn summary and a title. It publishes the post to
WordPress over XML-RPC. Finally it asks the Simply Static plugin for a static
export and force-pushes that export to the GitHub Pages branch with git.

This project models the deterministic core of that pipeline and proves what
each part promises. The outside services are oracles passed in as parameters:

- Gemini is a function from a `Prompt` to `Attempt<string>`. An `Attempt` is a
  returned value or a raised exception.
- The GitHub listing is an `Attempt<seq<ListedCommit>>`. Each listed commit
  carries the outcome of its own detail fetch.
- WordPress `NewPost` is a reply of type `Attempt<string>`.
- The exporter's trigger and wait are booleans.
- git is a function from a command line to its return code, stdout and stderr.
- The environment is a `map<string, string>`.
- The state file is an `Option<seq<string>>`, where `None` means no file.

The modules follow the source files:

- `Common` (common.dfy): `Option` and `Attempt`.
- `Text` (text.dfy): the Python string operations the core relies on. These
  are `split`, `join`, `in`, `strip`, ASCII `lower` and `rfind`.
- `Transform` (transform.dfy): `_summarize_diff`, the title picker, and the
  three generation calls.
- `Ingest` (ingest.dfy): the `Ingester` class, with its processed-SHA ledger
  and state file, and the commit fetch loop.
- `Publishing` (publisher.dfy): the post building in `publish_post` and
  `update_post`, plus `ensure_category_exists` and `_guess_mime_type`.
- `Deployment` (deployer.dfy): the `Deployer` class and the git command
  sequences of `initialize_repo` and `deploy`.
- `Pipeline` (pipeline.dfy): `load_env_variables` and `run_pipeline`.

Each modelled loop in the source is a Dafny method with a `while` or `for`
loop, with two exceptions. The environment check in `load_env_variables`
(main.py:60-63) is the recursive function `FirstMissing`. The loop over
`full_commit.files` in `fetch_github_commits` (ingest.py:82-91) is part of the
detail fetch, so each listed commit's detail-fetch oracle returns the finished
file list. Three loop methods are proved equal to a
specification function, and the properties are proved as lemmas about that
function: `SummarizeDiff` equals `DiffSummary`, `FetchGithubCommits` equals
`Fetch`, and `ProcessCommits` equals `ProcessAll`. Two loop methods state
their result directly in their contracts: `ListOf` (the `list(...)` in
ingest.py:48) and `EnsureCategoryExists` (the category scan at
publisher.py:150-153). `InitializeRepo` and `Deploy` have no loop. They are
straight-line git command sequences, proved against `InitSucceeds` and
`DeploySucceeds`. The run of `run_pipeline` is described by the status it
ends with, the state file it leaves, and the ordered list of `Call`s it makes
on Gemini, WordPress, the exporter and git.

The model assumes Python 3.12 or later, which the program needs. Several
f-strings put double quotes inside a double-quoted f-string (main.py:136,
:155, :167, :170, :173 and deployer.py:43). Before Python 3.12 (PEP 701) that
is a syntax error, and the program would not start.

Some behaviour of the program worth knowing, all of it modelled:

- The ledger marks a commit's SHA when its details are fetched
  (ingest.py:101), not after it is published. The ledger is saved once, at
  the end of the fetch (ingest.py:106). In incremental mode, a commit whose
  generation or publication fails is therefore never retried. A batch run
  ignores the ledger when it filters commits (ingest.py:75), so it processes
  such a commit again.
- Export and deploy run whenever the fetched list is non-empty, even if no
  commit was published (main.py:128-191).
- A commit with an empty message makes the progress log line raise an
  IndexError (`splitlines()[0]`, main.py:136). The handler catches it, so the
  commit is skipped before any generation call.
- The program has no rate limiting, no response caching, no ignore markers in
  commit messages and no multi-commit context.

## Model

| member | source | states |
|---|---|---|
| Text.Split | transform.py:46 | `split` on one character gives at least one part, and no part contains the separator |
| Text.Join | transform.py:48 | `join` of no pieces is the empty string, and a non-empty join starts with its first piece |
| Text.SplitJoin | transform.py:46-48 | splitting the newline-joined lines recovers the lines, when no line contains a newline |
| Text.ContainsIff | deployer.py:109 | `sub in s` holds exactly when `sub` starts at some position of `s` |
| Text.LeadingSpaces | transform.py:177 | `lstrip` drops exactly the whitespace run at the start: every counted character is whitespace and the next one is not |
| Text.TrailingSpaces | transform.py:177 | `rstrip` drops exactly the whitespace run at the end: every counted character is whitespace and the one before them is not |
| Text.StripShape | transform.py:177 | `strip` returns the slice between the leading and the trailing whitespace, with whitespace on both sides of the slice only |
| Text.StripEmptyIffBlank | transform.py:177 | a stripped line is empty exactly when the line is all whitespace |
| Text.RFind | publisher.py:129 | the index of the last occurrence of the character, or -1 when there is none; no occurrence follows the returned index |
| Transform.RelevantLines | transform.py:47 | every kept line starts with `+`, `-` or a space and is not a `+++`/`---` marker; no line is invented |
| Transform.RelevantLinesMembership | transform.py:47 | a line is kept exactly when it occurs in the patch and is a hunk line |
| Transform.RelevantLinesAppend | transform.py:47 | the filter keeps the patch's line order |
| Transform.PatchBodyShowsFirstLines | transform.py:44-48 | a patch shows its first at most five hunk lines, newline-joined and each recoverable; "..." follows exactly when more than five qualified |
| Transform.Block | transform.py:43-48 | each file's block starts with its `File: name (status)` line; a missing or empty patch gives only that line |
| Transform.NoHunkLinesHeaderOnly | transform.py:44-48 | a patch with no hunk lines adds nothing after the header |
| Transform.Blocks | transform.py:38-49 | one block per changed file, in input order |
| Transform.DiffSummary | transform.py:53 | the digest is the fixed "No significant code changes detected." sentence exactly when no file changed, and otherwise starts with a file header |
| Transform.SummarizeDiff | transform.py:26-53 | the loop's result is the digest specification |
| Transform.DiffSummaryAppend | transform.py:53 | the digest of two file lists run together is the two digests separated by a blank line |
| Transform.DiffSummaryHasHeader | transform.py:43 | each file's header line appears whole in the digest |
| Transform.HeaderNamesFile | transform.py:43 | a header line contains the file name, or "Unknown File", and the status |
| Transform.DiffSummaryNamesEveryFile | transform.py:38-53 | the digest names every changed file and its status |
| Transform.ReplyText | transform.py:95-101 | a generation yields "" exactly when the call raised or returned empty text, and otherwise the returned text |
| Transform.StripAll | transform.py:177 | each candidate line is stripped, one for one |
| Transform.NonEmpty | transform.py:177 | only non-empty stripped lines remain as candidate titles |
| Transform.PickTitle | transform.py:174-181 | the title is never empty; a raised call gives "Default Blog Post Title" |
| Transform.FirstNonEmpty | transform.py:177-178 | the first candidate kept is the first non-empty stripped line, and every line before it is empty |
| Transform.TitleIsFirstNonBlankLine | transform.py:177-178 | the picked title is the stripped first non-blank line of the reply, or the default title when every line is blank |
| Transform.GenerateBlogPost | transform.py:55-101 | one call with the message, the digest and the notes; the post is the reply text, or "" on failure |
| Transform.GenerateLinkedInSummary | transform.py:103-144 | one call with the same inputs; the summary is the reply text, or "" on failure |
| Transform.GenerateClickWorthyTitle | transform.py:146-181 | one call with the message and the post; the title is the picked title and is never empty |
| Ingest.LoadShas | ingest.py:31-41 | a missing state file is the empty ledger; otherwise the ledger is exactly the SHAs the file lists |
| Ingest.ListOf | ingest.py:48 | `list(set)` lists each ledger entry exactly once |
| Ingest.FetchMarksReturned | ingest.py:74-101 | after the fetch the ledger is the old ledger plus exactly the SHAs of the returned commits |
| Ingest.IncrementalFetchReturnsNew | ingest.py:74-76 | in incremental mode no returned commit was in the ledger, and no SHA is returned twice |
| Ingest.FetchSeenGrows | ingest.py:74-101 | the ledger only grows along the listing: after a prefix it is contained in the ledger after the whole listing |
| Ingest.IncrementalFetchReturnsListed | ingest.py:74-101 | in incremental mode every listed commit that was not in the ledger and whose detail fetch succeeded is returned |
| Ingest.FetchInventsNothing | ingest.py:74-101 | in both modes every returned commit is the detailed record of a listed commit whose detail fetch succeeded |
| Ingest.BatchFetchIgnoresLedger | ingest.py:67-76 | batch mode returns every commit whose detail fetch succeeded, whatever the ledger held |
| Ingest.FetchAppend | ingest.py:74-105 | the fetch keeps listing order, and a split listing fetches as its parts one after the other |
| Ingest.Ingester.constructor | ingest.py:17-29 | the ledger starts as the loaded state file |
| Ingest.Ingester.SaveProcessedShas | ingest.py:43-48 | the saved file loads back to the same ledger, with each SHA once |
| Ingest.Ingester.GetProcessedShas | ingest.py:130-134 | returns the ledger |
| Ingest.Ingester.FetchGithubCommits | ingest.py:50-108 | a failed listing changes and saves nothing; otherwise the result and the new ledger are the fetch specification, and the ledger is saved exactly once, so the state file then exists and holds that ledger |
| Publishing.PublishPost | publisher.py:31-63 | title, content and status are always set; tags and categories are set only when non-empty; the id comes back unless the call raised |
| Publishing.UpdatePost | publisher.py:65-94 | the post carries the id, and each field only when its argument is non-empty; the result is true unless the call raised |
| Publishing.EnsureCategoryExists | publisher.py:137-161 | a failed listing gives false; a listed name gives true with no create; an absent name is created, and the result is whether creation succeeded |
| Publishing.SplitExt | publisher.py:129 | `splitext` splits the path into root and extension; the extension is empty or one dot followed by no dot or slash; an extension's dot has a non-dot before it in the last component, and when the extension is empty every dot of the last component has only dots before it there |
| Publishing.GuessMimeType | publisher.py:125-135 | each of the five known extensions, in any case, maps to its MIME type; everything else maps to application/octet-stream |
| Publishing.RFindLower | publisher.py:129 | lower-casing moves no dot or slash, so `splitext` cuts a lower-cased path at the same place |
| Publishing.HasNonDotLower | publisher.py:129 | lower-casing keeps whether the file name before the last dot has a character other than a dot |
| Publishing.SplitExtLower | publisher.py:129 | the extension of a lower-cased path is the lower-cased extension |
| Publishing.GuessMimeTypeIgnoresCase | publisher.py:125-135 | the guess is the same for a path and its lower-cased form |
| Deployment.ClassifyCommit | deployer.py:106-114 | "nothing to commit" in either stream counts as success without a push; otherwise a non-zero code is a failure |
| Deployment.Deployer.constructor | deployer.py:15-27 | keeps the path, the repository URL and the branch |
| Deployment.Deployer.Open | deployer.py:15-30 | a deployer exists exactly when the local path exists |
| Deployment.Deployer.InitializeRepo | deployer.py:55-84 | a new repository runs `init` then `remote add`, stopping at the first failure; an existing one runs `set-url`, whose failure only warns; both end with `checkout -B`; the trace is exactly the command sequence of the four cases |
| Deployment.Deployer.Deploy | deployer.py:86-123 | the trace is exactly the repository preparation, then `add .`, `commit -m` and a force push, each only when the step before it succeeded, the push only after a real commit; a failed init runs no `add`, `commit` or `push`; success is the deploy predicate, and a push is always the last command |
| Pipeline.FirstMissing | main.py:60-63 | every variable before the index is present, and the variable at the index is missing or empty |
| Pipeline.LoadEnvVariables | main.py:23-78 | the check fails exactly when some required variable is missing or empty, naming the first in order; on success every value is read from the environment |
| Pipeline.OptionalVarsNotChecked | main.py:34-63 | removing an optional variable never changes whether the check passes |
| Pipeline.ProcessCommit | main.py:135-170 | the calls for one commit are exactly its per-commit specification: none for an empty message; otherwise the blog, LinkedIn and title generations in order, then one publish with the fixed tags and category unless the post or the title is empty |
| Pipeline.ProcessCommits | main.py:134-174 | the loop makes exactly the calls of the per-commit specification |
| Pipeline.ProcessAllAppend | main.py:134-174 | commits are processed independently and in input order |
| Pipeline.RaisingCommitIsIsolated | main.py:134-173 | a commit whose processing raises makes no call and leaves later commits unaffected |
| Pipeline.CommitPublishedIff | main.py:136-164 | a commit is published at most once, exactly when its message and its generated post are non-empty, and the publish is its last call |
| Pipeline.AtMostOnePublishPerCommit | main.py:134-164 | a run publishes no more posts than it has commits |
| Pipeline.PublishCallsWellFormed | main.py:154-164 | every publish has a non-empty title and content, the tags automated, github and gemini, and the category Development |
| Pipeline.ProcessAndDeploy | main.py:134-191 | the commit calls are followed by trigger, wait and deploy, each only after the previous step succeeded; the run deploys exactly when all three succeed |
| Pipeline.RunPipeline | main.py:80-193 | a config error, a missing export path, a bad mode and a failed listing each stop the run with no call and the state file untouched; otherwise the state file exists and holds the fetched ledger; an empty fetch stops before export; otherwise the calls are the commit calls followed by the export chain |

## Left out

- The Gemini, GitHub, Notion, WordPress and Simply Static clients are oracles. Their network behaviour, authentication and pagination are not modelled.
- `since_days` and the date filter of the incremental listing are not modelled. The listing oracle is the already-filtered listing.
- The text of the prompt templates is not modelled. A `Prompt` records only the values the template is filled with.
- JSON encoding of the state file is not modelled. File I/O errors other than a missing file are left out, as is a state file that is not valid JSON.
- Printing and logging are left out.
- The `Exporter` internals are not part of this model. Only the booleans its trigger and wait return are.
- sanitizer.py is not part of this model.
- `fetch_notion_notes` is not modelled. The pipeline never calls it and always passes empty notes.
- The `__main__` argument parsing is not modelled. `RunPipeline` takes the mode as a string, so the invalid-mode branch stays reachable.
- `upload_media` is not modelled: it reads a file and calls the media API. Its MIME guess is modelled as `GuessMimeType`.
- The extra file fields `additions`, `deletions`, `changes` and `raw_url` are not modelled, because nothing in the core reads them.
- Publishing.GuessMimeType: `lower()` is modelled on ASCII letters only. For the five extensions compared this gives the same verdict as full Unicode lower-casing. Two non-ASCII characters lower to text holding an ASCII letter. KELVIN SIGN lowers to `k`, and no compared extension contains `k`. LATIN CAPITAL LETTER I WITH DOT ABOVE (U+0130) lowers to `i` followed by COMBINING DOT ABOVE (U+0307). An extension holding it lowers to a string that keeps the combining mark, so it equals none of the five extensions, and the verdict is the same.
- The library's post object is modelled as the class `WordPressPost`, whose fields are always set as assigned. The wordpress_xmlrpc library is not part of this model. Its behaviour when `terms_names` is assigned (publisher.py:51, publisher.py:53) and in the `WordPressPost` constructor (publisher.py:80) is therefore not modelled, including any exception raised there outside the `try`.
- The loop over `full_commit.files` (ingest.py:82-91) is not a separate loop in the model. The detail-fetch oracle of each `ListedCommit` returns the finished file list, or raises for the whole commit.
- Publishing.SplitExt: follows the POSIX path rules. Windows drive letters and backslash separators are not modelled.
- Pipeline.RunPipeline: a listing failure stands for the uncaught exception that ends the process. A Deployer constructor failure is `ExportPathMissing`. Exceptions raised by the client constructors or by git itself (for example, git not installed) are not modelled. The git oracle always returns a result.
- Pipeline.RunPipeline: the WordPress reply only affects log lines, so the calls record the publish request and not its outcome.
- Each oracle is a deterministic function. A service that answers the same request differently on two occasions within one run is not modelled.
