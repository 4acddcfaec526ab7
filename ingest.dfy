/** The Ingester (ingest.py): the processed-commit ledger, its state file, and
    the fetch loop that filters commits against the ledger and marks them. */
module Ingest {
  import opened Common
  import opened Transform

  /** A commit as the repository listing yields it; `detail` is the outcome of
      fetching its full record (the changed files), which may raise. */
  datatype ListedCommit = ListedCommit(
    sha: string, message: string, author: string, date: string, url: string,
    detail: Attempt<seq<FileRecord>>)

  /** The record the fetch returns for one commit. */
  datatype CommitData = CommitData(
    sha: string, message: string, author: string, date: string, url: string,
    files: seq<FileRecord>)

  function Elements(xs: seq<string>): set<string> {
    set x | x in xs
  }

  /** `_load_processed_shas`: a missing state file is the empty ledger,
      otherwise the set of the identifiers it lists. */
  function LoadShas(stateFile: Option<seq<string>>): (shas: set<string>)
    ensures stateFile.None? ==> shas == {}
    ensures stateFile.Some? ==> forall x :: x in shas <==> x in stateFile.value
  {
    match stateFile
    case None => {}
    case Some(xs) => Elements(xs)
  }

  /** Python's `list(s)`: the elements of a set, each once, in some order. */
  method ListOf(s: set<string>) returns (xs: seq<string>)
    ensures Elements(xs) == s
    ensures |xs| == |s|
    ensures forall i, j :: 0 <= i < j < |xs| ==> xs[i] != xs[j]
  {
    xs := [];
    var rest := s;
    ghost var done: set<string> := {};
    while rest != {}
      invariant done !! rest && done + rest == s
      invariant |xs| == |done|
      invariant forall y :: y in xs <==> y in done
      invariant forall i, j :: 0 <= i < j < |xs| ==> xs[i] != xs[j]
      decreases |rest|
    {
      var x :| x in rest;
      assert x !in done;
      forall i, j | 0 <= i < j < |xs| + 1 ensures (xs + [x])[i] != (xs + [x])[j] {
        if j == |xs| {
          assert xs[i] in xs;
        }
      }
      xs := xs + [x];
      done := done + {x};
      rest := rest - {x};
    }
    assert done == s;
    assert Elements(xs) == s;
  }

  /** The fetch loop's state: the commits gathered and the ledger so far. */
  datatype FetchState = FetchState(commits: seq<CommitData>, seen: set<string>)

  function Detailed(c: ListedCommit, files: seq<FileRecord>): CommitData {
    CommitData(c.sha, c.message, c.author, c.date, c.url, files)
  }

  /** One iteration of the fetch loop. */
  function FetchStep(acc: FetchState, c: ListedCommit, batchMode: bool): FetchState {
    if !batchMode && c.sha in acc.seen then acc
    else
      match c.detail
      case Raised => acc
      case Returned(files) => FetchState(acc.commits + [Detailed(c, files)], acc.seen + {c.sha})
  }

  /** The fetch loop run over a listing, from a given ledger. */
  function Fetch(listed: seq<ListedCommit>, batchMode: bool, seen: set<string>): FetchState
    decreases |listed|
  {
    if listed == [] then FetchState([], seen)
    else FetchStep(Fetch(listed[..|listed| - 1], batchMode, seen), listed[|listed| - 1], batchMode)
  }

  function ShaSet(commits: seq<CommitData>): set<string> {
    set c | c in commits :: c.sha
  }

  /** After the fetch the ledger is the old one plus exactly the returned SHAs:
      it only grows, every returned commit is marked, and a commit whose detail
      fetch raised is not added on its own account. */
  lemma {:induction false} FetchMarksReturned(listed: seq<ListedCommit>, batchMode: bool, seen: set<string>)
    ensures Fetch(listed, batchMode, seen).seen == seen + ShaSet(Fetch(listed, batchMode, seen).commits)
    decreases |listed|
  {
    if listed != [] {
      var prev := Fetch(listed[..|listed| - 1], batchMode, seen);
      FetchMarksReturned(listed[..|listed| - 1], batchMode, seen);
      var c := listed[|listed| - 1];
      if !(!batchMode && c.sha in prev.seen) && c.detail.Returned? {
        var d := Detailed(c, c.detail.value);
        assert ShaSet(prev.commits + [d]) == ShaSet(prev.commits) + {c.sha};
      }
    }
  }

  /** In incremental mode no returned commit was in the ledger on entry,
      and no SHA is returned twice. */
  lemma {:induction false} IncrementalFetchReturnsNew(listed: seq<ListedCommit>, seen: set<string>)
    ensures var r := Fetch(listed, false, seen);
      && (forall i :: 0 <= i < |r.commits| ==> r.commits[i].sha !in seen)
      && (forall i, j :: 0 <= i < j < |r.commits| ==> r.commits[i].sha != r.commits[j].sha)
    decreases |listed|
  {
    if listed != [] {
      var prev := Fetch(listed[..|listed| - 1], false, seen);
      IncrementalFetchReturnsNew(listed[..|listed| - 1], seen);
      FetchMarksReturned(listed[..|listed| - 1], false, seen);
      var c := listed[|listed| - 1];
      if c.sha !in prev.seen && c.detail.Returned? {
        forall i | 0 <= i < |prev.commits| ensures prev.commits[i].sha != c.sha {
          assert prev.commits[i] in prev.commits;
        }
      }
    }
  }

  /** The ledger only grows along the listing: the ledger after a prefix is
      contained in the ledger after the whole listing. */
  lemma {:induction false} FetchSeenGrows(listed: seq<ListedCommit>, batchMode: bool, seen: set<string>, n: nat)
    requires n <= |listed|
    ensures Fetch(listed[..n], batchMode, seen).seen <= Fetch(listed, batchMode, seen).seen
    decreases |listed|
  {
    if n == |listed| {
      assert listed[..n] == listed;
    } else {
      var prefix := listed[..|listed| - 1];
      assert listed[..n] == prefix[..n];
      FetchSeenGrows(prefix, batchMode, seen, n);
    }
  }

  /** In incremental mode a listed commit that was not in the ledger and whose
      detail fetch succeeded is returned. */
  lemma IncrementalFetchReturnsListed(listed: seq<ListedCommit>, seen: set<string>, i: nat)
    requires i < |listed| && listed[i].detail.Returned? && listed[i].sha !in seen
    ensures listed[i].sha in ShaSet(Fetch(listed, false, seen).commits)
  {
    assert listed[..i + 1][..i] == listed[..i];
    assert listed[i].sha in Fetch(listed[..i + 1], false, seen).seen;
    FetchSeenGrows(listed, false, seen, i + 1);
    FetchMarksReturned(listed, false, seen);
  }

  /** The fetch invents nothing: every returned commit is the detailed record
      of a listed commit whose detail fetch succeeded. A commit whose detail
      fetch raised contributes no record. */
  lemma {:induction false} FetchInventsNothing(listed: seq<ListedCommit>, batchMode: bool, seen: set<string>)
    ensures forall d :: d in Fetch(listed, batchMode, seen).commits ==>
      exists c :: c in listed && c.detail.Returned? && d == Detailed(c, c.detail.value)
    decreases |listed|
  {
    if listed != [] {
      var prefix := listed[..|listed| - 1];
      var prev := Fetch(prefix, batchMode, seen);
      FetchInventsNothing(prefix, batchMode, seen);
      forall d | d in Fetch(listed, batchMode, seen).commits
        ensures exists c :: c in listed && c.detail.Returned? && d == Detailed(c, c.detail.value)
      {
        if d in prev.commits {
          var c :| c in prefix && c.detail.Returned? && d == Detailed(c, c.detail.value);
          assert c in listed;
        } else {
          assert listed[|listed| - 1] in listed;
        }
      }
    }
  }

  /** The commits of a listing whose detail fetch succeeded, in listing order. */
  function Successful(listed: seq<ListedCommit>): seq<CommitData>
    decreases |listed|
  {
    if listed == [] then []
    else
      var c := listed[|listed| - 1];
      Successful(listed[..|listed| - 1]) + (if c.detail.Returned? then [Detailed(c, c.detail.value)] else [])
  }

  /** Batch mode applies no ledger filter: it returns every successfully
      detailed commit, whatever the ledger held. */
  lemma {:induction false} BatchFetchIgnoresLedger(listed: seq<ListedCommit>, seen: set<string>)
    ensures Fetch(listed, true, seen).commits == Successful(listed)
    decreases |listed|
  {
    if listed != [] {
      BatchFetchIgnoresLedger(listed[..|listed| - 1], seen);
    }
  }

  /** The fetch keeps listing order: fetching a listing in two parts gives
      the first part's commits followed by the second's. */
  lemma {:induction false} FetchAppend(a: seq<ListedCommit>, b: seq<ListedCommit>, batchMode: bool, seen: set<string>)
    ensures var first := Fetch(a, batchMode, seen);
      var second := Fetch(b, batchMode, first.seen);
      Fetch(a + b, batchMode, seen) == FetchState(first.commits + second.commits, second.seen)
    decreases |b|
  {
    if b == [] {
      assert a + b == a;
    } else {
      var b' := b[..|b| - 1];
      FetchAppend(a, b', batchMode, seen);
      assert (a + b)[..|a + b| - 1] == a + b';
      assert (a + b)[|a + b| - 1] == b[|b| - 1];
    }
  }

  /** The Ingester object: the in-memory ledger and the state file it persists to. */
  class Ingester {
    /** `processed_shas`, the ledger. */
    var processedShas: set<string>
    /** The contents of the state file: `None` while no file exists. */
    var stateFile: Option<seq<string>>
    /** How many times the ledger has been written to the state file. */
    ghost var saves: nat

    constructor (stateFile: Option<seq<string>>)
      ensures this.stateFile == stateFile
      ensures processedShas == LoadShas(stateFile)
      ensures saves == 0
    {
      this.stateFile := stateFile;
      processedShas := LoadShas(stateFile);
      saves := 0;
    }

    /** `_save_processed_shas`: writes the ledger, each SHA once; loading the
        file back gives the same set. */
    method SaveProcessedShas()
      modifies this`stateFile, this`saves
      ensures stateFile.Some? && LoadShas(stateFile) == processedShas
      ensures |stateFile.value| == |processedShas|
      ensures saves == old(saves) + 1
    {
      var xs := ListOf(processedShas);
      stateFile := Some(xs);
      saves := saves + 1;
    }

    /** `get_processed_shas`. */
    function GetProcessedShas(): (shas: set<string>)
      reads this
      ensures shas == processedShas
    {
      processedShas
    }

    /** `fetch_github_commits`: walks the listing, skips commits already in the
        ledger unless in batch mode, keeps and marks every commit whose detail
        fetch succeeds, then saves the ledger once. A failing listing raises
        before anything is changed or saved. */
    method FetchGithubCommits(listing: Attempt<seq<ListedCommit>>, batchMode: bool)
      returns (commits: Option<seq<CommitData>>)
      modifies this
      ensures listing.Raised? ==>
        commits.None? && processedShas == old(processedShas) && stateFile == old(stateFile) && saves == old(saves)
      ensures listing.Returned? ==>
        var r := Fetch(listing.value, batchMode, old(processedShas));
        && commits == Some(r.commits)
        && processedShas == r.seen
        && stateFile.Some? && LoadShas(stateFile) == processedShas
        && saves == old(saves) + 1
    {
      if listing.Raised? {
        return None;
      }
      var listed := listing.value;
      var commitsData: seq<CommitData> := [];
      for i := 0 to |listed|
        invariant Fetch(listed[..i], batchMode, old(processedShas)) == FetchState(commitsData, processedShas)
        invariant stateFile == old(stateFile) && saves == old(saves)
      {
        var commit := listed[i];
        assert listed[..i + 1][..i] == listed[..i];
        if batchMode || commit.sha !in processedShas {
          match commit.detail {
            case Returned(files) =>
              commitsData := commitsData + [Detailed(commit, files)];
              processedShas := processedShas + {commit.sha};
            case Raised =>
          }
        }
      }
      assert listed[..|listed|] == listed;
      SaveProcessedShas();
      commits := Some(commitsData);
    }
  }
}
