/** The Transformer (transform.py): the local diff digest, the title picker,
    and the three generation calls, with the generation service as an oracle. */
module Transform {
  import opened Common
  import opened Text

  /** One changed-file record of a commit; a field is `None` when its key is missing. */
  datatype FileRecord = FileRecord(filename: Option<string>, status: Option<string>, patch: Option<string>)

  const UnknownFile := "Unknown File"
  const NoChanges := "No significant code changes detected."
  const DefaultTitle := "Default Blog Post Title"
  const MaxShownLines := 5
  const Ellipsis := "..."

  /** The first line of a file's block: `File: {filename} ({status})` and a newline. */
  function Header(f: FileRecord): string {
    "File: " + f.filename.GetOr(UnknownFile) + " (" + f.status.GetOr("") + ")\n"
  }

  /** A hunk line: it starts with '+', '-' or ' ' but is not a `+++`/`---` file marker. */
  predicate IsHunkLine(line: string) {
    ("+" <= line || "-" <= line || " " <= line) && !("+++" <= line) && !("---" <= line)
  }

  /** The hunk lines of a patch, in their original order. */
  function RelevantLines(lines: seq<string>): (kept: seq<string>)
    ensures |kept| <= |lines|
    ensures forall k :: 0 <= k < |kept| ==> IsHunkLine(kept[k])
    decreases |lines|
  {
    if lines == [] then []
    else (if IsHunkLine(lines[0]) then [lines[0]] else []) + RelevantLines(lines[1..])
  }

  /** A line is kept exactly when it occurs in the patch and is a hunk line. */
  lemma {:induction false} RelevantLinesMembership(lines: seq<string>, line: string)
    ensures line in RelevantLines(lines) <==> line in lines && IsHunkLine(line)
    decreases |lines|
  {
    if lines != [] {
      RelevantLinesMembership(lines[1..], line);
      assert lines == [lines[0]] + lines[1..];
    }
  }

  /** Filtering a concatenation filters each part and keeps them in order. */
  lemma {:induction false} RelevantLinesAppend(a: seq<string>, b: seq<string>)
    ensures RelevantLines(a + b) == RelevantLines(a) + RelevantLines(b)
    decreases |a|
  {
    if a == [] {
      assert a + b == b;
    } else {
      RelevantLinesAppend(a[1..], b);
      assert (a + b)[0] == a[0];
      assert (a + b)[1..] == a[1..] + b;
    }
  }

  /** The text a non-empty patch contributes after the header. */
  function PatchBody(patch: string): string {
    var relevant := RelevantLines(Split(patch, '\n'));
    var shown := if |relevant| <= MaxShownLines then relevant else relevant[..MaxShownLines];
    Join(shown, "\n") + (if |relevant| > MaxShownLines then Ellipsis else "")
  }

  /** A patch shows its first (at most five) hunk lines joined by newlines,
      each recoverable as one line of the text, and "..." follows them exactly
      when more than five lines qualified. */
  lemma PatchBodyShowsFirstLines(patch: string) returns (shown: seq<string>)
    ensures var relevant := RelevantLines(Split(patch, '\n'));
      && |shown| <= MaxShownLines
      && shown <= relevant
      && |shown| == (if |relevant| <= MaxShownLines then |relevant| else MaxShownLines)
      && PatchBody(patch) == Join(shown, "\n") + (if |relevant| > MaxShownLines then Ellipsis else "")
      && (shown != [] ==> Split(Join(shown, "\n"), '\n') == shown)
  {
    var lines := Split(patch, '\n');
    var relevant := RelevantLines(lines);
    shown := if |relevant| <= MaxShownLines then relevant else relevant[..MaxShownLines];
    if shown != [] {
      forall k | 0 <= k < |shown| ensures '\n' !in shown[k] {
        RelevantLinesMembership(lines, shown[k]);
      }
      SplitJoin(shown, '\n');
    }
  }

  /** What follows the header: the patch text when the patch is non-empty. */
  function BlockBody(f: FileRecord): string {
    if f.patch.Some? && f.patch.value != "" then PatchBody(f.patch.value) else ""
  }

  /** The block one file contributes to the digest. */
  function Block(f: FileRecord): (block: string)
    ensures Header(f) <= block
    ensures (f.patch.None? || f.patch.value == "") ==> block == Header(f)
  {
    Header(f) + BlockBody(f)
  }

  /** A patch with no hunk lines contributes only the header. */
  lemma NoHunkLinesHeaderOnly(f: FileRecord)
    requires f.patch.Some? && RelevantLines(Split(f.patch.value, '\n')) == []
    ensures Block(f) == Header(f)
  {
  }

  function Blocks(files: seq<FileRecord>): (blocks: seq<string>)
    ensures |blocks| == |files|
    ensures forall k :: 0 <= k < |files| ==> blocks[k] == Block(files[k])
  {
    seq(|files|, k requires 0 <= k < |files| => Block(files[k]))
  }

  /** The digest of a commit's changed files: the blocks joined by blank lines
      in input order, or a fixed sentence when no file changed. */
  function DiffSummary(files: seq<FileRecord>): (summary: string)
    ensures summary == NoChanges <==> files == []
    ensures files != [] ==> "File: " <= summary
  {
    if files == [] then NoChanges
    else
      var joined := Join(Blocks(files), "\n\n");
      assert "File: " <= Header(files[0]) <= Blocks(files)[0] <= joined;
      assert joined[0] == 'F' != NoChanges[0];
      joined
  }

  /** `Transformer._summarize_diff`: builds the list of blocks file by file. */
  method SummarizeDiff(files: seq<FileRecord>) returns (summary: string)
    ensures summary == DiffSummary(files)
  {
    var diffSummary: seq<string> := [];
    for i := 0 to |files|
      invariant |diffSummary| == i
      invariant forall k :: 0 <= k < i ==> diffSummary[k] == Block(files[k])
    {
      var file := files[i];
      var filename := file.filename.GetOr(UnknownFile);
      var status := file.status.GetOr("");
      var patch := file.patch.GetOr("");
      var summaryLine := "File: " + filename + " (" + status + ")\n";
      if patch != "" {
        var lines := Split(patch, '\n');
        var relevantLines := RelevantLines(lines);
        var shown := if |relevantLines| <= MaxShownLines then relevantLines else relevantLines[..MaxShownLines];
        summaryLine := summaryLine + Join(shown, "\n") + (if |relevantLines| > MaxShownLines then Ellipsis else "");
      }
      diffSummary := diffSummary + [summaryLine];
    }
    assert diffSummary == Blocks(files);
    summary := if diffSummary != [] then Join(diffSummary, "\n\n") else NoChanges;
  }

  /** The digest of two file lists run together is the two digests in order. */
  lemma DiffSummaryAppend(a: seq<FileRecord>, b: seq<FileRecord>)
    requires a != [] && b != []
    ensures DiffSummary(a + b) == DiffSummary(a) + "\n\n" + DiffSummary(b)
  {
    assert Blocks(a + b) == Blocks(a) + Blocks(b);
    JoinAppend(Blocks(a), Blocks(b), "\n\n");
  }

  /** Every file's header line stands whole in the digest. */
  lemma DiffSummaryHasHeader(files: seq<FileRecord>, i: nat) returns (pre: string, post: string)
    requires i < |files|
    ensures DiffSummary(files) == pre + Header(files[i]) + post
  {
    var blocks := Blocks(files);
    var p, q := JoinHasPart(blocks, "\n\n", i);
    pre, post := p, BlockBody(files[i]) + q;
    calc {
      DiffSummary(files);
      Join(blocks, "\n\n");
      p + blocks[i] + q;
      p + (Header(files[i]) + BlockBody(files[i])) + q;
      { Regroup(p, Header(files[i]), BlockBody(files[i]), q); }
      pre + Header(files[i]) + post;
    }
  }

  lemma Regroup(a: string, b: string, c: string, d: string)
    ensures a + (b + c) + d == a + b + (c + d)
  {
  }

  /** A text holding a header line names the file and its status. */
  lemma HeaderNamesFile(pre: string, f: FileRecord, post: string)
    ensures Contains(pre + Header(f) + post, f.filename.GetOr(UnknownFile))
    ensures Contains(pre + Header(f) + post, f.status.GetOr(""))
  {
    var name, status := f.filename.GetOr(UnknownFile), f.status.GetOr("");
    var open, close := " (", ")\n";
    var text := pre + Header(f) + post;
    assert text == (pre + "File: ") + name + (open + status + close + post);
    ContainsInfix(pre + "File: ", name, open + status + close + post);
    assert text == (pre + "File: " + name + open) + status + (close + post);
    ContainsInfix(pre + "File: " + name + open, status, close + post);
  }

  /** The digest names every changed file and its status. */
  lemma DiffSummaryNamesEveryFile(files: seq<FileRecord>, i: nat)
    requires i < |files|
    ensures Contains(DiffSummary(files), files[i].filename.GetOr(UnknownFile))
    ensures Contains(DiffSummary(files), files[i].status.GetOr(""))
  {
    var pre, post := DiffSummaryHasHeader(files, i);
    HeaderNamesFile(pre, files[i], post);
  }

  /** What a generation call yields: the reply's text, or "" when the call raised. */
  function ReplyText(reply: Attempt<string>): (text: string)
    ensures text == "" <==> reply.Raised? || reply.value == ""
    ensures reply.Returned? ==> text == reply.value
  {
    match reply
    case Returned(t) => t
    case Raised => ""
  }

  /** Every line stripped. */
  function StripAll(lines: seq<string>): (stripped: seq<string>)
    ensures |stripped| == |lines|
    ensures forall k :: 0 <= k < |lines| ==> stripped[k] == Strip(lines[k])
  {
    seq(|lines|, k requires 0 <= k < |lines| => Strip(lines[k]))
  }

  /** The non-empty entries, in order. */
  function NonEmpty(xs: seq<string>): (kept: seq<string>)
    ensures forall k :: 0 <= k < |kept| ==> kept[k] != ""
    decreases |xs|
  {
    if xs == [] then []
    else (if xs[0] != "" then [xs[0]] else []) + NonEmpty(xs[1..])
  }

  /** The stripped non-blank lines of a reply, in order. */
  function Titles(lines: seq<string>): seq<string> {
    NonEmpty(StripAll(lines))
  }

  /** The title picked from a reply: its first stripped non-blank line, or the
      default title when there is none or the call raised; never empty. */
  function PickTitle(reply: Attempt<string>): (title: string)
    ensures title != ""
    ensures reply.Raised? ==> title == DefaultTitle
  {
    match reply
    case Raised => DefaultTitle
    case Returned(text) =>
      var titles := Titles(Split(text, '\n'));
      if titles != [] then titles[0] else DefaultTitle
  }

  /** The first entry kept is the first non-empty one. */
  lemma {:induction false} FirstNonEmpty(xs: seq<string>) returns (i: nat)
    ensures i <= |xs|
    ensures forall j :: 0 <= j < i ==> xs[j] == ""
    ensures i < |xs| ==> NonEmpty(xs) != [] && NonEmpty(xs)[0] == xs[i]
    ensures i == |xs| ==> NonEmpty(xs) == []
    decreases |xs|
  {
    if xs == [] {
      i := 0;
    } else if xs[0] != "" {
      i := 0;
    } else {
      var j := FirstNonEmpty(xs[1..]);
      i := j + 1;
      forall k | 1 <= k < i ensures xs[k] == "" {
        assert xs[k] == xs[1..][k - 1];
      }
    }
  }

  /** The picked title is the stripped first non-blank line of the reply,
      or the default title when every line is blank. */
  lemma TitleIsFirstNonBlankLine(text: string) returns (i: nat)
    ensures var lines := Split(text, '\n');
      && i <= |lines|
      && (forall j :: 0 <= j < i ==> Strip(lines[j]) == "")
      && (i < |lines| ==> Strip(lines[i]) != "" && PickTitle(Returned(text)) == Strip(lines[i]))
      && (i == |lines| ==> PickTitle(Returned(text)) == DefaultTitle)
  {
    i := FirstNonEmpty(StripAll(Split(text, '\n')));
  }

  /** The inputs each prompt template is filled from (the template wording is not modelled). */
  datatype Prompt =
    | BlogPostPrompt(message: string, diffSummary: string, notes: string)
    | LinkedInPrompt(message: string, diffSummary: string, notes: string)
    | TitlePrompt(message: string, blogPost: string)

  /** `generate_blog_post`: one generation call on the commit message and the digest. */
  method GenerateBlogPost(message: string, files: seq<FileRecord>, notes: string, gemini: Prompt -> Attempt<string>)
    returns (post: string, prompt: Prompt)
    ensures prompt == BlogPostPrompt(message, DiffSummary(files), notes)
    ensures post == "" <==> gemini(prompt).Raised? || gemini(prompt).value == ""
    ensures gemini(prompt).Returned? ==> post == gemini(prompt).value
  {
    var diffSummary := SummarizeDiff(files);
    prompt := BlogPostPrompt(message, diffSummary, notes);
    post := ReplyText(gemini(prompt));
  }

  /** `generate_linkedin_summary`: one generation call on the same inputs. */
  method GenerateLinkedInSummary(message: string, files: seq<FileRecord>, notes: string, gemini: Prompt -> Attempt<string>)
    returns (summary: string, prompt: Prompt)
    ensures prompt == LinkedInPrompt(message, DiffSummary(files), notes)
    ensures summary == "" <==> gemini(prompt).Raised? || gemini(prompt).value == ""
    ensures gemini(prompt).Returned? ==> summary == gemini(prompt).value
  {
    var diffSummary := SummarizeDiff(files);
    prompt := LinkedInPrompt(message, diffSummary, notes);
    summary := ReplyText(gemini(prompt));
  }

  /** `generate_click_worthy_title`: one generation call, then the title picker. */
  method GenerateClickWorthyTitle(message: string, blogPost: string, gemini: Prompt -> Attempt<string>)
    returns (title: string, prompt: Prompt)
    ensures prompt == TitlePrompt(message, blogPost)
    ensures title == PickTitle(gemini(prompt)) && title != ""
  {
    prompt := TitlePrompt(message, blogPost);
    title := PickTitle(gemini(prompt));
  }
}
