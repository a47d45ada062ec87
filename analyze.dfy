/** The analysis of internal/analyze/analyze.go: the per-file record and its
    text, the two sub-tasks that fill a record in, the analyzer that runs them
    for every changed file, and the report text assembled from the records.
    The worker goroutines of `DoAnalysis` are modelled as a loop over the
    file indices: each worker owns one slot, so the slots do not depend on
    the order they run in. Which failing worker's error is returned does
    depend on that order, and the contract leaves it open. */
module Analyze {
  import opened Outcome
  import Strings
  import Fmt
  import Git

  /** The instruction put in front of a file's content. */
  const SUM_PROMPT: string :=
    "Generate a summary of the following code containing file. The summary\n"
    + " should be an overview of the functionality that the code within the file offers. Do not\n"
    + " include any introduction or sign off of your own in the response. Only include the summary in your response."

  /** The instruction put in front of a file's diff. */
  const DIFF_SUM_PROMPT: string :=
    "Use the supplied output of a 'git diff' command for a single file\n"
    + "  to summarize the changes made. Be very detailed and objective with the analyses, but\n"
    + "  make no attempts to infer the impact of the changes. Generate a change summary for each\n"
    + "  change in the diff and be sure to reference the line numbers within each summary. Do not include any introduction or\n"
    + "  sign off of your own in the response. Only include the summary in your response."

  /** The layout `FileAnalysis.String` passes to `fmt.Sprintf`,
      "File:\n%s\n\nCode Summary:\n%s\n\nDiff Summary:\n%s\n\n", written in
      pieces split at its verbs. */
  const LAYOUT: string :=
    "File:\n" + "%s" + "\n\nCode Summary:\n" + "%s" + "\n\nDiff Summary:\n" + "%s" + "\n\n"

  /** Everything the analysis calls that lies outside the model, as the
      results those calls give. */
  datatype Services = Services(
    // os.ReadFile of a path, as text
    readFile: string -> Result<string>,
    // the diff of one path over a range (DiffRange.GetFileDiff, which is not part of this model)
    fileDiff: (Git.DiffRange, string) -> Result<string>,
    // the output of `git diff <start> <end> --name-only`
    nameOnly: (string, string) -> Result<string>,
    // the text-generation backend (LLMClient.SendMessage): the text of the
    // reply's first content block
    sendMessage: string -> Result<string>)

  /** A `FileAnalysis` struct value: what the analyzer's slice holds and what
      `String` prints. */
  datatype FileAnalysis = FileAnalysis(path: string, codeSummary: string, diffSummary: string)
  {
    /** The record as text: a "File:" heading and the path, a "Code Summary:"
        heading and the code summary, a "Diff Summary:" heading and the diff
        summary, each followed by a blank line. */
    function String(): (text: string)
      ensures text == "File:\n" + path + "\n\nCode Summary:\n" + codeSummary
                      + "\n\nDiff Summary:\n" + diffSummary + "\n\n"
    {
      LayoutParts();
      Fmt.ThreeOperands("File:\n", "\n\nCode Summary:\n", "\n\nDiff Summary:\n", "\n\n",
                        path, codeSummary, diffSummary);
      Fmt.Sprintf(LAYOUT, [path, codeSummary, diffSummary])
    }
  }

  /** LAYOUT is three `%s` verbs between '%'-free text. */
  lemma LayoutParts()
    ensures '%' !in "File:\n" && '%' !in "\n\nCode Summary:\n" && '%' !in "\n\nDiff Summary:\n" && '%' !in "\n\n"
    ensures LAYOUT == "File:\n" + ("%s" + ("\n\nCode Summary:\n" + ("%s" + ("\n\nDiff Summary:\n" + ("%s" + "\n\n")))))
  {
  }

  /** The zero value of the struct: what a slot holds until its worker
      stores a finished analysis. */
  const EMPTY := FileAnalysis("", "", "")

  /** `GetFileContent`: the file's text with surrounding white space trimmed,
      or the read error under "error getting file". */
  function GetFileContent(path: string, s: Services): (r: Result<string>)
    ensures r.Err? <==> s.readFile(path).Err?
    ensures r.Err? ==> r.error == Wrapped("error getting file", s.readFile(path).error)
    ensures r.Ok? ==> var text := s.readFile(path).value;
                      exists i, j :: 0 <= i <= j <= |text| && r.value == text[i..j]
                                     && Strings.AllSpace(text[..i]) && Strings.AllSpace(text[j..])
    ensures r.Ok? && r.value != [] ==>
              !Strings.IsSpace(r.value[0]) && !Strings.IsSpace(r.value[|r.value| - 1])
  {
    match s.readFile(path)
    case Err(e) => Err(Wrapped("error getting file", e))
    case Ok(text) =>
      Strings.TrimSpaceSpec(text);
      Ok(Strings.TrimSpace(text))
  }

  /** What the content sub-task of a worker for `path` ends with: the
      generated summary, or the error that stopped it. */
  function FileSummary(path: string, s: Services): Result<string>
  {
    match GetFileContent(path, s)
    case Err(e) => Err(e)
    case Ok(content) => s.sendMessage(SUM_PROMPT + content)
  }

  /** What the diff sub-task of a worker for `path` ends with. */
  function DiffSummary(range: Git.DiffRange, path: string, s: Services): Result<string>
  {
    match s.fileDiff(range, path)
    case Err(e) => Err(e)
    case Ok(diff) => s.sendMessage(DIFF_SUM_PROMPT + diff)
  }

  /** The error a worker for `file` sends, if any. The content sub-task's
      error is taken first: when both sub-tasks fail it is the one sent. */
  function WorkerError(file: string, range: Git.DiffRange, s: Services): (r: Option<Error>)
    ensures r.None? <==> FileSummary(file, s).Ok? && DiffSummary(range, file, s).Ok?
    ensures FileSummary(file, s).Err? ==>
              r == Some(Wrapped("error adding file summary for " + file, FileSummary(file, s).error))
  {
    if FileSummary(file, s).Err? then
      Some(Wrapped("error adding file summary for " + file, FileSummary(file, s).error))
    else if DiffSummary(range, file, s).Err? then
      Some(Wrapped("error adding diff summary for " + file, DiffSummary(range, file, s).error))
    else
      None
  }

  /** What slot `i` holds after `DoAnalysis` when `file` is the i-th changed
      file: its full analysis when both sub-tasks succeeded, otherwise the
      zero value. */
  function Slot(file: string, range: Git.DiffRange, s: Services): FileAnalysis
  {
    if FileSummary(file, s).Ok? && DiffSummary(range, file, s).Ok? then
      FileAnalysis(file, FileSummary(file, s).value, DiffSummary(range, file, s).value)
    else
      EMPTY
  }

  /** The slots `DoAnalysis` leaves for `files`: slot i is Slot(files[i]). */
  function Slots(files: seq<string>, range: Git.DiffRange, s: Services): (r: seq<FileAnalysis>)
    ensures |r| == |files|
    decreases |files|
  {
    if files == [] then []
    else Slots(files[..|files| - 1], range, s) + [Slot(files[|files| - 1], range, s)]
  }

  /** Every worker for `files` finishes without an error. */
  predicate AllSucceed(files: seq<string>, range: Git.DiffRange, s: Services)
    decreases |files|
  {
    files == []
    || (AllSucceed(files[..|files| - 1], range, s) && WorkerError(files[|files| - 1], range, s).None?)
  }

  /** Slot i of Slots is the outcome of the i-th file's worker alone: its
      full analysis, with `files[i]` as path, when both sub-tasks succeed, and
      the zero value otherwise. */
  lemma {:induction false} SlotsAt(files: seq<string>, range: Git.DiffRange, s: Services, i: nat)
    requires i < |files|
    ensures Slots(files, range, s)[i] == Slot(files[i], range, s)
    ensures WorkerError(files[i], range, s).None? ==>
              Slots(files, range, s)[i].path == files[i]
              && Slots(files, range, s)[i].codeSummary == FileSummary(files[i], s).value
              && Slots(files, range, s)[i].diffSummary == DiffSummary(range, files[i], s).value
    ensures WorkerError(files[i], range, s).Some? ==> Slots(files, range, s)[i] == EMPTY
    decreases |files|
  {
    var init := files[..|files| - 1];
    if i < |files| - 1 {
      SlotsAt(init, range, s, i);
      assert init[i] == files[i];
    }
  }

  /** AllSucceed holds exactly when no file's worker fails. */
  lemma {:induction false} AllSucceedIff(files: seq<string>, range: Git.DiffRange, s: Services)
    ensures AllSucceed(files, range, s) <==> forall i :: 0 <= i < |files| ==> WorkerError(files[i], range, s).None?
    decreases |files|
  {
    if files != [] {
      var init := files[..|files| - 1];
      AllSucceedIff(init, range, s);
      assert forall i :: 0 <= i < |init| ==> init[i] == files[i];
    }
  }

  /** When no worker fails, the slots are the files' analyses one for one:
      slot i carries `files[i]` as its path and both of its summaries. */
  lemma EverySlotFilledOnSuccess(files: seq<string>, range: Git.DiffRange, s: Services)
    requires AllSucceed(files, range, s)
    ensures |Slots(files, range, s)| == |files|
    ensures forall i :: 0 <= i < |files| ==>
              && FileSummary(files[i], s).Ok? && DiffSummary(range, files[i], s).Ok?
              && Slots(files, range, s)[i]
                 == FileAnalysis(files[i], FileSummary(files[i], s).value, DiffSummary(range, files[i], s).value)
  {
    AllSucceedIff(files, range, s);
    forall i | 0 <= i < |files|
      ensures && FileSummary(files[i], s).Ok? && DiffSummary(range, files[i], s).Ok?
              && Slots(files, range, s)[i]
                 == FileAnalysis(files[i], FileSummary(files[i], s).value, DiffSummary(range, files[i], s).value)
    {
      SlotsAt(files, range, s, i);
    }
  }

  /** A `*FileAnalysis` that a worker fills in place: the receiver of
      `AddFileSummary` and `AddDiffSummary`. */
  class PendingAnalysis {
    var path: string
    var codeSummary: string
    var diffSummary: string

    /** `FileAnalysis{Path: file}` (and `NewFileAnalysis`): only the path is
        set. */
    constructor (path: string)
      ensures this.path == path && codeSummary == "" && diffSummary == ""
    {
      this.path := path;
      codeSummary := "";
      diffSummary := "";
    }

    /** The struct value copied out of the pointer. */
    function Value(): FileAnalysis
      reads this
    {
      FileAnalysis(path, codeSummary, diffSummary)
    }

    /** `AddFileSummary`: reads the file, trims it, sends SUM_PROMPT followed
        by the trimmed content, and on success stores the reply as the code
        summary. A failed read or a failed call returns its error and changes
        nothing. The path and the diff summary never change. */
    method AddFileSummary(s: Services) returns (err: Option<Error>)
      modifies this
      ensures path == old(path) && diffSummary == old(diffSummary)
      ensures var content := GetFileContent(path, s);
              && (content.Err? ==> err == Some(content.error) && codeSummary == old(codeSummary))
              && (content.Ok? && s.sendMessage(SUM_PROMPT + content.value).Err? ==>
                    err == Some(s.sendMessage(SUM_PROMPT + content.value).error) && codeSummary == old(codeSummary))
              && (content.Ok? && s.sendMessage(SUM_PROMPT + content.value).Ok? ==>
                    err == None && codeSummary == s.sendMessage(SUM_PROMPT + content.value).value)
    {
      var content := GetFileContent(path, s);
      if content.Err? {
        return Some(content.error);
      }
      var reply := s.sendMessage(SUM_PROMPT + content.value);
      if reply.Err? {
        return Some(reply.error);
      }
      codeSummary := reply.value;
      return None;
    }

    /** `AddDiffSummary`: gets the file's diff over the range, sends
        DIFF_SUM_PROMPT followed by the diff, and on success stores the reply
        as the diff summary. A missing diff or a failed call returns its error
        and changes nothing. The path and the code summary never change. */
    method AddDiffSummary(range: Git.DiffRange, s: Services) returns (err: Option<Error>)
      modifies this
      ensures path == old(path) && codeSummary == old(codeSummary)
      ensures var diff := s.fileDiff(range, path);
              && (diff.Err? ==> err == Some(diff.error) && diffSummary == old(diffSummary))
              && (diff.Ok? && s.sendMessage(DIFF_SUM_PROMPT + diff.value).Err? ==>
                    err == Some(s.sendMessage(DIFF_SUM_PROMPT + diff.value).error) && diffSummary == old(diffSummary))
              && (diff.Ok? && s.sendMessage(DIFF_SUM_PROMPT + diff.value).Ok? ==>
                    err == None && diffSummary == s.sendMessage(DIFF_SUM_PROMPT + diff.value).value)
    {
      var diff := s.fileDiff(range, path);
      if diff.Err? {
        return Some(diff.error);
      }
      var reply := s.sendMessage(DIFF_SUM_PROMPT + diff.value);
      if reply.Err? {
        return Some(reply.error);
      }
      diffSummary := reply.value;
      return None;
    }
  }

  /** The body of one worker goroutine of `DoAnalysis`: a fresh analysis
      holding only the path, its content and diff sub-tasks, and the error it
      sends. It sends the content sub-task's error first, wrapped with the
      file's path, then the diff sub-task's; with no error the analysis is
      the one its slot receives. */
  method RunWorker(file: string, range: Git.DiffRange, s: Services) returns (analysis: FileAnalysis, err: Option<Error>)
    ensures err == WorkerError(file, range, s)
    ensures err.None? ==> analysis == Slot(file, range, s)
    ensures err.Some? ==> Slot(file, range, s) == EMPTY
  {
    var pending := new PendingAnalysis(file);
    var sumErr := pending.AddFileSummary(s);
    var diffErr := pending.AddDiffSummary(range, s);
    analysis := pending.Value();
    if sumErr.Some? {
      err := Some(Wrapped("error adding file summary for " + file, sumErr.value));
    } else if diffErr.Some? {
      err := Some(Wrapped("error adding diff summary for " + file, diffErr.value));
    } else {
      err := None;
    }
  }

  /** The fan-out of `DoAnalysis` over the listed files, one worker per
      index: `slots` starts pre-sized with zero values and each worker that
      succeeds writes only its own slot. The result is no error exactly when
      every worker succeeded, and otherwise the error of some failing worker. */
  method RunWorkers(files: seq<string>, range: Git.DiffRange, s: Services)
    returns (slots: seq<FileAnalysis>, err: Option<Error>)
    ensures slots == Slots(files, range, s)
    ensures err.None? <==> AllSucceed(files, range, s)
    ensures err.Some? ==> exists i :: 0 <= i < |files| && WorkerError(files[i], range, s) == err
  {
    slots := seq(|files|, _ => EMPTY);
    err := None;
    ghost var failing := 0;
    for i := 0 to |files|
      invariant |slots| == |files|
      invariant slots[..i] == Slots(files[..i], range, s)
      invariant forall j :: i <= j < |files| ==> slots[j] == EMPTY
      invariant err.None? <==> AllSucceed(files[..i], range, s)
      invariant err.Some? ==> failing < i && WorkerError(files[failing], range, s) == err
    {
      var analysis, workerErr := RunWorker(files[i], range, s);
      assert files[..i + 1][..i] == files[..i];
      if workerErr.Some? {
        if err.None? {
          err := workerErr;
          failing := i;
        }
      } else {
        slots := slots[i := analysis];
      }
      assert slots[..i + 1] == slots[..i] + [Slot(files[i], range, s)];
    }
    assert files[..|files|] == files;
    assert slots[..|files|] == slots;
  }

  /** The records as one text: each record's text, in order. */
  function Concat(analyses: seq<FileAnalysis>): string
  {
    if analyses == [] then "" else analyses[0].String() + Concat(analyses[1..])
  }

  /** The text of two lists of records one after the other is the text of
      the first followed by the text of the second. */
  lemma {:induction false} ConcatAppend(a: seq<FileAnalysis>, b: seq<FileAnalysis>)
    ensures Concat(a + b) == Concat(a) + Concat(b)
    decreases |a|
  {
    if a != [] {
      assert (a + b)[1..] == a[1..] + b;
      ConcatAppend(a[1..], b);
    } else {
      assert a + b == b;
    }
  }

  /** The analyzer: the range it analyses and the records it produces. The
      backend client is part of Services. */
  class Analyzer {
    var diffRange: Git.DiffRange
    var fileAnalyses: seq<FileAnalysis>

    /** `&analyze.Analyzer{DiffRange: diffRange}`: no records yet. */
    constructor (diffRange: Git.DiffRange)
      ensures this.diffRange == diffRange && fileAnalyses == []
    {
      this.diffRange := diffRange;
      fileAnalyses := [];
    }

    /** `DoAnalysis`. If listing the changed files fails, that error is
        returned and the records are left as they were. Otherwise there is
        one slot per listed file: slot i holds the i-th file's full analysis
        when both its sub-tasks succeeded and the zero value otherwise. The
        call returns no error exactly when every worker succeeded, and
        otherwise the error of one failing worker; which one is not fixed. */
    method DoAnalysis(s: Services) returns (err: Option<Error>)
      modifies this
      ensures diffRange == old(diffRange)
      ensures var listed := diffRange.GetChangedFiles(s.nameOnly);
              listed.Err? ==> err == Some(listed.error) && fileAnalyses == old(fileAnalyses)
      ensures var listed := diffRange.GetChangedFiles(s.nameOnly);
              listed.Ok? ==>
                var files := listed.value;
                && fileAnalyses == Slots(files, diffRange, s)
                && (err.None? <==> AllSucceed(files, diffRange, s))
                && (err.Some? ==> exists i :: 0 <= i < |files| && WorkerError(files[i], diffRange, s) == err)
    {
      var listed := diffRange.GetChangedFiles(s.nameOnly);
      if listed.Err? {
        return Some(listed.error);
      }
      var files := listed.value;
      var slots;
      slots, err := RunWorkers(files, diffRange, s);
      fileAnalyses := slots;
    }

    /** `AnalysesAsString`: the text of every record, in slice order; empty
        when there is no record. */
    method AnalysesAsString() returns (output: string)
      ensures output == Concat(fileAnalyses)
    {
      output := "";
      for i := 0 to |fileAnalyses|
        invariant output == Concat(fileAnalyses[..i])
      {
        ConcatAppend(fileAnalyses[..i], [fileAnalyses[i]]);
        assert fileAnalyses[..i + 1] == fileAnalyses[..i] + [fileAnalyses[i]];
        output := output + fileAnalyses[i].String();
      }
      assert fileAnalyses[..|fileAnalyses|] == fileAnalyses;
    }
  }

  /** `git diff --name-only` ends its output with a newline, and the split
      keeps the empty piece after it; with no change at all the output is
      empty and splits into that one empty piece. Either way the last changed
      file is the empty path, and a worker runs for it. If reading the empty path fails, that
      worker fails with the read error. */
  lemma TrailingNewlineSchedulesEmptyPath(range: Git.DiffRange, s: Services)
    requires s.nameOnly(range.startCommit, range.endCommit).Ok?
    requires var out := s.nameOnly(range.startCommit, range.endCommit).value;
             out == [] || out[|out| - 1] == '\n'
    requires s.readFile("").Err?
    ensures range.GetChangedFiles(s.nameOnly).Ok?
    ensures var files := range.GetChangedFiles(s.nameOnly).value;
            && files[|files| - 1] == ""
            && WorkerError(files[|files| - 1], range, s)
               == Some(Wrapped("error adding file summary for ",
                               Wrapped("error getting file", s.readFile("").error)))
  {
    var out := s.nameOnly(range.startCommit, range.endCommit).value;
    assert range.GetChangedFiles(s.nameOnly) == Ok(Strings.Split(out, '\n'));
    if out != [] {
      Strings.TrailingSeparatorGivesEmptyLast(out, '\n');
    }
    assert GetFileContent("", s) == Err(Wrapped("error getting file", s.readFile("").error));
    assert FileSummary("", s) == Err(Wrapped("error getting file", s.readFile("").error));
    assert "error adding file summary for " + "" == "error adding file summary for ";
  }
}
