# tiggo: file analysis pipeline, command-line validation and revision ranges

tiggo summarises the files changed between two git revisions. For every
changed file it asks a text-generation backend for a summary of the file's
content and a summary of its diff. It then joins the per-file records into one
text that feeds a pull-request report. This project models the sequential
logic around that pipeline, in Dafny, and proves properties of it:

- `internal/analyze/analyze.go`
  - the `FileAnalysis` record and its text layout;
  - the two sub-tasks that fill a record in place: `AddFileSummary` and
    `AddDiffSummary`;
  - the outcome of `DoAnalysis`, including which slots hold an analysis and
    when the call fails;
  - `AnalysesAsString`.
- `internal/cli/cli.go`: the decision table of `ParseFlags` and the three-way
  dispatch of `BuildDiffRange`.
- `internal/git/git.go`
  - `DiffRange` and its functional options `WithStart` and `WithEnd`;
  - `NewDiffRange`, which runs the options in order over the merge-base
    default;
  - the newline split in `GetChangedFiles`.

Modules, one per Go package plus the library pieces the core relies on:

- `Outcome`: error values and `Result`/`Option`. A Go `(T, error)` pair
  becomes `Result<T>` and a bare `error` becomes `Option<Error>`.
  `fmt.Errorf("ctx: %w", e)` becomes `Wrapped("ctx", e)`.
- `Strings`: `strings.TrimSpace` (with Go's `unicode.IsSpace` set), and
  `bytes.Split` with its inverse join.
- `Fmt`: `fmt.Sprintf` restricted to `%s` verbs with string operands.
- `Git`, `Cli`, `Analyze`: the three core files.

Everything outside the process is an input:

- the output of `git merge-base main HEAD`;
- the output of `git diff <start> <end> --name-only`;
- `os.ReadFile`;
- the per-file diff, from `DiffRange.GetFileDiff`, which is not part of this
  model;
- the text-generation backend.

The last four are the function fields of `Analyze.Services`; the merge-base
output is a `Result<string>` parameter.

Entities that the code updates in place are classes:

- `Analyze.PendingAnalysis` is a `*FileAnalysis` that a worker fills through
  `AddFileSummary` and `AddDiffSummary`.
- `Analyze.Analyzer` holds the slice of records that `DoAnalysis` replaces.

The slice holds struct values, so a record is the datatype
`Analyze.FileAnalysis`. `DoAnalysis` runs one goroutine per file, and each
goroutine writes only its own slot. So the model runs the workers as a loop
over the indices (`RunWorkers`). The slots do not depend on the order the
workers run in. Which failing worker's error is returned does depend on it,
and the contract leaves that error open: it is the error of some failing
worker.

Behaviour of the code that the model keeps:

- No deleted or missing path is filtered out. Such a path gets a worker, and
  that worker fails on the file read.
- A stored summary is whatever text the backend returned, which may be empty.
- The name-only output is split at every newline. git ends that output with a
  newline, and with no change the output is empty. Either way the last entry
  is the empty path, and a worker is run for it.
  `TrailingNewlineSchedulesEmptyPath` states this, and states the error that
  worker sends when reading the empty path fails.
- `GetChangedFiles` returns byte slices, but the worker takes a string. Paths
  are strings throughout the model.

## Model

| member | source | states |
|---|---|---|
| `Fmt.ThreeOperands` | internal/analyze/analyze.go:93 | a `Sprintf` format with three `%s` verbs between '%'-free text, given three operands, yields the text with each operand in place of its verb |
| `Analyze.LayoutParts` | internal/analyze/analyze.go:93 | the record layout is three `%s` verbs between the '%'-free pieces "File:\n", "\n\nCode Summary:\n", "\n\nDiff Summary:\n" and "\n\n" |
| `Analyze.FileAnalysis.String` | internal/analyze/analyze.go:92-94 | a record's text is exactly "File:\n" + path + "\n\nCode Summary:\n" + code summary + "\n\nDiff Summary:\n" + diff summary + "\n\n" |
| `Analyze.GetFileContent` | internal/analyze/analyze.go:25-35 | the read fails exactly when the file read fails, and its error is then the read error wrapped as "error getting file"; on success the content is a slice of the read text with only white space dropped before and after it, and it neither starts nor ends with white space |
| `Strings.TrimSpaceSpec` | internal/analyze/analyze.go:32 | `TrimSpace(s)` is the slice `s[i..j]` with only white space before `i` and after `j`, and it neither starts nor ends with white space |
| `Strings.TrimSpaceIdempotent` | internal/analyze/analyze.go:32 | trimming a trimmed text changes nothing |
| `Analyze.PendingAnalysis.constructor` | internal/analyze/analyze.go:48-50 | a new record has the given path and two empty summaries |
| `Analyze.PendingAnalysis.AddFileSummary` | internal/analyze/analyze.go:52-70 | a failed read returns the read error wrapped as "error getting file"; otherwise the call sends SUM_PROMPT followed by the trimmed content; if that call fails its error is returned; a failed read or call leaves the code summary unchanged; on success the reply becomes the code summary and no error is returned; path and diff summary never change |
| `Analyze.PendingAnalysis.AddDiffSummary` | internal/analyze/analyze.go:72-90 | a missing diff returns its error; otherwise the call sends DIFF_SUM_PROMPT followed by the file's diff; if that call fails its error is returned; a missing diff or failed call leaves the diff summary unchanged; on success the reply becomes the diff summary; path and code summary never change |
| `Analyze.WorkerError` | internal/analyze/analyze.go:132-139 | a worker sends no error exactly when both sub-tasks succeed; when the content sub-task fails, its error, wrapped with "error adding file summary for <path>", is the one sent, even if the diff sub-task also failed |
| `Analyze.RunWorker` | internal/analyze/analyze.go:113-143 | a worker's error is WorkerError of its file; with no error its analysis is the file's full record; with an error its slot stays the zero value |
| `Analyze.RunWorkers` | internal/analyze/analyze.go:103-155 | the pre-sized slots end as Slots(files); the result is no error exactly when every worker succeeded, and otherwise the error of some failing worker |
| `Analyze.SlotsAt` | internal/analyze/analyze.go:107-142 | slot i depends only on the i-th file's worker: if that worker succeeded, the slot carries `files[i]` as its path and both summaries; otherwise it is the zero value |
| `Analyze.AllSucceedIff` | internal/analyze/analyze.go:149-157 | AllSucceed holds exactly when no file's worker sends an error |
| `Analyze.EverySlotFilledOnSuccess` | internal/analyze/analyze.go:107-142 | when no worker fails, there is one slot per file; slot i is `files[i]` with its content summary and its diff summary, both produced without error |
| `Analyze.Analyzer.DoAnalysis` | internal/analyze/analyze.go:96-158 | a listing error is returned and the old records are kept; otherwise the records become Slots(files), one per listed file; the call returns no error exactly when every worker succeeded, and otherwise the error of some failing worker; the range never changes |
| `Analyze.ConcatAppend` | internal/analyze/analyze.go:160-169 | the text of two lists of records is the first list's text followed by the second's |
| `Analyze.Analyzer.AnalysesAsString` | internal/analyze/analyze.go:160-169 | the output is every record's text in slice order, which is empty when there is no record |
| `Analyze.TrailingNewlineSchedulesEmptyPath` | internal/analyze/analyze.go:98-133 | when the name-only output is empty or ends with a newline, the last listed file is the empty path; if reading it fails, its worker sends "error adding file summary for " wrapping "error getting file" and the read error |
| `Strings.Split` | internal/git/git.go:56 | a split has at least one piece, and no piece contains the separator |
| `Strings.SplitCount` | internal/git/git.go:56 | a split has one piece more than the text has separators |
| `Strings.JoinSplit` | internal/git/git.go:56 | joining the pieces of a split with the separator gives back the text exactly |
| `Strings.SplitJoin` | internal/git/git.go:56 | splitting the join of one or more separator-free pieces gives back those pieces |
| `Strings.SplitAppend` | internal/git/git.go:56 | the pieces of `a + sep + b` are the pieces of `a` followed by the pieces of `b` |
| `Strings.TrailingSeparatorGivesEmptyLast` | internal/git/git.go:56 | text ending with the separator splits into pieces whose last one is empty |
| `Git.DiffRange.GetChangedFiles` | internal/git/git.go:48-60 | a failed command returns its error wrapped as "error getting diff"; otherwise the list has one entry per newline in the output, plus one; no entry contains a newline; joining the entries with newlines reproduces the output; nothing is filtered |
| `Git.DiffOpt.Apply` | internal/git/git.go:17-27 | `WithStart` sets only the start commit; `WithEnd` sets only the end commit; the other field keeps its value |
| `Git.NewDiffRange` | internal/git/git.go:29-46 | a failed merge-base returns its error wrapped as "error getting merge-base" and no range, whatever the options; otherwise the options run left to right over (trimmed merge-base, "HEAD"); with no option that default is the result |
| `Git.ApplyOptsAppend` | internal/git/git.go:41-43 | running options `a` then options `b` is running `a + b` |
| `Git.LastSetterWins` | internal/git/git.go:41-43 | the last option that sets a field decides that field |
| `Git.UnsetFieldKept` | internal/git/git.go:36-43 | a field that no option sets keeps its default |
| `Git.SwapIndependentOptions` | internal/git/git.go:41-43 | two neighbouring options that set different fields can be swapped without changing the range |
| `Git.ExplicitRange` | internal/cli/cli.go:72-78 | `WithStart(s)` then `WithEnd(e)` over any default gives exactly the range (s, e) |
| `Cli.ParseFlags` | internal/cli/cli.go:17-69 | accepted: no positional argument; one with p > 0; two with p <= 0; more than two is always an error; PrevCount is p when p > 0 and 0 otherwise; StartCommit is the first of two arguments and empty otherwise; EndCommit is the last argument, or "HEAD" with no argument and p > 0, or empty; each rejection carries its own message; every accepted config has PrevCount >= 0, and PrevCount > 0 forces an empty StartCommit |
| `Cli.BuildDiffRange` | internal/cli/cli.go:71-87 | exactly one branch is taken. Both commits non-empty: the explicit range (start, end), which still fails when merge-base fails. Otherwise PrevCount > 0: a hand-off of (EndCommit, PrevCount) to the count-based constructor. Otherwise: the merge-base default (trimmed merge-base, "HEAD"), or the merge-base error |
| `Cli.TwoArgumentsWithAnEmptyOne` | internal/cli/cli.go:57-63 | two positional arguments of which one is empty are accepted without a count, but do not select the explicit range: the merge-base default is used |

## Left out

- The concurrency of `DoAnalysis` is not modelled: the goroutines, the
  five-slot semaphore, the `WaitGroup` and the buffered error channel. Each
  worker owns one slot, so the model runs the workers in index order. The
  model fixes no particular failing worker's error as the one returned.
- Analyze.RunWorker: runs the content sub-task before the diff sub-task,
  where the code runs them in parallel. They write different fields, and the
  content error is read first in both cases.
- `Summarize` and `injectFileAnalyses` are not modelled: they use the Go
  template engine and file reads and writes.
- The external calls become inputs:
  - `os.ReadFile` and the text-generation backend (`internal/llm/llm.go`:
    HTTP, JSON, status handling) are fields of `Analyze.Services`;
  - the git commands are outputs given to the model;
  - `DiffRange.GetFileDiff` is not part of this model.
- `NewDiffRangeWithCount` is not part of this model. `Cli.BuildDiffRange`
  returns the arguments it would receive (`Delegated`), not its result or its
  error.
- `ParseFlags` starts from the positional arguments and the value of `-p`. The
  `flag` package's own parsing and the usage text are not modelled. In
  particular, Go's `flag` stops at the first positional argument, so a `-p`
  written after a commit counts as a positional argument.
- The backend is assumed to return at least one content block. A reply with
  no content block would make the code panic when it reads the first block;
  the model does not cover that case.
- Text is a sequence of Unicode code points. The code reads bytes; UTF-8
  decoding and invalid UTF-8 are not modelled.
- The outside calls (file read, diff, name-only listing, backend) are fixed
  functions of their arguments for the whole run. The real backend may answer
  the same prompt differently on two calls; no contract here relies on it
  answering the same way.
- `Fmt.Sprintf` models only the `%s` verb with string operands. Any other
  '%' is copied as text.
- `-p` is a Go `int`; the model uses an unbounded integer. The value is only
  compared with 0 and copied, so width does not matter.
- Process glue is not modelled: `tig.go` and `cmd/main.go` (API-key and
  `.env` loading, exit codes) and `internal/prompt/prompt.go`, the report
  template.
