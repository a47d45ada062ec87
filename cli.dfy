/** Command-line validation of internal/cli/cli.go: which positional
    arguments and `-p` counts are accepted, the configuration they give, and
    which way of building the revision range that configuration selects. The
    `flag` package's own parsing is not modelled: the input is the list of
    positional arguments it leaves and the value of `-p`. */
module Cli {
  import opened Outcome
  import Strings
  import Git

  /** What the user asked for: an explicit start and end commit, or a number
      of commits before an end commit. */
  datatype Config = Config(startCommit: string, endCommit: string, prevCount: int)

  /** A configuration ParseFlags can return: the count is never negative, and
      a count excludes an explicit start commit. */
  predicate WellFormed(c: Config)
  {
    c.prevCount >= 0 && (c.prevCount > 0 ==> c.startCommit == "")
  }

  const SingleCommitNeedsCount := "when providing single commit, -p flag is required"
  const CountWithTwoCommits := "cannot use -p flag with two commits"
  const TooManyArguments := "too many arguments"

  /** `ParseFlags`, after the flags are parsed: `args` are the positional
      arguments and `p` the value of `-p` (0 when absent).
      Accepted are no argument, one argument with a positive count, and two
      arguments without one. Column by column: the count is kept only when
      positive; the start commit is the first of two arguments and empty
      otherwise; the end commit is the last argument, or "HEAD" when there is
      none and the count is positive, or empty. */
  function ParseFlags(args: seq<string>, p: int): (r: Result<Config>)
    ensures r.Ok? <==> |args| == 0 || (|args| == 1 && p > 0) || (|args| == 2 && p <= 0)
    ensures r.Ok? ==> WellFormed(r.value)
    ensures r.Ok? ==> r.value.prevCount == (if p > 0 then p else 0)
    ensures r.Ok? ==> r.value.startCommit == (if |args| == 2 then args[0] else "")
    ensures r.Ok? ==> r.value.endCommit == (if |args| > 0 then args[|args| - 1] else if p > 0 then "HEAD" else "")
    ensures r.Err? ==> r.error == Failed(if |args| == 1 then SingleCommitNeedsCount
                                         else if |args| == 2 then CountWithTwoCommits
                                         else TooManyArguments)
  {
    var config := Config("", "", 0);
    if |args| == 0 then
      if p > 0 then Ok(config.(endCommit := "HEAD", prevCount := p)) else Ok(config)
    else if |args| == 1 then
      if p > 0 then Ok(config.(endCommit := args[0], prevCount := p))
      else Err(Failed(SingleCommitNeedsCount))
    else if |args| == 2 then
      if p > 0 then Err(Failed(CountWithTwoCommits))
      else Ok(config.(startCommit := args[0], endCommit := args[1]))
    else
      Err(Failed(TooManyArguments))
  }

  /** What `BuildDiffRange` returns: a range built by `NewDiffRange`, or the
      arguments it hands to `NewDiffRangeWithCount`, whose result the model
      does not compute (that function is not part of this model). */
  datatype RangeSource =
    | Resolved(range: Git.DiffRange)
    | Delegated(endCommit: string, count: int)

  /** Both commits are given: the explicit-range case. */
  predicate Explicit(c: Config)
  {
    c.startCommit != "" && c.endCommit != ""
  }

  /** `BuildDiffRange`, given the output of `git merge-base main HEAD`. Exactly
      one way is taken: both commits given selects that explicit range; else a
      positive count selects the count-based range; else the merge-base
      default. Both ways through `NewDiffRange` fail, with its error, when the
      merge-base command fails, even though an explicit range then ignores the
      merge-base. */
  method BuildDiffRange(config: Config, mergeBase: Result<string>) returns (r: Result<RangeSource>)
    ensures mergeBase.Err? && (Explicit(config) || config.prevCount <= 0) ==>
              r == Err(Wrapped("error getting merge-base", mergeBase.error))
    ensures Explicit(config) && mergeBase.Ok? ==>
              r == Ok(Resolved(Git.DiffRange(config.startCommit, config.endCommit)))
    ensures !Explicit(config) && config.prevCount > 0 ==>
              r == Ok(Delegated(config.endCommit, config.prevCount))
    ensures !Explicit(config) && config.prevCount <= 0 && mergeBase.Ok? ==>
              r == Ok(Resolved(Git.DiffRange(Strings.TrimSpace(mergeBase.value), "HEAD")))
  {
    if Explicit(config) {
      var d := Git.NewDiffRange(mergeBase, [Git.WithStart(config.startCommit), Git.WithEnd(config.endCommit)]);
      if mergeBase.Ok? {
        Git.ExplicitRange(config.startCommit, config.endCommit, Git.Default(mergeBase.value));
      }
      return match d case Ok(range) => Ok(Resolved(range)) case Err(e) => Err(e);
    }
    if config.prevCount > 0 {
      return Ok(Delegated(config.endCommit, config.prevCount));
    }
    var d := Git.NewDiffRange(mergeBase, []);
    return match d case Ok(range) => Ok(Resolved(range)) case Err(e) => Err(e);
  }

  /** Two positional arguments of which one is empty are accepted, but do not
      select an explicit range: with no count they fall back to the
      merge-base default, so a given end commit is ignored. */
  lemma TwoArgumentsWithAnEmptyOne(args: seq<string>)
    requires |args| == 2 && (args[0] == "" || args[1] == "")
    ensures ParseFlags(args, 0).Ok?
    ensures var c := ParseFlags(args, 0).value; !Explicit(c) && c.prevCount <= 0
  {
  }
}
