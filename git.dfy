/** The revision range of internal/git/git.go: its construction from
    functional options over the merge-base default, and the list of changed
    files read from `git diff --name-only`. The git commands themselves are not
    run: their outputs are inputs to the model. */
module Git {
  import opened Outcome
  import Strings

  /** The two commits a diff is taken between. */
  datatype DiffRange = DiffRange(startCommit: string, endCommit: string)
  {
    /** `GetChangedFiles`: runs `git diff <start> <end> --name-only` (its
        output, for this range's two commits, is `nameOnly`) and splits the
        output at every newline. A failed command gives its error under
        "error getting diff". Otherwise there is one entry per newline plus
        one, no entry holds a newline, and joining the entries with newlines
        gives back the output exactly; nothing is filtered out. */
    function GetChangedFiles(nameOnly: (string, string) -> Result<string>): (r: Result<seq<string>>)
      ensures nameOnly(startCommit, endCommit).Err? ==>
                r == Err(Wrapped("error getting diff", nameOnly(startCommit, endCommit).error))
      ensures nameOnly(startCommit, endCommit).Ok? ==>
                var output := nameOnly(startCommit, endCommit).value;
                && r.Ok?
                && |r.value| == multiset(output)['\n'] + 1
                && (forall k :: 0 <= k < |r.value| ==> '\n' !in r.value[k])
                && Strings.Join(r.value, '\n') == output
    {
      match nameOnly(startCommit, endCommit)
      case Err(e) => Err(Wrapped("error getting diff", e))
      case Ok(output) =>
        Strings.JoinSplit(output, '\n');
        Strings.SplitCount(output, '\n');
        Ok(Strings.Split(output, '\n'))
    }
  }

  /** The field of a DiffRange an option sets. */
  datatype Field = Start | End

  function Get(d: DiffRange, f: Field): string
  {
    match f
    case Start => d.startCommit
    case End => d.endCommit
  }

  /** A functional option of `NewDiffRange`. In the source a `DiffOpt` is a
      closure built by `WithStart` or `WithEnd`; here each closure is the
      constructor that built it, and Apply runs its body. */
  datatype DiffOpt = WithStart(start: string) | WithEnd(end: string)
  {
    /** The field this option sets. */
    function Sets(): Field
    {
      if WithStart? then Start else End
    }

    /** The value this option gives its field. */
    function Commit(): string
    {
      if WithStart? then start else end
    }

    /** Running the option sets its own field to its commit and leaves the
        other field as it was. */
    function Apply(d: DiffRange): (r: DiffRange)
      ensures Get(r, Sets()) == Commit()
      ensures forall f :: f != Sets() ==> Get(r, f) == Get(d, f)
    {
      match this
      case WithStart(s) => d.(startCommit := s)
      case WithEnd(e) => d.(endCommit := e)
    }
  }

  /** The range after running the options on `d` from left to right. */
  function ApplyOpts(opts: seq<DiffOpt>, d: DiffRange): DiffRange
    decreases |opts|
  {
    if opts == [] then d else opts[|opts| - 1].Apply(ApplyOpts(opts[..|opts| - 1], d))
  }

  /** The range `NewDiffRange` starts from: the merge-base commit, trimmed, up
      to HEAD. */
  function Default(mergeBase: string): DiffRange
  {
    DiffRange(Strings.TrimSpace(mergeBase), "HEAD")
  }

  /** `NewDiffRange(opts...)`, given the output of `git merge-base main HEAD`.
      If the command failed there is no range, only its error under "error
      getting merge-base"; this holds whatever the options are. Otherwise the
      options are run in order over the default range. */
  method NewDiffRange(mergeBase: Result<string>, opts: seq<DiffOpt>) returns (r: Result<DiffRange>)
    ensures mergeBase.Err? ==> r == Err(Wrapped("error getting merge-base", mergeBase.error))
    ensures mergeBase.Ok? ==> r == Ok(ApplyOpts(opts, Default(mergeBase.value)))
    ensures mergeBase.Ok? && opts == [] ==>
              r.Ok? && r.value.endCommit == "HEAD" && r.value.startCommit == Strings.TrimSpace(mergeBase.value)
  {
    if mergeBase.Err? {
      return Err(Wrapped("error getting merge-base", mergeBase.error));
    }
    var d := DiffRange(Strings.TrimSpace(mergeBase.value), "HEAD");
    for i := 0 to |opts|
      invariant d == ApplyOpts(opts[..i], Default(mergeBase.value))
    {
      assert opts[..i + 1][..i] == opts[..i];
      d := opts[i].Apply(d);
    }
    assert opts[..|opts|] == opts;
    r := Ok(d);
  }

  /** Running `a` and then `b` is running `a + b`. */
  lemma {:induction false} ApplyOptsAppend(a: seq<DiffOpt>, b: seq<DiffOpt>, d: DiffRange)
    ensures ApplyOpts(a + b, d) == ApplyOpts(b, ApplyOpts(a, d))
    decreases |b|
  {
    if b == [] {
      assert a + b == a;
    } else {
      var b' := b[..|b| - 1];
      assert (a + b)[..|a + b| - 1] == a + b';
      ApplyOptsAppend(a, b', d);
    }
  }

  /** The last option that sets a field decides it. */
  lemma {:induction false} LastSetterWins(opts: seq<DiffOpt>, d: DiffRange, f: Field, k: nat)
    requires k < |opts| && opts[k].Sets() == f
    requires forall j :: k < j < |opts| ==> opts[j].Sets() != f
    ensures Get(ApplyOpts(opts, d), f) == opts[k].Commit()
    decreases |opts|
  {
    var init := opts[..|opts| - 1];
    if k < |opts| - 1 {
      LastSetterWins(init, d, f, k);
    }
  }

  /** A field no option sets keeps its value from `d`. */
  lemma {:induction false} UnsetFieldKept(opts: seq<DiffOpt>, d: DiffRange, f: Field)
    requires forall j :: 0 <= j < |opts| ==> opts[j].Sets() != f
    ensures Get(ApplyOpts(opts, d), f) == Get(d, f)
    decreases |opts|
  {
    if opts != [] {
      UnsetFieldKept(opts[..|opts| - 1], d, f);
    }
  }

  /** Two neighbouring options that set different fields can be swapped
      without changing the range, wherever they stand in the list. */
  lemma SwapIndependentOptions(pre: seq<DiffOpt>, o1: DiffOpt, o2: DiffOpt, post: seq<DiffOpt>, d: DiffRange)
    requires o1.Sets() != o2.Sets()
    ensures ApplyOpts(pre + [o1, o2] + post, d) == ApplyOpts(pre + [o2, o1] + post, d)
  {
    var m := ApplyOpts(pre, d);
    ApplyOptsAppend(pre + [o1, o2], post, d);
    ApplyOptsAppend(pre + [o2, o1], post, d);
    ApplyOptsAppend(pre, [o1, o2], d);
    ApplyOptsAppend(pre, [o2, o1], d);
    assert [o1, o2][..1] == [o1] && [o2, o1][..1] == [o2];
    var r1 := ApplyOpts([o1, o2], m);
    var r2 := ApplyOpts([o2, o1], m);
    assert Get(r1, Start) == Get(r2, Start);
    assert Get(r1, End) == Get(r2, End);
  }

  /** The explicit range: a start option and an end option over any default
      give exactly those two commits. */
  lemma ExplicitRange(start: string, end: string, d: DiffRange)
    ensures ApplyOpts([WithStart(start), WithEnd(end)], d) == DiffRange(start, end)
  {
    var opts := [WithStart(start), WithEnd(end)];
    LastSetterWins(opts, d, Start, 0);
    LastSetterWins(opts, d, End, 1);
  }
}
