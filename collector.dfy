/**
 * The status collector: `get_git_info` (git_overview.py:157-204) with the
 * four git queries it makes per branch (git_overview.py:98-155) given as
 * answers instead of subprocesses.
 */
module Collector {

  import opened Wrappers
  import opened Locator

  /**
   * The answer to one git query: its value, or `Raised` when the query raised
   * `subprocess.TimeoutExpired` or another `subprocess.SubprocessError`.
   */
  datatype Query<T> = Reply(value: T) | Raised

  /**
   * What git answers in one working directory.
   * - `currentBranch`: the stripped output of `git branch --show-current`,
   *   `None` when it exits non-zero, `Raised` when it times out.
   * - `status`: the output of `git status --porcelain`, `Raised` when it
   *   times out; its text is not used for the records.
   * - `localExists`: `__check_if_local_branch_exists__`.
   * - `remoteSha`: `__get_remote_info__`, `None` standing for its `False`.
   * - `localSha`: `__get_local_info__`, `None` standing for its `False`.
   * - `differences`: `__get_differences_remote_local__` on whatever the two
   *   lookups returned, `None` standing for its `False`.
   */
  datatype Git = Git(
    currentBranch: Query<Option<string>>,
    status: Query<string>,
    localExists: string -> Query<bool>,
    remoteSha: string -> Query<Option<string>>,
    localSha: string -> Query<Option<string>>,
    differences: (Option<string>, Option<string>) -> Query<Option<(nat, nat)>>)

  /** One `{'repo', 'branch', 'ahead', 'behind'}` dictionary. */
  datatype Record = Record(repo: Option<Path>, branch: string, ahead: nat, behind: nat)

  const Unknown: string := "Unknown"

  // ---------------------------------------------------------------------
  // Branch list: `list(dict.fromkeys([current_branch] + extra_branches))`
  // ---------------------------------------------------------------------

  predicate NoDuplicates<T(==)>(s: seq<T>)
  {
    forall i, j :: 0 <= i < j < |s| ==> s[i] != s[j]
  }

  /** The distinct elements of `s`, each where it first occurs. */
  function Dedup(s: seq<string>): (r: seq<string>)
    ensures forall x :: x in r <==> x in s
    ensures NoDuplicates(r)
    decreases |s|
  {
    if |s| == 0 then []
    else
      var p := Dedup(s[..|s| - 1]);
      if s[|s| - 1] in s[..|s| - 1] then p else p + [s[|s| - 1]]
  }

  /** The index of the first occurrence of `x` in `s`. */
  function FirstIndex<T(==)>(s: seq<T>, x: T): (k: nat)
    requires x in s
    ensures k < |s| && s[k] == x && x !in s[..k]
  {
    if s[0] == x then 0 else 1 + FirstIndex(s[1..], x)
  }

  lemma FirstIndexPrefix<T>(s: seq<T>, n: nat, x: T)
    requires n <= |s| && x in s[..n]
    ensures x in s && FirstIndex(s, x) == FirstIndex(s[..n], x)
  {
    var k := FirstIndex(s[..n], x);
    var j := FirstIndex(s, x);
    assert s[..n][..k] == s[..k];
  }

  /** `Dedup` keeps first occurrences in the order they occur. */
  lemma {:induction false} DedupOrder(s: seq<string>)
    ensures forall i, j :: 0 <= i < j < |Dedup(s)| ==> FirstIndex(s, Dedup(s)[i]) < FirstIndex(s, Dedup(s)[j])
    decreases |s|
  {
    if |s| > 0 {
      var n := |s| - 1;
      var prefix := s[..n];
      DedupOrder(prefix);
      var p := Dedup(prefix);
      assert forall x :: x in prefix ==> x in s;
      forall i | 0 <= i < |p| ensures FirstIndex(s, p[i]) == FirstIndex(prefix, p[i]) {
        FirstIndexPrefix(s, n, p[i]);
      }
      if s[n] !in prefix {
        assert FirstIndex(s, s[n]) == n;
      }
    }
  }

  lemma DedupFirst(s: seq<string>)
    requires |s| > 0
    ensures |Dedup(s)| > 0 && Dedup(s)[0] == s[0]
  {
    var r := Dedup(s);
    DedupOrder(s);
    assert s[0] in r;
    var k :| 0 <= k < |r| && r[k] == s[0];
    assert FirstIndex(s, s[0]) == 0;
  }

  /**
   * `current_branch`: the output of `git branch --show-current`, or
   * `'Unknown'` when it exits non-zero (a timeout never reaches this point).
   */
  function CurrentBranch(g: Git): string
  {
    if g.currentBranch.Reply? && g.currentBranch.value.Some? then g.currentBranch.value.value else Unknown
  }

  /** `unique_branches`, with `extra_branches=None` read as the empty list. */
  function UniqueBranches(g: Git, extraBranches: Option<seq<string>>): seq<string>
  {
    var extra := if extraBranches.None? then [] else extraBranches.value;
    Dedup([CurrentBranch(g)] + extra)
  }

  /**
   * The branch list starts with the current branch and holds every requested
   * name exactly once, in the order of first occurrence.
   */
  lemma UniqueBranchesProperties(g: Git, extraBranches: Option<seq<string>>)
    ensures var bs := UniqueBranches(g, extraBranches);
      var all := [CurrentBranch(g)] + (if extraBranches.None? then [] else extraBranches.value);
      && |bs| > 0 && bs[0] == CurrentBranch(g)
      && NoDuplicates(bs)
      && (forall b :: b in bs <==> b in all)
      && (forall i, j :: 0 <= i < j < |bs| ==> FirstIndex(all, bs[i]) < FirstIndex(all, bs[j]))
  {
    var all := [CurrentBranch(g)] + (if extraBranches.None? then [] else extraBranches.value);
    DedupFirst(all);
    DedupOrder(all);
  }

  // ---------------------------------------------------------------------
  // The record loop
  // ---------------------------------------------------------------------

  /** One pass of the loop body (git_overview.py:192-201): the record it appends, if any. */
  function BranchStep(g: Git, repo: Option<Path>, branch: string): Query<Option<Record>>
  {
    match g.localExists(branch)
    case Raised => Raised
    case Reply(found) =>
      if !found then Reply(None)
      else match g.remoteSha(branch)
        case Raised => Raised
        case Reply(remoteSha) =>
          match g.localSha(branch)
          case Raised => Raised
          case Reply(localSha) =>
            match g.differences(remoteSha, localSha)
            case Raised => Raised
            case Reply(diffs) =>
              if diffs.None? then Reply(None)
              else Reply(Some(Record(repo, branch, diffs.value.0, diffs.value.1)))
  }

  /** The loop over `branches`: the records it collects, or `Raised` when some query raised. */
  function RecordLoop(g: Git, repo: Option<Path>, branches: seq<string>): Query<seq<Record>>
    decreases |branches|
  {
    if |branches| == 0 then Reply([])
    else LoopStep(RecordLoop(g, repo, branches[..|branches| - 1]), BranchStep(g, repo, branches[|branches| - 1]))
  }

  /** One more iteration: a raise ends the loop, a record is appended, `None` is skipped. */
  function LoopStep(sofar: Query<seq<Record>>, step: Query<Option<Record>>): Query<seq<Record>>
  {
    match sofar
    case Raised => Raised
    case Reply(rs) =>
      match step
      case Raised => Raised
      case Reply(r) => if r.None? then Reply(rs) else Reply(rs + [r.value])
  }

  lemma RecordLoopPrefix(g: Git, repo: Option<Path>, branches: seq<string>, i: nat)
    requires i < |branches|
    ensures RecordLoop(g, repo, branches[..i + 1])
         == LoopStep(RecordLoop(g, repo, branches[..i]), BranchStep(g, repo, branches[i]))
  {
    assert branches[..i + 1][..i] == branches[..i];
  }

  /**
   * Whether one of the two queries made before the `try` of the branch loop
   * (git_overview.py:175-181) times out; the exception leaves `get_git_info`.
   */
  predicate EarlyRaise(g: Git)
  {
    g.currentBranch.Raised? || g.status.Raised?
  }

  /**
   * The outcome of `get_git_info`: `Raised` when it raises, otherwise the
   * list it returns.
   */
  function GitInfo(g: Git, repo: Option<Path>, extraBranches: Option<seq<string>>): Query<seq<Record>>
  {
    if EarlyRaise(g) then Raised
    else match RecordLoop(g, repo, UniqueBranches(g, extraBranches))
      case Raised => Reply([])
      case Reply(rs) => Reply(rs)
  }

  /**
   * The body of the branch loop (git_overview.py:192-201): the four git
   * queries for `branch`, `Raised` as soon as one of them raises.
   */
  method QueryBranch(g: Git, repo: Option<Path>, branch: string) returns (step: Query<Option<Record>>)
    ensures step == BranchStep(g, repo, branch)
  {
    var branchExists := g.localExists(branch);
    if branchExists.Raised? {
      return Raised;
    }
    step := Reply(None);
    if branchExists.value {
      var remoteSha := g.remoteSha(branch);
      if remoteSha.Raised? {
        return Raised;
      }
      var localSha := g.localSha(branch);
      if localSha.Raised? {
        return Raised;
      }
      var diffs := g.differences(remoteSha.value, localSha.value);
      if diffs.Raised? {
        return Raised;
      }
      if diffs.value.Some? {
        var (ahead, behind) := diffs.value.value;
        step := Reply(Some(Record(repo, branch, ahead, behind)));
      }
    }
  }

  /** `get_git_info(repo_path, extra_branches)`, asking `g` instead of running git. */
  method GetGitInfo(repo: Option<Path>, extraBranches: Option<seq<string>>, g: Git) returns (outcome: Query<seq<Record>>)
    ensures outcome == GitInfo(g, repo, extraBranches)
  {
    // The commits `git fetch` downloads are part of what `g.differences` answers; its timeout is caught.
    if g.currentBranch.Raised? {
      return Raised;
    }
    var currentBranch := if g.currentBranch.value.Some? then g.currentBranch.value.value else Unknown;
    if g.status.Raised? {
      return Raised;
    }
    var extra := if extraBranches.None? then [] else extraBranches.value;
    var uniqueBranches := Dedup([currentBranch] + extra);
    var results := [];
    for i := 0 to |uniqueBranches|
      invariant RecordLoop(g, repo, uniqueBranches[..i]) == Reply(results)
    {
      var step := QueryBranch(g, repo, uniqueBranches[i]);
      RecordLoopPrefix(g, repo, uniqueBranches, i);
      if step.Raised? {
        RaisedPersists(g, repo, uniqueBranches, i + 1);
        return Reply([]);
      }
      if step.value.Some? {
        results := results + [step.value.value];
      }
    }
    assert uniqueBranches[..|uniqueBranches|] == uniqueBranches;
    return Reply(results);
  }

  /** Once a query has raised, the loop's outcome is `Raised` whatever follows. */
  lemma {:induction false} RaisedPersists(g: Git, repo: Option<Path>, branches: seq<string>, n: nat)
    requires n <= |branches| && RecordLoop(g, repo, branches[..n]).Raised?
    ensures RecordLoop(g, repo, branches).Raised?
    decreases |branches| - n
  {
    if n < |branches| {
      assert branches[..n + 1][..n] == branches[..n];
      RaisedPersists(g, repo, branches, n + 1);
    } else {
      assert branches[..n] == branches;
    }
  }

  // ---------------------------------------------------------------------
  // What the loop emits
  // ---------------------------------------------------------------------

  /** Some query made for `branch` raises (the later ones are then never made). */
  predicate RaisesAt(g: Git, branch: string)
  {
    g.localExists(branch).Raised?
    || (g.localExists(branch) == Reply(true)
        && (g.remoteSha(branch).Raised?
            || (g.remoteSha(branch).Reply? && g.localSha(branch).Raised?)
            || (g.remoteSha(branch).Reply? && g.localSha(branch).Reply?
                && g.differences(g.remoteSha(branch).value, g.localSha(branch).value).Raised?)))
  }

  /**
   * `branch` exists locally and the ahead/behind query answers a pair. The two
   * lookups before it only have to answer: when they answer `False`, that value
   * is passed on to the ahead/behind query all the same.
   */
  predicate Emits(g: Git, branch: string)
  {
    && g.localExists(branch) == Reply(true)
    && g.remoteSha(branch).Reply? && g.localSha(branch).Reply?
    && var d := g.differences(g.remoteSha(branch).value, g.localSha(branch).value);
       d.Reply? && d.value.Some?
  }

  /** The ahead and behind counts answered for an emitting branch. */
  function Counts(g: Git, branch: string): (nat, nat)
    requires Emits(g, branch)
  {
    g.differences(g.remoteSha(branch).value, g.localSha(branch).value).value.value
  }

  /** The branches of `branches` that emit, in order. */
  function Emitting(g: Git, branches: seq<string>): (r: seq<string>)
    ensures forall b :: b in r <==> b in branches && Emits(g, b)
    decreases |branches|
  {
    if |branches| == 0 then []
    else
      var last := branches[|branches| - 1];
      Emitting(g, branches[..|branches| - 1]) + (if Emits(g, last) then [last] else [])
  }

  function BranchNames(rs: seq<Record>): (r: seq<string>)
    ensures |r| == |rs| && forall k :: 0 <= k < |rs| ==> r[k] == rs[k].branch
  {
    seq(|rs|, k requires 0 <= k < |rs| => rs[k].branch)
  }

  /** A record carries the repository, its branch and the counts answered for that branch. */
  predicate RecordFor(g: Git, repo: Option<Path>, r: Record)
  {
    Emits(g, r.branch) && r.repo == repo && (r.ahead, r.behind) == Counts(g, r.branch)
  }

  lemma StepMeaning(g: Git, repo: Option<Path>, branch: string)
    ensures BranchStep(g, repo, branch).Raised? <==> RaisesAt(g, branch)
    ensures BranchStep(g, repo, branch).Reply? && BranchStep(g, repo, branch).value.Some? <==>
      !RaisesAt(g, branch) && Emits(g, branch)
    ensures !RaisesAt(g, branch) && Emits(g, branch) ==>
      BranchStep(g, repo, branch) == Reply(Some(Record(repo, branch, Counts(g, branch).0, Counts(g, branch).1)))
  {
  }

  /**
   * The loop raises exactly when a query raises for some branch; otherwise it
   * emits one record per emitting branch, in branch order.
   */
  lemma {:induction false} LoopMeaning(g: Git, repo: Option<Path>, branches: seq<string>)
    ensures RecordLoop(g, repo, branches).Raised? <==> exists i :: 0 <= i < |branches| && RaisesAt(g, branches[i])
    ensures RecordLoop(g, repo, branches).Reply? ==>
      var rs := RecordLoop(g, repo, branches).value;
      BranchNames(rs) == Emitting(g, branches) && forall k :: 0 <= k < |rs| ==> RecordFor(g, repo, rs[k])
    decreases |branches|
  {
    if |branches| > 0 {
      var n := |branches| - 1;
      var prefix := branches[..n];
      LoopMeaning(g, repo, prefix);
      StepMeaning(g, repo, branches[n]);
      assert forall i :: 0 <= i < n ==> branches[i] == prefix[i];
      if RecordLoop(g, repo, prefix).Reply? && !RaisesAt(g, branches[n]) {
        var rs := RecordLoop(g, repo, prefix).value;
        if Emits(g, branches[n]) {
          assert BranchNames(rs + [BranchStep(g, repo, branches[n]).value.value]) == BranchNames(rs) + [branches[n]];
        }
      }
    }
  }

  /**
   * What `get_git_info` does: it raises exactly when the current-branch or
   * the status query times out; otherwise it returns nothing when any query
   * for any branch raises, and else one record per branch of the list that
   * exists locally and has answered counts, in list order, each with that
   * repository and those counts.
   */
  lemma GitInfoMeaning(g: Git, repo: Option<Path>, extraBranches: Option<seq<string>>)
    ensures GitInfo(g, repo, extraBranches).Raised? <==> g.currentBranch.Raised? || g.status.Raised?
    ensures var bs := UniqueBranches(g, extraBranches);
      !EarlyRaise(g) && (exists i :: 0 <= i < |bs| && RaisesAt(g, bs[i])) ==> GitInfo(g, repo, extraBranches) == Reply([])
    ensures var bs := UniqueBranches(g, extraBranches);
      var outcome := GitInfo(g, repo, extraBranches);
      !EarlyRaise(g) && (forall i :: 0 <= i < |bs| ==> !RaisesAt(g, bs[i])) ==>
        outcome.Reply? &&
        BranchNames(outcome.value) == Emitting(g, bs) &&
        forall k :: 0 <= k < |outcome.value| ==> RecordFor(g, repo, outcome.value[k])
  {
    LoopMeaning(g, repo, UniqueBranches(g, extraBranches));
  }

  /** Each record's branch occurs once in the result: the branch list has no repeats. */
  lemma {:induction false} EmittingNoDuplicates(g: Git, branches: seq<string>)
    requires NoDuplicates(branches)
    ensures NoDuplicates(Emitting(g, branches))
    decreases |branches|
  {
    if |branches| > 0 {
      var n := |branches| - 1;
      assert NoDuplicates(branches[..n]);
      EmittingNoDuplicates(g, branches[..n]);
      assert branches[n] !in branches[..n];
    }
  }
}
