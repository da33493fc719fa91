/**
 * The command-line helpers: `parse_list` (git_overview.py:315-316), the
 * assembly of the extra branch names in `main` (git_overview.py:352-357) and
 * the exclusions handed to `find_git_repos` (git_overview.py:360).
 */
module CommandLine {

  import opened Wrappers
  import opened Text
  import opened Locator

  /**
   * `parse_list(val)` as written: iterating over a string visits its
   * characters, so every character becomes an item of its own and a white
   * space character becomes the empty item.
   */
  function ParseList(val: string): (items: seq<string>)
    ensures |items| == |val|
    ensures forall i :: 0 <= i < |val| ==> items[i] == (if IsSpace(val[i]) then "" else [val[i]])
  {
    seq(|val|, i requires 0 <= i < |val| => StripChar(val[i]))
  }

  /** One item of `parse_list`: a character, or nothing when it is white space. */
  function StripChar(c: char): string
  {
    if IsSpace(c) then "" else [c]
  }

  /** `StripChar(c)` is what `s.rstrip().strip()` gives for the one-character string `s == [c]`. */
  lemma StripCharIsStrip(c: char)
    ensures StripChar(c) == Strip(RStrip([c]))
  {
  }

  /** The evidently intended `parse_list`: the comma-separated items, each stripped. */
  function ParseCommaList(val: string): (items: seq<string>)
    ensures |items| >= 1
    ensures forall i :: 0 <= i < |items| ==> ',' !in items[i]
  {
    var parts := Split(val, ',');
    seq(|parts|, i requires 0 <= i < |parts| => Strip(parts[i]))
  }

  /** A name with no comma and no white space at either end. */
  predicate IsListItem(s: string)
  {
    ',' !in s && (|s| == 0 || (!IsSpace(s[0]) && !IsSpace(s[|s| - 1])))
  }

  /** Joining items with commas and parsing the result gives the items back. */
  lemma {:induction false} ParseCommaListJoin(items: seq<string>)
    requires |items| >= 1
    requires forall i :: 0 <= i < |items| ==> IsListItem(items[i])
    ensures ParseCommaList(Join(items, ',')) == items
  {
    SplitJoin(items, ',');
    forall i | 0 <= i < |items|
      ensures Strip(items[i]) == items[i]
    {
      StripTrimmed(items[i]);
    }
  }

  /** The branches `--main` adds. */
  const MainBranches: seq<string> := ["main", "master"]

  /**
   * The extra branch names as written: `args.branch` holds the list
   * `parse_list` returned, and a list has no `split`, so any non-empty
   * `--branch` value ends the program (`None`).
   */
  function ExtraBranchesAsWritten(mainFlag: bool, branchArg: Option<string>): (r: Option<set<string>>)
    ensures r.None? <==> branchArg.Some? && |branchArg.value| > 0
    ensures r.Some? ==> r.value == (if mainFlag then {"main", "master"} else {})
  {
    var parsed := if branchArg.None? then [] else ParseList(branchArg.value);
    var extra := if mainFlag then MainBranches else [];
    if |parsed| > 0 then None
    else Some(set b | b in extra)
  }

  /**
   * The extra branch names as evidently intended: `main` and `master` for
   * `--main`, plus each comma-separated item of `--branch`; duplicates
   * collapse because the program turns the list into a set.
   */
  function ExtraBranches(mainFlag: bool, branchArg: Option<string>): set<string>
  {
    var extra := (if mainFlag then MainBranches else [])
      + (if branchArg.Some? then ParseCommaList(branchArg.value) else []);
    set b | b in extra
  }

  lemma ExtraBranchesMeaning(mainFlag: bool, branchArg: Option<string>, b: string)
    ensures b in ExtraBranches(mainFlag, branchArg) <==>
      (mainFlag && (b == "main" || b == "master"))
      || (branchArg.Some? && b in ParseCommaList(branchArg.value))
  {
  }

  /**
   * `find_git_repos(Path(args.directory), args.exclude)` as written:
   * `args.exclude` holds the list `parse_list` returned, a string has no
   * `resolve`, and the exclusion set is built outside the `try`, so a
   * non-empty `--exclude` value ends the program (`None`) whenever the start
   * path is a directory; otherwise nothing is excluded. `root` is the start
   * directory, `None` when it is missing or not a directory.
   */
  function FindReposAsWritten(o: FsOracle, root: Option<Dir>, start: Path, excludeArg: Option<string>)
    : (r: Option<set<Option<Path>>>)
    ensures r.None? <==> root.Some? && excludeArg.Some? && |excludeArg.value| > 0
    ensures r.Some? ==> r.value == RepoSet(o, root, start, [])
  {
    var parsed := if excludeArg.None? then [] else ParseList(excludeArg.value);
    if root.Some? && |parsed| > 0 then None else Some(RepoSet(o, root, start, []))
  }

  /**
   * The directories `--exclude` evidently names: one path per
   * comma-separated item, `toPath` standing for `Path(item)`.
   */
  function ExcludePaths(toPath: string -> Path, excludeArg: Option<string>): (r: seq<Path>)
    ensures excludeArg.None? ==> r == []
    ensures excludeArg.Some? ==> |r| == |ParseCommaList(excludeArg.value)|
    ensures excludeArg.Some? ==> forall i :: 0 <= i < |r| ==> r[i] == toPath(ParseCommaList(excludeArg.value)[i])
  {
    if excludeArg.None? then []
    else
      var items := ParseCommaList(excludeArg.value);
      seq(|items|, i requires 0 <= i < |items| => toPath(items[i]))
  }

  /** The repositories found as evidently intended, with the named directories excluded. */
  function FindRepos(o: FsOracle, toPath: string -> Path, root: Option<Dir>, start: Path, excludeArg: Option<string>)
    : set<Option<Path>>
  {
    RepoSet(o, root, start, ExcludePaths(toPath, excludeArg))
  }

  /**
   * Every directory named in `--exclude` is honoured: a visited directory
   * that resolves to one of them adds no repository, is not descended into,
   * and no directory below it is visited.
   */
  lemma FindReposHonoursExclude(o: FsOracle, toPath: string -> Path, root: Dir, start: Path, excludeArg: string,
                                item: string, v: Visit, w: Visit)
    requires WellFormed(root)
    requires item in ParseCommaList(excludeArg)
    requires v in Trace(o, ExcludeSet(o, ExcludePaths(toPath, Some(excludeArg))), start, [], root)
    requires w in Trace(o, ExcludeSet(o, ExcludePaths(toPath, Some(excludeArg))), start, [], root)
    requires o.resolve(start + v.rel) == o.resolve(toPath(item))
    ensures v.added.None? && v.descend == []
    ensures !Below(w.rel, v.rel)
  {
    var exclude := ExcludePaths(toPath, Some(excludeArg));
    var items := ParseCommaList(excludeArg);
    var k :| 0 <= k < |items| && items[k] == item;
    assert exclude[k] == toPath(item);
    assert o.resolve(start + v.rel) in ExcludeSet(o, exclude);
    ExcludedAddsNothing(o, root, start, exclude, v);
    PrunedSubtreeSkipped(o, root, start, exclude, v, w);
  }
}
