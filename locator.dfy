/**
 * The repository locator: `find_top_git_repo` and `find_git_repos`
 * (git_overview.py:32-90).
 *
 * The directory tree under the start path is a finite value: every
 * directory lists its subdirectories, in the order `os.walk` reports them,
 * each under its name. `Path.resolve()` and the `git rev-parse
 * --show-toplevel` query are functions the model is given, not ones it
 * computes.
 */
module Locator {

  import opened Wrappers

  /** A path as the sequence of its components. */
  type Path = seq<string>

  datatype Dir = Dir(subdirs: seq<Entry>)
  datatype Entry = Entry(name: string, dir: Dir)

  /**
   * What the walk asks of the outside world: `resolve` stands for
   * `Path.resolve()`, `topLevel` for `find_top_git_repo`, which answers
   * `None` when git fails in that directory.
   */
  datatype FsOracle = FsOracle(resolve: Path -> Path, topLevel: Path -> Option<Path>)

  const GitDir: string := ".git"

  /** One directory yielded by `os.walk`, and what the loop body did with it. */
  datatype Visit = Visit(
    rel: seq<string>,               // the directory, relative to the start path
    dirs: seq<string>,              // its subdirectory names as `os.walk` lists them
    added: Option<Option<Path>>,    // the value added to `git_repos`, if any
    descend: seq<string>)           // `dirs` as the body leaves it: where the walk goes next

  function Names(es: seq<Entry>): (r: seq<string>)
    ensures |r| == |es|
    ensures forall i :: 0 <= i < |es| ==> r[i] == es[i].name
  {
    seq(|es|, i requires 0 <= i < |es| => es[i].name)
  }

  predicate IsDotName(name: string) { |name| > 0 && name[0] == '.' }

  /** `any(part.startswith('.') for part in rel_path.parts)`. */
  predicate HasDotPart(rel: seq<string>)
  {
    exists i :: 0 <= i < |rel| && IsDotName(rel[i])
  }

  /** `[d for d in dirs if not d.startswith('.')]`. */
  function NonDot(dirs: seq<string>): (r: seq<string>)
    ensures forall d :: d in r <==> d in dirs && !IsDotName(d)
    decreases |dirs|
  {
    if |dirs| == 0 then []
    else if IsDotName(dirs[0]) then NonDot(dirs[1..])
    else [dirs[0]] + NonDot(dirs[1..])
  }

  /**
   * The filter keeps order and repeats: filtering a concatenation filters
   * each part, so a name listed once survives once, in its place.
   */
  lemma {:induction false} NonDotAppend(a: seq<string>, b: seq<string>)
    ensures NonDot(a + b) == NonDot(a) + NonDot(b)
    decreases |a|
  {
    if |a| == 0 {
      assert a + b == b;
    } else {
      assert (a + b)[0] == a[0] && (a + b)[1..] == a[1..] + b;
      NonDotAppend(a[1..], b);
    }
  }

  /** `{p.resolve() for p in exclude}`. */
  function ExcludeSet(o: FsOracle, exclude: seq<Path>): (r: set<Path>)
    ensures forall p :: p in exclude ==> o.resolve(p) in r
    ensures forall q :: q in r ==> exists p :: p in exclude && q == o.resolve(p)
  {
    set p | p in exclude :: o.resolve(p)
  }

  /**
   * The body of the `os.walk` loop (git_overview.py:65-85) for the directory
   * `start + rel` whose subdirectory names are `dirs`.
   */
  function Examine(o: FsOracle, excluded: set<Path>, start: Path, rel: seq<string>, dirs: seq<string>): (v: Visit)
    ensures v.rel == rel && v.dirs == dirs
    ensures v.added.Some? <==> o.resolve(start + rel) !in excluded && !HasDotPart(rel) && GitDir in dirs
    ensures v.added.Some? ==> v.added.value == o.topLevel(start + rel)
    ensures forall d :: d in v.descend <==>
      d in dirs && !IsDotName(d) && o.resolve(start + rel) !in excluded && !HasDotPart(rel) && GitDir !in dirs
  {
    var current := start + rel;
    if o.resolve(current) in excluded then Visit(rel, dirs, None, [])
    else if HasDotPart(rel) then Visit(rel, dirs, None, [])
    else if GitDir in dirs then Visit(rel, dirs, Some(o.topLevel(current)), NonDot([]))
    else Visit(rel, dirs, None, NonDot(dirs))
  }

  /** The directories `os.walk(start)` yields under `start + rel`, in order, top-down. */
  function Trace(o: FsOracle, excluded: set<Path>, start: Path, rel: seq<string>, d: Dir): seq<Visit>
    decreases d, |d.subdirs| + 1
  {
    var v := Examine(o, excluded, start, rel, Names(d.subdirs));
    [v] + TraceKids(o, excluded, start, rel, d, v.descend, |d.subdirs|)
  }

  /** The walks below the first `n` subdirectories of `d` whose names survived in `descend`. */
  function TraceKids(o: FsOracle, excluded: set<Path>, start: Path, rel: seq<string>, d: Dir,
                     descend: seq<string>, n: nat): seq<Visit>
    requires n <= |d.subdirs|
    decreases d, n
  {
    if n == 0 then []
    else
      var e := d.subdirs[n - 1];
      TraceKids(o, excluded, start, rel, d, descend, n - 1)
        + (if e.name in descend then Trace(o, excluded, start, rel + [e.name], e.dir) else [])
  }

  /** Everything the loop adds to `git_repos` along a trace. */
  function Collected(t: seq<Visit>): set<Option<Path>>
  {
    set v | v in t && v.added.Some? :: v.added.value
  }

  /**
   * The set `find_git_repos` returns: `root` is the directory at
   * `start` when it exists and is a directory, `None` otherwise.
   */
  function RepoSet(o: FsOracle, root: Option<Dir>, start: Path, exclude: seq<Path>): set<Option<Path>>
  {
    if root.None? then {} else Collected(Trace(o, ExcludeSet(o, exclude), start, [], root.value))
  }

  lemma CollectedAppend(s: seq<Visit>, t: seq<Visit>)
    ensures Collected(s + t) == Collected(s) + Collected(t)
  {
  }

  // ---------------------------------------------------------------------
  // The walk itself
  // ---------------------------------------------------------------------

  /** `find_git_repos(start_path, exclude)`. */
  method FindGitRepos(o: FsOracle, root: Option<Dir>, start: Path, exclude: seq<Path>)
    returns (gitRepos: set<Option<Path>>)
    ensures root.None? ==> gitRepos == {}
    ensures gitRepos == RepoSet(o, root, start, exclude)
  {
    gitRepos := {};
    if root.Some? {
      var excludeSet := set p | p in exclude :: o.resolve(p);
      gitRepos := Walk(o, excludeSet, start, [], root.value, gitRepos);
    }
  }

  /** The `os.walk` loop from the directory `start + rel` down, adding to `gitRepos`. */
  method Walk(o: FsOracle, excluded: set<Path>, start: Path, rel: seq<string>, d: Dir, gitRepos: set<Option<Path>>)
    returns (found: set<Option<Path>>)
    ensures found == gitRepos + Collected(Trace(o, excluded, start, rel, d))
    decreases d, 1
  {
    var dirs;
    found, dirs := VisitDirectory(o, excluded, start, rel, Names(d.subdirs), gitRepos);
    found := WalkKids(o, excluded, start, rel, d, dirs, found);
    CollectedAppend([Examine(o, excluded, start, rel, Names(d.subdirs))], TraceKids(o, excluded, start, rel, d, dirs, |d.subdirs|));
  }

  /** The walk goes on into the subdirectories of `start + rel` whose names are left in `dirs`, in order. */
  method WalkKids(o: FsOracle, excluded: set<Path>, start: Path, rel: seq<string>, d: Dir, dirs: seq<string>,
                  gitRepos: set<Option<Path>>)
    returns (found: set<Option<Path>>)
    ensures found == gitRepos + Collected(TraceKids(o, excluded, start, rel, d, dirs, |d.subdirs|))
    decreases d, 0
  {
    found := gitRepos;
    for i := 0 to |d.subdirs|
      invariant found == gitRepos + Collected(TraceKids(o, excluded, start, rel, d, dirs, i))
    {
      var e := d.subdirs[i];
      KidsStep(o, excluded, start, rel, d, dirs, i);
      if e.name in dirs {
        found := Walk(o, excluded, start, rel + [e.name], e.dir, found);
      }
    }
  }

  /**
   * One pass of the loop body for the directory `start + rel` whose
   * subdirectory names are `names`: the repository it adds and the names
   * left in `dirs` for the walk to descend into.
   */
  method VisitDirectory(o: FsOracle, excluded: set<Path>, start: Path, rel: seq<string>, names: seq<string>,
                        gitRepos: set<Option<Path>>)
    returns (found: set<Option<Path>>, dirs: seq<string>)
    ensures dirs == Examine(o, excluded, start, rel, names).descend
    ensures found == gitRepos + Collected([Examine(o, excluded, start, rel, names)])
  {
    found := gitRepos;
    var currentPath := start + rel;
    dirs := names;
    if o.resolve(currentPath) !in excluded {
      if !HasDotPart(rel) {
        if GitDir in dirs {
          found := found + {o.topLevel(currentPath)};
          dirs := [];                 // prune traversal
        }
        dirs := NonDot(dirs);         // remove dot directories from further traversal
      } else {
        dirs := [];                   // prune dot directories
      }
    } else {
      dirs := [];                     // prune excluded paths
    }
  }

  /** What one more subdirectory adds to the directories visited so far. */
  lemma KidsStep(o: FsOracle, excluded: set<Path>, start: Path, rel: seq<string>, d: Dir, dirs: seq<string>, i: nat)
    requires i < |d.subdirs|
    ensures Collected(TraceKids(o, excluded, start, rel, d, dirs, i + 1))
         == Collected(TraceKids(o, excluded, start, rel, d, dirs, i))
            + (if d.subdirs[i].name in dirs then Collected(Trace(o, excluded, start, rel + [d.subdirs[i].name], d.subdirs[i].dir)) else {})
  {
    var e := d.subdirs[i];
    var tail := if e.name in dirs then Trace(o, excluded, start, rel + [e.name], e.dir) else [];
    CollectedAppend(TraceKids(o, excluded, start, rel, d, dirs, i), tail);
  }

  // ---------------------------------------------------------------------
  // Properties of the walk
  // ---------------------------------------------------------------------

  /** `rel` is a proper prefix of `sub`: `sub` lies strictly below `rel`. */
  predicate Below(sub: seq<string>, rel: seq<string>)
  {
    |sub| > |rel| && sub[..|rel|] == rel
  }

  /** Directory names are unique within each directory, as on a file system. */
  predicate WellFormed(d: Dir)
    decreases d
  {
    (forall i, j :: 0 <= i < j < |d.subdirs| ==> d.subdirs[i].name != d.subdirs[j].name)
    && forall i :: 0 <= i < |d.subdirs| ==> WellFormed(d.subdirs[i].dir)
  }

  lemma {:induction false} KidsEmpty(o: FsOracle, excluded: set<Path>, start: Path, rel: seq<string>, d: Dir, n: nat)
    requires n <= |d.subdirs|
    ensures TraceKids(o, excluded, start, rel, d, [], n) == []
    decreases n
  {
    if n > 0 { KidsEmpty(o, excluded, start, rel, d, n - 1); }
  }

  /** Every visit below the first `n` subdirectories comes from the walk of one of them. */
  lemma {:induction false} KidsMember(o: FsOracle, excluded: set<Path>, start: Path, rel: seq<string>, d: Dir,
                                      descend: seq<string>, n: nat, w: Visit)
    requires n <= |d.subdirs|
    requires w in TraceKids(o, excluded, start, rel, d, descend, n)
    ensures exists c :: (0 <= c < n && d.subdirs[c].name in descend &&
                         w in Trace(o, excluded, start, rel + [d.subdirs[c].name], d.subdirs[c].dir))
    decreases n
  {
    var e := d.subdirs[n - 1];
    if w !in (if e.name in descend then Trace(o, excluded, start, rel + [e.name], e.dir) else []) {
      KidsMember(o, excluded, start, rel, d, descend, n - 1, w);
    }
  }

  /** An excluded directory contributes nothing and the walk visits none of its subdirectories. */
  lemma ExcludedIsLeaf(o: FsOracle, excluded: set<Path>, start: Path, rel: seq<string>, d: Dir)
    requires o.resolve(start + rel) in excluded
    ensures Trace(o, excluded, start, rel, d) == [Visit(rel, Names(d.subdirs), None, [])]
  {
    KidsEmpty(o, excluded, start, rel, d, |d.subdirs|);
  }

  /**
   * A directory with a `.git` subdirectory (not excluded, not below a dot
   * directory) adds the top-level lookup's answer, `None` included, and the walk
   * visits none of its subdirectories.
   */
  lemma RepositoryIsLeaf(o: FsOracle, excluded: set<Path>, start: Path, rel: seq<string>, d: Dir)
    requires o.resolve(start + rel) !in excluded && !HasDotPart(rel)
    requires GitDir in Names(d.subdirs)
    ensures Trace(o, excluded, start, rel, d) == [Visit(rel, Names(d.subdirs), Some(o.topLevel(start + rel)), [])]
  {
    KidsEmpty(o, excluded, start, rel, d, |d.subdirs|);
  }

  /** `sub` is `rel` or lies below it. */
  predicate AtOrBelow(sub: seq<string>, rel: seq<string>)
  {
    |sub| >= |rel| && sub[..|rel|] == rel
  }

  /** The walk from `rel` starts at `rel` and visits only `rel` and directories below it. */
  lemma {:induction false} TraceShape(o: FsOracle, excluded: set<Path>, start: Path, rel: seq<string>, d: Dir)
    ensures var t := Trace(o, excluded, start, rel, d);
      t[0] == Examine(o, excluded, start, rel, Names(d.subdirs))
      && t[1..] == TraceKids(o, excluded, start, rel, d, t[0].descend, |d.subdirs|)
      && forall w :: w in t ==> AtOrBelow(w.rel, rel)
    decreases d, |d.subdirs| + 1
  {
    var v := Examine(o, excluded, start, rel, Names(d.subdirs));
    KidsBelow(o, excluded, start, rel, d, v.descend, |d.subdirs|);
  }

  /** Every visit below the first `n` subdirectories lies strictly below `rel`. */
  lemma {:induction false} KidsBelow(o: FsOracle, excluded: set<Path>, start: Path, rel: seq<string>, d: Dir,
                                     descend: seq<string>, n: nat)
    requires n <= |d.subdirs|
    ensures forall w :: w in TraceKids(o, excluded, start, rel, d, descend, n) ==> Below(w.rel, rel)
    decreases d, n
  {
    if n > 0 {
      KidsBelow(o, excluded, start, rel, d, descend, n - 1);
      var e := d.subdirs[n - 1];
      if e.name in descend {
        var sub := rel + [e.name];
        TraceShape(o, excluded, start, sub, e.dir);
        forall w | w in Trace(o, excluded, start, sub, e.dir) ensures Below(w.rel, rel) {
          assert w.rel[..|sub|] == sub;
          assert w.rel[..|rel|] == w.rel[..|sub|][..|rel|];
        }
      }
    }
  }

  /** Every visit is what the loop body makes of that directory. */
  lemma {:induction false} VisitsExamined(o: FsOracle, excluded: set<Path>, start: Path, rel: seq<string>, d: Dir)
    ensures forall w :: w in Trace(o, excluded, start, rel, d) ==> w == Examine(o, excluded, start, w.rel, w.dirs)
    decreases d, |d.subdirs| + 1
  {
    var v := Examine(o, excluded, start, rel, Names(d.subdirs));
    forall w | w in Trace(o, excluded, start, rel, d) ensures w == Examine(o, excluded, start, w.rel, w.dirs) {
      if w != v {
        KidsMember(o, excluded, start, rel, d, v.descend, |d.subdirs|, w);
        var c :| 0 <= c < |d.subdirs| && d.subdirs[c].name in v.descend
          && w in Trace(o, excluded, start, rel + [d.subdirs[c].name], d.subdirs[c].dir);
        VisitsExamined(o, excluded, start, rel + [d.subdirs[c].name], d.subdirs[c].dir);
      }
    }
  }

  /** No directory below a dot directory is visited: the walk removes dot names before descending. */
  lemma {:induction false} NoDotVisited(o: FsOracle, excluded: set<Path>, start: Path, rel: seq<string>, d: Dir)
    requires !HasDotPart(rel)
    ensures forall w :: w in Trace(o, excluded, start, rel, d) ==> !HasDotPart(w.rel)
    decreases d, |d.subdirs| + 1
  {
    var v := Examine(o, excluded, start, rel, Names(d.subdirs));
    forall w | w in Trace(o, excluded, start, rel, d) ensures !HasDotPart(w.rel) {
      if w != v {
        KidsMember(o, excluded, start, rel, d, v.descend, |d.subdirs|, w);
        var c :| 0 <= c < |d.subdirs| && d.subdirs[c].name in v.descend
          && w in Trace(o, excluded, start, rel + [d.subdirs[c].name], d.subdirs[c].dir);
        var e := d.subdirs[c];
        NoDotExtend(rel, e.name);
        NoDotVisited(o, excluded, start, rel + [e.name], e.dir);
      }
    }
  }

  lemma NoDotExtend(rel: seq<string>, name: string)
    requires !HasDotPart(rel) && !IsDotName(name)
    ensures !HasDotPart(rel + [name])
  {
    forall i | 0 <= i < |rel + [name]| ensures !IsDotName((rel + [name])[i]) {
      if i < |rel| { assert (rel + [name])[i] == rel[i]; }
    }
  }

  /**
   * The start directory is always examined, whatever its own name, and no
   * visited directory has a dot component relative to it: the test at
   * git_overview.py:69 never prunes anything.
   */
  lemma StartVisitedNoDotBelow(o: FsOracle, excluded: set<Path>, start: Path, root: Dir)
    ensures var t := Trace(o, excluded, start, [], root);
      t[0] == Examine(o, excluded, start, [], Names(root.subdirs))
      && forall w :: w in t ==> !HasDotPart(w.rel)
  {
    NoDotVisited(o, excluded, start, [], root);
  }

  /**
   * In a well-formed tree, once the body leaves `dirs` empty (an excluded
   * directory, a repository, a directory without visible subdirectories) the
   * walk visits nothing below it.
   */
  lemma {:induction false} NothingBelowPruned(o: FsOracle, excluded: set<Path>, start: Path, rel: seq<string>, d: Dir,
                                              v: Visit, w: Visit)
    requires WellFormed(d)
    requires v in Trace(o, excluded, start, rel, d) && w in Trace(o, excluded, start, rel, d)
    requires v.descend == []
    ensures !Below(w.rel, v.rel)
    decreases d, |d.subdirs| + 1
  {
    var v0 := Examine(o, excluded, start, rel, Names(d.subdirs));
    var kids := TraceKids(o, excluded, start, rel, d, v0.descend, |d.subdirs|);
    TraceShape(o, excluded, start, rel, d);
    KidsBelow(o, excluded, start, rel, d, v0.descend, |d.subdirs|);
    assert Trace(o, excluded, start, rel, d) == [v0] + kids;
    if v == v0 {
      KidsEmpty(o, excluded, start, rel, d, |d.subdirs|);
    } else if w == v0 {
      assert Below(v.rel, rel);
    } else {
      var a := ChildOf(o, excluded, start, rel, d, v0.descend, v);
      var b := ChildOf(o, excluded, start, rel, d, v0.descend, w);
      if Below(w.rel, v.rel) {
        assert w.rel[|rel|] == v.rel[|rel|];
        assert a == b;
        var e := d.subdirs[a];
        NothingBelowPruned(o, excluded, start, rel + [e.name], e.dir, v, w);
      }
    }
  }

  /** The subdirectory of `d` whose walk produced the visit `w`. */
  lemma ChildOf(o: FsOracle, excluded: set<Path>, start: Path, rel: seq<string>, d: Dir, descend: seq<string>, w: Visit)
    returns (c: nat)
    requires w in TraceKids(o, excluded, start, rel, d, descend, |d.subdirs|)
    ensures c < |d.subdirs| && d.subdirs[c].name in descend
    ensures w in Trace(o, excluded, start, rel + [d.subdirs[c].name], d.subdirs[c].dir)
    ensures |w.rel| > |rel| && w.rel[|rel|] == d.subdirs[c].name
  {
    KidsMember(o, excluded, start, rel, d, descend, |d.subdirs|, w);
    c :| 0 <= c < |d.subdirs| && d.subdirs[c].name in descend
      && w in Trace(o, excluded, start, rel + [d.subdirs[c].name], d.subdirs[c].dir);
    var sub := rel + [d.subdirs[c].name];
    TraceShape(o, excluded, start, sub, d.subdirs[c].dir);
    assert w.rel[..|sub|] == sub;
    assert w.rel[|rel|] == w.rel[..|sub|][|rel|];
  }

  /**
   * What `find_git_repos` returns, in terms of the directories it visits: a
   * value is in the set exactly when some visited directory that is not
   * excluded has a `.git` subdirectory and the top-level lookup answers that
   * value for it. A missing start directory gives the empty set.
   */
  lemma RepoSetMembers(o: FsOracle, root: Option<Dir>, start: Path, exclude: seq<Path>, x: Option<Path>)
    ensures x in RepoSet(o, root, start, exclude) <==>
      root.Some? && exists v :: (v in Trace(o, ExcludeSet(o, exclude), start, [], root.value) &&
                                 GitDir in v.dirs && o.resolve(start + v.rel) !in ExcludeSet(o, exclude) &&
                                 x == o.topLevel(start + v.rel))
  {
    if root.Some? {
      var ex := ExcludeSet(o, exclude);
      var t := Trace(o, ex, start, [], root.value);
      StartVisitedNoDotBelow(o, ex, start, root.value);
      VisitsExamined(o, ex, start, [], root.value);
      if x in RepoSet(o, root, start, exclude) {
        var v :| v in t && v.added.Some? && v.added.value == x;
      }
      if exists v :: v in t && GitDir in v.dirs && o.resolve(start + v.rel) !in ex && x == o.topLevel(start + v.rel) {
        var v :| v in t && GitDir in v.dirs && o.resolve(start + v.rel) !in ex && x == o.topLevel(start + v.rel);
        assert v.added == Some(x);
      }
    }
  }

  /** A visited directory whose resolved path is excluded adds nothing and is not descended into. */
  lemma ExcludedAddsNothing(o: FsOracle, root: Dir, start: Path, exclude: seq<Path>, v: Visit)
    requires v in Trace(o, ExcludeSet(o, exclude), start, [], root)
    requires o.resolve(start + v.rel) in ExcludeSet(o, exclude)
    ensures v.added.None? && v.descend == []
  {
    VisitsExamined(o, ExcludeSet(o, exclude), start, [], root);
  }

  /**
   * In a well-formed tree, the walk visits no directory below one that is
   * excluded or holds a `.git` subdirectory.
   */
  lemma PrunedSubtreeSkipped(o: FsOracle, root: Dir, start: Path, exclude: seq<Path>, v: Visit, w: Visit)
    requires WellFormed(root)
    requires v in Trace(o, ExcludeSet(o, exclude), start, [], root)
    requires w in Trace(o, ExcludeSet(o, exclude), start, [], root)
    requires o.resolve(start + v.rel) in ExcludeSet(o, exclude) || GitDir in v.dirs
    ensures !Below(w.rel, v.rel)
  {
    var ex := ExcludeSet(o, exclude);
    VisitsExamined(o, ex, start, [], root);
    NothingBelowPruned(o, ex, start, [], root, v, w);
  }
}
