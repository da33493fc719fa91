/**
 * The dispatcher in `main` (git_overview.py:362-373): `get_git_info` mapped
 * over the repositories in their iteration order, the lists concatenated, and
 * the result sorted by one key.
 */
module Dispatcher {

  import opened Wrappers
  import opened Locator
  import opened Collector

  /** The `--sort` choices. */
  datatype SortKey = Repo | Ahead | Behind

  // ---------------------------------------------------------------------
  // Flattening: `list(itertools.chain(*repos_status))`
  // ---------------------------------------------------------------------

  function Flatten(lists: seq<seq<Record>>): seq<Record>
    decreases |lists|
  {
    if |lists| == 0 then [] else lists[0] + Flatten(lists[1..])
  }

  lemma {:induction false} FlattenAppend(a: seq<seq<Record>>, b: seq<seq<Record>>)
    ensures Flatten(a + b) == Flatten(a) + Flatten(b)
    decreases |a|
  {
    if |a| == 0 {
      assert a + b == b;
    } else {
      assert (a + b)[0] == a[0];
      assert (a + b)[1..] == a[1..] + b;
      FlattenAppend(a[1..], b);
    }
  }

  /**
   * The flattened list is the lists one after another: everything from the
   * lists before the `i`-th, then the `i`-th list, then the rest.
   */
  lemma {:induction false} FlattenAt(lists: seq<seq<Record>>, i: nat)
    requires i < |lists|
    ensures Flatten(lists) == Flatten(lists[..i]) + lists[i] + Flatten(lists[i + 1..])
  {
    var before, after := lists[..i], lists[i + 1..];
    assert lists == before + ([lists[i]] + after);
    FlattenAppend(before, [lists[i]] + after);
    assert ([lists[i]] + after)[1..] == after;
  }

  /** A record is in the flattened list exactly when it is in one of the lists. */
  lemma {:induction false} FlattenMembers(lists: seq<seq<Record>>, r: Record)
    ensures r in Flatten(lists) <==> exists i :: 0 <= i < |lists| && r in lists[i]
    decreases |lists|
  {
    if |lists| > 0 {
      FlattenMembers(lists[1..], r);
      if exists i :: 0 <= i < |lists[1..]| && r in lists[1..][i] {
        var i :| 0 <= i < |lists[1..]| && r in lists[1..][i];
        assert r in lists[i + 1];
      }
      if exists i :: 1 <= i < |lists| && r in lists[i] {
        var i :| 1 <= i < |lists| && r in lists[i];
        assert r in lists[1..][i - 1];
      }
    }
  }

  // ---------------------------------------------------------------------
  // The order Python uses on the sort keys
  // ---------------------------------------------------------------------

  /** `a <= b` on Python strings: lexicographic by code point, a prefix first. */
  predicate StrLe(a: string, b: string)
    decreases |a|
  {
    |a| == 0 || (|b| > 0 && (a[0] < b[0] || (a[0] == b[0] && StrLe(a[1..], b[1..]))))
  }

  predicate StrLt(a: string, b: string) { !StrLe(b, a) }

  lemma {:induction false} StrLeReflexive(a: string)
    ensures StrLe(a, a)
    decreases |a|
  {
    if |a| > 0 { StrLeReflexive(a[1..]); }
  }

  lemma {:induction false} StrLeTotal(a: string, b: string)
    ensures StrLe(a, b) || StrLe(b, a)
    decreases |a|
  {
    if |a| > 0 && |b| > 0 && a[0] == b[0] { StrLeTotal(a[1..], b[1..]); }
  }

  lemma {:induction false} StrLeAntisymmetric(a: string, b: string)
    requires StrLe(a, b) && StrLe(b, a)
    ensures a == b
    decreases |a|
  {
    if |a| > 0 {
      StrLeAntisymmetric(a[1..], b[1..]);
      assert a == [a[0]] + a[1..] && b == [b[0]] + b[1..];
    }
  }

  lemma {:induction false} StrLeTransitive(a: string, b: string, c: string)
    requires StrLe(a, b) && StrLe(b, c)
    ensures StrLe(a, c)
    decreases |a|
  {
    if |a| > 0 && a[0] == b[0] && b[0] == c[0] { StrLeTransitive(a[1..], b[1..], c[1..]); }
  }

  /**
   * `p <= q` on `pathlib` paths, which compare their lists of components
   * lexicographically: the full path decides, not just the last name.
   */
  predicate PathLe(p: Path, q: Path)
    decreases |p|
  {
    |p| == 0 || (|q| > 0 && (StrLt(p[0], q[0]) || (p[0] == q[0] && PathLe(p[1..], q[1..]))))
  }

  lemma {:induction false} PathLeTotal(p: Path, q: Path)
    ensures PathLe(p, q) || PathLe(q, p)
    decreases |p|
  {
    if |p| > 0 && |q| > 0 {
      if p[0] == q[0] { PathLeTotal(p[1..], q[1..]); }
      else {
        StrLeTotal(p[0], q[0]);
        if StrLe(p[0], q[0]) && StrLe(q[0], p[0]) { StrLeAntisymmetric(p[0], q[0]); }
      }
    }
  }

  lemma {:induction false} PathLeAntisymmetric(p: Path, q: Path)
    requires PathLe(p, q) && PathLe(q, p)
    ensures p == q
    decreases |p|
  {
    if |p| > 0 {
      StrLeTotal(p[0], q[0]);
      PathLeAntisymmetric(p[1..], q[1..]);
      assert p == [p[0]] + p[1..] && q == [q[0]] + q[1..];
    }
  }

  lemma {:induction false} PathLeTransitive(p: Path, q: Path, r: Path)
    requires PathLe(p, q) && PathLe(q, r)
    ensures PathLe(p, r)
    decreases |p|
  {
    if |p| > 0 {
      if p[0] == q[0] && q[0] == r[0] {
        StrLeReflexive(p[0]);
        PathLeTransitive(p[1..], q[1..], r[1..]);
      } else if StrLt(p[0], q[0]) && StrLt(q[0], r[0]) {
        StrLeTotal(p[0], q[0]);
        StrLeTotal(q[0], r[0]);
        StrLeTransitive(p[0], q[0], r[0]);
        if StrLe(r[0], p[0]) {
          StrLeTransitive(q[0], r[0], p[0]);
        }
      }
    }
  }

  /** The value `x[args.sort]` of one record. */
  datatype KeyValue = PathKey(path: Option<Path>) | CountKey(count: nat)

  function KeyOf(key: SortKey, r: Record): KeyValue
  {
    match key
    case Repo => PathKey(r.repo)
    case Ahead => CountKey(r.ahead)
    case Behind => CountKey(r.behind)
  }

  /**
   * The order on key values. Python cannot compare `None` with a path, so
   * `SortRecords` only sorts by repository when every path is present; the
   * place given to `None` here is never used there.
   */
  predicate KeyLe(a: KeyValue, b: KeyValue)
  {
    match (a, b)
    case (CountKey(m), CountKey(n)) => m <= n
    case (PathKey(None), PathKey(_)) => true
    case (PathKey(Some(p)), PathKey(Some(q))) => PathLe(p, q)
    case (PathKey(Some(_)), PathKey(None)) => false
    case (PathKey(_), CountKey(_)) => true
    case (CountKey(_), PathKey(_)) => false
  }

  lemma KeyLeTotal(a: KeyValue, b: KeyValue)
    ensures KeyLe(a, b) || KeyLe(b, a)
  {
    if a.PathKey? && b.PathKey? && a.path.Some? && b.path.Some? { PathLeTotal(a.path.value, b.path.value); }
  }

  lemma KeyLeAntisymmetric(a: KeyValue, b: KeyValue)
    requires KeyLe(a, b) && KeyLe(b, a)
    ensures a == b
  {
    if a.PathKey? && b.PathKey? && a.path.Some? && b.path.Some? { PathLeAntisymmetric(a.path.value, b.path.value); }
  }

  lemma KeyLeTransitive(a: KeyValue, b: KeyValue, c: KeyValue)
    requires KeyLe(a, b) && KeyLe(b, c)
    ensures KeyLe(a, c)
  {
    if a.PathKey? && b.PathKey? && c.PathKey? && a.path.Some? && b.path.Some? && c.path.Some? {
      PathLeTransitive(a.path.value, b.path.value, c.path.value);
    }
  }

  // ---------------------------------------------------------------------
  // `sorted(repos_status, key=lambda x: x[args.sort])`
  // ---------------------------------------------------------------------

  predicate SortedBy(key: SortKey, rs: seq<Record>)
  {
    forall i, j :: 0 <= i < j < |rs| ==> KeyLe(KeyOf(key, rs[i]), KeyOf(key, rs[j]))
  }

  /** The records of `rs` whose key is `v`, in their order in `rs`. */
  function WithKey(key: SortKey, rs: seq<Record>, v: KeyValue): seq<Record>
    decreases |rs|
  {
    if |rs| == 0 then []
    else WithKey(key, rs[..|rs| - 1], v) + (if KeyOf(key, rs[|rs| - 1]) == v then [rs[|rs| - 1]] else [])
  }

  /** Python can compare every pair of keys: no `None` repository when sorting two or more by repository. */
  predicate Comparable(key: SortKey, rs: seq<Record>)
  {
    key == Repo && |rs| >= 2 ==> forall i :: 0 <= i < |rs| ==> rs[i].repo.Some?
  }

  /** `x` placed after every element of the sorted `t` whose key is not above its own. */
  function Insert(key: SortKey, t: seq<Record>, x: Record): seq<Record>
    decreases |t|
  {
    if |t| == 0 then [x]
    else if KeyLe(KeyOf(key, t[|t| - 1]), KeyOf(key, x)) then t + [x]
    else Insert(key, t[..|t| - 1], x) + [t[|t| - 1]]
  }

  /** A stable sort: each record in turn inserted after those already placed with a key not above its own. */
  function SortRecords(key: SortKey, rs: seq<Record>): seq<Record>
    requires Comparable(key, rs)
  {
    InsertionSort(key, rs)
  }

  function InsertionSort(key: SortKey, rs: seq<Record>): seq<Record>
    decreases |rs|
  {
    if |rs| == 0 then [] else Insert(key, InsertionSort(key, rs[..|rs| - 1]), rs[|rs| - 1])
  }

  lemma WithKeySnoc(key: SortKey, s: seq<Record>, y: Record, v: KeyValue)
    ensures WithKey(key, s + [y], v) == WithKey(key, s, v) + (if KeyOf(key, y) == v then [y] else [])
  {
    assert (s + [y])[..|s|] == s;
  }

  lemma {:induction false} InsertPermutation(key: SortKey, t: seq<Record>, x: Record)
    ensures multiset(Insert(key, t, x)) == multiset(t) + multiset{x}
    decreases |t|
  {
    if |t| > 0 && !KeyLe(KeyOf(key, t[|t| - 1]), KeyOf(key, x)) {
      InsertPermutation(key, t[..|t| - 1], x);
      assert t == t[..|t| - 1] + [t[|t| - 1]];
    }
  }

  lemma {:induction false} InsertSorted(key: SortKey, t: seq<Record>, x: Record)
    requires SortedBy(key, t)
    ensures SortedBy(key, Insert(key, t, x))
    decreases |t|
  {
    if |t| > 0 {
      var n := |t| - 1;
      var last := t[n];
      if KeyLe(KeyOf(key, last), KeyOf(key, x)) {
        forall i | 0 <= i < n ensures KeyLe(KeyOf(key, t[i]), KeyOf(key, x)) {
          KeyLeTransitive(KeyOf(key, t[i]), KeyOf(key, last), KeyOf(key, x));
        }
        SortedSnoc(key, t, x);
      } else {
        var prefix := t[..n];
        InsertSorted(key, prefix, x);
        KeyLeTotal(KeyOf(key, last), KeyOf(key, x));
        forall i | 0 <= i < n ensures KeyLe(KeyOf(key, prefix[i]), KeyOf(key, last)) {
          assert prefix[i] == t[i];
        }
        InsertBounded(key, prefix, x, KeyOf(key, last));
        SortedSnoc(key, Insert(key, prefix, x), last);
      }
    }
  }

  /** Appending a record whose key bounds every key of a sorted list keeps it sorted. */
  lemma SortedSnoc(key: SortKey, u: seq<Record>, y: Record)
    requires SortedBy(key, u)
    requires forall i :: 0 <= i < |u| ==> KeyLe(KeyOf(key, u[i]), KeyOf(key, y))
    ensures SortedBy(key, u + [y])
  {
  }

  /** A bound on the keys of `t` and on `x` bounds the keys after the insertion. */
  lemma InsertBounded(key: SortKey, t: seq<Record>, x: Record, b: KeyValue)
    requires forall i :: 0 <= i < |t| ==> KeyLe(KeyOf(key, t[i]), b)
    requires KeyLe(KeyOf(key, x), b)
    ensures forall i :: 0 <= i < |Insert(key, t, x)| ==> KeyLe(KeyOf(key, Insert(key, t, x)[i]), b)
  {
    var u := Insert(key, t, x);
    InsertPermutation(key, t, x);
    forall i | 0 <= i < |u| ensures KeyLe(KeyOf(key, u[i]), b) {
      assert u[i] in multiset(u);
      if u[i] != x {
        assert u[i] in multiset(t);
        var j :| 0 <= j < |t| && t[j] == u[i];
      }
    }
  }

  lemma {:induction false} InsertStable(key: SortKey, t: seq<Record>, x: Record, v: KeyValue)
    ensures WithKey(key, Insert(key, t, x), v) == WithKey(key, t, v) + (if KeyOf(key, x) == v then [x] else [])
    decreases |t|
  {
    if |t| == 0 {
      WithKeySnoc(key, [], x, v);
    } else if KeyLe(KeyOf(key, t[|t| - 1]), KeyOf(key, x)) {
      WithKeySnoc(key, t, x, v);
    } else {
      InsertStable(key, t[..|t| - 1], x, v);
      InsertStableStep(key, t, x, v);
    }
  }

  lemma InsertStableStep(key: SortKey, t: seq<Record>, x: Record, v: KeyValue)
    requires |t| > 0 && !KeyLe(KeyOf(key, t[|t| - 1]), KeyOf(key, x))
    requires WithKey(key, Insert(key, t[..|t| - 1], x), v) == WithKey(key, t[..|t| - 1], v) + (if KeyOf(key, x) == v then [x] else [])
    ensures WithKey(key, Insert(key, t, x), v) == WithKey(key, t, v) + (if KeyOf(key, x) == v then [x] else [])
  {
    var n := |t| - 1;
    WithKeySnoc(key, Insert(key, t[..n], x), t[n], v);
    KeysDiffer(key, t[n], x, v);
  }

  /** Two records whose keys are strictly out of order cannot share the key `v`. */
  lemma KeysDiffer(key: SortKey, a: Record, b: Record, v: KeyValue)
    requires !KeyLe(KeyOf(key, a), KeyOf(key, b))
    ensures KeyOf(key, a) != v || KeyOf(key, b) != v
  {
    if KeyOf(key, a) == v && KeyOf(key, b) == v {
      KeyLeTotal(v, v);
    }
  }

  /**
   * The sorted list is the input reordered: non-decreasing in the key, a
   * permutation, and stable: the records sharing a key value keep their
   * relative order.
   */
  lemma {:induction false} SortProperties(key: SortKey, rs: seq<Record>)
    ensures SortedBy(key, InsertionSort(key, rs))
    ensures multiset(InsertionSort(key, rs)) == multiset(rs)
    ensures forall v :: WithKey(key, InsertionSort(key, rs), v) == WithKey(key, rs, v)
    decreases |rs|
  {
    if |rs| > 0 {
      var n := |rs| - 1;
      var sortedPrefix := InsertionSort(key, rs[..n]);
      SortProperties(key, rs[..n]);
      InsertSorted(key, sortedPrefix, rs[n]);
      InsertPermutation(key, sortedPrefix, rs[n]);
      assert rs == rs[..n] + [rs[n]];
      forall v ensures WithKey(key, InsertionSort(key, rs), v) == WithKey(key, rs, v) {
        InsertStable(key, sortedPrefix, rs[n], v);
        WithKeySnoc(key, rs[..n], rs[n], v);
      }
    }
  }

  // ---------------------------------------------------------------------
  // The pipeline
  // ---------------------------------------------------------------------

  /**
   * `executor.map(lambda repo_path: get_git_info(repo_path, extra_branches), git_repos)`:
   * the outcome for each repository, in order.
   */
  function StatusPerRepo(gitAt: Option<Path> -> Git, repos: seq<Option<Path>>, extraBranches: seq<string>)
    : (r: seq<Query<seq<Record>>>)
    ensures |r| == |repos|
    ensures forall i :: 0 <= i < |repos| ==> r[i] == GitInfo(gitAt(repos[i]), repos[i], Some(extraBranches))
  {
    seq(|repos|, i requires 0 <= i < |repos| => GitInfo(gitAt(repos[i]), repos[i], Some(extraBranches)))
  }

  /**
   * `list(...)` over the mapped outcomes: the lists in order, or `Raised`
   * when any call raised, since the iterator re-raises that exception.
   */
  function Gather(outcomes: seq<Query<seq<Record>>>): (r: Query<seq<seq<Record>>>)
    ensures r.Raised? <==> exists i :: 0 <= i < |outcomes| && outcomes[i].Raised?
    ensures r.Reply? ==> |r.value| == |outcomes| && forall i :: 0 <= i < |outcomes| ==> outcomes[i] == Reply(r.value[i])
    decreases |outcomes|
  {
    if |outcomes| == 0 then Reply([])
    else
      var n := |outcomes| - 1;
      match Gather(outcomes[..n])
      case Raised => Raised
      case Reply(lists) =>
        if outcomes[n].Raised? then Raised else Reply(lists + [outcomes[n].value])
  }

  /** The flattened lists can be sorted by the key, when no call raised. */
  predicate Sortable(gitAt: Option<Path> -> Git, repos: seq<Option<Path>>, extraBranches: seq<string>, key: SortKey)
  {
    var gathered := Gather(StatusPerRepo(gitAt, repos, extraBranches));
    gathered.Reply? ==> Comparable(key, Flatten(gathered.value))
  }

  /**
   * The sorted result set, for the repositories in the order the set of
   * repositories is iterated; `gitAt(r)` is what git answers in `r`.
   * `Raised` stands for the exception that ends `main` before any output.
   */
  function ResultSet(gitAt: Option<Path> -> Git, repos: seq<Option<Path>>, extraBranches: seq<string>, key: SortKey)
    : Query<seq<Record>>
    requires Sortable(gitAt, repos, extraBranches, key)
  {
    match Gather(StatusPerRepo(gitAt, repos, extraBranches))
    case Raised => Raised
    case Reply(lists) => Reply(SortRecords(key, Flatten(lists)))
  }

  /**
   * The program stops without a result exactly when `get_git_info` raises
   * for some repository; otherwise the result set is the per-repository
   * lists, concatenated in repository order and then sorted stably by the key.
   */
  lemma ResultSetProperties(gitAt: Option<Path> -> Git, repos: seq<Option<Path>>, extraBranches: seq<string>, key: SortKey)
    requires Sortable(gitAt, repos, extraBranches, key)
    ensures ResultSet(gitAt, repos, extraBranches, key).Raised? <==>
      exists i :: 0 <= i < |repos| && GitInfo(gitAt(repos[i]), repos[i], Some(extraBranches)).Raised?
    ensures var outcome := ResultSet(gitAt, repos, extraBranches, key);
      outcome.Reply? ==>
        var flat := Flatten(Gather(StatusPerRepo(gitAt, repos, extraBranches)).value);
        var sorted := outcome.value;
        && SortedBy(key, sorted)
        && multiset(sorted) == multiset(flat)
        && (forall v :: WithKey(key, sorted, v) == WithKey(key, flat, v))
        && (forall r :: r in sorted <==>
              exists i :: 0 <= i < |repos| && GitInfo(gitAt(repos[i]), repos[i], Some(extraBranches)).Reply? &&
                r in GitInfo(gitAt(repos[i]), repos[i], Some(extraBranches)).value)
  {
    var gathered := Gather(StatusPerRepo(gitAt, repos, extraBranches));
    if gathered.Reply? {
      var lists := gathered.value;
      var sorted := SortRecords(key, Flatten(lists));
      SortedFlatten(key, lists);
      forall r ensures r in sorted <==>
        exists i :: 0 <= i < |repos| && GitInfo(gitAt(repos[i]), repos[i], Some(extraBranches)).Reply? &&
          r in GitInfo(gitAt(repos[i]), repos[i], Some(extraBranches)).value
      {
        if exists i :: 0 <= i < |lists| && r in lists[i] {
          var i :| 0 <= i < |lists| && r in lists[i];
          assert GitInfo(gitAt(repos[i]), repos[i], Some(extraBranches)) == Reply(lists[i]);
        }
        if exists i :: 0 <= i < |repos| && GitInfo(gitAt(repos[i]), repos[i], Some(extraBranches)).Reply? &&
             r in GitInfo(gitAt(repos[i]), repos[i], Some(extraBranches)).value {
          var i :| 0 <= i < |repos| && GitInfo(gitAt(repos[i]), repos[i], Some(extraBranches)).Reply? &&
            r in GitInfo(gitAt(repos[i]), repos[i], Some(extraBranches)).value;
          assert GitInfo(gitAt(repos[i]), repos[i], Some(extraBranches)) == Reply(lists[i]);
        }
      }
    }
  }

  /** Sorting the concatenation keeps its records, orders them and is stable. */
  lemma SortedFlatten(key: SortKey, lists: seq<seq<Record>>)
    requires Comparable(key, Flatten(lists))
    ensures var flat := Flatten(lists);
      var sorted := SortRecords(key, flat);
      && SortedBy(key, sorted)
      && multiset(sorted) == multiset(flat)
      && (forall v :: WithKey(key, sorted, v) == WithKey(key, flat, v))
      && (forall r :: r in sorted <==> exists i :: 0 <= i < |lists| && r in lists[i])
  {
    var flat := Flatten(lists);
    SortProperties(key, flat);
    forall r ensures r in InsertionSort(key, flat) <==> r in flat {
      assert r in InsertionSort(key, flat) <==> r in multiset(InsertionSort(key, flat));
    }
    forall r ensures r in flat <==> exists i :: 0 <= i < |lists| && r in lists[i] {
      FlattenMembers(lists, r);
    }
  }

  /**
   * End to end, for the repositories `find_git_repos` finds, each visited
   * once: no result when some repository found raises, and otherwise exactly
   * the records `get_git_info` returns for the repositories found.
   */
  lemma ResultSetOfFound(o: FsOracle, root: Option<Dir>, start: Path, exclude: seq<Path>,
                         gitAt: Option<Path> -> Git, repos: seq<Option<Path>>, extraBranches: seq<string>, key: SortKey)
    requires NoDuplicates(repos) && (set x | x in repos) == RepoSet(o, root, start, exclude)
    requires Sortable(gitAt, repos, extraBranches, key)
    ensures ResultSet(gitAt, repos, extraBranches, key).Raised? <==>
      exists x :: x in RepoSet(o, root, start, exclude) && GitInfo(gitAt(x), x, Some(extraBranches)).Raised?
    ensures var outcome := ResultSet(gitAt, repos, extraBranches, key);
      outcome.Reply? ==>
        forall r :: r in outcome.value <==>
          exists x :: x in RepoSet(o, root, start, exclude) && GitInfo(gitAt(x), x, Some(extraBranches)).Reply? &&
            r in GitInfo(gitAt(x), x, Some(extraBranches)).value
  {
    ResultSetProperties(gitAt, repos, extraBranches, key);
    var found := RepoSet(o, root, start, exclude);
    forall x | x in found ensures exists i :: 0 <= i < |repos| && repos[i] == x {
      assert x in (set y | y in repos);
    }
  }
}
