# git-overview, modelled in Dafny

`git_overview.py` scans a directory tree for Git working copies. It asks git,
for every repository and every branch of interest, how far the local branch is
ahead of and behind its remote. It prints the answers as a table (coloured
Unicode or plain ASCII) or as CSV. This project models the core of that script:

- **Locator** (`locator.dfy`): `find_git_repos`, the top-down `os.walk` and
  its pruning of excluded directories, dot directories and repositories. The
  directory tree is a finite `Dir` value. `Path.resolve()` and
  `find_top_git_repo` (the `git rev-parse --show-toplevel` query) are the two
  functions of an `FsOracle`. The walk is a recursive method proved to collect
  exactly what `Trace` collects. `Trace` is the list of directories `os.walk`
  yields in order, each with what the loop body did to it.
- **Collector** (`collector.dfy`): `get_git_info`. It deduplicates the branch
  list in order of first occurrence, then runs the per-branch record loop. The
  git queries (`git branch --show-current`, `git status --porcelain`,
  `__check_if_local_branch_exists__`, `__get_remote_info__`,
  `__get_local_info__`, `__get_differences_remote_local__`) are the fields of
  a `Git` value. Each answers `Raised` where the subprocess raised. The first
  two run outside the `try` of the loop, so their timeouts leave
  `get_git_info` as an exception. The model's `GitInfo` is then `Raised`.
  The per-branch queries raise inside the `try`, so they give `[]`.
- **Dispatcher** (`dispatcher.dfy`): the end of `main`. `get_git_info` is
  mapped over the repositories, the lists are flattened, and Python's stable
  `sorted` orders them by `repo`, `ahead` or `behind`. When any call raised,
  `list(executor.map(...))` re-raises and `main` stops before printing. The
  result set is then `Raised`.
- **Presenter** (`presenter.dfy`): `__pretty_format__`, `__simple_format__`,
  `format_table` (the printed lines), `format_csv` (the rows given to
  `csv.writer`, and their text when no field needs quoting) and the choice of
  output in `main`.
- **CommandLine** (`commandline.dfy`): `parse_list` as written, the evidently
  intended comma-separated version, the extra-branch list `main` builds and
  the exclusions `main` hands to `find_git_repos`, each as written and as
  evidently intended.
- **Text** (`text.dfy`) gives the Python string operations the core uses:
  padding, slicing, `str(n)`/`int(s)`, `split`, `join`, `strip`.
  **Wrappers** (`wrappers.dfy`) holds `Option`.
- **Scenarios** (`scenarios.dfy`) works through the two-repository example:
  its sort order and its CSV text. It also holds the inputs that expose the three
  findings below.

## Model

| member | source | states |
|---|---|---|
| Locator.ExcludeSet | git_overview.py:61 | every excluded path's resolution is in the set, and the set holds nothing else |
| Locator.NonDot | git_overview.py:81 | a name survives exactly when it was listed and does not start with a dot |
| Locator.NonDotAppend | git_overview.py:81 | the filter distributes over concatenation, so it keeps the order and repeats of `dirs` |
| Locator.Examine | git_overview.py:65-85 | a directory adds the top-level lookup's answer exactly when it is not excluded, has no dot component and lists `.git`; the walk descends into a name exactly when the name has no dot, the directory is not excluded, has no dot component and holds no `.git` |
| Locator.VisitDirectory | git_overview.py:65-85 | one loop-body pass: the set grows by what `Examine` adds, and `dirs` is left as `Examine` says |
| Locator.Walk | git_overview.py:64-85 | the walk from a directory adds to the set exactly what the visits of `Trace` collect |
| Locator.WalkKids | git_overview.py:64 | the walk continues into the surviving subdirectories in `os.walk` order and collects what their traces collect |
| Locator.FindGitRepos | git_overview.py:54-90 | a missing or non-directory start gives the empty set; otherwise the result is what the trace of the walk collects |
| Locator.TraceShape | git_overview.py:64 | the walk yields its start directory first, then the walks of the surviving subdirectories, and nothing outside its start |
| Locator.VisitsExamined | git_overview.py:65-85 | every yielded directory is what the loop body makes of it |
| Locator.ExcludedIsLeaf | git_overview.py:67-85 | an excluded directory adds nothing and nothing below it is visited |
| Locator.RepositoryIsLeaf | git_overview.py:71-76 | a directory listing `.git` adds the lookup's answer, even `None`, and is not descended into |
| Locator.NoDotVisited | git_overview.py:68-83 | below a path without dot components, no visited directory has a dot component |
| Locator.StartVisitedNoDotBelow | git_overview.py:64-69 | the start directory is visited first whatever its own name; no visited directory has a dot component relative to it |
| Locator.NothingBelowPruned | git_overview.py:76-85 | in a tree with unique names, nothing below a directory whose `dirs` was emptied is visited |
| Locator.RepoSetMembers | git_overview.py:54-90 | a value is in `find_git_repos`'s result iff some visited, non-excluded directory lists `.git` and the lookup answers that value for it |
| Locator.ExcludedAddsNothing | git_overview.py:67-85 | a visited directory whose resolved path is excluded adds nothing and leaves `dirs` empty |
| Locator.PrunedSubtreeSkipped | git_overview.py:67-85 | nothing below an excluded directory or a repository is visited (no nested repositories) |
| Collector.Dedup | git_overview.py:187 | the same names as the input, each at most once |
| Collector.DedupOrder | git_overview.py:187 | the names keep the order of their first occurrence |
| Collector.UniqueBranchesProperties | git_overview.py:177-187 | the branch list starts with the current branch (or `Unknown`), holds every requested name exactly once, in first-occurrence order |
| Collector.QueryBranch | git_overview.py:192-201 | the four queries for one branch, in order; a raise stops them, and a missing branch or failed count gives no record |
| Collector.GetGitInfo | git_overview.py:157-204 | the method's outcome is `Raised` when the current-branch or status query raised; otherwise the loop's list, or `[]` when a per-branch query raised |
| Collector.RecordLoopPrefix | git_overview.py:191-201 | one more branch extends the loop's outcome by that branch's step |
| Collector.RaisedPersists | git_overview.py:189-204 | once a query has raised, the whole loop gives `Raised` |
| Collector.StepMeaning | git_overview.py:192-201 | a branch's step raises iff one of its queries raises; it gives a record iff the branch exists and the counts are answered; that record carries the repository, the branch and the counts |
| Collector.LoopMeaning | git_overview.py:189-204 | the loop raises iff some branch's queries raise; otherwise it gives one record per emitting branch, in branch order, each for that branch |
| Collector.GitInfoMeaning | git_overview.py:157-204 | `get_git_info` raises iff the current-branch or the status query raises; otherwise it gives `[]` when any per-branch query raises, and else one record per emitting branch of the deduplicated list, in order, with its repository and counts |
| Collector.EmittingNoDuplicates | git_overview.py:187-201 | no branch appears twice among a repository's records |
| Dispatcher.FlattenAppend | git_overview.py:370 | flattening distributes over concatenation |
| Dispatcher.FlattenAt | git_overview.py:370 | each list sits, whole and in place, between the lists before it and those after it |
| Dispatcher.FlattenMembers | git_overview.py:370 | a record is in the flat list iff it is in one of the lists |
| Dispatcher.PathLeTotal | git_overview.py:373 | any two paths are ordered one way or the other |
| Dispatcher.PathLeAntisymmetric | git_overview.py:373 | paths ordered both ways are equal |
| Dispatcher.PathLeTransitive | git_overview.py:373 | the path order is transitive |
| Dispatcher.KeyLeTotal | git_overview.py:373 | any two sort keys compare |
| Dispatcher.KeyLeAntisymmetric | git_overview.py:373 | keys ordered both ways are equal |
| Dispatcher.KeyLeTransitive | git_overview.py:373 | the key order is transitive |
| Dispatcher.InsertPermutation | git_overview.py:373 | inserting adds exactly that record |
| Dispatcher.InsertSorted | git_overview.py:373 | inserting into a sorted list keeps it sorted |
| Dispatcher.InsertStable | git_overview.py:373 | the inserted record comes after every record already there with the same key |
| Dispatcher.SortProperties | git_overview.py:373 | the sort is non-decreasing in the key, a permutation, and stable: records with equal keys keep their order |
| Dispatcher.StatusPerRepo | git_overview.py:364-368 | one outcome per repository, in iteration order, each `get_git_info` for that repository |
| Dispatcher.Gather | git_overview.py:365-368 | collecting the mapped outcomes raises iff one of them raised; otherwise it gives each repository's list, in order |
| Dispatcher.SortedFlatten | git_overview.py:370-373 | sorting the concatenated lists gives a sorted, stable permutation holding exactly the records of the lists |
| Dispatcher.ResultSetProperties | git_overview.py:362-373 | there is no result iff `get_git_info` raises for some repository; otherwise the result set is sorted, a permutation of the concatenated lists, stable, and holds exactly the records some repository produced |
| Dispatcher.ResultSetOfFound | git_overview.py:360-373 | for the repositories `find_git_repos` found, each taken once: no result iff one of them raises, and otherwise exactly the records `get_git_info` gives for them |
| Presenter.PrettyFormat | git_overview.py:210-231 | the six colours are ANSI SGR sequences (green, red and reset distinct) and the eleven border characters are box-drawing characters |
| Presenter.SimpleFormat | git_overview.py:233-247 | no colour at all; dashes for rules, a vertical bar between cells, and plus signs at every corner and joint |
| Presenter.MaxLen | git_overview.py:260-262 | at least every length in the list and equal to one of them |
| Presenter.ColumnWidths | git_overview.py:259-262 | each width is at most the cap, at least every capped name length, and equal to one of them |
| Presenter.TableLinesShape | git_overview.py:253-298 | no records print the one message; otherwise three header lines, one row per record in order, then the footer |
| Presenter.FormatRow | git_overview.py:280-292 | the loop body builds that record's row |
| Presenter.FormatRows | git_overview.py:279-292 | the row loop prints one row per record, in order |
| Presenter.FormatTable | git_overview.py:249-298 | the printed lines are `TableLines` |
| Presenter.RepoCellShape | git_overview.py:289 | the repository cell is exactly the column wide: the name cut to the width, then blanks |
| Presenter.BranchCellShape | git_overview.py:290 | the branch cell is the blue code, the whole branch name, blanks up to the column width (never cut), then the reset code |
| Presenter.CountCellMeaning | git_overview.py:280-287 | a count is coloured iff it is positive; zero shows as six blanks and `0`; the stripped cell reads back as the count |
| Presenter.SimpleRowLength | git_overview.py:280-291 | a simple-style row is as long as the rules when the branch fits and the counts have at most seven digits |
| Presenter.SimpleFrameLength | git_overview.py:265-296 | the simple header and footer lines are as long as the rules when the titles fit |
| Presenter.SimpleTableAligned | git_overview.py:253-296 | under those conditions every line of the simple table has the same length |
| Presenter.TitleOverhangsShortNames | git_overview.py:260-268 | when every repository name is shorter than `Repository`, the title line is wider than its rules |
| Presenter.Render | git_overview.py:377-382 | CSV iff asked for; otherwise the table, coloured only for `pretty` on a terminal |
| Presenter.NoColourOffTerminal | git_overview.py:377-382 | off a terminal the table holds no escape character, as long as no name does |
| Presenter.PlainRowEscapeFree | git_overview.py:280-291 | an uncoloured row holds no escape character when its names hold none |
| Presenter.CsvRows | git_overview.py:300-309 | no rows for no records; otherwise the header then one row per record: name, branch and both counts |
| Presenter.FormatCsv | git_overview.py:300-309 | the rows written are `CsvRows` |
| Presenter.CsvRoundTrip | git_overview.py:304-309 | every record's name, branch and counts read back from the rows |
| Presenter.CsvTextRoundTrip | git_overview.py:305-309 | with no field needing quotes, splitting the comma-joined lines gives every record back |
| CommandLine.ParseList | git_overview.py:315-316 | one item per character: the empty string for white space, else that character |
| CommandLine.StripCharIsStrip | git_overview.py:316 | each item is `s.rstrip().strip()` of its one-character string |
| CommandLine.ParseCommaList | git_overview.py:315-316 | at least one item, and none holds a comma |
| CommandLine.ParseCommaListJoin | git_overview.py:315-316 | parsing names joined by commas gives the names back |
| CommandLine.ExtraBranchesAsWritten | git_overview.py:352-357 | the program stops iff `--branch` is non-empty; otherwise the extra branches are `main` and `master` under `--main` and none without |
| CommandLine.ExtraBranchesMeaning | git_overview.py:352-357 | a name is an extra branch iff `--main` gave it, or it is an item of the `--branch` list |
| CommandLine.FindReposAsWritten | git_overview.py:54-63 | with `--exclude` parsed by `parse_list`, the program stops iff the start is a directory and the value is non-empty; otherwise no directory is excluded |
| CommandLine.ExcludePaths | git_overview.py:328-329 | one excluded path per comma-separated item, in order |
| CommandLine.FindReposHonoursExclude | git_overview.py:61-85 | a visited directory resolving to a named exclusion adds nothing, is not descended into, and nothing below it is visited |
| Scenarios.ParseListSplitsCharacters | git_overview.py:315-316 | `parse_list("a,b")` is the three items `a`, `,` and `b` |
| Scenarios.BranchOptionFails | git_overview.py:355-356 | `-m -b dev` stops the program |
| Scenarios.ExcludeOptionFails | git_overview.py:360 | `-e build` stops the program whenever the start path is a directory |
| Scenarios.ExcludePathsExample | git_overview.py:328-329 | with the corrected parser, `-e "dev, feature"` excludes `dev` and `feature` |
| Scenarios.ExtraBranchesExample | git_overview.py:352-357 | with the corrected parser, `-b "dev, feature"` asks for exactly `dev` and `feature` |
| Scenarios.SortTwoRepositories | git_overview.py:373 | sorting B then A by repository gives A then B |
| Scenarios.CsvTwoRepositories | git_overview.py:300-309 | the CSV text for A (`main`, 2, 0) and B (`feature`, 0, 1) is the header then `A,main,2,0` and `B,feature,0,1` |

## Left out

- Subprocesses and I/O. Every git query is an answer the model is given (`Git`, `FsOracle`), and the model works on the query results.
- `git fetch` downloads the commits that `git rev-list --count` needs to compare the `ls-remote` SHA with the local one. Its effect is folded into the `differences` answer. `remoteSha` asks the remote directly and does not depend on it. The fetch's timeout is caught, and the warning printed then is not modelled.
- `git status --porcelain` is the `status` answer. Only its timeout matters: the WIP flag it feeds is computed but never used.
- A missing `git` executable (`FileNotFoundError` from the first `subprocess.run`) is not modelled.
- `find_top_git_repo` is the `topLevel` function of `FsOracle`. Its answer is `Some` of the stripped `git rev-parse --show-toplevel` output, or `None` when the call raises `CalledProcessError` (a non-zero exit under `check=True`) or `FileNotFoundError`.
- An `int()` on a `git rev-list --count` output that is not a number raises `ValueError`. The model's `differences` query answers a pair of naturals or nothing.
- Symbolic links, and the cycles `followlinks=True` can cause: the tree is a finite value. `PermissionError`/`OSError` inside the walk and the outer `except Exception` are not modelled, nor is the lazy listing of subdirectories.
- The thread pool: `executor.map` returns results in input order, so it is a sequential map. The order in which the `set` of repositories is iterated is a parameter (`repos`).
- Argument parsing, `--version` and its banner, `sys.exit`, and printing are not modelled. `sys.stdout.isatty()` is the parameter `isTty`.
- `csv.writer` quoting and its `\r\n` line ends: `CsvText` covers only fields with no comma, quote or line break. What ANSI sequences do on a terminal is not modelled.
- Locator.FindGitRepos: exclusions are given as paths. The program as written crashes on any non-empty `--exclude` (third finding).
- Presenter.Render: renders a result set that exists. A `Raised` result set is the traceback `main` ends with, and nothing is printed.
- A `None` repository (a failed top-level lookup) makes Python's sort by `repo` raise `TypeError` for two or more records, and makes the renderers raise `AttributeError` on `.name`. These become the preconditions `Comparable` and `HasPaths`.
- Presenter.SimpleTableAligned: stated for the simple style only, where a line's visible width is its length; in the pretty style the colour codes add invisible characters.
- Where the program differs from its documented intent, the model follows the code:
  - a repository is recognised only by a `.git` directory, not by a `.git` file of a worktree;
  - the remote lookup is not checked before the ahead/behind query, so a branch without an upstream is skipped only because that query fails;
  - branch names are padded but not cut to the column width;
  - the column titles do not count towards the column widths (`Presenter.TitleOverhangsShortNames`);
  - the dot-component test at line 69 can never fire, because dot names are removed before the walk descends (`Locator.StartVisitedNoDotBelow`).

## Findings

| source | as written | input that shows it | evidently intended | confidence | as-written member | corrected member |
|---|---|---|---|---|---|---|
| git_overview.py:315-316 | `parse_list` iterates over the characters of its argument, so each character becomes an item | `parse_list("a,b")` gives `["a", ",", "b"]` | split at commas and strip each item: `["a", "b"]` | high, not executed | CommandLine.ParseList, Scenarios.ParseListSplitsCharacters | CommandLine.ParseCommaList, CommandLine.ParseCommaListJoin |
| git_overview.py:54-63 | `args.exclude` holds the strings `parse_list` returned; line 61 calls `resolve` on each of them outside the `try`, and a string has no `resolve` | `-e build` on an existing start directory: `AttributeError`, the program stops | exclude every comma-separated directory of `--exclude`, as its help text says | high, not executed | CommandLine.FindReposAsWritten, Scenarios.ExcludeOptionFails | CommandLine.FindRepos, CommandLine.FindReposHonoursExclude |
| git_overview.py:355-356 | `args.branch` is already the list `parse_list` returned, and a list has no `split` | `-m -b dev`: `AttributeError`, the program stops | add each comma-separated item of `--branch` to the branch set | high, not executed | CommandLine.ExtraBranchesAsWritten, Scenarios.BranchOptionFails | CommandLine.ExtraBranches, CommandLine.ExtraBranchesMeaning |
