/**
 * Concrete runs of the model: the command-line examples and the
 * two-repository CSV report.
 */
module Scenarios {

  import opened Wrappers
  import opened Text
  import opened Locator
  import opened Collector
  import opened Dispatcher
  import opened Presenter
  import opened CommandLine

  /** `parse_list("a,b")` gives the three characters, not the two names. */
  lemma ParseListSplitsCharacters()
    ensures ParseList("a,b") == ["a", ",", "b"]
  {
    assert "a,b" == ['a', ',', 'b'];
    assert !IsSpace('a') && !IsSpace(',') && !IsSpace('b');
    ParseListOfThree('a', ',', 'b');
  }

  lemma ParseListOfThree(a: char, b: char, c: char)
    requires !IsSpace(a) && !IsSpace(b) && !IsSpace(c)
    ensures ParseList([a, b, c]) == [[a], [b], [c]]
  {
    var items := ParseList([a, b, c]);
    assert items[0] == [a] && items[1] == [b] && items[2] == [c];
  }

  /** `-m -b dev` stops the program instead of adding `dev`. */
  lemma BranchOptionFails()
    ensures ExtraBranchesAsWritten(true, Some("dev")).None?
  {
  }

  /** `-e build` stops the program whenever the start path is a directory. */
  lemma ExcludeOptionFails(o: FsOracle, root: Dir, start: Path)
    ensures FindReposAsWritten(o, Some(root), start, Some("build")).None?
  {
  }

  /** `-e "dev, feature"` names the two directories `dev` and `feature`. */
  lemma ExcludePathsExample(toPath: string -> Path)
    ensures ExcludePaths(toPath, Some("dev, feature")) == [toPath("dev"), toPath("feature")]
  {
    ParseCommaListExample();
    ExcludeTwo(toPath, "dev, feature", "dev", "feature");
  }

  lemma ExcludeTwo(toPath: string -> Path, arg: string, a: string, b: string)
    requires ParseCommaList(arg) == [a, b]
    ensures ExcludePaths(toPath, Some(arg)) == [toPath(a), toPath(b)]
  {
  }

  /** `-b "dev, feature"` asks for exactly `dev` and `feature`. */
  lemma ExtraBranchesExample()
    ensures ExtraBranches(false, Some("dev, feature")) == {"dev", "feature"}
  {
    ParseCommaListExample();
    SetOfTwo([] + ParseCommaList("dev, feature"), "dev", "feature");
  }

  lemma SetOfTwo(s: seq<string>, a: string, b: string)
    requires s == [a, b]
    ensures (set x | x in s) == {a, b}
  {
  }

  lemma {:induction false} ParseCommaListExample()
    ensures ParseCommaList("dev, feature") == ["dev", "feature"]
  {
    assert "dev, feature" == "dev" + [','] + " feature";
    ParseCommaListTwo("dev", " feature");
    StripDev();
    StripFeature();
  }

  lemma StripDev()
    ensures Strip("dev") == "dev"
  {
    assert !IsSpace('d') && !IsSpace('v');
    StripTrimmed("dev");
  }

  lemma StripFeature()
    ensures Strip(" feature") == "feature"
  {
    assert !IsSpace('f') && !IsSpace('e');
    StripLeading(" feature");
  }

  /** One leading blank before a word is stripped. */
  lemma StripLeading(y: string)
    requires |y| >= 2 && y[0] == ' ' && !IsSpace(y[1]) && !IsSpace(y[|y| - 1])
    ensures Strip(y) == y[1..]
  {
    RStripNoSpace(y);
    LStripAfterSpaces(y, 1);
  }

  lemma {:induction false} ParseCommaListTwo(x: string, y: string)
    requires ',' !in x && ',' !in y
    ensures ParseCommaList(x + [','] + y) == [Strip(x), Strip(y)]
  {
    SplitTwo(x, y);
    ParseCommaListParts(x + [','] + y);
  }

  lemma {:induction false} SplitTwo(x: string, y: string)
    requires ',' !in x && ',' !in y
    ensures Split(x + [','] + y, ',') == [x, y]
  {
    SplitAfterPart(x, ',', y);
    SplitNoSep(y, ',');
  }

  lemma ParseCommaListParts(val: string)
    ensures |ParseCommaList(val)| == |Split(val, ',')|
    ensures forall i :: 0 <= i < |Split(val, ',')| ==> ParseCommaList(val)[i] == Strip(Split(val, ',')[i])
  {
  }

  const RecordA := Record(Some(["home", "u", "A"]), "main", 2, 0)
  const RecordB := Record(Some(["home", "u", "B"]), "feature", 0, 1)

  /** Sorting by repository puts `A` before `B`, whatever order the walk produced. */
  lemma SortTwoRepositories()
    ensures SortRecords(Repo, [RecordB, RecordA]) == [RecordA, RecordB]
  {
    var a, b := RecordA.repo.value, RecordB.repo.value;
    assert StrLe("A", "B") by { assert "A"[0] < "B"[0]; }
    assert !PathLe(b[2..], a[2..]) by { assert b[2..] == ["B"] && a[2..] == ["A"]; }
    assert !PathLe(b[1..], a[1..]) by { assert b[1..][1..] == b[2..] && a[1..][1..] == a[2..]; }
    assert !PathLe(b, a);
    SortTwo(Repo, RecordB, RecordA);
  }

  /** Two records whose keys are out of order are swapped. */
  lemma SortTwo(key: SortKey, x: Record, y: Record)
    requires !KeyLe(KeyOf(key, x), KeyOf(key, y))
    ensures InsertionSort(key, [x, y]) == [y, x]
  {
    assert [x, y][..1] == [x];
    assert [x][..0] == [];
    assert InsertionSort(key, [x]) == Insert(key, [], x) == [x];
    assert Insert(key, [x], y) == Insert(key, [], y) + [x];
  }

  /** The CSV report of the two records. */
  lemma CsvTwoRepositories()
    ensures CsvText([RecordA, RecordB]) == ["repository,branch,ahead,behind", "A,main,2,0", "B,feature,0,1"]
  {
    var text := CsvText([RecordA, RecordB]);
    var rows := CsvRows([RecordA, RecordB]);
    assert |text| == 3;
    CsvHeaderLine();
    assert text[0] == "repository,branch,ahead,behind";
    CsvLineA();
    assert [RecordA, RecordB][0] == RecordA;
    assert rows[1] == CsvFields(RecordA);
    assert text[1] == "A,main,2,0";
    CsvLineB();
    assert [RecordA, RecordB][1] == RecordB;
    assert rows[2] == CsvFields(RecordB);
    assert text[2] == "B,feature,0,1";
  }

  lemma CsvHeaderLine()
    ensures Join(CsvHeader, ',') == "repository,branch,ahead,behind"
  {
    JoinFour("repository", "branch", "ahead", "behind");
  }

  lemma CsvLineA()
    ensures Join(CsvFields(RecordA), ',') == "A,main,2,0"
  {
    assert Decimal(2) == "2" && Decimal(0) == "0";
    JoinFour("A", "main", "2", "0");
  }

  lemma CsvLineB()
    ensures Join(CsvFields(RecordB), ',') == "B,feature,0,1"
  {
    assert Decimal(0) == "0" && Decimal(1) == "1";
    JoinFour("B", "feature", "0", "1");
  }

  lemma JoinFour(a: string, b: string, c: string, d: string)
    ensures Join([a, b, c, d], ',') == a + [','] + b + [','] + c + [','] + d
  {
    assert [a, b, c, d][1..] == [b, c, d];
    assert [b, c, d][1..] == [c, d];
    assert [c, d][1..] == [d];
    assert Join([c, d], ',') == c + [','] + d;
    assert Join([b, c, d], ',') == b + [','] + c + [','] + d;
  }
}
