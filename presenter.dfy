/**
 * The presenter: `__pretty_format__`, `__simple_format__`, `format_table`
 * and `format_csv` (git_overview.py:210-309). Their output is modelled
 * as the sequence of lines printed; `format_csv` as the sequence of rows
 * handed to `csv.writer`, each a list of fields.
 */
module Presenter {

  import opened Wrappers
  import opened Text
  import opened Locator
  import opened Collector

  /** The strings `format_table` unpacks from `__pretty_format__()` or `__simple_format__()`. */
  datatype Style = Style(
    green: string, red: string, yellow: string, blue: string, reset: string, bold: string,
    tlc: char, li: char, tj: char, trc: char, vl: char, lj: char, cj: char, rj: char,
    blc: char, bj: char, brc: char)

  /** An ANSI select-graphic-rendition sequence: ESC, `[`, parameters, `m`. */
  predicate IsSgr(s: string)
  {
    |s| >= 3 && s[0] == '\U{1B}' && s[1] == '[' && s[|s| - 1] == 'm'
  }

  predicate IsBoxDrawing(c: char) { '\U{2500}' <= c <= '\U{257F}' }

  /** `__pretty_format__()`: ANSI colours and Unicode box-drawing characters. */
  function PrettyFormat(): (st: Style)
    ensures IsSgr(st.green) && IsSgr(st.red) && IsSgr(st.yellow) && IsSgr(st.blue) && IsSgr(st.reset) && IsSgr(st.bold)
    ensures st.green != st.red && st.green != st.reset && st.red != st.reset
    ensures IsBoxDrawing(st.tlc) && IsBoxDrawing(st.li) && IsBoxDrawing(st.tj) && IsBoxDrawing(st.trc)
    ensures IsBoxDrawing(st.vl) && IsBoxDrawing(st.lj) && IsBoxDrawing(st.cj) && IsBoxDrawing(st.rj)
    ensures IsBoxDrawing(st.blc) && IsBoxDrawing(st.bj) && IsBoxDrawing(st.brc)
  {
    Style(
      green := "\U{1B}[92m", red := "\U{1B}[91m", yellow := "\U{1B}[93m",
      blue := "\U{1B}[94m", reset := "\U{1B}[0m", bold := "\U{1B}[1m",
      tlc := '\U{250C}', li := '\U{2500}', tj := '\U{252C}', trc := '\U{2510}',  // ┌ ─ ┬ ┐
      vl := '\U{2502}', lj := '\U{251C}', cj := '\U{253C}', rj := '\U{2524}',    // │ ├ ┼ ┤
      blc := '\U{2514}', bj := '\U{2534}', brc := '\U{2518}')                    // └ ┴ ┘
  }

  /** `__simple_format__()`: no colour at all and ASCII `+`, `-`, `|` borders. */
  function SimpleFormat(): (st: Style)
    ensures st.green == st.red == st.yellow == st.blue == st.reset == st.bold == ""
    ensures st.li == '-' && st.vl == '|'
    ensures st.tlc == st.tj == st.trc == st.lj == st.cj == st.rj == st.blc == st.bj == st.brc == '+'
  {
    Style(
      green := "", red := "", yellow := "", blue := "", reset := "", bold := "",
      tlc := '+', li := '-', tj := '+', trc := '+', vl := '|', lj := '+', cj := '+', rj := '+',
      blc := '+', bj := '+', brc := '+')
  }

  function StyleFor(simple: bool): Style
  {
    if simple then SimpleFormat() else PrettyFormat()
  }

  const NoRepositories: string := "No Git repositories found."
  const DefaultMaxWidth: nat := 50

  /** `Path.name`: the last component, empty for a path without components. */
  function Name(p: Path): string
  {
    if |p| == 0 then "" else p[|p| - 1]
  }

  predicate HasPaths(rs: seq<Record>)
  {
    forall i :: 0 <= i < |rs| ==> rs[i].repo.Some?
  }

  function RepoName(r: Record): string
    requires r.repo.Some?
  {
    Name(r.repo.value)
  }

  // ---------------------------------------------------------------------
  // Column widths (git_overview.py:259-262)
  // ---------------------------------------------------------------------

  /** `max([len(x) for x in ss])`. */
  function MaxLen(ss: seq<string>): (m: nat)
    requires |ss| > 0
    ensures forall i :: 0 <= i < |ss| ==> |ss[i]| <= m
    ensures exists i :: 0 <= i < |ss| && |ss[i]| == m
    decreases |ss|
  {
    if |ss| == 1 then |ss[0]|
    else
      var m := MaxLen(ss[..|ss| - 1]);
      if |ss[|ss| - 1]| <= m then m else |ss[|ss| - 1]|
  }

  function RepoNames(rs: seq<Record>): (names: seq<string>)
    requires HasPaths(rs)
    ensures |names| == |rs| && forall i :: 0 <= i < |rs| ==> names[i] == RepoName(rs[i])
  {
    seq(|rs|, i requires 0 <= i < |rs| && HasPaths(rs) => RepoName(rs[i]))
  }

  function BranchList(rs: seq<Record>): (names: seq<string>)
    ensures |names| == |rs| && forall i :: 0 <= i < |rs| ==> names[i] == rs[i].branch
  {
    seq(|rs|, i requires 0 <= i < |rs| => rs[i].branch)
  }

  /**
   * `(path_width, branch_width)`: the longest repository name and the
   * longest branch name, each capped at `maxWidth`.
   */
  function ColumnWidths(rs: seq<Record>, maxWidth: nat): (w: (nat, nat))
    requires |rs| > 0 && HasPaths(rs)
    ensures w.0 <= maxWidth && w.1 <= maxWidth
    ensures forall i :: 0 <= i < |rs| ==> Min(|RepoName(rs[i])|, maxWidth) <= w.0 && Min(|rs[i].branch|, maxWidth) <= w.1
    ensures exists i :: 0 <= i < |rs| && w.0 == Min(|RepoName(rs[i])|, maxWidth)
    ensures exists i :: 0 <= i < |rs| && w.1 == Min(|rs[i].branch|, maxWidth)
  {
    var names, branches := RepoNames(rs), BranchList(rs);
    var pathWidth, branchWidth := Min(MaxLen(names), maxWidth), Min(MaxLen(branches), maxWidth);
    assert exists i :: 0 <= i < |rs| && pathWidth == Min(|RepoName(rs[i])|, maxWidth) by {
      var i :| 0 <= i < |names| && |names[i]| == MaxLen(names);
    }
    assert exists i :: 0 <= i < |rs| && branchWidth == Min(|rs[i].branch|, maxWidth) by {
      var i :| 0 <= i < |branches| && |branches[i]| == MaxLen(branches);
    }
    (pathWidth, branchWidth)
  }

  // ---------------------------------------------------------------------
  // Lines of the table
  // ---------------------------------------------------------------------

  /** A horizontal rule: `{left}{li*(pw+2)}{mid}{li*(bw+2)}{mid}{li*8}{mid}{li*8}{right}`. */
  function Rule(st: Style, left: char, mid: char, right: char, pw: nat, bw: nat): string
  {
    [left] + Fill(st.li, pw + 2) + [mid] + Fill(st.li, bw + 2) + [mid] + Fill(st.li, 8) + [mid] + Fill(st.li, 8) + [right]
  }

  function TitleLine(st: Style, pw: nat, bw: nat): string
  {
    [st.vl] + " " + PadRight("Repository", pw) + " "
      + [st.vl] + " " + PadRight("Branch", bw) + " "
      + [st.vl] + " " + PadRight("Ahead", 7)
      + [st.vl] + " " + PadRight("Behind", 7) + [st.vl]
  }

  /** The three lines of the header, written out in one call. */
  function HeaderLines(st: Style, pw: nat, bw: nat): seq<string>
  {
    [st.bold + Rule(st, st.tlc, st.tj, st.trc, pw, bw),
     TitleLine(st, pw, bw),
     Rule(st, st.lj, st.cj, st.rj, pw, bw) + st.reset]
  }

  function FooterLine(st: Style, pw: nat, bw: nat): string
  {
    st.bold + Rule(st, st.blc, st.bj, st.brc, pw, bw) + st.reset
  }

  /** The repository cell: the name truncated to `pw`, then padded to `pw`. */
  function RepoCell(name: string, pw: nat): string
  {
    PadRight(Take(name, pw), pw)
  }

  /** The branch cell: padded to `bw` but never truncated, in blue. */
  function BranchCell(st: Style, branch: string, bw: nat): string
  {
    st.blue + PadRight(branch, bw) + st.reset
  }

  /** A count right-aligned to 7, wrapped in `colour`...`reset` only when it is positive. */
  function CountCell(n: nat, colour: string, reset: string): string
  {
    var cell := PadLeft(Decimal(n), 7);
    if n > 0 then colour + cell + reset else cell
  }

  function Row(st: Style, pw: nat, bw: nat, r: Record): string
    requires r.repo.Some?
  {
    [st.vl] + " " + RepoCell(RepoName(r), pw) + " "
      + [st.vl] + " " + BranchCell(st, r.branch, bw) + " "
      + [st.vl] + CountCell(r.ahead, st.green, st.reset) + " "
      + [st.vl] + CountCell(r.behind, st.red, st.reset) + " " + [st.vl]
  }

  function Rows(st: Style, pw: nat, bw: nat, rs: seq<Record>): (lines: seq<string>)
    requires HasPaths(rs)
    ensures |lines| == |rs|
  {
    if rs == [] then [] else Rows(st, pw, bw, rs[..|rs| - 1]) + [Row(st, pw, bw, rs[|rs| - 1])]
  }

  lemma {:induction false} RowsAt(st: Style, pw: nat, bw: nat, rs: seq<Record>, i: nat)
    requires HasPaths(rs) && i < |rs|
    ensures Rows(st, pw, bw, rs)[i] == Row(st, pw, bw, rs[i])
    decreases |rs|
  {
    if i < |rs| - 1 {
      RowsAt(st, pw, bw, rs[..|rs| - 1], i);
    }
  }

  lemma RowsPrefix(st: Style, pw: nat, bw: nat, rs: seq<Record>, i: nat)
    requires HasPaths(rs) && i < |rs|
    ensures Rows(st, pw, bw, rs[..i + 1]) == Rows(st, pw, bw, rs[..i]) + [Row(st, pw, bw, rs[i])]
  {
    assert rs[..i + 1][..i] == rs[..i];
  }

  /** Everything `format_table(rs, maxWidth, simple)` prints, one string per line. */
  function TableLines(rs: seq<Record>, maxWidth: nat, simple: bool): seq<string>
    requires HasPaths(rs)
  {
    if rs == [] then [NoRepositories]
    else
      var st, w := StyleFor(simple), ColumnWidths(rs, maxWidth);
      Framed(HeaderLines(st, w.0, w.1), Rows(st, w.0, w.1, rs), FooterLine(st, w.0, w.1))
  }

  /**
   * The table is the one message for no records; otherwise three header
   * lines, one row per record in order, and the footer.
   */
  lemma {:induction false} TableLinesShape(rs: seq<Record>, maxWidth: nat, simple: bool)
    requires HasPaths(rs)
    ensures rs == [] ==> TableLines(rs, maxWidth, simple) == [NoRepositories]
    ensures rs != [] ==>
      var lines, st, w := TableLines(rs, maxWidth, simple), StyleFor(simple), ColumnWidths(rs, maxWidth);
      && |lines| == |rs| + 4
      && lines[..3] == HeaderLines(st, w.0, w.1)
      && (forall i :: 0 <= i < |rs| ==> lines[3 + i] == Row(st, w.0, w.1, rs[i]))
      && lines[|rs| + 3] == FooterLine(st, w.0, w.1)
  {
    if rs != [] {
      var st, w := StyleFor(simple), ColumnWidths(rs, maxWidth);
      forall i | 0 <= i < |rs| {
        RowsAt(st, w.0, w.1, rs, i);
      }
    }
  }

  /** Header, body and footer, one after another. */
  function Framed(header: seq<string>, body: seq<string>, footer: string): (lines: seq<string>)
    requires |header| == 3
    ensures |lines| == |body| + 4 && lines[..3] == header && lines[|body| + 3] == footer
    ensures forall i :: 0 <= i < |body| ==> lines[3 + i] == body[i]
  {
    header + body + [footer]
  }

  /** One iteration of the row loop of `format_table`. */
  method FormatRow(st: Style, pathWidth: nat, branchWidth: nat, status: Record) returns (row: string)
    requires status.repo.Some?
    ensures row == Row(st, pathWidth, branchWidth, status)
  {
    var ahead := PadLeft(Decimal(status.ahead), 7);
    var behind := PadLeft(Decimal(status.behind), 7);
    if status.ahead > 0 {
      ahead := st.green + ahead + st.reset;
    }
    if status.behind > 0 {
      behind := st.red + behind + st.reset;
    }
    var name := PadRight(Take(Name(status.repo.value), pathWidth), pathWidth);
    var branch := st.blue + PadRight(status.branch, branchWidth) + st.reset;
    row := [st.vl] + " " + name + " " + [st.vl] + " " + branch + " "
      + [st.vl] + ahead + " " + [st.vl] + behind + " " + [st.vl];
  }

  /** The row loop of `format_table`: one row per record, in order. */
  method FormatRows(st: Style, pathWidth: nat, branchWidth: nat, rs: seq<Record>) returns (body: seq<string>)
    requires HasPaths(rs)
    ensures body == Rows(st, pathWidth, branchWidth, rs)
  {
    body := [];
    for i := 0 to |rs|
      invariant body == Rows(st, pathWidth, branchWidth, rs[..i])
    {
      var status := rs[i];
      RowsPrefix(st, pathWidth, branchWidth, rs, i);
      var row := FormatRow(st, pathWidth, branchWidth, status);
      body := body + [row];
    }
    assert rs[..|rs|] == rs;
  }

  /** `format_table(repos_status, max_width, simple)`, printing into `lines`. */
  method FormatTable(rs: seq<Record>, maxWidth: nat, simple: bool) returns (lines: seq<string>)
    requires HasPaths(rs)
    ensures lines == TableLines(rs, maxWidth, simple)
  {
    if rs == [] {
      lines := [NoRepositories];
      return;
    }
    var st := StyleFor(simple);
    var widths := ColumnWidths(rs, maxWidth);
    var pathWidth, branchWidth := widths.0, widths.1;
    var header := HeaderLines(st, pathWidth, branchWidth);
    var body := FormatRows(st, pathWidth, branchWidth, rs);
    lines := Framed(header, body, FooterLine(st, pathWidth, branchWidth));
  }

  // ---------------------------------------------------------------------
  // Properties of the table
  // ---------------------------------------------------------------------

  /** The repository cell is exactly `pw` wide: the name (cut at `pw`) then blanks. */
  lemma RepoCellShape(name: string, pw: nat)
    ensures var cell, k := RepoCell(name, pw), Min(|name|, pw);
      && |cell| == pw
      && cell[..k] == name[..k]
      && (forall i :: k <= i < pw ==> cell[i] == ' ')
  {
  }

  /**
   * The branch cell is the blue code, the whole branch name padded with
   * blanks but never cut, and the reset code.
   */
  lemma BranchCellShape(st: Style, branch: string, bw: nat)
    ensures var cell, b, w := BranchCell(st, branch, bw), |st.blue|, Max(|branch|, bw);
      && |cell| == b + w + |st.reset|
      && cell[..b] == st.blue
      && cell[b..b + |branch|] == branch
      && (forall i :: b + |branch| <= i < b + w ==> cell[i] == ' ')
      && cell[b + w..] == st.reset
  {
    var cell, b, padded := BranchCell(st, branch, bw), |st.blue|, PadRight(branch, bw);
    assert cell[b..b + |branch|] == padded[..|branch|];
    forall i | b + |branch| <= i < b + |padded| ensures cell[i] == ' ' {
      assert cell[i] == padded[i - b];
    }
  }

  /**
   * A count cell is coloured exactly when the count is positive, and the
   * number it shows, stripped of its padding, reads back as the count.
   */
  lemma {:induction false} CountCellMeaning(n: nat, colour: string, reset: string)
    ensures var plain := PadLeft(Decimal(n), 7);
      && (n > 0 ==> CountCell(n, colour, reset) == colour + plain + reset)
      && (n == 0 ==> CountCell(n, colour, reset) == "      0")
      && ParseDecimal(LStrip(plain)) == Some(n)
  {
    var digits := Decimal(n);
    var plain := PadLeft(digits, 7);
    var k := |plain| - |digits|;
    assert plain[k..] == digits;
    assert forall i :: k <= i < |plain| ==> plain[i] == digits[i - k];
    LStripAfterSpaces(plain, k);
    DecimalRoundTrip(n);
    if n == 0 {
      assert digits == "0";
      assert plain == "      0";
    }
  }

  /** In the simple style a record's row has the same length as the rules. */
  lemma {:induction false} SimpleRowLength(pw: nat, bw: nat, r: Record)
    requires r.repo.Some? && |r.branch| <= bw
    requires r.ahead < Pow10(7) && r.behind < Pow10(7)
    ensures |Row(SimpleFormat(), pw, bw, r)| == pw + bw + 25
  {
    DecimalLength(r.ahead, 7);
    DecimalLength(r.behind, 7);
  }

  /** In the simple style the header and footer lines have the length of the rules. */
  lemma SimpleFrameLength(pw: nat, bw: nat)
    requires pw >= |"Repository"| && bw >= |"Branch"|
    ensures forall i :: 0 <= i < 3 ==> |HeaderLines(SimpleFormat(), pw, bw)[i]| == pw + bw + 25
    ensures |FooterLine(SimpleFormat(), pw, bw)| == pw + bw + 25
  {
  }

  /**
   * The simple table is aligned: every line has the width of the rules,
   * provided the column titles fit their columns, no branch is wider than
   * its column and every count has at most seven digits.
   */
  lemma {:induction false} SimpleTableAligned(rs: seq<Record>, maxWidth: nat)
    requires HasPaths(rs) && |rs| > 0
    requires ColumnWidths(rs, maxWidth).0 >= |"Repository"| && ColumnWidths(rs, maxWidth).1 >= |"Branch"|
    requires forall i :: 0 <= i < |rs| ==> |rs[i].branch| <= maxWidth
    requires forall i :: 0 <= i < |rs| ==> rs[i].ahead < Pow10(7) && rs[i].behind < Pow10(7)
    ensures var lines, w := TableLines(rs, maxWidth, true), ColumnWidths(rs, maxWidth);
      forall i :: 0 <= i < |lines| ==> |lines[i]| == w.0 + w.1 + 25
  {
    var w := ColumnWidths(rs, maxWidth);
    var st := SimpleFormat();
    SimpleFrameLength(w.0, w.1);
    SimpleRowsLength(w.0, w.1, rs);
    FramedLength(HeaderLines(st, w.0, w.1), Rows(st, w.0, w.1, rs), FooterLine(st, w.0, w.1), w.0 + w.1 + 25);
  }

  lemma {:induction false} SimpleRowsLength(pw: nat, bw: nat, rs: seq<Record>)
    requires HasPaths(rs)
    requires forall i :: 0 <= i < |rs| ==> |rs[i].branch| <= bw
    requires forall i :: 0 <= i < |rs| ==> rs[i].ahead < Pow10(7) && rs[i].behind < Pow10(7)
    ensures forall i :: 0 <= i < |rs| ==> |Rows(SimpleFormat(), pw, bw, rs)[i]| == pw + bw + 25
  {
    forall i | 0 <= i < |rs|
      ensures |Rows(SimpleFormat(), pw, bw, rs)[i]| == pw + bw + 25
    {
      RowsAt(SimpleFormat(), pw, bw, rs, i);
      SimpleRowLength(pw, bw, rs[i]);
    }
  }

  lemma FramedLength(header: seq<string>, body: seq<string>, footer: string, n: nat)
    requires |header| == 3
    requires forall i :: 0 <= i < 3 ==> |header[i]| == n
    requires forall i :: 0 <= i < |body| ==> |body[i]| == n
    requires |footer| == n
    ensures var lines := Framed(header, body, footer); forall i :: 0 <= i < |lines| ==> |lines[i]| == n
  {
  }

  /**
   * The column widths ignore the column titles: when every repository
   * name is shorter than `Repository`, the title line of the simple table
   * is wider than its rules.
   */
  lemma TitleOverhangsShortNames(rs: seq<Record>, maxWidth: nat)
    requires HasPaths(rs) && |rs| > 0
    requires ColumnWidths(rs, maxWidth).0 < |"Repository"|
    ensures var w := ColumnWidths(rs, maxWidth);
      |TitleLine(SimpleFormat(), w.0, w.1)| > |Rule(SimpleFormat(), '+', '+', '+', w.0, w.1)|
  {
  }

  // ---------------------------------------------------------------------
  // Choice of output (git_overview.py:376-382)
  // ---------------------------------------------------------------------

  datatype OutputFormat = Pretty | Simple | Csv

  datatype Output = TableOutput(lines: seq<string>) | CsvOutput(rows: seq<seq<string>>)

  /**
   * The output `main` produces for `--format`: the coloured table only
   * when standard output is a terminal, the simple table otherwise, and
   * CSV when asked for.
   */
  function Render(format: OutputFormat, isTty: bool, rs: seq<Record>): (out: Output)
    requires HasPaths(rs)
    ensures format == Csv <==> out.CsvOutput?
    ensures out.TableOutput? ==> out.lines == TableLines(rs, DefaultMaxWidth, !(isTty && format == Pretty))
    ensures out.CsvOutput? ==> out.rows == CsvRows(rs)
  {
    if isTty && format == Pretty then TableOutput(TableLines(rs, DefaultMaxWidth, false))
    else if format == Csv then CsvOutput(CsvRows(rs))
    else TableOutput(TableLines(rs, DefaultMaxWidth, true))
  }

  const Esc: char := '\U{1B}'

  /** A string without the escape character that starts every ANSI sequence. */
  predicate EscapeFree(s: string)
  {
    Esc !in s
  }

  lemma PaddingEscapeFree(s: string, w: nat)
    requires EscapeFree(s)
    ensures EscapeFree(PadRight(s, w)) && EscapeFree(PadLeft(s, w)) && EscapeFree(Take(s, w))
  {
    var right, left := PadRight(s, w), PadLeft(s, w);
    forall i | 0 <= i < |right|
      ensures right[i] != Esc
    {
      if i < |s| {
        assert right[i] == right[..|s|][i];
      }
    }
    forall i | 0 <= i < |left|
      ensures left[i] != Esc
    {
      if i >= |left| - |s| {
        assert left[i] == left[|left| - |s|..][i - (|left| - |s|)];
      }
    }
  }

  /** A style with no colour codes and an escape-free border character. */
  predicate Plain(st: Style)
  {
    st.green == st.red == st.blue == st.reset == st.bold == "" && st.vl != Esc && st.li != Esc
    && st.tlc != Esc && st.tj != Esc && st.trc != Esc && st.lj != Esc && st.cj != Esc && st.rj != Esc
    && st.blc != Esc && st.bj != Esc && st.brc != Esc
  }

  lemma {:induction false} PlainRowEscapeFree(st: Style, pw: nat, bw: nat, r: Record)
    requires Plain(st)
    requires r.repo.Some? && EscapeFree(RepoName(r)) && EscapeFree(r.branch)
    ensures EscapeFree(Row(st, pw, bw, r))
  {
    RepoCellEscapeFree(RepoName(r), pw);
    BranchCellEscapeFree(st, r.branch, bw);
    CountCellEscapeFree(r.ahead, st.green, st.reset);
    CountCellEscapeFree(r.behind, st.red, st.reset);
  }

  lemma {:induction false} RepoCellEscapeFree(name: string, pw: nat)
    requires EscapeFree(name)
    ensures EscapeFree(RepoCell(name, pw))
  {
    PaddingEscapeFree(name, pw);
    PaddingEscapeFree(Take(name, pw), pw);
  }

  lemma {:induction false} BranchCellEscapeFree(st: Style, branch: string, bw: nat)
    requires EscapeFree(st.blue) && EscapeFree(st.reset) && EscapeFree(branch)
    ensures EscapeFree(BranchCell(st, branch, bw))
  {
    PaddingEscapeFree(branch, bw);
  }

  lemma {:induction false} CountCellEscapeFree(n: nat, colour: string, reset: string)
    requires EscapeFree(colour) && EscapeFree(reset)
    ensures EscapeFree(CountCell(n, colour, reset))
  {
    DigitsEscapeFree(n);
    PaddingEscapeFree(Decimal(n), 7);
  }

  lemma DigitsEscapeFree(n: nat)
    ensures EscapeFree(Decimal(n))
  {
    var d := Decimal(n);
    assert forall i :: 0 <= i < |d| ==> d[i] != Esc;
  }

  /**
   * Output that is not a terminal carries no ANSI escape sequence, as long
   * as no repository or branch name contains the escape character.
   */
  lemma {:induction false} NoColourOffTerminal(format: OutputFormat, rs: seq<Record>)
    requires HasPaths(rs)
    requires forall i :: 0 <= i < |rs| ==> EscapeFree(RepoName(rs[i])) && EscapeFree(rs[i].branch)
    ensures var out := Render(format, false, rs);
      out.TableOutput? ==> forall i :: 0 <= i < |out.lines| ==> EscapeFree(out.lines[i])
  {
    var lines := TableLines(rs, DefaultMaxWidth, true);
    if rs != [] {
      var w := ColumnWidths(rs, DefaultMaxWidth);
      PlainFrameEscapeFree(SimpleFormat(), w.0, w.1);
      forall i | 0 <= i < |rs|
        ensures EscapeFree(Rows(SimpleFormat(), w.0, w.1, rs)[i])
      {
        RowsAt(SimpleFormat(), w.0, w.1, rs, i);
        PlainRowEscapeFree(SimpleFormat(), w.0, w.1, rs[i]);
      }
      FramedEscapeFree(HeaderLines(SimpleFormat(), w.0, w.1), Rows(SimpleFormat(), w.0, w.1, rs), FooterLine(SimpleFormat(), w.0, w.1));
    }
  }

  lemma {:induction false} PlainFrameEscapeFree(st: Style, pw: nat, bw: nat)
    requires Plain(st)
    ensures forall i :: 0 <= i < 3 ==> EscapeFree(HeaderLines(st, pw, bw)[i])
    ensures EscapeFree(FooterLine(st, pw, bw))
  {
    TitleEscapeFree(st, pw, bw);
    RuleEscapeFree(st, st.tlc, st.tj, st.trc, pw, bw);
    RuleEscapeFree(st, st.lj, st.cj, st.rj, pw, bw);
    RuleEscapeFree(st, st.blc, st.bj, st.brc, pw, bw);
  }

  lemma {:induction false} TitleEscapeFree(st: Style, pw: nat, bw: nat)
    requires Plain(st)
    ensures EscapeFree(TitleLine(st, pw, bw))
  {
    TitlesEscapeFree();
    PaddingEscapeFree("Repository", pw);
    PaddingEscapeFree("Branch", bw);
    PaddingEscapeFree("Ahead", 7);
    PaddingEscapeFree("Behind", 7);
  }

  lemma {:induction false} RuleEscapeFree(st: Style, left: char, mid: char, right: char, pw: nat, bw: nat)
    requires st.li != Esc && left != Esc && mid != Esc && right != Esc
    ensures EscapeFree(Rule(st, left, mid, right, pw, bw))
  {
    FillEscapeFree(st.li, pw + 2);
    FillEscapeFree(st.li, bw + 2);
    FillEscapeFree(st.li, 8);
  }

  lemma TitlesEscapeFree()
    ensures EscapeFree("Repository") && EscapeFree("Branch") && EscapeFree("Ahead") && EscapeFree("Behind")
  {
  }

  lemma FillEscapeFree(c: char, n: nat)
    requires c != Esc
    ensures EscapeFree(Fill(c, n))
  {
    var f := Fill(c, n);
    assert forall i :: 0 <= i < n ==> f[i] != Esc;
  }

  lemma FramedEscapeFree(header: seq<string>, body: seq<string>, footer: string)
    requires |header| == 3
    requires forall i :: 0 <= i < 3 ==> EscapeFree(header[i])
    requires forall i :: 0 <= i < |body| ==> EscapeFree(body[i])
    requires EscapeFree(footer)
    ensures var lines := Framed(header, body, footer); forall i :: 0 <= i < |lines| ==> EscapeFree(lines[i])
  {
  }

  // ---------------------------------------------------------------------
  // CSV (git_overview.py:300-309)
  // ---------------------------------------------------------------------

  const CsvHeader: seq<string> := ["repository", "branch", "ahead", "behind"]

  /** The fields of one CSV row: the directory name, not the full path. */
  function CsvFields(r: Record): seq<string>
    requires r.repo.Some?
  {
    [RepoName(r), r.branch, Decimal(r.ahead), Decimal(r.behind)]
  }

  /** The data rows, one per record in order. */
  function CsvBody(rs: seq<Record>): (rows: seq<seq<string>>)
    requires HasPaths(rs)
    ensures |rows| == |rs|
    decreases |rs|
  {
    if rs == [] then [] else CsvBody(rs[..|rs| - 1]) + [CsvFields(rs[|rs| - 1])]
  }

  lemma {:induction false} CsvBodyAt(rs: seq<Record>, i: nat)
    requires HasPaths(rs) && i < |rs|
    ensures CsvBody(rs)[i] == CsvFields(rs[i])
    decreases |rs|
  {
    if i < |rs| - 1 {
      CsvBodyAt(rs[..|rs| - 1], i);
    }
  }

  lemma CsvBodyPrefix(rs: seq<Record>, i: nat)
    requires HasPaths(rs) && i < |rs|
    ensures CsvBody(rs[..i + 1]) == CsvBody(rs[..i]) + [CsvFields(rs[i])]
  {
    assert rs[..i + 1][..i] == rs[..i];
  }

  /** The rows `format_csv` writes: none for no records, else the header and one row per record. */
  function CsvRows(rs: seq<Record>): (rows: seq<seq<string>>)
    requires HasPaths(rs)
    ensures rs == [] ==> rows == []
    ensures rs != [] ==>
      && |rows| == |rs| + 1 && rows[0] == CsvHeader
      && forall i :: 0 <= i < |rs| ==> rows[i + 1] == CsvFields(rs[i])
  {
    if rs == [] then []
    else
      var body := CsvBody(rs);
      assert forall i :: 0 <= i < |rs| ==> body[i] == CsvFields(rs[i]) by {
        forall i | 0 <= i < |rs| {
          CsvBodyAt(rs, i);
        }
      }
      [CsvHeader] + body
  }

  /** `format_csv(repos_status)`, writing rows into `rows`. */
  method FormatCsv(rs: seq<Record>) returns (rows: seq<seq<string>>)
    requires HasPaths(rs)
    ensures rows == CsvRows(rs)
  {
    rows := [];
    if rs != [] {
      rows := [CsvHeader];
      for i := 0 to |rs|
        invariant rows == [CsvHeader] + CsvBody(rs[..i])
      {
        var status := rs[i];
        CsvBodyPrefix(rs, i);
        rows := rows + [[Name(status.repo.value), status.branch, Decimal(status.ahead), Decimal(status.behind)]];
      }
      assert rs[..|rs|] == rs;
    }
  }

  /** What a reader of the CSV output learns about one record. */
  datatype Summary = Summary(name: string, branch: string, ahead: nat, behind: nat)

  function Summaries(rs: seq<Record>): (ss: seq<Summary>)
    requires HasPaths(rs)
    ensures |ss| == |rs|
    ensures forall i :: 0 <= i < |rs| ==> ss[i] == Summary(RepoName(rs[i]), rs[i].branch, rs[i].ahead, rs[i].behind)
  {
    seq(|rs|, i requires 0 <= i < |rs| && HasPaths(rs) => Summary(RepoName(rs[i]), rs[i].branch, rs[i].ahead, rs[i].behind))
  }

  /** Reads one data row back: four fields, the last two decimal numbers. */
  function ParseCsvRow(fields: seq<string>): Option<Summary>
  {
    if |fields| != 4 then None
    else match (ParseDecimal(fields[2]), ParseDecimal(fields[3]))
      case (Some(ahead), Some(behind)) => Some(Summary(fields[0], fields[1], ahead, behind))
      case _ => None
  }

  function ParseCsvBody(rows: seq<seq<string>>): Option<seq<Summary>>
    decreases |rows|
  {
    if rows == [] then Some([])
    else match (ParseCsvBody(rows[..|rows| - 1]), ParseCsvRow(rows[|rows| - 1]))
      case (Some(init), Some(last)) => Some(init + [last])
      case _ => None
  }

  /** Reads CSV rows back: nothing at all, or the header followed by data rows. */
  function ParseCsv(rows: seq<seq<string>>): Option<seq<Summary>>
  {
    if rows == [] then Some([])
    else if rows[0] != CsvHeader then None
    else ParseCsvBody(rows[1..])
  }

  /** Every record's name, branch and both counts survive the CSV output. */
  lemma {:induction false} CsvRoundTrip(rs: seq<Record>)
    requires HasPaths(rs)
    ensures ParseCsv(CsvRows(rs)) == Some(Summaries(rs))
  {
    if rs != [] {
      CsvBodyRoundTrip(rs);
      assert CsvRows(rs)[1..] == CsvBody(rs);
    }
  }

  lemma {:induction false} CsvBodyRoundTrip(rs: seq<Record>)
    requires HasPaths(rs)
    ensures ParseCsvBody(CsvBody(rs)) == Some(Summaries(rs))
    decreases |rs|
  {
    if rs != [] {
      var init, last := rs[..|rs| - 1], rs[|rs| - 1];
      CsvBodyRoundTrip(init);
      var body := CsvBody(rs);
      assert body[..|body| - 1] == CsvBody(init);
      CsvFieldsRoundTrip(last);
      assert Summaries(rs) == Summaries(init) + [Summaries(rs)[|rs| - 1]];
    }
  }

  lemma CsvFieldsRoundTrip(r: Record)
    requires r.repo.Some?
    ensures ParseCsvRow(CsvFields(r)) == Some(Summary(RepoName(r), r.branch, r.ahead, r.behind))
  {
    DecimalRoundTrip(r.ahead);
    DecimalRoundTrip(r.behind);
  }

  /** The characters that make `csv.writer` quote a field. */
  predicate NeedsQuoting(field: string)
  {
    exists i :: 0 <= i < |field| && field[i] in {',', '"', '\r', '\n'}
  }

  /** The text lines of the CSV output, for fields `csv.writer` writes unquoted. */
  function CsvText(rs: seq<Record>): (lines: seq<string>)
    requires HasPaths(rs)
    ensures |lines| == |CsvRows(rs)|
    ensures forall i :: 0 <= i < |lines| ==> lines[i] == Join(CsvRows(rs)[i], ',')
  {
    var rows := CsvRows(rs);
    seq(|rows|, i requires 0 <= i < |rows| => Join(rows[i], ','))
  }

  function SplitLines(lines: seq<string>): (rows: seq<seq<string>>)
    ensures |rows| == |lines|
    ensures forall i :: 0 <= i < |lines| ==> rows[i] == Split(lines[i], ',')
  {
    seq(|lines|, i requires 0 <= i < |lines| => Split(lines[i], ','))
  }

  /**
   * When no repository or branch name needs quoting, splitting the CSV
   * text at commas gives back every record's name, branch and counts.
   */
  lemma {:induction false} CsvTextRoundTrip(rs: seq<Record>)
    requires HasPaths(rs)
    requires forall i :: 0 <= i < |rs| ==> !NeedsQuoting(RepoName(rs[i])) && !NeedsQuoting(rs[i].branch)
    ensures ParseCsv(SplitLines(CsvText(rs))) == Some(Summaries(rs))
  {
    var rows := CsvRows(rs);
    var text := CsvText(rs);
    forall i | 0 <= i < |rows|
      ensures SplitLines(text)[i] == rows[i]
    {
      forall j | 0 <= j < |rows[i]|
        ensures ',' !in rows[i][j]
      {
        if i > 0 {
          var r := rs[i - 1];
          assert rows[i] == CsvFields(r);
          if j == 0 {
            assert !NeedsQuoting(RepoName(r));
          } else if j == 1 {
            assert !NeedsQuoting(r.branch);
          }
        }
      }
      SplitJoin(rows[i], ',');
    }
    assert SplitLines(text) == rows;
    CsvRoundTrip(rs);
  }
}
