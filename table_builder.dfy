/** Tables (src/builders/table-builder.js). */
module TableBuilder {
  import opened Strings
  import opened Element

  /** `split('|').slice(1, -1).map(trim)`: the text between the first and the
      last pipe, cut at every pipe, each cell trimmed. */
  function Cells(row: string): seq<string> {
    SplitExcludes(row, '|');
    CellsOf(Split(row, '|'))
  }

  /** The cells of a row already cut at its pipes: all pieces but the first
      and the last, trimmed. */
  function CellsOf(pieces: seq<string>): seq<string>
    requires forall j :: 0 <= j < |pieces| ==> Excludes(pieces[j], '|')
  {
    if |pieces| < 2 then []
    else seq(|pieces| - 2, j requires 0 <= j < |pieces| - 2 => TrimWithout(pieces[j + 1], '|'))
  }

  /** A row gives one cell fewer than it has pipes, each trimmed and free of pipes. */
  lemma CellsMeans(row: string)
    ensures var r := Cells(row);
      |r| == (if multiset(row)['|'] == 0 then 0 else multiset(row)['|'] - 1) &&
      forall j :: 0 <= j < |r| ==> NoSpaceAtEnds(r[j]) && Excludes(r[j], '|')
  {
    SplitCount(row, '|');
    SplitExcludes(row, '|');
  }

  /** `trim` on a piece that holds no `c` gives a cell that holds none either. */
  function TrimWithout(s: string, c: char): (r: string)
    requires Excludes(s, c)
    ensures r == Trim(s) && NoSpaceAtEnds(r) && Excludes(r, c)
  {
    var r := Trim(s);
    var i, j :| 0 <= i <= j <= |s| && r == s[i..j];
    assert forall k :: 0 <= k < |r| ==> r[k] == s[i + k];
    r
  }

  /** The header line, the alignment line and every further line, each cut into
      cells; rows may have any number of cells. A table of fewer than two lines
      is not accepted: destructuring leaves the alignment line undefined and
      `split` throws. */
  function Parse(lines: seq<string>): (t: TableContent)
    requires |lines| >= 2
    ensures t.headers == Cells(lines[0]) && t.aligns == Cells(lines[1])
    ensures |t.rows| == |lines| - 2 && forall j :: 0 <= j < |t.rows| ==> t.rows[j] == Cells(lines[j + 2])
  {
    TableContent(Cells(lines[0]), Cells(lines[1]), seq(|lines| - 2, j requires 0 <= j < |lines| - 2 => Cells(lines[j + 2])))
  }

  /** `| a | b |` */
  function Row(cells: seq<string>): string {
    "| " + Join(cells, " | ") + " |"
  }

  function Rows(rows: seq<seq<string>>): (r: seq<string>)
    ensures |r| == |rows| && forall j :: 0 <= j < |rows| ==> r[j] == Row(rows[j])
  {
    seq(|rows|, j requires 0 <= j < |rows| => Row(rows[j]))
  }

  /** Header line, alignment line, then the rows, one per line; a table with no
      rows still ends with the line break after the alignment line. */
  function Build(t: TableContent): (r: string)
    ensures t.rows == [] ==> r == Row(t.headers) + "\n" + Row(t.aligns) + "\n"
  {
    Row(t.headers) + "\n" + Row(t.aligns) + "\n" + Join(Rows(t.rows), "\n")
  }

  /** A cell that the builder writes and the parser reads back unchanged. */
  predicate CleanCell(c: string) {
    NoSpaceAtEnds(c) && Excludes(c, '|') && NoLineTerminator(c)
  }

  predicate CleanRow(cells: seq<string>) {
    cells != [] && forall j :: 0 <= j < |cells| ==> CleanCell(cells[j])
  }

  /** Each cell with a space on both sides. */
  function Padded(cells: seq<string>): (r: seq<string>)
    ensures |r| == |cells| && forall j :: 0 <= j < |cells| ==> r[j] == " " + cells[j] + " "
  {
    seq(|cells|, j requires 0 <= j < |cells| => " " + cells[j] + " ")
  }

  lemma {:induction false} PaddedJoin(cells: seq<string>)
    requires cells != []
    ensures " " + Join(cells, " | ") + " " == Join(Padded(cells), "|")
    decreases |cells|
  {
    if |cells| > 1 {
      PaddedJoin(cells[1..]);
      assert Padded(cells)[1..] == Padded(cells[1..]);
    }
  }

  /** A row is the padded cells joined by pipes between two outer empty pieces. */
  lemma RowAsJoin(cells: seq<string>)
    requires cells != []
    ensures Row(cells) == Join([""] + Padded(cells) + [""], "|")
  {
    var p := Padded(cells);
    PaddedJoin(cells);
    JoinSnoc([""] + p, "", "|");
    assert ([""] + p)[1..] == p;
    assert Row(cells) == "|" + (" " + Join(cells, " | ") + " ") + "|";
  }

  lemma PartsExclude(cells: seq<string>)
    requires CleanRow(cells)
    ensures var parts := [""] + Padded(cells) + [""];
      forall j :: 0 <= j < |parts| ==> Excludes(parts[j], '|')
  {
    var parts := [""] + Padded(cells) + [""];
    forall j | 0 <= j < |parts| ensures Excludes(parts[j], '|') {
      if 0 < j < |parts| - 1 {
        assert parts[j] == " " + cells[j - 1] + " ";
        assert CleanCell(cells[j - 1]);
      }
    }
  }

  lemma PaddedCell(c: string)
    requires CleanCell(c) && Excludes(" " + c + " ", '|')
    ensures TrimWithout(" " + c + " ", '|') == c
  {
    TrimPadded(" ", c, " ");
  }

  lemma CellsOfParts(cells: seq<string>)
    requires CleanRow(cells)
    requires forall j :: 0 <= j < |[""] + Padded(cells) + [""]| ==> Excludes(([""] + Padded(cells) + [""])[j], '|')
    ensures CellsOf([""] + Padded(cells) + [""]) == cells
  {
    var parts := [""] + Padded(cells) + [""];
    var r := CellsOf(parts);
    assert |r| == |cells|;
    forall j | 0 <= j < |cells| ensures r[j] == cells[j] {
      assert parts[j + 1] == " " + cells[j] + " ";
      assert r[j] == TrimWithout(parts[j + 1], '|');
      PaddedCell(cells[j]);
    }
  }

  lemma RowCells(cells: seq<string>)
    requires CleanRow(cells)
    ensures Cells(Row(cells)) == cells
  {
    var parts := [""] + Padded(cells) + [""];
    RowAsJoin(cells);
    PartsExclude(cells);
    SplitJoin(parts, '|');
    CellsOfParts(cells);
  }

  lemma RowOneLine(cells: seq<string>)
    requires CleanRow(cells)
    ensures Excludes(Row(cells), '\n')
  {
    forall j | 0 <= j < |cells| ensures Excludes(cells[j], '\n') {
      assert CleanCell(cells[j]);
    }
    var body := Join(cells, " | ");
    JoinExcludes(cells, " | ", '\n');
    assert Row(cells) == "| " + body + " |";
    forall k | 0 <= k < |Row(cells)| ensures Row(cells)[k] != '\n' {
      if 2 <= k < 2 + |body| {
        assert Row(cells)[k] == body[k - 2];
      }
    }
  }

  lemma {:induction false} JoinExcludes(parts: seq<string>, sep: string, c: char)
    requires Excludes(sep, c) && forall j :: 0 <= j < |parts| ==> Excludes(parts[j], c)
    ensures Excludes(Join(parts, sep), c)
    decreases |parts|
  {
    if |parts| > 1 {
      JoinExcludes(parts[1..], sep, c);
    }
  }

  /** The output of `build` is its lines joined by line feeds. */
  lemma BuildLines(t: TableContent)
    requires t.rows != []
    ensures Build(t) == Join([Row(t.headers), Row(t.aligns)] + Rows(t.rows), "\n")
  {
    var rs := Rows(t.rows);
    var lines := [Row(t.headers), Row(t.aligns)] + rs;
    assert lines[1..][1..] == rs;
    assert Join(lines[1..], "\n") == Row(t.aligns) + "\n" + Join(rs, "\n");
    assert Join(lines, "\n") == Row(t.headers) + "\n" + Join(lines[1..], "\n");
  }

  /** Every written row is one line that reads back as its cells. */
  lemma RowsRead(rows: seq<seq<string>>)
    requires forall j :: 0 <= j < |rows| ==> CleanRow(rows[j])
    ensures forall j :: 0 <= j < |rows| ==> Cells(Rows(rows)[j]) == rows[j] && Excludes(Rows(rows)[j], '\n')
  {
    forall j | 0 <= j < |rows| ensures Cells(Rows(rows)[j]) == rows[j] && Excludes(Rows(rows)[j], '\n') {
      RowCells(rows[j]);
      RowOneLine(rows[j]);
    }
  }

  /** The lines of a table with rows, as `split` recovers them. */
  lemma BuildSplits(t: TableContent)
    requires CleanRow(t.headers) && CleanRow(t.aligns)
    requires t.rows != [] && forall j :: 0 <= j < |t.rows| ==> CleanRow(t.rows[j])
    ensures Split(Build(t), '\n') == [Row(t.headers), Row(t.aligns)] + Rows(t.rows)
  {
    var rs := Rows(t.rows);
    var lines := [Row(t.headers), Row(t.aligns)] + rs;
    BuildLines(t);
    RowOneLine(t.headers);
    RowOneLine(t.aligns);
    RowsRead(t.rows);
    forall j | 0 <= j < |lines| ensures Excludes(lines[j], '\n') {
      if j >= 2 { assert lines[j] == rs[j - 2]; }
    }
    SplitJoin(lines, '\n');
  }

  /** Those lines read back as the table. */
  lemma ParseRows(t: TableContent)
    requires CleanRow(t.headers) && CleanRow(t.aligns)
    requires forall j :: 0 <= j < |t.rows| ==> CleanRow(t.rows[j])
    ensures Parse([Row(t.headers), Row(t.aligns)] + Rows(t.rows)) == t
  {
    var lines := [Row(t.headers), Row(t.aligns)] + Rows(t.rows);
    ParseHead(lines, t.headers, t.aligns);
    ParseBody(lines, t.rows);
  }

  lemma ParseHead(lines: seq<string>, headers: seq<string>, aligns: seq<string>)
    requires |lines| >= 2 && lines[0] == Row(headers) && lines[1] == Row(aligns)
    requires CleanRow(headers) && CleanRow(aligns)
    ensures Parse(lines).headers == headers && Parse(lines).aligns == aligns
  {
    RowCells(headers);
    RowCells(aligns);
  }

  lemma ParseBody(lines: seq<string>, rows: seq<seq<string>>)
    requires |lines| >= 2 && lines[2..] == Rows(rows)
    requires forall j :: 0 <= j < |rows| ==> CleanRow(rows[j])
    ensures Parse(lines).rows == rows
  {
    var p := Parse(lines);
    forall j | 0 <= j < |rows| ensures p.rows[j] == rows[j] {
      assert lines[j + 2] == lines[2..][j] == Row(rows[j]);
      RowCells(rows[j]);
    }
  }


  /** A table with at least one row, no empty row and only clean cells survives
      `build`, a split into lines, and `parse`. */
  lemma RoundTrip(t: TableContent)
    requires CleanRow(t.headers) && CleanRow(t.aligns)
    requires t.rows != [] && forall j :: 0 <= j < |t.rows| ==> CleanRow(t.rows[j])
    ensures |Split(Build(t), '\n')| >= 2 && Parse(Split(Build(t), '\n')) == t
  {
    BuildSplits(t);
    ParseRows(t);
  }

  /** Without rows the trailing line break reads back as a row with no cells. */
  lemma EmptyBodyGainsRow(t: TableContent)
    requires CleanRow(t.headers) && CleanRow(t.aligns) && t.rows == []
    ensures |Split(Build(t), '\n')| >= 2
    ensures Parse(Split(Build(t), '\n')) == TableContent(t.headers, t.aligns, [[]])
  {
    EmptyBuildSplits(t);
    RowCells(t.headers);
    RowCells(t.aligns);
    assert Split("", '|') == [""];
  }

  /** Without rows, `split` finds an empty last line. */
  lemma EmptyBuildSplits(t: TableContent)
    requires CleanRow(t.headers) && CleanRow(t.aligns) && t.rows == []
    ensures Split(Build(t), '\n') == [Row(t.headers), Row(t.aligns), ""]
  {
    var lines := [Row(t.headers), Row(t.aligns), ""];
    RowOneLine(t.headers);
    RowOneLine(t.aligns);
    assert lines[1..][1..] == [""];
    assert Join(lines[1..], "\n") == Row(t.aligns) + "\n" + "";
    assert Build(t) == Join(lines, "\n");
    SplitJoin(lines, '\n');
  }
}
