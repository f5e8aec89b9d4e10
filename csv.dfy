/** The CSV text of a snapshot and its parsed form: the part of pandas'
    `read_csv` / `to_csv(index=False)` the pipeline relies on. A line is
    split on ',' into cells, blank lines are skipped, a short row is padded
    with empty cells, and an empty cell is what pandas reads as NaN and
    writes back as nothing. */
module Csv {
  import opened Wrappers
  import Text

  /** A parsed snapshot: the header's column names and the data rows. */
  datatype Table = Table(columns: seq<string>, rows: seq<seq<string>>)

  /** Text that fits in one CSV field without quoting. */
  predicate IsCell(s: string)
  {
    ',' !in s && '\n' !in s
  }

  predicate AllCells(cells: seq<string>)
  {
    forall i :: 0 <= i < |cells| ==> IsCell(cells[i])
  }

  predicate Distinct(names: seq<string>)
  {
    forall i, j :: 0 <= i < j < |names| ==> names[i] != names[j]
  }

  /** A line that is not blank once written: one empty cell alone would be
      a blank line, which the reader skips. */
  predicate NotBlankLine(cells: seq<string>)
  {
    |cells| >= 2 || (|cells| == 1 && cells[0] != "")
  }

  /** The tables that `Render` writes and `Parse` reads back unchanged. */
  predicate WellFormed(t: Table)
  {
    && NotBlankLine(t.columns) && AllCells(t.columns) && Distinct(t.columns)
    && forall r :: 0 <= r < |t.rows| ==>
         |t.rows[r]| == |t.columns| && AllCells(t.rows[r]) && NotBlankLine(t.rows[r])
  }

  function Line(cells: seq<string>): string
  {
    Text.Join(cells, ',')
  }

  function Lines(rows: seq<seq<string>>): (ls: seq<string>)
    ensures |ls| == |rows|
    ensures forall i :: 0 <= i < |rows| ==> ls[i] == Line(rows[i])
  {
    if rows == [] then [] else [Line(rows[0])] + Lines(rows[1..])
  }

  /** `df.to_csv(index=False)`: the header line, then one line per row, each
      ended by a newline. */
  function Render(t: Table): string
  {
    Text.Join([Line(t.columns)] + Lines(t.rows) + [""], '\n')
  }

  function NonBlank(lines: seq<string>): (r: seq<string>)
    ensures forall i :: 0 <= i < |r| ==> r[i] != ""
  {
    if lines == [] then []
    else (if lines[0] == "" then [] else [lines[0]]) + NonBlank(lines[1..])
  }

  function Pad(cells: seq<string>, width: nat): (r: seq<string>)
    requires |cells| <= width
    ensures |r| == width && r[..|cells|] == cells
    ensures forall i :: |cells| <= i < width ==> r[i] == ""
  {
    cells + seq(width - |cells|, i => "")
  }

  /** The data lines under a header of `width` columns; a line with more
      fields than the header is a tokenizing error. */
  function ParseRows(lines: seq<string>, width: nat): (r: Option<seq<seq<string>>>)
    requires width >= 1
    requires forall i :: 0 <= i < |lines| ==> lines[i] != "" && '\n' !in lines[i]
    ensures r.Some? ==> |r.value| == |lines|
    ensures r.Some? ==> forall k :: 0 <= k < |r.value| ==>
      |r.value[k]| == width && AllCells(r.value[k]) && NotBlankLine(r.value[k])
  {
    if lines == [] then Some([])
    else
      var cells := Text.Split(lines[0], ',');
      if |cells| > width then None
      else
        match ParseRows(lines[1..], width)
        case None => None
        case Some(rest) =>
          assert |cells| == 1 ==> cells == [lines[0]] by {
            if |cells| == 1 { JoinSplit(lines[0]); }
          }
          Some([Pad(cells, width)] + rest)
  }

  /** `pd.read_csv(io.StringIO(text))`: `None` where pandas raises — no
      line at all (`EmptyDataError`), a repeated column name, or a row
      with more fields than the header. */
  function Parse(text: string): (r: Option<Table>)
    ensures r.Some? ==> WellFormed(r.value)
  {
    var lines := NonBlank(Text.Split(text, '\n'));
    if lines == [] then None
    else
      var header := Text.Split(lines[0], ',');
      if !Distinct(header) then None
      else
        assert NotBlankLine(header) by {
          if |header| == 1 { JoinSplit(lines[0]); }
        }
        NonBlankKeepsNoSep(Text.Split(text, '\n'));
        match ParseRows(lines[1..], |header|)
        case None => None
        case Some(rows) => Some(Table(header, rows))
  }

  lemma {:induction false} JoinSplit(s: string)
    ensures Text.Join(Text.Split(s, ','), ',') == s
  {
    if s != [] {
      JoinSplit(s[1..]);
      var rest := Text.Split(s[1..], ',');
      if s[0] != ',' && |rest| > 1 {
        assert ([[s[0]] + rest[0]] + rest[1..])[1..] == rest[1..];
      }
      assert s == [s[0]] + s[1..];
    }
  }

  lemma {:induction false} NonBlankKeepsNoSep(lines: seq<string>)
    requires forall i :: 0 <= i < |lines| ==> '\n' !in lines[i]
    ensures forall i :: 0 <= i < |NonBlank(lines)| ==> '\n' !in NonBlank(lines)[i]
  {
    if lines != [] {
      NonBlankKeepsNoSep(lines[1..]);
    }
  }

  lemma {:induction false} NonBlankOfLines(lines: seq<string>)
    requires forall i :: 0 <= i < |lines| ==> lines[i] != ""
    ensures NonBlank(lines + [""]) == lines
  {
    if lines == [] {
      assert NonBlank([""]) == [] + NonBlank([]);
    } else {
      assert (lines + [""])[1..] == lines[1..] + [""];
      NonBlankOfLines(lines[1..]);
      assert lines == [lines[0]] + lines[1..];
    }
  }

  lemma LineNotBlank(cells: seq<string>)
    requires NotBlankLine(cells)
    ensures Line(cells) != ""
  {
    if |cells| >= 2 {
      assert |Line(cells)| >= 1 + |cells[0]|;
    }
  }

  lemma LineHasNoNewline(cells: seq<string>)
    requires AllCells(cells)
    ensures '\n' !in Line(cells)
  {
    if |cells| >= 2 {
      LineHasNoNewline(cells[1..]);
    }
  }

  /** Every written data line is non-blank and holds no newline. */
  lemma LinesAreDataLines(rows: seq<seq<string>>)
    requires forall r :: 0 <= r < |rows| ==> AllCells(rows[r]) && NotBlankLine(rows[r])
    ensures forall i :: 0 <= i < |rows| ==> Lines(rows)[i] != "" && '\n' !in Lines(rows)[i]
  {
    forall i | 0 <= i < |rows| ensures Lines(rows)[i] != "" && '\n' !in Lines(rows)[i] {
      LineNotBlank(rows[i]);
      LineHasNoNewline(rows[i]);
    }
  }

  /** One step of `ParseRowsOfLines`: the first written line reads back as
      the first row. */
  lemma ParseRowsOfLinesStep(rows: seq<seq<string>>, width: nat)
    requires width >= 1 && rows != []
    requires forall r :: 0 <= r < |rows| ==>
      |rows[r]| == width && AllCells(rows[r]) && NotBlankLine(rows[r])
    requires forall i :: 0 <= i < |rows| ==> Lines(rows)[i] != "" && '\n' !in Lines(rows)[i]
    requires forall i :: 0 <= i < |rows[1..]| ==> Lines(rows[1..])[i] != "" && '\n' !in Lines(rows[1..])[i]
    requires ParseRows(Lines(rows[1..]), width) == Some(rows[1..])
    ensures ParseRows(Lines(rows), width) == Some(rows)
  {
    var ls := Lines(rows);
    assert ls[1..] == Lines(rows[1..]);
    assert ls[0] == Line(rows[0]);
    Text.SplitJoin(rows[0], ',');
    assert Text.Split(ls[0], ',') == rows[0];
    assert Pad(rows[0], width) == rows[0];
    assert rows == [rows[0]] + rows[1..];
  }

  lemma {:induction false} ParseRowsOfLines(rows: seq<seq<string>>, width: nat)
    requires width >= 1
    requires forall r :: 0 <= r < |rows| ==>
      |rows[r]| == width && AllCells(rows[r]) && NotBlankLine(rows[r])
    ensures forall i :: 0 <= i < |rows| ==> Lines(rows)[i] != "" && '\n' !in Lines(rows)[i]
    ensures ParseRows(Lines(rows), width) == Some(rows)
  {
    LinesAreDataLines(rows);
    if rows != [] {
      ParseRowsOfLines(rows[1..], width);
      ParseRowsOfLinesStep(rows, width);
    }
  }

  /** Reading back what was written gives the same table: the download of
      an uploaded snapshot is that snapshot. */
  lemma ParseRender(t: Table)
    requires WellFormed(t)
    ensures Parse(Render(t)) == Some(t)
  {
    ParseRowsOfLines(t.rows, |t.columns|);
    LineNotBlank(t.columns);
    LineHasNoNewline(t.columns);
    var lines := [Line(t.columns)] + Lines(t.rows);
    assert forall i :: 0 <= i < |lines| ==> lines[i] != "" && '\n' !in lines[i];
    Text.SplitJoin(lines + [""], '\n');
    NonBlankOfLines(lines);
    assert lines[1..] == Lines(t.rows);
    Text.SplitJoin(t.columns, ',');
  }
}
