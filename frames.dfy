/** The part of `pd.read_csv(..., sep="|")` that the packing-list table needs: lines
    split on line breaks, blank lines skipped, the first line naming the columns, every
    other line split on `|` into cells. An empty cell is missing (pandas' NaN); a
    header cell that is empty gets pandas' placeholder name `Unnamed: <position>`. */
module Frames {
  import opened Wrappers
  import opened Strings
  import opened Seqs

  /** A table cell: `None` is pandas' missing value. */
  type Cell = Option<string>

  /** A data frame: column names and rows of cells, by position. */
  datatype Frame = Frame(columns: seq<string>, rows: seq<seq<Cell>>)

  /** Every row has one cell per column. */
  predicate WellFormed(f: Frame) {
    forall r :: 0 <= r < |f.rows| ==> |f.rows[r]| == |f.columns|
  }

  /** Why `procesar_factura` raises: no line to take column names from (pandas'
      EmptyDataError), a data row with more fields than the header (pandas'
      ParserError; `row` counts the non-blank lines after the header from 0), or a
      column the code looks up by name that the table lacks (KeyError). */
  datatype Failure =
    | NoColumnsToParse
    | TooManyFields(row: nat, expected: nat, saw: nat)
    | MissingColumn(name: string)

  const LineBreak: char := '\n'
  const Delimiter: char := '|'

  /** pandas' name for the header cell at position `i`. */
  function ColumnName(field: string, i: nat): (name: string)
    ensures name != ""
    ensures field != "" ==> name == field
  {
    if field == "" then "Unnamed: " + DecimalString(i) else field
  }

  function HeaderNames(fields: seq<string>): (names: seq<string>)
    ensures |names| == |fields|
  {
    seq(|fields|, i requires 0 <= i < |fields| => ColumnName(fields[i], i))
  }

  function CellOf(field: string): Cell {
    if field == "" then None else Some(field)
  }

  /** The cells of a row with `|fields| <= width` fields; a short row is filled with missing values. */
  function RowCells(fields: seq<string>, width: nat): (cells: seq<Cell>)
    requires |fields| <= width
    ensures |cells| == width
  {
    seq(width, i requires 0 <= i < width => if i < |fields| then CellOf(fields[i]) else None)
  }

  /** A line pandas' tokenizer skips under `skip_blank_lines`: empty, or only spaces
      and tabs. */
  predicate IsBlankLine(line: string) {
    forall k :: 0 <= k < |line| ==> line[k] == ' ' || line[k] == '\t'
  }

  /** The lines that are not blank, in order. */
  function NonBlank(lines: seq<string>): (r: seq<string>)
    ensures forall k :: 0 <= k < |r| ==> !IsBlankLine(r[k]) && r[k] in lines
    ensures (forall k :: 0 <= k < |lines| ==> IsBlankLine(lines[k])) <==> r == []
    decreases |lines|
  {
    if |lines| == 0 then []
    else
      var n := |lines| - 1;
      assert forall k :: 0 <= k < n ==> lines[..n][k] == lines[k];
      if IsBlankLine(lines[n]) then NonBlank(lines[..n])
      else NonBlank(lines[..n]) + [lines[n]]
  }

  /** The mask `lines` keeps: position `i` holds a line that is not blank. */
  function KeepsLine(lines: seq<string>): nat -> bool {
    (i: nat) => i < |lines| && !IsBlankLine(lines[i])
  }

  /** The last line is kept exactly when it is not blank. */
  lemma NonBlankStep(lines: seq<string>)
    requires |lines| > 0
    ensures var n := |lines| - 1;
      NonBlank(lines) == NonBlank(lines[..n]) + (if KeepsLine(lines)(n) then [lines[n]] else [])
  {
  }

  /** `NonBlank` keeps every line that is not blank and drops every blank one, in
      order: it is the boolean mask `KeepsLine` applied to `lines`. */
  lemma {:induction false} NonBlankIsMask(lines: seq<string>)
    ensures NonBlank(lines) == Pick(lines, Where(|lines|, KeepsLine(lines)))
    decreases |lines|
  {
    if |lines| > 0 {
      var n := |lines| - 1;
      var init := lines[..n];
      NonBlankIsMask(init);
      NonBlankStep(lines);
      WhereAgree(n, KeepsLine(init), KeepsLine(lines));
      PickWhereStep(lines, n, KeepsLine(lines));
      PickPrefix(lines, n, Where(n, KeepsLine(lines)));
    }
  }

  predicate FitsWidth(line: string, width: nat) {
    |Split(line, Delimiter)| <= width
  }

  /** The data rows `lines[from..]`, or the first of them that is too wide. */
  function ParseRows(lines: seq<string>, width: nat, from: nat): (r: Result<seq<seq<Cell>>, Failure>)
    requires from <= |lines|
    ensures r.Success? <==> forall k :: from <= k < |lines| ==> FitsWidth(lines[k], width)
    ensures r.Success? ==> |r.value| == |lines| - from && forall k :: 0 <= k < |r.value| ==>
      FitsWidth(lines[from + k], width) && r.value[k] == RowCells(Split(lines[from + k], Delimiter), width)
    ensures r.Failure? ==> exists k :: (from <= k < |lines| && !FitsWidth(lines[k], width)
      && (forall j :: from <= j < k ==> FitsWidth(lines[j], width))
      && r.error == TooManyFields(k, width, |Split(lines[k], Delimiter)|))
    decreases |lines| - from
  {
    if from == |lines| then Success([])
    else
      var fields := Split(lines[from], Delimiter);
      if |fields| > width then Failure(TooManyFields(from, width, |fields|))
      else
        match ParseRows(lines, width, from + 1)
        case Failure(e) => Failure(e)
        case Success(rest) => Success([RowCells(fields, width)] + rest)
  }

  /** `pd.read_csv(io.StringIO(text), sep="|")`: fails exactly when there is no
      non-blank line or a data line has more fields than the header; otherwise the
      columns are named after the header's fields and every data line gives one row. */
  function ReadTable(text: string): (r: Result<Frame, Failure>)
    ensures var lines := NonBlank(Split(text, LineBreak));
      && (r == Failure(NoColumnsToParse) <==> lines == [])
      && (r.Failure? && lines != [] ==> r.error.TooManyFields?)
      && (r.Success? <==> lines != [] && forall k :: 1 <= k < |lines| ==>
            |Split(lines[k], Delimiter)| <= |Split(lines[0], Delimiter)|)
    ensures r.Success? ==> WellFormed(r.value)
    ensures r.Success? ==> var lines := NonBlank(Split(text, LineBreak));
      var header := Split(lines[0], Delimiter);
      && |r.value.columns| == |header|
      && (forall i :: 0 <= i < |header| ==>
            r.value.columns[i] == if header[i] == "" then "Unnamed: " + DecimalString(i) else header[i])
      && |r.value.rows| == |lines| - 1
      && (forall k, i :: 0 <= k < |r.value.rows| && 0 <= i < |header| ==>
            var fields := Split(lines[k + 1], Delimiter);
            r.value.rows[k][i] == if i < |fields| && fields[i] != "" then Some(fields[i]) else None)
  {
    var lines := NonBlank(Split(text, LineBreak));
    if lines == [] then Failure(NoColumnsToParse)
    else
      var header := Split(lines[0], Delimiter);
      var data := lines[1..];
      match ParseRows(data, |header|, 0)
      case Failure(e) => Failure(e)
      case Success(rows) => Success(Frame(HeaderNames(header), rows))
  }
}
