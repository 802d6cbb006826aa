/**
 * The two pure pieces of the invoice page script (script.js): the CSV
 * reader behind the bulk upload preview, and the rule that an invoice
 * keeps at least one position row.
 *
 * `parseCSV` reads the whole text: the first line of the trimmed text
 * holds the headers, every further line is a row. Cells are split at
 * every comma (there is no quoting) and trimmed; a row is an object from
 * header to cell, so a missing cell is "" and a repeated header keeps
 * the later column.
 */
module InvoiceScript {
  import opened Wrappers
  import opened Text
  import opened Polyfills

  /** The result of `parseCSV`: the headers in order and one object per row. */
  datatype Csv = Csv(headers: seq<string>, data: seq<map<string, string>>)

  /** `line.split(',').map(v => v.trim())`. */
  function Cells(line: string): (r: seq<string>)
    ensures |r| >= 1
    ensures forall i :: 0 <= i < |r| ==> Trim(r[i]) == r[i] && ',' !in r[i]
  {
    var pieces := SplitOn(line, ",");
    SplitPiecesAvoidSeparator(line, ',');
    seq(|pieces|, i requires 0 <= i < |pieces| => TrimmedCell(pieces[i]))
  }

  /** A trimmed piece of a comma split: already trimmed, and still without a comma. */
  function TrimmedCell(piece: string): (r: string)
    requires ',' !in piece
    ensures Trim(r) == r && ',' !in r
  {
    TrimIdempotent(piece);
    Trim(piece)
  }

  /** The cell under header `j`: `values[j] || ''`. */
  function CellAt(values: seq<string>, j: nat): string
  {
    if j < |values| then values[j] else ""
  }

  /** The assignments `row[header] = values[index] || ''`, in header order. */
  function RowEntries(headers: seq<string>, values: seq<string>): (r: seq<(string, string)>)
    ensures |r| == |headers| && forall j :: 0 <= j < |headers| ==> r[j] == (headers[j], CellAt(values, j))
  {
    seq(|headers|, j requires 0 <= j < |headers| => (headers[j], CellAt(values, j)))
  }

  /** The object for one row: exactly the headers as keys. */
  function Row(headers: seq<string>, values: seq<string>): (r: map<string, string>)
    ensures forall j :: 0 <= j < |headers| ==> headers[j] in r
    ensures forall k :: k in r ==> k in headers
  {
    var entries := RowEntries(headers, values);
    var r := FromEntries(entries);
    assert forall k :: k in r ==> k in headers by {
      forall k | k in r
        ensures k in headers
      {
        var i :| 0 <= i < |entries| && entries[i].0 == k;
        assert headers[i] == k;
      }
    }
    r
  }

  /** The lines of the trimmed text. */
  function Lines(text: string): (r: seq<string>)
    ensures |r| >= 1
  {
    SplitOn(Trim(text), "\n")
  }

  /** `parseCSV(text)`: the headers from the first line, one row per further line. */
  function ParseCsv(text: string): (r: Csv)
    ensures |r.headers| >= 1 && r.headers == Cells(Lines(text)[0])
    ensures |r.data| == |Lines(text)| - 1
    ensures forall i :: 0 <= i < |r.data| ==> r.data[i] == Row(r.headers, Cells(Lines(text)[i + 1]))
  {
    var lines := Lines(text);
    Csv(Cells(lines[0]), RowsOf(Cells(lines[0]), lines[1..]))
  }

  /** One row object per line. */
  function RowsOf(headers: seq<string>, lines: seq<string>): (r: seq<map<string, string>>)
    ensures |r| == |lines| && forall i :: 0 <= i < |lines| ==> r[i] == Row(headers, Cells(lines[i]))
  {
    seq(|lines|, i requires 0 <= i < |lines| => Row(headers, Cells(lines[i])))
  }

  /** Under a header that occurs once, the row holds that column's cell, or "" when the line is shorter. */
  lemma RowCell(headers: seq<string>, values: seq<string>, j: nat)
    requires j < |headers|
    requires forall m :: j < m < |headers| ==> headers[m] != headers[j]
    ensures Row(headers, values)[headers[j]] == if j < |values| then values[j] else ""
  {
    FromEntriesLastWins(RowEntries(headers, values), j);
  }

  /** A repeated header keeps the cell of its later column. */
  lemma RepeatedHeaderKeepsLater(headers: seq<string>, values: seq<string>, i: nat, j: nat)
    requires i < j < |headers| && headers[i] == headers[j]
    requires forall m :: j < m < |headers| ==> headers[m] != headers[j]
    ensures Row(headers, values)[headers[i]] == CellAt(values, j)
  {
    RowCell(headers, values, j);
  }

  /** Every cell of a row read from a line is trimmed and holds no comma. */
  lemma RowCellsAreClean(headers: seq<string>, line: string, k: string)
    requires k in Row(headers, Cells(line))
    ensures var v := Row(headers, Cells(line))[k];
            Trim(v) == v && ',' !in v
  {
    var values := Cells(line);
    var entries := RowEntries(headers, values);
    var j := LastEntry(entries, k);
    FromEntriesLastWins(entries, j);
    StripByIdentity("", IsJsSpace);
  }

  /** The index of the last entry with key `k`, for a key that has one. */
  lemma LastEntry<V>(entries: seq<(string, V)>, k: string) returns (j: nat)
    requires k in FromEntries(entries)
    ensures j < |entries| && entries[j].0 == k
    ensures forall m :: j < m < |entries| ==> entries[m].0 != k
  {
    j := |entries| - 1;
    while entries[j].0 != k
      invariant 0 <= j < |entries|
      invariant forall m :: j < m < |entries| ==> entries[m].0 != k
      decreases j
    {
      if j == 0 {
        var i :| 0 <= i < |entries| && entries[i].0 == k;
        assert false;
      }
      j := j - 1;
    }
  }

  /** A cell `parseCSV` reads back unchanged: no white space at either end, no comma, no line break. */
  predicate CleanCell(x: string)
  {
    (x == "" || (!IsJsSpace(x[0]) && !IsJsSpace(x[|x| - 1]))) && ',' !in x && '\n' !in x
  }

  /** A table written out as the reader expects it: comma-separated cells, one line per row. */
  function Render(headers: seq<string>, rows: seq<seq<string>>): string
  {
    Join(RenderedLines(headers, rows), "\n")
  }

  /** The header line followed by one line per row. */
  function RenderedLines(headers: seq<string>, rows: seq<seq<string>>): (r: seq<string>)
    ensures |r| == |rows| + 1 && r[0] == Join(headers, ",")
    ensures forall i :: 0 <= i < |rows| ==> r[i + 1] == Join(rows[i], ",")
  {
    [Join(headers, ",")] + seq(|rows|, i requires 0 <= i < |rows| => Join(rows[i], ","))
  }

  /** The tables that survive a round trip through `Render` and `parseCSV`. */
  predicate Renderable(headers: seq<string>, rows: seq<seq<string>>)
  {
    && |headers| >= 1
    && (forall j :: 0 <= j < |headers| ==> CleanCell(headers[j]))
    && (forall j, m :: 0 <= j < m < |headers| ==> headers[j] != headers[m])
    && (forall i :: 0 <= i < |rows| ==> |rows[i]| == |headers|)
    && (forall i, j :: 0 <= i < |rows| && 0 <= j < |rows[i]| ==> CleanCell(rows[i][j]))
    && headers[0] != ""
    && LastLine(headers, rows)[|headers| - 1] != ""
  }

  /** The cells of the last line written. */
  function LastLine(headers: seq<string>, rows: seq<seq<string>>): seq<string>
  {
    if |rows| == 0 then headers else rows[|rows| - 1]
  }

  /** A line of clean cells reads back as those cells. */
  lemma CellsOfJoin(cells: seq<string>)
    requires |cells| >= 1 && forall j :: 0 <= j < |cells| ==> CleanCell(cells[j])
    ensures Cells(Join(cells, ",")) == cells
  {
    SplitJoinInverse(cells, ',');
    forall j | 0 <= j < |cells|
      ensures Trim(cells[j]) == cells[j]
    {
      StripByIdentity(cells[j], IsJsSpace);
    }
  }

  /** A line of clean cells holds no line break. */
  lemma JoinedCellsHaveNoBreak(cells: seq<string>)
    requires forall j :: 0 <= j < |cells| ==> CleanCell(cells[j])
    ensures '\n' !in Join(cells, ",")
  {
    var P := (ch: char) => ch != '\n';
    forall j | 0 <= j < |cells|
      ensures AllChars(cells[j], P)
    {
    }
    JoinChars(cells, ",", P);
  }

  /** The rendered text is trimmed already and splits back into its lines. */
  lemma LinesOfRender(headers: seq<string>, rows: seq<seq<string>>)
    requires Renderable(headers, rows)
    ensures Lines(Render(headers, rows)) == RenderedLines(headers, rows)
  {
    var lines := RenderedLines(headers, rows);
    var text := Render(headers, rows);
    forall k | 0 <= k < |lines|
      ensures '\n' !in lines[k]
    {
      if k == 0 { JoinedCellsHaveNoBreak(headers); } else { JoinedCellsHaveNoBreak(rows[k - 1]); }
    }
    LastCellIsClean(headers, rows);
    RenderIsTrimmed(headers, rows);
    SplitJoinInverse(lines, '\n');
  }

  /** A text whose first header starts and whose last cell ends with kept characters is trimmed. */
  lemma RenderIsTrimmed(headers: seq<string>, rows: seq<seq<string>>)
    requires |headers| >= 1 && headers[0] != "" && CleanCell(headers[0])
    requires |LastLine(headers, rows)| == |headers|
    requires var l := LastLine(headers, rows)[|headers| - 1]; CleanCell(l) && l != ""
    ensures Trim(Render(headers, rows)) == Render(headers, rows)
  {
    var lines := RenderedLines(headers, rows);
    var last := LastLine(headers, rows);
    JoinFirst(headers, ",");
    JoinLast(last, ",");
    assert lines[|lines| - 1] == Join(last, ",");
    TrimmedJoin(lines, "\n");
  }

  /** The last cell written is clean and not empty. */
  lemma LastCellIsClean(headers: seq<string>, rows: seq<seq<string>>)
    requires Renderable(headers, rows)
    ensures |LastLine(headers, rows)| == |headers|
    ensures var l := LastLine(headers, rows)[|headers| - 1]; CleanCell(l) && l != ""
  {
    if |rows| > 0 {
      var i := |rows| - 1;
      assert |rows[i]| == |headers|;
      assert CleanCell(rows[i][|headers| - 1]);
    }
  }

  /** A join whose first part starts and whose last part ends with kept characters is trimmed. */
  lemma TrimmedJoin(parts: seq<string>, sep: string)
    requires |parts| >= 1 && |parts[0]| > 0 && |parts[|parts| - 1]| > 0
    requires !IsJsSpace(parts[0][0]) && !IsJsSpace(parts[|parts| - 1][|parts[|parts| - 1]| - 1])
    ensures Trim(Join(parts, sep)) == Join(parts, sep)
  {
    JoinFirst(parts, sep);
    JoinLast(parts, sep);
    StripByIdentity(Join(parts, sep), IsJsSpace);
  }

  /** Rendering a table and reading it back gives its headers and, under each header, its cells. */
  lemma CsvRoundTrip(headers: seq<string>, rows: seq<seq<string>>)
    requires Renderable(headers, rows)
    ensures ParseCsv(Render(headers, rows)).headers == headers
    ensures |ParseCsv(Render(headers, rows)).data| == |rows|
    ensures forall i, j :: 0 <= i < |rows| && 0 <= j < |headers| ==>
              ParseCsv(Render(headers, rows)).data[i][headers[j]] == rows[i][j]
  {
    var text := Render(headers, rows);
    LinesOfRender(headers, rows);
    CellsOfJoin(headers);
    var csv := ParseCsv(text);
    forall i, j | 0 <= i < |rows| && 0 <= j < |headers|
      ensures csv.data[i][headers[j]] == rows[i][j]
    {
      CellsOfJoin(rows[i]);
      assert csv.data[i] == Row(headers, rows[i]);
      RowCell(headers, rows[i], j);
    }
  }

  // -----------------------------------------------------------------------
  // Invoice positions

  /** Why a position is not removed. */
  const LastPositionMessage := "At least one position is required"

  /** `removePosition(button)` for the row at `index`: refused, with an error shown, for the only row. */
  function RemovePosition<T>(rows: seq<T>, index: nat): (r: Result<seq<T>, string>)
    requires index < |rows|
    ensures r.Success? <==> |rows| > 1
    ensures r.Success? ==> |r.value| == |rows| - 1 && |r.value| >= 1
    ensures r.Success? ==> forall i :: 0 <= i < |r.value| ==> r.value[i] == if i < index then rows[i] else rows[i + 1]
    ensures r.Failure? ==> r.error == LastPositionMessage
  {
    if |rows| > 1 then Success(rows[..index] + rows[index + 1..]) else Failure(LastPositionMessage)
  }

  /** `addPosition()`: a new row at the end. */
  function AddPosition<T>(rows: seq<T>, blank: T): (r: seq<T>)
    ensures |r| == |rows| + 1 && r[|rows|] == blank && r[..|rows|] == rows
  {
    assert (rows + [blank])[..|rows|] == rows;
    rows + [blank]
  }

  /** Removing a row that was just added gives the rows back, even for a single row. */
  lemma AddThenRemove<T>(rows: seq<T>, blank: T)
    requires |rows| >= 1
    ensures RemovePosition(AddPosition(rows, blank), |rows|) == Success(rows)
  {
    var added := AddPosition(rows, blank);
    assert added[..|rows|] + added[|rows| + 1..] == rows;
  }

  /** The form never runs out of rows: a sequence of adds and removes from one row keeps at least one. */
  datatype Edit<T> = Add(blank: T) | Remove(index: nat)

  function ApplyEdits<T>(rows: seq<T>, edits: seq<Edit<T>>): (r: seq<T>)
    requires |rows| >= 1
    ensures |r| >= 1
    decreases |edits|
  {
    if |edits| == 0 then rows
    else
      var next := match edits[0]
        case Add(b) => AddPosition(rows, b)
        case Remove(i) =>
          if i < |rows| then (match RemovePosition(rows, i) case Success(s) => s case Failure(_) => rows) else rows;
      ApplyEdits(next, edits[1..])
  }
}
