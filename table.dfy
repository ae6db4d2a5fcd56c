/**
 * The text table: column widths are the byte lengths of the widest entries,
 * a border of '-' runs frames the header and the rows, and every cell is
 * the text padded with spaces to its column's width, with one space on
 * each side. `clear` stands for the crate's `CLEAR_COLOR` string, which
 * ends every header and row line.
 */
module Tables {
  import opened Strings
  import opened ConsoleColors
  import opened Terminal

  datatype Table = Table(headers: seq<string>, rows: seq<seq<string>>, columnWidths: seq<nat>)

  // ---------------------------------------------------------------------
  // Column widths

  /** The width of a column: the byte length of its header or of its widest cell. */
  function ColumnWidth(header: string, cells: seq<string>): (r: nat)
    ensures r >= Utf8Len(header)
    ensures forall k :: 0 <= k < |cells| ==> r >= Utf8Len(cells[k])
    decreases |cells|
  {
    if cells == [] then Utf8Len(header)
    else
      var before := ColumnWidth(header, cells[..|cells| - 1]);
      var last := Utf8Len(cells[|cells| - 1]);
      assert forall k :: 0 <= k < |cells| - 1 ==> cells[..|cells| - 1][k] == cells[k];
      if last > before then last else before
  }

  /** The width is that of the header or of one of the cells. */
  lemma {:induction false} ColumnWidthAttained(header: string, cells: seq<string>)
    ensures var r := ColumnWidth(header, cells);
      r == Utf8Len(header) || exists k :: 0 <= k < |cells| && r == Utf8Len(cells[k])
    decreases |cells|
  {
    if cells != [] {
      var init := cells[..|cells| - 1];
      ColumnWidthAttained(header, init);
      var r := ColumnWidth(header, init);
      if r != Utf8Len(header) && r == ColumnWidth(header, cells) {
        var k :| 0 <= k < |init| && r == Utf8Len(init[k]);
        assert init[k] == cells[k];
      }
    }
  }

  /** Measuring one more cell. */
  lemma ColumnWidthStep(header: string, cells: seq<string>, j: nat)
    requires j < |cells|
    ensures ColumnWidth(header, cells[..j + 1]) == Max(ColumnWidth(header, cells[..j]), Utf8Len(cells[j]))
  {
    assert cells[..j + 1][..j] == cells[..j];
  }

  /**
   * The widths `Table::new` computes: column `i` is measured over header `i`
   * and the cells of ROW `i`, not over cell `i` of every row.
   */
  function AsWrittenWidths(headers: seq<string>, rows: seq<seq<string>>): (r: seq<nat>)
    requires |rows| >= |headers|
    ensures |r| == |headers|
    ensures forall i :: 0 <= i < |headers| ==> r[i] == ColumnWidth(headers[i], rows[i])
  {
    seq(|headers|, i requires 0 <= i < |headers| => ColumnWidth(headers[i], rows[i]))
  }

  /** `Table::new` as written; it indexes `rows[i]` for every header `i`, so it needs as many rows as headers. */
  method NewTable(headers: seq<string>, rows: seq<seq<string>>) returns (t: Table)
    requires |rows| >= |headers|
    ensures t == Table(headers, rows, AsWrittenWidths(headers, rows))
  {
    var columnWidths := new nat[|headers|](_ => 0);
    var index := 0;
    while index < |headers|
      invariant 0 <= index <= |headers|
      invariant forall k :: 0 <= k < index ==> columnWidths[k] == ColumnWidth(headers[k], rows[k])
      invariant forall k :: index <= k < |headers| ==> columnWidths[k] == 0
    {
      MeasureCells(columnWidths, index, headers[index], rows[index]);
      index := index + 1;
    }
    t := Table(headers, rows, columnWidths[..]);
  }

  /** One pass of the outer loop of `Table::new` as written: entry `index` becomes the width of `header` and `cells`. */
  method MeasureCells(columnWidths: array<nat>, index: nat, header: string, cells: seq<string>)
    requires index < columnWidths.Length && columnWidths[index] == 0
    modifies columnWidths
    ensures columnWidths[index] == ColumnWidth(header, cells)
    ensures forall k :: 0 <= k < columnWidths.Length && k != index ==> columnWidths[k] == old(columnWidths[k])
  {
    if Utf8Len(header) > columnWidths[index] {
      columnWidths[index] := Utf8Len(header);
    }
    var j := 0;
    assert cells[..0] == [];
    while j < |cells|
      invariant 0 <= j <= |cells|
      invariant columnWidths[index] == ColumnWidth(header, cells[..j])
      invariant forall k :: 0 <= k < columnWidths.Length && k != index ==> columnWidths[k] == old(columnWidths[k])
    {
      ColumnWidthStep(header, cells, j);
      if Utf8Len(cells[j]) > columnWidths[index] {
        columnWidths[index] := Utf8Len(cells[j]);
      }
      j := j + 1;
    }
    assert cells[..j] == cells;
  }

  /** Cell `i` of every row that has one, in row order. */
  function Column(rows: seq<seq<string>>, i: nat): (r: seq<string>)
    decreases |rows|
  {
    if rows == [] then []
    else
      var before := Column(rows[..|rows| - 1], i);
      var last := rows[|rows| - 1];
      if i < |last| then before + [last[i]] else before
  }

  /** The column holds exactly the cells at index `i`. */
  lemma {:induction false} ColumnMembers(rows: seq<seq<string>>, i: nat)
    ensures var col := Column(rows, i);
      && (forall k :: 0 <= k < |col| ==> exists m :: 0 <= m < |rows| && i < |rows[m]| && col[k] == rows[m][i])
      && (forall m :: 0 <= m < |rows| && i < |rows[m]| ==> rows[m][i] in col)
    decreases |rows|
  {
    if rows != [] {
      var init := rows[..|rows| - 1];
      ColumnMembers(init, i);
      assert forall m :: 0 <= m < |init| ==> init[m] == rows[m];
    }
  }

  /** Looking at one more row. */
  lemma ColumnStep(rows: seq<seq<string>>, m: nat, i: nat)
    requires m < |rows|
    ensures Column(rows[..m + 1], i) == Column(rows[..m], i) + (if i < |rows[m]| then [rows[m][i]] else [])
  {
    assert rows[..m + 1][..m] == rows[..m];
  }

  lemma ColumnWidthOfColumnStep(header: string, rows: seq<seq<string>>, m: nat, i: nat)
    requires m < |rows|
    ensures ColumnWidth(header, Column(rows[..m + 1], i))
         == if i < |rows[m]| then Max(ColumnWidth(header, Column(rows[..m], i)), Utf8Len(rows[m][i]))
            else ColumnWidth(header, Column(rows[..m], i))
  {
    ColumnStep(rows, m, i);
    if i < |rows[m]| {
      var c := Column(rows[..m], i) + [rows[m][i]];
      assert c[..|c| - 1] == Column(rows[..m], i);
      assert c[|c| - 1] == rows[m][i];
      assert c == Column(rows[..m + 1], i);
      assert ColumnWidth(header, c) == Max(ColumnWidth(header, c[..|c| - 1]), Utf8Len(c[|c| - 1]));
    } else {
      assert Column(rows[..m], i) + [] == Column(rows[..m], i);
    }
  }

  /** The widths the table needs for aligned columns: column `i` is measured over cell `i` of every row. */
  function CorrectedWidths(headers: seq<string>, rows: seq<seq<string>>): (r: seq<nat>)
    ensures |r| == |headers|
    ensures forall i :: 0 <= i < |headers| ==> r[i] == ColumnWidth(headers[i], Column(rows, i))
  {
    seq(|headers|, i requires 0 <= i < |headers| => ColumnWidth(headers[i], Column(rows, i)))
  }

  /** `Table::new` measuring each column over the rows' cells in that column. */
  method NewTableCorrected(headers: seq<string>, rows: seq<seq<string>>) returns (t: Table)
    ensures t == Table(headers, rows, CorrectedWidths(headers, rows))
  {
    var columnWidths := new nat[|headers|](_ => 0);
    var index := 0;
    while index < |headers|
      invariant 0 <= index <= |headers|
      invariant forall k :: 0 <= k < index ==> columnWidths[k] == ColumnWidth(headers[k], Column(rows, k))
      invariant forall k :: index <= k < |headers| ==> columnWidths[k] == 0
    {
      MeasureColumn(columnWidths, index, headers[index], rows);
      index := index + 1;
    }
    t := Table(headers, rows, columnWidths[..]);
  }

  /** One pass of the corrected outer loop: entry `index` becomes the width of `header` and column `index`. */
  method MeasureColumn(columnWidths: array<nat>, index: nat, header: string, rows: seq<seq<string>>)
    requires index < columnWidths.Length && columnWidths[index] == 0
    modifies columnWidths
    ensures columnWidths[index] == ColumnWidth(header, Column(rows, index))
    ensures forall k :: 0 <= k < columnWidths.Length && k != index ==> columnWidths[k] == old(columnWidths[k])
  {
    if Utf8Len(header) > columnWidths[index] {
      columnWidths[index] := Utf8Len(header);
    }
    var m := 0;
    assert rows[..0] == [];
    while m < |rows|
      invariant 0 <= m <= |rows|
      invariant columnWidths[index] == ColumnWidth(header, Column(rows[..m], index))
      invariant forall k :: 0 <= k < columnWidths.Length && k != index ==> columnWidths[k] == old(columnWidths[k])
    {
      ColumnWidthOfColumnStep(header, rows, m, index);
      if index < |rows[m]| && Utf8Len(rows[m][index]) > columnWidths[index] {
        columnWidths[index] := Utf8Len(rows[m][index]);
      }
      m := m + 1;
    }
    assert rows[..m] == rows;
  }

  /**
   * With the corrected widths every header and every cell fits its column,
   * and each width is the length of the column's header or of one of its
   * cells.
   */
  lemma CorrectedWidthsFit(headers: seq<string>, rows: seq<seq<string>>)
    ensures var w := CorrectedWidths(headers, rows);
      && (forall i :: 0 <= i < |headers| ==> Utf8Len(headers[i]) <= w[i])
      && (forall m, i :: 0 <= m < |rows| && 0 <= i < |rows[m]| && i < |headers| ==> Utf8Len(rows[m][i]) <= w[i])
      && (forall i :: 0 <= i < |headers| ==>
            w[i] == Utf8Len(headers[i])
            || exists m :: 0 <= m < |rows| && i < |rows[m]| && w[i] == Utf8Len(rows[m][i]))
  {
    var w := CorrectedWidths(headers, rows);
    forall m, i | 0 <= m < |rows| && 0 <= i < |rows[m]| && i < |headers|
      ensures Utf8Len(rows[m][i]) <= w[i]
    {
      CellFitsColumn(headers[i], rows, i, m);
    }
    forall i | 0 <= i < |headers| && w[i] != Utf8Len(headers[i])
      ensures exists m :: 0 <= m < |rows| && i < |rows[m]| && w[i] == Utf8Len(rows[m][i])
    {
      ColumnWidthFromCell(headers[i], rows, i);
    }
  }

  /** Cell `i` of row `m` fits the width of column `i`. */
  lemma CellFitsColumn(header: string, rows: seq<seq<string>>, i: nat, m: nat)
    requires m < |rows| && i < |rows[m]|
    ensures Utf8Len(rows[m][i]) <= ColumnWidth(header, Column(rows, i))
  {
    var col := Column(rows, i);
    ColumnMembers(rows, i);
    assert rows[m][i] in col;
    var k :| 0 <= k < |col| && col[k] == rows[m][i];
  }

  /** A column wider than its header is as wide as one of its cells. */
  lemma ColumnWidthFromCell(header: string, rows: seq<seq<string>>, i: nat)
    requires ColumnWidth(header, Column(rows, i)) != Utf8Len(header)
    ensures exists m :: 0 <= m < |rows| && i < |rows[m]| && ColumnWidth(header, Column(rows, i)) == Utf8Len(rows[m][i])
  {
    var col := Column(rows, i);
    var r := ColumnWidth(header, col);
    ColumnWidthAttained(header, col);
    assert exists k :: 0 <= k < |col| && r == Utf8Len(col[k]);
    var k :| 0 <= k < |col| && r == Utf8Len(col[k]);
    ColumnMembers(rows, i);
    var m :| 0 <= m < |rows| && i < |rows[m]| && col[k] == rows[m][i];
    assert r == Utf8Len(rows[m][i]);
  }

  // ---------------------------------------------------------------------
  // Lines

  /** `create_line(filler)`: one run of `filler` per column, two longer than the width, joined by spaces. */
  function CreateLine(widths: seq<nat>, filler: char): string
  {
    Join(Runs(widths, filler), " ")
  }

  function Runs(widths: seq<nat>, filler: char): (r: seq<string>)
    ensures |r| == |widths|
    ensures forall i :: 0 <= i < |widths| ==> r[i] == Repeat(filler, widths[i] + 2)
  {
    seq(|widths|, i requires 0 <= i < |widths| => Repeat(filler, widths[i] + 2))
  }

  /** Σ (w + 2) over the widths. */
  function SumPlusTwo(widths: seq<nat>): nat
  {
    if widths == [] then 0 else widths[0] + 2 + SumPlusTwo(widths[1..])
  }

  lemma {:induction false} RunsLength(widths: seq<nat>, filler: char)
    requires filler as int < 0x80
    ensures SumUtf8Len(Runs(widths, filler)) == SumPlusTwo(widths)
    decreases |widths|
  {
    if widths != [] {
      assert Runs(widths, filler)[1..] == Runs(widths[1..], filler);
      RepeatAsciiLen(filler, widths[0] + 2);
      RunsLength(widths[1..], filler);
    }
  }

  /** One space is one byte. */
  lemma SpaceIsOneByte()
    ensures Utf8Len(" ") == 1
  {
    assert " " == [] + [' '];
  }

  /** Joining with a one-byte separator adds one byte between each pair of parts. */
  lemma JoinOneByteSeparator(parts: seq<string>, sep: string)
    requires |parts| >= 1 && Utf8Len(sep) == 1
    ensures Utf8Len(Join(parts, sep)) == SumUtf8Len(parts) + |parts| - 1
  {
    JoinUtf8Len(parts, sep);
    MulOne(|parts| - 1, Utf8Len(sep));
  }

  lemma MulOne(n: nat, k: nat)
    requires k == 1
    ensures n * k == n
  {
  }

  /**
   * A border line of n ≥ 1 columns is Σ (w + 2) + (n − 1) bytes long; with
   * no columns it is empty.
   */
  lemma CreateLineLength(widths: seq<nat>, filler: char)
    requires filler as int < 0x80
    ensures widths == [] ==> CreateLine(widths, filler) == ""
    ensures widths != [] ==> Utf8Len(CreateLine(widths, filler)) == SumPlusTwo(widths) + |widths| - 1
  {
    if widths != [] {
      SpaceIsOneByte();
      JoinOneByteSeparator(Runs(widths, filler), " ");
      RunsLength(widths, filler);
    }
  }

  /** A row cell: the text padded to the column width, between two spaces. */
  function RowCell(cell: string, width: nat): string
  {
    " " + PadRight(cell, width) + " "
  }

  /** A header cell: like a row cell, with the green foreground code before the text. */
  function HeaderCell(header: string, width: nat): string
  {
    " " + FgCode(Green) + PadRight(header, width) + " "
  }

  /**
   * A cell is `max(width, |text|) + 2` bytes wide; a header cell
   * additionally holds the green code, just after its leading space.
   */
  lemma CellWidths(text: string, width: nat)
    ensures Utf8Len(RowCell(text, width)) == Max(width, Utf8Len(text)) + 2
    ensures HeaderCell(text, width) == [' '] + FgCode(Green) + RowCell(text, width)[1..]
  {
    var p := PadRight(text, width);
    SpacedWidth(p);
    CodeAfterSpace(FgCode(Green), p);
  }

  /** Text between two spaces takes two more bytes. */
  lemma SpacedWidth(p: string)
    ensures Utf8Len(" " + p + " ") == Utf8Len(p) + 2
  {
    Utf8LenAppend(" ", p);
    Utf8LenAppend(" " + p, " ");
    SpaceIsOneByte();
  }

  /** Putting a code after the leading space of a spaced text. */
  lemma CodeAfterSpace(code: string, p: string)
    ensures " " + code + p + " " == [' '] + code + (" " + p + " ")[1..]
  {
    assert (" " + p + " ")[1..] == p + " ";
  }

  /** The header line: the header cells joined by spaces, then `clear`. */
  function HeaderLine(headers: seq<string>, widths: seq<nat>, clear: string): string
    requires |headers| <= |widths|
  {
    Join(seq(|headers|, i requires 0 <= i < |headers| => HeaderCell(headers[i], widths[i])), " ") + clear
  }

  /** A row line: the row's cells joined by spaces, then `clear`; it reads the width of each of its columns. */
  function RowLine(row: seq<string>, widths: seq<nat>, clear: string): string
    requires |row| <= |widths|
  {
    Join(seq(|row|, i requires 0 <= i < |row| => RowCell(row[i], widths[i])), " ") + clear
  }

  /** A table can be printed when no header or row has more entries than there are widths. */
  predicate Printable(t: Table)
  {
    |t.headers| <= |t.columnWidths| && forall m :: 0 <= m < |t.rows| ==> |t.rows[m]| <= |t.columnWidths|
  }

  /** The lines `print_table` prints: border, header, border, each row, border. */
  function TableLines(t: Table, clear: string): seq<string>
    requires Printable(t)
  {
    var border := CreateLine(t.columnWidths, '-');
    [border, HeaderLine(t.headers, t.columnWidths, clear), border] + RowLines(t, clear) + [border]
  }

  /** The row lines of a table, one per row, in order. */
  function RowLines(t: Table, clear: string): (r: seq<string>)
    requires Printable(t)
    ensures |r| == |t.rows|
    ensures forall m :: 0 <= m < |t.rows| ==> r[m] == RowLine(t.rows[m], t.columnWidths, clear)
  {
    seq(|t.rows|, m requires 0 <= m < |t.rows| => RowLine(t.rows[m], t.columnWidths, clear))
  }

  /**
   * A table is printed as `|rows| + 4` lines: the three borders are the
   * same line, the header comes second and the rows follow in order.
   */
  lemma TableLinesShape(t: Table, clear: string)
    requires Printable(t)
    ensures var ls := TableLines(t, clear);
      && |ls| == |t.rows| + 4
      && ls[0] == ls[2] == ls[|ls| - 1] == CreateLine(t.columnWidths, '-')
      && ls[1] == HeaderLine(t.headers, t.columnWidths, clear)
      && forall m :: 0 <= m < |t.rows| ==> ls[m + 3] == RowLine(t.rows[m], t.columnWidths, clear)
  {
    var head := [CreateLine(t.columnWidths, '-'), HeaderLine(t.headers, t.columnWidths, clear), CreateLine(t.columnWidths, '-')];
    var rows := RowLines(t, clear);
    var ls := TableLines(t, clear);
    assert ls == head + rows + [head[0]];
    forall m | 0 <= m < |t.rows|
      ensures ls[m + 3] == rows[m]
    {
      assert ls[m + 3] == (head + rows)[m + 3];
    }
  }

  /**
   * In a table built with the corrected widths every cell of column `i` is
   * exactly as wide as run `i` of the border, `widths[i] + 2` bytes.
   */
  lemma CorrectedColumnsAlign(headers: seq<string>, rows: seq<seq<string>>)
    ensures var w := CorrectedWidths(headers, rows);
      && (forall i :: 0 <= i < |headers| ==> Utf8Len(Runs(w, '-')[i]) == w[i] + 2)
      && (forall m, i :: 0 <= m < |rows| && 0 <= i < |rows[m]| && i < |headers| ==>
            Utf8Len(RowCell(rows[m][i], w[i])) == w[i] + 2)
  {
    var w := CorrectedWidths(headers, rows);
    CorrectedWidthsFit(headers, rows);
    forall i | 0 <= i < |headers|
      ensures Utf8Len(Runs(w, '-')[i]) == w[i] + 2
    {
      RepeatAsciiLen('-', w[i] + 2);
    }
    forall m, i | 0 <= m < |rows| && 0 <= i < |rows[m]| && i < |headers|
      ensures Utf8Len(RowCell(rows[m][i], w[i])) == w[i] + 2
    {
      CellWidths(rows[m][i], w[i]);
    }
  }

  // ---------------------------------------------------------------------
  // Printing

  /** Each line printed with `println!`. */
  function PrintLines(ls: seq<string>): (r: seq<Command>)
    ensures |r| == |ls|
    ensures forall i :: 0 <= i < |ls| ==> r[i] == Print(ls[i] + "\n")
  {
    seq(|ls|, i requires 0 <= i < |ls| => Print(ls[i] + "\n"))
  }

  lemma PrintLinesAppend(a: seq<string>, b: seq<string>)
    ensures PrintLines(a + b) == PrintLines(a) + PrintLines(b)
  {
  }

  /** `print_table` */
  method PrintTable(out: Stdout, t: Table, clear: string)
    requires Printable(t)
    modifies out
    ensures out.trace == old(out.trace) + PrintLines(TableLines(t, clear))
  {
    var border := CreateLine(t.columnWidths, '-');
    var header := HeaderLine(t.headers, t.columnWidths, clear);
    out.Queue(Print(border + "\n"));
    out.Queue(Print(header + "\n"));
    out.Queue(Print(border + "\n"));
    PrintRows(out, t, clear);
    out.Queue(Print(border + "\n"));
    TablePrints(old(out.trace), border, header, RowLines(t, clear));
  }

  /** The prints of the border, the header, the border, the rows and the border are the prints of those lines. */
  lemma TablePrints(before: seq<Command>, border: string, header: string, rows: seq<string>)
    ensures before + [Print(border + "\n")] + [Print(header + "\n")] + [Print(border + "\n")]
              + PrintLines(rows) + [Print(border + "\n")]
         == before + PrintLines([border, header, border] + rows + [border])
  {
    var head := [border, header, border];
    assert [Print(border + "\n")] + [Print(header + "\n")] + [Print(border + "\n")] == PrintLines(head);
    PrintLinesAppend(head, rows);
    PrintLinesAppend(head + rows, [border]);
  }

  /** The row loop of `print_table`: one line per row, in order. */
  method PrintRows(out: Stdout, t: Table, clear: string)
    requires Printable(t)
    modifies out
    ensures out.trace == old(out.trace) + PrintLines(RowLines(t, clear))
  {
    ghost var rowLines := RowLines(t, clear);
    var m := 0;
    assert rowLines[..0] == [];
    while m < |t.rows|
      invariant 0 <= m <= |t.rows|
      invariant out.trace == old(out.trace) + PrintLines(rowLines[..m])
    {
      var rowStr := RowLine(t.rows[m], t.columnWidths, clear);
      out.Queue(Print(rowStr + "\n"));
      PrintLinesAppend(rowLines[..m], [rowStr]);
      assert rowLines[..m + 1] == rowLines[..m] + [rowStr];
      m := m + 1;
    }
    assert rowLines[..m] == rowLines;
  }

  /**
   * `table(headers, rows)`: `Table::new` as written, then `print_table`.
   * It needs as many rows as headers and no row longer than the headers,
   * since the source panics otherwise.
   */
  method PrintNewTable(out: Stdout, headers: seq<string>, rows: seq<seq<string>>, clear: string)
    requires |rows| >= |headers|
    requires forall m :: 0 <= m < |rows| ==> |rows[m]| <= |headers|
    modifies out
    ensures var t := Table(headers, rows, AsWrittenWidths(headers, rows));
      Printable(t) && out.trace == old(out.trace) + PrintLines(TableLines(t, clear))
  {
    var t := NewTable(headers, rows);
    PrintTable(out, t, clear);
  }

  /** `table(headers, rows)` with the corrected constructor; no row may be longer than the headers. */
  method PrintNewTableCorrected(out: Stdout, headers: seq<string>, rows: seq<seq<string>>, clear: string)
    requires forall m :: 0 <= m < |rows| ==> |rows[m]| <= |headers|
    modifies out
    ensures var t := Table(headers, rows, CorrectedWidths(headers, rows));
      Printable(t) && out.trace == old(out.trace) + PrintLines(TableLines(t, clear))
  {
    var t := NewTableCorrected(headers, rows);
    PrintTable(out, t, clear);
  }

  // ---------------------------------------------------------------------
  // The column-width defect of `Table::new`

  /** The byte lengths of the example's texts. */
  lemma ExampleLengths()
    ensures Utf8Len("A") == 1 && Utf8Len("B") == 1 && Utf8Len("1") == 1
    ensures Utf8Len("22") == 2 && Utf8Len("333") == 3
  {
    Utf8LenAscii("A");
    Utf8LenAscii("B");
    Utf8LenAscii("1");
    Utf8LenAscii("22");
    Utf8LenAscii("333");
  }

  /**
   * headers ["A", "B"] with rows [["1", "22"], ["333"]]: as written the
   * widths come out as [2, 3], measured over row 0 and row 1.
   */
  lemma AsWrittenExampleWidths()
    ensures AsWrittenWidths(["A", "B"], [["1", "22"], ["333"]]) == [2, 3]
  {
    ExampleLengths();
    assert ColumnWidth("A", ["1", "22"]) == 2 by {
      assert ["1", "22"][..1] == ["1"];
      assert ["1"][..0] == [];
    }
    assert ColumnWidth("B", ["333"]) == 3 by {
      assert ["333"][..0] == [];
    }
  }

  /** Measured by columns, the same table needs the widths [3, 2]. */
  lemma CorrectedExampleWidths()
    ensures CorrectedWidths(["A", "B"], [["1", "22"], ["333"]]) == [3, 2]
  {
    var rows := [["1", "22"], ["333"]];
    ExampleLengths();
    assert rows[..1] == [rows[0]] && rows[..1][..0] == [];
    assert Column(rows, 0) == ["1", "333"];
    assert Column(rows, 1) == ["22"];
    assert ColumnWidth("A", ["1", "333"]) == 3 by {
      assert ["1", "333"][..1] == ["1"];
      assert ["1"][..0] == [];
    }
    assert ColumnWidth("B", ["22"]) == 2 by {
      assert ["22"][..0] == [];
    }
  }

  /**
   * So as written the cell "333" of column 0 is printed 5 bytes wide while
   * the border's run for that column is 2 + 2 bytes: the columns do not line up.
   */
  lemma AsWrittenWidthsMisalign()
    ensures var w := AsWrittenWidths(["A", "B"], [["1", "22"], ["333"]]);
      Utf8Len(RowCell("333", w[0])) == 5 && Utf8Len(Runs(w, '-')[0]) == 4
  {
    AsWrittenExampleWidths();
    ExampleLengths();
    CellWidths("333", 2);
    RepeatAsciiLen('-', 4);
  }
}
