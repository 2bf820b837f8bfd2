/**
 * go-textractor's table: plain and merged cells with 1-based row and column indexes, the row
 * count, cell lookup, the cells of a row, and the plain-text rendering of the whole table.
 */
module TextractorTable {
  import opened GoStrings
  import opened Wrappers
  import opened Seqs
  import opened TextractorTypes
  import opened TextractorUtil
  import opened TextractorTableCell

  datatype Table = Table(mergedCells: seq<TableMergedCell>, cells: seq<TableCell>)

  /** The last row a cell reaches. */
  function Bottom(c: TableCell): int {
    c.info.rowIndex + c.info.rowSpan - 1
  }

  /** slices.MaxFunc by bottom row over cells[..n]: the first cell reaching furthest down. */
  function FirstMaxBottom(cells: seq<TableCell>, n: nat): (k: nat)
    requires 0 < n <= |cells|
    ensures k < n
    ensures forall j :: 0 <= j < n ==> Bottom(cells[j]) <= Bottom(cells[k])
    ensures forall j :: 0 <= j < k ==> Bottom(cells[j]) < Bottom(cells[k])
  {
    if n == 1 then 0
    else
      var k := FirstMaxBottom(cells, n - 1);
      if Bottom(cells[n - 1]) > Bottom(cells[k]) then n - 1 else k
  }

  /**
   * RowCount: the row index (not the bottom row) of the first cell reaching furthest down. Go's
   * slices.MaxFunc panics on an empty table, hence the precondition.
   */
  function RowCount(t: Table): int
    requires |t.cells| > 0
  {
    t.cells[FirstMaxBottom(t.cells, |t.cells|)].info.rowIndex
  }

  /** With every cell one row high, RowCount is the largest row index. */
  lemma RowCountUnitSpans(t: Table)
    requires |t.cells| > 0
    requires forall j :: 0 <= j < |t.cells| ==> t.cells[j].info.rowSpan == 1
    ensures forall j :: 0 <= j < |t.cells| ==> t.cells[j].info.rowIndex <= RowCount(t)
    ensures exists j :: 0 <= j < |t.cells| && t.cells[j].info.rowIndex == RowCount(t)
  {
    var k := FirstMaxBottom(t.cells, |t.cells|);
    assert t.cells[k].info.rowIndex == RowCount(t);
  }

  /** The first merged cell whose span covers (row, col). */
  function FirstCovering(ms: seq<TableMergedCell>, row: int, col: int): (r: Option<nat>)
    ensures r.Some? ==> r.value < |ms| && Covers(ms[r.value].info, row, col)
    ensures r.Some? ==> forall j :: 0 <= j < r.value ==> !Covers(ms[j].info, row, col)
    ensures r.None? ==> forall j :: 0 <= j < |ms| ==> !Covers(ms[j].info, row, col)
    decreases |ms|
  {
    if |ms| == 0 then None
    else if Covers(ms[0].info, row, col) then Some(0)
    else
      match FirstCovering(ms[1..], row, col)
      case None => None
      case Some(i) => Some(i + 1)
  }

  /** The first plain cell placed exactly at (row, col). */
  function FirstAt(cells: seq<TableCell>, row: int, col: int): (r: Option<nat>)
    ensures r.Some? ==> r.value < |cells| && cells[r.value].info.rowIndex == row && cells[r.value].info.columnIndex == col
    ensures r.Some? ==> forall j :: 0 <= j < r.value ==> !(cells[j].info.rowIndex == row && cells[j].info.columnIndex == col)
    ensures r.None? ==> forall j :: 0 <= j < |cells| ==> !(cells[j].info.rowIndex == row && cells[j].info.columnIndex == col)
    decreases |cells|
  {
    if |cells| == 0 then None
    else if cells[0].info.rowIndex == row && cells[0].info.columnIndex == col then Some(0)
    else
      match FirstAt(cells[1..], row, col)
      case None => None
      case Some(i) => Some(i + 1)
  }

  /**
   * CellAt: unless merged cells are ignored (the default), the first merged cell covering the
   * position wins; otherwise the first plain cell exactly there; None (nil) when there is none.
   */
  function CellAt(t: Table, row: int, col: int, ignoreMergedCells: bool): (r: Option<Cell>)
    ensures r.Some? && r.value.Merged? ==> !ignoreMergedCells && r.value.merged in t.mergedCells && Covers(r.value.merged.info, row, col)
    ensures r.Some? && r.value.Plain? ==> r.value.plain in t.cells && r.value.plain.info.rowIndex == row && r.value.plain.info.columnIndex == col
    ensures r.Some? && r.value.Plain? && !ignoreMergedCells ==> forall j :: 0 <= j < |t.mergedCells| ==> !Covers(t.mergedCells[j].info, row, col)
    ensures r.None? <==>
      (ignoreMergedCells || forall j :: 0 <= j < |t.mergedCells| ==> !Covers(t.mergedCells[j].info, row, col)) &&
      forall j :: 0 <= j < |t.cells| ==> !(t.cells[j].info.rowIndex == row && t.cells[j].info.columnIndex == col)
  {
    var mi := if ignoreMergedCells then None else FirstCovering(t.mergedCells, row, col);
    if mi.Some? then Some(Merged(t.mergedCells[mi.value]))
    else
      var ci := FirstAt(t.cells, row, col);
      if ci.Some? then Some(Plain(t.cells[ci.value])) else None
  }

  /** The merged cell's rows include `row`. */
  predicate CoversRow(info: CellInfo, row: int) {
    info.rowIndex <= row < info.rowIndex + info.rowSpan
  }

  /** The merged cells covering the row, in order. */
  function MergedInRow(ms: seq<TableMergedCell>, row: int): seq<Cell> {
    if |ms| == 0 then []
    else
      var last := ms[|ms| - 1];
      MergedInRow(ms[..|ms| - 1], row) + (if CoversRow(last.info, row) then [Merged(last)] else [])
  }

  /** The IDs of the cells. */
  function CellIDs(cells: seq<TableCell>): (ids: seq<string>)
    ensures |ids| == |cells|
    ensures forall i :: 0 <= i < |cells| ==> ids[i] == cells[i].info.id
  {
    seq(|cells|, i requires 0 <= i < |cells| => cells[i].info.id)
  }

  /** The IDs of the member cells of the merged cells covering the row. */
  function MemberIDs(ms: seq<TableMergedCell>, row: int): seq<string> {
    if |ms| == 0 then []
    else
      var last := ms[|ms| - 1];
      MemberIDs(ms[..|ms| - 1], row) + (if CoversRow(last.info, row) then CellIDs(last.cells) else [])
  }

  /** The plain cells of the row whose ID is not excluded, in order. */
  function PlainInRow(cells: seq<TableCell>, row: int, excluded: seq<string>): seq<Cell> {
    if |cells| == 0 then []
    else
      var last := cells[|cells| - 1];
      PlainInRow(cells[..|cells| - 1], row, excluded) +
        (if last.info.rowIndex == row && last.info.id !in excluded then [Plain(last)] else [])
  }

  /**
   * The cells of a row. By default (IgnoreMergedCells set) merged cells covering the row come
   * first and their member cells are left out; with the flag cleared only plain cells are listed.
   */
  function RowCells(t: Table, row: int, ignoreMergedCells: bool): seq<Cell> {
    if ignoreMergedCells then MergedInRow(t.mergedCells, row) + PlainInRow(t.cells, row, MemberIDs(t.mergedCells, row))
    else PlainInRow(t.cells, row, [])
  }

  /** A merged cell is listed exactly when it covers the row. */
  lemma {:induction false} MergedInRowMembers(ms: seq<TableMergedCell>, row: int, c: Cell)
    ensures c in MergedInRow(ms, row) <==> c.Merged? && c.merged in ms && CoversRow(c.merged.info, row)
    decreases |ms|
  {
    if |ms| > 0 {
      MergedInRowMembers(ms[..|ms| - 1], row, c);
      assert ms == ms[..|ms| - 1] + [ms[|ms| - 1]];
    }
  }

  /** A plain cell is listed exactly when it sits in the row and is not excluded. */
  lemma {:induction false} PlainInRowMembers(cells: seq<TableCell>, row: int, excluded: seq<string>, c: Cell)
    ensures c in PlainInRow(cells, row, excluded) <==>
      c.Plain? && c.plain in cells && c.plain.info.rowIndex == row && c.plain.info.id !in excluded
    decreases |cells|
  {
    if |cells| > 0 {
      PlainInRowMembers(cells[..|cells| - 1], row, excluded, c);
      assert cells == cells[..|cells| - 1] + [cells[|cells| - 1]];
    }
  }

  /** An ID is excluded exactly when it belongs to a member of a merged cell covering the row. */
  lemma {:induction false} MemberIDsMembers(ms: seq<TableMergedCell>, row: int, id: string)
    ensures id in MemberIDs(ms, row) <==>
      exists i, j :: 0 <= i < |ms| && 0 <= j < |ms[i].cells| && CoversRow(ms[i].info, row) && ms[i].cells[j].info.id == id
    decreases |ms|
  {
    if |ms| > 0 {
      var n := |ms| - 1;
      MemberIDsMembers(ms[..n], row, id);
      if id in MemberIDs(ms, row) && id !in MemberIDs(ms[..n], row) {
        var j :| 0 <= j < |ms[n].cells| && CellIDs(ms[n].cells)[j] == id;
        assert CoversRow(ms[n].info, row) && ms[n].cells[j].info.id == id;
      }
      if exists i, j :: 0 <= i < |ms| && 0 <= j < |ms[i].cells| && CoversRow(ms[i].info, row) && ms[i].cells[j].info.id == id {
        var i, j :| 0 <= i < |ms| && 0 <= j < |ms[i].cells| && CoversRow(ms[i].info, row) && ms[i].cells[j].info.id == id;
        if i == n {
          assert CellIDs(ms[n].cells)[j] == id;
        } else {
          assert ms[..n][i] == ms[i];
        }
      }
    }
  }

  /**
   * RowCellsAt: fills the row from the merged cells (collecting their members' IDs) and then from
   * the plain cells.
   */
  method RowCellsAt(t: Table, row: int, ignoreMergedCells: bool) returns (cells: seq<Cell>)
    ensures cells == RowCells(t, row, ignoreMergedCells)
  {
    cells := [];
    var mergedCellIDs: seq<string> := [];
    if ignoreMergedCells {
      cells, mergedCellIDs := MergedCellsAt(t.mergedCells, row);
    }
    var plain := PlainCellsAt(t.cells, row, mergedCellIDs);
    cells := cells + plain;
  }

  /** RowCellsAt's first loop: the merged cells covering the row, and their members' IDs. */
  method MergedCellsAt(ms: seq<TableMergedCell>, row: int) returns (cells: seq<Cell>, ids: seq<string>)
    ensures cells == MergedInRow(ms, row) && ids == MemberIDs(ms, row)
  {
    cells := [];
    ids := [];
    var i := 0;
    while i < |ms|
      invariant 0 <= i <= |ms|
      invariant cells == MergedInRow(ms[..i], row)
      invariant ids == MemberIDs(ms[..i], row)
    {
      var mc := ms[i];
      assert ms[..i + 1][..i] == ms[..i];
      if CoversRow(mc.info, row) {
        cells := cells + [Merged(mc)];
        ids := AppendCellIDs(ids, mc.cells);
      }
      i := i + 1;
    }
    assert ms[..|ms|] == ms;
  }

  /** RowCellsAt's inner loop: the IDs of the member cells appended one by one. */
  method AppendCellIDs(ids: seq<string>, members: seq<TableCell>) returns (r: seq<string>)
    ensures r == ids + CellIDs(members)
  {
    r := ids;
    var j := 0;
    while j < |members|
      invariant 0 <= j <= |members|
      invariant r == ids + CellIDs(members[..j])
    {
      assert CellIDs(members[..j + 1]) == CellIDs(members[..j]) + [members[j].info.id];
      AppendAssociates(ids, CellIDs(members[..j]), [members[j].info.id]);
      r := r + [members[j].info.id];
      j := j + 1;
    }
    assert members[..|members|] == members;
  }

  /** RowCellsAt's second loop: the plain cells of the row whose ID is not excluded. */
  method PlainCellsAt(cs: seq<TableCell>, row: int, excluded: seq<string>) returns (plain: seq<Cell>)
    ensures plain == PlainInRow(cs, row, excluded)
  {
    plain := [];
    var k := 0;
    while k < |cs|
      invariant 0 <= k <= |cs|
      invariant plain == PlainInRow(cs[..k], row, excluded)
    {
      var c := cs[k];
      assert cs[..k + 1][..k] == cs[..k];
      if c.info.rowIndex == row && c.info.id !in excluded {
        plain := plain + [Plain(c)];
      }
      k := k + 1;
    }
    assert cs[..|cs|] == cs;
  }

  /** The number of rows Rows produces: RowCount when positive, none otherwise. */
  function RowTotal(t: Table): nat
    requires |t.cells| > 0
  {
    if RowCount(t) > 0 then RowCount(t) else 0
  }

  /** Rows: row i + 1 holds the cells of row index i + 1, for every index from 1 to RowCount. */
  method Rows(t: Table, ignoreMergedCells: bool) returns (rows: seq<seq<Cell>>)
    requires |t.cells| > 0
    ensures |rows| == RowTotal(t)
    ensures forall i :: 0 <= i < |rows| ==> rows[i] == RowCells(t, i + 1, ignoreMergedCells)
  {
    var rowCount := RowCount(t);
    rows := [];
    var i := 1;
    while i <= rowCount
      invariant 1 <= i && (rowCount > 0 ==> i <= rowCount + 1) && (rowCount <= 0 ==> i == 1)
      invariant |rows| == i - 1
      invariant forall k :: 0 <= k < |rows| ==> rows[k] == RowCells(t, k + 1, ignoreMergedCells)
    {
      var r := RowCellsAt(t, i, ignoreMergedCells);
      rows := rows + [r];
      i := i + 1;
    }
  }

  /** The default-option texts of a row's cells. */
  function CellTexts(row: seq<Cell>): (texts: seq<string>)
    ensures |texts| == |row|
    ensures forall i :: 0 <= i < |row| ==> texts[i] == CellText(row[i])
  {
    seq(|row|, i requires 0 <= i < |row| => CellText(row[i]))
  }

  /** Each row's cell texts joined by the column separator. */
  function RowTexts(rows: seq<seq<Cell>>, colSep: string): (texts: seq<string>)
    ensures |texts| == |rows|
    ensures forall i :: 0 <= i < |rows| ==> texts[i] == Join(CellTexts(rows[i]), colSep)
  {
    seq(|rows|, i requires 0 <= i < |rows| => Join(CellTexts(rows[i]), colSep))
  }

  /** The plaintext linearization: row texts joined by the row separator. */
  function PlaintextBody(rows: seq<seq<Cell>>, opts: TextLinearizationOptions): string {
    Join(RowTexts(rows, opts.tableColumnSeparator), opts.tableRowSeparator)
  }

  /** The rows Table.Text renders: Rows with the default options. */
  function TableRows(t: Table): seq<seq<Cell>>
    requires |t.cells| > 0
  {
    seq(RowTotal(t), i requires 0 <= i < RowTotal(t) => RowCells(t, i + 1, true))
  }

  /** The header row tablewriter receives: the first row's cell texts, none without rows. */
  function MarkdownHeader(rows: seq<seq<Cell>>): seq<string> {
    if |rows| == 0 then [] else CellTexts(rows[0])
  }

  /** The data rows tablewriter receives: the cell texts of every row after the first. */
  function MarkdownData(rows: seq<seq<Cell>>): (data: seq<seq<string>>)
    ensures |rows| > 0 ==> |data| == |rows| - 1
    ensures forall i :: 1 <= i < |rows| ==> data[i - 1] == CellTexts(rows[i])
  {
    if |rows| == 0 then [] else seq(|rows| - 1, i requires 0 <= i < |rows| - 1 => CellTexts(rows[i + 1]))
  }

  /** One row's cell texts joined by the separator, built as the source's loop builds it. */
  method RowText(row: seq<Cell>, colSep: string) returns (cellText: string)
    ensures cellText == Join(CellTexts(row), colSep)
  {
    cellText := "";
    var i := 0;
    while i < |row|
      invariant 0 <= i <= |row|
      invariant cellText == Join(CellTexts(row[..i]), colSep)
    {
      var text := CellTextOf(row[i]);
      assert CellTexts(row[..i + 1]) == CellTexts(row[..i]) + [text];
      if i == 0 {
        cellText := cellText + text;
      } else {
        JoinAppend(CellTexts(row[..i]), colSep, text);
        cellText := cellText + colSep + text;
      }
      i := i + 1;
    }
    assert row[..|row|] == row;
  }

  /**
   * Table.Text: the rows rendered as plain text or, through the table writer `render`, as a
   * markdown table, between the table prefix and suffix. Any other format panics, hence the
   * precondition; so does a table without cells.
   */
  method Text(t: Table, opts: TextLinearizationOptions, render: (seq<string>, seq<seq<string>>) -> string)
    returns (text: string)
    requires |t.cells| > 0
    requires opts.tableLinearizationFormat == "plaintext" || opts.tableLinearizationFormat == "markdown"
    ensures opts.tableLinearizationFormat == "plaintext" ==>
      text == opts.tablePrefix + PlaintextBody(TableRows(t), opts) + opts.tableSuffix
    ensures opts.tableLinearizationFormat == "markdown" ==>
      text == opts.tablePrefix + render(MarkdownHeader(TableRows(t)), MarkdownData(TableRows(t))) + opts.tableSuffix
  {
    var rows := Rows(t, true);
    assert rows == TableRows(t);
    var tableText: string;
    if opts.tableLinearizationFormat == "plaintext" {
      var texts := PlaintextRows(rows, opts.tableColumnSeparator);
      tableText := Join(texts, opts.tableRowSeparator);
    } else {
      var header, data := MarkdownRows(rows);
      tableText := render(header, data);
    }
    text := opts.tablePrefix + tableText + opts.tableSuffix;
  }

  /** Text's plaintext loop: each row's cell texts joined by the column separator. */
  method PlaintextRows(rows: seq<seq<Cell>>, colSep: string) returns (texts: seq<string>)
    ensures texts == RowTexts(rows, colSep)
  {
    texts := [];
    var i := 0;
    while i < |rows|
      invariant 0 <= i <= |rows|
      invariant texts == RowTexts(rows[..i], colSep)
    {
      var cellText := RowText(rows[i], colSep);
      texts := texts + [cellText];
      i := i + 1;
    }
    assert rows[..|rows|] == rows;
  }

  /** Text's markdown loop: the first row's cell texts are the header, the others the data. */
  method MarkdownRows(rows: seq<seq<Cell>>) returns (header: seq<string>, data: seq<seq<string>>)
    ensures header == MarkdownHeader(rows) && data == MarkdownData(rows)
  {
    header := [];
    data := [];
    var i := 0;
    while i < |rows|
      invariant 0 <= i <= |rows|
      invariant header == MarkdownHeader(rows[..i])
      invariant i > 0 ==> |data| == i - 1 && forall k :: 1 <= k < i ==> data[k - 1] == CellTexts(rows[k])
      invariant i == 0 ==> data == []
    {
      var rowData := CellTextsOf(rows[i]);
      if i == 0 {
        header := rowData;
      } else {
        data := data + [rowData];
      }
      i := i + 1;
    }
    assert rows[..|rows|] == rows;
  }

  /** Text's inner markdown loop: the default-option text of each cell of the row. */
  method CellTextsOf(row: seq<Cell>) returns (rowData: seq<string>)
    ensures rowData == CellTexts(row)
  {
    rowData := [];
    var j := 0;
    while j < |row|
      invariant 0 <= j <= |row|
      invariant rowData == CellTexts(row[..j])
    {
      var ct := CellTextOf(row[j]);
      rowData := rowData + [ct];
      j := j + 1;
    }
    assert row[..|row|] == row;
  }

  /**
   * With the default separators, cell texts free of tabs and newlines can be read back from the
   * plaintext rendering: split on newlines for the rows, then on tabs for the cells.
   */
  lemma PlaintextReadsBack(rows: seq<seq<Cell>>)
    requires |rows| >= 1
    requires forall i :: 0 <= i < |rows| ==> |rows[i]| >= 1
    requires forall i, j :: 0 <= i < |rows| && 0 <= j < |rows[i]| ==> '\t' !in CellText(rows[i][j]) && '\n' !in CellText(rows[i][j])
    ensures |Split(PlaintextBody(rows, DefaultOptions), '\n')| == |rows|
    ensures forall i :: 0 <= i < |rows| ==> Split(Split(PlaintextBody(rows, DefaultOptions), '\n')[i], '\t') == CellTexts(rows[i])
  {
    var texts := RowTexts(rows, "\t");
    forall i | 0 <= i < |rows|
      ensures '\n' !in texts[i]
      ensures Split(texts[i], '\t') == CellTexts(rows[i])
    {
      JoinLacks(CellTexts(rows[i]), "\t", '\n');
      SplitJoin(CellTexts(rows[i]), '\t');
    }
    SplitJoin(texts, '\n');
  }

  /** Table.Words: the words of the plain cells, in cell order. */
  method Words(t: Table) returns (words: seq<Word>)
    ensures words == Flatten(MemberWords(t.cells))
    ensures |words| == TotalLen(MemberWords(t.cells))
  {
    words := CellsWords(t.cells);
  }
}
