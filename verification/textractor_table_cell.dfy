/**
 * go-textractor's table cells: a plain cell holds words or a selection element; a merged cell
 * groups plain cells. Both carry their 1-based row and column and their spans.
 */
module TextractorTableCell {
  import opened Wrappers
  import opened TextractorTypes
  import opened TextractorUtil
  import TextractorSelection

  /** The fields shared by both kinds of cell (the source's embedded `cell`). */
  datatype CellInfo = CellInfo(id: string, rowIndex: int, columnIndex: int, rowSpan: int, columnSpan: int)

  datatype TableCell = TableCell(info: CellInfo, words: seq<Word>, selection: Option<SelectionElement>)

  datatype TableMergedCell = TableMergedCell(info: CellInfo, cells: seq<TableCell>)

  /** The Cell interface: either kind of cell. */
  datatype Cell = Plain(plain: TableCell) | Merged(merged: TableMergedCell)

  /** newCell: the block's ID, indexes and spans, each absent one read as 0. */
  function NewCell(b: Block): (info: CellInfo)
    ensures b.rowIndex.Some? ==> info.rowIndex == b.rowIndex.value
    ensures b.rowIndex.None? ==> info.rowIndex == 0
    ensures b.columnIndex.Some? ==> info.columnIndex == b.columnIndex.value
    ensures b.columnIndex.None? ==> info.columnIndex == 0
    ensures b.rowSpan.Some? ==> info.rowSpan == b.rowSpan.value
    ensures b.rowSpan.None? ==> info.rowSpan == 0
    ensures b.columnSpan.Some? ==> info.columnSpan == b.columnSpan.value
    ensures b.columnSpan.None? ==> info.columnSpan == 0
  {
    CellInfo(ToString(b.id), ToInt32(b.rowIndex), ToInt32(b.columnIndex), ToInt32(b.rowSpan), ToInt32(b.columnSpan))
  }

  /** IsMerged: the cell spans more than one row or more than one column. */
  predicate IsMerged(info: CellInfo) {
    info.rowSpan > 1 || info.columnSpan > 1
  }

  /** The cell's half-open span covers position (row, col). */
  predicate Covers(info: CellInfo, row: int, col: int) {
    info.rowIndex <= row < info.rowIndex + info.rowSpan &&
    info.columnIndex <= col < info.columnIndex + info.columnSpan
  }

  /**
   * A cell that is not merged and has positive spans covers its own position only; a merged
   * cell with positive spans covers at least one further position.
   */
  lemma MergedIffCoversMore(info: CellInfo)
    requires info.rowSpan >= 1 && info.columnSpan >= 1
    ensures !IsMerged(info) ==> forall r, c :: Covers(info, r, c) <==> r == info.rowIndex && c == info.columnIndex
    ensures IsMerged(info) ==> exists r, c :: Covers(info, r, c) && (r, c) != (info.rowIndex, info.columnIndex)
  {
    if IsMerged(info) {
      if info.rowSpan > 1 {
        assert Covers(info, info.rowIndex + 1, info.columnIndex);
      } else {
        assert Covers(info, info.rowIndex, info.columnIndex + 1);
      }
    }
  }

  /** A cell read from a block without spans is never merged. */
  lemma NewCellWithoutSpansNotMerged(b: Block)
    requires b.rowSpan.None? && b.columnSpan.None?
    ensures !IsMerged(NewCell(b))
  {
  }

  /** The text of a plain cell: its selection element's marker if it has one, else its words. */
  function PlainText(tc: TableCell, opts: TextLinearizationOptions): string {
    if tc.selection.Some? then TextractorSelection.Text(tc.selection.value, opts) else SpacedText(tc.words)
  }

  /** TableCell.Text. */
  method TableCellText(tc: TableCell, opts: TextLinearizationOptions) returns (text: string)
    ensures tc.selection.Some? ==> text == TextractorSelection.Text(tc.selection.value, opts)
    ensures tc.selection.None? ==> text == SpacedText(tc.words)
  {
    if tc.selection.Some? {
      return TextractorSelection.Text(tc.selection.value, opts);
    }
    text := JoinWordTexts(tc.words);
  }

  /** The member cells' word lists, in order. */
  function MemberWords(cells: seq<TableCell>): (ws: seq<seq<Word>>)
    ensures |ws| == |cells|
    ensures forall i :: 0 <= i < |cells| ==> ws[i] == cells[i].words
  {
    seq(|cells|, i requires 0 <= i < |cells| => cells[i].words)
  }

  /** The words of a merged cell: all words of its member cells, in member order. */
  function MergedWords(m: TableMergedCell): seq<Word> {
    Flatten(MemberWords(m.cells))
  }

  /**
   * The loop shared by TableMergedCell.Words and Table.Words: gather each cell's word list, then
   * concatenate them.
   */
  method CellsWords(cells: seq<TableCell>) returns (words: seq<Word>)
    ensures words == Flatten(MemberWords(cells))
    ensures |words| == TotalLen(MemberWords(cells))
  {
    var lists: seq<seq<Word>> := [];
    var i := 0;
    while i < |cells|
      invariant 0 <= i <= |cells|
      invariant lists == MemberWords(cells[..i])
    {
      lists := lists + [cells[i].words];
      i := i + 1;
    }
    assert cells[..|cells|] == cells;
    words := Concatenate(lists);
  }

  /** TableMergedCell.Words. */
  method MergedCellWords(m: TableMergedCell) returns (words: seq<Word>)
    ensures words == MergedWords(m)
    ensures |words| == TotalLen(MemberWords(m.cells))
  {
    words := CellsWords(m.cells);
  }

  /** Every word of every member cell appears in the merged cell's words. */
  lemma MergedWordsKeepMembers(m: TableMergedCell, i: nat, k: nat)
    requires i < |m.cells| && k < |m.cells[i].words|
    ensures m.cells[i].words[k] in MergedWords(m)
  {
    FlattenAt(MemberWords(m.cells), i, k);
  }

  /** The text of a merged cell: its words joined by single spaces; options are ignored. */
  function MergedText(m: TableMergedCell): string {
    SpacedText(MergedWords(m))
  }

  /** TableMergedCell.Text. */
  method MergedCellText(m: TableMergedCell) returns (text: string)
    ensures text == MergedText(m)
  {
    var words := MergedCellWords(m);
    text := JoinWordTexts(words);
  }

  /** Words of either kind of cell. */
  function CellWords(c: Cell): seq<Word> {
    match c
    case Plain(tc) => tc.words
    case Merged(m) => MergedWords(m)
  }

  /** Cell.Text for either kind of cell, with the default options. */
  method CellTextOf(c: Cell) returns (text: string)
    ensures text == CellText(c)
  {
    match c
    case Plain(tc) =>
      text := TableCellText(tc, DefaultOptions);
    case Merged(m) =>
      text := MergedCellText(m);
  }

  /** Text of either kind of cell, under the default options. */
  function CellText(c: Cell): string {
    match c
    case Plain(tc) => PlainText(tc, DefaultOptions)
    case Merged(m) => MergedText(m)
  }

  /** A merged cell with a single member and no selection element renders as that member. */
  lemma SingleMemberMergedText(m: TableMergedCell)
    requires |m.cells| == 1 && m.cells[0].selection.None?
    ensures MergedText(m) == PlainText(m.cells[0], DefaultOptions)
  {
    var ws := MemberWords(m.cells);
    assert ws == [m.cells[0].words];
    assert ws[..0] == [];
    assert Flatten(ws) == Flatten(ws[..0]) + ws[0];
    assert MergedWords(m) == m.cells[0].words;
  }
}
