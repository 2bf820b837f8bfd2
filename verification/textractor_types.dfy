/**
 * The go-textractor entities the modelled files share: words, selection elements, the Textract
 * block they are built from, and the text linearization options with their defaults.
 */
module TextractorTypes {
  import opened GoStrings
  import opened Wrappers

  /** A recognised word; only its text matters here. */
  datatype Word = Word(text: string)

  datatype SelectionStatus = Selected | NotSelected

  /** A check box or radio button found on the page. */
  datatype SelectionElement = SelectionElement(status: SelectionStatus)

  /** A relationship of a block: its type (CHILD, VALUE, MERGED_CELL, ...) and the related block IDs. */
  datatype Relationship = Relationship(relType: string, ids: seq<string>)

  /**
   * A Textract block. The optional fields are the API's pointers: None is nil. Geometry and
   * confidence are not modelled.
   */
  datatype Block = Block(
    id: Option<string>,
    blockType: string,
    page: Option<int>,
    rowIndex: Option<int>,
    columnIndex: Option<int>,
    rowSpan: Option<int>,
    columnSpan: Option<int>,
    relationships: seq<Relationship>)

  /** aws.ToString: the pointed-to string, "" for nil. */
  function ToString(p: Option<string>): string {
    if p.Some? then p.value else ""
  }

  /** aws.ToInt32: the pointed-to number, 0 for nil. */
  function ToInt32(p: Option<int>): int {
    if p.Some? then p.value else 0
  }

  /** TextLinearizationOptions: the separators, prefixes and markers used when rendering text. */
  datatype TextLinearizationOptions = TextLinearizationOptions(
    sameParagraphSeparator: string,
    tableLinearizationFormat: string,
    tableColumnSeparator: string,
    tableRowSeparator: string,
    tablePrefix: string,
    tableSuffix: string,
    keyValuePrefix: string,
    keyValueSuffix: string,
    keyPrefix: string,
    keySuffix: string,
    valuePrefix: string,
    valueSuffix: string,
    selectionElementSelected: string,
    selectionElementNotSelected: string)

  /** DefaultLinerizationOptions, restricted to the fields the modelled operations read. */
  const DefaultOptions := TextLinearizationOptions(
    " ", "plaintext", "\t", "\n", "", "", "", "", "", "", "", "", "[X]", "[ ]")

  /** The texts of the words, in order. */
  function WordTexts(words: seq<Word>): (texts: seq<string>)
    ensures |texts| == |words|
    ensures forall i :: 0 <= i < |words| ==> texts[i] == words[i].text
  {
    seq(|words|, i requires 0 <= i < |words| => words[i].text)
  }

  /** The words' texts joined by single spaces, the rendering shared by cells, keys and values. */
  function SpacedText(words: seq<Word>): string {
    Join(WordTexts(words), " ")
  }

  /**
   * The loop every text rendering of the library repeats: collect the word texts into an array,
   * then join them with single spaces.
   */
  method JoinWordTexts(words: seq<Word>) returns (text: string)
    ensures text == SpacedText(words)
  {
    var texts := new string[|words|];
    var i := 0;
    while i < |words|
      invariant 0 <= i <= |words|
      invariant forall k :: 0 <= k < i ==> texts[k] == words[k].text
    {
      texts[i] := words[i].text;
      i := i + 1;
    }
    assert texts[..] == WordTexts(words);
    text := Join(texts[..], " ");
  }

  /** Words without spaces can be read back from their spaced rendering. */
  lemma SpacedTextSplitsBack(words: seq<Word>)
    requires |words| >= 1
    requires forall i :: 0 <= i < |words| ==> ' ' !in words[i].text
    ensures Split(SpacedText(words), ' ') == WordTexts(words)
  {
    SplitJoin(WordTexts(words), ' ');
  }
}
