/**
 * The rolling markdown splitter: lines are grouped into heading-delimited blocks, each block
 * carries the headings above it, oversized blocks are cut by a second (token) splitter, and the
 * blocks are packed into chunks against a token budget. The token counter and the second
 * splitter are parameters of the model.
 */
module MarkdownRolling {
  import opened GoStrings
  import opened Wrappers

  /** The default options of the splitter. */
  const DefaultChunkSize: int := 1024
  const DefaultChunkOverlap: int := 256
  const DefaultIgnoreHeadingOnly: bool := true

  /**
   * What the splitter works with: the chunk size, whether heading-only blocks are dropped, the
   * token counter (getTokenSize) and the token splitter's SplitText for a given chunk size.
   */
  datatype Settings = Settings(
    chunkSize: int,
    ignoreHeadingOnly: bool,
    tokenSize: string -> nat,
    splitContent: (string, int) -> Result<seq<string>, string>)

  /** A finished block: its text and token count. */
  datatype Block = Block(text: string, tokenSize: int)

  /** Why SplitText stops: the token splitter's error, or a Go runtime panic. */
  datatype Failure = SplitFailed(msg: string) | Panicked(msg: string)

  datatype Outcome = Chunks(chunks: seq<string>) | Failed(failure: Failure)

  /** A Go slice of strings: its backing array (whose length is the capacity) and its length. */
  datatype GoSlice = GoSlice(backing: seq<string>, len: nat)

  predicate ValidSlice(s: GoSlice) {
    s.len <= |s.backing|
  }

  /** The elements a slice shows. */
  function Entries(s: GoSlice): seq<string>
    requires ValidSlice(s)
  {
    s.backing[..s.len]
  }

  /** The capacity append allocates when a full slice of capacity c grows by one. */
  function GrowCap(c: nat): (n: nat)
    ensures n > c
  {
    if c == 0 then 1 else if c < 256 then 2 * c else c + (c + 768) / 4
  }

  /** append(s, x): in place when there is room, otherwise into a new, larger, zeroed array. */
  function AppendSlice(s: GoSlice, x: string): (r: GoSlice)
    requires ValidSlice(s)
    ensures ValidSlice(r) && Entries(r) == Entries(s) + [x]
    ensures |r.backing| >= |s.backing|
  {
    if s.len < |s.backing| then GoSlice(s.backing[s.len := x], s.len + 1)
    else GoSlice(s.backing + [x] + seq(GrowCap(|s.backing|) - s.len - 1, _ => ""), s.len + 1)
  }

  /** The backing array with the entries strictly between lo and hi set to "". */
  function ClearBetween(b: seq<string>, lo: int, hi: int): (r: seq<string>)
    ensures |r| == |b|
    ensures forall k :: 0 <= k < |b| ==> r[k] == (if lo < k < hi then "" else b[k])
  {
    seq(|b|, k requires 0 <= k < |b| => if lo < k < hi then "" else b[k])
  }

  /** A line whose first character is '#' has a first word with at least one '#'. */
  lemma FirstWordHasHash(line: string)
    requires HasPrefix(line, "#")
    ensures CountChar(Split(line, ' ')[0], '#') >= 1
  {
    var rest := Split(line[1..], ' ');
    assert Split(line, ' ') == [[line[0]] + rest[0]] + rest[1..];
  }

  /** The heading level: the number of '#' in the first space-separated word, less one. */
  function HeadingLevel(line: string): nat
    requires HasPrefix(line, "#")
  {
    FirstWordHasHash(line);
    CountChar(Split(line, ' ')[0], '#') - 1
  }

  /** Go's panic message for s[:level] beyond the capacity. */
  function SliceBoundsPanic(level: nat, capacity: nat): string {
    "runtime error: slice bounds out of range [:" + NatToString(level) + "] with capacity " + NatToString(capacity)
  }

  /**
   * The heading stack after a heading of the given level, the previous heading's level being
   * current: stack[:level] plus the line, with the entries between the two levels cleared.
   * A level beyond the capacity panics.
   */
  function PushHeading(stack: GoSlice, current: nat, level: nat, line: string): (r: Result<GoSlice, Failure>)
    requires ValidSlice(stack)
    ensures r.Err? <==> level > |stack.backing|
    ensures r.Err? ==> r.error == Panicked(SliceBoundsPanic(level, |stack.backing|))
    ensures r.Ok? ==> ValidSlice(r.value) && |Entries(r.value)| == level + 1 && Entries(r.value)[level] == line
    ensures r.Ok? ==> forall k :: 0 <= k < level ==> Entries(r.value)[k] == (if current < k then "" else stack.backing[k])
  {
    if level > |stack.backing| then Err(Panicked(SliceBoundsPanic(level, |stack.backing|)))
    else
      var pushed := AppendSlice(GoSlice(stack.backing, level), line);
      assert forall k :: 0 <= k < level ==> pushed.backing[k] == Entries(pushed)[k] == stack.backing[k];
      Ok(GoSlice(ClearBetween(pushed.backing, current, level), pushed.len))
  }

  /** A heading within the current length and no deeper than one below the current one: stack[:level] ++ [line]. */
  lemma PushHeadingWithinLength(stack: GoSlice, current: nat, level: nat, line: string)
    requires ValidSlice(stack) && level <= stack.len && level <= current + 1
    ensures PushHeading(stack, current, level, line).Ok?
    ensures Entries(PushHeading(stack, current, level, line).value) == Entries(stack)[..level] + [line]
  {
    var r := PushHeading(stack, current, level, line).value;
    assert forall k :: 0 <= k < level ==> Entries(r)[k] == Entries(stack)[k];
  }

  /** The heading-stack update of lines 143-157, with its two clearing loops. */
  method UpdateHeadingStack(stack: GoSlice, current: nat, line: string) returns (r: Result<GoSlice, Failure>)
    requires ValidSlice(stack) && HasPrefix(line, "#")
    ensures r == PushHeading(stack, current, HeadingLevel(line), line)
  {
    var level := HeadingLevel(line);
    if level > |stack.backing| {
      return Err(Panicked(SliceBoundsPanic(level, |stack.backing|)));
    }
    var pushed := AppendSlice(GoSlice(stack.backing, level), line);
    var b := pushed.backing;
    // The forward clearing loop of lines 148-150 starts at level + 1, which is the new length:
    // it never runs.
    var j := level - 1;
    while j > current
      invariant j <= level - 1
      invariant b == ClearBetween(pushed.backing, if j > current then j else current, level)
    {
      b := b[j := ""];
      j := j - 1;
    }
    return Ok(GoSlice(b, pushed.len));
  }

  /** The blocks of one split piece each, every one headed by the heading text. */
  function HeadedBlocks(st: Settings, headingStr: string, splits: seq<string>): (r: seq<Block>)
    ensures |r| == |splits|
    ensures forall k :: 0 <= k < |r| ==> r[k].text == headingStr + "\n" + splits[k]
  {
    seq(|splits|, k requires 0 <= k < |splits| =>
      Block(headingStr + "\n" + splits[k], st.tokenSize(headingStr + "\n" + splits[k])))
  }

  function HeadingStr(stack: seq<string>): string {
    TrimSpace(Join(NonEmpty(stack), "\n"))
  }

  function ContentStr(lines: seq<string>): string {
    TrimSpace(Join(lines, "\n"))
  }

  /**
   * finishBlock: the blocks after closing the block of the given content lines under the given
   * heading stack, and the token splitter's chunk size afterwards.
   */
  function Finish(st: Settings, blocks: seq<Block>, lines: seq<string>, stack: seq<string>, splitterSize: int): (Result<seq<Block>, string>, int)
  {
    if |lines| == 0 && st.ignoreHeadingOnly then (Ok(blocks), splitterSize)
    else
      var text := HeadingStr(stack) + "\n" + ContentStr(lines);
      var size := st.tokenSize(text);
      if size <= st.chunkSize then (Ok(blocks + [Block(text, size)]), splitterSize)
      else
        var newSize := st.chunkSize - st.tokenSize(HeadingStr(stack));
        var splits := st.splitContent(ContentStr(lines), newSize);
        if splits.Err? then (Err(splits.error), newSize)
        else (Ok(blocks + HeadedBlocks(st, HeadingStr(stack), splits.value)), newSize)
  }

  /**
   * What finishBlock adds: nothing for a heading-only block when those are ignored; otherwise the
   * whole block when it fits the budget, or one block per piece of the content, each headed by
   * the headings. Every block text holds the "\n" between headings and content, so it is never
   * empty (the emptiness check of line 80 cannot fire).
   */
  lemma FinishAdds(st: Settings, blocks: seq<Block>, lines: seq<string>, stack: seq<string>, splitterSize: int)
    ensures var (r, size) := Finish(st, blocks, lines, stack, splitterSize);
      r.Ok? ==> (|r.value| >= |blocks| && r.value[..|blocks|] == blocks &&
        forall k :: |blocks| <= k < |r.value| ==> HasPrefix(r.value[k].text, HeadingStr(stack) + "\n"))
    ensures var (r, size) := Finish(st, blocks, lines, stack, splitterSize);
      r.Ok? ==> forall k :: |blocks| <= k < |r.value| ==> |r.value[k].text| > 0
    ensures |lines| == 0 && st.ignoreHeadingOnly ==> Finish(st, blocks, lines, stack, splitterSize) == (Ok(blocks), splitterSize)
    ensures var text := HeadingStr(stack) + "\n" + ContentStr(lines);
      !(|lines| == 0 && st.ignoreHeadingOnly) && st.tokenSize(text) <= st.chunkSize ==>
        Finish(st, blocks, lines, stack, splitterSize) == (Ok(blocks + [Block(text, st.tokenSize(text))]), splitterSize)
    ensures var text := HeadingStr(stack) + "\n" + ContentStr(lines);
      !(|lines| == 0 && st.ignoreHeadingOnly) && st.tokenSize(text) > st.chunkSize ==>
        Finish(st, blocks, lines, stack, splitterSize).1 == st.chunkSize - st.tokenSize(HeadingStr(stack))
  {
    var (r, size) := Finish(st, blocks, lines, stack, splitterSize);
    if r.Ok? {
      forall k | |blocks| <= k < |r.value|
        ensures HasPrefix(r.value[k].text, HeadingStr(stack) + "\n")
      {
        var p := HeadingStr(stack) + "\n";
        assert r.value[k].text[..|p|] == p;
      }
    }
  }

  /** The state of the line loop of SplitText. */
  datatype Scan = Scan(
    stack: GoSlice,
    level: nat,
    lines: seq<string>,
    blocks: seq<Block>,
    splitterSize: int,
    failure: Option<Failure>)

  predicate ValidScan(s: Scan) {
    ValidSlice(s.stack)
  }

  /** One line: a heading finishes the block and updates the stack; any other line joins the block. */
  function Step(st: Settings, s: Scan, line: string): (r: Scan)
    requires ValidScan(s)
    ensures ValidScan(r)
    ensures r.lines == s.lines || r.lines == [] || (r.lines == s.lines + [line] && !HasPrefix(line, "#"))
  {
    if s.failure.Some? then s
    else if HasPrefix(line, "#") then
      var fin := Finish(st, s.blocks, s.lines, Entries(s.stack), s.splitterSize);
      if fin.0.Err? then s.(splitterSize := fin.1, failure := Some(SplitFailed(fin.0.error)))
      else
        var pushed := PushHeading(s.stack, s.level, HeadingLevel(line), line);
        if pushed.Err? then s.(blocks := fin.0.value, lines := [], splitterSize := fin.1, failure := Some(pushed.error))
        else Scan(pushed.value, HeadingLevel(line), [], fin.0.value, fin.1, None)
    else s.(lines := s.lines + [line])
  }

  function ScanLines(st: Settings, init: Scan, lines: seq<string>): (r: Scan)
    requires ValidScan(init)
    ensures ValidScan(r)
  {
    if |lines| == 0 then init else Step(st, ScanLines(st, init, lines[..|lines| - 1]), lines[|lines| - 1])
  }

  /** The loop's starting state: an empty stack, level 1, no lines, no blocks. */
  function InitScan(splitterSize: int): Scan {
    Scan(GoSlice([], 0), 1, [], [], splitterSize, None)
  }

  /** Once a line has failed, the later lines change nothing. */
  lemma {:induction false} ScanStopsAtFailure(st: Settings, init: Scan, lines: seq<string>, i: nat)
    requires ValidScan(init) && i <= |lines| && ScanLines(st, init, lines[..i]).failure.Some?
    ensures ScanLines(st, init, lines) == ScanLines(st, init, lines[..i])
    decreases |lines| - i
  {
    if i < |lines| {
      assert lines[..i + 1][..i] == lines[..i];
      ScanStopsAtFailure(st, init, lines, i + 1);
    } else {
      assert lines[..i] == lines;
    }
  }

  /** Heading lines never become content: the block being built holds only the lines since the last heading. */
  lemma {:induction false} ContentHasNoHeadings(st: Settings, lines: seq<string>, splitterSize: int)
    ensures forall k :: 0 <= k < |ScanLines(st, InitScan(splitterSize), lines).lines| ==>
      !HasPrefix(ScanLines(st, InitScan(splitterSize), lines).lines[k], "#")
    decreases |lines|
  {
    if |lines| > 0 {
      ContentHasNoHeadings(st, lines[..|lines| - 1], splitterSize);
      var prev := ScanLines(st, InitScan(splitterSize), lines[..|lines| - 1]);
      assert ScanLines(st, InitScan(splitterSize), lines) == Step(st, prev, lines[|lines| - 1]);
    }
  }

  /** The packing state: chunks emitted so far and the chunk being built. */
  datatype Chunking = Chunking(chunks: seq<string>, current: Block)

  /** The packing loop of lines 174-184. */
  function Pack(chunkSize: int, blocks: seq<Block>): Chunking {
    if |blocks| == 0 then Chunking([], Block("", 0))
    else
      var p := Pack(chunkSize, blocks[..|blocks| - 1]);
      var b := blocks[|blocks| - 1];
      if p.current.tokenSize + b.tokenSize <= chunkSize then
        Chunking(p.chunks, Block(p.current.text + "\n" + b.text, p.current.tokenSize + b.tokenSize))
      else Chunking(p.chunks + [p.current.text], b)
  }

  /** Every block text, each after a "\n". */
  function Flatten(blocks: seq<Block>): string {
    if |blocks| == 0 then "" else Flatten(blocks[..|blocks| - 1]) + "\n" + blocks[|blocks| - 1].text
  }

  /** The emitted chunks and the one still being built hold all block text, in order. */
  lemma {:induction false} PackKeepsText(chunkSize: int, blocks: seq<Block>)
    ensures Join(Pack(chunkSize, blocks).chunks + [Pack(chunkSize, blocks).current.text], "\n") == Flatten(blocks)
    decreases |blocks|
  {
    if |blocks| > 0 {
      var init := blocks[..|blocks| - 1];
      var p := Pack(chunkSize, init);
      var b := blocks[|blocks| - 1];
      PackKeepsText(chunkSize, init);
      if p.current.tokenSize + b.tokenSize <= chunkSize {
        if |p.chunks| == 0 {
          assert Join([p.current.text + "\n" + b.text], "\n") == p.current.text + "\n" + b.text;
        } else {
          JoinAppend(p.chunks, "\n", p.current.text);
          JoinAppend(p.chunks, "\n", p.current.text + "\n" + b.text);
        }
      } else {
        JoinAppend(p.chunks + [p.current.text], "\n", b.text);
      }
    }
  }

  /** The chunk being built stays within the budget unless it is a single oversized block. */
  lemma {:induction false} PackWithinBudget(chunkSize: int, blocks: seq<Block>)
    requires |blocks| > 0
    ensures Pack(chunkSize, blocks).current.tokenSize <= chunkSize || Pack(chunkSize, blocks).current == blocks[|blocks| - 1]
  {
  }

  /** As written the chunk being built is never emitted: a single block within the budget gives no chunk. */
  lemma SingleBlockLost(chunkSize: int, b: Block)
    requires 0 <= b.tokenSize <= chunkSize
    ensures Pack(chunkSize, [b]).chunks == []
    ensures Flatten([b]) == "\n" + b.text
  {
    assert [b][..0] == [];
  }

  /** The corrected packing state: no chunk is open until a block arrives. */
  datatype OpenChunking = OpenChunking(chunks: seq<string>, current: Option<Block>)

  function PackOpen(chunkSize: int, blocks: seq<Block>): (r: OpenChunking)
    ensures r.current.None? <==> |blocks| == 0
  {
    if |blocks| == 0 then OpenChunking([], None)
    else
      var p := PackOpen(chunkSize, blocks[..|blocks| - 1]);
      var b := blocks[|blocks| - 1];
      if p.current.None? then OpenChunking(p.chunks, Some(b))
      else if p.current.value.tokenSize + b.tokenSize <= chunkSize then
        OpenChunking(p.chunks, Some(Block(p.current.value.text + "\n" + b.text, p.current.value.tokenSize + b.tokenSize)))
      else OpenChunking(p.chunks + [p.current.value.text], Some(b))
  }

  /** The corrected packing: the first block opens a chunk, and the last chunk is emitted. */
  function PackCorrected(chunkSize: int, blocks: seq<Block>): seq<string> {
    var p := PackOpen(chunkSize, blocks);
    if p.current.Some? then p.chunks + [p.current.value.text] else p.chunks
  }

  function Texts(blocks: seq<Block>): (r: seq<string>)
    ensures |r| == |blocks| && forall k :: 0 <= k < |blocks| ==> r[k] == blocks[k].text
  {
    seq(|blocks|, k requires 0 <= k < |blocks| => blocks[k].text)
  }

  /** The corrected chunks joined by "\n" are the block texts joined by "\n": no text is lost or added. */
  lemma {:induction false} PackCorrectedKeepsText(chunkSize: int, blocks: seq<Block>)
    ensures Join(PackCorrected(chunkSize, blocks), "\n") == Join(Texts(blocks), "\n")
    ensures |blocks| > 0 ==> |PackCorrected(chunkSize, blocks)| >= 1
    decreases |blocks|
  {
    if |blocks| > 0 {
      var init := blocks[..|blocks| - 1];
      var p := PackOpen(chunkSize, init);
      var b := blocks[|blocks| - 1];
      PackCorrectedKeepsText(chunkSize, init);
      assert Texts(blocks) == Texts(init) + [b.text];
      if p.current.None? {
        assert |init| == 0;
        assert Texts(blocks) == [b.text];
      } else {
        JoinAppend(Texts(init), "\n", b.text);
        var c := p.current.value;
        if c.tokenSize + b.tokenSize <= chunkSize {
          if |p.chunks| == 0 {
            assert Join([c.text + "\n" + b.text], "\n") == c.text + "\n" + b.text;
          } else {
            JoinAppend(p.chunks, "\n", c.text);
            JoinAppend(p.chunks, "\n", c.text + "\n" + b.text);
          }
        } else {
          JoinAppend(p.chunks + [c.text], "\n", b.text);
        }
      }
    }
  }

  /** In the corrected packing, too, the open chunk is within the budget unless it is one oversized block. */
  lemma {:induction false} PackCorrectedWithinBudget(chunkSize: int, blocks: seq<Block>)
    requires |blocks| > 0
    ensures PackOpen(chunkSize, blocks).current.value.tokenSize <= chunkSize ||
      PackOpen(chunkSize, blocks).current.value == blocks[|blocks| - 1]
  {
  }

  /** A single block within the budget is one chunk of its own text. */
  lemma SingleBlockKept(chunkSize: int, b: Block)
    ensures PackCorrected(chunkSize, [b]) == [b.text]
  {
    assert [b][..0] == [];
    assert PackOpen(chunkSize, [b]) == OpenChunking([], Some(b));
  }

  /** The packing loop as written. */
  method PackBlocks(chunkSize: int, blocks: seq<Block>) returns (chunks: seq<string>)
    ensures chunks == Pack(chunkSize, blocks).chunks
  {
    chunks := [];
    var currentChunk := Block("", 0);
    for i := 0 to |blocks|
      invariant Pack(chunkSize, blocks[..i]) == Chunking(chunks, currentChunk)
    {
      assert blocks[..i + 1][..i] == blocks[..i];
      var b := blocks[i];
      if currentChunk.tokenSize + b.tokenSize <= chunkSize {
        currentChunk := Block(currentChunk.text + "\n" + b.text, currentChunk.tokenSize + b.tokenSize);
      } else {
        chunks := chunks + [currentChunk.text];
        currentChunk := b;
      }
    }
    assert blocks[..|blocks|] == blocks;
  }

  /** The loop of lines 66-70: the non-empty entries of the heading stack. */
  method CollectHeadings(headingStack: seq<string>) returns (headings: seq<string>)
    ensures headings == NonEmpty(headingStack)
  {
    headings := [];
    for i := 0 to |headingStack|
      invariant headings == NonEmpty(headingStack[..i])
    {
      assert headingStack[..i + 1][..i] == headingStack[..i];
      if headingStack[i] != "" {
        headings := headings + [headingStack[i]];
      }
    }
    assert headingStack[..|headingStack|] == headingStack;
  }

  /** The loop of lines 105-111: one block per split piece, headed by the headings. */
  method HeadSplits(st: Settings, headingStr: string, splits: seq<string>) returns (blocks: seq<Block>)
    ensures blocks == HeadedBlocks(st, headingStr, splits)
  {
    blocks := [];
    for i := 0 to |splits|
      invariant blocks == HeadedBlocks(st, headingStr, splits[..i])
    {
      var text := headingStr + "\n" + splits[i];
      blocks := blocks + [Block(text, st.tokenSize(text))];
    }
    assert splits[..|splits|] == splits;
  }

  /** What SplitText returns for a text, with the token splitter's chunk size afterwards. */
  function SplitResult(st: Settings, splitterSize: int, text: string): (Outcome, int) {
    var s := ScanLines(st, InitScan(splitterSize), Split(text, '\n'));
    if s.failure.Some? then (Failed(s.failure.value), s.splitterSize)
    else
      var fin := Finish(st, s.blocks, s.lines, Entries(s.stack), s.splitterSize);
      if fin.0.Err? then (Failed(SplitFailed(fin.0.error)), fin.1)
      else (Chunks(Pack(st.chunkSize, fin.0.value).chunks), fin.1)
  }

  /** What SplitText would return with the corrected packing. */
  function SplitResultCorrected(st: Settings, splitterSize: int, text: string): (r: (Outcome, int))
    ensures r.1 == SplitResult(st, splitterSize, text).1
    ensures r.0.Failed? <==> SplitResult(st, splitterSize, text).0.Failed?
    ensures r.0.Failed? ==> r.0 == SplitResult(st, splitterSize, text).0
  {
    var s := ScanLines(st, InitScan(splitterSize), Split(text, '\n'));
    if s.failure.Some? then (Failed(s.failure.value), s.splitterSize)
    else
      var fin := Finish(st, s.blocks, s.lines, Entries(s.stack), s.splitterSize);
      if fin.0.Err? then (Failed(SplitFailed(fin.0.error)), fin.1)
      else (Chunks(PackCorrected(st.chunkSize, fin.0.value)), fin.1)
  }

  /** The document of the splitter's own test, and the chunk the test expects from it. */
  const TestTitle: string := "Heading"
  const TestParagraph: string := "This is a paragraph."
  const TestDocument: string := "# " + TestTitle + "\n\n" + TestParagraph
  const TestChunk: string := "# " + TestTitle + "\n" + TestParagraph

  /** A title and a paragraph that are single lines without surrounding space. */
  predicate PlainLine(t: string) {
    |t| > 0 && '\n' !in t && !IsSpace(t[0]) && !IsSpace(t[|t| - 1])
  }

  lemma HeadingParagraphLines(title: string, para: string)
    requires PlainLine(title) && PlainLine(para)
    ensures Split("# " + title + "\n\n" + para, '\n') == ["# " + title, "", para]
  {
    SplitNoSep(para, '\n');
    SplitPeel("", '\n', para);
    assert "" + ['\n'] + para == "\n" + para;
    assert '\n' !in "# " + title;
    SplitPeel("# " + title, '\n', "\n" + para);
    assert "# " + title + ['\n'] + ("\n" + para) == "# " + title + "\n\n" + para;
  }

  lemma HeadingLevelZero(title: string)
    requires PlainLine(title)
    ensures HasPrefix("# " + title, "#") && HeadingLevel("# " + title) == 0
  {
    SplitPeel("#", ' ', title);
    assert "#" + [' '] + title == "# " + title;
  }

  lemma HeadingStrSingle(title: string)
    requires PlainLine(title)
    ensures HeadingStr(["# " + title]) == "# " + title
  {
    assert NonEmpty(["# " + title]) == ["# " + title] by {
      assert ["# " + title][..0] == [];
    }
    var h := "# " + title;
    assert TrimLeftSpace(h) == h;
    assert TrimRightSpace(h) == h;
  }

  lemma ContentStrAfterEmpty(para: string)
    requires PlainLine(para)
    ensures ContentStr(["", para]) == para
  {
    assert Join(["", para], "\n") == "\n" + para;
    assert ("\n" + para)[1..] == para;
    assert TrimLeftSpace("\n" + para) == TrimLeftSpace(para) == para;
  }

  /** The first heading of a document, at level 0, opens the stack. */
  lemma FirstHeadingStep(st: Settings, splitterSize: int, h: string)
    requires st.ignoreHeadingOnly && HasPrefix(h, "#") && HeadingLevel(h) == 0
    ensures Step(st, InitScan(splitterSize), h) == Scan(GoSlice([h], 1), 0, [], [], splitterSize, None)
  {
    assert Finish(st, [], [], [], splitterSize) == (Ok([]), splitterSize);
    var empty: seq<string> := [];
    assert empty + [h] + seq(GrowCap(0) - 0 - 1, _ => "") == [h];
    assert AppendSlice(GoSlice(empty, 0), h) == GoSlice([h], 1);
    assert ClearBetween([h], 1, 0) == [h];
  }

  /** A heading line, an empty line and a paragraph leave the heading on the stack and both lines as content. */
  lemma HeadingParagraphScan(st: Settings, splitterSize: int, title: string, para: string)
    requires PlainLine(title) && PlainLine(para) && !HasPrefix(para, "#") && st.ignoreHeadingOnly
    ensures ScanLines(st, InitScan(splitterSize), ["# " + title, "", para]) ==
      Scan(GoSlice(["# " + title], 1), 0, ["", para], [], splitterSize, None)
  {
    var h := "# " + title;
    HeadingLevelZero(title);
    var lines := [h, "", para];
    var init := InitScan(splitterSize);
    assert lines[..1][..0] == [];
    FirstHeadingStep(st, splitterSize, h);
    assert ScanLines(st, init, lines[..1]) == Step(st, ScanLines(st, init, []), h);
    var s1 := ScanLines(st, init, lines[..1]);
    assert s1 == Scan(GoSlice([h], 1), 0, [], [], splitterSize, None);
    assert lines[..2][..1] == lines[..1];
    assert ScanLines(st, init, lines[..2]) == s1.(lines := [""]);
    assert lines[..3][..2] == lines[..2];
    assert lines[..3] == lines;
  }

  /** A heading line, an empty line and a paragraph make one block: the heading over the paragraph. */
  lemma HeadingParagraphBlock(st: Settings, splitterSize: int, title: string, para: string)
    requires PlainLine(title) && PlainLine(para) && !HasPrefix(para, "#")
    requires st.ignoreHeadingOnly && st.tokenSize("# " + title + "\n" + para) <= st.chunkSize
    ensures var s := ScanLines(st, InitScan(splitterSize), Split("# " + title + "\n\n" + para, '\n'));
      s.failure.None? && Finish(st, s.blocks, s.lines, Entries(s.stack), s.splitterSize) ==
        (Ok([Block("# " + title + "\n" + para, st.tokenSize("# " + title + "\n" + para))]), splitterSize)
  {
    var h := "# " + title;
    HeadingParagraphLines(title, para);
    HeadingParagraphScan(st, splitterSize, title, para);
    var s := ScanLines(st, InitScan(splitterSize), [h, "", para]);
    assert [h][..1] == [h];
    assert s.failure.None? && s.blocks == [] && s.lines == ["", para] && Entries(s.stack) == [h] && s.splitterSize == splitterSize;
    HeadingParagraphFinish(st, splitterSize, title, para);
  }

  /** The block finished from the heading and the empty line plus paragraph under it. */
  lemma HeadingParagraphFinish(st: Settings, splitterSize: int, title: string, para: string)
    requires PlainLine(title) && PlainLine(para)
    requires st.ignoreHeadingOnly && st.tokenSize("# " + title + "\n" + para) <= st.chunkSize
    ensures Finish(st, [], ["", para], ["# " + title], splitterSize) ==
      (Ok([Block("# " + title + "\n" + para, st.tokenSize("# " + title + "\n" + para))]), splitterSize)
  {
    HeadingStrSingle(title);
    ContentStrAfterEmpty(para);
    FinishAdds(st, [], ["", para], ["# " + title], splitterSize);
  }

  lemma TestDocumentBlock(st: Settings, splitterSize: int)
    requires st.ignoreHeadingOnly && st.tokenSize(TestChunk) <= st.chunkSize
    ensures var s := ScanLines(st, InitScan(splitterSize), Split(TestDocument, '\n'));
      s.failure.None? && Finish(st, s.blocks, s.lines, Entries(s.stack), s.splitterSize) ==
        (Ok([Block(TestChunk, st.tokenSize(TestChunk))]), splitterSize)
  {
    HeadingParagraphBlock(st, splitterSize, TestTitle, TestParagraph);
  }

  /** As written, the test document gives no chunk at all. */
  lemma TestDocumentLost(st: Settings, splitterSize: int)
    requires st.ignoreHeadingOnly && st.tokenSize(TestChunk) <= st.chunkSize
    ensures SplitResult(st, splitterSize, TestDocument).0 == Chunks([])
  {
    TestDocumentBlock(st, splitterSize);
    SingleBlockLost(st.chunkSize, Block(TestChunk, st.tokenSize(TestChunk)));
  }

  /** With the corrected packing, the test document gives the one chunk the test expects. */
  lemma TestDocumentKept(st: Settings, splitterSize: int)
    requires st.ignoreHeadingOnly && st.tokenSize(TestChunk) <= st.chunkSize
    ensures SplitResultCorrected(st, splitterSize, TestDocument).0 == Chunks([TestChunk])
  {
    TestDocumentBlock(st, splitterSize);
    SingleBlockKept(st.chunkSize, Block(TestChunk, st.tokenSize(TestChunk)));
  }

  /**
   * The splitter. Its token splitter's chunk size is state: finishBlock lowers it to leave room
   * for the heading whenever a block is too large, and it stays so for later calls.
   */
  class MarkdownTextSplitter {
    const settings: Settings
    var splitterChunkSize: int

    /** NewMarkdownTextSplitter: the token splitter starts with the configured chunk size. */
    constructor (settings: Settings)
      ensures this.settings == settings && splitterChunkSize == settings.chunkSize
    {
      this.settings := settings;
      splitterChunkSize := settings.chunkSize;
    }

    /** finishBlock (lines 64-115). */
    method FinishBlock(blocks: seq<Block>, lines: seq<string>, headingStack: seq<string>) returns (r: Result<seq<Block>, string>)
      modifies this
      ensures (r, splitterChunkSize) == Finish(settings, blocks, lines, headingStack, old(splitterChunkSize))
    {
      var headings := CollectHeadings(headingStack);
      if |lines| == 0 && settings.ignoreHeadingOnly {
        return Ok(blocks);
      }
      var headingStr := TrimSpace(Join(headings, "\n"));
      var contentStr := TrimSpace(Join(lines, "\n"));
      var text := headingStr + "\n" + contentStr;
      var textTokenSize := settings.tokenSize(text);
      if textTokenSize <= settings.chunkSize {
        return Ok(blocks + [Block(text, textTokenSize)]);
      }
      var headingTokenSize := settings.tokenSize(headingStr);
      splitterChunkSize := settings.chunkSize - headingTokenSize;
      var splits := settings.splitContent(contentStr, splitterChunkSize);
      if splits.Err? {
        return Err(splits.error);
      }
      var headed := HeadSplits(settings, headingStr, splits.value);
      return Ok(blocks + headed);
    }

    /** One line of the loop of lines 132-165. */
    method ScanLine(s: Scan, line: string) returns (r: Scan)
      requires ValidScan(s) && s.failure.None? && s.splitterSize == splitterChunkSize
      modifies this
      ensures r == Step(settings, s, line) && r.splitterSize == splitterChunkSize
    {
      if !HasPrefix(line, "#") {
        return s.(lines := s.lines + [line]);
      }
      var fin := FinishBlock(s.blocks, s.lines, Entries(s.stack));
      if fin.Err? {
        return s.(splitterSize := splitterChunkSize, failure := Some(SplitFailed(fin.error)));
      }
      var pushed := UpdateHeadingStack(s.stack, s.level, line);
      if pushed.Err? {
        return s.(blocks := fin.value, lines := [], splitterSize := splitterChunkSize, failure := Some(pushed.error));
      }
      return Scan(pushed.value, HeadingLevel(line), [], fin.value, splitterChunkSize, None);
    }

    /** SplitText: blocks from the lines, then chunks from the blocks. */
    method SplitText(text: string) returns (r: Outcome)
      modifies this
      ensures (r, splitterChunkSize) == SplitResult(settings, old(splitterChunkSize), text)
    {
      var lines := Split(text, '\n');
      var scan := InitScan(splitterChunkSize);
      ghost var init := scan;
      var i := 0;
      while i < |lines|
        invariant 0 <= i <= |lines|
        invariant init == InitScan(old(splitterChunkSize))
        invariant scan == ScanLines(settings, init, lines[..i]) && scan.failure.None?
        invariant scan.splitterSize == splitterChunkSize
      {
        assert lines[..i + 1][..i] == lines[..i];
        scan := ScanLine(scan, lines[i]);
        i := i + 1;
        if scan.failure.Some? {
          ScanStopsAtFailure(settings, init, lines, i);
          return Failed(scan.failure.value);
        }
      }
      assert lines[..|lines|] == lines;
      var fin := FinishBlock(scan.blocks, scan.lines, Entries(scan.stack));
      if fin.Err? {
        return Failed(SplitFailed(fin.error));
      }
      var chunks := PackBlocks(settings.chunkSize, fin.value);
      return Chunks(chunks);
    }
  }
}
