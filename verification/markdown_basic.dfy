/**
 * The basic markdown splitter. A markdown parser (not part of this model) turns the text into a
 * token list; the splitter walks it with a cursor, jumping from each opening token past its
 * matching close. Headings update a title stack, and the current hierarchical title is emitted
 * as a chunk whenever the heading changes.
 */
module MarkdownBasic {
  import opened GoStrings
  import opened Wrappers
  import opened Seqs

  /** The default chunk size and overlap of the splitter options. */
  const DefaultChunkSize: int := 1024
  const DefaultChunkOverlap: int := 256

  /** The token types the splitter tells apart; every other type is Other. */
  datatype TokenKind =
    | HeadingOpen | HeadingClose
    | BulletListOpen | BulletListClose
    | OrderedListOpen | OrderedListClose
    | ParagraphOpen | ParagraphClose
    | BlockquoteOpen | BlockquoteClose
    | ListItemOpen | ListItemClose
    | TableOpen | TableClose
    | TheadOpen | TheadClose
    | TbodyOpen | TbodyClose
    | Inline
    | Other(name: string)

  /** A parser token: its type, a heading's level and an inline token's content. */
  datatype Token = Token(kind: TokenKind, hLevel: int, content: string)

  /** A heading level: a heading has at least one '#'. */
  type Level = l: int | l >= 1 witness 1

  /** The closing type of each opening type (the closeTypes table); singular types have none. */
  function CloseKind(k: TokenKind): (r: Option<TokenKind>)
    ensures r.Some? ==> r.value != k
  {
    match k
    case HeadingOpen => Some(HeadingClose)
    case BulletListOpen => Some(BulletListClose)
    case OrderedListOpen => Some(OrderedListClose)
    case ParagraphOpen => Some(ParagraphClose)
    case BlockquoteOpen => Some(BlockquoteClose)
    case ListItemOpen => Some(ListItemClose)
    case TableOpen => Some(TableClose)
    case TheadOpen => Some(TheadClose)
    case TbodyOpen => Some(TbodyClose)
    case _ => None
  }

  /** Openings less closings of the given pair of types: the nesting depth after the tokens. */
  function Balance(ts: seq<Token>, open: TokenKind, close: TokenKind): int {
    if |ts| == 0 then 0
    else
      var last := ts[|ts| - 1].kind;
      Balance(ts[..|ts| - 1], open, close) + (if last == open then 1 else if last == close then -1 else 0)
  }

  /** Token j closes the opening token at startAt: it has the closing type at nesting depth 0. */
  predicate ClosesAt(tokens: seq<Token>, startAt: int, j: int)
    requires 0 <= startAt < j < |tokens| && CloseKind(tokens[startAt].kind).Some?
  {
    var open := tokens[startAt].kind;
    var close := CloseKind(open).value;
    tokens[j].kind == close && Balance(tokens[startAt + 1..j], open, close) == 0
  }

  /** The first closing position at or after j, or the end of the tokens. */
  function FirstClose(tokens: seq<Token>, startAt: int, j: int): (r: int)
    requires 0 <= startAt < j <= |tokens| && CloseKind(tokens[startAt].kind).Some?
    ensures j <= r <= |tokens|
    decreases |tokens| - j
  {
    if j == |tokens| then |tokens|
    else if ClosesAt(tokens, startAt, j) then j
    else FirstClose(tokens, startAt, j + 1)
  }

  /** The search finds a close when it stops before the end, and skips none. */
  lemma {:induction false} FirstCloseIsFirst(tokens: seq<Token>, startAt: int, j: int)
    requires 0 <= startAt < j <= |tokens| && CloseKind(tokens[startAt].kind).Some?
    ensures var r := FirstClose(tokens, startAt, j);
      (r < |tokens| ==> ClosesAt(tokens, startAt, r)) && forall i :: j <= i < r ==> !ClosesAt(tokens, startAt, i)
    decreases |tokens| - j
  {
    if j < |tokens| && !ClosesAt(tokens, startAt, j) {
      FirstCloseIsFirst(tokens, startAt, j + 1);
    }
  }

  /**
   * indexOfCloseTag: a singular token is its own close; otherwise the first later token of the
   * closing type at nesting depth 0, or the end of the tokens when there is none.
   */
  function CloseIndex(tokens: seq<Token>, startAt: int): (r: int)
    requires 0 <= startAt < |tokens|
    ensures startAt <= r <= |tokens|
  {
    if CloseKind(tokens[startAt].kind).None? then startAt else FirstClose(tokens, startAt, startAt + 1)
  }

  /**
   * indexOfCloseTag's result: the token itself when it is singular; otherwise the first later
   * token that closes it at nesting depth 0, or the end of the tokens when none does.
   */
  lemma CloseIndexFirstClose(tokens: seq<Token>, startAt: int)
    requires 0 <= startAt < |tokens|
    ensures CloseKind(tokens[startAt].kind).None? ==> CloseIndex(tokens, startAt) == startAt
    ensures CloseKind(tokens[startAt].kind).Some? ==>
      var r := CloseIndex(tokens, startAt);
      startAt < r <= |tokens| && (r < |tokens| ==> ClosesAt(tokens, startAt, r)) &&
      forall i :: startAt < i < r ==> !ClosesAt(tokens, startAt, i)
  {
    if CloseKind(tokens[startAt].kind).Some? {
      FirstCloseIsFirst(tokens, startAt, startAt + 1);
    }
  }

  /** The scan of indexOfCloseTag, counting nested openings of the same type. */
  method IndexOfCloseTag(tokens: seq<Token>, startAt: int) returns (idx: int)
    requires 0 <= startAt < |tokens|
    ensures idx == CloseIndex(tokens, startAt)
  {
    var sameCount := 0;
    var openType := tokens[startAt].kind;
    var closeType := CloseKind(openType);
    if closeType.None? {
      return startAt;
    }
    var close := closeType.value;
    idx := startAt + 1;
    while idx < |tokens|
      invariant startAt < idx <= |tokens|
      invariant sameCount == Balance(tokens[startAt + 1..idx], openType, close) && sameCount >= 0
      invariant FirstClose(tokens, startAt, idx) == CloseIndex(tokens, startAt)
    {
      assert tokens[startAt + 1..idx + 1][..idx - startAt - 1] == tokens[startAt + 1..idx];
      var cur := tokens[idx].kind;
      if openType == cur {
        sameCount := sameCount + 1;
      }
      if close == cur {
        if sameCount == 0 {
          break;
        }
        sameCount := sameCount - 1;
      }
      idx := idx + 1;
    }
  }

  /** count copies of c, none for a count below one. */
  function Repeat(count: int, c: string): (s: string)
    ensures count > 0 ==> |s| >= |c|
    ensures forall i :: 0 <= i < |s| ==> s[i] in c
    decreases count
  {
    if count <= 0 then "" else Repeat(count - 1, c) + c
  }

  /** repeatString(n, c) has n times the length of c. */
  lemma {:induction false} RepeatLength(count: int, c: string)
    ensures |Repeat(count, c)| == (if count > 0 then count * |c| else 0)
    decreases count
  {
    if count > 0 {
      RepeatLength(count - 1, c);
      assert (count - 1) * |c| + |c| == count * |c|;
    }
  }

  /** repeatString, by repeated appending. */
  method RepeatString(count: int, initChar: string) returns (s: string)
    ensures s == Repeat(count, initChar)
  {
    s := "";
    var i := 0;
    while i < count
      invariant i <= count || i == 0
      invariant s == Repeat(i, initChar)
    {
      s := s + initChar;
      i := i + 1;
    }
    if count <= 0 {
      assert s == "";
    }
  }

  /** The splitter's settings; the second splitter that re-splits long snippets is a parameter. */
  datatype Config = Config(chunkSize: int, chunkOverlap: int, secondSplitter: string -> seq<string>)

  /** The parts of markdownContext that change while splitting. */
  datatype Ctx = Ctx(
    hTitle: string,
    hTitleStack: seq<string>,
    hTitlePrepended: bool,
    chunks: seq<string>,
    curSnippet: string)

  /** The pieces a snippet becomes: itself when short enough, otherwise the second splitter's pieces. */
  function Pieces(cfg: Config, snippet: string): seq<string> {
    if snippet == "" then []
    else if |snippet| <= cfg.chunkSize + cfg.chunkOverlap then [snippet]
    else cfg.secondSplitter(snippet)
  }

  /** The title goes in front of a piece unless the snippet already contains it. */
  function WithTitle(title: string, snippet: string, piece: string): string {
    if title != "" && !Contains(snippet, title) then title + "\n" + piece else piece
  }

  /** The non-empty pieces, each with the title in front when it is missing from the snippet. */
  function Titled(title: string, snippet: string, pieces: seq<string>): (r: seq<string>)
    ensures |r| == |NonEmpty(pieces)|
  {
    if |pieces| == 0 then []
    else
      Titled(title, snippet, pieces[..|pieces| - 1]) +
        (if pieces[|pieces| - 1] == "" then [] else [WithTitle(title, snippet, pieces[|pieces| - 1])])
  }

  /** Each chunk made from the pieces is the matching non-empty piece, titled. */
  lemma {:induction false} TitledPieces(title: string, snippet: string, pieces: seq<string>)
    ensures forall k :: 0 <= k < |NonEmpty(pieces)| ==>
      Titled(title, snippet, pieces)[k] == WithTitle(title, snippet, NonEmpty(pieces)[k])
    decreases |pieces|
  {
    if |pieces| > 0 {
      TitledPieces(title, snippet, pieces[..|pieces| - 1]);
    }
  }

  /**
   * applyToChunks: the snippet's pieces become chunks; when there are none, the title is emitted
   * once on its own. The snippet is emptied in either case.
   */
  function Apply(cfg: Config, c: Ctx): (r: Ctx)
    ensures r.curSnippet == "" && r.hTitle == c.hTitle && r.hTitleStack == c.hTitleStack
  {
    var pieces := Pieces(cfg, c.curSnippet);
    if |pieces| == 0 && c.hTitle != "" && !c.hTitlePrepended then
      c.(chunks := c.chunks + [c.hTitle], hTitlePrepended := true, curSnippet := "")
    else
      c.(chunks := c.chunks + Titled(c.hTitle, c.curSnippet, pieces),
         hTitlePrepended := c.hTitlePrepended || |NonEmpty(pieces)| > 0,
         curSnippet := "")
  }

  /** Applying only ever adds chunks after the existing ones. */
  lemma ApplyExtends(cfg: Config, c: Ctx)
    ensures |Apply(cfg, c).chunks| >= |c.chunks| && Apply(cfg, c).chunks[..|c.chunks|] == c.chunks
  {
    var r := Apply(cfg, c);
    assert r.chunks[..|c.chunks|] == c.chunks;
  }

  /** With no snippet, applying emits the title once if it has not been emitted yet, and nothing else. */
  lemma ApplyEmptySnippet(cfg: Config, c: Ctx)
    requires c.curSnippet == ""
    ensures Apply(cfg, c).chunks == c.chunks + (if c.hTitle != "" && !c.hTitlePrepended then [c.hTitle] else [])
    ensures Apply(cfg, c).hTitlePrepended == (c.hTitlePrepended || c.hTitle != "")
  {
    assert Titled(c.hTitle, "", []) == [];
  }

  /** A snippet within chunkSize + chunkOverlap is one chunk, with the title in front unless it holds it already. */
  lemma ApplyShortSnippet(cfg: Config, c: Ctx)
    requires c.curSnippet != "" && |c.curSnippet| <= cfg.chunkSize + cfg.chunkOverlap
    ensures Apply(cfg, c).chunks == c.chunks + [WithTitle(c.hTitle, c.curSnippet, c.curSnippet)]
    ensures Apply(cfg, c).hTitlePrepended
  {
    var pieces := [c.curSnippet];
    assert pieces[..0] == [];
    assert NonEmpty(pieces) == pieces;
    assert Titled(c.hTitle, c.curSnippet, pieces) == [WithTitle(c.hTitle, c.curSnippet, c.curSnippet)];
  }

  /** A longer snippet becomes the second splitter's non-empty pieces, each titled the same way. */
  lemma ApplyLongSnippet(cfg: Config, c: Ctx)
    requires |c.curSnippet| > cfg.chunkSize + cfg.chunkOverlap && |c.curSnippet| > 0
    ensures var pieces := NonEmpty(cfg.secondSplitter(c.curSnippet));
      |pieces| > 0 ==> Apply(cfg, c).chunks == c.chunks + seq(|pieces|, k requires 0 <= k < |pieces| => WithTitle(c.hTitle, c.curSnippet, pieces[k]))
  {
    TitledPieces(c.hTitle, c.curSnippet, cfg.secondSplitter(c.curSnippet));
  }

  /**
   * joinSnippet: the first snippet is taken as it is; one that would bring the rune count to
   * chunkSize or beyond flushes the current snippet first; otherwise it is joined with "\n".
   */
  function JoinSnip(cfg: Config, c: Ctx, snippet: string): Ctx {
    if c.curSnippet == "" then c.(curSnippet := snippet)
    else if |c.curSnippet| + |snippet| >= cfg.chunkSize then Apply(cfg, c).(curSnippet := snippet)
    else c.(curSnippet := c.curSnippet + "\n" + snippet)
  }

  /**
   * Joining keeps the new snippet at the end of the current one and never drops a chunk; the
   * current snippet is flushed exactly when the summed rune counts reach chunkSize.
   */
  lemma JoinSnipEffect(cfg: Config, c: Ctx, snippet: string)
    ensures var r := JoinSnip(cfg, c, snippet);
      HasSuffix(r.curSnippet, snippet) && |r.chunks| >= |c.chunks| && r.chunks[..|c.chunks|] == c.chunks
    ensures c.curSnippet == "" ==> JoinSnip(cfg, c, snippet) == c.(curSnippet := snippet)
    ensures c.curSnippet != "" && |c.curSnippet| + |snippet| >= cfg.chunkSize ==>
      JoinSnip(cfg, c, snippet).chunks == Apply(cfg, c).chunks && JoinSnip(cfg, c, snippet).curSnippet == snippet
    ensures c.curSnippet != "" && |c.curSnippet| + |snippet| < cfg.chunkSize ==>
      JoinSnip(cfg, c, snippet).chunks == c.chunks && JoinSnip(cfg, c, snippet).curSnippet == c.curSnippet + "\n" + snippet
  {
    var r := JoinSnip(cfg, c, snippet);
    assert r.curSnippet[|r.curSnippet| - |snippet|..] == snippet;
    ApplyExtends(cfg, c);
  }

  /** The stack padded with empty titles up to n entries. */
  function Pad(stack: seq<string>, n: int): (r: seq<string>)
    ensures |r| >= n && |r| >= |stack|
    decreases n - |stack|
  {
    if |stack| < n then Pad(stack + [""], n) else stack
  }

  /** Padding keeps the entries and adds only empty ones, just enough to reach n. */
  lemma {:induction false} PadEntries(stack: seq<string>, n: int)
    ensures |Pad(stack, n)| == (if |stack| < n then n else |stack|)
    ensures forall k :: 0 <= k < |Pad(stack, n)| ==> Pad(stack, n)[k] == (if k < |stack| then stack[k] else "")
    decreases n - |stack|
  {
    if |stack| < n {
      PadEntries(stack + [""], n);
    }
  }

  /** The title stack after a heading: the entries above its level, then its title. */
  function PushTitle(stack: seq<string>, level: Level, title: string): (r: seq<string>)
    ensures |r| == level && r[level - 1] == title
  {
    Pad(stack, level)[..level - 1] + [title]
  }

  /**
   * onMDHeader's stack: the entries above the level are kept, missing ones are empty, the
   * heading's title is last, and nothing deeper survives.
   */
  lemma PushTitleKeeps(stack: seq<string>, level: Level, title: string)
    ensures forall k :: 0 <= k < level - 1 ==> PushTitle(stack, level, title)[k] == (if k < |stack| then stack[k] else "")
  {
    PadEntries(stack, level);
  }

  /** A heading's own title: level '#'s, a space and its text. */
  function HeadingText(level: int, content: string): string {
    Repeat(level, "#") + " " + content
  }

  /** The hierarchical title: the non-empty stack entries joined by "\n". */
  function HierTitle(stack: seq<string>): string {
    Join(NonEmpty(stack), "\n")
  }

  /** The first character of a join is the first character of its first part. */
  lemma JoinFirstChar(parts: seq<string>, sep: string)
    requires |parts| > 0 && |parts[0]| > 0
    ensures |Join(parts, sep)| > 0 && Join(parts, sep)[0] == parts[0][0]
  {
  }

  /** A stack whose top title is non-empty has a non-empty hierarchical title ending in that title. */
  lemma HierTitleOfPushed(stack: seq<string>, title: string)
    requires title != ""
    ensures HasSuffix(HierTitle(stack + [title]), title)
  {
    var xs := stack + [title];
    assert xs[..|xs| - 1] == stack;
    var ne := NonEmpty(stack);
    assert NonEmpty(xs) == ne + [title];
    if |ne| == 0 {
      assert HierTitle(xs) == title;
    } else {
      JoinAppend(ne, "\n", title);
    }
    var h := HierTitle(xs);
    assert h[|h| - |title|..] == title;
  }

  /** onMDHeader's effect on the context, the snippet having been applied first. */
  function OnHeader(cfg: Config, c: Ctx, level: Level, content: string): (r: Ctx)
    ensures r.hTitle == HierTitle(r.hTitleStack)
    ensures !r.hTitlePrepended && r.curSnippet == ""
    ensures r.hTitleStack == PushTitle(c.hTitleStack, level, HeadingText(level, content))
    ensures r.chunks == Apply(cfg, c).chunks
  {
    var a := Apply(cfg, c);
    var stack := PushTitle(a.hTitleStack, level, HeadingText(level, content));
    a.(hTitleStack := stack, hTitle := HierTitle(stack), hTitlePrepended := false)
  }

  /** After a heading the title is non-empty and ends with the heading's own title. */
  lemma OnHeaderTitle(cfg: Config, c: Ctx, level: Level, content: string)
    ensures OnHeader(cfg, c, level, content).hTitle != ""
    ensures HasSuffix(OnHeader(cfg, c, level, content).hTitle, HeadingText(level, content))
  {
    var stack := PushTitle(c.hTitleStack, level, HeadingText(level, content));
    assert stack == stack[..level - 1] + [HeadingText(level, content)];
    HierTitleOfPushed(stack[..level - 1], HeadingText(level, content));
  }

  /** The parser's token list as the splitter needs it: every heading has a level and a next token. */
  predicate WellFormed(tokens: seq<Token>) {
    forall i :: 0 <= i < |tokens| && tokens[i].kind == HeadingOpen ==> i + 1 < |tokens| && tokens[i].hLevel >= 1
  }

  datatype Heading = Heading(level: Level, content: string)

  /** The headings the cursor stops at (those nested inside another block are jumped over). */
  function Headings(tokens: seq<Token>, idx: int): (hs: seq<Heading>)
    requires WellFormed(tokens) && 0 <= idx
    decreases |tokens| - idx
  {
    if idx >= |tokens| then []
    else
      var rest := Headings(tokens, CloseIndex(tokens, idx) + 1);
      if tokens[idx].kind == HeadingOpen && tokens[idx + 1].kind == Inline then
        [Heading(tokens[idx].hLevel, tokens[idx + 1].content)] + rest
      else rest
  }

  /** The hierarchical title after each of the headings in turn. */
  function TitlesAfter(stack: seq<string>, hs: seq<Heading>): (r: seq<string>)
    ensures |r| == |hs|
    decreases |hs|
  {
    if |hs| == 0 then []
    else
      var s := PushTitle(stack, hs[0].level, HeadingText(hs[0].level, hs[0].content));
      [HierTitle(s)] + TitlesAfter(s, hs[1..])
  }

  /** Every emitted title ends with its own heading's text. */
  lemma {:induction false} TitlesEndWithHeadings(stack: seq<string>, hs: seq<Heading>)
    ensures forall k :: 0 <= k < |hs| ==> HasSuffix(TitlesAfter(stack, hs)[k], HeadingText(hs[k].level, hs[k].content))
    decreases |hs|
  {
    if |hs| > 0 {
      var t := HeadingText(hs[0].level, hs[0].content);
      var s := PushTitle(stack, hs[0].level, t);
      assert s == s[..|s| - 1] + [t];
      HierTitleOfPushed(s[..|s| - 1], t);
      TitlesEndWithHeadings(s, hs[1..]);
    }
  }

  /** One iteration of splitText's loop: the cursor jumps past the token's close, and only a heading is kept. */
  lemma HeadingsStep(tokens: seq<Token>, idx: int)
    requires WellFormed(tokens) && 0 <= idx < |tokens|
    ensures tokens[idx].kind == HeadingOpen && tokens[idx + 1].kind == Inline ==>
      Headings(tokens, idx) == [Heading(tokens[idx].hLevel, tokens[idx + 1].content)] + Headings(tokens, CloseIndex(tokens, idx) + 1)
    ensures !(tokens[idx].kind == HeadingOpen && tokens[idx + 1].kind == Inline) ==>
      Headings(tokens, idx) == Headings(tokens, CloseIndex(tokens, idx) + 1)
  {
  }

  /** After a heading the title is pending, the snippet empty, and the earlier pending title emitted. */
  lemma OnHeaderPending(cfg: Config, c: Ctx, level: Level, content: string)
    requires c.curSnippet == ""
    ensures var c2 := OnHeader(cfg, c, level, content);
      c2.curSnippet == "" && c2.chunks + Pending(c2) ==
        c.chunks + Pending(c) + [HierTitle(PushTitle(c.hTitleStack, level, HeadingText(level, content)))]
  {
    ApplyEmptySnippet(cfg, c);
    OnHeaderTitle(cfg, c, level, content);
  }

  /** A title not yet emitted. */
  function Pending(c: Ctx): seq<string> {
    if c.hTitle != "" && !c.hTitlePrepended then [c.hTitle] else []
  }

  /**
   * splitText's effect from the cursor on: the headings the cursor stops at, handed one by one
   * to onMDHeader, followed by the final applyToChunks.
   */
  function Fold(cfg: Config, hs: seq<Heading>, c: Ctx): Ctx
    decreases |hs|
  {
    if |hs| == 0 then Apply(cfg, c) else Fold(cfg, hs[1..], OnHeader(cfg, c, hs[0].level, hs[0].content))
  }

  /** Folding a first heading is handling it, then folding the rest. */
  lemma FoldCons(cfg: Config, h: Heading, hs: seq<Heading>, c: Ctx)
    ensures Fold(cfg, [h] + hs, c) == Fold(cfg, hs, OnHeader(cfg, c, h.level, h.content))
  {
    assert ([h] + hs)[1..] == hs;
  }

  /** The state after onMDHeader at a heading token: unchanged unless an inline token follows. */
  function AfterHeading(cfg: Config, tokens: seq<Token>, i: int, c: Ctx): Ctx
    requires WellFormed(tokens) && 0 <= i < |tokens| && tokens[i].kind == HeadingOpen
  {
    if tokens[i + 1].kind == Inline then OnHeader(cfg, c, tokens[i].hLevel, tokens[i + 1].content) else c
  }

  /** At a heading token, the fold from there is the fold from past its close, after onMDHeader. */
  lemma HeadingFold(cfg: Config, tokens: seq<Token>, i: int, c: Ctx)
    requires WellFormed(tokens) && 0 <= i < |tokens| && tokens[i].kind == HeadingOpen
    ensures Fold(cfg, Headings(tokens, i), c) ==
      Fold(cfg, Headings(tokens, CloseIndex(tokens, i) + 1), AfterHeading(cfg, tokens, i, c))
  {
    HeadingsStep(tokens, i);
    if tokens[i + 1].kind == Inline {
      FoldCons(cfg, Heading(tokens[i].hLevel, tokens[i + 1].content), Headings(tokens, CloseIndex(tokens, i) + 1), c);
    }
  }

  /**
   * Since nothing ever joins a snippet, folding emits the pending title and then the
   * hierarchical title after each heading, once each, in order.
   */
  lemma {:induction false} FoldEmitsTitles(cfg: Config, hs: seq<Heading>, c: Ctx)
    requires c.curSnippet == ""
    ensures Fold(cfg, hs, c).chunks == c.chunks + Pending(c) + TitlesAfter(c.hTitleStack, hs)
    decreases |hs|
  {
    if |hs| == 0 {
      ApplyEmptySnippet(cfg, c);
      assert Fold(cfg, hs, c).chunks == c.chunks + Pending(c);
      assert TitlesAfter(c.hTitleStack, hs) == [];
    } else {
      var c2 := OnHeader(cfg, c, hs[0].level, hs[0].content);
      var title := HierTitle(c2.hTitleStack);
      var rest := TitlesAfter(c2.hTitleStack, hs[1..]);
      OnHeaderPending(cfg, c, hs[0].level, hs[0].content);
      FoldEmitsTitles(cfg, hs[1..], c2);
      var before := c.chunks + Pending(c);
      assert c2.chunks + Pending(c2) == before + [title];
      assert TitlesAfter(c.hTitleStack, hs) == [title] + rest;
      assert Fold(cfg, hs, c) == Fold(cfg, hs[1..], c2);
      assert Fold(cfg, hs, c).chunks == before + [title] + rest;
      AppendAssociates(before, [title], rest);
    }
  }

  /** The title-stack entries are empty or titles, which start with '#'. */
  predicate TitlesStartWithHash(stack: seq<string>) {
    forall k :: 0 <= k < |stack| ==> stack[k] == "" || stack[k][0] == '#'
  }

  /** The non-empty entries of such a stack are titles. */
  lemma {:induction false} NonEmptyTitles(stack: seq<string>)
    requires TitlesStartWithHash(stack)
    ensures forall k :: 0 <= k < |NonEmpty(stack)| ==> NonEmpty(stack)[k][0] == '#'
    decreases |stack|
  {
    if |stack| > 0 {
      NonEmptyTitles(stack[..|stack| - 1]);
    }
  }

  /** The "\n"-prefixed join of onMDHeader's loop, trimmed of leading newlines, is the hierarchical title. */
  lemma TrimmedTitle(stack: seq<string>)
    requires TitlesStartWithHash(stack) && |NonEmpty(stack)| > 0
    ensures TrimLeftChars("\n" + HierTitle(stack), {'\n'}) == HierTitle(stack)
  {
    var ne := NonEmpty(stack);
    NonEmptyTitles(stack);
    JoinFirstChar(ne, "\n");
    assert ("\n" + HierTitle(stack))[1..] == HierTitle(stack);
  }

  /** The title as onMDHeader's loop builds it: each non-empty entry preceded by a newline. */
  function NewlineTitle(stack: seq<string>): string {
    if |NonEmpty(stack)| == 0 then "" else "\n" + HierTitle(stack)
  }

  /** A non-empty entry adds a newline and itself. */
  lemma NewlineTitleAdd(xs: seq<string>, x: string)
    requires x != ""
    ensures NewlineTitle(xs + [x]) == NewlineTitle(xs) + "\n" + x
  {
    var before := NonEmpty(xs);
    assert (xs + [x])[..|xs|] == xs;
    assert NonEmpty(xs + [x]) == before + [x];
    if |before| > 0 {
      JoinAppend(before, "\n", x);
    } else {
      assert HierTitle(xs + [x]) == x;
    }
  }

  /** An empty entry adds nothing. */
  lemma NewlineTitleSkip(xs: seq<string>)
    ensures NewlineTitle(xs + [""]) == NewlineTitle(xs)
  {
    assert (xs + [""])[..|xs|] == xs;
    assert NonEmpty(xs + [""]) == NonEmpty(xs);
  }

  /** A pushed heading keeps the stack entries titles and gives it a non-empty title. */
  lemma PushedTitles(stack: seq<string>, level: Level, content: string)
    requires TitlesStartWithHash(stack)
    ensures var s := PushTitle(stack, level, HeadingText(level, content));
      TitlesStartWithHash(s) && |NonEmpty(s)| > 0
  {
    var t := HeadingText(level, content);
    var s := PushTitle(stack, level, t);
    assert Repeat(level, "#")[0] in "#";
    assert t[0] == '#';
    PushTitleKeeps(stack, level, t);
    assert s == s[..level - 1] + [t];
    assert NonEmpty(s) == NonEmpty(s[..level - 1]) + [t];
  }

  /** The markdown context: the cursor over the tokens and the splitting state. */
  class MarkdownContext {
    const tokens: seq<Token>
    const cfg: Config
    var startAt: int
    var endAt: int
    var hTitle: string
    var hTitleStack: seq<string>
    var hTitlePrepended: bool
    var chunks: seq<string>
    var curSnippet: string

    predicate Valid() reads this {
      WellFormed(tokens) && endAt == |tokens| && 0 <= startAt && TitlesStartWithHash(hTitleStack)
    }

    function State(): Ctx reads this {
      Ctx(hTitle, hTitleStack, hTitlePrepended, chunks, curSnippet)
    }

    /** The context SplitText starts from: cursor at 0, no title, an empty stack, no chunks. */
    constructor (tokens: seq<Token>, cfg: Config)
      requires WellFormed(tokens)
      ensures Valid() && this.tokens == tokens && this.cfg == cfg && startAt == 0
      ensures State() == Ctx("", [], false, [], "")
    {
      this.tokens := tokens;
      this.cfg := cfg;
      startAt := 0;
      endAt := |tokens|;
      hTitle := "";
      hTitleStack := [];
      hTitlePrepended := false;
      chunks := [];
      curSnippet := "";
    }

    /** applyToChunks (lines 206-241). */
    method ApplyToChunks()
      modifies this
      ensures State() == Apply(cfg, old(State()))
      ensures startAt == old(startAt) && endAt == old(endAt)
    {
      var pieces: seq<string> := [];
      if curSnippet != "" {
        if |curSnippet| <= cfg.chunkSize + cfg.chunkOverlap {
          pieces := [curSnippet];
        } else {
          pieces := cfg.secondSplitter(curSnippet);
        }
      }
      assert pieces == Pieces(cfg, curSnippet);
      if |pieces| == 0 && hTitle != "" && !hTitlePrepended {
        chunks := chunks + [hTitle];
        hTitlePrepended := true;
        curSnippet := "";
        return;
      }
      var added, any := TitleChunks(hTitle, curSnippet, pieces);
      chunks := chunks + added;
      hTitlePrepended := hTitlePrepended || any;
      curSnippet := "";
    }

    /** The loop of lines 229-240: the non-empty pieces, titled, and whether there was one. */
    static method TitleChunks(hTitle: string, curSnippet: string, pieces: seq<string>) returns (added: seq<string>, any: bool)
      ensures added == Titled(hTitle, curSnippet, pieces) && any == (|NonEmpty(pieces)| > 0)
    {
      added, any := [], false;
      for i := 0 to |pieces|
        invariant added == Titled(hTitle, curSnippet, pieces[..i])
        invariant any == (|NonEmpty(pieces[..i])| > 0)
      {
        assert pieces[..i + 1][..i] == pieces[..i];
        var chunk := pieces[i];
        if chunk == "" {
          continue;
        }
        any := true;
        if hTitle != "" && !Contains(curSnippet, hTitle) {
          chunk := hTitle + "\n" + chunk;
        }
        added := added + [chunk];
      }
      assert pieces[..|pieces|] == pieces;
    }

    /** joinSnippet (lines 190-203). */
    method JoinSnippet(snippet: string)
      modifies this
      ensures State() == JoinSnip(cfg, old(State()), snippet)
      ensures startAt == old(startAt) && endAt == old(endAt)
    {
      if curSnippet == "" {
        curSnippet := snippet;
        return;
      }
      if |curSnippet| + |snippet| >= cfg.chunkSize {
        ApplyToChunks();
        curSnippet := snippet;
      } else {
        curSnippet := curSnippet + "\n" + snippet;
      }
    }

    /** The padding loop of lines 172-174. */
    static method PadStack(stack: seq<string>, n: int) returns (padded: seq<string>)
      ensures padded == Pad(stack, n)
    {
      padded := stack;
      while |padded| < n
        invariant Pad(padded, n) == Pad(stack, n)
        decreases n - |padded|
      {
        padded := padded + [""];
      }
    }

    /** The hierarchical title by onMDHeader's loop (lines 178-184). */
    static method BuildTitle(stack: seq<string>) returns (title: string)
      requires TitlesStartWithHash(stack) && |NonEmpty(stack)| > 0
      ensures title == HierTitle(stack)
    {
      title := "";
      for i := 0 to |stack|
        invariant title == NewlineTitle(stack[..i])
      {
        assert stack[..i + 1] == stack[..i] + [stack[i]];
        if stack[i] != "" {
          NewlineTitleAdd(stack[..i], stack[i]);
          title := title + "\n" + stack[i];
        } else {
          NewlineTitleSkip(stack[..i]);
        }
      }
      assert stack[..|stack|] == stack;
      TrimmedTitle(stack);
      title := TrimLeftChars(title, {'\n'});
    }

    /** onMDHeader (lines 148-187): the cursor moves past the heading's close either way. */
    method OnMDHeader()
      requires Valid() && startAt < |tokens| && tokens[startAt].kind == HeadingOpen
      modifies this
      ensures Valid() && startAt == CloseIndex(tokens, old(startAt)) + 1
      ensures State() == AfterHeading(cfg, tokens, old(startAt), old(State()))
    {
      var endAt' := IndexOfCloseTag(tokens, startAt);
      var header := tokens[startAt];
      var inline := tokens[startAt + 1];
      if inline.kind != Inline {
        startAt := endAt' + 1;
        return;
      }
      var hashes := RepeatString(header.hLevel, "#");
      var title := hashes + " " + inline.content;
      ApplyToChunks();
      PushHeading(header.hLevel, title, inline.content);
      startAt := endAt' + 1;
    }

    /** Lines 170-186: the heading's title goes on the stack at its level and the title is rebuilt. */
    method PushHeading(level: Level, title: string, ghost content: string)
      requires TitlesStartWithHash(hTitleStack) && title == HeadingText(level, content)
      modifies this
      ensures TitlesStartWithHash(hTitleStack)
      ensures State() == old(State()).(
        hTitleStack := PushTitle(old(hTitleStack), level, title),
        hTitle := HierTitle(PushTitle(old(hTitleStack), level, title)),
        hTitlePrepended := false)
      ensures startAt == old(startAt) && endAt == old(endAt)
    {
      hTitle := title;
      var stack := PadStack(hTitleStack, level);
      stack := stack[..level - 1] + [hTitle];
      PushedTitles(hTitleStack, level, content);
      hTitleStack := stack;
      hTitle := BuildTitle(stack);
      hTitlePrepended := false;
    }

    /** splitText (lines 109-126): every token type but a heading is jumped over to its close. */
    method SplitText() returns (result: seq<string>)
      requires Valid()
      modifies this
      ensures result == Fold(cfg, Headings(tokens, old(startAt)), old(State())).chunks
    {
      var idx := startAt;
      while idx < endAt
        invariant Valid() && idx == startAt
        invariant Fold(cfg, Headings(tokens, idx), State()) == Fold(cfg, Headings(tokens, old(startAt)), old(State()))
        decreases |tokens| - idx
      {
        Visit();
        idx := startAt;
      }
      ApplyToChunks();
      result := chunks;
    }

    /** The body of splitText's loop: a heading is handled, any other token jumped over. */
    method Visit()
      requires Valid() && startAt < |tokens|
      modifies this
      ensures Valid() && startAt > old(startAt)
      ensures Fold(cfg, Headings(tokens, startAt), State()) == Fold(cfg, Headings(tokens, old(startAt)), old(State()))
    {
      HeadingsStep(tokens, startAt);
      if tokens[startAt].kind == HeadingOpen {
        VisitHeading();
      } else {
        var close := IndexOfCloseTag(tokens, startAt);
        startAt := close + 1;
      }
    }

    /** A heading token: onMDHeader, which is a heading only when an inline token follows. */
    method VisitHeading()
      requires Valid() && startAt < |tokens| && tokens[startAt].kind == HeadingOpen
      modifies this
      ensures Valid() && startAt == CloseIndex(tokens, old(startAt)) + 1
      ensures Fold(cfg, Headings(tokens, startAt), State()) == Fold(cfg, Headings(tokens, old(startAt)), old(State()))
    {
      HeadingFold(cfg, tokens, startAt, State());
      OnMDHeader();
    }
  }

  /**
   * MarkdownTextSplitter.SplitText over the parser's tokens: the chunks are the hierarchical
   * title after each heading the cursor stops at, one per heading, in order.
   */
  method SplitTokens(cfg: Config, tokens: seq<Token>) returns (chunks: seq<string>)
    requires WellFormed(tokens)
    ensures chunks == TitlesAfter([], Headings(tokens, 0))
    ensures |chunks| == |Headings(tokens, 0)|
  {
    var mc := new MarkdownContext(tokens, cfg);
    chunks := mc.SplitText();
    FoldEmitsTitles(cfg, Headings(tokens, 0), Ctx("", [], false, [], ""));
  }
}
