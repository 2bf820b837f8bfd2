/**
 * The two filters that drop markdown documents with no content or with headings only. Both scan
 * the lines of a document for one that does not start with '#'. The transformer stops at the
 * first such line; the older function in the datastore package has no `break`, so it appends the
 * document once for every such line.
 */
module MarkdownFilters {
  import opened GoStrings
  import opened Wrappers
  import opened DocTypes
  import opened Seqs

  predicate IsHeadingLine(line: string) {
    HasPrefix(line, "#")
  }

  /** The number of lines that do not start with '#'. */
  function BodyLines(lines: seq<string>): nat
    decreases |lines|
  {
    if |lines| == 0 then 0
    else BodyLines(lines[..|lines| - 1]) + (if IsHeadingLine(lines[|lines| - 1]) then 0 else 1)
  }

  /** Some line does not start with '#'. */
  predicate HasBodyLine(lines: seq<string>) {
    exists k :: 0 <= k < |lines| && !IsHeadingLine(lines[k])
  }

  function Lines(content: string): seq<string> {
    Split(content, '\n')
  }

  /** The transformer keeps a document iff it has content and a line that is not a heading. */
  predicate Keep(d: Document) {
    d.content != "" && HasBodyLine(Lines(d.content))
  }

  /** n copies of a document. */
  function Copies(d: Document, n: nat): seq<Document>
    decreases n
  {
    if n == 0 then [] else Copies(d, n - 1) + [d]
  }

  /** What the function version appends for one document. */
  function DocCopies(d: Document): seq<Document> {
    if d.content == "" then [] else Copies(d, BodyLines(Lines(d.content)))
  }

  /** The result of the function version (textsplitter.go). */
  function NoBreakResult(docs: seq<Document>): seq<Document>
    decreases |docs|
  {
    if |docs| == 0 then [] else NoBreakResult(docs[..|docs| - 1]) + DocCopies(docs[|docs| - 1])
  }

  /** The result of the transformer (transformers/markdown.go). */
  function Kept(docs: seq<Document>): seq<Document>
    decreases |docs|
  {
    if |docs| == 0 then []
    else Kept(docs[..|docs| - 1]) + (if Keep(docs[|docs| - 1]) then [docs[|docs| - 1]] else [])
  }

  /** FilterMarkdownDocsNoContent in textsplitter.go: no `break` in the line loop. */
  method FilterMarkdownDocsNoContent(docs: seq<Document>) returns (filtered: seq<Document>)
    ensures filtered == NoBreakResult(docs)
  {
    filtered := [];
    for i := 0 to |docs|
      invariant filtered == NoBreakResult(docs[..i])
    {
      assert docs[..i + 1][..i] == docs[..i];
      var doc := docs[i];
      if doc.content != "" {
        filtered := AppendPerBodyLine(filtered, doc, Split(doc.content, '\n'));
      }
    }
    assert docs[..|docs|] == docs;
  }

  /** The line loop of FilterMarkdownDocsNoContent: appends the document once per non-heading line. */
  method AppendPerBodyLine(before: seq<Document>, doc: Document, lines: seq<string>) returns (filtered: seq<Document>)
    ensures filtered == before + Copies(doc, BodyLines(lines))
  {
    filtered := before;
    for j := 0 to |lines|
      invariant filtered == before + Copies(doc, BodyLines(lines[..j]))
    {
      assert lines[..j + 1][..j] == lines[..j];
      if !HasPrefix(lines[j], "#") {
        AppendAssociates(before, Copies(doc, BodyLines(lines[..j])), [doc]);
        filtered := filtered + [doc];
      }
    }
    assert lines[..|lines|] == lines;
  }

  /** FilterMarkdownDocsNoContent.Transform in transformers/markdown.go: stops at the first body line. */
  method Transform(docs: seq<Document>) returns (filtered: seq<Document>, err: Option<string>)
    ensures filtered == Kept(docs) && err == None
  {
    filtered := [];
    for i := 0 to |docs|
      invariant filtered == Kept(docs[..i])
    {
      assert docs[..i + 1][..i] == docs[..i];
      var doc := docs[i];
      if doc.content != "" {
        var lines := Split(doc.content, '\n');
        for j := 0 to |lines|
          invariant filtered == Kept(docs[..i])
          invariant forall k :: 0 <= k < j ==> IsHeadingLine(lines[k])
        {
          if !HasPrefix(lines[j], "#") {
            filtered := filtered + [doc];
            break;
          }
        }
      }
    }
    assert docs[..|docs|] == docs;
    err := None;
  }

  /** A line count above zero is the same as the existence of a body line. */
  lemma {:induction false} BodyLinesPositive(lines: seq<string>)
    ensures BodyLines(lines) > 0 <==> HasBodyLine(lines)
    decreases |lines|
  {
    if |lines| > 0 {
      var init := lines[..|lines| - 1];
      BodyLinesPositive(init);
      if HasBodyLine(init) {
        var k :| 0 <= k < |init| && !IsHeadingLine(init[k]);
        assert lines[k] == init[k];
      }
      if HasBodyLine(lines) && !HasBodyLine(init) {
        var k :| 0 <= k < |lines| && !IsHeadingLine(lines[k]);
        assert k == |lines| - 1;
      }
    }
  }

  /** The transformer keeps a document iff it is in the input, has content and a non-heading line. */
  lemma {:induction false} KeptIff(docs: seq<Document>, d: Document)
    ensures d in Kept(docs) <==> d in docs && Keep(d)
    decreases |docs|
  {
    if |docs| > 0 {
      var init := docs[..|docs| - 1];
      KeptIff(init, d);
      assert docs == init + [docs[|docs| - 1]];
    }
  }

  /** Each input document is kept once or not at all: the multiplicities are those of the input. */
  lemma {:induction false} KeptOnce(docs: seq<Document>, d: Document)
    ensures multiset(Kept(docs))[d] == (if Keep(d) then multiset(docs)[d] else 0)
    decreases |docs|
  {
    if |docs| > 0 {
      var init := docs[..|docs| - 1];
      KeptOnce(init, d);
      assert docs == init + [docs[|docs| - 1]];
    }
  }

  /** The transformer keeps the input order: filtering a concatenation concatenates the results. */
  lemma {:induction false} KeptAppend(a: seq<Document>, b: seq<Document>)
    ensures Kept(a + b) == Kept(a) + Kept(b)
    decreases |b|
  {
    if |b| > 0 {
      var init := b[..|b| - 1];
      KeptAppend(a, init);
      assert (a + b)[..|a + b| - 1] == a + init;
      assert (a + b)[|a + b| - 1] == b[|b| - 1];
      assert Kept(a + b) == Kept(a + init) + (if Keep(b[|b| - 1]) then [b[|b| - 1]] else []);
    } else {
      assert a + b == a;
    }
  }

  /** The function version keeps the same documents, but once per non-heading line. */
  lemma {:induction false} NoBreakKeepsSame(docs: seq<Document>, d: Document)
    ensures d in NoBreakResult(docs) <==> d in Kept(docs)
    decreases |docs|
  {
    if |docs| > 0 {
      var init := docs[..|docs| - 1];
      var last := docs[|docs| - 1];
      NoBreakKeepsSame(init, d);
      if last.content != "" {
        BodyLinesPositive(Lines(last.content));
        CopiesOf(last, BodyLines(Lines(last.content)));
      }
    }
  }

  /** n copies are n documents, all equal to the one copied. */
  lemma {:induction false} CopiesOf(d: Document, n: nat)
    ensures |Copies(d, n)| == n && forall k :: 0 <= k < n ==> Copies(d, n)[k] == d
    decreases n
  {
    if n > 0 {
      CopiesOf(d, n - 1);
    }
  }

  /** A document with content appears in the function version's result once per non-heading line. */
  lemma OneCopyPerBodyLine(d: Document)
    requires d.content != ""
    ensures NoBreakResult([d]) == Copies(d, BodyLines(Lines(d.content)))
    ensures |NoBreakResult([d])| == BodyLines(Lines(d.content))
  {
    assert [d][..0] == [];
    CopiesOf(d, BodyLines(Lines(d.content)));
  }

  /** A text that ends in a newline splits into lines whose last one is empty. */
  lemma {:induction false} SplitTrailingSep(s: string, sep: char)
    ensures var parts := Split(s + [sep], sep); parts[|parts| - 1] == ""
    decreases |s|
  {
    if |s| == 0 {
      assert [sep][1..] == "";
    } else {
      SplitTrailingSep(s[1..], sep);
      assert (s + [sep])[1..] == s[1..] + [sep];
    }
  }

  /** A document whose content ends with "\n" (such as "# h\n") is kept: its last line is empty. */
  lemma TrailingNewlineKept(d: Document)
    requires HasSuffix(d.content, "\n")
    ensures Keep(d)
  {
    var s := d.content[..|d.content| - 1];
    assert d.content == s + ['\n'];
    SplitTrailingSep(s, '\n');
    var lines := Lines(d.content);
    assert !IsHeadingLine(lines[|lines| - 1]);
  }

  /** A document whose lines all start with '#' is dropped by both filters. */
  lemma HeadingsOnlyDropped(d: Document)
    requires forall k :: 0 <= k < |Lines(d.content)| ==> IsHeadingLine(Lines(d.content)[k])
    ensures Kept([d]) == [] && NoBreakResult([d]) == []
  {
    assert [d][..0] == [];
    BodyLinesPositive(Lines(d.content));
  }
}
