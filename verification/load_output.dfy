/**
 * How the `load` command turns loaded documents into its output text: either markdown (each
 * document with content, prefixed by its metadata as JSON, separated by doc breaks) or a
 * structured document whose top-level metadata holds what all documents share, plus the source
 * and the user's metadata, and whose documents keep only the rest. Reading the input, choosing
 * the loader and writing the output are not modelled; JSON encoding is a parameter.
 */
module LoadOutput {
  import opened Wrappers
  import opened GoStrings
  import opened DocTypes

  const DocBreak: string := "\n---docbreak---\n"

  /** The entries of `target` that `other` has with an equal value. */
  function CommonPart(target: map<string, Any>, other: map<string, Any>): (r: map<string, Any>)
    ensures forall k :: k in r <==> k in target && k in other && other[k] == target[k]
    ensures forall k :: k in r ==> r[k] == target[k]
  {
    map k | k in target && k in other && other[k] == target[k] :: target[k]
  }

  /** extractCommon: deletes from the target, while iterating over it, every entry `other` lacks or holds differently. */
  method ExtractCommon(target: map<string, Any>, other: Metadata) returns (r: map<string, Any>)
    ensures r == CommonPart(target, Entries(other))
  {
    r := target;
    var o := Entries(other);
    var todo := target.Keys;
    while todo != {}
      invariant todo <= target.Keys
      invariant r == map k | k in target && (k in todo || (k in o && o[k] == target[k])) :: target[k]
      decreases todo
    {
      var key :| key in todo;
      if key in o && o[key] == target[key] {
        r := r[key := target[key]];
      } else {
        r := r - {key};
      }
      todo := todo - {key};
    }
  }

  /** dropCommon: deletes from the target every key `common` has; a nil target stays nil. */
  method DropCommon(target: Metadata, common: map<string, Any>) returns (r: Metadata)
    ensures r == DropKeys(target, common)
  {
    if target.None? {
      return None;
    }
    var t := target.value;
    var todo := t.Keys;
    while todo != {}
      invariant todo <= target.value.Keys
      invariant t == map k | k in target.value && (k in todo || k !in common) :: target.value[k]
      decreases todo
    {
      var key :| key in todo;
      if key in common {
        t := t - {key};
      }
      todo := todo - {key};
    }
    assert t == target.value - common.Keys;
    r := Some(t);
  }

  function DropKeys(target: Metadata, common: map<string, Any>): (r: Metadata)
    ensures r.None? <==> target.None?
    ensures r.Some? ==> forall k :: k in r.value <==> k in target.value && k !in common
    ensures r.Some? ==> forall k :: k in r.value ==> r.value[k] == target.value[k]
  {
    if target.None? then None else Some(target.value - common.Keys)
  }

  /** Extracting the common part of the first map over every document in turn. */
  function CommonAll(acc: map<string, Any>, docs: seq<Document>): map<string, Any>
    decreases |docs|
  {
    if |docs| == 0 then acc else CommonAll(CommonPart(acc, Entries(docs[0].metadata)), docs[1..])
  }

  /** The user's metadata (strings) as metadata values. */
  function UserMetadata(user: map<string, string>): map<string, Any> {
    map k | k in user :: Str(user[k])
  }

  datatype StructuredDocument = StructuredDocument(metadata: Metadata, content: string)
  datatype StructuredInput = StructuredInput(metadata: map<string, Any>, documents: seq<StructuredDocument>)

  /** The top-level metadata: what every document shares with the first, then "source", then the user's entries. */
  function SharedMetadata(docs: seq<Document>, input: string, user: map<string, string>): map<string, Any>
    requires |docs| >= 1
  {
    CommonAll(Entries(docs[0].metadata), docs)["source" := Str(input)] + UserMetadata(user)
  }

  /** The structured output before JSON encoding. */
  function Structured(docs: seq<Document>, input: string, user: map<string, string>): StructuredInput
    requires |docs| >= 1
  {
    var common := SharedMetadata(docs, input, user);
    StructuredInput(common, StructuredDocs(docs, common))
  }

  function StructuredDocs(docs: seq<Document>, common: map<string, Any>): (r: seq<StructuredDocument>)
    ensures |r| == |docs|
    ensures forall i :: 0 <= i < |docs| ==> r[i] == StructuredDocument(DropKeys(docs[i].metadata, common), docs[i].content)
    decreases |docs|
  {
    if |docs| == 0 then []
    else [StructuredDocument(DropKeys(docs[0].metadata, common), docs[0].content)] + StructuredDocs(docs[1..], common)
  }

  /**
   * The structured branch of the command: the first document's metadata is copied, narrowed by
   * every document in turn, given "source" and the user's entries; then each document keeps
   * only the keys the common metadata lacks. It reads the first document, so there must be one.
   */
  method StructuredOutput(docs: seq<Document>, input: string, user: map<string, string>) returns (s: StructuredInput)
    requires |docs| >= 1
    ensures s == Structured(docs, input, user)
  {
    var common, documents := NarrowCommon(docs);
    common := common["source" := Str(input)];
    common := SetUser(common, user);
    documents := DropAll(docs, documents, common);
    s := StructuredInput(common, documents);
  }

  /** The first loop of the structured branch: narrowing the copied metadata and listing the documents. */
  method NarrowCommon(docs: seq<Document>) returns (common: map<string, Any>, documents: seq<StructuredDocument>)
    requires |docs| >= 1
    ensures common == CommonAll(Entries(docs[0].metadata), docs)
    ensures |documents| == |docs|
    ensures forall j :: 0 <= j < |docs| ==> documents[j] == StructuredDocument(docs[j].metadata, docs[j].content)
  {
    common := Entries(docs[0].metadata);
    documents := [];
    for i := 0 to |docs|
      invariant CommonAll(common, docs[i..]) == CommonAll(Entries(docs[0].metadata), docs)
      invariant |documents| == i
      invariant forall j :: 0 <= j < i ==> documents[j] == StructuredDocument(docs[j].metadata, docs[j].content)
    {
      assert docs[i..][1..] == docs[i + 1..];
      common := ExtractCommon(common, docs[i].metadata);
      documents := documents + [StructuredDocument(docs[i].metadata, docs[i].content)];
    }
    assert docs[|docs|..] == [];
  }

  /** The last loop of the structured branch: each document drops the keys of the common metadata. */
  method DropAll(docs: seq<Document>, documents: seq<StructuredDocument>, common: map<string, Any>)
    returns (r: seq<StructuredDocument>)
    requires |documents| == |docs|
    requires forall j :: 0 <= j < |docs| ==> documents[j] == StructuredDocument(docs[j].metadata, docs[j].content)
    ensures r == StructuredDocs(docs, common)
  {
    r := documents;
    for i := 0 to |r|
      invariant |r| == |docs|
      invariant forall j :: 0 <= j < i ==> r[j] == StructuredDocument(DropKeys(docs[j].metadata, common), docs[j].content)
      invariant forall j :: i <= j < |docs| ==> r[j] == StructuredDocument(docs[j].metadata, docs[j].content)
    {
      var dropped := DropCommon(r[i].metadata, common);
      r := r[i := r[i].(metadata := dropped)];
    }
  }

  /** A key survives the narrowing iff every document holds it with the first document's value. */
  lemma {:induction false} CommonAllIff(acc: map<string, Any>, docs: seq<Document>, k: string)
    ensures k in CommonAll(acc, docs) <==>
      k in acc && forall i :: 0 <= i < |docs| ==> k in Entries(docs[i].metadata) && Entries(docs[i].metadata)[k] == acc[k]
    ensures k in CommonAll(acc, docs) ==> CommonAll(acc, docs)[k] == acc[k]
    decreases |docs|
  {
    if |docs| > 0 {
      var next := CommonPart(acc, Entries(docs[0].metadata));
      CommonAllIff(next, docs[1..], k);
      if k in acc && forall i :: 0 <= i < |docs| ==> k in Entries(docs[i].metadata) && Entries(docs[i].metadata)[k] == acc[k] {
        assert forall i :: 0 <= i < |docs[1..]| ==> docs[1..][i] == docs[i + 1];
      }
      if k in CommonAll(acc, docs) {
        forall i | 0 <= i < |docs|
          ensures k in Entries(docs[i].metadata) && Entries(docs[i].metadata)[k] == acc[k]
        {
          if i > 0 {
            assert docs[i] == docs[1..][i - 1];
          }
        }
      }
    }
  }

  /**
   * The structured output's top-level metadata holds the source and the user's entries, and
   * otherwise exactly the entries every document has with one value; no document keeps a key of it.
   */
  lemma StructuredShape(docs: seq<Document>, input: string, user: map<string, string>, k: string)
    requires |docs| >= 1
    ensures var s := Structured(docs, input, user);
      (k in user ==> k in s.metadata && s.metadata[k] == Str(user[k])) &&
      (k !in user && k == "source" ==> k in s.metadata && s.metadata[k] == Str(input)) &&
      (k !in user && k != "source" ==>
        (k in s.metadata <==> k in Entries(docs[0].metadata) && forall i :: 0 <= i < |docs| ==>
           k in Entries(docs[i].metadata) && Entries(docs[i].metadata)[k] == Entries(docs[0].metadata)[k])) &&
      |s.documents| == |docs| &&
      forall i :: 0 <= i < |docs| ==>
        s.documents[i].content == docs[i].content && (k in s.metadata ==> k !in Entries(s.documents[i].metadata))
  {
    CommonAllIff(Entries(docs[0].metadata), docs, k);
  }

  /**
   * Nothing is lost: every entry of a document either stays with the document or is a key of the
   * top-level metadata; and a shared entry that "source" and the user's metadata do not override
   * has the document's own value there.
   */
  lemma StructuredKeepsEntries(docs: seq<Document>, input: string, user: map<string, string>, i: int, k: string)
    requires |docs| >= 1 && 0 <= i < |docs|
    requires k in Entries(docs[i].metadata)
    ensures var s := Structured(docs, input, user);
      (k in Entries(s.documents[i].metadata) && Entries(s.documents[i].metadata)[k] == Entries(docs[i].metadata)[k]) ||
      (k in s.metadata && (k !in user && k != "source" ==> s.metadata[k] == Entries(docs[i].metadata)[k]))
  {
    CommonAllIff(Entries(docs[0].metadata), docs, k);
  }

  /** The metadata a markdown piece prints: the document's, with the user's entries set. */
  function WithUser(m: Metadata, user: map<string, string>): Metadata
    requires user != map[] ==> m.Some?
  {
    if user == map[] then m else Some(m.value + UserMetadata(user))
  }

  predicate HasContent(d: Document) {
    |d.content| > 0
  }

  /** The markdown pieces, one per document with content; the first JSON failure stops them. */
  function MarkdownPieces(docs: seq<Document>, user: map<string, string>, marshal: Metadata -> Result<string, string>)
    : Result<seq<string>, string>
    requires user != map[] ==> forall i :: 0 <= i < |docs| && HasContent(docs[i]) ==> docs[i].metadata.Some?
    decreases |docs|
  {
    if |docs| == 0 then Ok([])
    else
      var d := docs[0];
      if !HasContent(d) then MarkdownPieces(docs[1..], user, marshal)
      else
        var json := marshal(WithUser(d.metadata, user));
        if json.Err? then Err("failed to marshal metadata: " + json.error)
        else
          var rest := MarkdownPieces(docs[1..], user, marshal);
          if rest.Err? then rest else Ok(["!metadata " + json.value + "\n" + d.content] + rest.value)
  }

  /**
   * The markdown branch of the command. Writing the user's entries into a document's nil map
   * panics, so with user metadata every document with content must carry a map.
   */
  method MarkdownOutput(docs: seq<Document>, user: map<string, string>, marshal: Metadata -> Result<string, string>)
    returns (r: Result<string, string>)
    requires user != map[] ==> forall i :: 0 <= i < |docs| && HasContent(docs[i]) ==> docs[i].metadata.Some?
    ensures MarkdownPieces(docs, user, marshal).Err? ==> r == Err(MarkdownPieces(docs, user, marshal).error)
    ensures MarkdownPieces(docs, user, marshal).Ok? ==> r == Ok(Join(MarkdownPieces(docs, user, marshal).value, DocBreak))
  {
    var texts: seq<string> := [];
    ghost var whole := MarkdownPieces(docs, user, marshal);
    assert docs[0..] == docs;
    if whole.Ok? {
      assert [] + whole.value == whole.value;
    }
    for i := 0 to |docs|
      invariant whole == (var rest := MarkdownPieces(docs[i..], user, marshal); if rest.Err? then rest else Ok(texts + rest.value))
    {
      assert docs[i..][1..] == docs[i + 1..];
      var d := docs[i];
      if |d.content| == 0 {
        continue;
      }
      var metadata := d.metadata;
      if user != map[] {
        var m := SetUser(metadata.value, user);
        metadata := Some(m);
      }
      assert metadata == WithUser(d.metadata, user);
      assert docs[i..][0] == d;
      var json := marshal(metadata);
      if json.Err? {
        return Err("failed to marshal metadata: " + json.error);
      }
      var piece := "!metadata " + json.value + "\n" + d.content;
      var rest := MarkdownPieces(docs[i + 1..], user, marshal);
      if rest.Ok? {
        assert (texts + [piece]) + rest.value == texts + ([piece] + rest.value);
      }
      texts := texts + [piece];
    }
    assert docs[|docs|..] == [];
    assert texts + [] == texts;
    r := Ok(Join(texts, DocBreak));
  }

  /** Setting the user's entries on one document's map. */
  method SetUser(m: map<string, Any>, user: map<string, string>) returns (r: map<string, Any>)
    ensures r == m + UserMetadata(user)
  {
    r := m;
    var todo := user.Keys;
    while todo != {}
      invariant todo <= user.Keys
      invariant r == m + map k | k in user && k !in todo :: Str(user[k])
      decreases todo
    {
      var k :| k in todo;
      r := r[k := Str(user[k])];
      todo := todo - {k};
    }
  }

  /** A successful markdown rendering has one piece per document with content, holding its content. */
  lemma {:induction false} MarkdownOnePiecePerDocument(docs: seq<Document>, user: map<string, string>, marshal: Metadata -> Result<string, string>)
    requires user != map[] ==> forall i :: 0 <= i < |docs| && HasContent(docs[i]) ==> docs[i].metadata.Some?
    requires MarkdownPieces(docs, user, marshal).Ok?
    ensures |MarkdownPieces(docs, user, marshal).value| == |Select(docs, (d: Document) => HasContent(d))|
    decreases |docs|
  {
    if |docs| > 0 {
      MarkdownOnePiecePerDocument(docs[1..], user, marshal);
      SelectAppend([docs[0]], docs[1..], (d: Document) => HasContent(d));
      assert [docs[0]] + docs[1..] == docs;
      assert Select([docs[0]], (d: Document) => HasContent(d)) ==
        Select([], (d: Document) => HasContent(d)) + (if HasContent(docs[0]) then [docs[0]] else []);
    }
  }

  /**
   * The k-th markdown piece belongs to the k-th document with content: it is the "!metadata "
   * line followed by that document's content.
   */
  lemma {:induction false} MarkdownPieceHoldsContent(docs: seq<Document>, user: map<string, string>, marshal: Metadata -> Result<string, string>, k: int)
    requires user != map[] ==> forall i :: 0 <= i < |docs| && HasContent(docs[i]) ==> docs[i].metadata.Some?
    requires MarkdownPieces(docs, user, marshal).Ok? && 0 <= k < |MarkdownPieces(docs, user, marshal).value|
    ensures k < |Select(docs, (d: Document) => HasContent(d))|
    ensures var piece := MarkdownPieces(docs, user, marshal).value[k];
      HasPrefix(piece, "!metadata ") && HasSuffix(piece, "\n" + Select(docs, (d: Document) => HasContent(d))[k].content)
    decreases |docs|
  {
    MarkdownOnePiecePerDocument(docs, user, marshal);
    var rest := docs[1..];
    SelectAppend([docs[0]], rest, (d: Document) => HasContent(d));
    assert [docs[0]] + rest == docs;
    assert Select([docs[0]], (d: Document) => HasContent(d)) ==
      Select([], (d: Document) => HasContent(d)) + (if HasContent(docs[0]) then [docs[0]] else []);
    if !HasContent(docs[0]) {
      MarkdownPieceHoldsContent(rest, user, marshal, k);
    } else if k > 0 {
      MarkdownPieceHoldsContent(rest, user, marshal, k - 1);
    } else {
      var piece := MarkdownPieces(docs, user, marshal).value[0];
      var json := marshal(WithUser(docs[0].metadata, user)).value;
      assert piece == "!metadata " + json + "\n" + docs[0].content;
      assert piece[..|"!metadata "|] == "!metadata ";
      assert piece[|piece| - |"\n" + docs[0].content|..] == "\n" + docs[0].content;
    }
  }

  /** Documents without content never reach the output: appending one changes nothing. */
  lemma {:induction false} EmptyContentSkipped(docs: seq<Document>, d: Document, user: map<string, string>, marshal: Metadata -> Result<string, string>)
    requires !HasContent(d)
    requires user != map[] ==> forall i :: 0 <= i < |docs| && HasContent(docs[i]) ==> docs[i].metadata.Some?
    ensures MarkdownPieces([d] + docs, user, marshal) == MarkdownPieces(docs, user, marshal)
  {
    assert ([d] + docs)[1..] == docs;
  }

  function UnsupportedFormat(format: string): string {
    "unsupported output format " + Quote(format)
  }

  /**
   * The output text of the command for a format: markdown, structured (JSON-encoded by
   * `encode`), or the error for any other format.
   */
  function RenderOutput(format: string, docs: seq<Document>, input: string, user: map<string, string>,
                        marshal: Metadata -> Result<string, string>, encode: StructuredInput -> Result<string, string>)
    : (r: Result<string, string>)
    requires format == "markdown" && user != map[] ==> forall i :: 0 <= i < |docs| && HasContent(docs[i]) ==> docs[i].metadata.Some?
    requires format == "structured" ==> |docs| >= 1
    ensures format != "markdown" && format != "structured" ==> r == Err(UnsupportedFormat(format))
    ensures format == "structured" && encode(Structured(docs, input, user)).Err? ==>
      r == Err("failed to encode structured input: " + encode(Structured(docs, input, user)).error)
  {
    if format == "markdown" then
      var pieces := MarkdownPieces(docs, user, marshal);
      if pieces.Err? then Err(pieces.error) else Ok(Join(pieces.value, DocBreak))
    else if format == "structured" then
      var text := encode(Structured(docs, input, user));
      if text.Err? then Err("failed to encode structured input: " + text.error) else text
    else Err(UnsupportedFormat(format))
  }
}
