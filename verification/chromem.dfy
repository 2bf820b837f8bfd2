/**
 * The chromem-backed vector store: how documents are handed to a chromem collection (one new ID
 * each, string-only metadata, a placeholder for empty content) and how a similarity search is
 * guarded, clamped and filtered by keywords. The embedding and ranking done inside chromem are
 * parameters: the IDs chromem is given, the outcome of adding, and the query function.
 */
module Chromem {
  import opened Wrappers
  import opened GoStrings
  import opened DocTypes

  /** The content stored for a document whose content is empty. */
  const NoContent: string := "<no content>"

  datatype StoreError =
    | CollectionNotFound(collection: string)
    | CollectionEmpty(collection: string)
    | Backend(message: string)

  /** A document as a chromem collection holds it. */
  datatype ChromemDocument = ChromemDocument(id: string, metadata: map<string, string>, content: string)

  /** One result of a chromem query. */
  datatype Hit = Hit(id: string, metadata: map<string, string>, content: string, similarity: real)

  // ---------------------------------------------------------------------------------------------
  // Metadata conversion

  /** The kinds of value anyMapToStringMap keeps. */
  predicate Storable(v: Any) {
    v.Str? || v.Int? || v.Bool? || v.Float?
  }

  /** The text a kept value is stored as: strconv.Itoa, strconv.FormatBool or FormatFloat. */
  function Render(v: Any): string
    requires Storable(v)
  {
    match v
    case Str(s) => s
    case Int(i) => IntToString(i)
    case Bool(b) => if b then "true" else "false"
    case Float(text) => text
  }

  /** The string map anyMapToStringMap builds. */
  function StringMetadata(m: map<string, Any>): map<string, string> {
    map k | k in m && Storable(m[k]) :: Render(m[k])
  }

  /** anyMapToStringMap: the map is walked in any order; unsupported values are skipped. */
  method AnyMapToStringMap(m: map<string, Any>) returns (converted: map<string, string>)
    ensures converted == StringMetadata(m)
  {
    converted := map[];
    var todo := m.Keys;
    while todo != {}
      invariant todo <= m.Keys
      invariant converted == map k | k in m && k !in todo && Storable(m[k]) :: Render(m[k])
      decreases todo
    {
      var key :| key in todo;
      var value := m[key];
      match value {
        case Str(s) => converted := converted[key := s];
        case Int(i) => converted := converted[key := IntToString(i)];
        case Bool(b) => converted := converted[key := if b then "true" else "false"];
        case Float(text) => converted := converted[key := text];
        case Nil =>
        case Other(_) =>
      }
      todo := todo - {key};
    }
  }

  /** The map convertStringMapToAnyMap builds: every value as a string. */
  function AnyMetadata(m: map<string, string>): map<string, Any> {
    map k | k in m :: Str(m[k])
  }

  /** convertStringMapToAnyMap. */
  method ConvertStringMapToAnyMap(m: map<string, string>) returns (converted: map<string, Any>)
    ensures converted == AnyMetadata(m)
  {
    converted := map[];
    var todo := m.Keys;
    while todo != {}
      invariant todo <= m.Keys
      invariant converted == map k | k in m && k !in todo :: Str(m[k])
      decreases todo
    {
      var key :| key in todo;
      converted := converted[key := Str(m[key])];
      todo := todo - {key};
    }
  }

  /** A key survives the conversion to strings iff its value is a string, integer, boolean or float. */
  lemma StringMetadataKeys(m: map<string, Any>, k: string)
    ensures k in StringMetadata(m) <==> k in m && (m[k].Str? || m[k].Int? || m[k].Bool? || m[k].Float?)
    ensures k in m && m[k].Str? ==> StringMetadata(m)[k] == m[k].s
    ensures k in m && m[k].Int? ==> StringMetadata(m)[k] == IntToString(m[k].i)
    ensures k in m && m[k].Bool? ==> StringMetadata(m)[k] == (if m[k].b then "true" else "false")
  {
  }

  /** String metadata read back from chromem and stored again is unchanged. */
  lemma StringAnyRoundTrip(m: map<string, string>)
    ensures StringMetadata(AnyMetadata(m)) == m
  {
  }

  /** Converting to values keeps every key and value. */
  lemma AnyMetadataKeeps(m: map<string, string>)
    ensures AnyMetadata(m).Keys == m.Keys
    ensures forall k :: k in m ==> AnyMetadata(m)[k] == Str(m[k]) && Format(AnyMetadata(m)[k]) == m[k]
  {
  }

  // ---------------------------------------------------------------------------------------------
  // Adding documents

  /** The chromem document made from one input document and its new ID. */
  function ToChromem(doc: Document, id: string): ChromemDocument {
    ChromemDocument(id, StringMetadata(Entries(doc.metadata)), if |doc.content| == 0 then NoContent else doc.content)
  }

  /** The chromem documents made from the inputs and their IDs, in order. */
  function ToChromemAll(docs: seq<Document>, ids: seq<string>): seq<ChromemDocument>
    requires |ids| == |docs|
    decreases |docs|
  {
    if |docs| == 0 then []
    else ToChromemAll(docs[..|docs| - 1], ids[..|ids| - 1]) + [ToChromem(docs[|docs| - 1], ids[|ids| - 1])]
  }

  /** Document k of the conversion is input k with ID k. */
  lemma {:induction false} ToChromemAllAt(docs: seq<Document>, ids: seq<string>)
    requires |ids| == |docs|
    ensures |ToChromemAll(docs, ids)| == |docs|
    ensures forall k :: 0 <= k < |docs| ==> ToChromemAll(docs, ids)[k] == ToChromem(docs[k], ids[k])
    decreases |docs|
  {
    if |docs| > 0 {
      ToChromemAllAt(docs[..|docs| - 1], ids[..|ids| - 1]);
    }
  }

  /** Every stored document has content, and it is the input's content whenever that is non-empty. */
  lemma StoredContent(doc: Document, id: string)
    ensures ToChromem(doc, id).content != ""
    ensures doc.content != "" ==> ToChromem(doc, id).content == doc.content
    ensures ToChromem(doc, id).id == id
  {
  }

  /** The query a collection answers: (stored documents, query text, number of results) to hits or an error. */
  type Query = (seq<ChromemDocument>, string, int) -> Result<seq<Hit>, string>

  /** The hits that hold every keyword, as vector-store documents, in hit order. */
  function KeywordHits(hits: seq<Hit>, keywords: seq<string>): seq<Document>
    decreases |hits|
  {
    if |hits| == 0 then []
    else
      var h := hits[|hits| - 1];
      KeywordHits(hits[..|hits| - 1], keywords) +
        (if forall k :: 0 <= k < |keywords| ==> Contains(h.content, keywords[k])
         then [Document("", h.content, Some(AnyMetadata(h.metadata)), h.similarity)]
         else [])
  }

  /** The search's bound on the number of results: numDocuments, capped at the collection's size. */
  function Clamp(numDocuments: int, count: nat): (n: int)
    ensures n <= count
    ensures numDocuments <= count ==> n == numDocuments
  {
    if numDocuments > count then count else numDocuments
  }

  /** The loop of AddDocuments that fills the ID and document arrays, one entry per input. */
  method ConvertDocuments(docs: seq<Document>, newIds: seq<string>) returns (ids: seq<string>, chromemDocs: seq<ChromemDocument>)
    requires |newIds| == |docs|
    ensures ids == newIds && chromemDocs == ToChromemAll(docs, newIds)
  {
    var idArray := new string[|docs|];
    var docArray := new ChromemDocument[|docs|](_ => ChromemDocument("", map[], ""));
    for docIdx := 0 to |docs|
      invariant forall k :: 0 <= k < docIdx ==> idArray[k] == newIds[k] && docArray[k] == ToChromem(docs[k], newIds[k])
    {
      idArray[docIdx] := newIds[docIdx];
      var doc := docs[docIdx];
      var mc := Entries(doc.metadata);
      if |doc.content| == 0 {
        doc := doc.(content := NoContent);
      }
      var metadata := AnyMapToStringMap(mc);
      docArray[docIdx] := ChromemDocument(idArray[docIdx], metadata, doc.content);
    }
    ToChromemAllAt(docs, newIds);
    ids := idArray[..];
    chromemDocs := docArray[..];
  }

  /** A chromem database: named collections of documents. */
  class Store {
    var collections: map<string, seq<ChromemDocument>>

    constructor (collections: map<string, seq<ChromemDocument>>)
      ensures this.collections == collections
    {
      this.collections := collections;
    }

    /**
     * AddDocuments: document k gets ID newIds[k] (the UUIDs generated for this call). A missing
     * collection or a failure of chromem's own AddDocuments leaves the store as it was; otherwise
     * the converted documents are appended to the collection and their IDs returned in input order.
     */
    method AddDocuments(docs: seq<Document>, collection: string, newIds: seq<string>, added: Option<string>)
      returns (r: Result<seq<string>, StoreError>)
      requires |newIds| == |docs|
      modifies this
      ensures collection !in old(collections) ==> r == Err(CollectionNotFound(collection)) && collections == old(collections)
      ensures collection in old(collections) && added.Some? ==> r == Err(Backend(added.value)) && collections == old(collections)
      ensures collection in old(collections) && added.None? ==>
        r == Ok(newIds) && collections == old(collections)[collection := old(collections)[collection] + ToChromemAll(docs, newIds)]
    {
      var ids, chromemDocs := ConvertDocuments(docs, newIds);
      if collection !in collections {
        return Err(CollectionNotFound(collection));
      }
      if added.Some? {
        return Err(Backend(added.value));
      }
      collections := collections[collection := collections[collection] + chromemDocs];
      r := Ok(ids);
    }

    /**
     * SimilaritySearch: a missing or empty collection fails; otherwise the collection is queried
     * for at most as many results as it holds, and the hits holding every keyword are returned.
     */
    method SimilaritySearch(query: Query, text: string, numDocuments: int, collection: string, keywords: seq<string>)
      returns (r: Result<seq<Document>, StoreError>)
      ensures collection !in collections ==> r == Err(CollectionNotFound(collection))
      ensures collection in collections && |collections[collection]| == 0 ==> r == Err(CollectionEmpty(collection))
      ensures collection in collections && |collections[collection]| > 0 ==>
        var qr := query(collections[collection], text, Clamp(numDocuments, |collections[collection]|));
        r == if qr.Err? then Err(Backend(qr.error)) else Ok(KeywordHits(qr.value, keywords))
    {
      if collection !in collections {
        return Err(CollectionNotFound(collection));
      }
      var col := collections[collection];
      if |col| == 0 {
        return Err(CollectionEmpty(collection));
      }
      var n := numDocuments;
      if n > |col| {
        n := |col|;
      }
      var qr := query(col, text, n);
      if qr.Err? {
        return Err(Backend(qr.error));
      }
      if |qr.value| == 0 {
        return Ok([]);
      }
      var sDocs := FilterHits(qr.value, keywords);
      r := Ok(sDocs);
    }
  }

  /** The result loop of SimilaritySearch: a hit missing a keyword is skipped. */
  method FilterHits(hits: seq<Hit>, keywords: seq<string>) returns (sDocs: seq<Document>)
    ensures sDocs == KeywordHits(hits, keywords)
  {
    sDocs := [];
    for i := 0 to |hits|
      invariant sDocs == KeywordHits(hits[..i], keywords)
    {
      assert hits[..i + 1][..i] == hits[..i];
      var qrd := hits[i];
      var ok := true;
      for j := 0 to |keywords|
        invariant ok <==> forall k :: 0 <= k < j ==> Contains(qrd.content, keywords[k])
        invariant ok
      {
        if !Contains(qrd.content, keywords[j]) {
          ok := false;
          break;
        }
      }
      if ok {
        var metadata := ConvertStringMapToAnyMap(qrd.metadata);
        sDocs := sDocs + [Document("", qrd.content, Some(metadata), qrd.similarity)];
      }
    }
    assert hits[..|hits|] == hits;
  }

  /**
   * The keyword filter returns, in hit order, exactly the hits that hold every keyword: at most as
   * many documents as hits, each holding every keyword, and all hits when there are no keywords.
   */
  lemma {:induction false} KeywordHitsSpec(hits: seq<Hit>, keywords: seq<string>)
    ensures |KeywordHits(hits, keywords)| <= |hits|
    ensures forall i, k :: 0 <= i < |KeywordHits(hits, keywords)| && 0 <= k < |keywords| ==>
      Contains(KeywordHits(hits, keywords)[i].content, keywords[k])
    ensures |keywords| == 0 ==> |KeywordHits(hits, keywords)| == |hits|
    decreases |hits|
  {
    if |hits| > 0 {
      KeywordHitsSpec(hits[..|hits| - 1], keywords);
    }
  }

  /** The filter keeps hit order: filtering a concatenation concatenates the results. */
  lemma {:induction false} KeywordHitsAppend(a: seq<Hit>, b: seq<Hit>, keywords: seq<string>)
    ensures KeywordHits(a + b, keywords) == KeywordHits(a, keywords) + KeywordHits(b, keywords)
    decreases |b|
  {
    if |b| > 0 {
      KeywordHitsAppend(a, b[..|b| - 1], keywords);
      assert (a + b)[..|a + b| - 1] == a + b[..|b| - 1];
      assert (a + b)[|a + b| - 1] == b[|b| - 1];
    } else {
      assert a + b == a;
    }
  }

  /** A result document carries the hit's content, score and metadata, and no ID. */
  lemma KeywordHitOne(h: Hit, keywords: seq<string>)
    requires forall k :: 0 <= k < |keywords| ==> Contains(h.content, keywords[k])
    ensures KeywordHits([h], keywords) == [Document("", h.content, Some(AnyMetadata(h.metadata)), h.similarity)]
  {
    assert [h][..0] == [];
  }
}
