/**
 * The postprocessors that run on a retrieval response after the retriever: the similarity
 * threshold filter, the reduce (sort by score, keep the top K) and the content substring filter.
 * Scores are float32 in the program and `real` here; the postprocessors only compare them.
 */
module Postprocessors {
  import opened Wrappers
  import opened GoStrings
  import opened DocTypes

  /** A retrieval response: the original query and the documents found for each final query. */
  class RetrievalResponse {
    var query: string
    var responses: map<string, seq<Document>>

    constructor (query: string, responses: map<string, seq<Document>>)
      ensures this.query == query && this.responses == responses
    {
      this.query := query;
      this.responses := responses;
    }
  }

  // ---------------------------------------------------------------------------------------------
  // Similarity threshold

  /** The similarity filter's test: the score reaches the threshold. */
  function AtLeast(threshold: real): Document -> bool {
    (d: Document) => d.score >= threshold
  }

  /** The documents of one list that the similarity postprocessor keeps. */
  function AboveThreshold(docs: seq<Document>, threshold: real): seq<Document> {
    Select(docs, AtLeast(threshold))
  }

  /**
   * SimilarityPostprocessor.Transform: every list of the response is replaced by its documents
   * whose score is at least the threshold; the queries and the original query stay; no error.
   */
  method SimilarityTransform(threshold: real, response: RetrievalResponse) returns (err: Option<string>)
    modifies response
    ensures response.query == old(response.query)
    ensures response.responses.Keys == old(response.responses).Keys
    ensures forall q :: q in response.responses ==>
      response.responses[q] == AboveThreshold(old(response.responses)[q], threshold)
    ensures err == None
  {
    ghost var before := response.responses;
    var todo := response.responses.Keys;
    while todo != {}
      invariant todo <= before.Keys
      invariant response.query == old(response.query)
      invariant response.responses.Keys == before.Keys
      invariant forall q :: q in before ==>
        response.responses[q] == (if q in todo then before[q] else AboveThreshold(before[q], threshold))
      decreases todo
    {
      var q :| q in todo;
      var docs := response.responses[q];
      var filtered := [];
      for i := 0 to |docs|
        invariant filtered == AboveThreshold(docs[..i], threshold)
      {
        assert docs[..i + 1][..i] == docs[..i];
        if docs[i].score >= threshold {
          filtered := filtered + [docs[i]];
        }
      }
      assert docs[..|docs|] == docs;
      response.responses := response.responses[q := filtered];
      todo := todo - {q};
    }
    err := None;
  }

  /** A document survives the threshold iff it was in the list and its score reaches the threshold. */
  lemma AboveThresholdIff(docs: seq<Document>, threshold: real, d: Document)
    ensures d in AboveThreshold(docs, threshold) <==> d in docs && d.score >= threshold
  {
    SelectIff(docs, AtLeast(threshold), d);
  }

  /** The filter keeps relative order: the kept documents of a concatenation are concatenated. */
  lemma AboveThresholdOrder(a: seq<Document>, b: seq<Document>, threshold: real)
    ensures AboveThreshold(a + b, threshold) == AboveThreshold(a, threshold) + AboveThreshold(b, threshold)
  {
    SelectAppend(a, b, AtLeast(threshold));
  }

  /** A kept document is kept as often as it occurs; a document below the threshold never is. */
  lemma AboveThresholdCount(docs: seq<Document>, threshold: real, d: Document)
    ensures multiset(AboveThreshold(docs, threshold))[d] == (if d.score >= threshold then multiset(docs)[d] else 0)
  {
    SelectMultiplicity(docs, AtLeast(threshold), d);
  }

  // ---------------------------------------------------------------------------------------------
  // Reduce: sort by score, keep the top K

  /** Scores never increase along the list: the order the reduce comparator establishes. */
  predicate ScoreDescending(docs: seq<Document>) {
    forall i, j :: 0 <= i < j < |docs| ==> docs[i].score >= docs[j].score
  }

  /** Inserts `d` before the first document it is not below. */
  function InsertByScore(d: Document, sorted: seq<Document>): (r: seq<Document>)
    ensures |r| == |sorted| + 1
  {
    if |sorted| == 0 then [d]
    else if d.score >= sorted[0].score then [d] + sorted
    else [sorted[0]] + InsertByScore(d, sorted[1..])
  }

  /**
   * The list slices.SortFunc leaves with reduce's comparator (higher score first). Go's sort is
   * not stable; this definition fixes one order among documents of equal score.
   */
  function SortByScore(docs: seq<Document>): (r: seq<Document>)
    ensures |r| == |docs|
  {
    if |docs| == 0 then [] else InsertByScore(docs[0], SortByScore(docs[1..]))
  }

  lemma {:induction false} InsertByScoreSorted(d: Document, sorted: seq<Document>)
    requires ScoreDescending(sorted)
    ensures ScoreDescending(InsertByScore(d, sorted))
    ensures multiset(InsertByScore(d, sorted)) == multiset(sorted) + multiset{d}
    decreases |sorted|
  {
    InsertByScoreCounts(d, sorted);
    if |sorted| > 0 && d.score < sorted[0].score {
      var rest := InsertByScore(d, sorted[1..]);
      InsertByScoreSorted(d, sorted[1..]);
      InsertByScoreCounts(d, sorted[1..]);
      var r := [sorted[0]] + rest;
      forall i, j | 0 <= i < j < |r|
        ensures r[i].score >= r[j].score
      {
        if i == 0 {
          assert r[j] in multiset(rest);
          assert r[j] == d || r[j] in sorted[1..];
        }
      }
    }
  }

  /** Inserting adds the one document to the multiset of the list. */
  lemma {:induction false} InsertByScoreCounts(d: Document, sorted: seq<Document>)
    ensures multiset(InsertByScore(d, sorted)) == multiset(sorted) + multiset{d}
    decreases |sorted|
  {
    if |sorted| > 0 && d.score < sorted[0].score {
      InsertByScoreCounts(d, sorted[1..]);
      assert sorted == [sorted[0]] + sorted[1..];
    }
  }

  /** The reduce sort yields a descending list holding exactly the input documents. */
  lemma {:induction false} SortByScoreSpec(docs: seq<Document>)
    ensures ScoreDescending(SortByScore(docs))
    ensures multiset(SortByScore(docs)) == multiset(docs)
    decreases |docs|
  {
    if |docs| > 0 {
      SortByScoreSpec(docs[1..]);
      InsertByScoreSorted(docs[0], SortByScore(docs[1..]));
      assert docs == [docs[0]] + docs[1..];
    }
  }

  /** The count reduce.go slices to: TopK, except len(docs) - 1 when TopK exceeds the length. */
  function KeptCountAsWritten(topK: int, n: nat): int {
    if topK > n then n - 1 else topK
  }

  /** `docs[:topK]` is defined (does not panic) exactly when the count is in 0 .. len. */
  predicate ReduceDefined(topK: int, n: nat) {
    0 <= topK && (n > 0 || topK == 0)
  }

  /** One list through the reduce postprocessor as written; a panicking slice is an error. */
  function ReduceList(topK: int, docs: seq<Document>): Result<seq<Document>, string> {
    var k := KeptCountAsWritten(topK, |docs|);
    if 0 <= k then Ok(SortByScore(docs)[..k]) else Err("slice bounds out of range")
  }

  /** The reduce succeeds exactly on a non-negative TopK and a list that is non-empty or asked for none. */
  lemma ReduceListDefined(topK: int, docs: seq<Document>)
    ensures ReduceList(topK, docs).Ok? <==> ReduceDefined(topK, |docs|)
  {
  }

  /**
   * ReducePostprocessor.Transform: each list is sorted by descending score and cut to the count
   * above; the set of queries stays. The caller must keep the slice in range.
   */
  method ReduceTransform(topK: int, response: RetrievalResponse) returns (err: Option<string>)
    requires forall q :: q in response.responses ==> ReduceDefined(topK, |response.responses[q]|)
    modifies response
    ensures response.query == old(response.query)
    ensures response.responses.Keys == old(response.responses).Keys
    ensures forall q :: q in response.responses ==>
      ReduceList(topK, old(response.responses)[q]) == Ok(response.responses[q])
    ensures err == None
  {
    ghost var before := response.responses;
    var todo := response.responses.Keys;
    while todo != {}
      invariant todo <= before.Keys
      invariant response.query == old(response.query)
      invariant response.responses.Keys == before.Keys
      invariant forall q :: q in before ==>
        if q in todo then response.responses[q] == before[q]
        else ReduceList(topK, before[q]) == Ok(response.responses[q])
      decreases todo
    {
      var q :| q in todo;
      var docs := SortByScore(response.responses[q]);
      var k := topK;
      if k > |docs| {
        k := |docs| - 1;
      }
      response.responses := response.responses[q := docs[..k]];
      todo := todo - {q};
    }
    err := None;
  }

  /** In a descending list, every document of a prefix scores at least every document after it. */
  lemma PrefixDominates(sorted: seq<Document>, k: nat, d: Document, e: Document)
    requires ScoreDescending(sorted) && k <= |sorted|
    requires d in sorted[..k] && e in sorted[k..]
    ensures d.score >= e.score
  {
    var i :| 0 <= i < k && sorted[..k][i] == d;
    var j :| 0 <= j < |sorted| - k && sorted[k..][j] == e;
    assert sorted[i] == d && sorted[k + j] == e;
  }

  /** With TopK within the length, the result is the first TopK documents of the sorted list. */
  lemma ReduceKeepsTopK(topK: int, docs: seq<Document>)
    requires 0 <= topK <= |docs|
    ensures ReduceList(topK, docs) == Ok(SortByScore(docs)[..topK])
    ensures |ReduceList(topK, docs).value| == topK
  {
  }

  /** Whatever the reduce keeps is ordered best first. */
  lemma ReduceBestFirst(topK: int, docs: seq<Document>)
    requires ReduceList(topK, docs).Ok?
    ensures ScoreDescending(ReduceList(topK, docs).value)
  {
    SortByScoreSpec(docs);
  }

  /** Every kept document scores at least as high as every document the reduce drops. */
  lemma ReduceDropsWorse(topK: int, docs: seq<Document>, d: Document, e: Document)
    requires ReduceList(topK, docs).Ok?
    requires d in ReduceList(topK, docs).value
    requires e in multiset(docs) - multiset(ReduceList(topK, docs).value)
    ensures d.score >= e.score
  {
    var sorted := SortByScore(docs);
    SortByScoreSpec(docs);
    var k := KeptCountAsWritten(topK, |docs|);
    var kept := sorted[..k];
    assert kept == ReduceList(topK, docs).value;
    PrefixRemoved(sorted, k);
    PrefixDominates(sorted, k, d, e);
  }

  /** Taking a prefix's documents out of a list leaves those of the rest. */
  lemma PrefixRemoved(s: seq<Document>, k: int)
    requires 0 <= k <= |s|
    ensures multiset(s) - multiset(s[..k]) == multiset(s[k..])
  {
    assert s == s[..k] + s[k..];
  }

  /** Every document the reduce keeps comes from the list, no more often than it occurs there. */
  lemma ReduceSubMultiset(topK: int, docs: seq<Document>)
    requires ReduceList(topK, docs).Ok?
    ensures multiset(ReduceList(topK, docs).value) <= multiset(docs)
  {
    var sorted := SortByScore(docs);
    SortByScoreSpec(docs);
    var k := KeptCountAsWritten(topK, |docs|);
    assert sorted == sorted[..k] + sorted[k..];
  }

  /** As written: a TopK beyond a non-empty list's length keeps one document fewer than the list holds. */
  lemma ReduceDropsOneAsWritten(topK: int, docs: seq<Document>)
    requires topK > |docs| > 0
    ensures ReduceList(topK, docs).Ok? && |ReduceList(topK, docs).value| == |docs| - 1
  {
  }

  /** Three documents with TopK 5: the reduce as written returns two. */
  lemma ReduceThreeOfFiveAsWritten(a: Document, b: Document, c: Document)
    ensures |ReduceList(5, [a, b, c]).value| == 2
  {
  }

  /** The evidently intended count: TopK, capped at the length of the list. */
  function KeptCount(topK: int, n: nat): int {
    if topK > n then n else topK
  }

  /** The reduce with the cap at the list's length instead of one below it. */
  function ReduceListCorrected(topK: int, docs: seq<Document>): Result<seq<Document>, string> {
    var k := KeptCount(topK, |docs|);
    if 0 <= k then Ok(SortByScore(docs)[..k]) else Err("slice bounds out of range")
  }

  /**
   * The corrected reduce fails only on a negative TopK, keeps min(TopK, len) documents, agrees with
   * the code whenever TopK is within the length, and keeps every document when TopK reaches it.
   */
  lemma ReduceCorrectedKeepsMin(topK: int, docs: seq<Document>)
    ensures ReduceListCorrected(topK, docs).Ok? <==> topK >= 0
    ensures topK >= 0 ==> |ReduceListCorrected(topK, docs).value| == (if topK < |docs| then topK else |docs|)
    ensures 0 <= topK <= |docs| ==> ReduceListCorrected(topK, docs) == ReduceList(topK, docs)
    ensures topK >= |docs| ==> multiset(ReduceListCorrected(topK, docs).value) == multiset(docs)
  {
    if topK >= |docs| {
      SortByScoreSpec(docs);
      assert SortByScore(docs)[..|docs|] == SortByScore(docs);
    }
  }

  // ---------------------------------------------------------------------------------------------
  // Content substring filter

  /**
   * A response entry of the list-shaped RetrievalResponse this postprocessor is written against
   * (a different version of the type than the map-shaped one above).
   */
  datatype QueryResponse = QueryResponse(query: string, resultDocuments: seq<Document>)

  /** The list-shaped retrieval response. */
  class ResponseList {
    var responses: seq<QueryResponse>

    constructor (responses: seq<QueryResponse>)
      ensures this.responses == responses
    {
      this.responses := responses;
    }
  }

  /** The content holds every string of `contains` and none of `notContains`. */
  predicate PassesSubstrings(contains: seq<string>, notContains: seq<string>, d: Document) {
    (forall k :: 0 <= k < |contains| ==> Contains(d.content, contains[k])) &&
    (forall k :: 0 <= k < |notContains| ==> !Contains(d.content, notContains[k]))
  }

  function SubstringTest(contains: seq<string>, notContains: seq<string>): Document -> bool {
    (d: Document) => PassesSubstrings(contains, notContains, d)
  }

  /** The documents of one list that the content substring filter keeps. */
  function SubstringFiltered(contains: seq<string>, notContains: seq<string>, docs: seq<Document>): seq<Document> {
    Select(docs, SubstringTest(contains, notContains))
  }

  /** The containsOK loop: stops at the first string the content lacks. */
  method ContainsEvery(content: string, subs: seq<string>) returns (ok: bool)
    ensures ok <==> forall k :: 0 <= k < |subs| ==> Contains(content, subs[k])
  {
    ok := true;
    for i := 0 to |subs|
      invariant ok <==> forall k :: 0 <= k < i ==> Contains(content, subs[k])
      invariant ok
    {
      if !Contains(content, subs[i]) {
        ok := false;
        break;
      }
    }
  }

  /** The notContainsOK loop: stops at the first string the content holds. */
  method ContainsNone(content: string, subs: seq<string>) returns (ok: bool)
    ensures ok <==> forall k :: 0 <= k < |subs| ==> !Contains(content, subs[k])
  {
    ok := true;
    for i := 0 to |subs|
      invariant ok <==> forall k :: 0 <= k < i ==> !Contains(content, subs[k])
      invariant ok
    {
      if Contains(content, subs[i]) {
        ok := false;
        break;
      }
    }
  }

  /** The loop over one entry's documents: keeps those that pass both substring tests. */
  method FilterBySubstrings(contains: seq<string>, notContains: seq<string>, docs: seq<Document>)
    returns (filtered: seq<Document>)
    ensures filtered == SubstringFiltered(contains, notContains, docs)
  {
    filtered := [];
    for n := 0 to |docs|
      invariant filtered == SubstringFiltered(contains, notContains, docs[..n])
    {
      assert docs[..n + 1][..n] == docs[..n];
      var containsOK := ContainsEvery(docs[n].content, contains);
      var notContainsOK := ContainsNone(docs[n].content, notContains);
      if containsOK && notContainsOK {
        filtered := filtered + [docs[n]];
      }
    }
    assert docs[..|docs|] == docs;
  }

  /**
   * ContentSubstringFilterPostprocessor.Transform: each entry's ResultDocuments is replaced by the
   * documents that pass both substring tests; the entries' queries and their number stay.
   */
  method ContentSubstringTransform(contains: seq<string>, notContains: seq<string>, response: ResponseList)
    returns (err: Option<string>)
    modifies response
    ensures |response.responses| == |old(response.responses)|
    ensures forall i :: 0 <= i < |response.responses| ==>
      response.responses[i] == old(response.responses)[i].(resultDocuments :=
        SubstringFiltered(contains, notContains, old(response.responses)[i].resultDocuments))
    ensures err == None
  {
    ghost var before := response.responses;
    for i := 0 to |response.responses|
      invariant |response.responses| == |before|
      invariant forall j :: 0 <= j < |before| ==>
        response.responses[j] == (if j < i then before[j].(resultDocuments :=
          SubstringFiltered(contains, notContains, before[j].resultDocuments)) else before[j])
    {
      var filtered := FilterBySubstrings(contains, notContains, response.responses[i].resultDocuments);
      response.responses := response.responses[i := response.responses[i].(resultDocuments := filtered)];
    }
    err := None;
  }

  /** A document survives iff it was in the list and passes both substring tests. */
  lemma SubstringFilteredIff(contains: seq<string>, notContains: seq<string>, docs: seq<Document>, d: Document)
    ensures d in SubstringFiltered(contains, notContains, docs) <==> d in docs && PassesSubstrings(contains, notContains, d)
  {
    SelectIff(docs, SubstringTest(contains, notContains), d);
  }

  /** The filter keeps relative order. */
  lemma SubstringFilteredOrder(contains: seq<string>, notContains: seq<string>, a: seq<Document>, b: seq<Document>)
    ensures SubstringFiltered(contains, notContains, a + b) ==
      SubstringFiltered(contains, notContains, a) + SubstringFiltered(contains, notContains, b)
  {
    SelectAppend(a, b, SubstringTest(contains, notContains));
  }

  /** With no strings to require or forbid, every document is kept. */
  lemma NoSubstringsKeepAll(docs: seq<Document>)
    ensures SubstringFiltered([], [], docs) == docs
  {
    SelectAll(docs, SubstringTest([], []));
  }
}
