/**
 * The retriever registry and the basic retriever. The vector store behind the basic retriever is a
 * parameter: a function from (query, top K, dataset, metadata filter) to the store's outcome.
 */
module Retrievers {
  import opened Wrappers
  import opened DocTypes
  import opened GoStrings

  /** defaults.TopK. */
  const DefaultTopK: int := 10

  const BasicRetrieverName: string := "basic"
  const SubqueryRetrieverName: string := "subquery"
  const RoutingRetrieverName: string := "routing"

  /** The retrievers GetRetriever can build, with their settings. */
  datatype Retriever =
    | Basic(topK: int)
    | Subquery(limit: int, topK: int)
    | Routing(topK: int)

  /** The names GetRetriever knows. */
  predicate KnownRetriever(name: string) {
    name == BasicRetrieverName || name == "default" || name == SubqueryRetrieverName || name == RoutingRetrieverName
  }

  /** GetRetriever: "basic" and "default" build the basic retriever, the others their own; any other name fails. */
  function GetRetriever(name: string): (r: Result<Retriever, string>)
    ensures r.Ok? <==> KnownRetriever(name)
    ensures r.Err? ==> r.error == "unknown retriever " + Quote(name)
  {
    if name == BasicRetrieverName || name == "default" then Ok(Basic(DefaultTopK))
    else if name == SubqueryRetrieverName then Ok(Subquery(3, 3))
    else if name == RoutingRetrieverName then Ok(Routing(DefaultTopK))
    else Err("unknown retriever " + Quote(name))
  }

  /** GetDefaultRetriever: the basic retriever with the default top K. */
  function GetDefaultRetriever(): (r: Retriever)
    ensures r.Basic? && r.topK == DefaultTopK
  {
    Basic(DefaultTopK)
  }

  /** The default retriever is the one the names "basic" and "default" select. */
  lemma DefaultIsBasic()
    ensures GetRetriever(BasicRetrieverName) == Ok(GetDefaultRetriever())
    ensures GetRetriever("default") == Ok(GetDefaultRetriever())
  {
  }

  /** The dataset a basic retrieval reads: "default" when none is given, else the one given. */
  function DatasetFor(datasetIDs: seq<string>): (id: string)
    requires |datasetIDs| <= 1
    ensures |datasetIDs| == 0 ==> id == "default"
    ensures |datasetIDs| == 1 ==> id == datasetIDs[0]
  {
    if |datasetIDs| == 0 then "default" else datasetIDs[0]
  }

  /** The top K a retrieval uses: the configured one when positive, else the default. */
  function EffectiveTopK(topK: int): (k: int)
    ensures k > 0
    ensures topK > 0 ==> k == topK
  {
    if topK <= 0 then DefaultTopK else topK
  }

  /** The store's similarity search: (query, top K, dataset, metadata filter) to documents or an error. */
  type Search = (string, int, string, map<string, string>) -> Result<seq<Document>, string>

  /** BasicRetriever, whose TopK a retrieval fills in when it is not set. */
  class BasicRetriever {
    var topK: int

    constructor (topK: int)
      ensures this.topK == topK
    {
      this.topK := topK;
    }

    /**
     * Retrieve: more than one dataset fails and changes nothing; otherwise a non-positive TopK is
     * replaced by the default (and stays replaced), and the store is searched in the chosen dataset.
     */
    method Retrieve(search: Search, query: string, datasetIDs: seq<string>, where: map<string, string>)
      returns (r: Result<seq<Document>, string>)
      modifies this
      ensures |datasetIDs| > 1 ==> r == Err("basic retriever does not support querying multiple datasets") && topK == old(topK)
      ensures |datasetIDs| <= 1 ==> topK == EffectiveTopK(old(topK)) && r == search(query, topK, DatasetFor(datasetIDs), where)
    {
      if |datasetIDs| > 1 {
        return Err("basic retriever does not support querying multiple datasets");
      }
      var datasetID: string;
      if |datasetIDs| == 0 {
        datasetID := "default";
      } else {
        datasetID := datasetIDs[0];
      }
      if topK <= 0 {
        topK := DefaultTopK;
      }
      r := search(query, topK, datasetID, where);
    }
  }

  /** A second retrieval with the same retriever searches with the top K the first one settled on. */
  lemma TopKSettles(topK: int)
    ensures EffectiveTopK(EffectiveTopK(topK)) == EffectiveTopK(topK)
  {
  }
}
