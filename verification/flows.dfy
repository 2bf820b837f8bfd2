/**
 * Ingestion and retrieval flows: how the loader, splitter and transformers of an ingestion flow
 * and the query modifiers, retriever and postprocessors of a retrieval flow are composed. The
 * components themselves are parameters (functions carried in the flow's fields).
 */
module Flows {
  import opened Wrappers
  import opened GoStrings
  import opened DocTypes
  import Retrievers

  /** A document loader: the content read from the input to documents, or an error. */
  type Loader = string -> Result<seq<Document>, string>

  /** A text splitter's SplitDocuments. */
  type Splitter = seq<Document> -> Result<seq<Document>, string>

  /** A document transformer. */
  datatype Transformer = Transformer(name: string, transform: Splitter)

  /** What the defaults of a file type are: its loader, splitter and transformers. */
  datatype Defaults = Defaults(
    loaderFor: string -> Loader,
    splitterFor: string -> Splitter,
    transformersFor: string -> seq<Transformer>)

  /** The transformers run in order; the first error stops the chain and is returned as is. */
  function TransformAll(ts: seq<Transformer>, docs: seq<Document>): Result<seq<Document>, string>
    decreases |ts|
  {
    if |ts| == 0 then Ok(docs)
    else
      var out := ts[0].transform(docs);
      if out.Err? then Err(out.error) else TransformAll(ts[1..], out.value)
  }

  /** What IngestionFlow.Run returns for the loader, splitter and transformers of a flow. */
  function IngestionOutcome(load: Option<Loader>, split: Option<Splitter>, ts: seq<Transformer>, input: string)
    : Result<seq<Document>, string>
    requires load.Some? ==> split.Some?
  {
    if load.None? then Ok([])
    else
      var loaded := load.value(input);
      if loaded.Err? then Err("failed to load documents: " + loaded.error)
      else
        var chunks := split.value(loaded.value);
        if chunks.Err? then Err("failed to split documents: " + chunks.error)
        else
          var transformed := TransformAll(ts, chunks.value);
          if transformed.Err? then Err("failed to transform documents: " + transformed.error)
          else transformed
  }

  /** An ingestion flow: the file types it serves and its components (nil when not set). */
  class IngestionFlow {
    var filetypes: seq<string>
    var load: Option<Loader>
    var split: Option<Splitter>
    var transformations: seq<Transformer>

    constructor (filetypes: seq<string>)
      ensures this.filetypes == filetypes && load == None && split == None && transformations == []
    {
      this.filetypes := filetypes;
      load := None;
      split := None;
      transformations := [];
    }

    /** Transform: the transformations in order, stopping at the first error. */
    method Transform(docs: seq<Document>) returns (r: Result<seq<Document>, string>)
      ensures r == TransformAll(transformations, docs)
    {
      var cur := docs;
      for i := 0 to |transformations|
        invariant TransformAll(transformations[i..], cur) == TransformAll(transformations, docs)
      {
        assert transformations[i..][1..] == transformations[i + 1..];
        var out := transformations[i].transform(cur);
        if out.Err? {
          return Err(out.error);
        }
        cur := out.value;
      }
      assert transformations[|transformations|..] == [];
      r := Ok(cur);
    }

    predicate SupportsFiletype(filetype: string)
      reads this
    {
      filetype in filetypes
    }

    /** FillDefaults: only a missing loader, a missing splitter or an empty transformer list is filled. */
    method FillDefaults(filetype: string, defaults: Defaults)
      modifies this
      ensures filetypes == old(filetypes)
      ensures load == if old(load).None? then Some(defaults.loaderFor(filetype)) else old(load)
      ensures split == if old(split).None? then Some(defaults.splitterFor(filetype)) else old(split)
      ensures transformations == if |old(transformations)| == 0 then defaults.transformersFor(filetype) else old(transformations)
    {
      if load.None? {
        load := Some(defaults.loaderFor(filetype));
      }
      if split.None? {
        split := Some(defaults.splitterFor(filetype));
      }
      if |transformations| == 0 {
        transformations := defaults.transformersFor(filetype);
      }
    }

    /** Run: no loader means no documents and no error; otherwise load, split and transform. */
    method Run(input: string) returns (r: Result<seq<Document>, string>)
      requires load.Some? ==> split.Some?
      ensures r == IngestionOutcome(load, split, transformations, input)
    {
      if load.None? {
        return Ok([]);
      }
      var docs := load.value(input);
      if docs.Err? {
        return Err("failed to load documents: " + docs.error);
      }
      var chunks := split.value(docs.value);
      if chunks.Err? {
        return Err("failed to split documents: " + chunks.error);
      }
      var transformed := Transform(chunks.value);
      if transformed.Err? {
        return Err("failed to transform documents: " + transformed.error);
      }
      r := transformed;
    }
  }

  /** NewDefaultIngestionFlow: a flow for one file type with every component defaulted. */
  method NewDefaultIngestionFlow(filetype: string, defaults: Defaults) returns (flow: IngestionFlow)
    ensures fresh(flow)
    ensures flow.filetypes == [filetype] && flow.SupportsFiletype(filetype)
    ensures flow.load == Some(defaults.loaderFor(filetype)) && flow.split == Some(defaults.splitterFor(filetype))
    ensures flow.transformations == defaults.transformersFor(filetype)
  {
    flow := new IngestionFlow([filetype]);
    flow.FillDefaults(filetype, defaults);
  }

  /** Running transformers one list after another is running the first, then the second on its output. */
  lemma {:induction false} TransformCompose(ts1: seq<Transformer>, ts2: seq<Transformer>, docs: seq<Document>)
    ensures TransformAll(ts1 + ts2, docs) ==
      (var first := TransformAll(ts1, docs); if first.Err? then first else TransformAll(ts2, first.value))
    decreases |ts1|
  {
    if |ts1| > 0 {
      assert (ts1 + ts2)[0] == ts1[0];
      assert (ts1 + ts2)[1..] == ts1[1..] + ts2;
      var out := ts1[0].transform(docs);
      if out.Ok? {
        TransformCompose(ts1[1..], ts2, out.value);
      }
    } else {
      assert ts1 + ts2 == ts2;
    }
  }

  /** A failing stage stops ingestion: a loader error is reported as a load failure and nothing else runs. */
  lemma IngestionStopsAtLoad(load: Loader, split: Splitter, ts: seq<Transformer>, input: string)
    requires load(input).Err?
    ensures IngestionOutcome(Some(load), Some(split), ts, input) == Err("failed to load documents: " + load(input).error)
  {
  }

  /** With a loader, splitter and no transformers, ingestion yields exactly the splitter's chunks. */
  lemma IngestionWithoutTransformers(load: Loader, split: Splitter, input: string)
    requires load(input).Ok? && split(load(input).value).Ok?
    ensures IngestionOutcome(Some(load), Some(split), [], input) == Ok(split(load(input).value).value)
  {
  }

  // ---------------------------------------------------------------------------------------------
  // Retrieval

  /** A query modifier: rewrites the list of queries. */
  type Modify = seq<string> -> Result<seq<string>, string>

  datatype QueryModifier = QueryModifier(name: string, rewrite: Modify)

  /** A retrieval response: the original query and the documents for each final query. */
  datatype Response = Response(query: string, responses: map<string, seq<Document>>)

  /** A postprocessor: transforms the whole response (in place in the program) or fails. */
  type Postprocess = Response -> Result<Response, string>

  datatype Postprocessor = Postprocessor(name: string, transform: Postprocess)

  /** The retriever of a flow: the basic retriever, or another one given by its name and search. */
  datatype RetrieverComponent =
    | BasicComponent(topK: int)
    | CustomComponent(name: string, retrieve: Retrieve)

  /** Another retriever's Retrieve: (query, dataset IDs) to documents or an error. */
  type Retrieve = (string, seq<string>) -> Result<seq<Document>, string>

  function RetrieverName(c: RetrieverComponent): string {
    if c.BasicComponent? then Retrievers.BasicRetrieverName else c.name
  }

  /** One retrieval; the basic retriever searches the store with the rules of Retrievers. */
  function RetrieveOne(c: RetrieverComponent, search: Retrievers.Search, q: string, datasetIDs: seq<string>, where: map<string, string>)
    : Result<seq<Document>, string>
  {
    match c
    case BasicComponent(topK) =>
      if |datasetIDs| > 1 then Err("basic retriever does not support querying multiple datasets")
      else search(q, Retrievers.EffectiveTopK(topK), Retrievers.DatasetFor(datasetIDs), where)
    case CustomComponent(_, retrieve) => retrieve(q, datasetIDs)
  }

  /** fmt's %v for a list of strings. */
  function FormatList(xs: seq<string>): string {
    "[" + Join(xs, " ") + "]"
  }

  /** The modifiers in order, each replacing the list of queries; the first error stops them. */
  function ModifyAll(mods: seq<QueryModifier>, queries: seq<string>): Result<seq<string>, string>
    decreases |mods|
  {
    if |mods| == 0 then Ok(queries)
    else
      var mq := mods[0].rewrite(queries);
      if mq.Err? then
        Err("failed to modify queries " + FormatList(queries) + " with QueryModifier " + Quote(mods[0].name) + ": " + mq.error)
      else ModifyAll(mods[1..], mq.value)
  }

  /** Retrieval for each query in order, recording each result under its query; the first error stops it. */
  function RetrieveAll(c: RetrieverComponent, search: Retrievers.Search, queries: seq<string>, datasetIDs: seq<string>,
                       where: map<string, string>, acc: map<string, seq<Document>>)
    : Result<map<string, seq<Document>>, string>
    decreases |queries|
  {
    if |queries| == 0 then Ok(acc)
    else
      var docs := RetrieveOne(c, search, queries[0], datasetIDs, where);
      if docs.Err? then
        Err("failed to retrieve documents for query " + Quote(queries[0]) + " using retriever " + Quote(RetrieverName(c)) + ": " + docs.error)
      else RetrieveAll(c, search, queries[1..], datasetIDs, where, acc[queries[0] := docs.value])
  }

  /** The postprocessors in order; the first error stops them. */
  function PostprocessAll(pps: seq<Postprocessor>, response: Response): Result<Response, string>
    decreases |pps|
  {
    if |pps| == 0 then Ok(response)
    else
      var out := pps[0].transform(response);
      if out.Err? then Err("failed to postprocess retrieval response with Postprocessor " + Quote(pps[0].name) + ": " + out.error)
      else PostprocessAll(pps[1..], out.value)
  }

  /** What RetrievalFlow.Run returns. */
  function RetrievalOutcome(mods: seq<QueryModifier>, c: RetrieverComponent, pps: seq<Postprocessor>, search: Retrievers.Search,
                            query: string, datasetIDs: seq<string>, where: map<string, string>)
    : Result<Response, string>
  {
    var queries := ModifyAll(mods, [query]);
    if queries.Err? then Err(queries.error)
    else
      var found := RetrieveAll(c, search, queries.value, datasetIDs, where, map[]);
      if found.Err? then Err(found.error)
      else PostprocessAll(pps, Response(query, found.value))
  }

  /** A retrieval flow. */
  class RetrievalFlow {
    var queryModifiers: seq<QueryModifier>
    var retriever: Option<RetrieverComponent>
    var postprocessors: seq<Postprocessor>

    constructor (queryModifiers: seq<QueryModifier>, retriever: Option<RetrieverComponent>, postprocessors: seq<Postprocessor>)
      ensures this.queryModifiers == queryModifiers && this.retriever == retriever && this.postprocessors == postprocessors
    {
      this.queryModifiers := queryModifiers;
      this.retriever := retriever;
      this.postprocessors := postprocessors;
    }

    /** FillDefaults: a flow without a retriever gets the basic retriever with the given top K. */
    method FillDefaults(topK: int)
      modifies this
      ensures retriever == if old(retriever).None? then Some(BasicComponent(topK)) else old(retriever)
      ensures queryModifiers == old(queryModifiers) && postprocessors == old(postprocessors)
    {
      if retriever.None? {
        retriever := Some(BasicComponent(topK));
      }
    }

    /**
     * Run: the query list starts as [query] and each modifier replaces it; every final query is
     * retrieved; the response keeps the original query; the postprocessors then run in order.
     * The retriever must be set (FillDefaults sees to it).
     */
    method Run(search: Retrievers.Search, query: string, datasetIDs: seq<string>, where: map<string, string>)
      returns (r: Result<Response, string>)
      requires retriever.Some?
      ensures r == RetrievalOutcome(queryModifiers, retriever.value, postprocessors, search, query, datasetIDs, where)
    {
      var queries := [query];
      for i := 0 to |queryModifiers|
        invariant ModifyAll(queryModifiers[i..], queries) == ModifyAll(queryModifiers, [query])
      {
        assert queryModifiers[i..][1..] == queryModifiers[i + 1..];
        var m := queryModifiers[i];
        var mq := m.rewrite(queries);
        if mq.Err? {
          return Err("failed to modify queries " + FormatList(queries) + " with QueryModifier " + Quote(m.name) + ": " + mq.error);
        }
        queries := mq.value;
      }
      assert queryModifiers[|queryModifiers|..] == [];
      var c := retriever.value;
      var responses: map<string, seq<Document>> := map[];
      for i := 0 to |queries|
        invariant RetrieveAll(c, search, queries[i..], datasetIDs, where, responses) ==
          RetrieveAll(c, search, queries, datasetIDs, where, map[])
      {
        assert queries[i..][1..] == queries[i + 1..];
        var q := queries[i];
        var docs := RetrieveOne(c, search, q, datasetIDs, where);
        if docs.Err? {
          return Err("failed to retrieve documents for query " + Quote(q) + " using retriever " + Quote(RetrieverName(c)) + ": " + docs.error);
        }
        responses := responses[q := docs.value];
      }
      assert queries[|queries|..] == [];
      var response := Response(query, responses);
      for i := 0 to |postprocessors|
        invariant PostprocessAll(postprocessors[i..], response) == PostprocessAll(postprocessors, Response(query, responses))
      {
        assert postprocessors[i..][1..] == postprocessors[i + 1..];
        var pp := postprocessors[i];
        var out := pp.transform(response);
        if out.Err? {
          return Err("failed to postprocess retrieval response with Postprocessor " + Quote(pp.name) + ": " + out.error);
        }
        response := out.value;
      }
      assert postprocessors[|postprocessors|..] == [];
      r := Ok(response);
    }
  }

  /** A successful retrieval pass records exactly the queries it was given, each with its retrieval. */
  lemma {:induction false} RetrieveAllKeys(c: RetrieverComponent, search: Retrievers.Search, queries: seq<string>,
                                           datasetIDs: seq<string>, where: map<string, string>, acc: map<string, seq<Document>>)
    requires RetrieveAll(c, search, queries, datasetIDs, where, acc).Ok?
    ensures RetrieveAll(c, search, queries, datasetIDs, where, acc).value.Keys == acc.Keys + set k | 0 <= k < |queries| :: queries[k]
    ensures forall key :: key in acc && key !in queries ==>
      RetrieveAll(c, search, queries, datasetIDs, where, acc).value[key] == acc[key]
    ensures forall k :: 0 <= k < |queries| ==>
      RetrieveOne(c, search, queries[k], datasetIDs, where).Ok? &&
      RetrieveAll(c, search, queries, datasetIDs, where, acc).value[queries[k]] == RetrieveOne(c, search, queries[k], datasetIDs, where).value
    decreases |queries|
  {
    if |queries| > 0 {
      var docs := RetrieveOne(c, search, queries[0], datasetIDs, where);
      var acc' := acc[queries[0] := docs.value];
      RetrieveAllKeys(c, search, queries[1..], datasetIDs, where, acc');
      assert (set k | 0 <= k < |queries| :: queries[k]) == {queries[0]} + set k | 0 <= k < |queries[1..]| :: queries[1..][k];
      forall k | 0 <= k < |queries|
        ensures RetrieveOne(c, search, queries[k], datasetIDs, where).Ok?
        ensures RetrieveAll(c, search, queries, datasetIDs, where, acc).value[queries[k]] == RetrieveOne(c, search, queries[k], datasetIDs, where).value
      {
        if k > 0 {
          assert queries[k] == queries[1..][k - 1];
        } else if queries[0] in queries[1..] {
          var j :| 0 <= j < |queries[1..]| && queries[1..][j] == queries[0];
        } else {
          assert queries[0] in acc';
        }
      }
    }
  }

  /**
   * Without modifiers and postprocessors, a successful run answers the one query it was asked,
   * under that query, and keeps the original query.
   */
  lemma PlainRetrieval(c: RetrieverComponent, search: Retrievers.Search, query: string, datasetIDs: seq<string>, where: map<string, string>)
    requires RetrieveOne(c, search, query, datasetIDs, where).Ok?
    ensures RetrievalOutcome([], c, [], search, query, datasetIDs, where) ==
      Ok(Response(query, map[query := RetrieveOne(c, search, query, datasetIDs, where).value]))
  {
    var docs := RetrieveOne(c, search, query, datasetIDs, where);
    assert ModifyAll([], [query]) == Ok([query]);
    assert [query][1..] == [];
    assert RetrieveAll(c, search, [query], datasetIDs, where, map[]) == RetrieveAll(c, search, [], datasetIDs, where, map[query := docs.value]);
    assert PostprocessAll([], Response(query, map[query := docs.value])) == Ok(Response(query, map[query := docs.value]));
  }

  /** A successful run keeps the original query when the postprocessors keep it. */
  lemma {:induction false} PostprocessKeepsQuery(pps: seq<Postprocessor>, response: Response)
    requires forall k, r :: 0 <= k < |pps| && pps[k].transform(r).Ok? ==> pps[k].transform(r).value.query == r.query
    requires PostprocessAll(pps, response).Ok?
    ensures PostprocessAll(pps, response).value.query == response.query
    decreases |pps|
  {
    if |pps| > 0 {
      var out := pps[0].transform(response);
      assert forall k, r :: 0 <= k < |pps[1..]| && pps[1..][k].transform(r).Ok? ==> pps[1..][k].transform(r).value.query == r.query by {
        forall k, r | 0 <= k < |pps[1..]| && pps[1..][k].transform(r).Ok?
          ensures pps[1..][k].transform(r).value.query == r.query
        {
          assert pps[1..][k] == pps[k + 1];
        }
      }
      PostprocessKeepsQuery(pps[1..], out.value);
    }
  }

  /** The basic retriever rejects several datasets for every query, so the run fails on the first one. */
  lemma BasicRejectsManyDatasets(topK: int, search: Retrievers.Search, query: string, datasetIDs: seq<string>, where: map<string, string>)
    requires |datasetIDs| > 1
    ensures RetrievalOutcome([], BasicComponent(topK), [], search, query, datasetIDs, where) ==
      Err("failed to retrieve documents for query " + Quote(query) + " using retriever " + Quote("basic") + ": " +
          "basic retriever does not support querying multiple datasets")
  {
    assert ModifyAll([], [query]) == Ok([query]);
    var e := "basic retriever does not support querying multiple datasets";
    assert RetrieveOne(BasicComponent(topK), search, query, datasetIDs, where) == Err(e);
    assert RetrieverName(BasicComponent(topK)) == "basic";
  }
}
