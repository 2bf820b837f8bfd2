/**
 * The flow configuration: named flows, each with ingestion flows and/or a retrieval section, one of
 * which may be the default, and a map from dataset to flow name. Reading the file (JSON or YAML)
 * is not modelled; the registries of document loaders and text splitters are parameters.
 */
module FlowsConfig {
  import opened Wrappers
  import opened GoStrings
  import opened DocTypes
  import Flows

  /** A document loader or text splitter section: a name and free-form options. */
  datatype ComponentConfig = ComponentConfig(name: string, options: map<string, Any>)

  datatype IngestionFlowConfig = IngestionFlowConfig(
    filetypes: seq<string>,
    documentLoader: ComponentConfig,
    textSplitter: ComponentConfig,
    transformers: seq<string>)

  /** A flow; `hasRetrieval` says whether its (empty) retrieval section is present. */
  datatype FlowConfigEntry = FlowConfigEntry(isDefault: bool, ingestion: seq<IngestionFlowConfig>, hasRetrieval: bool)

  datatype FlowConfig = FlowConfig(flows: map<string, FlowConfigEntry>, datasets: map<string, string>)

  /** A flow that specifies neither ingestion nor retrieval. */
  predicate Incomplete(flow: FlowConfigEntry) {
    |flow.ingestion| == 0 && !flow.hasRetrieval
  }

  predicate AllComplete(flows: map<string, FlowConfigEntry>) {
    forall n :: n in flows ==> !Incomplete(flows[n])
  }

  /** The names of the flows marked default. */
  function DefaultNames(flows: map<string, FlowConfigEntry>): set<string> {
    set n | n in flows && flows[n].isDefault
  }

  /** The default flows among those already visited (not in `todo`). */
  function DefaultsSeen(flows: map<string, FlowConfigEntry>, todo: set<string>): set<string> {
    set n | n in flows && n !in todo && flows[n].isDefault
  }

  function IncompleteError(name: string): string {
    "flow " + Quote(name) + " has neither ingestion nor retrieval specified"
  }

  function TooManyDefaultsError(count: int): string {
    "only one flow can be default, found " + IntToString(count)
  }

  /**
   * Validate: a flow with neither ingestion nor retrieval is reported (which one, when there are
   * several, depends on the map's iteration order); otherwise more than one default flow is
   * reported with their number; otherwise the configuration is valid.
   */
  method Validate(f: FlowConfig) returns (err: Option<string>)
    ensures !AllComplete(f.flows) ==> exists n :: n in f.flows && Incomplete(f.flows[n]) && err == Some(IncompleteError(n))
    ensures AllComplete(f.flows) ==>
      err == if |DefaultNames(f.flows)| > 1 then Some(TooManyDefaultsError(|DefaultNames(f.flows)|)) else None
  {
    var defaultCount := 0;
    var todo := f.flows.Keys;
    while todo != {}
      invariant todo <= f.flows.Keys
      invariant forall n :: n in f.flows && n !in todo ==> !Incomplete(f.flows[n])
      invariant defaultCount == |DefaultsSeen(f.flows, todo)|
      decreases todo
    {
      var name :| name in todo;
      var flow := f.flows[name];
      if flow.isDefault {
        assert DefaultsSeen(f.flows, todo - {name}) == DefaultsSeen(f.flows, todo) + {name};
        defaultCount := defaultCount + 1;
      } else {
        assert DefaultsSeen(f.flows, todo - {name}) == DefaultsSeen(f.flows, todo);
      }
      if Incomplete(flow) {
        return Some(IncompleteError(name));
      }
      todo := todo - {name};
    }
    assert DefaultsSeen(f.flows, todo) == DefaultNames(f.flows);
    if defaultCount > 1 {
      return Some(TooManyDefaultsError(defaultCount));
    }
    err := None;
  }

  /**
   * GetDefaultFlowConfigEntry: some flow marked default (the first met in the map's iteration
   * order), or an error when none is.
   */
  method GetDefaultFlowConfigEntry(f: FlowConfig) returns (r: Result<FlowConfigEntry, string>)
    ensures r.Err? <==> DefaultNames(f.flows) == {}
    ensures r.Err? ==> r.error == "default flow not found"
    ensures r.Ok? ==> exists n :: n in DefaultNames(f.flows) && f.flows[n] == r.value
  {
    var todo := f.flows.Keys;
    while todo != {}
      invariant todo <= f.flows.Keys
      invariant forall n :: n in f.flows && n !in todo ==> !f.flows[n].isDefault
      decreases todo
    {
      var name :| name in todo;
      if f.flows[name].isDefault {
        assert name in DefaultNames(f.flows);
        return Ok(f.flows[name]);
      }
      todo := todo - {name};
    }
    r := Err("default flow not found");
  }

  /** Once a configuration is valid there is at most one default flow, so the choice is determined. */
  lemma DefaultIsUnique(f: FlowConfig, e: FlowConfigEntry, d: string)
    requires |DefaultNames(f.flows)| <= 1
    requires d in DefaultNames(f.flows)
    requires exists n :: n in DefaultNames(f.flows) && f.flows[n] == e
    ensures e == f.flows[d]
  {
    var n :| n in DefaultNames(f.flows) && f.flows[n] == e;
    if n != d {
      assert {n, d} <= DefaultNames(f.flows);
      assert |{n, d}| == 2;
      SubsetCard({n, d}, DefaultNames(f.flows));
    }
  }

  lemma {:induction false} SubsetCard<T>(a: set<T>, b: set<T>)
    requires a <= b
    ensures |a| <= |b|
    decreases |b|
  {
    if a != {} {
      var x :| x in a;
      SubsetCard(a - {x}, b - {x});
    }
  }

  /** GetFlow: the flow of that name, or an error naming it. */
  function GetFlow(f: FlowConfig, name: string): (r: Result<FlowConfigEntry, string>)
    ensures r.Ok? <==> name in f.flows
    ensures r.Ok? ==> r.value == f.flows[name]
    ensures r.Err? ==> r.error == "flow " + Quote(name) + " not found"
  {
    if name in f.flows then Ok(f.flows[name]) else Err("flow " + Quote(name) + " not found")
  }

  /**
   * ForDataset: a dataset mapped to a flow name gets that flow (or the error that it does not
   * exist); any other dataset gets the default flow.
   */
  method ForDataset(f: FlowConfig, name: string) returns (r: Result<FlowConfigEntry, string>)
    ensures name in f.datasets ==> r == GetFlow(f, f.datasets[name])
    ensures name !in f.datasets ==> (r.Err? <==> DefaultNames(f.flows) == {})
    ensures name !in f.datasets && r.Ok? ==> exists n :: n in DefaultNames(f.flows) && f.flows[n] == r.value
  {
    if name in f.datasets {
      return GetFlow(f, f.datasets[name]);
    }
    r := GetDefaultFlowConfigEntry(f);
  }

  /** How a configured component name is looked up: trimmed of spaces and lower-cased. */
  function NormalizeName(name: string): (r: string)
    ensures |r| <= |name|
    ensures |r| > 0 ==> r[0] != ' ' && r[|r| - 1] != ' '
  {
    var t := Trim(name, {' '});
    LowerKeepsSpaces(t);
    ToLower(t)
  }

  /** Lower-casing keeps the length and turns no other character into a space. */
  lemma LowerKeepsSpaces(s: string)
    ensures |ToLower(s)| == |s|
    ensures forall k :: 0 <= k < |s| && s[k] != ' ' ==> ToLower(s)[k] != ' '
  {
  }

  /** The loader and splitter registries: a normalised name and the options to a component or an error. */
  datatype Registry = Registry(
    loaderFor: (string, map<string, Any>) -> Result<Flows.Loader, string>,
    splitterFor: (string, map<string, Any>) -> Result<Flows.Splitter, string>)

  /**
   * The loader and splitter AsIngestionFlow sets: none for an empty name, else what the registry
   * gives for the normalised name; the loader is looked up first and its error stops the rest.
   */
  function IngestionComponents(cfg: IngestionFlowConfig, reg: Registry)
    : Result<(Option<Flows.Loader>, Option<Flows.Splitter>), string>
  {
    var load := if cfg.documentLoader.name == "" then Ok(None)
      else
        var l := reg.loaderFor(NormalizeName(cfg.documentLoader.name), cfg.documentLoader.options);
        if l.Err? then Err(l.error) else Ok(Some(l.value));
    if load.Err? then Err(load.error)
    else
      var split := if cfg.textSplitter.name == "" then Ok(None)
        else
          var s := reg.splitterFor(NormalizeName(cfg.textSplitter.name), cfg.textSplitter.options);
          if s.Err? then Err(s.error) else Ok(Some(s.value));
      if split.Err? then Err(split.error) else Ok((load.value, split.value))
  }

  /** AsIngestionFlow: a new flow with the configured file types, loader and splitter; the transformers are not read. */
  method AsIngestionFlow(cfg: IngestionFlowConfig, reg: Registry) returns (r: Result<Flows.IngestionFlow, string>)
    ensures IngestionComponents(cfg, reg).Err? ==> r == Err(IngestionComponents(cfg, reg).error)
    ensures IngestionComponents(cfg, reg).Ok? ==>
      (r.Ok? && fresh(r.value) &&
       r.value.filetypes == cfg.filetypes &&
       (r.value.load, r.value.split) == IngestionComponents(cfg, reg).value &&
       r.value.transformations == [])
  {
    var flow := new Flows.IngestionFlow(cfg.filetypes);
    if cfg.documentLoader.name != "" {
      var name := ToLower(Trim(cfg.documentLoader.name, {' '}));
      var loader := reg.loaderFor(name, cfg.documentLoader.options);
      if loader.Err? {
        return Err(loader.error);
      }
      flow.load := Some(loader.value);
    }
    if cfg.textSplitter.name != "" {
      var name := ToLower(Trim(cfg.textSplitter.name, {' '}));
      var splitter := reg.splitterFor(name, cfg.textSplitter.options);
      if splitter.Err? {
        return Err(splitter.error);
      }
      flow.split := Some(splitter.value);
    }
    r := Ok(flow);
  }

  /** A configuration naming no loader and no splitter yields a flow with neither, whatever the registry. */
  lemma NoComponentsNamed(cfg: IngestionFlowConfig, reg: Registry)
    requires cfg.documentLoader.name == "" && cfg.textSplitter.name == ""
    ensures IngestionComponents(cfg, reg) == Ok((None, None))
  {
  }

  /** A loader the registry rejects fails the conversion with that error, before any splitter is looked up. */
  lemma LoaderErrorFirst(cfg: IngestionFlowConfig, reg: Registry)
    requires cfg.documentLoader.name != ""
    requires reg.loaderFor(NormalizeName(cfg.documentLoader.name), cfg.documentLoader.options).Err?
    ensures IngestionComponents(cfg, reg) ==
      Err(reg.loaderFor(NormalizeName(cfg.documentLoader.name), cfg.documentLoader.options).error)
  {
  }

  /** Names differing only in case and surrounding spaces select the same component. */
  lemma NormalizeSample()
    ensures NormalizeName(" PDF ") == "pdf"
  {
    assert TrimLeftChars(" PDF ", {' '}) == "PDF ";
    assert Trim(" PDF ", {' '}) == "PDF";
  }

  /** Two default flows make a configuration without incomplete flows invalid. */
  lemma TwoDefaultsRejected(f: FlowConfig, a: string, b: string)
    requires AllComplete(f.flows)
    requires a != b && a in DefaultNames(f.flows) && b in DefaultNames(f.flows)
    ensures |DefaultNames(f.flows)| > 1
  {
    assert |{a, b}| == 2;
    SubsetCard({a, b}, DefaultNames(f.flows));
  }
}
