/**
 * go-tiktoken's choice of an encoding for a model name: an exact entry of the model table wins;
 * otherwise a listed prefix of the name decides; otherwise there is no encoding for the model.
 */
module TiktokenModels {
  import opened GoStrings
  import opened Wrappers
  import opened TiktokenEncoding

  /** Model-name prefixes and their encodings (the chat models and the Azure deployment name). */
  const ModelPrefixToEncoding: map<string, string> := map[
    "gpt-4-" := CL100kBase,
    "gpt-3.5-turbo-" := CL100kBase,
    "gpt-35-turbo" := CL100kBase]

  /** Model names and their encodings. */
  const ModelToEncoding: map<string, string> := map[
    "gpt-4" := CL100kBase,
    "gpt-3.5-turbo" := CL100kBase,
    "gpt-35-turbo" := CL100kBase,
    "text-davinci-003" := P50kBase,
    "text-davinci-002" := P50kBase,
    "text-davinci-001" := R50kBase,
    "text-curie-001" := R50kBase,
    "text-babbage-001" := R50kBase,
    "text-ada-001" := R50kBase,
    "davinci" := R50kBase,
    "curie" := R50kBase,
    "babbage" := R50kBase,
    "ada" := R50kBase,
    "code-davinci-002" := P50kBase,
    "code-davinci-001" := P50kBase,
    "code-cushman-002" := P50kBase,
    "code-cushman-001" := P50kBase,
    "davinci-codex" := P50kBase,
    "cushman-codex" := P50kBase,
    "text-davinci-edit-001" := P50kEdit,
    "code-davinci-edit-001" := P50kEdit,
    "text-embedding-ada-002" := CL100kBase,
    "text-embedding-3-small" := CL100kBase,
    "text-embedding-3-large" := CL100kBase,
    "text-similarity-davinci-001" := R50kBase,
    "text-similarity-curie-001" := R50kBase,
    "text-similarity-babbage-001" := R50kBase,
    "text-similarity-ada-001" := R50kBase,
    "text-search-davinci-doc-001" := R50kBase,
    "text-search-curie-doc-001" := R50kBase,
    "text-search-babbage-doc-001" := R50kBase,
    "text-search-ada-doc-001" := R50kBase,
    "code-search-babbage-code-001" := R50kBase,
    "code-search-ada-code-001" := R50kBase,
    "gpt2" := GPT2]

  /** Some listed prefix starts the model name. */
  predicate HasListedPrefix(model: string) {
    exists prefix :: prefix in ModelPrefixToEncoding && HasPrefix(model, prefix)
  }

  /**
   * The encoding name NewEncodingForModel settles on, or its error. Every prefix maps to
   * cl100k_base, so which matching prefix the map iteration meets first does not matter.
   */
  function EncodingForModel(model: string): (r: Result<string, string>)
    ensures r.Ok? ==> r.value in EncodingNames
    ensures r.Err? ==> r.error == "no encoding for model " + model
  {
    if model in ModelToEncoding then Ok(ModelToEncoding[model])
    else if HasListedPrefix(model) then Ok(CL100kBase)
    else Err("no encoding for model " + model)
  }

  /**
   * The lookup of lines 76-86: the exact table first, then the prefixes in map iteration order
   * (any order), returning at the first prefix that starts the name.
   */
  method ResolveModel(model: string) returns (r: Result<string, string>)
    ensures r == EncodingForModel(model)
  {
    if model in ModelToEncoding {
      return Ok(ModelToEncoding[model]);
    }
    var rest := ModelPrefixToEncoding.Keys;
    while rest != {}
      invariant rest <= ModelPrefixToEncoding.Keys
      invariant forall p :: p in ModelPrefixToEncoding && p !in rest ==> !HasPrefix(model, p)
      decreases rest
    {
      var prefix :| prefix in rest;
      if HasPrefix(model, prefix) {
        return Ok(ModelPrefixToEncoding[prefix]);
      }
      rest := rest - {prefix};
    }
    return Err("no encoding for model " + model);
  }

  /** NewEncodingForModel: the encoding for the resolved name, or the lookup's error. */
  method NewEncodingForModel(model: string, codecFor: string -> Result<Codec, string>) returns (r: Result<Encoding, string>)
    ensures EncodingForModel(model).Err? ==> r == Err(EncodingForModel(model).error)
    ensures EncodingForModel(model).Ok? ==> ByNameOutcome(EncodingForModel(model).value, codecFor, r)
  {
    var name := ResolveModel(model);
    if name.Err? {
      return Err(name.error);
    }
    r := NewEncodingByName(name.value, codecFor);
  }

  /** An exact entry takes priority over any prefix. */
  lemma ExactNameFirst(model: string)
    requires model in ModelToEncoding
    ensures EncodingForModel(model) == Ok(ModelToEncoding[model])
  {
  }

  /** A name missing from the table but starting with a listed prefix gets that prefix's encoding. */
  lemma PrefixDecides(model: string, prefix: string)
    requires model !in ModelToEncoding && prefix in ModelPrefixToEncoding && HasPrefix(model, prefix)
    ensures EncodingForModel(model) == Ok(ModelPrefixToEncoding[prefix])
  {
  }

  /** "gpt-4" is an entry of the table: cl100k_base. */
  lemma SampleChatModel()
    ensures EncodingForModel("gpt-4") == Ok("cl100k_base")
  {
    assert ModelToEncoding["gpt-4"] == CL100kBase;
  }

  /** "davinci" is an entry of the table: r50k_base. */
  lemma SampleCompletionModel()
    ensures EncodingForModel("davinci") == Ok("r50k_base")
  {
    assert ModelToEncoding["davinci"] == R50kBase;
  }

  /** "code-davinci-edit-001" is an entry of the table: p50k_edit. */
  lemma SampleEditModel()
    ensures EncodingForModel("code-davinci-edit-001") == Ok("p50k_edit")
  {
    assert ModelToEncoding["code-davinci-edit-001"] == P50kEdit;
  }

  /** A dated chat model is no entry of the table; its prefix "gpt-4-" gives cl100k_base. */
  lemma SampleDatedModel()
    ensures EncodingForModel("gpt-4-0314") == Ok("cl100k_base")
  {
    assert HasPrefix("gpt-4-0314", "gpt-4-");
    assert HasListedPrefix("gpt-4-0314");
    if "gpt-4-0314" in ModelToEncoding {
      TableNamesLength("gpt-4-0314");
    }
  }

  /** No entry of the table has a name of ten characters, nor one of six. */
  lemma TableNamesLength(model: string)
    requires model in ModelToEncoding
    ensures |model| != 10 && |model| != 6
  {
  }

  /** A name with neither an entry nor a listed prefix has no encoding: "gpt-4o" is one. */
  lemma UnknownModel()
    ensures EncodingForModel("gpt-4o") == Err("no encoding for model gpt-4o")
  {
    if "gpt-4o" in ModelToEncoding {
      TableNamesLength("gpt-4o");
    }
    assert !HasListedPrefix("gpt-4o") by {
      forall prefix | prefix in ModelPrefixToEncoding
        ensures !HasPrefix("gpt-4o", prefix)
      {
        if prefix == "gpt-4-" {
          assert "gpt-4o"[5] != prefix[5];
        } else {
          assert "gpt-4o"[4] != prefix[4];
        }
      }
    }
    assert "no encoding for model " + "gpt-4o" == "no encoding for model gpt-4o";
  }
}
