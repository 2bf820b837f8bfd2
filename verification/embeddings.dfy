/**
 * Embedding-provider configuration: choosing a provider by its type name, finding a configured
 * provider by name, and the reflection-based export and comparison of a provider's
 * configuration struct, driven by its `export` struct tags ("false": left out, "required": must
 * be set).
 */
module Embeddings {
  import opened Wrappers
  import opened GoStrings
  import DocTypes
  import opened ReflectValues
  import opened Seqs

  /** The providers the dispatch knows. */
  datatype ProviderKind = OpenAI | Cohere | Vertex | Jina | Mistral | Mixedbread | LocalAI | Ollama

  function ProviderName(k: ProviderKind): string {
    match k
    case OpenAI => "openai"
    case Cohere => "cohere"
    case Vertex => "vertex"
    case Jina => "jina"
    case Mistral => "mistral"
    case Mixedbread => "mixedbread"
    case LocalAI => "localai"
    case Ollama => "ollama"
  }

  /** GetProviderConfig: the provider whose name is the lower-cased type, or an error naming the type. */
  function GetProviderConfig(providerType: string): (r: Result<ProviderKind, string>)
    ensures r.Ok? ==> ProviderName(r.value) == ToLower(providerType)
    ensures r.Err? ==>
      (forall k :: ProviderName(k) != ToLower(providerType)) &&
      r.error == "unknown embedding model provider " + Quote(providerType)
  {
    var t := ToLower(providerType);
    if t == "openai" then Ok(OpenAI)
    else if t == "cohere" then Ok(Cohere)
    else if t == "vertex" then Ok(Vertex)
    else if t == "jina" then Ok(Jina)
    else if t == "mistral" then Ok(Mistral)
    else if t == "mixedbread" then Ok(Mixedbread)
    else if t == "localai" then Ok(LocalAI)
    else if t == "ollama" then Ok(Ollama)
    else Err("unknown embedding model provider " + Quote(providerType))
  }

  /** A text without upper-case ASCII letters is its own lower case. */
  lemma LowerOfLower(s: string)
    requires forall i :: 0 <= i < |s| ==> !('A' <= s[i] <= 'Z')
    ensures ToLower(s) == s
  {
  }

  /** Every provider is found by its own name, in any letter case. */
  lemma ProviderNameRoundTrip(k: ProviderKind, t: string)
    requires ToLower(t) == ProviderName(k)
    ensures GetProviderConfig(t) == Ok(k)
  {
  }

  /** Every provider name is lower case, so GetProviderConfig finds each by its name. */
  lemma ProviderNamesFound(k: ProviderKind)
    ensures GetProviderConfig(ProviderName(k)) == Ok(k)
  {
    LowerOfLower(ProviderName(k));
    ProviderNameRoundTrip(k, ProviderName(k));
  }

  /** A configured provider: its name, its type and its free-form options. */
  datatype ModelProviderConfig = ModelProviderConfig(name: string, typ: string, config: map<string, DocTypes.Any>)

  /** FindProviderConfig: the first configured provider with that name, or none. */
  function FindProviderConfig(name: string, providers: seq<ModelProviderConfig>): (r: Option<ModelProviderConfig>)
    ensures r.None? <==> forall i :: 0 <= i < |providers| ==> providers[i].name != name
    ensures r.Some? ==>
      r.value.name == name &&
      exists i :: 0 <= i < |providers| && providers[i] == r.value && (forall j :: 0 <= j < i ==> providers[j].name != name)
    decreases |providers|
  {
    if |providers| == 0 then None
    else if providers[0].name == name then Some(providers[0])
    else
      var r := FindProviderConfig(name, providers[1..]);
      if r.Some? then
        var i :| 0 <= i < |providers[1..]| && providers[1..][i] == r.value && (forall j :: 0 <= j < i ==> providers[1..][j].name != name);
        assert providers[i + 1] == r.value && forall j :: 0 <= j < i + 1 ==> providers[j].name != name;
        r
      else r
  }

  /**
   * GetProviderCfg: the configured provider of that name; when there is none, the name is taken
   * to be the type. It never fails.
   */
  function GetProviderCfg(name: string, providers: seq<ModelProviderConfig>): (r: Result<ModelProviderConfig, string>)
    ensures r.Ok? && r.value.name == name
    ensures (forall i :: 0 <= i < |providers| ==> providers[i].name != name) ==> r.value == ModelProviderConfig(name, name, map[])
    ensures (exists i :: 0 <= i < |providers| && providers[i].name == name) ==> r.value in providers
  {
    var p := FindProviderConfig(name, providers);
    if p.None? then Ok(ModelProviderConfig(name, name, map[])) else Ok(p.value)
  }

  /** An unconfigured name selects the provider whose type name it is. */
  lemma UnconfiguredNameIsType(name: string, providers: seq<ModelProviderConfig>)
    requires forall i :: 0 <= i < |providers| ==> providers[i].name != name
    ensures GetProviderConfig(GetProviderCfg(name, providers).value.typ) == GetProviderConfig(name)
  {
  }

  const NilPointerError: string := "input must be a non-nil pointer"
  const NotStructError: string := "input must be a struct or a pointer to a struct"

  function RequiredError(name: string): string {
    "field " + Quote(name) + " is required"
  }

  /** One field exported: zero when tagged "false", a nested struct exported, a zero required field an error. */
  function ExportField(f: Field): (r: Result<Field, string>)
    ensures r.Ok? ==> r.value.name == f.name && r.value.tag == f.tag
    decreases f
  {
    if f.tag == "false" then Ok(f.(value := Zero(f.value)))
    else if f.value.Struct? then
      var n := ExportFields(f.value.fields);
      if n.Err? then Err(n.error) else Ok(f.(value := Struct(n.value)))
    else if f.tag == "required" && IsZero(f.value) then Err(RequiredError(f.name))
    else Ok(f)
  }

  /**
   * The fields exported in order; the first failure is the result. An exported list has the same
   * field names and tags, a zero value in every field tagged "false", and every other field that
   * is not a struct copied; a zero field tagged "required" that is not a struct fails the export.
   */
  function ExportFields(fs: seq<Field>): (r: Result<seq<Field>, string>)
    ensures r.Ok? ==> |r.value| == |fs|
    ensures r.Ok? ==> forall i :: 0 <= i < |fs| ==> r.value[i].name == fs[i].name && r.value[i].tag == fs[i].tag
    ensures r.Ok? ==> forall i :: 0 <= i < |fs| && fs[i].tag == "false" ==> r.value[i].value == Zero(fs[i].value)
    ensures r.Ok? ==> forall i :: 0 <= i < |fs| && fs[i].tag != "false" && !fs[i].value.Struct? ==> r.value[i] == fs[i]
    ensures (exists i :: 0 <= i < |fs| && fs[i].tag == "required" && !fs[i].value.Struct? && IsZero(fs[i].value)) ==> r.Err?
    decreases fs
  {
    if fs == [] then Ok([])
    else
      var h := ExportField(fs[0]);
      if h.Err? then Err(h.error)
      else
        var t := ExportFields(fs[1..]);
        if t.Err? then
          assert forall i :: 1 <= i < |fs| ==> fs[i] == fs[1..][i - 1];
          t
        else
          assert forall i :: 1 <= i < |fs| ==> fs[i] == fs[1..][i - 1] && ([h.value] + t.value)[i] == t.value[i - 1];
          Ok([h.value] + t.value)
  }

  /** The value ExportConfig yields for an input: the struct (or the pointer to it) with its fields exported. */
  function Exported(c: Value): (r: Result<Value, string>)
    ensures c == Pointer(None) ==> r == Err(NilPointerError)
    ensures r.Ok? ==> (c.Pointer? <==> r.value.Pointer?)
  {
    if c == Pointer(None) then Err(NilPointerError)
    else
      var v := if c.Pointer? then c.target.value else c;
      if !v.Struct? then Err(NotStructError)
      else
        var fs := ExportFields(v.fields);
        if fs.Err? then Err(fs.error)
        else if c.Pointer? then Ok(Pointer(Some(Struct(fs.value))))
        else Ok(Struct(fs.value))
  }

  /**
   * Reaching a nested struct field of a struct passed by value panics (the field is not
   * addressable); a field tagged "false" is skipped before that.
   */
  predicate NoNestedExported(fs: seq<Field>) {
    forall i :: 0 <= i < |fs| && fs[i].tag != "false" ==> !fs[i].value.Struct?
  }

  /** What the front part of the fields contributes to the export of all of them. */
  function Prepend(xs: seq<Field>, r: Result<seq<Field>, string>): Result<seq<Field>, string> {
    if r.Err? then r else Ok(xs + r.value)
  }

  /** ExportConfig: a new struct of the same type, filled field by field. */
  method ExportConfig(c: Value) returns (r: Result<Value, string>)
    requires c.Struct? ==> NoNestedExported(c.fields)
    ensures r == Exported(c)
  {
    if c.Pointer? && c.target.None? {
      return Err(NilPointerError);
    }
    var v := if c.Pointer? then c.target.value else c;
    if !v.Struct? {
      return Err(NotStructError);
    }
    var fs := ExportStruct(v.fields);
    if fs.Err? {
      return Err(fs.error);
    }
    if c.Pointer? {
      return Ok(Pointer(Some(Struct(fs.value))));
    }
    r := Ok(Struct(fs.value));
  }

  /** The field loop of ExportConfig; a nested struct is exported through its address. */
  method ExportStruct(fs: seq<Field>) returns (r: Result<seq<Field>, string>)
    ensures r == ExportFields(fs)
    decreases fs
  {
    var result: seq<Field> := [];
    assert fs[0..] == fs;
    assert ExportFields(fs).Ok? ==> [] + ExportFields(fs).value == ExportFields(fs).value;
    for i := 0 to |fs|
      invariant ExportFields(fs) == Prepend(result, ExportFields(fs[i..]))
    {
      ExportStep(result, fs, i);
      var f := fs[i];
      if f.tag == "false" {
        result := result + [f.(value := Zero(f.value))];
      } else if f.value.Struct? {
        var n := ExportStruct(f.value.fields);
        if n.Err? {
          return Err(n.error);
        }
        result := result + [f.(value := Struct(n.value))];
      } else if f.tag == "required" && IsZero(f.value) {
        return Err(RequiredError(f.name));
      } else {
        result := result + [f];
      }
    }
    assert fs[|fs|..] == [];
    assert result + [] == result;
    r := Ok(result);
  }

  /** One more field: its export joins the front part, or its failure is the result. */
  lemma ExportStep(result: seq<Field>, fs: seq<Field>, i: int)
    requires 0 <= i < |fs|
    ensures ExportField(fs[i]).Err? ==> Prepend(result, ExportFields(fs[i..])) == Err(ExportField(fs[i]).error)
    ensures ExportField(fs[i]).Ok? ==>
      Prepend(result, ExportFields(fs[i..])) == Prepend(result + [ExportField(fs[i]).value], ExportFields(fs[i + 1..]))
  {
    assert fs[i..][0] == fs[i] && fs[i..][1..] == fs[i + 1..];
    var h := ExportField(fs[i]);
    var t := ExportFields(fs[i + 1..]);
    if h.Ok? && t.Ok? {
      AppendAssociates(result, [h.value], t.value);
    }
  }

  /** Exporting an exported configuration gives it back: export is idempotent. */
  lemma {:induction false} ExportFieldsIdempotent(fs: seq<Field>)
    requires ExportFields(fs).Ok?
    ensures ExportFields(ExportFields(fs).value) == ExportFields(fs)
    decreases fs
  {
    if fs != [] {
      var h := ExportField(fs[0]).value;
      var t := ExportFields(fs[1..]).value;
      ExportFieldIdempotent(fs[0]);
      ExportFieldsIdempotent(fs[1..]);
      assert ExportFields(fs).value == [h] + t;
      assert ([h] + t)[0] == h && ([h] + t)[1..] == t;
    }
  }

  lemma {:induction false} ExportFieldIdempotent(f: Field)
    requires ExportField(f).Ok?
    ensures ExportField(ExportField(f).value) == ExportField(f)
    decreases f
  {
    if f.tag == "false" {
      ZeroIsZero(f.value);
    } else if f.value.Struct? {
      ExportFieldsIdempotent(f.value.fields);
    }
  }

  /** The export of a whole value is idempotent too. */
  lemma ExportIdempotent(c: Value)
    requires Exported(c).Ok?
    ensures Exported(Exported(c).value) == Exported(c)
  {
    var v := if c.Pointer? then c.target.value else c;
    ExportFieldsIdempotent(v.fields);
  }

  /** Exporting {Field1: "value", Field2: 42, Field3: true} (Field3 tagged "false") clears Field3 only. */
  lemma ExportSample()
    ensures Exported(Pointer(Some(Struct([Field("Field1", "true", Str("value")), Field("Field2", "true", Int(42)),
                                          Field("Field3", "false", Bool(true))]))))
      == Ok(Pointer(Some(Struct([Field("Field1", "true", Str("value")), Field("Field2", "true", Int(42)),
                                 Field("Field3", "false", Bool(false))]))))
  {
    var f3 := [Field("Field3", "false", Bool(true))];
    var f2 := [Field("Field2", "true", Int(42))] + f3;
    var f1 := [Field("Field1", "true", Str("value"))] + f2;
    assert f3[1..] == [] && f2[1..] == f3 && f1[1..] == f2;
    assert ExportField(f3[0]) == Ok(Field("Field3", "false", Bool(false)));
    assert ExportFields(f3[1..]) == Ok([]);
    assert [Field("Field3", "false", Bool(false))] + [] == [Field("Field3", "false", Bool(false))];
    assert ExportFields(f3) == Ok([Field("Field3", "false", Bool(false))]);
    assert f2[0] == Field("Field2", "true", Int(42));
    assert ExportField(f2[0]) == Ok(f2[0]);
    assert ExportFields(f2[1..]) == Ok([Field("Field3", "false", Bool(false))]);
    assert f2 != [];
    assert [f2[0]] + [Field("Field3", "false", Bool(false))] == [Field("Field2", "true", Int(42)), Field("Field3", "false", Bool(false))];
    assert ExportFields(f2) == Ok([f2[0]] + [Field("Field3", "false", Bool(false))]);
    assert f1[0] == Field("Field1", "true", Str("value"));
    assert ExportField(f1[0]) == Ok(f1[0]);
    assert ExportFields(f1[1..]) == ExportFields(f2);
    var out := [Field("Field1", "true", Str("value")), Field("Field2", "true", Int(42)), Field("Field3", "false", Bool(false))];
    assert [f1[0]] + [Field("Field2", "true", Int(42)), Field("Field3", "false", Bool(false))] == out;
    assert ExportFields(f1) == Ok(out);
    assert f1 == [Field("Field1", "true", Str("value")), Field("Field2", "true", Int(42)), Field("Field3", "false", Bool(true))];
  }

  /** An unset required field fails the export with the error naming it. */
  lemma RequiredSample()
    ensures Exported(Pointer(Some(Struct([Field("Field1", "required", Str("")), Field("Field2", "true", Int(42))]))))
      == Err(RequiredError("Field1"))
  {
  }

  const FirstNilError: string := "first input must be a non-nil pointer or a struct"
  const SecondNilError: string := "second input must be a non-nil pointer or a struct"
  const BothStructsError: string := "both inputs must be structs or pointers to structs"

  function MissingError(name: string): string {
    "field " + Quote(name) + " is missing in the second struct"
  }

  function MismatchError(name: string, x: string, y: string): string {
    "field " + Quote(name) + " does not match: " + x + " != " + y
  }

  /** A required field of `fa` that `fb` has, with an equal value. */
  predicate RequiredMatches(f: Field, fb: seq<Field>) {
    f.tag != "required" || FieldByName(fb, f.name) == Some(f.value)
  }

  /**
   * CompareRequiredFields: both inputs are structs or non-nil pointers to structs, and every
   * field of the first tagged "required" is in the second with a deeply equal value; otherwise
   * the error for the first input or field that fails. `show` is the %v text of a value.
   */
  method CompareRequiredFields(a: Value, b: Value, show: Value -> string) returns (err: Option<string>)
    ensures a == Pointer(None) ==> err == Some(FirstNilError)
    ensures a != Pointer(None) && b == Pointer(None) ==> err == Some(SecondNilError)
    ensures a != Pointer(None) && b != Pointer(None) && !(Deref(a).Struct? && Deref(b).Struct?) ==> err == Some(BothStructsError)
    ensures Deref(a).Struct? && Deref(b).Struct? ==>
      var fa := Deref(a).fields;
      var fb := Deref(b).fields;
      (err.None? <==> forall i :: 0 <= i < |fa| ==> RequiredMatches(fa[i], fb)) &&
      (err.Some? ==>
        exists i :: 0 <= i < |fa| && !RequiredMatches(fa[i], fb) && (forall j :: 0 <= j < i ==> RequiredMatches(fa[j], fb)) &&
          err.value == (if FieldByName(fb, fa[i].name).None? then MissingError(fa[i].name)
                        else MismatchError(fa[i].name, show(fa[i].value), show(FieldByName(fb, fa[i].name).value))))
  {
    if a.Pointer? && a.target.None? {
      return Some(FirstNilError);
    }
    if b.Pointer? && b.target.None? {
      return Some(SecondNilError);
    }
    var va := Deref(a);
    var vb := Deref(b);
    if !va.Struct? || !vb.Struct? {
      return Some(BothStructsError);
    }
    var fa := va.fields;
    var fb := vb.fields;
    for i := 0 to |fa|
      invariant forall j :: 0 <= j < i ==> RequiredMatches(fa[j], fb)
    {
      if fa[i].tag == "required" {
        var y := FieldByName(fb, fa[i].name);
        if y.None? {
          return Some(MissingError(fa[i].name));
        }
        if fa[i].value != y.value {
          return Some(MismatchError(fa[i].name, show(fa[i].value), show(y.value)));
        }
      }
    }
    err := None;
  }
}
