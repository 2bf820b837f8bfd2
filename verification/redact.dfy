/**
 * Redacting a configuration value before it is shown: every string field of a struct whose
 * lower-cased name is one of the sensitive names reads "REDACTED", nested structs are redacted
 * (always with the default names), and everything else is copied. A pointer to a struct is
 * followed; any other value comes back as it is.
 */
module Redact {
  import opened Wrappers
  import opened GoStrings
  import opened ReflectValues

  /** The names redacted when the caller gives none. */
  const SensitiveFields: seq<string> := ["password", "apikey", "token", "secret", "credentials", "auth"]

  const RedactedText: string := "REDACTED"

  /** The names in force: the given ones, or the default names when none are given. */
  function ToRedact(fields: seq<string>): (r: seq<string>)
    ensures fields != [] ==> r == fields
    ensures fields == [] ==> r == SensitiveFields
  {
    if |fields| == 0 then SensitiveFields else fields
  }

  /**
   * RedactSensitive as a value: the input itself unless it is (a pointer to) a struct, in which
   * case a new struct value of the same fields, each field redacted.
   */
  function Redacted(s: Value, fields: seq<string>): (r: Value)
    ensures !Deref(s).Struct? ==> r == s
    ensures Deref(s).Struct? ==> r.Struct? && |r.fields| == |Deref(s).fields|
    decreases s, 1
  {
    match s
    case Struct(fs) => Struct(RedactFields(fs, ToRedact(fields)))
    case Pointer(Some(Struct(fs))) => Struct(RedactFields(fs, ToRedact(fields)))
    case _ => s
  }

  /** The fields, each redacted with the names `toRedact`. */
  function RedactFields(fs: seq<Field>, toRedact: seq<string>): (r: seq<Field>)
    ensures |r| == |fs|
    decreases fs, 0
  {
    if fs == [] then []
    else RedactFields(fs[..|fs| - 1], toRedact) + [RedactField(fs[|fs| - 1], toRedact)]
  }

  /**
   * One field: a struct is redacted recursively with the default names, a field whose
   * lower-cased name is to be redacted becomes "REDACTED", any other field is copied.
   */
  function RedactField(f: Field, toRedact: seq<string>): (r: Field)
    ensures r.name == f.name && r.tag == f.tag
    decreases f, 2
  {
    if f.value.Struct? then f.(value := Redacted(f.value, []))
    else if ToLower(f.name) in toRedact then f.(value := Str(RedactedText))
    else f
  }

  /**
   * The values for which RedactSensitive does not panic: every field it writes "REDACTED" into
   * is a string field (reflect's SetString panics on any other kind).
   */
  predicate Redactable(s: Value, fields: seq<string>)
    decreases s, 1
  {
    match s
    case Struct(fs) => FieldsRedactable(fs, ToRedact(fields))
    case Pointer(Some(Struct(fs))) => FieldsRedactable(fs, ToRedact(fields))
    case _ => true
  }

  predicate FieldsRedactable(fs: seq<Field>, toRedact: seq<string>)
    decreases fs, 0
  {
    forall i :: 0 <= i < |fs| ==> FieldRedactable(fs[i], toRedact)
  }

  predicate FieldRedactable(f: Field, toRedact: seq<string>)
    decreases f, 2
  {
    if f.value.Struct? then Redactable(f.value, []) else ToLower(f.name) in toRedact ==> f.value.Str?
  }

  /**
   * RedactSensitive: follows a pointer, and for a struct builds the redacted copy field by field,
   * redacting nested structs by a recursive call with the default names.
   */
  method RedactSensitive(s: Value, fields: seq<string>) returns (r: Value)
    requires Redactable(s, fields)
    ensures r == Redacted(s, fields)
    decreases s
  {
    var toRedact := fields;
    if |toRedact| == 0 {
      toRedact := SensitiveFields;
    }
    var v := s;
    if v.Pointer? && v.target.Some? {
      v := v.target.value;
    }
    if !v.Struct? {
      return s;
    }
    assert toRedact == ToRedact(fields) && FieldsRedactable(v.fields, toRedact);
    var out: seq<Field> := [];
    for i := 0 to |v.fields|
      invariant out == RedactFields(v.fields[..i], toRedact)
    {
      var field := v.fields[i];
      assert FieldRedactable(field, toRedact);
      assert v.fields[..i + 1][..i] == v.fields[..i];
      if field.value.Struct? {
        var nested := RedactSensitive(field.value, []);
        out := out + [field.(value := nested)];
      } else if ToLower(field.name) in toRedact {
        out := out + [field.(value := Str(RedactedText))];
      } else {
        out := out + [field];
      }
    }
    assert v.fields[..|v.fields|] == v.fields;
    r := Struct(out);
  }

  /**
   * Field by field: names and tags are kept; a nested struct is redacted with the default names;
   * a non-struct field reads "REDACTED" exactly when its lower-cased name is to be redacted, and
   * is copied otherwise.
   */
  lemma {:induction false} FieldwiseRedaction(fs: seq<Field>, toRedact: seq<string>, i: int)
    requires 0 <= i < |fs|
    ensures var r := RedactFields(fs, toRedact)[i];
      r.name == fs[i].name && r.tag == fs[i].tag &&
      (fs[i].value.Struct? ==> r.value == Redacted(fs[i].value, [])) &&
      (!fs[i].value.Struct? && ToLower(fs[i].name) in toRedact ==> r.value == Str(RedactedText)) &&
      (!fs[i].value.Struct? && ToLower(fs[i].name) !in toRedact ==> r == fs[i])
    decreases |fs|
  {
    if i < |fs| - 1 {
      FieldwiseRedaction(fs[..|fs| - 1], toRedact, i);
    }
  }

  /** Redacting twice with the same names is redacting once. */
  lemma {:induction false} RedactIdempotent(s: Value, fields: seq<string>)
    ensures Redacted(Redacted(s, fields), fields) == Redacted(s, fields)
    decreases s, 1
  {
    match s
    case Struct(fs) => RedactFieldsIdempotent(fs, ToRedact(fields));
    case Pointer(Some(Struct(fs))) => RedactFieldsIdempotent(fs, ToRedact(fields));
    case _ =>
  }

  lemma {:induction false} RedactFieldsIdempotent(fs: seq<Field>, toRedact: seq<string>)
    ensures RedactFields(RedactFields(fs, toRedact), toRedact) == RedactFields(fs, toRedact)
    decreases fs, 0
  {
    if fs != [] {
      var r := RedactFields(fs, toRedact);
      RedactFieldsIdempotent(fs[..|fs| - 1], toRedact);
      RedactFieldIdempotent(fs[|fs| - 1], toRedact);
      assert r[..|r| - 1] == RedactFields(fs[..|fs| - 1], toRedact);
    }
  }

  lemma {:induction false} RedactFieldIdempotent(f: Field, toRedact: seq<string>)
    ensures RedactField(RedactField(f, toRedact), toRedact) == RedactField(f, toRedact)
    decreases f, 2
  {
    if f.value.Struct? {
      RedactIdempotent(f.value, []);
    }
  }

  /**
   * Custom names are compared with lower-cased field names, so a custom name holding an upper-case
   * letter never matches: with only such names, every non-struct field is copied.
   */
  lemma UpperCaseNamesNeverMatch(fs: seq<Field>, fields: seq<string>, i: int)
    requires fields != [] && 0 <= i < |fs| && !fs[i].value.Struct?
    requires forall k :: 0 <= k < |fields| ==> exists j :: 0 <= j < |fields[k]| && 'A' <= fields[k][j] <= 'Z'
    ensures Redacted(Struct(fs), fields).fields[i] == fs[i]
  {
    FieldwiseRedaction(fs, fields, i);
  }

  /** A nested struct is redacted with the default names whatever names the caller gave. */
  lemma NestedUsesDefaults(fs: seq<Field>, fields: seq<string>, i: int)
    requires 0 <= i < |fs| && fs[i].value.Struct?
    ensures Redacted(Struct(fs), fields).fields[i].value == Redacted(fs[i].value, SensitiveFields)
  {
    FieldwiseRedaction(fs, ToRedact(fields), i);
  }

  /** A pointer to a struct is redacted as the struct itself, and the result is not a pointer. */
  lemma PointerFollowed(fs: seq<Field>, fields: seq<string>)
    ensures Redacted(Pointer(Some(Struct(fs))), fields) == Redacted(Struct(fs), fields)
  {
  }

  /** With the default names, { ApiKey: "secret", Username: "user" } keeps only the user name. */
  lemma DefaultSample()
    ensures var fs := [Field("ApiKey", "", Str("secret")), Field("Username", "", Str("user"))];
      Redacted(Struct(fs), []) == Struct([Field("ApiKey", "", Str(RedactedText)), Field("Username", "", Str("user"))])
  {
    var fs := [Field("ApiKey", "", Str("secret")), Field("Username", "", Str("user"))];
    assert ToLower("ApiKey") == "apikey";
    var u := ToLower("Username");
    assert u[0] == 'u' && u[1] == 's';
    assert u !in SensitiveFields;
    assert fs[..1] == [fs[0]];
    assert fs[..1][..0] == [];
  }
}
