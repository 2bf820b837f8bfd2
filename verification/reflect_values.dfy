/**
 * The Go values that the reflection-based helpers walk: strings, integers, booleans, pointers
 * and structs. A struct is its list of fields in declaration order, each with its name, the
 * value of its `export` struct tag ("" when absent) and its value.
 */
module ReflectValues {
  import opened Wrappers

  datatype Value =
    | Str(s: string)
    | Int(i: int)
    | Bool(b: bool)
    | Pointer(target: Option<Value>)
    | Struct(fields: seq<Field>)

  datatype Field = Field(name: string, tag: string, value: Value)

  /** reflect.Value.Elem on a non-nil pointer: the value pointed to; any other value as it is. */
  function Deref(v: Value): Value {
    if v.Pointer? && v.target.Some? then v.target.value else v
  }

  /** The zero value of the type of `v`: reflect.New(type).Elem(). */
  function Zero(v: Value): Value
    decreases v
  {
    match v
    case Str(_) => Str("")
    case Int(_) => Int(0)
    case Bool(_) => Bool(false)
    case Pointer(_) => Pointer(None)
    case Struct(fs) => Struct(ZeroFields(fs))
  }

  /** The fields with their zero values. */
  function ZeroFields(fs: seq<Field>): (r: seq<Field>)
    ensures |r| == |fs|
    ensures forall i :: 0 <= i < |fs| ==> r[i].name == fs[i].name && r[i].tag == fs[i].tag
    decreases fs
  {
    if fs == [] then [] else [fs[0].(value := Zero(fs[0].value))] + ZeroFields(fs[1..])
  }

  /** reflect.Value.IsZero: a nil pointer, an empty string, 0, false, or a struct of zero fields. */
  predicate IsZero(v: Value)
    decreases v
  {
    match v
    case Str(s) => s == ""
    case Int(i) => i == 0
    case Bool(b) => !b
    case Pointer(t) => t.None?
    case Struct(fs) => AllZero(fs)
  }

  predicate AllZero(fs: seq<Field>)
    decreases fs
  {
    fs == [] || (IsZero(fs[0].value) && AllZero(fs[1..]))
  }

  /** The zero value is zero, and zeroing it again changes nothing. */
  lemma {:induction false} ZeroIsZero(v: Value)
    ensures IsZero(Zero(v)) && Zero(Zero(v)) == Zero(v)
    decreases v
  {
    match v
    case Struct(fs) => ZeroFieldsAreZero(fs);
    case _ =>
  }

  lemma {:induction false} ZeroFieldsAreZero(fs: seq<Field>)
    ensures AllZero(ZeroFields(fs)) && ZeroFields(ZeroFields(fs)) == ZeroFields(fs)
    decreases fs
  {
    if fs != [] {
      ZeroIsZero(fs[0].value);
      ZeroFieldsAreZero(fs[1..]);
      assert ZeroFields(fs)[1..] == ZeroFields(fs[1..]);
    }
  }

  /** reflect.Value.FieldByName on the direct fields: the first field of that name. */
  function FieldByName(fs: seq<Field>, name: string): (r: Option<Value>)
    ensures r.None? <==> forall i :: 0 <= i < |fs| ==> fs[i].name != name
    ensures r.Some? ==>
      exists i :: 0 <= i < |fs| && fs[i].name == name && fs[i].value == r.value && (forall j :: 0 <= j < i ==> fs[j].name != name)
    decreases fs
  {
    if fs == [] then None
    else if fs[0].name == name then Some(fs[0].value)
    else
      var r := FieldByName(fs[1..], name);
      if r.Some? then
        var i :| 0 <= i < |fs[1..]| && fs[1..][i].name == name && fs[1..][i].value == r.value && (forall j :: 0 <= j < i ==> fs[1..][j].name != name);
        assert fs[i + 1].name == name && forall j :: 0 <= j < i + 1 ==> fs[j].name != name;
        r
      else r
  }
}
