/**
 * The values the retrieval pipeline passes around: documents with free-form metadata. Go's
 * `any` is modelled by the kinds of value the code inspects (nil, strings, integers, booleans,
 * floats); every other value is kept with the text `%v` prints for it.
 */
module DocTypes {
  import opened Wrappers
  import opened GoStrings

  /**
   * A value held in metadata. A float64 carries the text strconv.FormatFloat with format 'f' and
   * precision -1 gives it, the form the chromem store converts metadata to. %v prints the shortest
   * %g form instead (1e+06 for a million), but that text is only ever compared with the junk texts
   * "", "-", "null" and "nil", which no float prints as in either form.
   */
  datatype Any = Nil | Str(s: string) | Int(i: int) | Bool(b: bool) | Float(text: string) | Other(repr: string)

  /** fmt.Sprintf("%v", v). */
  function Format(v: Any): (r: string)
    ensures v.Str? ==> r == v.s
    ensures v.Bool? ==> r == (if v.b then "true" else "false")
  {
    match v
    case Nil => "<nil>"
    case Str(s) => s
    case Int(i) => IntToString(i)
    case Bool(b) => if b then "true" else "false"
    case Float(text) => text
    case Other(repr) => repr
  }

  /** A Go map[string]any that may be nil. */
  type Metadata = Option<map<string, Any>>

  /** The entries of a metadata map; a nil map reads as empty. */
  function Entries(m: Metadata): map<string, Any> {
    if m.Some? then m.value else map[]
  }

  /** A document: vectorstore.Document, with the ID that vectorstore/types.Document adds. */
  datatype Document = Document(id: string, content: string, metadata: Metadata, score: real)

  /** The documents of `docs` that satisfy `p`, in their order: the append-if loop every filter uses. */
  function Select(docs: seq<Document>, p: Document -> bool): seq<Document>
    decreases |docs|
  {
    if |docs| == 0 then []
    else Select(docs[..|docs| - 1], p) + (if p(docs[|docs| - 1]) then [docs[|docs| - 1]] else [])
  }

  /** A document is selected iff it is in the input and satisfies the predicate. */
  lemma {:induction false} SelectIff(docs: seq<Document>, p: Document -> bool, d: Document)
    ensures d in Select(docs, p) <==> d in docs && p(d)
    decreases |docs|
  {
    if |docs| > 0 {
      var init := docs[..|docs| - 1];
      SelectIff(init, p, d);
      assert docs == init + [docs[|docs| - 1]];
    }
  }

  /** Selection keeps the input order: selecting from a concatenation concatenates the selections. */
  lemma {:induction false} SelectAppend(a: seq<Document>, b: seq<Document>, p: Document -> bool)
    ensures Select(a + b, p) == Select(a, p) + Select(b, p)
    decreases |b|
  {
    if |b| > 0 {
      var init := b[..|b| - 1];
      SelectAppend(a, init, p);
      assert (a + b)[..|a + b| - 1] == a + init;
      assert (a + b)[|a + b| - 1] == b[|b| - 1];
    } else {
      assert a + b == a;
    }
  }

  /** A selected document occurs as often as in the input; a rejected one not at all. */
  lemma {:induction false} SelectMultiplicity(docs: seq<Document>, p: Document -> bool, d: Document)
    ensures multiset(Select(docs, p))[d] == (if p(d) then multiset(docs)[d] else 0)
    decreases |docs|
  {
    if |docs| > 0 {
      var init := docs[..|docs| - 1];
      SelectMultiplicity(init, p, d);
      assert docs == init + [docs[|docs| - 1]];
    }
  }

  /** When every document satisfies the predicate, nothing is dropped. */
  lemma {:induction false} SelectAll(docs: seq<Document>, p: Document -> bool)
    requires forall k :: 0 <= k < |docs| ==> p(docs[k])
    ensures Select(docs, p) == docs
    decreases |docs|
  {
    if |docs| > 0 {
      SelectAll(docs[..|docs| - 1], p);
    }
  }
}
