/**
 * The metadata transformers of the ingestion pipeline: one that sets extra metadata on every
 * document, and one that applies a list of add / upsert / remove manipulations to every document.
 * The documents are the caller's slice, written in place; their metadata maps are modelled as
 * values, so a document's new metadata is written back into its slot.
 */
module MetadataTransformers {
  import opened Wrappers
  import opened DocTypes
  import opened GoStrings

  const ExtraMetadataName: string := "extra_metadata"
  const MetadataManipulatorName: string := "metadata"

  const OperatorAdd: string := "add"
  const OperatorUpsert: string := "upsert"
  const OperatorRemove: string := "remove"

  /** `m` with every entry of `extra` set, as a loop over `extra` in any order leaves it. */
  method SetAll(m: map<string, Any>, extra: map<string, Any>) returns (r: map<string, Any>)
    ensures r == m + extra
  {
    r := m;
    var todo := extra.Keys;
    while todo != {}
      invariant todo <= extra.Keys
      invariant r == m + map k | k in extra && k !in todo :: extra[k]
      decreases todo
    {
      var k :| k in todo;
      r := r[k := extra[k]];
      todo := todo - {k};
    }
  }

  /** What ExtraMetadata does to one document: its metadata with the extra entries set. */
  function WithExtra(d: Document, extra: map<string, Any>): Document {
    if d.metadata.None? then d else d.(metadata := Some(d.metadata.value + extra))
  }

  /**
   * ExtraMetadata.Transform: every document gets every extra entry. Writing into a nil metadata
   * map panics, so when there are extra entries every document must carry a map.
   */
  method ExtraMetadataTransform(extra: map<string, Any>, docs: array<Document>) returns (r: seq<Document>)
    requires extra != map[] ==> forall k :: 0 <= k < docs.Length ==> docs[k].metadata.Some?
    modifies docs
    ensures forall k :: 0 <= k < docs.Length ==> docs[k] == WithExtra(old(docs[k]), extra)
    ensures r == docs[..]
  {
    for i := 0 to docs.Length
      invariant forall k :: 0 <= k < i ==> docs[k] == WithExtra(old(docs[k]), extra)
      invariant forall k :: i <= k < docs.Length ==> docs[k] == old(docs[k])
    {
      var d := docs[i];
      if d.metadata.Some? {
        var m := SetAll(d.metadata.value, extra);
        docs[i] := d.(metadata := Some(m));
      }
    }
    r := docs[..];
  }

  /**
   * Extra metadata sets each of its keys to its value, keeps every other key of the document
   * as it was, and changes nothing but the metadata.
   */
  lemma ExtraMetadataSets(d: Document, extra: map<string, Any>)
    requires d.metadata.Some?
    ensures var e := WithExtra(d, extra);
      e.id == d.id && e.content == d.content && e.score == d.score && e.metadata.Some? &&
      e.metadata.value.Keys == d.metadata.value.Keys + extra.Keys &&
      (forall k :: k in extra ==> e.metadata.value[k] == extra[k]) &&
      (forall k :: k in d.metadata.value && k !in extra ==> e.metadata.value[k] == d.metadata.value[k])
  {
  }

  /** One metadata manipulation: an operator, a key and the value to set. */
  datatype Manipulation = Manipulation(operator: string, key: string, value: Any)

  function AlreadyExists(key: string): string {
    "metadata key " + Quote(key) + " already exists in document"
  }

  /** The map the manipulations left (when they stopped early: as they left it), and their error. */
  datatype Outcome = Outcome(entries: map<string, Any>, err: Option<string>)

  /**
   * The manipulations applied in order: "add" sets an absent key and fails on a present one,
   * "upsert" sets the key, "remove" deletes it, and any other operator does nothing.
   */
  function ApplyAll(m: map<string, Any>, ops: seq<Manipulation>): Outcome
    decreases |ops|
  {
    if |ops| == 0 then Outcome(m, None)
    else
      var op := ops[0];
      if op.operator == OperatorAdd && op.key in m then Outcome(m, Some(AlreadyExists(op.key)))
      else if op.operator == OperatorAdd || op.operator == OperatorUpsert then ApplyAll(m[op.key := op.value], ops[1..])
      else if op.operator == OperatorRemove then ApplyAll(m - {op.key}, ops[1..])
      else ApplyAll(m, ops[1..])
  }

  /**
   * What the manipulator does to one document: a nil map is replaced by an empty one, the
   * manipulations run on it, and the result is stored. When a manipulation fails, a map the
   * document already had keeps the changes made before the failure (it is the same map), while
   * a fresh map is dropped.
   */
  function Manipulate(d: Document, ops: seq<Manipulation>): (Document, Option<string>) {
    var o := ApplyAll(Entries(d.metadata), ops);
    if o.err.None? || d.metadata.Some? then (d.(metadata := Some(o.entries)), o.err) else (d, o.err)
  }

  /**
   * MetadataManipulator.Transform: the documents in order, each manipulated; at the first failure
   * the error is returned without documents, and the documents before it stay changed.
   */
  method ManipulatorTransform(ops: seq<Manipulation>, docs: array<Document>) returns (r: Result<seq<Document>, string>)
    modifies docs
    ensures r.Ok? <==> forall k :: 0 <= k < docs.Length ==> Manipulate(old(docs[k]), ops).1 == None
    ensures r.Ok? ==> r.value == docs[..] && forall k :: 0 <= k < docs.Length ==> docs[k] == Manipulate(old(docs[k]), ops).0
    ensures r.Err? ==>
      exists i :: 0 <= i < docs.Length &&
        (forall k :: 0 <= k < i ==> Manipulate(old(docs[k]), ops).1 == None && docs[k] == Manipulate(old(docs[k]), ops).0) &&
        Manipulate(old(docs[i]), ops) == (docs[i], Some(r.error)) &&
        (forall k :: i < k < docs.Length ==> docs[k] == old(docs[k]))
  {
    for i := 0 to docs.Length
      invariant forall k :: 0 <= k < i ==> Manipulate(old(docs[k]), ops).1 == None && docs[k] == Manipulate(old(docs[k]), ops).0
      invariant forall k :: i <= k < docs.Length ==> docs[k] == old(docs[k])
    {
      var d := docs[i];
      var o := ApplyManipulations(Entries(d.metadata), ops);
      if o.err.Some? {
        if d.metadata.Some? {
          docs[i] := d.(metadata := Some(o.entries));
        }
        return Err(o.err.value);
      }
      docs[i] := d.(metadata := Some(o.entries));
    }
    r := Ok(docs[..]);
  }

  /** The inner loop of the manipulator over one document's map. */
  method ApplyManipulations(m: map<string, Any>, ops: seq<Manipulation>) returns (o: Outcome)
    ensures o == ApplyAll(m, ops)
  {
    var entries := m;
    for j := 0 to |ops|
      invariant ApplyAll(entries, ops[j..]) == ApplyAll(m, ops)
    {
      assert ops[j..][1..] == ops[j + 1..];
      var op := ops[j];
      if op.operator == OperatorAdd {
        if op.key in entries {
          return Outcome(entries, Some(AlreadyExists(op.key)));
        }
        entries := entries[op.key := op.value];
      } else if op.operator == OperatorUpsert {
        entries := entries[op.key := op.value];
      } else if op.operator == OperatorRemove {
        entries := entries - {op.key};
      }
    }
    assert ops[|ops|..] == [];
    o := Outcome(entries, None);
  }

  /** Manipulations in sequence: the second list runs on what the first left, unless it failed. */
  lemma {:induction false} ApplyAllCompose(m: map<string, Any>, ops1: seq<Manipulation>, ops2: seq<Manipulation>)
    ensures ApplyAll(m, ops1 + ops2) ==
      (var first := ApplyAll(m, ops1); if first.err.Some? then first else ApplyAll(first.entries, ops2))
    decreases |ops1|
  {
    if |ops1| == 0 {
      assert ops1 + ops2 == ops2;
    } else {
      assert (ops1 + ops2)[0] == ops1[0];
      assert (ops1 + ops2)[1..] == ops1[1..] + ops2;
      var op := ops1[0];
      if op.operator == OperatorAdd && op.key in m {
      } else if op.operator == OperatorAdd || op.operator == OperatorUpsert {
        ApplyAllCompose(m[op.key := op.value], ops1[1..], ops2);
      } else if op.operator == OperatorRemove {
        ApplyAllCompose(m - {op.key}, ops1[1..], ops2);
      } else {
        ApplyAllCompose(m, ops1[1..], ops2);
      }
    }
  }

  /** Only "add" can fail, and only on a key that is already present. */
  lemma {:induction false} OnlyAddFails(m: map<string, Any>, ops: seq<Manipulation>)
    requires forall k :: 0 <= k < |ops| ==> ops[k].operator != OperatorAdd
    ensures ApplyAll(m, ops).err == None
    decreases |ops|
  {
    if |ops| > 0 {
      var op := ops[0];
      var next := if op.operator == OperatorUpsert then m[op.key := op.value] else if op.operator == OperatorRemove then m - {op.key} else m;
      OnlyAddFails(next, ops[1..]);
    }
  }

  /** Adding a key the map has fails with the error naming the key, and changes nothing. */
  lemma AddExistingFails(m: map<string, Any>, key: string, v: Any, rest: seq<Manipulation>)
    requires key in m
    ensures ApplyAll(m, [Manipulation(OperatorAdd, key, v)] + rest) == Outcome(m, Some(AlreadyExists(key)))
  {
  }

  /** A key no manipulation names keeps its presence and its value, even when a manipulation fails. */
  lemma {:induction false} UntouchedKeyKept(m: map<string, Any>, ops: seq<Manipulation>, key: string)
    requires forall k :: 0 <= k < |ops| ==> ops[k].key != key
    ensures key in ApplyAll(m, ops).entries <==> key in m
    ensures key in m ==> ApplyAll(m, ops).entries[key] == m[key]
    decreases |ops|
  {
    if |ops| > 0 {
      var op := ops[0];
      if op.operator == OperatorAdd && op.key in m {
      } else if op.operator == OperatorAdd || op.operator == OperatorUpsert {
        UntouchedKeyKept(m[op.key := op.value], ops[1..], key);
      } else if op.operator == OperatorRemove {
        UntouchedKeyKept(m - {op.key}, ops[1..], key);
      } else {
        UntouchedKeyKept(m, ops[1..], key);
      }
    }
  }

  /**
   * The last manipulation of a key decides it: after a successful run, an upsert that no later
   * manipulation of the same key follows leaves its value, and such a remove leaves the key absent.
   */
  lemma LastWriteWins(m: map<string, Any>, pre: seq<Manipulation>, op: Manipulation, post: seq<Manipulation>)
    requires op.operator == OperatorUpsert || op.operator == OperatorRemove
    requires forall k :: 0 <= k < |post| ==> post[k].key != op.key
    requires ApplyAll(m, pre + [op] + post).err == None
    ensures op.operator == OperatorUpsert ==>
      op.key in ApplyAll(m, pre + [op] + post).entries && ApplyAll(m, pre + [op] + post).entries[op.key] == op.value
    ensures op.operator == OperatorRemove ==> op.key !in ApplyAll(m, pre + [op] + post).entries
  {
    ApplyAllCompose(m, pre, [op] + post);
    assert pre + [op] + post == pre + ([op] + post);
    var first := ApplyAll(m, pre);
    var mid := if op.operator == OperatorUpsert then first.entries[op.key := op.value] else first.entries - {op.key};
    assert ([op] + post)[1..] == post;
    UntouchedKeyKept(mid, post, op.key);
  }

  /** A document without metadata gets an empty map even when there is nothing to do. */
  lemma NilMetadataBecomesEmpty(d: Document)
    requires d.metadata.None?
    ensures Manipulate(d, []) == (d.(metadata := Some(map[])), None)
  {
  }

  /** A failing manipulation on a document without metadata leaves that document as it was. */
  lemma FailureOnNilMetadataKeepsDocument(d: Document, ops: seq<Manipulation>)
    requires d.metadata.None?
    requires ApplyAll(map[], ops).err.Some?
    ensures Manipulate(d, ops).0 == d
  {
  }
}
