/**
 * The metadata of an index dataset. Every operation ends by cleaning the map: entries whose value
 * is nil or prints (with %v) as "", "-", "null" or "nil" are deleted, so such a value never stays.
 */
module DatasetMetadata {
  import opened Wrappers
  import opened DocTypes

  /** The printed forms that count as no value. */
  const JunkTexts: set<string> := {"", "-", "null", "nil"}

  /** A value cleaning deletes. */
  predicate Junk(v: Any) {
    v.Nil? || Format(v) in JunkTexts
  }

  /** The entries of `m` that cleaning keeps. */
  function Cleaned(m: map<string, Any>): (r: map<string, Any>)
    ensures forall k :: k in r <==> k in m && !Junk(m[k])
    ensures forall k :: k in r ==> r[k] == m[k]
  {
    map k | k in m && !Junk(m[k]) :: m[k]
  }

  /** Cleaning a possibly nil map: a nil map stays nil. */
  function CleanMetadata(m: Metadata): (r: Metadata)
    ensures r.None? <==> m.None?
    ensures r.Some? ==> r.value == Cleaned(m.value)
  {
    if m.None? then None else Some(Cleaned(m.value))
  }

  /** A dataset of the index, with its metadata (nil when never set). */
  class Dataset {
    const id: string
    var metadata: Metadata

    constructor (id: string)
      ensures this.id == id && metadata == None
    {
      this.id := id;
      metadata := None;
    }

    /** Deleting the junk entries while iterating over the map. */
    method Clean()
      modifies this
      ensures metadata == CleanMetadata(old(metadata))
    {
      if metadata.None? {
        return;
      }
      var m := metadata.value;
      var todo := m.Keys;
      while todo != {}
        invariant todo <= m.Keys
        invariant metadata.Some?
        invariant metadata.value == map k | k in m && (k in todo || !Junk(m[k])) :: m[k]
        decreases todo
      {
        var k :| k in todo;
        if Junk(m[k]) {
          metadata := Some(metadata.value - {k});
        }
        todo := todo - {k};
      }
      assert metadata.value == Cleaned(m);
    }

    /** SetMetadataField: creates the map when nil, sets the key, then cleans. */
    method SetMetadataField(key: string, value: Any)
      modifies this
      ensures metadata == Some(Cleaned(Entries(old(metadata))[key := value]))
    {
      if metadata.None? {
        metadata := Some(map[]);
      }
      metadata := Some(metadata.value[key := value]);
      Clean();
    }

    /** ReplaceMetadata: the given map (possibly nil), cleaned; nothing of the old one remains. */
    method ReplaceMetadata(m: Metadata)
      modifies this
      ensures metadata == CleanMetadata(m)
    {
      metadata := m;
      Clean();
    }

    /** UpdateMetadata: every given entry is set (each set cleans), then the map is cleaned once more. */
    method UpdateMetadata(m: Metadata)
      modifies this
      ensures metadata == if Entries(m) == map[] then CleanMetadata(old(metadata))
                          else Some(Cleaned(Entries(old(metadata)) + Entries(m)))
    {
      var given := Entries(m);
      var todo := given.Keys;
      ghost var start := metadata;
      DoneNone(given);
      while todo != {}
        invariant todo <= given.Keys
        invariant metadata == Progress(start, Done(given, todo))
        decreases todo
      {
        var k :| k in todo;
        ghost var done := Done(given, todo);
        SetMetadataField(k, given[k]);
        ProgressStep(start, done, k, given[k]);
        DoneStep(given, todo, k);
        assert k in done[k := given[k]];
        assert metadata == Progress(start, done[k := given[k]]);
        todo := todo - {k};
      }
      DoneAll(given);
      if given != map[] {
        CleanIdempotent(Entries(start) + given);
      }
      Clean();
    }
  }

  /** The entries of `given` whose keys are no longer to do. */
  function Done(given: map<string, Any>, todo: set<string>): map<string, Any> {
    map j | j in given && j !in todo :: given[j]
  }

  lemma DoneNone(given: map<string, Any>)
    ensures Done(given, given.Keys) == map[]
  {
  }

  lemma DoneAll(given: map<string, Any>)
    ensures Done(given, {}) == given
  {
  }

  lemma DoneStep(given: map<string, Any>, todo: set<string>, k: string)
    requires k in todo && k in given
    ensures Done(given, todo)[k := given[k]] == Done(given, todo - {k})
  {
  }

  /** The metadata once the entries `done` have been set one by one, starting from `start`. */
  function Progress(start: Metadata, done: map<string, Any>): Metadata {
    if done == map[] then start else Some(Cleaned(Entries(start) + done))
  }

  /** Setting one more entry (which cleans) moves the progress on by that entry. */
  lemma ProgressStep(start: Metadata, done: map<string, Any>, k: string, v: Any)
    ensures Cleaned(Entries(Progress(start, done))[k := v]) == Cleaned(Entries(start) + done[k := v])
  {
    if done == map[] {
      assert Entries(start) + done[k := v] == Entries(start)[k := v];
    } else {
      CleanThenSet(Entries(start) + done, k, v);
      assert (Entries(start) + done)[k := v] == Entries(start) + done[k := v];
    }
  }

  /** Cleaning before setting a key changes nothing, since the set key is judged afresh. */
  lemma CleanThenSet(m: map<string, Any>, key: string, v: Any)
    ensures Cleaned(Cleaned(m)[key := v]) == Cleaned(m[key := v])
  {
  }

  /** Cleaning twice is cleaning once. */
  lemma CleanIdempotent(m: map<string, Any>)
    ensures Cleaned(Cleaned(m)) == Cleaned(m)
  {
  }

  /** After cleaning, no value is nil or prints as "", "-", "null" or "nil". */
  lemma CleanedHasNoJunk(m: map<string, Any>)
    ensures forall k :: k in Cleaned(m) ==> !Junk(Cleaned(m)[k])
  {
  }

  /** Setting a key to a junk value deletes it, whatever it held before. */
  lemma SetJunkDeletes(m: Metadata, key: string, v: Any)
    requires Junk(v)
    ensures key !in Cleaned(Entries(m)[key := v])
  {
  }

  /** Setting a key to a proper value stores exactly that value and keeps the other proper entries. */
  lemma SetProperStores(m: Metadata, key: string, v: Any)
    requires !Junk(v)
    ensures var r := Cleaned(Entries(m)[key := v]);
      key in r && r[key] == v &&
      forall k :: k != key ==> (k in r <==> k in Entries(m) && !Junk(Entries(m)[k]))
  {
  }

  /** Updating keeps the proper entries the update does not name, and sets the proper ones it does. */
  lemma UpdateKeepsOthers(old_: Metadata, m: Metadata, key: string)
    requires Entries(m) != map[]
    ensures var r := Cleaned(Entries(old_) + Entries(m));
      (key !in Entries(m) ==> (key in r <==> key in Entries(old_) && !Junk(Entries(old_)[key]))) &&
      (key in Entries(m) ==> (key in r <==> !Junk(Entries(m)[key])))
  {
  }

  /** Examples of junk and proper values. */
  lemma JunkSamples()
    ensures Junk(Nil) && Junk(Str("")) && Junk(Str("-")) && Junk(Str("null")) && Junk(Str("nil"))
    ensures !Junk(Str("none")) && !Junk(Bool(false))
  {
  }
}
