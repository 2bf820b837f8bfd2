/**
 * The bookkeeping of the index next to the vector store: deleting a document or a file (with its
 * documents), pruning files under a path, finding a file, and deciding whether an incoming file
 * is a duplicate. The index database is modelled as in-memory tables keyed like its primary
 * keys (a file by ID and dataset; a document row by ID, dataset and file ID), and the vector
 * store as the set of (document ID, dataset) pairs it holds. Vector-store failures are given
 * by a parameter: the error the store reports when asked to remove a document, if any.
 */
module IndexStore {
  import opened Wrappers
  import opened GoStrings

  /** The primary key of a file. */
  datatype FileKey = FileKey(id: string, dataset: string)

  /** The metadata columns of a file; times are instants on one integer clock. */
  datatype FileMeta = FileMeta(name: string, absolutePath: string, size: int, modifiedAt: int)

  /** A document row: all of its columns form its primary key. */
  datatype DocRow = DocRow(id: string, dataset: string, fileID: string)

  /** An entry of the vector store. */
  datatype VecKey = VecKey(id: string, dataset: string)

  /** A file as FindFile and PruneFiles return it. */
  datatype FileRecord = FileRecord(key: FileKey, meta: FileMeta)
  datatype FoundFile = FoundFile(key: FileKey, meta: FileMeta, documents: set<DocRow>)

  const DocumentNotFound: string := "document not found in database"
  const FileNotFound: string := "file not found in database"

  function VectorStoreError(e: string): string {
    "failed to remove document from VectorStore: " + e
  }

  /** The document rows a file owns: same file ID and same dataset. */
  function FileDocs(docs: set<DocRow>, key: FileKey): set<DocRow> {
    set d | d in docs && d.fileID == key.id && d.dataset == key.dataset
  }

  /** The document rows owned by any of the given files. */
  function DocsOf(docs: set<DocRow>, keys: set<FileKey>): set<DocRow> {
    set d | d in docs && FileKey(d.fileID, d.dataset) in keys
  }

  /** The vector-store entries of the given rows, in the given dataset. */
  function VectorKeys(rows: set<DocRow>, dataset: string): set<VecKey> {
    set d | d in rows :: VecKey(d.id, dataset)
  }

  predicate NoFailures(rows: set<DocRow>, vsFails: string -> Option<string>) {
    forall d :: d in rows ==> vsFails(d.id).None?
  }

  /** The files of a dataset whose path starts with the prefix and is not kept. */
  function PruneCandidates(files: map<FileKey, FileMeta>, datasetID: string, pathPrefix: string, keep: seq<string>): set<FileKey> {
    set k | k in files && k.dataset == datasetID && HasPrefix(files[k].absolutePath, pathPrefix) && files[k].absolutePath !in keep
  }

  /** A file of the dataset with the same path, size and modification time. */
  predicate SameFile(files: map<FileKey, FileMeta>, k: FileKey, datasetID: string, meta: FileMeta)
    requires k in files
  {
    k.dataset == datasetID && files[k].absolutePath == meta.absolutePath &&
    files[k].size == meta.size && files[k].modifiedAt == meta.modifiedAt
  }

  predicate AtPath(files: map<FileKey, FileMeta>, datasetID: string, path: string) {
    exists k :: k in files && k.dataset == datasetID && files[k].absolutePath == path
  }

  /** The registered deduplication functions. */
  datatype Deduper = ByFileMetadata | Dummy | Upsert

  /** IsDuplicateFuncs: the names of the deduplication functions. */
  function IsDuplicateFunc(name: string): (r: Option<Deduper>)
    ensures r.Some? <==> name in {"file_metadata", "dummy", "none", "ignore", "upsert"}
    ensures r == Some(Dummy) <==> name in {"dummy", "none", "ignore"}
  {
    if name == "file_metadata" then Some(ByFileMetadata)
    else if name == "dummy" || name == "none" || name == "ignore" then Some(Dummy)
    else if name == "upsert" then Some(Upsert)
    else None
  }

  /** DummyDedupe: nothing is a duplicate. */
  function DummyDedupe(): bool {
    false
  }

  class Datastore {
    var files: map<FileKey, FileMeta>
    var documents: set<DocRow>
    var vectors: set<VecKey>

    constructor ()
      ensures files == map[] && documents == {} && vectors == {}
    {
      files := map[];
      documents := {};
      vectors := {};
    }

    /**
     * DeleteDocument: a row with that ID in that dataset is looked up (a missing one is an error
     * and changes nothing); the vector store removes the document (its failure changes nothing
     * either); the row is deleted; and when no row of any dataset refers to its file ID any more,
     * every file with that ID is deleted.
     */
    method DeleteDocument(documentID: string, datasetID: string, vsFailure: Option<string>) returns (err: Option<string>)
      modifies this
      ensures (forall d :: d in old(documents) ==> d.id != documentID || d.dataset != datasetID) ==>
        err == Some(DocumentNotFound) && unchanged(this)
      ensures vsFailure.Some? ==> unchanged(this) && err.Some?
      ensures (exists d :: d in old(documents) && d.id == documentID && d.dataset == datasetID) && vsFailure.Some? ==>
        err == Some(VectorStoreError(vsFailure.value))
      ensures err.None? ==>
        exists d :: d in old(documents) && d.id == documentID && d.dataset == datasetID &&
          documents == old(documents) - {d} &&
          vectors == old(vectors) - {VecKey(documentID, datasetID)} &&
          files == if exists e :: e in documents && e.fileID == d.fileID then old(files)
                   else map k | k in old(files) && k.id != d.fileID :: old(files)[k]
      ensures err.None? <==> vsFailure.None? && exists d :: d in old(documents) && d.id == documentID && d.dataset == datasetID
    {
      if !exists d :: d in documents && d.id == documentID && d.dataset == datasetID {
        return Some(DocumentNotFound);
      }
      var document :| document in documents && document.id == documentID && document.dataset == datasetID;
      if vsFailure.Some? {
        return Some(VectorStoreError(vsFailure.value));
      }
      vectors := vectors - {VecKey(documentID, datasetID)};
      documents := documents - {document};
      if !exists e :: e in documents && e.fileID == document.fileID {
        files := map k | k in files && k.id != document.fileID :: files[k];
      }
      err := None;
    }

    /**
     * DeleteFile: the file with that ID in that dataset is looked up (a missing one is an error
     * and changes nothing); each document it owns is removed from the vector store and its row
     * deleted; then the file is deleted. The first vector-store failure stops it, and what was
     * deleted before stays deleted.
     */
    method DeleteFile(datasetID: string, fileID: string, vsFails: string -> Option<string>) returns (err: Option<string>)
      modifies this
      ensures FileKey(fileID, datasetID) !in old(files) ==> err == Some(FileNotFound) && unchanged(this)
      ensures FileKey(fileID, datasetID) in old(files) && NoFailures(FileDocs(old(documents), FileKey(fileID, datasetID)), vsFails) ==>
        err == None &&
        files == old(files) - {FileKey(fileID, datasetID)} &&
        documents == old(documents) - FileDocs(old(documents), FileKey(fileID, datasetID)) &&
        vectors == old(vectors) - VectorKeys(FileDocs(old(documents), FileKey(fileID, datasetID)), datasetID)
      ensures FileKey(fileID, datasetID) in old(files) && !NoFailures(FileDocs(old(documents), FileKey(fileID, datasetID)), vsFails) ==>
        files == old(files) &&
        (exists d :: d in FileDocs(old(documents), FileKey(fileID, datasetID)) && d in documents &&
           vsFails(d.id).Some? && err == Some(VectorStoreError(vsFails(d.id).value))) &&
        (exists removed :: removed <= FileDocs(old(documents), FileKey(fileID, datasetID)) &&
           documents == old(documents) - removed && vectors == old(vectors) - VectorKeys(removed, datasetID))
    {
      var key := FileKey(fileID, datasetID);
      if key !in files {
        return Some(FileNotFound);
      }
      var owned := FileDocs(documents, key);
      var todo := owned;
      ghost var removed: set<DocRow> := {};
      while todo != {}
        invariant todo <= owned && removed == owned - todo
        invariant files == old(files)
        invariant documents == old(documents) - removed
        invariant vectors == old(vectors) - VectorKeys(removed, datasetID)
        invariant NoFailures(removed, vsFails)
        decreases todo
      {
        var doc :| doc in todo;
        var e := vsFails(doc.id);
        if e.Some? {
          assert doc in documents;
          return Some(VectorStoreError(e.value));
        }
        assert VectorKeys(removed + {doc}, datasetID) == VectorKeys(removed, datasetID) + {VecKey(doc.id, datasetID)};
        vectors := vectors - {VecKey(doc.id, datasetID)};
        documents := documents - {doc};
        removed := removed + {doc};
        todo := todo - {doc};
      }
      files := files - {key};
      err := None;
    }

    /**
     * PruneFiles: every file of the dataset under the path prefix whose path is not kept is
     * deleted with its documents, and the deleted files are returned (in no particular order).
     * The first vector-store failure stops the pruning; the files deleted before it stay deleted.
     */
    method PruneFiles(datasetID: string, pathPrefix: string, keep: seq<string>, vsFails: string -> Option<string>)
      returns (r: Result<seq<FileRecord>, string>)
      modifies this
      ensures var candidates := PruneCandidates(old(files), datasetID, pathPrefix, keep);
        r.Ok? <==> forall k :: k in candidates ==> NoFailures(FileDocs(old(documents), k), vsFails)
      ensures var candidates := PruneCandidates(old(files), datasetID, pathPrefix, keep);
        r.Ok? ==>
          |r.value| == |candidates| && KeysOf(r.value) == candidates && Recorded(r.value, old(files)) &&
          files == old(files) - candidates &&
          documents == old(documents) - DocsOf(old(documents), candidates) &&
          vectors == old(vectors) - VectorKeys(DocsOf(old(documents), candidates), datasetID)
      ensures r.Err? ==>
        exists done, k, removed :: done <= PruneCandidates(old(files), datasetID, pathPrefix, keep) &&
          k in PruneCandidates(old(files), datasetID, pathPrefix, keep) &&
          StoppedAt(old(files), old(documents), old(vectors), done, k, removed, datasetID, vsFails, r.error)
    {
      var candidates := PruneCandidates(files, datasetID, pathPrefix, keep);
      r := DeleteFiles(candidates, datasetID, vsFails);
      if r.Ok? {
        DistinctCount(r.value);
      }
    }

    /** The deleting loop of PruneFiles, over the chosen files of one dataset. */
    method DeleteFiles(keys: set<FileKey>, datasetID: string, vsFails: string -> Option<string>)
      returns (r: Result<seq<FileRecord>, string>)
      requires keys <= files.Keys
      requires forall k :: k in keys ==> k.dataset == datasetID
      modifies this
      ensures r.Ok? <==> forall k :: k in keys ==> NoFailures(FileDocs(old(documents), k), vsFails)
      ensures r.Ok? ==>
        KeysOf(r.value) == keys && Distinct(r.value) && Recorded(r.value, old(files)) &&
        PrunedTo(old(files), old(documents), old(vectors), keys, datasetID)
      ensures r.Err? ==>
        exists done, k, removed :: done <= keys && k in keys &&
          StoppedAt(old(files), old(documents), old(vectors), done, k, removed, datasetID, vsFails, r.error)
    {
      ghost var files0, docs0, vecs0 := files, documents, vectors;
      var todo := keys;
      var out: seq<FileRecord> := [];
      ghost var done: set<FileKey> := {};
      while todo != {}
        invariant todo <= keys && done == keys - todo
        invariant PrunedTo(files0, docs0, vecs0, done, datasetID)
        invariant forall k :: k in done ==> NoFailures(FileDocs(docs0, k), vsFails)
        invariant KeysOf(out) == done && Distinct(out) && Recorded(out, files0)
        decreases todo
      {
        var k :| k in todo;
        var meta := files[k];
        var e := PruneOne(k, datasetID, vsFails, files0, docs0, vecs0, done);
        if e.Some? {
          ghost var removed :| StoppedAt(files0, docs0, vecs0, done, k, removed, datasetID, vsFails, e.value);
          assert done <= keys && k in keys;
          return Err(e.value);
        }
        AppendRecord(out, files0, FileRecord(k, meta));
        out := out + [FileRecord(k, meta)];
        done := done + {k};
        todo := todo - {k};
      }
      r := Ok(out);
    }

    /**
     * The state after deleting the files `done` (with their document rows and vector entries)
     * from the state `files0`, `docs0`, `vecs0`.
     */
    ghost predicate PrunedTo(files0: map<FileKey, FileMeta>, docs0: set<DocRow>, vecs0: set<VecKey>, done: set<FileKey>, datasetID: string)
      reads this
    {
      files == files0 - done &&
      documents == docs0 - DocsOf(docs0, done) &&
      vectors == vecs0 - VectorKeys(DocsOf(docs0, done), datasetID)
    }

    /**
     * The state a pruning leaves when the vector store fails on file `k`: the files `done` are
     * deleted with all their rows and vector entries, the documents `removed` of `k` are deleted
     * too, `k` itself stays, and the error is the vector store's for a document of `k` still present.
     */
    ghost predicate StoppedAt(files0: map<FileKey, FileMeta>, docs0: set<DocRow>, vecs0: set<VecKey>, done: set<FileKey>,
                              k: FileKey, removed: set<DocRow>, datasetID: string, vsFails: string -> Option<string>, error: string)
      reads this
    {
      k !in done && removed <= FileDocs(docs0, k) &&
      files == files0 - done &&
      documents == docs0 - DocsOf(docs0, done) - removed &&
      vectors == vecs0 - VectorKeys(DocsOf(docs0, done), datasetID) - VectorKeys(removed, datasetID) &&
      exists d :: d in FileDocs(docs0, k) - removed && vsFails(d.id).Some? && error == VectorStoreError(vsFails(d.id).value)
    }

    /** One file of PruneFiles: deleted with its rows, or the vector store's error. */
    method PruneOne(k: FileKey, datasetID: string, vsFails: string -> Option<string>,
                    ghost files0: map<FileKey, FileMeta>, ghost docs0: set<DocRow>, ghost vecs0: set<VecKey>, ghost done: set<FileKey>)
      returns (err: Option<string>)
      requires k in files0 && k !in done && k.dataset == datasetID
      requires PrunedTo(files0, docs0, vecs0, done, datasetID)
      modifies this
      ensures err.None? <==> NoFailures(FileDocs(docs0, k), vsFails)
      ensures err.None? ==> PrunedTo(files0, docs0, vecs0, done + {k}, datasetID)
      ensures err.Some? ==> exists removed :: StoppedAt(files0, docs0, vecs0, done, k, removed, datasetID, vsFails, err.value)
    {
      PruneStep(docs0, vecs0, done, k, datasetID);
      assert k == FileKey(k.id, datasetID);
      err := DeleteFile(datasetID, k.id, vsFails);
      if err.Some? {
        ghost var removed :| removed <= FileDocs(docs0, k) &&
          documents == old(documents) - removed && vectors == old(vectors) - VectorKeys(removed, datasetID);
        ghost var d :| d in FileDocs(docs0, k) && d in documents && vsFails(d.id).Some? &&
          err == Some(VectorStoreError(vsFails(d.id).value));
        assert StoppedAt(files0, docs0, vecs0, done, k, removed, datasetID, vsFails, err.value);
      }
    }

    /**
     * FindFile: the dataset is required; a file ID is looked up in preference to a path; with
     * neither there is nothing to look up. The file comes with the document rows it owns. Among
     * several files of the dataset at one path, any may be returned.
     */
    method FindFile(id: string, dataset: string, absolutePath: string) returns (r: Result<FoundFile, string>)
      ensures dataset == "" ==> r == Err("dataset must be provided")
      ensures dataset != "" && id != "" ==>
        (r.Ok? <==> FileKey(id, dataset) in files) &&
        (r.Ok? ==> r.value == FoundFile(FileKey(id, dataset), files[FileKey(id, dataset)], FileDocs(documents, FileKey(id, dataset)))) &&
        (r.Err? ==> r.error == FileNotFound)
      ensures dataset != "" && id == "" && absolutePath != "" ==>
        (r.Ok? <==> AtPath(files, dataset, absolutePath)) &&
        (r.Ok? ==> r.value.key in files && r.value.key.dataset == dataset && r.value.meta == files[r.value.key] &&
                   r.value.meta.absolutePath == absolutePath && r.value.documents == FileDocs(documents, r.value.key)) &&
        (r.Err? ==> r.error == FileNotFound)
      ensures dataset != "" && id == "" && absolutePath == "" ==> r == Err("either fileID or fileAbsPath must be provided")
    {
      if dataset == "" {
        return Err("dataset must be provided");
      }
      if id != "" {
        var key := FileKey(id, dataset);
        if key !in files {
          return Err(FileNotFound);
        }
        return Ok(FoundFile(key, files[key], FileDocs(documents, key)));
      } else if absolutePath != "" {
        if !AtPath(files, dataset, absolutePath) {
          return Err(FileNotFound);
        }
        var key :| key in files && key.dataset == dataset && files[key].absolutePath == absolutePath;
        return Ok(FoundFile(key, files[key], FileDocs(documents, key)));
      }
      r := Err("either fileID or fileAbsPath must be provided");
    }

    /** DedupeByFileMetadata: counts the files of the dataset with the same path, size and modification time. */
    method DedupeByFileMetadata(datasetID: string, meta: FileMeta) returns (duplicate: bool)
      ensures duplicate <==> exists k :: k in files && SameFile(files, k, datasetID, meta)
    {
      var count := 0;
      var todo := files.Keys;
      while todo != {}
        invariant todo <= files.Keys
        invariant count >= 0
        invariant count > 0 <==> exists k :: k in files && k !in todo && SameFile(files, k, datasetID, meta)
        decreases todo
      {
        var k :| k in todo;
        if SameFile(files, k, datasetID, meta) {
          count := count + 1;
        }
        todo := todo - {k};
      }
      duplicate := count > 0;
    }

    /**
     * DedupeUpsert: a file of the dataset at the same path is looked up. None (or one with an
     * empty ID) means "not a duplicate". One strictly older than the incoming file is deleted and
     * the incoming one is not a duplicate; otherwise it is a duplicate and nothing changes.
     */
    method DedupeUpsert(datasetID: string, meta: FileMeta, vsFails: string -> Option<string>) returns (r: Result<bool, string>)
      modifies this
      ensures !AtPath(old(files), datasetID, meta.absolutePath) ==> r == Ok(false) && unchanged(this)
      ensures AtPath(old(files), datasetID, meta.absolutePath) ==>
        exists k :: k in old(files) && k.dataset == datasetID && old(files)[k].absolutePath == meta.absolutePath &&
          (k.id == "" ==> r == Ok(false) && unchanged(this)) &&
          (k.id != "" && old(files)[k].modifiedAt >= meta.modifiedAt ==> r == Ok(true) && unchanged(this)) &&
          (k.id != "" && old(files)[k].modifiedAt < meta.modifiedAt ==>
             (r.Ok? <==> NoFailures(FileDocs(old(documents), k), vsFails)) &&
             (r.Ok? ==>
                r.value == false && files == old(files) - {k} && documents == old(documents) - FileDocs(old(documents), k) &&
                vectors == old(vectors) - VectorKeys(FileDocs(old(documents), k), datasetID)) &&
             (r.Err? ==>
                files == old(files) &&
                exists removed :: removed <= FileDocs(old(documents), k) &&
                  documents == old(documents) - removed && vectors == old(vectors) - VectorKeys(removed, datasetID)))
    {
      if !AtPath(files, datasetID, meta.absolutePath) {
        return Ok(false);
      }
      var k :| k in files && k.dataset == datasetID && files[k].absolutePath == meta.absolutePath;
      if k.id == "" {
        return Ok(false);
      }
      if files[k].modifiedAt < meta.modifiedAt {
        var e := DeleteFile(datasetID, k.id, vsFails);
        if e.Some? {
          return Err(e.value);
        }
        return Ok(false);
      }
      r := Ok(true);
    }
  }

  /** The keys of a list of file records. */
  function KeysOf(out: seq<FileRecord>): set<FileKey> {
    if out == [] then {} else KeysOf(out[..|out| - 1]) + {out[|out| - 1].key}
  }

  /** No two records of the list are for the same file. */
  predicate Distinct(out: seq<FileRecord>) {
    out == [] || (Distinct(out[..|out| - 1]) && out[|out| - 1].key !in KeysOf(out[..|out| - 1]))
  }

  /** Every record carries the metadata `files` holds for its key. */
  predicate Recorded(out: seq<FileRecord>, files: map<FileKey, FileMeta>) {
    forall i :: 0 <= i < |out| ==> out[i].key in files && out[i].meta == files[out[i].key]
  }

  /** Appending the record of a file not yet listed adds its key and keeps the records faithful and one per file. */
  lemma AppendRecord(out: seq<FileRecord>, files: map<FileKey, FileMeta>, x: FileRecord)
    requires Distinct(out) && Recorded(out, files)
    requires x.key in files && x.meta == files[x.key] && x.key !in KeysOf(out)
    ensures KeysOf(out + [x]) == KeysOf(out) + {x.key}
    ensures Distinct(out + [x]) && Recorded(out + [x], files)
  {
    assert (out + [x])[..|out|] == out;
  }

  /** A list of records, one per file, has as many records as files. */
  lemma {:induction false} DistinctCount(out: seq<FileRecord>)
    requires Distinct(out)
    ensures |KeysOf(out)| == |out|
  {
    if out != [] {
      DistinctCount(out[..|out| - 1]);
    }
  }

  /** One file more deleted by PruneFiles: its documents are those it owned at the start. */
  lemma PruneStep(docs: set<DocRow>, vectors: set<VecKey>, done: set<FileKey>, k: FileKey, dataset: string)
    requires k !in done
    ensures FileDocs(docs - DocsOf(docs, done), k) == FileDocs(docs, k)
    ensures (docs - DocsOf(docs, done)) - FileDocs(docs, k) == docs - DocsOf(docs, done + {k})
    ensures (vectors - VectorKeys(DocsOf(docs, done), dataset)) - VectorKeys(FileDocs(docs, k), dataset) ==
      vectors - VectorKeys(DocsOf(docs, done + {k}), dataset)
  {
    assert DocsOf(docs, done + {k}) == DocsOf(docs, done) + FileDocs(docs, k);
    assert VectorKeys(DocsOf(docs, done + {k}), dataset) ==
      VectorKeys(DocsOf(docs, done), dataset) + VectorKeys(FileDocs(docs, k), dataset);
  }

  /** Deleting a file with no documents never fails, whatever the vector store would report. */
  lemma EmptyFileDeletesCleanly(docs: set<DocRow>, key: FileKey, vsFails: string -> Option<string>)
    requires forall d :: d in docs ==> d.fileID != key.id || d.dataset != key.dataset
    ensures FileDocs(docs, key) == {} && NoFailures(FileDocs(docs, key), vsFails)
  {
  }

  /** The documents of distinct files are disjoint, so deleting one file's documents leaves another's. */
  lemma FileDocsDisjoint(docs: set<DocRow>, a: FileKey, b: FileKey)
    requires a != b
    ensures FileDocs(docs, a) !! FileDocs(docs, b)
    ensures FileDocs(docs - FileDocs(docs, a), b) == FileDocs(docs, b)
  {
  }

  /** The registry's names; the three aliases select the dummy. */
  lemma DedupeRegistry()
    ensures IsDuplicateFunc("file_metadata") == Some(ByFileMetadata) && IsDuplicateFunc("upsert") == Some(Upsert)
    ensures IsDuplicateFunc("none") == Some(Dummy) && IsDuplicateFunc("ignore") == Some(Dummy)
    ensures IsDuplicateFunc("") == None && !DummyDedupe()
  {
  }
}
