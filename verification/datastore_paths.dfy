/**
 * Where the index database and the vector database live. An empty setting falls back to a
 * default file under the user's data directory (whose lookup can fail, so it is given here as a
 * result); a setting carrying the archive prefix names an archive, and the prefix is stripped.
 * The archive prefix constant is not part of this model and is a parameter.
 */
module DatastorePaths {
  import opened Wrappers
  import opened GoStrings

  const SqliteScheme: string := "sqlite://"

  /** The DSN of the index, the vector database path, and whether either names an archive. */
  datatype Paths = Paths(dsn: string, vectorPath: string, isArchive: bool)

  /** strings.TrimPrefix. */
  function TrimPrefix(s: string, p: string): (r: string)
    ensures HasPrefix(s, p) ==> s == p + r
    ensures !HasPrefix(s, p) ==> r == s
  {
    if HasPrefix(s, p) then s[|p|..] else s
  }

  /** The DSN after the default and the archive rewrite. */
  function IndexDsn(dsn: string, archivePrefix: string, defaultIndex: string): string {
    var d := if dsn == "" then SqliteScheme + defaultIndex else dsn;
    if HasPrefix(d, archivePrefix) then SqliteScheme + TrimPrefix(d, archivePrefix) else d
  }

  /** The vector database path after the default and the archive rewrite. */
  function VectorPath(path: string, archivePrefix: string, defaultVector: string): string {
    var v := if path == "" then defaultVector else path;
    TrimPrefix(v, archivePrefix)
  }

  /**
   * GetDatastorePaths. `defaultIndex` and `defaultVector` are the default database files (or the
   * error looking them up); each is consulted only when its setting is empty.
   */
  function GetDatastorePaths(dsn: string, vectorPath: string, archivePrefix: string,
                             defaultIndex: Result<string, string>, defaultVector: Result<string, string>)
    : (r: Result<Paths, string>)
    ensures r.Err? <==> (dsn == "" && defaultIndex.Err?) || (vectorPath == "" && defaultVector.Err?)
    ensures dsn == "" && defaultIndex.Err? ==> r == Err(defaultIndex.error)
    ensures r.Ok? ==>
      (var d := if dsn == "" then SqliteScheme + defaultIndex.value else dsn;
       var v := if vectorPath == "" then defaultVector.value else vectorPath;
       (HasPrefix(d, archivePrefix) ==> HasPrefix(r.value.dsn, SqliteScheme) && d == archivePrefix + r.value.dsn[|SqliteScheme|..]) &&
       (!HasPrefix(d, archivePrefix) ==> r.value.dsn == d) &&
       (HasPrefix(v, archivePrefix) ==> v == archivePrefix + r.value.vectorPath) &&
       (!HasPrefix(v, archivePrefix) ==> r.value.vectorPath == v) &&
       (r.value.isArchive <==> HasPrefix(d, archivePrefix) || HasPrefix(v, archivePrefix)))
  {
    if dsn == "" && defaultIndex.Err? then Err(defaultIndex.error)
    else
      var d := if dsn == "" then SqliteScheme + defaultIndex.value else dsn;
      if vectorPath == "" && defaultVector.Err? then Err(defaultVector.error)
      else
        var v := if vectorPath == "" then defaultVector.value else vectorPath;
        Ok(Paths(IndexDsn(dsn, archivePrefix, Unwrap(defaultIndex)), VectorPath(vectorPath, archivePrefix, Unwrap(defaultVector)),
                 HasPrefix(d, archivePrefix) || HasPrefix(v, archivePrefix)))
  }

  /** The value of a result, or "" for an error (never used on that path). */
  function Unwrap(r: Result<string, string>): string {
    if r.Ok? then r.value else ""
  }

  /** Settings that are given and carry no archive prefix come back as they are. */
  lemma PlainSettingsUnchanged(dsn: string, vectorPath: string, archivePrefix: string,
                               defaultIndex: Result<string, string>, defaultVector: Result<string, string>)
    requires dsn != "" && vectorPath != ""
    requires !HasPrefix(dsn, archivePrefix) && !HasPrefix(vectorPath, archivePrefix)
    ensures GetDatastorePaths(dsn, vectorPath, archivePrefix, defaultIndex, defaultVector) == Ok(Paths(dsn, vectorPath, false))
  {
  }

  /** An archive location, once prefixed, is read back as a sqlite DSN and a plain path. */
  lemma ArchiveRoundTrip(index: string, vector: string, archivePrefix: string,
                         defaultIndex: Result<string, string>, defaultVector: Result<string, string>)
    requires archivePrefix != ""
    ensures GetDatastorePaths(archivePrefix + index, archivePrefix + vector, archivePrefix, defaultIndex, defaultVector)
      == Ok(Paths(SqliteScheme + index, vector, true))
  {
    assert (archivePrefix + index)[..|archivePrefix|] == archivePrefix;
    assert (archivePrefix + index)[|archivePrefix|..] == index;
    assert (archivePrefix + vector)[..|archivePrefix|] == archivePrefix;
    assert (archivePrefix + vector)[|archivePrefix|..] == vector;
  }

  /** Without settings the defaults are used: the index as a sqlite DSN, the vectors as a path. */
  lemma DefaultsUsed(archivePrefix: string, indexFile: string, vectorFile: string)
    requires !HasPrefix(SqliteScheme + indexFile, archivePrefix) && !HasPrefix(vectorFile, archivePrefix)
    ensures GetDatastorePaths("", "", archivePrefix, Ok(indexFile), Ok(vectorFile))
      == Ok(Paths(SqliteScheme + indexFile, vectorFile, false))
  {
  }
}
