/**
 * peekingReader's scanning helpers, over the in-memory reader: read up to a delimiter, and skip
 * a run of bytes drawn from a set. The delimiter or the first byte not skipped stays unread.
 */
module PeekingRead {
  import opened GoStrings
  import opened Wrappers
  import opened PeekingMemReader

  /** The bytes SkipSpaces skips: NUL, tab, form feed, space, newline, carriage return. */
  const SpaceChars: seq<byte> := [0x00, 0x09, 0x0C, 0x20, 0x0A, 0x0D]

  /**
   * Consumes bytes up to (not including) the first byte that is in `endAtAny`, returning them;
   * EOF when the buffer ends first, in which case everything left has been returned.
   */
  method ReadUntilAny(r: MemReader, endAtAny: seq<byte>) returns (result: seq<byte>, err: Option<IoError>)
    requires r.Valid()
    modifies r
    ensures r.Valid()
    ensures result + r.Unread() == old(r.Unread())
    ensures forall k :: 0 <= k < |result| ==> result[k] !in endAtAny
    ensures err.Some? <==> r.Unread() == []
    ensures err.None? ==> r.Unread()[0] in endAtAny
  {
    result := [];
    while true
      invariant r.Valid()
      invariant result + r.Unread() == old(r.Unread())
      invariant forall k :: 0 <= k < |result| ==> result[k] !in endAtAny
      decreases |r.Unread()|
    {
      var p := r.Peek(1);
      if p.Err? {
        return result, Some(p.error);
      }
      if p.value[0] in endAtAny {
        return result, None;
      }
      var _, _ := r.ReadByte();
      result := result + [p.value[0]];
    }
  }

  /** ReadUntil: ReadUntilAny with a single delimiter. */
  method ReadUntil(r: MemReader, endAt: byte) returns (result: seq<byte>, err: Option<IoError>)
    requires r.Valid()
    modifies r
    ensures r.Valid()
    ensures result + r.Unread() == old(r.Unread())
    ensures endAt !in result
    ensures err.Some? <==> r.Unread() == []
    ensures err.None? ==> r.Unread()[0] == endAt
  {
    result, err := ReadUntilAny(r, [endAt]);
  }

  /**
   * Consumes the longest run of bytes that are all in `skip`; `found` says whether the run
   * was non-empty. EOF when the buffer ends inside (or at the start of) the run.
   */
  method SkipSubsequent(r: MemReader, skip: seq<byte>) returns (found: bool, err: Option<IoError>)
    requires r.Valid()
    modifies r
    ensures r.Valid()
    ensures |r.Unread()| <= |old(r.Unread())| && r.Unread() == old(r.Unread())[|old(r.Unread())| - |r.Unread()|..]
    ensures forall k :: 0 <= k < |old(r.Unread())| - |r.Unread()| ==> old(r.Unread())[k] in skip
    ensures found <==> |r.Unread()| < |old(r.Unread())|
    ensures err.Some? <==> r.Unread() == []
    ensures err.None? ==> r.Unread()[0] !in skip
  {
    found := false;
    while true
      invariant r.Valid()
      invariant |r.Unread()| <= |old(r.Unread())| && r.Unread() == old(r.Unread())[|old(r.Unread())| - |r.Unread()|..]
      invariant forall k :: 0 <= k < |old(r.Unread())| - |r.Unread()| ==> old(r.Unread())[k] in skip
      invariant found <==> |r.Unread()| < |old(r.Unread())|
      decreases |r.Unread()|
    {
      var b := r.Peek(1);
      if b.Err? {
        return found, Some(b.error);
      }
      var next := b.value[0];
      if next in skip {
        found := true;
        var _, _ := r.ReadByte();
        continue;
      }
      return found, None;
    }
  }

  /** SkipSpaces: SkipSubsequent over the space bytes, keeping only the error. */
  method SkipSpaces(r: MemReader) returns (err: Option<IoError>)
    requires r.Valid()
    modifies r
    ensures r.Valid()
    ensures |r.Unread()| <= |old(r.Unread())| && r.Unread() == old(r.Unread())[|old(r.Unread())| - |r.Unread()|..]
    ensures forall k :: 0 <= k < |old(r.Unread())| - |r.Unread()| ==> old(r.Unread())[k] in SpaceChars
    ensures err.Some? <==> r.Unread() == []
    ensures err.None? ==> r.Unread()[0] !in SpaceChars
  {
    var _, e := SkipSubsequent(r, SpaceChars);
    err := e;
  }
}
