/**
 * peekingReader's in-memory reader: a byte buffer and a read cursor. Peek looks ahead without
 * consuming; the Read* operations consume. Every operation keeps the unread part of the buffer
 * equal to a suffix of what was unread before, so no byte is ever lost or read twice.
 */
module PeekingMemReader {
  import opened GoStrings
  import opened Wrappers
  import opened Utf8

  datatype IoError = EOF

  class MemReader {
    const buf: seq<byte>
    var i: int

    predicate Valid() reads this {
      0 <= i <= |buf|
    }

    /** The bytes not yet consumed. */
    function Unread(): seq<byte>
      reads this
      requires Valid()
    {
      buf[i..]
    }

    /** NewMemReader: a reader positioned at the start of `b`. */
    constructor (b: seq<byte>)
      ensures Valid() && buf == b && Unread() == b
    {
      buf := b;
      i := 0;
    }

    /** The next `n` unread bytes, or EOF when fewer remain; nothing is consumed. */
    method Peek(n: int) returns (r: Result<seq<byte>, IoError>)
      requires Valid() && n >= 0
      ensures r.Err? <==> n > |Unread()|
      ensures r.Ok? ==> r.value == Unread()[..n]
    {
      if i + n > |buf| {
        return Err(EOF);
      }
      return Ok(buf[i..i + n]);
    }

    /** Consumes one rune: an ASCII byte alone, otherwise a two-byte UTF-8 decode. */
    method ReadRune() returns (r: int, size: int, err: Option<IoError>)
      requires Valid()
      requires i < |buf| && buf[i] >= RuneSelf ==> i + 2 <= |buf|
      modifies this
      ensures Valid()
      ensures err.Some? <==> old(Unread()) == []
      ensures err.Some? ==> r == 0 && size == 0 && i == old(i)
      ensures err.None? && old(buf[i]) < RuneSelf ==> r == old(buf[i]) && size == 1
      ensures err.None? && old(buf[i]) >= RuneSelf ==> (r, size) == DecodeTwo(old(buf[i]), old(buf[i + 1]))
      ensures Unread() == old(Unread())[size..]
    {
      if i + 1 > |buf| {
        return 0, 0, Some(EOF);
      }
      r, size := buf[i], 1;
      if r >= RuneSelf {
        var decoded := DecodeTwo(buf[i], buf[i + 1]);
        r, size := decoded.0, decoded.1;
      }
      i := i + size;
      err := None;
    }

    /** Consumes one byte, or reports EOF at the end of the buffer. */
    method ReadByte() returns (v: byte, err: Option<IoError>)
      requires Valid()
      modifies this
      ensures Valid()
      ensures err.Some? <==> old(Unread()) == []
      ensures err.Some? ==> v == 0 && Unread() == old(Unread())
      ensures err.None? ==> [v] + Unread() == old(Unread())
    {
      if i + 1 > |buf| {
        return 0, Some(EOF);
      }
      v := buf[i];
      i := i + 1;
      err := None;
    }

    /** Consumes exactly `size` bytes, or nothing and EOF when fewer remain. */
    method ReadBytes(size: int) returns (r: Result<seq<byte>, IoError>)
      requires Valid() && size >= 0
      modifies this
      ensures Valid()
      ensures r.Err? <==> size > |old(Unread())|
      ensures r.Err? ==> Unread() == old(Unread())
      ensures r.Ok? ==> |r.value| == size && r.value + Unread() == old(Unread())
    {
      if i + size > |buf| {
        return Err(EOF);
      }
      var v := buf[i..i + size];
      assert v + buf[i + size..] == buf[i..];
      i := i + size;
      return Ok(v);
    }

    /**
     * io.Reader: copies as many unread bytes as fit into `result`, EOF only when nothing is
     * left to read (an empty `result` reads 0 bytes without error).
     */
    method Read(result: array<byte>) returns (n: int, err: Option<IoError>)
      requires Valid()
      modifies this, result
      ensures Valid()
      ensures err.Some? <==> old(Unread()) == []
      ensures n == (if |old(Unread())| < result.Length then |old(Unread())| else result.Length)
      ensures result[..n] + Unread() == old(Unread())
      ensures result[n..] == old(result[n..])
    {
      if i == |buf| {
        return 0, Some(EOF);
      }
      var end := result.Length + i;
      if end > |buf| {
        end := |buf|;
      }
      var k := 0;
      while k < end - i
        invariant i == old(i) && i <= end <= |buf| && end - i <= result.Length
        invariant 0 <= k <= end - i
        invariant result[..k] == buf[i..i + k]
        invariant result[end - i..] == old(result[end - i..])
      {
        result[k] := buf[i + k];
        k := k + 1;
      }
      assert result[..end - i] + buf[end..] == buf[i..];
      n := end - i;
      i := end;
      err := None;
    }
  }
}
