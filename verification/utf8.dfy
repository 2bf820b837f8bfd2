/** The parts of Go's unicode/utf8 package the model needs: one- and two-byte runes. */
module Utf8 {
  import opened GoStrings

  /** utf8.RuneSelf: bytes below it are single-byte runes. */
  const RuneSelf := 0x80
  /** utf8.RuneError, the replacement character U+FFFD. */
  const RuneError := 0xFFFD

  /**
   * utf8.DecodeRune applied to exactly two bytes whose first is not ASCII (RFC 3629, section 3):
   * a valid two-byte sequence C2..DF 80..BF decodes to its code point with size 2; anything
   * else (a stray continuation byte, an overlong lead C0/C1, or the lead of a longer sequence
   * that two bytes cannot complete) decodes to RuneError with size 1.
   */
  function DecodeTwo(b0: byte, b1: byte): (res: (int, int))
    ensures res.1 == 1 || res.1 == 2
    ensures res.1 == 2 <==> 0xC2 <= b0 <= 0xDF && 0x80 <= b1 <= 0xBF
    ensures res.1 == 2 ==> 0x80 <= res.0 < 0x800
    ensures res.1 == 1 ==> res.0 == RuneError
  {
    if 0xC2 <= b0 <= 0xDF && 0x80 <= b1 <= 0xBF then ((b0 - 0xC0) * 64 + (b1 - 0x80), 2)
    else (RuneError, 1)
  }

  /** The two-byte UTF-8 encoding of a code point in 0x80..0x7FF (RFC 3629, section 3). */
  function EncodeTwo(r: int): (bs: (byte, byte))
    requires 0x80 <= r < 0x800
  {
    (0xC0 + r / 64, 0x80 + r % 64)
  }

  /** Decoding the two-byte encoding of any code point it covers gives the code point back. */
  lemma TwoByteRoundTrip(r: int)
    requires 0x80 <= r < 0x800
    ensures DecodeTwo(EncodeTwo(r).0, EncodeTwo(r).1) == (r, 2)
  {
    var (b0, b1) := EncodeTwo(r);
    assert b0 - 0xC0 == r / 64 && b1 - 0x80 == r % 64;
    assert 0xC2 <= b0 by {
      assert r / 64 >= 2;
    }
  }
}
