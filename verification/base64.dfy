/**
 * Base64 with the standard alphabet and '=' padding (RFC 4648, section 4), as Go's
 * base64.StdEncoding decodes it: carriage returns and newlines are ignored, padding is required,
 * nothing may follow it, and the unused low bits of the last character are not checked.
 */
module Base64 {
  import opened GoStrings
  import opened Wrappers
  import opened Seqs

  predicate IsBase64Char(c: char) {
    ('A' <= c <= 'Z') || ('a' <= c <= 'z') || ('0' <= c <= '9') || c == '+' || c == '/'
  }

  /** The 6-bit value of an alphabet character. */
  function CharValue(c: char): (v: nat)
    requires IsBase64Char(c)
    ensures v < 64
  {
    if 'A' <= c <= 'Z' then c as int - 'A' as int
    else if 'a' <= c <= 'z' then c as int - 'a' as int + 26
    else if '0' <= c <= '9' then c as int - '0' as int + 52
    else if c == '+' then 62
    else 63
  }

  /** The alphabet character of a 6-bit value. */
  function ValueChar(v: nat): (c: char)
    requires v < 64
    ensures IsBase64Char(c) && CharValue(c) == v
  {
    if v < 26 then ('A' as int + v) as char
    else if v < 52 then ('a' as int + v - 26) as char
    else if v < 62 then ('0' as int + v - 52) as char
    else if v == 62 then '+'
    else '/'
  }

  /** The padded encoding, three bytes to four characters. */
  function Encode(b: seq<byte>): (s: string)
    ensures forall i :: 0 <= i < |s| ==> IsBase64Char(s[i]) || s[i] == '='
    ensures |s| % 4 == 0
    decreases |b|
  {
    if |b| == 0 then ""
    else if |b| == 1 then EncodeLastOne(b[0])
    else if |b| == 2 then EncodeLastTwo(b[0], b[1])
    else EncodeQuantum(b[0], b[1], b[2]) + Encode(b[3..])
  }

  /** A last single byte: two characters and two pads. */
  function EncodeLastOne(b0: byte): (s: string)
    ensures |s| == 4 && IsBase64Char(s[0]) && IsBase64Char(s[1]) && s[2] == '=' && s[3] == '='
  {
    [ValueChar(b0 / 4), ValueChar((b0 % 4) * 16)] + "=="
  }

  /** Two last bytes: three characters and one pad. */
  function EncodeLastTwo(b0: byte, b1: byte): (s: string)
    ensures |s| == 4 && IsBase64Char(s[0]) && IsBase64Char(s[1]) && IsBase64Char(s[2]) && s[3] == '='
  {
    [ValueChar(b0 / 4), ValueChar((b0 % 4) * 16 + b1 / 16), ValueChar((b1 % 16) * 4)] + "="
  }

  /** Three bytes as four characters, six bits each. */
  function EncodeQuantum(b0: byte, b1: byte, b2: byte): (s: string)
    ensures |s| == 4 && forall i :: 0 <= i < 4 ==> IsBase64Char(s[i])
  {
    [ValueChar(b0 / 4), ValueChar((b0 % 4) * 16 + b1 / 16), ValueChar((b1 % 16) * 4 + b2 / 64), ValueChar(b2 % 64)]
  }

  /** Four alphabet characters as three bytes. */
  function DecodeQuantum(q: string): (b: seq<byte>)
    requires |q| == 4 && forall i :: 0 <= i < 4 ==> IsBase64Char(q[i])
    ensures |b| == 3
  {
    var v0, v1, v2, v3 := CharValue(q[0]), CharValue(q[1]), CharValue(q[2]), CharValue(q[3]);
    [v0 * 4 + v1 / 16, (v1 % 16) * 16 + v2 / 4, (v2 % 4) * 64 + v3]
  }

  /** A quantum decodes to the three bytes it encodes. */
  lemma QuantumRoundTrip(b0: byte, b1: byte, b2: byte)
    ensures DecodeQuantum(EncodeQuantum(b0, b1, b2)) == [b0, b1, b2]
  {
    ThreeBytes(b0, b1, b2);
  }

  /** Decoding of text free of line breaks, four characters at a time. */
  function DecodeQuanta(s: string): (r: Result<seq<byte>, string>)
    decreases |s|
  {
    if |s| == 0 then Ok([])
    else if |s| < 4 then Err("illegal base64 data")
    else if IsBase64Char(s[0]) && IsBase64Char(s[1]) && IsBase64Char(s[2]) && IsBase64Char(s[3]) then
      var rest := DecodeQuanta(s[4..]);
      if rest.Err? then rest
      else Ok(DecodeQuantum(s[..4]) + rest.value)
    else if |s| == 4 && IsBase64Char(s[0]) && IsBase64Char(s[1]) && s[2] == '=' && s[3] == '=' then
      Ok(DecodeOnePadded(s[0], s[1]))
    else if |s| == 4 && IsBase64Char(s[0]) && IsBase64Char(s[1]) && IsBase64Char(s[2]) && s[3] == '=' then
      Ok(DecodeTwoPadded(s[0], s[1], s[2]))
    else Err("illegal base64 data")
  }

  /** A final quantum "xx==": one byte. */
  function DecodeOnePadded(c0: char, c1: char): seq<byte>
    requires IsBase64Char(c0) && IsBase64Char(c1)
  {
    [CharValue(c0) * 4 + CharValue(c1) / 16]
  }

  /** A final quantum "xxx=": two bytes. */
  function DecodeTwoPadded(c0: char, c1: char, c2: char): seq<byte>
    requires IsBase64Char(c0) && IsBase64Char(c1) && IsBase64Char(c2)
  {
    var v1, v2 := CharValue(c1), CharValue(c2);
    [CharValue(c0) * 4 + v1 / 16, (v1 % 16) * 16 + v2 / 4]
  }

  /** The text without carriage returns and newlines. */
  function DropLineBreaks(s: string): (r: string)
    ensures |r| <= |s|
    ensures forall i :: 0 <= i < |r| ==> r[i] != '\r' && r[i] != '\n'
    ensures (forall i :: 0 <= i < |s| ==> s[i] != '\r' && s[i] != '\n') ==> r == s
    decreases |s|
  {
    if |s| == 0 then ""
    else if s[0] == '\r' || s[0] == '\n' then DropLineBreaks(s[1..])
    else [s[0]] + DropLineBreaks(s[1..])
  }

  /** base64.StdEncoding.DecodeString. */
  function DecodeString(s: string): Result<seq<byte>, string> {
    DecodeQuanta(DropLineBreaks(s))
  }

  /** A decoded quantum of three bytes. */
  lemma ThreeBytes(b0: byte, b1: byte, b2: byte)
    ensures var v0, v1, v2, v3 := b0 / 4, (b0 % 4) * 16 + b1 / 16, (b1 % 16) * 4 + b2 / 64, b2 % 64;
      v1 < 64 && v2 < 64 &&
      v0 * 4 + v1 / 16 == b0 && (v1 % 16) * 16 + v2 / 4 == b1 && (v2 % 4) * 64 + v3 == b2
  {
    var v1, v2 := (b0 % 4) * 16 + b1 / 16, (b1 % 16) * 4 + b2 / 64;
    assert v1 / 16 == b0 % 4 && v1 % 16 == b1 / 16;
    assert v2 / 4 == b1 % 16 && v2 % 4 == b2 / 64;
  }

  /** The padded final quantum of one byte. */
  lemma OneByte(b: seq<byte>)
    requires |b| == 1
    ensures DecodeQuanta(Encode(b)) == Ok(b)
  {
    LastOneRoundTrip(b[0]);
    assert b == [b[0]];
  }

  /** "xx==" decodes to the byte it encodes. */
  lemma LastOneRoundTrip(b0: byte)
    ensures DecodeQuanta(EncodeLastOne(b0)) == Ok([b0])
  {
    var c0, c1 := b0 / 4, (b0 % 4) * 16;
    var s := EncodeLastOne(b0);
    assert s[0] == ValueChar(c0) && s[1] == ValueChar(c1);
    assert DecodeQuanta(s) == Ok(DecodeOnePadded(s[0], s[1]));
    OneByteArithmetic(b0);
  }

  /** The sextets of one byte put back together give the byte. */
  lemma OneByteArithmetic(b0: byte)
    ensures (b0 / 4) * 4 + ((b0 % 4) * 16) / 16 == b0
  {
  }

  /** The padded final quantum of two bytes. */
  lemma TwoBytes(b: seq<byte>)
    requires |b| == 2
    ensures DecodeQuanta(Encode(b)) == Ok(b)
  {
    LastTwoRoundTrip(b[0], b[1]);
    TwoElements(b);
  }

  /** "xxx=" decodes to the two bytes it encodes. */
  lemma LastTwoRoundTrip(b0: byte, b1: byte)
    ensures DecodeQuanta(EncodeLastTwo(b0, b1)) == Ok([b0, b1])
  {
    var c0, c1, c2 := b0 / 4, (b0 % 4) * 16 + b1 / 16, (b1 % 16) * 4;
    var s := EncodeLastTwo(b0, b1);
    assert s[0] == ValueChar(c0) && s[1] == ValueChar(c1) && s[2] == ValueChar(c2);
    assert DecodeQuanta(s) == Ok(DecodeTwoPadded(s[0], s[1], s[2]));
    DecodeTwoPaddedValues(c0, c1, c2);
    TwoBytesArithmetic(b0, b1);
  }

  /** The two-byte decoding of the characters of three sextets. */
  lemma DecodeTwoPaddedValues(v0: nat, v1: nat, v2: nat)
    requires v0 < 64 && v1 < 64 && v2 < 64
    ensures DecodeTwoPadded(ValueChar(v0), ValueChar(v1), ValueChar(v2)) == [v0 * 4 + v1 / 16, (v1 % 16) * 16 + v2 / 4]
  {
  }

  /** The sextets of two bytes put back together give the bytes. */
  lemma TwoBytesArithmetic(b0: byte, b1: byte)
    ensures (b0 / 4) * 4 + ((b0 % 4) * 16 + b1 / 16) / 16 == b0
    ensures (((b0 % 4) * 16 + b1 / 16) % 16) * 16 + ((b1 % 16) * 4) / 4 == b1
  {
  }

  /** Decoding a full quantum in front of more text. */
  lemma DecodeQuantaCons(q: string, t: string)
    requires |q| == 4 && forall i :: 0 <= i < 4 ==> IsBase64Char(q[i])
    ensures DecodeQuanta(q + t) ==
      if DecodeQuanta(t).Err? then DecodeQuanta(t) else Ok(DecodeQuantum(q) + DecodeQuanta(t).value)
  {
    var s := q + t;
    assert s[..4] == q && s[4..] == t;
    assert s[0] == q[0] && s[1] == q[1] && s[2] == q[2] && s[3] == q[3];
  }

  lemma SplitThree(b: seq<byte>)
    requires |b| >= 3
    ensures b == [b[0], b[1], b[2]] + b[3..]
  {
  }

  /** A full quantum followed by the encoding of the rest. */
  lemma FullQuantum(b: seq<byte>)
    requires |b| >= 3
    requires DecodeQuanta(Encode(b[3..])) == Ok(b[3..])
    ensures DecodeQuanta(Encode(b)) == Ok(b)
  {
    var q := EncodeQuantum(b[0], b[1], b[2]);
    assert Encode(b) == q + Encode(b[3..]);
    DecodeQuantaCons(q, Encode(b[3..]));
    QuantumRoundTrip(b[0], b[1], b[2]);
    SplitThree(b);
  }

  /** Decoding an encoding gives the bytes back. */
  lemma {:induction false} DecodeQuantaEncode(b: seq<byte>)
    ensures DecodeQuanta(Encode(b)) == Ok(b)
    decreases |b|
  {
    if |b| == 1 {
      OneByte(b);
    } else if |b| == 2 {
      TwoBytes(b);
    } else if |b| >= 3 {
      DecodeQuantaEncode(b[3..]);
      FullQuantum(b);
    }
  }

  /** DecodeString inverts Encode. */
  lemma DecodeEncode(b: seq<byte>)
    ensures DecodeString(Encode(b)) == Ok(b)
  {
    var s := Encode(b);
    assert DropLineBreaks(s) == s;
    DecodeQuantaEncode(b);
  }

  /** An encoding holds no space and no line break. */
  lemma EncodeHasNoSeparators(b: seq<byte>)
    ensures ' ' !in Encode(b) && '\n' !in Encode(b) && '\r' !in Encode(b)
  {
  }
}
