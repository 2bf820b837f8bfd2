/**
 * go-tiktoken's loaders of mergeable ranks: the tiktoken text format (one "<base64 token> <rank>"
 * per line), and the GPT-2 data-gym format, whose vocabulary spells bytes with printable
 * characters and whose merges get consecutive ranks after the 256 single bytes.
 */
module TiktokenCodec {
  import opened GoStrings
  import opened Wrappers
  import opened Base64
  import opened Utf8
  import opened Seqs

  type Bytes = seq<byte>

  /** A loader either fails with an error value or panics (an index or slice out of range). */
  datatype LoadError = Failed(msg: string) | Panicked(msg: string)

  const TwoTo64: int := 0x1_0000_0000_0000_0000

  /** Go's uint(v) of an int64: a negative value wraps around to 2^64 + v. */
  function ToUint(v: int): (u: nat)
    requires MinInt64 <= v <= MaxInt64
    ensures v >= 0 ==> u == v
    ensures v < 0 ==> u == v + TwoTo64 && u > MaxInt64
  {
    if v < 0 then v + TwoTo64 else v
  }

  /**
   * One non-empty line of a tiktoken file: the part before the first space is base64, the part
   * after it a decimal rank. The token is decoded first, so a bad token is reported even when the
   * rank is missing; a line without a space and with a valid token panics on the missing rank.
   */
  function ParseLine(line: string): (r: Result<(Bytes, nat), LoadError>)
    ensures r.Ok? ==> DecodeString(Split(line, ' ')[0]) == Ok(r.value.0)
  {
    var parts := Split(line, ' ');
    var token := DecodeString(parts[0]);
    if token.Err? then Err(Failed(token.error))
    else if |parts| < 2 then Err(Panicked("index out of range [1] with length 1"))
    else
      var rank := Atoi(parts[1]);
      if rank.Err? then Err(Failed(rank.error))
      else Ok((token.value, ToUint(rank.value)))
  }

  /** The ranks read from the lines, in order: blank lines skipped, later tokens overwriting earlier ones, the first failure ending the read. */
  function ParseLines(lines: seq<string>): Result<map<Bytes, nat>, LoadError> {
    if |lines| == 0 then Ok(map[])
    else
      var before := ParseLines(lines[..|lines| - 1]);
      var line := lines[|lines| - 1];
      if before.Err? || line == "" then before
      else
        var entry := ParseLine(line);
        if entry.Err? then Err(entry.error) else Ok(before.value[entry.value.0 := entry.value.1])
  }

  /** ConvertToMergeableBPERanks: an empty file is an error, otherwise the lines are read in order. */
  method ConvertToMergeableBpeRanks(contents: string) returns (r: Result<map<Bytes, nat>, LoadError>)
    ensures |contents| == 0 ==> r == Err(Failed("empty bpe file"))
    ensures |contents| > 0 ==> r == ParseLines(Split(contents, '\n'))
  {
    if |contents| == 0 {
      return Err(Failed("empty bpe file"));
    }
    var lines := Split(contents, '\n');
    var bpeRanks: map<Bytes, nat> := map[];
    var i := 0;
    while i < |lines|
      invariant 0 <= i <= |lines|
      invariant ParseLines(lines[..i]) == Ok(bpeRanks)
    {
      assert lines[..i + 1][..i] == lines[..i];
      var line := lines[i];
      if line == "" {
        i := i + 1;
        continue;
      }
      var entry := ParseLine(line);
      if entry.Err? {
        assert lines[..i + 1] == lines[..i] + [line];
        r := Err(entry.error);
        ParseLinesStopsAtError(lines, i + 1);
        return;
      }
      bpeRanks := bpeRanks[entry.value.0 := entry.value.1];
      i := i + 1;
    }
    assert lines[..|lines|] == lines;
    return Ok(bpeRanks);
  }

  /** Once a prefix of the lines fails, reading more lines keeps that failure. */
  lemma {:induction false} ParseLinesStopsAtError(lines: seq<string>, k: nat)
    requires k <= |lines| && ParseLines(lines[..k]).Err?
    ensures ParseLines(lines) == ParseLines(lines[..k])
    decreases |lines| - k
  {
    if k < |lines| {
      assert lines[..k + 1][..k] == lines[..k];
      ParseLinesStopsAtError(lines, k + 1);
    } else {
      assert lines[..k] == lines;
    }
  }

  /** One line of a tiktoken file. */
  function RenderLine(entry: (Bytes, nat)): string {
    Encode(entry.0) + " " + NatToString(entry.1)
  }

  /** A tiktoken file listing the entries in order. */
  function Render(entries: seq<(Bytes, nat)>): string {
    Join(seq(|entries|, i requires 0 <= i < |entries| => RenderLine(entries[i])), "\n")
  }

  /** The map the entries describe, later entries overwriting earlier ones. */
  function MapOf(entries: seq<(Bytes, nat)>): map<Bytes, nat> {
    if |entries| == 0 then map[]
    else MapOf(entries[..|entries| - 1])[entries[|entries| - 1].0 := entries[|entries| - 1].1]
  }

  /** A rendered line parses back to its entry. */
  lemma ParseRenderLine(entry: (Bytes, nat))
    requires entry.1 <= MaxInt64
    ensures RenderLine(entry) != "" && '\n' !in RenderLine(entry)
    ensures ParseLine(RenderLine(entry)) == Ok(entry)
  {
    var a, b := Encode(entry.0), NatToString(entry.1);
    EncodeHasNoSeparators(entry.0);
    assert ' ' !in b && '\n' !in b;
    assert Join([a, b], [' ']) == RenderLine(entry);
    SplitJoin([a, b], ' ');
    DecodeEncode(entry.0);
    AtoiNatToString(entry.1);
  }

  /** Parsing the rendered lines gives the map of the entries. */
  lemma {:induction false} ParseRenderedLines(entries: seq<(Bytes, nat)>, lines: seq<string>)
    requires forall i :: 0 <= i < |entries| ==> entries[i].1 <= MaxInt64
    requires |lines| == |entries| && forall i :: 0 <= i < |entries| ==> lines[i] == RenderLine(entries[i])
    ensures ParseLines(lines) == Ok(MapOf(entries))
    decreases |entries|
  {
    if |entries| > 0 {
      var n := |entries| - 1;
      ParseRenderedLines(entries[..n], lines[..n]);
      ParseRenderLine(entries[n]);
    }
  }

  /**
   * The round trip of the tiktoken format: reading a file rendered from entries whose ranks fit
   * in an int64 yields their map; an empty list renders as the empty file, which is an error.
   */
  lemma ConvertRendered(entries: seq<(Bytes, nat)>)
    requires |entries| > 0
    requires forall i :: 0 <= i < |entries| ==> entries[i].1 <= MaxInt64
    ensures |Render(entries)| > 0
    ensures ParseLines(Split(Render(entries), '\n')) == Ok(MapOf(entries))
  {
    var lines := seq(|entries|, i requires 0 <= i < |entries| => RenderLine(entries[i]));
    forall i | 0 <= i < |lines|
      ensures '\n' !in lines[i] && lines[i] != ""
    {
      ParseRenderLine(entries[i]);
    }
    SplitJoin(lines, '\n');
    ParseRenderedLines(entries, lines);
    assert |Join(lines, "\n")| >= |lines[0]|;
  }

  /** The number of byte values. */
  const ByteCount: nat := 256

  /** The special tokens of codec.go. */
  const StartOfText: string := "<|startoftext|>"
  const EndOfText: string := "<|endoftext|>"
  const FimPrefix: string := "<|fim_prefix|>"
  const FimMiddle: string := "<|fim_middle|>"
  const FimSuffix: string := "<|fim_suffix|>"
  const EndOfPrompt: string := "<|endofprompt|>"

  /**
   * strconv.IsPrint for a code point below 256, excluding the space: 0x21-0x7E and 0xA1-0xFF
   * without the soft hyphen 0xAD.
   */
  predicate IsPrintNonSpace(b: int) {
    (0x21 <= b <= 0x7E) || (0xA1 <= b <= 0xAC) || (0xAE <= b <= 0xFF)
  }

  /** The bytes below k that are printable and not a space, ascending. */
  function Printables(k: nat): (r: seq<int>)
    ensures forall i :: 0 <= i < |r| ==> 0 <= r[i] < k
  {
    if k == 0 then [] else Printables(k - 1) + (if IsPrintNonSpace(k - 1) then [k - 1] else [])
  }

  /** The bytes below k that are not printable, or are the space, ascending. */
  function NonPrintables(k: nat): (r: seq<int>)
    ensures forall i :: 0 <= i < |r| ==> 0 <= r[i] < k
    ensures |r| <= k
  {
    if k == 0 then [] else NonPrintables(k - 1) + (if !IsPrintNonSpace(k - 1) then [k - 1] else [])
  }

  /** Whether byte x is in the printable list below k. */
  lemma {:induction false} PrintableMember(k: nat, x: int)
    ensures x in Printables(k) <==> 0 <= x < k && IsPrintNonSpace(x)
    decreases k
  {
    if k > 0 {
      PrintableMember(k - 1, x);
      var last := if IsPrintNonSpace(k - 1) then [k - 1] else [];
      assert Printables(k) == Printables(k - 1) + last;
      assert x in Printables(k) <==> x in Printables(k - 1) || x in last;
    }
  }

  /** Whether byte x is in the non-printable list below k. */
  lemma {:induction false} NonPrintableMember(k: nat, x: int)
    ensures x in NonPrintables(k) <==> 0 <= x < k && !IsPrintNonSpace(x)
    decreases k
  {
    if k > 0 {
      NonPrintableMember(k - 1, x);
      var last := if !IsPrintNonSpace(k - 1) then [k - 1] else [];
      assert NonPrintables(k) == NonPrintables(k - 1) + last;
      assert x in NonPrintables(k) <==> x in NonPrintables(k - 1) || x in last;
    }
  }

  /** Which bytes the two lists hold. */
  lemma Members(k: nat)
    ensures forall x :: x in Printables(k) <==> 0 <= x < k && IsPrintNonSpace(x)
    ensures forall x :: x in NonPrintables(k) <==> 0 <= x < k && !IsPrintNonSpace(x)
  {
    forall x
      ensures x in Printables(k) <==> 0 <= x < k && IsPrintNonSpace(x)
      ensures x in NonPrintables(k) <==> 0 <= x < k && !IsPrintNonSpace(x)
    {
      PrintableMember(k, x);
      NonPrintableMember(k, x);
    }
  }

  /** The non-printable bytes below k come first among those below any larger bound. */
  lemma {:induction false} NonPrintablesPrefix(k: nat, m: nat)
    requires k <= m
    ensures |NonPrintables(k)| <= |NonPrintables(m)|
    ensures NonPrintables(k) == NonPrintables(m)[..|NonPrintables(k)|]
    decreases m - k
  {
    if k < m {
      NonPrintablesPrefix(k, m - 1);
      var small, mid, big := NonPrintables(k), NonPrintables(m - 1), NonPrintables(m);
      assert big == mid + (if !IsPrintNonSpace(m - 1) then [m - 1] else []);
      assert big[..|mid|] == mid;
      assert small == mid[..|small|];
      assert big[..|small|] == big[..|mid|][..|small|];
    } else {
      assert NonPrintables(m)[..|NonPrintables(m)|] == NonPrintables(m);
    }
  }

  /** Every byte below k is in exactly one of the two lists. */
  lemma {:induction false} PartitionSize(k: nat)
    ensures |Printables(k)| + |NonPrintables(k)| == k
    decreases k
  {
    if k > 0 {
      PartitionSize(k - 1);
    }
  }

  /** containsRune: whether the rune occurs in the list. */
  method ContainsRune(arr: seq<int>, b: int) returns (found: bool)
    ensures found <==> b in arr
  {
    for i := 0 to |arr|
      invariant b !in arr[..i]
    {
      if arr[i] == b {
        return true;
      }
    }
    assert arr[..|arr|] == arr;
    return false;
  }

  /** The data-gym alphabet: printable bytes spell themselves, the others the code points 256 + their index. */
  function DataGymOf(ps: seq<int>, nps: seq<int>): (m: map<char, int>)
    requires forall i :: 0 <= i < |ps| ==> 0 <= ps[i] < 256
    requires |nps| <= 256
  {
    if |nps| > 0 then DataGymOf(ps, nps[..|nps| - 1])[(256 + |nps| - 1) as char := nps[|nps| - 1]]
    else if |ps| > 0 then DataGymOf(ps[..|ps| - 1], [])[ps[|ps| - 1] as char := ps[|ps| - 1]]
    else map[]
  }

  /** Which characters the alphabet spells, and the byte each one stands for. */
  lemma {:induction false} DataGymOfEntries(ps: seq<int>, nps: seq<int>)
    requires forall i :: 0 <= i < |ps| ==> 0 <= ps[i] < 256
    requires |nps| <= 256
    ensures forall c :: c in DataGymOf(ps, nps) <==> (c as int < 256 && c as int in ps) || (256 <= c as int < 256 + |nps|)
    ensures forall c :: c in DataGymOf(ps, nps) && c as int < 256 ==> DataGymOf(ps, nps)[c] == c as int
    ensures forall c :: c in DataGymOf(ps, nps) && c as int >= 256 ==> DataGymOf(ps, nps)[c] == nps[c as int - 256]
    decreases |ps| + |nps|
  {
    if |nps| > 0 {
      DataGymOfEntries(ps, nps[..|nps| - 1]);
    } else if |ps| > 0 {
      DataGymOfEntries(ps[..|ps| - 1], []);
      assert forall x :: x in ps <==> x in ps[..|ps| - 1] || x == ps[|ps| - 1] by {
        assert ps == ps[..|ps| - 1] + [ps[|ps| - 1]];
      }
    }
  }

  /** The entry of one character that the alphabet spells. */
  lemma DataGymOfAt(ps: seq<int>, nps: seq<int>, c: char)
    requires forall i :: 0 <= i < |ps| ==> 0 <= ps[i] < 256
    requires |nps| <= 256
    requires (c as int < 256 && c as int in ps) || (256 <= c as int < 256 + |nps|)
    ensures c in DataGymOf(ps, nps)
    ensures DataGymOf(ps, nps)[c] == if c as int < 256 then c as int else nps[c as int - 256]
  {
    DataGymOfEntries(ps, nps);
  }

  /** An alphabet over bytes maps every character it spells to a byte. */
  lemma DataGymOfByteValued(ps: seq<int>, nps: seq<int>)
    requires forall i :: 0 <= i < |ps| ==> 0 <= ps[i] < 256
    requires |nps| <= 256 && forall i :: 0 <= i < |nps| ==> 0 <= nps[i] < 256
    ensures ByteValued(DataGymOf(ps, nps))
  {
    forall c | c in DataGymOf(ps, nps)
      ensures 0 <= DataGymOf(ps, nps)[c] < 256
    {
      DataGymOfEntries(ps, nps);
      DataGymOfAt(ps, nps, c);
    }
  }

  /** The alphabet of the GPT-2 vocabulary files. */
  function DataGym(): (m: map<char, int>)
    ensures ByteValued(m)
  {
    PartitionSize(ByteCount);
    DataGymOfByteValued(Printables(ByteCount), NonPrintables(ByteCount));
    DataGymOf(Printables(ByteCount), NonPrintables(ByteCount))
  }

  /** The printable list is strictly ascending. */
  lemma {:induction false} PrintablesAscending(k: nat)
    ensures forall i, j :: 0 <= i < j < |Printables(k)| ==> Printables(k)[i] < Printables(k)[j]
    decreases k
  {
    if k > 0 {
      PrintablesAscending(k - 1);
    }
  }

  /** The non-printable list is strictly ascending. */
  lemma {:induction false} NonPrintablesAscending(k: nat)
    ensures forall i, j :: 0 <= i < j < |NonPrintables(k)| ==> NonPrintables(k)[i] < NonPrintables(k)[j]
    decreases k
  {
    if k > 0 {
      NonPrintablesAscending(k - 1);
    }
  }

  /** The alphabet over the bytes below k sends distinct characters to distinct bytes. */
  lemma GymInjective(k: nat)
    requires k <= 256
    ensures forall c1, c2 :: c1 in DataGymOf(Printables(k), NonPrintables(k)) && c2 in DataGymOf(Printables(k), NonPrintables(k)) && c1 != c2 ==>
      DataGymOf(Printables(k), NonPrintables(k))[c1] != DataGymOf(Printables(k), NonPrintables(k))[c2]
  {
    var ps, nps := Printables(k), NonPrintables(k);
    var g := DataGymOf(ps, nps);
    DataGymOfEntries(ps, nps);
    NonPrintablesAscending(k);
    Members(k);
    forall c1, c2 | c1 in g && c2 in g && c1 != c2
      ensures g[c1] != g[c2]
    {
      if c1 as int >= 256 && c2 as int < 256 {
        assert g[c1] == nps[c1 as int - 256] && g[c1] in nps;
        assert g[c2] in ps;
      } else if c1 as int < 256 && c2 as int >= 256 {
        assert g[c2] == nps[c2 as int - 256] && g[c2] in nps;
        assert g[c1] in ps;
      } else if c1 as int >= 256 && c2 as int >= 256 {
        if c1 < c2 {
          assert nps[c1 as int - 256] < nps[c2 as int - 256];
        } else {
          assert nps[c2 as int - 256] < nps[c1 as int - 256];
        }
      }
    }
  }

  /** Every byte below k is spelled in the alphabet by GymChar. */
  lemma GymCharSpells(k: nat, b: int)
    requires 0 <= b < k <= 256
    ensures GymChar(b) in DataGymOf(Printables(k), NonPrintables(k))
    ensures DataGymOf(Printables(k), NonPrintables(k))[GymChar(b)] == b
  {
    if IsPrintNonSpace(b) {
      GymCharSpellsPrintable(k, b);
    } else {
      GymCharSpellsOther(k, b);
    }
  }

  lemma GymCharSpellsPrintable(k: nat, b: int)
    requires 0 <= b < k <= 256 && IsPrintNonSpace(b)
    ensures GymChar(b) in DataGymOf(Printables(k), NonPrintables(k))
    ensures DataGymOf(Printables(k), NonPrintables(k))[GymChar(b)] == b
  {
    PrintableMember(k, b);
    assert GymChar(b) == b as char;
    PartitionSize(k);
    DataGymOfAt(Printables(k), NonPrintables(k), b as char);
  }

  lemma GymCharSpellsOther(k: nat, b: int)
    requires 0 <= b < k <= 256 && !IsPrintNonSpace(b)
    ensures GymChar(b) in DataGymOf(Printables(k), NonPrintables(k))
    ensures DataGymOf(Printables(k), NonPrintables(k))[GymChar(b)] == b
  {
    var nps := NonPrintables(k);
    var n := |NonPrintables(b)|;
    PartitionSize(b);
    assert GymChar(b) == (256 + n) as char;
    NonPrintableRank(k, b);
    PartitionSize(k);
    DataGymOfAt(Printables(k), nps, (256 + n) as char);
  }

  /** A non-printable byte stands at its rank among the non-printables below it. */
  lemma NonPrintableRank(k: nat, b: int)
    requires 0 <= b < k && !IsPrintNonSpace(b)
    ensures |NonPrintables(b)| < |NonPrintables(k)| && NonPrintables(k)[|NonPrintables(b)|] == b
  {
    NonPrintablesPrefix(b + 1, k);
    assert NonPrintables(b + 1) == NonPrintables(b) + [b];
  }

  /**
   * The data-gym alphabet is a bijection: every byte is spelled by exactly one character, the
   * printable bytes by themselves and the others by 256 plus their rank among the non-printables.
   */
  lemma DataGymBijective()
    ensures forall c :: c in DataGym() ==> 0 <= DataGym()[c] < 256
    ensures forall c1, c2 :: c1 in DataGym() && c2 in DataGym() && c1 != c2 ==> DataGym()[c1] != DataGym()[c2]
    ensures forall b :: 0 <= b < 256 ==> GymChar(b) in DataGym() && DataGym()[GymChar(b)] == b
  {
    var k := 256;
    PartitionSize(k);
    var ps, nps := Printables(k), NonPrintables(k);
    DataGymOfEntries(ps, nps);
    GymInjective(k);
    forall b | 0 <= b < k
      ensures GymChar(b) in DataGym() && DataGym()[GymChar(b)] == b
    {
      GymCharSpells(k, b);
    }
  }

  /** The character that spells byte b in the data-gym alphabet. */
  function GymChar(b: int): char
    requires 0 <= b < 256
  {
    if IsPrintNonSpace(b) then b as char
    else
      PartitionSize(b);
      (256 + |NonPrintables(b)|) as char
  }

  /**
   * The opening loops of CovertVocabBPEAndEncoderJSONToMergeableBPERanks: rankToIntByte lists the
   * printable non-space bytes and then the rest, each in ascending order; dataGymByteToByte is
   * the data-gym alphabet.
   */
  method RankToIntByte() returns (rankToIntByte: seq<int>, dataGymByteToByte: map<char, int>)
    ensures rankToIntByte == RankBytes()
    ensures dataGymByteToByte == DataGym()
  {
    PartitionSize(ByteCount);
    rankToIntByte, dataGymByteToByte := Alphabet(ByteCount);
  }

  /** The three loops over the bytes below `limit` (256 in the source). */
  method Alphabet(limit: nat) returns (rankToIntByte: seq<int>, dataGymByteToByte: map<char, int>)
    requires limit <= 256
    ensures rankToIntByte == Printables(limit) + NonPrintables(limit)
    ensures dataGymByteToByte == DataGymOf(Printables(limit), NonPrintables(limit))
  {
    var printables, gym := PrintableRanks(limit);
    rankToIntByte, dataGymByteToByte := NonPrintableRanks(printables, gym, limit);
  }

  /**
   * The third loop: every byte below `limit` not yet listed is appended, and spelled by the
   * next code point from 256 on.
   */
  method NonPrintableRanks(printables: seq<int>, gym: map<char, int>, limit: nat) returns (rankToIntByte: seq<int>, dataGymByteToByte: map<char, int>)
    requires limit <= 256 && printables == Printables(limit) && gym == DataGymOf(printables, [])
    ensures rankToIntByte == printables + NonPrintables(limit)
    ensures dataGymByteToByte == DataGymOf(printables, NonPrintables(limit))
  {
    rankToIntByte, dataGymByteToByte := printables, gym;
    var n := 0;
    ghost var nps: seq<int> := [];
    for b := 0 to limit
      invariant nps == NonPrintables(b) && n == |nps|
      invariant rankToIntByte == printables + nps
      invariant dataGymByteToByte == DataGymOf(printables, nps)
    {
      rankToIntByte, dataGymByteToByte, n, nps := AddIfMissing(printables, limit, b, rankToIntByte, dataGymByteToByte, n, nps);
    }
  }

  /** The body of the third loop: appends byte b when it is not listed yet. */
  method AddIfMissing(printables: seq<int>, limit: nat, b: nat, rankToIntByte: seq<int>, gym: map<char, int>, n: nat, ghost nps: seq<int>)
    returns (rankToIntByte': seq<int>, gym': map<char, int>, n': nat, ghost nps': seq<int>)
    requires printables == Printables(limit) && b < limit <= 256
    requires nps == NonPrintables(b) && n == |nps|
    requires rankToIntByte == printables + nps && gym == DataGymOf(printables, nps)
    ensures nps' == NonPrintables(b + 1) && n' == |nps'|
    ensures rankToIntByte' == printables + nps' && gym' == DataGymOf(printables, nps')
  {
    var found := ContainsRune(rankToIntByte, b);
    AlphabetStep(printables, limit, b, nps);
    rankToIntByte', gym', n', nps' := rankToIntByte, gym, n, nps;
    if !found {
      rankToIntByte' := rankToIntByte + [b];
      gym' := gym[(256 + n) as char := b];
      n' := n + 1;
      nps' := nps + [b];
    }
  }

  /** One pass of the third loop keeps the lists and the alphabet in step with the non-printables below b. */
  lemma AlphabetStep(printables: seq<int>, limit: nat, b: nat, nps: seq<int>)
    requires printables == Printables(limit) && b < limit <= 256 && nps == NonPrintables(b)
    ensures b in printables + nps <==> IsPrintNonSpace(b)
    ensures IsPrintNonSpace(b) ==> NonPrintables(b + 1) == nps
    ensures !IsPrintNonSpace(b) ==> NonPrintables(b + 1) == nps + [b] && |nps| < 256
    ensures !IsPrintNonSpace(b) ==> DataGymOf(printables, nps + [b]) == DataGymOf(printables, nps)[(256 + |nps|) as char := b]
  {
    NextNonPrintable(printables, limit, b);
    if !IsPrintNonSpace(b) {
      assert NonPrintables(b + 1) == nps + [b];
      DataGymOfSnoc(printables, nps, b);
    } else {
      assert NonPrintables(b + 1) == nps;
    }
  }

  /** The first two loops: the printable non-space bytes below `limit`, each spelling itself. */
  method PrintableRanks(limit: nat) returns (rankToIntByte: seq<int>, dataGymByteToByte: map<char, int>)
    requires limit <= 256
    ensures rankToIntByte == Printables(limit)
    ensures dataGymByteToByte == DataGymOf(rankToIntByte, [])
  {
    rankToIntByte := [];
    for b := 0 to limit
      invariant rankToIntByte == Printables(b)
    {
      if IsPrintNonSpace(b) {
        rankToIntByte := rankToIntByte + [b];
      }
    }
    dataGymByteToByte := map[];
    for i := 0 to |rankToIntByte|
      invariant dataGymByteToByte == DataGymOf(rankToIntByte[..i], [])
    {
      assert rankToIntByte[..i + 1][..i] == rankToIntByte[..i];
      dataGymByteToByte := dataGymByteToByte[rankToIntByte[i] as char := rankToIntByte[i]];
    }
    assert rankToIntByte[..|rankToIntByte|] == rankToIntByte;
  }

  /** One step of the third loop: byte b is missing from the list exactly when it is not printable. */
  lemma NextNonPrintable(printables: seq<int>, limit: nat, b: nat)
    requires printables == Printables(limit) && b < limit <= 256
    ensures b in printables + NonPrintables(b) <==> IsPrintNonSpace(b)
  {
    Members(limit);
    Members(b);
  }

  /** Appending a non-printable byte gives it the next code point above 255. */
  lemma DataGymOfSnoc(ps: seq<int>, nps: seq<int>, x: int)
    requires forall i :: 0 <= i < |ps| ==> 0 <= ps[i] < 256
    requires |nps| < 256
    ensures DataGymOf(ps, nps + [x]) == DataGymOf(ps, nps)[(256 + |nps|) as char := x]
  {
    assert (nps + [x])[..|nps|] == nps;
  }

  /** The two lists together hold every byte below k exactly once. */
  lemma PartitionPermutation(k: nat)
    ensures |Printables(k) + NonPrintables(k)| == k
    ensures forall b :: 0 <= b < k <==> b in Printables(k) + NonPrintables(k)
    ensures forall i, j :: 0 <= i < j < k ==> (Printables(k) + NonPrintables(k))[i] != (Printables(k) + NonPrintables(k))[j]
  {
    PartitionSize(k);
    Members(k);
    PrintablesAscending(k);
    NonPrintablesAscending(k);
    var ps, nps := Printables(k), NonPrintables(k);
    var r := ps + nps;
    forall i, j | 0 <= i < j < k
      ensures r[i] != r[j]
    {
      if j < |ps| {
        assert r[i] == ps[i] && r[j] == ps[j];
      } else if i >= |ps| {
        assert r[i] == nps[i - |ps|] && r[j] == nps[j - |ps|];
      } else {
        assert r[i] == ps[i] && r[j] == nps[j - |ps|];
        PrintableMember(k, r[i]);
        NonPrintableMember(k, r[j]);
      }
    }
  }

  /** rankToIntByte is a permutation of the 256 bytes, so the length check after it never fails. */
  lemma RankToIntBytePermutation()
    ensures |RankBytes()| == 256
    ensures forall b :: 0 <= b < 256 <==> b in RankBytes()
    ensures forall i, j :: 0 <= i < j < 256 ==> RankBytes()[i] != RankBytes()[j]
  {
    PartitionPermutation(ByteCount);
  }

  /** Every character of the alphabet stands for a byte. */
  predicate ByteValued(gym: map<char, int>) {
    forall c :: c in gym ==> 0 <= gym[c] < 256
  }

  /** The byte a data-gym character stands for; a character outside the alphabet reads as 0. */
  function GymByte(gym: map<char, int>, c: char): int
    requires ByteValued(gym)
  {
    if c in gym then gym[c] else 0
  }

  /** decodeDataGym: every character of the value replaced by the rune of the byte it spells. */
  function DecodeGym(gym: map<char, int>, value: string): (r: string)
    requires ByteValued(gym)
    ensures |r| == |value|
    ensures forall i :: 0 <= i < |r| ==> r[i] as int < 256
  {
    if |value| == 0 then []
    else DecodeGym(gym, value[..|value| - 1]) + [GymByte(gym, value[|value| - 1]) as char]
  }

  /** The i-th rune of a decoded value is the byte its i-th character spells. */
  lemma {:induction false} DecodeGymAt(gym: map<char, int>, value: string, i: nat)
    requires ByteValued(gym) && i < |value|
    ensures DecodeGym(gym, value)[i] as int == GymByte(gym, value[i])
    decreases |value|
  {
    if i < |value| - 1 {
      DecodeGymAt(gym, value[..|value| - 1], i);
    }
  }

  /** The decoding loop of the closure in CovertVocabBPEAndEncoderJSONToMergeableBPERanks. */
  method DecodeDataGym(gym: map<char, int>, value: string) returns (result: string)
    requires ByteValued(gym)
    ensures result == DecodeGym(gym, value)
  {
    result := [];
    for i := 0 to |value|
      invariant result == DecodeGym(gym, value[..i])
    {
      assert value[..i + 1][..i] == value[..i];
      var b := if value[i] in gym then gym[value[i]] else 0;
      result := result + [b as char];
    }
    assert value[..|value|] == value;
  }

  /** Spells every rune below 256 in the data-gym alphabet: the inverse of decoding. */
  function EncodeGym(s: string): (r: string)
    requires forall i :: 0 <= i < |s| ==> s[i] as int < 256
    ensures |r| == |s|
  {
    seq(|s|, i requires 0 <= i < |s| => GymChar(s[i] as int))
  }

  /** Decoding a value spelled in the data-gym alphabet gives the runes back. */
  lemma DecodeEncodeGym(s: string)
    requires forall i :: 0 <= i < |s| ==> s[i] as int < 256
    ensures ByteValued(DataGym())
    ensures DecodeGym(DataGym(), EncodeGym(s)) == s
  {
    DataGymBijective();
    var e := EncodeGym(s);
    var d := DecodeGym(DataGym(), e);
    forall i | 0 <= i < |s|
      ensures d[i] == s[i]
    {
      DecodeGymAt(DataGym(), e, i);
    }
  }

  /**
   * How the loader turns a sequence of runes into a map key. As written it is Go's
   * string([]rune), the UTF-8 encoding of the runes; the reference tiktoken keys the same
   * ranks by one raw byte per rune.
   */
  datatype KeyForm = Utf8Keys | ByteKeys

  /** Runes that are bytes. */
  predicate ByteRunes(rs: string) {
    forall i :: 0 <= i < |rs| ==> rs[i] as int < 256
  }

  /** The UTF-8 encoding of one rune below 256 (RFC 3629, section 3). */
  function RuneUtf8(c: char): (b: Bytes)
    requires c as int < 256
    ensures |b| == (if c as int < 0x80 then 1 else 2)
  {
    if c as int < 0x80 then [c as int] else [EncodeTwo(c as int).0, EncodeTwo(c as int).1]
  }

  /** The key a sequence of byte runes is stored under. */
  function Key(form: KeyForm, rs: string): (k: Bytes)
    requires ByteRunes(rs)
  {
    if |rs| == 0 then []
    else
      var last := rs[|rs| - 1];
      Key(form, rs[..|rs| - 1]) + (if form == Utf8Keys then RuneUtf8(last) else [last as int])
  }

  /** With raw bytes the key is the runes themselves. */
  lemma {:induction false} ByteKeysAreRunes(rs: string)
    requires ByteRunes(rs)
    ensures |Key(ByteKeys, rs)| == |rs|
    ensures forall i :: 0 <= i < |rs| ==> Key(ByteKeys, rs)[i] == rs[i] as int
    decreases |rs|
  {
    if |rs| > 0 {
      ByteKeysAreRunes(rs[..|rs| - 1]);
    }
  }

  /** The key of the single byte b. */
  function ByteKey(form: KeyForm, b: int): Bytes
    requires 0 <= b < 256
  {
    Key(form, [b as char])
  }

  /** The ranks of the single bytes: the byte at position i of the list gets rank i. */
  function SingleByteRanks(form: KeyForm, bytes: seq<int>): (m: map<Bytes, nat>)
    requires forall i :: 0 <= i < |bytes| ==> 0 <= bytes[i] < 256
  {
    if |bytes| == 0 then map[]
    else SingleByteRanks(form, bytes[..|bytes| - 1])[ByteKey(form, bytes[|bytes| - 1]) := |bytes| - 1]
  }

  /** The key of a single rune. */
  lemma KeyOfRune(form: KeyForm, c: char)
    requires c as int < 256
    ensures Key(form, [c]) == if form == Utf8Keys then RuneUtf8(c) else [c as int]
  {
    assert [c][..0] == [];
  }

  /** Distinct bytes get distinct keys, in either form. */
  lemma ByteKeysDistinct(form: KeyForm, a: int, b: int)
    requires 0 <= a < 256 && 0 <= b < 256 && a != b
    ensures ByteKey(form, a) != ByteKey(form, b)
  {
    KeyOfRune(form, a as char);
    KeyOfRune(form, b as char);
    if form == Utf8Keys && a >= 0x80 && b >= 0x80 {
      TwoByteRoundTrip(a);
      TwoByteRoundTrip(b);
      assert RuneUtf8(a as char) == [EncodeTwo(a).0, EncodeTwo(a).1];
      assert RuneUtf8(b as char) == [EncodeTwo(b).0, EncodeTwo(b).1];
    } else if form == Utf8Keys && (a < 0x80 || b < 0x80) {
      assert RuneUtf8(a as char)[0] != RuneUtf8(b as char)[0] || |RuneUtf8(a as char)| != |RuneUtf8(b as char)|;
    }
  }

  /** Over distinct bytes, every byte of the list is a key holding its position. */
  lemma {:induction false} SingleByteRanksEntries(form: KeyForm, bytes: seq<int>)
    requires forall i :: 0 <= i < |bytes| ==> 0 <= bytes[i] < 256
    requires forall i, j :: 0 <= i < j < |bytes| ==> bytes[i] != bytes[j]
    ensures forall i :: 0 <= i < |bytes| ==> ByteKey(form, bytes[i]) in SingleByteRanks(form, bytes) && SingleByteRanks(form, bytes)[ByteKey(form, bytes[i])] == i
    decreases |bytes|
  {
    if |bytes| > 0 {
      var init := bytes[..|bytes| - 1];
      var last := bytes[|bytes| - 1];
      var m := SingleByteRanks(form, init);
      SingleByteRanksEntries(form, init);
      assert SingleByteRanks(form, bytes) == m[ByteKey(form, last) := |bytes| - 1];
      forall i | 0 <= i < |bytes|
        ensures ByteKey(form, bytes[i]) in SingleByteRanks(form, bytes) && SingleByteRanks(form, bytes)[ByteKey(form, bytes[i])] == i
      {
        if i < |init| {
          assert bytes[i] == init[i];
          ByteKeysDistinct(form, init[i], last);
        }
      }
    }
  }

  /** Over distinct bytes, there are as many single-byte ranks as bytes. */
  lemma {:induction false} SingleByteRanksSize(form: KeyForm, bytes: seq<int>)
    requires forall i :: 0 <= i < |bytes| ==> 0 <= bytes[i] < 256
    requires forall i, j :: 0 <= i < j < |bytes| ==> bytes[i] != bytes[j]
    ensures |SingleByteRanks(form, bytes)| == |bytes|
    decreases |bytes|
  {
    if |bytes| > 0 {
      var init := bytes[..|bytes| - 1];
      var last := bytes[|bytes| - 1];
      var m := SingleByteRanks(form, init);
      SingleByteRanksSize(form, init);
      LastKeyFresh(form, bytes);
      assert SingleByteRanks(form, bytes) == m[ByteKey(form, last) := |bytes| - 1];
    }
  }

  /** Over distinct bytes, the last byte's key is not among the keys of the bytes before it. */
  lemma LastKeyFresh(form: KeyForm, bytes: seq<int>)
    requires |bytes| > 0
    requires forall i :: 0 <= i < |bytes| ==> 0 <= bytes[i] < 256
    requires forall i, j :: 0 <= i < j < |bytes| ==> bytes[i] != bytes[j]
    ensures ByteKey(form, bytes[|bytes| - 1]) !in SingleByteRanks(form, bytes[..|bytes| - 1])
  {
    var init := bytes[..|bytes| - 1];
    var last := bytes[|bytes| - 1];
    SingleByteRanksKeys(form, init);
    if ByteKey(form, last) in SingleByteRanks(form, init) {
      var i :| 0 <= i < |init| && ByteKey(form, last) == ByteKey(form, init[i]);
      ByteKeysDistinct(form, init[i], last);
    }
  }

  /** The single-byte ranks hold no key but those of the listed bytes. */
  lemma {:induction false} SingleByteRanksKeys(form: KeyForm, bytes: seq<int>)
    requires forall i :: 0 <= i < |bytes| ==> 0 <= bytes[i] < 256
    ensures forall k :: k in SingleByteRanks(form, bytes) ==> exists i :: 0 <= i < |bytes| && k == ByteKey(form, bytes[i])
    decreases |bytes|
  {
    if |bytes| > 0 {
      var init := bytes[..|bytes| - 1];
      SingleByteRanksKeys(form, init);
      forall k | k in SingleByteRanks(form, bytes)
        ensures exists i :: 0 <= i < |bytes| && k == ByteKey(form, bytes[i])
      {
        if k != ByteKey(form, bytes[|bytes| - 1]) {
          assert SingleByteRanks(form, bytes) == SingleByteRanks(form, init)[ByteKey(form, bytes[|bytes| - 1]) := |bytes| - 1];
          assert k in SingleByteRanks(form, init);
          var i :| 0 <= i < |init| && k == ByteKey(form, init[i]);
          assert bytes[i] == init[i];
        }
      }
    }
  }

  /** The key of a merge line's two halves, each decoded from the data-gym alphabet. */
  function MergeKey(form: KeyForm, gym: map<char, int>, merge: seq<string>): Bytes
    requires ByteValued(gym) && |merge| >= 2
  {
    Key(form, DecodeGym(gym, merge[0]) + DecodeGym(gym, merge[1]))
  }

  /** Go's panic message for reading merge[1] of a merge with fewer than two parts. */
  function IndexPanic(length: nat): string {
    if length == 0 then "index out of range [0] with length 0" else "index out of range [1] with length 1"
  }

  /**
   * The merged tokens, in order: the j-th merge gets rank n + j, a later merge overwriting an
   * earlier one with the same key; a merge with fewer than two parts panics.
   */
  function AddMerges(form: KeyForm, gym: map<char, int>, ranks: map<Bytes, nat>, merges: seq<seq<string>>, n: nat): Result<map<Bytes, nat>, LoadError>
    requires ByteValued(gym)
  {
    if |merges| == 0 then Ok(ranks)
    else
      var before := AddMerges(form, gym, ranks, merges[..|merges| - 1], n);
      var merge := merges[|merges| - 1];
      if before.Err? then before
      else if |merge| < 2 then Err(Panicked(IndexPanic(|merge|)))
      else Ok(before.value[MergeKey(form, gym, merge) := n + |merges| - 1])
  }

  /** The merges fail exactly when one of them has fewer than two parts. */
  lemma {:induction false} AddMergesFails(form: KeyForm, gym: map<char, int>, ranks: map<Bytes, nat>, merges: seq<seq<string>>, n: nat)
    requires ByteValued(gym)
    ensures AddMerges(form, gym, ranks, merges, n).Err? <==> exists j :: 0 <= j < |merges| && |merges[j]| < 2
    decreases |merges|
  {
    if |merges| > 0 {
      var init := merges[..|merges| - 1];
      AddMergesFails(form, gym, ranks, init, n);
      assert forall j :: 0 <= j < |init| ==> init[j] == merges[j];
    }
  }

  /** A failure carries the panic of the first merge with fewer than two parts. */
  lemma {:induction false} AddMergesFirstPanic(form: KeyForm, gym: map<char, int>, ranks: map<Bytes, nat>, merges: seq<seq<string>>, n: nat, j: nat)
    requires ByteValued(gym)
    requires j < |merges| && |merges[j]| < 2 && forall i :: 0 <= i < j ==> |merges[i]| >= 2
    ensures AddMerges(form, gym, ranks, merges, n) == Err(Panicked(IndexPanic(|merges[j]|)))
    decreases |merges|
  {
    var init := merges[..|merges| - 1];
    if j < |init| {
      AddMergesFirstPanic(form, gym, ranks, init, n, j);
    } else {
      AddMergesFails(form, gym, ranks, init, n);
      assert forall i :: 0 <= i < |init| ==> init[i] == merges[i];
    }
  }

  /** One more well-formed merge after successful ones gets the next rank. */
  lemma AddMergesStep(form: KeyForm, gym: map<char, int>, ranks: map<Bytes, nat>, merges: seq<seq<string>>, n: nat, i: nat, m: map<Bytes, nat>)
    requires ByteValued(gym) && i < |merges| && |merges[i]| >= 2
    requires AddMerges(form, gym, ranks, merges[..i], n) == Ok(m)
    ensures AddMerges(form, gym, ranks, merges[..i + 1], n) == Ok(m[MergeKey(form, gym, merges[i]) := n + i])
  {
    assert merges[..i + 1][..i] == merges[..i];
  }

  /** After successful merges every merge has two parts and its key a rank from n + j on: later duplicates win. */
  lemma {:induction false} AddMergesRanks(form: KeyForm, gym: map<char, int>, ranks: map<Bytes, nat>, merges: seq<seq<string>>, n: nat)
    requires ByteValued(gym) && AddMerges(form, gym, ranks, merges, n).Ok?
    ensures forall j :: 0 <= j < |merges| ==> |merges[j]| >= 2
    ensures forall j :: 0 <= j < |merges| ==>
      MergeKey(form, gym, merges[j]) in AddMerges(form, gym, ranks, merges, n).value &&
      n + j <= AddMerges(form, gym, ranks, merges, n).value[MergeKey(form, gym, merges[j])] < n + |merges|
    decreases |merges|
  {
    if |merges| > 0 {
      var init := merges[..|merges| - 1];
      var m := AddMerges(form, gym, ranks, init, n).value;
      AddMergesRanks(form, gym, ranks, init, n);
      forall j | 0 <= j < |merges|
        ensures |merges[j]| >= 2
        ensures MergeKey(form, gym, merges[j]) in AddMerges(form, gym, ranks, merges, n).value
        ensures n + j <= AddMerges(form, gym, ranks, merges, n).value[MergeKey(form, gym, merges[j])] < n + |merges|
      {
        if j < |init| {
          assert init[j] == merges[j];
        }
      }
    }
  }

  /** Successful merges keep every key they started from, with its rank unless a merge re-ranks it. */
  lemma {:induction false} AddMergesKeeps(form: KeyForm, gym: map<char, int>, ranks: map<Bytes, nat>, merges: seq<seq<string>>, n: nat)
    requires ByteValued(gym) && AddMerges(form, gym, ranks, merges, n).Ok?
    ensures forall k :: k in ranks ==> k in AddMerges(form, gym, ranks, merges, n).value
    ensures forall k :: k in ranks && (forall j :: 0 <= j < |merges| && |merges[j]| >= 2 ==> MergeKey(form, gym, merges[j]) != k) ==>
      AddMerges(form, gym, ranks, merges, n).value[k] == ranks[k]
    decreases |merges|
  {
    if |merges| > 0 {
      var init := merges[..|merges| - 1];
      AddMergesKeeps(form, gym, ranks, init, n);
      assert forall j :: 0 <= j < |init| ==> init[j] == merges[j];
    }
  }

  /** Once the merges have failed, further merges keep the failure. */
  lemma {:induction false} AddMergesErrorSticks(form: KeyForm, gym: map<char, int>, ranks: map<Bytes, nat>, merges: seq<seq<string>>, n: nat, i: nat)
    requires ByteValued(gym) && i <= |merges| && AddMerges(form, gym, ranks, merges[..i], n).Err?
    ensures AddMerges(form, gym, ranks, merges, n) == AddMerges(form, gym, ranks, merges[..i], n)
    decreases |merges| - i
  {
    if i < |merges| {
      assert merges[..i + 1][..i] == merges[..i];
      AddMergesErrorSticks(form, gym, ranks, merges, n, i + 1);
    } else {
      assert merges[..i] == merges;
    }
  }

  /** The merge loop: consecutive ranks from n, keyed by the decoded halves of each merge. */
  method MergeRanks(gym: map<char, int>, ranks: map<Bytes, nat>, bpeMerges: seq<seq<string>>, n: nat) returns (r: Result<map<Bytes, nat>, LoadError>)
    requires ByteValued(gym)
    ensures r == AddMerges(Utf8Keys, gym, ranks, bpeMerges, n)
  {
    var bpeRanks := ranks;
    var next := n;
    for i := 0 to |bpeMerges|
      invariant AddMerges(Utf8Keys, gym, ranks, bpeMerges[..i], n) == Ok(bpeRanks)
      invariant next == n + i
    {
      var merge := bpeMerges[i];
      if |merge| < 2 {
        assert bpeMerges[..i + 1][..i] == bpeMerges[..i];
        AddMergesErrorSticks(Utf8Keys, gym, ranks, bpeMerges, n, i + 1);
        return Err(Panicked(IndexPanic(|merge|)));
      }
      var first := DecodeDataGym(gym, merge[0]);
      var second := DecodeDataGym(gym, merge[1]);
      AddMergesStep(Utf8Keys, gym, ranks, bpeMerges, n, i, bpeRanks);
      bpeRanks := bpeRanks[Key(Utf8Keys, first + second) := next];
      next := next + 1;
    }
    assert bpeMerges[..|bpeMerges|] == bpeMerges;
    r := Ok(bpeRanks);
  }

  /** The key an encoder JSON entry is loaded under: its name decoded from the data-gym alphabet. */
  function JsonKey(form: KeyForm, gym: map<char, int>, name: string): Bytes
    requires ByteValued(gym)
  {
    Key(form, DecodeGym(gym, name))
  }

  /**
   * `loaded` is what the encoder loop can produce from the JSON entries: every entry's decoded
   * name is a key, and every key holds the rank of an entry whose name decodes to it. When two
   * names decode alike, which rank survives depends on Go's map iteration order.
   */
  predicate LoadedFrom(form: KeyForm, gym: map<char, int>, encoderMap: map<string, nat>, loaded: map<Bytes, nat>)
    requires ByteValued(gym)
  {
    (forall name :: name in encoderMap ==> JsonKey(form, gym, name) in loaded) &&
    (forall key :: key in loaded ==> exists name :: name in encoderMap && JsonKey(form, gym, name) == key && loaded[key] == encoderMap[name])
  }

  /** The encoder loop: each JSON entry stored under its decoded name, in map iteration order. */
  method LoadEncoder(gym: map<char, int>, encoderMap: map<string, nat>) returns (encoderLoaded: map<Bytes, nat>)
    requires ByteValued(gym)
    ensures LoadedFrom(Utf8Keys, gym, encoderMap, encoderLoaded)
  {
    encoderLoaded := map[];
    var rest := encoderMap.Keys;
    while rest != {}
      invariant rest <= encoderMap.Keys
      invariant forall name :: name in encoderMap && name !in rest ==> JsonKey(Utf8Keys, gym, name) in encoderLoaded
      invariant forall key :: key in encoderLoaded ==>
        exists name :: name in encoderMap && name !in rest && JsonKey(Utf8Keys, gym, name) == key && encoderLoaded[key] == encoderMap[name]
      decreases |rest|
    {
      var k :| k in rest;
      var result := DecodeDataGym(gym, k);
      encoderLoaded := encoderLoaded[Key(Utf8Keys, result) := encoderMap[k]];
      rest := rest - {k};
    }
  }

  /** When no two names decode alike, each name's rank is loaded under its key. */
  lemma LoadedFromValues(form: KeyForm, gym: map<char, int>, encoderMap: map<string, nat>, loaded: map<Bytes, nat>)
    requires ByteValued(gym)
    requires forall a, b :: a in encoderMap && b in encoderMap && JsonKey(form, gym, a) == JsonKey(form, gym, b) ==> a == b
    requires LoadedFrom(form, gym, encoderMap, loaded)
    ensures forall name :: name in encoderMap ==> loaded[JsonKey(form, gym, name)] == encoderMap[name]
  {
    forall name | name in encoderMap
      ensures loaded[JsonKey(form, gym, name)] == encoderMap[name]
    {
      var key := JsonKey(form, gym, name);
      var other :| other in encoderMap && JsonKey(form, gym, other) == key && loaded[key] == encoderMap[other];
    }
  }

  /** When no two names decode alike, the loaded encoder does not depend on the iteration order. */
  lemma LoadedFromUnique(form: KeyForm, gym: map<char, int>, encoderMap: map<string, nat>, loaded: map<Bytes, nat>, other: map<Bytes, nat>)
    requires ByteValued(gym)
    requires forall a, b :: a in encoderMap && b in encoderMap && JsonKey(form, gym, a) == JsonKey(form, gym, b) ==> a == b
    requires LoadedFrom(form, gym, encoderMap, loaded) && LoadedFrom(form, gym, encoderMap, other)
    ensures loaded == other
  {
    LoadedAgree(form, gym, encoderMap, loaded, other);
    LoadedAgree(form, gym, encoderMap, other, loaded);
    MapsAgree(loaded, other);
  }

  /** Each key of one loaded encoder is a key of the other, with the same rank. */
  lemma LoadedAgree(form: KeyForm, gym: map<char, int>, encoderMap: map<string, nat>, loaded: map<Bytes, nat>, other: map<Bytes, nat>)
    requires ByteValued(gym)
    requires forall a, b :: a in encoderMap && b in encoderMap && JsonKey(form, gym, a) == JsonKey(form, gym, b) ==> a == b
    requires LoadedFrom(form, gym, encoderMap, loaded) && LoadedFrom(form, gym, encoderMap, other)
    ensures forall key :: key in loaded ==> key in other && other[key] == loaded[key]
  {
    forall key | key in loaded
      ensures key in other && other[key] == loaded[key]
    {
      var name :| name in encoderMap && JsonKey(form, gym, name) == key && loaded[key] == encoderMap[name];
      assert key in other;
      var name2 :| name2 in encoderMap && JsonKey(form, gym, name2) == key && other[key] == encoderMap[name2];
      assert name == name2;
    }
  }

  /** encoderLoaded[k] of Go: a missing key reads as 0. */
  function Lookup(m: map<Bytes, nat>, k: Bytes): nat {
    if k in m then m[k] else 0
  }

  /** The closing assertions: the sizes must agree, then every rank must match the loaded one. */
  function CheckRanks(bpeRanks: map<Bytes, nat>, encoderLoaded: map<Bytes, nat>): Option<LoadError> {
    if |bpeRanks| != |encoderLoaded| then Some(Failed("assertion failed: len(bpeRanks) != len(encoderLoaded)"))
    else if exists k :: k in bpeRanks && Lookup(encoderLoaded, k) != bpeRanks[k] then Some(Failed("assertion failed: bpeRanks[k] != encoderLoaded[k]"))
    else None
  }

  /** The closing assertions as a loop over the ranks in map iteration order. */
  method CompareRanks(bpeRanks: map<Bytes, nat>, encoderLoaded: map<Bytes, nat>) returns (err: Option<LoadError>)
    ensures err == CheckRanks(bpeRanks, encoderLoaded)
  {
    if |bpeRanks| != |encoderLoaded| {
      return Some(Failed("assertion failed: len(bpeRanks) != len(encoderLoaded)"));
    }
    var rest := bpeRanks.Keys;
    while rest != {}
      invariant rest <= bpeRanks.Keys
      invariant forall k :: k in bpeRanks && k !in rest ==> Lookup(encoderLoaded, k) == bpeRanks[k]
      decreases |rest|
    {
      var k :| k in rest;
      if Lookup(encoderLoaded, k) != bpeRanks[k] {
        return Some(Failed("assertion failed: bpeRanks[k] != encoderLoaded[k]"));
      }
      rest := rest - {k};
    }
    return None;
  }

  /** Equal maps pass the check. */
  lemma CheckRanksComplete(bpeRanks: map<Bytes, nat>, encoderLoaded: map<Bytes, nat>)
    requires bpeRanks == encoderLoaded
    ensures CheckRanks(bpeRanks, encoderLoaded) == None
  {
  }

  /**
   * What passing the check guarantees: every rank is matched, except that a key missing from the
   * encoder passes when its rank is 0. Without a rank-0 entry missing, the two maps are equal.
   */
  lemma CheckRanksSound(bpeRanks: map<Bytes, nat>, encoderLoaded: map<Bytes, nat>)
    requires CheckRanks(bpeRanks, encoderLoaded) == None
    ensures |bpeRanks| == |encoderLoaded|
    ensures forall k :: k in bpeRanks && k in encoderLoaded ==> encoderLoaded[k] == bpeRanks[k]
    ensures forall k :: k in bpeRanks && k !in encoderLoaded ==> bpeRanks[k] == 0
    ensures (forall k :: k in bpeRanks ==> k in encoderLoaded) ==> bpeRanks == encoderLoaded
  {
    if forall k :: k in bpeRanks ==> k in encoderLoaded {
      SubsetOfSameSize(bpeRanks.Keys, encoderLoaded.Keys);
    }
  }

  /** A subset as large as its superset is the whole superset. */
  lemma SubsetOfSameSize<T>(a: set<T>, b: set<T>)
    requires a <= b && |a| == |b|
    ensures a == b
  {
    if b - a != {} {
      var x :| x in b - a;
      assert a <= b - {x};
      assert |b - {x}| == |b| - 1;
      SubsetSize(a, b - {x});
    }
  }

  /** A subset is no larger than its superset. */
  lemma {:induction false} SubsetSize<T>(a: set<T>, b: set<T>)
    requires a <= b
    ensures |a| <= |b|
    decreases |b|
  {
    if a != {} {
      var x :| x in a;
      SubsetSize(a - {x}, b - {x});
    }
  }

  /** The check lets an encoder through that differs from the ranks: a missing rank-0 key is not noticed. */
  lemma CheckRanksMissesRankZero()
    ensures CheckRanks(map[[0x21] := 0], map[[0x22] := 5]) == None
    ensures map[[0x21] := 0] != map[[0x22] := 5]
  {
    var bpeRanks: map<Bytes, nat> := map[[0x21] := 0];
    var encoderLoaded: map<Bytes, nat> := map[[0x22] := 5];
    assert [0x21] !in encoderLoaded;
    assert bpeRanks.Keys == {[0x21]};
  }

  /** rankToIntByte: the printable non-space bytes, then the rest. */
  function RankBytes(): (r: seq<int>)
    ensures forall i :: 0 <= i < |r| ==> 0 <= r[i] < 256
  {
    Printables(ByteCount) + NonPrintables(ByteCount)
  }

  /** The vocabulary lines between the header and the final line, each split at its spaces. */
  function SplitMerges(lines: seq<string>): (merges: seq<seq<string>>)
    ensures |merges| == |lines|
  {
    seq(|lines|, i requires 0 <= i < |lines| => Split(lines[i], ' '))
  }

  /** The merges of a data-gym vocabulary: the lines between the header and the final line, split at their spaces. */
  function VocabMerges(vocabBpe: string): seq<seq<string>> {
    var lines := Split(vocabBpe, '\n');
    if |lines| < 2 then [] else SplitMerges(lines[1..|lines| - 1])
  }

  /**
   * The ranks read from a data-gym vocabulary: the 256 single bytes, then one merge per line
   * between the header line and the final line. A vocabulary without a newline panics on the
   * slice of its lines.
   */
  function VocabRanks(form: KeyForm, gym: map<char, int>, vocabBpe: string): Result<map<Bytes, nat>, LoadError>
    requires ByteValued(gym)
  {
    if |Split(vocabBpe, '\n')| < 2 then Err(Panicked("slice bounds out of range [1:0]"))
    else
      var single := SingleByteRanks(form, RankBytes());
      AddMerges(form, gym, single, VocabMerges(vocabBpe), |single|)
  }

  /** The outcome once the encoder is loaded: its two special tokens dropped, then the closing assertions. */
  function Verified(bpeRanks: map<Bytes, nat>, encoderLoaded: map<Bytes, nat>): Result<map<Bytes, nat>, LoadError> {
    var err := CheckRanks(bpeRanks, encoderLoaded - {Key(Utf8Keys, EndOfText)} - {Key(Utf8Keys, StartOfText)});
    if err.Some? then Err(err.value) else Ok(bpeRanks)
  }

  /**
   * CovertVocabBPEAndEncoderJSONToMergeableBPERanks, over the vocabulary text and the decoded
   * encoder JSON: the vocabulary's ranks, or its panic; the encoder is read only after them.
   */
  method CovertVocabBpeAndEncoderJsonToMergeableBpeRanks(vocabBpe: string, encoderMap: map<string, nat>)
    returns (r: Result<map<Bytes, nat>, LoadError>, ghost encoderLoaded: map<Bytes, nat>)
    ensures VocabRanks(Utf8Keys, DataGym(), vocabBpe).Err? ==> r == VocabRanks(Utf8Keys, DataGym(), vocabBpe)
    ensures VocabRanks(Utf8Keys, DataGym(), vocabBpe).Ok? ==>
      LoadedFrom(Utf8Keys, DataGym(), encoderMap, encoderLoaded) && r == Verified(VocabRanks(Utf8Keys, DataGym(), vocabBpe).value, encoderLoaded)
  {
    var rankToIntByte, dataGymByteToByte := RankToIntByte();
    encoderLoaded := map[];
    var vocabBpeLines := Split(vocabBpe, '\n');
    if |vocabBpeLines| < 2 {
      return Err(Panicked("slice bounds out of range [1:0]")), encoderLoaded;
    }
    var bpeMerges := MergeLines(vocabBpeLines[1..|vocabBpeLines| - 1]);
    var bpeRanks := SingleRanks(rankToIntByte);
    var n := |bpeRanks|;
    var merged := MergeRanks(dataGymByteToByte, bpeRanks, bpeMerges, n);
    if merged.Err? {
      return merged, encoderLoaded;
    }
    r, encoderLoaded := CheckEncoder(dataGymByteToByte, merged.value, encoderMap);
  }

  /** The loop splitting every merge line at its spaces. */
  method MergeLines(lines: seq<string>) returns (bpeMerges: seq<seq<string>>)
    ensures bpeMerges == SplitMerges(lines)
  {
    bpeMerges := [];
    for i := 0 to |lines|
      invariant bpeMerges == SplitMerges(lines[..i])
    {
      bpeMerges := bpeMerges + [Split(lines[i], ' ')];
    }
    assert lines[..|lines|] == lines;
  }

  /** The loop giving every byte of rankToIntByte its position as rank. */
  method SingleRanks(rankToIntByte: seq<int>) returns (bpeRanks: map<Bytes, nat>)
    requires forall i :: 0 <= i < |rankToIntByte| ==> 0 <= rankToIntByte[i] < 256
    ensures bpeRanks == SingleByteRanks(Utf8Keys, rankToIntByte)
  {
    bpeRanks := map[];
    for i := 0 to |rankToIntByte|
      invariant bpeRanks == SingleByteRanks(Utf8Keys, rankToIntByte[..i])
    {
      assert rankToIntByte[..i + 1][..i] == rankToIntByte[..i];
      bpeRanks := bpeRanks[ByteKey(Utf8Keys, rankToIntByte[i]) := i];
    }
    assert rankToIntByte[..|rankToIntByte|] == rankToIntByte;
  }

  /** Loads the encoder JSON, drops the two special tokens and runs the closing assertions. */
  method CheckEncoder(gym: map<char, int>, bpeRanks: map<Bytes, nat>, encoderMap: map<string, nat>)
    returns (r: Result<map<Bytes, nat>, LoadError>, ghost encoderLoaded: map<Bytes, nat>)
    requires ByteValued(gym)
    ensures LoadedFrom(Utf8Keys, gym, encoderMap, encoderLoaded)
    ensures r == Verified(bpeRanks, encoderLoaded)
  {
    var loaded := LoadEncoder(gym, encoderMap);
    encoderLoaded := loaded;
    loaded := loaded - {Key(Utf8Keys, EndOfText)};
    loaded := loaded - {Key(Utf8Keys, StartOfText)};
    var err := CompareRanks(bpeRanks, loaded);
    if err.Some? {
      return Err(err.value), encoderLoaded;
    }
    return Ok(bpeRanks), encoderLoaded;
  }

  /** Every rune takes at least one byte of its key. */
  lemma {:induction false} KeyLength(form: KeyForm, rs: string)
    requires ByteRunes(rs)
    ensures |Key(form, rs)| >= |rs|
    decreases |rs|
  {
    if |rs| > 0 {
      KeyLength(form, rs[..|rs| - 1]);
    }
  }

  /** No UTF-8 key is a lone byte from 0x80 up. */
  lemma Utf8KeyNotHighByte(rs: string, b: int)
    requires ByteRunes(rs) && 0x80 <= b < 256
    ensures Key(Utf8Keys, rs) != [b]
  {
    if |rs| > 0 {
      var init, last := rs[..|rs| - 1], rs[|rs| - 1];
      KeyLength(Utf8Keys, init);
      assert Key(Utf8Keys, rs) == Key(Utf8Keys, init) + RuneUtf8(last);
      if |init| == 0 {
        assert Key(Utf8Keys, init) == [];
        assert Key(Utf8Keys, rs) == RuneUtf8(last);
        if last as int < 0x80 {
          assert RuneUtf8(last)[0] == last as int;
        } else {
          assert |RuneUtf8(last)| == 2;
        }
      } else {
        assert |Key(Utf8Keys, rs)| >= 2;
      }
    }
  }

  /** Successful merges add no key but the merge keys. */
  lemma {:induction false} AddMergesKeys(form: KeyForm, gym: map<char, int>, ranks: map<Bytes, nat>, merges: seq<seq<string>>, n: nat)
    requires ByteValued(gym) && AddMerges(form, gym, ranks, merges, n).Ok?
    ensures forall k :: k in AddMerges(form, gym, ranks, merges, n).value ==>
      k in ranks || exists j :: 0 <= j < |merges| && |merges[j]| >= 2 && k == MergeKey(form, gym, merges[j])
    decreases |merges|
  {
    if |merges| > 0 {
      var init := merges[..|merges| - 1];
      AddMergesKeys(form, gym, ranks, init, n);
      forall k | k in AddMerges(form, gym, ranks, merges, n).value && k !in ranks
        ensures exists j :: 0 <= j < |merges| && |merges[j]| >= 2 && k == MergeKey(form, gym, merges[j])
      {
        var last := merges[|merges| - 1];
        if k != MergeKey(form, gym, last) {
          var j :| 0 <= j < |init| && |init[j]| >= 2 && k == MergeKey(form, gym, init[j]);
          assert merges[j] == init[j];
        }
      }
    }
  }

  /** Over a list holding every byte once, every byte is a single-byte key. */
  lemma SingleByteRanksOfPermutation(form: KeyForm, bytes: seq<int>)
    requires forall i :: 0 <= i < |bytes| ==> 0 <= bytes[i] < 256
    requires forall i, j :: 0 <= i < j < |bytes| ==> bytes[i] != bytes[j]
    requires forall b :: 0 <= b < 256 ==> b in bytes
    ensures |SingleByteRanks(form, bytes)| == |bytes|
    ensures forall b :: 0 <= b < 256 ==> ByteKey(form, b) in SingleByteRanks(form, bytes)
  {
    SingleByteRanksSize(form, bytes);
    SingleByteRanksEntries(form, bytes);
    forall b | 0 <= b < 256
      ensures ByteKey(form, b) in SingleByteRanks(form, bytes)
    {
      assert b in bytes;
      var i :| 0 <= i < |bytes| && bytes[i] == b;
    }
  }

  /** The single-byte ranks of the data-gym loader: one per byte, at its position in rankToIntByte. */
  lemma SingleByteRanksOfAlphabet(form: KeyForm)
    ensures |RankBytes()| == 256 && |SingleByteRanks(form, RankBytes())| == 256
    ensures forall b :: 0 <= b < 256 ==> ByteKey(form, b) in SingleByteRanks(form, RankBytes())
    ensures forall i :: 0 <= i < |RankBytes()| ==> SingleByteRanks(form, RankBytes())[ByteKey(form, RankBytes()[i])] == i
  {
    RankToIntBytePermutation();
    SingleByteRanksOfPermutation(form, RankBytes());
    SingleByteRanksEntries(form, RankBytes());
  }

  /**
   * The merges of a successful vocabulary get consecutive ranks after the 256 single bytes: the
   * j-th merge (on line j + 1) ranks from 256 + j on, below 256 plus the number of merges.
   */
  lemma VocabMergeRanks(form: KeyForm, gym: map<char, int>, vocabBpe: string)
    requires ByteValued(gym) && VocabRanks(form, gym, vocabBpe).Ok?
    ensures |Split(vocabBpe, '\n')| >= 2 && |VocabMerges(vocabBpe)| == |Split(vocabBpe, '\n')| - 2
    ensures forall j :: 0 <= j < |VocabMerges(vocabBpe)| ==> VocabMerges(vocabBpe)[j] == Split(Split(vocabBpe, '\n')[j + 1], ' ')
    ensures forall j :: 0 <= j < |VocabMerges(vocabBpe)| ==>
      |VocabMerges(vocabBpe)[j]| >= 2 &&
      MergeKey(form, gym, VocabMerges(vocabBpe)[j]) in VocabRanks(form, gym, vocabBpe).value &&
      256 + j <= VocabRanks(form, gym, vocabBpe).value[MergeKey(form, gym, VocabMerges(vocabBpe)[j])] < 256 + |VocabMerges(vocabBpe)|
  {
    var single := SingleByteRanks(form, RankBytes());
    SingleByteRanksOfAlphabet(form);
    AddMergesRanks(form, gym, single, VocabMerges(vocabBpe), |single|);
  }

  /**
   * As written, the loader keys every rune by its UTF-8 encoding, so no byte from 0x80 up is a
   * key of its own: the byte-pair encoder, which looks up raw bytes, finds no rank for them.
   */
  lemma Utf8KeysMissHighBytes(gym: map<char, int>, vocabBpe: string, b: int)
    requires ByteValued(gym) && VocabRanks(Utf8Keys, gym, vocabBpe).Ok? && 0x80 <= b < 256
    ensures [b] !in VocabRanks(Utf8Keys, gym, vocabBpe).value
  {
    var single := SingleByteRanks(Utf8Keys, RankBytes());
    SingleRanksKeepHighByteOut(RankBytes(), b);
    MergesKeepHighByteOut(gym, single, VocabMerges(vocabBpe), |single|, b);
  }

  /** No UTF-8 single-byte rank is keyed by a lone high byte. */
  lemma SingleRanksKeepHighByteOut(bytes: seq<int>, b: int)
    requires forall i :: 0 <= i < |bytes| ==> 0 <= bytes[i] < 256
    requires 0x80 <= b < 256
    ensures [b] !in SingleByteRanks(Utf8Keys, bytes)
  {
    SingleByteRanksKeys(Utf8Keys, bytes);
    forall i | 0 <= i < |bytes|
      ensures ByteKey(Utf8Keys, bytes[i]) != [b]
    {
      Utf8KeyNotHighByte([bytes[i] as char], b);
    }
  }

  /** The byte 0xE9 is ranked under the two bytes C3 A9, its UTF-8 encoding as a rune. */
  lemma HighByteKeyIsUtf8()
    ensures ByteKey(Utf8Keys, 0xE9) == [0xC3, 0xA9]
    ensures ByteKey(ByteKeys, 0xE9) == [0xE9]
  {
    KeyOfRune(Utf8Keys, 0xE9 as char);
    KeyOfRune(ByteKeys, 0xE9 as char);
  }

  /** UTF-8 merges never add a lone high byte as a key. */
  lemma MergesKeepHighByteOut(gym: map<char, int>, ranks: map<Bytes, nat>, merges: seq<seq<string>>, n: nat, b: int)
    requires ByteValued(gym) && AddMerges(Utf8Keys, gym, ranks, merges, n).Ok? && 0x80 <= b < 256
    ensures [b] !in ranks ==> [b] !in AddMerges(Utf8Keys, gym, ranks, merges, n).value
  {
    AddMergesKeys(Utf8Keys, gym, ranks, merges, n);
    forall j | 0 <= j < |merges| && |merges[j]| >= 2
      ensures MergeKey(Utf8Keys, gym, merges[j]) != [b]
    {
      Utf8KeyNotHighByte(DecodeGym(gym, merges[j][0]) + DecodeGym(gym, merges[j][1]), b);
    }
  }

  /**
   * Keyed by raw bytes, as the reference tiktoken keys them, every single byte has a rank, which
   * is what the byte-pair encoder needs to encode any text and decode it back.
   */
  lemma ByteKeysRankEveryByte(gym: map<char, int>, vocabBpe: string)
    requires ByteValued(gym) && VocabRanks(ByteKeys, gym, vocabBpe).Ok?
    ensures forall b :: 0 <= b < 256 ==> [b] in VocabRanks(ByteKeys, gym, vocabBpe).value
  {
    var merges := VocabMerges(vocabBpe);
    var single := SingleByteRanks(ByteKeys, RankBytes());
    SingleByteRanksOfAlphabet(ByteKeys);
    AddMergesKeeps(ByteKeys, gym, single, merges, |single|);
    assert VocabRanks(ByteKeys, gym, vocabBpe) == AddMerges(ByteKeys, gym, single, merges, |single|);
    forall b | 0 <= b < 256
      ensures [b] in VocabRanks(ByteKeys, gym, vocabBpe).value
    {
      KeyOfRune(ByteKeys, b as char);
      assert ByteKey(ByteKeys, b) == [b];
      assert ByteKey(ByteKeys, b) in single;
    }
  }
}
