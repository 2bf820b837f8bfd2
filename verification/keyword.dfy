/**
 * Extraction of double-quoted keywords from a query. The program matches the regular expression
 * `"([^"]*)"` leftmost and without overlap, so the matches are the texts between the first and
 * second quote, the third and fourth, and so on; each is trimmed of white space and dropped when
 * nothing is left. The model scans the query once, pairing quotes as it meets them, and proves the
 * scan equal to a reference stated over the pieces of the query split at its quotes.
 */
module Keywords {
  import opened GoStrings

  const Quote: char := '"'

  /** What one closed quotation contributes: its trimmed text, unless that is empty. */
  function Emit(segment: string): (r: seq<string>)
    ensures |r| <= 1
  {
    var m := TrimSpace(segment);
    if m != "" then [m] else []
  }

  /**
   * The scanner as a function of its state: `inQuote` says whether an opening quote is pending,
   * `cur` holds the text read since it.
   */
  function Scan(s: string, inQuote: bool, cur: string): seq<string>
    decreases |s|
  {
    if |s| == 0 then []
    else if s[0] == Quote then
      (if inQuote then Emit(cur) + Scan(s[1..], false, "") else Scan(s[1..], true, ""))
    else Scan(s[1..], inQuote, if inQuote then cur + [s[0]] else cur)
  }

  /** The quoted pieces of a split at quotes: pieces 1, 3, 5, ..., each with a piece after it. */
  function Paired(parts: seq<string>): seq<string>
    decreases |parts|
  {
    if |parts| < 3 then [] else [parts[1]] + Paired(parts[2..])
  }

  /** Emit applied to each segment, in order. */
  function EmitAll(segments: seq<string>): seq<string>
    decreases |segments|
  {
    if |segments| == 0 then [] else Emit(segments[0]) + EmitAll(segments[1..])
  }

  /** The reference: the trimmed, non-empty texts between paired quotes. */
  function QuotedKeywords(s: string): seq<string> {
    EmitAll(Paired(Split(s, Quote)))
  }

  /** ExtractQuotedSubstrings in retrievers/keyword.go. */
  method ExtractQuotedSubstrings(input: string) returns (substrings: seq<string>)
    ensures substrings == QuotedKeywords(input)
  {
    substrings := [];
    var inQuote := false;
    var cur := "";
    for i := 0 to |input|
      invariant substrings + Scan(input[i..], inQuote, cur) == Scan(input, false, "")
    {
      assert input[i..][1..] == input[i + 1..];
      if input[i] == Quote {
        if inQuote {
          var m := TrimSpace(cur);
          if m != "" {
            substrings := substrings + [m];
          }
        }
        inQuote := !inQuote;
        cur := "";
      } else if inQuote {
        cur := cur + [input[i]];
      }
    }
    ScanMatchesReference(input, "");
  }

  /** Paired reads only the pieces after the first, so the first piece does not matter. */
  lemma PairedIgnoresFirst(p: seq<string>, q: seq<string>)
    requires |p| == |q| && |p| >= 1 && p[1..] == q[1..]
    ensures Paired(p) == Paired(q)
  {
    if |p| >= 3 {
      assert p[1] == p[1..][0] && q[1] == q[1..][0];
      assert p[2..] == p[1..][1..] && q[2..] == q[1..][1..];
    }
  }

  /** Outside a quotation, the scan produces the reference keywords of the rest. */
  lemma {:induction false} ScanMatchesReference(s: string, x: string)
    ensures Scan(s, false, x) == QuotedKeywords(s)
    decreases |s|, 1
  {
    if |s| > 0 {
      var r := Split(s[1..], Quote);
      if s[0] == Quote {
        assert Split(s, Quote) == [""] + r;
        ScanInQuote(s[1..], "");
        assert Scan(s[1..], true, "") == AfterOpen(r, "");
        if |r| >= 2 {
          assert ([""] + r)[2..] == r[1..];
          assert ([""] + r)[1] == r[0];
          assert "" + r[0] == r[0];
          assert EmitAll([r[0]] + Paired(r[1..])) == Emit(r[0]) + EmitAll(Paired(r[1..]));
        }
      } else {
        ScanMatchesReference(s[1..], x);
        assert Split(s, Quote) == [[s[0]] + r[0]] + r[1..];
        PairedIgnoresFirst(Split(s, Quote), r);
      }
    }
  }

  /**
   * What follows an opening quote, given the pieces of the rest split at quotes and the text `cur`
   * read since the quote: the first piece closes the quotation if another piece follows.
   */
  function AfterOpen(parts: seq<string>, cur: string): seq<string> {
    if |parts| >= 2 then Emit(cur + parts[0]) + EmitAll(Paired(parts[1..])) else []
  }

  /** Inside a quotation, the scan closes it at the next quote (if any), then continues outside. */
  lemma {:induction false} ScanInQuote(s: string, cur: string)
    ensures Scan(s, true, cur) == AfterOpen(Split(s, Quote), cur)
    decreases |s|, 2
  {
    if |s| > 0 {
      if s[0] == Quote {
        ScanClosesQuote(s, cur);
      } else {
        ScanReadsQuoted(s, cur);
      }
    }
  }

  lemma {:induction false} ScanClosesQuote(s: string, cur: string)
    requires |s| > 0 && s[0] == Quote
    ensures Scan(s, true, cur) == AfterOpen(Split(s, Quote), cur)
    decreases |s|, 1
  {
    var r := Split(s[1..], Quote);
    assert Split(s, Quote) == [""] + r;
    assert cur + "" == cur;
    ScanMatchesReference(s[1..], "");
    assert ([""] + r)[1..] == r;
  }

  lemma {:induction false} ScanReadsQuoted(s: string, cur: string)
    requires |s| > 0 && s[0] != Quote
    ensures Scan(s, true, cur) == AfterOpen(Split(s, Quote), cur)
    decreases |s|, 1
  {
    var r := Split(s[1..], Quote);
    ScanInQuote(s[1..], cur + [s[0]]);
    assert Split(s, Quote) == [[s[0]] + r[0]] + r[1..];
    AfterOpenShift(r, s[0], cur);
  }

  /** A character read inside the quotation moves from the first piece to `cur`. */
  lemma AfterOpenShift(r: seq<string>, c: char, cur: string)
    requires |r| >= 1
    ensures AfterOpen([[c] + r[0]] + r[1..], cur) == AfterOpen(r, cur + [c])
  {
    var parts := [[c] + r[0]] + r[1..];
    assert parts[1..] == r[1..];
    assert cur + ([c] + r[0]) == cur + [c] + r[0];
  }

  /** Splitting at a character yields one piece more than the character occurs. */
  lemma {:induction false} SplitCount(s: string, c: char)
    ensures |Split(s, c)| == CountChar(s, c) + 1
    decreases |s|
  {
    if |s| > 0 {
      SplitCount(s[1..], c);
    }
  }

  /** Paired yields one piece per two separators. */
  lemma {:induction false} PairedLength(parts: seq<string>)
    ensures |Paired(parts)| == (if |parts| == 0 then 0 else (|parts| - 1) / 2)
    decreases |parts|
  {
    if |parts| >= 3 {
      PairedLength(parts[2..]);
    }
  }

  lemma {:induction false} EmitAllLength(segments: seq<string>)
    ensures |EmitAll(segments)| <= |segments|
    decreases |segments|
  {
    if |segments| > 0 {
      EmitAllLength(segments[1..]);
    }
  }

  /** There are at most half as many keywords as quotes; fewer than two quotes give none. */
  lemma KeywordCount(s: string)
    ensures |QuotedKeywords(s)| <= CountChar(s, Quote) / 2
    ensures CountChar(s, Quote) < 2 ==> QuotedKeywords(s) == []
  {
    SplitCount(s, Quote);
    PairedLength(Split(s, Quote));
    EmitAllLength(Paired(Split(s, Quote)));
  }

  /** A character of a trimmed text occurs in the text. */
  lemma TrimSpaceWithin(s: string, c: char)
    requires c in TrimSpace(s)
    ensures c in s
  {
    var l := TrimLeftSpace(s);
    assert TrimRightSpace(l) == l[..|TrimRightSpace(l)|];
    assert l == s[|s| - |l|..];
  }

  /** A keyword as emitted: non-empty, no surrounding white space, and no character `c`. */
  predicate Shaped(m: string, c: char) {
    m != "" && !IsSpace(m[0]) && !IsSpace(m[|m| - 1]) && c !in m
  }

  predicate AllShaped(ms: seq<string>, c: char) {
    forall k :: 0 <= k < |ms| ==> Shaped(ms[k], c)
  }

  lemma AllShapedConcat(a: seq<string>, b: seq<string>, c: char)
    requires AllShaped(a, c) && AllShaped(b, c)
    ensures AllShaped(a + b, c)
  {
    forall k | 0 <= k < |a + b|
      ensures Shaped((a + b)[k], c)
    {
      if k >= |a| {
        assert (a + b)[k] == b[k - |a|];
      }
    }
  }

  lemma EmitShape(segment: string, c: char)
    requires c !in segment
    ensures AllShaped(Emit(segment), c)
  {
    if c in TrimSpace(segment) {
      TrimSpaceWithin(segment, c);
    }
  }

  /** The emitted texts are non-empty, have no surrounding white space, and hold only characters of the segments. */
  lemma {:induction false} EmitAllShape(segments: seq<string>, c: char)
    requires forall k :: 0 <= k < |segments| ==> c !in segments[k]
    ensures AllShaped(EmitAll(segments), c)
    decreases |segments|
  {
    if |segments| > 0 {
      EmitAllShape(segments[1..], c);
      EmitShape(segments[0], c);
      AllShapedConcat(Emit(segments[0]), EmitAll(segments[1..]), c);
    }
  }

  /** Every piece of Paired is a piece of the split. */
  lemma {:induction false} PairedFrom(parts: seq<string>, k: int)
    requires 0 <= k < |Paired(parts)|
    ensures Paired(parts)[k] in parts
    decreases |parts|
  {
    if k > 0 {
      PairedFrom(parts[2..], k - 1);
    }
  }

  /** Every keyword is non-empty, trimmed of white space, and holds no quote. */
  lemma KeywordShape(s: string)
    ensures forall k :: 0 <= k < |QuotedKeywords(s)| ==>
      var m := QuotedKeywords(s)[k];
      m != "" && !IsSpace(m[0]) && !IsSpace(m[|m| - 1]) && Quote !in m
  {
    var parts := Split(s, Quote);
    SplitPiecesLackSep(s, Quote);
    forall k | 0 <= k < |Paired(parts)|
      ensures Quote !in Paired(parts)[k]
    {
      PairedFrom(parts, k);
    }
    EmitAllShape(Paired(parts), Quote);
  }

  /** The query `"a" " "` splits at its quotes into five pieces. */
  lemma SampleSplit()
    ensures Split("\"a\" \" \"", Quote) == ["", "a", " ", " ", ""]
  {
    var t3 := " " + [Quote] + "";
    var t2 := " " + [Quote] + t3;
    var t1 := "a" + [Quote] + t2;
    var t0 := "" + [Quote] + t1;
    assert t0 == "\"a\" \" \"";
    SplitNoSep("", Quote);
    SplitPeel(" ", Quote, "");
    SplitPeel(" ", Quote, t3);
    SplitPeel("a", Quote, t2);
    SplitPeel("", Quote, t1);
  }

  /** The quoted pieces of that split are "a" and " ". */
  lemma SamplePaired()
    ensures Paired(["", "a", " ", " ", ""]) == ["a", " "]
  {
    var parts: seq<string> := ["", "a", " ", " ", ""];
    assert parts[2..] == [" ", " ", ""];
    assert parts[2..][2..] == [""];
    assert Paired([" ", " ", ""]) == [" "] + Paired([""]);
  }

  lemma EmitSamples()
    ensures Emit("a") == ["a"] && Emit(" ") == []
  {
    assert !IsSpace('a') && IsSpace(' ');
    assert TrimLeftSpace("a") == "a" && TrimRightSpace("a") == "a";
    assert " "[1..] == "";
    assert TrimLeftSpace(" ") == TrimLeftSpace("") == "";
  }

  /** Of "a" and " ", only "a" is emitted. */
  lemma SampleEmit()
    ensures EmitAll(["a", " "]) == ["a"]
  {
    EmitSamples();
    assert EmitAll([" "]) == Emit(" ") + EmitAll([]);
    assert ["a", " "][1..] == [" "];
  }

  /** `"a" " "` yields only "a": a blank quotation gives nothing. */
  lemma SampleQuery()
    ensures QuotedKeywords("\"a\" \" \"") == ["a"]
  {
    SampleSplit();
    SamplePaired();
    SampleEmit();
  }
}
