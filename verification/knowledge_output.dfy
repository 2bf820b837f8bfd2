/**
 * The message the knowledge tool hands back to the chat model. The retrieval output is cut down
 * to the part that starts at the first "Retrieved the following" and runs up to the next one (or
 * to the end), and that part is wrapped in a fixed instruction template; an output without the
 * marker becomes a fixed "no data" message. The environment is a map from variable names to values.
 */
module KnowledgeOutput {
  import opened Wrappers
  import opened GoStrings

  const Marker: string := "Retrieved the following"

  const NoData: string := "No data retrieved from knowledge base."

  /** The template lines before and after the retrieved text. */
  const Opening: string :=
    "\nUse the content within the following <KNOWLEDGE></KNOWLEDGE> tags as your learned knowledge.\n<KNOWLEDGE>\n"

  const Closing: string :=
    "\n</KNOWLEDGE>\nIf this knowledge seems irrelevant to the user query, ignore it.\n"
    + "Avoid mentioning that you retrieved the information from the context or the knowledge tool.\n"
    + "Only provide citations if explicitly asked for it and if the source references are available in the knowledge.\n"
    + "Answer in the language that the user asked the question in.\n"

  /** `p` occurs in `s` starting at index `i`. */
  predicate OccursAt(s: string, p: string, i: int) {
    0 <= i && i + |p| <= |s| && s[i..i + |p|] == p
  }

  /** The first index at or after `from` where `p` occurs in `s`, if any. */
  function FindFrom(s: string, p: string, from: nat): (r: Option<nat>)
    ensures r.Some? ==> from <= r.value && OccursAt(s, p, r.value)
    ensures r.Some? ==> forall j :: from <= j < r.value ==> !OccursAt(s, p, j)
    ensures r.None? ==> forall j :: from <= j ==> !OccursAt(s, p, j)
    decreases |s| - from
  {
    if from + |p| > |s| then None
    else if s[from..from + |p|] == p then Some(from)
    else FindFrom(s, p, from + 1)
  }

  /** strings-style containment holds exactly when there is an index where `p` occurs. */
  lemma {:induction false} ContainsIffOccurs(s: string, p: string)
    ensures Contains(s, p) <==> exists i :: OccursAt(s, p, i)
    decreases |s|
  {
    if HasPrefix(s, p) {
      assert OccursAt(s, p, 0);
    } else if |s| > 0 {
      ContainsIffOccurs(s[1..], p);
      if exists i :: OccursAt(s[1..], p, i) {
        var i :| OccursAt(s[1..], p, i);
        assert s[i + 1..i + 1 + |p|] == s[1..][i..i + |p|];
        assert OccursAt(s, p, i + 1);
      }
      if exists i :: OccursAt(s, p, i) {
        var i :| OccursAt(s, p, i);
        assert i != 0;
        assert s[1..][i - 1..i - 1 + |p|] == s[i..i + |p|];
        assert OccursAt(s[1..], p, i - 1);
      }
    }
  }

  /**
   * Where the first `p` in `s` starts, and where the text after it ends: at the next `p` or at
   * the end of `s`.
   */
  function SegmentBounds(s: string, p: string): (b: (nat, nat))
    requires |p| > 0 && Contains(s, p)
    ensures OccursAt(s, p, b.0) && forall j :: 0 <= j < b.0 ==> !OccursAt(s, p, j)
    ensures b.0 + |p| <= b.1 <= |s|
    ensures forall j :: b.0 + |p| <= j < b.1 ==> !OccursAt(s, p, j)
    ensures b.1 == |s| || OccursAt(s, p, b.1)
  {
    ContainsIffOccurs(s, p);
    var first := FindFrom(s, p, 0).value;
    var next := FindFrom(s, p, first + |p|);
    (first, if next.Some? then next.value else |s|)
  }

  /**
   * The marker `p` and the text after its first occurrence in `s`, up to its next occurrence or
   * the end: `p + s.split(p)[1]`.
   */
  function FirstSegment(s: string, p: string): string
    requires |p| > 0 && Contains(s, p)
  {
    var b := SegmentBounds(s, p);
    p + s[b.0 + |p|..b.1]
  }

  /** The retrieved part of an output holding the marker. */
  function Retrieved(output: string): string
    requires Contains(output, Marker)
  {
    FirstSegment(output, Marker)
  }

  /** The reply for a retrieval output: the wrapped retrieved part, or the "no data" message. */
  function Message(output: string): (msg: string)
    ensures !Contains(output, Marker) ==> msg == NoData
    ensures Contains(output, Marker) ==>
      |msg| >= |Opening| + |Closing| && HasPrefix(msg, Opening) && HasSuffix(msg, Closing) &&
      msg[|Opening|..|msg| - |Closing|] == Retrieved(output)
  {
    if Contains(output, Marker) then
      var m := Opening + Retrieved(output) + Closing;
      assert m[..|Opening|] == Opening && m[|m| - |Closing|..] == Closing;
      m
    else NoData
  }

  /** os.getenv with a default of "". */
  function Getenv(env: map<string, string>, name: string): string {
    if name in env then env[name] else ""
  }

  /** The script: reads OUTPUT, CONTINUATION and CHAT, and replies for OUTPUT alone. */
  function Reply(env: map<string, string>): (msg: string)
    ensures msg == Message(Getenv(env, "OUTPUT"))
  {
    var output := Getenv(env, "OUTPUT");
    var continuation := Getenv(env, "CONTINUATION") == "true";
    var isChat := Getenv(env, "CHAT") == "true";
    Message(output)
  }

  /** Whatever CONTINUATION and CHAT are set to, the reply is the same. */
  lemma FlagsIgnored(env: map<string, string>, continuation: string, chat: string)
    ensures Reply(env["CONTINUATION" := continuation]["CHAT" := chat]) == Reply(env)
  {
    var env' := env["CONTINUATION" := continuation]["CHAT" := chat];
    assert Getenv(env', "OUTPUT") == Getenv(env, "OUTPUT");
  }

  /**
   * The segment starts where `p` first occurs and ends where `p` occurs next or at the end of `s`:
   * what follows it in `s` is either nothing or another `p`.
   */
  lemma SegmentInPlace(s: string, p: string)
    requires |p| > 0 && Contains(s, p)
    ensures var r := FirstSegment(s, p);
      exists i ::
        OccursAt(s, p, i) && (forall j :: 0 <= j < i ==> !OccursAt(s, p, j)) &&
        i + |r| <= |s| && s[i..i + |r|] == r &&
        (i + |r| == |s| || OccursAt(s, p, i + |r|))
  {
    var b := SegmentBounds(s, p);
    assert s[b.0..b.1] == s[b.0..b.0 + |p|] + s[b.0 + |p|..b.1];
    assert b.0 + |FirstSegment(s, p)| == b.1;
  }

  /** The segment starts with `p` and holds no further `p` after it. */
  lemma SegmentHoldsOneMarker(s: string, p: string)
    requires |p| > 0 && Contains(s, p)
    ensures var r := FirstSegment(s, p);
      HasPrefix(r, p) && !Contains(r[|p|..], p)
  {
    var b := SegmentBounds(s, p);
    var start := b.0 + |p|;
    var rest := s[start..b.1];
    assert FirstSegment(s, p)[|p|..] == rest;
    ContainsIffOccurs(rest, p);
    if exists k :: OccursAt(rest, p, k) {
      var k :| OccursAt(rest, p, k);
      OccurrenceInSlice(s, start, b.1, p, k);
      assert false;
    }
  }

  /** An occurrence in a slice of `s` is an occurrence in `s`, inside the slice. */
  lemma OccurrenceInSlice(s: string, lo: int, hi: int, p: string, k: int)
    requires 0 <= lo <= hi <= |s| && OccursAt(s[lo..hi], p, k)
    ensures OccursAt(s, p, lo + k) && lo + k + |p| <= hi
  {
    var a := s[lo..hi][k..k + |p|];
    var b := s[lo + k..lo + k + |p|];
    assert |a| == |b| && forall t :: 0 <= t < |a| ==> a[t] == s[lo + k + t] == b[t];
  }

  /** The retrieved part of an output starts at its first marker and holds just that one marker. */
  lemma RetrievedSegment(output: string)
    requires Contains(output, Marker)
    ensures var r := Retrieved(output);
      exists i ::
        OccursAt(output, Marker, i) && (forall j :: 0 <= j < i ==> !OccursAt(output, Marker, j)) &&
        i + |r| <= |output| && output[i..i + |r|] == r &&
        (i + |r| == |output| || OccursAt(output, Marker, i + |r|))
    ensures HasPrefix(Retrieved(output), Marker) && !Contains(Retrieved(output)[|Marker|..], Marker)
  {
    SegmentInPlace(output, Marker);
    SegmentHoldsOneMarker(output, Marker);
  }

  /** The marker being absent, the reply says there is no data whatever the output holds. */
  lemma NoMarkerNoData(output: string)
    requires forall i :: !OccursAt(output, Marker, i)
    ensures Message(output) == NoData
  {
    ContainsIffOccurs(output, Marker);
  }
}
