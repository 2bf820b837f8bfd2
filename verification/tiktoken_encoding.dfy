/**
 * go-tiktoken's Encoding: choosing a codec by encoding name, the special-token set of an
 * encoding, and the gate that Encode puts in front of the byte-pair encoder: special tokens that
 * are not allowed must not occur in the text. Token strings and text are byte strings; the
 * regular-expression pre-tokenizer behind coreBPE.Encode is a parameter of the model.
 */
module TiktokenEncoding {
  import opened GoStrings
  import opened Wrappers
  import opened TiktokenBpe

  /** The encoding names of tiktoken.go. */
  const CL100kBase: string := "cl100k_base"
  const P50kBase: string := "p50k_base"
  const P50kEdit: string := "p50k_edit"
  const R50kBase: string := "r50k_base"
  const GPT2: string := "gpt2"

  /** The names NewEncodingByName knows, in the order of its switch. */
  const EncodingNames: seq<string> := [CL100kBase, P50kBase, P50kEdit, R50kBase, GPT2]

  /** The word "all" as a byte string: the one-element list [All] selects every special token. */
  const All: Bytes := [0x61, 0x6C, 0x6C]

  /** A Codec as loaded from a rank file: name, pattern and the two token tables. */
  datatype Codec = Codec(
    name: string,
    explicitNVocab: int,
    patStr: string,
    mergeableRanks: map<Bytes, nat>,
    specialTokens: map<Bytes, nat>)

  /** An Encoding: its name, the set of its special tokens, and its byte-pair tables. */
  datatype Encoding = Encoding(name: string, specialTokensSet: set<Bytes>, coreBpe: CoreBpe)

  /** What coreBPE.Encode returns: token IDs and the token strings. */
  datatype Encoded = Encoded(ids: seq<nat>, tokens: seq<Bytes>)

  /** Encode's error: the text holds a special token it may not contain. */
  datatype EncodeError = DisallowedSpecialToken(token: Bytes)

  /** The outcome of NewEncoding on a codec, as NewEncodingByName and NewEncodingForModel report it. */
  predicate NewEncodingOutcome(codec: Codec, r: Result<Encoding, string>) {
    (r.Err? <==> !Injective(codec.mergeableRanks)) &&
    (r.Err? ==> r.error == "encoder and decoder map sizes are different") &&
    (r.Ok? ==> r.value.name == codec.name && r.value.specialTokensSet == codec.specialTokens.Keys &&
                r.value.coreBpe.encoder == codec.mergeableRanks &&
                r.value.coreBpe.specialTokensEncoder == codec.specialTokens)
  }

  /** The outcome of NewEncodingByName: an unknown name, the codec's own error, or NewEncoding on the codec. */
  predicate ByNameOutcome(encoding: string, codecFor: string -> Result<Codec, string>, r: Result<Encoding, string>) {
    if encoding !in EncodingNames then r == Err("unknown encoding: " + encoding)
    else if codecFor(encoding).Err? then r == Err(codecFor(encoding).error)
    else NewEncodingOutcome(codecFor(encoding).value, r)
  }

  /** The special-token set: the keys of the codec's special-token table (the loop of lines 55-58). */
  method SpecialTokensSet(specialTokens: map<Bytes, nat>) returns (s: set<Bytes>)
    ensures s == specialTokens.Keys
  {
    s := {};
    var rest := specialTokens.Keys;
    while rest != {}
      invariant rest <= specialTokens.Keys
      invariant s == specialTokens.Keys - rest
      decreases rest
    {
      var k :| k in rest;
      s := s + {k};
      rest := rest - {k};
    }
  }

  /** NewEncoding: builds the byte-pair tables, failing when two tokens share a rank, and the special-token set. */
  method NewEncoding(codec: Codec) returns (r: Result<Encoding, string>)
    ensures NewEncodingOutcome(codec, r)
  {
    var core := NewCoreBpe(codec.mergeableRanks, codec.specialTokens);
    if core.Err? {
      return Err(core.error);
    }
    var special := SpecialTokensSet(codec.specialTokens);
    return Ok(Encoding(codec.name, special, core.value));
  }

  /**
   * NewEncodingByName: one of the five known names loads its codec (codecFor stands for the
   * embedded rank files and their loaders) and builds the encoding; any other name is an error.
   */
  method NewEncodingByName(encoding: string, codecFor: string -> Result<Codec, string>) returns (r: Result<Encoding, string>)
    ensures ByNameOutcome(encoding, codecFor, r)
  {
    if encoding !in EncodingNames {
      return Err("unknown encoding: " + encoding);
    }
    var codec := codecFor(encoding);
    if codec.Err? {
      return Err(codec.error);
    }
    r := NewEncoding(codec.value);
  }

  /** Only the five names get past the dispatch: the "unknown encoding" error is exactly the other names. */
  lemma ByNameKnownNames(encoding: string, codecFor: string -> Result<Codec, string>, r: Result<Encoding, string>)
    requires ByNameOutcome(encoding, codecFor, r)
    requires forall name :: codecFor(name).Err? ==> !HasPrefix(codecFor(name).error, "unknown encoding: ")
    ensures (r.Err? && HasPrefix(r.error, "unknown encoding: ")) <==>
      encoding != "cl100k_base" && encoding != "p50k_base" && encoding != "p50k_edit" && encoding != "r50k_base" && encoding != "gpt2"
  {
    if encoding in EncodingNames && r.Err? && codecFor(encoding).Ok? {
      assert r.error == "encoder and decoder map sizes are different";
      assert r.error[0] != "unknown encoding: "[0];
    }
  }

  /** The set of the listed strings. */
  function Listed(xs: seq<Bytes>): set<Bytes> {
    set i | 0 <= i < |xs| :: xs[i]
  }

  /** The allowed special tokens Encode uses: every special token for ["all"], otherwise exactly the listed ones. */
  function AllowedSet(enc: Encoding, allowedSpecial: seq<Bytes>): set<Bytes> {
    if allowedSpecial == [All] then enc.specialTokensSet else Listed(allowedSpecial)
  }

  /** The disallowed ones: for ["all"], the special tokens that are not allowed, otherwise exactly the listed ones. */
  function DisallowedSet(enc: Encoding, allowed: set<Bytes>, disallowedSpecial: seq<Bytes>): set<Bytes> {
    if disallowedSpecial == [All] then enc.specialTokensSet - allowed else Listed(disallowedSpecial)
  }

  /** The set of the listed strings, built by a loop (the map literals filled at lines 85-94). */
  method ListedSet(xs: seq<Bytes>) returns (s: set<Bytes>)
    ensures s == Listed(xs)
    ensures forall x :: x in s <==> x in xs
  {
    s := {};
    for i := 0 to |xs|
      invariant s == Listed(xs[..i])
    {
      assert xs[..i + 1] == xs[..i] + [xs[i]];
      assert Listed(xs[..i + 1]) == Listed(xs[..i]) + {xs[i]};
      s := s + {xs[i]};
    }
    assert xs[..|xs|] == xs;
    forall x
      ensures x in s <==> x in xs
    {
      if x in xs {
        var i :| 0 <= i < |xs| && xs[i] == x;
      }
    }
  }

  /** difference: the keys of setA that are not keys of setB. */
  method Difference(setA: set<Bytes>, setB: set<Bytes>) returns (result: set<Bytes>)
    ensures result == setA - setB
    ensures forall k :: k in result <==> k in setA && k !in setB
  {
    result := {};
    var rest := setA;
    while rest != {}
      invariant rest <= setA
      invariant result == (setA - rest) - setB
      decreases rest
    {
      var k :| k in rest;
      if k !in setB {
        result := result + {k};
      }
      rest := rest - {k};
    }
  }

  /** tok occurs in text starting at byte p. */
  predicate OccursAt(tok: Bytes, text: Bytes, p: nat) {
    p + |tok| <= |text| && text[p..p + |tok|] == tok
  }

  /** Some token of the set occurs in text at p. */
  predicate MatchAt(tokens: set<Bytes>, text: Bytes, p: nat) {
    exists t :: t in tokens && OccursAt(t, text, p)
  }

  /**
   * The match the alternation of the (sorted, quoted) tokens finds: at the leftmost position where
   * any token occurs, the shortest token occurring there. Two tokens occurring at one position are
   * prefixes of one another, and the shorter one's quoted form sorts first, so it is the
   * alternative the regular expression tries first.
   */
  predicate FirstMatch(tokens: set<Bytes>, text: Bytes, m: Bytes, p: nat) {
    m in tokens && OccursAt(m, text, p) &&
    (forall q: nat :: q < p ==> !MatchAt(tokens, text, q)) &&
    (forall t :: t in tokens && OccursAt(t, text, p) ==> |m| <= |t|)
  }

  /** The shortest token of the set that occurs at p, if any. */
  method ShortestAt(tokens: set<Bytes>, text: Bytes, p: nat) returns (m: Option<Bytes>)
    ensures m.None? <==> !MatchAt(tokens, text, p)
    ensures m.Some? ==> m.value in tokens && OccursAt(m.value, text, p)
    ensures m.Some? ==> forall t :: t in tokens && OccursAt(t, text, p) ==> |m.value| <= |t|
  {
    m := None;
    var rest := tokens;
    while rest != {}
      invariant rest <= tokens
      invariant m.None? ==> forall t :: t in tokens - rest ==> !OccursAt(t, text, p)
      invariant m.Some? ==> m.value in tokens && OccursAt(m.value, text, p)
      invariant m.Some? ==> forall t :: t in tokens - rest && OccursAt(t, text, p) ==> |m.value| <= |t|
      decreases rest
    {
      var t :| t in rest;
      if OccursAt(t, text, p) && (m.None? || |t| < |m.value|) {
        m := Some(t);
      }
      rest := rest - {t};
    }
  }

  /** The regular expression's first match: None when no token occurs anywhere in text. */
  method FindRegexMatch(tokens: set<Bytes>, text: Bytes) returns (m: Option<Bytes>)
    ensures m.None? <==> forall p: nat :: p <= |text| ==> !MatchAt(tokens, text, p)
    ensures m.Some? ==> exists p: nat :: p <= |text| && FirstMatch(tokens, text, m.value, p)
  {
    var p := 0;
    while p <= |text|
      invariant p <= |text| + 1
      invariant forall q: nat :: q < p ==> !MatchAt(tokens, text, q)
    {
      m := ShortestAt(tokens, text, p);
      if m.Some? {
        assert FirstMatch(tokens, text, m.value, p);
        return;
      }
      p := p + 1;
    }
    return None;
  }

  /** The match is the empty string exactly when the empty string is one of the tokens. */
  lemma EmptyMatch(tokens: set<Bytes>, text: Bytes, m: Bytes, p: nat)
    requires FirstMatch(tokens, text, m, p)
    ensures m == [] <==> [] in tokens
  {
    if [] in tokens {
      assert OccursAt([], text, 0);
      assert MatchAt(tokens, text, 0);
      assert p == 0;
      assert |m| <= 0;
    }
  }

  /** No token matches anywhere exactly when no token occurs in the text. */
  lemma NoMatchNoOccurrence(tokens: set<Bytes>, text: Bytes)
    ensures (forall p: nat :: p <= |text| ==> !MatchAt(tokens, text, p)) <==>
      forall t, p: nat :: t in tokens ==> !OccursAt(t, text, p)
  {
    if forall p: nat :: p <= |text| ==> !MatchAt(tokens, text, p) {
      forall t, p: nat | t in tokens
        ensures !OccursAt(t, text, p)
      {
        if OccursAt(t, text, p) {
          assert MatchAt(tokens, text, p);
        }
      }
    }
  }

  /** The allowed and disallowed special sets of Encode (lines 81-98). */
  method SpecialSets(enc: Encoding, allowedSpecial: seq<Bytes>, disallowedSpecial: seq<Bytes>) returns (allowed: set<Bytes>, disallowed: set<Bytes>)
    ensures allowed == AllowedSet(enc, allowedSpecial)
    ensures disallowed == DisallowedSet(enc, allowed, disallowedSpecial)
  {
    if |allowedSpecial| == 1 && allowedSpecial[0] == All {
      assert allowedSpecial == [All];
      allowed := enc.specialTokensSet;
    } else {
      allowed := ListedSet(allowedSpecial);
    }
    disallowed := ListedSet(disallowedSpecial);
    if |disallowedSpecial| == 1 && disallowedSpecial[0] == All {
      assert disallowedSpecial == [All];
      disallowed := Difference(enc.specialTokensSet, allowed);
    }
  }

  /**
   * The check of lines 100-107: the first match of the disallowed tokens in the text, when there
   * is one and it is not empty.
   */
  method DisallowedMatch(disallowed: set<Bytes>, text: Bytes) returns (m: Option<Bytes>)
    ensures m.Some? <==> [] !in disallowed && exists t, p: nat :: t in disallowed && OccursAt(t, text, p)
    ensures m.Some? ==> m.value != [] && exists p: nat :: FirstMatch(disallowed, text, m.value, p)
  {
    NoMatchNoOccurrence(disallowed, text);
    if |disallowed| == 0 {
      return None;
    }
    var found := FindRegexMatch(disallowed, text);
    if found.None? {
      return None;
    }
    ghost var p: nat :| p <= |text| && FirstMatch(disallowed, text, found.value, p);
    EmptyMatch(disallowed, text, found.value, p);
    if found.value == [] {
      return None;
    }
    return found;
  }

  /**
   * Encode: the allowed and disallowed special sets are worked out; a disallowed token found in
   * the text is an error; otherwise the core encoder runs with the allowed set. The core encoder,
   * with its pre-tokenizing regular expression, is the parameter coreEncode.
   */
  method Encode(enc: Encoding, text: Bytes, allowedSpecial: seq<Bytes>, disallowedSpecial: seq<Bytes>,
                coreEncode: (Bytes, set<Bytes>) -> Encoded) returns (r: Result<Encoded, EncodeError>)
    ensures var disallowed := DisallowedSet(enc, AllowedSet(enc, allowedSpecial), disallowedSpecial);
      r.Err? <==> [] !in disallowed && exists t, p: nat :: t in disallowed && OccursAt(t, text, p)
    ensures var disallowed := DisallowedSet(enc, AllowedSet(enc, allowedSpecial), disallowedSpecial);
      r.Err? ==> r.error.token != [] && exists p: nat :: FirstMatch(disallowed, text, r.error.token, p)
    ensures r.Ok? ==> r.value == coreEncode(text, AllowedSet(enc, allowedSpecial))
  {
    var allowedSpecialSet, disallowedSpecialSet := SpecialSets(enc, allowedSpecial, disallowedSpecial);
    var m := DisallowedMatch(disallowedSpecialSet, text);
    if m.Some? {
      return Err(DisallowedSpecialToken(m.value));
    }
    return Ok(coreEncode(text, allowedSpecialSet));
  }

  /** Allowing every special token and disallowing "all" leaves nothing disallowed: Encode never fails. */
  lemma AllAllowedNeverFails(enc: Encoding)
    ensures DisallowedSet(enc, AllowedSet(enc, [All]), [All]) == {}
  {
  }

  /** With nothing allowed and "all" disallowed, a special token in the text is an error. */
  lemma SpecialTokenInTextDisallowed(enc: Encoding, text: Bytes, tok: Bytes, p: nat)
    requires tok in enc.specialTokensSet && [] !in enc.specialTokensSet && OccursAt(tok, text, p)
    ensures var disallowed := DisallowedSet(enc, AllowedSet(enc, []), [All]);
      [] !in disallowed && exists t, q: nat :: t in disallowed && OccursAt(t, text, q)
  {
    assert Listed([]) == {};
    assert tok in DisallowedSet(enc, AllowedSet(enc, []), [All]);
  }
}
