/**
 * go-tiktoken's byte-pair encoding core: the merge loop that splits a piece of text into ranked
 * tokens, decoding of token IDs back to bytes, and the tables newCoreBPE derives from the
 * encoder. Token strings are byte sequences.
 */
module TiktokenBpe {
  import opened GoStrings
  import opened Wrappers

  type Bytes = seq<byte>

  /** math.MaxUint on a 64-bit platform: the rank that means "cannot merge". */
  const MaxUint: nat := 0xFFFF_FFFF_FFFF_FFFF

  /** A Go map lookup of a rank: the stored value, 0 when the key is absent. */
  function RankOr0(ranks: map<Bytes, nat>, token: Bytes): nat {
    if token in ranks then ranks[token] else 0
  }

  /** The concatenation of byte strings, in order. */
  function Concat(tokens: seq<Bytes>): Bytes {
    if |tokens| == 0 then [] else Concat(tokens[..|tokens| - 1]) + tokens[|tokens| - 1]
  }

  /** A part of the piece being merged: where it starts, and the rank of merging it with the next part. */
  datatype Part = Part(start: nat, rank: nat)

  /** The parts cut the piece: the first starts at 0, the last (a sentinel) at its end, strictly increasing. */
  predicate Boundaries(piece: Bytes, parts: seq<Part>) {
    |parts| >= 1 && parts[0].start == 0 && parts[|parts| - 1].start == |piece| &&
    (forall i, j :: 0 <= i < j < |parts| ==> parts[i].start < parts[j].start) &&
    (forall i :: 0 <= i < |parts| ==> parts[i].start <= |piece|)
  }

  /**
   * getRank: the rank of the bytes from part idx up to part idx + skip + 2, or MaxUint when that
   * part does not exist or the bytes are not a known token.
   */
  function GetRank(piece: Bytes, ranks: map<Bytes, nat>, parts: seq<Part>, idx: nat, skip: nat): nat
    requires Boundaries(piece, parts) && idx < |parts|
  {
    if idx + skip + 2 < |parts| then
      var p := piece[parts[idx].start..parts[idx + skip + 2].start];
      if p in ranks then ranks[p] else MaxUint
    else MaxUint
  }

  /** Every part but the sentinel carries the rank of merging it with its right neighbour. */
  predicate RanksCurrent(piece: Bytes, ranks: map<Bytes, nat>, parts: seq<Part>)
    requires Boundaries(piece, parts)
  {
    forall i {:trigger GetRank(piece, ranks, parts, i, 0)} :: 0 <= i < |parts| - 1 ==> parts[i].rank == GetRank(piece, ranks, parts, i, 0)
  }

  /** The token between boundary i and boundary i + 1. */
  function Token(piece: Bytes, parts: seq<Part>, i: nat): Bytes
    requires Boundaries(piece, parts) && i < |parts| - 1
  {
    piece[parts[i].start..parts[i + 1].start]
  }

  /** Each token between the boundaries is a known token or a single byte. */
  predicate PartsKnown(piece: Bytes, ranks: map<Bytes, nat>, parts: seq<Part>)
    requires Boundaries(piece, parts)
  {
    forall i :: 0 <= i < |parts| - 1 ==> |Token(piece, parts, i)| == 1 || Token(piece, parts, i) in ranks
  }

  /** Each token is a known token or a single byte. */
  predicate TokensKnown(ranks: map<Bytes, nat>, tokens: seq<Bytes>) {
    forall i :: 0 <= i < |tokens| ==> |tokens[i]| == 1 || tokens[i] in ranks
  }

  /** Tokens that are the consecutive spans between boundaries concatenate to the bytes they span. */
  lemma {:induction false} ConcatTokens(piece: Bytes, parts: seq<Part>, tokens: seq<Bytes>, k: nat)
    requires Boundaries(piece, parts) && |tokens| == |parts| - 1 && k < |parts|
    requires forall i {:trigger tokens[i]} :: 0 <= i < |tokens| ==> tokens[i] == Token(piece, parts, i)
    ensures Concat(tokens[..k]) == piece[..parts[k].start]
    decreases k
  {
    if k > 0 {
      ConcatTokens(piece, parts, tokens, k - 1);
      var a, b := parts[k - 1].start, parts[k].start;
      assert tokens[..k] == tokens[..k - 1] + [tokens[k - 1]];
      assert tokens[k - 1] == piece[a..b];
      assert piece[..b] == piece[..a] + piece[a..b];
    }
  }

  /**
   * The rank and index the minimum search settles on after looking at the first n parts: the
   * first part of lowest rank below MaxUint, or (MaxUint, 0) when there is none.
   */
  ghost function MinPart(parts: seq<Part>, n: nat): (r: (nat, nat))
    requires n <= |parts|
    ensures r.0 <= MaxUint
    ensures r.0 < MaxUint ==> r.1 < n && parts[r.1].rank == r.0
    ensures forall j :: 0 <= j < n ==> parts[j].rank >= r.0
    ensures r.0 < MaxUint ==> forall j :: 0 <= j < r.1 ==> parts[j].rank > r.0
  {
    if n == 0 then (MaxUint, 0)
    else
      var p := MinPart(parts, n - 1);
      if parts[n - 1].rank < p.0 then (parts[n - 1].rank, n - 1) else p
  }

  /** The first minimal rank among the parts before the sentinel, MaxUint when none is lower. */
  method MinRank(parts: seq<Part>) returns (minRank: nat, minIdx: nat)
    requires |parts| >= 1
    ensures (minRank, minIdx) == MinPart(parts, |parts| - 1)
    ensures minRank == MaxUint ==> forall j :: 0 <= j < |parts| - 1 ==> parts[j].rank >= MaxUint
    ensures minRank < MaxUint ==> minIdx < |parts| - 1 && parts[minIdx].rank == minRank
    ensures minRank < MaxUint ==> forall j :: 0 <= j < |parts| - 1 ==> parts[j].rank >= minRank
    ensures minRank < MaxUint ==> forall j :: 0 <= j < minIdx ==> parts[j].rank > minRank
    ensures minRank <= MaxUint
  {
    minRank, minIdx := MaxUint, 0;
    var i := 0;
    while i < |parts| - 1
      invariant 0 <= i <= |parts| - 1
      invariant (minRank, minIdx) == MinPart(parts, i)
    {
      if parts[i].rank < minRank {
        minRank := parts[i].rank;
        minIdx := i;
      }
      i := i + 1;
    }
  }

  /**
   * The parts after merging part m with part m + 1: part m + 1 is gone, and parts m - 1 (if any)
   * and m are rescored against their new right neighbours, which is what getRank with skip 1
   * computes before the removal.
   */
  function Merged(piece: Bytes, ranks: map<Bytes, nat>, parts: seq<Part>, m: nat): (merged: seq<Part>)
    requires Boundaries(piece, parts) && m + 2 < |parts|
  {
    seq(|parts| - 1, i requires 0 <= i < |parts| - 1 =>
      if i < m - 1 then parts[i]
      else if i == m - 1 then Part(parts[i].start, GetRank(piece, ranks, parts, i, 1))
      else if i == m then Part(parts[i].start, GetRank(piece, ranks, parts, i, 1))
      else parts[i + 1])
  }

  /** Merging keeps the boundaries well formed and every rank current. */
  lemma MergeKeepsRanks(piece: Bytes, ranks: map<Bytes, nat>, parts: seq<Part>, m: nat)
    requires Boundaries(piece, parts) && RanksCurrent(piece, ranks, parts)
    requires m + 2 < |parts|
    ensures Boundaries(piece, Merged(piece, ranks, parts, m))
    ensures RanksCurrent(piece, ranks, Merged(piece, ranks, parts, m))
  {
    var merged := Merged(piece, ranks, parts, m);
    assert Boundaries(piece, merged);
    forall i | 0 <= i < |merged| - 1
      ensures merged[i].rank == GetRank(piece, ranks, merged, i, 0)
    {
      if i < m - 1 {
        assert merged[i + 2].start == parts[i + 2].start;
        assert GetRank(piece, ranks, merged, i, 0) == GetRank(piece, ranks, parts, i, 0);
      } else if i > m {
        assert GetRank(piece, ranks, merged, i, 0) == GetRank(piece, ranks, parts, i + 1, 0);
      }
    }
  }

  /** The starting parts: one per byte plus the end sentinel, each scored with the pair it starts. */
  function InitialOf(piece: Bytes, ranks: map<Bytes, nat>): (parts: seq<Part>)
    ensures |parts| == |piece| + 1
  {
    seq(|piece| + 1, k requires 0 <= k => Part(k, PairRank(piece, ranks, k)))
  }

  /**
   * The merge as bytePairMerge performs it: while some part has a rank below MaxUint, merge the
   * first part of lowest rank with its right neighbour. The result is the one segmentation the
   * loop reaches, and none of its parts can be merged any more.
   */
  ghost function GreedyMerge(piece: Bytes, ranks: map<Bytes, nat>, parts: seq<Part>): (r: seq<Part>)
    requires Boundaries(piece, parts) && RanksCurrent(piece, ranks, parts)
    ensures Boundaries(piece, r) && RanksCurrent(piece, ranks, r)
    ensures |r| <= |parts|
    ensures forall k :: 0 <= k < |r| - 1 ==> r[k].rank >= MaxUint
    decreases |parts|
  {
    if |parts| <= 1 then parts
    else
      var mr := MinPart(parts, |parts| - 1);
      if mr.0 == MaxUint then parts
      else
        assert parts[mr.1].rank == GetRank(piece, ranks, parts, mr.1, 0);
        MergeKeepsRanks(piece, ranks, parts, mr.1);
        GreedyMerge(piece, ranks, Merged(piece, ranks, parts, mr.1))
  }

  /** The tokens between consecutive boundaries. */
  function TokensOf(piece: Bytes, parts: seq<Part>): (tokens: seq<Bytes>)
    requires Boundaries(piece, parts)
    ensures |tokens| == |parts| - 1
    ensures forall i :: 0 <= i < |tokens| ==> tokens[i] == Token(piece, parts, i)
  {
    seq(|parts| - 1, i requires 0 <= i < |parts| - 1 => Token(piece, parts, i))
  }

  /** The segmentation of a piece that the leftmost-lowest-rank merge produces. */
  ghost function Segmentation(piece: Bytes, ranks: map<Bytes, nat>): seq<Bytes> {
    ScoredParts(piece, ranks, InitialOf(piece, ranks));
    TokensOf(piece, GreedyMerge(piece, ranks, InitialOf(piece, ranks)))
  }

  /** One round of the merge: merging at the first lowest rank leaves the final result unchanged. */
  lemma GreedyStep(piece: Bytes, ranks: map<Bytes, nat>, parts: seq<Part>, minRank: nat, minIdx: nat)
    requires Boundaries(piece, parts) && RanksCurrent(piece, ranks, parts) && |parts| > 1
    requires (minRank, minIdx) == MinPart(parts, |parts| - 1) && minRank < MaxUint
    ensures minIdx + 2 < |parts|
    ensures Boundaries(piece, Merged(piece, ranks, parts, minIdx))
    ensures RanksCurrent(piece, ranks, Merged(piece, ranks, parts, minIdx))
    ensures GreedyMerge(piece, ranks, Merged(piece, ranks, parts, minIdx)) == GreedyMerge(piece, ranks, parts)
  {
    assert parts[minIdx].rank == GetRank(piece, ranks, parts, minIdx, 0);
    MergeKeepsRanks(piece, ranks, parts, minIdx);
  }

  /** The merge stops when one part is left or no rank is below MaxUint. */
  lemma GreedyStops(piece: Bytes, ranks: map<Bytes, nat>, parts: seq<Part>)
    requires Boundaries(piece, parts) && RanksCurrent(piece, ranks, parts)
    requires |parts| > 1 ==> MinPart(parts, |parts| - 1).0 == MaxUint
    ensures GreedyMerge(piece, ranks, parts) == parts
  {
  }

  /** The parts the merge ends with from the starting parts give the segmentation. */
  lemma SegmentationIs(piece: Bytes, ranks: map<Bytes, nat>, parts: seq<Part>)
    requires Boundaries(piece, InitialOf(piece, ranks)) && RanksCurrent(piece, ranks, InitialOf(piece, ranks))
    requires parts == GreedyMerge(piece, ranks, InitialOf(piece, ranks))
    ensures Segmentation(piece, ranks) == TokensOf(piece, parts)
  {
  }

  /**
   * bytePairMerge: starts from single bytes and repeatedly merges the adjacent pair of lowest rank
   * (the leftmost among equals) until no adjacent pair is a known token of rank below MaxUint.
   * The tokens concatenate back to the piece; each ID is the token's rank, 0 if it has none.
   */
  method BytePairMerge(piece: Bytes, ranks: map<Bytes, nat>) returns (ids: seq<nat>, tokens: seq<Bytes>)
    ensures tokens == Segmentation(piece, ranks)
    ensures Concat(tokens) == piece
    ensures |ids| == |tokens|
    ensures forall i :: 0 <= i < |tokens| ==> ids[i] == RankOr0(ranks, tokens[i])
    ensures forall i :: 0 <= i < |tokens| ==> |tokens[i]| > 0
    ensures |piece| > 0 ==> 1 <= |tokens| <= |piece|
    ensures |piece| == 0 ==> tokens == []
    ensures TokensKnown(ranks, tokens)
    ensures forall i :: 0 <= i < |tokens| - 1 ==>
      !(tokens[i] + tokens[i + 1] in ranks && ranks[tokens[i] + tokens[i + 1]] < MaxUint)
  {
    var parts := InitialParts(piece, ranks);
    parts := MergeParts(piece, ranks, parts);
    SegmentationIs(piece, ranks, parts);
    ids, tokens := PartsTokens(piece, ranks, parts);
  }

  /**
   * The merge loop: while two or more parts remain, merge at the first lowest rank, stopping when
   * no rank is below MaxUint. The parts it ends with are those of GreedyMerge.
   */
  method MergeParts(piece: Bytes, ranks: map<Bytes, nat>, parts0: seq<Part>) returns (parts: seq<Part>)
    requires Boundaries(piece, parts0) && RanksCurrent(piece, ranks, parts0) && PartsKnown(piece, ranks, parts0)
    ensures parts == GreedyMerge(piece, ranks, parts0)
    ensures PartsKnown(piece, ranks, parts)
  {
    parts := parts0;
    while |parts| > 1
      invariant Boundaries(piece, parts) && RanksCurrent(piece, ranks, parts)
      invariant GreedyMerge(piece, ranks, parts) == GreedyMerge(piece, ranks, parts0)
      invariant PartsKnown(piece, ranks, parts)
      decreases |parts|
    {
      var minRank, minIdx := MinRank(parts);
      if minRank == MaxUint {
        GreedyStops(piece, ranks, parts);
        return;
      }
      GreedyStep(piece, ranks, parts, minRank, minIdx);
      MergeKeepsKnown(piece, ranks, parts, minIdx);
      parts := Merged(piece, ranks, parts, minIdx);
    }
    GreedyStops(piece, ranks, parts);
  }

  /** The starting parts, one per byte plus the end sentinel, each scored against its neighbour. */
  method InitialParts(piece: Bytes, ranks: map<Bytes, nat>) returns (parts: seq<Part>)
    ensures parts == InitialOf(piece, ranks)
    ensures Boundaries(piece, parts) && RanksCurrent(piece, ranks, parts) && PartsKnown(piece, ranks, parts)
    ensures |parts| == |piece| + 1
  {
    parts := [];
    var i := 0;
    while i < |piece| + 1
      invariant 0 <= i <= |piece| + 1
      invariant |parts| == i
      invariant forall k :: 0 <= k < i ==> parts[k] == Part(k, MaxUint)
    {
      parts := parts + [Part(i, MaxUint)];
      i := i + 1;
    }
    assert Boundaries(piece, parts);
    i := 0;
    while i < |parts| - 2
      invariant 0 <= i <= |parts| && |parts| == |piece| + 1
      invariant forall k :: 0 <= k < i ==> parts[k] == Part(k, PairRank(piece, ranks, k))
      invariant forall k :: i <= k < |parts| ==> parts[k] == Part(k, MaxUint)
    {
      assert Boundaries(piece, parts);
      assert GetRank(piece, ranks, parts, i, 0) == PairRank(piece, ranks, i);
      parts := parts[i := Part(parts[i].start, GetRank(piece, ranks, parts, i, 0))];
      i := i + 1;
    }
    assert forall k :: 0 <= k < |parts| ==> parts[k] == Part(k, PairRank(piece, ranks, k));
    ScoredParts(piece, ranks, parts);
  }

  /** Parts at every byte, each scored with the rank of the pair it starts, are where the merge begins. */
  lemma ScoredParts(piece: Bytes, ranks: map<Bytes, nat>, parts: seq<Part>)
    requires |parts| == |piece| + 1
    requires forall k :: 0 <= k < |parts| - 1 ==> parts[k] == Part(k, PairRank(piece, ranks, k))
    requires parts[|parts| - 1] == Part(|piece|, MaxUint)
    ensures Boundaries(piece, parts) && RanksCurrent(piece, ranks, parts) && PartsKnown(piece, ranks, parts)
  {
    assert Boundaries(piece, parts);
    forall k | 0 <= k < |parts| - 1
      ensures parts[k].rank == GetRank(piece, ranks, parts, k, 0)
    {
      assert parts[k] == Part(k, PairRank(piece, ranks, k));
    }
    assert forall k :: 0 <= k < |parts| - 1 ==> |Token(piece, parts, k)| == 1;
  }

  /** The rank of the two bytes starting at k, MaxUint when there are not two or they are no token. */
  function PairRank(piece: Bytes, ranks: map<Bytes, nat>, k: nat): nat {
    if k + 2 <= |piece| && piece[k..k + 2] in ranks then ranks[piece[k..k + 2]] else MaxUint
  }

  /** The tokens between the final boundaries, with the rank of each (0 when it has none). */
  method PartsTokens(piece: Bytes, ranks: map<Bytes, nat>, parts: seq<Part>) returns (ids: seq<nat>, tokens: seq<Bytes>)
    requires Boundaries(piece, parts) && RanksCurrent(piece, ranks, parts) && PartsKnown(piece, ranks, parts)
    requires forall k :: 0 <= k < |parts| - 1 ==> parts[k].rank >= MaxUint
    ensures Concat(tokens) == piece
    ensures |ids| == |tokens| == |parts| - 1
    ensures tokens == TokensOf(piece, parts)
    ensures forall i :: 0 <= i < |tokens| ==> ids[i] == RankOr0(ranks, tokens[i])
    ensures forall i :: 0 <= i < |tokens| ==> |tokens[i]| > 0
    ensures TokensKnown(ranks, tokens)
    ensures forall i :: 0 <= i < |tokens| - 1 ==>
      !(tokens[i] + tokens[i + 1] in ranks && ranks[tokens[i] + tokens[i + 1]] < MaxUint)
  {
    ids, tokens := [], [];
    var i := 0;
    while i < |parts| - 1
      invariant 0 <= i <= |parts| - 1
      invariant |tokens| == i && |ids| == i
      invariant forall k {:trigger tokens[k]} :: 0 <= k < i ==> tokens[k] == Token(piece, parts, k)
      invariant forall k :: 0 <= k < i ==> ids[k] == RankOr0(ranks, tokens[k])
    {
      var token := piece[parts[i].start..parts[i + 1].start];
      tokens := tokens + [token];
      ids := ids + [RankOr0(ranks, token)];
      i := i + 1;
    }
    ConcatTokens(piece, parts, tokens, |parts| - 1);
    assert tokens[..|tokens|] == tokens && piece[..|piece|] == piece;
    FinalTokensUnmergeable(piece, ranks, parts, tokens);
    FinalTokensKnown(piece, ranks, parts, tokens);
  }

  /** Between the final boundaries no two neighbouring tokens join into a ranked token. */
  lemma FinalTokensUnmergeable(piece: Bytes, ranks: map<Bytes, nat>, parts: seq<Part>, tokens: seq<Bytes>)
    requires Boundaries(piece, parts) && RanksCurrent(piece, ranks, parts)
    requires forall k :: 0 <= k < |parts| - 1 ==> parts[k].rank >= MaxUint
    requires |tokens| == |parts| - 1
    requires forall k {:trigger tokens[k]} :: 0 <= k < |tokens| ==> tokens[k] == Token(piece, parts, k)
    ensures forall i :: 0 <= i < |tokens| - 1 ==>
      !(tokens[i] + tokens[i + 1] in ranks && ranks[tokens[i] + tokens[i + 1]] < MaxUint)
  {
    forall k | 0 <= k < |tokens| - 1
      ensures !(tokens[k] + tokens[k + 1] in ranks && ranks[tokens[k] + tokens[k + 1]] < MaxUint)
    {
      assert tokens[k] + tokens[k + 1] == piece[parts[k].start..parts[k + 2].start];
      assert parts[k].rank == GetRank(piece, ranks, parts, k, 0);
    }
  }

  /** Every final token is non-empty and a single byte or a ranked token. */
  lemma FinalTokensKnown(piece: Bytes, ranks: map<Bytes, nat>, parts: seq<Part>, tokens: seq<Bytes>)
    requires Boundaries(piece, parts) && PartsKnown(piece, ranks, parts)
    requires |tokens| == |parts| - 1
    requires forall k {:trigger tokens[k]} :: 0 <= k < |tokens| ==> tokens[k] == Token(piece, parts, k)
    ensures forall i :: 0 <= i < |tokens| ==> |tokens[i]| > 0
    ensures TokensKnown(ranks, tokens)
  {
    forall k | 0 <= k < |tokens|
      ensures |tokens[k]| > 0 && (|tokens[k]| == 1 || tokens[k] in ranks)
    {
      assert tokens[k] == Token(piece, parts, k);
    }
  }

  /** Merging parts m and m + 1 joins two known tokens into one of known rank. */
  lemma MergeKeepsKnown(piece: Bytes, ranks: map<Bytes, nat>, parts: seq<Part>, m: nat)
    requires Boundaries(piece, parts) && RanksCurrent(piece, ranks, parts) && PartsKnown(piece, ranks, parts)
    requires m + 2 < |parts| && parts[m].rank < MaxUint
    requires Boundaries(piece, Merged(piece, ranks, parts, m))
    ensures PartsKnown(piece, ranks, Merged(piece, ranks, parts, m))
  {
    var merged := Merged(piece, ranks, parts, m);
    forall i | 0 <= i < |merged| - 1
      ensures |Token(piece, merged, i)| == 1 || Token(piece, merged, i) in ranks
    {
      if i < m {
        assert Token(piece, merged, i) == Token(piece, parts, i);
      } else if i == m {
        assert parts[m].rank == GetRank(piece, ranks, parts, m, 0);
      } else {
        assert Token(piece, merged, i) == Token(piece, parts, i + 1);
      }
    }
  }

  /** The piece and ranks of GreedyMergeExample. */
  const ExamplePiece: Bytes := [1, 2, 3, 4]
  const ExampleRanks: map<Bytes, nat> := map[[1, 2] := 0, [3, 4] := 1, [2, 3] := 2, [1, 2, 3, 4] := 3]

  /** The example starts from one part per byte, [1,2] ranked lowest. */
  lemma ExampleStart()
    ensures InitialOf(ExamplePiece, ExampleRanks)
      == [Part(0, 0), Part(1, 2), Part(2, 1), Part(3, MaxUint), Part(4, MaxUint)]
  {
    var piece := ExamplePiece;
    assert piece[0..2] == [1, 2] && piece[1..3] == [2, 3] && piece[2..4] == [3, 4];
  }

  /** First merge: [1,2], the lowest rank; [1,2,3] has no rank. */
  lemma ExampleFirstMerge(p0: seq<Part>)
    requires p0 == [Part(0, 0), Part(1, 2), Part(2, 1), Part(3, MaxUint), Part(4, MaxUint)]
    ensures Boundaries(ExamplePiece, p0)
    ensures MinPart(p0, 4) == (0, 0)
    ensures Merged(ExamplePiece, ExampleRanks, p0, 0)
      == [Part(0, MaxUint), Part(2, 1), Part(3, MaxUint), Part(4, MaxUint)]
  {
    assert ExamplePiece[0..3] == [1, 2, 3];
  }

  /** Second merge: [3,4]; the part before it can now become [1,2,3,4], of rank 3. */
  lemma ExampleSecondMerge(p1: seq<Part>)
    requires p1 == [Part(0, MaxUint), Part(2, 1), Part(3, MaxUint), Part(4, MaxUint)]
    ensures Boundaries(ExamplePiece, p1)
    ensures MinPart(p1, 3) == (1, 1)
    ensures Merged(ExamplePiece, ExampleRanks, p1, 1) == [Part(0, 3), Part(2, MaxUint), Part(4, MaxUint)]
  {
    assert ExamplePiece[0..4] == [1, 2, 3, 4];
  }

  /** Third merge: the two halves; nothing is left to merge. */
  lemma ExampleThirdMerge(p2: seq<Part>)
    requires p2 == [Part(0, 3), Part(2, MaxUint), Part(4, MaxUint)]
    ensures Boundaries(ExamplePiece, p2)
    ensures MinPart(p2, 2) == (3, 0)
    ensures Merged(ExamplePiece, ExampleRanks, p2, 0) == [Part(0, MaxUint), Part(4, MaxUint)]
    ensures MinPart([Part(0, MaxUint), Part(4, MaxUint)], 1).0 == MaxUint
  {
  }

  /**
   * The merge order matters: with ranks {[1,2]: 0, [3,4]: 1, [2,3]: 2, [1,2,3,4]: 3}, the piece
   * 1 2 3 4 merges [1,2], then [3,4], then the two halves, and ends as one token. The split
   * [1] [2,3] [4] also covers the piece with known, unmergeable tokens, but it is not what the
   * merge produces.
   */
  lemma GreedyMergeExample()
    ensures Segmentation(ExamplePiece, ExampleRanks) == [[1, 2, 3, 4]] != [[1], [2, 3], [4]]
  {
    var piece, ranks := ExamplePiece, ExampleRanks;
    ExampleStart();
    var p0 := InitialOf(piece, ranks);
    ScoredParts(piece, ranks, p0);
    ExampleFirstMerge(p0);
    MergeKeepsRanks(piece, ranks, p0, 0);
    var p1 := Merged(piece, ranks, p0, 0);
    assert GreedyMerge(piece, ranks, p0) == GreedyMerge(piece, ranks, p1);
    ExampleSecondMerge(p1);
    MergeKeepsRanks(piece, ranks, p1, 1);
    var p2 := Merged(piece, ranks, p1, 1);
    assert GreedyMerge(piece, ranks, p1) == GreedyMerge(piece, ranks, p2);
    ExampleThirdMerge(p2);
    MergeKeepsRanks(piece, ranks, p2, 0);
    var p3 := Merged(piece, ranks, p2, 0);
    assert GreedyMerge(piece, ranks, p2) == GreedyMerge(piece, ranks, p3) == p3;
    assert piece[0..4] == piece;
    assert TokensOf(piece, p3) == [piece];
  }

  /**
   * bytePairEncode: a single byte is its own token, with its rank (0 when it has none); longer
   * (and empty) pieces go through the merge.
   */
  method BytePairEncode(piece: Bytes, ranks: map<Bytes, nat>) returns (ids: seq<nat>, tokens: seq<Bytes>)
    ensures tokens == Segmentation(piece, ranks)
    ensures Concat(tokens) == piece
    ensures |ids| == |tokens|
    ensures forall i :: 0 <= i < |tokens| ==> ids[i] == RankOr0(ranks, tokens[i])
    ensures forall i :: 0 <= i < |tokens| ==> |tokens[i]| > 0
    ensures |piece| > 0 ==> 1 <= |tokens| <= |piece|
    ensures |piece| == 1 ==> tokens == [piece]
    ensures TokensKnown(ranks, tokens)
    ensures forall i :: 0 <= i < |tokens| - 1 ==>
      !(tokens[i] + tokens[i + 1] in ranks && ranks[tokens[i] + tokens[i + 1]] < MaxUint)
  {
    if |piece| == 1 {
      assert Concat([piece]) == Concat([]) + piece;
      ScoredParts(piece, ranks, InitialOf(piece, ranks));
      assert GreedyMerge(piece, ranks, InitialOf(piece, ranks)) == InitialOf(piece, ranks);
      assert piece[0..1] == piece;
      assert TokensOf(piece, InitialOf(piece, ranks)) == [piece];
      return [RankOr0(ranks, piece)], [piece];
    }
    ids, tokens := BytePairMerge(piece, ranks);
  }

  /**
   * cutText: the text between start and end, with start raised to 0 and end lowered to the
   * length of the text. The bounds left after clamping must still be in order (Go panics
   * otherwise).
   */
  function CutText(text: Bytes, start: int, end: int): (r: Bytes)
    requires (if start < 0 then 0 else start) <= (if end > |text| then |text| else end)
    ensures |r| <= |text|
    ensures start <= 0 && end >= |text| ==> r == text
  {
    var s := if start < 0 then 0 else start;
    var e := if end > |text| then |text| else end;
    text[s..e]
  }

  /** Cutting at a point in between and concatenating the two cuts gives the cut of the whole range. */
  lemma CutTextSplits(text: Bytes, start: int, mid: int, end: int)
    requires 0 <= mid <= |text| && (if start < 0 then 0 else start) <= mid
    requires mid <= (if end > |text| then |text| else end)
    ensures CutText(text, start, mid) + CutText(text, mid, end) == CutText(text, start, end)
  {
  }

  /** The tables a coreBPE keeps; the two compiled regular expressions are not part of this model. */
  datatype CoreBpe = CoreBpe(
    encoder: map<Bytes, nat>,
    decoder: map<nat, Bytes>,
    specialTokensEncoder: map<Bytes, nat>,
    specialTokensDecoder: map<nat, Bytes>,
    sortedTokenBytes: seq<Bytes>)

  /** No two tokens share an ID. */
  predicate Injective(m: map<Bytes, nat>) {
    forall a, b :: a in m && b in m && a != b ==> m[a] != m[b]
  }

  /** `inv` maps every ID of `m` back to a token that has that ID. */
  predicate InvertsTo(m: map<Bytes, nat>, inv: map<nat, Bytes>) {
    inv.Keys == m.Values && forall v :: v in inv ==> inv[v] in m && m[inv[v]] == v
  }

  /** A map has at most as many distinct values as keys, exactly as many when it is injective. */
  lemma {:induction false} ValuesCount(m: map<Bytes, nat>)
    ensures |m.Values| <= |m.Keys|
    ensures |m.Values| == |m.Keys| <==> Injective(m)
    decreases |m.Keys|
  {
    if |m.Keys| > 0 {
      var k :| k in m;
      var rest := m - {k};
      ValuesCount(rest);
      assert rest.Keys == m.Keys - {k};
      if exists k2 :: k2 in rest && rest[k2] == m[k] {
        var k2 :| k2 in rest && rest[k2] == m[k];
        ValuesOfRest(m, k);
        assert m.Values == rest.Values + {m[k]};
        assert m[k] in rest.Values;
        assert !Injective(m) by {
          assert k != k2 && m[k] == m[k2];
        }
      } else {
        ValuesOfRest(m, k);
        if Injective(rest) {
          forall a, b | a in m && b in m && a != b
            ensures m[a] != m[b]
          {
            if a != k && b != k {
              assert rest[a] == m[a] && rest[b] == m[b];
            } else if a == k {
              assert rest[b] == m[b];
            } else {
              assert rest[a] == m[a];
            }
          }
        } else {
          var a, b :| a in rest && b in rest && a != b && rest[a] == rest[b];
          assert m[a] == m[b];
        }
      }
    }
  }

  /** Removing a key leaves the other values, plus the removed one, as the values of the map. */
  lemma ValuesOfRest(m: map<Bytes, nat>, k: Bytes)
    requires k in m
    ensures m.Values == (m - {k}).Values + {m[k]}
  {
    var rest := m - {k};
    forall v | v in m.Values
      ensures v in rest.Values + {m[k]}
    {
      var a :| a in m && m[a] == v;
      if a != k {
        assert rest[a] == v;
      }
    }
    forall v | v in rest.Values
      ensures v in m.Values
    {
      var a :| a in rest && rest[a] == v;
      assert m[a] == v;
    }
  }

  /** Builds the reverse map the way newCoreBPE does: one entry per key, later keys overwriting. */
  method Invert(m: map<Bytes, nat>) returns (inv: map<nat, Bytes>)
    ensures InvertsTo(m, inv)
  {
    inv := map[];
    var remaining := m.Keys;
    while remaining != {}
      invariant remaining <= m.Keys
      invariant inv.Keys == set k | k in m.Keys - remaining :: m[k]
      invariant forall v :: v in inv ==> inv[v] in m && inv[v] !in remaining && m[inv[v]] == v
      decreases remaining
    {
      var k :| k in remaining;
      inv := inv[m[k] := k];
      remaining := remaining - {k};
    }
    assert m.Keys - remaining == m.Keys;
  }

  /** bytes.Compare(a, b) < 0: lexicographic order on bytes, a proper prefix coming first. */
  predicate Less(a: Bytes, b: Bytes)
    decreases |a|
  {
    if |a| == 0 then |b| > 0
    else if |b| == 0 then false
    else if a[0] != b[0] then a[0] < b[0]
    else Less(a[1..], b[1..])
  }

  lemma {:induction false} LessAsymmetric(a: Bytes, b: Bytes)
    ensures Less(a, b) ==> !Less(b, a)
    decreases |a|
  {
    if |a| > 0 && |b| > 0 && a[0] == b[0] {
      LessAsymmetric(a[1..], b[1..]);
    }
  }

  lemma {:induction false} LessTotal(a: Bytes, b: Bytes)
    ensures a != b ==> Less(a, b) || Less(b, a)
    decreases |a|
  {
    if |a| > 0 && |b| > 0 && a[0] == b[0] {
      LessTotal(a[1..], b[1..]);
      assert a == [a[0]] + a[1..] && b == [b[0]] + b[1..];
    }
  }

  /** Ascending: no element is below its predecessor. */
  predicate Ascending(s: seq<Bytes>) {
    forall i :: 0 <= i < |s| - 1 ==> !Less(s[i + 1], s[i])
  }

  /** Insertion into an ascending list. */
  function Insert(x: Bytes, s: seq<Bytes>): (r: seq<Bytes>)
    requires Ascending(s)
    ensures Ascending(r) && multiset(r) == multiset(s) + multiset{x}
    ensures |r| > 0 && (r[0] == x || (|s| > 0 && r[0] == s[0]))
    decreases |s|
  {
    if |s| == 0 then [x]
    else if Less(s[0], x) then
      LessAsymmetric(s[0], x);
      var t := Insert(x, s[1..]);
      assert s == [s[0]] + s[1..];
      [s[0]] + t
    else [x] + s
  }

  /** The keys sorted as sort.Slice with bytes.Compare orders them. */
  function Sort(s: seq<Bytes>): (r: seq<Bytes>)
    ensures Ascending(r) && multiset(r) == multiset(s)
    decreases |s|
  {
    if |s| == 0 then [] else
      assert s == s[..|s| - 1] + [s[|s| - 1]];
      Insert(s[|s| - 1], Sort(s[..|s| - 1]))
  }

  /** An ascending list without repeats is strictly increasing. */
  lemma StrictlyAscending(s: seq<Bytes>)
    requires Ascending(s)
    requires forall i, j :: 0 <= i < j < |s| ==> s[i] != s[j]
    ensures forall i :: 0 <= i < |s| - 1 ==> Less(s[i], s[i + 1])
  {
    forall i | 0 <= i < |s| - 1
      ensures Less(s[i], s[i + 1])
    {
      LessTotal(s[i], s[i + 1]);
    }
  }

  /** A list without repeats holds each value at most once. */
  lemma {:induction false} DistinctCount(s: seq<Bytes>, x: Bytes)
    ensures (forall i, j :: 0 <= i < j < |s| ==> s[i] != s[j]) ==> multiset(s)[x] <= 1
    decreases |s|
  {
    if |s| > 0 {
      var n := |s| - 1;
      DistinctCount(s[..n], x);
      assert s == s[..n] + [s[n]];
      if forall i, j :: 0 <= i < j < |s| ==> s[i] != s[j] {
        assert forall i, j :: 0 <= i < j < n ==> s[..n][i] != s[..n][j];
        if s[n] == x {
          assert forall i :: 0 <= i < n ==> s[..n][i] != x;
          assert x !in s[..n];
        }
      }
    }
  }

  /** Equal elements at two positions make that value occur at least twice. */
  lemma RepeatCounts(r: seq<Bytes>, i: nat, j: nat)
    ensures i < j < |r| && r[i] == r[j] ==> multiset(r)[r[i]] >= 2
  {
    if i < j < |r| && r[i] == r[j] {
      assert r == r[..j] + r[j..];
      assert r[..j][i] == r[i] && r[j..][0] == r[j];
      assert multiset(r)[r[i]] == multiset(r[..j])[r[i]] + multiset(r[j..])[r[i]];
    }
  }

  /** Two lists with the same multiset have the same repeats. */
  lemma DistinctPreserved(s: seq<Bytes>, r: seq<Bytes>)
    requires multiset(r) == multiset(s)
    requires forall i, j :: 0 <= i < j < |s| ==> s[i] != s[j]
    ensures forall i, j :: 0 <= i < j < |r| ==> r[i] != r[j]
  {
    forall i, j | 0 <= i < j < |r|
      ensures r[i] != r[j]
    {
      DistinctCount(s, r[i]);
      RepeatCounts(r, i, j);
    }
  }

  /**
   * newCoreBPE: the decoders are the inverses of the encoders; it fails exactly when two tokens
   * share an ID (the decoder then has fewer entries than the encoder). sortedTokenBytes holds
   * every token once, in strictly increasing byte order.
   */
  method NewCoreBpe(encoder: map<Bytes, nat>, specialTokensEncoder: map<Bytes, nat>) returns (r: Result<CoreBpe, string>)
    ensures r.Err? <==> !Injective(encoder)
    ensures r.Err? ==> r.error == "encoder and decoder map sizes are different"
    ensures r.Ok? ==> r.value.encoder == encoder && r.value.specialTokensEncoder == specialTokensEncoder
    ensures r.Ok? ==> InvertsTo(encoder, r.value.decoder) && InvertsTo(specialTokensEncoder, r.value.specialTokensDecoder)
    ensures r.Ok? ==> forall i :: 0 <= i < |r.value.sortedTokenBytes| ==> r.value.sortedTokenBytes[i] in encoder
    ensures r.Ok? ==> forall t :: t in encoder ==> t in r.value.sortedTokenBytes
    ensures r.Ok? ==> |r.value.sortedTokenBytes| == |encoder|
    ensures r.Ok? ==> forall i :: 0 <= i < |r.value.sortedTokenBytes| - 1 ==>
      Less(r.value.sortedTokenBytes[i], r.value.sortedTokenBytes[i + 1])
  {
    var decoder := Invert(encoder);
    ValuesCount(encoder);
    if |decoder| != |encoder| {
      return Err("encoder and decoder map sizes are different");
    }
    var specialTokensDecoder := Invert(specialTokensEncoder);
    var keys := Keys(encoder);
    var sorted := Sort(keys);
    SortedKeys(encoder, keys, sorted);
    return Ok(CoreBpe(encoder, decoder, specialTokensEncoder, specialTokensDecoder, sorted));
  }

  /** The keys of the encoder, each once, in the (unspecified) order map iteration yields them. */
  method Keys(encoder: map<Bytes, nat>) returns (keys: seq<Bytes>)
    ensures forall t :: t in keys <==> t in encoder
    ensures forall i, j :: 0 <= i < j < |keys| ==> keys[i] != keys[j]
    ensures |keys| == |encoder|
  {
    keys := [];
    var remaining := encoder.Keys;
    while remaining != {}
      invariant remaining <= encoder.Keys
      invariant forall t :: t in keys <==> t in encoder.Keys - remaining
      invariant forall i, j :: 0 <= i < j < |keys| ==> keys[i] != keys[j]
      invariant |keys| + |remaining| == |encoder.Keys|
      decreases remaining
    {
      var k :| k in remaining;
      keys := keys + [k];
      remaining := remaining - {k};
    }
  }

  /** Sorting the distinct keys gives every key once, strictly increasing. */
  lemma SortedKeys(encoder: map<Bytes, nat>, keys: seq<Bytes>, sorted: seq<Bytes>)
    requires forall t :: t in keys <==> t in encoder
    requires forall i, j :: 0 <= i < j < |keys| ==> keys[i] != keys[j]
    requires |keys| == |encoder|
    requires Ascending(sorted) && multiset(sorted) == multiset(keys)
    ensures forall i :: 0 <= i < |sorted| ==> sorted[i] in encoder
    ensures forall t :: t in encoder ==> t in sorted
    ensures |sorted| == |encoder|
    ensures forall i :: 0 <= i < |sorted| - 1 ==> Less(sorted[i], sorted[i + 1])
  {
    DistinctPreserved(keys, sorted);
    StrictlyAscending(sorted);
    assert forall t :: t in sorted <==> t in multiset(sorted);
    assert forall t :: t in keys <==> t in multiset(keys);
    assert |sorted| == |multiset(sorted)| == |keys|;
  }

  /** The bytes of one ID: the ordinary decoder first, then the special tokens, else nothing. */
  function TokenBytes(bpe: CoreBpe, id: nat): Bytes {
    if id in bpe.decoder then bpe.decoder[id]
    else if id in bpe.specialTokensDecoder then bpe.specialTokensDecoder[id]
    else []
  }

  /** What decoding a list of IDs means: their bytes, in order. */
  function Decoded(bpe: CoreBpe, ids: seq<nat>): Bytes {
    if |ids| == 0 then [] else Decoded(bpe, ids[..|ids| - 1]) + TokenBytes(bpe, ids[|ids| - 1])
  }

  /** Decode: appends the bytes of each ID; an ID known to neither decoder adds nothing. */
  method Decode(bpe: CoreBpe, tokens: seq<nat>) returns (ret: Bytes)
    ensures ret == Decoded(bpe, tokens)
  {
    ret := [];
    var i := 0;
    while i < |tokens|
      invariant 0 <= i <= |tokens|
      invariant ret == Decoded(bpe, tokens[..i])
    {
      var tokenBytes := if tokens[i] in bpe.decoder then bpe.decoder[tokens[i]] else [];
      if tokens[i] !in bpe.decoder {
        tokenBytes := if tokens[i] in bpe.specialTokensDecoder then bpe.specialTokensDecoder[tokens[i]] else [];
      }
      if |tokenBytes| > 0 {
        ret := ret + tokenBytes;
      }
      assert tokens[..i + 1][..i] == tokens[..i];
      i := i + 1;
    }
    assert tokens[..|tokens|] == tokens;
  }

  /**
   * Decoding the IDs of known tokens, with a decoder that inverts an injective encoder, gives
   * back the concatenated tokens.
   */
  lemma {:induction false} DecodeKnownTokens(bpe: CoreBpe, tokens: seq<Bytes>, ids: seq<nat>)
    requires Injective(bpe.encoder) && InvertsTo(bpe.encoder, bpe.decoder)
    requires |ids| == |tokens|
    requires forall i :: 0 <= i < |tokens| ==> tokens[i] in bpe.encoder && ids[i] == bpe.encoder[tokens[i]]
    ensures Decoded(bpe, ids) == Concat(tokens)
    decreases |tokens|
  {
    if |tokens| > 0 {
      var n := |tokens| - 1;
      DecodeKnownTokens(bpe, tokens[..n], ids[..n]);
      assert ids[n] in bpe.encoder.Values;
      assert bpe.decoder[ids[n]] == tokens[n];
    }
  }

  /**
   * The merge round trip: when every single byte is a token and the decoder inverts the ranks,
   * decoding what bytePairEncode produced for a piece gives the piece back.
   */
  lemma EncodeDecodeRoundTrip(bpe: CoreBpe, piece: Bytes, ids: seq<nat>, tokens: seq<Bytes>)
    requires Injective(bpe.encoder) && InvertsTo(bpe.encoder, bpe.decoder)
    requires forall b: byte :: [b] in bpe.encoder
    requires Concat(tokens) == piece && |ids| == |tokens| && TokensKnown(bpe.encoder, tokens)
    requires forall i :: 0 <= i < |tokens| ==> ids[i] == RankOr0(bpe.encoder, tokens[i])
    ensures Decoded(bpe, ids) == piece
  {
    forall i | 0 <= i < |tokens|
      ensures tokens[i] in bpe.encoder
    {
      if |tokens[i]| == 1 {
        assert tokens[i] == [tokens[i][0]];
      }
    }
    DecodeKnownTokens(bpe, tokens, ids);
  }
}
