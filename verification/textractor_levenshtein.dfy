/**
 * go-textractor's Levenshtein distance: the one-row dynamic programme over uint16 cells,
 * proved equal to the textbook edit-distance recurrence over byte prefixes.
 */
module TextractorLevenshtein {
  import opened GoStrings

  function Min(a: int, b: int): int { if a < b then a else b }

  /**
   * Edit distance between the prefixes a[..i] and b[..j]: the fewest single-byte insertions,
   * deletions and substitutions that turn one into the other.
   */
  function Dist(a: seq<byte>, b: seq<byte>, i: nat, j: nat): nat
    requires i <= |a| && j <= |b|
    decreases i + j
  {
    if i == 0 then j
    else if j == 0 then i
    else Min(Min(Dist(a, b, i - 1, j) + 1, Dist(a, b, i, j - 1) + 1),
             Dist(a, b, i - 1, j - 1) + (if a[i - 1] == b[j - 1] then 0 else 1))
  }

  /** The edit distance between two whole byte strings. */
  function Lev(a: seq<byte>, b: seq<byte>): nat {
    Dist(a, b, |a|, |b|)
  }

  /** Dropping one byte of the second prefix changes the distance by at most one. */
  lemma {:induction false} DistColumnStep(a: seq<byte>, b: seq<byte>, i: nat, j: nat)
    requires i <= |a| && 1 <= j <= |b|
    ensures Dist(a, b, i, j - 1) <= Dist(a, b, i, j) + 1
    decreases i + j
  {
    if i > 0 && Dist(a, b, i, j) == Dist(a, b, i - 1, j) + 1 {
      DistColumnStep(a, b, i - 1, j);
    }
  }

  /** Dropping one byte of the first prefix changes the distance by at most one. */
  lemma {:induction false} DistRowStep(a: seq<byte>, b: seq<byte>, i: nat, j: nat)
    requires 1 <= i <= |a| && j <= |b|
    ensures Dist(a, b, i - 1, j) <= Dist(a, b, i, j) + 1
    decreases i + j
  {
    if j > 0 && Dist(a, b, i, j) == Dist(a, b, i, j - 1) + 1 {
      DistRowStep(a, b, i, j - 1);
    }
  }

  /** When the last bytes agree the distance is that of the shorter prefixes. */
  lemma DistMatch(a: seq<byte>, b: seq<byte>, i: nat, j: nat)
    requires 1 <= i <= |a| && 1 <= j <= |b| && a[i - 1] == b[j - 1]
    ensures Dist(a, b, i, j) == Dist(a, b, i - 1, j - 1)
  {
    DistColumnStep(a, b, i - 1, j);
    DistRowStep(a, b, i, j - 1);
  }

  /** The distance does not depend on which string is transformed into which. */
  lemma {:induction false} DistSymmetric(a: seq<byte>, b: seq<byte>, i: nat, j: nat)
    requires i <= |a| && j <= |b|
    ensures Dist(a, b, i, j) == Dist(b, a, j, i)
    decreases i + j
  {
    if i > 0 && j > 0 {
      DistSymmetric(a, b, i - 1, j);
      DistSymmetric(a, b, i, j - 1);
      DistSymmetric(a, b, i - 1, j - 1);
    }
  }

  /** The distance lies between the difference of the lengths and the larger length. */
  lemma DistBounds(a: seq<byte>, b: seq<byte>, i: nat, j: nat)
    requires i <= |a| && j <= |b|
    ensures (if i < j then j - i else i - j) <= Dist(a, b, i, j) <= (if i < j then j else i)
  {
    DistLower(a, b, i, j);
    DistUpper(a, b, i, j);
  }

  /** Each insertion or deletion changes the length by one, so the distance is at least the length difference. */
  lemma {:induction false} DistLower(a: seq<byte>, b: seq<byte>, i: nat, j: nat)
    requires i <= |a| && j <= |b|
    ensures (if i < j then j - i else i - j) <= Dist(a, b, i, j)
    decreases i + j
  {
    if i > 0 && j > 0 {
      DistLower(a, b, i - 1, j);
      DistLower(a, b, i, j - 1);
      DistLower(a, b, i - 1, j - 1);
    }
  }

  /** Substituting along the shorter prefix and inserting the rest never takes more than the larger length. */
  lemma {:induction false} DistUpper(a: seq<byte>, b: seq<byte>, i: nat, j: nat)
    requires i <= |a| && j <= |b|
    ensures Dist(a, b, i, j) <= (if i < j then j else i)
    decreases i + j
  {
    if i > 0 && j > 0 {
      DistUpper(a, b, i - 1, j - 1);
    }
  }

  /** Distance zero exactly for equal prefixes. */
  lemma DistZeroIffEqual(a: seq<byte>, b: seq<byte>, i: nat, j: nat)
    requires i <= |a| && j <= |b|
    ensures Dist(a, b, i, j) == 0 <==> i == j && a[..i] == b[..j]
  {
    if Dist(a, b, i, j) == 0 {
      DistZeroEqual(a, b, i, j);
    }
    if i == j && a[..i] == b[..j] {
      EqualDistZero(a, b, i);
    }
  }

  /** Only equal prefixes are at distance zero: every step but a matching diagonal costs one. */
  lemma {:induction false} DistZeroEqual(a: seq<byte>, b: seq<byte>, i: nat, j: nat)
    requires i <= |a| && j <= |b| && Dist(a, b, i, j) == 0
    ensures i == j && a[..i] == b[..j]
    decreases i + j
  {
    if i > 0 && j > 0 {
      assert a[i - 1] == b[j - 1] && Dist(a, b, i - 1, j - 1) == 0;
      DistZeroEqual(a, b, i - 1, j - 1);
      assert a[..i] == a[..i - 1] + [a[i - 1]];
      assert b[..j] == b[..j - 1] + [b[j - 1]];
    }
  }

  /** Equal prefixes are at distance zero: matching diagonal steps all the way. */
  lemma {:induction false} EqualDistZero(a: seq<byte>, b: seq<byte>, i: nat)
    requires i <= |a| && i <= |b| && a[..i] == b[..i]
    ensures Dist(a, b, i, i) == 0
    decreases i
  {
    if i > 0 {
      assert a[..i - 1] == a[..i][..i - 1] && b[..i - 1] == b[..i][..i - 1];
      assert a[i - 1] == a[..i][i - 1] && b[i - 1] == b[..i][i - 1];
      EqualDistZero(a, b, i - 1);
    }
  }

  /** Lev is symmetric, bounded by the lengths, and zero exactly for equal strings. */
  lemma LevProperties(a: seq<byte>, b: seq<byte>)
    ensures Lev(a, b) == Lev(b, a)
    ensures (if |a| < |b| then |b| - |a| else |a| - |b|) <= Lev(a, b) <= (if |a| < |b| then |b| else |a|)
    ensures Lev(a, b) == 0 <==> a == b
  {
    DistSymmetric(a, b, |a|, |b|);
    DistBounds(a, b, |a|, |b|);
    DistZeroIffEqual(a, b, |a|, |b|);
    assert a[..|a|] == a && b[..|b|] == b;
  }

  /** uint16 addition of one, with Go's wrap-around. */
  function Inc16(v: int): int { (v + 1) % 65536 }

  lemma Inc16NoWrap(v: int)
    requires 0 <= v < 65535
    ensures Inc16(v) == v + 1
  {
  }

  /** minUint16. */
  function MinUint16(a: int, b: int): int { if a < b then a else b }

  /** A cell whose bytes differ: the unfolded recurrence. */
  lemma CellMismatch(a: seq<byte>, b: seq<byte>, i: nat, j: nat)
    requires 1 <= i <= |a| && 1 <= j <= |b| && a[i - 1] != b[j - 1]
    ensures Dist(a, b, i, j) == Min(Min(Dist(a, b, i - 1, j) + 1, Dist(a, b, i, j - 1) + 1), Dist(a, b, i - 1, j - 1) + 1)
  {
  }

  /** One cell of the row update: the value the inner loop computes is the distance of the cell. */
  lemma CellStep(a: seq<byte>, b: seq<byte>, i: nat, j: nat, diag: int, left: int, up: int)
    requires 1 <= i <= |a| && 1 <= j <= |b| && |a| < 65535 && |b| < 65535
    requires diag == Dist(a, b, i - 1, j - 1) && left == Dist(a, b, i, j - 1) && up == Dist(a, b, i - 1, j)
    ensures a[i - 1] != b[j - 1] ==> Dist(a, b, i, j) == MinUint16(MinUint16(Inc16(diag), Inc16(left)), Inc16(up))
    ensures a[i - 1] == b[j - 1] ==> Dist(a, b, i, j) == diag
  {
    if a[i - 1] == b[j - 1] {
      DistMatch(a, b, i, j);
    } else {
      CellMismatch(a, b, i, j);
      DistBounds(a, b, i - 1, j - 1);
      DistBounds(a, b, i - 1, j);
      DistBounds(a, b, i, j - 1);
      Inc16NoWrap(diag);
      Inc16NoWrap(left);
      Inc16NoWrap(up);
    }
  }

  /**
   * ComputeLevenshteinDistance: returns the edit distance of the two byte strings. The cells are
   * uint16; for inputs shorter than 65535 bytes no cell wraps.
   */
  method ComputeLevenshteinDistance(s1: seq<byte>, s2: seq<byte>) returns (d: int)
    requires |s1| < 65535 && |s2| < 65535
    ensures d == Lev(s1, s2)
  {
    if |s1| == 0 {
      return |s2|;
    }
    if |s2| == 0 {
      return |s1|;
    }
    if s1 == s2 {
      LevProperties(s1, s2);
      return 0;
    }
    LevProperties(s1, s2);
    if |s1| > |s2| {
      d := RowDistance(s2, s1);
    } else {
      d := RowDistance(s1, s2);
    }
  }

  /**
   * The dynamic programme itself (levenshtein.go, lines 26-51), on s1 no longer than s2: the row
   * x holds the distances from s2[..i] to every prefix of s1.
   */
  method RowDistance(s1: seq<byte>, s2: seq<byte>) returns (d: int)
    requires |s1| < 65535 && |s2| < 65535
    ensures d == Lev(s2, s1)
  {
    var lenS1, lenS2 := |s1|, |s2|;
    var x := new int[lenS1 + 1];
    x[0] := 0;
    var i := 1;
    while i <= lenS1
      invariant 1 <= i <= lenS1 + 1
      invariant forall k :: 0 <= k < i ==> x[k] == k
    {
      x[i] := i;
      i := i + 1;
    }
    assert forall k :: 0 <= k <= lenS1 ==> x[k] == Dist(s2, s1, 0, k);
    i := 1;
    while i <= lenS2
      invariant 1 <= i <= lenS2 + 1
      invariant forall k {:trigger x[k]} :: 0 <= k <= lenS1 ==> x[k] == Dist(s2, s1, i - 1, k)
    {
      NextRow(s1, s2, x, i);
      i := i + 1;
    }
    d := x[lenS1];
  }

  /** One pass of the outer loop (lines 35-47): turns row i-1 of the table into row i. */
  method NextRow(s1: seq<byte>, s2: seq<byte>, x: array<int>, i: int)
    requires |s1| < 65535 && |s2| < 65535 && x.Length == |s1| + 1 && 1 <= i <= |s2|
    requires forall k {:trigger x[k]} :: 0 <= k <= |s1| ==> x[k] == Dist(s2, s1, i - 1, k)
    modifies x
    ensures forall k {:trigger x[k]} :: 0 <= k <= |s1| ==> x[k] == Dist(s2, s1, i, k)
  {
    var lenS1 := |s1|;
    var prev := i;
    var j := 1;
    while j <= lenS1
      invariant 1 <= j <= lenS1 + 1
      invariant prev == Dist(s2, s1, i, j - 1)
      invariant forall k {:trigger x[k]} :: 0 <= k < j - 1 ==> x[k] == Dist(s2, s1, i, k)
      invariant forall k {:trigger x[k]} :: j - 1 <= k <= lenS1 ==> x[k] == Dist(s2, s1, i - 1, k)
    {
      CellStep(s2, s1, i, j, x[j - 1], prev, x[j]);
      var current := x[j - 1];
      if s2[i - 1] != s1[j - 1] {
        current := MinUint16(MinUint16(Inc16(x[j - 1]), Inc16(prev)), Inc16(x[j]));
      }
      x[j - 1] := prev;
      prev := current;
      j := j + 1;
    }
    x[lenS1] := prev;
  }
}
