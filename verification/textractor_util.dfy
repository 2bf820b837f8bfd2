/**
 * go-textractor's generic slice and map helpers: Sum, Mean, Values and Concatenate. The numeric
 * type parameter is modelled by unbounded integers (Mean's float64 result by a real).
 */
module TextractorUtil {
  /** The sum of a list, adding from the front as the source's loop does. */
  function SumOf(xs: seq<int>): int {
    if |xs| == 0 then 0 else SumOf(xs[..|xs| - 1]) + xs[|xs| - 1]
  }

  /** The sum of a concatenation is the sum of the sums. */
  lemma {:induction false} SumOfAppend(a: seq<int>, b: seq<int>)
    ensures SumOf(a + b) == SumOf(a) + SumOf(b)
    decreases |b|
  {
    if |b| > 0 {
      assert (a + b)[..|a + b| - 1] == a + b[..|b| - 1];
      SumOfAppend(a, b[..|b| - 1]);
    } else {
      assert a + b == a;
    }
  }

  /** Sum: the total of all elements. */
  method Sum(slice: seq<int>) returns (total: int)
    ensures total == SumOf(slice)
  {
    total := 0;
    var i := 0;
    while i < |slice|
      invariant 0 <= i <= |slice|
      invariant total == SumOf(slice[..i])
    {
      assert slice[..i + 1][..i] == slice[..i];
      total := total + slice[i];
      i := i + 1;
    }
    assert slice[..|slice|] == slice;
  }

  /** Mean: 0 for an empty list, otherwise the sum divided by the count. */
  method Mean(data: seq<int>) returns (m: real)
    ensures |data| == 0 ==> m == 0.0
    ensures |data| > 0 ==> m * (|data| as real) == SumOf(data) as real
  {
    if |data| == 0 {
      return 0.0;
    }
    var sum := 0.0;
    var i := 0;
    while i < |data|
      invariant 0 <= i <= |data|
      invariant sum == SumOf(data[..i]) as real
    {
      assert data[..i + 1][..i] == data[..i];
      sum := sum + data[i] as real;
      i := i + 1;
    }
    assert data[..|data|] == data;
    m := sum / (|data| as real);
  }

  /**
   * Values: one element per key of the map, in the map's (unspecified) iteration order. The ghost
   * keys record that order: each key of the map exactly once, with r[i] the value stored under keys[i].
   */
  method Values<K(==), V(==)>(m: map<K, V>) returns (r: seq<V>, ghost keys: seq<K>)
    ensures |r| == |m| == |keys|
    ensures forall i, j :: 0 <= i < j < |keys| ==> keys[i] != keys[j]
    ensures forall k :: k in m <==> k in keys
    ensures forall i :: 0 <= i < |r| ==> keys[i] in m && r[i] == m[keys[i]]
    ensures forall i :: 0 <= i < |r| ==> r[i] in m.Values
    ensures forall k :: k in m ==> m[k] in r
  {
    r := [];
    keys := [];
    var remaining := m.Keys;
    while remaining != {}
      invariant remaining <= m.Keys
      invariant |r| == |keys| && |r| + |remaining| == |m|
      invariant forall i, j :: 0 <= i < j < |keys| ==> keys[i] != keys[j]
      invariant forall k :: k in keys <==> k in m && k !in remaining
      invariant forall i :: 0 <= i < |r| ==> keys[i] in m && r[i] == m[keys[i]]
      decreases |remaining|
    {
      var k :| k in remaining;
      r := r + [m[k]];
      keys := keys + [k];
      remaining := remaining - {k};
    }
    forall k | k in m
      ensures m[k] in r
    {
      var i :| 0 <= i < |keys| && keys[i] == k;
      assert r[i] == m[k];
    }
  }

  /** The elements of all the lists, in order. */
  function Flatten<T>(slices: seq<seq<T>>): seq<T> {
    if |slices| == 0 then [] else Flatten(slices[..|slices| - 1]) + slices[|slices| - 1]
  }

  /** The total number of elements of all the lists. */
  function TotalLen<T>(slices: seq<seq<T>>): nat {
    if |slices| == 0 then 0 else TotalLen(slices[..|slices| - 1]) + |slices[|slices| - 1]|
  }

  /** Flattening keeps every element: its length is the total length. */
  lemma {:induction false} FlattenLength<T>(slices: seq<seq<T>>)
    ensures |Flatten(slices)| == TotalLen(slices)
    decreases |slices|
  {
    if |slices| > 0 {
      FlattenLength(slices[..|slices| - 1]);
    }
  }

  /** Element k of list i sits at its offset, the total length of the lists before it. */
  lemma {:induction false} FlattenAt<T>(slices: seq<seq<T>>, i: nat, k: nat)
    requires i < |slices| && k < |slices[i]|
    ensures TotalLen(slices[..i]) + k < |Flatten(slices)|
    ensures Flatten(slices)[TotalLen(slices[..i]) + k] == slices[i][k]
    decreases |slices|
  {
    var n := |slices| - 1;
    FlattenLength(slices[..n]);
    FlattenLength(slices);
    if i < n {
      assert slices[..n][..i] == slices[..i];
      FlattenAt(slices[..n], i, k);
      assert slices[..n][i] == slices[i];
      TotalLenPrefix(slices, i, n);
    } else {
      assert slices[..i] == slices[..n];
    }
  }

  /** Totals grow with the prefix. */
  lemma {:induction false} TotalLenPrefix<T>(slices: seq<seq<T>>, i: nat, n: nat)
    requires i < n <= |slices|
    ensures TotalLen(slices[..i]) + |slices[i]| <= TotalLen(slices[..n])
    decreases n
  {
    assert slices[..n][..n - 1] == slices[..n - 1];
    if i < n - 1 {
      TotalLenPrefix(slices, i, n - 1);
    } else {
      assert slices[..n][n - 1] == slices[i];
    }
  }

  /** Concatenate: all elements of the input lists, preserving their order. */
  method Concatenate<T>(slices: seq<seq<T>>) returns (result: seq<T>)
    ensures result == Flatten(slices)
    ensures |result| == TotalLen(slices)
  {
    var resultCap := 0;
    var i := 0;
    while i < |slices|
      invariant 0 <= i <= |slices|
      invariant resultCap == TotalLen(slices[..i])
    {
      assert slices[..i + 1][..i] == slices[..i];
      resultCap := resultCap + |slices[i]|;
      i := i + 1;
    }
    result := [];
    i := 0;
    while i < |slices|
      invariant 0 <= i <= |slices|
      invariant result == Flatten(slices[..i])
    {
      assert slices[..i + 1][..i] == slices[..i];
      result := result + slices[i];
      i := i + 1;
    }
    assert slices[..|slices|] == slices;
    FlattenLength(slices);
  }
}
