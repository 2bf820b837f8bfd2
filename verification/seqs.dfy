/** Facts about sequences that several modules need. */
module Seqs {
  /** Appending associates; stated once so that callers need not re-derive it element by element. */
  lemma AppendAssociates<T>(a: seq<T>, b: seq<T>, c: seq<T>)
    ensures a + b + c == a + (b + c)
  {
  }

  /** A sequence of two elements is the display of them. */
  lemma TwoElements<T>(s: seq<T>)
    requires |s| == 2
    ensures s == [s[0], s[1]]
  {
  }

  /** Two maps that agree on each other's keys are equal. */
  lemma MapsAgree<K, V>(a: map<K, V>, b: map<K, V>)
    requires forall k :: k in a ==> k in b && b[k] == a[k]
    requires forall k :: k in b ==> k in a && a[k] == b[k]
    ensures a == b
  {
    assert a.Keys == b.Keys;
  }
}
