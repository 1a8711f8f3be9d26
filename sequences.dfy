/**
 * Two facts about sequences, stated over plain variables so that the proofs using them
 * need not rediscover them on large terms.
 */
module Sequences {

  /** Concatenation regroups freely. */
  lemma Regroup<T>(a: seq<T>, b: seq<T>, c: seq<T>)
    ensures a + b + c == a + (b + c)
  {
  }

  /** Sequences that agree at every index are equal. */
  lemma SamePointwise<T>(a: seq<T>, b: seq<T>)
    requires |a| == |b| && forall i :: 0 <= i < |a| ==> a[i] == b[i]
    ensures a == b
  {
  }
}
