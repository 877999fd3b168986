/**
 * Ordered subsequences, the relation between a list and what `Array.prototype.filter`
 * keeps of it.
 */
module Seqs {

  /** `a` is `b` with some elements left out, the rest in their order. */
  ghost predicate Subsequence<T>(a: seq<T>, b: seq<T>)
    decreases |b|
  {
    a == [] ||
    (b != [] && ((a[0] == b[0] && Subsequence(a[1..], b[1..])) || Subsequence(a, b[1..])))
  }

  lemma PrefixIsSubsequence<T>(a: seq<T>, b: seq<T>)
    requires a <= b
    ensures Subsequence(a, b)
  {
    if a != [] {
      PrefixIsSubsequence(a[1..], b[1..]);
    }
  }
}
