/** Sequence predicates shared by the string-handling modules. */
module Seqs {

  /** `s.starts_with(prefix)` of the Rust standard library, for strings and slices. */
  predicate StartsWith<T(==)>(s: seq<T>, prefix: seq<T>)
  {
    |prefix| <= |s| && s[..|prefix|] == prefix
  }

  /** No element occurs twice. */
  predicate Distinct<T(==)>(s: seq<T>)
  {
    forall i, j :: 0 <= i < j < |s| ==> s[i] != s[j]
  }

  /** A concatenation starts with its first part and continues with its second. */
  lemma ConcatSplits<T>(a: seq<T>, b: seq<T>)
    ensures StartsWith(a + b, a)
    ensures (a + b)[|a|..] == b
  {
    assert (a + b)[..|a|] == a;
  }

  /** Concatenation is associative: a part may be split in two without changing the whole. */
  lemma Regroup<T>(a: seq<T>, b: seq<T>, x: seq<T>, d: seq<T>)
    ensures a + (b + x) + d == a + b + x + d
  {
  }
}
