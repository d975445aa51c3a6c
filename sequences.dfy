/** Order-related notions on sequences used by both pipelines. */
module Sequences {

  /**
   * `a` is obtained from `b` by deleting elements, keeping the rest in
   * their relative order: the head of `b` is either kept (it matches the
   * head of `a`) or dropped.
   */
  ghost predicate IsSubsequence<T>(a: seq<T>, b: seq<T>)
    decreases |b|
  {
    a == [] ||
    (b != [] &&
     ((a[0] == b[0] && IsSubsequence(a[1..], b[1..])) || IsSubsequence(a, b[1..])))
  }

  /** No element occurs twice. */
  ghost predicate NoDuplicates<T>(s: seq<T>)
  {
    forall i, j :: 0 <= i < j < |s| ==> s[i] != s[j]
  }

  /**
   * Taking the head of `a` off and a matching element of `b` out keeps two
   * equal multisets equal.
   */
  lemma RemoveMatching<T>(a: seq<T>, b: seq<T>, i: int)
    requires a != [] && 0 <= i < |b| && b[i] == a[0]
    requires multiset(a) == multiset(b)
    ensures multiset(a[1..]) == multiset(b[..i] + b[i + 1..])
  {
    assert a == [a[0]] + a[1..];
    assert b == b[..i] + [b[i]] + b[i + 1..];
    assert multiset(a[1..]) == multiset(a) - multiset{a[0]};
    assert multiset(b[..i] + b[i + 1..]) == multiset(b) - multiset{b[i]};
  }
}
