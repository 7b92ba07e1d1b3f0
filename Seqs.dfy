/** The array methods the task board is built from: `filter` and `map`, and the
    subsequence relation that `filter` establishes. */
module Seqs {

  /** `a` can be obtained from `b` by deleting elements (order is kept). */
  ghost predicate IsSubsequence<T>(a: seq<T>, b: seq<T>)
    decreases |b|
  {
    a == [] ||
    (b != [] && (IsSubsequence(a, b[1..]) || (a[0] == b[0] && IsSubsequence(a[1..], b[1..]))))
  }

  /** `Array.prototype.filter`: the elements satisfying `p`, in their original order, each
      as often as it occurs in `s`. */
  function Filter<T(!new)>(s: seq<T>, p: T -> bool): (r: seq<T>)
    ensures |r| <= |s|
    ensures forall x :: x in r <==> x in s && p(x)
    ensures forall x :: multiset(r)[x] == if p(x) then multiset(s)[x] else 0
  {
    assert s != [] ==> s == [s[0]] + s[1..];
    if s == [] then []
    else if p(s[0]) then [s[0]] + Filter(s[1..], p)
    else Filter(s[1..], p)
  }

  /** `Array.prototype.map`. */
  function Map<T, U>(s: seq<T>, f: T -> U): (r: seq<U>)
    ensures |r| == |s|
    ensures forall i :: 0 <= i < |s| ==> r[i] == f(s[i])
  {
    if s == [] then [] else [f(s[0])] + Map(s[1..], f)
  }

  lemma {:induction false} SubsequenceLength<T>(a: seq<T>, b: seq<T>)
    requires IsSubsequence(a, b)
    ensures |a| <= |b|
    decreases |b|
  {
    if a != [] {
      if IsSubsequence(a, b[1..]) {
        SubsequenceLength(a, b[1..]);
      } else {
        SubsequenceLength(a[1..], b[1..]);
      }
    }
  }

  /** The result of `filter` keeps the relative order of the input. */
  lemma {:induction false} FilterIsSubsequence<T(!new)>(s: seq<T>, p: T -> bool)
    ensures IsSubsequence(Filter(s, p), s)
  {
    if s != [] {
      FilterIsSubsequence(s[1..], p);
      var r := Filter(s, p);
      if p(s[0]) {
        assert r[0] == s[0] && r[1..] == Filter(s[1..], p);
      } else {
        assert r == Filter(s[1..], p);
      }
    }
  }

  /** A filter that rejects nothing returns its input unchanged. */
  lemma {:induction false} FilterKeepsAll<T(!new)>(s: seq<T>, p: T -> bool)
    requires forall i :: 0 <= i < |s| ==> p(s[i])
    ensures Filter(s, p) == s
  {
    if s != [] {
      FilterKeepsAll(s[1..], p);
    }
  }

  lemma FilterIdempotent<T(!new)>(s: seq<T>, p: T -> bool)
    ensures Filter(Filter(s, p), p) == Filter(s, p)
  {
    var r := Filter(s, p);
    forall i | 0 <= i < |r| ensures p(r[i]) {
      assert r[i] in r;
    }
    FilterKeepsAll(r, p);
  }

  /** Two filters whose predicates agree on every element give the same result. */
  lemma {:induction false} FilterExtensional<T(!new)>(s: seq<T>, p: T -> bool, q: T -> bool)
    requires forall i :: 0 <= i < |s| ==> p(s[i]) == q(s[i])
    ensures Filter(s, p) == Filter(s, q)
  {
    if s != [] {
      FilterExtensional(s[1..], p, q);
    }
  }

  /** Three filters by predicates of which each element satisfies exactly one split the
      input between them, with multiplicity. */
  lemma {:induction false} FilterPartition3<T(!new)>(s: seq<T>, p: T -> bool, q: T -> bool, r: T -> bool)
    requires forall i :: 0 <= i < |s| ==>
      (p(s[i]) && !q(s[i]) && !r(s[i])) || (!p(s[i]) && q(s[i]) && !r(s[i])) || (!p(s[i]) && !q(s[i]) && r(s[i]))
    ensures multiset(Filter(s, p)) + multiset(Filter(s, q)) + multiset(Filter(s, r)) == multiset(s)
  {
    if s != [] {
      FilterPartition3(s[1..], p, q, r);
      assert s == [s[0]] + s[1..];
    }
  }
}
