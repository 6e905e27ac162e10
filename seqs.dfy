/**
 Sequence helpers that stand for the JavaScript array methods the components
 use: `filter` (Filter), `slice(0, n)` (Take), and the notion of an
 order-preserving subsequence that states what both of them keep.
 */
module Seqs {

  function Min(a: int, b: int): int
  {
    if a <= b then a else b
  }

  /** `a` can be obtained from `b` by deleting elements, keeping the order. */
  predicate IsSubsequence<T(==)>(a: seq<T>, b: seq<T>)
    decreases |b|
  {
    if a == [] then true
    else if b == [] then false
    else (a[0] == b[0] && IsSubsequence(a[1..], b[1..])) || IsSubsequence(a, b[1..])
  }

  /** Number of elements of `s` that satisfy `p`. */
  function Count<T>(s: seq<T>, p: T -> bool): (n: nat)
    ensures n <= |s|
  {
    if s == [] then 0 else (if p(s[0]) then 1 else 0) + Count(s[1..], p)
  }

  /** `Array.prototype.filter`: the elements satisfying `p`, in their original order. */
  function Filter<T>(s: seq<T>, p: T -> bool): (r: seq<T>)
    ensures IsSubsequence(r, s)
    ensures forall i :: 0 <= i < |r| ==> p(r[i])
    ensures forall x :: x in r ==> x in s
    ensures forall i :: 0 <= i < |s| && p(s[i]) ==> s[i] in r
    ensures |r| == Count(s, p)
  {
    if s == [] then []
    else if p(s[0]) then [s[0]] + Filter(s[1..], p)
    else Filter(s[1..], p)
  }

  /** `Array.prototype.slice(0, n)`: the first `n` elements, or all of them if there are fewer. */
  function Take<T>(s: seq<T>, n: nat): (r: seq<T>)
    ensures r <= s
    ensures |r| == Min(n, |s|)
  {
    s[..Min(n, |s|)]
  }

  /** A subsequence of `s` whose elements all satisfy `p` has at most `Count(s, p)` elements. */
  lemma {:induction false} SubsequenceCountBound<T>(r: seq<T>, s: seq<T>, p: T -> bool)
    requires IsSubsequence(r, s)
    requires forall i :: 0 <= i < |r| ==> p(r[i])
    ensures |r| <= Count(s, p)
    decreases |s|
  {
    if r != [] {
      if r[0] == s[0] && IsSubsequence(r[1..], s[1..]) {
        SubsequenceCountBound(r[1..], s[1..], p);
      } else {
        SubsequenceCountBound(r, s[1..], p);
      }
    }
  }

  /**
   Filter is the only subsequence of `s` that keeps exactly the elements
   satisfying `p`: no matching element is left out and no other is let in.
   */
  lemma {:induction false} FilterUnique<T>(r: seq<T>, s: seq<T>, p: T -> bool)
    requires IsSubsequence(r, s)
    requires forall i :: 0 <= i < |r| ==> p(r[i])
    requires |r| == Count(s, p)
    ensures r == Filter(s, p)
    decreases |s|
  {
    if s == [] {
    } else if r == [] {
      assert |Filter(s, p)| == 0;
    } else if r[0] == s[0] && IsSubsequence(r[1..], s[1..]) {
      assert p(s[0]);
      FilterUnique(r[1..], s[1..], p);
      assert r == [r[0]] + r[1..];
    } else {
      SubsequenceCountBound(r, s[1..], p);
      assert !p(s[0]);
      FilterUnique(r, s[1..], p);
    }
  }

  /** A prefix of a subsequence of `s` is a subsequence of `s`. */
  lemma {:induction false} PrefixSubsequence<T>(a: seq<T>, b: seq<T>, k: nat)
    requires IsSubsequence(a, b)
    requires k <= |a|
    ensures IsSubsequence(a[..k], b)
    decreases |b|
  {
    if k > 0 {
      if a[0] == b[0] && IsSubsequence(a[1..], b[1..]) {
        PrefixSubsequence(a[1..], b[1..], k - 1);
        assert a[..k][1..] == a[1..][..k - 1];
      } else {
        PrefixSubsequence(a, b[1..], k);
      }
    }
  }

  lemma {:induction false} SubsequenceReflexive<T>(s: seq<T>)
    ensures IsSubsequence(s, s)
    decreases |s|
  {
    if s != [] {
      SubsequenceReflexive(s[1..]);
    }
  }

  /** Every element satisfies exactly one of a predicate and its negation. */
  lemma {:induction false} CountComplement<T>(s: seq<T>, p: T -> bool, q: T -> bool)
    requires forall x :: q(x) == !p(x)
    ensures Count(s, p) + Count(s, q) == |s|
  {
    if s != [] {
      CountComplement(s[1..], p, q);
    }
  }

  /** Filtering by a predicate that every element already satisfies keeps the sequence whole. */
  lemma FilterKeepsAll<T>(s: seq<T>, p: T -> bool)
    requires forall i :: 0 <= i < |s| ==> p(s[i])
    ensures Filter(s, p) == s
  {
    SubsequenceReflexive(s);
    SubsequenceCountBound(Filter(s, p), s, p);
    SubsequenceCountBound(s, s, p);
    FilterUnique(s, s, p);
  }

  /**
   An element satisfying `p` lands in the filtered sequence at the position
   given by how many satisfying elements precede it.
   */
  lemma {:induction false} FilterPosition<T>(s: seq<T>, p: T -> bool, k: nat)
    requires k < |s| && p(s[k])
    ensures Count(s[..k], p) < |Filter(s, p)|
    ensures Filter(s, p)[Count(s[..k], p)] == s[k]
  {
    if k > 0 {
      FilterPosition(s[1..], p, k - 1);
      assert s[..k][1..] == s[1..][..k - 1];
      assert s[..k][0] == s[0];
    }
  }
}
