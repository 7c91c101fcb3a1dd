/** Sequence helpers shared by the views: Array.prototype.filter and the facts
    the views rely on (order, membership, partition). */
module Seqs {

  /** The elements of `s` satisfying `p`, in their original order. */
  function Filter<T>(p: T -> bool, s: seq<T>): (r: seq<T>)
    ensures |r| <= |s|
    ensures forall i :: 0 <= i < |r| ==> r[i] in s && p(r[i])
    ensures forall i :: 0 <= i < |s| && p(s[i]) ==> s[i] in r
    decreases |s|
  {
    if s == [] then []
    else
      var init := Filter(p, s[..|s| - 1]);
      assert forall i :: 0 <= i < |s| - 1 ==> s[i] == s[..|s| - 1][i];
      if p(s[|s| - 1]) then init + [s[|s| - 1]] else init
  }

  /** `a` is obtained from `b` by deleting elements. */
  predicate IsSubsequence<T(==)>(a: seq<T>, b: seq<T>)
    decreases |b|
  {
    if a == [] then true
    else if b == [] then false
    else if a[|a| - 1] == b[|b| - 1] then IsSubsequence(a[..|a| - 1], b[..|b| - 1])
    else IsSubsequence(a, b[..|b| - 1])
  }

  /** Every pair of elements, in order, is related by `R`. */
  ghost predicate Pairwise<T>(R: (T, T) -> bool, s: seq<T>)
  {
    forall i, j :: 0 <= i < j < |s| ==> R(s[i], s[j])
  }

  /** No element occurs twice. */
  predicate Distinct<T(==)>(s: seq<T>)
  {
    forall i, j :: 0 <= i < j < |s| ==> s[i] != s[j]
  }

  lemma {:induction false} FilterIsSubsequence<T>(p: T -> bool, s: seq<T>)
    ensures IsSubsequence(Filter(p, s), s)
    decreases |s|
  {
    if s != [] {
      var init := s[..|s| - 1];
      FilterIsSubsequence(p, init);
      if p(s[|s| - 1]) {
        var r := Filter(p, s);
        assert r[..|r| - 1] == Filter(p, init);
      } else {
        SubsequenceOfPrefix(Filter(p, init), init, s);
      }
    }
  }

  /** A subsequence of a prefix is a subsequence of the whole. */
  lemma {:induction false} SubsequenceOfPrefix<T>(a: seq<T>, init: seq<T>, s: seq<T>)
    requires |s| == |init| + 1 && s[..|s| - 1] == init
    requires IsSubsequence(a, init)
    ensures IsSubsequence(a, s)
    decreases |s|, 0
  {
    if a != [] && a[|a| - 1] == s[|s| - 1] {
      SubsequenceDropLast(a, init);
    }
  }

  lemma {:induction false} SubsequenceDropLast<T>(a: seq<T>, b: seq<T>)
    requires a != [] && IsSubsequence(a, b)
    ensures IsSubsequence(a[..|a| - 1], b)
    decreases |b|, 1
  {
    var a' := a[..|a| - 1];
    if a' != [] {
      if a[|a| - 1] == b[|b| - 1] {
        SubsequenceOfPrefix(a', b[..|b| - 1], b);
      } else {
        SubsequenceDropLast(a, b[..|b| - 1]);
        SubsequenceOfPrefix(a', b[..|b| - 1], b);
      }
    }
  }

  /** Filtering keeps whatever order the input had. */
  lemma {:induction false} FilterKeepsOrder<T>(R: (T, T) -> bool, p: T -> bool, s: seq<T>)
    requires Pairwise(R, s)
    ensures Pairwise(R, Filter(p, s))
    decreases |s|
  {
    if s != [] {
      var init := s[..|s| - 1];
      var last := s[|s| - 1];
      assert Pairwise(R, init) by {
        forall i, j | 0 <= i < j < |init| ensures R(init[i], init[j]) {
          assert init[i] == s[i] && init[j] == s[j];
        }
      }
      FilterKeepsOrder(R, p, init);
      if p(last) {
        var r := Filter(p, s);
        var fi := Filter(p, init);
        assert r == fi + [last];
        forall i, j | 0 <= i < j < |r| ensures R(r[i], r[j]) {
          if j < |fi| {
            assert r[i] == fi[i] && r[j] == fi[j];
          } else {
            assert r[i] == fi[i] && r[i] in init;
            var k :| 0 <= k < |init| && init[k] == r[i];
            assert s[k] == r[i] && s[|s| - 1] == r[j];
          }
        }
      }
    }
  }

  /** Filtering with `p` and with its negation splits `s` into two parts. */
  lemma {:induction false} FilterPartition<T>(p: T -> bool, q: T -> bool, s: seq<T>)
    requires forall x :: q(x) == !p(x)
    ensures |Filter(p, s)| + |Filter(q, s)| == |s|
    ensures multiset(Filter(p, s)) + multiset(Filter(q, s)) == multiset(s)
    decreases |s|
  {
    if s != [] {
      var init := s[..|s| - 1];
      FilterPartition(p, q, init);
      assert s == init + [s[|s| - 1]];
    }
  }

  /** Predicates that agree everywhere on `s` filter it alike. */
  lemma {:induction false} FilterExtensional<T>(p: T -> bool, q: T -> bool, s: seq<T>)
    requires forall x :: x in s ==> p(x) == q(x)
    ensures Filter(p, s) == Filter(q, s)
    decreases |s|
  {
    if s != [] {
      FilterExtensional(p, q, s[..|s| - 1]);
    }
  }

  /** A predicate that holds of every element keeps the whole sequence. */
  lemma {:induction false} FilterAll<T>(p: T -> bool, s: seq<T>)
    requires forall x :: x in s ==> p(x)
    ensures Filter(p, s) == s
    decreases |s|
  {
    if s != [] {
      FilterAll(p, s[..|s| - 1]);
    }
  }

  /** A predicate that holds of no element keeps nothing. */
  lemma {:induction false} FilterNone<T>(p: T -> bool, s: seq<T>)
    requires forall x :: x in s ==> !p(x)
    ensures Filter(p, s) == []
    decreases |s|
  {
    if s != [] {
      FilterNone(p, s[..|s| - 1]);
    }
  }
}
