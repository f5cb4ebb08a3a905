/** Sequence notions shared by the model: duplicate-freedom, order-preserving
    subsequences, and filtering (JavaScript's `Array.prototype.filter`, and
    the order in which a document store returns the matches of a query). */
module Seqs {

  /** No element occurs twice. */
  predicate NoDups<T(==,!new)>(s: seq<T>) {
    forall i, j :: 0 <= i < j < |s| ==> s[i] != s[j]
  }

  /** `sub` is what remains of `s` after deleting some of its elements, the
      remaining ones keeping their relative order. Matching the last element
      of `sub` against the last possible position of `s` loses nothing, so the
      greedy definition below is exact. */
  predicate IsSubsequence<T(==,!new)>(sub: seq<T>, s: seq<T>)
    decreases |s|
  {
    if sub == [] then true
    else if s == [] then false
    else if sub[|sub| - 1] == s[|s| - 1] then IsSubsequence(sub[..|sub| - 1], s[..|s| - 1])
    else IsSubsequence(sub, s[..|s| - 1])
  }

  /** Everything a subsequence holds is in the sequence it was taken from. */
  lemma {:induction false} SubsequenceMembers<T(!new)>(sub: seq<T>, s: seq<T>)
    requires IsSubsequence(sub, s)
    ensures forall x :: x in sub ==> x in s
    decreases |s|
  {
    if sub != [] {
      assert s != [];
      var s' := s[..|s| - 1];
      assert s == s' + [s[|s| - 1]];
      if sub[|sub| - 1] == s[|s| - 1] {
        var sub' := sub[..|sub| - 1];
        SubsequenceMembers(sub', s');
        assert sub == sub' + [sub[|sub| - 1]];
      } else {
        SubsequenceMembers(sub, s');
      }
    }
  }

  /** The elements of `s` that satisfy `p`, in their order in `s`. */
  function Filter<T(==,!new)>(s: seq<T>, p: T -> bool): (r: seq<T>)
    ensures |r| <= |s|
    ensures forall x :: x in r <==> x in s && p(x)
  {
    if s == [] then []
    else
      var s' := s[..|s| - 1];
      assert s == s' + [s[|s| - 1]];
      Filter(s', p) + (if p(s[|s| - 1]) then [s[|s| - 1]] else [])
  }

  /** Filtering keeps the order of what it keeps. */
  /** Filtering keeps every passing element as often as it occurs and
      drops every failing one. */
  lemma {:induction false} FilterMultiplicity<T(!new)>(s: seq<T>, p: T -> bool)
    ensures forall x :: multiset(Filter(s, p))[x] == if p(x) then multiset(s)[x] else 0
  {
    if s != [] {
      var s', last := s[..|s| - 1], s[|s| - 1];
      FilterMultiplicity(s', p);
      assert s == s' + [last];
    }
  }

  lemma {:induction false} FilterIsSubsequence<T(!new)>(s: seq<T>, p: T -> bool)
    ensures IsSubsequence(Filter(s, p), s)
  {
    if s != [] {
      var s' := s[..|s| - 1];
      var last := s[|s| - 1];
      var r := Filter(s, p);
      FilterIsSubsequence(s', p);
      if p(last) {
        assert r[..|r| - 1] == Filter(s', p);
      } else {
        assert r == Filter(s', p);
        if r != [] {
          assert r[|r| - 1] in r;
        }
      }
    }
  }

  /** Two predicates that agree on every element of `s` select the same
      elements of `s`. */
  lemma {:induction false} FilterCongruent<T(!new)>(s: seq<T>, p: T -> bool, q: T -> bool)
    requires forall x :: x in s ==> p(x) == q(x)
    ensures Filter(s, p) == Filter(s, q)
  {
    if s != [] {
      var s' := s[..|s| - 1];
      assert forall x :: x in s' ==> x in s;
      FilterCongruent(s', p, q);
    }
  }
}
