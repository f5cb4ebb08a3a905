/** The two array-update operators of the document store that the user list
    endpoints use: `$addToSet` and `$pull`. */
module MongoArrays {
  import opened Seqs

  /** `$addToSet`: append `x` unless the array already holds it. */
  function AddToSet<T(==,!new)>(s: seq<T>, x: T): (r: seq<T>)
    ensures forall y :: y in r <==> y in s || y == x
    ensures s <= r && |r| <= |s| + 1
    ensures x in s ==> r == s
    ensures NoDups(s) ==> NoDups(r)
  {
    if x in s then s else s + [x]
  }

  /** `$pull` with an equality condition: remove every element equal to `x`,
      keeping all the others with their multiplicities. */
  function Pull<T(==,!new)>(s: seq<T>, x: T): (r: seq<T>)
    ensures multiset(r) == multiset(s)[x := 0]
    ensures x !in r
    ensures forall y :: y != x ==> (y in r <==> y in s)
  {
    if s == [] then []
    else
      var s' := s[..|s| - 1];
      assert s == s' + [s[|s| - 1]];
      Pull(s', x) + (if s[|s| - 1] == x then [] else [s[|s| - 1]])
  }

  /** Pulling a value that is not there changes nothing. */
  lemma {:induction false} PullAbsent<T(!new)>(s: seq<T>, x: T)
    requires x !in s
    ensures Pull(s, x) == s
  {
    if s != [] {
      var s' := s[..|s| - 1];
      assert s == s' + [s[|s| - 1]];
      PullAbsent(s', x);
    }
  }

  /** `$pull` is idempotent. */
  lemma PullIdempotent<T(!new)>(s: seq<T>, x: T)
    ensures Pull(Pull(s, x), x) == Pull(s, x)
  {
    PullAbsent(Pull(s, x), x);
  }

  /** `$pull` keeps the order of the elements it keeps. */
  lemma {:induction false} PullIsSubsequence<T(!new)>(s: seq<T>, x: T)
    ensures IsSubsequence(Pull(s, x), s)
  {
    if s != [] {
      var s' := s[..|s| - 1];
      var last := s[|s| - 1];
      var r := Pull(s, x);
      PullIsSubsequence(s', x);
      if last != x {
        assert r[..|r| - 1] == Pull(s', x);
      } else {
        assert r == Pull(s', x);
        if r != [] {
          assert r[|r| - 1] in r;
        }
      }
    }
  }

  /** `$pull` introduces no duplicates. */
  lemma {:induction false} PullNoDups<T(!new)>(s: seq<T>, x: T)
    requires NoDups(s)
    ensures NoDups(Pull(s, x))
  {
    if s != [] {
      var s' := s[..|s| - 1];
      var last := s[|s| - 1];
      assert NoDups(s');
      PullNoDups(s', x);
      if last != x {
        assert last !in s';
        assert multiset(Pull(s', x))[last] == 0;
      }
    }
  }

  /** `$addToSet` is idempotent. */
  lemma AddToSetIdempotent<T(!new)>(s: seq<T>, x: T)
    ensures AddToSet(AddToSet(s, x), x) == AddToSet(s, x)
  {
  }
}
