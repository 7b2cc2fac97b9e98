/** Sequences without repetition, as lists of database rows are. */
module Sequences {

  predicate Distinct<T(==)>(s: seq<T>) { forall i, j :: 0 <= i < j < |s| ==> s[i] != s[j] }

  function Members<T>(s: seq<T>): set<T> { set x | x in s }

  lemma {:induction false} DistinctCount<T>(s: seq<T>)
    requires Distinct(s)
    ensures |Members(s)| == |s|
  {
    if s != [] {
      var last := s[|s| - 1];
      DistinctCount(s[..|s| - 1]);
      assert s == s[..|s| - 1] + [last];
      assert Members(s) == Members(s[..|s| - 1]) + {last};
    }
  }

  lemma SubsetOfSameSize<T>(a: set<T>, b: set<T>)
    requires a <= b && |a| == |b|
    ensures a == b
  {
    assert b == a + (b - a);
    assert |b - a| == 0;
  }

  /** A sequence without repetition is as good as the set of its members. */
  lemma {:induction false} DistinctMultiset<T>(s: seq<T>)
    requires Distinct(s)
    ensures multiset(s) == multiset(Members(s))
  {
    if s != [] {
      var last := s[|s| - 1];
      DistinctMultiset(s[..|s| - 1]);
      assert s == s[..|s| - 1] + [last];
      assert Members(s) == Members(s[..|s| - 1]) + {last};
    }
  }

  /** Removes repetitions, keeping the first occurrence, as a JavaScript set does. */
  method Unique<T(==)>(s: seq<T>) returns (u: seq<T>)
    ensures Distinct(u) && Members(u) == Members(s)
  {
    u := [];
    for i := 0 to |s|
      invariant Distinct(u) && Members(u) == Members(s[..i])
    {
      assert Members(s[..i + 1]) == Members(s[..i]) + {s[i]};
      if s[i] !in u {
        u := u + [s[i]];
        assert Members(u) == Members(u[..|u| - 1]) + {s[i]};
      }
    }
    assert s[..|s|] == s;
  }
}
