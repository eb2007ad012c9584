// Generic sequence operations shared by the model: JavaScript's Array.prototype.filter,
// the subsequence relation it produces, and duplicate-freedom.
module Seqs {

  /** Array.prototype.filter: the elements of s that satisfy f, in their original order. */
  function Filter<T(!new)>(s: seq<T>, f: T -> bool): (r: seq<T>)
    ensures |r| <= |s|
  {
    if s == [] then []
    else
      assert s == [s[0]] + s[1..];
      (if f(s[0]) then [s[0]] else []) + Filter(s[1..], f)
  }

  /** Filtering keeps every occurrence of a passing element and none of a failing one. */
  lemma {:induction false} FilterMultiset<T(!new)>(s: seq<T>, f: T -> bool, x: T)
    ensures multiset(Filter(s, f))[x] == if f(x) then multiset(s)[x] else 0
  {
    if s != [] {
      assert s == [s[0]] + s[1..];
      FilterMultiset(s[1..], f, x);
    }
  }

  /** The filtered list holds exactly the elements of s that pass. */
  lemma {:induction false} FilterMembers<T(!new)>(s: seq<T>, f: T -> bool)
    ensures forall x :: x in Filter(s, f) <==> x in s && f(x)
  {
    forall x ensures x in Filter(s, f) <==> x in s && f(x) {
      FilterMultiset(s, f, x);
    }
  }

  lemma {:induction false} FilterConcat<T(!new)>(a: seq<T>, b: seq<T>, f: T -> bool)
    ensures Filter(a + b, f) == Filter(a, f) + Filter(b, f)
  {
    if a == [] {
      assert a + b == b;
    } else {
      var h := if f(a[0]) then [a[0]] else [];
      assert (a + b)[0] == a[0] && (a + b)[1..] == a[1..] + b;
      assert Filter(a + b, f) == h + Filter(a[1..] + b, f);
      FilterConcat(a[1..], b, f);
      assert Filter(a, f) == h + Filter(a[1..], f);
      assert h + (Filter(a[1..], f) + Filter(b, f)) == (h + Filter(a[1..], f)) + Filter(b, f);
    }
  }

  /** Filtering keeps everything when every element passes. */
  lemma {:induction false} FilterAll<T(!new)>(s: seq<T>, f: T -> bool)
    requires forall i :: 0 <= i < |s| ==> f(s[i])
    ensures Filter(s, f) == s
  {
    if s != [] {
      FilterAll(s[1..], f);
    }
  }

  /** Filtering keeps nothing when no element passes. */
  lemma {:induction false} FilterNone<T(!new)>(s: seq<T>, f: T -> bool)
    requires forall i :: 0 <= i < |s| ==> !f(s[i])
    ensures Filter(s, f) == []
  {
    if s != [] {
      FilterNone(s[1..], f);
    }
  }

  /** t is obtained from s by deleting elements; the order of what is kept is s's. */
  predicate IsSubsequence<T(==)>(t: seq<T>, s: seq<T>)
    decreases |s|
  {
    t == [] ||
    (s != [] &&
      (IsSubsequence(t, s[1..]) || (t[0] == s[0] && IsSubsequence(t[1..], s[1..]))))
  }

  lemma {:induction false} FilterIsSubsequence<T(!new)>(s: seq<T>, f: T -> bool)
    ensures IsSubsequence(Filter(s, f), s)
    decreases |s|
  {
    if s != [] {
      var r, r1 := Filter(s, f), Filter(s[1..], f);
      FilterIsSubsequence(s[1..], f);
      if f(s[0]) {
        assert r == [s[0]] + r1;
        assert r[1..] == r1;
      } else {
        assert r == r1;
      }
    }
  }

  /** No element occurs twice. */
  predicate Distinct<T(==)>(s: seq<T>) {
    forall i, j :: 0 <= i < j < |s| ==> s[i] != s[j]
  }

  /** In a duplicate-free sequence every element occurs exactly once and nothing else occurs. */
  lemma {:induction false} DistinctOccursOnce<T>(s: seq<T>, x: T)
    requires Distinct(s)
    ensures multiset(s)[x] == if x in s then 1 else 0
  {
    if s != [] {
      assert s == [s[0]] + s[1..];
      assert Distinct(s[1..]);
      DistinctOccursOnce(s[1..], x);
      assert x == s[0] ==> x !in s[1..];
    }
  }

  /**
   * If every passing element sits at a position in [lo, hi), at most
   * hi - max(lo, 0) elements pass.
   */
  lemma {:induction false} FilterCountBound<T(!new)>(s: seq<T>, f: T -> bool, lo: int, hi: int)
    requires forall i :: 0 <= i < |s| && f(s[i]) ==> lo <= i < hi
    ensures |Filter(s, f)| <= if hi <= lo || hi <= 0 then 0 else hi - (if lo < 0 then 0 else lo)
  {
    if s != [] {
      forall i | 0 <= i < |s[1..]| && f(s[1..][i])
        ensures lo - 1 <= i < hi - 1
      {
        assert s[1..][i] == s[i + 1];
      }
      FilterCountBound(s[1..], f, lo - 1, hi - 1);
    }
  }
}
