// Array.prototype.sort with the comparator `(a, b) => key(b) - key(a)`: highest key
// first. ECMAScript requires the sort to be stable (ECMA-262, 10th edition, section
// 22.1.3.27), so elements with equal keys keep their order. The model is an
// insertion sort; StableSortUnique shows that every stable descending sort gives
// the same result.
module StableSort {
  import opened Seqs

  /** Highest key first. */
  predicate Descending<T>(s: seq<T>, key: T -> int) {
    forall i, j :: 0 <= i < j < |s| ==> key(s[i]) >= key(s[j])
  }

  /** Selects the elements whose key is k. */
  function HasKey<T>(key: T -> int, k: int): T -> bool {
    x => key(x) == k
  }

  /** Insert x behind every element of t whose key is at least x's. */
  function Insert<T>(t: seq<T>, x: T, key: T -> int): seq<T>
  {
    if t == [] then [x]
    else if key(t[|t| - 1]) < key(x) then Insert(t[..|t| - 1], x, key) + [t[|t| - 1]]
    else t + [x]
  }

  /** Insertion sort, descending by key. */
  function Sort<T>(s: seq<T>, key: T -> int): seq<T>
  {
    if s == [] then [] else Insert(Sort(s[..|s| - 1], key), s[|s| - 1], key)
  }

  lemma {:induction false} InsertPermutes<T>(t: seq<T>, x: T, key: T -> int)
    ensures multiset(Insert(t, x, key)) == multiset(t) + multiset{x}
  {
    if t != [] && key(t[|t| - 1]) < key(x) {
      var init, last := t[..|t| - 1], t[|t| - 1];
      InsertPermutes(init, x, key);
      assert t == init + [last];
    }
  }

  lemma {:induction false} InsertKeepsOrder<T>(t: seq<T>, x: T, key: T -> int)
    requires Descending(t, key)
    ensures Descending(Insert(t, x, key), key)
  {
    if t != [] && key(t[|t| - 1]) < key(x) {
      var init, last := t[..|t| - 1], t[|t| - 1];
      InsertKeepsOrder(init, x, key);
      InsertPermutes(init, x, key);
      var r0 := Insert(init, x, key);
      forall i | 0 <= i < |r0|
        ensures key(r0[i]) >= key(last)
      {
        assert r0[i] in multiset(init) + multiset{x};
      }
    }
  }

  /** Filtering a list extended by one element. */
  lemma FilterSnoc<T(!new)>(s: seq<T>, x: T, f: T -> bool)
    ensures Filter(s + [x], f) == Filter(s, f) + (if f(x) then [x] else [])
  {
    FilterConcat(s, [x], f);
    assert Filter([x], f) == (if f(x) then [x] else []) + Filter([], f);
  }

  /** Two elements with different keys cannot both be in the class of k, so their order does not show in the class. */
  lemma SwapLast<T(!new)>(init: seq<T>, x: T, y: T, key: T -> int, k: int)
    requires key(x) != key(y)
    ensures var f := HasKey(key, k);
      Filter(init + [x], f) + Filter([y], f) == Filter(init + [y], f) + Filter([x], f)
  {
    var f := HasKey(key, k);
    FilterSnoc(init, x, f);
    FilterSnoc(init, y, f);
    FilterSnoc([], x, f);
    FilterSnoc([], y, f);
    assert [] + [x] == [x] && [] + [y] == [y];
    var a := Filter(init, f);
    if f(x) {
      assert !f(y);
      assert Filter([y], f) == [] && Filter(init + [y], f) == a;
      assert a + [x] + [] == a + [x];
    } else if f(y) {
      assert Filter([x], f) == [] && Filter(init + [x], f) == a;
      assert a + [y] + [] == a + [y];
    } else {
      assert Filter([x], f) == [] && Filter([y], f) == [];
      assert a + [] == a;
    }
  }

  lemma {:induction false} InsertStable<T(!new)>(t: seq<T>, x: T, key: T -> int, k: int)
    ensures Filter(Insert(t, x, key), HasKey(key, k)) == Filter(t + [x], HasKey(key, k))
  {
    if t != [] && key(t[|t| - 1]) < key(x) {
      var init, last := t[..|t| - 1], t[|t| - 1];
      var f := HasKey(key, k);
      calc {
        Filter(Insert(t, x, key), f);
        Filter(Insert(init, x, key) + [last], f);
        { FilterConcat(Insert(init, x, key), [last], f); }
        Filter(Insert(init, x, key), f) + Filter([last], f);
        { InsertStable(init, x, key, k); }
        Filter(init + [x], f) + Filter([last], f);
        { SwapLast(init, x, last, key, k); }
        Filter(init + [last], f) + Filter([x], f);
        { assert t == init + [last]; FilterConcat(t, [x], f); }
        Filter(t + [x], f);
      }
    }
  }

  /** The sorted list is a permutation of the input. */
  lemma {:induction false} SortPermutes<T>(s: seq<T>, key: T -> int)
    ensures multiset(Sort(s, key)) == multiset(s)
  {
    if s != [] {
      var init, last := s[..|s| - 1], s[|s| - 1];
      SortPermutes(init, key);
      InsertPermutes(Sort(init, key), last, key);
      assert s == init + [last];
    }
  }

  /** The sorted list is in descending key order. */
  lemma {:induction false} SortOrders<T>(s: seq<T>, key: T -> int)
    ensures Descending(Sort(s, key), key)
  {
    if s != [] {
      SortOrders(s[..|s| - 1], key);
      InsertKeepsOrder(Sort(s[..|s| - 1], key), s[|s| - 1], key);
    }
  }

  /** Elements with equal keys keep their relative order. */
  lemma {:induction false} SortStable<T(!new)>(s: seq<T>, key: T -> int, k: int)
    ensures Filter(Sort(s, key), HasKey(key, k)) == Filter(s, HasKey(key, k))
  {
    if s != [] {
      var init, last := s[..|s| - 1], s[|s| - 1];
      var f := HasKey(key, k);
      calc {
        Filter(Sort(s, key), f);
        Filter(Insert(Sort(init, key), last, key), f);
        { InsertStable(Sort(init, key), last, key, k); }
        Filter(Sort(init, key) + [last], f);
        { FilterConcat(Sort(init, key), [last], f); }
        Filter(Sort(init, key), f) + Filter([last], f);
        { SortStable(init, key, k); }
        Filter(init, f) + Filter([last], f);
        { FilterConcat(init, [last], f); }
        Filter(init + [last], f);
        { assert s == init + [last]; }
        Filter(s, f);
      }
    }
  }

  /** In a descending sequence the head opens its own key class and no higher class is inhabited. */
  lemma HeadClass<T(!new)>(t: seq<T>, key: T -> int)
    requires t != [] && Descending(t, key)
    ensures Filter(t, HasKey(key, key(t[0]))) != []
    ensures Filter(t, HasKey(key, key(t[0])))[0] == t[0]
    ensures forall k :: k > key(t[0]) ==> Filter(t, HasKey(key, k)) == []
  {
    assert Filter(t, HasKey(key, key(t[0]))) == [t[0]] + Filter(t[1..], HasKey(key, key(t[0])));
    forall k | k > key(t[0])
      ensures Filter(t, HasKey(key, k)) == []
    {
      FilterNone(t, HasKey(key, k));
    }
  }

  /** Dropping a common head keeps a key class equal. */
  lemma TailClasses<T(!new)>(t1: seq<T>, t2: seq<T>, key: T -> int, k: int)
    requires t1 != [] && t2 != [] && t1[0] == t2[0]
    requires Filter(t1, HasKey(key, k)) == Filter(t2, HasKey(key, k))
    ensures Filter(t1[1..], HasKey(key, k)) == Filter(t2[1..], HasKey(key, k))
  {
    var f := HasKey(key, k);
    var r1, r2 := Filter(t1[1..], f), Filter(t2[1..], f);
    if f(t1[0]) {
      assert Filter(t1, f) == [t1[0]] + r1;
      assert Filter(t2, f) == [t1[0]] + r2;
      assert ([t1[0]] + r1)[1..] == r1;
      assert ([t1[0]] + r2)[1..] == r2;
    } else {
      assert Filter(t1, f) == [] + r1 == r1;
      assert Filter(t2, f) == [] + r2 == r2;
    }
  }

  /** Two descending sequences that agree on every key class are equal. */
  lemma {:induction false} DescendingByClassesEqual<T(!new)>(t1: seq<T>, t2: seq<T>, key: T -> int)
    requires Descending(t1, key) && Descending(t2, key)
    requires forall k :: Filter(t1, HasKey(key, k)) == Filter(t2, HasKey(key, k))
    ensures t1 == t2
    decreases |t1| + |t2|
  {
    if t1 == [] && t2 == [] {
    } else if t1 == [] {
      HeadClass(t2, key);
      assert false;
    } else if t2 == [] {
      HeadClass(t1, key);
      assert false;
    } else {
      var a, b := key(t1[0]), key(t2[0]);
      HeadClass(t1, key);
      HeadClass(t2, key);
      assert Filter(t1, HasKey(key, a)) == Filter(t2, HasKey(key, a));
      assert Filter(t1, HasKey(key, b)) == Filter(t2, HasKey(key, b));
      assert a == b;
      assert t1[0] == t2[0];
      forall k
        ensures Filter(t1[1..], HasKey(key, k)) == Filter(t2[1..], HasKey(key, k))
      {
        TailClasses(t1, t2, key, k);
      }
      DescendingByClassesEqual(t1[1..], t2[1..], key);
      assert t1 == [t1[0]] + t1[1..] && t2 == [t2[0]] + t2[1..];
    }
  }

  /**
   * Any arrangement u of s that is in descending key order and keeps every key
   * class in its original order is Sort(s, key): every stable descending sort,
   * whatever its algorithm, gives the model's result.
   */
  lemma StableSortUnique<T(!new)>(s: seq<T>, u: seq<T>, key: T -> int)
    requires Descending(u, key)
    requires forall k :: Filter(u, HasKey(key, k)) == Filter(s, HasKey(key, k))
    ensures u == Sort(s, key)
  {
    SortOrders(s, key);
    forall k ensures Filter(Sort(s, key), HasKey(key, k)) == Filter(u, HasKey(key, k)) {
      SortStable(s, key, k);
    }
    DescendingByClassesEqual(Sort(s, key), u, key);
  }

  /** An input already in descending order is left as it is. */
  lemma SortKeepsDescending<T(!new)>(s: seq<T>, key: T -> int)
    requires Descending(s, key)
    ensures Sort(s, key) == s
  {
    StableSortUnique(s, s, key);
  }

  /** Inserting x lands it right after `left` when everything after `left` has a lower key and `left` does not end lower. */
  lemma {:induction false} InsertLandsAfter<T>(left: seq<T>, right: seq<T>, x: T, key: T -> int)
    requires left == [] || key(left[|left| - 1]) >= key(x)
    requires forall k :: 0 <= k < |right| ==> key(right[k]) < key(x)
    ensures Insert(left + right, x, key) == left + [x] + right
    decreases |right|
  {
    if right != [] {
      var init, last := right[..|right| - 1], right[|right| - 1];
      InsertLandsAfter(left, init, x, key);
      assert left + right == (left + init) + [last];
      assert (left + right)[..|left + right| - 1] == left + init;
    }
  }

  /** A list that agrees with t before j, holds x at j and agrees with t shifted by one after j is t with x put at j. */
  lemma {:induction false} PlacedAt<T>(t: seq<T>, x: T, j: int, u: seq<T>)
    requires 0 <= j <= |t| && |u| == |t| + 1
    requires u[j] == x
    requires forall k :: 0 <= k < j ==> u[k] == t[k]
    requires forall k :: j < k < |u| ==> u[k] == t[k - 1]
    ensures u == t[..j] + [x] + t[j..]
  {
    assert u[..j] == t[..j];
    assert u[j + 1..] == t[j..];
    assert u == u[..j] + [u[j]] + u[j + 1..];
  }

  /** Putting x at j, behind an element of key at least x's and before only lower keys, is Insert(t, x). */
  lemma {:induction false} InsertAt<T>(t: seq<T>, x: T, j: int, key: T -> int)
    requires 0 <= j <= |t|
    requires j == 0 || key(t[j - 1]) >= key(x)
    requires forall k :: j <= k < |t| ==> key(t[k]) < key(x)
    ensures t[..j] + [x] + t[j..] == Insert(t, x, key)
  {
    var left, right := t[..j], t[j..];
    forall k | 0 <= k < |right|
      ensures key(right[k]) < key(x)
    {
      assert right[k] == t[j + k];
    }
    InsertLandsAfter(left, right, x, key);
    calc {
      Insert(t, x, key);
      { assert t == left + right; }
      Insert(left + right, x, key);
      left + [x] + right;
    }
  }

  /** One step of the insertion sort: move a[i] left past every element of a[..i] with a lower key. */
  method InsertInPlace<T>(a: array<T>, i: nat, key: T -> int)
    requires i < a.Length
    modifies a
    ensures a[..i + 1] == Insert(old(a[..i]), old(a[i]), key)
    ensures a[i + 1..] == old(a[i + 1..])
  {
    ghost var t, x := a[..i], a[i];
    var j := i;
    while j > 0 && key(a[j - 1]) < key(a[j])
      invariant 0 <= j <= i
      invariant a[j] == x
      invariant forall k :: 0 <= k < j ==> a[k] == t[k]
      invariant forall k :: j < k <= i ==> a[k] == t[k - 1]
      invariant forall k :: j <= k < i ==> key(t[k]) < key(x)
      invariant forall k :: i < k < a.Length ==> a[k] == old(a[k])
    {
      a[j - 1], a[j] := a[j], a[j - 1];
      j := j - 1;
    }
    PlacedAt(t, x, j, a[..i + 1]);
    InsertAt(t, x, j, key);
  }

  /** The in-place sort: a[..] becomes Sort(old(a[..]), key). */
  method SortInPlace<T>(a: array<T>, key: T -> int)
    modifies a
    ensures a[..] == Sort(old(a[..]), key)
  {
    ghost var s := a[..];
    var i := 0;
    while i < a.Length
      invariant 0 <= i <= a.Length
      invariant a[..i] == Sort(s[..i], key)
      invariant a[i..] == s[i..]
    {
      InsertInPlace(a, i, key);
      assert s[..i + 1][..i] == s[..i];
      assert s[i] == s[i..][0];
      i := i + 1;
    }
    assert a[..] == a[..a.Length] && s == s[..a.Length];
  }
}
