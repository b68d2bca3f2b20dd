/**
 * Generic facts about sequences used by the list-processing parts of the
 * client: order-preserving filters (subsequences) and a stable sort by an
 * integer key, the way `Array.prototype.sort` with a numeric comparator
 * orders elements.
 */
module Sequences {

  /** `a` is `b` with some elements dropped, the rest kept in order. */
  predicate Subsequence<T(==)>(a: seq<T>, b: seq<T>)
    decreases |b|
  {
    if a == [] then true
    else if b == [] then false
    else if a[0] == b[0] then Subsequence(a[1..], b[1..])
    else Subsequence(a, b[1..])
  }

  lemma {:induction false} SubsequenceRefl<T>(a: seq<T>)
    ensures Subsequence(a, a)
  {
    if a != [] { SubsequenceRefl(a[1..]); }
  }

  lemma {:induction false} SubsequenceMember<T>(a: seq<T>, b: seq<T>, x: T)
    requires Subsequence(a, b) && x in a
    ensures x in b
    decreases |b|
  {
    if a[0] == b[0] {
      if x != a[0] {
        assert x in a[1..];
        SubsequenceMember(a[1..], b[1..], x);
      }
    } else {
      SubsequenceMember(a, b[1..], x);
    }
  }

  lemma {:induction false} SubsequenceTrans<T>(a: seq<T>, b: seq<T>, c: seq<T>)
    requires Subsequence(a, b) && Subsequence(b, c)
    ensures Subsequence(a, c)
    decreases |c|
  {
    if a == [] {
    } else if b[0] == c[0] {
      if a[0] == b[0] {
        SubsequenceTrans(a[1..], b[1..], c[1..]);
      } else {
        SubsequenceTrans(a, b[1..], c[1..]);
      }
    } else {
      SubsequenceTrans(a, b, c[1..]);
      if a[0] == c[0] {
        SubsequenceTail(a, c[1..]);
      }
    }
  }

  /** Dropping the first element of a subsequence leaves a subsequence. */
  lemma {:induction false} SubsequenceTail<T>(a: seq<T>, b: seq<T>)
    requires a != [] && Subsequence(a, b)
    ensures Subsequence(a[1..], b)
    decreases |b|, 1
  {
    if a[0] == b[0] {
      if a[1..] != [] {
        SubsequenceTail(a[1..], b[1..]);
        SubsequenceCons(a[1..], b);
      }
    } else {
      SubsequenceTail(a, b[1..]);
      SubsequenceCons(a[1..], b);
    }
  }

  /** A subsequence of the tail is a subsequence of the whole. */
  lemma {:induction false} SubsequenceCons<T>(a: seq<T>, b: seq<T>)
    requires b != [] && Subsequence(a, b[1..])
    ensures Subsequence(a, b)
    decreases |b|, 0
  {
    if a != [] && a[0] == b[0] {
      SubsequenceTail(a, b[1..]);
    }
  }

  /** `s.filter(p)`: the elements satisfying `p`, in their original order. */
  function Filter<T(!new)>(s: seq<T>, p: T -> bool): (r: seq<T>)
    ensures Subsequence(r, s)
    ensures forall x :: x in r <==> x in s && p(x)
    ensures |r| <= |s|
    decreases |s|
  {
    if s == [] then []
    else
      var rest := Filter(s[1..], p);
      if p(s[0]) then
        assert ([s[0]] + rest)[1..] == rest;
        [s[0]] + rest
      else
        SubsequenceCons(rest, s);
        rest
  }

  /** Filtering twice is filtering once by both conditions. */
  lemma {:induction false} FilterFilter<T(!new)>(s: seq<T>, p: T -> bool, q: T -> bool)
    ensures Filter(Filter(s, p), q) == Filter(s, x => p(x) && q(x))
    decreases |s|
  {
    if s != [] {
      FilterFilter(s[1..], p, q);
      var rest := Filter(s[1..], p);
      if p(s[0]) {
        assert ([s[0]] + rest)[1..] == rest;
      }
    }
  }

  /** Filtering by tests that agree on every element gives the same sequence. */
  lemma {:induction false} FilterExt<T(!new)>(s: seq<T>, p: T -> bool, q: T -> bool)
    requires forall x :: p(x) == q(x)
    ensures Filter(s, p) == Filter(s, q)
  {
    if s != [] {
      FilterExt(s[1..], p, q);
    }
  }

  /** Keeping every element keeps the sequence. */
  lemma {:induction false} FilterAll<T(!new)>(s: seq<T>, p: T -> bool)
    requires forall x :: p(x)
    ensures Filter(s, p) == s
  {
    if s != [] {
      FilterAll(s[1..], p);
    }
  }

  /**
   * One step of the chain: filtering what passed `p` by `q` is filtering the
   * input by `r`, when `r` is `p` and `q` together.
   */
  lemma FilterThen<T(!new)>(s: seq<T>, p: T -> bool, q: T -> bool, r: T -> bool)
    requires forall x :: r(x) == (p(x) && q(x))
    ensures Filter(Filter(s, p), q) == Filter(s, r)
  {
    FilterFilter(s, p, q);
    FilterExt(s, x => p(x) && q(x), r);
  }

  /** Filtering distributes over concatenation. */
  lemma {:induction false} FilterAppend<T(!new)>(a: seq<T>, b: seq<T>, p: T -> bool)
    ensures Filter(a + b, p) == Filter(a, p) + Filter(b, p)
  {
    if a == [] {
      assert a + b == b;
    } else {
      assert (a + b)[1..] == a[1..] + b;
      FilterAppend(a[1..], b, p);
    }
  }

  // ---------------------------------------------------------------------
  // Stable sort by an integer key

  predicate SortedBy<T>(s: seq<T>, key: T -> int)
  {
    forall i, j :: 0 <= i < j < |s| ==> key(s[i]) <= key(s[j])
  }

  /** Inserts `x` after every element whose key is not greater than its own. */
  function InsertBy<T>(s: seq<T>, x: T, key: T -> int): (r: seq<T>)
    ensures |r| == |s| + 1
    decreases |s|
  {
    if s == [] then [x]
    else if key(s[|s| - 1]) <= key(x) then s + [x]
    else InsertBy(s[..|s| - 1], x, key) + [s[|s| - 1]]
  }

  /** Insertion sort, element after element; equal keys keep their order. */
  function SortBy<T>(s: seq<T>, key: T -> int): (r: seq<T>)
    ensures |r| == |s|
    decreases |s|
  {
    if s == [] then [] else InsertBy(SortBy(s[..|s| - 1], key), s[|s| - 1], key)
  }

  lemma {:induction false} InsertByPerm<T>(s: seq<T>, x: T, key: T -> int)
    ensures multiset(InsertBy(s, x, key)) == multiset(s) + multiset{x}
    decreases |s|
  {
    if s != [] && key(s[|s| - 1]) > key(x) {
      InsertByPerm(s[..|s| - 1], x, key);
      assert s == s[..|s| - 1] + [s[|s| - 1]];
    }
  }

  lemma {:induction false} InsertBySorted<T>(s: seq<T>, x: T, key: T -> int)
    requires SortedBy(s, key)
    ensures SortedBy(InsertBy(s, x, key), key)
    decreases |s|
  {
    if s != [] && key(s[|s| - 1]) > key(x) {
      var init := s[..|s| - 1];
      var last := s[|s| - 1];
      InsertBySorted(init, x, key);
      InsertByPerm(init, x, key);
      var r := InsertBy(init, x, key);
      forall i | 0 <= i < |r|
        ensures key(r[i]) <= key(last)
      {
        assert r[i] in multiset(r);
        if r[i] != x {
          assert r[i] in multiset(init);
          var j :| 0 <= j < |init| && init[j] == r[i];
          assert init[j] == s[j];
        }
      }
    }
  }

  /** The sorted sequence is ordered by the key and is a permutation of the input. */
  lemma {:induction false} SortBySorted<T>(s: seq<T>, key: T -> int)
    ensures SortedBy(SortBy(s, key), key)
    ensures multiset(SortBy(s, key)) == multiset(s)
    decreases |s|
  {
    if s != [] {
      SortBySorted(s[..|s| - 1], key);
      InsertBySorted(SortBy(s[..|s| - 1], key), s[|s| - 1], key);
      InsertByPerm(SortBy(s[..|s| - 1], key), s[|s| - 1], key);
      assert s == s[..|s| - 1] + [s[|s| - 1]];
    }
  }

  lemma FilterSingleton<T(!new)>(x: T, p: T -> bool)
    ensures Filter([x], p) == if p(x) then [x] else []
  {
    assert [x][1..] == [];
  }

  /**
   * Inserting `x` leaves the elements of one key in their order: `x` goes
   * after every element of its own key.
   */
  lemma {:induction false} InsertByStable<T(!new)>(s: seq<T>, x: T, key: T -> int, k: int, p: T -> bool)
    requires forall y :: p(y) == (key(y) == k)
    ensures Filter(InsertBy(s, x, key), p) == Filter(s, p) + Filter([x], p)
    decreases |s|
  {
    if s == [] {
      assert InsertBy(s, x, key) == [x];
      assert s + [x] == [x];
    } else if key(s[|s| - 1]) <= key(x) {
      assert InsertBy(s, x, key) == s + [x];
      FilterAppend(s, [x], p);
    } else {
      var init, last := s[..|s| - 1], s[|s| - 1];
      InsertByStable(init, x, key, k, p);
      NotBothKept(x, last, key, k, p);
      InsertByStableStep(init, last, x, key, p);
      assert s == init + [last];
    }
  }

  /** The step of InsertByStable where `x` goes before `last`, whose key is greater. */
  lemma InsertByStableStep<T(!new)>(init: seq<T>, last: T, x: T, key: T -> int, p: T -> bool)
    requires key(last) > key(x)
    requires Filter([x], p) == [] || Filter([last], p) == []
    requires Filter(InsertBy(init, x, key), p) == Filter(init, p) + Filter([x], p)
    ensures Filter(InsertBy(init + [last], x, key), p) == Filter(init + [last], p) + Filter([x], p)
  {
    InsertBySnoc(init, last, x, key);
    FilterAppend(InsertBy(init, x, key), [last], p);
    FilterAppend(init, [last], p);
    Rearrange(Filter(InsertBy(init + [last], x, key), p), Filter(init + [last], p) + Filter([x], p),
              Filter(init, p), Filter([x], p), Filter([last], p));
  }

  /** Inserting before the last element: that element stays last. */
  lemma InsertBySnoc<T>(init: seq<T>, last: T, x: T, key: T -> int)
    requires key(last) > key(x)
    ensures InsertBy(init + [last], x, key) == InsertBy(init, x, key) + [last]
  {
    var s := init + [last];
    assert s[..|s| - 1] == init;
  }

  /** Two elements of different keys are not both kept by a filter on one key. */
  lemma NotBothKept<T(!new)>(x: T, y: T, key: T -> int, k: int, p: T -> bool)
    requires forall z :: p(z) == (key(z) == k)
    requires key(y) > key(x)
    ensures Filter([x], p) == [] || Filter([y], p) == []
  {
    FilterSingleton(x, p);
    FilterSingleton(y, p);
    assert p(x) == (key(x) == k) && p(y) == (key(y) == k);
  }

  /** Two one-key filters joined in either order, when one of them is empty. */
  lemma Rearrange<T>(lhs: seq<T>, rhs: seq<T>, a: seq<T>, b: seq<T>, c: seq<T>)
    requires lhs == (a + b) + c && rhs == (a + c) + b
    requires b == [] || c == []
    ensures lhs == rhs
  {
    if b == [] {
      assert a + b == a;
      assert (a + c) + b == a + c;
    } else {
      assert a + c == a;
      assert (a + b) + c == a + b;
    }
  }

  /**
   * The sort is stable: the elements of any one key come out in the order
   * they went in.
   */
  lemma {:induction false} SortByStable<T(!new)>(s: seq<T>, key: T -> int, k: int, p: T -> bool)
    requires forall y :: p(y) == (key(y) == k)
    ensures Filter(SortBy(s, key), p) == Filter(s, p)
    decreases |s|
  {
    if s != [] {
      var init, last := s[..|s| - 1], s[|s| - 1];
      SortByStable(init, key, k, p);
      InsertByStable(SortBy(init, key), last, key, k, p);
      assert s == init + [last];
      FilterAppend(init, [last], p);
    }
  }

  /**
   * The in-place insertion sort of an array: each element in turn is moved
   * left past the elements with a greater key. It leaves the array holding
   * exactly SortBy of its old contents.
   */
  method SortInPlace<T>(a: array<T>, key: T -> int)
    modifies a
    ensures a[..] == SortBy(old(a[..]), key)
  {
    ghost var input := a[..];
    var i := 0;
    while i < a.Length
      invariant 0 <= i <= a.Length
      invariant a[..i] == SortBy(input[..i], key)
      invariant a[i..] == input[i..]
    {
      assert input[..i + 1][..i] == input[..i];
      assert a[i] == input[i] && a[i + 1..] == input[i + 1..];
      InsertAt(a, i, key);
      i := i + 1;
    }
    assert a[..] == a[..a.Length];
    assert input == input[..a.Length];
  }

  /**
   * One pass of the insertion sort: `a[i]` moves left past the elements of
   * the prefix `a[..i]` with a greater key; the rest of the array is kept.
   */
  method InsertAt<T>(a: array<T>, i: int, key: T -> int)
    requires 0 <= i < a.Length
    modifies a
    ensures a[..i + 1] == InsertBy(old(a[..i]), old(a[i]), key)
    ensures a[i + 1..] == old(a[i + 1..])
  {
    var x := a[i];
    ghost var orig := a[..];
    ghost var sorted := a[..i];
    var j := i;
    assert sorted[..j] == sorted && sorted[j..] == [];
    while j > 0 && key(a[j - 1]) > key(x)
      invariant 0 <= j <= i
      invariant Shifted(a[..], sorted, orig, i, j)
      invariant InsertBy(sorted, x, key) == InsertBy(sorted[..j], x, key) + sorted[j..]
    {
      ghost var before := a[..];
      assert a[j - 1] == before[j - 1] == sorted[j - 1];
      InsertByStep(sorted, j, x, key);
      ShiftStep(before, sorted, orig, i, j);
      a[j] := a[j - 1];
      assert a[..] == before[j := before[j - 1]];
      j := j - 1;
    }
    ghost var before := a[..];
    a[j] := x;
    assert a[..] == before[j := x];
    InsertByStop(sorted, j, x, key);
    ShiftDone(before, sorted, orig, i, j, x);
  }

  /**
   * The state of InsertAt's loop: the prefix before the gap `j` is as it
   * was, the part after the gap up to `i` holds the shifted elements, and
   * the suffix after `i` is untouched.
   */
  ghost predicate Shifted<T>(r: seq<T>, sorted: seq<T>, orig: seq<T>, i: int, j: int)
  {
    |r| == |orig| && 0 <= j <= i < |r| && |sorted| == i &&
    (forall k :: 0 <= k < j ==> r[k] == sorted[k]) &&
    (forall k :: j < k <= i ==> r[k] == sorted[k - 1]) &&
    (forall k :: i < k < |r| ==> r[k] == orig[k])
  }

  lemma ShiftStep<T>(r: seq<T>, sorted: seq<T>, orig: seq<T>, i: int, j: int)
    requires Shifted(r, sorted, orig, i, j) && j > 0 && r[j - 1] == sorted[j - 1]
    ensures Shifted(r[j := r[j - 1]], sorted, orig, i, j - 1)
  {
  }

  lemma ShiftDone<T>(r: seq<T>, sorted: seq<T>, orig: seq<T>, i: int, j: int, x: T)
    requires Shifted(r, sorted, orig, i, j)
    ensures r[j := x][..i + 1] == sorted[..j] + [x] + sorted[j..]
    ensures r[j := x][i + 1..] == orig[i + 1..]
  {
    ShiftedInsert(r[j := x][..i + 1], sorted, j, x);
  }

  lemma ShiftedInsert<T>(r: seq<T>, s: seq<T>, j: int, x: T)
    requires 0 <= j < |r| && |r| == |s| + 1
    requires forall k :: 0 <= k < j ==> r[k] == s[k]
    requires r[j] == x
    requires forall k :: j < k < |r| ==> r[k] == s[k - 1]
    ensures r == s[..j] + [x] + s[j..]
  {
  }

  lemma InsertByStep<T>(s: seq<T>, j: int, x: T, key: T -> int)
    requires 0 < j <= |s| && key(s[j - 1]) > key(x)
    ensures InsertBy(s[..j], x, key) + s[j..] == InsertBy(s[..j - 1], x, key) + s[j - 1..]
  {
    assert s[..j][..j - 1] == s[..j - 1];
    assert s[j - 1..] == [s[j - 1]] + s[j..];
  }

  lemma InsertByStop<T>(s: seq<T>, j: int, x: T, key: T -> int)
    requires 0 <= j <= |s| && (j == 0 || key(s[j - 1]) <= key(x))
    ensures InsertBy(s[..j], x, key) == s[..j] + [x]
  {
  }
}
