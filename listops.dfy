/**
 * The Python list built-ins the library relies on (`sort(reverse = True)`,
 * `list.remove`, `min`, `list(set(...))`, slicing), as functions with their
 * properties proved.
 */
module ListOps {

  /** Non-increasing order, what `sort(reverse = True)` produces. */
  predicate SortedDesc(s: seq<int>)
  {
    forall i, j :: 0 <= i < j < |s| ==> s[i] >= s[j]
  }

  /** Strictly decreasing order. */
  predicate StrictlyDesc(s: seq<int>)
  {
    forall i, j :: 0 <= i < j < |s| ==> s[i] > s[j]
  }

  /** Elements pairwise different. */
  predicate Distinct<T(==)>(s: seq<T>)
  {
    forall i, j :: 0 <= i < j < |s| ==> s[i] != s[j]
  }

  /** Every element of `a` is at most `m` when every element of a permutation of it is. */
  lemma BoundedByPermutation(a: seq<int>, b: seq<int>, m: int)
    requires multiset(a) == multiset(b)
    requires forall j :: 0 <= j < |b| ==> b[j] <= m
    ensures forall i :: 0 <= i < |a| ==> a[i] <= m
  {
    forall i | 0 <= i < |a|
      ensures a[i] <= m
    {
      assert a[i] in multiset(b);
      var j :| 0 <= j < |b| && b[j] == a[i];
    }
  }

  function Insert(x: int, s: seq<int>): (r: seq<int>)
    requires SortedDesc(s)
    ensures SortedDesc(r)
    ensures multiset(r) == multiset(s) + multiset{x}
  {
    if s == [] || x >= s[0] then [x] + s
    else
      var rest := Insert(x, s[1..]);
      InsertBehind(x, s, rest);
      [s[0]] + rest
  }

  /** Putting the head of `s` back in front of `x` inserted into the tail. */
  lemma InsertBehind(x: int, s: seq<int>, rest: seq<int>)
    requires SortedDesc(s) && s != [] && x < s[0]
    requires SortedDesc(rest) && multiset(rest) == multiset(s[1..]) + multiset{x}
    ensures SortedDesc([s[0]] + rest) && multiset([s[0]] + rest) == multiset(s) + multiset{x}
  {
    assert s == [s[0]] + s[1..];
    assert multiset(rest) == multiset(s[1..] + [x]);
    BoundedByPermutation(rest, s[1..] + [x], s[0]);
  }

  /** `sorted(s, reverse = True)`: the non-increasing permutation of `s`. */
  function SortDesc(s: seq<int>): (r: seq<int>)
    ensures SortedDesc(r)
    ensures multiset(r) == multiset(s)
    ensures |r| == |s|
  {
    if s == [] then []
    else
      assert s == [s[0]] + s[1..];
      Insert(s[0], SortDesc(s[1..]))
  }

  /** A non-increasing list is determined by its multiset. */
  lemma {:induction false} SortedUnique(a: seq<int>, b: seq<int>)
    requires SortedDesc(a) && SortedDesc(b)
    requires multiset(a) == multiset(b)
    ensures a == b
  {
    assert |a| == |multiset(a)| == |multiset(b)| == |b|;
    if a != [] {
      SortedHeadsAgree(a, b);
      TailsPermuted(a, b);
      SortedSlice(a, 1, |a|);
      SortedSlice(b, 1, |b|);
      SortedUnique(a[1..], b[1..]);
      assert a == [a[0]] + a[1..] && b == [b[0]] + b[1..];
    }
  }

  /** Two non-increasing permutations of each other start with the same element. */
  lemma SortedHeadsAgree(a: seq<int>, b: seq<int>)
    requires SortedDesc(a) && SortedDesc(b) && multiset(a) == multiset(b) && a != [] && b != []
    ensures a[0] == b[0]
  {
    assert a[0] in multiset(b);
    var j :| 0 <= j < |b| && b[j] == a[0];
    assert b[0] in multiset(a);
    var i :| 0 <= i < |a| && a[i] == b[0];
  }

  /** Permutations of each other with the same head have tails that are permutations. */
  lemma TailsPermuted(a: seq<int>, b: seq<int>)
    requires multiset(a) == multiset(b) && a != [] && b != [] && a[0] == b[0]
    ensures multiset(a[1..]) == multiset(b[1..])
  {
    assert a == [a[0]] + a[1..];
    assert b == [b[0]] + b[1..];
    assert multiset(a[1..]) == multiset(a) - multiset{a[0]};
    assert multiset(b[1..]) == multiset(b) - multiset{b[0]};
  }

  /** Every slice of a non-increasing list is non-increasing. */
  lemma SortedSlice(s: seq<int>, lo: nat, hi: nat)
    requires SortedDesc(s) && lo <= hi <= |s|
    ensures SortedDesc(s[lo..hi])
  {
    var u := s[lo..hi];
    forall i, j | 0 <= i < j < |u| ensures u[i] >= u[j] {
      assert u[i] == s[lo + i] && u[j] == s[lo + j];
    }
  }

  /** Sorting a non-increasing list changes nothing. */
  lemma SortDescOfSorted(s: seq<int>)
    requires SortedDesc(s)
    ensures SortDesc(s) == s
  {
    SortedUnique(SortDesc(s), s);
  }

  /** Sorting depends only on the multiset of elements. */
  lemma SortDescOfPermutation(a: seq<int>, b: seq<int>)
    requires multiset(a) == multiset(b)
    ensures SortDesc(a) == SortDesc(b)
  {
    SortedUnique(SortDesc(a), SortDesc(b));
  }

  /** The position of the first occurrence of `x`, as `list.index` finds it. */
  function FirstIndex<T(==)>(s: seq<T>, x: T): (k: nat)
    requires x in s
    ensures k < |s| && s[k] == x
    ensures forall j :: 0 <= j < k ==> s[j] != x
  {
    if s[0] == x then 0 else 1 + FirstIndex(s[1..], x)
  }

  /** `list.remove(x)`: drop the first occurrence of `x` (the source raises when it is absent). */
  function RemoveFirst<T(==)>(s: seq<T>, x: T): (r: seq<T>)
    requires x in s
    ensures multiset(r) == multiset(s) - multiset{x}
    ensures |r| == |s| - 1
  {
    var k := FirstIndex(s, x);
    assert s == s[..k] + [s[k]] + s[k + 1..];
    assert multiset(s) == multiset(s[..k]) + multiset{x} + multiset(s[k + 1..]);
    s[..k] + s[k + 1..]
  }

  /** Removing an element keeps a non-increasing list non-increasing. */
  lemma RemoveFirstSorted(s: seq<int>, x: int)
    requires x in s && SortedDesc(s)
    ensures SortedDesc(RemoveFirst(s, x))
  {
    var k := FirstIndex(s, x);
    var r := RemoveFirst(s, x);
    forall i, j | 0 <= i < j < |r|
      ensures r[i] >= r[j]
    {
      var i' := if i < k then i else i + 1;
      var j' := if j < k then j else j + 1;
      assert r[i] == s[i'] && r[j] == s[j'];
    }
  }

  /** On a non-increasing list, removing then sorting is removing from the sorted list. */
  lemma RemoveFirstCommutesWithSort(s: seq<int>, x: int)
    requires x in s
    ensures x in SortDesc(s)
    ensures SortDesc(RemoveFirst(s, x)) == RemoveFirst(SortDesc(s), x)
  {
    assert x in multiset(SortDesc(s));
    RemoveFirstSorted(SortDesc(s), x);
    SortedUnique(SortDesc(RemoveFirst(s, x)), RemoveFirst(SortDesc(s), x));
  }

  /** `min(s)`. */
  function Min(s: seq<int>): (m: int)
    requires |s| > 0
    ensures m in s
    ensures forall i :: 0 <= i < |s| ==> m <= s[i]
  {
    if |s| == 1 then s[0]
    else
      var m' := Min(s[1..]);
      assert forall i :: 1 <= i < |s| ==> s[i] == s[1..][i - 1];
      if s[0] <= m' then s[0] else m'
  }

  /** The slice `s[0:n]`, which Python clamps to the length of `s`. */
  function Take<T>(s: seq<T>, n: nat): (r: seq<T>)
    ensures |r| == if n <= |s| then n else |s|
    ensures r == s[..|r|]
  {
    if n <= |s| then s[..n] else s
  }

  /** The list produced by `list(set(s))`, up to order: every element once. */
  function Dedup(s: seq<int>): (r: seq<int>)
    ensures forall x :: multiset(r)[x] == if x in s then 1 else 0
  {
    if s == [] then []
    else
      assert s == [s[0]] + s[1..];
      if s[0] in s[1..] then Dedup(s[1..]) else [s[0]] + Dedup(s[1..])
  }

  lemma MultisetCancel<T>(a: multiset<T>, x: T)
    ensures (a + multiset{x}) - multiset{x} == a
  {
  }

  /** The last element of the sorted list is the minimum. */
  lemma SortedLastIsMin(s: seq<int>)
    requires |s| > 0
    ensures SortDesc(s)[|s| - 1] == Min(s)
  {
    var t := SortDesc(s);
    var n := |s|;
    assert t[n - 1] in multiset(s);
    assert Min(s) in multiset(t);
    var k :| 0 <= k < n && t[k] == Min(s);
  }

  /** A non-increasing permutation without its last element `m` holds everything but one `m`. */
  lemma SortedPrefixDropsLast(t: seq<int>, s: seq<int>, m: int)
    requires |t| > 0 && t[|t| - 1] == m
    requires SortedDesc(t) && multiset(t) == multiset(s)
    ensures SortedDesc(t[..|t| - 1])
    ensures multiset(t[..|t| - 1]) == multiset(s) - multiset{m}
  {
    var u := t[..|t| - 1];
    assert t == u + [m];
    MultisetCancel(multiset(u), m);
    SortedSlice(t, 0, |t| - 1);
  }

  /** Removing the minimum and sorting drops the last element of the sorted list. */
  lemma SortedDropMin(s: seq<int>)
    requires |s| > 0
    ensures SortDesc(RemoveFirst(s, Min(s))) == SortDesc(s)[..|s| - 1]
  {
    var r := RemoveFirst(s, Min(s));
    SortedLastIsMin(s);
    SortedPrefixDropsLast(SortDesc(s), s, Min(s));
    SortedUnique(SortDesc(r), SortDesc(s)[..|s| - 1]);
  }

  /** A list is duplicate-free exactly when no element occurs twice in its multiset. */
  lemma {:induction false} DistinctCounts<T>(s: seq<T>)
    ensures Distinct(s) <==> forall x :: multiset(s)[x] <= 1
  {
    if s != [] {
      var p, l := s[..|s| - 1], s[|s| - 1];
      assert s == p + [l];
      DistinctCounts(p);
      if Distinct(s) {
        assert Distinct(p) by {
          forall i, j | 0 <= i < j < |p| ensures p[i] != p[j] { assert p[i] == s[i] && p[j] == s[j]; }
        }
        assert multiset(p)[l] == 0;
      } else {
        var i, j :| 0 <= i < j < |s| && s[i] == s[j];
        assert s == s[..j] + [s[j]] + s[j + 1..];
        assert s[i] in multiset(s[..j]) by { assert s[..j][i] == s[i]; }
        assert multiset(s)[s[j]] >= 2;
      }
    }
  }

  /** A permutation of a duplicate-free list is duplicate-free. */
  lemma DistinctPermutation<T>(a: seq<T>, b: seq<T>)
    requires Distinct(a) && multiset(a) == multiset(b)
    ensures Distinct(b)
  {
    DistinctCounts(a);
    DistinctCounts(b);
  }

  /** Every element of a permutation of `a` is an element of `a`. */
  lemma PermutationMembers<T>(a: seq<T>, b: seq<T>)
    requires multiset(a) == multiset(b)
    ensures forall x :: x in b <==> x in a
  {
    forall x ensures x in b <==> x in a {
      assert x in b <==> x in multiset(b);
      assert x in a <==> x in multiset(a);
    }
  }

  /** A slice of a duplicate-free list is duplicate-free. */
  lemma DistinctSlice<T>(s: seq<T>, lo: nat, hi: nat)
    requires Distinct(s) && lo <= hi <= |s|
    ensures Distinct(s[lo..hi])
  {
    var t := s[lo..hi];
    forall i, j | 0 <= i < j < |t| ensures t[i] != t[j] { assert t[i] == s[lo + i] && t[j] == s[lo + j]; }
  }
}
