/**
 * What the detectors' index loops find in a non-increasing list of ranks:
 * a chained run of equal ranks is a rank that occurs that many times, and a
 * chain of ranks falling by one is the top of a straight.
 */
module RankRuns {
  import opened Wrappers
  import opened ListOps

  /** `t[i] == t[i+1] == ... == t[i+k-1]`, the chained comparison of the run detectors. */
  predicate RunAt(t: seq<int>, i: nat, k: nat)
  {
    i + k <= |t| && forall d :: i <= d < i + k - 1 ==> t[d] == t[d + 1]
  }

  /** `t[i] == t[i+1] + 1 and ... and t[i+3] == t[i+4] + 1`, the straight detectors' test. */
  predicate ConsecutiveAt(t: seq<int>, i: nat)
  {
    i + 5 <= |t| &&
    t[i] == t[i + 1] + 1 && t[i + 1] == t[i + 2] + 1 &&
    t[i + 2] == t[i + 3] + 1 && t[i + 3] == t[i + 4] + 1
  }

  /** The four ranks below `x` all occur in `s`. */
  predicate RunBelow(s: seq<int>, x: int)
  {
    x - 1 in s && x - 2 in s && x - 3 in s && x - 4 in s
  }

  /** The largest element of `t` that occurs at least `k` times in `m`. */
  function HighestIn(t: seq<int>, m: multiset<int>, k: nat): (r: Option<int>)
    ensures r.None? <==> forall i :: 0 <= i < |t| ==> m[t[i]] < k
    ensures r.Some? ==> r.value in t && m[r.value] >= k
    ensures r.Some? ==> forall i :: 0 <= i < |t| && m[t[i]] >= k ==> t[i] <= r.value
  {
    if t == [] then None
    else
      assert forall i :: 1 <= i < |t| ==> t[i] == t[1..][i - 1];
      var rest := HighestIn(t[1..], m, k);
      if m[t[0]] >= k && (rest.None? || t[0] > rest.value) then Some(t[0]) else rest
  }

  /** The smallest element of `t` that occurs at least `k` times in `m`. */
  function LowestIn(t: seq<int>, m: multiset<int>, k: nat): (r: Option<int>)
    ensures r.None? <==> forall i :: 0 <= i < |t| ==> m[t[i]] < k
    ensures r.Some? ==> r.value in t && m[r.value] >= k
    ensures r.Some? ==> forall i :: 0 <= i < |t| && m[t[i]] >= k ==> t[i] >= r.value
  {
    if t == [] then None
    else
      assert forall i :: 1 <= i < |t| ==> t[i] == t[1..][i - 1];
      var rest := LowestIn(t[1..], m, k);
      if m[t[0]] >= k && (rest.None? || t[0] < rest.value) then Some(t[0]) else rest
  }

  /** No value occurs `k` times in `m`. */
  ghost predicate NoneWithCount(m: multiset<int>, k: nat)
  {
    forall x :: m[x] < k
  }

  /** `x` is the highest value occurring at least `k` times in `m`. */
  ghost predicate IsHighestWithCount(m: multiset<int>, k: nat, x: int)
  {
    m[x] >= k && forall y :: m[y] >= k ==> y <= x
  }

  /** `x` is the lowest value occurring at least `k` times in `m`. */
  ghost predicate IsLowestWithCount(m: multiset<int>, k: nat, x: int)
  {
    m[x] >= k && forall y :: m[y] >= k ==> y >= x
  }

  /** The highest rank occurring at least `k` times in `s`, if any. */
  function HighestWithCount(s: seq<int>, k: nat): (r: Option<int>)
    requires k >= 1
    ensures r.None? <==> NoneWithCount(multiset(s), k)
    ensures r.Some? ==> IsHighestWithCount(multiset(s), k, r.value)
  {
    var r := HighestIn(s, multiset(s), k);
    assert forall x :: multiset(s)[x] >= k ==> exists i :: 0 <= i < |s| && s[i] == x by {
      forall x | multiset(s)[x] >= k ensures exists i :: 0 <= i < |s| && s[i] == x {
        assert x in multiset(s);
      }
    }
    r
  }

  /** The lowest rank occurring at least `k` times in `s`, if any. */
  function LowestWithCount(s: seq<int>, k: nat): (r: Option<int>)
    requires k >= 1
    ensures r.None? <==> NoneWithCount(multiset(s), k)
    ensures r.Some? ==> IsLowestWithCount(multiset(s), k, r.value)
  {
    var r := LowestIn(s, multiset(s), k);
    assert forall x :: multiset(s)[x] >= k ==> exists i :: 0 <= i < |s| && s[i] == x by {
      forall x | multiset(s)[x] >= k ensures exists i :: 0 <= i < |s| && s[i] == x {
        assert x in multiset(s);
      }
    }
    r
  }

  /** Only the multiset of a list decides its highest and lowest `k`-fold ranks. */
  lemma HighestWithCountPermutation(a: seq<int>, b: seq<int>, k: nat)
    requires k >= 1 && multiset(a) == multiset(b)
    ensures HighestWithCount(a, k) == HighestWithCount(b, k)
    ensures LowestWithCount(a, k) == LowestWithCount(b, k)
  {
    var ha, hb := HighestWithCount(a, k), HighestWithCount(b, k);
    if ha.Some? && hb.Some? {
      assert ha.value <= hb.value && hb.value <= ha.value;
    }
    var la, lb := LowestWithCount(a, k), LowestWithCount(b, k);
    if la.Some? && lb.Some? {
      assert la.value <= lb.value && lb.value <= la.value;
    }
  }

  /** `HighestWithCount` finds the value that is highest with that count. */
  lemma HighestWithCountIs(s: seq<int>, k: nat, x: int)
    requires k >= 1 && IsHighestWithCount(multiset(s), k, x)
    ensures HighestWithCount(s, k) == Some(x)
  {
    var r := HighestWithCount(s, k);
    assert r.Some?;
    assert r.value <= x && x <= r.value;
  }

  /** `LowestWithCount` finds the value that is lowest with that count. */
  lemma LowestWithCountIs(s: seq<int>, k: nat, x: int)
    requires k >= 1 && IsLowestWithCount(multiset(s), k, x)
    ensures LowestWithCount(s, k) == Some(x)
  {
    var r := LowestWithCount(s, k);
    assert r.Some?;
    assert r.value <= x && x <= r.value;
  }

  /** The largest element `x` of `t` such that `x-1 .. x-4` all occur in `s`. */
  function HighestRunTopIn(t: seq<int>, s: seq<int>): (r: Option<int>)
    ensures r.None? <==> forall i :: 0 <= i < |t| ==> !RunBelow(s, t[i])
    ensures r.Some? ==> r.value in t && RunBelow(s, r.value)
    ensures r.Some? ==> forall i :: 0 <= i < |t| && RunBelow(s, t[i]) ==> t[i] <= r.value
  {
    if t == [] then None
    else
      assert forall i :: 1 <= i < |t| ==> t[i] == t[1..][i - 1];
      var rest := HighestRunTopIn(t[1..], s);
      if RunBelow(s, t[0]) && (rest.None? || t[0] > rest.value) then Some(t[0]) else rest
  }

  /** The top of the highest run of five consecutive values in `s`, if any. */
  function HighestRunTop(s: seq<int>): (r: Option<int>)
    ensures r.None? <==> forall x {:trigger RunBelow(s, x)} :: x in s ==> !RunBelow(s, x)
    ensures r.Some? ==> r.value in s && RunBelow(s, r.value)
    ensures r.Some? ==> forall x {:trigger RunBelow(s, x)} :: x in s && RunBelow(s, x) ==> x <= r.value
  {
    HighestRunTopIn(s, s)
  }

  /** All elements of a constant list are counted. */
  lemma {:induction false} CountConst(s: seq<int>, y: int)
    requires forall j :: 0 <= j < |s| ==> s[j] == y
    ensures multiset(s)[y] == |s|
  {
    if s != [] {
      assert s == [s[0]] + s[1..];
      CountConst(s[1..], y);
    }
  }

  /** A chained run is constant. */
  lemma {:induction false} RunAllEqual(t: seq<int>, i: nat, k: nat)
    requires RunAt(t, i, k)
    ensures forall d :: i <= d < i + k ==> t[d] == t[i]
  {
    if k >= 2 {
      assert RunAt(t, i, k - 1);
      RunAllEqual(t, i, k - 1);
      assert t[i + k - 2] == t[i + k - 1];
    }
  }

  /** A run of `k` equal values makes that value occur at least `k` times. */
  lemma RunCount(t: seq<int>, i: nat, k: nat)
    requires RunAt(t, i, k) && k >= 1
    ensures multiset(t)[t[i]] >= k
  {
    RunAllEqual(t, i, k);
    var y := t[i];
    var mid := t[i..i + k];
    assert t == t[..i] + mid + t[i + k..];
    assert multiset(t) == multiset(t[..i]) + multiset(mid) + multiset(t[i + k..]);
    CountConst(mid, y);
  }

  /** A run in the tail of a list is a run one position later in the list. */
  lemma ShiftRun(t: seq<int>, p: nat, k: nat)
    requires |t| >= 1 && RunAt(t[1..], p, k)
    ensures RunAt(t, p + 1, k)
  {
    forall d | p + 1 <= d < p + k
      ensures t[d] == t[d + 1]
    {
      assert t[d] == t[1..][d - 1] && t[d + 1] == t[1..][d];
    }
  }

  /** A non-increasing list whose head value reappears at `j` is constant up to `j`. */
  lemma Sandwich(t: seq<int>, j: nat, k: nat)
    requires SortedDesc(t) && j < |t| && t[0] == t[j] && k <= j + 1
    ensures RunAt(t, 0, k)
  {
    forall d | 0 <= d <= j
      ensures t[d] == t[0]
    {
      assert t[0] >= t[d] >= t[j];
    }
  }

  /** Splitting the head off a list splits its multiset. */
  lemma HeadCount(t: seq<int>, y: int)
    requires |t| >= 1
    ensures multiset(t)[y] == multiset(t[1..])[y] + (if t[0] == y then 1 else 0)
  {
    assert t == [t[0]] + t[1..];
  }

  /**
   * In a non-increasing list, a value occurring at least `k` times starts a
   * chained run of length `k`.
   */
  lemma {:induction false} CountHasRun(t: seq<int>, y: int, k: nat) returns (p: nat)
    requires SortedDesc(t) && k >= 1 && multiset(t)[y] >= k
    ensures RunAt(t, p, k) && t[p] == y
    decreases |t|
  {
    assert |t| >= 1 by { assert y in multiset(t); }
    HeadCount(t, y);
    SortedSlice(t, 1, |t|);
    if t[0] != y {
      var p' := CountHasRun(t[1..], y, k);
      ShiftRun(t, p', k);
      p := p' + 1;
    } else if k == 1 {
      p := 0;
    } else {
      var p' := CountHasRun(t[1..], y, k - 1);
      RunAllEqual(t[1..], p', k - 1);
      assert t[p' + k - 1] == t[1..][p' + k - 2];
      Sandwich(t, p' + k - 1, k);
      p := 0;
    }
  }

  /** The first chained run of a non-increasing list holds its highest `k`-fold rank. */
  lemma FirstRunIsHighest(t: seq<int>, i: nat, k: nat)
    requires SortedDesc(t) && k >= 1 && RunAt(t, i, k)
    requires forall j :: 0 <= j < i ==> !RunAt(t, j, k)
    ensures HighestWithCount(t, k) == Some(t[i])
  {
    RunCount(t, i, k);
    forall y | multiset(t)[y] >= k
      ensures y <= t[i]
    {
      var p := CountHasRun(t, y, k);
      assert p >= i;
    }
  }

  /** The last chained run of a non-increasing list holds its lowest `k`-fold rank. */
  lemma LastRunIsLowest(t: seq<int>, i: nat, k: nat)
    requires SortedDesc(t) && k >= 1 && RunAt(t, i, k)
    requires forall j :: i < j ==> !RunAt(t, j, k)
    ensures LowestWithCount(t, k) == Some(t[i])
  {
    RunCount(t, i, k);
    forall y | multiset(t)[y] >= k
      ensures y >= t[i]
    {
      var p := CountHasRun(t, y, k);
      assert p <= i;
    }
  }

  /** A non-increasing list without any chained run has no `k`-fold rank. */
  lemma NoRunNoCount(t: seq<int>, k: nat)
    requires SortedDesc(t) && k >= 1
    requires forall j :: !RunAt(t, j, k)
    ensures HighestWithCount(t, k).None? && LowestWithCount(t, k).None?
  {
    forall y | multiset(t)[y] >= k
      ensures false
    {
      var p := CountHasRun(t, y, k);
    }
  }

  /** Two equal entries make their value occur twice. */
  lemma TwoPositions(t: seq<int>, i: nat, j: nat)
    requires i < j < |t| && t[i] == t[j]
    ensures multiset(t)[t[i]] >= 2
  {
    assert t == t[..j] + t[j..];
    assert multiset(t) == multiset(t[..j]) + multiset(t[j..]);
    assert t[i] in multiset(t[..j]) by { assert t[..j][i] == t[i]; }
    assert t[j] in multiset(t[j..]) by { assert t[j..][0] == t[j]; }
  }

  /** A non-increasing list in which nothing occurs twice is strictly decreasing. */
  lemma SortedSingletonsStrict(t: seq<int>)
    requires SortedDesc(t)
    requires forall x :: multiset(t)[x] <= 1
    ensures StrictlyDesc(t)
  {
    forall i, j | 0 <= i < j < |t|
      ensures t[i] > t[j]
    {
      if t[i] == t[j] { TwoPositions(t, i, j); }
    }
  }

  /** The sorted, de-duplicated list of `s` is strictly decreasing and has the elements of `s`. */
  lemma SortedDedup(s: seq<int>)
    ensures StrictlyDesc(SortDesc(Dedup(s)))
    ensures forall x :: x in SortDesc(Dedup(s)) <==> x in s
  {
    var t := SortDesc(Dedup(s));
    assert forall x :: multiset(t)[x] == multiset(Dedup(s))[x];
    SortedSingletonsStrict(t);
    forall x ensures x in t <==> x in s {
      assert x in t <==> x in multiset(t);
    }
  }

  /** Membership of the four ranks below tells the whole story of `HighestRunTop`. */
  lemma HighestRunTopOfSameElements(a: seq<int>, b: seq<int>)
    requires forall x :: x in a <==> x in b
    ensures HighestRunTop(a) == HighestRunTop(b)
  {
    assert forall x :: RunBelow(a, x) <==> RunBelow(b, x);
  }

  /** In a strictly decreasing list, a present value one below `t[p]` sits at `p + 1`. */
  lemma NextBelow(t: seq<int>, p: nat)
    requires StrictlyDesc(t) && p < |t| && t[p] - 1 in t
    ensures p + 1 < |t| && t[p + 1] == t[p] - 1
  {
    var q :| 0 <= q < |t| && t[q] == t[p] - 1;
    assert q > p;
    var next := t[p + 1];
    assert q == p + 1;
  }

  /** Where the four ranks below a present value occur, the list is consecutive there. */
  lemma RunBelowConsecutive(t: seq<int>, p: nat)
    requires StrictlyDesc(t) && p < |t| && RunBelow(t, t[p])
    ensures ConsecutiveAt(t, p)
  {
    var y := t[p];
    NextBelow(t, p);
    NextBelow(t, p + 1);
    NextBelow(t, p + 2);
    NextBelow(t, p + 3);
  }

  /** The first consecutive window of a strictly decreasing list tops its highest straight. */
  lemma FirstConsecutiveIsHighest(t: seq<int>, i: nat)
    requires StrictlyDesc(t) && ConsecutiveAt(t, i)
    requires forall j :: 0 <= j < i ==> !ConsecutiveAt(t, j)
    ensures HighestRunTop(t) == Some(t[i])
  {
    assert t[i + 1] == t[i] - 1 && t[i + 2] == t[i] - 2;
    assert t[i + 3] == t[i] - 3 && t[i + 4] == t[i] - 4;
    assert RunBelow(t, t[i]);
    forall x | x in t && RunBelow(t, x)
      ensures x <= t[i]
    {
      var p :| 0 <= p < |t| && t[p] == x;
      RunBelowConsecutive(t, p);
      assert p >= i;
    }
  }

  /** A strictly decreasing list with no consecutive window has no straight. */
  lemma NoConsecutiveNoRun(t: seq<int>)
    requires StrictlyDesc(t)
    requires forall j :: !ConsecutiveAt(t, j)
    ensures HighestRunTop(t).None?
  {
    forall x | x in t && RunBelow(t, x)
      ensures false
    {
      var p :| 0 <= p < |t| && t[p] == x;
      RunBelowConsecutive(t, p);
    }
  }
}
