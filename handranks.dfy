/**
 * What each of the ten hand detectors computes, stated on the ranks and suits
 * of the available cards (board and hole together), and the evaluator that
 * tries them strongest first.
 */
module HandRanks {
  import opened Wrappers
  import opened ListOps
  import opened RankRuns
  import opened Cards
  import opened HandOrder

  /** The ranks of the cards, in card order. */
  function Ranks(total: seq<Card>): (rs: seq<int>)
    ensures |rs| == |total| && forall i :: 0 <= i < |total| ==> rs[i] == total[i].rank
  {
    seq(|total|, i requires 0 <= i < |total| => total[i].rank)
  }

  /** The multiset `m` with `c` copies of `x` taken out. */
  function Without(m: multiset<int>, x: int, c: nat): multiset<int>
    requires m[x] >= c
  {
    m[x := m[x] - c]
  }

  /**
   * `ks` are the `n` largest elements of `m` (all of them if `m` is smaller),
   * in non-increasing order.
   */
  ghost predicate TopOf(m: multiset<int>, ks: seq<int>, n: nat)
  {
    |ks| == (if n <= |m| then n else |m|) && SortedDesc(ks) && multiset(ks) <= m &&
    forall x, i :: x in m - multiset(ks) && 0 <= i < |ks| ==> x <= ks[i]
  }

  /** `k` occurs in `m` and nothing in `m` is larger. */
  ghost predicate IsMaxOf(m: multiset<int>, k: int)
  {
    k in m && forall x :: x in m ==> x <= k
  }

  /** The one largest element of `m` is its maximum. */
  lemma TopOneIsMax(m: multiset<int>, k: int)
    requires TopOf(m, [k], 1)
    ensures IsMaxOf(m, k)
  {
    forall x | x in m
      ensures x <= k
    {
      if x != k { assert x in m - multiset([k]); }
    }
  }

  /** The front of a non-increasing list holds its largest elements. */
  lemma TakeIsTop(t: seq<int>, n: nat)
    requires SortedDesc(t)
    ensures TopOf(multiset(t), Take(t, n), n)
  {
    var ks := Take(t, n);
    var k := |ks|;
    SplitMultiset(t, k);
    SortedSlice(t, 0, k);
    forall x, i | x in multiset(t) - multiset(ks) && 0 <= i < k
      ensures x <= ks[i]
    {
      SortedTailBelow(t, k, x, i);
    }
  }

  /** Cutting `t` at `k` splits its multiset into that of the front and that of the rest. */
  lemma SplitMultiset(t: seq<int>, k: nat)
    requires k <= |t|
    ensures multiset(t[..k]) <= multiset(t) && multiset(t) - multiset(t[..k]) == multiset(t[k..])
  {
    assert t == t[..k] + t[k..];
  }

  /** In a non-increasing list, what lies past position `k` is no larger than what lies before it. */
  lemma SortedTailBelow(t: seq<int>, k: nat, x: int, i: nat)
    requires SortedDesc(t) && i < k <= |t| && x in multiset(t[k..])
    ensures x <= t[i]
  {
    var j :| 0 <= j < |t| - k && t[k..][j] == x;
    assert t[k + j] == x;
  }

  /** `list.remove` keeps a sorted list sorted. */
  lemma RemoveFirstKeepsSorted(t: seq<int>, x: int)
    requires x in t
    ensures SortedDesc(t) ==> SortedDesc(RemoveFirst(t, x))
  {
    if SortedDesc(t) { RemoveFirstSorted(t, x); }
  }

  /** `c` successive `list.remove(x)` calls. */
  function RemoveN(t: seq<int>, x: int, c: nat): (r: seq<int>)
    requires multiset(t)[x] >= c
    ensures |r| == |t| - c
    ensures multiset(r) == Without(multiset(t), x, c)
    ensures SortedDesc(t) ==> SortedDesc(r)
    decreases c
  {
    if c == 0 then t
    else
      assert x in multiset(t);
      var t' := RemoveFirst(t, x);
      RemoveFirstKeepsSorted(t, x);
      WithoutOneMore(multiset(t), x, c);
      RemoveN(t', x, c - 1)
  }

  /** Taking out one `x`, then `c - 1` more, takes out `c`. */
  lemma WithoutOneMore(m: multiset<int>, x: int, c: nat)
    requires m[x] >= c >= 1
    ensures Without(m - multiset{x}, x, c - 1) == Without(m, x, c)
  {
  }

  /** A prefix of a prefix is a prefix: `a` sorts `rs`, `b` sorts `r1`, `c` sorts what `r1` keeps. */
  lemma PrefixOfPrefix(rs: seq<int>, r1: seq<int>, a: seq<int>, b: seq<int>, c: seq<int>)
    requires |rs| >= 2 && |r1| == |rs| - 1 && |a| == |rs|
    requires b == a[..|rs| - 1] && c == b[..|r1| - 1]
    ensures c == a[..|rs| - 2]
  {
  }

  /** Removing the two smallest ranks and sorting keeps the front of the sorted ranks. */
  lemma DropTwoMinima(rs: seq<int>)
    requires |rs| >= 2
    ensures var r1 := RemoveFirst(rs, Min(rs));
            SortDesc(RemoveFirst(r1, Min(r1))) == SortDesc(rs)[..|rs| - 2]
  {
    var r1 := RemoveFirst(rs, Min(rs));
    SortedDropMin(rs);
    SortedDropMin(r1);
    PrefixOfPrefix(rs, r1, SortDesc(rs), SortDesc(r1), SortDesc(RemoveFirst(r1, Min(r1))));
  }

  /** Taking one element of a non-empty list. */
  lemma TakeOne(s: seq<int>)
    requires |s| >= 1
    ensures Take(s, 1) == [s[0]]
  {
  }

  /** After `c` copies of `p` leave a sorted list, its front holds the largest of the rest. */
  lemma KickersTop(t: seq<int>, p: int, c: nat, n: nat)
    requires SortedDesc(t) && multiset(t)[p] >= c
    ensures TopOf(Without(multiset(t), p, c), Take(RemoveN(t, p, c), n), n)
  {
    TakeIsTop(RemoveN(t, p, c), n);
  }

  /** High card: every rank but the two smallest, in non-increasing order. */
  function HighCardSpec(total: seq<Card>): (r: seq<int>)
    requires |total| >= 2
    ensures |r| == |total| - 2
    ensures TopOf(multiset(Ranks(total)), r, |total| - 2)
  {
    var rs := Ranks(total);
    var r1 := RemoveFirst(rs, Min(rs));
    DropTwoMinima(rs);
    TakeIsTop(SortDesc(rs), |rs| - 2);
    SortDesc(RemoveFirst(r1, Min(r1)))
  }

  /*
   * The rank-count detectors first sort the ranks into non-increasing order;
   * their specifications below take that sorted list `t`.
   */

  /** One pair: the highest paired rank, then the three highest of the other cards. */
  function OnePairOf(t: seq<int>): (r: Option<seq<int>>)
    requires SortedDesc(t)
    ensures r.None? <==> NoneWithCount(multiset(t), 2)
    ensures r.Some? ==> |r.value| >= 1 && IsHighestWithCount(multiset(t), 2, r.value[0])
    ensures r.Some? ==> TopOf(Without(multiset(t), r.value[0], 2), r.value[1..], 3)
    ensures r.Some? && |t| >= 5 ==> |r.value| == 4
  {
    match HighestWithCount(t, 2)
    case None => None
    case Some(p) =>
      KickersTop(t, p, 2, 3);
      var ks := Take(RemoveN(t, p, 2), 3);
      assert ([p] + ks)[1..] == ks;
      Some([p] + ks)
  }

  /** Three of a kind: the highest tripled rank, then the two highest of the other cards. */
  function ThreeKindOf(t: seq<int>): (r: Option<seq<int>>)
    requires SortedDesc(t)
    ensures r.None? <==> NoneWithCount(multiset(t), 3)
    ensures r.Some? ==> |r.value| >= 1 && IsHighestWithCount(multiset(t), 3, r.value[0])
    ensures r.Some? ==> TopOf(Without(multiset(t), r.value[0], 3), r.value[1..], 2)
    ensures r.Some? && |t| >= 5 ==> |r.value| == 3
  {
    match HighestWithCount(t, 3)
    case None => None
    case Some(p) =>
      KickersTop(t, p, 3, 2);
      var ks := Take(RemoveN(t, p, 3), 2);
      assert ([p] + ks)[1..] == ks;
      Some([p] + ks)
  }

  /**
   * Two pair as written: both pair searches keep the last match of the sorted
   * ranks, so the first entry is the lowest paired rank and the second the
   * lowest paired rank of what is left; the third is the highest remaining rank.
   */
  function TwoPairOf(t: seq<int>): (r: Option<seq<int>>)
    requires SortedDesc(t) && |t| >= 5
    ensures r.Some? ==> |r.value| == 3 && IsLowestWithCount(multiset(t), 2, r.value[0])
    ensures r.Some? ==>
      var m1 := Without(multiset(t), r.value[0], 2);
      IsLowestWithCount(m1, 2, r.value[1]) && IsMaxOf(Without(m1, r.value[1], 2), r.value[2])
    ensures r.None? <==>
      match LowestWithCount(t, 2)
      case None => true
      case Some(p) => NoneWithCount(Without(multiset(t), p, 2), 2)
  {
    match LowestWithCount(t, 2)
    case None => None
    case Some(p1) => TwoPairRest(RemoveN(t, p1, 2), p1)
  }

  /**
   * The second pair search of two pair, on the sorted ranks `t1` left once
   * the pair of `p1` is out: the lowest paired rank of `t1`, then the highest
   * rank left after it. `TwoPairOf` states what the second pair means.
   */
  function TwoPairRest(t1: seq<int>, p1: int): (r: Option<seq<int>>)
    requires SortedDesc(t1) && |t1| >= 3
    ensures r.Some? ==> SecondPair(t1, p1, r.value)
    ensures r.None? <==> NoneWithCount(multiset(t1), 2)
  {
    match LowestWithCount(t1, 2)
    case None => None
    case Some(p2) =>
      var k := Kicker(t1, p2);
      SecondPairOf(t1, p1, p2, k);
      Some([p1, p2, k])
  }

  /**
   * `v` is `p1`, then the lowest paired rank of `t1`, then the highest rank
   * left once that pair is out.
   */
  ghost predicate SecondPair(t1: seq<int>, p1: int, v: seq<int>)
  {
    |v| == 3 && v[0] == p1 && LowestWithCount(t1, 2) == Some(v[1]) &&
    multiset(t1)[v[1]] >= 2 && IsMaxOf(Without(multiset(t1), v[1], 2), v[2])
  }

  /** Assembling the second pair and its kicker. */
  lemma SecondPairOf(t1: seq<int>, p1: int, p2: int, k: int)
    requires LowestWithCount(t1, 2) == Some(p2) && multiset(t1)[p2] >= 2
    requires IsMaxOf(Without(multiset(t1), p2, 2), k)
    ensures SecondPair(t1, p1, [p1, p2, k])
  {
  }

  /** The highest rank left once a pair of `p` is taken out of the sorted ranks `t1`. */
  function Kicker(t1: seq<int>, p: int): (k: int)
    requires SortedDesc(t1) && |t1| >= 3 && multiset(t1)[p] >= 2
    ensures IsMaxOf(Without(multiset(t1), p, 2), k)
  {
    KickerIsMax(t1, p);
    RemoveN(t1, p, 2)[0]
  }

  /** The first rank left after the pair of `p` is the highest left. */
  lemma KickerIsMax(t1: seq<int>, p: int)
    requires SortedDesc(t1) && |t1| >= 3 && multiset(t1)[p] >= 2
    ensures |RemoveN(t1, p, 2)| >= 1 && IsMaxOf(Without(multiset(t1), p, 2), RemoveN(t1, p, 2)[0])
  {
    var t2 := RemoveN(t1, p, 2);
    KickersTop(t1, p, 2, 1);
    TakeOne(t2);
    TopOneIsMax(Without(multiset(t1), p, 2), t2[0]);
  }


  /**
   * Full house: the highest tripled rank, then the highest rank occurring at
   * least twice among the other cards.
   */
  function FullHouseOf(t: seq<int>): (r: Option<seq<int>>)
    requires SortedDesc(t)
    ensures r.Some? ==> |r.value| == 2 && IsHighestWithCount(multiset(t), 3, r.value[0])
    ensures r.Some? ==> IsHighestWithCount(Without(multiset(t), r.value[0], 3), 2, r.value[1])
    ensures r.None? <==>
      match HighestWithCount(t, 3)
      case None => true
      case Some(p) => NoneWithCount(Without(multiset(t), p, 3), 2)
  {
    match HighestWithCount(t, 3)
    case None => None
    case Some(p3) =>
      var t1 := RemoveN(t, p3, 3);
      match HighestWithCount(t1, 2)
      case None => None
      case Some(p2) => Some([p3, p2])
  }

  /**
   * Four of a kind: a rank occurring four times (the lowest such, the search
   * keeping its last match) and the highest remaining rank.
   */
  function FourKindOf(t: seq<int>): (r: Option<seq<int>>)
    requires SortedDesc(t) && |t| >= 5
    ensures r.None? <==> NoneWithCount(multiset(t), 4)
    ensures r.Some? ==> |r.value| == 2 && IsLowestWithCount(multiset(t), 4, r.value[0])
    ensures r.Some? ==> TopOf(Without(multiset(t), r.value[0], 4), [r.value[1]], 1)
  {
    match LowestWithCount(t, 4)
    case None => None
    case Some(q) =>
      var rest := RemoveN(t, q, 4);
      KickersTop(t, q, 4, 1);
      TakeOne(rest);
      Some([q, rest[0]])
  }

  /** The ranks of the cards of suit `u`, in card order. */
  function SuitRanks(total: seq<Card>, u: char): (r: seq<int>)
    ensures |r| <= |total|
    ensures forall x :: x in r ==> exists i :: 0 <= i < |total| && total[i].suit == u && total[i].rank == x
    decreases |total|
  {
    if total == [] then []
    else
      var init := total[..|total| - 1];
      var c := total[|total| - 1];
      assert forall i :: 0 <= i < |init| ==> init[i] == total[i];
      SuitRanks(init, u) + (if c.suit == u then [c.rank] else [])
  }

  /** Suit `u` holds at least five of the cards. */
  predicate FlushIn(total: seq<Card>, u: char)
  {
    |SuitRanks(total, u)| >= 5
  }

  /** The first suit of the table, in `s h d c` order, holding at least five cards. */
  function FlushSuit(total: seq<Card>): (u: Option<char>)
    ensures u.None? <==> !FlushIn(total, 's') && !FlushIn(total, 'h') && !FlushIn(total, 'd') && !FlushIn(total, 'c')
    ensures u.Some? ==> u.value in SuitChars && FlushIn(total, u.value)
    ensures u == Some('h') ==> !FlushIn(total, 's')
    ensures u == Some('d') ==> !FlushIn(total, 's') && !FlushIn(total, 'h')
    ensures u == Some('c') ==> !FlushIn(total, 's') && !FlushIn(total, 'h') && !FlushIn(total, 'd')
  {
    if FlushIn(total, 's') then Some('s')
    else if FlushIn(total, 'h') then Some('h')
    else if FlushIn(total, 'd') then Some('d')
    else if FlushIn(total, 'c') then Some('c')
    else None
  }

  /**
   * Flush: for the first suit in `s h d c` order holding at least five cards,
   * its five highest ranks in non-increasing order.
   */
  function FlushSpec(total: seq<Card>): (r: Option<seq<int>>)
    ensures r.None? <==> FlushSuit(total).None?
    ensures r.Some? ==> |r.value| == 5
    ensures r.Some? ==> TopOf(multiset(SuitRanks(total, FlushSuit(total).value)), r.value, 5)
  {
    match FlushSuit(total)
    case None => None
    case Some(u) =>
      var f := SortDesc(SuitRanks(total, u));
      TakeIsTop(f, 5);
      Some(f[..5])
  }

  /** The ranks with an ace also counted as 1, as the straight detectors add it. */
  function AceLow(rs: seq<int>): (a: seq<int>)
    ensures forall x :: x in a <==> x in rs || (x == 1 && 14 in rs)
  {
    if 14 in rs then rs + [1] else rs
  }

  /** `h` tops five consecutive ranks of `a`. */
  ghost predicate StraightTo(a: seq<int>, h: int)
  {
    h in a && RunBelow(a, h)
  }

  /** Straight: the highest `h` with `h, h-1, ..., h-4` all present, an ace counting as 1 too. */
  function StraightSpec(total: seq<Card>): (r: Option<seq<int>>)
    ensures r.None? <==> forall h :: !StraightTo(AceLow(Ranks(total)), h)
    ensures r.Some? ==> |r.value| == 1 && StraightTo(AceLow(Ranks(total)), r.value[0])
    ensures r.Some? ==> forall h :: StraightTo(AceLow(Ranks(total)), h) ==> h <= r.value[0]
  {
    match HighestRunTop(AceLow(Ranks(total)))
    case None => None
    case Some(h) =>
      assert StraightTo(AceLow(Ranks(total)), h);
      Some([h])
  }

  /**
   * Straight flush as written: only the five ranks the flush detector returns
   * (with 1 added for an ace) are searched, window by window from the top.
   */
  function StraightFlushSpec(total: seq<Card>): (r: Option<seq<int>>)
    ensures r.Some? ==> FlushSpec(total).Some? && |r.value| == 1
    ensures r.Some? ==>
      var g := AceLow(FlushSpec(total).value);
      (ConsecutiveAt(g, 0) && r.value == [g[0]]) ||
      (!ConsecutiveAt(g, 0) && ConsecutiveAt(g, 1) && r.value == [g[1]])
    ensures FlushSpec(total).Some? && r.None? ==>
      forall i :: !ConsecutiveAt(AceLow(FlushSpec(total).value), i)
  {
    match FlushSpec(total)
    case None => None
    case Some(f) =>
      var g := AceLow(f);
      if ConsecutiveAt(g, 0) then Some([g[0]])
      else if ConsecutiveAt(g, 1) then Some([g[1]])
      else None
  }

  /** Royal flush: a straight flush whose top is the ace. */
  function RoyalFlushSpec(total: seq<Card>): (r: Option<seq<int>>)
    ensures r.Some? <==> StraightFlushSpec(total) == Some([14])
    ensures r.Some? ==> r.value == [14]
  {
    if StraightFlushSpec(total) == Some([14]) then Some([14]) else None
  }

  /** The length of the strength vector of each category, for `n >= 5` cards. */
  function StrengthLength(category: nat, n: nat): nat
    requires n >= 5
  {
    if category == 0 || category == 1 || category == 5 then 1
    else if category == 2 || category == 3 then 2
    else if category == 4 then 5
    else if category == 6 || category == 7 then 3
    else if category == 8 then 4
    else n - 2
  }

  /** The ten detector results as one list, strongest category first. */
  function DetectionList(rf: Option<seq<int>>, sf: Option<seq<int>>, fk: Option<seq<int>>,
                         fh: Option<seq<int>>, fl: Option<seq<int>>, st: Option<seq<int>>,
                         tk: Option<seq<int>>, tp: Option<seq<int>>, op: Option<seq<int>>,
                         hc: seq<int>): (ds: seq<Option<seq<int>>>)
    ensures |ds| == |HandNames| && ds[|ds| - 1] == Some(hc)
    ensures ds[0] == rf && ds[1] == sf && ds[2] == fk && ds[3] == fh && ds[4] == fl
    ensures ds[5] == st && ds[6] == tk && ds[7] == tp && ds[8] == op
  {
    [rf, sf, fk, fh, fl, st, tk, tp, op, Some(hc)]
  }

  /** The results of the ten detectors on `total`, strongest category first. */
  function Detections(total: seq<Card>): (ds: seq<Option<seq<int>>>)
    requires |total| >= 5
    ensures |ds| == |HandNames| && ds[|ds| - 1].Some?
  {
    var t := SortDesc(Ranks(total));
    DetectionList(RoyalFlushSpec(total), StraightFlushSpec(total), FourKindOf(t), FullHouseOf(t),
                  FlushSpec(total), StraightSpec(total), ThreeKindOf(t), TwoPairOf(t), OnePairOf(t),
                  HighCardSpec(total))
  }

  predicate HasLength(o: Option<seq<int>>, n: nat)
  {
    o.Some? ==> |o.value| == n
  }

  lemma DetectionListShape(rf: Option<seq<int>>, sf: Option<seq<int>>, fk: Option<seq<int>>,
                           fh: Option<seq<int>>, fl: Option<seq<int>>, st: Option<seq<int>>,
                           tk: Option<seq<int>>, tp: Option<seq<int>>, op: Option<seq<int>>,
                           hc: seq<int>, n: nat)
    requires n >= 5
    requires HasLength(rf, 1) && HasLength(sf, 1) && HasLength(fk, 2) && HasLength(fh, 2)
    requires HasLength(fl, 5) && HasLength(st, 1) && HasLength(tk, 3) && HasLength(tp, 3)
    requires HasLength(op, 4) && |hc| == n - 2
    ensures forall c :: 0 <= c < |HandNames| ==>
              HasLength(DetectionList(rf, sf, fk, fh, fl, st, tk, tp, op, hc)[c], StrengthLength(c, n))
  {
    var ds := DetectionList(rf, sf, fk, fh, fl, st, tk, tp, op, hc);
    forall c | 0 <= c < |HandNames|
      ensures HasLength(ds[c], StrengthLength(c, n))
    {
      if c == 0 { } else if c == 1 { } else if c == 2 { } else if c == 3 { } else if c == 4 { }
      else if c == 5 { } else if c == 6 { } else if c == 7 { } else if c == 8 { } else { }
    }
  }

  /** Every detector's vector has the length of its category. */
  lemma DetectionsShape(total: seq<Card>)
    requires |total| >= 5
    ensures forall c :: 0 <= c < |HandNames| ==> HasLength(Detections(total)[c], StrengthLength(c, |total|))
  {
    var t := SortDesc(Ranks(total));
    DetectionListShape(RoyalFlushSpec(total), StraightFlushSpec(total), FourKindOf(t), FullHouseOf(t),
                       FlushSpec(total), StraightSpec(total), ThreeKindOf(t), TwoPairOf(t), OnePairOf(t),
                       HighCardSpec(total), |total|);
  }

  /** The first position from `i` on whose result is present; the last one always is. */
  function FirstFound(ds: seq<Option<seq<int>>>, i: nat): (h: Hand)
    requires i < |ds| && ds[|ds| - 1].Some?
    ensures i <= h.category < |ds| && ds[h.category] == Some(h.strength)
    ensures forall j :: i <= j < h.category ==> ds[j].None?
    decreases |ds| - i
  {
    if ds[i].Some? then Hand(i, ds[i].value) else FirstFound(ds, i + 1)
  }

  /**
   * `calculateHand`: the category is the first detector, strongest first, that
   * finds its hand, and the strength is what it found.
   */
  function Evaluate(total: seq<Card>): (h: Hand)
    requires |total| >= 5
    ensures h.category < |HandNames| && Detections(total)[h.category] == Some(h.strength)
    ensures forall j :: 0 <= j < h.category ==> Detections(total)[j].None?
    ensures |h.strength| == StrengthLength(h.category, |total|)
  {
    DetectionsShape(total);
    FirstFound(Detections(total), 0)
  }

  /**
   * Proof scaffolding with no counterpart in the source: `Evaluate(total)`,
   * reached by counting `k` down to zero. The verifier
   * unfolds a recursive definition only a couple of levels, so statements
   * about the hands of many players, written with `HandOf`, do not bring in
   * every detector's specification; `HandOfIsEvaluate` connects the two.
   */
  function EvaluateAfter(total: seq<Card>, k: nat): (h: Hand)
    requires |total| >= 5
    ensures h.category < |HandNames| && |h.strength| == StrengthLength(h.category, |total|)
    decreases k
  {
    if k == 0 then Evaluate(total) else EvaluateAfter(total, k - 1)
  }

  /** The hand `calculateHand` makes of `total`. */
  function HandOf(total: seq<Card>): (h: Hand)
    requires |total| >= 5
    ensures h.category < |HandNames| && |h.strength| == StrengthLength(h.category, |total|)
  {
    EvaluateAfter(total, |total|)
  }

  /** Proof scaffolding for `EvaluateAfter`: counting down from `k` to `j` changes nothing. */
  lemma {:induction false} EvaluateAfterIs(total: seq<Card>, k: nat, j: nat)
    requires |total| >= 5 && j <= k
    ensures EvaluateAfter(total, k) == EvaluateAfter(total, j)
    decreases k
  {
    if j < k {
      EvaluateAfterIs(total, k - 1, j);
    }
  }

  /** `HandOf` is the evaluator. */
  lemma HandOfIsEvaluate(total: seq<Card>)
    requires |total| >= 5
    ensures HandOf(total) == Evaluate(total)
  {
    EvaluateAfterIs(total, |total|, 0);
    assert EvaluateAfter(total, 0) == Evaluate(total);
  }
}
