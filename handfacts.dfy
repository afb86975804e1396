/**
 * Properties of the evaluator that relate several detectors, or that show
 * how the detectors behave on particular shapes of hand.
 */
module HandFacts {
  import opened Wrappers
  import opened ListOps
  import opened RankRuns
  import opened Cards
  import opened HandOrder
  import opened HandRanks

  /** High card keeps the sorted ranks without their two smallest: the top five of seven. */
  lemma HighCardIsTopRanks(total: seq<Card>)
    requires |total| >= 2
    ensures HighCardSpec(total) == SortDesc(Ranks(total))[..|total| - 2]
  {
    DropTwoMinima(Ranks(total));
  }

  /** Hands evaluated from the same number of cards can always be compared. */
  lemma EvaluateComparable(a: seq<Card>, b: seq<Card>)
    requires |a| == |b| >= 5
    ensures Comparable(Evaluate(a), Evaluate(b))
  {
  }

  /** With ranks from 1 to 14 and neither 6 nor 10 present, no straight tops above 5. */
  lemma NoStraightAboveWheel(a: seq<int>, h: int)
    requires forall x :: x in a ==> 1 <= x <= 14
    requires 6 !in a && 10 !in a && StraightTo(a, h)
    ensures h <= 5
  {
  }

  /** A-2-3-4-5 is a straight to the five when no higher straight is possible. */
  lemma Wheel(total: seq<Card>)
    requires forall i :: 0 <= i < |total| ==> ValidRank(total[i].rank)
    requires 14 in Ranks(total) && 2 in Ranks(total) && 3 in Ranks(total)
    requires 4 in Ranks(total) && 5 in Ranks(total)
    requires 6 !in Ranks(total) && 10 !in Ranks(total)
    ensures StraightSpec(total) == Some([5])
  {
    var rs := Ranks(total);
    var a := AceLow(rs);
    assert forall x :: x in a ==> 1 <= x <= 14 by {
      forall x | x in a ensures 1 <= x <= 14 {
        if x in rs { var i :| 0 <= i < |rs| && rs[i] == x; }
      }
    }
    assert StraightTo(a, 5);
    forall h | StraightTo(a, h) ensures h <= 5 { NoStraightAboveWheel(a, h); }
  }

  /** Of five ranks, the straight flush test finds the ace on top exactly for A-K-Q-J-T. */
  lemma RoyalOfFive(f: seq<int>)
    requires |f| == 5
    ensures var g := AceLow(f);
            ((ConsecutiveAt(g, 0) && g[0] == 14) || (!ConsecutiveAt(g, 0) && ConsecutiveAt(g, 1) && g[1] == 14))
            <==> f == [14, 13, 12, 11, 10]
  {
    var g := AceLow(f);
    if f == [14, 13, 12, 11, 10] {
      assert g == [14, 13, 12, 11, 10, 1];
    }
    if ConsecutiveAt(g, 1) {
      assert |g| == 6 && g == f + [1];
      assert g[5] == 1;
    }
  }

  /** Royal flush exactly when the flush's five ranks are ace, king, queen, jack and ten. */
  lemma RoyalFlushIff(total: seq<Card>)
    ensures RoyalFlushSpec(total).Some? <==> FlushSpec(total) == Some([14, 13, 12, 11, 10])
  {
    if FlushSpec(total).Some? {
      RoyalOfFive(FlushSpec(total).value);
    }
  }

  /**
   * With distinct flush ranks, the straight flush detector finds the straight
   * of those five ranks (an ace also counting as 1).
   */
  lemma StraightFlushOfFlushRanks(total: seq<Card>, f: seq<int>)
    requires FlushSpec(total) == Some(f) && StrictlyDesc(f)
    requires forall i :: 0 <= i < |f| ==> f[i] >= 2
    ensures StraightFlushSpec(total) == match HighestRunTop(AceLow(f))
                                          case None => None
                                          case Some(h) => Some([h])
  {
    AceLowStrict(f);
    WindowScan(AceLow(f));
  }

  /** Appending 1 after ranks of at least 2 keeps them strictly decreasing. */
  lemma AceLowStrict(f: seq<int>)
    requires StrictlyDesc(f) && forall i :: 0 <= i < |f| ==> f[i] >= 2
    ensures StrictlyDesc(AceLow(f))
  {
  }

  /** On strictly decreasing ranks, the first of the first two windows is the highest straight. */
  lemma WindowScan(g: seq<int>)
    requires StrictlyDesc(g) && |g| <= 6
    ensures HighestRunTop(g) == if ConsecutiveAt(g, 0) then Some(g[0])
                                else if ConsecutiveAt(g, 1) then Some(g[1]) else None
  {
    if ConsecutiveAt(g, 0) {
      FirstConsecutiveIsHighest(g, 0);
    } else if ConsecutiveAt(g, 1) {
      FirstConsecutiveIsHighest(g, 1);
    } else {
      assert forall j :: !ConsecutiveAt(g, j);
      NoConsecutiveNoRun(g);
    }
  }

  /** Without an ace, a flush whose top two ranks are not adjacent is no straight flush. */
  lemma StraightFlushSeesOnlyTopFive(total: seq<Card>)
    requires FlushSpec(total).Some?
    requires 14 !in FlushSpec(total).value
    requires FlushSpec(total).value[0] != FlushSpec(total).value[1] + 1
    ensures StraightFlushSpec(total).None?
  {
  }

  /** Six spades K-9-8-7-6-5 and a heart. */
  const HiddenTable: seq<Card> := [Card('s', 13), Card('s', 9), Card('s', 8), Card('s', 7),
                                   Card('s', 6), Card('s', 5), Card('h', 2)]

  lemma HiddenSuitRanks()
    ensures SuitRanks(HiddenTable, 's') == [13, 9, 8, 7, 6, 5]
    ensures FlushSuit(HiddenTable) == Some('s')
  {
    var total := HiddenTable;
    assert SuitRanks(total[..1], 's') == [13];
    assert total[..2][..1] == total[..1];
    assert SuitRanks(total[..2], 's') == [13, 9];
    assert total[..3][..2] == total[..2];
    assert SuitRanks(total[..3], 's') == [13, 9, 8];
    assert total[..4][..3] == total[..3];
    assert SuitRanks(total[..4], 's') == [13, 9, 8, 7];
    assert total[..5][..4] == total[..4];
    assert SuitRanks(total[..5], 's') == [13, 9, 8, 7, 6];
    assert total[..6][..5] == total[..5];
    assert SuitRanks(total[..6], 's') == [13, 9, 8, 7, 6, 5];
    assert total[..7][..6] == total[..6];
    assert total[..7] == total;
    assert FlushIn(total, 's');
  }

  lemma SpadesInOrder()
    ensures SortedDesc([13, 9, 8, 7, 6, 5]) && [13, 9, 8, 7, 6, 5][..5] == [13, 9, 8, 7, 6]
  {
  }

  /** When the flush suit's ranks already come in non-increasing order, the flush is their first five. */
  lemma FlushOfSortedSuit(total: seq<Card>, u: char)
    requires FlushSuit(total) == Some(u) && SortedDesc(SuitRanks(total, u))
    ensures FlushSpec(total) == Some(SuitRanks(total, u)[..5])
  {
    SortDescOfSorted(SuitRanks(total, u));
  }

  /** The flush detector reports the five highest spades K-9-8-7-6. */
  lemma HiddenFlush()
    ensures FlushSpec(HiddenTable) == Some([13, 9, 8, 7, 6])
  {
    HiddenSuitRanks();
    SpadesInOrder();
    FlushOfSortedSuit(HiddenTable, 's');
  }

  /** The spades hold the straight flush 9-8-7-6-5, hidden behind the king: none is reported. */
  lemma HiddenStraightFlush()
    ensures StraightTo(SuitRanks(HiddenTable, 's'), 9)
    ensures StraightFlushSpec(HiddenTable).None?
  {
    HiddenSuitRanks();
    HiddenFlush();
    var sr := SuitRanks(HiddenTable, 's');
    assert sr[1] == 9 && sr[2] == 8 && sr[3] == 7 && sr[4] == 6 && sr[5] == 5;
    assert RunBelow(sr, 9);
    StraightFlushSeesOnlyTopFive(HiddenTable);
  }

  /** The two pairs come lowest first: the second pair is never below the first. */
  lemma TwoPairLowestFirst(t: seq<int>)
    requires SortedDesc(t) && |t| >= 5 && TwoPairOf(t).Some?
    ensures TwoPairOf(t).value[0] <= TwoPairOf(t).value[1]
  {
    var r := TwoPairOf(t).value;
    var m1 := Without(multiset(t), r[0], 2);
    assert m1[r[1]] >= 2;
    assert multiset(t)[r[1]] >= 2;
  }

  /** With exactly two pairs `a > b`, two pair reads `[b, a, kicker]`. */
  lemma TwoPairOfTwoPairs(t: seq<int>, a: int, b: int)
    requires SortedDesc(t) && |t| >= 5 && a > b
    requires multiset(t)[a] == 2 && multiset(t)[b] == 2
    requires forall x :: x != a && x != b ==> multiset(t)[x] < 2
    ensures TwoPairOf(t).Some? && TwoPairOf(t).value[0] == b && TwoPairOf(t).value[1] == a
  {
    LowestWithCountIs(t, 2, b);
    var t1 := RemoveN(t, b, 2);
    assert multiset(t1) == Without(multiset(t), b, 2);
    LowestWithCountIs(t1, 2, a);
    TwoPairValues(t, b, a);
  }

  /** Two pair reports the two ranks its two searches find. */
  lemma TwoPairValues(t: seq<int>, p1: int, p2: int)
    requires SortedDesc(t) && |t| >= 5
    requires LowestWithCount(t, 2) == Some(p1)
    requires LowestWithCount(RemoveN(t, p1, 2), 2) == Some(p2)
    ensures TwoPairOf(t).Some? && TwoPairOf(t).value[0] == p1 && TwoPairOf(t).value[1] == p2
  {
  }

  /** The two pair kicker is at least every rank left after both pairs are taken out. */
  lemma TwoPairKickerBound(t: seq<int>, x: int)
    requires SortedDesc(t) && |t| >= 5 && TwoPairOf(t).Some?
    requires var r := TwoPairOf(t).value;
             x in Without(Without(multiset(t), r[0], 2), r[1], 2)
    ensures x <= TwoPairOf(t).value[2]
  {
  }

  /** Three pairs `a > b > c`: the lowest is `c`, then `b`, and `a` survives both removals. */
  lemma ThreePairCounts(m: multiset<int>, a: int, b: int, c: int)
    requires a > b > c && m[a] == 2 && m[b] == 2 && m[c] == 2
    requires forall x :: x != a && x != b && x != c ==> m[x] < 2
    ensures IsLowestWithCount(m, 2, c)
    ensures IsLowestWithCount(Without(m, c, 2), 2, b)
    ensures a in Without(Without(m, c, 2), b, 2)
  {
  }

  /** With three pairs `a > b > c`, two pair keeps `c` and `b` and a kicker no lower than `a`. */
  lemma TwoPairOfThreePairs(t: seq<int>, a: int, b: int, c: int)
    requires SortedDesc(t) && |t| >= 6 && a > b > c
    requires multiset(t)[a] == 2 && multiset(t)[b] == 2 && multiset(t)[c] == 2
    requires forall x :: x != a && x != b && x != c ==> multiset(t)[x] < 2
    ensures TwoPairOf(t).Some?
    ensures TwoPairOf(t).value[0] == c && TwoPairOf(t).value[1] == b && TwoPairOf(t).value[2] >= a
  {
    ThreePairCounts(multiset(t), a, b, c);
    LowestWithCountIs(t, 2, c);
    LowestWithCountIs(RemoveN(t, c, 2), 2, b);
    TwoPairValues(t, c, b);
    TwoPairKickerBound(t, a);
  }
}
