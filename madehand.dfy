/**
 * The detectors of `Hand` as the source runs them: on local copies of the
 * rank list, with index loops that stop at the first match (or run to the
 * end and keep the last one), `list.remove` calls and a per-suit table.
 * Each method is proved to compute the detector specification of HandRanks.
 */
module MadeHand {
  import opened Wrappers
  import opened ListOps
  import opened RankRuns
  import opened Cards
  import opened HandOrder
  import opened HandRanks

  /**
   * `for i in range(len(ranks) - (k - 1))` testing `ranks[i] == ... == ranks[i + k - 1]`
   * and breaking at the first match: on sorted ranks, the highest rank present `k` times.
   */
  method FirstRun(ranks: seq<int>, k: nat) returns (found: Option<int>)
    requires SortedDesc(ranks) && k >= 1
    ensures found == HighestWithCount(ranks, k)
  {
    var i := 0;
    while i + k <= |ranks|
      invariant forall j :: 0 <= j < i ==> !RunAt(ranks, j, k)
    {
      if RunAt(ranks, i, k) {
        FirstRunIsHighest(ranks, i, k);
        return Some(ranks[i]);
      }
      i := i + 1;
    }
    NoRunNoCount(ranks, k);
    return None;
  }

  /**
   * The same loop without `break`, so that each match overwrites the previous
   * one: on sorted ranks, the lowest rank present `k` times.
   */
  method LastRun(ranks: seq<int>, k: nat) returns (found: Option<int>)
    requires SortedDesc(ranks) && k >= 1
    ensures found == LowestWithCount(ranks, k)
  {
    found := None;
    ghost var at: nat := 0;
    var i := 0;
    while i + k <= |ranks|
      invariant found.None? ==> forall j :: 0 <= j < i ==> !RunAt(ranks, j, k)
      invariant found.Some? ==> at < i && RunAt(ranks, at, k) && found.value == ranks[at]
      invariant found.Some? ==> forall j :: at < j < i ==> !RunAt(ranks, j, k)
    {
      if RunAt(ranks, i, k) {
        found := Some(ranks[i]);
        at := i;
      }
      i := i + 1;
    }
    if found.Some? {
      LastRunIsLowest(ranks, at, k);
    } else {
      NoRunNoCount(ranks, k);
    }
  }

  /**
   * `for i in range(len(r) - 4)` testing four falls of one in a row and breaking
   * at the first: `at` is the window found.
   */
  method FirstConsecutive(r: seq<int>) returns (top: Option<int>, ghost at: nat)
    ensures top.None? <==> forall j :: !ConsecutiveAt(r, j)
    ensures top.Some? ==> ConsecutiveAt(r, at) && top.value == r[at]
    ensures top.Some? ==> forall j :: 0 <= j < at ==> !ConsecutiveAt(r, j)
  {
    at := 0;
    var i := 0;
    while i + 5 <= |r|
      invariant forall j :: 0 <= j < i ==> !ConsecutiveAt(r, j)
    {
      if r[i] == r[i + 1] + 1 && r[i + 1] == r[i + 2] + 1 && r[i + 2] == r[i + 3] + 1 && r[i + 3] == r[i + 4] + 1 {
        assert ConsecutiveAt(r, i);
        at := i;
        return Some(r[i]), at;
      }
      i := i + 1;
    }
    return None, at;
  }

  /** Two `list.remove` calls are two removals of one copy each. */
  lemma RemoveTwice(t: seq<int>, x: int)
    requires multiset(t)[x] >= 2
    ensures x in RemoveFirst(t, x) && RemoveN(t, x, 2) == RemoveFirst(RemoveFirst(t, x), x)
  {
    var t1 := RemoveFirst(t, x);
    assert multiset(t1)[x] >= 1;
    assert RemoveN(t1, x, 1) == RemoveN(RemoveFirst(t1, x), x, 0);
  }

  /** Three `list.remove` calls. */
  lemma RemoveThrice(t: seq<int>, x: int)
    requires multiset(t)[x] >= 3
    ensures var t1 := RemoveFirst(t, x);
            x in t1 && x in RemoveFirst(t1, x) &&
            RemoveN(t, x, 3) == RemoveFirst(RemoveFirst(t1, x), x)
  {
    var t1 := RemoveFirst(t, x);
    assert multiset(t1)[x] >= 2;
    RemoveTwice(t1, x);
  }

  /** Four `list.remove` calls. */
  lemma RemoveFourTimes(t: seq<int>, x: int)
    requires multiset(t)[x] >= 4
    ensures x in RemoveFirst(t, x) && x in RemoveFirst(RemoveFirst(t, x), x)
    ensures var t2 := RemoveFirst(RemoveFirst(t, x), x);
            x in RemoveFirst(t2, x) && RemoveN(t, x, 4) == RemoveFirst(RemoveFirst(t2, x), x)
  {
    var t1 := RemoveFirst(t, x);
    assert multiset(t1)[x] >= 3;
    RemoveThrice(t1, x);
  }

  /** The four-of-a-kind specification once its quad is known. */
  lemma FourKindOfIs(t: seq<int>, q: int)
    requires SortedDesc(t) && |t| >= 5 && LowestWithCount(t, 4) == Some(q)
    ensures multiset(t)[q] >= 4 && FourKindOf(t) == Some([q, RemoveN(t, q, 4)[0]])
  {
  }

  /** The two-pair specification once both pairs are known. */
  lemma TwoPairOfIs(t: seq<int>, p1: int, p2: int)
    requires SortedDesc(t) && |t| >= 5 && LowestWithCount(t, 2) == Some(p1)
    requires multiset(t)[p1] >= 2 && LowestWithCount(RemoveN(t, p1, 2), 2) == Some(p2)
    ensures multiset(RemoveN(t, p1, 2))[p2] >= 2
    ensures TwoPairOf(t) == Some([p1, p2, RemoveN(RemoveN(t, p1, 2), p2, 2)[0]])
  {
  }

  /** `checkHighCard`: drop the smallest rank twice, then sort. */
  method CheckHighCard(total: seq<Card>) returns (r: seq<int>)
    requires |total| >= 2
    ensures r == HighCardSpec(total)
  {
    var ranks := Ranks(total);
    ranks := RemoveFirst(ranks, Min(ranks));
    ranks := RemoveFirst(ranks, Min(ranks));
    r := SortDesc(ranks);
  }

  /** `checkOnePair`. */
  method CheckOnePair(total: seq<Card>) returns (r: Option<seq<int>>)
    ensures r == OnePairOf(SortDesc(Ranks(total)))
  {
    var ranks := SortDesc(Ranks(total));
    ghost var t := ranks;
    var pair := FirstRun(ranks, 2);
    if pair.None? {
      return None;
    }
    RemoveTwice(ranks, pair.value);
    ranks := RemoveFirst(ranks, pair.value);
    ranks := RemoveFirst(ranks, pair.value);
    return Some([pair.value] + Take(ranks, 3));
  }

  /** `checkTwoPair`: both searches run to the end and keep their last match. */
  method CheckTwoPair(total: seq<Card>) returns (r: Option<seq<int>>)
    requires |total| >= 5
    ensures r == TwoPairOf(SortDesc(Ranks(total)))
  {
    var ranks := SortDesc(Ranks(total));
    ghost var t := ranks;
    var pairOne := LastRun(ranks, 2);
    if pairOne.None? {
      return None;
    }
    RemoveTwice(ranks, pairOne.value);
    ranks := RemoveFirst(ranks, pairOne.value);
    ranks := RemoveFirst(ranks, pairOne.value);
    ghost var t1 := ranks;
    assert t1 == RemoveN(t, pairOne.value, 2);
    var pairTwo := LastRun(ranks, 2);
    if pairTwo.None? {
      return None;
    }
    RemoveTwice(ranks, pairTwo.value);
    ranks := RemoveFirst(ranks, pairTwo.value);
    ranks := RemoveFirst(ranks, pairTwo.value);
    assert ranks == RemoveN(t1, pairTwo.value, 2);
    TwoPairOfIs(t, pairOne.value, pairTwo.value);
    return Some([pairOne.value, pairTwo.value, ranks[0]]);
  }

  /** `checkThreeKind`. */
  method CheckThreeKind(total: seq<Card>) returns (r: Option<seq<int>>)
    ensures r == ThreeKindOf(SortDesc(Ranks(total)))
  {
    var ranks := SortDesc(Ranks(total));
    var triple := FirstRun(ranks, 3);
    if triple.None? {
      return None;
    }
    RemoveThrice(ranks, triple.value);
    ranks := RemoveFirst(ranks, triple.value);
    ranks := RemoveFirst(ranks, triple.value);
    ranks := RemoveFirst(ranks, triple.value);
    return Some([triple.value] + Take(ranks, 2));
  }

  /** `checkFullHouse`: the first triple, then the first pair of what is left. */
  method CheckFullHouse(total: seq<Card>) returns (r: Option<seq<int>>)
    ensures r == FullHouseOf(SortDesc(Ranks(total)))
  {
    var ranks := SortDesc(Ranks(total));
    var triple := FirstRun(ranks, 3);
    if triple.None? {
      return None;
    }
    RemoveThrice(ranks, triple.value);
    ranks := RemoveFirst(ranks, triple.value);
    ranks := RemoveFirst(ranks, triple.value);
    ranks := RemoveFirst(ranks, triple.value);
    var pair := FirstRun(ranks, 2);
    if pair.None? {
      return None;
    }
    return Some([triple.value, pair.value]);
  }

  /** `checkFourKind`: the search runs to the end and keeps its last match. */
  method CheckFourKind(total: seq<Card>) returns (r: Option<seq<int>>)
    requires |total| >= 5
    ensures r == FourKindOf(SortDesc(Ranks(total)))
  {
    var ranks := SortDesc(Ranks(total));
    ghost var t := ranks;
    var quad := LastRun(ranks, 4);
    if quad.None? {
      return None;
    }
    RemoveFourTimes(ranks, quad.value);
    ranks := RemoveFirst(ranks, quad.value);
    ranks := RemoveFirst(ranks, quad.value);
    ranks := RemoveFirst(ranks, quad.value);
    ranks := RemoveFirst(ranks, quad.value);
    assert ranks == RemoveN(t, quad.value, 4);
    FourKindOfIs(t, quad.value);
    return Some([quad.value, ranks[0]]);
  }

  /** `checkStraight`: add 1 for an ace, deduplicate, sort, and scan for five falling by one. */
  method CheckStraight(total: seq<Card>) returns (r: Option<seq<int>>)
    ensures r == StraightSpec(total)
  {
    var ranks := Ranks(total);
    if 14 in ranks {
      ranks := ranks + [1];
    }
    ghost var withAce := ranks;
    assert withAce == AceLow(Ranks(total));
    ranks := SortDesc(Dedup(ranks));
    SortedDedup(withAce);
    HighestRunTopOfSameElements(ranks, withAce);
    var strength, at := FirstConsecutive(ranks);
    if strength.None? {
      NoConsecutiveNoRun(ranks);
      return None;
    }
    FirstConsecutiveIsHighest(ranks, at);
    return Some([strength.value]);
  }

  /** Every card carries one of the four suits. */
  predicate SuitsValid(total: seq<Card>)
  {
    forall i :: 0 <= i < |total| ==> total[i].suit in SuitChars
  }

  /** The first suit in table order with five cards is the flush suit. */
  lemma FlushSuitAt(total: seq<Card>, k: nat)
    requires k < |SuitChars| && FlushIn(total, SuitChars[k])
    requires forall j :: 0 <= j < k ==> !FlushIn(total, SuitChars[j])
    ensures FlushSuit(total) == Some(SuitChars[k])
  {
    if k > 0 { assert !FlushIn(total, SuitChars[0]); }
    if k > 1 { assert !FlushIn(total, SuitChars[1]); }
    if k > 2 { assert !FlushIn(total, SuitChars[2]); }
  }

  /**
   * `checkFlush`: collect the ranks of each suit in a table keyed `s h d c`,
   * then return the five highest of the first suit, in that order, with five or more.
   */
  method CheckFlush(total: seq<Card>) returns (r: Option<seq<int>>)
    requires SuitsValid(total)
    ensures r == FlushSpec(total)
  {
    var bySuit: map<char, seq<int>> := map['s' := [], 'h' := [], 'd' := [], 'c' := []];
    for i := 0 to |total|
      invariant forall u :: u in SuitChars ==> u in bySuit && bySuit[u] == SuitRanks(total[..i], u)
    {
      var card := total[i];
      assert total[..i + 1][..i] == total[..i];
      bySuit := bySuit[card.suit := bySuit[card.suit] + [card.rank]];
    }
    assert total[..|total|] == total;
    for k := 0 to |SuitChars|
      invariant forall j :: 0 <= j < k ==> !FlushIn(total, SuitChars[j])
    {
      var key := SuitChars[k];
      if |bySuit[key]| >= 5 {
        FlushSuitAt(total, k);
        return Some(SortDesc(bySuit[key])[..5]);
      }
    }
    assert !FlushIn(total, SuitChars[0]) && !FlushIn(total, SuitChars[1]);
    assert !FlushIn(total, SuitChars[2]) && !FlushIn(total, SuitChars[3]);
    return None;
  }

  /**
   * `checkStraightFlush`: the flush's five ranks, with 1 appended for an ace,
   * scanned for five falling by one.
   */
  method CheckStraightFlush(total: seq<Card>) returns (r: Option<seq<int>>)
    requires SuitsValid(total)
    ensures r == StraightFlushSpec(total)
  {
    var flushCond := CheckFlush(total);
    if flushCond.None? {
      return None;
    }
    var cond := flushCond.value;
    if 14 in cond {
      cond := cond + [1];
    }
    assert cond == AceLow(flushCond.value);
    var strength, at := FirstConsecutive(cond);
    if strength.None? {
      return None;
    }
    return Some([strength.value]);
  }

  /** `checkRoyalFlush`: a straight flush to the ace. */
  method CheckRoyalFlush(total: seq<Card>) returns (r: Option<seq<int>>)
    requires SuitsValid(total)
    ensures r == RoyalFlushSpec(total)
  {
    var sf := CheckStraightFlush(total);
    if sf == Some([14]) {
      return Some([14]);
    }
    return None;
  }

  /** The detector at position `i` of the list `calculateHand` walks. */
  method Detect(i: nat, total: seq<Card>) returns (r: Option<seq<int>>)
    requires i < |HandNames| && |total| >= 5 && SuitsValid(total)
    ensures r == Detections(total)[i]
  {
    if i == 0 {
      r := CheckRoyalFlush(total);
    } else if i == 1 {
      r := CheckStraightFlush(total);
    } else if i == 2 {
      r := CheckFourKind(total);
    } else if i == 3 {
      r := CheckFullHouse(total);
    } else if i == 4 {
      r := CheckFlush(total);
    } else if i == 5 {
      r := CheckStraight(total);
    } else if i == 6 {
      r := CheckThreeKind(total);
    } else if i == 7 {
      r := CheckTwoPair(total);
    } else if i == 8 {
      r := CheckOnePair(total);
    } else {
      assert i == 9;
      var ranks := CheckHighCard(total);
      r := Some(ranks);
    }
  }

  /**
   * `calculateHand` (and so the `Hand` constructor): try the detectors
   * strongest first and stop at the first that finds its hand.
   */
  method CalculateHand(board: seq<Card>, hole: seq<Card>) returns (h: Hand)
    requires |board + hole| >= 5 && SuitsValid(board + hole)
    ensures h == Evaluate(board + hole)
  {
    var total := board + hole;
    ghost var ds := Detections(total);
    var i := 0;
    while true
      invariant i < |ds| && FirstFound(ds, i) == Evaluate(total)
      decreases |ds| - i
    {
      var result := Detect(i, total);
      if result.Some? {
        return Hand(i, result.value);
      }
      i := i + 1;
    }
  }
}
