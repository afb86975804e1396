/**
 * The equity solver: a table of up to ten players named "Player 1",
 * "Player 2", ..., their known hole cards, a partly known board and a deck;
 * `calculateHandEquity` plays the hand out many times and counts, per
 * player, the trials they won outright or in a split pot, and separately the
 * trials in which every player tied ("CHOP"). Equity is a count divided by
 * the number of trials; the counts are what is modelled here.
 */
module Equity {
  import opened Wrappers
  import opened ListOps
  import opened Cards
  import opened HandOrder
  import opened HandRanks
  import opened MadeHand
  import opened Decks
  import opened Strings
  import opened Players
  import opened Simulations

  /** The key under which the trials every player tied are counted. */
  const Chop: string := "CHOP"

  /** A player's name is never the chop key. */
  lemma ChopIsNoName(k: nat)
    ensures PlayerName(k) != Chop
  {
    assert PlayerName(k)[0] == 'P' != Chop[0];
  }

  /** The names of a table of `n` players, in seat order. */
  function Names(n: nat): (r: seq<string>)
    ensures |r| == n && forall i :: 0 <= i < n ==> r[i] == PlayerName(i + 1)
  {
    seq(n, i requires 0 <= i < n => PlayerName(i + 1))
  }

  /** The names of a table are all different, and none of them is the chop key. */
  lemma NamesDistinct(n: nat)
    ensures Distinct(Names(n)) && Chop !in Names(n)
  {
    var r := Names(n);
    forall i, j | 0 <= i < j < n
      ensures r[i] != r[j]
    {
      if r[i] == r[j] { PlayerNameInjective(i + 1, j + 1); }
    }
    forall i | 0 <= i < n
      ensures r[i] != Chop
    {
      ChopIsNoName(i + 1);
    }
  }

  /** A seat number names a player of a table of `n` exactly when it is between 1 and `n`. */
  lemma NameLookup(n: nat, id: nat)
    ensures PlayerName(id) in Names(n) <==> 1 <= id <= n
    ensures 1 <= id <= n ==> forall i :: 0 <= i < n && Names(n)[i] == PlayerName(id) ==> i == id - 1
  {
    if PlayerName(id) in Names(n) {
      var i :| 0 <= i < n && Names(n)[i] == PlayerName(id);
      PlayerNameInjective(i + 1, id);
    }
    if 1 <= id <= n {
      assert Names(n)[id - 1] == PlayerName(id);
    }
    forall i | 0 <= i < n && Names(n)[i] == PlayerName(id)
      ensures i == id - 1
    {
      PlayerNameInjective(i + 1, id);
    }
  }

  // ---------------------------------------------------------------------
  // The cards left for the trials
  // ---------------------------------------------------------------------

  /** `deck.remove(card)`: the first copy of `card` goes, if there is one. */
  function RemoveIfPresent(cards: seq<Card>, c: Card): seq<Card>
  {
    if c in cards then RemoveFirst(cards, c) else cards
  }

  /** The deck after removing each of `cs` in turn. */
  function RemoveEach(cards: seq<Card>, cs: seq<Card>): (r: seq<Card>)
    decreases |cs|
  {
    if cs == [] then cards else RemoveIfPresent(RemoveEach(cards, cs[..|cs| - 1]), cs[|cs| - 1])
  }

  /** `deck.remove(c)` takes out one copy of `c`, and nothing when there is none. */
  lemma RemoveIfPresentMultiset(cards: seq<Card>, c: Card)
    ensures multiset(RemoveIfPresent(cards, c)) == multiset(cards) - multiset{c}
  {
    if c !in cards {
      assert multiset(cards)[c] == 0;
    }
  }

  /** Removing each of `cs` in turn takes out one copy per element of `cs`, where there is one. */
  lemma {:induction false} RemoveEachMultiset(cards: seq<Card>, cs: seq<Card>)
    ensures multiset(RemoveEach(cards, cs)) == multiset(cards) - multiset(cs)
    decreases |cs|
  {
    if cs != [] {
      var init, c := cs[..|cs| - 1], cs[|cs| - 1];
      RemoveEachMultiset(cards, init);
      RemoveIfPresentMultiset(RemoveEach(cards, init), c);
      assert cs == init + [c];
    }
  }

  /**
   * From a deck without duplicates, removing `cs` leaves a deck without
   * duplicates holding exactly the cards not in `cs`, and at most `|cs|`
   * cards fewer.
   */
  lemma {:induction false} RemoveEachSpec(cards: seq<Card>, cs: seq<Card>)
    requires Distinct(cards)
    ensures Distinct(RemoveEach(cards, cs))
    ensures forall x :: x in RemoveEach(cards, cs) <==> x in cards && x !in cs
    ensures |RemoveEach(cards, cs)| + |cs| >= |cards|
    decreases |cs|
  {
    if cs != [] {
      var init, c := cs[..|cs| - 1], cs[|cs| - 1];
      RemoveEachSpec(cards, init);
      var before := RemoveEach(cards, init);
      assert cs == init + [c];
      if c in before {
        RemoveFirstDistinct(before, c);
        forall x ensures x in RemoveFirst(before, c) <==> x in before && x != c {
          RemoveFirstMembers(before, c, x);
        }
      }
    }
  }

  /** Removing cards keeps every suit valid. */
  lemma RemoveEachSuits(cards: seq<Card>, cs: seq<Card>)
    requires Distinct(cards) && SuitsValid(cards)
    ensures SuitsValid(RemoveEach(cards, cs))
  {
    RemoveEachSpec(cards, cs);
    var r := RemoveEach(cards, cs);
    forall i | 0 <= i < |r|
      ensures r[i].suit in SuitChars
    {
      assert r[i] in cards;
      var j :| 0 <= j < |cards| && cards[j] == r[i];
    }
  }

  /** The known hole cards, player by player. */
  function Flatten(holes: seq<seq<Card>>): (r: seq<Card>)
    decreases |holes|
  {
    if holes == [] then [] else Flatten(holes[..|holes| - 1]) + holes[|holes| - 1]
  }

  /** The number of players whose hole is unknown. */
  function EmptyHoles(holes: seq<seq<Card>>): (e: nat)
    ensures e <= |holes|
    decreases |holes|
  {
    if holes == [] then 0 else EmptyHoles(holes[..|holes| - 1]) + (if holes[|holes| - 1] == [] then 1 else 0)
  }

  /** Holes of none or two cards: the known cards are two per known hole. */
  lemma {:induction false} FlattenSize(holes: seq<seq<Card>>)
    requires forall i :: 0 <= i < |holes| ==> |holes[i]| == 0 || |holes[i]| == 2
    ensures |Flatten(holes)| == 2 * (|holes| - EmptyHoles(holes))
    decreases |holes|
  {
    if holes != [] {
      FlattenSize(holes[..|holes| - 1]);
    }
  }

  /**
   * The holes of a trial: a known hole stays, and the `k`-th unknown one, in
   * seat order, gets cards `2k` and `2k + 1` of `order`.
   */
  function DealHoles(holes: seq<seq<Card>>, order: seq<Card>): (r: seq<seq<Card>>)
    requires 2 * EmptyHoles(holes) <= |order|
    ensures |r| == |holes|
    decreases |holes|
  {
    if holes == [] then []
    else
      var init := holes[..|holes| - 1];
      var e := EmptyHoles(init);
      DealHoles(init, order) + [if holes[|holes| - 1] == [] then [order[2 * e], order[2 * e + 1]] else holes[|holes| - 1]]
  }

  /** A trial keeps the known holes and deals the unknown ones two cards from `order` each, no card twice. */
  lemma {:induction false} DealHolesSpec(holes: seq<seq<Card>>, order: seq<Card>, i: nat)
    requires 2 * EmptyHoles(holes) <= |order| && i < |holes|
    ensures holes[i] != [] ==> DealHoles(holes, order)[i] == holes[i]
    ensures holes[i] == [] ==>
              var e := EmptyHoles(holes[..i]);
              2 * e + 1 < |order| && DealHoles(holes, order)[i] == [order[2 * e], order[2 * e + 1]]
    decreases |holes|
  {
    var init := holes[..|holes| - 1];
    if i < |holes| - 1 {
      assert init[..i] == holes[..i];
      DealHolesSpec(init, order, i);
    }
    EmptyHolesMonotone(holes, i);
  }

  /** One more seat counts one more unknown hole if that seat's hole is unknown. */
  lemma EmptyHolesStep(holes: seq<seq<Card>>, i: nat)
    requires i < |holes|
    ensures EmptyHoles(holes[..i + 1]) == EmptyHoles(holes[..i]) + (if holes[i] == [] then 1 else 0)
  {
    assert holes[..i + 1][..i] == holes[..i];
  }

  /** Counting the unknown holes of a prefix counts no more than of the whole. */
  lemma {:induction false} EmptyHolesMonotone(holes: seq<seq<Card>>, i: nat)
    requires i < |holes|
    ensures EmptyHoles(holes[..i]) + (if holes[i] == [] then 1 else 0) <= EmptyHoles(holes)
    decreases |holes|
  {
    var init := holes[..|holes| - 1];
    if i < |holes| - 1 {
      assert init[..i] == holes[..i];
      EmptyHolesMonotone(init, i);
    } else {
      assert holes[..i] == init;
    }
  }

  /** The cards of the known streets, as `toString` assembles the board. */
  function Street(s: Option<seq<Card>>): seq<Card>
  {
    if s.Some? then s.value else []
  }

  // ---------------------------------------------------------------------
  // Counting the trials
  // ---------------------------------------------------------------------

  /** The number of trials that `name` won while not all `n` players won. */
  function Wins(name: string, outcomes: seq<seq<string>>, n: nat): (w: nat)
    ensures w <= |outcomes|
    decreases |outcomes|
  {
    if outcomes == [] then 0
    else
      var last := outcomes[|outcomes| - 1];
      Wins(name, outcomes[..|outcomes| - 1], n) + (if |last| != n && name in last then 1 else 0)
  }

  /** The number of trials that all `n` players won. */
  function Chops(outcomes: seq<seq<string>>, n: nat): (c: nat)
    ensures c <= |outcomes|
    decreases |outcomes|
  {
    if outcomes == [] then 0
    else Chops(outcomes[..|outcomes| - 1], n) + (if |outcomes[|outcomes| - 1]| == n then 1 else 0)
  }

  /** The counts of all the players of `names` added up. */
  function SumWins(names: seq<string>, outcomes: seq<seq<string>>, n: nat): nat
    decreases |names|
  {
    if names == [] then 0
    else SumWins(names[..|names| - 1], outcomes, n) + Wins(names[|names| - 1], outcomes, n)
  }

  /** The number of players of `names` among the winners `won`. */
  function Shares(names: seq<string>, won: seq<string>): (k: nat)
    ensures k <= |names|
    decreases |names|
  {
    if names == [] then 0
    else Shares(names[..|names| - 1], won) + (if names[|names| - 1] in won then 1 else 0)
  }

  /** What a split pot among some but not all players adds beyond one trial's worth. */
  function Excess(names: seq<string>, outcomes: seq<seq<string>>, n: nat): nat
    requires forall t :: 0 <= t < |outcomes| ==> Shares(names, outcomes[t]) >= 1
    decreases |outcomes|
  {
    if outcomes == [] then 0
    else
      var last := outcomes[|outcomes| - 1];
      Excess(names, outcomes[..|outcomes| - 1], n) + (if |last| == n then 0 else Shares(names, last) - 1)
  }

  /** Without trials nobody has won. */
  lemma {:induction false} SumWinsNone(names: seq<string>, n: nat)
    ensures SumWins(names, [], n) == 0
    decreases |names|
  {
    if names != [] {
      SumWinsNone(names[..|names| - 1], n);
    }
  }

  /** One more trial adds its winners among `names` to the sum, unless it was a chop. */
  lemma {:induction false} SumWinsSnoc(names: seq<string>, outcomes: seq<seq<string>>, won: seq<string>, n: nat)
    ensures SumWins(names, outcomes + [won], n) ==
            SumWins(names, outcomes, n) + (if |won| != n then Shares(names, won) else 0)
    decreases |names|
  {
    assert (outcomes + [won])[..|outcomes|] == outcomes;
    if names != [] {
      SumWinsSnoc(names[..|names| - 1], outcomes, won, n);
    }
  }

  /**
   * The counts of all players and the chop count add up to one per trial
   * plus the excess of the split pots: each winner of a pot split among some
   * but not all players is credited the whole trial. The total is exactly
   * the number of trials if and only if every trial that was not a chop had
   * a single winner.
   */
  lemma {:induction false} EquityTotal(names: seq<string>, outcomes: seq<seq<string>>, n: nat)
    requires forall t :: 0 <= t < |outcomes| ==> Shares(names, outcomes[t]) >= 1
    ensures SumWins(names, outcomes, n) + Chops(outcomes, n) == |outcomes| + Excess(names, outcomes, n)
    ensures SumWins(names, outcomes, n) + Chops(outcomes, n) == |outcomes| <==>
            forall t :: 0 <= t < |outcomes| && |outcomes[t]| != n ==> Shares(names, outcomes[t]) == 1
    decreases |outcomes|
  {
    if outcomes == [] {
      SumWinsNone(names, n);
    } else {
      var init, last := outcomes[..|outcomes| - 1], outcomes[|outcomes| - 1];
      assert outcomes == init + [last];
      assert forall t :: 0 <= t < |init| ==> init[t] == outcomes[t];
      assert Shares(names, last) >= 1;
      EquityTotal(names, init, n);
      SumWinsSnoc(names, init, last, n);
      assert SumWins(names, outcomes, n) == SumWins(names, init, n) + (if |last| != n then Shares(names, last) else 0);
      assert Chops(outcomes, n) == Chops(init, n) + (if |last| == n then 1 else 0);
      assert Excess(names, outcomes, n) == Excess(names, init, n) + (if |last| == n then 0 else Shares(names, last) - 1);
    }
  }

  /** `won` adds one to the count of each of its names, in order. */
  function Bump(counts: map<string, nat>, won: seq<string>): (r: map<string, nat>)
    requires forall k :: 0 <= k < |won| ==> won[k] in counts
    ensures r.Keys == counts.Keys
    decreases |won|
  {
    if won == [] then counts
    else
      var before := Bump(counts, won[..|won| - 1]);
      var w := won[|won| - 1];
      before[w := before[w] + 1]
  }

  /** Winners without repetitions add one to each of their own counts and leave the others alone. */
  lemma {:induction false} BumpDistinct(counts: map<string, nat>, won: seq<string>, x: string)
    requires Distinct(won) && (forall k :: 0 <= k < |won| ==> won[k] in counts) && x in counts
    ensures Bump(counts, won)[x] == counts[x] + (if x in won then 1 else 0)
    decreases |won|
  {
    if won != [] {
      var init := won[..|won| - 1];
      assert won == init + [won[|won| - 1]];
      DistinctSlice(won, 0, |won| - 1);
      BumpDistinct(counts, init, x);
      if x == won[|won| - 1] {
        assert x !in init;
      }
    }
  }

  // ---------------------------------------------------------------------
  // The outcome of one trial
  // ---------------------------------------------------------------------

  /**
   * `won` names, once each and in any order, exactly the players whose hand
   * no player's hand beats; some player won, and all `n` of them won exactly
   * when `won` holds `n` names.
   */
  predicate WinnersOf(names: seq<string>, hands: seq<Hand>, won: seq<string>)
  {
    |hands| == |names| && AllComparable(hands) && Distinct(won) && |won| >= 1 &&
    (forall k :: 0 <= k < |won| ==> won[k] in names) &&
    (forall i :: 0 <= i < |names| ==> (names[i] in won <==> Unbeaten(hands, i))) &&
    (|won| == |names| <==> forall i :: 0 <= i < |names| ==> names[i] in won)
  }

  /** A trial has a winner among the table. */
  lemma WinnersShare(names: seq<string>, hands: seq<Hand>, won: seq<string>)
    requires WinnersOf(names, hands, won)
    ensures Shares(names, won) >= 1
  {
    var i :| 0 <= i < |names| && names[i] == won[0];
    SharesCounts(names, won, i);
  }

  /** A name of the table that won counts towards the shares. */
  lemma {:induction false} SharesCounts(names: seq<string>, won: seq<string>, i: nat)
    requires i < |names| && names[i] in won
    ensures Shares(names, won) >= 1
    decreases |names|
  {
    if i < |names| - 1 {
      SharesCounts(names[..|names| - 1], won, i);
    }
  }

  /** Hands made from five board cards and two hole cards each can all be compared. */
  lemma SevenCardHands(board: seq<Card>, holes: seq<seq<Card>>, hands: seq<Hand>)
    requires |board| == 5 && |hands| == |holes|
    requires forall i :: 0 <= i < |holes| ==> |holes[i]| == 2 && hands[i] == HandOf(board + holes[i])
    ensures AllComparable(hands)
  {
  }

  /** `deck.remove` for each of `cs` in turn. */
  method RemoveCards(temp: Deck, cs: seq<Card>)
    modifies temp
    ensures temp.cards == RemoveEach(old(temp.cards), cs)
  {
    ghost var start := temp.cards;
    assert cs[..0] == [];
    for k := 0 to |cs|
      invariant temp.cards == RemoveEach(start, cs[..k])
    {
      RemoveEachSnoc(start, cs[..k], cs[k]);
      assert cs[..k + 1] == cs[..k] + [cs[k]];
      var removed := temp.Remove(cs[k]);
    }
    assert cs[..|cs|] == cs;
  }

  /** The known cards of one player out of `temp`, when they have any. */
  method RemoveHole(temp: Deck, hole: seq<Card>, ghost d: seq<Card>, ghost known: seq<Card>)
    requires |hole| == 0 || |hole| == 2
    requires temp.cards == RemoveEach(d, known)
    modifies temp
    ensures temp.cards == RemoveEach(d, known + hole)
  {
    if |hole| > 0 {
      RemoveEachSnoc(d, known, hole[0]);
      RemoveEachSnoc(d, known + [hole[0]], hole[1]);
      assert known + hole == known + [hole[0]] + [hole[1]];
      var removed := temp.Remove(hole[0]);
      removed := temp.Remove(hole[1]);
    } else {
      assert known + hole == known;
    }
  }

  /** Removing `a` and then `b` is removing `a + b`. */
  lemma {:induction false} RemoveEachAppend(cards: seq<Card>, a: seq<Card>, b: seq<Card>)
    ensures RemoveEach(cards, a + b) == RemoveEach(RemoveEach(cards, a), b)
    decreases |b|
  {
    if b == [] {
      assert a + b == a;
    } else {
      var init, c := b[..|b| - 1], b[|b| - 1];
      assert a + b == (a + init) + [c];
      assert b == init + [c];
      RemoveEachAppend(cards, a, init);
      RemoveEachSnoc(cards, a + init, c);
      RemoveEachSnoc(RemoveEach(cards, a), init, c);
    }
  }

  /** The known cards of the holes, one seat more. */
  lemma FlattenStep(holes: seq<seq<Card>>, i: nat)
    requires i < |holes|
    ensures Flatten(holes[..i + 1]) == Flatten(holes[..i]) + holes[i]
  {
    assert holes[..i + 1][..i] == holes[..i];
  }

  /**
   * The counts after the trials `outcomes` of a table of `n`: one per player
   * name and one under the chop key, each player's the trials they won
   * without a chop, the chop key's the trials every player won.
   */
  ghost predicate Tallied(counts: map<string, nat>, outcomes: seq<seq<string>>, n: nat)
  {
    (forall k :: k in counts <==> k in Names(n) || k == Chop) &&
    (forall i :: 0 <= i < n ==> Names(n)[i] in counts && counts[Names(n)[i]] == Wins(Names(n)[i], outcomes, n)) &&
    Chop in counts && counts[Chop] == Chops(outcomes, n)
  }

  /**
   * The tally of one trial in `calculateHandEquity`: when all `n` players won
   * it counts as a chop, otherwise each winner is credited.
   */
  method Tally(counts: map<string, nat>, won: seq<string>, n: nat, ghost outcomes: seq<seq<string>>)
    returns (r: map<string, nat>)
    requires Tallied(counts, outcomes, n)
    requires Distinct(won) && forall k :: 0 <= k < |won| ==> won[k] in Names(n)
    ensures Tallied(r, outcomes + [won], n)
  {
    NamesDistinct(n);
    assert (outcomes + [won])[..|outcomes|] == outcomes;
    if |won| == n {
      r := counts[Chop := counts[Chop] + 1];
    } else {
      r := Credit(counts, won);
    }
  }

  /**
   * The cards of one trial before `runSim`: a copy of the remaining deck
   * shuffled into `order`, copies of the players, two cards from the top for
   * each player without cards in seat order, then `burns` burns.
   */
  method DealTrial(players: seq<Player>, temp: Deck, burns: nat, order: seq<Card>, ghost known: seq<seq<Card>>)
    returns (trialDeck: Deck, trialPlayers: seq<Player>)
    requires Distinct(temp.cards) && |order| == |temp.cards| && multiset(order) == multiset(temp.cards)
    requires |known| == |players| && forall i :: 0 <= i < |players| ==> players[i].hole == known[i]
    requires forall i :: 0 <= i < |known| ==> |known[i]| == 0 || |known[i]| == 2
    requires 2 * EmptyHoles(known) + burns <= |order|
    ensures fresh(trialDeck) && trialDeck.cards == order[2 * EmptyHoles(known) + burns..]
    ensures |trialPlayers| == |players| && Distinct(trialPlayers)
    ensures forall i :: 0 <= i < |players| ==> fresh(trialPlayers[i]) && trialPlayers[i].name == players[i].name
    ensures Holes(trialPlayers) == DealHoles(known, order)
  {
    ghost var u := EmptyHoles(known);
    ghost var names := NamesOf(players);
    trialDeck := new Deck.Copy(temp);
    trialDeck.Shuffle(order);
    DistinctPermutation(temp.cards, order);
    trialPlayers := CopyPlayers(players);
    DealUnknown(trialPlayers, trialDeck, known, order, names);
    for k := 0 to burns
      modifies trialDeck
      invariant trialDeck.cards == order[2 * u + k..]
    {
      trialDeck.Burn();
    }
  }

  /**
   * The table every trial of `calculateHandEquity` copies: one to ten
   * players seated by name, holding the known holes of no cards or two.
   */
  ghost predicate Seated(players: seq<Player>, known: seq<seq<Card>>, names: seq<string>)
    reads set p | p in players
  {
    1 <= |players| <= 10 && names == Names(|players|) && Distinct(names) &&
    (forall i :: 0 <= i < |players| ==> players[i].name == names[i]) &&
    |known| == |players| && (forall i :: 0 <= i < |players| ==> players[i].hole == known[i]) &&
    (forall i :: 0 <= i < |known| ==> (|known[i]| == 0 || |known[i]| == 2) && SuitsValid(known[i]))
  }

  /**
   * The cards every trial of `calculateHandEquity` starts from: the known
   * streets, and the deck of the trials, different cards of valid suits,
   * enough for the unknown holes, the burns and the missing streets.
   */
  ghost predicate Stocked(temp: seq<Card>, burns: nat, streets: (seq<Card>, seq<Card>, seq<Card>), known: seq<seq<Card>>)
  {
    var (flop, turn, river) := streets;
    (flop == [] || |flop| == 3) && (turn == [] || |turn| == 1) && (river == [] || |river| == 1) &&
    SuitsValid(flop) && SuitsValid(turn) && SuitsValid(river) &&
    Distinct(temp) && SuitsValid(temp) &&
    |temp| >= 2 * EmptyHoles(known) + burns + StreetCardsDealt(flop, turn, river)
  }

  /**
   * The record of the first trials of `calculateHandEquity`: trial `s` was
   * dealt and played from `orders[s]`, with winners `outcomes[s]`, hands
   * `hands[s]`, board `boards[s]` and holes `dealt[s]`.
   */
  ghost predicate AllPlayed(known: seq<seq<Card>>, streets: (seq<Card>, seq<Card>, seq<Card>),
                            orders: seq<(seq<Card>, seq<Card>)>, outcomes: seq<seq<string>>, hands: seq<seq<Hand>>,
                            boards: seq<seq<Card>>, dealt: seq<seq<seq<Card>>>)
  {
    |outcomes| == |hands| == |boards| == |dealt| <= |orders| &&
    forall s :: 0 <= s < |outcomes| ==> Played(known, streets, orders[s], outcomes[s], hands[s], boards[s], dealt[s])
  }

  /**
   * The trial loop of `calculateHandEquity`: trial `t` is dealt and played
   * from `orders[t]` and tallied into `counts`.
   */
  method Trials(players: seq<Player>, temp: Deck, burns: nat, streets: (seq<Card>, seq<Card>, seq<Card>),
                orders: seq<(seq<Card>, seq<Card>)>, start: map<string, nat>,
                ghost known: seq<seq<Card>>, ghost names: seq<string>, ghost rem: seq<Card>, ghost skip: nat)
    returns (counts: map<string, nat>, ghost outcomes: seq<seq<string>>, ghost hands: seq<seq<Hand>>,
             ghost boards: seq<seq<Card>>, ghost dealt: seq<seq<seq<Card>>>)
    requires Seated(players, known, names) && Stocked(temp.cards, burns, streets, known) && Tallied(start, [], |players|)
    requires temp.cards == rem && skip == 2 * EmptyHoles(known) + burns
    requires forall t :: 0 <= t < |orders| ==> Shuffles(rem, skip, orders[t])
    ensures Tallied(counts, outcomes, |players|) && |outcomes| == |orders|
    ensures AllPlayed(known, streets, orders, outcomes, hands, boards, dealt)
  {
    counts, outcomes, hands, boards, dealt := start, [], [], [], [];
    for t := 0 to |orders|
      invariant Tallied(counts, outcomes, |players|) && |outcomes| == t
      invariant AllPlayed(known, streets, orders, outcomes, hands, boards, dealt)
    {
      counts, outcomes, hands, boards, dealt :=
        TrialStep(players, temp, burns, streets, orders, t, counts, known, names, outcomes, hands, boards, dealt);
    }
  }

  /** The next trial played, tallied and recorded. */
  method TrialStep(players: seq<Player>, temp: Deck, burns: nat, streets: (seq<Card>, seq<Card>, seq<Card>),
                   orders: seq<(seq<Card>, seq<Card>)>, t: nat, counts: map<string, nat>,
                   ghost known: seq<seq<Card>>, ghost names: seq<string>, ghost outcomes: seq<seq<string>>,
                   ghost hands: seq<seq<Hand>>, ghost boards: seq<seq<Card>>, ghost dealt: seq<seq<seq<Card>>>)
    returns (r: map<string, nat>, ghost outcomes': seq<seq<string>>, ghost hands': seq<seq<Hand>>,
             ghost boards': seq<seq<Card>>, ghost dealt': seq<seq<seq<Card>>>)
    requires Seated(players, known, names) && Stocked(temp.cards, burns, streets, known) && Tallied(counts, outcomes, |players|)
    requires AllPlayed(known, streets, orders, outcomes, hands, boards, dealt) && t == |outcomes| < |orders|
    requires Shuffles(temp.cards, 2 * EmptyHoles(known) + burns, orders[t])
    ensures |outcomes'| == |outcomes| + 1 && outcomes'[..|outcomes|] == outcomes
    ensures Tallied(r, outcomes', |players|)
    ensures AllPlayed(known, streets, orders, outcomes', hands', boards', dealt')
  {
    var won;
    ghost var h, b, d;
    won, h, b, d := Trial(players, temp, burns, streets.0, streets.1, streets.2,
                          orders[t].0, orders[t].1, known, names);
    r := Tally(counts, won, |players|, outcomes);
    PlayedSnoc(known, streets, orders, outcomes, hands, boards, dealt, won, h, b, d);
    outcomes', hands', boards', dealt' := outcomes + [won], hands + [h], boards + [b], dealt + [d];
  }

  /** The record of the trials so far, extended by one more. */
  lemma PlayedSnoc(known: seq<seq<Card>>, streets: (seq<Card>, seq<Card>, seq<Card>),
                   orders: seq<(seq<Card>, seq<Card>)>, outcomes: seq<seq<string>>, hands: seq<seq<Hand>>,
                   boards: seq<seq<Card>>, dealt: seq<seq<seq<Card>>>,
                   won: seq<string>, h: seq<Hand>, b: seq<Card>, d: seq<seq<Card>>)
    requires AllPlayed(known, streets, orders, outcomes, hands, boards, dealt) && |outcomes| < |orders|
    requires Played(known, streets, orders[|outcomes|], won, h, b, d)
    ensures AllPlayed(known, streets, orders, outcomes + [won], hands + [h], boards + [b], dealt + [d])
  {
    var o := outcomes + [won];
    forall s | 0 <= s < |o|
      ensures Played(known, streets, orders[s], o[s], (hands + [h])[s], (boards + [b])[s], (dealt + [d])[s])
    {
    }
  }

  /**
   * One trial of `calculateHandEquity`: the unknown holes dealt from the first
   * order and the known streets' burns, then `runSim` on the trial's own deck
   * and players, reshuffled into the second order; `won` names its winners.
   */
  method Trial(players: seq<Player>, temp: Deck, burns: nat, flop: seq<Card>, turn: seq<Card>, river: seq<Card>,
               order0: seq<Card>, order1: seq<Card>, ghost known: seq<seq<Card>>, ghost names: seq<string>)
    returns (won: seq<string>, ghost hands: seq<Hand>, ghost board: seq<Card>, ghost holes: seq<seq<Card>>)
    requires Seated(players, known, names) && Stocked(temp.cards, burns, (flop, turn, river), known)
    requires Shuffles(temp.cards, 2 * EmptyHoles(known) + burns, (order0, order1))
    ensures Played(known, (flop, turn, river), (order0, order1), won, hands, board, holes)
  {
    var trialDeck, trialPlayers;
    trialDeck, trialPlayers, holes := DealFor(players, temp, burns, flop, turn, river, order0, order1, known, names);
    won, hands, board := PlayOut(trialPlayers, trialDeck, flop, turn, river, order1, holes, names, known, order0);
  }

  /** The deal of a trial: its own deck and players, and the holes they hold. */
  method DealFor(players: seq<Player>, temp: Deck, burns: nat, flop: seq<Card>, turn: seq<Card>, river: seq<Card>,
                 order0: seq<Card>, order1: seq<Card>, ghost known: seq<seq<Card>>, ghost names: seq<string>)
    returns (trialDeck: Deck, trialPlayers: seq<Player>, ghost holes: seq<seq<Card>>)
    requires |names| == |players| && forall i :: 0 <= i < |players| ==> players[i].name == names[i]
    requires |known| == |players| && forall i :: 0 <= i < |players| ==> players[i].hole == known[i]
    requires forall i :: 0 <= i < |known| ==> (|known[i]| == 0 || |known[i]| == 2) && SuitsValid(known[i])
    requires Distinct(temp.cards) && SuitsValid(temp.cards)
    requires |temp.cards| >= 2 * EmptyHoles(known) + burns + StreetCardsDealt(flop, turn, river)
    requires Shuffles(temp.cards, 2 * EmptyHoles(known) + burns, (order0, order1))
    ensures fresh(trialDeck) && forall i :: 0 <= i < |trialPlayers| ==> fresh(trialPlayers[i])
    ensures 2 * EmptyHoles(known) <= |order0| && holes == DealHoles(known, order0)
    ensures |trialPlayers| == |players| && forall i :: 0 <= i < |trialPlayers| ==> trialPlayers[i].name == names[i]
    ensures Holes(trialPlayers) == holes && forall i :: 0 <= i < |holes| ==> |holes[i]| == 2 && SuitsValid(holes[i])
    ensures SuitsValid(trialDeck.cards) && |trialDeck.cards| >= StreetCardsDealt(flop, turn, river)
    ensures |order1| == |trialDeck.cards| && multiset(order1) == multiset(trialDeck.cards)
  {
    trialDeck, trialPlayers := DealTrial(players, temp, burns, order0, known);
    SuitsValidPermutation(temp.cards, order0);
    DealtReady(known, order0);
    holes := DealHoles(known, order0);
  }

  /** `runSim` on a trial's dealt players and deck, and the names of its winners. */
  method PlayOut(players: seq<Player>, deck: Deck, flop: seq<Card>, turn: seq<Card>, river: seq<Card>,
                 order: seq<Card>, ghost holes: seq<seq<Card>>, ghost names: seq<string>,
                 ghost known: seq<seq<Card>>, ghost order0: seq<Card>)
    returns (won: seq<string>, ghost hands: seq<Hand>, ghost board: seq<Card>)
    requires 2 * EmptyHoles(known) <= |order0| && holes == DealHoles(known, order0) && names == Names(|known|)
    requires 1 <= |players| <= 10 && |names| == |players| && Distinct(names)
    requires forall i :: 0 <= i < |players| ==> players[i].name == names[i]
    requires Holes(players) == holes && forall i :: 0 <= i < |holes| ==> |holes[i]| == 2 && SuitsValid(holes[i])
    requires (flop == [] || |flop| == 3) && (turn == [] || |turn| == 1) && (river == [] || |river| == 1)
    requires SuitsValid(flop) && SuitsValid(turn) && SuitsValid(river)
    requires SuitsValid(deck.cards) && |deck.cards| >= StreetCardsDealt(flop, turn, river)
    requires |order| == |deck.cards| && multiset(order) == multiset(deck.cards)
    modifies deck, set p | p in players
    ensures Played(known, (flop, turn, river), (order0, order), won, hands, board, holes)
  {
    var sim := Simulate(players, deck, flop, turn, river, order, holes, names);
    won := NamesOf(sim.winners);
    board := sim.board;
    hands := SimResult(sim, holes, names);
  }

  /** The `runSim` call of a trial: what it promises about the players it was given. */
  method Simulate(players: seq<Player>, deck: Deck, flop: seq<Card>, turn: seq<Card>, river: seq<Card>,
                  order: seq<Card>, ghost holes: seq<seq<Card>>, ghost names: seq<string>)
    returns (sim: Simulation)
    requires 1 <= |players| <= 10 && |names| == |players|
    requires forall i :: 0 <= i < |players| ==> players[i].name == names[i]
    requires Holes(players) == holes && forall i :: 0 <= i < |holes| ==> |holes[i]| == 2 && SuitsValid(holes[i])
    requires (flop == [] || |flop| == 3) && (turn == [] || |turn| == 1) && (river == [] || |river| == 1)
    requires SuitsValid(flop) && SuitsValid(turn) && SuitsValid(river)
    requires SuitsValid(deck.cards) && |deck.cards| >= StreetCardsDealt(flop, turn, river)
    requires |order| == |deck.cards| && multiset(order) == multiset(deck.cards)
    modifies deck, set p | p in players
    ensures Runout(order, flop, turn, river) == (sim.flop, sim.turn, sim.river)
    ensures Outcome(sim, holes, names)
  {
    assert HolesReady(players);
    sim := Simulation.RunSim(|players|, deck, players, flop, turn, river, order);
    assert HoleCardsDealt(|players|, players) == 0 && order[0..] == order;
    assert sim.players == players;
    forall i | 0 <= i < |players|
      ensures players[i].hole == holes[i] && players[i].name == names[i]
    {
    }
  }

  /**
   * What `runSim` leaves behind in a trial: a board of a flop, a turn and a
   * river; the players it was given, with their names and holes; each
   * player's hand made from the board and their hole; and the winners, at
   * increasing seats, the players holding the first winner's hand, which no
   * hand beats.
   */
  ghost predicate Outcome(sim: Simulation, holes: seq<seq<Card>>, names: seq<string>)
    reads sim, sim.players, sim.winners
  {
    sim.board == sim.flop + sim.turn + sim.river && |sim.board| == 5 &&
    |sim.flop| == 3 && |sim.turn| == 1 && |sim.river| == 1 &&
    |sim.players| == |holes| == |names| &&
    (forall i :: 0 <= i < |sim.players| ==>
       sim.players[i].hole == holes[i] && sim.players[i].name == names[i] && |holes[i]| == 2) &&
    (forall i {:trigger sim.players[i].hand} :: 0 <= i < |sim.players| ==>
       sim.players[i].hand == Some(HandOf(sim.board + sim.players[i].hole))) &&
    AreWinners(sim.players, sim.winners) &&
    |sim.at| == |sim.winners| &&
    (forall k :: 0 <= k < |sim.at| ==> sim.at[k] < |sim.players| && sim.winners[k] == sim.players[sim.at[k]]) &&
    (forall k, l :: 0 <= k < l < |sim.at| ==> sim.at[k] < sim.at[l])
  }

  /**
   * Read as values, a trial's outcome is its board cut into the streets,
   * the hand of the board and each hole, and the names of exactly the
   * players no hand beats.
   */
  lemma SimResult(sim: Simulation, holes: seq<seq<Card>>, names: seq<string>) returns (hands: seq<Hand>)
    requires Outcome(sim, holes, names) && Distinct(names)
    ensures sim.board[..3] == sim.flop && sim.board[3..4] == sim.turn && sim.board[4..] == sim.river
    ensures |hands| == |holes| && forall i :: 0 <= i < |holes| ==> hands[i] == HandOf(sim.board + holes[i])
    ensures WinnersOf(names, hands, NamesOf(sim.winners))
  {
    BoardSplit(sim.board, sim.flop, sim.turn, sim.river);
    assert forall i :: 0 <= i < |sim.players| ==> sim.players[i].hand.Some?;
    hands := HandsOf(sim.players);
    SimHands(sim, holes, hands);
    SimWinners(sim, names, hands, NamesOf(sim.winners));
  }

  /** The hands a trial's `runSim` made, read off its players, are the hands of the board and each hole. */
  lemma SimHands(sim: Simulation, holes: seq<seq<Card>>, hands: seq<Hand>)
    requires |sim.board| == 5 && |sim.players| == |holes|
    requires forall i :: 0 <= i < |sim.players| ==> sim.players[i].hole == holes[i] && |holes[i]| == 2
    requires forall i {:trigger sim.players[i].hand} :: 0 <= i < |sim.players| ==>
               sim.players[i].hand == Some(HandOf(sim.board + sim.players[i].hole))
    requires hands == HandsOf(sim.players)
    ensures |hands| == |holes| && forall i :: 0 <= i < |holes| ==> hands[i] == HandOf(sim.board + holes[i])
    ensures AllComparable(hands)
  {
    HandsMade(sim.players, sim.board, holes);
  }

  /** The names of a trial's winners are exactly the players no hand beats. */
  lemma SimWinners(sim: Simulation, names: seq<string>, hands: seq<Hand>, won: seq<string>)
    requires |sim.players| == |names| && Distinct(names)
    requires forall i :: 0 <= i < |sim.players| ==> sim.players[i].name == names[i]
    requires AreWinners(sim.players, sim.winners)
    requires |sim.at| == |sim.winners| &&
             forall k :: 0 <= k < |sim.at| ==> sim.at[k] < |sim.players| && sim.winners[k] == sim.players[sim.at[k]]
    requires forall k, l :: 0 <= k < l < |sim.at| ==> sim.at[k] < sim.at[l]
    requires forall i :: 0 <= i < |sim.players| ==> sim.players[i].hand.Some?
    requires hands == HandsOf(sim.players) && AllComparable(hands) && won == NamesOf(sim.winners)
    ensures WinnersOf(names, hands, won)
  {
    WinnerNamesOf(sim.players, sim.winners, sim.at, names);
  }

  /** A board of a three-card flop, a turn and a river, cut back into them. */
  lemma BoardSplit(board: seq<Card>, flop: seq<Card>, turn: seq<Card>, river: seq<Card>)
    requires board == flop + turn + river && |flop| == 3 && |turn| == 1 && |river| == 1
    ensures board[..3] == flop && board[3..4] == turn && board[4..] == river
  {
  }

  /** The hands `runSim` made, read off its players, are the hands of the board and each hole. */
  lemma HandsMade(players: seq<Player>, board: seq<Card>, holes: seq<seq<Card>>)
    requires |board| == 5 && |players| == |holes|
    requires forall i :: 0 <= i < |holes| ==> players[i].hole == holes[i] && |holes[i]| == 2
    requires forall i {:trigger players[i].hand} :: 0 <= i < |players| ==>
               players[i].hand == Some(HandOf(board + players[i].hole))
    ensures forall i :: 0 <= i < |players| ==> players[i].hand.Some?
    ensures forall i :: 0 <= i < |holes| ==> HandsOf(players)[i] == HandOf(board + holes[i])
    ensures AllComparable(HandsOf(players))
  {
    var hands := HandsOf(players);
    forall i | 0 <= i < |holes|
      ensures hands[i] == HandOf(board + holes[i])
    {
      assert players[i].hand == Some(HandOf(board + players[i].hole));
    }
    SevenCardHands(board, holes, hands);
  }

  /** Players holding `holes`, seat by seat. */
  lemma HolesAre(players: seq<Player>, holes: seq<seq<Card>>)
    requires |holes| == |players| && forall j :: 0 <= j < |players| ==> players[j].hole == holes[j]
    ensures Holes(players) == holes
  {
  }

  /** Zero counts under exactly the names and the chop key are the tally of no trials. */
  lemma TalliedZero(counts: map<string, nat>, n: nat)
    requires forall k :: k in counts <==> k in Names(n) || k == Chop
    requires forall k :: k in counts ==> counts[k] == 0
    ensures Tallied(counts, [], n)
  {
  }

  /**
   * The record of one trial: the holes are dealt from the first order and
   * the rest of the trial is played out from the second.
   */
  ghost predicate Played(known: seq<seq<Card>>, streets: (seq<Card>, seq<Card>, seq<Card>),
                         orders: (seq<Card>, seq<Card>), won: seq<string>,
                         hands: seq<Hand>, board: seq<Card>, holes: seq<seq<Card>>)
  {
    2 * EmptyHoles(known) <= |orders.0| && holes == DealHoles(known, orders.0) &&
    Scored(streets, orders.1, Names(|known|), holes, won, hands, board)
  }

  /**
   * The play of a trial: the missing streets are dealt from `order`, every
   * player's hand is made from the board and their hole, and `won` lists the
   * winners among `names`.
   */
  ghost predicate Scored(streets: (seq<Card>, seq<Card>, seq<Card>), order: seq<Card>, names: seq<string>,
                         holes: seq<seq<Card>>, won: seq<string>, hands: seq<Hand>, board: seq<Card>)
  {
    var (flop, turn, river) := streets;
    (flop == [] || |flop| == 3) && (turn == [] || |turn| == 1) && (river == [] || |river| == 1) &&
    |order| >= StreetCardsDealt(flop, turn, river) &&
    |board| == 5 && Runout(order, flop, turn, river) == (board[..3], board[3..4], board[4..]) &&
    |hands| == |holes| && (forall i :: 0 <= i < |holes| ==> hands[i] == HandOf(board + holes[i])) &&
    WinnersOf(names, hands, won)
  }

  /** A trial's winners credited one each: the counts of `won` go up by one, the others stay. */
  method Credit(counts: map<string, nat>, won: seq<string>) returns (r: map<string, nat>)
    requires Distinct(won) && forall k :: 0 <= k < |won| ==> won[k] in counts
    ensures r.Keys == counts.Keys
    ensures forall x :: x in counts ==> r[x] == counts[x] + (if x in won then 1 else 0)
  {
    r := counts;
    for k := 0 to |won|
      invariant r == Bump(counts, won[..k])
    {
      assert won[..k + 1][..k] == won[..k];
      r := r[won[k] := r[won[k]] + 1];
    }
    assert won[..|won|] == won;
    forall x | x in counts
      ensures r[x] == counts[x] + (if x in won then 1 else 0)
    {
      BumpDistinct(counts, won, x);
    }
  }

  // ---------------------------------------------------------------------
  // Players and the cards of a trial
  // ---------------------------------------------------------------------

  /** The hole cards of the players, seat by seat. */
  function Holes(players: seq<Player>): (r: seq<seq<Card>>)
    reads players
    ensures |r| == |players| && forall i :: 0 <= i < |players| ==> r[i] == players[i].hole
    decreases |players|
  {
    if players == [] then [] else Holes(players[..|players| - 1]) + [players[|players| - 1].hole]
  }

  /** The names of the winners, in the order they are listed. */
  function NamesOf(top: seq<Player>): (r: seq<string>)
    reads top
    ensures |r| == |top| && forall k :: 0 <= k < |top| ==> r[k] == top[k].name
    decreases |top|
  {
    if top == [] then [] else NamesOf(top[..|top| - 1]) + [top[|top| - 1].name]
  }

  lemma RemoveEachSnoc(cards: seq<Card>, cs: seq<Card>, c: Card)
    ensures RemoveEach(cards, cs + [c]) == RemoveIfPresent(RemoveEach(cards, cs), c)
  {
    assert (cs + [c])[..|cs|] == cs;
  }

  lemma NamesSnoc(n: nat)
    ensures Names(n + 1) == Names(n) + [PlayerName(n + 1)]
  {
  }

  /** The number of cards `calculateHandEquity` burns per trial: one per known street. */
  function Burns(flop: Option<seq<Card>>, turn: Option<seq<Card>>, river: Option<seq<Card>>): nat
  {
    (if flop.Some? then 1 else 0) + (if turn.Some? then 1 else 0) + (if river.Some? then 1 else 0)
  }

  /**
   * On a well-formed board the burns count the known streets: none without a
   * board, otherwise one per street, the flop's three cards counting once.
   */
  lemma BurnsOfBoard(flop: Option<seq<Card>>, turn: Option<seq<Card>>, river: Option<seq<Card>>)
    requires flop.Some? ==> |flop.value| == 3
    requires turn.Some? ==> flop.Some? && |turn.value| == 1
    requires river.Some? ==> turn.Some? && |river.value| == 1
    ensures Burns(flop, turn, river) <= 3
    ensures Burns(flop, turn, river) == 0 <==> Street(flop) + Street(turn) + Street(river) == []
    ensures Burns(flop, turn, river) > 0 ==> |Street(flop) + Street(turn) + Street(river)| == Burns(flop, turn, river) + 2
  {
  }

  /**
   * A trial's two shuffles: the first reorders the remaining cards, the
   * second what is left of them once `skip` cards are dealt and burnt.
   */
  predicate Shuffles(remaining: seq<Card>, skip: nat, orders: (seq<Card>, seq<Card>))
  {
    |orders.0| == |remaining| && multiset(orders.0) == multiset(remaining) &&
    skip <= |orders.0| && |orders.1| == |orders.0| - skip && multiset(orders.1) == multiset(orders.0[skip..])
  }

  /** The second shuffle reorders cards of the first, so a trial draws only from the remaining cards. */
  lemma ShufflesDrawFromRemaining(remaining: seq<Card>, skip: nat, orders: (seq<Card>, seq<Card>))
    requires Shuffles(remaining, skip, orders)
    ensures multiset(orders.1) <= multiset(remaining)
    ensures forall x :: x in orders.1 ==> x in remaining
  {
    assert orders.0 == orders.0[..skip] + orders.0[skip..];
    assert multiset(orders.0) == multiset(orders.0[..skip]) + multiset(orders.0[skip..]);
    forall x | x in orders.1
      ensures x in remaining
    {
      assert x in multiset(orders.1);
      assert x in multiset(remaining);
    }
  }

  /**
   * The winners of a table seated as "Player 1", "Player 2", ... name exactly
   * the players no hand beats, each once, and every player exactly when all
   * of them are listed.
   */
  lemma WinnerNamesOf(players: seq<Player>, top: seq<Player>, at: seq<nat>, names: seq<string>)
    requires |names| == |players| && Distinct(names)
    requires forall i :: 0 <= i < |players| ==> players[i].name == names[i]
    requires AreWinners(players, top) && AllComparable(HandsOf(players))
    requires |at| == |top| && forall k :: 0 <= k < |at| ==> at[k] < |players| && top[k] == players[at[k]]
    requires forall k, l :: 0 <= k < l < |at| ==> at[k] < at[l]
    ensures WinnersOf(names, HandsOf(players), NamesOf(top))
  {
    WinnerSeats(players, top, at, names);
    UnbeatenSeats(players, top, at, names);
    AllNamesIff(at, names, NamesOf(top));
  }

  /** All players won exactly when the winners are as many as the players. */
  lemma AllNamesIff(at: seq<nat>, names: seq<string>, won: seq<string>)
    requires |won| == |at| && forall k :: 0 <= k < |at| ==> at[k] < |names|
    requires forall k, l :: 0 <= k < l < |at| ==> at[k] < at[l]
    requires forall i :: 0 <= i < |names| ==> (names[i] in won <==> i in at)
    ensures |won| == |names| <==> forall i :: 0 <= i < |names| ==> names[i] in won
  {
    AllSeatsIff(at, |names|);
  }

  /** A player's name is among the winners' exactly when no hand beats theirs. */
  lemma UnbeatenSeats(players: seq<Player>, top: seq<Player>, at: seq<nat>, names: seq<string>)
    requires |names| == |players| && Distinct(names)
    requires forall i :: 0 <= i < |players| ==> players[i].name == names[i]
    requires AreWinners(players, top) && AllComparable(HandsOf(players))
    requires |at| == |top| && forall k :: 0 <= k < |at| ==> at[k] < |players| && top[k] == players[at[k]]
    requires forall i :: 0 <= i < |players| ==> (names[i] in NamesOf(top) <==> i in at)
    ensures forall i :: 0 <= i < |players| ==> (names[i] in NamesOf(top) <==> Unbeaten(HandsOf(players), i))
  {
    forall i | 0 <= i < |players|
      ensures names[i] in NamesOf(top) <==> Unbeaten(HandsOf(players), i)
    {
      WinnersUnbeaten(players, top, i);
      SeatOfWinner(players, top, at, names, i);
    }
  }

  /** Player `i` is among the winners exactly when their seat is. */
  lemma SeatOfWinner(players: seq<Player>, top: seq<Player>, at: seq<nat>, names: seq<string>, i: nat)
    requires |names| == |players| && Distinct(names)
    requires forall j :: 0 <= j < |players| ==> players[j].name == names[j]
    requires |at| == |top| && forall k :: 0 <= k < |at| ==> at[k] < |players| && top[k] == players[at[k]]
    requires i < |players|
    ensures players[i] in top <==> i in at
  {
    if players[i] in top {
      var k :| 0 <= k < |top| && top[k] == players[i];
      assert names[at[k]] == names[i];
    }
    if i in at {
      var k :| 0 <= k < |at| && at[k] == i;
      assert top[k] == players[i];
    }
  }

  /** The winners' names are different, and name the seats of the winners. */
  lemma WinnerSeats(players: seq<Player>, top: seq<Player>, at: seq<nat>, names: seq<string>)
    requires |names| == |players| && Distinct(names)
    requires forall j :: 0 <= j < |players| ==> players[j].name == names[j]
    requires |at| == |top| && forall k :: 0 <= k < |at| ==> at[k] < |players| && top[k] == players[at[k]]
    requires forall k, l :: 0 <= k < l < |at| ==> at[k] < at[l]
    ensures Distinct(NamesOf(top))
    ensures forall k :: 0 <= k < |top| ==> NamesOf(top)[k] in names
    ensures forall i :: 0 <= i < |players| ==> (names[i] in NamesOf(top) <==> i in at)
  {
    var won := NamesOf(top);
    assert forall k :: 0 <= k < |at| ==> won[k] == names[at[k]];
    forall i | 0 <= i < |players|
      ensures names[i] in won <==> i in at
    {
      if names[i] in won {
        var k :| 0 <= k < |won| && won[k] == names[i];
        assert names[at[k]] == names[i];
      }
      if i in at {
        var k :| 0 <= k < |at| && at[k] == i;
        assert won[k] == names[i];
      }
    }
  }

  /** Copies of the players, as `copy.deepcopy` makes them. */
  method CopyPlayers(players: seq<Player>) returns (r: seq<Player>)
    ensures |r| == |players| && Distinct(r)
    ensures forall i :: 0 <= i < |r| ==>
              fresh(r[i]) && r[i].name == players[i].name && r[i].hole == players[i].hole
  {
    r := [];
    for i := 0 to |players|
      invariant |r| == i && Distinct(r)
      invariant forall j :: 0 <= j < i ==>
                  fresh(r[j]) && r[j].name == players[j].name && r[j].hole == players[j].hole
    {
      var p := new Player.Copy(players[i]);
      r := r + [p];
    }
  }

  /**
   * The deal of a trial: each player without hole cards, in seat order, draws
   * two cards from the top of the deck.
   */
  method DealUnknown(players: seq<Player>, deck: Deck, ghost known: seq<seq<Card>>, ghost d: seq<Card>,
                     ghost names: seq<string>)
    requires Distinct(players) && Distinct(d) && deck.cards == d
    requires |known| == |players| == |names|
    requires forall i :: 0 <= i < |players| ==>
               players[i].hole == known[i] && players[i].name == names[i] && (|known[i]| == 0 || |known[i]| == 2)
    requires 2 * EmptyHoles(known) <= |d|
    modifies deck, players
    ensures Holes(players) == DealHoles(known, d)
    ensures deck.cards == d[2 * EmptyHoles(known)..]
    ensures forall i :: 0 <= i < |players| ==> players[i].name == names[i]
  {
    ghost var e := 0;
    assert known[..0] == [];
    for i := 0 to |players|
      invariant e == EmptyHoles(known[..i]) && 2 * e <= |d| && deck.cards == d[2 * e..]
      invariant forall j :: 0 <= j < i ==> players[j].hole == DealHoles(known, d)[j]
      invariant forall j :: i <= j < |players| ==> players[j].hole == known[j]
      invariant forall j :: 0 <= j < |players| ==> players[j].name == names[j]
    {
      e := DealSeat(players, deck, i, known, d, e, names);
    }
    assert known[..|players|] == known;
    assert forall j :: 0 <= j < |players| ==> Holes(players)[j] == DealHoles(known, d)[j];
  }

  /** The deal of a trial at seat `i`, `2e` cards into the shuffled deck `d`. */
  method DealSeat(players: seq<Player>, deck: Deck, i: nat, ghost known: seq<seq<Card>>, ghost d: seq<Card>,
                  ghost e: nat, ghost names: seq<string>) returns (ghost next: nat)
    requires Distinct(players) && Distinct(d) && i < |players| == |known| == |names|
    requires 2 * EmptyHoles(known) <= |d|
    requires e == EmptyHoles(known[..i]) && 2 * e <= |d| && deck.cards == d[2 * e..]
    requires forall j :: 0 <= j < i ==> players[j].hole == DealHoles(known, d)[j]
    requires forall j :: i <= j < |players| ==> players[j].hole == known[j]
    requires forall j :: 0 <= j < |players| ==> players[j].name == names[j]
    modifies deck, players[i]
    ensures next == EmptyHoles(known[..i + 1]) && 2 * next <= |d| && deck.cards == d[2 * next..]
    ensures forall j :: 0 <= j < i + 1 ==> players[j].hole == DealHoles(known, d)[j]
    ensures forall j :: i + 1 <= j < |players| ==> players[j].hole == known[j]
    ensures forall j :: 0 <= j < |players| ==> players[j].name == names[j]
  {
    DealHolesSpec(known, d, i);
    EmptyHolesStep(known, i);
    DealOne(players[i], deck, d, e);
    next := if known[i] == [] then e + 1 else e;
  }

  /**
   * One player of the deal of a trial, `2e` cards into the shuffled deck `d`:
   * without hole cards, they draw the next two.
   */
  method DealOne(p: Player, deck: Deck, ghost d: seq<Card>, ghost e: nat)
    requires Distinct(d) && 2 * e <= |d| && deck.cards == d[2 * e..]
    requires p.hole == [] ==> 2 * e + 1 < |d|
    modifies p, deck
    ensures p.name == old(p.name)
    ensures old(p.hole) == [] ==> p.hole == [d[2 * e], d[2 * e + 1]] && deck.cards == d[2 * (e + 1)..]
    ensures old(p.hole) != [] ==> p.hole == old(p.hole) && deck.cards == d[2 * e..]
  {
    if |p.hole| == 0 {
      var first := deck.Draw();
      p.AssignHole(first);
      var second := deck.Draw();
      p.AssignHole(second);
    }
  }

  /** The holes of a trial are two cards each, of valid suits. */
  lemma DealtReady(known: seq<seq<Card>>, order: seq<Card>)
    requires 2 * EmptyHoles(known) <= |order| && SuitsValid(order)
    requires forall i :: 0 <= i < |known| ==> (|known[i]| == 0 || |known[i]| == 2) && SuitsValid(known[i])
    ensures forall i :: 0 <= i < |known| ==>
              |DealHoles(known, order)[i]| == 2 && SuitsValid(DealHoles(known, order)[i])
  {
    forall i | 0 <= i < |known|
      ensures |DealHoles(known, order)[i]| == 2 && SuitsValid(DealHoles(known, order)[i])
    {
      DealHolesSpec(known, order, i);
    }
  }

  /**
   * The cards a trial needs fit in what is left of a deck of at least
   * `2n + 8` cards: whatever the board, its known cards, the burns and the
   * missing streets take eight cards, and each unknown hole two.
   */
  lemma {:induction false} RemainingBudget(deck: seq<Card>, holes: seq<seq<Card>>,
                                           flop: Option<seq<Card>>, turn: Option<seq<Card>>, river: Option<seq<Card>>)
    requires Distinct(deck) && |deck| >= 2 * |holes| + 8
    requires forall i :: 0 <= i < |holes| ==> |holes[i]| == 0 || |holes[i]| == 2
    requires flop.Some? ==> |flop.value| == 3
    requires turn.Some? ==> flop.Some? && |turn.value| == 1
    requires river.Some? ==> turn.Some? && |river.value| == 1
    ensures |RemoveEach(deck, Flatten(holes) + Street(flop) + Street(turn) + Street(river))| >=
            2 * EmptyHoles(holes) + Burns(flop, turn, river) +
            StreetCardsDealt(Street(flop), Street(turn), Street(river))
  {
    RemoveEachSpec(deck, Flatten(holes) + Street(flop) + Street(turn) + Street(river));
    FlattenSize(holes);
  }

  /**
   * The deck of the trials, the solver's deck without the known cards, holds
   * different cards of valid suits, enough for every trial.
   */
  lemma TrialDeck(deck: seq<Card>, known: seq<seq<Card>>,
                  flop: Option<seq<Card>>, turn: Option<seq<Card>>, river: Option<seq<Card>>)
    requires Distinct(deck) && SuitsValid(deck) && |deck| >= 2 * |known| + 8
    requires forall i :: 0 <= i < |known| ==> |known[i]| == 0 || |known[i]| == 2
    requires flop.Some? ==> |flop.value| == 3
    requires turn.Some? ==> flop.Some? && |turn.value| == 1
    requires river.Some? ==> turn.Some? && |river.value| == 1
    requires SuitsValid(Street(flop)) && SuitsValid(Street(turn)) && SuitsValid(Street(river))
    ensures Stocked(RemoveEach(deck, Flatten(known) + (Street(flop) + Street(turn) + Street(river))),
                    Burns(flop, turn, river), (Street(flop), Street(turn), Street(river)), known)
  {
    var cs := Flatten(known) + (Street(flop) + Street(turn) + Street(river));
    assert cs == Flatten(known) + Street(flop) + Street(turn) + Street(river);
    RemainingBudget(deck, known, flop, turn, river);
    RemoveEachSpec(deck, cs);
    RemoveEachSuits(deck, cs);
  }

  // ---------------------------------------------------------------------
  // The solver
  // ---------------------------------------------------------------------

  class EquitySolver {
    var players: seq<Player>
    var flop: Option<seq<Card>>
    var turn: Option<seq<Card>>
    var river: Option<seq<Card>>
    var deck: Deck
    /** `None` until `calculateHandEquity` has run; then the count per name and under the chop key. */
    var handEquities: Option<map<string, nat>>

    /**
     * At most ten different players, seated as "Player 1", "Player 2", ... in
     * order, each holding no cards or two different ones; a flop of three
     * cards, a turn of one only after a flop and a river of one only after a
     * turn.
     */
    predicate Valid()
      reads this, players
    {
      |players| <= 10 && Distinct(players) &&
      (forall i :: 0 <= i < |players| ==>
         players[i].name == PlayerName(i + 1) && players[i].HoleValid() && |players[i].hole| != 1) &&
      (flop.Some? ==> |flop.value| == 3) &&
      (turn.Some? ==> flop.Some? && |turn.value| == 1) &&
      (river.Some? ==> turn.Some? && |river.value| == 1)
    }

    /** A valid table seats players under pairwise different names, the keys of the equity dict. */
    lemma ValidNamesDistinct()
      requires Valid()
      ensures forall i, j :: 0 <= i < j < |players| ==> players[i].name != players[j].name
    {
      forall i, j | 0 <= i < j < |players|
        ensures players[i].name != players[j].name
      {
        if players[i].name == players[j].name {
          PlayerNameInjective(i + 1, j + 1);
        }
      }
    }

    /** The known board, as `toString` assembles it. */
    function BoardCards(): seq<Card>
      reads this
    {
      Street(flop) + Street(turn) + Street(river)
    }

    /** The streets as `runSim` receives them, an unknown one empty. */
    function Streets(): (seq<Card>, seq<Card>, seq<Card>)
      reads this`flop, this`turn, this`river
    {
      (Street(flop), Street(turn), Street(river))
    }

    /** The deck of the trials: the solver's deck without the known hole and board cards. */
    function Remaining(): seq<Card>
      reads this, players, deck
    {
      RemoveEach(deck.cards, Flatten(Holes(players)) + BoardCards())
    }

    /** The number of players whose hole cards are dealt in each trial. */
    function Unknown(): nat
      reads this, players
    {
      EmptyHoles(Holes(players))
    }

    /** No players, no board, a fresh standard deck and no equities yet. */
    constructor()
      ensures players == [] && flop.None? && turn.None? && river.None? && handEquities.None?
      ensures fresh(deck) && deck.cards == StandardOrder()
      ensures Valid()
    {
      players := [];
      flop := None;
      turn := None;
      river := None;
      deck := new Deck([]);
      handEquities := None;
    }

    /**
     * `addPlayers`: seat `amnt` new players after the others, each named after
     * their seat, with the default stack and no cards; a table holds ten.
     */
    method AddPlayers(amnt: int)
      requires Valid() && |players| + amnt <= 10
      modifies this`players
      ensures Valid()
      ensures |players| == |old(players)| + (if amnt > 0 then amnt else 0)
      ensures players[..|old(players)|] == old(players)
      ensures forall i :: |old(players)| <= i < |players| ==>
                fresh(players[i]) && players[i].stack == 200 && players[i].hole == []
    {
      var count := if amnt > 0 then amnt else 0;
      for k := 0 to count
        invariant Valid() && |players| == |old(players)| + k
        invariant players[..|old(players)|] == old(players)
        invariant forall i :: |old(players)| <= i < |players| ==>
                    fresh(players[i]) && players[i].stack == 200 && players[i].hole == []
      {
        var p := new Player(PlayerName(|players| + 1), 200);
        players := players + [p];
      }
    }

    /** `removePlayers`: the last `amnt` players leave the table. */
    method RemovePlayers(amnt: int)
      requires Valid() && |players| - amnt >= 0
      modifies this`players
      ensures Valid()
      ensures players == old(players)[..|old(players)| - (if amnt > 0 then amnt else 0)]
    {
      var count := if amnt > 0 then amnt else 0;
      for k := 0 to count
        invariant players == old(players)[..|old(players)| - k]
      {
        players := players[..|players| - 1];
      }
    }

    /**
     * `defineHole`: the player named after seat `id` drops their cards and
     * bet and takes the two different cards of `hole`; nobody else changes.
     */
    method DefineHole(id: nat, hole: seq<Card>)
      requires Valid() && |hole| == 2 && !Equals(hole[0], hole[1])
      requires FindName(players, PlayerName(id)).Some?
      modifies players
      ensures Valid() && 1 <= id <= |players|
      ensures players[id - 1].hole == hole && players[id - 1].currentBet == 0
      ensures forall i :: 0 <= i < |players| ==>
                players[i].stack == old(players[i].stack) && players[i].hand == old(players[i].hand)
      ensures forall i :: 0 <= i < |players| && i != id - 1 ==>
                players[i].hole == old(players[i].hole) && players[i].currentBet == old(players[i].currentBet)
    {
      var seat := SeatOf(id);
      NewHole(seat, hole);
    }

    /** The seat of the player named after `id`: the `id`-th, counting from one. */
    method SeatOf(id: nat) returns (seat: nat)
      requires Valid() && FindName(players, PlayerName(id)).Some?
      ensures 1 <= id <= |players| && seat == id - 1
    {
      var index := Index(players, PlayerName(id));
      seat := index.value;
      assert players[seat].name == PlayerName(id) && players[seat].name == PlayerName(seat + 1);
      PlayerNameInjective(seat + 1, id);
    }

    /** The player at `seat` drops their cards and bet and takes `hole`. */
    method NewHole(seat: nat, hole: seq<Card>)
      requires Valid() && seat < |players| && |hole| == 2 && !Equals(hole[0], hole[1])
      modifies players[seat]
      ensures Valid()
      ensures players[seat].hole == hole && players[seat].currentBet == 0 && players[seat].stack == old(players[seat].stack)
      ensures players[seat].hand == old(players[seat].hand)
    {
      players[seat].ClearHole();
      players[seat].AssignHole(hole[0]);
      players[seat].AssignHole(hole[1]);
    }

    /** `clearHole`: the player named after seat `id` drops their cards and bet; nobody else changes. */
    method ClearHole(id: nat)
      requires Valid() && FindName(players, PlayerName(id)).Some?
      modifies players
      ensures Valid() && 1 <= id <= |players|
      ensures players[id - 1].hole == [] && players[id - 1].currentBet == 0
      ensures forall i :: 0 <= i < |players| ==>
                players[i].stack == old(players[i].stack) && players[i].hand == old(players[i].hand)
      ensures forall i :: 0 <= i < |players| && i != id - 1 ==>
                players[i].hole == old(players[i].hole) && players[i].currentBet == old(players[i].currentBet)
    {
      var seat := SeatOf(id);
      players[seat].ClearHole();
    }

    /** `defineDeck`: the solver deals from `d`, which must cover the players and the board. */
    method DefineDeck(d: Deck)
      requires Valid()
      requires |d.cards| >= 2 * |players| + 8
      modifies this`deck
      ensures Valid() && deck == d
    {
      deck := d;
    }

    /**
     * `defineBoard`: three to five cards become the flop, the turn and the
     * river, as many as there are; the known board is then exactly `board`.
     */
    method DefineBoard(board: seq<Card>)
      requires Valid() && 3 <= |board| <= 5
      modifies this`flop, this`turn, this`river
      ensures Valid() && BoardCards() == board
      ensures flop.Some? && (turn.Some? <==> |board| >= 4) && (river.Some? <==> |board| == 5)
    {
      flop := Some(board[..3]);
      turn := if |board| > 3 then Some([board[3]]) else None;
      river := if |board| > 4 then Some([board[4]]) else None;
      assert board == board[..3] + board[3..];
    }
    /**
     * What `calculateHandEquity` asks of the solver: players, at least two
     * cards per player and eight more in the deck, cards of valid suits and
     * a deck of different cards.
     */
    ghost predicate Calculable()
      reads this, players, deck
    {
      Valid() && |deck.cards| >= 2 * |players| + 8 && |players| > 0 &&
      Distinct(deck.cards) && SuitsValid(deck.cards) &&
      (forall i :: 0 <= i < |players| ==> SuitsValid(players[i].hole)) &&
      SuitsValid(Street(flop)) && SuitsValid(Street(turn)) && SuitsValid(Street(river))
    }

    /**
     * `calculateHandEquity`: the deck without the known cards, then `trials`
     * trials, each dealt from its own pair of shuffles and played out by
     * `runSim`; a trial every player won counts under the chop key, any
     * other counts once for each of its winners. The counts are kept and
     * returned (each equity is its count divided by `trials`).
     */
    method CalculateHandEquity(trials: int, orders: seq<(seq<Card>, seq<Card>)>)
      returns (equities: map<string, nat>, ghost outcomes: seq<seq<string>>, ghost hands: seq<seq<Hand>>,
               ghost boards: seq<seq<Card>>, ghost dealt: seq<seq<seq<Card>>>)
      requires trials > 0 && |orders| == trials && Calculable()
      requires forall t :: 0 <= t < trials ==> Shuffles(Remaining(), 2 * Unknown() + Burns(flop, turn, river), orders[t])
      modifies this`handEquities
      ensures handEquities == Some(equities) && Tallied(equities, outcomes, |players|)
      ensures |outcomes| == trials && AllPlayed(old(Holes(players)), Streets(), orders, outcomes, hands, boards, dealt)
    {
      var streets := Streets();
      equities, outcomes, hands, boards, dealt := Equities(orders, Holes(players), streets);
      handEquities := Some(equities);
    }

    /** The counts of `calculateHandEquity`, before they are kept. */
    method Equities(orders: seq<(seq<Card>, seq<Card>)>, ghost known: seq<seq<Card>>,
                    streets: (seq<Card>, seq<Card>, seq<Card>))
      returns (counts: map<string, nat>, ghost outcomes: seq<seq<string>>, ghost hands: seq<seq<Hand>>,
               ghost boards: seq<seq<Card>>, ghost dealt: seq<seq<seq<Card>>>)
      requires Calculable() && known == Holes(players) && streets == Streets()
      requires forall t :: 0 <= t < |orders| ==> Shuffles(Remaining(), 2 * Unknown() + Burns(flop, turn, river), orders[t])
      ensures Tallied(counts, outcomes, |players|)
      ensures |outcomes| == |orders| && AllPlayed(known, streets, orders, outcomes, hands, boards, dealt)
    {
      ghost var names := Names(|players|);
      ghost var rem, skip := Remaining(), 2 * Unknown() + Burns(flop, turn, river);
      var temp, start, burns := Setup(known);
      TableSeated(known, names);
      TrialDeck(deck.cards, known, flop, turn, river);
      counts, outcomes, hands, boards, dealt := Trials(players, temp, burns, streets, orders, start, known, names, rem, skip);
    }

    /** The solver's players, seen as the table every trial copies. */
    lemma TableSeated(known: seq<seq<Card>>, names: seq<string>)
      requires Valid() && |players| > 0 && forall i :: 0 <= i < |players| ==> SuitsValid(players[i].hole)
      requires known == Holes(players) && names == Names(|players|)
      ensures Seated(players, known, names)
    {
      NamesDistinct(|players|);
      forall i | 0 <= i < |players|
        ensures players[i].name == names[i] && players[i].hole == known[i]
        ensures (|known[i]| == 0 || |known[i]| == 2) && SuitsValid(known[i])
      {}
    }

    /**
     * The start of `calculateHandEquity`: a copy of the deck without the known
     * hole cards, player by player, and then without the known board cards;
     * a zero count under every player's name and under the chop key; and one
     * burn per known street.
     */
    method Setup(ghost holes: seq<seq<Card>>) returns (temp: Deck, counts: map<string, nat>, burns: nat)
      requires Valid() && holes == Holes(players)
      ensures fresh(temp) && temp.cards == RemoveEach(deck.cards, Flatten(holes) + BoardCards())
      ensures Tallied(counts, [], |players|)
      ensures burns == Burns(flop, turn, river)
    {
      ghost var board, d := BoardCards(), deck.cards;
      RemoveEachAppend(d, Flatten(holes), board);
      temp := new Deck.Copy(deck);
      counts := RemoveHoles(temp, d, holes);
      burns := RemoveBoard(temp);
      assert deck.cards == d && BoardCards() == board;
    }

    /**
     * The loop over the players of `calculateHandEquity`: a zero count each,
     * and their known cards out of `temp`; then a zero count under the chop key.
     */
    method RemoveHoles(temp: Deck, ghost d: seq<Card>, ghost holes: seq<seq<Card>>) returns (counts: map<string, nat>)
      requires Valid() && temp.cards == d && holes == Holes(players)
      modifies temp
      ensures temp.cards == RemoveEach(d, Flatten(holes))
      ensures Tallied(counts, [], |players|)
    {
      counts := map[];
      assert holes[..0] == [];
      for i := 0 to |players|
        invariant temp.cards == RemoveEach(d, Flatten(holes[..i]))
        invariant forall k :: k in counts <==> k in Names(i)
        invariant forall k :: k in counts ==> counts[k] == 0
      {
        NamesSnoc(i);
        FlattenStep(holes, i);
        counts := counts[players[i].name := 0];
        RemoveHole(temp, players[i].hole, d, Flatten(holes[..i]));
      }
      assert holes[..|players|] == holes;
      counts := counts[Chop := 0];
      TalliedZero(counts, |players|);
    }

    /** The known streets out of `temp`, in order, with one burn each. */
    method RemoveBoard(temp: Deck) returns (burns: nat)
      requires (flop.Some? ==> |flop.value| == 3) && (turn.Some? ==> |turn.value| == 1) && (river.Some? ==> |river.value| == 1)
      modifies temp
      ensures temp.cards == RemoveEach(old(temp.cards), BoardCards())
      ensures burns == Burns(flop, turn, river)
    {
      ghost var start := temp.cards;
      var removed: bool;
      burns := 0;
      if flop.Some? {
        RemoveCards(temp, flop.value);
        burns := burns + 1;
      }
      if turn.Some? {
        RemoveEachSnoc(start, Street(flop), turn.value[0]);
        assert Street(flop) + Street(turn) == Street(flop) + [turn.value[0]];
        removed := temp.Remove(turn.value[0]);
        burns := burns + 1;
      } else {
        assert Street(flop) + Street(turn) == Street(flop);
      }
      if river.Some? {
        RemoveEachSnoc(start, Street(flop) + Street(turn), river.value[0]);
        assert BoardCards() == Street(flop) + Street(turn) + [river.value[0]];
        removed := temp.Remove(river.value[0]);
        burns := burns + 1;
      } else {
        assert BoardCards() == Street(flop) + Street(turn);
      }
    }

  }
}
