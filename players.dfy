/**
 * A player: a name, a chip stack, up to two different hole cards, the bet of
 * the current round and, once the board is out, the made hand; and the
 * look-ups and the winner selection over a list of players.
 */
module Players {
  import opened Wrappers
  import opened Cards
  import opened HandOrder
  import opened HandRanks
  import opened MadeHand

  class Player {
    var name: string
    /** Chips are whole numbers here. */
    var stack: int
    var hole: seq<Card>
    var currentBet: int
    /** `None` until `identifyHand` has run. */
    var hand: Option<Hand>

    /** At most two hole cards, and two hole cards are different. */
    predicate HoleValid()
      reads this
    {
      |hole| <= 2 && (|hole| == 2 ==> hole[0] != hole[1])
    }

    /** A player with a positive stack, no cards and no bet. */
    constructor(name: string, chipStack: int)
      requires chipStack > 0
      ensures this.name == name && stack == chipStack && hole == [] && currentBet == 0 && hand.None?
      ensures HoleValid()
    {
      this.name := name;
      stack := chipStack;
      hole := [];
      currentBet := 0;
      hand := None;
    }

    /** `copy.deepcopy(other)`: a new player with the same name, stack, cards, bet and hand. */
    constructor Copy(other: Player)
      ensures name == other.name && stack == other.stack && hole == other.hole
      ensures currentBet == other.currentBet && hand == other.hand
    {
      name := other.name;
      stack := other.stack;
      hole := other.hole;
      currentBet := other.currentBet;
      hand := other.hand;
    }

    /** Pay `amount` out of the stack, which therefore stays non-negative. */
    method Bet(amount: int)
      requires 0 < amount <= stack
      modifies this
      ensures stack == old(stack) - amount && stack >= 0
      ensures name == old(name) && hole == old(hole) && currentBet == old(currentBet) && hand == old(hand)
    {
      stack := stack - amount;
    }

    /** Record a positive bet for the current round. */
    method UpdateCurrentBet(bet: int)
      requires bet > 0
      modifies this
      ensures currentBet == bet
      ensures name == old(name) && stack == old(stack) && hole == old(hole) && hand == old(hand)
    {
      currentBet := bet;
    }

    /** Add a positive amount to the stack. */
    method Augment(add: int)
      requires add > 0
      modifies this
      ensures stack == old(stack) + add && stack > old(stack)
      ensures name == old(name) && hole == old(hole) && currentBet == old(currentBet) && hand == old(hand)
    {
      stack := stack + add;
    }

    /** Give back the hole cards and clear the bet. */
    method ClearHole()
      modifies this
      ensures hole == [] && currentBet == 0 && HoleValid()
      ensures name == old(name) && stack == old(stack) && hand == old(hand)
    {
      hole := [];
      currentBet := 0;
    }

    /**
     * Take a hole card: at most two, and not the card already held. Whatever
     * the hole was before, it is valid afterwards.
     */
    method AssignHole(dealtCard: Card)
      requires |hole| < 2
      requires |hole| == 0 || !Equals(dealtCard, hole[0])
      modifies this
      ensures hole == old(hole) + [dealtCard] && HoleValid()
      ensures name == old(name) && stack == old(stack) && currentBet == old(currentBet) && hand == old(hand)
    {
      hole := hole + [dealtCard];
    }

    /** Evaluate the hole cards against a full board of five. */
    method IdentifyHand(board: seq<Card>)
      requires |board| == 5 && SuitsValid(board + hole)
      modifies this`hand
      ensures hand == Some(HandOf(board + hole))
    {
      StoreHand(board, hole);
    }

    /** Store the hand the board and the given hole cards make. */
    method StoreHand(board: seq<Card>, held: seq<Card>)
      requires |board| == 5 && SuitsValid(board + held)
      modifies this`hand
      ensures hand == Some(HandOf(board + held))
    {
      var h := CalculateHand(board, held);
      HandOfIsEvaluate(board + held);
      hand := Some(h);
    }
  }

  /** The position of the first player named `name` from position `i` on. */
  function FindNameFrom(players: seq<Player>, name: string, i: nat): (r: Option<nat>)
    requires i <= |players|
    reads players
    ensures r.Some? ==> i <= r.value < |players| && players[r.value].name == name
    ensures r.Some? ==> forall j :: i <= j < r.value ==> players[j].name != name
    ensures r.None? ==> forall j :: i <= j < |players| ==> players[j].name != name
    decreases |players| - i
  {
    if i == |players| then None
    else if players[i].name == name then Some(i)
    else FindNameFrom(players, name, i + 1)
  }

  /** The position of the first player named `name`. */
  function FindName(players: seq<Player>, name: string): (r: Option<nat>)
    reads players
    ensures r.Some? ==> r.value < |players| && players[r.value].name == name
    ensures r.Some? ==> forall j :: 0 <= j < r.value ==> players[j].name != name
    ensures r.None? <==> forall j :: 0 <= j < |players| ==> players[j].name != name
  {
    FindNameFrom(players, name, 0)
  }

  /** `Player.contains`: some player is named `name`. */
  method Contains(players: seq<Player>, name: string) returns (b: bool)
    ensures b <==> FindName(players, name).Some?
  {
    for i := 0 to |players|
      invariant forall j :: 0 <= j < i ==> players[j].name != name
    {
      if players[i].name == name {
        return true;
      }
    }
    return false;
  }

  /** `Player.index`: the position of the first player named `name`, if any. */
  method Index(players: seq<Player>, name: string) returns (r: Option<nat>)
    ensures r == FindName(players, name)
  {
    for i := 0 to |players|
      invariant FindName(players, name) == FindNameFrom(players, name, i)
    {
      if players[i].name == name {
        return Some(i);
      }
    }
    return None;
  }

  /** Every player has a hand, and any two hands can be compared. */
  predicate HandsComparable(players: seq<Player>)
    reads players
  {
    (forall i :: 0 <= i < |players| ==> players[i].hand.Some?) &&
    forall i, j :: 0 <= i < |players| && 0 <= j < |players| ==>
      Comparable(players[i].hand.value, players[j].hand.value)
  }

  /**
   * `top` is a winner list of `players`: its members are players holding the
   * first member's hand, every player holding that hand is a member, and no
   * player's hand beats it.
   */
  predicate AreWinners(players: seq<Player>, top: seq<Player>)
    reads players, top
  {
    |top| >= 1 && top[0].hand.Some? && top[0].hand.value.category < |HandNames| &&
    (forall k :: 0 <= k < |top| ==> top[k] in players && top[k].hand == top[0].hand) &&
    (forall i {:trigger players[i].hand} :: 0 <= i < |players| && players[i].hand == top[0].hand ==> players[i] in top) &&
    forall i {:trigger players[i].hand} :: 0 <= i < |players| ==>
      players[i].hand.Some? && Comparable(players[i].hand.value, top[0].hand.value) &&
      Compare(players[i].hand.value, top[0].hand.value) != -1
  }

  /** Every hand evaluated from cards has a named category. */
  predicate HandsNamed(players: seq<Player>)
    reads players
  {
    forall i :: 0 <= i < |players| ==> players[i].hand.Some? && players[i].hand.value.category < |HandNames|
  }

  /** What `winner` returns is a winner list. */
  lemma WinnerResult(players: seq<Player>, top: seq<Player>, at: seq<nat>)
    requires |players| >= 1 && HandsComparable(players) && HandsNamed(players)
    requires |top| >= 1 && |at| == |top|
    requires forall k :: 0 <= k < |at| ==> at[k] < |players| && top[k] == players[at[k]]
    requires forall i :: 0 <= i < |players| ==> (i in at <==> players[i].hand == top[0].hand)
    requires forall i :: 0 <= i < |players| ==> Compare(players[i].hand.value, top[0].hand.value) != -1
    ensures AreWinners(players, top)
  {
    forall i | 0 <= i < |players| && players[i].hand == top[0].hand
      ensures players[i] in top
    {
      var k :| 0 <= k < |at| && at[k] == i;
      assert top[k] == players[i];
    }
  }

  /**
   * Player `i` beats the best hand so far, which no earlier player beats:
   * then no player up to `i` beats player `i`, and no earlier player holds
   * player `i`'s hand.
   */
  lemma Overtake(players: seq<Player>, i: nat, b: nat)
    requires b < i < |players| && HandsComparable(players)
    requires forall j :: 0 <= j < i ==> Compare(players[j].hand.value, players[b].hand.value) != -1
    requires Compare(players[i].hand.value, players[b].hand.value) == -1
    ensures forall j :: 0 <= j <= i ==> Compare(players[j].hand.value, players[i].hand.value) != -1
    ensures forall j :: 0 <= j < i ==> players[j].hand != players[i].hand
  {
    var best, mine := players[b].hand.value, players[i].hand.value;
    forall j | 0 <= j < i
      ensures Compare(players[j].hand.value, mine) != -1
    {
      if Compare(players[j].hand.value, mine) == -1 {
        CompareTransitive(players[j].hand.value, mine, best);
      }
    }
    CompareSelf(mine);
  }

  /**
   * `winner`: keep the players tied with the best hand so far, restarting
   * whenever a stronger hand turns up. The result lists, in input order,
   * exactly the players whose hand equals the first winner's (`at` holds
   * their positions), and no player's hand beats it.
   */
  method Winner(players: seq<Player>) returns (top: seq<Player>, ghost at: seq<nat>)
    requires |players| >= 1 && HandsComparable(players)
    ensures |top| >= 1 && |at| == |top|
    ensures forall k :: 0 <= k < |at| ==> at[k] < |players| && top[k] == players[at[k]]
    ensures forall k, l :: 0 <= k < l < |at| ==> at[k] < at[l]
    ensures forall i :: 0 <= i < |players| ==> (i in at <==> players[i].hand == top[0].hand)
    ensures forall i :: 0 <= i < |players| ==> Compare(players[i].hand.value, top[0].hand.value) != -1
  {
    top, at := [players[0]], [0];
    CompareSelf(players[0].hand.value);
    var i := 1;
    while i < |players|
      invariant 1 <= i <= |players|
      invariant |top| == |at| >= 1 && at[0] < i && top[0] == players[at[0]]
      invariant forall k :: 0 <= k < |at| ==> at[k] < i && top[k] == players[at[k]]
      invariant forall k, l :: 0 <= k < l < |at| ==> at[k] < at[l]
      invariant forall j :: 0 <= j < i ==> (j in at <==> players[j].hand == top[0].hand)
      invariant forall j :: 0 <= j < i ==> Compare(players[j].hand.value, top[0].hand.value) != -1
    {
      var comparison := CompareTo(players[i].hand.value, top[0].hand.value);
      CompareZeroIff(players[i].hand.value, top[0].hand.value);
      if comparison == -1 {
        Overtake(players, i, at[0]);
        top, at := [players[i]], [i];
      } else if comparison == 0 {
        top, at := top + [players[i]], at + [i];
      }
      i := i + 1;
    }
  }

  /** Any two of the hands can be compared. */
  predicate AllComparable(hands: seq<Hand>)
  {
    forall i, j :: 0 <= i < |hands| && 0 <= j < |hands| ==> Comparable(hands[i], hands[j])
  }

  /** No hand of the list beats the `i`-th. */
  predicate Unbeaten(hands: seq<Hand>, i: nat)
    requires AllComparable(hands) && i < |hands|
  {
    forall j :: 0 <= j < |hands| ==> Compare(hands[j], hands[i]) != -1
  }

  /** The made hands of the players, in seat order. */
  function HandsOf(players: seq<Player>): (hands: seq<Hand>)
    requires forall i :: 0 <= i < |players| ==> players[i].hand.Some?
    reads players
    ensures |hands| == |players| && forall i :: 0 <= i < |players| ==> Some(hands[i]) == players[i].hand
    decreases |players|
  {
    if players == [] then []
    else HandsOf(players[..|players| - 1]) + [players[|players| - 1].hand.value]
  }

  /** A winner list holds exactly the players whose hand no player's hand beats. */
  lemma WinnersUnbeaten(players: seq<Player>, top: seq<Player>, i: nat)
    requires AreWinners(players, top) && i < |players| && AllComparable(HandsOf(players))
    ensures players[i] in top <==> Unbeaten(HandsOf(players), i)
  {
    var hands := HandsOf(players);
    if players[i] in top {
      WinnerUnbeaten(players, top, hands, i);
    }
    if Unbeaten(hands, i) {
      UnbeatenWinner(players, top, hands, i);
    }
  }

  /** A member of a winner list holds a hand no player's hand beats. */
  lemma WinnerUnbeaten(players: seq<Player>, top: seq<Player>, hands: seq<Hand>, i: nat)
    requires AreWinners(players, top) && i < |players| && players[i] in top
    requires |hands| == |players| && forall j :: 0 <= j < |players| ==> Some(hands[j]) == players[j].hand
    requires AllComparable(hands)
    ensures Unbeaten(hands, i)
  {
    var k :| 0 <= k < |top| && top[k] == players[i];
    assert Some(hands[i]) == top[0].hand;
  }

  /** A player whose hand no player's hand beats holds the winning hand. */
  lemma UnbeatenWinner(players: seq<Player>, top: seq<Player>, hands: seq<Hand>, i: nat)
    requires AreWinners(players, top) && i < |players|
    requires |hands| == |players| && forall j :: 0 <= j < |players| ==> Some(hands[j]) == players[j].hand
    requires AllComparable(hands) && Unbeaten(hands, i)
    ensures players[i] in top
  {
    var best := top[0].hand.value;
    var j0 :| 0 <= j0 < |players| && players[j0] == top[0];
    assert hands[j0] == best;
    assert Compare(hands[j0], hands[i]) != -1;
    assert players[i].hand == Some(hands[i]);
    assert Comparable(hands[i], best) && Compare(hands[i], best) != -1;
    CompareAntisymmetric(hands[i], best);
    CompareZeroIff(best, hands[i]);
    assert players[i].hand == top[0].hand;
  }

  /**
   * Increasing seats below `n` are all `n` seats exactly when every seat is
   * among them: the chop test of `calculateHandEquity` (as many winners as
   * players) means that every player won.
   */
  lemma {:induction false} AllSeatsIff(at: seq<nat>, n: nat)
    requires forall k :: 0 <= k < |at| ==> at[k] < n
    requires forall k, l :: 0 <= k < l < |at| ==> at[k] < at[l]
    ensures |at| == n <==> forall i :: 0 <= i < n ==> i in at
  {
    SeatsFromZero(at, |at|);
    if |at| == n {
      forall i | 0 <= i < n ensures i in at { assert at[i] >= i; SeatsAtMost(at, n, i); }
    }
    if forall i :: 0 <= i < n ==> i in at {
      SeatsExact(at, n, |at|);
      if n > 0 {
        assert n - 1 in at;
        var j :| 0 <= j < |at| && at[j] == n - 1;
      }
    }
  }

  /** The `k`-th of increasing seats is at least `k`. */
  lemma {:induction false} SeatsFromZero(at: seq<nat>, m: nat)
    requires m <= |at| && forall k, l :: 0 <= k < l < |at| ==> at[k] < at[l]
    ensures forall k :: 0 <= k < m ==> at[k] >= k
    decreases m
  {
    if m > 0 {
      SeatsFromZero(at, m - 1);
      if m >= 2 { assert at[m - 2] < at[m - 1]; }
    }
  }

  /** Of `n` increasing seats below `n`, the `i`-th is at most `i`. */
  lemma {:induction false} SeatsAtMost(at: seq<nat>, n: nat, i: nat)
    requires |at| == n && i < n && forall k :: 0 <= k < |at| ==> at[k] < n
    requires forall k, l :: 0 <= k < l < |at| ==> at[k] < at[l]
    ensures at[i] <= i
    decreases n - i
  {
    if i < n - 1 {
      SeatsAtMost(at, n, i + 1);
      assert at[i] < at[i + 1];
    }
  }

  /** Increasing seats that include every seat below `n` start 0, 1, 2, ... */
  lemma {:induction false} SeatsExact(at: seq<nat>, n: nat, m: nat)
    requires m <= |at| && forall k, l :: 0 <= k < l < |at| ==> at[k] < at[l]
    requires forall k :: 0 <= k < |at| ==> k <= at[k] < n
    requires forall i :: 0 <= i < n ==> i in at
    ensures forall k :: 0 <= k < m ==> at[k] == k
    decreases m
  {
    if m > 0 {
      SeatsExact(at, n, m - 1);
      var k := m - 1;
      assert k <= at[k] < n;
      assert k in at;
      var j :| 0 <= j < |at| && at[j] == k;
    }
  }
}
