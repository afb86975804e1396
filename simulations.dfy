/**
 * One simulated hand: the board the flop, turn and river make, every
 * player's made hand against it and the winners; and `runSim`, which shuffles
 * a deck, deals the hole cards round by round and then the streets that were
 * not supplied.
 */
module Simulations {
  import opened Wrappers
  import opened ListOps
  import opened Cards
  import opened HandOrder
  import opened HandRanks
  import opened MadeHand
  import opened HandFacts
  import opened Decks
  import opened Strings
  import opened Players

  /** Every player holds as many hole cards as the first, all of known suits. */
  predicate HolesReady(players: seq<Player>)
    reads players
  {
    |players| >= 1 &&
    forall i :: 0 <= i < |players| ==> SuitsValid(players[i].hole) && |players[i].hole| == |players[0].hole|
  }

  lemma SuitsValidConcat(a: seq<Card>, b: seq<Card>)
    requires SuitsValid(a) && SuitsValid(b)
    ensures SuitsValid(a + b)
  {
    forall i | 0 <= i < |a + b|
      ensures (a + b)[i].suit in SuitChars
    {
      if i < |a| { assert (a + b)[i] == a[i]; } else { assert (a + b)[i] == b[i - |a|]; }
    }
  }

  /** Suits stay valid under reordering. */
  lemma SuitsValidPermutation(a: seq<Card>, b: seq<Card>)
    requires SuitsValid(a) && multiset(a) == multiset(b)
    ensures SuitsValid(b)
  {
    forall i | 0 <= i < |b|
      ensures b[i].suit in SuitChars
    {
      assert b[i] in multiset(a);
      var j :| 0 <= j < |a| && a[j] == b[i];
    }
  }

  /**
   * The seating of `runSim` when no players are supplied: `n` new players
   * named "Player 1" to "Player n", with the default stack of 200 and no cards.
   */
  method SeatPlayers(n: nat) returns (players: seq<Player>)
    ensures |players| == n && Distinct(players)
    ensures forall i :: 0 <= i < n ==> fresh(players[i])
    ensures forall i :: 0 <= i < n ==>
              players[i].name == PlayerName(i + 1) && players[i].stack == 200 && players[i].hole == []
  {
    players := [];
    for i := 0 to n
      invariant |players| == i && Distinct(players)
      invariant forall j :: 0 <= j < i ==> fresh(players[j])
      invariant forall j :: 0 <= j < i ==>
                  players[j].name == PlayerName(j + 1) && players[j].stack == 200 && players[j].hole == []
    {
      var p := new Player(PlayerName(i + 1), 200);
      players := players + [p];
    }
  }

  /**
   * One round of the deal of `runSim`: each player in turn takes the top card
   * of the deck.
   */
  method DealRound(players: seq<Player>, deck: Deck)
    requires Distinct(players) && |deck.cards| >= |players|
    requires forall i :: 0 <= i < |players| ==>
               |players[i].hole| < 2 && (|players[i].hole| == 0 || players[i].hole[0] != deck.cards[i])
    modifies deck, set p | p in players
    ensures deck.cards == old(deck.cards)[|players|..]
    ensures forall i :: 0 <= i < |players| ==>
              players[i].hole == old(players[i].hole) + [old(deck.cards)[i]] &&
              players[i].name == old(players[i].name) && players[i].stack == old(players[i].stack)
  {
    for i := 0 to |players|
      invariant deck.cards == old(deck.cards)[i..]
      invariant forall j :: 0 <= j < i ==>
                  players[j].hole == old(players[j].hole) + [old(deck.cards)[j]]
      invariant forall j :: i <= j < |players| ==> players[j].hole == old(players[j].hole)
      invariant forall j :: 0 <= j < |players| ==>
                  players[j].name == old(players[j].name) && players[j].stack == old(players[j].stack)
    {
      var c := deck.Draw();
      players[i].AssignHole(c);
    }
  }

  /**
   * The loop of the constructor: every player identifies their hand against
   * `board`; names and hole cards stay as they were.
   */
  method IdentifyAll(players: seq<Player>, board: seq<Card>)
    requires |board| == 5 && SuitsValid(board)
    requires forall i :: 0 <= i < |players| ==> SuitsValid(players[i].hole)
    modifies set p | p in players
    ensures forall i :: 0 <= i < |players| ==>
              players[i].name == old(players[i].name) && players[i].hole == old(players[i].hole)
    ensures forall i {:trigger players[i].hand} :: 0 <= i < |players| ==> players[i].hand == Some(HandOf(board + players[i].hole))
  {
    for i := 0 to |players|
      invariant forall j :: 0 <= j < |players| ==>
                  players[j].name == old(players[j].name) && players[j].hole == old(players[j].hole)
      invariant forall j :: 0 <= j < i ==> players[j].hand == Some(HandOf(board + players[j].hole))
    {
      SuitsValidConcat(board, players[i].hole);
      players[i].IdentifyHand(board);
    }
  }

  /**
   * The work of the constructor: every player identifies their hand against
   * `board`, then `winner` picks the winners, whose seats `at` lists in order.
   */
  method Showdown(players: seq<Player>, board: seq<Card>) returns (top: seq<Player>, ghost at: seq<nat>)
    requires |board| == 5 && SuitsValid(board) && HolesReady(players)
    modifies set p | p in players
    ensures forall i :: 0 <= i < |players| ==>
              players[i].name == old(players[i].name) && players[i].hole == old(players[i].hole)
    ensures forall i {:trigger players[i].hand} :: 0 <= i < |players| ==> players[i].hand == Some(HandOf(board + players[i].hole))
    ensures AreWinners(players, top)
    ensures |at| == |top| && forall k :: 0 <= k < |at| ==> at[k] < |players| && top[k] == players[at[k]]
    ensures forall k, l :: 0 <= k < l < |at| ==> at[k] < at[l]
  {
    IdentifyAll(players, board);
    top, at := Winner(players);
    WinnerResult(players, top, at);
  }

  class Simulation {
    var flop: seq<Card>
    var turn: seq<Card>
    var river: seq<Card>
    var board: seq<Card>
    var players: seq<Player>
    var winners: seq<Player>
    /** The name of the winning hand. */
    var highHand: string
    /** The seats of the winners, in increasing order. */
    ghost var at: seq<nat>

    /**
     * Assemble the board, identify every player's hand against it and pick
     * the winners: exactly the players holding the first winner's hand, which
     * no player's hand beats.
     */
    constructor(flop: seq<Card>, turn: seq<Card>, river: seq<Card>, players: seq<Player>)
      requires |flop| == 3 && |turn| == 1 && |river| == 1
      requires SuitsValid(flop + turn + river) && HolesReady(players)
      modifies set p | p in players
      ensures this.flop == flop && this.turn == turn && this.river == river && this.players == players
      ensures board == flop + turn + river && |board| == 5
      ensures forall i :: 0 <= i < |players| ==>
                players[i].name == old(players[i].name) && players[i].hole == old(players[i].hole)
      ensures forall i {:trigger players[i].hand} :: 0 <= i < |players| ==> players[i].hand == Some(HandOf(board + players[i].hole))
      ensures AreWinners(players, winners)
      ensures |at| == |winners| && forall k :: 0 <= k < |at| ==> at[k] < |players| && winners[k] == players[at[k]]
      ensures forall k, l :: 0 <= k < l < |at| ==> at[k] < at[l]
      ensures highHand == Name(winners[0].hand.value)
    {
      var cards := flop + turn + river;
      var top, at := Showdown(players, cards);
      this.flop := flop;
      this.turn := turn;
      this.river := river;
      board := cards;
      this.players := players;
      winners := top;
      this.at := at;
      highHand := Name(top[0].hand.value);
    }
  
    /**
     * `runSim`: shuffle the deck into `order`, seat and deal the players unless
     * they are supplied, deal the streets that are missing and play the hand out.
     */
    static method RunSim(playerCount: int, customDeck: Deck, customPlayers: seq<Player>,
                         customFlop: seq<Card>, customTurn: seq<Card>, customRiver: seq<Card>,
                         order: seq<Card>) returns (sim: Simulation)
      requires 1 <= playerCount <= 10
      requires customFlop == [] || |customFlop| == 3
      requires customTurn == [] || |customTurn| == 1
      requires customRiver == [] || |customRiver| == 1
      requires SuitsValid(customFlop) && SuitsValid(customTurn) && SuitsValid(customRiver)
      requires customPlayers != [] ==> HolesReady(customPlayers)
      requires SuitsValid(customDeck.cards)
      requires |customDeck.cards| >= HoleCardsDealt(playerCount, customPlayers) + StreetCardsDealt(customFlop, customTurn, customRiver)
      requires |order| == |customDeck.cards| && multiset(order) == multiset(customDeck.cards)
      requires customPlayers == [] ==> forall i :: 0 <= i < playerCount ==> order[i] != order[playerCount + i]
      modifies customDeck, set p | p in customPlayers
      ensures fresh(sim)
      ensures customPlayers != [] ==>
                (sim.players == customPlayers &&
                 forall i :: 0 <= i < |customPlayers| ==>
                   customPlayers[i].name == old(customPlayers[i].name) && customPlayers[i].hole == old(customPlayers[i].hole))
      ensures customPlayers == [] ==>
                (|sim.players| == playerCount &&
                 forall i :: 0 <= i < playerCount ==>
                   fresh(sim.players[i]) && sim.players[i].name == PlayerName(i + 1) &&
                   sim.players[i].hole == [order[i], order[playerCount + i]])
      ensures Runout(order[HoleCardsDealt(playerCount, customPlayers)..], customFlop, customTurn, customRiver) ==
                (sim.flop, sim.turn, sim.river)
      ensures customDeck.cards ==
                order[HoleCardsDealt(playerCount, customPlayers) + StreetCardsDealt(customFlop, customTurn, customRiver)..]
      ensures sim.board == sim.flop + sim.turn + sim.river && |sim.board| == 5
      ensures forall i {:trigger sim.players[i].hand} :: 0 <= i < |sim.players| ==>
                sim.players[i].hand == Some(HandOf(sim.board + sim.players[i].hole))
      ensures AreWinners(sim.players, sim.winners)
      ensures |sim.at| == |sim.winners| &&
              forall k :: 0 <= k < |sim.at| ==> sim.at[k] < |sim.players| && sim.winners[k] == sim.players[sim.at[k]]
      ensures forall k, l :: 0 <= k < l < |sim.at| ==> sim.at[k] < sim.at[l]
    {
      var players, flop, turn, river :=
        Prepare(playerCount, customDeck, customPlayers, customFlop, customTurn, customRiver, order);
      sim := new Simulation(flop, turn, river, players);
    }
  }

  /**
   * Everything `runSim` does before playing the hand out: shuffle the deck into
   * `order`, seat and deal the players unless they are supplied (one card
   * each, twice round the table) and deal the missing streets.
   */
  method Prepare(playerCount: int, customDeck: Deck, customPlayers: seq<Player>,
                 customFlop: seq<Card>, customTurn: seq<Card>, customRiver: seq<Card>,
                 order: seq<Card>) returns (players: seq<Player>, flop: seq<Card>, turn: seq<Card>, river: seq<Card>)
    requires 1 <= playerCount <= 10
    requires customFlop == [] || |customFlop| == 3
    requires customTurn == [] || |customTurn| == 1
    requires customRiver == [] || |customRiver| == 1
    requires SuitsValid(customFlop) && SuitsValid(customTurn) && SuitsValid(customRiver)
    requires customPlayers != [] ==> HolesReady(customPlayers)
    requires SuitsValid(customDeck.cards)
    requires |customDeck.cards| >= HoleCardsDealt(playerCount, customPlayers) + StreetCardsDealt(customFlop, customTurn, customRiver)
    requires |order| == |customDeck.cards| && multiset(order) == multiset(customDeck.cards)
    requires customPlayers == [] ==> forall i :: 0 <= i < playerCount ==> order[i] != order[playerCount + i]
    modifies customDeck
    ensures customPlayers != [] ==> players == customPlayers
    ensures customPlayers == [] ==>
              (|players| == playerCount &&
               forall i :: 0 <= i < playerCount ==>
                 fresh(players[i]) && players[i].name == PlayerName(i + 1) &&
                 players[i].hole == [order[i], order[playerCount + i]])
    ensures HolesReady(players)
    ensures Runout(order[HoleCardsDealt(playerCount, customPlayers)..], customFlop, customTurn, customRiver) ==
              (flop, turn, river)
    ensures customDeck.cards ==
              order[HoleCardsDealt(playerCount, customPlayers) + StreetCardsDealt(customFlop, customTurn, customRiver)..]
    ensures |flop| == 3 && |turn| == 1 && |river| == 1 && SuitsValid(flop + turn + river)
  {
    SuitsValidPermutation(customDeck.cards, order);
    customDeck.Shuffle(order);
    if customPlayers != [] {
      players := customPlayers;
    } else {
      players := SeatAndDeal(playerCount, customDeck);
    }
    flop, turn, river := DealStreets(customDeck, customFlop, customTurn, customRiver);
  }

  /**
   * The deal of `runSim` when no players are supplied: seat `n` players, then
   * give each one card, twice round the table.
   */
  method SeatAndDeal(n: nat, deck: Deck) returns (players: seq<Player>)
    requires 1 <= n && 2 * n <= |deck.cards| && SuitsValid(deck.cards)
    requires forall i :: 0 <= i < n ==> deck.cards[i] != deck.cards[n + i]
    modifies deck
    ensures deck.cards == old(deck.cards)[2 * n..]
    ensures |players| == n && Distinct(players) && HolesReady(players)
    ensures forall i :: 0 <= i < n ==>
              fresh(players[i]) && players[i].name == PlayerName(i + 1) &&
              players[i].hole == [old(deck.cards)[i], old(deck.cards)[n + i]]
  {
    ghost var order := deck.cards;
    players := SeatPlayers(n);
    DealRound(players, deck);
    DealRound(players, deck);
    forall i | 0 <= i < n
      ensures SuitsValid(players[i].hole)
    {
      assert order[i].suit in SuitChars && order[n + i].suit in SuitChars;
    }
  }

  /**
   * The streets of `runSim`: the supplied ones, and the missing ones dealt
   * from `deck` as `Runout` describes.
   */
  method DealStreets(deck: Deck, customFlop: seq<Card>, customTurn: seq<Card>, customRiver: seq<Card>)
    returns (flop: seq<Card>, turn: seq<Card>, river: seq<Card>)
    requires customFlop == [] || |customFlop| == 3
    requires customTurn == [] || |customTurn| == 1
    requires customRiver == [] || |customRiver| == 1
    requires SuitsValid(customFlop) && SuitsValid(customTurn) && SuitsValid(customRiver)
    requires SuitsValid(deck.cards) && |deck.cards| >= StreetCardsDealt(customFlop, customTurn, customRiver)
    modifies deck
    ensures (flop, turn, river) == Runout(old(deck.cards), customFlop, customTurn, customRiver)
    ensures deck.cards == old(deck.cards)[StreetCardsDealt(customFlop, customTurn, customRiver)..]
    ensures |flop| == 3 && |turn| == 1 && |river| == 1 && SuitsValid(flop + turn + river)
  {
    ghost var d := deck.cards;
    if customFlop != [] {
      flop := customFlop;
      if customTurn != [] {
        turn := customTurn;
        if customRiver != [] {
          river := customRiver;
        } else {
          river := deck.DealTurnRiver();
        }
      } else {
        turn := deck.DealTurnRiver();
        river := deck.DealTurnRiver();
      }
    } else {
      flop := deck.DealFlop();
      turn := deck.DealTurnRiver();
      river := deck.DealTurnRiver();
    }
    assert SuitsValid(flop) && SuitsValid(turn) && SuitsValid(river) by {
      assert forall i :: 0 <= i < |d| ==> d[i].suit in SuitChars;
    }
    SuitsValidConcat(flop, turn);
    SuitsValidConcat(flop + turn, river);
  }

  /**
   * The flop, turn and river of a hand: a flop is dealt only when none is
   * supplied, and then the turn and river are dealt too; with a supplied flop
   * the turn is dealt unless supplied and then the river too; with a supplied
   * turn the river is dealt unless supplied. A dealt street is the card after
   * a burn: the flop `d[1..4]`, then the card two places further on.
   */
  function Runout(d: seq<Card>, customFlop: seq<Card>, customTurn: seq<Card>, customRiver: seq<Card>)
    : (r: (seq<Card>, seq<Card>, seq<Card>))
    requires customFlop == [] || |customFlop| == 3
    requires customTurn == [] || |customTurn| == 1
    requires customRiver == [] || |customRiver| == 1
    requires |d| >= StreetCardsDealt(customFlop, customTurn, customRiver)
    ensures |r.0| == 3 && |r.1| == 1 && |r.2| == 1
    ensures customFlop != [] ==> r.0 == customFlop
    ensures customFlop != [] && customTurn != [] ==> r.1 == customTurn
    ensures customFlop != [] && customTurn != [] && customRiver != [] ==> r.2 == customRiver
  {
    if customFlop == [] then (d[1..4], [d[5]], [d[7]])
    else if customTurn == [] then (customFlop, [d[1]], [d[3]])
    else if customRiver == [] then (customFlop, customTurn, [d[1]])
    else (customFlop, customTurn, customRiver)
  }

  /** The number of cards `runSim` deals for the hole cards. */
  function HoleCardsDealt(playerCount: int, customPlayers: seq<Player>): (r: nat)
    ensures r % 2 == 0 && (r == 0 <==> customPlayers != [] || playerCount <= 0)
  {
    if customPlayers == [] && playerCount > 0 then 2 * playerCount else 0
  }

  /** The missing streets are dealt from the first `StreetCardsDealt` cards only. */
  lemma RunoutReadsDealt(d: seq<Card>, e: seq<Card>, customFlop: seq<Card>, customTurn: seq<Card>, customRiver: seq<Card>)
    requires customFlop == [] || |customFlop| == 3
    requires customTurn == [] || |customTurn| == 1
    requires customRiver == [] || |customRiver| == 1
    requires |d| >= StreetCardsDealt(customFlop, customTurn, customRiver) && |e| >= StreetCardsDealt(customFlop, customTurn, customRiver)
    requires d[..StreetCardsDealt(customFlop, customTurn, customRiver)] == e[..StreetCardsDealt(customFlop, customTurn, customRiver)]
    ensures Runout(d, customFlop, customTurn, customRiver) == Runout(e, customFlop, customTurn, customRiver)
  {
    var k := StreetCardsDealt(customFlop, customTurn, customRiver);
    forall i | 0 <= i < k
      ensures d[i] == e[i]
    {
      assert d[..k][i] == e[..k][i];
    }
    if customFlop == [] {
      assert d[1..4] == e[1..4];
    }
  }

  /** The number of cards dealing the missing streets takes, burns included. */
  function StreetCardsDealt(customFlop: seq<Card>, customTurn: seq<Card>, customRiver: seq<Card>): (r: nat)
    ensures r == (if customFlop == [] then 4 else 0) +
                 (if customFlop == [] || customTurn == [] then 2 else 0) +
                 (if customFlop == [] || customTurn == [] || customRiver == [] then 2 else 0)
  {
    if customFlop == [] then 8
    else if customTurn == [] then 4
    else if customRiver == [] then 2
    else 0
  }
}
