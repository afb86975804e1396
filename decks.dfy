/**
 * The deck: an ordered list of cards, the top card first, changed in place by
 * removing, appending, drawing and burning, and refilled with the standard
 * 52 cards (suits in `s h d c` order, ranks 2 to 14 within each suit).
 */
module Decks {
  import opened ListOps
  import opened Cards

  /** The standard deck order the nested loops over the suit and rank tables produce. */
  function StandardOrder(): (d: seq<Card>)
    ensures |d| == 52
  {
    seq(52, i requires 0 <= i < 52 => Card(SuitChars[i / 13], i % 13 + 2))
  }

  /** Position `13 * s + (r - 2)` holds suit `s` of the table and rank `r`. */
  lemma StandardAt(s: nat, r: int)
    requires s < |SuitChars| && ValidRank(r)
    ensures 13 * s + (r - 2) < 52 && StandardOrder()[13 * s + (r - 2)] == Card(SuitChars[s], r)
  {
    var i := 13 * s + (r - 2);
    assert i / 13 == s && i % 13 == r - 2 by {
      if s == 0 { } else if s == 1 { } else if s == 2 { } else { }
    }
  }

  /** Every card of the standard deck is a valid card. */
  lemma StandardValid()
    ensures forall i :: 0 <= i < 52 ==> ValidCard(StandardOrder()[i])
  {
  }

  /** Every valid card occurs in the standard deck. */
  lemma StandardComplete(c: Card)
    requires ValidCard(c)
    ensures c in StandardOrder()
  {
    var s := FirstIndex(SuitChars, c.suit);
    StandardAt(s, c.rank);
  }

  /** The 52 cards of the standard deck are pairwise different. */
  lemma StandardDistinct()
    ensures Distinct(StandardOrder())
  {
    var d := StandardOrder();
    forall i, j | 0 <= i < j < 52
      ensures d[i] != d[j]
    {
      if i / 13 == j / 13 {
        assert i % 13 != j % 13;
        assert d[i].rank != d[j].rank;
      } else {
        assert SuitChars[i / 13] != SuitChars[j / 13];
      }
    }
  }

  /** The nested loops `for i in suits: for k in ranks: cards.append(Card(i, k))`. */
  method BuildStandard() returns (cards: seq<Card>)
    ensures cards == StandardOrder()
  {
    cards := [];
    for s := 0 to |SuitChars|
      invariant cards == StandardOrder()[..13 * s]
    {
      for k := 2 to 15
        invariant cards == StandardOrder()[..13 * s + (k - 2)]
      {
        StandardAt(s, k);
        assert StandardOrder()[..13 * s + (k - 2) + 1] ==
               StandardOrder()[..13 * s + (k - 2)] + [StandardOrder()[13 * s + (k - 2)]];
        cards := cards + [Card(SuitChars[s], k)];
      }
    }
    assert StandardOrder()[..52] == StandardOrder();
  }

  /** `list.remove` keeps a list of different cards different. */
  lemma RemoveFirstDistinct(s: seq<Card>, x: Card)
    requires Distinct(s) && x in s
    ensures Distinct(RemoveFirst(s, x))
  {
    var k := FirstIndex(s, x);
    var r := RemoveFirst(s, x);
    forall i, j | 0 <= i < j < |r|
      ensures r[i] != r[j]
    {
      var i' := if i < k then i else i + 1;
      var j' := if j < k then j else j + 1;
      assert r[i] == s[i'] && r[j] == s[j'];
    }
  }

  /** From a list of different cards, `list.remove(x)` takes out `x` and nothing else. */
  lemma RemoveFirstMembers(s: seq<Card>, x: Card, y: Card)
    requires Distinct(s) && x in s
    ensures y in RemoveFirst(s, x) <==> y in s && y != x
  {
    var k := FirstIndex(s, x);
    var r := RemoveFirst(s, x);
    if y in r {
      var i :| 0 <= i < |r| && r[i] == y;
      var i' := if i < k then i else i + 1;
      assert s[i'] == y && i' != k;
    }
    if y in s && y != x {
      var i :| 0 <= i < |s| && s[i] == y;
      if i < k { assert r[i] == y; } else { assert r[i - 1] == y; }
    }
  }

  class Deck {
    /** The cards, top of the deck first. */
    var cards: seq<Card>

    /** `Deck(cardStack)`: a copy of a non-empty stack, otherwise the standard 52 cards. */
    constructor(cardStack: seq<Card>)
      ensures cards == if |cardStack| > 0 then cardStack else StandardOrder()
    {
      var initial := cardStack;
      if |cardStack| == 0 {
        initial := BuildStandard();
      }
      cards := initial;
    }

    /** `copy.deepcopy(other)`: a new deck holding the same cards in the same order. */
    constructor Copy(other: Deck)
      ensures cards == other.cards
    {
      cards := other.cards;
    }

    /** The number of cards left. */
    method GetDepth() returns (n: nat)
      ensures n == |cards|
    {
      return |cards|;
    }

    /** Some card of the deck equals `card`. */
    method Contains(card: Card) returns (b: bool)
      ensures b <==> card in cards
    {
      b := Cards.Contains(cards, card);
    }

    /**
     * Remove the first card equal to `card`, if any; report whether one was
     * found. The order of the other cards is kept.
     */
    method Remove(card: Card) returns (removed: bool)
      modifies this
      ensures removed <==> card in old(cards)
      ensures cards == if removed then RemoveFirst(old(cards), card) else old(cards)
    {
      var i := 0;
      while i < |cards|
        invariant 0 <= i <= |cards| && cards == old(cards)
        invariant forall j :: 0 <= j < i ==> cards[j] != card
      {
        if Equals(cards[i], card) {
          assert FirstIndex(cards, card) == i;
          cards := cards[..i] + cards[i + 1..];
          return true;
        }
        i := i + 1;
      }
      return false;
    }

    /** Put `card` at the bottom of the deck. */
    method Add(card: Card)
      modifies this
      ensures cards == old(cards) + [card]
    {
      cards := cards + [card];
    }

    /** Take the top card. */
    method Draw() returns (c: Card)
      requires |cards| > 0
      modifies this
      ensures c == old(cards)[0] && cards == old(cards)[1..]
    {
      c := cards[0];
      cards := cards[1..];
    }

    /** Discard the top card. */
    method Burn()
      requires |cards| > 0
      modifies this
      ensures cards == old(cards)[1..]
    {
      cards := cards[1..];
    }

    /** Burn one card, then draw three. */
    method DealFlop() returns (flop: seq<Card>)
      requires |cards| >= 4
      modifies this
      ensures flop == old(cards)[1..4] && cards == old(cards)[4..]
    {
      Burn();
      var a := Draw();
      var b := Draw();
      var c := Draw();
      flop := [a, b, c];
    }

    /** Burn one card, then draw one. */
    method DealTurnRiver() returns (street: seq<Card>)
      requires |cards| >= 2
      modifies this
      ensures street == [old(cards)[1]] && cards == old(cards)[2..]
    {
      Burn();
      var a := Draw();
      street := [a];
    }

    /** `reset(cardStack)`: a non-empty stack becomes the deck, otherwise the standard 52 cards. */
    method Reset(cardStack: seq<Card>)
      modifies this
      ensures cards == if |cardStack| > 0 then cardStack else StandardOrder()
    {
      if |cardStack| > 0 {
        cards := cardStack;
      } else {
        cards := [];
        var standard := BuildStandard();
        cards := standard;
      }
    }

    /**
     * `shuffle`: the deck takes the order `order`, which must hold the same
     * cards; the random choice of that order is left to the caller.
     */
    method Shuffle(order: seq<Card>)
      requires multiset(order) == multiset(cards)
      modifies this
      ensures cards == order
    {
      cards := order;
    }
  }
}
