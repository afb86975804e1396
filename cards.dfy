/**
 * Playing cards: a suit character from `s h d c` and an integer rank from
 * 2 to 14, with the two-character notation "As", "Td", "2c" that the library
 * parses.
 */
module Cards {
  import opened Wrappers
  import opened ListOps

  /** The keys of the suit table, in the table's order. */
  const SuitChars: string := "shdc"
  /** The values of the rank table; rank `r` is written `RankChars[r - 2]`. */
  const RankChars: string := "23456789TJQKA"

  datatype Card = Card(suit: char, rank: int)

  predicate ValidSuit(u: char) { u in SuitChars }
  predicate ValidRank(r: int) { 2 <= r <= 14 }
  predicate ValidCard(c: Card) { ValidSuit(c.suit) && ValidRank(c.rank) }

  /** The rank table read forwards: the character of rank `r`. */
  function RankChar(r: int): (ch: char)
    requires ValidRank(r)
    ensures ch in RankChars
  {
    RankChars[r - 2]
  }

  /** No character of the rank table is listed twice. */
  lemma RankCharsDistinct()
    ensures forall i, j :: 0 <= i < j < |RankChars| ==> RankChars[i] != RankChars[j]
  {
  }

  /** The suit table lists four different keys, and the rank table thirteen characters. */
  lemma SuitCharsDistinct()
    ensures |SuitChars| == 4 && |RankChars| == 13
    ensures forall i, j :: 0 <= i < j < |SuitChars| ==> SuitChars[i] != SuitChars[j]
  {
  }

  /** The rank table read backwards: the key whose value is `ch`. */
  function RankOf(ch: char): (r: Option<int>)
    ensures r.Some? <==> ch in RankChars
    ensures r.Some? ==> ValidRank(r.value) && RankChar(r.value) == ch
  {
    if ch in RankChars then Some(FirstIndex(RankChars, ch) + 2) else None
  }

  /** Every rank is found again from its character. */
  lemma RankOfRankChar(r: int)
    requires ValidRank(r)
    ensures RankOf(RankChar(r)) == Some(r)
  {
    RankCharsDistinct();
    var k := FirstIndex(RankChars, RankChar(r));
    assert RankChars[k] == RankChars[r - 2];
  }

  /** The two-character notation of a card: rank character, then suit. */
  function Notation(c: Card): (s: string)
    requires ValidCard(c)
    ensures |s| == 2 && s[0] in RankChars && s[1] in SuitChars
  {
    [RankChar(c.rank), c.suit]
  }

  /**
   * Parses a card such as "As": exactly two characters, a rank character and
   * a suit key; `None` stands for the failed assertion.
   */
  function Generate(s: string): (r: Option<Card>)
    ensures r.Some? <==> |s| == 2 && s[0] in RankChars && s[1] in SuitChars
    ensures r.Some? ==> ValidCard(r.value) && r.value.suit == s[1] && RankChar(r.value.rank) == s[0]
  {
    if |s| == 2 && s[0] in RankChars && s[1] in SuitChars then
      Some(Card(s[1], RankOf(s[0]).value))
    else
      None
  }

  /** A rank character followed by a suit key parses to the card they name. */
  lemma GenerateOfChars(ch: char, u: char)
    requires ch in RankChars && u in SuitChars
    ensures Generate([ch, u]) == Some(Card(u, RankOf(ch).value))
  {
  }

  /** Printing a card and parsing it back gives the card. */
  lemma GenerateNotation(c: Card)
    requires ValidCard(c)
    ensures Generate(Notation(c)) == Some(c)
  {
    RankOfRankChar(c.rank);
  }

  lemma TwoChars(s: string)
    requires |s| == 2
    ensures s == [s[0], s[1]]
  {
  }

  /** A parsed card prints as the string it came from. */
  lemma NotationGenerate(s: string)
    requires Generate(s).Some?
    ensures Notation(Generate(s).value) == s
  {
    var c := Generate(s).value;
    assert c.suit == s[1] && RankChar(c.rank) == s[0];
    TwoChars(s);
  }

  /** Ten is written `T` and the ace, rank 14, `A`. */
  lemma FaceCharacters()
    ensures Generate("Ts") == Some(Card('s', 10))
    ensures Generate("Ah") == Some(Card('h', 14))
  {
    assert Notation(Card('s', 10)) == "Ts";
    GenerateNotation(Card('s', 10));
    assert Notation(Card('h', 14)) == "Ah";
    GenerateNotation(Card('h', 14));
  }

  /** Strings of the wrong length or with an unknown character are refused. */
  lemma MalformedRefused()
    ensures Generate("1s").None? && Generate("Ax").None? && Generate("As ").None?
  {
    assert '1' !in RankChars;
    assert 'x' !in SuitChars;
  }

  /** Two cards are equal when rank and suit both match. */
  function Equals(a: Card, b: Card): (r: bool)
    ensures r <==> a == b
  {
    a.rank == b.rank && a.suit == b.suit
  }

  /** Scans `cards` for one equal to `card`, stopping at the first. */
  method Contains(cards: seq<Card>, card: Card) returns (found: bool)
    ensures found <==> exists i :: 0 <= i < |cards| && Equals(cards[i], card)
  {
    for i := 0 to |cards|
      invariant forall j :: 0 <= j < i ==> !Equals(cards[j], card)
    {
      if Equals(cards[i], card) {
        return true;
      }
    }
    return false;
  }

  /** Every string of `strs` parses. */
  predicate AllParse(strs: seq<string>)
  {
    forall i :: 0 <= i < |strs| ==> Generate(strs[i]).Some?
  }

  /** `cards` is `strs` parsed element by element. */
  predicate ParsedAs(strs: seq<string>, cards: seq<Card>)
  {
    |cards| == |strs| && forall i :: 0 <= i < |strs| ==> Generate(strs[i]) == Some(cards[i])
  }

  /** Parsing one more string extends the parsed prefix by its card. */
  lemma ParsedAsSnoc(strs: seq<string>, cards: seq<Card>, i: nat, c: Card)
    requires i < |strs| && ParsedAs(strs[..i], cards) && Generate(strs[i]) == Some(c)
    ensures ParsedAs(strs[..i + 1], cards + [c])
  {
    var longer, more := strs[..i + 1], cards + [c];
    forall j | 0 <= j < i + 1
      ensures Generate(longer[j]) == Some(more[j])
    {
      if j < i {
        assert longer[j] == strs[..i][j] && more[j] == cards[j];
      }
    }
  }

  /** Parses each string in order; fails as soon as one fails. */
  method GenerateSet(strs: seq<string>) returns (r: Option<seq<Card>>)
    ensures r.Some? <==> AllParse(strs)
    ensures r.Some? ==> ParsedAs(strs, r.value)
  {
    var cards: seq<Card> := [];
    for i := 0 to |strs|
      invariant ParsedAs(strs[..i], cards)
    {
      var c := Generate(strs[i]);
      if c.None? {
        assert !AllParse(strs) by { assert Generate(strs[i]).None?; }
        return None;
      }
      ParsedAsSnoc(strs, cards, i, c.value);
      cards := cards + [c.value];
    }
    assert strs[..|strs|] == strs;
    assert AllParse(strs) by {
      forall j | 0 <= j < |strs| ensures Generate(strs[j]).Some? {
        assert Generate(strs[..|strs|][j]) == Some(cards[j]);
      }
    }
    return Some(cards);
  }

  /** Parses each group of strings in order; fails as soon as one fails. */
  method GenerateSetOfSets(groups: seq<seq<string>>) returns (r: Option<seq<seq<Card>>>)
    ensures r.Some? <==> forall i :: 0 <= i < |groups| ==> AllParse(groups[i])
    ensures r.Some? ==> |r.value| == |groups|
    ensures r.Some? ==> forall i :: 0 <= i < |groups| ==> ParsedAs(groups[i], r.value[i])
  {
    var output: seq<seq<Card>> := [];
    for i := 0 to |groups|
      invariant |output| == i
      invariant forall j :: 0 <= j < i ==> AllParse(groups[j]) && ParsedAs(groups[j], output[j])
    {
      var cards := GenerateSet(groups[i]);
      if cards.None? {
        return None;
      }
      output := output + [cards.value];
    }
    return Some(output);
  }
}
