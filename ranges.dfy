/**
 * Range notation: "77" for a pocket pair, "AKs" for two ranks of one suit,
 * "AKo" for two ranks of different suits. `generateRange` checks the notation
 * and expands every entry into the concrete two-card holdings it stands for,
 * entry after entry.
 */
module Ranges {
  import opened Wrappers
  import opened ListOps
  import opened Cards

  /** `combinations(s, 2)`: the pairs `(s[i], s[j])` with `i < j`, in index order. */
  function Combinations2(s: seq<char>): (r: seq<(char, char)>)
    ensures 2 * |r| == |s| * (|s| - 1)
    ensures forall k :: 0 <= k < |r| ==> exists i, j :: 0 <= i < j < |s| && r[k] == (s[i], s[j])
    decreases |s|
  {
    if |s| < 2 then []
    else seq(|s| - 1, j requires 0 <= j < |s| - 1 => (s[0], s[j + 1])) + Combinations2(s[1..])
  }

  /** The pairs `(s[i], x)` for every `x` of `s` at a position other than `i`. */
  function PermutationRow(s: seq<char>, i: nat): (r: seq<(char, char)>)
    requires i < |s|
    ensures |r| == |s| - 1
  {
    var others := s[..i] + s[i + 1..];
    seq(|others|, j requires 0 <= j < |others| => (s[i], others[j]))
  }

  /** The rows of `permutations(s, 2)` from first element `i` on. */
  function PermutationsFrom(s: seq<char>, i: nat): (r: seq<(char, char)>)
    requires i <= |s|
    decreases |s| - i
  {
    if i == |s| then [] else PermutationRow(s, i) + PermutationsFrom(s, i + 1)
  }

  /** `permutations(s, 2)`: the ordered pairs of elements at different positions, in index order. */
  function Permutations2(s: seq<char>): (r: seq<(char, char)>)
  {
    PermutationsFrom(s, 0)
  }

  /** The rows from `i` on hold `|s| - 1` ordered pairs per first element, each of two different positions. */
  lemma {:induction false} PermutationsFromShape(s: seq<char>, i: nat)
    requires i <= |s|
    ensures |PermutationsFrom(s, i)| == (|s| - i) * (|s| - 1)
    ensures forall k :: 0 <= k < |PermutationsFrom(s, i)| ==>
              exists a, b :: 0 <= a < |s| && 0 <= b < |s| && a != b && PermutationsFrom(s, i)[k] == (s[a], s[b])
    decreases |s| - i
  {
    if i < |s| {
      PermutationsFromShape(s, i + 1);
      var row, rest := PermutationRow(s, i), PermutationsFrom(s, i + 1);
      assert PermutationsFrom(s, i) == row + rest;
      assert |row| + (|s| - i - 1) * (|s| - 1) == (|s| - i) * (|s| - 1);
      forall k | 0 <= k < |row + rest|
        ensures exists a, b :: 0 <= a < |s| && 0 <= b < |s| && a != b && (row + rest)[k] == (s[a], s[b])
      {
        if k < |row| {
          var b := if k < i then k else k + 1;
          assert (row + rest)[k] == (s[i], s[b]);
        } else {
          assert (row + rest)[k] == rest[k - |row|];
        }
      }
    }
  }

  /** `permutations(s, 2)` holds `|s| * (|s| - 1)` ordered pairs, each of two different positions. */
  lemma Permutations2Shape(s: seq<char>)
    ensures |Permutations2(s)| == |s| * (|s| - 1)
    ensures forall k :: 0 <= k < |Permutations2(s)| ==>
              exists a, b :: 0 <= a < |s| && 0 <= b < |s| && a != b && Permutations2(s)[k] == (s[a], s[b])
  {
    PermutationsFromShape(s, 0);
  }

  /** The suited loop: each suit of the table, paired with itself. */
  function SameSuit(s: seq<char>): (r: seq<(char, char)>)
    ensures |r| == |s| && forall k :: 0 <= k < |s| ==> r[k] == (s[k], s[k])
  {
    seq(|s|, k requires 0 <= k < |s| => (s[k], s[k]))
  }

  /** The six unordered suit pairs, in the order `combinations` gives them. */
  const PairSuits: seq<(char, char)> :=
    [('s', 'h'), ('s', 'd'), ('s', 'c'), ('h', 'd'), ('h', 'c'), ('d', 'c')]

  /** The four suits, each paired with itself, in table order. */
  const SuitedSuits: seq<(char, char)> := [('s', 's'), ('h', 'h'), ('d', 'd'), ('c', 'c')]

  /** The twelve ordered pairs of different suits, in the order `permutations` gives them. */
  const OffSuits: seq<(char, char)> :=
    [('s', 'h'), ('s', 'd'), ('s', 'c'), ('h', 's'), ('h', 'd'), ('h', 'c'),
     ('d', 's'), ('d', 'h'), ('d', 'c'), ('c', 's'), ('c', 'h'), ('c', 'd')]

  /** `combinations(suits, 2)` over the suit table is `PairSuits`. */
  lemma SuitCombinations()
    ensures Combinations2(SuitChars) == PairSuits
  {
    assert SuitChars[1..] == "hdc";
    assert SuitChars[1..][1..] == "dc";
    assert SuitChars[1..][1..][1..] == "c";
  }

  /** The suited loop over the suit table is `SuitedSuits`. */
  lemma SuitDiagonal()
    ensures SameSuit(SuitChars) == SuitedSuits
  {
  }

  /** `permutations(suits, 2)` over the suit table is `OffSuits`. */
  lemma SuitPermutations()
    ensures Permutations2(SuitChars) == OffSuits
  {
    var s := SuitChars;
    assert s[..0] + s[1..] == "hdc";
    assert s[..1] + s[2..] == "sdc";
    assert s[..2] + s[3..] == "shc";
    assert s[..3] + s[4..] == "shd";
    assert PermutationRow(s, 0) == [('s', 'h'), ('s', 'd'), ('s', 'c')];
    assert PermutationRow(s, 1) == [('h', 's'), ('h', 'd'), ('h', 'c')];
    assert PermutationRow(s, 2) == [('d', 's'), ('d', 'h'), ('d', 'c')];
    assert PermutationRow(s, 3) == [('c', 's'), ('c', 'h'), ('c', 'd')];
    assert PermutationsFrom(s, 4) == [];
  }

  /**
   * The format check of `generateRange`: two equal rank characters, or three
   * characters ending in `s` or `o`; and the first two must be rank characters.
   */
  predicate ValidEntry(hand: string)
  {
    ((|hand| == 3 && (hand[2] == 's' || hand[2] == 'o')) || (|hand| == 2 && hand[0] == hand[1])) &&
    hand[0] in RankChars && hand[1] in RankChars
  }

  predicate ValidRange(range: seq<string>)
  {
    forall i :: 0 <= i < |range| ==> ValidEntry(range[i])
  }

  /** The suit pairs an entry is expanded over. */
  function SuitPairs(hand: string): (r: seq<(char, char)>)
    requires ValidEntry(hand)
  {
    if |hand| == 2 then PairSuits
    else if hand[2] == 's' then SuitedSuits
    else OffSuits
  }

  /** The card strings built for an entry: rank character then suit, for both cards. */
  function CaseStrings(hand: string): (r: seq<seq<string>>)
    requires ValidEntry(hand)
    ensures |r| == |SuitPairs(hand)|
  {
    CaseStringsOf(SuitPairs(hand), hand[0], hand[1])
  }

  /** Rank character `c0` with the first suit of each pair, `c1` with the second. */
  function CaseStringsOf(ps: seq<(char, char)>, c0: char, c1: char): (r: seq<seq<string>>)
    ensures |r| == |ps|
    ensures forall k :: 0 <= k < |ps| ==> r[k] == [[c0, ps[k].0], [c1, ps[k].1]]
  {
    seq(|ps|, k requires 0 <= k < |ps| => [[c0, ps[k].0], [c1, ps[k].1]])
  }

  /** The holdings an entry stands for: the first rank in the first suit, the second in the second. */
  function Combos(hand: string): (r: seq<seq<Card>>)
    requires ValidEntry(hand)
    ensures |r| == |SuitPairs(hand)|
    ensures forall k :: 0 <= k < |r| ==> |r[k]| == 2 && ValidCard(r[k][0]) && ValidCard(r[k][1])
  {
    SuitPairsValid(hand);
    CombosOf(SuitPairs(hand), RankOf(hand[0]).value, RankOf(hand[1]).value)
  }

  /** Rank `r0` in the first suit of each pair, rank `r1` in the second. */
  function CombosOf(ps: seq<(char, char)>, r0: int, r1: int): (r: seq<seq<Card>>)
    ensures |r| == |ps|
    ensures forall k :: 0 <= k < |ps| ==> r[k] == [Card(ps[k].0, r0), Card(ps[k].1, r1)]
  {
    seq(|ps|, k requires 0 <= k < |ps| => [Card(ps[k].0, r0), Card(ps[k].1, r1)])
  }

  /** The case strings of every entry, concatenated in input order. */
  function Enumerate(range: seq<string>): (r: seq<seq<string>>)
    requires ValidRange(range)
    decreases |range|
  {
    if range == [] then []
    else Enumerate(range[..|range| - 1]) + CaseStrings(range[|range| - 1])
  }

  /** The holdings of every entry, concatenated in input order. */
  function Expansion(range: seq<string>): (r: seq<seq<Card>>)
    requires ValidRange(range)
    ensures forall k :: 0 <= k < |r| ==> |r[k]| == 2 && ValidCard(r[k][0]) && ValidCard(r[k][1])
    decreases |range|
  {
    if range == [] then []
    else Expansion(range[..|range| - 1]) + Combos(range[|range| - 1])
  }

  /** Every suit pair of an entry is made of suit keys. */
  lemma SuitPairsValid(hand: string)
    requires ValidEntry(hand)
    ensures forall k :: 0 <= k < |SuitPairs(hand)| ==>
              SuitPairs(hand)[k].0 in SuitChars && SuitPairs(hand)[k].1 in SuitChars
  {
  }

  /** Two strings that each parse to a card parse, as a list, to those two cards. */
  lemma PairParses(s0: string, s1: string, x: Card, y: Card)
    requires Generate(s0) == Some(x) && Generate(s1) == Some(y)
    ensures ParsedAs([s0, s1], [x, y])
  {
  }

  /** Each pair of card strings parses to the matching holding. */
  lemma CaseStringsParse(ps: seq<(char, char)>, c0: char, c1: char)
    requires c0 in RankChars && c1 in RankChars
    requires forall k :: 0 <= k < |ps| ==> ps[k].0 in SuitChars && ps[k].1 in SuitChars
    ensures forall k :: 0 <= k < |ps| ==>
              ParsedAs(CaseStringsOf(ps, c0, c1)[k], CombosOf(ps, RankOf(c0).value, RankOf(c1).value)[k])
  {
    forall k | 0 <= k < |ps|
      ensures ParsedAs(CaseStringsOf(ps, c0, c1)[k], CombosOf(ps, RankOf(c0).value, RankOf(c1).value)[k])
    {
      GenerateOfChars(c0, ps[k].0);
      GenerateOfChars(c1, ps[k].1);
      PairParses([c0, ps[k].0], [c1, ps[k].1], Card(ps[k].0, RankOf(c0).value), Card(ps[k].1, RankOf(c1).value));
    }
  }

  /** Each case string of an entry parses to the matching holding. */
  lemma CaseParses(hand: string)
    requires ValidEntry(hand)
    ensures |CaseStrings(hand)| == |Combos(hand)|
    ensures forall k :: 0 <= k < |Combos(hand)| ==> ParsedAs(CaseStrings(hand)[k], Combos(hand)[k])
  {
    SuitPairsValid(hand);
    CaseStringsParse(SuitPairs(hand), hand[0], hand[1]);
  }

  /** The strings of a valid range parse, group by group, to its expansion. */
  lemma {:induction false} EnumerationParses(range: seq<string>)
    requires ValidRange(range)
    ensures |Enumerate(range)| == |Expansion(range)|
    ensures forall k :: 0 <= k < |Expansion(range)| ==> ParsedAs(Enumerate(range)[k], Expansion(range)[k])
    decreases |range|
  {
    if range != [] {
      var init, last := range[..|range| - 1], range[|range| - 1];
      EnumerationParses(init);
      CaseParses(last);
      var a, b := Enumerate(init), Expansion(init);
      var c, d := CaseStrings(last), Combos(last);
      forall k | 0 <= k < |b + d|
        ensures ParsedAs((a + c)[k], (b + d)[k])
      {
        if k < |b| {
          assert (a + c)[k] == a[k] && (b + d)[k] == b[k];
        } else {
          assert (a + c)[k] == c[k - |a|] && (b + d)[k] == d[k - |b|];
        }
      }
    }
  }

  /** Parsing is a function: strings parse to at most one list of cards. */
  lemma ParsedAsUnique(strs: seq<string>, a: seq<Card>, b: seq<Card>)
    requires ParsedAs(strs, a) && ParsedAs(strs, b)
    ensures a == b
  {
    assert forall i :: 0 <= i < |a| ==> Some(a[i]) == Generate(strs[i]) == Some(b[i]);
  }

  /** The cases of one entry: for each suit pair, the two card strings. */
  method EntryCases(hand: string) returns (cases: seq<seq<string>>)
    requires ValidEntry(hand)
    ensures cases == CaseStrings(hand)
  {
    var pairs := if |hand| == 2 then PairSuits
                 else if hand[2] == 's' then SuitedSuits
                 else OffSuits;
    cases := [];
    for k := 0 to |pairs|
      invariant cases == CaseStrings(hand)[..k]
    {
      cases := cases + [[[hand[0], pairs[k].0], [hand[1], pairs[k].1]]];
    }
    assert CaseStrings(hand)[..|pairs|] == CaseStrings(hand);
  }

  /** Strings that parse group by group to `expected` are turned into `expected`. */
  lemma ParsedGroupsUnique(groups: seq<seq<string>>, parsed: seq<seq<Card>>, expected: seq<seq<Card>>)
    requires |parsed| == |groups| == |expected|
    requires forall k :: 0 <= k < |groups| ==> ParsedAs(groups[k], parsed[k])
    requires forall k :: 0 <= k < |groups| ==> ParsedAs(groups[k], expected[k])
    ensures parsed == expected
  {
    forall k | 0 <= k < |groups|
      ensures parsed[k] == expected[k]
    {
      ParsedAsUnique(groups[k], parsed[k], expected[k]);
    }
  }

  /**
   * `generateRange`: check every entry, then build the case strings entry by
   * entry and parse them; `None` stands for a failed format check.
   */
  method GenerateRange(range: seq<string>) returns (r: Option<seq<seq<Card>>>)
    ensures r.Some? <==> ValidRange(range)
    ensures r.Some? ==> r.value == Expansion(range)
  {
    for i := 0 to |range|
      invariant forall j :: 0 <= j < i ==> ValidEntry(range[j])
    {
      if !ValidEntry(range[i]) {
        return None;
      }
    }
    var enumerations: seq<seq<string>> := [];
    for i := 0 to |range|
      invariant enumerations == Enumerate(range[..i])
    {
      var cases := EntryCases(range[i]);
      assert range[..i + 1][..i] == range[..i];
      enumerations := enumerations + cases;
    }
    assert range[..|range|] == range;
    EnumerationParses(range);
    var parsed := GenerateSetOfSets(enumerations);
    assert parsed.Some? by {
      forall k | 0 <= k < |enumerations| ensures AllParse(enumerations[k]) {
        assert ParsedAs(enumerations[k], Expansion(range)[k]);
      }
    }
    ParsedGroupsUnique(enumerations, parsed.value, Expansion(range));
    return parsed;
  }

  /** Expanding a concatenation of ranges concatenates their expansions. */
  lemma {:induction false} ExpansionAppend(a: seq<string>, b: seq<string>)
    requires ValidRange(a) && ValidRange(b)
    ensures ValidRange(a + b) && Expansion(a + b) == Expansion(a) + Expansion(b)
    decreases |b|
  {
    if b != [] {
      var init := b[..|b| - 1];
      assert (a + b)[..|a + b| - 1] == a + init;
      ExpansionAppend(a, init);
    } else {
      assert a + b == a;
    }
  }

  /** The six holdings of a pocket pair of rank `r`, in the order of `PairSuits`. */
  lemma PairCombos(r: int)
    ensures CombosOf(PairSuits, r, r) ==
              [[Card('s', r), Card('h', r)], [Card('s', r), Card('d', r)], [Card('s', r), Card('c', r)],
               [Card('h', r), Card('d', r)], [Card('h', r), Card('c', r)], [Card('d', r), Card('c', r)]]
    ensures Distinct(CombosOf(PairSuits, r, r))
    ensures forall k :: 0 <= k < 6 ==> CombosOf(PairSuits, r, r)[k][0] != CombosOf(PairSuits, r, r)[k][1]
  {
  }

  /** A pair expands to six different holdings of that rank, two different cards each. */
  lemma PairExpansion(hand: string)
    requires ValidEntry(hand) && |hand| == 2
    ensures var r := RankOf(hand[0]).value;
            ValidRank(r) && Combos(hand) == CombosOf(PairSuits, r, r)
  {
  }

  /** A suited entry: four holdings, both cards of one suit, suits in table order. */
  lemma SuitedCombos(r0: int, r1: int)
    ensures |CombosOf(SuitedSuits, r0, r1)| == 4
    ensures forall k :: 0 <= k < 4 ==>
              CombosOf(SuitedSuits, r0, r1)[k] == [Card(SuitChars[k], r0), Card(SuitChars[k], r1)]
  {
  }

  /** A suited entry expands to the suited holdings of its two ranks. */
  lemma SuitedExpansion(hand: string)
    requires ValidEntry(hand) && |hand| == 3 && hand[2] == 's'
    ensures Combos(hand) == CombosOf(SuitedSuits, RankOf(hand[0]).value, RankOf(hand[1]).value)
  {
  }

  /** An offsuit entry: twelve holdings, one per ordered pair of different suits. */
  lemma OffsuitCombos(r0: int, r1: int)
    ensures var cs := CombosOf(OffSuits, r0, r1);
            |cs| == 12 &&
            (forall k :: 0 <= k < 12 ==> cs[k][0].suit != cs[k][1].suit) &&
            forall k, l :: 0 <= k < l < 12 ==> (cs[k][0].suit, cs[k][1].suit) != (cs[l][0].suit, cs[l][1].suit)
  {
  }

  /** An offsuit entry expands to the offsuit holdings of its two ranks. */
  lemma OffsuitExpansion(hand: string)
    requires ValidEntry(hand) && |hand| == 3 && hand[2] == 'o'
    ensures Combos(hand) == CombosOf(OffSuits, RankOf(hand[0]).value, RankOf(hand[1]).value)
  {
  }

  /**
   * A suited pair such as "AAs" passes the format check, and each of its four
   * holdings holds the same card twice.
   */
  lemma SuitedPairDuplicates(hand: string)
    requires ValidEntry(hand) && |hand| == 3 && hand[2] == 's' && hand[0] == hand[1]
    ensures |Combos(hand)| == 4 && forall k :: 0 <= k < 4 ==> Combos(hand)[k][0] == Combos(hand)[k][1]
  {
    SuitedExpansion(hand);
    var r := RankOf(hand[0]).value;
    SuitedCombos(r, r);
  }

  /** "AAs" is such an entry. */
  lemma SuitedPairAccepted()
    ensures ValidEntry("AAs")
  {
  }

  /** Entries of the wrong shape are refused. */
  lemma MalformedEntries()
    ensures !ValidEntry("AK") && !ValidEntry("AKx") && !ValidEntry("1Ks") && !ValidEntry("A")
  {
    assert '1' !in RankChars;
  }
}
