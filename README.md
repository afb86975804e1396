# pokeriq in Dafny

A model of the core of pokeriq, a Texas hold'em library: playing cards and
their two-character notation, the deck, players, the hand evaluator
(`Hand` with its ten detectors and `compareTo`), the single-hand simulation
(`Simulation` and `runSim`) and the Monte Carlo equity solver
(`EquitySolver`), together with the range notation `generateRange`
expands.

- `cards.dfy` (`Cards`): a card is a suit character from `s h d c` and a
  rank 2..14; parsing "As"-style strings and printing them back.
- `decks.dfy` (`Decks`): the `Deck` class, a list of cards changed in place.
- `players.dfy` (`Players`): the `Player` class, the name look-ups and
  `winner`.
- `listops.dfy` (`ListOps`), `rankruns.dfy` (`RankRuns`): the Python list
  built-ins the detectors use (`sort(reverse = True)`, `list.remove`, `min`,
  `list(set(...))`, slicing) and what the detectors' index loops find in
  sorted rank lists.
- `handorder.dfy` (`HandOrder`): hands and `compareTo`.
- `handranks.dfy` (`HandRanks`): what each detector computes, stated on the
  multiset of ranks, and the evaluator `calculateHand`.
- `madehand.dfy` (`MadeHand`): the detectors as the source runs them, with
  their loops, each proved equal to its specification.
- `handfacts.dfy` (`HandFacts`): properties relating the detectors, and
  the quirks of the evaluator shown on concrete hands.
- `simulations.dfy` (`Simulations`): the `Simulation` class and `runSim`.
- `equity.dfy` (`Equity`): the `EquitySolver` class and its trial loop.
- `ranges.dfy` (`Ranges`): `generateRange`.
- `strings.dfy` (`Strings`): `str(k)` and the generated player names
  "Player k".

The evaluator is modelled as the code is written, quirks included:

- `compareTo` returns -1 when the hand is the STRONGER one (a lower category
  index, or a larger tie-break), 1 when its category is weaker and 2 when its
  tie-break is. Its docstring says -1 means weaker; the code is followed.
- Two pair keeps the LOWEST pair first, then the lowest pair of what is left,
  so with three pairs the highest pair becomes the kicker.
- Four of a kind likewise keeps the last match of its search.
- Straight flush inspects only the five ranks the flush detector returns,
  so a straight flush hidden below a higher card of the flush suit is not
  reported (`HandFacts.HiddenStraightFlush`).

The equity solver credits every winner of a pot split among some but not
all players with a whole trial. The equities then add up to more than one,
although the documentation describes them as shares of one. The code is
followed, and `Equity.EquityTotal` states by how much the sum exceeds one.

## Model

| member | source | states |
|---|---|---|
| `Cards.SuitCharsDistinct` | pokeriq/card.py:9-11 | the suit table `SuitChars` has four different keys `s h d c`, and the rank table `RankChars` thirteen characters |
| `Cards.RankChar` | pokeriq/card.py:10-11 | the rank table maps every rank 2..14 to one of its characters |
| `Cards.RankCharsDistinct` | pokeriq/card.py:10-11 | no character of the rank table stands for two ranks, so it can be read backwards |
| `Cards.RankOf` | pokeriq/card.py:131-133 | the backwards look-up finds a rank exactly for the table's characters, and that rank is written with that character |
| `Cards.RankOfRankChar` | pokeriq/card.py:131-133 | every rank is found again from its character |
| `Cards.Notation` | pokeriq/card.py:121-133 | the notation of a valid card is two characters: a rank character, then a suit key |
| `Cards.Generate` | pokeriq/card.py:121-133 | `generate` accepts exactly two-character strings of a rank character and a suit key, and yields a valid card of that suit whose rank is written with that character |
| `Cards.GenerateOfChars` | pokeriq/card.py:121-133 | a rank character and a suit key parse to the card they name |
| `Cards.GenerateNotation` | pokeriq/card.py:121-133 | printing a valid card and parsing it back gives the card |
| `Cards.NotationGenerate` | pokeriq/card.py:121-133 | a string that parses prints back as itself |
| `Cards.FaceCharacters` | pokeriq/card.py:10-11 | "Ts" is the ten and "Ah" the ace of rank 14 |
| `Cards.MalformedRefused` | pokeriq/card.py:129 | a bad rank character, a bad suit or a wrong length fails the assertion |
| `Cards.Equals` | pokeriq/card.py:47-56 | two cards are equal exactly when suit and rank match |
| `Cards.Contains` | pokeriq/card.py:104-118 | the scan reports true exactly when some card of the list equals the card |
| `Cards.ParsedAsSnoc` | pokeriq/card.py:83-86 | parsing one more string extends the parsed list by its card |
| `Cards.GenerateSet` | pokeriq/card.py:74-86 | the parse succeeds exactly when every string parses, and then yields their cards in order |
| `Cards.GenerateSetOfSets` | pokeriq/card.py:89-101 | succeeds exactly when every group parses, and then yields one parsed list per group, in order |
| `Decks.StandardOrder` | pokeriq/deck.py:21-25 | the standard deck holds 52 cards |
| `Decks.StandardAt` | pokeriq/deck.py:23-25 | suit `s` of the table and rank `r` sit at position `13s + r - 2` |
| `Decks.StandardValid` | pokeriq/deck.py:23-25 | every card of the standard deck is valid |
| `Decks.StandardComplete` | pokeriq/deck.py:23-25 | every valid card is in the standard deck |
| `Decks.StandardDistinct` | pokeriq/deck.py:23-25 | the 52 cards are pairwise different |
| `Decks.BuildStandard` | pokeriq/deck.py:22-25 | the nested loops over suits and ranks build the standard order |
| `Decks.RemoveFirstDistinct` | pokeriq/deck.py:71-74 | removing a card keeps a deck of different cards duplicate-free |
| `Decks.RemoveFirstMembers` | pokeriq/deck.py:71-74 | from a deck of different cards, removing `x` takes out `x` and nothing else |
| `Decks.Deck.constructor` | pokeriq/deck.py:17-25 | a non-empty stack is copied, otherwise the deck is the standard 52 cards |
| `Decks.Deck.Copy` | pokeriq/equity_tools.py:127 | a deep copy holds the same cards in the same order |
| `Decks.Deck.GetDepth` | pokeriq/deck.py:60 | the depth is the number of cards |
| `Decks.Deck.Contains` | pokeriq/deck.py:35-44 | true exactly when the card is in the deck |
| `Decks.Deck.Remove` | pokeriq/deck.py:62-75 | reports whether the card was present; then its first copy is gone and the order of the rest is kept, otherwise nothing changes |
| `Decks.Deck.Add` | pokeriq/deck.py:77-85 | the card goes to the bottom of the deck |
| `Decks.Deck.Draw` | pokeriq/deck.py:87-93 | returns the top card and removes it |
| `Decks.Deck.Burn` | pokeriq/deck.py:95-99 | the top card is discarded |
| `Decks.Deck.DealFlop` | pokeriq/deck.py:101-108 | one card is burnt and the next three are the flop |
| `Decks.Deck.DealTurnRiver` | pokeriq/deck.py:110-117 | one card is burnt and the next one is the street |
| `Decks.Deck.Reset` | pokeriq/deck.py:119-133 | a non-empty stack becomes the deck, otherwise the standard 52 cards |
| `Decks.Deck.Shuffle` | pokeriq/deck.py:27-33 | the deck becomes the given reordering of its cards |
| `Players.Player.constructor` | pokeriq/player.py:11-24 | a new player has the name, the positive stack, no cards, no bet and no hand |
| `Players.Player.Copy` | pokeriq/equity_tools.py:161 | a deep copy has the same name, stack, cards, bet and hand |
| `Players.Player.Bet` | pokeriq/player.py:26-34 | a positive bet no larger than the stack is paid out of it, which stays non-negative; nothing else changes |
| `Players.Player.UpdateCurrentBet` | pokeriq/player.py:44-52 | a positive bet becomes the current bet; nothing else changes |
| `Players.Player.Augment` | pokeriq/player.py:54-62 | a positive amount is added to the stack; nothing else changes |
| `Players.Player.ClearHole` | pokeriq/player.py:64-71 | the hole and the bet are cleared; name, stack and hand stay |
| `Players.Player.AssignHole` | pokeriq/player.py:73-83 | with fewer than two cards and not the card already held, the card is appended and the hole stays valid |
| `Players.Player.IdentifyHand` | pokeriq/player.py:85-94 | the hand becomes the evaluation of the board and the hole |
| `Players.Player.StoreHand` | pokeriq/player.py:94 | the hand becomes the evaluation of the board and the given cards |
| `Players.FindNameFrom` | pokeriq/player.py:157-160 | the first position from `i` on whose player has the name, or none when no such player exists |
| `Players.FindName` | pokeriq/player.py:157-160 | the first position holding the name; none exactly when nobody has it |
| `Players.Contains` | pokeriq/player.py:129-143 | true exactly when some player has the name |
| `Players.Index` | pokeriq/player.py:146-160 | the position of the first player with the name, if any |
| `Players.Winner` | pokeriq/player.py:163-179 | the winners, in seat order, are exactly the players holding the first winner's hand, and no hand beats that hand |
| `Players.Overtake` | pokeriq/player.py:175-176 | a player who beats the best hand so far beats or ties every earlier player and holds none of their hands |
| `Players.WinnerResult` | pokeriq/player.py:163-179 | what `winner` returns is a winner list |
| `Players.HandsOf` | pokeriq/player.py:96 | the made hands of the players, in seat order |
| `Players.WinnersUnbeaten` | pokeriq/player.py:163-179 | a player is among the winners exactly when no player's hand beats theirs |
| `Players.WinnerUnbeaten` | pokeriq/player.py:163-179 | every winner holds a hand no other hand beats |
| `Players.UnbeatenWinner` | pokeriq/player.py:163-179 | every player whose hand nobody beats is a winner |
| `Players.AllSeatsIff` | pokeriq/equity_tools.py:174 | as many winners as players means every player won, and the converse |
| `HandOrder.HandNamesDistinct` | pokeriq/made_hand.py:10-19 | the `hands` table `HandNames` holds ten pairwise different names, strongest first |
| `HandOrder.Name` | pokeriq/made_hand.py:10-19 | a hand's category names one of the ten hands of the table |
| `HandOrder.CompareStrength` | pokeriq/made_hand.py:69-74 | the tie-break yields -1, 0 or 2 |
| `HandOrder.Compare` | pokeriq/made_hand.py:56-74 | `compareTo` yields -1, 0, 1 or 2, and 1 exactly when the category is weaker |
| `HandOrder.CompareStrengthAt` | pokeriq/made_hand.py:69-73 | the tie-break answers by the first position where the vectors differ |
| `HandOrder.CompareStrengthWitness` | pokeriq/made_hand.py:69-73 | a nonzero tie-break has a first difference behind it |
| `HandOrder.CompareStrengthZero` | pokeriq/made_hand.py:74 | the tie-break is 0 exactly when one vector is a prefix of the other |
| `HandOrder.CompareSelf` | pokeriq/made_hand.py:56-74 | a hand compares 0 with itself |
| `HandOrder.CompareZeroIff` | pokeriq/made_hand.py:56-74 | comparable hands compare 0 exactly when they are equal |
| `HandOrder.CompareStronger` | pokeriq/made_hand.py:64-73 | -1 exactly for the stronger hand: a lower category index, or the same one and a lexicographically larger vector |
| `HandOrder.CompareAntisymmetric` | pokeriq/made_hand.py:64-73 | `h` beats `o` exactly when `o` compares weaker than `h` |
| `HandOrder.LexGreaterTransitive` | pokeriq/made_hand.py:69-73 | the tie-break order on vectors is transitive |
| `HandOrder.CompareTransitive` | pokeriq/made_hand.py:64-73 | beating is transitive |
| `HandOrder.CompareTo` | pokeriq/made_hand.py:56-74 | the loop returns at the first category or tie-break difference, as the reference comparison does |
| `ListOps.BoundedByPermutation` | pokeriq/made_hand.py:107 | reordering keeps an upper bound |
| `ListOps.Insert` | pokeriq/made_hand.py:107 | inserting into a sorted list keeps it sorted and adds exactly the element |
| `ListOps.SortDesc` | pokeriq/made_hand.py:107 | `sort(reverse = True)` yields a non-increasing permutation |
| `ListOps.SortedUnique` | pokeriq/made_hand.py:107 | a non-increasing list is determined by its elements |
| `ListOps.SortedSlice` | pokeriq/made_hand.py:229 | slices of a sorted list are sorted |
| `ListOps.SortDescOfSorted` | pokeriq/made_hand.py:107 | sorting a sorted list changes nothing |
| `ListOps.SortDescOfPermutation` | pokeriq/made_hand.py:107 | sorting depends only on the elements |
| `ListOps.FirstIndex` | pokeriq/made_hand.py:105 | the first position holding the element |
| `ListOps.RemoveFirst` | pokeriq/made_hand.py:105 | `list.remove` takes out exactly one copy |
| `ListOps.RemoveFirstSorted` | pokeriq/made_hand.py:129-130 | removing from a sorted list keeps it sorted |
| `ListOps.RemoveFirstCommutesWithSort` | pokeriq/made_hand.py:105-107 | removing then sorting is sorting then removing |
| `ListOps.Min` | pokeriq/made_hand.py:105 | `min` is an element no larger than any other |
| `ListOps.Take` | pokeriq/made_hand.py:131 | the slice `s[0:n]` is the prefix of length `n`, clamped to the length |
| `ListOps.Dedup` | pokeriq/made_hand.py:202 | `list(set(...))` holds each element of the list exactly once |
| `ListOps.SortedLastIsMin` | pokeriq/made_hand.py:105-107 | the last of the sorted list is the minimum |
| `ListOps.SortedPrefixDropsLast` | pokeriq/made_hand.py:105-107 | dropping the last of the sorted list drops one copy of it |
| `ListOps.SortedDropMin` | pokeriq/made_hand.py:105-107 | removing the minimum and sorting drops the last element of the sorted list |
| `ListOps.DistinctCounts` | pokeriq/deck.py:71-74 | a list is duplicate-free exactly when nothing occurs twice |
| `ListOps.DistinctPermutation` | pokeriq/deck.py:31-33 | shuffling keeps a deck of different cards duplicate-free |
| `ListOps.PermutationMembers` | pokeriq/deck.py:31-33 | shuffling keeps the members of the deck |
| `ListOps.DistinctSlice` | pokeriq/deck.py:87-99 | drawing and burning keep a deck of different cards duplicate-free |
| `RankRuns.HighestIn` | pokeriq/made_hand.py:122-125 | the largest candidate occurring the given number of times, none exactly when none does |
| `RankRuns.LowestIn` | pokeriq/made_hand.py:146-148 | the smallest candidate occurring the given number of times, none exactly when none does |
| `RankRuns.HighestWithCount` | pokeriq/made_hand.py:122-125 | the highest rank occurring at least `k` times, none exactly when no rank does |
| `RankRuns.LowestWithCount` | pokeriq/made_hand.py:146-148 | the lowest rank occurring at least `k` times, none exactly when no rank does |
| `RankRuns.HighestWithCountPermutation` | pokeriq/made_hand.py:120 | only the ranks, not their order, decide both searches |
| `RankRuns.HighestWithCountIs` | pokeriq/made_hand.py:122-125 | the search finds the highest `k`-fold rank |
| `RankRuns.LowestWithCountIs` | pokeriq/made_hand.py:146-148 | the search finds the lowest `k`-fold rank |
| `RankRuns.HighestRunTopIn` | pokeriq/made_hand.py:206-209 | the largest candidate with the four ranks below it present, none exactly when there is none |
| `RankRuns.HighestRunTop` | pokeriq/made_hand.py:206-209 | the top of the highest five consecutive ranks, none exactly when there is no such run |
| `RankRuns.RunCount` | pokeriq/made_hand.py:179 | a chained run of `k` equal ranks makes that rank occur `k` times |
| `RankRuns.CountHasRun` | pokeriq/made_hand.py:179 | in sorted ranks, a rank occurring `k` times starts a chained run of `k` |
| `RankRuns.FirstRunIsHighest` | pokeriq/made_hand.py:178-181 | the first chained run of sorted ranks holds the highest `k`-fold rank |
| `RankRuns.LastRunIsLowest` | pokeriq/made_hand.py:146-148 | the last chained run of sorted ranks holds the lowest `k`-fold rank |
| `RankRuns.NoRunNoCount` | pokeriq/made_hand.py:127-128 | sorted ranks without a chained run have no `k`-fold rank |
| `RankRuns.SortedSingletonsStrict` | pokeriq/made_hand.py:202-203 | sorted ranks without repeats are strictly decreasing |
| `RankRuns.SortedDedup` | pokeriq/made_hand.py:202-203 | the de-duplicated sorted ranks are strictly decreasing with the same members |
| `RankRuns.HighestRunTopOfSameElements` | pokeriq/made_hand.py:202 | removing duplicates does not change the straight |
| `RankRuns.NextBelow` | pokeriq/made_hand.py:207 | in strictly decreasing ranks, the rank one below sits right after |
| `RankRuns.RunBelowConsecutive` | pokeriq/made_hand.py:207 | five consecutive ranks lie side by side in strictly decreasing ranks |
| `RankRuns.FirstConsecutiveIsHighest` | pokeriq/made_hand.py:206-209 | the first consecutive window tops the highest straight |
| `RankRuns.NoConsecutiveNoRun` | pokeriq/made_hand.py:211-212 | without a consecutive window there is no straight |
| `HandRanks.Ranks` | pokeriq/made_hand.py:104 | the ranks of the cards, in card order |
| `HandRanks.TopOneIsMax` | pokeriq/made_hand.py:163 | the single largest element is the maximum |
| `HandRanks.TakeIsTop` | pokeriq/made_hand.py:131 | the front of a sorted list holds its largest elements |
| `HandRanks.RemoveFirstKeepsSorted` | pokeriq/made_hand.py:129-130 | `list.remove` keeps sorted ranks sorted |
| `HandRanks.RemoveN` | pokeriq/made_hand.py:185-187 | `c` removals take out exactly `c` copies and keep sorted ranks sorted |
| `HandRanks.DropTwoMinima` | pokeriq/made_hand.py:105-107 | removing the two smallest ranks and sorting keeps the front of the sorted ranks |
| `HandRanks.KickersTop` | pokeriq/made_hand.py:129-131 | the ranks after the removed copies are the largest of the rest |
| `HandRanks.HighCardSpec` | pokeriq/made_hand.py:96-108 | high card is every rank but the two smallest, largest first |
| `HandRanks.OnePairOf` | pokeriq/made_hand.py:111-131 | the highest paired rank and the three largest of the other ranks; none exactly when no rank pairs |
| `HandRanks.ThreeKindOf` | pokeriq/made_hand.py:166-188 | the highest tripled rank and the two largest of the rest; none exactly when no rank occurs three times |
| `HandRanks.TwoPairOf` | pokeriq/made_hand.py:134-163 | the lowest paired rank, the lowest paired rank of the rest and the largest rank left; none exactly when either search fails |
| `HandRanks.TwoPairRest` | pokeriq/made_hand.py:152-163 | the second search: the lowest pair of what is left and the largest rank after it; none exactly when nothing pairs |
| `HandRanks.Kicker` | pokeriq/made_hand.py:161-163 | the first rank left after a pair is the largest left |
| `HandRanks.FullHouseOf` | pokeriq/made_hand.py:234-264 | the highest tripled rank and the highest pair of the rest; none exactly when either is missing |
| `HandRanks.FourKindOf` | pokeriq/made_hand.py:267-288 | the lowest rank occurring four times and the largest rank left; none exactly when no rank does |
| `HandRanks.SuitRanks` | pokeriq/made_hand.py:224-226 | the ranks of the cards of one suit |
| `HandRanks.FlushSuit` | pokeriq/made_hand.py:227-228 | the first suit in `s h d c` order holding five cards; none exactly when no suit does |
| `HandRanks.FlushSpec` | pokeriq/made_hand.py:216-231 | the five largest ranks of the flush suit; none exactly when there is no flush suit |
| `HandRanks.AceLow` | pokeriq/made_hand.py:200-201 | an ace also counts as rank 1 |
| `HandRanks.StraightSpec` | pokeriq/made_hand.py:191-213 | the highest top of five consecutive ranks, an ace counting low too; none exactly when there is none |
| `HandRanks.StraightFlushSpec` | pokeriq/made_hand.py:291-313 | found only among the flush's five ranks, and then the highest straight of them |
| `HandRanks.RoyalFlushSpec` | pokeriq/made_hand.py:316-325 | present exactly when the straight flush is to the ace |
| `HandRanks.DetectionList` | pokeriq/made_hand.py:88-89 | the ten detector results, strongest category first |
| `HandRanks.Detections` | pokeriq/made_hand.py:88-89 | ten results, and high card always finds a hand |
| `HandRanks.DetectionListShape` | pokeriq/made_hand.py:88-89 | each category's result has its category's length |
| `HandRanks.DetectionsShape` | pokeriq/made_hand.py:88-89 | every detector's vector has the length of its category |
| `HandRanks.FirstFound` | pokeriq/made_hand.py:90-93 | the first position from `i` on with a result, and its result |
| `HandRanks.Evaluate` | pokeriq/made_hand.py:77-93 | the category is the first detector, strongest first, that finds its hand; the strength is what it found |
| `HandRanks.EvaluateAfter` | pokeriq/made_hand.py:77-93 | proof scaffolding with no source counterpart: `calculateHand`'s result reached by a countdown, so that statements about many players' hands do not unfold every detector; a category of the table with a vector of that category's length |
| `HandRanks.HandOf` | pokeriq/made_hand.py:21-29 | the hand the constructor makes has a named category and a vector of its length |
| `HandRanks.EvaluateAfterIs` | pokeriq/made_hand.py:77-93 | proof scaffolding with no source counterpart: every countdown reaches the same hand, `calculateHand`'s |
| `HandRanks.HandOfIsEvaluate` | pokeriq/made_hand.py:21-29 | the constructor's hand is the evaluator's |
| `MadeHand.FirstRun` | pokeriq/made_hand.py:121-125 | the loop that breaks at the first chained match finds the highest `k`-fold rank |
| `MadeHand.LastRun` | pokeriq/made_hand.py:144-148 | the loop without `break` finds the lowest `k`-fold rank |
| `MadeHand.FirstConsecutive` | pokeriq/made_hand.py:204-209 | finds the first window of five falling by one, none exactly when there is none |
| `MadeHand.RemoveTwice` | pokeriq/made_hand.py:129-130 | two `list.remove` calls take out two copies |
| `MadeHand.RemoveThrice` | pokeriq/made_hand.py:185-187 | three `list.remove` calls take out three copies |
| `MadeHand.RemoveFourTimes` | pokeriq/made_hand.py:284-287 | four `list.remove` calls take out four copies |
| `MadeHand.FourKindOfIs` | pokeriq/made_hand.py:282-288 | once the quad is found, four of a kind is it and the first rank left |
| `MadeHand.TwoPairOfIs` | pokeriq/made_hand.py:150-163 | once both pairs are found, two pair is them and the first rank left |
| `MadeHand.CheckHighCard` | pokeriq/made_hand.py:96-108 | computes the high card specification |
| `MadeHand.CheckOnePair` | pokeriq/made_hand.py:111-131 | computes the one pair specification of the sorted ranks |
| `MadeHand.CheckTwoPair` | pokeriq/made_hand.py:134-163 | computes the two pair specification of the sorted ranks |
| `MadeHand.CheckThreeKind` | pokeriq/made_hand.py:166-188 | computes the three of a kind specification |
| `MadeHand.CheckFullHouse` | pokeriq/made_hand.py:234-264 | computes the full house specification |
| `MadeHand.CheckFourKind` | pokeriq/made_hand.py:267-288 | computes the four of a kind specification |
| `MadeHand.CheckStraight` | pokeriq/made_hand.py:191-213 | computes the straight specification |
| `MadeHand.FlushSuitAt` | pokeriq/made_hand.py:227-229 | the first suit of the table with five cards is the flush suit |
| `MadeHand.CheckFlush` | pokeriq/made_hand.py:216-231 | computes the flush specification |
| `MadeHand.CheckStraightFlush` | pokeriq/made_hand.py:291-313 | computes the straight flush specification |
| `MadeHand.CheckRoyalFlush` | pokeriq/made_hand.py:316-325 | computes the royal flush specification |
| `MadeHand.Detect` | pokeriq/made_hand.py:88-91 | the `i`-th detector of the list yields the `i`-th specified result |
| `MadeHand.CalculateHand` | pokeriq/made_hand.py:77-93 | the loop returns the evaluator's hand of board and hole |
| `HandFacts.HighCardIsTopRanks` | pokeriq/made_hand.py:104-108 | high card is the sorted ranks without their last two |
| `HandFacts.EvaluateComparable` | pokeriq/made_hand.py:64-74 | hands of the same number of cards can always be compared |
| `HandFacts.NoStraightAboveWheel` | pokeriq/made_hand.py:200-209 | without a 6 and a 10, no straight tops above 5 |
| `HandFacts.Wheel` | pokeriq/made_hand.py:200-213 | A-2-3-4-5 with no higher straight possible is a straight to the five |
| `HandFacts.RoyalOfFive` | pokeriq/made_hand.py:302-309 | of five ranks, the ace tops a straight exactly for A-K-Q-J-T |
| `HandFacts.RoyalFlushIff` | pokeriq/made_hand.py:316-325 | a royal flush exactly when the flush's ranks are A-K-Q-J-T |
| `HandFacts.StraightFlushOfFlushRanks` | pokeriq/made_hand.py:299-313 | the straight flush detector finds the straight of the flush's five ranks |
| `HandFacts.AceLowStrict` | pokeriq/made_hand.py:302-303 | appending 1 after ranks of at least 2 keeps them strictly decreasing |
| `HandFacts.WindowScan` | pokeriq/made_hand.py:306-309 | over six ranks at most, the scan looks at two windows only |
| `HandFacts.StraightFlushSeesOnlyTopFive` | pokeriq/made_hand.py:299-313 | without an ace, a flush whose top two ranks are not adjacent is never a straight flush |
| `HandFacts.HiddenSuitRanks` | pokeriq/made_hand.py:224-228 | the example's spades are K-9-8-7-6-5, the flush suit |
| `HandFacts.FlushOfSortedSuit` | pokeriq/made_hand.py:229 | ranks of the flush suit already sorted give their first five |
| `HandFacts.HiddenFlush` | pokeriq/made_hand.py:216-231 | the example's flush is K-9-8-7-6 |
| `HandFacts.HiddenStraightFlush` | pokeriq/made_hand.py:291-313 | the example holds a straight flush to the nine, and none is reported |
| `HandFacts.TwoPairLowestFirst` | pokeriq/made_hand.py:146-157 | the first pair reported is never above the second |
| `HandFacts.TwoPairOfTwoPairs` | pokeriq/made_hand.py:134-163 | with exactly two pairs `a > b`, two pair reads `b` then `a` |
| `HandFacts.TwoPairValues` | pokeriq/made_hand.py:134-163 | two pair reports the ranks its two searches found |
| `HandFacts.TwoPairKickerBound` | pokeriq/made_hand.py:161-163 | the kicker is at least every rank left after both pairs |
| `HandFacts.ThreePairCounts` | pokeriq/made_hand.py:146-157 | of three pairs, the searches find the lowest, then the middle one, and the highest survives |
| `HandFacts.TwoPairOfThreePairs` | pokeriq/made_hand.py:134-163 | with three pairs, two pair keeps the two lowest and a kicker no lower than the highest pair |
| `Strings.DigitChar` | pokeriq/equity_tools.py:51 | a digit is written `0`..`9` |
| `Strings.NatToString` | pokeriq/equity_tools.py:51 | `str(k)` is a non-empty string of digits |
| `Strings.NatToStringInjective` | pokeriq/equity_tools.py:51 | different numbers are written differently |
| `Strings.PlayerName` | pokeriq/equity_tools.py:51 | "Player " followed by the number |
| `Strings.PlayerNameInjective` | pokeriq/equity_tools.py:51 | generated names of different seats are different |
| `Ranges.PermutationRow` | pokeriq/equity_tools.py:233 | a row of `permutations` pairs one element with each of the others |
| `Ranges.SameSuit` | pokeriq/equity_tools.py:230-231 | each suit paired with itself |
| `Ranges.Combinations2` | pokeriq/equity_tools.py:227 | `combinations(s, 2)` yields `|s|(|s|-1)/2` pairs, each `(s[i], s[j])` with `i < j` |
| `Ranges.Permutations2Shape` | pokeriq/equity_tools.py:233 | `permutations(s, 2)` (`Ranges.Permutations2`) yields `|s|(|s|-1)` pairs, each of the elements at two different positions |
| `Ranges.PermutationsFromShape` | pokeriq/equity_tools.py:233 | the rows from a first element on hold `|s|-1` pairs each, of two different positions |
| `Ranges.SuitCombinations` | pokeriq/equity_tools.py:227 | `combinations` of the suit table gives its six unordered pairs in order |
| `Ranges.SuitDiagonal` | pokeriq/equity_tools.py:230 | the suited loop gives the four suits in table order |
| `Ranges.SuitPermutations` | pokeriq/equity_tools.py:233 | `permutations` of the suit table gives its twelve ordered pairs in order |
| `Ranges.CaseStrings` | pokeriq/equity_tools.py:226-234 | one pair of card strings per suit pair of the entry |
| `Ranges.CaseStringsOf` | pokeriq/equity_tools.py:228 | rank and suit characters are put together as the loops do |
| `Ranges.Combos` | pokeriq/equity_tools.py:226-234 | one holding per suit pair of the entry |
| `Ranges.CombosOf` | pokeriq/equity_tools.py:228 | each holding has the first rank in the first suit and the second in the second |
| `Ranges.SuitPairsValid` | pokeriq/equity_tools.py:227-233 | every suit pair is made of suit keys |
| `Ranges.PairParses` | pokeriq/card.py:83-86 | two strings that parse parse as a list to the two cards |
| `Ranges.CaseStringsParse` | pokeriq/equity_tools.py:236 | each pair of case strings parses to the matching holding |
| `Ranges.CaseParses` | pokeriq/equity_tools.py:236 | each case string of an entry parses to its holding |
| `Ranges.EnumerationParses` | pokeriq/equity_tools.py:235-236 | the strings of a valid range parse group by group to its expansion |
| `Ranges.ParsedAsUnique` | pokeriq/card.py:83-86 | strings parse to at most one list of cards |
| `Ranges.EntryCases` | pokeriq/equity_tools.py:225-234 | the loops build the entry's case strings |
| `Ranges.ParsedGroupsUnique` | pokeriq/card.py:98-101 | groups parsed twice give the same result |
| `Ranges.Expansion` | pokeriq/equity_tools.py:223-236 | every holding of the expansion is two valid cards |
| `Ranges.GenerateRange` | pokeriq/equity_tools.py:212-236 | succeeds exactly when every entry passes the format check, and then yields the expansion of the range, entry by entry |
| `Ranges.ExpansionAppend` | pokeriq/equity_tools.py:235 | the expansion of a concatenation of ranges is the concatenation of their expansions |
| `Ranges.PairCombos` | pokeriq/equity_tools.py:226-228 | a pocket pair has six different holdings, each of two different cards |
| `Ranges.PairExpansion` | pokeriq/equity_tools.py:226-228 | a pair entry expands to the six holdings of its rank |
| `Ranges.SuitedCombos` | pokeriq/equity_tools.py:229-231 | a suited entry has four holdings, both cards of one suit |
| `Ranges.SuitedExpansion` | pokeriq/equity_tools.py:229-231 | a suited entry expands to the suited holdings of its ranks |
| `Ranges.OffsuitCombos` | pokeriq/equity_tools.py:232-234 | an offsuit entry has twelve holdings of two different suits |
| `Ranges.OffsuitExpansion` | pokeriq/equity_tools.py:232-234 | an offsuit entry expands to the offsuit holdings of its ranks |
| `Ranges.SuitedPairDuplicates` | pokeriq/equity_tools.py:220-231 | a suited pair such as "AAs" passes the check, and each of its holdings holds one card twice |
| `Ranges.SuitedPairAccepted` | pokeriq/equity_tools.py:220 | "AAs" passes the format check |
| `Ranges.ValidEntry` | pokeriq/equity_tools.py:220-221 | the format check: a pair of equal characters, or three ending in `s` or `o`, the first two being rank characters |
| `Ranges.MalformedEntries` | pokeriq/equity_tools.py:220-221 | entries of the wrong shape or with a bad rank are refused |
| `Simulations.SeatPlayers` | pokeriq/Simulation.py:126 | `n` new players named "Player 1" to "Player n", with the default stack and no cards |
| `Simulations.DealRound` | pokeriq/Simulation.py:127-131 | each player in turn takes the next card from the top |
| `Simulations.IdentifyAll` | pokeriq/Simulation.py:33-34 | every player's hand is the evaluation of the board and their hole; names and holes stay |
| `Simulations.Showdown` | pokeriq/Simulation.py:33-35 | hands identified, then the winners are exactly the players holding the first winner's hand, which nobody beats |
| `Simulations.Simulation.constructor` | pokeriq/Simulation.py:13-36 | the board is flop, turn and river; every hand is made; the winners are the unbeaten players; the high hand names the winning category |
| `Simulations.Simulation.RunSim` | pokeriq/Simulation.py:98-153 | the deck is shuffled into the given order, players seated and dealt unless supplied, the missing streets dealt, and the hand played out; seated players need only their two dealt cards to differ, as `assignHole` asserts |
| `Simulations.Prepare` | pokeriq/Simulation.py:118-151 | everything before the hand is played: what was dealt and what is left of the deck; seated players need only their two dealt cards to differ |
| `Simulations.SeatAndDeal` | pokeriq/Simulation.py:126-131 | `n` players get one card each, twice round the table, from the top, provided cards `i` and `n+i` differ, as `assignHole` asserts |
| `Simulations.DealStreets` | pokeriq/Simulation.py:133-151 | the streets are the supplied ones, the missing ones dealt from the deck |
| `Simulations.HoleCardsDealt` | pokeriq/Simulation.py:122-131 | two cards per seated player, and none when the players are supplied |
| `Simulations.StreetCardsDealt` | pokeriq/Simulation.py:133-151 | four cards for a missing flop, two for each missing later street, a missing flop or turn forcing the streets after it |
| `Simulations.RunoutReadsDealt` | pokeriq/Simulation.py:133-151 | the dealt streets depend only on the first `StreetCardsDealt` cards of the deck |
| `Simulations.Runout` | pokeriq/Simulation.py:133-151 | a flop of three, a turn and a river of one; supplied streets are kept |
| `Equity.ChopIsNoName` | pokeriq/equity_tools.py:137 | the chop key is never a player's name |
| `Equity.Names` | pokeriq/equity_tools.py:50-51 | the names of a table of `n`, "Player 1" to "Player n" |
| `Equity.NamesDistinct` | pokeriq/equity_tools.py:129-137 | the names are different, and none is the chop key |
| `Equity.NameLookup` | pokeriq/equity_tools.py:74-76 | seat number `id` names a player exactly when it is between 1 and the table size, at position `id - 1` |
| `Equity.RemoveIfPresentMultiset` | pokeriq/deck.py:62-75 | `deck.remove(c)` (`Equity.RemoveIfPresent`) takes out one copy of `c`, and nothing when there is none |
| `Equity.RemoveEachMultiset` | pokeriq/equity_tools.py:129-155 | the `deck.remove` loops (`Equity.RemoveEach`) take out one copy per removed card, where there is one |
| `Equity.BurnsOfBoard` | pokeriq/equity_tools.py:139-153 | the burns counter (`Equity.Burns`) is 0 without a board and otherwise the number of known streets, two fewer than the board's cards |
| `Equity.ShufflesDrawFromRemaining` | pokeriq/equity_tools.py:158-171 | the two shuffles of a trial (`Equity.Shuffles`) reorder only the remaining cards |
| `Equity.RemoveEachSpec` | pokeriq/equity_tools.py:129-155 | removing cards from a deck of different cards leaves exactly the cards not removed, all different |
| `Equity.RemoveEachSuits` | pokeriq/equity_tools.py:129-155 | removing cards keeps every suit valid |
| `Equity.EmptyHoles` | pokeriq/equity_tools.py:163-164 | at most one unknown hole per player |
| `Equity.FlattenSize` | pokeriq/equity_tools.py:132-136 | the known cards are two per known hole |
| `Equity.DealHoles` | pokeriq/equity_tools.py:163-166 | one hole per player |
| `Equity.DealHolesSpec` | pokeriq/equity_tools.py:163-166 | a known hole stays; the `k`-th unknown one gets the next two cards of the shuffled deck |
| `Equity.Wins` | pokeriq/equity_tools.py:176-178 | a player wins at most one count per trial |
| `Equity.Chops` | pokeriq/equity_tools.py:174-175 | at most one chop per trial |
| `Equity.Shares` | pokeriq/equity_tools.py:177-178 | at most every player shares a pot |
| `Equity.SumWinsNone` | pokeriq/equity_tools.py:129-137 | without trials nobody has won |
| `Equity.SumWinsSnoc` | pokeriq/equity_tools.py:174-178 | one more trial adds its winners, unless it was a chop |
| `Equity.EquityTotal` | pokeriq/equity_tools.py:174-178 | the counts add up to one per trial plus the extra winners of split pots, and to exactly the trials when no pot is split among some players only |
| `Equity.Bump` | pokeriq/equity_tools.py:177-178 | crediting winners keeps the names |
| `Equity.BumpDistinct` | pokeriq/equity_tools.py:177-178 | each winner gets one more, the others nothing |
| `Equity.WinnersShare` | pokeriq/equity_tools.py:172-178 | every trial has a winner at the table |
| `Equity.SharesCounts` | pokeriq/equity_tools.py:177-178 | a winner of the table counts towards the shares |
| `Equity.SevenCardHands` | pokeriq/Simulation.py:33-35 | hands of five board and two hole cards can all be compared |
| `Equity.RemoveCards` | pokeriq/equity_tools.py:142-144 | `deck.remove` for each card in turn |
| `Equity.RemoveHole` | pokeriq/equity_tools.py:132-136 | the known cards of one player come out of the deck |
| `Equity.RemoveEachAppend` | pokeriq/equity_tools.py:129-155 | removing two lists in turn is removing their concatenation |
| `Equity.Tally` | pokeriq/equity_tools.py:174-178 | after one more trial the counts are the tally of all the trials |
| `Equity.DealTrial` | pokeriq/equity_tools.py:159-169 | the trial's deck is what is left after the holes and burns, the players are fresh copies holding the dealt holes |
| `Equity.Trials` | pokeriq/equity_tools.py:158-178 | after the loop the counts are the tally of every trial, each dealt and played from its own shuffles |
| `Equity.TrialStep` | pokeriq/equity_tools.py:159-178 | one more trial played, tallied and recorded |
| `Equity.PlayedSnoc` | pokeriq/equity_tools.py:158-178 | the record of the trials extends by one more |
| `Equity.Trial` | pokeriq/equity_tools.py:159-172 | one trial dealt and played out from its two shuffles |
| `Equity.DealFor` | pokeriq/equity_tools.py:159-169 | the deal of a trial: its own deck and players holding two valid cards each |
| `Equity.PlayOut` | pokeriq/equity_tools.py:171-172 | `runSim` on the trial and the names of its winners |
| `Equity.Simulate` | pokeriq/equity_tools.py:171 | what `runSim` promises about the players it was given |
| `Equity.SimResult` | pokeriq/equity_tools.py:171-172 | a trial's board is its streets, each hand is that of board and hole, and the winners are exactly the unbeaten players |
| `Equity.SimHands` | pokeriq/Simulation.py:33-34 | the hands read off the players are those of board and hole |
| `Equity.SimWinners` | pokeriq/Simulation.py:35 | the names of the winners are exactly the unbeaten players |
| `Equity.BoardSplit` | pokeriq/Simulation.py:31 | the board cut back into its streets |
| `Equity.HandsMade` | pokeriq/Simulation.py:33-34 | every player has a hand, that of the board and their hole |
| `Equity.TalliedZero` | pokeriq/equity_tools.py:129-137 | zero counts under the names and the chop key are the tally of no trials |
| `Equity.Credit` | pokeriq/equity_tools.py:177-178 | each winner's count goes up by one, the others stay |
| `Equity.Holes` | pokeriq/player.py:104 | the hole cards of the players, seat by seat |
| `Equity.NamesOf` | pokeriq/player.py:112 | the names of the winners, in order |
| `Equity.WinnerNamesOf` | pokeriq/equity_tools.py:172-178 | the winners' names are exactly the unbeaten players', each once |
| `Equity.AllNamesIff` | pokeriq/equity_tools.py:174 | as many winners as players exactly when every player won |
| `Equity.UnbeatenSeats` | pokeriq/equity_tools.py:172-178 | a name is among the winners' exactly when no hand beats that player's |
| `Equity.SeatOfWinner` | pokeriq/player.py:172-179 | a player is a winner exactly when their seat is |
| `Equity.WinnerSeats` | pokeriq/player.py:172-179 | the winners' names are different and name the winners' seats |
| `Equity.CopyPlayers` | pokeriq/equity_tools.py:161 | fresh, different copies of the players |
| `Equity.DealUnknown` | pokeriq/equity_tools.py:163-166 | players without cards, in seat order, draw two each; the others keep theirs |
| `Equity.DealSeat` | pokeriq/equity_tools.py:164-166 | the deal one seat further |
| `Equity.DealOne` | pokeriq/equity_tools.py:164-166 | a player without cards draws the next two; one with cards keeps them |
| `Equity.DealtReady` | pokeriq/equity_tools.py:163-166 | every dealt hole is two valid cards |
| `Equity.RemainingBudget` | pokeriq/equity_tools.py:124 | a deck of `2n + 8` cards leaves enough for every trial |
| `Equity.TrialDeck` | pokeriq/equity_tools.py:124-155 | the deck of the trials holds different valid cards, enough for every trial |
| `Equity.EquitySolver.Valid` | pokeriq/equity_tools.py:42-114 | at most ten players seated as "Player 1", "Player 2", ..., each holding no cards or two different ones, and a board of a flop, then a turn, then a river |
| `Equity.EquitySolver.ValidNamesDistinct` | pokeriq/equity_tools.py:42-51 | on a valid table (`Equity.EquitySolver.Valid`) no two players share a name, so each has its own key in the equity dict |
| `Equity.EquitySolver.constructor` | pokeriq/equity_tools.py:17-32 | no players, no board, a fresh standard deck and no equities |
| `Equity.EquitySolver.AddPlayers` | pokeriq/equity_tools.py:42-51 | `amnt` players named after their seats join at the end; nothing for `amnt <= 0` |
| `Equity.EquitySolver.RemovePlayers` | pokeriq/equity_tools.py:53-62 | the last `amnt` players leave; nothing for `amnt <= 0` |
| `Equity.EquitySolver.DefineHole` | pokeriq/equity_tools.py:64-79 | the named player takes the two different cards with a cleared bet; every stack and made hand stays, and every other player's cards and bet |
| `Equity.EquitySolver.SeatOf` | pokeriq/equity_tools.py:74-76 | the player named after `id` sits at `id - 1` |
| `Equity.EquitySolver.NewHole` | pokeriq/equity_tools.py:77-79 | the player at the seat drops their cards and bet and takes the hole |
| `Equity.EquitySolver.ClearHole` | pokeriq/equity_tools.py:81-90 | the named player drops their cards and bet; every stack and made hand stays, and every other player's cards and bet |
| `Equity.EquitySolver.DefineDeck` | pokeriq/equity_tools.py:92-101 | a deck large enough for the table becomes the solver's |
| `Equity.EquitySolver.DefineBoard` | pokeriq/equity_tools.py:103-114 | three to five cards become the flop, turn and river, as many as there are |
| `Equity.EquitySolver.CalculateHandEquity` | pokeriq/equity_tools.py:116-181 | the kept counts are the tally of `trials` trials, each dealt and played out from its own shuffles |
| `Equity.EquitySolver.Equities` | pokeriq/equity_tools.py:127-178 | the counts of the trials before they are kept |
| `Equity.EquitySolver.TableSeated` | pokeriq/equity_tools.py:161 | the solver's players are the table every trial copies |
| `Equity.EquitySolver.Setup` | pokeriq/equity_tools.py:127-155 | the trial deck is the deck without the known cards, with zero counts and one burn per known street |
| `Equity.EquitySolver.RemoveHoles` | pokeriq/equity_tools.py:129-137 | a zero count per player and the chop key; the known hole cards leave the deck |
| `Equity.EquitySolver.RemoveBoard` | pokeriq/equity_tools.py:139-155 | the known streets leave the deck, one burn each |

## Left out

- Randomness: `random.shuffle` is not modelled. `Deck.Shuffle`, `runSim` and each
  equity trial take the shuffled order as a parameter that must hold the same cards.
- `Equity.EquitySolver.CalculateHandEquity` keeps integer counts, not the source's
  floats `1/trials`. The equity of a name is its count divided by `trials`;
  floating-point rounding of that sum is not modelled.
- Chips are integers; the source also accepts floats for stacks and bets.
- The `toString`, `sequenceToString`, `getHandEquities` and other getters are
  not modelled: they only read fields or format text with suit symbols.
- `calculateRangeEquity` (equity_tools.py:239-286) is not part of this model.
- The `isinstance` assertions are types here. The other assertions become
  preconditions or a `None` result.
- `Equity.EquitySolver.CalculateHandEquity` requires a deck of different cards
  with valid suits. The source does not check this; it is what its trials need
  to deal without repeating a card.
- `Decks.Deck.Reset` stores the given list itself in the source, so the deck and
  the caller's list are aliased; the model copies the value.
- `Simulations.Simulation.RunSim` requires every supplied player to hold as many
  hole cards as the first, of valid suits. The source does not check this.
- `Players.Player.constructor` does not model the source leaving `hand` unset
  (reading it before `identifyHand` raises); `hand` starts as `None`.
- The package's `__init__.py` and `setup.py` hold no logic and are not modelled.
- `runSim` defaults its deck to one `Deck()` created when the module loads and
  shared by every call; the model always passes the deck explicitly.
- The module imports (some of them name modules that are not in the package)
  are not modelled.
