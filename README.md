# Poker hands, cards and a deck, in Dafny

This project models the core of a small Java poker library: the playing card
(`Card`, `CardImpl`), the five-card hand evaluator (`PokerHandImpl`) and the
52-card deck (`DeckImpl`). It proves what the code actually does.

- **Cards** (`cards.dfy`, module `Cards`). A card is an immutable value `Card(rank, suit)`.
  `Suit` has the four enum values in declaration order. The constructor refuses ranks
  outside 2..14. `equals` is value equality. `toString` is the rank name, `" of "` and
  the suit name, and different cards give different strings.
- **Hands** (`poker_hand.dfy`, module `PokerHands`). A hand is immutable after
  construction, so it is a value `Hand`: a sequence of exactly five cards.
  - The constructor `NewHand` validates its array of optional cards and copies it into a
    fresh array. It then runs the source's in-place nested-loop exchange sort
    (`SortByRank`). That sort is proved equal to a functional `ExchangeSort`, which is
    sorted by rank and a permutation of its input.
  - The read-only loops (`contains`, `isFlush`, `isStraight`, `isAceStraight`,
    `numPairsFrom`) are methods proved against declarative predicates.
  - The category tests, `getHandTypeValue`, `getHandRank` and `compareTo` are functions
    over those predicates, reading fixed positions just as the source does.
- **What the categories mean** (`hand_categories.dfy`, module `HandCategories`). The
  positional tests are compared with reference definitions that count cards per rank.
  - On a sorted hand, each positional test agrees with the counting definition.
  - For five pairwise-different cards, the check order of `getHandTypeValue` yields the
    category in poker strength order.
  - `getHandRank` returns the representative rank of each category.
  - `compareTo` is a total preorder that ignores kickers.
- **Deck** (`deck.dfy`, module `Decks`). The deck is a class with the source's two
  fields, a 52-slot `cardArray` and the cursor `cardsLeft`. Its invariant is that the array
  holds each of the 52 cards exactly once. The constructor fills the slots suit by suit
  and shuffles them in place. The random offsets of the shuffle are a parameter `draws`
  with `draws[i] < 52 - i`.
- `sequences.dfy` (swap on sequences) and `wrappers.dfy` (`Option`, `Result`) are shared
  helpers.

Java exceptions become `Failure` values of a `Result`. A `null` card array, and a `null`
element of it, passed to the hand constructor become `None` of an `Option`.

Where the documentation and the code disagree, the model follows the code:

- The sort is not stable. Equal-rank cards can change order, and `getCards` exposes the
  order (`PokerHands.ExchangeSortNotStable`).
- `hasHand` answers the opposite of its comment. As a consequence `dealHand` never returns
  a hand (see Findings).
- The comment of `findAndRemove` promises a returned card and an exception. The code
  returns nothing and silently does nothing when the card is not undealt.
- `compareTo` compares only the category value and one representative rank. Kickers never
  decide.

## Model

| member | source | states |
|---|---|---|
| Cards.NewCard | CardImpl.java:20-37 | fails with InvalidRank exactly when the rank is outside 2..14; on success getRank and getSuit give back the arguments and the card is valid |
| Cards.Equals | CardImpl.java:44-46 | true exactly when rank and suit both match, that is, when the two cards are the same value |
| Cards.FiveOfSpades | CardImpl.java:48-52 | the five of spades prints "Five of Spades" |
| Cards.RankNamesDistinct | CardImpl.java:6-7 | the thirteen rank names are pairwise different |
| Cards.SuitNamesDistinct | CardImpl.java:60-72 | suitToString gives the four suits four different names |
| Cards.SuitToString | CardImpl.java:60-72 | each suit's name is a word of at least five letters with no space in it |
| Cards.ToString | CardImpl.java:50-52 | the printed name starts with the rank's name followed by " of ", and ends with the suit's name |
| Cards.ToStringInjective | CardImpl.java:50-52 | two valid cards with the same printed name are the same card |
| PokerHands.SortByRank | PokerHandImpl.java:31-39 | the in-place nested-loop exchange sort leaves the array equal to ExchangeSort of its old contents |
| PokerHands.ExchangeSortSorts | PokerHandImpl.java:31-39 | the exchange sort's result is ascending by rank and a permutation of its input |
| PokerHands.SortFromSorts | PokerHandImpl.java:31-39 | the outer passes from position i on sort the suffix from i, given a sorted prefix no larger than the rest |
| PokerHands.PassLeavesMinimum | PokerHandImpl.java:32-38 | one inner pass leaves at position i a card of rank no larger than any later card |
| PokerHands.PassPermutes | PokerHandImpl.java:32-38 | one inner pass only reorders the cards |
| PokerHands.ExchangeSortIdempotent | PokerHandImpl.java:31-39 | sorting an already sorted hand changes nothing |
| PokerHands.ExchangeSortNotStable | PokerHandImpl.java:31-39 | two cards of rank 3 ahead of a rank-2 card come out in swapped order: the sort is not stable |
| PokerHands.NewHand | PokerHandImpl.java:16-40 | a null array, a length other than 5 and a null element each fail; otherwise the hand is the sorted copy of the cards, ascending by rank and a permutation of them |
| PokerHands.GetCards | PokerHandImpl.java:43-45 | returns a fresh array holding the hand's cards in their stored order |
| PokerHands.Contains | PokerHandImpl.java:52-59 | true exactly when the card is one of the hand's five cards |
| PokerHands.IsFlush | PokerHandImpl.java:67-74 | true exactly when all five suits are equal |
| PokerHands.IsAceStraight | PokerHandImpl.java:98-107 | true exactly when the ranks are 2, 3, 4, 5, 14 |
| PokerHands.IsStraight | PokerHandImpl.java:81-91 | true exactly when each rank is one more than the previous one, or the ranks are the ace-low straight |
| PokerHands.FirstPairFrom | PokerHandImpl.java:269-284 | -1, or the first position from max(index, 0) up to 3 whose rank equals the next position's rank |
| PokerHands.NumPairsFrom | PokerHandImpl.java:269-284 | the search loop returns exactly FirstPairFrom |
| PokerHands.IsOnePair | PokerHandImpl.java:114-121 | one pair excludes two pair, three of a kind, full house and four of a kind |
| PokerHands.IsTwoPair | PokerHandImpl.java:128-135 | two pair excludes three of a kind, and its first pair starts at position 0 or 1 |
| PokerHands.IsThreeOfAKind | PokerHandImpl.java:142-151 | for three of a kind the first pair starts at position 0, 1 or 2 and the three cards from it share one rank |
| PokerHands.IsFullHouse | PokerHandImpl.java:159-166 | a full house has equal ranks at positions 0 and 1 and at positions 3 and 4 |
| PokerHands.IsFourOfAKind | PokerHandImpl.java:174-181 | four of a kind has equal ranks at the three middle positions 1, 2 and 3 |
| PokerHands.IsStraightFlush | PokerHandImpl.java:188-195 | a straight flush has no two adjacent cards of one rank |
| PokerHands.HandRank | PokerHandImpl.java:200-212 | the hand rank is always the rank of one of the hand's five cards |
| PokerHands.HandTypeValue | PokerHandImpl.java:234-261 | always in 1..9, 9 for every straight flush, and 1 only when no other category test holds |
| PokerHands.IntegerCompare | PokerHandImpl.java:225 | Integer.compare: -1, 0 and 1 exactly when the first argument is less than, equal to and greater than the second |
| PokerHands.CompareTo | PokerHandImpl.java:219-227 | -1, 0 or 1: 0 exactly when type values and hand ranks are equal, 1 exactly when (type value, hand rank) is lexicographically greater |
| PokerHands.FirstPairCases | PokerHandImpl.java:269-284 | numPairsFrom in closed form over the four adjacent equalities |
| HandCategories.OnePairIsOneAdjacentPair | PokerHandImpl.java:114-121 | isOnePair holds exactly when exactly one adjacent pair of positions has equal ranks |
| HandCategories.FourOfAKindMeaning | PokerHandImpl.java:174-181 | on a sorted hand, isFourOfAKind holds exactly when some rank occurs four times or more |
| HandCategories.FullHouseMeaning | PokerHandImpl.java:159-166 | on a sorted hand, isFullHouse holds exactly when one rank occurs three times and another twice, or one rank five times |
| HandCategories.ThreeOfAKindShape | PokerHandImpl.java:142-151 | on a sorted hand, isThreeOfAKind holds exactly for a run of three equal ranks with the other two cards unpaired |
| HandCategories.ThreeOfAKindMeaning | PokerHandImpl.java:142-151 | on a sorted hand, isThreeOfAKind holds exactly when one rank occurs three times and two ranks once |
| HandCategories.TwoPairShapeOf | PokerHandImpl.java:128-135 | isTwoPair holds exactly for two separate adjacent pairs with nothing else equal |
| HandCategories.TwoPairMeaning | PokerHandImpl.java:128-135 | on a sorted hand, isTwoPair holds exactly when two ranks occur twice each |
| HandCategories.OnePairMeaning | PokerHandImpl.java:114-121 | on a sorted hand, isOnePair holds exactly when one rank occurs twice and three ranks once |
| HandCategories.GroupPredicatesExclusive | PokerHandImpl.java:128-151 | isTwoPair and isThreeOfAKind exclude four of a kind and full house; isThreeOfAKind is false when the first pair is at position 3 |
| HandCategories.StraightMeaning | PokerHandImpl.java:81-107 | on a sorted hand, isStraight holds exactly for five different ranks spanning four, or the ace-low straight |
| HandCategories.StraightHasNoPairs | PokerHandImpl.java:81-107 | no two adjacent cards of a straight share a rank |
| HandCategories.FlushHasNoPairs | PokerHandImpl.java:67-74 | a flush of five different cards has no two adjacent cards of one rank |
| HandCategories.NoFiveOfAKind | PokerHandImpl.java:159-181 | five different cards never share one rank, as there are only four suits |
| HandCategories.HandTypeValueIsCategory | PokerHandImpl.java:234-261 | for five different cards in rank order, getHandTypeValue equals the category in poker strength order |
| HandCategories.RepeatedCardMisclassified | PokerHandImpl.java:234-261 | five copies of one card are accepted, and getHandTypeValue calls them a flush (6) although four of a kind (8) also holds |
| HandCategories.OnePairRank | PokerHandImpl.java:200-203 | for one pair on a sorted hand, getHandRank is the paired rank, the only rank occurring twice or more |
| HandCategories.TwoPairRank | PokerHandImpl.java:204-205 | for two pair on a sorted hand, getHandRank is a paired rank no lower than any other paired rank |
| HandCategories.GroupRank | PokerHandImpl.java:206-207 | for trips, quads and full house on a sorted hand, getHandRank is a rank occurring at least three times |
| HandCategories.AceLowStraightRank | PokerHandImpl.java:208-209 | the ace-low straight ranks as five |
| HandCategories.HighCardRank | PokerHandImpl.java:210-212 | with five different ranks and no ace-low straight, getHandRank is the highest rank, held by exactly one card |
| HandCategories.CompareToReflexive | PokerHandImpl.java:219-227 | every hand compares equal to itself |
| HandCategories.CompareToAntisymmetric | PokerHandImpl.java:219-227 | swapping the two hands negates the result |
| HandCategories.CompareToTransitive | PokerHandImpl.java:219-227 | "at least as strong" is transitive, and strictly so when either step is strict |
| HandCategories.StrongerCategoryWins | PokerHandImpl.java:219-261 | between sorted hands of five different cards, the stronger poker category compares greater |
| HandCategories.KickersIgnored | PokerHandImpl.java:200-227 | two one-pair hands whose pairs have the same rank compare equal, whatever their other cards |
| Decks.StandardOrderIsFullDeck | DeckImpl.java:17-23 | the fill order holds each of the 52 cards exactly once |
| Decks.FillInOrder | DeckImpl.java:17-23 | the fill loops leave a fresh array in the fill order: ranks 2 to 14 for each suit in declaration order |
| Decks.Shuffle | DeckImpl.java:25-31 | the shuffle loop leaves the array equal to ShuffleFrom of its old contents for the given draws |
| Decks.ShuffleFromPermutes | DeckImpl.java:25-31 | the shuffle only reorders the cards, whatever the draws |
| Decks.ShuffledIsFullDeck | DeckImpl.java:13-31 | for every choice of in-range swap offsets, the shuffled deck holds each card exactly once |
| Decks.Deck.constructor | DeckImpl.java:13-32 | a fresh 52-slot array holding the shuffled fill order, cardsLeft 52, and the deck invariant |
| Decks.Deck.NextUndealtIndex | DeckImpl.java:104-107 | the first undealt slot: as many slots precede it as cards were dealt, and from it on lie exactly the undealt cards |
| Decks.Deck.HasHand | DeckImpl.java:38-43 | as written: true exactly when fewer than five cards are left |
| Decks.Deck.HasFullHand | DeckImpl.java:34-43 | corrected hasHand: true exactly when at least five cards are undealt |
| Decks.Deck.HasHandInverted | DeckImpl.java:34-43 | on every valid deck hasHand answers the opposite of "five cards can be dealt" |
| Decks.Deck.DealtUndealtPartition | DeckImpl.java:6-7 | the dealt and undealt cards together are the whole deck, and no card is both dealt and undealt |
| Decks.Deck.DealNextCard | DeckImpl.java:50-57 | fails on an empty deck; otherwise returns the first undealt card, which moves to the dealt cards, and leaves the array unchanged |
| Decks.Deck.DealHand | DeckImpl.java:64-76 | never returns a hand: five or more cards left fail at once; fewer are all dealt, leaving none, before the failure |
| Decks.Deck.DealFullHand | DeckImpl.java:59-76 | fewer than five cards left fail with nothing dealt; otherwise the next five are dealt and returned as a sorted hand |
| Decks.Deck.SwapToCursor | DeckImpl.java:91-93 | exchanges slot i with the first undealt slot, keeps cardsLeft and the deck invariant, and only reorders the cards |
| Decks.Deck.FindAndRemove | DeckImpl.java:84-99 | nothing changes on an empty deck or for a card that is not undealt; otherwise its first undealt occurrence is swapped to the cursor and dealt, a permutation of the array |
| Decks.IndexFrom | DeckImpl.java:89-90 | -1 when the card is absent from the slots from i on, else the first such slot holding it |

## Left out

- The randomness of `Math.random()` (DeckImpl.java:26) is not modelled. The constructor
  takes the chosen offsets as the parameter `draws`, with `draws[i] < 52 - i`. Whether the
  shuffle is uniform is a probabilistic claim and is not stated.
- Java object identity, `clone()` beyond "a fresh copy", and the `equals(Card)` overload
  versus `Object.equals` are not modelled. Cards are values.
- The `PokerHand` and `Deck` interfaces declare signatures only. They are modelled through
  their implementations.
- Neither `compareTo` nor the model resolves kickers.
- PokerHands.NewHand: the hand is a value, so the private array behind it and the
  `hand.clone()` aliasing are not modelled. The caller's array is only read.
- A `null` card argument of `contains`, `equals` and `findAndRemove` is not modelled. In
  Java it would raise a NullPointerException inside `equals`.
- Cards.NewCard: a `null` suit is not modelled, since `Suit` has only its four values. In
  Java the constructor accepts it and `toString` later fails inside `suitToString`.
- PokerHands.CompareTo: a `null` argument is not modelled. In Java it raises a
  NullPointerException at the first `getHandTypeValue` call on it.
- The `null` fall-through of `suitToString` is not modelled, because the match over the four
  suits is exhaustive.
- Card.java's documented contract for `getRank`, `getSuit`, `equals` and `toString` is the
  one modelled through `CardImpl`. Its `Suit` enum is the datatype `Cards.Suit`.

## Findings

| source | as written | input that shows it | evidently intended | confidence | as-written member | corrected member |
|---|---|---|---|---|---|---|
| DeckImpl.java:38-43 | `hasHand` returns false when `cards_left >= 5` and true otherwise, so `dealHand` throws on every deck that could deal a hand, and on a deck with fewer cards it first deals them all | a freshly constructed deck (`cards_left == 52`): `dealHand` fails with "not enough cards" | `hasHand` true exactly when at least five cards are left, and `dealHand` returns the next five cards as a hand | high; not executed | Decks.Deck.DealHand | Decks.Deck.DealFullHand |
