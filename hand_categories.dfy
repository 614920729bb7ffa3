/**
 * What the positional predicates of PokerHandImpl mean on a hand sorted by
 * rank, stated against reference definitions that count cards per rank, and
 * the ordering facts about getHandTypeValue, getHandRank and compareTo.
 */
module HandCategories {
  import opened Cards
  import opened PokerHands

  /** 1 for a card of rank x, else 0. */
  function CountIf(c: Card, x: int): nat {
    if c.rank == x then 1 else 0
  }

  /** The number of cards in h of rank x. */
  function RankCount(h: Hand, x: int): nat {
    CountIf(h[0], x) + CountIf(h[1], x) + CountIf(h[2], x) + CountIf(h[3], x) + CountIf(h[4], x)
  }

  /** How many cards of h share the rank of the card at position i. */
  function GroupSize(h: Hand, i: nat): nat
    requires i < 5
  {
    RankCount(h, h[i].rank)
  }

  /** 1 when the card at position i belongs to a group of exactly n equal ranks, else 0. */
  function InGroupOf(h: Hand, i: nat, n: nat): nat
    requires i < 5
  {
    if GroupSize(h, i) == n then 1 else 0
  }

  /**
   * The number of cards whose rank occurs exactly n times in h: a hand's
   * category is read off these numbers.
   */
  function CardsInGroupsOf(h: Hand, n: nat): nat {
    InGroupOf(h, 0, n) + InGroupOf(h, 1, n) + InGroupOf(h, 2, n) + InGroupOf(h, 3, n) + InGroupOf(h, 4, n)
  }

  /** Reference four of a kind: some rank occurs four times or more. */
  predicate FourByCount(h: Hand) {
    exists i | 0 <= i < 5 :: GroupSize(h, i) >= 4
  }

  /** Reference full house: one rank three times and another twice. */
  predicate FullHouseByCount(h: Hand) {
    CardsInGroupsOf(h, 3) == 3 && CardsInGroupsOf(h, 2) == 2
  }

  /** Reference three of a kind: one rank three times and two cards of ranks that occur once. */
  predicate TripsByCount(h: Hand) {
    CardsInGroupsOf(h, 3) == 3 && CardsInGroupsOf(h, 1) == 2
  }

  /** Reference two pair: four cards in ranks that occur exactly twice, so two such ranks. */
  predicate TwoPairByCount(h: Hand) {
    CardsInGroupsOf(h, 2) == 4
  }

  /** Reference one pair: one rank occurs twice and the other three cards once each. */
  predicate OnePairByCount(h: Hand) {
    CardsInGroupsOf(h, 2) == 2 && CardsInGroupsOf(h, 1) == 3
  }

  /** All five cards have one rank (possible only with repeated cards). */
  predicate FiveOfAKind(h: Hand) {
    GroupSize(h, 0) == 5
  }

  /** No two cards of h are equal. */
  predicate DistinctCards(h: Hand) {
    forall i, j | 0 <= i < j < 5 :: h[i] != h[j]
  }

  /** No two cards of h have the same rank. */
  predicate DistinctRanks(h: Hand) {
    forall i, j | 0 <= i < j < 5 :: h[i].rank != h[j].rank
  }

  /**
   * The category of a hand by the rules of poker, strongest first: straight
   * flush, four of a kind, full house, flush, straight, three of a kind, two
   * pair, one pair, high card.
   */
  function PokerCategory(h: Hand): int {
    if Straight(h) && Flush(h) then 9
    else if FourByCount(h) then 8
    else if FullHouseByCount(h) then 7
    else if Flush(h) then 6
    else if Straight(h) then 5
    else if TripsByCount(h) then 4
    else if TwoPairByCount(h) then 3
    else if OnePairByCount(h) then 2
    else 1
  }

  // ---------------------------------------------------------------------------
  // The positional predicates against the counting definitions
  // ---------------------------------------------------------------------------

  /** isOnePair holds exactly when one adjacent position pair has equal ranks, sorted or not. */
  lemma OnePairIsOneAdjacentPair(h: Hand)
    ensures IsOnePair(h) <==> AdjacentPairs(h) == 1
  {
    FirstPairCases(h, 0);
    FirstPairCases(h, FirstPairFrom(h, 0) + 1);
  }

  /** A sorted hand's ranks, spelled out position by position. */
  lemma SortedRanks(h: Hand)
    requires SortedByRank(h)
    ensures h[0].rank <= h[1].rank <= h[2].rank <= h[3].rank <= h[4].rank
  {
    assert h[0].rank <= h[1].rank && h[1].rank <= h[2].rank;
    assert h[2].rank <= h[3].rank && h[3].rank <= h[4].rank;
  }

  /** On a sorted hand two positions hold one rank exactly when every adjacent pair between them does. */
  lemma SortedRankEqualities(h: Hand)
    requires SortedByRank(h)
    ensures h[0].rank == h[2].rank <==> AdjacentEqual(h, 0) && AdjacentEqual(h, 1)
    ensures h[1].rank == h[3].rank <==> AdjacentEqual(h, 1) && AdjacentEqual(h, 2)
    ensures h[2].rank == h[4].rank <==> AdjacentEqual(h, 2) && AdjacentEqual(h, 3)
    ensures h[0].rank == h[3].rank <==> AdjacentEqual(h, 0) && AdjacentEqual(h, 1) && AdjacentEqual(h, 2)
    ensures h[1].rank == h[4].rank <==> AdjacentEqual(h, 1) && AdjacentEqual(h, 2) && AdjacentEqual(h, 3)
    ensures h[0].rank == h[4].rank <==> AdjacentEqual(h, 0) && AdjacentEqual(h, 1) && AdjacentEqual(h, 2) && AdjacentEqual(h, 3)
  {
    SortedRanks(h);
  }

  /** On a sorted hand, isFourOfAKind: some rank occurs four or more times. */
  lemma FourOfAKindMeaning(h: Hand)
    requires SortedByRank(h)
    ensures IsFourOfAKind(h) <==> FourByCount(h)
  {
    SortedRanks(h);
    if FourByCount(h) {
      var i :| 0 <= i < 5 && GroupSize(h, i) >= 4;
    }
    if IsFourOfAKind(h) {
      assert GroupSize(h, 2) >= 4;
    }
  }

  /** On a sorted hand, isFullHouse: three of one rank and two of another, or all five alike. */
  lemma FullHouseMeaning(h: Hand)
    requires SortedByRank(h)
    ensures IsFullHouse(h) <==> FullHouseByCount(h) || FiveOfAKind(h)
  {
    SortedRanks(h);
  }

  // On a sorted hand the four adjacent equalities decide every category; the
  // shapes below name the patterns that make up each one.

  /** Exactly one run of three equal ranks, the other two cards unpaired. */
  predicate TripsShape(h: Hand) {
    || (AdjacentEqual(h, 0) && AdjacentEqual(h, 1) && !AdjacentEqual(h, 2) && !AdjacentEqual(h, 3))
    || (!AdjacentEqual(h, 0) && AdjacentEqual(h, 1) && AdjacentEqual(h, 2) && !AdjacentEqual(h, 3))
    || (!AdjacentEqual(h, 0) && !AdjacentEqual(h, 1) && AdjacentEqual(h, 2) && AdjacentEqual(h, 3))
  }

  /** Two separate adjacent pairs, nothing else equal. */
  predicate TwoPairShape(h: Hand) {
    || (AdjacentEqual(h, 0) && !AdjacentEqual(h, 1) && AdjacentEqual(h, 2) && !AdjacentEqual(h, 3))
    || (AdjacentEqual(h, 0) && !AdjacentEqual(h, 1) && !AdjacentEqual(h, 2) && AdjacentEqual(h, 3))
    || (!AdjacentEqual(h, 0) && AdjacentEqual(h, 1) && !AdjacentEqual(h, 2) && AdjacentEqual(h, 3))
  }

  /** isThreeOfAKind on a sorted hand has the trips shape. */
  lemma ThreeOfAKindShape(h: Hand)
    requires SortedByRank(h)
    ensures IsThreeOfAKind(h) <==> TripsShape(h)
  {
    SortedRankEqualities(h);
    FirstPairCases(h, 0);
  }

  /** The counting three of a kind on a sorted hand has the trips shape. */
  lemma TripsByCountShape(h: Hand)
    requires SortedByRank(h)
    ensures TripsByCount(h) <==> TripsShape(h)
  {
    SortedRankEqualities(h);
  }

  /** isTwoPair has the two-pair shape, sorted or not. */
  lemma TwoPairShapeOf(h: Hand)
    ensures IsTwoPair(h) <==> TwoPairShape(h)
  {
    FirstPairCases(h, 0);
    FirstPairCases(h, FirstPairFrom(h, 0) + 2);
  }

  /** The counting two pair on a sorted hand has the two-pair shape. */
  lemma TwoPairByCountShape(h: Hand)
    requires SortedByRank(h)
    ensures TwoPairByCount(h) <==> TwoPairShape(h)
  {
    SortedRankEqualities(h);
  }

  /** The counting one pair on a sorted hand: exactly one adjacent pair. */
  lemma OnePairByCountShape(h: Hand)
    requires SortedByRank(h)
    ensures OnePairByCount(h) <==> AdjacentPairs(h) == 1
  {
    SortedRankEqualities(h);
  }

  /** On a sorted hand, isThreeOfAKind: three of one rank and two unpaired cards. */
  lemma {:induction false} ThreeOfAKindMeaning(h: Hand)
    requires SortedByRank(h)
    ensures IsThreeOfAKind(h) <==> TripsByCount(h)
  {
    ThreeOfAKindShape(h);
    TripsByCountShape(h);
  }

  /** On a sorted hand, isTwoPair: two different ranks occur twice each. */
  lemma {:induction false} TwoPairMeaning(h: Hand)
    requires SortedByRank(h)
    ensures IsTwoPair(h) <==> TwoPairByCount(h)
  {
    TwoPairShapeOf(h);
    TwoPairByCountShape(h);
  }

  /** On a sorted hand, isOnePair: one rank twice and three unpaired cards. */
  lemma {:induction false} OnePairMeaning(h: Hand)
    requires SortedByRank(h)
    ensures IsOnePair(h) <==> OnePairByCount(h)
  {
    OnePairIsOneAdjacentPair(h);
    OnePairByCountShape(h);
  }

  // ---------------------------------------------------------------------------
  // Straights and flushes
  // ---------------------------------------------------------------------------

  /** The rank list of a hand, position by position. */
  lemma RanksAt(h: Hand)
    ensures forall k | 0 <= k < 5 :: Ranks(h)[k] == h[k].rank
  {
  }

  /** isStraight on a sorted hand: five different ranks spanning exactly four, or the ace-low straight. */
  lemma {:induction false} StraightMeaning(h: Hand)
    requires SortedByRank(h)
    ensures Straight(h) <==> (DistinctRanks(h) && h[4].rank - h[0].rank == 4) || AceLowStraight(h)
  {
    SortedRanks(h);
    RanksAt(h);
    var lo := h[0].rank;
    if DistinctRanks(h) && h[4].rank - h[0].rank == 4 {
      assert h[0].rank < h[1].rank < h[2].rank < h[3].rank < h[4].rank by {
        assert h[0].rank != h[1].rank && h[1].rank != h[2].rank;
        assert h[2].rank != h[3].rank && h[3].rank != h[4].rank;
      }
      assert Ranks(h) == [lo, lo + 1, lo + 2, lo + 3, lo + 4];
    }
  }

  /** No two adjacent positions of a straight share a rank. */
  lemma StraightHasNoPairs(h: Hand)
    requires Straight(h)
    ensures AdjacentPairs(h) == 0
  {
    RanksAt(h);
  }

  /** A flush of five different cards has no two cards of one rank next to each other. */
  lemma FlushHasNoPairs(h: Hand)
    requires DistinctCards(h) && Flush(h)
    ensures AdjacentPairs(h) == 0
  {
    forall a | 0 <= a < 4
      ensures !AdjacentEqual(h, a)
    {
      assert h[a].suit == h[a + 1].suit;
      assert h[a] != h[a + 1];
    }
  }

  /** Five suits drawn from four values repeat one. */
  lemma FiveSuitsRepeat(s0: Suit, s1: Suit, s2: Suit, s3: Suit, s4: Suit)
    ensures || s0 == s1 || s0 == s2 || s0 == s3 || s0 == s4 || s1 == s2
            || s1 == s3 || s1 == s4 || s2 == s3 || s2 == s4 || s3 == s4
  {
  }

  /** Five different cards never share one rank. */
  lemma {:induction false} NoFiveOfAKind(h: Hand)
    requires DistinctCards(h)
    ensures !FiveOfAKind(h)
  {
    FiveSuitsRepeat(h[0].suit, h[1].suit, h[2].suit, h[3].suit, h[4].suit);
  }

  /** Without an adjacent pair none of the positional pair predicates holds. */
  lemma {:induction false} NoPairsNoGroups(h: Hand)
    requires AdjacentPairs(h) == 0
    ensures !IsOnePair(h) && !IsTwoPair(h) && !IsThreeOfAKind(h) && !IsFullHouse(h) && !IsFourOfAKind(h)
  {
    OnePairIsOneAdjacentPair(h);
    TwoPairShapeOf(h);
    FirstPairCases(h, 0);
  }

  /**
   * isTwoPair and isThreeOfAKind exclude four of a kind and full house, and
   * isThreeOfAKind never starts from a pair at position 3.
   */
  lemma GroupPredicatesExclusive(h: Hand)
    ensures IsTwoPair(h) ==> !IsFourOfAKind(h) && !IsFullHouse(h)
    ensures IsThreeOfAKind(h) ==> !IsFourOfAKind(h) && !IsFullHouse(h)
    ensures FirstPairFrom(h, 0) == 3 ==> !IsThreeOfAKind(h)
  {
  }

  // ---------------------------------------------------------------------------
  // getHandTypeValue against the categories in strength order
  // ---------------------------------------------------------------------------

  /**
   * For five different cards in rank order, the check order of
   * getHandTypeValue still yields the strongest category that holds.
   */
  lemma {:induction false} HandTypeValueIsCategory(h: Hand)
    requires SortedByRank(h) && DistinctCards(h)
    ensures HandTypeValue(h) == PokerCategory(h)
  {
    FourOfAKindMeaning(h);
    FullHouseMeaning(h);
    NoFiveOfAKind(h);
    if Flush(h) || Straight(h) {
      if Flush(h) {
        FlushHasNoPairs(h);
      } else {
        StraightHasNoPairs(h);
      }
      NoPairsNoGroups(h);
    } else {
      PairCategoriesInOrder(h);
    }
  }

  /** Neither straight nor flush: the pair categories come out in strength order. */
  lemma {:induction false} PairCategoriesInOrder(h: Hand)
    requires SortedByRank(h) && !FiveOfAKind(h) && !Flush(h) && !Straight(h)
    ensures HandTypeValue(h) == PokerCategory(h)
  {
    FourOfAKindMeaning(h);
    FullHouseMeaning(h);
    if IsFourOfAKind(h) || IsFullHouse(h) {
      OnePairIsOneAdjacentPair(h);
    } else {
      SmallGroupsInOrder(h);
    }
  }

  /** No four of a kind or full house besides: trips, two pair, one pair and high card in strength order. */
  lemma {:induction false} SmallGroupsInOrder(h: Hand)
    requires SortedByRank(h) && !Flush(h) && !Straight(h)
    requires !FourByCount(h) && !FullHouseByCount(h) && !IsFourOfAKind(h) && !IsFullHouse(h)
    ensures HandTypeValue(h) == PokerCategory(h)
  {
    ThreeOfAKindMeaning(h);
    TwoPairMeaning(h);
    OnePairMeaning(h);
  }

  /** With a card repeated five times the check order misreads four of a kind as a flush. */
  lemma {:induction false} RepeatedCardMisclassified(h: Hand)
    requires forall i | 0 <= i < 5 :: h[i] == h[0]
    ensures SortedByRank(h)
    ensures HandTypeValue(h) == 6 && PokerCategory(h) == 8
  {
    RanksAt(h);
    assert h[1] == h[0] && h[2] == h[0] && h[3] == h[0] && h[4] == h[0];
    assert GroupSize(h, 0) == 5;
    FirstPairCases(h, 0);
    FirstPairCases(h, 1);
  }

  // ---------------------------------------------------------------------------
  // getHandRank: the representative rank of each category
  // ---------------------------------------------------------------------------

  /** For one pair, getHandRank is the rank of the pair, the only rank that occurs twice or more. */
  lemma {:induction false} OnePairRank(h: Hand, x: int)
    requires SortedByRank(h) && IsOnePair(h)
    ensures RankCount(h, HandRank(h)) == 2
    ensures RankCount(h, x) >= 2 ==> HandRank(h) == x
  {
    OnePairIsOneAdjacentPair(h);
    FirstPairCases(h, 0);
    assert HandRank(h) == h[FirstPairFrom(h, 0)].rank;
    OnlyPairCount(h);
    if RankCount(h, x) >= 2 {
      RepeatedRankIsAdjacent(h, x);
    }
  }

  /** With exactly one adjacent pair on a sorted hand, its rank occurs exactly twice. */
  lemma OnlyPairCount(h: Hand)
    requires SortedByRank(h) && AdjacentPairs(h) == 1
    ensures forall a | 0 <= a < 4 && AdjacentEqual(h, a) :: RankCount(h, h[a].rank) == 2
  {
    SortedRanks(h);
    SortedRankEqualities(h);
  }

  /** On a sorted hand a rank that occurs twice or more occurs at some pair of adjacent positions. */
  lemma RepeatedRankIsAdjacent(h: Hand, x: int)
    requires SortedByRank(h) && RankCount(h, x) >= 2
    ensures || (AdjacentEqual(h, 0) && h[0].rank == x) || (AdjacentEqual(h, 1) && h[1].rank == x)
            || (AdjacentEqual(h, 2) && h[2].rank == x) || (AdjacentEqual(h, 3) && h[3].rank == x)
  {
    SortedRanks(h);
  }

  /** For two pair, getHandRank is the higher of the two paired ranks. */
  lemma {:induction false} TwoPairRank(h: Hand)
    requires SortedByRank(h) && IsTwoPair(h)
    ensures RankCount(h, HandRank(h)) == 2
    ensures forall i | 0 <= i < 5 && GroupSize(h, i) == 2 :: h[i].rank <= HandRank(h)
  {
    TwoPairShapeOf(h);
    assert HandRank(h) == h[3].rank;
    HigherPairAtThree(h);
  }

  /** In the two-pair shape of a sorted hand, position 3 holds the higher pair. */
  lemma HigherPairAtThree(h: Hand)
    requires SortedByRank(h) && TwoPairShape(h)
    ensures RankCount(h, h[3].rank) == 2
    ensures forall i | 0 <= i < 5 && GroupSize(h, i) == 2 :: h[i].rank <= h[3].rank
  {
    SortedRanks(h);
    SortedRankEqualities(h);
  }

  /** For trips, quads and the full house, getHandRank is the rank that occurs three times or more. */
  lemma {:induction false} GroupRank(h: Hand)
    requires SortedByRank(h)
    requires IsThreeOfAKind(h) || IsFourOfAKind(h) || IsFullHouse(h)
    ensures RankCount(h, HandRank(h)) >= 3
  {
    OnePairIsOneAdjacentPair(h);
    if IsThreeOfAKind(h) {
      ThreeOfAKindShape(h);
      SortedRankEqualities(h);
    }
  }

  /** The ace-low straight ranks as a five-high hand. */
  lemma {:induction false} AceLowStraightRank(h: Hand)
    requires AceLowStraight(h)
    ensures HandRank(h) == 5
  {
    StraightHasNoPairs(h);
    NoPairsNoGroups(h);
  }

  /** With no two cards of one rank and no ace-low straight, getHandRank is the highest rank in the hand. */
  lemma {:induction false} HighCardRank(h: Hand)
    requires SortedByRank(h) && DistinctRanks(h) && !AceLowStraight(h)
    ensures RankCount(h, HandRank(h)) == 1
    ensures forall i | 0 <= i < 5 :: h[i].rank <= HandRank(h)
  {
    SortedRanks(h);
    assert AdjacentPairs(h) == 0 by {
      assert h[0].rank != h[1].rank && h[1].rank != h[2].rank;
      assert h[2].rank != h[3].rank && h[3].rank != h[4].rank;
    }
    NoPairsNoGroups(h);
    assert h[0].rank != h[4].rank && h[1].rank != h[4].rank;
    assert h[2].rank != h[4].rank && h[3].rank != h[4].rank;
  }

  // ---------------------------------------------------------------------------
  // compareTo: an order on (category value, representative rank)
  // ---------------------------------------------------------------------------

  /** Every hand ties with itself. */
  lemma CompareToReflexive(h: Hand)
    ensures CompareTo(h, h) == 0
  {
  }

  /** Swapping the hands negates the comparison. */
  lemma CompareToAntisymmetric(h: Hand, other: Hand)
    ensures CompareTo(h, other) == -CompareTo(other, h)
  {
  }

  /** "At least as strong" is transitive. */
  lemma CompareToTransitive(a: Hand, b: Hand, c: Hand)
    ensures CompareTo(a, b) >= 0 && CompareTo(b, c) >= 0 ==> CompareTo(a, c) >= 0
    ensures CompareTo(a, b) == 1 && CompareTo(b, c) >= 0 ==> CompareTo(a, c) == 1
    ensures CompareTo(a, b) >= 0 && CompareTo(b, c) == 1 ==> CompareTo(a, c) == 1
  {
  }

  /** Between hands of five different cards, a stronger category always wins. */
  lemma {:induction false} StrongerCategoryWins(h: Hand, other: Hand)
    requires SortedByRank(h) && DistinctCards(h)
    requires SortedByRank(other) && DistinctCards(other)
    requires PokerCategory(h) > PokerCategory(other)
    ensures CompareTo(h, other) == 1
  {
    HandTypeValueIsCategory(h);
    HandTypeValueIsCategory(other);
  }

  /**
   * Two one-pair hands with pairs of the same rank tie, whatever their other
   * three cards: the kickers are never compared.
   */
  lemma {:induction false} KickersIgnored(h: Hand, other: Hand, x: int)
    requires SortedByRank(h) && IsOnePair(h) && RankCount(h, x) == 2
    requires SortedByRank(other) && IsOnePair(other) && RankCount(other, x) == 2
    ensures CompareTo(h, other) == 0
  {
    OnePairRank(h, x);
    OnePairRank(other, x);
    OnePairIsOneAdjacentPair(h);
    OnePairIsOneAdjacentPair(other);
    if Straight(h) {
      StraightHasNoPairs(h);
    }
    if Straight(other) {
      StraightHasNoPairs(other);
    }
  }
}
