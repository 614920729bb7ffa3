/**
 * PokerHandImpl: five cards, sorted by rank once at construction, and the
 * category predicates, category value, representative rank and comparison
 * built on the sorted positions 0..4.
 */
module PokerHands {
  import opened Wrappers
  import opened Cards
  import opened Sequences

  /** The five cards a hand stores. */
  type Hand = s: seq<Card> | |s| == 5
    witness [Card(2, Spades), Card(3, Spades), Card(4, Spades), Card(5, Spades), Card(6, Spades)]

  /** The three RuntimeExceptions of the constructor. */
  datatype HandError = NullArray | WrongLength | NullCard

  /** Ranks ascend from left to right. */
  predicate SortedByRank(s: seq<Card>) {
    forall i, j | 0 <= i < j < |s| :: s[i].rank <= s[j].rank
  }

  /** The ranks of a hand, position by position. */
  function Ranks(h: Hand): seq<int> {
    [h[0].rank, h[1].rank, h[2].rank, h[3].rank, h[4].rank]
  }

  // ---------------------------------------------------------------------------
  // Construction: the nested-loop exchange sort
  // ---------------------------------------------------------------------------

  /**
   * The inner loop for a fixed i, from position j on: whenever s[j] ranks below
   * s[i] the two are swapped. Only positions i.. ever move.
   */
  function Pass(s: seq<Card>, i: nat, j: nat): (r: seq<Card>)
    requires i < |s| && i <= j <= |s|
    ensures |r| == |s|
    ensures forall k | 0 <= k < i :: r[k] == s[k]
    decreases |s| - j
  {
    if j == |s| then s
    else Pass(if s[j].rank < s[i].rank then SwapAt(s, i, j) else s, i, j + 1)
  }

  /** The outer loop from position i on. */
  function SortFrom(s: seq<Card>, i: nat): (r: seq<Card>)
    requires i <= |s|
    ensures |r| == |s|
    decreases |s| - i
  {
    if i == |s| then s else SortFrom(Pass(s, i, i), i + 1)
  }

  /** The order the constructor leaves the cards in. */
  function ExchangeSort(s: seq<Card>): (r: seq<Card>)
    ensures |r| == |s|
  {
    SortFrom(s, 0)
  }

  /** A pass only swaps, so it rearranges the cards. */
  lemma {:induction false} PassPermutes(s: seq<Card>, i: nat, j: nat)
    requires i < |s| && i <= j <= |s|
    ensures multiset(Pass(s, i, j)) == multiset(s)
    decreases |s| - j
  {
    if j < |s| {
      var t := if s[j].rank < s[i].rank then SwapAt(s, i, j) else s;
      if s[j].rank < s[i].rank {
        SwapAtPermutes(s, i, j);
      }
      PassPermutes(t, i, j + 1);
    }
  }

  /** The remaining passes rearrange the cards. */
  lemma {:induction false} SortFromPermutes(s: seq<Card>, i: nat)
    requires i <= |s|
    ensures multiset(SortFrom(s, i)) == multiset(s)
    decreases |s| - i
  {
    if i < |s| {
      PassPermutes(s, i, i);
      SortFromPermutes(Pass(s, i, i), i + 1);
    }
  }

  /** After the pass for i, position i holds a lowest rank of positions i... */
  lemma {:induction false} PassLeavesMinimum(s: seq<Card>, i: nat, j: nat)
    requires i < |s| && i <= j <= |s|
    requires forall k | i <= k < j :: s[i].rank <= s[k].rank
    ensures forall k | i <= k < |s| :: Pass(s, i, j)[i].rank <= Pass(s, i, j)[k].rank
    decreases |s| - j
  {
    if j < |s| {
      var t := if s[j].rank < s[i].rank then SwapAt(s, i, j) else s;
      PassLeavesMinimum(t, i, j + 1);
    }
  }

  /** A pass only exchanges positions at or after i, so nothing before i outranks anything after. */
  lemma {:induction false} PassKeepsSplit(s: seq<Card>, i: nat, j: nat)
    requires i < |s| && i <= j <= |s|
    requires forall a, b | 0 <= a < i <= b < |s| :: s[a].rank <= s[b].rank
    ensures forall a, b | 0 <= a < i <= b < |s| :: Pass(s, i, j)[a].rank <= Pass(s, i, j)[b].rank
    decreases |s| - j
  {
    if j < |s| {
      var t := if s[j].rank < s[i].rank then SwapAt(s, i, j) else s;
      PassKeepsSplit(t, i, j + 1);
    }
  }

  /** With positions ..i sorted and no lower than the rest, the remaining passes sort everything. */
  lemma {:induction false} SortFromSorts(s: seq<Card>, i: nat)
    requires i <= |s|
    requires forall a, b | 0 <= a < b < i :: s[a].rank <= s[b].rank
    requires forall a, b | 0 <= a < i <= b < |s| :: s[a].rank <= s[b].rank
    ensures SortedByRank(SortFrom(s, i))
    decreases |s| - i
  {
    if i < |s| {
      var t := Pass(s, i, i);
      PassLeavesMinimum(s, i, i);
      PassKeepsSplit(s, i, i);
      SortFromSorts(t, i + 1);
    }
  }

  /** The exchange sort sorts by rank (and, by its contract, permutes). */
  lemma ExchangeSortSorts(s: seq<Card>)
    ensures SortedByRank(ExchangeSort(s)) && multiset(ExchangeSort(s)) == multiset(s)
  {
    SortFromSorts(s, 0);
    SortFromPermutes(s, 0);
  }

  /** A pass over cards already in rank order swaps nothing. */
  lemma {:induction false} PassOnSorted(s: seq<Card>, i: nat, j: nat)
    requires SortedByRank(s) && i < |s| && i <= j <= |s|
    ensures Pass(s, i, j) == s
    decreases |s| - j
  {
    if j < |s| {
      PassOnSorted(s, i, j + 1);
    }
  }

  /** The remaining passes over cards already in rank order swap nothing. */
  lemma {:induction false} SortFromOnSorted(s: seq<Card>, i: nat)
    requires SortedByRank(s) && i <= |s|
    ensures SortFrom(s, i) == s
    decreases |s| - i
  {
    if i < |s| {
      PassOnSorted(s, i, i);
      SortFromOnSorted(s, i + 1);
    }
  }

  /** Sorting a hand a second time changes nothing. */
  lemma ExchangeSortIdempotent(s: seq<Card>)
    ensures ExchangeSort(ExchangeSort(s)) == ExchangeSort(s)
  {
    ExchangeSortSorts(s);
    SortFromOnSorted(ExchangeSort(s), 0);
  }

  /**
   * The sort is not stable: of two cards of rank 3 the one given first ends
   * up second once a lower card is swapped past it, e.g. 3 of Spades, 3 of
   * Hearts, 2 of Clubs, 4, 5 comes out as 2 of Clubs, 3 of Hearts, 3 of Spades, 4, 5.
   */
  lemma {:induction false} ExchangeSortNotStable(x: Card, y: Card, z: Card, u: Card, w: Card)
    requires x.rank == 3 && y.rank == 3 && z.rank == 2 && u.rank == 4 && w.rank == 5
    ensures ExchangeSort([x, y, z, u, w]) == [z, y, x, u, w]
  {
    var s, t := [x, y, z, u, w], [z, y, x, u, w];
    assert SwapAt(s, 0, 2) == t;
    PassOnSorted(t, 0, 3);
    PassStep(s, 0, 2);
    PassStep(s, 0, 1);
    PassStep(s, 0, 0);
    SortFromOnSorted(t, 1);
  }

  /** One step of the inner loop. */
  lemma PassStep(s: seq<Card>, i: nat, j: nat)
    requires i < |s| && i <= j < |s|
    ensures Pass(s, i, j) == Pass(if s[j].rank < s[i].rank then SwapAt(s, i, j) else s, i, j + 1)
  {
  }

  /** The nested loops of the constructor, in place on the copied array. */
  method SortByRank(a: array<Card>)
    modifies a
    ensures a[..] == ExchangeSort(old(a[..]))
  {
    for i := 0 to a.Length
      invariant SortFrom(a[..], i) == ExchangeSort(old(a[..]))
    {
      for j := i to a.Length
        invariant SortFrom(Pass(a[..], i, j), i + 1) == ExchangeSort(old(a[..]))
      {
        ghost var before := a[..];
        PassStep(before, i, j);
        if a[j].rank < a[i].rank {
          var tmp := a[i];
          a[i] := a[j];
          a[j] := tmp;
          assert a[..] == SwapAt(before, i, j);
        }
      }
    }
  }

  /** The cards of an array none of whose elements is null. */
  function Present(s: seq<Option<Card>>): (r: seq<Card>)
    requires forall i | 0 <= i < |s| :: s[i].Some?
    ensures |r| == |s| && forall i | 0 <= i < |s| :: s[i] == Some(r[i])
  {
    seq(|s|, i requires 0 <= i < |s| => s[i].value)
  }

  /**
   * The constructor. A null array, a length other than 5 and a null element
   * are refused in that order; otherwise the hand is a copy of the cards in
   * the exchange sort's order, so sorted by rank and a permutation of the
   * argument, which is left as it was.
   */
  method NewHand(cards: array?<Option<Card>>) returns (r: Result<Hand, HandError>)
    ensures cards == null ==> r == Failure(NullArray)
    ensures cards != null && cards.Length != 5 ==> r == Failure(WrongLength)
    ensures cards != null && cards.Length == 5 ==>
      if forall i | 0 <= i < 5 :: cards[i].Some? then
        && r.Success?
        && r.value == ExchangeSort(Present(cards[..]))
        && SortedByRank(r.value)
        && multiset(r.value) == multiset(Present(cards[..]))
      else
        r == Failure(NullCard)
  {
    if cards == null {
      return Failure(NullArray);
    }
    if cards.Length != 5 {
      return Failure(WrongLength);
    }
    for i := 0 to 5
      invariant forall k | 0 <= k < i :: cards[k].Some?
    {
      if cards[i].None? {
        return Failure(NullCard);
      }
    }
    var hand := new Card[5](k requires 0 <= k < cards.Length && cards[k].Some? reads cards => cards[k].value);
    assert hand[..] == Present(cards[..]);
    SortByRank(hand);
    ExchangeSortSorts(Present(cards[..]));
    r := Success(hand[..]);
  }

  /** getCards: a fresh array holding the stored cards. */
  method GetCards(h: Hand) returns (a: array<Card>)
    ensures fresh(a) && a[..] == h
  {
    a := new Card[5](i requires 0 <= i < 5 => h[i]);
  }

  // ---------------------------------------------------------------------------
  // The read-only scans and what they compute
  // ---------------------------------------------------------------------------

  /** contains: some stored card equals the argument. */
  method Contains(h: Hand, testCard: Card) returns (b: bool)
    ensures b <==> testCard in h
  {
    for i := 0 to 5
      invariant testCard !in h[..i]
    {
      if Equals(h[i], testCard) {
        return true;
      }
    }
    return false;
  }

  /** All five cards share one suit. */
  predicate Flush(h: Hand) {
    forall i, j | 0 <= i < 5 && 0 <= j < 5 :: h[i].suit == h[j].suit
  }

  /** isFlush: compares every suit with the first card's. */
  method IsFlush(h: Hand) returns (b: bool)
    ensures b == Flush(h)
  {
    for i := 1 to 5
      invariant forall k | 0 <= k < i :: h[k].suit == h[0].suit
    {
      if h[i].suit != h[0].suit {
        return false;
      }
    }
    return true;
  }

  /** The ranks are exactly 2, 3, 4, 5, Ace in that order. */
  predicate AceLowStraight(h: Hand) {
    Ranks(h) == [2, 3, 4, 5, 14]
  }

  /** The ranks are five consecutive values, ascending from the first card's. */
  predicate Consecutive(h: Hand) {
    var lo := h[0].rank;
    Ranks(h) == [lo, lo + 1, lo + 2, lo + 3, lo + 4]
  }

  /** A straight: consecutive ranks, or the ace-low straight. */
  predicate Straight(h: Hand) {
    Consecutive(h) || AceLowStraight(h)
  }

  /** isAceStraight: an ace last and 2, 3, 4, 5 before it. */
  method IsAceStraight(h: Hand) returns (b: bool)
    ensures b == AceLowStraight(h)
  {
    if h[4].rank != 14 {
      return false;
    }
    for i := 0 to 4
      invariant forall k | 0 <= k < i :: h[k].rank == k + 2
    {
      if h[i].rank != i + 2 {
        return false;
      }
    }
    return true;
  }

  /** isStraight: each rank one above the one before, or else the ace-low check. */
  method IsStraight(h: Hand) returns (b: bool)
    ensures b == Straight(h)
  {
    var straight := true;
    for i := 0 to 4
      invariant straight
      invariant forall k | 0 <= k < i :: h[k].rank + 1 == h[k + 1].rank
    {
      if h[i].rank + 1 != h[i + 1].rank {
        straight := false;
        break;
      }
    }
    if straight {
      b := true;
    } else {
      b := IsAceStraight(h);
    }
  }

  /** The start index of numPairsFrom's search: negative indices start at 0. */
  function SearchStart(index: int): nat {
    if index < 0 then 0 else index
  }

  /**
   * The first position i at or after the search start, below 4, whose card has
   * the same rank as the next one; -1 when there is none.
   */
  function FirstPairFrom(h: Hand, index: int): (r: int)
    ensures r == -1 || (SearchStart(index) <= r < 4 && h[r].rank == h[r + 1].rank)
    ensures forall i | SearchStart(index) <= i < 4 && (r == -1 || i < r) :: h[i].rank != h[i + 1].rank
    decreases 5 - SearchStart(index)
  {
    var start := SearchStart(index);
    if start >= 4 then -1
    else if h[start].rank == h[start + 1].rank then start
    else FirstPairFrom(h, start + 1)
  }

  /** numPairsFrom: the scan for an adjacent pair of equal ranks. */
  method NumPairsFrom(h: Hand, index: int) returns (r: int)
    ensures r == FirstPairFrom(h, index)
  {
    var start := index;
    if start < 0 {
      start := 0;
    }
    if start >= 4 {
      return -1;
    }
    for i := start to 4
      invariant forall k | start <= k < i :: h[k].rank != h[k + 1].rank
    {
      if h[i].rank == h[i + 1].rank {
        return i;
      }
    }
    return -1;
  }

  // ---------------------------------------------------------------------------
  // The category predicates, as written over positions 0..4
  // ---------------------------------------------------------------------------

  /** Positions a and a + 1 hold the same rank. */
  predicate AdjacentEqual(h: Hand, a: int)
    requires 0 <= a < 4
  {
    h[a].rank == h[a + 1].rank
  }

  /** 1 when positions a and a + 1 hold the same rank, else 0. */
  function AdjacentIndicator(h: Hand, a: nat): nat
    requires a < 4
  {
    if AdjacentEqual(h, a) then 1 else 0
  }

  /** The number of positions a in 0..3 whose rank equals that of position a + 1. */
  function AdjacentPairs(h: Hand): nat {
    AdjacentIndicator(h, 0) + AdjacentIndicator(h, 1) + AdjacentIndicator(h, 2) + AdjacentIndicator(h, 3)
  }

  /** numPairsFrom in closed form: the first of positions 0..3 from the search start whose rank repeats next. */
  lemma FirstPairCases(h: Hand, index: int)
    ensures FirstPairFrom(h, index) ==
      var k := SearchStart(index);
      if k <= 0 && AdjacentEqual(h, 0) then 0
      else if k <= 1 && AdjacentEqual(h, 1) then 1
      else if k <= 2 && AdjacentEqual(h, 2) then 2
      else if k <= 3 && AdjacentEqual(h, 3) then 3
      else -1
  {
  }

  /** isOnePair: a first adjacent pair, and none from the position after it. */
  predicate IsOnePair(h: Hand): (b: bool)
    ensures b ==> !IsTwoPair(h) && !IsThreeOfAKind(h) && !IsFullHouse(h) && !IsFourOfAKind(h)
  {
    FirstPairCases(h, 0);
    FirstPairCases(h, FirstPairFrom(h, 0) + 1);
    FirstPairCases(h, FirstPairFrom(h, 0) + 2);
    FirstPairFrom(h, 0) != -1 && FirstPairFrom(h, FirstPairFrom(h, 0) + 1) == -1
  }

  /** isTwoPair: a first adjacent pair, another from two past it, and neither quads nor a full house. */
  predicate IsTwoPair(h: Hand): (b: bool)
    ensures b ==> !IsThreeOfAKind(h) && FirstPairFrom(h, 0) <= 1
  {
    FirstPairCases(h, 0);
    FirstPairCases(h, FirstPairFrom(h, 0) + 2);
    && FirstPairFrom(h, 0) != -1
    && FirstPairFrom(h, FirstPairFrom(h, 0) + 2) != -1
    && !IsFourOfAKind(h) && !IsFullHouse(h)
  }

  /** isThreeOfAKind: the first adjacent pair, not at 3, extends to a third card; neither quads nor a full house. */
  predicate IsThreeOfAKind(h: Hand): (b: bool)
    ensures b ==> 0 <= FirstPairFrom(h, 0) < 3
    ensures b ==> h[FirstPairFrom(h, 0)].rank == h[FirstPairFrom(h, 0) + 1].rank == h[FirstPairFrom(h, 0) + 2].rank
  {
    if FirstPairFrom(h, 0) == -1 || FirstPairFrom(h, 0) == 3 then false
    else h[FirstPairFrom(h, 0)].rank == h[FirstPairFrom(h, 0) + 2].rank && !IsFourOfAKind(h) && !IsFullHouse(h)
  }

  /** isFullHouse: a pair then three equal, or three equal then a pair. */
  predicate IsFullHouse(h: Hand): (b: bool)
    ensures b ==> h[0].rank == h[1].rank && h[3].rank == h[4].rank
  {
    || (h[0].rank == h[1].rank && h[2].rank == h[3].rank && h[3].rank == h[4].rank)
    || (h[0].rank == h[1].rank && h[1].rank == h[2].rank && h[3].rank == h[4].rank)
  }

  /** isFourOfAKind: the first four or the last four ranks equal. */
  predicate IsFourOfAKind(h: Hand): (b: bool)
    ensures b ==> h[1].rank == h[2].rank == h[3].rank
  {
    || (h[0].rank == h[1].rank && h[1].rank == h[2].rank && h[2].rank == h[3].rank)
    || (h[1].rank == h[2].rank && h[2].rank == h[3].rank && h[3].rank == h[4].rank)
  }

  /** isStraightFlush: isStraight and isFlush. */
  predicate IsStraightFlush(h: Hand): (b: bool)
    ensures b ==> FirstPairFrom(h, 0) == -1
  {
    assert Straight(h) ==> forall k | 0 <= k < 5 :: Ranks(h)[k] == h[k].rank;
    Straight(h) && Flush(h)
  }

  /**
   * getHandTypeValue: the categories are tested in the order straight flush,
   * one pair, two pair, three of a kind, straight, flush, full house, four of
   * a kind; the first that holds decides.
   */
  function HandTypeValue(h: Hand): (v: int)
    ensures 1 <= v <= 9
    ensures IsStraightFlush(h) ==> v == 9
    ensures v == 1 ==> !IsOnePair(h) && !IsTwoPair(h) && !IsThreeOfAKind(h) && !Straight(h)
                       && !Flush(h) && !IsFullHouse(h) && !IsFourOfAKind(h)
  {
    if IsStraightFlush(h) then 9
    else if IsOnePair(h) then 2
    else if IsTwoPair(h) then 3
    else if IsThreeOfAKind(h) then 4
    else if Straight(h) then 5
    else if Flush(h) then 6
    else if IsFullHouse(h) then 7
    else if IsFourOfAKind(h) then 8
    else 1
  }

  /**
   * getHandRank: the paired rank for one pair, position 3 for two pair,
   * position 2 for trips, quads and full house, 5 for the ace-low straight,
   * and the last position otherwise.
   */
  function HandRank(h: Hand): (r: int)
    ensures r == h[0].rank || r == h[1].rank || r == h[2].rank || r == h[3].rank || r == h[4].rank
  {
    assert AceLowStraight(h) ==> h[3].rank == Ranks(h)[3] == 5;
    if IsOnePair(h) then h[FirstPairFrom(h, 0)].rank
    else if IsTwoPair(h) then h[3].rank
    else if IsThreeOfAKind(h) || IsFourOfAKind(h) || IsFullHouse(h) then h[2].rank
    else if AceLowStraight(h) then 5
    else h[4].rank
  }

  /** Integer.compare. */
  function IntegerCompare(x: int, y: int): (c: int)
    ensures c == -1 <==> x < y
    ensures c == 0 <==> x == y
    ensures c == 1 <==> x > y
  {
    if x < y then -1 else if x == y then 0 else 1
  }

  /** compareTo: category value first, then the representative rank; nothing else. */
  function CompareTo(h: Hand, other: Hand): (c: int)
    ensures c == -1 || c == 0 || c == 1
    ensures c == 0 <==> HandTypeValue(h) == HandTypeValue(other) && HandRank(h) == HandRank(other)
    ensures c == 1 <==> HandTypeValue(h) > HandTypeValue(other)
                        || (HandTypeValue(h) == HandTypeValue(other) && HandRank(h) > HandRank(other))
  {
    if HandTypeValue(h) < HandTypeValue(other) then -1
    else if HandTypeValue(h) > HandTypeValue(other) then 1
    else IntegerCompare(HandRank(h), HandRank(other))
  }
}
