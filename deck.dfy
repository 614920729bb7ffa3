/**
 * DeckImpl: a 52-slot card array, filled suit by suit and shuffled in place,
 * and a count of the cards not yet dealt. The undealt cards are the last
 * cardsLeft slots; dealing moves the boundary one slot to the right.
 */
module Decks {
  import opened Wrappers
  import opened Cards
  import opened Sequences
  import opened PokerHands

  /** The number of cards in a deck. */
  const DeckSize: nat := 52

  /** The RuntimeExceptions of dealNextCard and dealHand. */
  datatype DeckError = NoCardsLeft | NotEnoughForHand

  // ---------------------------------------------------------------------------
  // The order the constructor fills the deck in, and what a full deck is
  // ---------------------------------------------------------------------------

  /** The fill order: for each suit in declaration order, the ranks 2 to 14. */
  function StandardOrder(): (r: seq<Card>)
    ensures |r| == DeckSize
  {
    seq(DeckSize, k requires 0 <= k < DeckSize => Card(k % 13 + 2, AllSuits[k / 13]))
  }

  /** Slot 13 * si + r of the fill order holds rank r + 2 of the si-th suit. */
  lemma StandardOrderAt(si: nat, r: nat)
    requires si < 4 && r < 13
    ensures StandardOrder()[13 * si + r] == Card(r + 2, AllSuits[si])
  {
    var k := 13 * si + r;
    assert k / 13 == si && k % 13 == r;
  }

  /** A full deck: every valid card exactly once and nothing else. */
  ghost predicate IsFullDeck(s: seq<Card>) {
    forall c :: multiset(s)[c] == if ValidCard(c) then 1 else 0
  }

  /** No two positions of s hold the same element. */
  predicate Distinct<T(==)>(s: seq<T>) {
    forall i, j | 0 <= i < j < |s| :: s[i] != s[j]
  }

  /** In a sequence without repetitions every element occurs exactly once. */
  lemma {:induction false} DistinctMultiplicity<T>(s: seq<T>, x: T)
    requires Distinct(s)
    ensures multiset(s)[x] == if x in s then 1 else 0
  {
    if s != [] {
      assert s == [s[0]] + s[1..];
      assert Distinct(s[1..]) by {
        forall i, j | 0 <= i < j < |s[1..]|
          ensures s[1..][i] != s[1..][j]
        {
          assert s[1..][i] == s[i + 1] && s[1..][j] == s[j + 1];
        }
      }
      DistinctMultiplicity(s[1..], x);
      if x == s[0] {
        assert x !in s[1..] by {
          forall k | 0 <= k < |s[1..]|
            ensures s[1..][k] != x
          {
            assert s[1..][k] == s[k + 1];
          }
        }
      }
    }
  }

  /** Index of a suit in declaration order. */
  function SuitIndex(s: Suit): (i: nat)
    ensures i < 4 && AllSuits[i] == s
  {
    match s
    case Spades => 0
    case Hearts => 1
    case Diamonds => 2
    case Clubs => 3
  }

  /** The fill order holds each of the 52 cards exactly once. */
  lemma {:induction false} StandardOrderIsFullDeck()
    ensures IsFullDeck(StandardOrder())
  {
    var s := StandardOrder();
    assert Distinct(s) by {
      forall i, j | 0 <= i < j < DeckSize
        ensures s[i] != s[j]
      {
        assert i == 13 * (i / 13) + i % 13 && j == 13 * (j / 13) + j % 13;
      }
    }
    forall c
      ensures multiset(s)[c] == if ValidCard(c) then 1 else 0
    {
      DistinctMultiplicity(s, c);
      if ValidCard(c) {
        StandardOrderAt(SuitIndex(c.suit), c.rank - 2);
        assert s[13 * SuitIndex(c.suit) + c.rank - 2] == c;
      } else {
        assert c !in s by {
          forall k | 0 <= k < DeckSize
            ensures s[k] != c
          {
            assert ValidCard(s[k]);
          }
        }
      }
    }
  }

  // ---------------------------------------------------------------------------
  // The shuffle
  // ---------------------------------------------------------------------------

  /**
   * The random choices of the shuffle: at step i, Math.random() picks an
   * offset in [0, DeckSize - i), and slot i is swapped with slot i + offset.
   */
  predicate ValidDraws(draws: seq<nat>) {
    |draws| == DeckSize && forall i | 0 <= i < |draws| :: draws[i] < DeckSize - i
  }

  /** The shuffle from step i on: swap slot i with slot i + draws[i], then go on. */
  function ShuffleFrom(s: seq<Card>, draws: seq<nat>, i: nat): (r: seq<Card>)
    requires |s| == DeckSize && ValidDraws(draws) && i <= DeckSize
    ensures |r| == DeckSize
    decreases DeckSize - i
  {
    if i == DeckSize then s
    else ShuffleFrom(SwapAt(s, i, i + draws[i]), draws, i + 1)
  }

  /** The shuffle reorders the cards and changes nothing else. */
  lemma {:induction false} ShuffleFromPermutes(s: seq<Card>, draws: seq<nat>, i: nat)
    requires |s| == DeckSize && ValidDraws(draws) && i <= DeckSize
    ensures multiset(ShuffleFrom(s, draws, i)) == multiset(s)
    decreases DeckSize - i
  {
    if i < DeckSize {
      SwapAtPermutes(s, i, i + draws[i]);
      ShuffleFromPermutes(SwapAt(s, i, i + draws[i]), draws, i + 1);
    }
  }

  /** Whatever the random choices, a shuffled deck is a full deck. */
  lemma {:induction false} ShuffledIsFullDeck(draws: seq<nat>)
    requires ValidDraws(draws)
    ensures IsFullDeck(ShuffleFrom(StandardOrder(), draws, 0))
  {
    StandardOrderIsFullDeck();
    ShuffleFromPermutes(StandardOrder(), draws, 0);
  }

  /** The first index at or after i where s holds c, or -1. */
  function IndexFrom(s: seq<Card>, c: Card, i: nat): (r: int)
    requires i <= |s|
    ensures r == -1 <==> c !in s[i..]
    ensures r != -1 ==> i <= r < |s| && s[r] == c && c !in s[i..r]
    decreases |s| - i
  {
    if i == |s| then -1
    else if s[i] == c then i
    else
      var r := IndexFrom(s, c, i + 1);
      assert s[i..] == [s[i]] + s[i + 1..];
      assert r != -1 ==> s[i..r] == [s[i]] + s[i + 1..r];
      r
  }

  /** The constructor's fill loops: for each suit, new CardImpl(rank, suit) for ranks 2 to 14. */
  method FillInOrder() returns (a: array<Card>)
    ensures fresh(a) && a[..] == StandardOrder()
  {
    a := new Card[DeckSize](_ => Card(2, Spades));
    var cidx := 0;
    for si := 0 to 4
      invariant cidx == 13 * si
      invariant a[..cidx] == StandardOrder()[..cidx]
    {
      var suit := AllSuits[si];
      for rank := 2 to 15
        invariant cidx == 13 * si + rank - 2
        invariant a[..cidx] == StandardOrder()[..cidx]
      {
        StandardOrderAt(si, rank - 2);
        a[cidx] := NewCard(rank, suit).value;
        cidx := cidx + 1;
      }
    }
  }

  /** The constructor's shuffle loop: slot i is swapped with slot i + draws[i], for i from 0 to 51. */
  method Shuffle(a: array<Card>, draws: seq<nat>)
    requires a.Length == DeckSize && ValidDraws(draws)
    modifies a
    ensures a[..] == ShuffleFrom(old(a[..]), draws, 0)
  {
    for i := 0 to DeckSize
      invariant ShuffleFrom(a[..], draws, i) == ShuffleFrom(old(a[..]), draws, 0)
    {
      var swapIdx := i + draws[i];
      ghost var before := a[..];
      var tmp := a[i];
      a[i] := a[swapIdx];
      a[swapIdx] := tmp;
      assert a[..] == SwapAt(before, i, swapIdx);
    }
  }

  // ---------------------------------------------------------------------------
  // The deck
  // ---------------------------------------------------------------------------

  class Deck {
    /** card_array: slots 0 .. 51 - cardsLeft are dealt, the rest undealt. */
    var cardArray: array<Card>
    /** cards_left. */
    var cardsLeft: int

    /** The deck's invariant: 52 slots, a count in range, and every card exactly once. */
    ghost predicate Valid()
      reads this, cardArray
    {
      cardArray.Length == DeckSize && 0 <= cardsLeft <= DeckSize && IsFullDeck(cardArray[..])
    }

    /** The cards dealt so far, in dealing order. */
    ghost function Dealt(): seq<Card>
      reads this, cardArray
      requires Valid()
    {
      cardArray[..DeckSize - cardsLeft]
    }

    /** The cards still to deal, the next one first. */
    ghost function Undealt(): seq<Card>
      reads this, cardArray
      requires Valid()
    {
      cardArray[DeckSize - cardsLeft..]
    }

    /**
     * The constructor: fills the slots with new CardImpl(rank, suit) for each
     * suit and rank 2 to 14, then swaps each slot i with slot i + draws[i].
     */
    constructor (draws: seq<nat>)
      requires ValidDraws(draws)
      ensures Valid() && fresh(cardArray)
      ensures cardsLeft == DeckSize
      ensures cardArray[..] == ShuffleFrom(StandardOrder(), draws, 0)
    {
      cardsLeft := DeckSize;
      var a := FillInOrder();
      Shuffle(a, draws);
      cardArray := a;
      ShuffledIsFullDeck(draws);
    }

    /**
     * nextUndealtIndex: the first undealt slot. As many slots precede it as
     * cards were dealt, and from it on lie exactly the undealt cards.
     */
    function NextUndealtIndex(): (x: int)
      reads this, cardArray
      requires Valid()
      ensures x == |Dealt()| && cardArray[x..] == Undealt()
    {
      DeckSize - cardsLeft
    }

    /**
     * hasHand as written: true exactly when FEWER than five cards are left,
     * the opposite of what its name promises.
     */
    function HasHand(): (b: bool)
      reads this
      ensures b <==> cardsLeft < 5
    {
      if cardsLeft >= 5 then false else true
    }

    /** Corrected hasHand: true exactly when five cards can still be dealt. */
    function HasFullHand(): (b: bool)
      reads this, cardArray
      requires Valid()
      ensures b <==> |Undealt()| >= 5
    {
      cardsLeft >= 5
    }

    /** The dealt and the undealt cards together are the whole deck, and no card is in both. */
    lemma {:induction false} DealtUndealtPartition(c: Card)
      requires Valid()
      ensures multiset(Dealt()) + multiset(Undealt()) == multiset(cardArray[..])
      ensures !(c in Dealt() && c in Undealt())
      ensures ValidCard(c) <==> c in Dealt() || c in Undealt()
    {
      assert cardArray[..] == Dealt() + Undealt();
      assert multiset(cardArray[..])[c] == if ValidCard(c) then 1 else 0;
    }

    /** hasHand answers the opposite of the corrected test on every valid deck. */
    lemma HasHandInverted()
      requires Valid()
      ensures HasHand() <==> !HasFullHand()
    {
    }

    /**
     * dealNextCard: fails when no card is left; otherwise returns the card at
     * the first undealt slot and moves that slot into the dealt part.
     */
    method DealNextCard() returns (r: Result<Card, DeckError>)
      requires Valid()
      modifies this
      ensures Valid() && cardArray == old(cardArray) && cardArray[..] == old(cardArray[..])
      ensures old(cardsLeft) == 0 ==> r == Failure(NoCardsLeft) && cardsLeft == 0
      ensures old(cardsLeft) > 0 ==>
        && cardsLeft == old(cardsLeft) - 1
        && r == Success(old(Undealt())[0])
        && Dealt() == old(Dealt()) + [r.value]
        && Undealt() == old(Undealt())[1..]
    {
      if cardsLeft == 0 {
        return Failure(NoCardsLeft);
      }
      var dealtCard := cardArray[NextUndealtIndex()];
      cardsLeft := cardsLeft - 1;
      assert cardArray[..DeckSize - cardsLeft] == cardArray[..DeckSize - old(cardsLeft)] + [dealtCard];
      r := Success(dealtCard);
    }

    /**
     * dealHand as written: since hasHand is inverted, a deck with five or more
     * cards refuses at once, and a deck with fewer deals all its remaining
     * cards and then fails in dealNextCard. No hand is ever returned.
     */
    method DealHand() returns (r: Result<Hand, DeckError>)
      requires Valid()
      modifies this
      ensures Valid() && cardArray == old(cardArray) && cardArray[..] == old(cardArray[..])
      ensures r.Failure?
      ensures old(cardsLeft) >= 5 ==> r == Failure(NotEnoughForHand) && cardsLeft == old(cardsLeft)
      ensures old(cardsLeft) < 5 ==> r == Failure(NoCardsLeft) && cardsLeft == 0 && Dealt() == cardArray[..]
    {
      if !HasHand() {
        return Failure(NotEnoughForHand);
      }
      var handCards := new Option<Card>[5](_ => None);
      for i := 0 to 5
        invariant Valid() && cardArray == old(cardArray)
        invariant cardsLeft == old(cardsLeft) - i
      {
        var dealt := DealNextCard();
        if dealt.Failure? {
          return Failure(dealt.error);
        }
        handCards[i] := Some(dealt.value);
      }
      // The loop cannot finish: a fifth successful deal would leave cardsLeft
      // negative, against Valid().
      assert false;
      var hand := NewHand(handCards);
      r := match hand
        case Success(h) => Success(h)
        case Failure(_) => Failure(NoCardsLeft);
    }

    /**
     * dealHand as its comment intends: refuses when fewer than five cards are
     * left, otherwise deals the next five and builds the sorted hand from them.
     */
    method DealFullHand() returns (r: Result<Hand, DeckError>)
      requires Valid()
      modifies this
      ensures Valid() && cardArray == old(cardArray) && cardArray[..] == old(cardArray[..])
      ensures old(cardsLeft) < 5 ==> r == Failure(NotEnoughForHand) && cardsLeft == old(cardsLeft)
      ensures old(cardsLeft) >= 5 ==>
        && cardsLeft == old(cardsLeft) - 5
        && r.Success?
        && r.value == ExchangeSort(old(Undealt())[..5])
        && Dealt() == old(Dealt()) + old(Undealt())[..5]
    {
      if !HasFullHand() {
        return Failure(NotEnoughForHand);
      }
      var handCards := new Option<Card>[5](_ => None);
      for i := 0 to 5
        invariant Valid() && cardArray == old(cardArray)
        invariant cardsLeft == old(cardsLeft) - i
        invariant Dealt() == old(Dealt()) + old(Undealt())[..i]
        invariant forall k | 0 <= k < i :: handCards[k] == Some(old(Undealt())[k])
      {
        var dealt := DealNextCard();
        handCards[i] := Some(dealt.value);
      }
      assert Present(handCards[..]) == old(Undealt())[..5];
      var hand := NewHand(handCards);
      r := Success(hand.value);
    }

    /** The swap of findAndRemove: slot i and the first undealt slot exchange their cards. */
    method SwapToCursor(i: int)
      requires Valid() && NextUndealtIndex() <= i < DeckSize
      modifies cardArray
      ensures Valid() && cardsLeft == old(cardsLeft)
      ensures cardArray[..] == SwapAt(old(cardArray[..]), NextUndealtIndex(), i)
      ensures multiset(cardArray[..]) == multiset(old(cardArray[..]))
    {
      ghost var before := cardArray[..];
      var cursor := NextUndealtIndex();
      var tmp := cardArray[i];
      cardArray[i] := cardArray[cursor];
      cardArray[cursor] := tmp;
      assert cardArray[..] == SwapAt(before, cursor, i);
      SwapAtPermutes(before, cursor, i);
    }

    /**
     * findAndRemove: when the card is among the undealt ones, swaps its first
     * undealt occurrence into the first undealt slot and deals it; otherwise
     * (and on an empty deck) does nothing and reports nothing.
     */
    method FindAndRemove(card: Card)
      requires Valid()
      modifies this, cardArray
      ensures Valid() && cardArray == old(cardArray)
      ensures multiset(cardArray[..]) == multiset(old(cardArray[..]))
      ensures old(cardsLeft) == 0 || card !in old(Undealt()) ==>
        cardsLeft == old(cardsLeft) && cardArray[..] == old(cardArray[..])
      ensures old(cardsLeft) > 0 && card in old(Undealt()) ==>
        && cardsLeft == old(cardsLeft) - 1
        && cardArray[..] == SwapAt(old(cardArray[..]), DeckSize - old(cardsLeft),
                                   IndexFrom(old(cardArray[..]), card, DeckSize - old(cardsLeft)))
        && Dealt() == old(Dealt()) + [card]
    {
      if cardsLeft == 0 {
        return;
      }
      var cursor := NextUndealtIndex();
      for i := cursor to DeckSize
        invariant Valid() && cardArray[..] == old(cardArray[..]) && cardsLeft == old(cardsLeft)
        invariant card !in cardArray[cursor..i]
      {
        if Equals(cardArray[i], card) {
          assert IndexFrom(cardArray[..], card, cursor) == i;
          SwapToCursor(i);
          var _ := DealNextCard();
          return;
        }
        assert cardArray[cursor..i + 1] == cardArray[cursor..i] + [cardArray[i]];
      }
    }
  }
}
