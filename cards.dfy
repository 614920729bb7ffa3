/**
 * A playing card: the `Card` interface with its `Suit` enum, and `CardImpl`.
 * A card is an immutable (rank, suit) pair compared by value.
 */
module Cards {
  import opened Wrappers

  /** Card.Suit, in declaration order. */
  datatype Suit = Spades | Hearts | Diamonds | Clubs

  /** Card.Suit.values(): the suits in declaration order. */
  const AllSuits: seq<Suit> := [Spades, Hearts, Diamonds, Clubs]

  /** A card; ranks 11..14 are Jack, Queen, King and Ace. */
  datatype Card = Card(rank: int, suit: Suit)

  /** The ranks the constructor accepts. */
  predicate ValidRank(rank: int) {
    2 <= rank <= 14
  }

  /** Every card built through the constructor satisfies this. */
  predicate ValidCard(c: Card) {
    ValidRank(c.rank)
  }

  /** The IllegalArgumentException of the constructor. */
  datatype CardError = InvalidRank

  /**
   * The constructor: refuses a rank outside 2..14; otherwise the card's
   * getRank and getSuit give back exactly the arguments.
   */
  function NewCard(rank: int, suit: Suit): (r: Result<Card, CardError>)
    ensures r.Failure? <==> rank < 2 || 14 < rank
    ensures r.Failure? ==> r.error == InvalidRank
    ensures r.Success? ==> r.value.rank == rank && r.value.suit == suit && ValidCard(r.value)
  {
    if rank < 2 || rank > 14 then Failure(InvalidRank) else Success(Card(rank, suit))
  }

  /** equals(Card): rank and suit both match, which is value equality. */
  function Equals(c: Card, other: Card): (b: bool)
    ensures b <==> c == other
  {
    c.rank == other.rank && c.suit == other.suit
  }

  /** The rank names, indexed by rank - 2. */
  const RankNames: seq<string> :=
    ["Two", "Three", "Four", "Five", "Six", "Seven", "Eight", "Nine", "Ten",
     "Jack", "Queen", "King", "Ace"]

  /** suitToString: the switch over the four suits. */
  function SuitToString(s: Suit): (r: string)
    ensures |r| >= 5 && ' ' !in r
  {
    match s
    case Spades => "Spades"
    case Hearts => "Hearts"
    case Diamonds => "Diamonds"
    case Clubs => "Clubs"
  }

  /** toString: "<rank name> of <suit name>". */
  function ToString(c: Card): (r: string)
    requires ValidCard(c)
    ensures RankNames[c.rank - 2] + " of " <= r
    ensures |r| >= |SuitToString(c.suit)| && r[|r| - |SuitToString(c.suit)|..] == SuitToString(c.suit)
  {
    RankNames[c.rank - 2] + " of " + SuitToString(c.suit)
  }

  /** The example of the interface's documentation. */
  lemma FiveOfSpades()
    ensures ToString(Card(5, Spades)) == "Five of Spades"
  {
  }

  /** No rank name contains a space, so the first space of a name ends the rank. */
  lemma RankNamesHaveNoSpace(k: nat)
    requires k < |RankNames|
    ensures ' ' !in RankNames[k]
  {
  }

  /** Distinct ranks have distinct names. */
  lemma RankNamesDistinct(k: nat, m: nat)
    requires k < |RankNames| && m < |RankNames| && RankNames[k] == RankNames[m]
    ensures k == m
  {
  }

  /** Distinct suits have distinct names. */
  lemma SuitNamesDistinct(s: Suit, t: Suit)
    requires SuitToString(s) == SuitToString(t)
    ensures s == t
  {
  }

  /** A space-free word followed by " of " can be split off unambiguously. */
  lemma {:induction false} SplitAtOf(n: string, t: string, m: string, u: string)
    requires ' ' !in n && ' ' !in m && n + " of " + t == m + " of " + u
    ensures n == m && t == u
  {
    var s := n + " of " + t;
    assert s == m + " of " + u;
    assert s[|n|] == ' ' && s[|m|] == ' ';
    assert forall k | 0 <= k < |n| :: s[k] == n[k];
    assert forall k | 0 <= k < |m| :: s[k] == m[k];
    assert |n| == |m|;
    assert n == s[..|n|] == m;
    assert t == s[|n| + 4..] == u;
  }

  /** The printed name identifies the card: distinct valid cards print differently. */
  lemma {:induction false} ToStringInjective(c: Card, d: Card)
    requires ValidCard(c) && ValidCard(d) && ToString(c) == ToString(d)
    ensures c == d
  {
    RankNamesHaveNoSpace(c.rank - 2);
    RankNamesHaveNoSpace(d.rank - 2);
    SplitAtOf(RankNames[c.rank - 2], SuitToString(c.suit), RankNames[d.rank - 2], SuitToString(d.suit));
    RankNamesDistinct(c.rank - 2, d.rank - 2);
    SuitNamesDistinct(c.suit, d.suit);
  }
}
