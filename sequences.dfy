/** The element swap that both the hand sort and the deck shuffle perform. */
module Sequences {

  /**
   * The sequence after `tmp = s[i]; s[i] = s[j]; s[j] = tmp`: the elements at
   * i and j trade places and nothing else moves.
   */
  function SwapAt<T>(s: seq<T>, i: nat, j: nat): (r: seq<T>)
    requires i < |s| && j < |s|
    ensures |r| == |s| && r[i] == s[j] && r[j] == s[i]
    ensures forall k | 0 <= k < |s| && k != i && k != j :: r[k] == s[k]
  {
    s[i := s[j]][j := s[i]]
  }

  /** A swap rearranges the elements: the multiset is unchanged. */
  lemma SwapAtPermutes<T>(s: seq<T>, i: nat, j: nat)
    requires i < |s| && j < |s|
    ensures multiset(SwapAt(s, i, j)) == multiset(s)
  {
  }
}
