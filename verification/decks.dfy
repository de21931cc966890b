/** Decks: the deck of cards the game draws from, a list popped from the front. */
module Decks {
  import opened Seqs
  import opened Cards

  /** The list with the elements at `i` and `j` exchanged. */
  function Swap(s: seq<Card>, i: nat, j: nat): (t: seq<Card>)
    requires i < |s| && j < |s|
    ensures |t| == |s| && t[i] == s[j] && t[j] == s[i]
    ensures forall k :: 0 <= k < |s| && k != i && k != j ==> t[k] == s[k]
    ensures multiset(t) == multiset(s)
  {
    s[i := s[j]][j := s[i]]
  }

  /** A list of picks for shuffling `n` cards the way `random.shuffle` does:
      for every position `i` from the last down to 1 the generator picks an
      index `choices[i]` in `0..i` (the entry for position 0 is never used). */
  ghost predicate ShuffleChoices(choices: seq<nat>, n: nat)
  {
    |choices| == n && forall i :: 0 <= i < n ==> choices[i] <= i
  }

  /** The list `s` after the swaps of a Fisher-Yates shuffle for positions
      `i - 1` down to 1, each with its supplied pick. */
  function ShuffledBy(s: seq<Card>, choices: seq<nat>, i: nat): (t: seq<Card>)
    requires i <= |s| == |choices| && forall k :: 0 <= k < |choices| ==> choices[k] <= k
    ensures |t| == |s|
    decreases i
  {
    if i <= 1 then s else ShuffledBy(Swap(s, i - 1, choices[i - 1]), choices, i - 1)
  }

  /** Exchanging two cards keeps the cards pairwise distinct. */
  lemma SwapDistinct(s: seq<Card>, i: nat, j: nat)
    requires i < |s| && j < |s| && Distinct(s)
    ensures Distinct(Swap(s, i, j))
  {
    var t := Swap(s, i, j);
    forall a, b | 0 <= a < b < |t| ensures t[a] != t[b] {
      var a', b' := if a == i then j else if a == j then i else a, if b == i then j else if b == j then i else b;
      assert t[a] == s[a'] && t[b] == s[b'] && a' != b';
    }
  }

  /** A Fisher-Yates shuffle only reorders: the length and the multiset of
      cards are kept, distinct cards stay distinct, and the positions from
      `i` on, already settled, are not touched. */
  lemma {:induction false} ShuffledByPermutes(s: seq<Card>, choices: seq<nat>, i: nat)
    requires i <= |s| == |choices| && forall k :: 0 <= k < |choices| ==> choices[k] <= k
    ensures |ShuffledBy(s, choices, i)| == |s|
    ensures forall k :: i <= k < |s| ==> ShuffledBy(s, choices, i)[k] == s[k]
    ensures multiset(ShuffledBy(s, choices, i)) == multiset(s)
    ensures Distinct(s) ==> Distinct(ShuffledBy(s, choices, i))
    decreases i
  {
    if i > 1 {
      var t := Swap(s, i - 1, choices[i - 1]);
      if Distinct(s) {
        SwapDistinct(s, i - 1, choices[i - 1]);
      }
      ShuffledByPermutes(t, choices, i - 1);
    }
  }

  /** Shuffling a deck of distinct, well-labelled cards leaves a deck of the
      same cards, still distinct and well labelled. */
  lemma ShuffledKeepsDeck(s: seq<Card>, choices: seq<nat>)
    requires |s| == |choices| && forall k :: 0 <= k < |choices| ==> choices[k] <= k
    requires Distinct(s) && forall c :: c in s ==> c.suit in Suits && c.rank in Ranks
    ensures var t := ShuffledBy(s, choices, |s|);
      && |t| == |s| && multiset(t) == multiset(s) && Distinct(t)
      && forall c :: c in t ==> c.suit in Suits && c.rank in Ranks
  {
    var t := ShuffledBy(s, choices, |s|);
    ShuffledByPermutes(s, choices, |s|);
    SameElements(s, t);
  }

  /** The 52 suit-rank combinations, each exactly once, in some order. */
  ghost predicate IsFullDeck(cards: seq<Card>)
  {
    |cards| == 52 && Distinct(cards) && forall c :: c in cards <==> c.suit in Suits && c.rank in Ranks
  }

  /** Any reordering of a full deck is a full deck. */
  lemma PermutedFullDeck(a: seq<Card>, b: seq<Card>)
    requires IsFullDeck(a) && Distinct(b) && multiset(a) == multiset(b)
    ensures IsFullDeck(b)
  {
    assert |a| == |multiset(a)| == |multiset(b)| == |b|;
    SameElements(a, b);
  }

  class Deck {
    var cards: seq<Card>

    /** Cards of a deck are distinct suit-rank combinations. */
    ghost predicate Valid()
      reads this
    {
      Distinct(cards) && forall c :: c in cards ==> c.suit in Suits && c.rank in Ranks
    }

    /** A fresh deck lists all 52 combinations once each, in the order in which
        the suit and rank sets happen to be iterated. */
    constructor (suitOrder: seq<string>, rankOrder: seq<string>)
      requires IsOrdering(suitOrder, Suits) && IsOrdering(rankOrder, Ranks)
      ensures Valid()
      ensures cards == GetCards(suitOrder, rankOrder)
      ensures IsFullDeck(cards)
    {
      FullDeck(suitOrder, rankOrder);
      cards := GetCards(suitOrder, rankOrder);
    }

    /** Fisher-Yates shuffle in place, with the random picks supplied: the
        deck ends as a permutation of what it held. */
    method Shuffle(choices: seq<nat>)
      requires Valid()
      requires ShuffleChoices(choices, |cards|)
      modifies this`cards
      ensures Valid()
      ensures cards == ShuffledBy(old(cards), choices, |choices|)
      ensures |cards| == old(|cards|)
      ensures multiset(cards) == old(multiset(cards))
    {
      var i := |cards|;
      ghost var goal := ShuffledBy(cards, choices, i);
      ShuffledKeepsDeck(cards, choices);
      while i > 1
        invariant 0 <= i <= |cards| == |choices|
        invariant ShuffledBy(cards, choices, i) == goal
      {
        i := i - 1;
        var j := choices[i];
        cards := Swap(cards, i, j);
      }
    }

    /** Removes and returns the front card; an empty deck cannot be drawn from
        (popping an empty list raises). */
    method DrawCard() returns (card: Card)
      requires |cards| > 0
      modifies this`cards
      ensures card == old(cards)[0]
      ensures cards == old(cards)[1..]
      ensures |cards| == old(|cards|) - 1
      ensures old(Valid()) ==> Valid()
    {
      card := cards[0];
      cards := cards[1..];
    }
  }
}
