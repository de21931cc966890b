/** Players: a player's hand, the score derived from it and the flag that says
    whether the player still plays. */
module Players {
  import opened Cards

  /** A score over 21 loses. */
  predicate IsBust(score: int)
  {
    score > 21
  }

  /** Every card of the hand has a rank label with a value. */
  predicate Scorable(cards: seq<Card>)
  {
    forall i :: 0 <= i < |cards| ==> ParseCardRank(cards[i].rank).Some?
  }

  /** The score of a hand: the sum of its cards' rank values. */
  function Score(cards: seq<Card>): (s: int)
    requires Scorable(cards)
    ensures 0 <= s
    ensures s == 0 <== cards == []
  {
    if cards == [] then 0
    else ParseCardRank(cards[0].rank).value + Score(cards[1..])
  }

  /** Taking one more card adds exactly that card's value to the score. */
  lemma {:induction false} ScoreAppend(cards: seq<Card>, card: Card)
    requires Scorable(cards) && ParseCardRank(card.rank).Some?
    ensures Scorable(cards + [card])
    ensures Score(cards + [card]) == Score(cards) + ParseCardRank(card.rank).value
  {
    if cards != [] {
      assert (cards + [card])[1..] == cards[1..] + [card];
      ScoreAppend(cards[1..], card);
    }
  }

  /** A hand of deck cards scores between 2 and 11 points per card; in
      particular its score is 0 exactly when the hand is empty. */
  lemma {:induction false} ScoreBounds(cards: seq<Card>)
    requires forall i :: 0 <= i < |cards| ==> cards[i].rank in Ranks
    ensures Scorable(cards)
    ensures 2 * |cards| <= Score(cards) <= 11 * |cards|
    ensures Score(cards) == 0 <==> cards == []
  {
    if cards != [] {
      RankHasValue(cards[0].rank);
      ScoreBounds(cards[1..]);
    }
  }

  /** The hand [10, A] scores 21 and the hand [K, K] scores 20. */
  lemma ScoreExamples()
    ensures Score([Card("Spades", "10"), Card("Hearts", "A")]) == 21
    ensures Score([Card("Spades", "K"), Card("Hearts", "K")]) == 20
  {
    RankValues();
    var h := [Card("Spades", "10"), Card("Hearts", "A")];
    assert h[1..] == [Card("Hearts", "A")];
    var k := [Card("Spades", "K"), Card("Hearts", "K")];
    assert k[1..] == [Card("Hearts", "K")];
  }

  class Player {
    var name: string
    var score: int
    var cards: seq<Card>
    var plays: bool

    /** The score is never stale: it is always the sum over the held cards. */
    ghost predicate Valid()
      reads this
    {
      Scorable(cards) && score == Score(cards)
    }

    /** A new player has no cards, no points and still plays. */
    constructor (name: string)
      ensures Valid()
      ensures this.name == name && score == 0 && cards == [] && plays
    {
      this.name := name;
      score := 0;
      cards := [];
      plays := true;
    }

    /** Takes a card: the card joins the hand and the score is recomputed.
        A card whose rank label has no value cannot be scored (the integer
        conversion raises). */
    method Hit(card: Card)
      requires Valid()
      requires ParseCardRank(card.rank).Some?
      modifies this`cards, this`score
      ensures Valid()
      ensures cards == old(cards) + [card]
      ensures score == old(score) + ParseCardRank(card.rank).value
      ensures name == old(name) && plays == old(plays)
    {
      ScoreAppend(cards, card);
      cards := cards + [card];
      UpdateScores();
    }

    /** Recomputes the score from the held cards. */
    method UpdateScores()
      requires Scorable(cards)
      modifies this`score
      ensures Valid()
    {
      score := Score(cards);
    }

    /** Folds: the player stops playing; nothing else changes, and folding
        again changes nothing. */
    method Stand()
      modifies this`plays
      ensures !plays
      ensures name == old(name) && cards == old(cards) && score == old(score)
    {
      plays := false;
    }
  }

  /** The roster's scores, in roster order. */
  function ScoresOf(players: seq<Player>): (scores: seq<int>)
    reads players
    ensures |scores| == |players|
    ensures forall i :: 0 <= i < |players| ==> scores[i] == players[i].score
  {
    seq(|players|, i reads players requires 0 <= i < |players| => players[i].score)
  }

  /** The roster's `plays` flags, in roster order. */
  function PlaysOf(players: seq<Player>): (plays: seq<bool>)
    reads players
    ensures |plays| == |players|
    ensures forall i :: 0 <= i < |players| ==> plays[i] == players[i].plays
  {
    seq(|players|, i reads players requires 0 <= i < |players| => players[i].plays)
  }

  /** The roster's names, in roster order. */
  function NamesOf(players: seq<Player>): (names: seq<string>)
    reads players
    ensures |names| == |players|
    ensures forall i :: 0 <= i < |players| ==> names[i] == players[i].name
  {
    seq(|players|, i reads players requires 0 <= i < |players| => players[i].name)
  }

  /** The roster's hands, in roster order. */
  function HandsOf(players: seq<Player>): (hands: seq<seq<Card>>)
    reads players
    ensures |hands| == |players|
    ensures forall i :: 0 <= i < |players| ==> hands[i] == players[i].cards
  {
    seq(|players|, i reads players requires 0 <= i < |players| => players[i].cards)
  }
}
