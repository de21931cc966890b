/** DomainGame: the game of the refactored engine (src/domain/game.py): the
    roster, the mode, the deck of the round, and the predicates that say when
    the round is over and when it is the last round. */
module DomainGame {
  import opened Seqs
  import opened Cards
  import opened Decks
  import opened Players

  datatype Mode = Auto | Manual

  /** The round is over when the list of busted players is not empty or when
      no player plays any more. */
  function IsOverOn(scores: seq<int>, plays: seq<bool>): (over: bool)
    ensures over <==> (exists i :: 0 <= i < |scores| && scores[i] > 21)
                      || (forall i :: 0 <= i < |plays| ==> !plays[i])
  {
    var busted := Filter(scores, IsBust);
    assert (exists i :: 0 <= i < |scores| && scores[i] > 21) ==> busted != [] by {
      if i :| 0 <= i < |scores| && scores[i] > 21 {
        assert scores[i] in busted;
      }
    }
    assert busted != [] ==> exists i :: 0 <= i < |scores| && scores[i] > 21 by {
      if busted != [] {
        assert busted[0] in scores && IsBust(busted[0]);
      }
    }
    busted != [] || !Any(plays)
  }

  /** It is the last round when exactly one player still plays or when nobody
      does: at most one player plays. */
  function IsLastRoundOn(plays: seq<bool>): (last: bool)
    ensures last <==> CountTrue(plays) <= 1
    ensures last <==> AtMostOneTrue(plays)
  {
    CountAtMostOne(plays);
    CountTrue(plays) == 1 || !Any(plays)
  }

  /** With three players one fold does not make the last round; two folds do.
      A busted score, or everybody folded, ends the round. */
  lemma PredicateExamples()
    ensures !IsLastRoundOn([false, true, true])
    ensures IsLastRoundOn([false, false, true])
    ensures IsOverOn([22, 0], [true, true])
    ensures IsOverOn([0, 0], [false, false])
    ensures !IsOverOn([21, 5], [true, true])
  {
    assert [false, true, true][1..] == [true, true];
    assert [false, false, true][1..] == [false, true];
    assert [false, true][1..] == [true];
  }

  class Game {
    var playersNumber: int
    var players: seq<Player>
    var deck: Deck?
    var mode: Mode

    /** A new game has no players, no deck yet, and plays in automatic mode. */
    constructor ()
      ensures playersNumber == 0 && players == [] && deck == null && mode == Auto
    {
      playersNumber := 0;
      players := [];
      deck := null;
      mode := Auto;
    }

    method SetPlayersNumber(n: int)
      modifies this`playersNumber
      ensures playersNumber == n
    {
      playersNumber := n;
    }

    /** Adds a player at the end of the roster. */
    method SetPlayer(player: Player)
      modifies this`players
      ensures players == old(players) + [player]
    {
      players := players + [player];
    }

    /** Changes the mode and nothing else. */
    method SetMode(m: Mode)
      modifies this`mode
      ensures mode == m
    {
      mode := m;
    }

    /** Builds a fresh deck and shuffles it; the players are left as they are.
        The set iteration orders and the random picks are supplied. */
    method Start(suitOrder: seq<string>, rankOrder: seq<string>, choices: seq<nat>)
      requires IsOrdering(suitOrder, Suits) && IsOrdering(rankOrder, Ranks)
      requires ShuffleChoices(choices, 52)
      modifies this`deck
      ensures deck != null && fresh(deck) && deck.Valid()
      ensures multiset(deck.cards) == multiset(GetCards(suitOrder, rankOrder))
      ensures IsFullDeck(deck.cards)
    {
      deck := new Deck(suitOrder, rankOrder);
      ghost var built := deck.cards;
      deck.Shuffle(choices);
      PermutedFullDeck(built, deck.cards);
    }

    /** The round is over when some player's score is over 21 or when no
        player plays any more. */
    predicate IsOver()
      reads this, players
      ensures IsOver() <==> (exists i :: 0 <= i < |players| && players[i].score > 21)
                            || (forall i :: 0 <= i < |players| ==> !players[i].plays)
    {
      IsOverOn(ScoresOf(players), PlaysOf(players))
    }

    /** It is the last round when at most one player still plays. */
    predicate IsLastRound()
      reads this, players
      ensures IsLastRound() <==> CountTrue(PlaysOf(players)) <= 1
      ensures IsLastRound() <==>
                forall i, j :: 0 <= i < |players| && 0 <= j < |players| && players[i].plays && players[j].plays
                  ==> i == j
    {
      IsLastRoundOn(PlaysOf(players))
    }
  }
}
