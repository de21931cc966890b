/** LegacyGame: the game of the original engine (game.py): the roster, the
    mode, the deck, the end-of-game and last-round predicates, the automatic
    mode's turn loop and the choice of the winner. */
module LegacyGame {
  import opened Seqs
  import opened Wrappers
  import opened Cards
  import opened Decks
  import opened Players
  import opened WinScores
  import opened LegacyRounds

  datatype Mode = Auto | Manual

  /** How the manual mode ends: with a winner and the winning score; with
      every score over 21, so that there is no winning score (the maximum of
      an empty list raises); or stopped early by a failed draw or prompt. */
  datatype Ending = Won(winner: string, winScore: int) | AllBust | Halted(halt: Halt)

  /** The end of a game with these names and final scores (EndingOnSpec). */
  function EndingOn(names: seq<string>, scores: seq<int>): (e: Ending)
    requires |names| == |scores|
    ensures !e.Halted?
    ensures e.Won? ==> e.winner in names && e.winScore in scores
  {
    match BestScore(scores)
    case None => AllBust
    case Some(w) =>
      BestScoreSpec(scores);
      Won(names[IndexOf(scores, w)], w)
  }

  /** The end of a game: no winning score exactly when every score is over
      21; otherwise the winning score is the largest score that is at most 21
      and the winner is the first player in roster order with that score. */
  lemma EndingOnSpec(names: seq<string>, scores: seq<int>)
    requires |names| == |scores|
    ensures var e := EndingOn(names, scores);
            && !e.Halted?
            && (e.AllBust? <==> forall i :: 0 <= i < |scores| ==> scores[i] > 21)
            && (e.Won? ==> e.winScore <= 21 && forall i :: 0 <= i < |scores| && scores[i] <= 21 ==> scores[i] <= e.winScore)
            && (e.Won? ==> exists i :: 0 <= i < |scores| && scores[i] == e.winScore && e.winner == names[i]
                                       && forall j :: 0 <= j < i ==> scores[j] != e.winScore)
  {
    BestScoreSpec(scores);
    assert forall i :: 0 <= i < |scores| ==> scores[i] in scores;
    var e := EndingOn(names, scores);
    if e.Won? {
      var k := IndexOf(scores, e.winScore);
      assert scores[k] == e.winScore && e.winner == names[k];
    }
  }

  class Game {
    var playersNumber: int
    var players: seq<Player>
    var deck: Deck?
    var mode: Mode

    /** A new game has no players, no deck yet, and plays in automatic mode. */
    constructor ()
      ensures playersNumber == 0 && players == [] && deck == null && mode == Auto
    {
      playersNumber := 0;
      players := [];
      deck := null;
      mode := Auto;
    }

    method SetPlayersNumber(n: int)
      modifies this`playersNumber
      ensures playersNumber == n
    {
      playersNumber := n;
    }

    /** Adds a player at the end of the roster. */
    method SetPlayer(player: Player)
      modifies this`players
      ensures players == old(players) + [player]
    {
      players := players + [player];
    }

    /** Changes the mode and nothing else. */
    method SetMode(m: Mode)
      modifies this`mode
      ensures mode == m
    {
      mode := m;
    }

    /** The game is over as soon as some player's score is over 21 or some
        player has folded. */
    predicate IsGameOver()
      reads this, players
      ensures IsGameOver() <==> (exists i :: 0 <= i < |players| && players[i].score > 21)
                                || (exists i :: 0 <= i < |players| && !players[i].plays)
    {
      GameOverOn(ScoresOf(players), PlaysOf(players))
    }

    /** It is the last round when the roster is empty or some player has folded. */
    predicate IsLastRound()
      reads this, players
      ensures IsLastRound() <==> players == [] || exists i :: 0 <= i < |players| && !players[i].plays
    {
      LastRoundOn(PlaysOf(players))
    }

    /** The roster holds each player once and every player's score is up to date. */
    ghost predicate RosterOk()
      reads this, players
    {
      Distinct(players) && forall i :: 0 <= i < |players| ==> players[i].Valid()
    }

    /** The table of the round: the hands in roster order and the deck. */
    ghost function TableNow(): Table
      reads this, players, deck
      requires deck != null
    {
      Table(HandsOf(players), deck.cards)
    }

    /** A valid deck and roster put only scorable cards on the table. */
    lemma TableNowOk()
      requires deck != null && deck.Valid() && RosterOk()
      ensures TableOk(TableNow())
    {
      var cards := deck.cards;
      forall i | 0 <= i < |cards| ensures ParseCardRank(cards[i].rank).Some? {
        assert cards[i] in cards;
        RankHasValue(cards[i].rank);
      }
    }

    /** The player at roster position `i` takes `card`; the other players
        are left as they are. */
    method HitAt(i: nat, card: Card)
      requires RosterOk() && i < |players| && ParseCardRank(card.rank).Some?
      modifies players[i]
      ensures RosterOk()
      ensures HandsOf(players) == old(HandsOf(players))[i := old(players[i].cards) + [card]]
      ensures PlaysOf(players) == old(PlaysOf(players)) && NamesOf(players) == old(NamesOf(players))
    {
      players[i].Hit(card);
    }

    /** One draw of the automatic mode: the player at roster position `i`
        takes the front card of the deck. */
    method DealTo(i: nat) returns (busted: bool)
      requires deck != null && deck.Valid() && RosterOk()
      requires i < |players| && |deck.cards| > 0
      modifies deck, players[i]
      ensures deck.Valid() && RosterOk()
      ensures var t := old(TableNow());
              TableNow() == Table(t.hands[i := t.hands[i] + [t.deck[0]]], t.deck[1..])
      ensures PlaysOf(players) == old(PlaysOf(players)) && NamesOf(players) == old(NamesOf(players))
      ensures busted <==> Score(players[i].cards) > 21
    {
      assert deck.cards[0] in deck.cards;
      RankHasValue(deck.cards[0].rank);
      var card := deck.DrawCard();
      HitAt(i, card);
      busted := players[i].score > 21;
    }

    /** One turn of a pass of the automatic mode, for the player at roster
        position `i`: draw (an empty deck ends the mode, the pop raises), and
        end the pass if the score went over 21. */
    method AutoModeTurn(i: nat) returns (passEnds: bool, deckRanOut: bool)
      requires deck != null && deck.Valid() && RosterOk()
      requires i < |players|
      modifies deck, players[i]
      ensures deck.Valid() && RosterOk()
      ensures TableOk(old(TableNow())) && TableOk(TableNow())
      ensures AutoPass(old(TableNow()), i)
              == if passEnds then Outcome(TableNow(), deckRanOut) else AutoPass(TableNow(), i + 1)
      ensures PlaysOf(players) == old(PlaysOf(players)) && NamesOf(players) == old(NamesOf(players))
    {
      TableNowOk();
      ghost var before := TableNow();
      if |deck.cards| == 0 {
        return true, true;
      }
      ghost var hand := before.hands[i] + [before.deck[0]];
      ghost var after := Table(before.hands[i := hand], before.deck[1..]);
      AutoPassStep(before, i);
      var busted := DealTo(i);
      TableNowOk();
      assert TableNow() == after;
      passEnds, deckRanOut := busted, false;
    }

    /** One pass of the automatic mode: each player in roster order draws one
        card; the pass ends right after the first player whose score goes over
        21. Drawing from an empty deck ends it (the pop raises). */
    method AutoModePass() returns (deckRanOut: bool)
      requires deck != null && deck.Valid() && RosterOk()
      modifies deck, players
      ensures deck.Valid() && RosterOk()
      ensures TableOk(old(TableNow()))
      ensures AutoPass(old(TableNow()), 0) == Outcome(TableNow(), deckRanOut)
      ensures PlaysOf(players) == old(PlaysOf(players)) && NamesOf(players) == old(NamesOf(players))
    {
      TableNowOk();
      ghost var start := TableNow();
      var i := 0;
      while i < |players|
        invariant 0 <= i <= |players|
        invariant deck.Valid() && RosterOk()
        invariant PlaysOf(players) == old(PlaysOf(players)) && NamesOf(players) == old(NamesOf(players))
        invariant TableOk(TableNow())
        invariant AutoPass(TableNow(), i) == AutoPass(start, 0)
      {
        var passEnds;
        passEnds, deckRanOut := AutoModeTurn(i);
        if passEnds {
          return;
        }
        i := i + 1;
      }
      deckRanOut := false;
    }

    /** One pass of the automatic mode followed by the end-of-game test;
        `over` says whether the game is over. It is one step of AutoRun. */
    method AutoModeRound(ghost plays: seq<bool>) returns (deckRanOut: bool, over: bool)
      requires deck != null && deck.Valid() && RosterOk()
      requires players != [] && PlaysOf(players) == plays
      modifies deck, players
      ensures deck.Valid() && RosterOk()
      ensures TableOk(old(TableNow())) && TableOk(TableNow())
      ensures over == IsGameOver()
      ensures AutoRun(old(TableNow()), plays)
              == if deckRanOut || over then Outcome(TableNow(), deckRanOut) else AutoRun(TableNow(), plays)
      ensures !deckRanOut ==> |deck.cards| < old(|deck.cards|)
      ensures PlaysOf(players) == plays && NamesOf(players) == old(NamesOf(players))
    {
      TableNowOk();
      AutoRunStep(TableNow(), plays);
      deckRanOut := AutoModePass();
      TableNowOk();
      assert ScoresOf(players) == ScoresOfHands(HandsOf(players));
      over := IsGameOver();
    }

    /** The automatic mode. In every pass each player in roster order draws
        one card, and the pass ends right after the first player whose score
        goes over 21; passes go on until the game is over. The outcome and the
        new hands and deck are those AutoRun gives for the old hands, the
        `plays` flags and the old deck; drawing from an empty deck ends the
        mode (the pop raises). Nobody folds, and names are kept. */
    method AutoMode() returns (deckRanOut: bool)
      requires deck != null && deck.Valid()
      requires players != [] && RosterOk()
      modifies deck, players
      ensures AutoRun(old(TableNow()), old(PlaysOf(players))) == Outcome(TableNow(), deckRanOut)
      ensures !deckRanOut ==> IsGameOver()
      ensures PlaysOf(players) == old(PlaysOf(players))
      ensures NamesOf(players) == old(NamesOf(players))
      ensures RosterOk()
    {
      TableNowOk();
      ghost var plays := PlaysOf(players);
      ghost var goal := AutoRun(TableNow(), plays);
      while true
        invariant deck.Valid() && RosterOk()
        invariant PlaysOf(players) == plays && NamesOf(players) == old(NamesOf(players))
        invariant TableOk(TableNow())
        invariant AutoRun(TableNow(), plays) == goal
        decreases |deck.cards|
      {
        var over;
        deckRanOut, over := AutoModeRound(plays);
        if deckRanOut || over {
          return;
        }
      }
    }

    /** The manual game's state: hands, `plays` flags, deck and the answers
        still to be typed. */
    ghost function RoundNow(answers: seq<int>): Round
      reads this, players, deck
      requires deck != null
    {
      Round(HandsOf(players), PlaysOf(players), deck.cards, answers)
    }

    /** The player at roster position `i` folds; nothing else changes. */
    method FoldAt(i: nat)
      requires RosterOk() && i < |players|
      modifies players[i]
      ensures RosterOk()
      ensures PlaysOf(players) == old(PlaysOf(players))[i := false]
      ensures HandsOf(players) == old(HandsOf(players)) && NamesOf(players) == old(NamesOf(players))
    {
      players[i].Stand();
    }

    /** One turn of the manual mode for the player at roster position `i`,
        reading the fold answers from `answers[k..]`; `next` is the position
        of the first answer not read. It does what ManualTurn says. */
    method ManualModeTurn(i: nat, answers: seq<int>, k: nat) returns (passEnds: bool, halt: Halt, next: nat)
      requires deck != null && deck.Valid() && RosterOk()
      requires i < |players| && k <= |answers|
      modifies deck, players[i]
      ensures deck.Valid() && RosterOk()
      ensures k <= next <= |answers|
      ensures RoundOk(old(RoundNow(answers[k..])))
      ensures RoundOk(RoundNow(answers[next..]))
      ensures ManualPass(old(RoundNow(answers[k..])), i)
              == if passEnds then ManualOutcome(RoundNow(answers[next..]), halt)
                 else ManualPass(RoundNow(answers[next..]), i + 1)
      ensures NamesOf(players) == old(NamesOf(players))
    {
      TableNowOk();
      ghost var before := RoundNow(answers[k..]);
      ManualPassStep(before, i);
      var player := players[i];
      next, halt := k, Running;
      if !player.plays {
        return false, Running, k;
      }
      var asked := player.score != 0;
      if asked {
        if k == |answers| {
          return true, NoAnswer, k;
        }
        var opt := answers[k];
        next := k + 1;
        assert answers[k..][1..] == answers[next..];
        if opt != 0 {
          FoldAt(i);
          passEnds := false;
          return;
        }
      }
      if |deck.cards| == 0 {
        return true, DeckRanOut, next;
      }
      ghost var hand := before.hands[i] + [before.deck[0]];
      var busted := DealTo(i);
      assert RoundNow(answers[next..]) == before.(hands := before.hands[i := hand], deck := before.deck[1..],
                                                  answers := answers[next..]);
      passEnds := busted || IsLastRound();
    }

    /** One pass of the manual mode, from the first player on. It does what
        ManualPass says. */
    method ManualModePass(answers: seq<int>, k: nat) returns (halt: Halt, next: nat)
      requires deck != null && deck.Valid() && RosterOk() && k <= |answers|
      modifies deck, players
      ensures deck.Valid() && RosterOk()
      ensures k <= next <= |answers|
      ensures RoundOk(old(RoundNow(answers[k..])))
      ensures ManualPass(old(RoundNow(answers[k..])), 0) == ManualOutcome(RoundNow(answers[next..]), halt)
      ensures NamesOf(players) == old(NamesOf(players))
    {
      TableNowOk();
      ghost var goal := ManualPass(RoundNow(answers[k..]), 0);
      next := k;
      var i := 0;
      while i < |players|
        invariant 0 <= i <= |players| && k <= next <= |answers|
        invariant deck.Valid() && RosterOk()
        invariant NamesOf(players) == old(NamesOf(players))
        invariant RoundOk(RoundNow(answers[next..]))
        invariant ManualPass(RoundNow(answers[next..]), i) == goal
      {
        var passEnds;
        passEnds, halt, next := ManualModeTurn(i, answers, next);
        if passEnds {
          return;
        }
        TableNowOk();
        i := i + 1;
      }
      halt := Running;
    }

    /** The passes of the manual mode, with the fold answers supplied:
        passes are played until the game is over or a draw or a prompt
        fails. The new hands, `plays` flags and deck, the answers left and
        the reason for stopping are those ManualRun gives. */
    method ManualModeLoop(answers: seq<int>) returns (halt: Halt, used: nat)
      requires deck != null && deck.Valid()
      requires players != [] && RosterOk()
      modifies deck, players
      ensures deck.Valid() && RosterOk() && used <= |answers|
      ensures ManualRun(old(RoundNow(answers))) == ManualOutcome(RoundNow(answers[used..]), halt)
      ensures halt == Running ==> IsGameOver()
      ensures NamesOf(players) == old(NamesOf(players))
    {
      TableNowOk();
      ghost var goal := ManualRun(RoundNow(answers));
      used := 0;
      while true
        invariant deck.Valid() && RosterOk() && used <= |answers|
        invariant NamesOf(players) == old(NamesOf(players))
        invariant RoundOk(RoundNow(answers[used..]))
        invariant ManualRun(RoundNow(answers[used..])) == goal
        decreases |deck.cards|
      {
        var over;
        halt, over, used := ManualModeRound(answers, used);
        if halt != Running || over {
          return;
        }
      }
    }

    /** The manual mode: the passes, then the choice of the winner once the
        game is over. The new hands, `plays` flags and deck, the answers left
        and the reason for stopping early are those ManualRun gives. */
    method ManualMode(answers: seq<int>) returns (ending: Ending, halt: Halt, used: nat)
      requires deck != null && deck.Valid()
      requires players != [] && RosterOk()
      modifies deck, players
      ensures used <= |answers|
      ensures ManualRun(old(RoundNow(answers))) == ManualOutcome(RoundNow(answers[used..]), halt)
      ensures halt == Running ==> IsGameOver()
      ensures ending == if halt == Running then EndingOn(NamesOf(players), ScoresOf(players)) else Halted(halt)
      ensures NamesOf(players) == old(NamesOf(players))
      ensures RosterOk()
    {
      halt, used := ManualModeLoop(answers);
      ending := Decide(halt, NamesOf(players), ScoresOf(players));
    }

    /** One pass of the manual mode followed by the end-of-game test; `over`
        says whether the game is over. It is one step of ManualRun. */
    method ManualModeRound(answers: seq<int>, k: nat) returns (halt: Halt, over: bool, next: nat)
      requires deck != null && deck.Valid() && RosterOk() && k <= |answers|
      requires players != []
      modifies deck, players
      ensures deck.Valid() && RosterOk()
      ensures k <= next <= |answers|
      ensures RoundOk(old(RoundNow(answers[k..]))) && RoundOk(RoundNow(answers[next..]))
      ensures over == IsGameOver()
      ensures ManualRun(old(RoundNow(answers[k..])))
              == if halt != Running || over then ManualOutcome(RoundNow(answers[next..]), halt)
                 else ManualRun(RoundNow(answers[next..]))
      ensures halt == Running && !over ==> |deck.cards| < old(|deck.cards|)
      ensures NamesOf(players) == old(NamesOf(players))
    {
      TableNowOk();
      ghost var start := RoundNow(answers[k..]);
      ManualRunStep(start);
      ManualPassProgress(start, 0);
      halt, next := ManualModePass(answers, k);
      TableNowOk();
      assert ScoresOf(players) == ScoresOfHands(HandsOf(players));
      over := IsGameOver();
    }

    /** The end of a manual game with these names and final scores, in
        roster order: stopped early when `halt` says so; otherwise the winner
        and the winning score, or no winning score when every score is over
        21. */
    static method Decide(halt: Halt, names: seq<string>, scores: seq<int>) returns (ending: Ending)
      requires |names| == |scores|
      ensures ending == if halt == Running then EndingOn(names, scores) else Halted(halt)
    {
      if halt != Running {
        ending := Halted(halt);
      } else if exists i :: 0 <= i < |scores| && scores[i] <= 21 {
        var winner, winScore := PickWinner(names, scores);
        ending := Won(winner, winScore);
      } else {
        BestScoreSpec(scores);
        assert forall x :: x in scores ==> x > 21;
        ending := AllBust;
      }
    }

    /** The choice of the winner from the lists of names and scores built in
        roster order: the winning score is the largest score that is at most
        21, and the winner is the first player in roster order with that
        score. With every score over 21 there is no winning score (the maximum
        of an empty list raises). */
    static method PickWinner(names: seq<string>, scores: seq<int>) returns (winner: string, winScore: int)
      requires |names| == |scores|
      requires exists i :: 0 <= i < |scores| && scores[i] <= 21
      ensures winScore <= 21
      ensures forall i :: 0 <= i < |scores| && scores[i] <= 21 ==> scores[i] <= winScore
      ensures exists i :: 0 <= i < |scores| && scores[i] == winScore && winner == names[i]
                          && forall j :: 0 <= j < i ==> scores[j] != winScore
      ensures Won(winner, winScore) == EndingOn(names, scores)
    {
      var w :| 0 <= w < |scores| && scores[w] <= 21;
      assert scores[w] in scores;
      winScore := GetWinScore(scores);
      forall i | 0 <= i < |scores| && scores[i] <= 21 ensures scores[i] <= winScore {
        assert scores[i] in scores;
      }
      var k := IndexOf(scores, winScore);
      winner := names[k];
    }
  }
}
