/** LegacyRounds: the predicates of the original engine (game.py) on plain
    values, and the automatic mode's rounds as a function of the hands, the
    `plays` flags and the deck. The Game class of LegacyGame is proved to
    behave as these functions say. */
module LegacyRounds {
  import opened Seqs
  import opened Cards
  import opened Players

  predicate Folded(plays: bool)
  {
    !plays
  }

  /** The game is over when the list of busted players is not empty or the
      list of folded players is not empty. */
  function GameOverOn(scores: seq<int>, plays: seq<bool>): (over: bool)
    ensures over <==> (exists i :: 0 <= i < |scores| && scores[i] > 21)
                      || (exists i :: 0 <= i < |plays| && !plays[i])
  {
    var busted := Filter(scores, IsBust);
    var folded := Filter(plays, Folded);
    assert (exists i :: 0 <= i < |scores| && scores[i] > 21) <==> busted != [] by {
      if i :| 0 <= i < |scores| && scores[i] > 21 {
        assert scores[i] in busted;
      }
      if busted != [] {
        assert busted[0] in scores && IsBust(busted[0]);
      }
    }
    assert (exists i :: 0 <= i < |plays| && !plays[i]) <==> folded != [] by {
      if i :| 0 <= i < |plays| && !plays[i] {
        assert plays[i] in folded;
      }
      if folded != [] {
        assert folded[0] in plays && Folded(folded[0]);
      }
    }
    busted != [] || folded != []
  }

  /** It is the last round when not every player plays, or when no player
      plays; so on a non-empty roster, as soon as one player has folded. */
  function LastRoundOn(plays: seq<bool>): (last: bool)
    ensures last <==> plays == [] || exists i :: 0 <= i < |plays| && !plays[i]
  {
    !All(plays) || !Any(plays)
  }

  /** The hands of the roster, in roster order, and the deck. */
  datatype Table = Table(hands: seq<seq<Card>>, deck: seq<Card>)

  /** Where the automatic mode stops: the table, and whether it stopped
      because a card was drawn from an empty deck (the pop raises). */
  datatype Outcome = Outcome(table: Table, deckRanOut: bool)

  /** Every card on the table has a value. */
  ghost predicate TableOk(t: Table)
  {
    Scorable(t.deck) && forall i :: 0 <= i < |t.hands| ==> Scorable(t.hands[i])
  }

  function ScoresOfHands(hands: seq<seq<Card>>): (scores: seq<int>)
    requires forall i :: 0 <= i < |hands| ==> Scorable(hands[i])
    ensures |scores| == |hands|
    ensures forall i :: 0 <= i < |hands| ==> scores[i] == Score(hands[i])
  {
    seq(|hands|, i requires 0 <= i < |hands| => Score(hands[i]))
  }

  /** Every hand of `u` starts with the corresponding hand of `t`. */
  ghost predicate HandsGrow(t: Table, u: Table)
  {
    |u.hands| == |t.hands| && forall i :: 0 <= i < |t.hands| ==> t.hands[i] <= u.hands[i]
  }

  /** One pass of the automatic mode from roster position `i` on: each player
      in turn draws the front card; the pass ends after the last player, or
      right after the first player whose score goes over 21. */
  function AutoPass(t: Table, i: nat): (r: Outcome)
    requires TableOk(t) && i <= |t.hands|
    ensures TableOk(r.table) && HandsGrow(t, r.table)
    ensures |r.table.deck| <= |t.deck| && r.table.deck == t.deck[|t.deck| - |r.table.deck|..]
    ensures r.deckRanOut ==> r.table.deck == []
    ensures !r.deckRanOut && i < |t.hands| ==> |r.table.deck| < |t.deck|
    decreases |t.hands| - i
  {
    if i == |t.hands| then Outcome(t, false)
    else if t.deck == [] then Outcome(t, true)
    else
      var card := t.deck[0];
      var hand := t.hands[i] + [card];
      ScoreAppend(t.hands[i], card);
      var u := Table(t.hands[i := hand], t.deck[1..]);
      assert HandsGrow(t, u);
      if Score(hand) > 21 then Outcome(u, false)
      else
        var r := AutoPass(u, i + 1);
        assert HandsGrow(t, r.table) by {
          forall j | 0 <= j < |t.hands| ensures t.hands[j] <= r.table.hands[j] {
            assert u.hands[j] <= r.table.hands[j];
          }
        }
        r
  }

  /** One draw of a pass, unfolded. */
  lemma AutoPassStep(t: Table, i: nat)
    requires TableOk(t) && i < |t.hands| && t.deck != []
    ensures Scorable(t.hands[i] + [t.deck[0]])
    ensures var hand := t.hands[i] + [t.deck[0]];
            var u := Table(t.hands[i := hand], t.deck[1..]);
            TableOk(u) &&
            AutoPass(t, i) == if Score(hand) > 21 then Outcome(u, false) else AutoPass(u, i + 1)
  {
    ScoreAppend(t.hands[i], t.deck[0]);
  }

  /** The automatic mode: passes are played until the game is over, or until
      a draw finds the deck empty. An empty roster would loop for ever. */
  function AutoRun(t: Table, plays: seq<bool>): (r: Outcome)
    requires TableOk(t) && |plays| == |t.hands| > 0
    ensures TableOk(r.table) && HandsGrow(t, r.table)
    decreases |t.deck|
  {
    var r := AutoPass(t, 0);
    if r.deckRanOut || GameOverOn(ScoresOfHands(r.table.hands), plays) then r
    else AutoRun(r.table, plays)
  }

  /** One pass of the automatic mode, unfolded. */
  lemma AutoRunStep(t: Table, plays: seq<bool>)
    requires TableOk(t) && |plays| == |t.hands| > 0
    ensures var r := AutoPass(t, 0);
            && TableOk(r.table) && |r.table.hands| == |t.hands|
            && (!r.deckRanOut ==> |r.table.deck| < |t.deck|)
            && AutoRun(t, plays) == if r.deckRanOut || GameOverOn(ScoresOfHands(r.table.hands), plays)
                                    then r else AutoRun(r.table, plays)
  {
  }

  /** The state of a manual game: the hands and `plays` flags in roster
      order, the deck, and the answers still to be typed at the fold prompt
      (0 keeps playing, any other number folds). */
  datatype Round = Round(hands: seq<seq<Card>>, plays: seq<bool>, deck: seq<Card>, answers: seq<int>)

  /** Why the manual mode stopped: the game is over (Running to the end), a
      draw found the deck empty (the pop raises), or a fold prompt found no
      answer left. */
  datatype Halt = Running | DeckRanOut | NoAnswer

  datatype ManualOutcome = ManualOutcome(round: Round, halt: Halt)

  ghost predicate RoundOk(m: Round)
  {
    |m.plays| == |m.hands| && TableOk(Table(m.hands, m.deck))
  }

  /** `u` continues `m`: the roster is the same, folded players stay folded,
      and the deck does not grow. */
  ghost predicate Continues(m: Round, u: Round)
  {
    && RoundOk(u)
    && |u.hands| == |m.hands|
    && |u.deck| <= |m.deck|
    && |u.plays| == |m.plays|
    && (forall j :: 0 <= j < |m.plays| && u.plays[j] ==> m.plays[j])
  }

  /** Continuing is transitive. */
  lemma ContinuesTrans(m: Round, u: Round, v: Round)
    requires RoundOk(m) && Continues(m, u) && Continues(u, v)
    ensures Continues(m, v)
  {
  }

  /** Where one turn of the manual mode leaves the game, why it stopped
      (Running if it did not), and whether the pass ends with it. */
  datatype Turn = Turn(round: Round, halt: Halt, passEnds: bool)

  /** The turn of the player at roster position `i` in the manual mode. A
      player who has folded is skipped. A player with a non-zero score is
      asked whether to fold (an answer other than 0 folds), and one who folds
      draws nothing. Otherwise the player draws the front card, and the pass
      ends if the score went over 21 or it is now the last round. */
  function ManualTurn(m: Round, i: nat): (s: Turn)
    requires RoundOk(m) && i < |m.hands|
    ensures Continues(m, s.round)
    ensures s.halt != Running ==> s.passEnds
    ensures s.halt == Running && s.round.plays[i] ==> |s.round.deck| < |m.deck|
  {
    if !m.plays[i] then Turn(m, Running, false)
    else
      var asked := Score(m.hands[i]) != 0;
      if asked && m.answers == [] then Turn(m, NoAnswer, true)
      else if asked && m.answers[0] != 0 then
        Turn(m.(plays := m.plays[i := false], answers := m.answers[1..]), Running, false)
      else
        var rest := if asked then m.answers[1..] else m.answers;
        if m.deck == [] then Turn(m.(answers := rest), DeckRanOut, true)
        else
          var hand := m.hands[i] + [m.deck[0]];
          ScoreAppend(m.hands[i], m.deck[0]);
          var u := m.(hands := m.hands[i := hand], deck := m.deck[1..], answers := rest);
          Turn(u, Running, Score(hand) > 21 || LastRoundOn(u.plays))
  }

  /** One pass of the manual mode from roster position `i` on: turns in
      roster order until one ends the pass or stops the mode. */
  function ManualPass(m: Round, i: nat): (r: ManualOutcome)
    requires RoundOk(m) && i <= |m.hands|
    ensures RoundOk(r.round) && |r.round.hands| == |m.hands|
    decreases |m.hands| - i
  {
    if i == |m.hands| then ManualOutcome(m, Running)
    else
      var s := ManualTurn(m, i);
      if s.passEnds then ManualOutcome(s.round, s.halt) else ManualPass(s.round, i + 1)
  }

  /** A pass continues the game, and a pass that keeps everybody playing
      has drawn at least one card: nobody can stay in without drawing. */
  lemma {:induction false} ManualPassProgress(m: Round, i: nat)
    requires RoundOk(m) && i <= |m.hands|
    ensures var r := ManualPass(m, i);
            && Continues(m, r.round)
            && (r.halt == Running && i < |m.hands| && (forall j :: 0 <= j < |m.plays| ==> r.round.plays[j])
                ==> |r.round.deck| < |m.deck|)
    decreases |m.hands| - i
  {
    if i < |m.hands| {
      var s := ManualTurn(m, i);
      if !s.passEnds {
        ManualPassProgress(s.round, i + 1);
        ContinuesTrans(m, s.round, ManualPass(s.round, i + 1).round);
      }
    }
  }

  /** One turn of a pass, unfolded. */
  lemma ManualPassStep(m: Round, i: nat)
    requires RoundOk(m) && i < |m.hands|
    ensures var s := ManualTurn(m, i);
            RoundOk(s.round) && |s.round.hands| == |m.hands| &&
            ManualPass(m, i) == if s.passEnds then ManualOutcome(s.round, s.halt) else ManualPass(s.round, i + 1)
  {
  }

  /** The manual mode: passes are played until the game is over, or until a
      draw or a prompt fails. */
  function ManualRun(m: Round): (r: ManualOutcome)
    requires RoundOk(m) && |m.hands| > 0
    ensures RoundOk(r.round) && |r.round.hands| == |m.hands|
    decreases |m.deck|
  {
    var r := ManualPass(m, 0);
    ManualPassProgress(m, 0);
    if r.halt != Running || GameOverOn(ScoresOfHands(r.round.hands), r.round.plays) then r
    else
      assert forall j :: 0 <= j < |m.plays| ==> r.round.plays[j];
      ManualRun(r.round)
  }
  /** One pass of the manual mode, unfolded. */
  lemma ManualRunStep(m: Round)
    requires RoundOk(m) && |m.hands| > 0
    ensures var r := ManualPass(m, 0);
            && RoundOk(r.round) && |r.round.hands| == |m.hands|
            && ManualRun(m) == if r.halt != Running || GameOverOn(ScoresOfHands(r.round.hands), r.round.plays)
                               then r else ManualRun(r.round)
  {
  }
}

/** Properties of the automatic mode of the original engine. */
module LegacyRoundsFacts {
  import opened Seqs
  import opened Cards
  import opened Players
  import opened LegacyRounds

  /** No score is over 21. */
  ghost predicate NoBust(scores: seq<int>)
  {
    forall j :: 0 <= j < |scores| ==> scores[j] <= 21
  }

  /** At most one score is over 21. */
  ghost predicate AtMostOneBust(scores: seq<int>)
  {
    forall j, k :: 0 <= j < |scores| && 0 <= k < |scores| && scores[j] > 21 && scores[k] > 21 ==> j == k
  }

  /** Changing one score of a list with no score over 21 leaves at most one
      score over 21, and none if the new score is at most 21. */
  lemma ChangeOneScore(s: seq<int>, i: nat, v: int)
    requires NoBust(s) && i < |s|
    ensures AtMostOneBust(s[i := v])
    ensures v <= 21 ==> NoBust(s[i := v])
  {
  }

  /** One draw, starting with nobody over 21, leaves at most one player over
      21, and nobody if the drawing player stays at 21 or below. */
  lemma DrawOneBust(t: Table, i: nat)
    requires TableOk(t) && i < |t.hands| && t.deck != []
    requires NoBust(ScoresOfHands(t.hands))
    ensures Scorable(t.hands[i] + [t.deck[0]])
    ensures var hand := t.hands[i] + [t.deck[0]];
            var s := ScoresOfHands(t.hands[i := hand]);
            AtMostOneBust(s) && (Score(hand) <= 21 ==> NoBust(s))
  {
    AutoPassStep(t, i);
    var hand := t.hands[i] + [t.deck[0]];
    var s0 := ScoresOfHands(t.hands);
    assert ScoresOfHands(t.hands[i := hand]) == s0[i := Score(hand)];
    ChangeOneScore(s0, i, Score(hand));
  }

  /** A pass that starts with nobody over 21 ends with at most one player
      over 21: it stops right after the first one. */
  lemma {:induction false} AutoPassOneBust(t: Table, i: nat)
    requires TableOk(t) && i <= |t.hands|
    requires NoBust(ScoresOfHands(t.hands))
    ensures AtMostOneBust(ScoresOfHands(AutoPass(t, i).table.hands))
    ensures AutoPass(t, i).deckRanOut ==> NoBust(ScoresOfHands(AutoPass(t, i).table.hands))
    decreases |t.hands| - i
  {
    var r := AutoPass(t, i);
    if i == |t.hands| || t.deck == [] {
      assert r.table == t;
    } else {
      AutoPassStep(t, i);
      DrawOneBust(t, i);
      var hand := t.hands[i] + [t.deck[0]];
      var u := Table(t.hands[i := hand], t.deck[1..]);
      if Score(hand) <= 21 {
        assert r == AutoPass(u, i + 1);
        AutoPassOneBust(u, i + 1);
      } else {
        assert r == Outcome(u, false);
      }
    }
  }

  /** Who drew in a pass from roster position `i` that went from table `t` to
      outcome `r`: if `n` cards left the deck, the players at positions `i`
      to `i + n - 1` each took one of them, in roster order and in deck
      order, and nobody else took a card; a pass that ran out stopped before
      the end of the roster. */
  ghost predicate PassDraws(t: Table, i: nat, r: Outcome)
  {
    var n := |t.deck| - |r.table.deck|;
    && |r.table.hands| == |t.hands|
    && 0 <= n && i + n <= |t.hands|
    && (forall j :: 0 <= j < |t.hands| && !(i <= j < i + n) ==> r.table.hands[j] == t.hands[j])
    && (forall j :: i <= j < i + n ==> r.table.hands[j] == t.hands[j] + [t.deck[j - i]])
    && (r.deckRanOut ==> i + n < |t.hands|)
  }

  /** Where that pass stopped: every player who drew in it but the last
      stayed at 21 or below, and a pass that neither ran out nor reached the
      end of the roster stopped right after the last drawer went over 21. */
  ghost predicate PassStops(t: Table, i: nat, r: Outcome)
  {
    var n := |t.deck| - |r.table.deck|;
    && TableOk(r.table) && |r.table.hands| == |t.hands|
    && (forall j :: 0 <= j < |t.hands| && i <= j < i + n - 1 ==> Score(r.table.hands[j]) <= 21)
    && (!r.deckRanOut && i + n < |t.hands| ==> n > 0 && Score(r.table.hands[i + n - 1]) > 21)
  }

  /** A player who draws at position `i` and stays in hands the rest of the
      pass on to position `i + 1`: what holds of the rest holds of the whole. */
  lemma PassShapeStep(t: Table, i: nat, u: Table, r: Outcome)
    requires i < |t.hands| && t.deck != []
    requires u == Table(t.hands[i := t.hands[i] + [t.deck[0]]], t.deck[1..])
    requires TableOk(u) && Score(u.hands[i]) <= 21
    requires PassDraws(u, i + 1, r) && PassStops(u, i + 1, r)
    ensures PassDraws(t, i, r) && PassStops(t, i, r)
  {
    var n := |u.deck| - |r.table.deck|;
    assert |t.deck| - |r.table.deck| == n + 1;
    forall j | i + 1 <= j < i + 1 + n ensures r.table.hands[j] == t.hands[j] + [t.deck[j - i]] {
      assert u.deck[j - (i + 1)] == t.deck[j - i];
    }
    assert r.table.hands[i] == u.hands[i];
  }

  /** A player who draws at position `i` and goes over 21 ends the pass with
      that one draw; a pass that draws nothing leaves the table as it was. */
  lemma PassShapeEnd(t: Table, i: nat, u: Table)
    requires i < |t.hands| && t.deck != []
    requires u == Table(t.hands[i := t.hands[i] + [t.deck[0]]], t.deck[1..])
    requires TableOk(t) && TableOk(u) && Score(u.hands[i]) > 21
    ensures PassDraws(t, i, Outcome(u, false)) && PassStops(t, i, Outcome(u, false))
    ensures PassDraws(t, i, Outcome(t, i < |t.hands|)) && PassStops(t, i, Outcome(t, i < |t.hands|))
  {
    assert |t.deck| - |u.deck| == 1;
  }

  /** The shape of a pass: one card each, in roster order and deck order,
      from position `i` on, stopping right after the first player over 21,
      at the end of the roster, or at a draw from an empty deck. */
  lemma {:induction false} AutoPassShape(t: Table, i: nat)
    requires TableOk(t) && i <= |t.hands|
    ensures PassDraws(t, i, AutoPass(t, i)) && PassStops(t, i, AutoPass(t, i))
    decreases |t.hands| - i, 1
  {
    if i < |t.hands| && t.deck != [] {
      AutoPassShapeDraw(t, i);
    } else {
      assert AutoPass(t, i) == Outcome(t, i < |t.hands|);
      assert |t.deck| - |t.deck| == 0;
    }
  }

  /** The shape of a pass whose first turn finds a card to draw. */
  lemma {:induction false} AutoPassShapeDraw(t: Table, i: nat)
    requires TableOk(t) && i < |t.hands| && t.deck != []
    ensures PassDraws(t, i, AutoPass(t, i)) && PassStops(t, i, AutoPass(t, i))
    decreases |t.hands| - i, 0
  {
    AutoPassStep(t, i);
    var hand := t.hands[i] + [t.deck[0]];
    var u := Table(t.hands[i := hand], t.deck[1..]);
    if Score(hand) <= 21 {
      AutoPassShape(u, i + 1);
      PassShapeStep(t, i, u, AutoPass(u, i + 1));
      assert AutoPass(t, i) == AutoPass(u, i + 1);
    } else {
      PassShapeEnd(t, i, u);
      assert AutoPass(t, i) == Outcome(u, false);
    }
  }

  /** The automatic mode stops without running out of cards only once the
      game is over. */
  lemma {:induction false} AutoRunEndsOver(t: Table, plays: seq<bool>)
    requires TableOk(t) && |plays| == |t.hands| > 0
    ensures var r := AutoRun(t, plays);
            !r.deckRanOut ==> GameOverOn(ScoresOfHands(r.table.hands), plays)
    decreases |t.deck|
  {
    var r := AutoPass(t, 0);
    if !r.deckRanOut && !GameOverOn(ScoresOfHands(r.table.hands), plays) {
      AutoRunEndsOver(r.table, plays);
    }
  }

  /** When every player plays and nobody starts over 21 (as at the start of a
      game), the automatic mode ends with at most one player over 21, and,
      unless the deck ran out, with exactly one: the game can only be over
      because of a bust, since nobody folds. */
  lemma {:induction false} AutoRunOneBust(t: Table, plays: seq<bool>)
    requires TableOk(t) && |plays| == |t.hands| > 0
    requires forall j :: 0 <= j < |plays| ==> plays[j]
    requires NoBust(ScoresOfHands(t.hands))
    ensures var r := AutoRun(t, plays);
            AtMostOneBust(ScoresOfHands(r.table.hands))
            && (!r.deckRanOut ==> exists j :: 0 <= j < |t.hands| && Score(r.table.hands[j]) > 21)
    decreases |t.deck|
  {
    var r := AutoPass(t, 0);
    AutoPassOneBust(t, 0);
    var s := ScoresOfHands(r.table.hands);
    if !r.deckRanOut {
      if GameOverOn(s, plays) {
        var j :| 0 <= j < |s| && s[j] > 21;
        assert Score(r.table.hands[j]) > 21;
      } else {
        assert NoBust(s);
        AutoRunOneBust(r.table, plays);
      }
    }
  }

  /** All the hands' cards, one hand after another. */
  function Flatten(hands: seq<seq<Card>>): seq<Card>
  {
    if hands == [] then [] else hands[0] + Flatten(hands[1..])
  }

  /** Every card of the round: in the hands or still in the deck. */
  ghost function CardsOnTable(t: Table): multiset<Card>
  {
    multiset(Flatten(t.hands)) + multiset(t.deck)
  }

  /** Giving a card to one hand adds exactly that card to the hands. */
  lemma {:induction false} FlattenGive(hands: seq<seq<Card>>, i: nat, card: Card)
    requires i < |hands|
    ensures multiset(Flatten(hands[i := hands[i] + [card]])) == multiset(Flatten(hands)) + multiset{card}
  {
    var h := hands[i := hands[i] + [card]];
    if i == 0 {
      assert h[1..] == hands[1..];
    } else {
      assert h[1..] == hands[1..][i - 1 := hands[i] + [card]];
      FlattenGive(hands[1..], i - 1, card);
    }
  }

  /** One draw moves the front card of the deck to a hand: no card is lost or
      made up. */
  lemma DrawKeepsCards(t: Table, i: nat)
    requires i < |t.hands| && t.deck != []
    ensures CardsOnTable(Table(t.hands[i := t.hands[i] + [t.deck[0]]], t.deck[1..])) == CardsOnTable(t)
  {
    FlattenGive(t.hands, i, t.deck[0]);
    assert t.deck == [t.deck[0]] + t.deck[1..];
  }

  /** A pass moves cards from the deck to the hands: none is lost or made up. */
  lemma {:induction false} AutoPassKeepsCards(t: Table, i: nat)
    requires TableOk(t) && i <= |t.hands|
    ensures CardsOnTable(AutoPass(t, i).table) == CardsOnTable(t)
    decreases |t.hands| - i
  {
    if i < |t.hands| && t.deck != [] {
      AutoPassStep(t, i);
      var hand := t.hands[i] + [t.deck[0]];
      var u := Table(t.hands[i := hand], t.deck[1..]);
      DrawKeepsCards(t, i);
      assert CardsOnTable(u) == CardsOnTable(t);
      if Score(hand) <= 21 {
        AutoPassKeepsCards(u, i + 1);
      } else {
        assert AutoPass(t, i).table == u;
      }
    } else {
      assert AutoPass(t, i).table == t;
    }
  }

  /** The automatic mode keeps every card of the round. */
  lemma {:induction false} AutoRunKeepsCards(t: Table, plays: seq<bool>)
    requires TableOk(t) && |plays| == |t.hands| > 0
    ensures CardsOnTable(AutoRun(t, plays).table) == CardsOnTable(t)
    decreases |t.deck|
  {
    var r := AutoPass(t, 0);
    AutoPassKeepsCards(t, 0);
    if !r.deckRanOut && !GameOverOn(ScoresOfHands(r.table.hands), plays) {
      AutoRunKeepsCards(r.table, plays);
    }
  }
}

/** Properties of the manual mode of the original engine. */
module ManualFacts {
  import opened Seqs
  import opened Wrappers
  import opened Cards
  import opened Players
  import opened LegacyRounds
  import opened LegacyRoundsFacts

  /** A turn that starts with nobody over 21 leaves at most one player over
      21, and none unless it ends the pass. */
  lemma ManualTurnOneBust(m: Round, i: nat)
    requires RoundOk(m) && i < |m.hands|
    requires NoBust(ScoresOfHands(m.hands))
    ensures var s := ManualTurn(m, i);
            AtMostOneBust(ScoresOfHands(s.round.hands))
            && (!s.passEnds ==> NoBust(ScoresOfHands(s.round.hands)))
  {
    var s := ManualTurn(m, i);
    var s0 := ScoresOfHands(m.hands);
    if s.round.hands != m.hands {
      var hand := m.hands[i] + [m.deck[0]];
      ScoreAppend(m.hands[i], m.deck[0]);
      assert s.round.hands == m.hands[i := hand];
      assert ScoresOfHands(s.round.hands) == s0[i := Score(hand)];
      ChangeOneScore(s0, i, Score(hand));
    }
  }

  /** A pass of the manual mode that starts with nobody over 21 ends with at
      most one player over 21. */
  lemma {:induction false} ManualPassOneBust(m: Round, i: nat)
    requires RoundOk(m) && i <= |m.hands|
    requires NoBust(ScoresOfHands(m.hands))
    ensures AtMostOneBust(ScoresOfHands(ManualPass(m, i).round.hands))
    decreases |m.hands| - i
  {
    if i < |m.hands| {
      var s := ManualTurn(m, i);
      ManualTurnOneBust(m, i);
      if !s.passEnds {
        ManualPassOneBust(s.round, i + 1);
      }
    }
  }

  /** The manual mode stops without a failed draw or prompt only once the
      game is over. */
  lemma {:induction false} ManualRunEndsOver(m: Round)
    requires RoundOk(m) && |m.hands| > 0
    ensures var r := ManualRun(m);
            r.halt == Running ==> GameOverOn(ScoresOfHands(r.round.hands), r.round.plays)
    decreases |m.deck|
  {
    var r := ManualPass(m, 0);
    ManualPassProgress(m, 0);
    if r.halt == Running && !GameOverOn(ScoresOfHands(r.round.hands), r.round.plays) {
      ManualRunEndsOver(r.round);
    }
  }

  /** Starting with nobody over 21, the manual mode ends with at most one
      player over 21. */
  lemma {:induction false} ManualRunOneBust(m: Round)
    requires RoundOk(m) && |m.hands| > 0
    requires NoBust(ScoresOfHands(m.hands))
    ensures AtMostOneBust(ScoresOfHands(ManualRun(m).round.hands))
    decreases |m.deck|
  {
    var r := ManualPass(m, 0);
    ManualPassProgress(m, 0);
    ManualPassOneBust(m, 0);
    var s := ScoresOfHands(r.round.hands);
    if r.halt == Running && !GameOverOn(s, r.round.plays) {
      assert NoBust(s);
      ManualRunOneBust(r.round);
    }
  }

  /** Two hands or more with at most one over 21: some hand is at 21 or below. */
  lemma TwoHandsOneUnder(h: seq<seq<Card>>)
    requires |h| >= 2 && forall j :: 0 <= j < |h| ==> Scorable(h[j])
    requires AtMostOneBust(ScoresOfHands(h))
    ensures exists j :: 0 <= j < |h| && Score(h[j]) <= 21
  {
    var s := ScoresOfHands(h);
    if s[0] <= 21 {
      assert Score(h[0]) <= 21;
    } else {
      assert s[1] <= 21;
      assert Score(h[1]) <= 21;
    }
  }

  /** With two players or more, starting with nobody over 21, some player
      ends the manual mode at 21 or below: the winning score always exists. */
  lemma ManualRunHasWinner(m: Round)
    requires RoundOk(m) && |m.hands| >= 2
    requires NoBust(ScoresOfHands(m.hands))
    ensures var h := ManualRun(m).round.hands;
            exists j :: 0 <= j < |h| && Score(h[j]) <= 21
  {
    ManualRunOneBust(m);
    var h := ManualRun(m).round.hands;
    assert |h| == |m.hands|;
    TwoHandsOneUnder(h);
    var j :| 0 <= j < |h| && Score(h[j]) <= 21;
    assert Score(ManualRun(m).round.hands[j]) <= 21;
  }

  /** With a single player the manual mode can end with nobody at 21 or
      below: a player holding 20 who keeps playing and draws a king. */
  lemma OnePlayerCanBust()
    ensures var m := Round([[Card("Spades", "K"), Card("Hearts", "K")]], [true], [Card("Clubs", "K")], [0]);
            RoundOk(m) && ManualRun(m).halt == Running && Score(ManualRun(m).round.hands[0]) == 30
  {
    var k1, k2, k3 := Card("Spades", "K"), Card("Hearts", "K"), Card("Clubs", "K");
    var m := Round([[k1, k2]], [true], [k3], [0]);
    assert ParseCardRank("K") == Some(10);
    assert Score([k1, k2]) == 20 by {
      assert [k1, k2][1..] == [k2];
      assert Score([k2]) == 10 by { assert [k2][1..] == []; }
    }
    ScoreAppend([k1, k2], k3);
    assert [k1, k2] + [k3] == [k1, k2, k3];
    var u := Round([[k1, k2, k3]], [true], [], []);
    assert ManualTurn(m, 0) == Turn(u, Running, true);
    assert ManualPass(m, 0) == ManualOutcome(u, Running);
    assert ScoresOfHands(u.hands)[0] == 30;
  }

  /** A turn moves at most one card from the deck to a hand. */
  lemma ManualTurnKeepsCards(m: Round, i: nat)
    requires RoundOk(m) && i < |m.hands|
    ensures var s := ManualTurn(m, i);
            CardsOnTable(Table(s.round.hands, s.round.deck)) == CardsOnTable(Table(m.hands, m.deck))
  {
    var s := ManualTurn(m, i);
    var asked := Score(m.hands[i]) != 0;
    if m.plays[i] && !(asked && m.answers == []) && !(asked && m.answers[0] != 0) && m.deck != [] {
      assert s.round.hands == m.hands[i := m.hands[i] + [m.deck[0]]];
      assert s.round.deck == m.deck[1..];
      DrawKeepsCards(Table(m.hands, m.deck), i);
    } else {
      assert s.round.hands == m.hands && s.round.deck == m.deck;
    }
  }

  /** A pass of the manual mode keeps every card of the round. */
  lemma {:induction false} ManualPassKeepsCards(m: Round, i: nat)
    requires RoundOk(m) && i <= |m.hands|
    ensures var r := ManualPass(m, i);
            CardsOnTable(Table(r.round.hands, r.round.deck)) == CardsOnTable(Table(m.hands, m.deck))
    decreases |m.hands| - i
  {
    if i < |m.hands| {
      var s := ManualTurn(m, i);
      ManualTurnKeepsCards(m, i);
      if !s.passEnds {
        ManualPassKeepsCards(s.round, i + 1);
      } else {
        assert ManualPass(m, i).round == s.round;
      }
    } else {
      assert ManualPass(m, i).round == m;
    }
  }

  /** The manual mode keeps every card of the round. */
  lemma {:induction false} ManualRunKeepsCards(m: Round)
    requires RoundOk(m) && |m.hands| > 0
    ensures var r := ManualRun(m);
            CardsOnTable(Table(r.round.hands, r.round.deck)) == CardsOnTable(Table(m.hands, m.deck))
    decreases |m.deck|
  {
    var r := ManualPass(m, 0);
    ManualPassProgress(m, 0);
    ManualPassKeepsCards(m, 0);
    if r.halt == Running && !GameOverOn(ScoresOfHands(r.round.hands), r.round.plays) {
      ManualRunKeepsCards(r.round);
    }
  }
}
