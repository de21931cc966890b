/** Versions: where the predicates of the refactored engine and of the
    original engine disagree. */
module Versions {
  import DomainGame
  import LegacyRounds

  /** With three players of whom one has folded, the refactored engine is not
      in its last round and its round is not over, while for the original
      engine it is the last round and the game is over. With everybody still
      playing both agree that it is not the last round and not over; with
      everybody folded both say the game is over. */
  lemma PredicatesDiffer()
    ensures !DomainGame.IsLastRoundOn([false, true, true]) && LegacyRounds.LastRoundOn([false, true, true])
    ensures !DomainGame.IsOverOn([5, 5, 5], [false, true, true])
            && LegacyRounds.GameOverOn([5, 5, 5], [false, true, true])
    ensures !DomainGame.IsLastRoundOn([true, true]) && !LegacyRounds.LastRoundOn([true, true])
    ensures !DomainGame.IsOverOn([5, 5], [true, true]) && !LegacyRounds.GameOverOn([5, 5], [true, true])
    ensures DomainGame.IsOverOn([5, 5], [false, false]) && LegacyRounds.GameOverOn([5, 5], [false, false])
  {
    DomainGame.PredicateExamples();
    assert [true, true][1..] == [true];
    assert [false, true, true][1..] == [true, true];
  }

  /** On a non-empty roster the original engine's last round begins with the
      first fold, the refactored engine's only when at most one player is
      left: whenever the refactored engine is in its last round with two
      players or more, so is the original engine. */
  lemma LastRoundImplies(plays: seq<bool>)
    requires |plays| >= 2 && DomainGame.IsLastRoundOn(plays)
    ensures LegacyRounds.LastRoundOn(plays)
  {
    if !plays[0] {
    } else {
      assert !plays[1];
    }
  }
}
