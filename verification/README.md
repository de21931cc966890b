# Blackjack engine — a Dafny model

This project models the core of a small console blackjack game. There are two copies of the engine:

- the refactored engine, `src/domain/game.py`;
- the original engine, `game.py`.

They share the card, deck and player logic. Their end-of-game predicates differ, so each copy has its own game module.

Shared modules:

- **Seqs**: the Python list builtins the engine relies on (`any`, `all`, `count(True)`, `filter`) and lists without repeats.
- **Cards**: the `Card` record, the four suit labels and the thirteen rank labels (`"D"` is the queen), `_parse_card_rank` and the `_get_cards` comprehension.
- **Decks**: the `Deck` class, whose card list is popped from the front. The fresh deck's order comes from set iteration, so it is a parameter: any ordering of the suit and rank sets. `random.shuffle` is the Fisher–Yates shuffle with the random picks supplied.
- **Players**: the `Player` class, with its hand, its score and its `plays` flag. `hit`/`stand` in the refactored engine are `take_card`/`fold` in the original engine, with identical bodies. Both are modelled by `Player.Hit` and `Player.Stand`.
- **WinScores**: the winning-score loop `get_win_score` / `_get_win_score`, identical in both copies. It comes with `max`, `list.remove` and `list.index`.

Game modules:

- **DomainGame**: the refactored `Game`. The round is over when some score is over 21 or nobody plays. It is the last round when at most one player plays.
- **LegacyRounds**, **LegacyRoundsFacts**, **ManualFacts**: the original engine's rules on plain values.
  - The game is over when some score is over 21 or *some* player has folded. It is the last round when the roster is empty or some player has folded.
  - The automatic mode is described pass by pass (`AutoPass`, `AutoRun`), and the manual mode turn by turn (`ManualTurn`, `ManualPass`, `ManualRun`).
  - The fold answers typed at the prompt are a list of integers: 0 keeps playing and any other number folds, as Python's truth value of an `int` does.
  - Lemmas prove what these runs guarantee:
    - the game is over when they stop normally;
    - at most one player ends over 21;
    - no card is lost or made up;
    - with two or more players a winning score exists.
- **LegacyGame**: the original `Game` class. Its `AutoMode` and `ManualMode` methods update the players and the deck in place. They are proved to end exactly where `AutoRun` and `ManualRun` say. The winner pick follows the source: the largest score that is at most 21, then the first player in roster order with that score.
- **Versions**: concrete inputs on which the two copies' predicates disagree.

The source's crashes are modelled in two ways:

- Preconditions where the caller can prevent them:
  - popping an empty deck, for `DrawCard`;
  - a card whose rank label is not J, D, K, A or a numeral, for `Player.Hit`. In the source, `hit`/`take_card` appends the card first, and then `int()` raises inside `_update_scores`, leaving the hand one card longer and the score stale. Every label of the deck parses (`Cards.RankHasValue`), so the engine never reaches this case;
  - `max` of an emptied list when every score exceeds 21, for `GetWinScore` and `PickWinner`.
- Outcomes where they happen inside a game loop:
  - `deckRanOut` / `DeckRanOut` when a draw finds the deck empty;
  - `NoAnswer` when the fold prompt has no answer left;
  - `AllBust` when every final score of a manual game is over 21, so no winning score exists.

With a single player the manual mode can reach `AllBust` (`ManualFacts.OnePlayerCanBust`). With two or more it cannot (`ManualFacts.ManualRunHasWinner`).

## Model

| member | source | states |
|---|---|---|
| Seqs.Any | src/domain/game.py:82 | `any` is true exactly when some element is true |
| Seqs.All | game.py:191 | `all` is true exactly when every element is true, including on the empty list |
| Seqs.CountTrue | src/domain/game.py:101 | `count(True)` is at most the length, and 0 exactly when no element is true |
| Seqs.CountAtMostOne | src/domain/game.py:99-102 | a count of at most one true element is the same as "no two distinct positions are both true" |
| Seqs.Filter | game.py:161-162 | `filter` keeps exactly the elements satisfying the predicate, and never grows the list |
| Seqs.OrderingLength | src/domain/game.py:108-111 | any iteration order of a set lists as many elements as the set has |
| Cards.ParseCardRank | src/domain/game.py:39-46 | a label has a value exactly when it is J, D, K, A or a decimal numeral (otherwise `int()` raises) |
| Cards.RankHasValue | src/domain/game.py:39-46 | every rank label of the deck has a value between 2 and 11 |
| Cards.RankValues | src/domain/game.py:39-46 | "2".."10" score their face value, J/D/K score 10 and A always scores 11 |
| Cards.SuitRow | src/domain/game.py:115 | the inner loop of the comprehension yields one card per rank, all of that suit, in rank order |
| Cards.GetCards | src/domain/game.py:114-115 | the comprehension yields \|suits\|·\|ranks\| cards, which are exactly the suit×rank combinations |
| Cards.GetCardsDistinct | src/domain/game.py:114-115 | orders without repeats yield cards without repeats |
| Cards.LabelCounts | src/domain/game.py:108-111 | there are 4 suit labels and 13 rank labels |
| Cards.FullDeck | src/domain/game.py:107-115 | for every iteration order of the two sets, the deck is 52 pairwise-distinct cards covering every suit×rank combination |
| Decks.ShuffledBy | src/domain/game.py:118 | the reference Fisher–Yates result: the swaps for positions `i - 1` down to 1 keep the length |
| Decks.Swap | src/domain/game.py:117-118 | exchanging two positions keeps the rest and the multiset |
| Decks.ShuffledByPermutes | src/domain/game.py:117-118 | the Fisher–Yates shuffle keeps the length and the multiset, keeps distinct cards distinct, and leaves the positions from `i` on untouched |
| Decks.ShuffledKeepsDeck | src/domain/game.py:117-118 | shuffling a deck of distinct, well-labelled cards gives a deck with the same cards, still distinct and well labelled |
| Decks.PermutedFullDeck | src/domain/game.py:117-118 | any reordering without repeats of a full deck is a full deck |
| Decks.Deck.constructor | src/domain/game.py:107-112 | a new deck is the comprehension's list for the given set orders: 52 distinct cards, every combination once (same code at game.py:197-202) |
| Decks.Deck.Shuffle | src/domain/game.py:117-118 | the deck becomes the Fisher–Yates shuffle of its old cards under the supplied picks, a permutation with the same length and multiset |
| Decks.Deck.DrawCard | src/domain/game.py:120-121 | on a non-empty deck, returns the old first card, leaves exactly the old tail, is one card shorter and keeps the deck valid (same code at game.py:210-211) |
| Players.Score | src/domain/game.py:34 | the score of a hand is the sum of its cards' rank values: never negative, and 0 for an empty hand (ScoreAppend and ScoreBounds state the sum) |
| Players.ScoreAppend | src/domain/game.py:28-34 | one more card adds exactly its rank value to the sum over the hand |
| Players.ScoreBounds | src/domain/game.py:33-46 | a hand of deck cards scores between 2 and 11 per card, and 0 exactly when empty (the fold prompt's `if player.score` means "has cards") |
| Players.ScoreExamples | src/domain/game.py:33-46 | [10, A] scores 21 and [K, K] scores 20 |
| Players.Player.constructor | src/domain/game.py:22-26 | a new player has the given name, no cards, score 0 and still plays |
| Players.Player.Hit | src/domain/game.py:28-31 | the card is appended, the score becomes the sum over all held cards (old score plus the card's value), and name and `plays` are unchanged (same as `take_card`, game.py:31-33) |
| Players.Player.UpdateScores | src/domain/game.py:33-34 | the score becomes the sum of the rank values of the held cards |
| Players.Player.Stand | src/domain/game.py:36-37 | `plays` becomes false and name, cards and score are unchanged, so standing again changes nothing (same as `fold`, game.py:38-39) |
| Players.ScoresOf | game.py:140 | the list of scores in roster order |
| Players.PlaysOf | src/domain/game.py:101 | the list of `plays` flags in roster order |
| Players.NamesOf | game.py:139 | the list of names in roster order |
| Players.HandsOf | src/domain/game.py:25 | the list of hands in roster order |
| WinScores.BestScoreSpec | src/domain/game.py:88-97 | the reference winning score is absent exactly when every score is over 21, and otherwise is a score of the list that is at most 21 and at least every other such score |
| WinScores.BestScoreIs | src/domain/game.py:88-97 | a maximal score at most 21 of the list is the reference winning score |
| WinScores.Max | src/domain/game.py:92 | `max` of a non-empty list is an element at least every element |
| WinScores.RemoveFirst | src/domain/game.py:94 | `remove` drops one occurrence: the length drops by one and the multiset loses one copy |
| WinScores.IndexOf | game.py:143 | `index` gives the first position holding the value |
| WinScores.GetWinScore | src/domain/game.py:88-97 | when some score is at most 21, returns the largest score at most 21, equal to the reference winning score; the caller's list is a value and stays unchanged (same code at game.py:178-187) |
| WinScores.WinScoreExample | tests/test_game.py:115-121 | of 11, 22 and 19 the winning score is 19 |
| DomainGame.IsOverOn | src/domain/game.py:80-83 | over exactly when some score is over 21 or no player plays |
| DomainGame.IsLastRoundOn | src/domain/game.py:99-102 | last round exactly when the count of playing players is at most one, equivalently no two players both play |
| DomainGame.PredicateExamples | tests/test_game.py:63-112 | with three players one fold is not the last round and two folds are; a score of 22 or everybody folded ends the round; scores of 21 and 5 with everybody playing do not |
| DomainGame.Game.constructor | src/domain/game.py:51-55 | a new game has no players, player count 0, no deck and automatic mode |
| DomainGame.Game.SetPlayersNumber | src/domain/game.py:57-58 | the player count is set and nothing else changes |
| DomainGame.Game.SetPlayer | src/domain/game.py:60-61 | the player is appended to the roster and nothing else changes |
| DomainGame.Game.SetMode | src/domain/game.py:71-73 | only the mode changes |
| DomainGame.Game.Start | src/domain/game.py:75-78 | the game gets a fresh deck holding the 52 distinct combinations, a permutation of the new deck's cards; the players are untouched |
| DomainGame.Game.IsOver | src/domain/game.py:80-83 | over exactly when some player's score is over 21 or no player plays |
| DomainGame.Game.IsLastRound | src/domain/game.py:99-102 | last round exactly when at most one player plays |
| LegacyRounds.GameOverOn | game.py:159-162 | over exactly when some score is over 21 or some player has folded |
| LegacyRounds.LastRoundOn | game.py:189-192 | last round exactly when the roster is empty or some player has folded |
| LegacyRounds.AutoPass | game.py:101-110 | a pass only extends hands and takes cards from the front of the deck; it runs out only on an empty deck, and a pass that does not run out draws at least one card |
| LegacyRounds.AutoRun | game.py:99-114 | the automatic mode keeps every hand scorable and only extends hands |
| LegacyRounds.ManualTurn | game.py:118-136 | a turn keeps the roster, never unfolds a player and never grows the deck; a failed draw or prompt ends the pass; a player still in after the turn has drawn a card |
| LegacyRounds.ManualPass | game.py:118-137 | a pass keeps the roster and every hand scorable |
| LegacyRounds.ManualPassProgress | game.py:118-137 | a pass continues the game, and a pass that ends normally with everybody still in has drawn from the deck, so the manual mode terminates |
| LegacyRounds.ManualRun | game.py:116-147 | the manual mode keeps the roster and every hand scorable |
| LegacyRoundsFacts.DrawOneBust | game.py:103-110 | one draw from a table with nobody over 21 leaves at most one score over 21, and none if the drawer stays at 21 or below |
| LegacyRoundsFacts.PassShapeStep | game.py:101-110 | a player who draws and stays at 21 or below hands the rest of the pass on to the next position: the shape of the rest of the pass gives the shape of the whole |
| LegacyRoundsFacts.PassShapeEnd | game.py:101-110 | a player whose one card takes them over 21 ends the pass: the pass shape holds with that single draw; so does a pass that deals nothing because the deck is empty |
| LegacyRoundsFacts.AutoPassShapeDraw | game.py:101-110 | the pass shape for a pass that starts by dealing a card to the player at `i` |
| LegacyRoundsFacts.AutoPassShape | game.py:101-110 | in a pass from position `i` in which `n` cards leave the deck, the players at positions `i` to `i + n - 1` each take exactly one card, in roster order and deck order, and nobody else takes a card; all of them but the last stay at 21 or below; a pass that stops before the end of the roster either found the deck empty or stopped right after the last drawer went over 21 |
| LegacyRoundsFacts.AutoPassOneBust | game.py:101-110 | a pass starting with nobody over 21 ends with at most one player over 21, because it stops right after the first |
| LegacyRoundsFacts.AutoRunEndsOver | game.py:112-114 | unless the deck ran out, the automatic mode stops only when the game is over |
| LegacyRoundsFacts.AutoRunOneBust | game.py:99-114 | with everybody playing and nobody over 21 at the start, the automatic mode ends with at most one player over 21, and exactly one unless the deck ran out |
| LegacyRoundsFacts.DrawKeepsCards | game.py:103-104 | a draw moves the front card of the deck into a hand, so no card is lost or made up |
| LegacyRoundsFacts.AutoPassKeepsCards | game.py:101-110 | a pass keeps the multiset of cards in hands and deck together |
| LegacyRoundsFacts.AutoRunKeepsCards | game.py:99-114 | the automatic mode keeps the multiset of cards in hands and deck together |
| ManualFacts.ManualTurnOneBust | game.py:130-136 | a turn starting with nobody over 21 leaves at most one player over 21, and none unless the pass ends |
| ManualFacts.ManualPassOneBust | game.py:118-137 | a manual pass starting with nobody over 21 ends with at most one player over 21 |
| ManualFacts.ManualRunEndsOver | game.py:138-147 | unless a draw or prompt failed, the manual mode stops only when the game is over |
| ManualFacts.ManualRunOneBust | game.py:116-147 | a manual game starting with nobody over 21 ends with at most one player over 21 |
| ManualFacts.ManualRunHasWinner | game.py:139-143 | with two or more players starting at 21 or below, some final score is at most 21, so the winning score exists |
| ManualFacts.OnePlayerCanBust | game.py:142 | a single player at 20 who keeps playing and draws a king ends a normal game at 30, leaving no score at most 21 |
| ManualFacts.ManualTurnKeepsCards | game.py:130-131 | a manual turn keeps the multiset of cards in hands and deck together |
| ManualFacts.ManualPassKeepsCards | game.py:118-137 | a manual pass keeps the multiset of cards in hands and deck together |
| ManualFacts.ManualRunKeepsCards | game.py:116-147 | the manual mode keeps the multiset of cards in hands and deck together |
| LegacyGame.EndingOn | game.py:139-143 | the reference end of a finished game is never an early stop, and a winner is a name of the roster with a score of the list (EndingOnSpec states the rest) |
| LegacyGame.EndingOnSpec | game.py:139-143 | there is no winning score exactly when every score is over 21; otherwise the winning score is the largest score at most 21 and the winner is the first player in roster order with it |
| LegacyGame.Game.constructor | game.py:53-57 | a new game has no players, player count 0, no deck and automatic mode |
| LegacyGame.Game.SetPlayersNumber | game.py:59-60 | the player count is set and nothing else changes |
| LegacyGame.Game.SetPlayer | game.py:62-63 | the player is appended to the roster and nothing else changes |
| LegacyGame.Game.SetMode | game.py:79-81 | only the mode changes |
| LegacyGame.Game.IsGameOver | game.py:159-162 | over exactly when some player's score is over 21 or some player has folded |
| LegacyGame.Game.IsLastRound | game.py:189-192 | last round exactly when the roster is empty or some player has folded |
| LegacyGame.Game.HitAt | game.py:104 | the player at that position takes the card; every other hand, every flag and every name stay as they were |
| LegacyGame.Game.DealTo | game.py:103-108 | the front card of the deck moves to the player's hand, and the result says whether that player's score is now over 21 |
| LegacyGame.Game.AutoModeTurn | game.py:101-110 | one turn of the pass loop does what AutoPass's next step says |
| LegacyGame.Game.AutoModePass | game.py:101-110 | the `for` loop ends with the hands and deck AutoPass gives, and runs out exactly when AutoPass does |
| LegacyGame.Game.AutoModeRound | game.py:100-114 | one iteration of the outer loop is one step of AutoRun, and the game-over test agrees with `is_game_over` |
| LegacyGame.Game.AutoMode | game.py:99-114 | the automatic mode ends with the hands and deck AutoRun gives from the old ones, over unless the deck ran out, with flags and names unchanged and every score up to date |
| LegacyGame.Game.FoldAt | game.py:127 | the player at that position folds; hands, names and every other flag are unchanged |
| LegacyGame.Game.ManualModeTurn | game.py:118-136 | one turn of the manual `for` loop, reading the next fold answer when asked, does what ManualPass's next step says |
| LegacyGame.Game.ManualModePass | game.py:118-137 | the manual `for` loop ends with the hands, flags, deck and remaining answers ManualPass gives |
| LegacyGame.Game.ManualModeRound | game.py:117-138 | one iteration of the outer manual loop is one step of ManualRun, and the game-over test agrees with `is_game_over` |
| LegacyGame.Game.ManualModeLoop | game.py:116-138 | the manual passes end with the hands, flags, deck and remaining answers ManualRun gives, over unless a draw or prompt failed |
| LegacyGame.Game.ManualMode | game.py:116-147 | the manual mode ends with the hands, flags, deck, remaining answers and halt reason ManualRun gives; unless halted early the game is over and the ending is the winner pick of the final names and scores; names are kept and every score stays up to date |
| LegacyGame.Game.Decide | game.py:139-143 | an early stop is reported as such; otherwise the ending is the winner pick of the names and scores, or no winner when every score is over 21 |
| LegacyGame.Game.PickWinner | game.py:139-143 | when some score is at most 21, the winning score is the largest such score and the winner is the name of the first position holding it |
| Versions.PredicatesDiffer | game.py:159-192 | with three players and one fold, the original engine is over and in its last round while the refactored one is neither; the two agree when everybody plays or nobody does |
| Versions.LastRoundImplies | game.py:189-192 | with two or more players, the refactored engine's last round is always a last round of the original engine |

## Left out

- Logging (`logger`/`logging` calls): output only.
- Console input:
  - `Game.input` with its retry on a non-integer answer; the manual mode's answers arrive already parsed as integers;
  - `enter_players_name`, `choose_mode`, `run` and the sequencing of `start_game`;
  - the CLI drivers `cli.py` and `src/entrypoints/cli.py`.
- The properties `players_number` and `players`: plain field reads.
- `_all_players_folded` and `_one_player_left`: never called by the engine.
- The probability distribution of `random.shuffle`: the picks are a parameter satisfying `0 <= pick[i] <= i`.
- The set iteration order of a new deck: a parameter, which may be any ordering of the suit and rank sets.
- `int()` on rank labels is modelled only for ASCII decimal digits: signs, spaces, underscores and other Unicode digits are not modelled. Every label of the deck is a plain numeral or a letter.
- An empty roster makes both game loops of the original engine spin for ever. `AutoMode`, `ManualMode` and the run functions require a non-empty roster.
- Aliasing: the loop methods require the roster to hold each player object once, as the engine always creates a fresh player per name.
- The tests in `tests/test_game.py` and `test_game.py`: used only as evidence for the properties above.
