/** Cards: the card value, the fixed suit and rank labels of the 52-card deck,
    the value of a rank label, and the list of all suit-rank combinations. */
module Cards {
  import opened Seqs
  import opened Wrappers

  /** A card is a pair of labels and is compared by value (a frozen record). */
  datatype Card = Card(suit: string, rank: string)

  const Suits: set<string> := {"Clubs", "Diamonds", "Hearts", "Spades"}

  /** The thirteen rank labels; "D" is the label used for the queen. */
  const Ranks: set<string> := {"2", "3", "4", "5", "6", "7", "8", "9", "10", "J", "D", "K", "A"}

  predicate IsDigit(c: char)
  {
    '0' <= c <= '9'
  }

  predicate IsDecimal(s: string)
  {
    s != [] && forall i :: 0 <= i < |s| ==> IsDigit(s[i])
  }

  /** The number a string of decimal digits denotes, most significant digit first. */
  function DigitsValue(s: string): nat
    requires forall i :: 0 <= i < |s| ==> IsDigit(s[i])
  {
    if s == [] then 0
    else DigitsValue(s[..|s| - 1]) * 10 + DigitValue(s[|s| - 1])
  }

  function DigitValue(c: char): nat
    requires IsDigit(c)
  {
    c as int - '0' as int
  }

  /** The value a rank label scores: "J", "D" and "K" are 10, "A" is always 11,
      any other label is read as a decimal integer. A label that does not read
      as one has no value (the integer conversion raises). */
  function ParseCardRank(rank: string): (v: Option<nat>)
    ensures v.Some? <==> rank in {"J", "D", "K", "A"} || IsDecimal(rank)
  {
    if rank == "J" || rank == "D" || rank == "K" then Some(10)
    else if rank == "A" then Some(11)
    else if IsDecimal(rank) then Some(DigitsValue(rank))
    else None
  }

  /** A rank label of the deck has a value between 2 and 11. */
  lemma RankHasValue(r: string)
    requires r in Ranks
    ensures ParseCardRank(r).Some? && 2 <= ParseCardRank(r).value <= 11
  {
    if r == "10" {
      assert DigitsValue("10") == DigitsValue("1") * 10 + 0;
    }
  }

  /** The value of each rank label of the deck: its face value for "2" to
      "10", 10 for the three court cards and 11 for the ace. */
  lemma RankValues()
    ensures ParseCardRank("2") == Some(2) && ParseCardRank("3") == Some(3)
    ensures ParseCardRank("4") == Some(4) && ParseCardRank("5") == Some(5)
    ensures ParseCardRank("6") == Some(6) && ParseCardRank("7") == Some(7)
    ensures ParseCardRank("8") == Some(8) && ParseCardRank("9") == Some(9)
    ensures ParseCardRank("10") == Some(10)
    ensures ParseCardRank("J") == Some(10) && ParseCardRank("D") == Some(10)
    ensures ParseCardRank("K") == Some(10) && ParseCardRank("A") == Some(11)
  {
    assert IsDecimal("10") && DigitsValue("10") == DigitsValue("1") * 10 + 0;
  }

  /** One suit's cards, in the given rank order. */
  function SuitRow(suit: string, ranks: seq<string>): (row: seq<Card>)
    ensures |row| == |ranks|
    ensures forall i :: 0 <= i < |ranks| ==> row[i] == Card(suit, ranks[i])
    ensures forall c :: c in row <==> c.suit == suit && c.rank in ranks
  {
    if ranks == [] then [] else [Card(suit, ranks[0])] + SuitRow(suit, ranks[1..])
  }

  /** The deck's comprehension: every suit in turn, and for each suit every rank,
      both in the iteration order given. */
  function GetCards(suits: seq<string>, ranks: seq<string>): (cards: seq<Card>)
    ensures |cards| == |suits| * |ranks|
    ensures forall c :: c in cards <==> c.suit in suits && c.rank in ranks
  {
    if suits == [] then []
    else
      var rest := GetCards(suits[1..], ranks);
      assert |suits| * |ranks| == |ranks| + (|suits| - 1) * |ranks|;
      assert forall s :: s in suits <==> s == suits[0] || s in suits[1..];
      SuitRow(suits[0], ranks) + rest
  }

  /** Iteration orders without repeats give a list of cards without repeats. */
  lemma {:induction false} GetCardsDistinct(suits: seq<string>, ranks: seq<string>)
    requires Distinct(suits) && Distinct(ranks)
    ensures Distinct(GetCards(suits, ranks))
  {
    if suits != [] {
      var row := SuitRow(suits[0], ranks);
      var rest := GetCards(suits[1..], ranks);
      GetCardsDistinct(suits[1..], ranks);
      assert forall c :: c in row ==> c !in rest by {
        forall c | c in row ensures c !in rest {
          assert c.suit == suits[0];
          assert suits[0] !in suits[1..];
        }
      }
      DistinctConcat(row, rest);
    }
  }

  lemma LabelCounts()
    ensures |Suits| == 4 && |Ranks| == 13
  {
    var low := {"2", "3", "4", "5", "6", "7"};
    var high := {"8", "9", "10", "J", "D", "K", "A"};
    assert |low| == 6 && |high| == 7;
    assert low * high == {};
    assert Ranks == low + high;
  }

  /** The cards built from any iteration order of the suit and rank sets are
      exactly the 52 suit-rank combinations, each once. */
  lemma {:induction false} FullDeck(suits: seq<string>, ranks: seq<string>)
    requires IsOrdering(suits, Suits) && IsOrdering(ranks, Ranks)
    ensures |GetCards(suits, ranks)| == 52
    ensures Distinct(GetCards(suits, ranks))
    ensures forall c :: c in GetCards(suits, ranks) <==> c.suit in Suits && c.rank in Ranks
  {
    OrderingLength(suits, Suits);
    OrderingLength(ranks, Ranks);
    LabelCounts();
    GetCardsDistinct(suits, ranks);
  }
}
