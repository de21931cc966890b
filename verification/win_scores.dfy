/** WinScores: choosing the winning score from the final scores, and the list
    operations it is built from (`max`, `list.remove`, `list.index`). */
module WinScores {
  import opened Wrappers

  /** The winning score of a list of scores: the largest score that is at
      most 21, if there is one (BestScoreSpec). */
  function BestScore(s: seq<int>): Option<int>
  {
    if s == [] then None
    else
      var rest := BestScore(s[1..]);
      if s[0] > 21 then rest
      else if rest.Some? && rest.value >= s[0] then rest
      else Some(s[0])
  }

  /** BestScore finds no score exactly when every score is over 21, and
      otherwise the largest score that is at most 21. */
  lemma {:induction false} BestScoreSpec(s: seq<int>)
    ensures BestScore(s).None? <==> forall x :: x in s ==> x > 21
    ensures BestScore(s).Some? ==> BestScore(s).value in s && BestScore(s).value <= 21
    ensures BestScore(s).Some? ==> forall x :: x in s && x <= 21 ==> x <= BestScore(s).value
  {
    if s != [] {
      BestScoreSpec(s[1..]);
      assert forall x :: x in s <==> x == s[0] || x in s[1..];
      assert s[0] in s;
    }
  }

  /** A score of the list that is at most 21 and at least every other such
      score is the winning score. */
  lemma BestScoreIs(s: seq<int>, w: int)
    requires w in s && w <= 21
    requires forall x :: x in s && x <= 21 ==> x <= w
    ensures BestScore(s) == Some(w)
  {
    BestScoreSpec(s);
  }

  /** `max(s)`; the maximum of an empty list does not exist (it raises). */
  function Max(s: seq<int>): (m: int)
    requires s != []
    ensures m in s
    ensures forall x :: x in s ==> x <= m
  {
    if |s| == 1 then s[0]
    else
      var rest := Max(s[1..]);
      assert forall x :: x in s ==> x == s[0] || x in s[1..];
      if s[0] >= rest then s[0] else rest
  }

  /** `s.remove(x)`: drops the first occurrence of `x`. */
  function RemoveFirst(s: seq<int>, x: int): (r: seq<int>)
    requires x in s
    ensures |r| == |s| - 1
    ensures multiset(r) == multiset(s) - multiset{x}
  {
    assert s == [s[0]] + s[1..];
    if s[0] == x then s[1..] else [s[0]] + RemoveFirst(s[1..], x)
  }

  /** `s.index(x)`: the position of the first occurrence of `x`. */
  function IndexOf(s: seq<int>, x: int): (k: nat)
    requires x in s
    ensures k < |s| && s[k] == x
    ensures forall j :: 0 <= j < k ==> s[j] != x
  {
    if s[0] == x then 0 else 1 + IndexOf(s[1..], x)
  }

  /** The winning score: works on a copy of the scores and keeps removing the
      largest one while it is over 21. The result is the largest score that is
      at most 21; with every score over 21 the maximum of the emptied list
      raises, so at least one score must be at most 21. */
  method GetWinScore(scores: seq<int>) returns (score: int)
    requires exists s :: s in scores && s <= 21
    ensures score in scores && score <= 21
    ensures forall s :: s in scores && s <= 21 ==> s <= score
    ensures BestScore(scores) == Some(score)
  {
    var work := scores;
    while true
      invariant multiset(work) <= multiset(scores)
      invariant forall s :: s in scores && s <= 21 ==> s in work
      decreases |work|
    {
      score := Max(work);
      if score > 21 {
        ghost var before := work;
        work := RemoveFirst(work, score);
        forall s | s in before && s != score ensures s in work {
          assert multiset(work)[s] == multiset(before)[s];
        }
      } else {
        break;
      }
    }
    assert score in multiset(scores);
    BestScoreIs(scores, score);
  }

  /** The example of the domain tests: of 11, 22 and 19 the winning score is 19. */
  method WinScoreExample() returns (score: int)
    ensures score == 19
  {
    var scores := [11, 22, 19];
    assert 11 in scores && 19 in scores;
    score := GetWinScore(scores);
    assert score == 11 || score == 22 || score == 19;
  }
}
