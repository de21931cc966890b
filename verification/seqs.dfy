/** Sequence helpers standing for the Python list builtins the game relies on:
    `any`, `all`, `list.count(True)`, `filter`, and the notion of a list without
    repeated elements. */
module Seqs {

  /** `any(bs)`: some element is true. */
  function Any(bs: seq<bool>): (r: bool)
    ensures r <==> exists i :: 0 <= i < |bs| && bs[i]
  {
    if bs == [] then false else bs[0] || Any(bs[1..])
  }

  /** `all(bs)`: every element is true (true of the empty list). */
  function All(bs: seq<bool>): (r: bool)
    ensures r <==> forall i :: 0 <= i < |bs| ==> bs[i]
  {
    if bs == [] then true else bs[0] && All(bs[1..])
  }

  /** `bs.count(True)`. */
  function CountTrue(bs: seq<bool>): (n: nat)
    ensures n <= |bs|
    ensures n == 0 <==> !Any(bs)
  {
    if bs == [] then 0 else (if bs[0] then 1 else 0) + CountTrue(bs[1..])
  }

  /** At most one true element, stated without counting. */
  ghost predicate AtMostOneTrue(bs: seq<bool>)
  {
    forall i, j :: 0 <= i < |bs| && 0 <= j < |bs| && bs[i] && bs[j] ==> i == j
  }

  /** Counting the true elements and finding at most one of them agree. */
  lemma {:induction false} CountAtMostOne(bs: seq<bool>)
    ensures CountTrue(bs) <= 1 <==> AtMostOneTrue(bs)
  {
    if bs != [] {
      var t := bs[1..];
      CountAtMostOne(t);
      assert forall i :: 0 <= i < |t| ==> t[i] == bs[i + 1];
      if bs[0] {
        if CountTrue(bs) <= 1 {
          assert CountTrue(t) == 0;
          assert forall k :: 0 < k < |bs| ==> !bs[k];
        } else {
          assert CountTrue(t) >= 1;
          var k :| 0 <= k < |t| && t[k];
          assert bs[k + 1] && bs[0];
        }
      } else {
        if AtMostOneTrue(t) {
          forall i, j | 0 <= i < |bs| && 0 <= j < |bs| && bs[i] && bs[j]
            ensures i == j
          {
            assert i > 0 && j > 0 && t[i - 1] && t[j - 1];
          }
        } else {
          var i, j :| 0 <= i < |t| && 0 <= j < |t| && t[i] && t[j] && i != j;
          assert bs[i + 1] && bs[j + 1];
        }
      }
    }
  }

  /** `list(filter(p, s))`: the elements satisfying `p`, in order. */
  function Filter<T(!new)>(s: seq<T>, p: T -> bool): (r: seq<T>)
    ensures |r| <= |s|
    ensures forall x :: x in r <==> x in s && p(x)
  {
    if s == [] then [] else (if p(s[0]) then [s[0]] else []) + Filter(s[1..], p)
  }

  /** No element occurs twice. */
  ghost predicate Distinct<T>(s: seq<T>)
  {
    forall i, j :: 0 <= i < j < |s| ==> s[i] != s[j]
  }

  /** `s` lists the elements of the set `S`, each once: one possible
      iteration order of `S`. */
  ghost predicate IsOrdering<T(!new)>(s: seq<T>, S: set<T>)
  {
    Distinct(s) && forall x :: x in s <==> x in S
  }

  /** An iteration order of a set is as long as the set is large. */
  lemma {:induction false} OrderingLength<T(!new)>(s: seq<T>, S: set<T>)
    requires IsOrdering(s, S)
    ensures |s| == |S|
  {
    if s == [] {
      assert forall x :: x !in S;
    } else {
      var t := s[1..];
      assert IsOrdering(t, S - {s[0]}) by {
        forall x ensures x in t <==> x in S - {s[0]} {
          if x in t {
            var k :| 0 <= k < |t| && t[k] == x;
            assert s[k + 1] == x && s[0] != s[k + 1];
          }
          if x in S - {s[0]} {
            assert x in s;
            var k :| 0 <= k < |s| && s[k] == x;
            assert k != 0 && t[k - 1] == x;
          }
        }
      }
      OrderingLength(t, S - {s[0]});
    }
  }

  /** Lists with the same multiset of elements have the same elements. */
  lemma SameElements<T>(a: seq<T>, b: seq<T>)
    requires multiset(a) == multiset(b)
    ensures forall x :: x in a <==> x in b
  {
    forall x ensures x in a <==> x in b {
      assert x in a <==> x in multiset(a);
      assert x in b <==> x in multiset(b);
    }
  }

  /** Joining two lists without repeats and without common elements gives a list without repeats. */
  lemma DistinctConcat<T>(a: seq<T>, b: seq<T>)
    requires Distinct(a) && Distinct(b)
    requires forall x :: x in a ==> x !in b
    ensures Distinct(a + b)
  {
    var c := a + b;
    forall i, j | 0 <= i < j < |c| ensures c[i] != c[j] {
      if i < |a| && j >= |a| {
        assert c[i] in a && c[j] == b[j - |a|];
      } else if i >= |a| {
        assert c[i] == b[i - |a|] && c[j] == b[j - |a|];
      }
    }
  }
}
