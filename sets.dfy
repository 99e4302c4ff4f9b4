/**
 * Least elements of finite sets of ids, and the ascending listing they
 * give: the order in which JavaScript visits integer-like object keys.
 */
module Sets {
  /** `m` is the least element of `s`. */
  predicate IsLeast(s: set<nat>, m: nat) {
    m in s && forall x :: x in s ==> m <= x
  }

  lemma {:induction false} HasLeast(s: set<nat>)
    requires s != {}
    ensures exists m :: IsLeast(s, m)
  {
    var y :| y in s;
    if s == {y} {
      assert IsLeast(s, y);
    } else {
      var rest := s - {y};
      HasLeast(rest);
      var m :| IsLeast(rest, m);
      forall x | x in s
        ensures x == y || m <= x
      {
        if x != y {
          assert x in rest;
        }
      }
      if y < m {
        assert IsLeast(s, y);
      } else {
        assert IsLeast(s, m);
      }
    }
  }

  /** The elements of `s` in ascending order. */
  ghost function Ascend(s: set<nat>): (r: seq<nat>)
    decreases |s|
  {
    if s == {} then []
    else
      HasLeast(s);
      var m :| IsLeast(s, m);
      [m] + Ascend(s - {m})
  }

  predicate StrictlyIncreasing(xs: seq<nat>) {
    forall i, j :: 0 <= i < j < |xs| ==> xs[i] < xs[j]
  }

  /** The head of a strictly increasing listing of `s` is the least element, and its tail lists the rest. */
  lemma HeadIsLeast(xs: seq<nat>, s: set<nat>, m: nat)
    requires StrictlyIncreasing(xs)
    requires forall x :: x in xs <==> x in s
    requires IsLeast(s, m)
    ensures xs != [] && xs[0] == m
    ensures forall x :: x in xs[1..] <==> x in s - {m}
  {
    assert m in xs;
    var k :| 0 <= k < |xs| && xs[k] == m;
    assert xs[0] in s;
    forall x ensures x in xs[1..] <==> x in s - {m} {
      if x in xs[1..] {
        var j :| 0 <= j < |xs[1..]| && xs[1..][j] == x;
        assert xs[j + 1] == x;
      }
      if x in s - {m} {
        var j :| 0 <= j < |xs| && xs[j] == x;
        assert xs[1..][j - 1] == x;
      }
    }
  }

  /** A strictly increasing sequence is the ascending listing of its elements, and of no other set. */
  lemma {:induction false} AscendUnique(xs: seq<nat>, s: set<nat>)
    requires StrictlyIncreasing(xs)
    requires forall x :: x in xs <==> x in s
    ensures xs == Ascend(s)
    decreases |s|
  {
    if s != {} {
      HasLeast(s);
      var m :| IsLeast(s, m) && Ascend(s) == [m] + Ascend(s - {m});
      HeadIsLeast(xs, s, m);
      AscendUnique(xs[1..], s - {m});
      assert xs == [xs[0]] + xs[1..];
    }
  }
}
