/** Sets of natural numbers listed in ascending order. */
module Ordered {

  /** lo + 1, ..., hi. */
  function Numbers(lo: nat, hi: nat): seq<nat>
    requires lo <= hi
  {
    seq(hi - lo, i => lo + 1 + i)
  }

  predicate IsLeast(m: nat, s: set<nat>) {
    m in s && forall x :: x in s ==> m <= x
  }

  lemma {:induction false} LeastExists(s: set<nat>) returns (m: nat)
    requires s != {}
    ensures IsLeast(m, s)
  {
    var a :| a in s;
    var below := set x | x in s && x < a;
    if below == {} {
      m := a;
      forall x | x in s ensures m <= x {
        assert x in below || m <= x;
      }
    } else {
      assert a !in below;
      m := LeastExists(below);
      forall x | x in s ensures m <= x {
        assert x in below || a <= x;
      }
    }
  }

  function Ascending(s: set<nat>): (r: seq<nat>)
    ensures |r| == |s|
    ensures forall x :: x in r <==> x in s
  {
    if s == {} then [] else [Least(s)] + Ascending(s - {Least(s)})
  }

  function Least(s: set<nat>): (m: nat)
    requires s != {}
    ensures IsLeast(m, s)
  {
    assert exists m :: IsLeast(m, s) by {
      var m := LeastExists(s);
    }
    var m :| IsLeast(m, s);
    m
  }

  lemma {:induction false} AscendingInterval(s: set<nat>, lo: nat, hi: nat)
    requires lo <= hi && forall x :: x in s <==> lo < x <= hi
    ensures Ascending(s) == Numbers(lo, hi)
    decreases hi - lo
  {
    hide Ascending, Numbers, Least;
    if lo == hi {
      assert s == {};
      NothingListed(lo);
    } else {
      assert lo + 1 in s;
      LeastFirst(s, lo + 1);
      hide IsLeast;
      AscendingInterval(s - {lo + 1}, lo + 1, hi);
      NumbersCons(lo, hi);
    }
  }

  lemma NothingListed(n: nat)
    ensures Ascending({}) == [] == Numbers(n, n)
  {
  }

  lemma LeastFirst(s: set<nat>, m: nat)
    requires IsLeast(m, s)
    ensures Ascending(s) == [m] + Ascending(s - {m})
  {
    assert Least(s) == m;
  }

  lemma NumbersCons(lo: nat, hi: nat)
    requires lo < hi
    ensures Numbers(lo, hi) == [lo + 1] + Numbers(lo + 1, hi)
  {
  }

  ghost predicate Increasing(s: seq<nat>) {
    forall i, j :: 0 <= i < j < |s| ==> s[i] < s[j]
  }

  lemma {:induction false} AscendingIncreases(s: set<nat>)
    ensures Increasing(Ascending(s))
  {
    if s != {} {
      AscendingIncreases(s - {Least(s)});
      IncreasingCons(Least(s), Ascending(s - {Least(s)}));
    }
  }

  lemma IncreasingCons(m: nat, rest: seq<nat>)
    requires Increasing(rest) && forall x :: x in rest ==> m < x
    ensures Increasing([m] + rest)
  {
    var r := [m] + rest;
    forall i, j | 0 <= i < j < |r| ensures r[i] < r[j] {
      assert r[j] == rest[j - 1] && rest[j - 1] in rest;
    }
  }

  lemma IncreasingSnoc(front: seq<nat>, n: nat)
    requires Increasing(front) && forall x :: x in front ==> x < n
    ensures Increasing(front + [n])
  {
    assert forall i :: 0 <= i < |front| ==> front[i] in front;
  }
}
