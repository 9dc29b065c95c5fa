/** Keys of a `BTreeMap` in the order it iterates them. */
module OrderedKeys {

  predicate IsLeast(s: set<nat>, x: nat) {
    x in s && forall y :: y in s ==> x <= y
  }

  lemma {:induction false} LeastExists(s: set<nat>)
    requires s != {}
    ensures exists x :: IsLeast(s, x)
  {
    var x :| x in s;
    var rest := s - {x};
    if rest == {} {
      assert s == {x};
      assert IsLeast(s, x);
    } else {
      LeastExists(rest);
      var m :| IsLeast(rest, m);
      var least := if m < x then m else x;
      forall y | y in s
        ensures least <= y
      {
        assert y == x || y in rest;
      }
      assert IsLeast(s, least);
    }
  }

  function Least(s: set<nat>): (x: nat)
    requires s != {}
    ensures IsLeast(s, x)
  {
    LeastExists(s);
    var x :| IsLeast(s, x);
    x
  }

  function Ascending(s: set<nat>): (keys: seq<nat>)
    ensures forall i :: 0 <= i < |keys| ==> keys[i] in s
    ensures forall x :: x in s ==> x in keys
  {
    if s == {} then [] else [Least(s)] + Ascending(s - {Least(s)})
  }

  function Interval(lo: nat, hi: nat): (s: set<nat>)
    ensures forall x :: x in s <==> lo <= x < hi
    decreases hi - lo
  {
    if lo >= hi then {} else {lo} + Interval(lo + 1, hi)
  }

  function CountUp(lo: nat, n: nat): (keys: seq<nat>)
    ensures |keys| == n && forall i :: 0 <= i < n ==> keys[i] == lo + i
    decreases n
  {
    if n == 0 then [] else [lo] + CountUp(lo + 1, n - 1)
  }

  /** An interval is iterated from its lower end upward, one by one. */
  lemma {:induction false} AscendingInterval(lo: nat, hi: nat)
    requires lo <= hi
    ensures Ascending(Interval(lo, hi)) == CountUp(lo, hi - lo)
    decreases hi - lo
  {
    var s := Interval(lo, hi);
    if lo < hi {
      assert lo in s;
      assert Least(s) == lo;
      assert s - {lo} == Interval(lo + 1, hi);
      AscendingInterval(lo + 1, hi);
    }
  }
}
