/** Least and greatest of two integers, and of the elements of a finite set. */
module Extrema {

  function Least(a: int, b: int): int {
    if a < b then a else b
  }

  function Greatest(a: int, b: int): int {
    if a < b then b else a
  }

  lemma {:induction false} LowestExists(s: set<int>, some: int)
    requires some in s
    ensures exists m :: m in s && forall x <- s :: m <= x
  {
    if other :| other in s && other < some {
      assert some !in s - {some} && other in s - {some};
      LowestExists(s - {some}, other);
      var m :| m in s - {some} && forall x <- s - {some} :: m <= x;
      forall x | x in s
        ensures m <= x
      {
        assert x == some || x in s - {some};
      }
    }
  }

  lemma {:induction false} HighestExists(s: set<int>, some: int)
    requires some in s
    ensures exists m :: m in s && forall x <- s :: x <= m
  {
    if other :| other in s && some < other {
      assert some !in s - {some} && other in s - {some};
      HighestExists(s - {some}, other);
      var m :| m in s - {some} && forall x <- s - {some} :: x <= m;
      forall x | x in s
        ensures x <= m
      {
        assert x == some || x in s - {some};
      }
    }
  }
}
