/** The row an ORDER BY ... LIMIT 1 picks: it exists among finitely many rows, and there is only one. */
module Least {

  ghost predicate IsLeast<T(!new)>(s: set<T>, leq: (T, T) -> bool, x: T) {
    x in s && forall y | y in s :: leq(x, y)
  }

  ghost predicate Orders<T(!new)>(s: set<T>, leq: (T, T) -> bool) {
    && (forall x | x in s :: leq(x, x))
    && (forall x, y | x in s && y in s :: leq(x, y) || leq(y, x))
    && (forall x, y | x in s && y in s && leq(x, y) && leq(y, x) :: x == y)
    && (forall x, y, z | x in s && y in s && z in s && leq(x, y) && leq(y, z) :: leq(x, z))
  }

  lemma {:induction false} Exists<T(!new)>(s: set<T>, leq: (T, T) -> bool)
    requires s != {} && Orders(s, leq)
    ensures exists x :: IsLeast(s, leq, x)
  {
    var y :| y in s;
    var rest := s - {y};
    if rest == {} {
      assert s == {y};
      assert IsLeast(s, leq, y);
    } else {
      Exists(rest, leq);
      var x :| IsLeast(rest, leq, x);
      var least := if leq(x, y) then x else y;
      forall z | z in s ensures leq(least, z) {
        assert z == y || z in rest;
      }
      assert IsLeast(s, leq, least);
    }
  }

  lemma Unique<T(!new)>(s: set<T>, leq: (T, T) -> bool, x: T, y: T)
    requires Orders(s, leq) && IsLeast(s, leq, x) && IsLeast(s, leq, y)
    ensures x == y
  {
  }
}
