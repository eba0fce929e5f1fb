/** The few facts about whole-number products the solver is not left to find. */
module Integers {

  lemma {:induction false} MulLe(a: int, b: int, c: nat)
    requires a <= b
    ensures a * c <= b * c
  {
    if c == 0 {
    } else {
      MulLe(a, b, c - 1);
      assert a * c == a * (c - 1) + a && b * c == b * (c - 1) + b;
    }
  }

  lemma MulLess(a: int, b: int, c: nat)
    requires a * c < b * c
    ensures a < b
  {
    if a >= b {
      MulLe(b, a, c);
    }
  }

  predicate IsMinimum(m: int, xs: seq<int>) {
    m in xs && forall x :: x in xs ==> m <= x
  }

  lemma MinimumExtends(m: int, xs: seq<int>, x: int)
    requires xs == [] || IsMinimum(m, xs)
    ensures IsMinimum(if xs == [] || x < m then x else m, xs + [x])
  {
    assert (xs + [x])[|xs|] == x;
    assert forall y :: y in xs + [x] <==> y in xs || y == x;
  }

  function Least(a: int, b: int): int { if a < b then a else b }

  function Most(a: int, b: int): int { if a < b then b else a }
}
