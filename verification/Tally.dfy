/** Vocabulary shared by the protocol models: an optional value, how a task body ends, and the total of a
    weight over a sequence of goroutines or calls, which is how the models count
    "how many are at this program point". */
module Tally {

  datatype Option<+T> = None | Some(value: T)

  datatype Outcome = Returned(success: bool) | Panicked

  function Once(b: bool): nat { if b then 1 else 0 }

  function Total<T>(xs: seq<T>, w: T -> nat): nat {
    if xs == [] then 0 else Total(xs[..|xs| - 1], w) + w(xs[|xs| - 1])
  }

  lemma {:induction false} TotalAppend<T>(xs: seq<T>, x: T, w: T -> nat)
    ensures Total(xs + [x], w) == Total(xs, w) + w(x)
  {
    assert (xs + [x])[..|xs|] == xs;
  }

  /** Moving one element changes the total by the difference of its weights. */
  lemma {:induction false} TotalUpdate<T>(xs: seq<T>, i: nat, x: T, w: T -> nat)
    requires i < |xs|
    ensures Total(xs[i := x], w) + w(xs[i]) == Total(xs, w) + w(x)
  {
    var n := |xs| - 1;
    if i == n {
      assert xs[i := x][..n] == xs[..n];
    } else {
      assert xs[i := x][..n] == xs[..n][i := x];
      TotalUpdate(xs[..n], i, x, w);
    }
  }

  lemma {:induction false} TotalRemove<T>(xs: seq<T>, i: nat, w: T -> nat)
    requires i < |xs|
    ensures Total(xs[..i] + xs[i + 1..], w) + w(xs[i]) == Total(xs, w)
  {
    var n, rest := |xs| - 1, xs[..i] + xs[i + 1..];
    if i == n {
      assert rest == xs[..n];
    } else {
      assert rest[..n - 1] == xs[..n][..i] + xs[..n][i + 1..];
      TotalRemove(xs[..n], i, w);
    }
  }

  lemma {:induction false} TotalAtLeast<T>(xs: seq<T>, i: nat, w: T -> nat)
    requires i < |xs|
    ensures w(xs[i]) <= Total(xs, w)
  {
    if i == |xs| - 1 {
    } else {
      TotalAtLeast(xs[..|xs| - 1], i, w);
    }
  }

  lemma {:induction false} TotalZero<T>(xs: seq<T>, w: T -> nat)
    ensures Total(xs, w) == 0 <==> forall i :: 0 <= i < |xs| ==> w(xs[i]) == 0
  {
    if xs == [] {
    } else {
      var n := |xs| - 1;
      TotalZero(xs[..n], w);
      if forall i :: 0 <= i < |xs| ==> w(xs[i]) == 0 {
        assert forall i :: 0 <= i < n ==> xs[..n][i] == xs[i];
      }
      if Total(xs, w) == 0 {
        forall i | 0 <= i < |xs| ensures w(xs[i]) == 0 {
          if i < n { assert xs[..n][i] == xs[i]; }
        }
      }
    }
  }

  /** A weight that is pointwise no larger has a total that is no larger. */
  lemma {:induction false} TotalBelow<T>(xs: seq<T>, v: T -> nat, w: T -> nat)
    requires forall i :: 0 <= i < |xs| ==> v(xs[i]) <= w(xs[i])
    ensures Total(xs, v) <= Total(xs, w)
  {
    if xs == [] {
    } else {
      var n := |xs| - 1;
      assert forall i :: 0 <= i < n ==> xs[..n][i] == xs[i];
      TotalBelow(xs[..n], v, w);
    }
  }

  /** When each element carries exactly one of two weights, the totals make up the length. */
  lemma {:induction false} TotalComplement<T>(xs: seq<T>, v: T -> nat, w: T -> nat)
    requires forall i :: 0 <= i < |xs| ==> v(xs[i]) + w(xs[i]) == 1
    ensures Total(xs, v) + Total(xs, w) == |xs|
  {
    if xs == [] {
    } else {
      var n := |xs| - 1;
      assert forall i :: 0 <= i < n ==> xs[..n][i] == xs[i];
      TotalComplement(xs[..n], v, w);
    }
  }
}
