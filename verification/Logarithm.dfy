/** Whole-number decimal logarithms, and the two lookup tables built from them at start-up:
    the one of concurrencylimits/limit.go and the one of quarkus/detector.go. */
module Logarithm {

  function Pow10(k: nat): (p: nat)
    ensures p > k
  {
    if k == 0 then 1 else 10 * Pow10(k - 1)
  }

  /** floor(log10(n)), by repeated division. */
  function FloorLog10(n: nat): nat
    requires n >= 1
  {
    if n < 10 then 0 else 1 + FloorLog10(n / 10)
  }

  lemma {:induction false} FloorLog10Exact(n: nat)
    requires n >= 1
    ensures Pow10(FloorLog10(n)) <= n < Pow10(FloorLog10(n) + 1)
  {
    if n < 10 {
      assert Pow10(0) == 1 && Pow10(1) == 10;
    } else {
      FloorLog10Exact(n / 10);
    }
  }

  /** The logarithm is the only exponent with that property. */
  lemma {:induction false} FloorLog10Unique(n: nat, k: nat)
    requires n >= 1 && Pow10(k) <= n < Pow10(k + 1)
    ensures FloorLog10(n) == k
  {
    if k == 0 {
    } else {
      FloorLog10Unique(n / 10, k - 1);
    }
  }

  lemma {:induction false} FloorLog10Monotone(m: nat, n: nat)
    requires 1 <= m <= n
    ensures FloorLog10(m) <= FloorLog10(n)
  {
    if m < 10 {
      assert FloorLog10(m) == 0;
    } else {
      FloorLog10Monotone(m / 10, n / 10);
    }
  }

  // ---------------------------------------------------------------------------------
  // concurrencylimits/limit.go

  /** max(1, floor(log10(t))), taking anything below 1 as 1. */
  function Log10Root(t: int): (r: nat)
    ensures r >= 1
  {
    if t < 10 then 1 else FloorLog10(t)
  }

  method FillLookup() returns (table: array<int>)
    ensures fresh(table) && table.Length == 1000
    ensures forall i :: 0 <= i < 1000 ==> table[i] == Log10Root(i)
  {
    table := new int[1000];
    table[0] := 1;
    for i := 1 to 1000
      invariant forall j :: 0 <= j < i ==> table[j] == Log10Root(j)
    {
      var log := FloorLog10(i);
      table[i] := if log > 1 then log else 1;
    }
  }

  /** Beyond the table the code drops the max with 1, which the size of the argument makes up for. */
  method Log10Int(table: array<int>, t: int) returns (r: int)
    requires table.Length == 1000 && forall i :: 0 <= i < 1000 ==> table[i] == Log10Root(i)
    ensures r == Log10Root(t)
  {
    var u := if t < 0 then 0 else t;
    if u < 1000 {
      return table[u];
    }
    return FloorLog10(u);
  }

  /** What the root is, without saying how it is found. */
  lemma Log10RootExact(t: int)
    ensures t < 10 ==> Log10Root(t) == 1
    ensures t >= 10 ==> Pow10(Log10Root(t)) <= t < Pow10(Log10Root(t) + 1)
  {
    if t >= 10 {
      FloorLog10Exact(t);
    }
  }

  // ---------------------------------------------------------------------------------
  // quarkus/detector.go

  /** 1 + floor(log10(limit)): the number of decimal digits. */
  function Log10Plus1(limit: nat): (r: nat)
    ensures r >= 1
  {
    if limit == 0 then 1 else 1 + FloorLog10(limit)
  }

  method FillPlus1() returns (table: array<int>)
    ensures fresh(table) && table.Length == 1000
    ensures forall i :: 0 <= i < 1000 ==> table[i] == Log10Plus1(i)
  {
    table := new int[1000];
    table[0] := 1;
    for i := 1 to 1000
      invariant forall j :: 0 <= j < i ==> table[j] == Log10Plus1(j)
    {
      table[i] := 1 + FloorLog10(i);
    }
  }

  method LookupPlus1(table: array<int>, limit: nat) returns (r: int)
    requires table.Length == 1000 && forall i :: 0 <= i < 1000 ==> table[i] == Log10Plus1(i)
    ensures r == Log10Plus1(limit)
  {
    if limit < 1000 {
      return table[limit];
    }
    return 1 + FloorLog10(limit);
  }

  lemma Log10Plus1Bounds(m: nat, n: nat)
    requires 1 <= m <= n
    ensures Log10Plus1(m) <= Log10Plus1(n) <= n
    ensures Pow10(Log10Plus1(n) - 1) <= n < Pow10(Log10Plus1(n))
  {
    FloorLog10Monotone(m, n);
    FloorLog10Exact(n);
  }
}
