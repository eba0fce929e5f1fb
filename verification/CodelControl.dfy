/** The CoDel control law of queue/codel.go, as a function on the four fields the pool
    guards with its mutex, and an independent account of it that looks only at the
    history of head evaluations.

    An evaluation is one call of the law: the enqueue time of the head of the queue and
    the time read from the clock. Nothing but an evaluation changes the control state;
    in particular an empty queue does not. */
module CodelControl {
  import opened Integers
  import opened Tally

  datatype Params = Params(target: int, interval: nat)

  datatype Control = Control(dropping: bool, firstAbove: Option<int>, dropNext: int, count: nat)

  datatype Eval = Eval(enq: int, now: int)

  const INITIAL := Control(false, None, 0, 0)

  // ---------------------------------------------------------------------------------
  // interval / sqrt(count), truncated to a whole duration

  /** The unique natural d with d * sqrt(count) <= interval < (d + 1) * sqrt(count). */
  function Spacing(interval: nat, count: nat): nat
    requires count >= 1
  {
    SpacingBelow(interval, count, interval)
  }

  function SpacingBelow(interval: nat, count: nat, d: nat): nat {
    if d == 0 || d * d * count <= interval * interval then d else SpacingBelow(interval, count, d - 1)
  }

  lemma {:induction false} SpacingBelowExact(interval: nat, count: nat, d: nat)
    requires count >= 1 && interval * interval < (d + 1) * (d + 1) * count
    ensures var r := SpacingBelow(interval, count, d);
            r * r * count <= interval * interval < (r + 1) * (r + 1) * count
  {
    if d == 0 {
      assert 0 * 0 * count == 0;
    } else if d * d * count > interval * interval {
      SpacingBelowExact(interval, count, d - 1);
    }
  }

  lemma SpacingExact(interval: nat, count: nat)
    requires count >= 1
    ensures var d := Spacing(interval, count);
            d * d * count <= interval * interval < (d + 1) * (d + 1) * count
  {
    SquareStep(interval, count);
    SpacingBelowExact(interval, count, interval);
  }

  /** No other natural has that property. */
  lemma SpacingUnique(interval: nat, count: nat, d: nat)
    requires count >= 1 && d * d * count <= interval * interval < (d + 1) * (d + 1) * count
    ensures d == Spacing(interval, count)
  {
    SpacingExact(interval, count);
    var e := Spacing(interval, count);
    SquareOrder(d, e + 1, count);
    SquareOrder(e, d + 1, count);
  }

  lemma SquareStep(interval: nat, count: nat)
    requires count >= 1
    ensures interval * interval < (interval + 1) * (interval + 1) * count
  {
    var square := (interval + 1) * (interval + 1);
    assert interval * interval < square;
    MulLe(1, count, square);
    assert square * count == count * square;
  }

  lemma SquareMonotone(a: nat, b: nat, c: nat)
    requires a <= b
    ensures a * a * c <= b * b * c
  {
    MulLe(a, b, a);
    MulLe(a, b, b);
    assert a * b == b * a;
    MulLe(a * a, b * b, c);
  }

  lemma SquareOrder(a: nat, b: nat, c: nat)
    requires a * a * c < b * b * c
    ensures a < b
  {
    if b <= a {
      SquareMonotone(b, a, c);
    }
  }

  /** The longer an overload lasts the closer together the drops come. */
  lemma SpacingShrinks(interval: nat, few: nat, many: nat)
    requires 1 <= few <= many
    ensures Spacing(interval, many) <= Spacing(interval, few)
  {
    SpacingExact(interval, few);
    SpacingExact(interval, many);
    var a, b := Spacing(interval, few), Spacing(interval, many);
    MulLe(few, many, b * b);
    assert b * b * few == few * (b * b) && b * b * many == many * (b * b);
    SquareOrder(b, a + 1, few);
  }

  lemma SpacingFirst(interval: nat)
    ensures Spacing(interval, 1) == interval
  {
    SquareStep(interval, 1);
    assert interval * interval * 1 == interval * interval;
    SpacingUnique(interval, 1, interval);
  }

  // ---------------------------------------------------------------------------------
  // The law

  function Sojourn(e: Eval): int { e.now - e.enq }

  predicate Above(p: Params, e: Eval) { e.now - e.enq >= p.target }

  /** One evaluation: the next control state and whether the head is dropped. */
  function Decide(p: Params, c: Control, e: Eval): (Control, bool) {
    if Sojourn(e) < p.target then (c.(firstAbove := None, dropping := false), false)
    else if c.firstAbove.None? then (c.(firstAbove := Some(e.now + p.interval)), false)
    else if e.now < c.firstAbove.value then (c, false)
    else if !c.dropping then (c.(dropping := true, count := 1, dropNext := e.now + p.interval), true)
    else if e.now < c.dropNext then (c, false)
    else (c.(count := c.count + 1, dropNext := e.now + Spacing(p.interval, c.count + 1)), true)
  }

  function StateAfter(p: Params, evals: seq<Eval>): Control {
    if evals == [] then INITIAL
    else Decide(p, StateAfter(p, Front(evals)), Last(evals)).0
  }

  /** Whether the newest evaluation of the history drops its head. */
  predicate Drops(p: Params, evals: seq<Eval>)
    requires evals != []
  {
    Decide(p, StateAfter(p, Front(evals)), Last(evals)).1
  }

  function Front(evals: seq<Eval>): seq<Eval>
    requires evals != []
  {
    evals[..|evals| - 1]
  }

  function Last(evals: seq<Eval>): Eval
    requires evals != []
  {
    evals[|evals| - 1]
  }

  // ---------------------------------------------------------------------------------
  // The same law read off the history

  /** Where the current stretch of above-target evaluations began; the length of the
      history when its newest evaluation was below target. */
  function EpisodeStart(p: Params, evals: seq<Eval>): (s: nat)
    ensures s <= |evals|
    ensures forall i :: s <= i < |evals| ==> Above(p, evals[i])
    ensures s > 0 ==> !Above(p, evals[s - 1])
  {
    if evals == [] || !Above(p, Last(evals)) then |evals| else EpisodeStart(p, Front(evals))
  }

  /** How many of the evaluations at positions lo and later dropped their head. */
  function DropsSince(p: Params, evals: seq<Eval>, lo: nat): nat {
    if |evals| <= lo then 0
    else DropsSince(p, Front(evals), lo) + (if Drops(p, evals) then 1 else 0)
  }

  /** The position of the newest drop at position lo or later. */
  function NewestDrop(p: Params, evals: seq<Eval>, lo: nat): (i: nat)
    requires DropsSince(p, evals, lo) > 0
    ensures lo <= i < |evals|
  {
    if Drops(p, evals) then |evals| - 1 else NewestDrop(p, Front(evals), lo)
  }

  lemma {:induction false} NewestDropIsOne(p: Params, evals: seq<Eval>, lo: nat)
    requires DropsSince(p, evals, lo) > 0
    ensures var i := NewestDrop(p, evals, lo);
            Drops(p, evals[..i + 1]) && DropsSince(p, evals[..i], lo) == DropsSince(p, evals, lo) - 1
  {
    var i := NewestDrop(p, evals, lo);
    if Drops(p, evals) {
      assert evals[..i + 1] == evals && evals[..i] == Front(evals);
    } else {
      NewestDropIsOne(p, Front(evals), lo);
      assert evals[..i + 1] == Front(evals)[..i + 1] && evals[..i] == Front(evals)[..i];
    }
  }

  /** What the four fields mean, in terms of the history alone. */
  ghost predicate Reflects(p: Params, evals: seq<Eval>, c: Control) {
    var s := EpisodeStart(p, evals);
    var n := DropsSince(p, evals, s);
    && c.firstAbove == (if s == |evals| then None else Some(evals[s].now + p.interval))
    && (c.dropping <==> n > 0)
    && (n > 0 ==> c.count == n && c.dropNext == evals[NewestDrop(p, evals, s)].now + Spacing(p.interval, n))
  }

  lemma BelowTargetReflects(p: Params, evals: seq<Eval>)
    requires evals != [] && !Above(p, Last(evals))
    ensures Reflects(p, evals, StateAfter(p, evals))
  {
    assert DropsSince(p, evals, |evals|) == 0;
  }

  lemma EpisodeOpensReflects(p: Params, evals: seq<Eval>)
    requires evals != [] && Above(p, Last(evals))
    requires Reflects(p, Front(evals), StateAfter(p, Front(evals)))
    requires EpisodeStart(p, Front(evals)) == |Front(evals)|
    ensures Reflects(p, evals, StateAfter(p, evals))
  {
    assert DropsSince(p, Front(evals), |Front(evals)|) == 0;
    assert !Drops(p, evals);
    assert DropsSince(p, evals, |Front(evals)|) == 0;
  }

  lemma DropReflects(p: Params, evals: seq<Eval>)
    requires evals != [] && Drops(p, evals)
    requires Reflects(p, Front(evals), StateAfter(p, Front(evals)))
    ensures Reflects(p, evals, StateAfter(p, evals))
  {
    var s := EpisodeStart(p, evals);
    SpacingFirst(p.interval);
    assert evals[s] == Front(evals)[s];
    assert NewestDrop(p, evals, s) == |evals| - 1;
  }

  lemma SurvivalKeepsState(p: Params, evals: seq<Eval>)
    requires evals != [] && Above(p, Last(evals)) && !Drops(p, evals)
    requires StateAfter(p, Front(evals)).firstAbove.Some?
    ensures StateAfter(p, evals) == StateAfter(p, Front(evals))
  {
  }

  lemma SurvivalKeepsCount(p: Params, evals: seq<Eval>, s: nat)
    requires evals != [] && !Drops(p, evals) && s < |evals|
    ensures DropsSince(p, evals, s) == DropsSince(p, Front(evals), s)
    ensures DropsSince(p, evals, s) > 0 ==> NewestDrop(p, evals, s) == NewestDrop(p, Front(evals), s)
  {
  }

  lemma SurvivalReflects(p: Params, evals: seq<Eval>)
    requires evals != [] && Above(p, Last(evals)) && !Drops(p, evals)
    requires Reflects(p, Front(evals), StateAfter(p, Front(evals)))
    requires EpisodeStart(p, Front(evals)) < |Front(evals)|
    ensures Reflects(p, evals, StateAfter(p, evals))
  {
    SurvivalKeepsState(p, evals);
    SurvivalKeepsCount(p, evals, EpisodeStart(p, evals));
    ReflectsFrom(p, evals, StateAfter(p, evals));
  }

  lemma ReflectsFrom(p: Params, evals: seq<Eval>, c: Control)
    requires evals != [] && Reflects(p, Front(evals), c)
    requires EpisodeStart(p, evals) == EpisodeStart(p, Front(evals)) < |Front(evals)|
    requires var s := EpisodeStart(p, evals);
             DropsSince(p, evals, s) == DropsSince(p, Front(evals), s)
             && (DropsSince(p, evals, s) > 0 ==> NewestDrop(p, evals, s) == NewestDrop(p, Front(evals), s))
    ensures Reflects(p, evals, c)
  {
  }

  lemma {:induction false} FieldsReflectHistory(p: Params, evals: seq<Eval>)
    ensures Reflects(p, evals, StateAfter(p, evals))
  {
    if evals == [] {
    } else {
      FieldsReflectHistory(p, Front(evals));
      if Drops(p, evals) {
        DropReflects(p, evals);
      } else if !Above(p, Last(evals)) {
        BelowTargetReflects(p, evals);
      } else if EpisodeStart(p, Front(evals)) == |Front(evals)| {
        EpisodeOpensReflects(p, evals);
      } else {
        SurvivalReflects(p, evals);
      }
    }
  }

  /** The exact condition for a drop: a standing queue has been confirmed, and either it is
      the first drop of this episode or the spacing owed for the drops so far has passed. */
  lemma DropExactlyWhen(p: Params, evals: seq<Eval>)
    requires evals != []
    ensures Drops(p, evals) <==>
            var past, s := Front(evals), EpisodeStart(p, evals);
            && s < |past|
            && Last(evals).now - evals[s].now >= p.interval
            && var n := DropsSince(p, past, s);
               n == 0 || Last(evals).now - past[NewestDrop(p, past, s)].now >= Spacing(p.interval, n)
  {
    FieldsReflectHistory(p, Front(evals));
  }

  /** Soundness of every drop: an earlier evaluation at least an interval ago, and none
      since then that saw a head below target. */
  lemma DropsAreSound(p: Params, evals: seq<Eval>) returns (j: nat)
    requires evals != [] && Drops(p, evals)
    ensures j < |evals| - 1
    ensures Last(evals).now - evals[j].now >= p.interval
    ensures forall i :: j <= i < |evals| ==> evals[i].now - evals[i].enq >= p.target
  {
    DropExactlyWhen(p, evals);
    j := EpisodeStart(p, evals);
  }

  /** The dropping state ends exactly at an evaluation below target; the queue running empty
      in between is no evaluation and ends nothing. */
  lemma DroppingEndsExactlyWhen(p: Params, evals: seq<Eval>)
    requires evals != [] && StateAfter(p, Front(evals)).dropping
    ensures !StateAfter(p, evals).dropping <==> Last(evals).now - Last(evals).enq < p.target
  {
    FieldsReflectHistory(p, Front(evals));
  }

  /** The third task is enqueued 780 time units after the second was evaluated, waits 10, and is
      dropped: time in which nothing is evaluated ends no dropping state. */
  lemma IdlenessDoesNotReset()
    ensures var evals := [Eval(0, 10), Eval(0, 120), Eval(900, 910)];
            Drops(Params(5, 100), evals[..2]) && evals[2].enq > evals[1].now && Drops(Params(5, 100), evals)
  {
    var p, evals := Params(5, 100), [Eval(0, 10), Eval(0, 120), Eval(900, 910)];
    assert Front(evals) == evals[..2] && Front(evals[..2]) == [Eval(0, 10)];
    assert Front([Eval(0, 10)]) == [];
    assert StateAfter(p, [Eval(0, 10)]) == INITIAL.(firstAbove := Some(110));
    assert StateAfter(p, evals[..2]) == Control(true, Some(110), 220, 1);
  }

  // ---------------------------------------------------------------------------------
  // The drop rate

  lemma {:induction false} EpisodeStartOfPrefix(p: Params, evals: seq<Eval>, k: nat)
    requires EpisodeStart(p, evals) <= k <= |evals|
    ensures EpisodeStart(p, evals[..k]) == EpisodeStart(p, evals)
  {
    if k == |evals| {
      assert evals[..k] == evals;
    } else {
      assert evals[..k] == Front(evals)[..k];
      EpisodeStartOfPrefix(p, Front(evals), k);
    }
  }

  lemma {:induction false} NewestIsNoOlder(p: Params, evals: seq<Eval>, lo: nat, i: nat)
    requires lo <= i < |evals| && Drops(p, evals[..i + 1])
    ensures DropsSince(p, evals, lo) > DropsSince(p, evals[..i], lo)
    ensures NewestDrop(p, evals, lo) >= i
  {
    if i == |evals| - 1 {
      assert evals[..i + 1] == evals && evals[..i] == Front(evals);
    } else {
      assert evals[..i + 1] == Front(evals)[..i + 1] && evals[..i] == Front(evals)[..i];
      NewestIsNoOlder(p, Front(evals), lo, i);
    }
  }

  lemma RateStep(elapsed: int, n: nat, wide: nat, narrow: nat)
    requires elapsed >= n * wide + narrow && narrow <= wide
    ensures elapsed >= (n + 1) * narrow
  {
    MulLe(narrow, wide, n);
    assert n * narrow == narrow * n && n * wide == wide * n && (n + 1) * narrow == n * narrow + narrow;
  }

  lemma RateStepFirst(elapsed: int, n: nat, narrow: nat)
    requires elapsed >= narrow && n == 1
    ensures elapsed >= n * narrow
  {
  }

  /** Two drops of one episode: with m drops of the episode before the later one, n of them
      from the earlier one on, they are at least n times the spacing for m apart. */
  lemma {:induction false} EpisodeRate(p: Params, evals: seq<Eval>, i: nat)
    requires evals != [] && Drops(p, evals)
    requires EpisodeStart(p, evals) <= i < |evals| - 1 && Drops(p, evals[..i + 1])
    ensures var s := EpisodeStart(p, evals);
            var m := DropsSince(p, Front(evals), s);
            var n := m - DropsSince(p, evals[..i], s);
            1 <= n <= m && Last(evals).now - evals[i].now >= n * Spacing(p.interval, m)
    decreases |evals|
  {
    var l, m := NewestBefore(p, evals, i);
    if l == i {
      RateStepFirst(Last(evals).now - evals[i].now, m - DropsSince(p, evals[..i], EpisodeStart(p, evals)),
                    Spacing(p.interval, m));
    } else {
      EpisodeRateInner(p, evals, i, l, m);
    }
  }

  /** The drop just before the newest evaluation's, and the spacing owed to it. */
  lemma NewestBefore(p: Params, evals: seq<Eval>, i: nat) returns (l: nat, m: nat)
    requires evals != [] && Drops(p, evals)
    requires EpisodeStart(p, evals) <= i < |evals| - 1 && Drops(p, evals[..i + 1])
    ensures m == DropsSince(p, Front(evals), EpisodeStart(p, evals)) >= 1
    ensures i <= l < |evals| - 1 && Drops(p, evals[..l + 1])
    ensures DropsSince(p, evals[..l], EpisodeStart(p, evals)) == m - 1
    ensures Last(evals).now - evals[l].now >= Spacing(p.interval, m)
  {
    var s, past := EpisodeStart(p, evals), Front(evals);
    assert past[..i + 1] == evals[..i + 1];
    NewestIsNoOlder(p, past, s, i);
    DropExactlyWhen(p, evals);
    m, l := DropsSince(p, past, s), NewestDrop(p, past, s);
    NewestDropIsOne(p, past, s);
    assert past[..l + 1] == evals[..l + 1] && past[..l] == evals[..l];
  }

  lemma {:induction false} EpisodeRateInner(p: Params, evals: seq<Eval>, i: nat, l: nat, m: nat)
    requires evals != [] && Drops(p, evals)
    requires EpisodeStart(p, evals) <= i < l < |evals| - 1
    requires Drops(p, evals[..i + 1]) && Drops(p, evals[..l + 1])
    requires DropsSince(p, evals[..l], EpisodeStart(p, evals)) == m - 1
    requires Last(evals).now - evals[l].now >= Spacing(p.interval, m)
    ensures var n := m - DropsSince(p, evals[..i], EpisodeStart(p, evals));
            1 <= n <= m && Last(evals).now - evals[i].now >= n * Spacing(p.interval, m)
    decreases |evals|, 1
  {
    EpisodeRateBefore(p, evals, i, l, m);
    SpacingShrinks(p.interval, m - 1, m);
    var n := m - 1 - DropsSince(p, evals[..i], EpisodeStart(p, evals));
    RateStep(Last(evals).now - evals[i].now, n, Spacing(p.interval, m - 1), Spacing(p.interval, m));
  }

  /** What the rate gives for the drop at l, the one before the newest. */
  lemma {:induction false} EpisodeRateBefore(p: Params, evals: seq<Eval>, i: nat, l: nat, m: nat)
    requires evals != []
    requires EpisodeStart(p, evals) <= i < l < |evals| - 1
    requires Drops(p, evals[..i + 1]) && Drops(p, evals[..l + 1])
    requires DropsSince(p, evals[..l], EpisodeStart(p, evals)) == m - 1
    ensures var n := m - 1 - DropsSince(p, evals[..i], EpisodeStart(p, evals));
            1 <= n <= m - 1 && evals[l].now - evals[i].now >= n * Spacing(p.interval, m - 1)
    decreases |evals|, 0
  {
    var inner := evals[..l + 1];
    EpisodeStartOfPrefix(p, evals, l + 1);
    assert Front(inner) == evals[..l] && inner[..i + 1] == evals[..i + 1] && inner[..i] == evals[..i];
    EpisodeRate(p, inner, i);
  }

  /** The whole of an episode: n + 1 drops take at least n times the spacing for n. */
  lemma EpisodeSpan(p: Params, evals: seq<Eval>, first: nat)
    requires evals != [] && Drops(p, evals)
    requires EpisodeStart(p, evals) <= first < |evals| - 1 && Drops(p, evals[..first + 1])
    requires DropsSince(p, evals[..first], EpisodeStart(p, evals)) == 0
    ensures var n := DropsSince(p, Front(evals), EpisodeStart(p, evals));
            n >= 1 && Last(evals).now - evals[first].now >= n * Spacing(p.interval, n)
  {
    assert Front(evals)[..first] == evals[..first];
    EpisodeRate(p, evals, first);
  }

  ghost predicate Monotone(evals: seq<Eval>) {
    forall i, j :: 0 <= i <= j < |evals| ==> evals[i].now <= evals[j].now
  }

  /** Drops that belong to different episodes are at least an interval apart. */
  lemma AcrossEpisodes(p: Params, evals: seq<Eval>, i: nat)
    requires Monotone(evals)
    requires evals != [] && Drops(p, evals)
    requires i < EpisodeStart(p, evals) && Drops(p, evals[..i + 1])
    ensures Last(evals).now - evals[i].now >= p.interval
  {
    DropExactlyWhen(p, evals);
  }

  /** How far the evaluation at l comes after the one at i when both drop: with m drops in the
      episode of l before it, n of them from i on, n times the spacing for m; an interval when i
      lies before that episode. */
  predicate Apart(p: Params, evals: seq<Eval>, i: nat, l: nat)
    requires i < l < |evals|
  {
    var start := EpisodeStart(p, evals[..l + 1]);
    if start <= i then
      var m := DropsSince(p, evals[..l], start);
      var n := m - DropsSince(p, evals[..i], start);
      1 <= n <= m && evals[l].now - evals[i].now >= n * Spacing(p.interval, m)
    else evals[l].now - evals[i].now >= p.interval
  }

  lemma DropsApart(p: Params, evals: seq<Eval>, i: nat, l: nat)
    requires Monotone(evals) && i < l < |evals|
    requires Drops(p, evals[..i + 1]) && Drops(p, evals[..l + 1])
    ensures Apart(p, evals, i, l)
  {
    var past := evals[..l + 1];
    assert past[..i + 1] == evals[..i + 1] && past[..i] == evals[..i] && Front(past) == evals[..l];
    if EpisodeStart(p, past) <= i {
      EpisodeRate(p, past, i);
    } else {
      AcrossEpisodes(p, past, i);
    }
  }
}
