/** The priority and cohort shedder of quarkus/priority.go. */
module Priority {
  import opened Reals

  const MIN_COHORT := 1
  const MAX_COHORT := 128
  const PRIORITIES := 5
  const NORMAL := 2
  const MIDDLE_COHORT := 64

  const MIN_INT := -0x8000_0000_0000_0000
  const MAX_INT := 0x7FFF_FFFF_FFFF_FFFF

  /** A machine integer of 64 bits, whose smallest value has no negation. */
  type Int64 = x: int | MIN_INT <= x <= MAX_INT

  /** The remainder of the original keeps the sign of its dividend, which here is never
      negative: the one negation that would overflow has a case of its own. */
  function NormalizeCohort(cohort: Int64): (c: int)
    ensures MIN_COHORT <= c <= MAX_COHORT
    ensures MIN_COHORT <= cohort <= MAX_COHORT ==> c == cohort
  {
    if cohort == MIN_INT then MAX_COHORT
    else if cohort < 0 then (-cohort) % MAX_COHORT + 1
    else if cohort == 0 then MIN_COHORT
    else if cohort > MAX_COHORT then cohort % MAX_COHORT + 1
    else cohort
  }

  lemma RemainderSame(x: int)
    ensures (x % 128 - x) % 128 == 0
  {
  }

  /** Where a cohort outside [1, 128] lands: one above the remainder of its magnitude, the smallest
      integer at the top and zero at the bottom. */
  lemma CohortOutside(cohort: Int64)
    ensures cohort > 128 ==> (NormalizeCohort(cohort) - 1 - cohort) % 128 == 0
    ensures -0x8000_0000_0000_0000 < cohort < 0 ==> (NormalizeCohort(cohort) - 1 + cohort) % 128 == 0
    ensures cohort == -0x8000_0000_0000_0000 ==> NormalizeCohort(cohort) == 128
    ensures cohort == 0 ==> NormalizeCohort(cohort) == 1
  {
    RemainderSame(cohort);
    RemainderSame(-(cohort as int));
  }

  /** A 64-bit result that wraps around. */
  function Wrap(x: int): Int64 { (x - MIN_INT) % 0x1_0000_0000_0000_0000 + MIN_INT }

  function Score(priority: Int64, cohort: Int64): Int64 {
    Wrap(Wrap(priority * MAX_COHORT) + NormalizeCohort(cohort))
  }

  const MAX_SCORE := PRIORITIES * MAX_COHORT

  /** A negative load asks for everything to be shed. */
  function Threshold(load: real): real {
    if load < 0.0 then -1.0 else MAX_SCORE as real * (1.0 - load * load * load)
  }

  predicate Sheds(threshold: real, priority: Int64, cohort: Int64) {
    threshold < 0.0 || Score(priority, cohort) as real > threshold
  }

  datatype Cache = Cache(threshold: real, time: int)

  predicate Stale(c: Cache, now: int) { now - c.time > 1000 }

  function Refresh(c: Cache, now: int, load: real): Cache {
    if Stale(c, now) then Cache(Threshold(load), now) else c
  }

  datatype Matcher<!R> = Matcher(applies: R -> bool, value: R -> Int64)

  /** The value of the first matcher that applies. */
  function First<R>(matchers: seq<Matcher<R>>, request: R, default: Int64): Int64 {
    if matchers == [] then default
    else if matchers[0].applies(request) then matchers[0].value(request)
    else First(matchers[1..], request, default)
  }

  lemma {:induction false} FirstAt<R>(matchers: seq<Matcher<R>>, request: R, default: Int64, i: nat)
    requires i <= |matchers| && forall j :: 0 <= j < i ==> !matchers[j].applies(request)
    ensures i == |matchers| ==> First(matchers, request, default) == default
    ensures i < |matchers| && matchers[i].applies(request) ==>
              First(matchers, request, default) == matchers[i].value(request)
  {
    if i == 0 {
    } else {
      assert forall j :: 0 <= j < i - 1 ==> matchers[1..][j] == matchers[j + 1];
      FirstAt(matchers[1..], request, default, i - 1);
    }
  }

  class PriorityLoadShedding<R> {
    const enabled: bool
    const prioritizers: seq<Matcher<R>>
    const classifiers: seq<Matcher<R>>
    var lastThreshold: real
    var lastThresholdTime: int

    ghost function View(): Cache
      reads this
    {
      Cache(lastThreshold, lastThresholdTime)
    }

    constructor (enabled: bool, prioritizers: seq<Matcher<R>>, classifiers: seq<Matcher<R>>)
      ensures View() == Cache(0.0, 0)
      ensures this.enabled == enabled && this.prioritizers == prioritizers && this.classifiers == classifiers
    {
      this.enabled, this.prioritizers, this.classifiers := enabled, prioritizers, classifiers;
      lastThreshold, lastThresholdTime := 0.0, 0;
    }

    /** now is the clock in milliseconds, load what the load source would answer if asked. */
    method ShedLoad(request: R, now: int, load: real) returns (shed: bool)
      modifies this
      ensures !enabled ==> shed && View() == old(View())
      ensures enabled ==>
                && View() == Refresh(old(View()), now, load)
                && shed == Sheds(View().threshold, First(prioritizers, request, 2), First(classifiers, request, 64))
    {
      if !enabled {
        return true;
      }
      if now - lastThresholdTime > 1000 {
        if load < 0.0 {
          lastThreshold := -1.0;
        } else {
          lastThreshold := MAX_SCORE as real * (1.0 - load * load * load);
        }
        lastThresholdTime := now;
      }
      var threshold := lastThreshold;
      if threshold < 0.0 {
        return true;
      }
      var priority := Search(prioritizers, request, NORMAL);
      var cohort := Search(classifiers, request, MIDDLE_COHORT);
      cohort := NormalizeCohort(cohort);
      var score := Wrap(Wrap(priority * MAX_COHORT) + cohort);
      return score as real > threshold;
    }

    static method Search(matchers: seq<Matcher<R>>, request: R, default: Int64) returns (v: Int64)
      ensures v == First(matchers, request, default)
    {
      v := default;
      for i := 0 to |matchers|
        invariant v == default
        invariant forall j :: 0 <= j < i ==> !matchers[j].applies(request)
      {
        if matchers[i].applies(request) {
          FirstAt(matchers, request, default, i);
          return matchers[i].value(request);
        }
      }
      FirstAt(matchers, request, default, |matchers|);
    }
  }

  // ---------------------------------------------------------------------------------
  // The order

  predicate Before(p: Int64, c: Int64, q: Int64, d: Int64) {
    p < q || (p == q && NormalizeCohort(c) < NormalizeCohort(d))
  }

  /** The score does not wrap around. */
  predicate Fits(p: Int64, c: Int64) {
    MIN_INT <= p * MAX_COHORT + NormalizeCohort(c) <= MAX_INT
  }

  lemma WrapExact(x: int)
    ensures MIN_INT <= x <= MAX_INT <==> Wrap(x) == x
    ensures (Wrap(x) - x) % 0x1_0000_0000_0000_0000 == 0
  {
  }

  lemma WrapOfWrap(x: int, y: int)
    ensures Wrap(Wrap(x) + y) == Wrap(x + y)
  {
  }

  lemma ScoreExact(p: Int64, c: Int64)
    ensures Score(p, c) == p * MAX_COHORT + NormalizeCohort(c) <==> Fits(p, c)
  {
    WrapOfWrap(p * MAX_COHORT, NormalizeCohort(c));
    WrapExact(p * MAX_COHORT + NormalizeCohort(c));
  }

  /** The score embeds the lexicographic order of priority and cohort, for every machine integer
      a classifier may return and every priority for which it does not wrap around. */
  lemma ScoreIsLexicographic(p: Int64, c: Int64, q: Int64, d: Int64)
    requires Fits(p, c) && Fits(q, d)
    ensures Score(p, c) < Score(q, d) <==> Before(p, c, q, d)
    ensures Score(p, c) == Score(q, d) <==> p == q && NormalizeCohort(c) == NormalizeCohort(d)
    ensures 0 <= p < PRIORITIES ==> 1 <= Score(p, c) <= MAX_SCORE
  {
    ScoreExact(p, c);
    ScoreExact(q, d);
  }

  /** The priorities of the original never wrap around. */
  lemma DeclaredPrioritiesFit(p: Int64, c: Int64)
    ensures -0x100_0000_0000_0000 <= p < 0xFF_FFFF_FFFF_FFFF ==> Fits(p, c)
    ensures 0 <= p < PRIORITIES ==> Fits(p, c)
  {
  }

  predicate Agree(p: Int64, c: Int64, q: Int64, d: Int64) {
    && (Score(p, c) < Score(q, d) <==> Before(p, c, q, d))
    && (Score(q, d) < Score(p, c) <==> Before(q, d, p, c))
  }

  /** A request whose score wraps around is out of order, and only such a one is. */
  lemma InOrderExactlyWhenItFits(p: Int64, c: Int64)
    ensures Fits(p, c) <==> forall q: Int64, d: Int64 :: Fits(q, d) ==> Agree(p, c, q, d)
  {
    if Fits(p, c) {
      forall q: Int64, d: Int64 | Fits(q, d) ensures Agree(p, c, q, d) {
        ScoreIsLexicographic(p, c, q, d);
        ScoreIsLexicographic(q, d, p, c);
      }
    } else {
      var (q, d) := if p > 0 then HIGHEST else LOWEST;
      ScoreExact(q, d);
      assert Fits(q, d) && !Agree(p, c, q, d);
    }
  }

  /** The requests with the largest and the smallest score. */
  const HIGHEST: (Int64, Int64) := (0xFF_FFFF_FFFF_FFFF, 127)
  const LOWEST: (Int64, Int64) := (-0x100_0000_0000_0001, 128)

  lemma ShedSetUpwardClosed(threshold: real, p: Int64, c: Int64, q: Int64, d: Int64)
    requires Fits(p, c) && Fits(q, d) && Before(p, c, q, d) && Sheds(threshold, p, c)
    ensures Sheds(threshold, q, d)
  {
    ScoreIsLexicographic(p, c, q, d);
  }

  lemma CubeMonotone(a: real, b: real)
    requires 0.0 <= a <= b
    ensures a * a * a <= b * b * b
  {
    Scale(a, b, a);
    Scale(a, b, b);
    CubeStep(a * a, b * b, a, b);
  }

  lemma CubeStep(x: real, y: real, a: real, b: real)
    requires 0.0 <= x <= y && 0.0 <= a <= b
    ensures x * a <= y * b
  {
    Scale(x, y, a);
    Scale(a, b, y);
  }

  lemma ThresholdFalls(low: real, high: real)
    requires 0.0 <= low <= high
    ensures Threshold(high) <= Threshold(low)
  {
    CubeMonotone(low, high);
  }

  /** The threshold is cubic in the load: what is shed is the last load * load * load of the 640
      scores. */
  lemma ShedExactlyWhen(load: real, p: Int64, c: Int64)
    requires load >= 0.0
    ensures Sheds(Threshold(load), p, c) <==>
              load > 1.0 || 640.0 * (load * load * load) > (640 - Score(p, c)) as real
  {
    if load > 1.0 {
      CubeAboveOne(load);
    } else {
      CubeMonotone(load, 1.0);
    }
  }

  /** A higher load sheds a superset. */
  lemma HigherLoadShedsMore(low: real, high: real, p: Int64, c: Int64)
    requires 0.0 <= low <= high && Sheds(Threshold(low), p, c)
    ensures Sheds(Threshold(high), p, c)
  {
    ThresholdFalls(low, high);
  }

  /** Load zero sheds what scores above every declared priority, load one what scores above zero,
      a higher or an unknown load everything; so among the declared priorities load zero sheds
      nothing and load one everything. */
  lemma ExtremeLoads(load: real, p: Int64, c: Int64)
    ensures Sheds(Threshold(0.0), p, c) <==> Score(p, c) > MAX_SCORE
    ensures Sheds(Threshold(1.0), p, c) <==> Score(p, c) > 0
    ensures load > 1.0 || load < 0.0 ==> Sheds(Threshold(load), p, c)
    ensures 0 <= p < PRIORITIES ==> !Sheds(Threshold(0.0), p, c)
    ensures 0 <= p < PRIORITIES && load >= 1.0 ==> Sheds(Threshold(load), p, c)
  {
    if 0 <= p < PRIORITIES {
      ScoreIsLexicographic(p, c, p, c);
    }
    assert Threshold(1.0) == 0.0;
    if load > 1.0 {
      CubeAboveOne(load);
    }
  }

  lemma CubeAboveOne(load: real)
    requires load > 1.0
    ensures load * load * load > 1.0
  {
    StrictScale(1.0, load, load);
    StrictScale(1.0, load * load, load);
  }

  // ---------------------------------------------------------------------------------
  // The cache

  datatype Query = Query(now: int, load: real)

  function CacheAfter(queries: seq<Query>): Cache {
    if queries == [] then Cache(0.0, 0)
    else
      var q := queries[|queries| - 1];
      Refresh(CacheAfter(queries[..|queries| - 1]), q.now, q.load)
  }

  predicate Monotone(queries: seq<Query>) {
    forall i, j :: 0 <= i <= j < |queries| ==> queries[i].now <= queries[j].now
  }

  /** The query at position j had the load asked again. */
  predicate Asks(queries: seq<Query>, j: nat)
    requires j < |queries|
  {
    Stale(CacheAfter(queries[..j]), queries[j].now)
  }

  /** The query the cached threshold was computed at. */
  function Source(queries: seq<Query>): (j: int)
    ensures -1 <= j < |queries|
  {
    if queries == [] then -1
    else if Asks(queries, |queries| - 1) then |queries| - 1
    else Source(queries[..|queries| - 1])
  }

  /** Every decision uses the threshold of a load read at most a second ago, on the same or an
      earlier query, and no later query has read it since; before the first reading the
      threshold is zero, and that lasts only through the first second of the epoch. */
  lemma {:induction false} ThresholdIsRecent(queries: seq<Query>)
    requires Monotone(queries) && queries != []
    ensures var last, j := queries[|queries| - 1], Source(queries);
            if j == -1 then CacheAfter(queries) == Cache(0.0, 0) && last.now <= 1000
            else CacheAfter(queries) == Cache(Threshold(queries[j].load), queries[j].now)
                 && 0 <= last.now - queries[j].now <= 1000 && Asks(queries, j)
  {
    var n := |queries| - 1;
    assert queries[..n + 1] == queries;
    if !Asks(queries, n) {
      SourceHolds(queries[..n]);
      assert CacheAfter(queries) == CacheAfter(queries[..n]);
      var j := Source(queries);
      if j >= 0 {
        assert queries[..n][..j] == queries[..j];
      }
    }
  }

  lemma {:induction false} SourceHolds(queries: seq<Query>)
    ensures var j := Source(queries);
            if j == -1 then CacheAfter(queries) == Cache(0.0, 0)
            else CacheAfter(queries) == Cache(Threshold(queries[j].load), queries[j].now) && Asks(queries, j)
  {
    if queries == [] {
    } else {
      var n := |queries| - 1;
      SourceHolds(queries[..n]);
      var j := Source(queries);
      if 0 <= j < n {
        assert queries[..n][..j] == queries[..j];
      }
    }
  }

  /** The load is read at most once a second: two readings are more than a second apart. */
  lemma ReadingsSpaced(queries: seq<Query>, i: nat, j: nat)
    requires Monotone(queries) && i < j < |queries| && Asks(queries, i) && Asks(queries, j)
    ensures queries[j].now - queries[i].now > 1000
  {
    assert queries[..j][..i] == queries[..i];
    SourceHolds(queries[..j]);
    SourceNoEarlier(queries[..j], i);
  }

  lemma {:induction false} SourceNoEarlier(queries: seq<Query>, i: nat)
    requires i < |queries| && Asks(queries, i)
    ensures Source(queries) >= i
  {
    var n := |queries| - 1;
    if i == n || Asks(queries, n) {
    } else {
      assert queries[..n][..i] == queries[..i];
      SourceNoEarlier(queries[..n], i);
    }
  }
}
