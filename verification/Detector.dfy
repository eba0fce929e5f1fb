/** The overload detector of quarkus/detector.go: an integer variant of TCP Vegas. The queue
    estimate and the probe threshold are computed in floating point by the original and exactly
    here. */
module Detector {
  import opened Integers
  import opened Logarithm
  import opened Reals

  datatype Config = Config(maxLimit: int, alphaFactor: int, betaFactor: int, probeFactor: real)

  datatype State = State(limit: int, lowest: int, probeCount: nat, jitter: real)

  /** One completed request: its time in microseconds, the requests in flight when it finished,
      and the jitter drawn should it cause a probe. */
  datatype Sample = Sample(rtt: int, requests: int, jitter: real)

  /** Only a probe factor and a limit both below zero let a limit below one reach the
      logarithm. */
  predicate Usable(cfg: Config, s: State) {
    (cfg.probeFactor >= 0.0 || s.limit >= 0) && s.jitter > 0.0
  }

  /** The number of samples after which a probe is due. */
  function ProbeThreshold(cfg: Config, s: State): real { cfg.probeFactor * s.jitter * s.limit as real }

  predicate ProbeDue(cfg: Config, s: State) {
    ProbeThreshold(cfg, s) <= (s.probeCount + 1) as real
  }

  lemma NoProbeNoZero(cfg: Config, s: State)
    requires Usable(cfg, s) && !ProbeDue(cfg, s)
    ensures s.limit >= 1
  {
    AlwaysProbes(cfg, s);
    SignOfProduct(cfg.probeFactor, s.jitter);
    SignOfProduct(cfg.probeFactor * s.jitter, -(s.limit as real));
  }

  lemma SignOfProduct(x: real, y: real)
    ensures x >= 0.0 && y >= 0.0 ==> x * y >= 0.0
  {
  }

  function CeilDiv(a: int, b: int): (q: int)
    requires b > 0
    ensures (q - 1) * b < a <= q * b
  {
    -((-a) / b)
  }

  /** ceil(limit * (1 - lowest / rtt)) */
  function QueueSize(limit: int, lowest: int, rtt: int): (q: int)
    requires rtt > 0
    ensures (q - 1) * rtt < limit * (rtt - lowest) <= q * rtt
  {
    CeilDiv(limit * (rtt - lowest), rtt)
  }

  function Clamp(cfg: Config, limit: int): int {
    var atLeastOne := if limit < 1 then 1 else limit;
    if atLeastOne > cfg.maxLimit then cfg.maxLimit else atLeastOne
  }

  /** The limit after a reacting sample. */
  function Step(cfg: Config, lowest: int, rtt: int, limit: int): int
    requires rtt > 0 && limit >= 1
  {
    var q, g := QueueSize(limit, lowest, rtt), Log10Plus1(limit);
    if q <= g then Clamp(cfg, limit + cfg.betaFactor * g)
    else if q < cfg.alphaFactor * g then Clamp(cfg, limit + g)
    else if q > cfg.betaFactor * g then Clamp(cfg, limit - g)
    else limit
  }

  function Update(cfg: Config, s: State, e: Sample): State
    requires Usable(cfg, s)
  {
    if e.rtt <= 0 then s
    else if ProbeDue(cfg, s) then s.(jitter := e.jitter, probeCount := 0, lowest := e.rtt)
    else
      var counted := s.(probeCount := s.probeCount + 1);
      if e.rtt < s.lowest then counted.(lowest := e.rtt)
      else if 2 * e.requests < s.limit then counted
      else
        NoProbeNoZero(cfg, s);
        counted.(limit := Step(cfg, s.lowest, e.rtt, s.limit))
  }

  lemma StaysUsable(cfg: Config, s: State, e: Sample)
    requires Usable(cfg, s) && e.jitter > 0.0
    ensures Usable(cfg, Update(cfg, s, e))
  {
    if !ProbeDue(cfg, s) {
      AlwaysProbes(cfg, s);
    }
  }

  /** A probe factor below zero makes every positive sample a probe. */
  lemma AlwaysProbes(cfg: Config, s: State)
    requires Usable(cfg, s)
    ensures cfg.probeFactor < 0.0 ==> ProbeDue(cfg, s)
  {
    if cfg.probeFactor < 0.0 {
      SignOfProduct(-cfg.probeFactor, s.jitter);
      SignOfProduct(-(cfg.probeFactor * s.jitter), s.limit as real);
    }
  }

  const MAX_INT64 := 0x7FFF_FFFF_FFFF_FFFF

  class OverloadDetector {
    const cfg: Config
    const log10Plus1Table: array<int>
    var currentRequests: int
    var currentLimit: int
    var lowestRequestTime: int
    var probeCount: nat
    var probeJitter: real

    ghost function View(): State
      reads this
    {
      State(currentLimit, lowestRequestTime, probeCount, probeJitter)
    }

    ghost predicate Valid()
      reads this, log10Plus1Table
    {
      && Usable(cfg, View())
      && log10Plus1Table.Length == 1000
      && forall i :: 0 <= i < 1000 ==> log10Plus1Table[i] == Log10Plus1(i)
    }

    constructor (config: Config, initialLimit: int, jitter: real)
      requires (config.probeFactor >= 0.0 || initialLimit >= 0) && 0.5 <= jitter < 1.0
      ensures Valid() && cfg == config
      ensures View() == State(initialLimit, 0x7FFF_FFFF_FFFF_FFFF, 0, jitter) && currentRequests == 0
    {
      cfg := config;
      currentRequests, currentLimit := 0, initialLimit;
      lowestRequestTime, probeCount, probeJitter := MAX_INT64, 0, jitter;
      var table := FillPlus1();
      log10Plus1Table := table;
    }

    method IsOverloaded() returns (overloaded: bool)
      ensures overloaded <==> currentRequests >= currentLimit
    {
      overloaded := currentRequests >= currentLimit;
    }

    method RequestBegin()
      modifies `currentRequests
      ensures currentRequests == old(currentRequests) + 1
    {
      currentRequests := currentRequests + 1;
    }

    /** rtt is a duration in nanoseconds, converted to whole microseconds towards zero. */
    method RequestEnd(rtt: int, jitter: real)
      requires Valid() && 0.5 <= jitter < 1.0
      modifies this
      ensures Valid() && currentRequests == old(currentRequests) - 1
      ensures View() == Update(cfg, old(View()), Sample(Microseconds(rtt), old(currentRequests), jitter))
    {
      currentRequests := currentRequests - 1;
      Apply(Microseconds(rtt), currentRequests + 1, jitter);
    }

    static function Microseconds(rtt: int): (us: int)
      ensures rtt >= 0 ==> 0 <= us && us * 1000 <= rtt < us * 1000 + 1000
      ensures rtt <= 0 ==> us <= 0 && us * 1000 - 1000 < rtt <= us * 1000
    {
      if rtt >= 0 then rtt / 1000 else -((-rtt) / 1000)
    }

    method Apply(requestTime: int, requests: int, jitter: real)
      requires Valid() && 0.5 <= jitter < 1.0
      modifies `currentLimit, `lowestRequestTime, `probeCount, `probeJitter
      ensures Valid()
      ensures View() == Update(cfg, old(View()), Sample(requestTime, requests, jitter))
    {
      StaysUsable(cfg, View(), Sample(requestTime, requests, jitter));
      if requestTime <= 0 {
        return;
      }
      var limit := currentLimit;
      probeCount := probeCount + 1;
      if cfg.probeFactor * probeJitter * limit as real <= probeCount as real {
        probeJitter := jitter;
        probeCount := 0;
        lowestRequestTime := requestTime;
        return;
      }
      if requestTime < lowestRequestTime {
        lowestRequestTime := requestTime;
        return;
      }
      if 2 * requests < limit {
        return;
      }
      NoProbeNoZero(cfg, old(View()));
      var queueSize := QueueSize(limit, lowestRequestTime, requestTime);
      var limitLog10Plus1 := LookupPlus1(log10Plus1Table, limit);
      var alpha := cfg.alphaFactor * limitLog10Plus1;
      var beta := cfg.betaFactor * limitLog10Plus1;
      var newLimit;
      if queueSize <= limitLog10Plus1 {
        newLimit := limit + beta;
      } else if queueSize < alpha {
        newLimit := limit + limitLog10Plus1;
      } else if queueSize > beta {
        newLimit := limit - limitLog10Plus1;
      } else {
        return;
      }
      if newLimit < 1 {
        newLimit := 1;
      }
      if newLimit > cfg.maxLimit {
        newLimit := cfg.maxLimit;
      }
      currentLimit := newLimit;
    }
  }

  // ---------------------------------------------------------------------------------
  // Whole runs

  /** The jitter is drawn from [0.5, 1); that it is positive is all that matters. */
  predicate Drawn(samples: seq<Sample>) {
    forall i :: 0 <= i < |samples| ==> samples[i].jitter > 0.0
  }

  function Run(cfg: Config, s: State, samples: seq<Sample>): State
    requires Usable(cfg, s) && Drawn(samples)
    decreases |samples|
  {
    if samples == [] then s
    else
      StaysUsable(cfg, s, samples[0]);
      Run(cfg, Update(cfg, s, samples[0]), samples[1..])
  }

  lemma {:induction false} LimitStaysInRange(cfg: Config, s: State, samples: seq<Sample>)
    requires Usable(cfg, s) && Drawn(samples)
    requires 1 <= s.limit <= cfg.maxLimit && s.lowest > 0
    ensures 1 <= Run(cfg, s, samples).limit <= cfg.maxLimit && Run(cfg, s, samples).lowest > 0
    decreases |samples|
  {
    if samples == [] {
    } else {
      StaysUsable(cfg, s, samples[0]);
      LimitStaysInRange(cfg, Update(cfg, s, samples[0]), samples[1..]);
    }
  }

  /** What the baseline is taken over: what it was taken over before and the positive times since,
      or those from the newest probe on, the probing one included. */
  function SinceProbe(cfg: Config, s: State, samples: seq<Sample>, before: seq<int>): seq<int>
    requires Usable(cfg, s) && Drawn(samples)
    decreases |samples|
  {
    if samples == [] then before
    else
      StaysUsable(cfg, s, samples[0]);
      var e := samples[0];
      SinceProbe(cfg, Update(cfg, s, e), samples[1..],
                 if e.rtt <= 0 then before else if ProbeDue(cfg, s) then [e.rtt] else before + [e.rtt])
  }

  /** The baseline is exactly the minimum of those; a new detector's stands for no time at all. */
  lemma {:induction false} BaselineIsMinimum(cfg: Config, s: State, samples: seq<Sample>, before: seq<int>)
    requires Usable(cfg, s) && Drawn(samples) && IsMinimum(s.lowest, before)
    ensures IsMinimum(Run(cfg, s, samples).lowest, SinceProbe(cfg, s, samples, before))
    decreases |samples|
  {
    if samples == [] {
    } else {
      var e := samples[0];
      StaysUsable(cfg, s, e);
      MinimumExtends(s.lowest, before, e.rtt);
      BaselineIsMinimum(cfg, Update(cfg, s, e), samples[1..],
                        if e.rtt <= 0 then before else if ProbeDue(cfg, s) then [e.rtt] else before + [e.rtt]);
    }
  }

  /** How many positive samples pass before the first that probes; all of them if none does. */
  function UntilProbe(cfg: Config, s: State, samples: seq<Sample>): nat
    requires Usable(cfg, s) && Drawn(samples)
    decreases |samples|
  {
    if samples == [] || (samples[0].rtt > 0 && ProbeDue(cfg, s)) then 0
    else
      StaysUsable(cfg, s, samples[0]);
      (if samples[0].rtt > 0 then 1 else 0) + UntilProbe(cfg, Update(cfg, s, samples[0]), samples[1..])
  }

  lemma ThresholdBelow(cfg: Config, s: State, n: nat)
    requires cfg.probeFactor >= 0.0 && 0.0 < s.jitter <= 1.0 && 1 <= s.limit <= cfg.maxLimit
    requires cfg.probeFactor * cfg.maxLimit as real <= n as real
    ensures ProbeThreshold(cfg, s) <= n as real
  {
    var f, j, l, max := cfg.probeFactor, s.jitter, s.limit as real, cfg.maxLimit as real;
    Scale(j, 1.0, f);
    assert f * j <= f;
    Scale(f * j, f, l);
    Scale(l, max, f);
  }

  /** A sample that does not probe is counted, and the count stays below n. */
  lemma CountsUp(cfg: Config, s: State, e: Sample, n: nat)
    requires cfg.probeFactor >= 0.0 && 0.0 < s.jitter <= 1.0 && 1 <= s.limit <= cfg.maxLimit && s.lowest > 0
    requires cfg.probeFactor * cfg.maxLimit as real <= n as real
    requires e.rtt <= 0 || !ProbeDue(cfg, s)
    ensures var t := Update(cfg, s, e);
            && t.jitter == s.jitter && 1 <= t.limit <= cfg.maxLimit && t.lowest > 0
            && t.probeCount == s.probeCount + (if e.rtt > 0 then 1 else 0)
            && (e.rtt > 0 ==> t.probeCount < n)
  {
    ThresholdBelow(cfg, s, n);
  }

  /** Fewer than probeFactor * maxLimit positive samples pass without a probe, counting from the
      last one. */
  lemma {:induction false} ProbesOftenEnough(cfg: Config, s: State, samples: seq<Sample>, n: nat)
    requires cfg.probeFactor >= 0.0 && 0.0 < s.jitter <= 1.0 && 1 <= s.limit <= cfg.maxLimit && s.lowest > 0
    requires forall i :: 0 <= i < |samples| ==> 0.0 < samples[i].jitter <= 1.0
    requires n >= 1 && cfg.probeFactor * cfg.maxLimit as real <= n as real
    ensures UntilProbe(cfg, s, samples) < n
    ensures s.probeCount < n ==> s.probeCount + UntilProbe(cfg, s, samples) < n
    decreases |samples|
  {
    if samples == [] || (samples[0].rtt > 0 && ProbeDue(cfg, s)) {
    } else {
      StaysUsable(cfg, s, samples[0]);
      CountsUp(cfg, s, samples[0], n);
      ProbesOftenEnough(cfg, Update(cfg, s, samples[0]), samples[1..], n);
    }
  }

  // ---------------------------------------------------------------------------------
  // Convergence

  /** The factors for which the rule settles: the shrinking threshold lies at least one step
      above the growing one. */
  predicate Spread(cfg: Config) {
    cfg.alphaFactor >= 1 && cfg.betaFactor >= cfg.alphaFactor + 1
  }

  predicate Steady(cfg: Config, lowest: int, rtt: int, limit: int) {
    Spread(cfg) && 0 < lowest <= rtt && 1 <= limit <= cfg.maxLimit
  }

  /** The bounds that define the ceiling decide comparisons of the quotients. */
  lemma CeilingOrder(a: int, p: int, b: int, q: int, c: int, d: int)
    requires c > 0 && (p - 1) * c < a && b <= q * c && a <= b + d * c
    ensures p <= q + d
  {
    assert (q + d) * c == q * c + d * c;
    MulLess(p - 1, q + d, c);
  }

  /** A larger limit has a larger estimated queue, but by no more than the difference. */
  lemma QueueGrowsSlowly(small: int, large: int, lowest: int, rtt: int)
    requires 0 < lowest <= rtt && 0 <= small <= large
    ensures QueueSize(small, lowest, rtt) <= QueueSize(large, lowest, rtt)
    ensures QueueSize(large, lowest, rtt) <= QueueSize(small, lowest, rtt) + (large - small)
  {
    var p, q := QueueSize(small, lowest, rtt), QueueSize(large, lowest, rtt);
    var a, b, d := small * (rtt - lowest), large * (rtt - lowest), large - small;
    ShareOfDifference(small, large, rtt - lowest, rtt);
    CeilingOrder(a, p, b, q, rtt, 0);
    CeilingOrder(b, q, a, p, rtt, d);
  }

  lemma ShareOfDifference(small: int, large: int, slack: int, whole: int)
    requires small <= large && 0 <= slack < whole
    ensures small * slack <= large * slack <= small * slack + (large - small) * whole
  {
    assert large * slack == small * slack + (large - small) * slack;
    assert 0 <= (large - small) * slack <= (large - small) * whole;
  }

  lemma FactorGap(cfg: Config, g: int, smaller: int)
    requires Spread(cfg) && 0 <= smaller <= g
    ensures g <= cfg.alphaFactor * g && cfg.alphaFactor * g + g <= cfg.betaFactor * g
    ensures cfg.alphaFactor * smaller <= cfg.alphaFactor * g && cfg.betaFactor * smaller <= cfg.betaFactor * g
  {
    if g > 0 {
      MulLe(1, cfg.alphaFactor, g);
      MulLe(cfg.alphaFactor + 1, cfg.betaFactor, g);
      MulLe(smaller, g, cfg.alphaFactor);
      MulLe(smaller, g, cfg.betaFactor);
      assert (cfg.alphaFactor + 1) * g == cfg.alphaFactor * g + g;
    }
  }

  predicate FastGrow(lowest: int, rtt: int, limit: int)
    requires rtt > 0 && limit >= 1
  {
    QueueSize(limit, lowest, rtt) <= Log10Plus1(limit)
  }

  predicate SlowGrow(cfg: Config, lowest: int, rtt: int, limit: int)
    requires rtt > 0 && limit >= 1
  {
    Log10Plus1(limit) < QueueSize(limit, lowest, rtt) < cfg.alphaFactor * Log10Plus1(limit)
  }

  predicate Shrink(cfg: Config, lowest: int, rtt: int, limit: int)
    requires rtt > 0 && limit >= 1
  {
    QueueSize(limit, lowest, rtt) > cfg.betaFactor * Log10Plus1(limit)
  }

  /** What each band does to the limit. Shrinking never has to be clamped. */
  lemma StepByBand(cfg: Config, lowest: int, rtt: int, limit: int)
    requires Steady(cfg, lowest, rtt, limit)
    ensures var g, next := Log10Plus1(limit), Step(cfg, lowest, rtt, limit);
            && 1 <= next <= cfg.maxLimit
            && (FastGrow(lowest, rtt, limit) ==> limit <= next && (limit < cfg.maxLimit ==> limit < next))
            && (SlowGrow(cfg, lowest, rtt, limit) ==>
                limit <= next <= limit + g && (limit < cfg.maxLimit ==> limit < next))
            && (Shrink(cfg, lowest, rtt, limit) ==> next == limit - g >= 1)
            && (!FastGrow(lowest, rtt, limit) && !SlowGrow(cfg, lowest, rtt, limit)
                && !Shrink(cfg, lowest, rtt, limit) ==>
                next == limit)
            && !(Shrink(cfg, lowest, rtt, limit) && (FastGrow(lowest, rtt, limit) || SlowGrow(cfg, lowest, rtt, limit)))
  {
    var g := Log10Plus1(limit);
    FactorGap(cfg, g, 0);
    QueueAtMostLimit(limit, lowest, rtt);
  }

  lemma QueueAtMostLimit(limit: int, lowest: int, rtt: int)
    requires 0 < lowest <= rtt && limit >= 0
    ensures QueueSize(limit, lowest, rtt) <= limit
  {
    assert QueueSize(0, lowest, rtt) == 0;
    QueueGrowsSlowly(0, limit, lowest, rtt);
  }

  /** After a shrink the estimated queue is still above the growing threshold. */
  lemma ShrinkThenNoGrow(cfg: Config, lowest: int, rtt: int, limit: int)
    requires Steady(cfg, lowest, rtt, limit) && Shrink(cfg, lowest, rtt, limit)
    ensures Step(cfg, lowest, rtt, limit) < limit
    ensures var next := Step(cfg, lowest, rtt, limit);
            !FastGrow(lowest, rtt, next) && !SlowGrow(cfg, lowest, rtt, next) && Step(cfg, lowest, rtt, next) <= next
  {
    StepByBand(cfg, lowest, rtt, limit);
    var next, g := Step(cfg, lowest, rtt, limit), Log10Plus1(limit);
    QueueGrowsSlowly(next, limit, lowest, rtt);
    Log10Plus1Bounds(next, limit);
    FactorGap(cfg, g, Log10Plus1(next));
    StepByBand(cfg, lowest, rtt, next);
  }

  /** After a slow growth the estimated queue is still below the shrinking threshold. */
  lemma SlowGrowThenNoShrink(cfg: Config, lowest: int, rtt: int, limit: int)
    requires Steady(cfg, lowest, rtt, limit) && SlowGrow(cfg, lowest, rtt, limit)
    ensures var next := Step(cfg, lowest, rtt, limit);
            limit <= next && !Shrink(cfg, lowest, rtt, next) && Step(cfg, lowest, rtt, next) >= next
  {
    StepByBand(cfg, lowest, rtt, limit);
    var next, g := Step(cfg, lowest, rtt, limit), Log10Plus1(limit);
    QueueGrowsSlowly(limit, next, lowest, rtt);
    Log10Plus1Bounds(limit, next);
    FactorGap(cfg, Log10Plus1(next), g);
    FactorGap(cfg, g, g);
    StepByBand(cfg, lowest, rtt, next);
  }

  /** The limits the rule leaves alone, exactly: the band between the thresholds, and the
      maximum when the rule would grow beyond it. */
  lemma SettledExactlyWhen(cfg: Config, lowest: int, rtt: int, limit: int)
    requires Steady(cfg, lowest, rtt, limit)
    ensures Step(cfg, lowest, rtt, limit) == limit <==>
              var q, g := QueueSize(limit, lowest, rtt), Log10Plus1(limit);
              || (q > g && cfg.alphaFactor * g <= q <= cfg.betaFactor * g)
              || (limit == cfg.maxLimit && (q <= g || q < cfg.alphaFactor * g))
  {
    StepByBand(cfg, lowest, rtt, limit);
    FactorGap(cfg, Log10Plus1(limit), 0);
  }

  /** How many more samples can change the limit: a climb of at most to the maximum followed by
      a descent that never turns. */
  function Rank(cfg: Config, lowest: int, rtt: int, limit: int): int
    requires rtt > 0 && limit >= 1
  {
    var next := Step(cfg, lowest, rtt, limit);
    if next == limit then 0 else if next < limit then limit else 2 * cfg.maxLimit - limit
  }

  lemma RankFalls(cfg: Config, lowest: int, rtt: int, limit: int)
    requires Steady(cfg, lowest, rtt, limit)
    ensures 0 <= Rank(cfg, lowest, rtt, limit) <= 2 * cfg.maxLimit
    ensures var next := Step(cfg, lowest, rtt, limit);
            1 <= next <= cfg.maxLimit
                && (next != limit ==> Rank(cfg, lowest, rtt, next) < Rank(cfg, lowest, rtt, limit))
  {
    StepByBand(cfg, lowest, rtt, limit);
    if Shrink(cfg, lowest, rtt, limit) {
      ShrinkThenNoGrow(cfg, lowest, rtt, limit);
    }
  }

  /** A sample the limit reacts to: the constant response time, no probe, enough load. */
  predicate Reacts(cfg: Config, s: State, rtt: int, e: Sample) {
    Usable(cfg, s) && e.rtt == rtt && 2 * e.requests >= s.limit && !ProbeDue(cfg, s)
  }

  predicate Steadily(cfg: Config, s: State, rtt: int, samples: seq<Sample>)
    decreases |samples|
  {
    samples == [] || (Reacts(cfg, s, rtt, samples[0]) && Steadily(cfg, Update(cfg, s, samples[0]), rtt, samples[1..]))
  }

  lemma SampleIsStep(cfg: Config, s: State, rtt: int, e: Sample)
    requires Steady(cfg, s.lowest, rtt, s.limit) && Reacts(cfg, s, rtt, e)
    ensures var t := Update(cfg, s, e); t.limit == Step(cfg, s.lowest, rtt, s.limit) && t.lowest == s.lowest
  {
  }

  /** Once a sample leaves the limit alone, so do all the following. */
  lemma {:induction false} SettledForGood(cfg: Config, s: State, rtt: int, samples: seq<Sample>)
    requires Steady(cfg, s.lowest, rtt, s.limit) && Step(cfg, s.lowest, rtt, s.limit) == s.limit
    requires Usable(cfg, s) && Drawn(samples) && Steadily(cfg, s, rtt, samples)
    ensures Run(cfg, s, samples).limit == s.limit
    decreases |samples|
  {
    if samples == [] {
    } else {
      SampleIsStep(cfg, s, rtt, samples[0]);
      SettledForGood(cfg, Update(cfg, s, samples[0]), rtt, samples[1..]);
    }
  }

  lemma {:induction false} ConvergesWithinRank(cfg: Config, s: State, rtt: int, samples: seq<Sample>)
    requires Steady(cfg, s.lowest, rtt, s.limit)
    requires Usable(cfg, s) && Drawn(samples) && Steadily(cfg, s, rtt, samples)
    requires |samples| >= Rank(cfg, s.lowest, rtt, s.limit)
    ensures var t := Run(cfg, s, samples);
            Usable(cfg, t) && t.lowest == s.lowest && 1 <= t.limit <= cfg.maxLimit
                && Step(cfg, s.lowest, rtt, t.limit) == t.limit
    decreases |samples|
  {
    RankFalls(cfg, s.lowest, rtt, s.limit);
    if samples == [] {
    } else {
      var t := Update(cfg, s, samples[0]);
      SampleIsStep(cfg, s, rtt, samples[0]);
      ConvergesWithinRank(cfg, t, rtt, samples[1..]);
    }
  }

  /** Convergence: after 2 * maxLimit reacting samples with one response time the limit no
      longer changes, and has settled in the band between the thresholds or at the maximum. */
  lemma Converges(cfg: Config, s: State, rtt: int, samples: seq<Sample>)
    requires Spread(cfg) && 0 < s.lowest <= rtt && 1 <= s.limit <= cfg.maxLimit
    requires Usable(cfg, s) && Drawn(samples) && Steadily(cfg, s, rtt, samples) && |samples| >= 2 * cfg.maxLimit
    ensures var t := Run(cfg, s, samples);
            && Usable(cfg, t) && t.limit >= 1
            && (var q, g := QueueSize(t.limit, s.lowest, rtt), Log10Plus1(t.limit);
                || (q > g && cfg.alphaFactor * g <= q <= cfg.betaFactor * g)
                || (t.limit == cfg.maxLimit && (q <= g || q < cfg.alphaFactor * g)))
            && forall more :: Drawn(more) && Steadily(cfg, t, rtt, more) ==> Run(cfg, t, more).limit == t.limit
  {
    RankFalls(cfg, s.lowest, rtt, s.limit);
    ConvergesWithinRank(cfg, s, rtt, samples);
    var t := Run(cfg, s, samples);
    SettledExactlyWhen(cfg, s.lowest, rtt, t.limit);
    forall more | Drawn(more) && Steadily(cfg, t, rtt, more) ensures Run(cfg, t, more).limit == t.limit {
      SettledForGood(cfg, t, rtt, more);
    }
  }
}
