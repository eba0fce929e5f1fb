/** The Vegas limit of concurrencylimits/vegas.go, with floating point exact. */
module Vegas {
  import opened Integers
  import opened Logarithm
  import opened Reals

  datatype Config = Config(maxLimit: int, smoothing: real, probeMultiplier: int)

  /** noLoad == 0 means that no baseline has been taken. */
  datatype State = State(limit: real, noLoad: int, probeCount: nat, jitter: real)

  /** jitter is what would be drawn should this sample cause a probe. */
  datatype Sample = Sample(rtt: int, inflight: int, didDrop: bool, jitter: real)

  function Alpha(limit: int): int { 3 * Log10Root(limit) }

  function Beta(limit: int): int { 6 * Log10Root(limit) }

  function Increase(limit: real): real { limit + Log10Root(Trunc(limit)) as real }

  function Decrease(limit: real): real { limit - Log10Root(Trunc(limit)) as real }

  function QueueSize(limit: real, noLoad: int, rtt: int): int
    requires rtt > 0
  {
    Ceil(limit * (1.0 - noLoad as real / rtt as real))
  }

  /** The number of samples after which a probe is due. */
  function ProbeThreshold(cfg: Config, s: State): real { s.jitter * cfg.probeMultiplier as real * s.limit }

  predicate ProbeDue(cfg: Config, s: State) {
    ProbeThreshold(cfg, s) <= (s.probeCount + 1) as real
  }

  function Settle(cfg: Config, limit: real, newLimit: real): real {
    Mixture(limit, Max(1.0, Min(cfg.maxLimit as real, newLimit)), cfg.smoothing)
  }

  function UpdateLimit(cfg: Config, limit: real, noLoad: int, e: Sample): real
    requires e.rtt > 0
  {
    var q, l := QueueSize(limit, noLoad, e.rtt), Trunc(limit);
    if e.didDrop then Settle(cfg, limit, Decrease(limit))
    else if e.inflight as real * 2.0 < limit then limit
    else if q <= Log10Root(l) then Settle(cfg, limit, limit + Beta(l) as real)
    else if q < Alpha(l) then Settle(cfg, limit, Increase(limit))
    else if q > Beta(l) then Settle(cfg, limit, Decrease(limit))
    else limit
  }

  function OnSample(cfg: Config, s: State, e: Sample): State {
    if e.rtt <= 0 then s
    else if ProbeDue(cfg, s) then s.(jitter := e.jitter, probeCount := 0, noLoad := e.rtt)
    else
      var counted := s.(probeCount := s.probeCount + 1);
      if s.noLoad == 0 || e.rtt < s.noLoad then counted.(noLoad := e.rtt)
      else counted.(limit := UpdateLimit(cfg, s.limit, s.noLoad, e))
  }

  class VegasLimit {
    const cfg: Config
    var estimatedLimit: real
    var rttNoLoad: int
    var probeCount: nat
    var probeJitter: real

    ghost function View(): State
      reads this
    {
      State(estimatedLimit, rttNoLoad, probeCount, probeJitter)
    }

    constructor (config: Config, initialLimit: int, jitter: real)
      ensures cfg == config && View() == State(initialLimit as real, 0, 0, jitter)
    {
      cfg := config;
      estimatedLimit, rttNoLoad, probeCount, probeJitter := initialLimit as real, 0, 0, jitter;
    }

    method Observe(e: Sample)
      modifies this
      ensures View() == OnSample(cfg, old(View()), e)
    {
      if e.rtt <= 0 {
        return;
      }
      probeCount := probeCount + 1;
      var due := ShouldProbe();
      if due {
        probeJitter := e.jitter;
        probeCount := 0;
        rttNoLoad := e.rtt;
        return;
      }
      if rttNoLoad == 0 || e.rtt < rttNoLoad {
        rttNoLoad := e.rtt;
        return;
      }
      UpdateEstimatedLimit(e);
    }

    /** Asked when the present sample has been counted. */
    method ShouldProbe() returns (due: bool)
      requires probeCount > 0
      ensures due == ProbeDue(cfg, View().(probeCount := probeCount - 1))
    {
      due := probeJitter * cfg.probeMultiplier as real * estimatedLimit <= probeCount as real;
    }

    method UpdateEstimatedLimit(e: Sample)
      requires e.rtt > 0
      modifies `estimatedLimit
      ensures estimatedLimit == UpdateLimit(cfg, old(estimatedLimit), rttNoLoad, e)
    {
      var limit := estimatedLimit;
      var queueSize := QueueSize(limit, rttNoLoad, e.rtt);
      var newLimit;
      if e.didDrop {
        newLimit := Decrease(limit);
      } else if e.inflight as real * 2.0 < limit {
        return;
      } else {
        var alpha, beta, threshold := Alpha(Trunc(limit)), Beta(Trunc(limit)), Log10Root(Trunc(limit));
        if queueSize <= threshold {
          newLimit := limit + beta as real;
        } else if queueSize < alpha {
          newLimit := Increase(limit);
        } else if queueSize > beta {
          newLimit := Decrease(limit);
        } else {
          return;
        }
      }
      estimatedLimit := Settle(cfg, limit, newLimit);
    }
  }

  // ---------------------------------------------------------------------------------
  // Whole runs

  function Run(cfg: Config, s: State, samples: seq<Sample>): State {
    if samples == [] then s else OnSample(cfg, Run(cfg, s, samples[..|samples| - 1]), samples[|samples| - 1])
  }

  predicate InRange(cfg: Config, limit: real) {
    1.0 <= limit <= cfg.maxLimit as real
  }

  predicate Smooth(cfg: Config) {
    0.0 < cfg.smoothing <= 1.0 && cfg.maxLimit >= 1
  }

  lemma SettleInRange(cfg: Config, limit: real, newLimit: real)
    requires Smooth(cfg) && InRange(cfg, limit)
    ensures InRange(cfg, Settle(cfg, limit, newLimit))
    ensures newLimit <= limit ==> Settle(cfg, limit, newLimit) <= limit
  {
    var target := Max(1.0, Min(cfg.maxLimit as real, newLimit));
    var top := if newLimit <= limit then limit else cfg.maxLimit as real;
    MixtureBetween(limit, target, cfg.smoothing, 1.0, top);
  }

  lemma UpdateInRange(cfg: Config, limit: real, noLoad: int, e: Sample)
    requires Smooth(cfg) && InRange(cfg, limit) && e.rtt > 0
    ensures InRange(cfg, UpdateLimit(cfg, limit, noLoad, e))
    ensures e.didDrop ==> UpdateLimit(cfg, limit, noLoad, e) <= limit
  {
    var l := Trunc(limit);
    SettleInRange(cfg, limit, Decrease(limit));
    SettleInRange(cfg, limit, limit + Beta(l) as real);
    SettleInRange(cfg, limit, Increase(limit));
  }

  /** The limit stays in [1, maxLimit] whatever the samples, jitters and smoothing. */
  lemma {:induction false} LimitStaysInRange(cfg: Config, s: State, samples: seq<Sample>)
    requires Smooth(cfg) && InRange(cfg, s.limit)
    ensures InRange(cfg, Run(cfg, s, samples).limit)
  {
    if samples == [] {
    } else {
      var n := |samples| - 1;
      LimitStaysInRange(cfg, s, samples[..n]);
      var t := Run(cfg, s, samples[..n]);
      if samples[n].rtt > 0 {
        UpdateInRange(cfg, t.limit, t.noLoad, samples[n]);
      }
    }
  }

  /** A dropped sample never raises the limit. */
  lemma DropNeverRaises(cfg: Config, s: State, e: Sample)
    requires Smooth(cfg) && InRange(cfg, s.limit) && e.didDrop
    ensures OnSample(cfg, s, e).limit <= s.limit
  {
    if e.rtt > 0 {
      UpdateInRange(cfg, s.limit, s.noLoad, e);
    }
  }

  /** What a dropped sample costs when it neither probes nor lowers the baseline: the logarithm of
      the limit, smoothed and stopped at one. It is a difference, not a factor. */
  lemma DropDecrease(cfg: Config, s: State, e: Sample)
    requires Smooth(cfg) && InRange(cfg, s.limit) && e.didDrop
    requires e.rtt > 0 && !ProbeDue(cfg, s) && s.noLoad != 0 && e.rtt >= s.noLoad
    ensures OnSample(cfg, s, e).limit
         == s.limit - cfg.smoothing * Min(Log10Root(Trunc(s.limit)) as real, s.limit - 1.0)
  {
    var step := Min(Log10Root(Trunc(s.limit)) as real, s.limit - 1.0);
    MixtureBelow(s.limit, step, cfg.smoothing);
  }

  lemma SettleMoves(cfg: Config, limit: real, newLimit: real)
    requires Smooth(cfg) && InRange(cfg, limit)
    ensures newLimit > limit ==> limit <= Settle(cfg, limit, newLimit)
    ensures newLimit > limit && limit < cfg.maxLimit as real ==> limit < Settle(cfg, limit, newLimit)
    ensures newLimit < limit ==> Settle(cfg, limit, newLimit) <= limit
    ensures newLimit < limit && 1.0 < limit ==> Settle(cfg, limit, newLimit) < limit
  {
    var target := Max(1.0, Min(cfg.maxLimit as real, newLimit));
    if target > limit {
      MixtureRises(limit, target, cfg.smoothing);
    } else if target < limit {
      MixtureFalls(limit, target, cfg.smoothing);
    } else {
      MixtureOfEquals(limit, cfg.smoothing);
    }
  }

  /** A loaded sample grows the limit while the estimated queue is below alpha, shrinks it above
      beta and leaves it alone in between, up to the ends of the range and however smoothed. */
  lemma DirectionByBand(cfg: Config, limit: real, noLoad: int, e: Sample)
    requires Smooth(cfg) && InRange(cfg, limit) && e.rtt > 0 && !e.didDrop && e.inflight as real * 2.0 >= limit
    ensures var q, l, next := QueueSize(limit, noLoad, e.rtt), Trunc(limit), UpdateLimit(cfg, limit, noLoad, e);
            && (q < Alpha(l) ==> limit <= next && (limit < cfg.maxLimit as real ==> limit < next))
            && (Alpha(l) <= q <= Beta(l) ==> next == limit)
            && (q > Beta(l) ==> next <= limit && (1.0 < limit ==> next < limit))
  {
    var l := Trunc(limit);
    SettleMoves(cfg, limit, limit + Beta(l) as real);
    SettleMoves(cfg, limit, Increase(limit));
    SettleMoves(cfg, limit, Decrease(limit));
  }

  // ---------------------------------------------------------------------------------
  // The baseline

  /** The response times a baseline is taken over: the positive ones from the newest probe on,
      the probing one included, or from the start when there has been no probe. */
  function SinceProbe(cfg: Config, s: State, samples: seq<Sample>): seq<int> {
    if samples == [] then []
    else
      var front, e := samples[..|samples| - 1], samples[|samples| - 1];
      if e.rtt <= 0 then SinceProbe(cfg, s, front)
      else if ProbeDue(cfg, Run(cfg, s, front)) then [e.rtt]
      else SinceProbe(cfg, s, front) + [e.rtt]
  }

  /** The baseline is exactly the minimum of those response times, and there is none only when
      there have been none. */
  lemma {:induction false} BaselineIsMinimum(cfg: Config, s: State, samples: seq<Sample>)
    requires s.noLoad == 0
    ensures var xs, m := SinceProbe(cfg, s, samples), Run(cfg, s, samples).noLoad;
            if xs == [] then m == 0 else m > 0 && IsMinimum(m, xs)
  {
    if samples == [] {
    } else {
      var n := |samples| - 1;
      BaselineIsMinimum(cfg, s, samples[..n]);
      if samples[n].rtt > 0 {
        MinimumExtends(Run(cfg, s, samples[..n]).noLoad, SinceProbe(cfg, s, samples[..n]), samples[n].rtt);
      }
    }
  }

  // ---------------------------------------------------------------------------------
  // The probes

  predicate Positive(samples: seq<Sample>) {
    forall i :: 0 <= i < |samples| ==> samples[i].rtt > 0
  }

  /** The jitter is drawn from [0.5, 1). */
  predicate Drawn(s: State, samples: seq<Sample>) {
    0.0 <= s.jitter <= 1.0 && forall i :: 0 <= i < |samples| ==> 0.0 <= samples[i].jitter <= 1.0
  }

  /** Whether sample k of the run causes a probe. */
  predicate ProbesAt(cfg: Config, s: State, samples: seq<Sample>, k: nat)
    requires k < |samples|
  {
    samples[k].rtt > 0 && ProbeDue(cfg, Run(cfg, s, samples[..k]))
  }

  lemma {:induction false} CountsWithoutProbe(cfg: Config, s: State, samples: seq<Sample>, n: nat)
    requires n <= |samples| && Positive(samples) && Drawn(s, samples)
    requires forall k :: 0 <= k < n ==> !ProbesAt(cfg, s, samples, k)
    ensures Run(cfg, s, samples[..n]).probeCount == s.probeCount + n
    ensures Run(cfg, s, samples[..n]).jitter == s.jitter
  {
    if n == 0 {
    } else {
      CountsWithoutProbe(cfg, s, samples, n - 1);
      assert samples[..n][..n - 1] == samples[..n - 1];
      assert !ProbesAt(cfg, s, samples, n - 1);
    }
  }

  lemma ThresholdBelow(jitter: real, multiplier: real, limit: real, max: real)
    requires 0.0 <= jitter <= 1.0 && multiplier >= 0.0 && 0.0 <= limit <= max
    ensures jitter * multiplier * limit <= multiplier * max
  {
    Scale(jitter, 1.0, multiplier);
    var jm := jitter * multiplier;
    assert jm <= multiplier;
    Scale(jm, multiplier, limit);
    Scale(limit, max, multiplier);
  }

  /** Any probeMultiplier * maxLimit consecutive positive samples contain a probe. */
  lemma ProbesOftenEnough(cfg: Config, s: State, samples: seq<Sample>) returns (k: nat)
    requires Smooth(cfg) && InRange(cfg, s.limit) && cfg.probeMultiplier >= 1
    requires Positive(samples) && Drawn(s, samples) && |samples| >= cfg.probeMultiplier * cfg.maxLimit
    ensures k < cfg.probeMultiplier * cfg.maxLimit && k < |samples| && ProbesAt(cfg, s, samples, k)
  {
    var n := cfg.probeMultiplier * cfg.maxLimit;
    assert n >= 1 by { WholeProduct(cfg.probeMultiplier, cfg.maxLimit); }
    if forall j :: 0 <= j < n - 1 ==> !ProbesAt(cfg, s, samples, j) {
      CountsWithoutProbe(cfg, s, samples, n - 1);
      LimitStaysInRange(cfg, s, samples[..n - 1]);
      DueByThen(cfg, Run(cfg, s, samples[..n - 1]), n);
      k := n - 1;
    } else {
      k :| 0 <= k < n - 1 && ProbesAt(cfg, s, samples, k);
    }
  }

  lemma DueByThen(cfg: Config, s: State, n: int)
    requires cfg.maxLimit >= 1 && InRange(cfg, s.limit) && cfg.probeMultiplier >= 1 && 0.0 <= s.jitter <= 1.0
    requires n == cfg.probeMultiplier * cfg.maxLimit && s.probeCount + 1 >= n
    ensures ProbeDue(cfg, s)
  {
    ThresholdBelow(s.jitter, cfg.probeMultiplier as real, s.limit, cfg.maxLimit as real);
    WholeProduct(cfg.probeMultiplier, cfg.maxLimit);
  }

  lemma WholeProduct(a: int, b: int)
    requires a >= 1 && b >= 1
    ensures a * b >= 1 && a as real * b as real == (a * b) as real
  {
  }
}
