/** The Gradient limit of concurrencylimits/gradient.go, with floating point exact. The square
    root in the headroom is any number whose square it is. */
module Gradient {
  import opened Reals

  datatype Config = Config(maxLimit: int, minLimit: int, smoothing: real, tolerance: real, backoff: real,
                           probeInterval: int)

  const DISABLED := -1

  /** noLoad == 0 means that no baseline has been taken. */
  datatype State = State(limit: real, noLoad: int, countdown: int)

  /** headroom is the square-root term at this sample, drawn the random part of the next probe
      countdown should this sample cause a probe. */
  datatype Sample = Sample(rtt: int, inflight: int, didDrop: bool, headroom: real, drawn: nat)

  /** q == max(4, sqrt(n)) */
  predicate IsHeadroom(q: real, n: int) {
    if n <= 16 then q == 4.0 else q >= 0.0 && q * q == n as real
  }

  predicate CanDraw(cfg: Config, drawn: nat) {
    cfg.probeInterval == DISABLED || drawn < cfg.probeInterval
  }

  function NextCountdown(cfg: Config, drawn: nat): (n: int)
    requires CanDraw(cfg, drawn)
    ensures cfg.probeInterval != DISABLED ==> cfg.probeInterval <= n <= 2 * cfg.probeInterval - 1
    ensures cfg.probeInterval == DISABLED ==> n == DISABLED
  {
    if cfg.probeInterval == DISABLED then DISABLED else cfg.probeInterval + drawn
  }

  predicate Probes(cfg: Config, s: State, e: Sample) {
    e.rtt > 0 && cfg.probeInterval != DISABLED && s.countdown - 1 <= 0
  }

  function Tolerated(cfg: Config, noLoad: int): real { cfg.tolerance * noLoad as real }

  function Ratio(cfg: Config, noLoad: int, rtt: int): (g: real)
    requires rtt > 0
    ensures 0.5 <= g <= 1.0
  {
    ClippedRatio(Tolerated(cfg, noLoad), rtt as real)
  }

  function Eased(cfg: Config, limit: real, newLimit: real): real {
    if newLimit < limit then Max(cfg.minLimit as real, Mixture(limit, newLimit, cfg.smoothing)) else newLimit
  }

  function Bounded(cfg: Config, q: real, newLimit: real): real {
    Max(q, Min(cfg.maxLimit as real, newLimit))
  }

  function BackedOff(cfg: Config, limit: real): real { limit * cfg.backoff }

  function Grown(limit: real, gradient: real, headroom: real): real { limit * gradient + headroom }

  function Reacted(cfg: Config, limit: real, q: real, newLimit: real): real {
    Bounded(cfg, q, Eased(cfg, limit, newLimit))
  }

  predicate Idle(limit: real, e: Sample) {
    (e.inflight as real) < limit / 2.0
  }

  /** The limit after a sample that does not probe. */
  function Adjusted(cfg: Config, limit: real, noLoad: int, e: Sample): real
    requires e.rtt > 0
  {
    if e.didDrop then Reacted(cfg, limit, e.headroom, BackedOff(cfg, limit))
    else if Idle(limit, e) then limit
    else Reacted(cfg, limit, e.headroom, Grown(limit, Ratio(cfg, noLoad, e.rtt), e.headroom))
  }

  function OnSample(cfg: Config, s: State, e: Sample): State
    requires CanDraw(cfg, e.drawn)
  {
    if e.rtt <= 0 then s
    else if Probes(cfg, s, e) then
      State(Max(cfg.minLimit as real, e.headroom), 0, NextCountdown(cfg, e.drawn))
    else
      var noLoad := if s.noLoad == 0 || e.rtt < s.noLoad then e.rtt else s.noLoad;
      var countdown := if cfg.probeInterval == DISABLED then s.countdown else s.countdown - 1;
      State(Adjusted(cfg, s.limit, noLoad, e), noLoad, countdown)
  }

  class GradientLimit {
    const cfg: Config
    const queueSizeFunc: int -> real
    var estimatedLimit: real
    var rttNoLoad: int
    var resetRttCounter: int

    ghost function View(): State
      reads this
    {
      State(estimatedLimit, rttNoLoad, resetRttCounter)
    }

    /** A sample with the headroom of the present limit. */
    ghost function Measured(rtt: int, inflight: int, didDrop: bool, drawn: nat): Sample
      reads this
    {
      Sample(rtt, inflight, didDrop, queueSizeFunc(Trunc(estimatedLimit)), drawn)
    }

    /** queueSize is the function max(4, sqrt(limit)) of the original. */
    constructor (config: Config, queueSize: int -> real, initialLimit: int, drawn: nat)
      requires CanDraw(config, drawn)
      ensures cfg == config && queueSizeFunc == queueSize
      ensures View() == State(initialLimit as real, 0, NextCountdown(config, drawn))
    {
      cfg, queueSizeFunc := config, queueSize;
      estimatedLimit, rttNoLoad := initialLimit as real, 0;
      resetRttCounter := NextCountdown(config, drawn);
    }

    method Observe(rtt: int, inflight: int, didDrop: bool, drawn: nat)
      requires CanDraw(cfg, drawn)
      modifies this
      ensures View() == OnSample(cfg, old(View()), old(Measured(rtt, inflight, didDrop, drawn)))
    {
      if rtt <= 0 {
        return;
      }
      var queueSize := queueSizeFunc(Trunc(estimatedLimit));
      if cfg.probeInterval != DISABLED {
        resetRttCounter := resetRttCounter - 1;
        if resetRttCounter <= 0 {
          resetRttCounter := NextCountdown(cfg, drawn);
          estimatedLimit := Max(cfg.minLimit as real, queueSize);
          rttNoLoad := 0;
          return;
        }
      }
      if rttNoLoad == 0 || rtt < rttNoLoad {
        rttNoLoad := rtt;
      }
      Adjust(rtt, inflight, didDrop);
    }

    method Adjust(rtt: int, inflight: int, didDrop: bool)
      requires rtt > 0
      modifies `estimatedLimit
      ensures estimatedLimit
           == Adjusted(cfg, old(estimatedLimit), rttNoLoad, old(Measured(rtt, inflight, didDrop, 0)))
    {
      var queueSize := queueSizeFunc(Trunc(estimatedLimit));
      var gradient := Ratio(cfg, rttNoLoad, rtt);
      var newLimit;
      if didDrop {
        newLimit := BackedOff(cfg, estimatedLimit);
      } else if inflight as real < estimatedLimit / 2.0 {
        return;
      } else {
        newLimit := Grown(estimatedLimit, gradient, queueSize);
      }
      newLimit := Eased(cfg, estimatedLimit, newLimit);
      estimatedLimit := Bounded(cfg, queueSize, newLimit);
    }
  }

  // ---------------------------------------------------------------------------------
  // The limit stays in range

  predicate Sensible(cfg: Config) {
    && 4 <= cfg.maxLimit && cfg.minLimit <= cfg.maxLimit
    && 0.0 <= cfg.smoothing <= 1.0 && 0.0 <= cfg.backoff <= 1.0
  }

  predicate InRange(cfg: Config, limit: real) {
    Max(4.0, cfg.minLimit as real) <= limit <= cfg.maxLimit as real
  }

  /** The headroom never exceeds a limit of at least four. */
  lemma HeadroomBelowLimit(q: real, limit: real)
    requires limit >= 4.0 && IsHeadroom(q, Trunc(limit))
    ensures 4.0 <= q <= limit
  {
    var n := Trunc(limit);
    assert n as real <= limit;
    if n > 16 {
      Scale(4.0, limit, limit);
      RootOrder(4.0, q);
      RootOrder(q, limit);
    }
  }

  lemma EasedInRange(cfg: Config, limit: real, newLimit: real)
    requires Sensible(cfg) && InRange(cfg, limit)
    ensures cfg.minLimit as real <= Eased(cfg, limit, newLimit)
    ensures newLimit <= limit ==> Eased(cfg, limit, newLimit) <= limit
  {
    if newLimit < limit {
      MixtureBetween(limit, newLimit, cfg.smoothing, newLimit, limit);
    }
  }

  lemma BackOffShrinks(cfg: Config, limit: real)
    requires Sensible(cfg) && limit >= 0.0
    ensures BackedOff(cfg, limit) <= limit
  {
    Shrink(limit, cfg.backoff);
  }

  lemma ReactedInRange(cfg: Config, limit: real, q: real, newLimit: real)
    requires Sensible(cfg) && InRange(cfg, limit) && 4.0 <= q <= limit
    ensures InRange(cfg, Reacted(cfg, limit, q, newLimit))
    ensures newLimit <= limit ==> Reacted(cfg, limit, q, newLimit) <= limit
  {
    EasedInRange(cfg, limit, newLimit);
    BoundedInRange(cfg, limit, q, Eased(cfg, limit, newLimit));
  }

  lemma AdjustedInRange(cfg: Config, limit: real, noLoad: int, e: Sample)
    requires Sensible(cfg) && InRange(cfg, limit) && e.rtt > 0 && 4.0 <= e.headroom <= limit
    ensures InRange(cfg, Adjusted(cfg, limit, noLoad, e))
    ensures e.didDrop ==> Adjusted(cfg, limit, noLoad, e) <= limit
  {
    if e.didDrop {
      BackOffShrinks(cfg, limit);
      ReactedInRange(cfg, limit, e.headroom, BackedOff(cfg, limit));
    } else {
      ReactedInRange(cfg, limit, e.headroom, Grown(limit, Ratio(cfg, noLoad, e.rtt), e.headroom));
    }
  }

  lemma OneSample(cfg: Config, s: State, e: Sample)
    requires Sensible(cfg) && InRange(cfg, s.limit) && CanDraw(cfg, e.drawn) && IsHeadroom(e.headroom, Trunc(s.limit))
    ensures InRange(cfg, OnSample(cfg, s, e).limit)
    ensures e.didDrop || Probes(cfg, s, e) ==> OnSample(cfg, s, e).limit <= s.limit
  {
    HeadroomBelowLimit(e.headroom, s.limit);
    if e.rtt > 0 {
      var noLoad := if s.noLoad == 0 || e.rtt < s.noLoad then e.rtt else s.noLoad;
      AdjustedInRange(cfg, s.limit, noLoad, e);
    }
  }

  lemma BoundedInRange(cfg: Config, limit: real, q: real, newLimit: real)
    requires Sensible(cfg) && InRange(cfg, limit) && 4.0 <= q <= limit && cfg.minLimit as real <= newLimit
    ensures InRange(cfg, Bounded(cfg, q, newLimit))
    ensures newLimit <= limit ==> Bounded(cfg, q, newLimit) <= limit
  {
  }

  /** Each sample brings the headroom of the limit it finds. */
  predicate Consistent(cfg: Config, s: State, samples: seq<Sample>)
    decreases |samples|
  {
    samples == [] ||
    (CanDraw(cfg, samples[0].drawn) && IsHeadroom(samples[0].headroom, Trunc(s.limit))
     && Consistent(cfg, OnSample(cfg, s, samples[0]), samples[1..]))
  }

  function Run(cfg: Config, s: State, samples: seq<Sample>): State
    requires Consistent(cfg, s, samples)
    decreases |samples|
  {
    if samples == [] then s else Run(cfg, OnSample(cfg, s, samples[0]), samples[1..])
  }

  /** Through probes, drops and square-root headroom the limit stays in
      [max(4, minLimit), maxLimit]. */
  lemma {:induction false} LimitStaysInRange(cfg: Config, s: State, samples: seq<Sample>)
    requires Sensible(cfg) && InRange(cfg, s.limit) && Consistent(cfg, s, samples)
    ensures InRange(cfg, Run(cfg, s, samples).limit)
    decreases |samples|
  {
    if samples == [] {
    } else {
      OneSample(cfg, s, samples[0]);
      LimitStaysInRange(cfg, OnSample(cfg, s, samples[0]), samples[1..]);
    }
  }

  /** In every reachable state neither a dropped sample nor a probe raises the limit. */
  lemma DropNeverRaises(cfg: Config, s: State, samples: seq<Sample>, e: Sample)
    requires Sensible(cfg) && InRange(cfg, s.limit) && Consistent(cfg, s, samples)
    requires CanDraw(cfg, e.drawn) && IsHeadroom(e.headroom, Trunc(Run(cfg, s, samples).limit))
    requires e.didDrop || Probes(cfg, Run(cfg, s, samples), e)
    ensures OnSample(cfg, Run(cfg, s, samples), e).limit <= Run(cfg, s, samples).limit
  {
    LimitStaysInRange(cfg, s, samples);
    OneSample(cfg, Run(cfg, s, samples), e);
  }

  /** While the response time stays within the tolerance of the baseline, a loaded sample adds the
      whole headroom, up to the maximum. */
  lemma HealthyGrows(cfg: Config, limit: real, noLoad: int, e: Sample)
    requires Sensible(cfg) && InRange(cfg, limit) && e.rtt > 0 && 4.0 <= e.headroom <= limit
    requires !e.didDrop && !Idle(limit, e) && cfg.tolerance * noLoad as real >= e.rtt as real
    ensures Adjusted(cfg, limit, noLoad, e) == Min(cfg.maxLimit as real, limit + e.headroom)
  {
    FullRatio(cfg, noLoad, e.rtt);
    assert Grown(limit, 1.0, e.headroom) == limit + e.headroom;
  }

  lemma FullRatio(cfg: Config, noLoad: int, rtt: int)
    requires rtt > 0 && cfg.tolerance * noLoad as real >= rtt as real
    ensures Ratio(cfg, noLoad, rtt) == 1.0
  {
    ClippedRatioExact(Tolerated(cfg, noLoad), rtt as real);
  }

  predicate NoProbe(cfg: Config, s: State, samples: seq<Sample>)
    requires Consistent(cfg, s, samples)
    decreases |samples|
  {
    samples == [] ||
    (!Probes(cfg, s, samples[0]) && NoProbe(cfg, OnSample(cfg, s, samples[0]), samples[1..]))
  }

  /** Between probes the baseline is the smallest positive response time since it was unset. */
  lemma {:induction false} BaselineIsMinimum(cfg: Config, s: State, samples: seq<Sample>)
    requires Consistent(cfg, s, samples) && NoProbe(cfg, s, samples) && s.noLoad >= 0
    ensures var m := Run(cfg, s, samples).noLoad;
            && (s.noLoad > 0 ==> 0 < m <= s.noLoad)
            && (forall i :: 0 <= i < |samples| && samples[i].rtt > 0 ==> 0 < m <= samples[i].rtt)
            && (m == s.noLoad || exists i :: 0 <= i < |samples| && samples[i].rtt > 0 && samples[i].rtt == m)
    decreases |samples|
  {
    if samples == [] {
    } else {
      var t := OnSample(cfg, s, samples[0]);
      BaselineIsMinimum(cfg, t, samples[1..]);
      var m := Run(cfg, s, samples).noLoad;
      forall i | 0 <= i < |samples| && samples[i].rtt > 0 ensures 0 < m <= samples[i].rtt {
        if i > 0 {
          assert samples[1..][i - 1] == samples[i];
        }
      }
      if m != t.noLoad {
        var i :| 0 <= i < |samples[1..]| && samples[1..][i].rtt > 0 && samples[1..][i].rtt == m;
        assert samples[i + 1].rtt == m;
      }
    }
  }

  // ---------------------------------------------------------------------------------
  // The probes

  /** How many positive samples pass before the first that probes; all of them if none does. */
  function UntilProbe(cfg: Config, s: State, samples: seq<Sample>): nat
    requires Consistent(cfg, s, samples)
    decreases |samples|
  {
    if samples == [] || Probes(cfg, s, samples[0]) then 0
    else (if samples[0].rtt > 0 then 1 else 0) + UntilProbe(cfg, OnSample(cfg, s, samples[0]), samples[1..])
  }

  function Positives(samples: seq<Sample>): nat {
    if samples == [] then 0 else (if samples[0].rtt > 0 then 1 else 0) + Positives(samples[1..])
  }

  /** The countdown is exact: the sample that probes is the countdown-th positive one. */
  lemma {:induction false} CountdownIsExact(cfg: Config, s: State, samples: seq<Sample>)
    requires Consistent(cfg, s, samples) && cfg.probeInterval != DISABLED && s.countdown >= 1
    ensures UntilProbe(cfg, s, samples)
         == if Positives(samples) < s.countdown then Positives(samples) else s.countdown - 1
    decreases |samples|
  {
    if samples == [] || Probes(cfg, s, samples[0]) {
    } else {
      CountdownIsExact(cfg, OnSample(cfg, s, samples[0]), samples[1..]);
    }
  }

  /** After a probe the next one follows after at least probeInterval and at most
      2 * probeInterval - 1 positive samples, itself included. */
  lemma ProbeGap(cfg: Config, s: State, probe: Sample, samples: seq<Sample>)
    requires cfg.probeInterval >= 1 && CanDraw(cfg, probe.drawn) && Probes(cfg, s, probe)
    requires Consistent(cfg, OnSample(cfg, s, probe), samples)
    ensures var gap := UntilProbe(cfg, OnSample(cfg, s, probe), samples) + 1;
            && gap <= 2 * cfg.probeInterval - 1
            && (Positives(samples) >= 2 * cfg.probeInterval - 1 ==>
                gap >= cfg.probeInterval && gap <= Positives(samples))
  {
    CountdownIsExact(cfg, OnSample(cfg, s, probe), samples);
  }
}
