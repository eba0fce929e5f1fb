/** What one sample does to the overload detector, in terms of the sample and the state alone: the
    queue estimate is compared by multiplication, so that nothing here divides or rounds. */
module DetectorReactions {
  import opened Integers
  import opened Logarithm
  import opened Detector

  /** The estimate is at most k exactly when the share of the limit that queued is. */
  lemma EstimateAtMost(limit: int, lowest: int, rtt: int, k: int)
    requires rtt > 0
    ensures QueueSize(limit, lowest, rtt) <= k <==> limit * (rtt - lowest) <= k * rtt
  {
    var q := QueueSize(limit, lowest, rtt);
    if q <= k {
      MulLe(q, k, rtt);
    } else {
      MulLe(k, q - 1, rtt);
    }
  }

  /** The samples the limit does not react to: those that are not positive, those that probe, those
      that lower the baseline, and those with less than half the limit in flight. */
  lemma WithoutReaction(cfg: Config, s: State, e: Sample, threshold: real)
    requires Usable(cfg, s) && threshold == cfg.probeFactor * s.jitter * s.limit as real
    ensures e.rtt <= 0 ==> Update(cfg, s, e) == s
    ensures e.rtt > 0 && threshold <= (s.probeCount + 1) as real ==>
              Update(cfg, s, e) == State(s.limit, e.rtt, 0, e.jitter)
    ensures e.rtt > 0 && threshold > (s.probeCount + 1) as real ==>
              var t := Update(cfg, s, e);
              && t.jitter == s.jitter && t.probeCount == s.probeCount + 1
              && t.lowest == Least(s.lowest, e.rtt)
              && (e.rtt < s.lowest || 2 * e.requests < s.limit ==> t.limit == s.limit)
  {
    assert threshold == ProbeThreshold(cfg, s);
  }

  /** The samples the limit reacts to. */
  predicate Reacting(cfg: Config, s: State, e: Sample) {
    && e.rtt > 0 && ProbeThreshold(cfg, s) > (s.probeCount + 1) as real
    && e.rtt >= s.lowest && 2 * e.requests >= s.limit
  }

  /** The new limit, by the part of the limit that queued: up to the logarithm it grows by
      betaFactor times that, below alpha by the logarithm, above beta it shrinks by it. */
  lemma ReactionByQueue(cfg: Config, s: State, e: Sample)
    requires Usable(cfg, s) && Reacting(cfg, s, e)
    ensures s.limit >= 1
    ensures var queued, g, next := s.limit * (e.rtt - s.lowest), Log10Plus1(s.limit), Update(cfg, s, e).limit;
            && (queued <= g * e.rtt ==> next == Least(cfg.maxLimit, Most(1, s.limit + cfg.betaFactor * g)))
            && (g * e.rtt < queued <= (cfg.alphaFactor * g - 1) * e.rtt ==>
                  next == Least(cfg.maxLimit, s.limit + g))
            && (queued > g * e.rtt && queued > (cfg.alphaFactor * g - 1) * e.rtt ==>
                  next == if queued > cfg.betaFactor * g * e.rtt then Least(cfg.maxLimit, Most(1, s.limit - g))
                          else s.limit)
  {
    NoProbeNoZero(cfg, s);
    var g := Log10Plus1(s.limit);
    ReactionByEstimate(cfg, s, e, g, cfg.alphaFactor * g, cfg.betaFactor * g);
    EstimateAtMost(s.limit, s.lowest, e.rtt, g);
    EstimateAtMost(s.limit, s.lowest, e.rtt, cfg.alphaFactor * g - 1);
    EstimateAtMost(s.limit, s.lowest, e.rtt, cfg.betaFactor * g);
  }

  /** The same by the estimate. */
  lemma ReactionByEstimate(cfg: Config, s: State, e: Sample, g: int, alpha: int, beta: int)
    requires Usable(cfg, s) && Reacting(cfg, s, e) && s.limit >= 1 && g == Log10Plus1(s.limit)
    requires alpha == cfg.alphaFactor * g && beta == cfg.betaFactor * g
    ensures var q, next := QueueSize(s.limit, s.lowest, e.rtt), Update(cfg, s, e).limit;
            next == if q <= g then Least(cfg.maxLimit, Most(1, s.limit + beta))
                    else if q <= alpha - 1 then Least(cfg.maxLimit, s.limit + g)
                    else if q <= beta then s.limit
                    else Least(cfg.maxLimit, Most(1, s.limit - g))
  {
    assert Update(cfg, s, e).limit == Step(cfg, s.lowest, e.rtt, s.limit);
  }

  /** Every sample is one that reacts and finds next to nothing queued. */
  predicate Unqueued(cfg: Config, s: State, samples: seq<Sample>)
    requires Usable(cfg, s) && Drawn(samples)
    decreases |samples|
  {
    samples == [] ||
    (&& Reacting(cfg, s, samples[0])
     && s.limit * (samples[0].rtt - s.lowest) <= Log10Plus1(if s.limit < 0 then 0 else s.limit) * samples[0].rtt
     && (StaysUsable(cfg, s, samples[0]);
         Unqueued(cfg, Update(cfg, s, samples[0]), samples[1..])))
  }

  lemma GrowsByBeta(cfg: Config, s: State, e: Sample)
    requires Usable(cfg, s) && Reacting(cfg, s, e) && cfg.betaFactor >= 1 && 1 <= s.limit <= cfg.maxLimit
    requires s.limit * (e.rtt - s.lowest) <= Log10Plus1(s.limit) * e.rtt
    ensures Least(cfg.maxLimit, s.limit + cfg.betaFactor) <= Update(cfg, s, e).limit <= cfg.maxLimit
  {
    ReactionByQueue(cfg, s, e);
    MulLe(1, Log10Plus1(s.limit), cfg.betaFactor);
    assert Log10Plus1(s.limit) * cfg.betaFactor == cfg.betaFactor * Log10Plus1(s.limit);
  }

  /** At least n steps of beta above start, or at the maximum. */
  predicate Climbed(max: int, start: int, beta: int, n: nat, limit: int) {
    Least(max, start + n * beta) <= limit <= max
  }

  lemma ClimbedOneMore(max: int, start: int, beta: int, n: nat, mid: int, limit: int)
    requires beta >= 1 && Least(max, start + beta) <= mid <= max && Climbed(max, mid, beta, n, limit)
    ensures Climbed(max, start, beta, n + 1, limit)
  {
    assert (n + 1) * beta == n * beta + beta;
    MulLe(0, n, beta);
  }

  lemma {:induction false} ClimbsBySteps(cfg: Config, s: State, samples: seq<Sample>)
    requires Usable(cfg, s) && Drawn(samples) && Unqueued(cfg, s, samples)
    requires cfg.betaFactor >= 1 && 1 <= s.limit <= cfg.maxLimit
    ensures Climbed(cfg.maxLimit, s.limit, cfg.betaFactor, |samples|, Run(cfg, s, samples).limit)
    decreases |samples|
  {
    if samples == [] {
    } else {
      var t := Update(cfg, s, samples[0]);
      StaysUsable(cfg, s, samples[0]);
      GrowsByBeta(cfg, s, samples[0]);
      ClimbsBySteps(cfg, t, samples[1..]);
      ClimbedOneMore(cfg.maxLimit, s.limit, cfg.betaFactor, |samples| - 1, t.limit,
                     Run(cfg, t, samples[1..]).limit);
    }
  }

  /** With next to nothing queued the limit grows by at least betaFactor with each sample, so that it
      is at the maximum after (maxLimit - limit) / betaFactor of them, rounded up. */
  lemma ClimbsWhileUnqueued(cfg: Config, s: State, samples: seq<Sample>)
    requires Usable(cfg, s) && Drawn(samples) && Unqueued(cfg, s, samples)
    requires cfg.betaFactor >= 1 && 1 <= s.limit <= cfg.maxLimit
    ensures Least(cfg.maxLimit, s.limit + |samples| * cfg.betaFactor) <= Run(cfg, s, samples).limit <= cfg.maxLimit
    ensures |samples| * cfg.betaFactor >= cfg.maxLimit - s.limit ==> Run(cfg, s, samples).limit == cfg.maxLimit
  {
    ClimbsBySteps(cfg, s, samples);
  }
}
