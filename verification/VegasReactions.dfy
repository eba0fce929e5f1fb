/** What one sample does to the Vegas limit, in terms of the sample and the state alone: the queue
    estimate is compared by multiplication, so that nothing here divides or rounds. */
module VegasReactions {
  import opened Logarithm
  import opened Reals
  import opened Vegas

  // ---------------------------------------------------------------------------------
  // The estimate

  /** The part of the limit that queued, times the response time. */
  function Queued(limit: real, noLoad: int, rtt: int): real { limit * (rtt - noLoad) as real }

  function Times(k: int, rtt: int): real { k as real * rtt as real }

  lemma EstimateTimesRtt(limit: real, noLoad: int, rtt: int)
    requires rtt > 0
    ensures limit * (1.0 - noLoad as real / rtt as real) * rtt as real == Queued(limit, noLoad, rtt)
  {
    var n, r := noLoad as real, rtt as real;
    var share := 1.0 - n / r;
    ShareExact(n, r);
    assert share * r == r - n;
    assert limit * share * r == limit * (share * r);
  }

  /** The estimate is at most k exactly when the part of the limit that queued is. */
  lemma EstimateAtMost(limit: real, noLoad: int, rtt: int, k: int)
    requires rtt > 0
    ensures QueueSize(limit, noLoad, rtt) <= k <==> Queued(limit, noLoad, rtt) <= Times(k, rtt)
  {
    EstimateTimesRtt(limit, noLoad, rtt);
    CeilAtMost(limit * (1.0 - noLoad as real / rtt as real), k);
    ScaleOrder(limit * (1.0 - noLoad as real / rtt as real), k as real, rtt as real);
  }

  lemma CeilAtMost(x: real, k: int)
    ensures Ceil(x) <= k <==> x <= k as real
  {
  }

  /** The estimate is the least whole number not below that part: its two inequalities. */
  lemma EstimateExact(limit: real, noLoad: int, rtt: int)
    requires rtt > 0
    ensures var q := QueueSize(limit, noLoad, rtt);
            (q - 1) as real * rtt as real < limit * (rtt - noLoad) as real <= q as real * rtt as real
  {
    var q := QueueSize(limit, noLoad, rtt);
    EstimateAtMost(limit, noLoad, rtt, q);
    EstimateAtMost(limit, noLoad, rtt, q - 1);
  }

  // ---------------------------------------------------------------------------------
  // The limit

  /** Samples the limit does not react to: those that are not positive, those that probe, those that
      set the baseline, and those that lost nothing with less than half the limit in flight. */
  lemma WithoutReaction(cfg: Config, s: State, e: Sample, threshold: real)
    requires threshold == s.jitter * cfg.probeMultiplier as real * s.limit
    ensures e.rtt <= 0 ==> OnSample(cfg, s, e) == s
    ensures e.rtt > 0 && threshold <= (s.probeCount + 1) as real ==>
              OnSample(cfg, s, e) == State(s.limit, e.rtt, 0, e.jitter)
    ensures e.rtt > 0 && threshold > (s.probeCount + 1) as real ==>
              var t := OnSample(cfg, s, e);
              && t.jitter == s.jitter && t.probeCount == s.probeCount + 1
              && t.noLoad == (if s.noLoad == 0 || e.rtt < s.noLoad then e.rtt else s.noLoad)
              && (s.noLoad == 0 || e.rtt < s.noLoad ==> t.limit == s.limit)
              && (!e.didDrop && 2.0 * e.inflight as real < s.limit ==> t.limit == s.limit)
  {
    assert threshold == ProbeThreshold(cfg, s);
  }

  /** The samples the limit reacts to. */
  predicate Reacting(cfg: Config, s: State, e: Sample) {
    && e.rtt > 0 && ProbeThreshold(cfg, s) > (s.probeCount + 1) as real
    && s.noLoad != 0 && e.rtt >= s.noLoad
    && (e.didDrop || 2.0 * e.inflight as real >= s.limit)
  }

  function Within(cfg: Config, x: real): real {
    var below := if x > cfg.maxLimit as real then cfg.maxLimit as real else x;
    if below < 1.0 then 1.0 else below
  }

  /** A share smoothing of the way from the limit to limit + step, once that is in [1, maxLimit]. */
  function Moved(cfg: Config, limit: real, step: int): real {
    PartWay(limit, Within(cfg, limit + step as real), cfg.smoothing)
  }

  lemma SettleMovesBy(cfg: Config, limit: real, step: int, to: real)
    requires to == limit + step as real
    ensures Settle(cfg, limit, to) == Moved(cfg, limit, step)
  {
    var target := Within(cfg, to);
    assert target == Max(1.0, Min(cfg.maxLimit as real, to));
    MixtureIsPartWay(limit, target, cfg.smoothing);
  }

  /** The new limit after a loss, and otherwise by the estimate q. */
  lemma ReactionToLoss(cfg: Config, s: State, e: Sample, g: int)
    requires Reacting(cfg, s, e) && g == Log10Root(Trunc(s.limit)) && e.didDrop
    ensures OnSample(cfg, s, e).limit == Moved(cfg, s.limit, -g)
  {
    SettleMovesBy(cfg, s.limit, -g, s.limit - g as real);
  }

  lemma ReactionByEstimate(cfg: Config, s: State, e: Sample, g: int, q: int)
    requires Reacting(cfg, s, e) && g == Log10Root(Trunc(s.limit)) && q == QueueSize(s.limit, s.noLoad, e.rtt)
    requires !e.didDrop
    ensures OnSample(cfg, s, e).limit
         == if q <= g then Moved(cfg, s.limit, 6 * g)
            else if q <= 3 * g - 1 then Moved(cfg, s.limit, g)
            else if q <= 6 * g then s.limit
            else Moved(cfg, s.limit, -g)
  {
    SettleMovesBy(cfg, s.limit, 6 * g, s.limit + (6 * g) as real);
    SettleMovesBy(cfg, s.limit, g, s.limit + g as real);
    SettleMovesBy(cfg, s.limit, -g, s.limit - g as real);
  }

  /** By how much the limit is to move, with g the logarithm of the limit and Queued the part of it
      that queued, limit * (rtt - noLoad): up by 6 g while at most g times the response time queue,
      up by g below 3 g, down by g above 6 g and after a loss. */
  lemma ReactionByQueue(cfg: Config, s: State, e: Sample, g: int, queued: real)
    requires Reacting(cfg, s, e) && g == Log10Root(Trunc(s.limit)) && queued == Queued(s.limit, s.noLoad, e.rtt)
    ensures var next := OnSample(cfg, s, e).limit;
            && (e.didDrop ==> next == Moved(cfg, s.limit, -g))
            && (!e.didDrop ==>
                  next == if queued <= Times(g, e.rtt) then Moved(cfg, s.limit, 6 * g)
                          else if queued <= Times(3 * g - 1, e.rtt) then Moved(cfg, s.limit, g)
                          else if queued <= Times(6 * g, e.rtt) then s.limit
                          else Moved(cfg, s.limit, -g))
  {
    if e.didDrop {
      ReactionToLoss(cfg, s, e, g);
    } else {
      ReactionByEstimate(cfg, s, e, g, QueueSize(s.limit, s.noLoad, e.rtt));
      EstimateAtMost(s.limit, s.noLoad, e.rtt, g);
      EstimateAtMost(s.limit, s.noLoad, e.rtt, 3 * g - 1);
      EstimateAtMost(s.limit, s.noLoad, e.rtt, 6 * g);
    }
  }

  lemma TimesOrder(k: int, n: int, rtt: int)
    requires 0 <= k <= n && rtt > 0
    ensures 0.0 <= Times(k, rtt) <= Times(n, rtt)
  {
    Scale(0.0, k as real, rtt as real);
    Scale(k as real, n as real, rtt as real);
  }

  lemma NothingQueued(limit: real, rtt: int)
    ensures Queued(limit, rtt, rtt) == 0.0
  {
  }

  /** With nothing queued a loaded sample grows the limit. */
  lemma HealthyGrows(cfg: Config, s: State, e: Sample)
    requires Smooth(cfg) && InRange(cfg, s.limit) && Reacting(cfg, s, e) && !e.didDrop
    requires e.rtt == s.noLoad && s.limit < cfg.maxLimit as real
    ensures OnSample(cfg, s, e).limit > s.limit
  {
    var g := Log10Root(Trunc(s.limit));
    ReactionByQueue(cfg, s, e, g, Queued(s.limit, s.noLoad, e.rtt));
    NothingQueued(s.limit, e.rtt);
    TimesOrder(0, g, e.rtt);
    MovedUp(cfg, s.limit, 6 * g);
  }

  /** With more than six times the logarithm queued it shrinks the limit. */
  lemma CongestedShrinks(cfg: Config, s: State, e: Sample, g: int)
    requires Smooth(cfg) && InRange(cfg, s.limit) && Reacting(cfg, s, e) && !e.didDrop && s.limit > 1.0
    requires g == Log10Root(Trunc(s.limit)) && Queued(s.limit, s.noLoad, e.rtt) > Times(6 * g, e.rtt)
    ensures OnSample(cfg, s, e).limit < s.limit
  {
    ReactionByQueue(cfg, s, e, g, Queued(s.limit, s.noLoad, e.rtt));
    TimesOrder(g, 6 * g, e.rtt);
    TimesOrder(3 * g - 1, 6 * g, e.rtt);
    MovedDown(cfg, s.limit, g);
  }

  lemma MovedUp(cfg: Config, limit: real, step: int)
    requires Smooth(cfg) && InRange(cfg, limit) && step > 0
    ensures limit < cfg.maxLimit as real ==> Moved(cfg, limit, step) > limit
  {
    SettleMovesBy(cfg, limit, step, limit + step as real);
    SettleMoves(cfg, limit, limit + step as real);
  }

  lemma MovedDown(cfg: Config, limit: real, step: int)
    requires Smooth(cfg) && InRange(cfg, limit) && step > 0
    ensures limit > 1.0 ==> Moved(cfg, limit, -step) < limit
  {
    SettleMovesBy(cfg, limit, -step, limit + (-step) as real);
    SettleMoves(cfg, limit, limit + (-step) as real);
  }
}
