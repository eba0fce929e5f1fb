/** What one sample does to the Gradient limit, in terms of the sample and the state alone: ratios are
    stated by multiplication. */
module GradientReactions {
  import opened Reals
  import opened Gradient

  /** What the gradient is: the tolerated no-load time over the response time, kept between a half
      and one. */
  lemma RatioByMultiplication(cfg: Config, noLoad: int, rtt: int, tolerated: real)
    requires rtt > 0 && tolerated == cfg.tolerance * noLoad as real
    ensures tolerated >= rtt as real ==> Ratio(cfg, noLoad, rtt) == 1.0
    ensures tolerated <= 0.5 * rtt as real ==> Ratio(cfg, noLoad, rtt) == 0.5
    ensures 0.5 * rtt as real <= tolerated <= rtt as real ==> Ratio(cfg, noLoad, rtt) * rtt as real == tolerated
  {
    assert tolerated == Tolerated(cfg, noLoad);
    ClippedRatioExact(tolerated, rtt as real);
  }

  /** Samples that are not positive change nothing; one that probes drops the baseline and falls back
      to the headroom; any other lowers the baseline to its time and counts down. */
  lemma WithoutReaction(cfg: Config, s: State, e: Sample)
    requires CanDraw(cfg, e.drawn)
    ensures e.rtt <= 0 ==> OnSample(cfg, s, e) == s
    ensures e.rtt > 0 && cfg.probeInterval != -1 && s.countdown <= 1 ==>
              var least := if e.headroom > cfg.minLimit as real then e.headroom else cfg.minLimit as real;
              OnSample(cfg, s, e) == State(least, 0, cfg.probeInterval + e.drawn)
    ensures e.rtt > 0 && (cfg.probeInterval == -1 || s.countdown > 1) ==>
              var t := OnSample(cfg, s, e);
              && t.noLoad == (if s.noLoad == 0 || e.rtt < s.noLoad then e.rtt else s.noLoad)
              && t.countdown == (if cfg.probeInterval == -1 then s.countdown else s.countdown - 1)
              && (!e.didDrop && 2.0 * e.inflight as real < s.limit ==> t.limit == s.limit)
  {
  }

  predicate Reacting(cfg: Config, s: State, e: Sample) {
    && e.rtt > 0 && (cfg.probeInterval == -1 || s.countdown > 1)
    && (e.didDrop || 2.0 * e.inflight as real >= s.limit)
  }

  /** The next limit for a wanted one: only a share smoothing of the way down, not below minLimit, but
      all of the way up; then at most maxLimit, and at least the headroom in any case. */
  function Next(cfg: Config, limit: real, headroom: real, wanted: real): real {
    var eased := if wanted < limit then PartWay(limit, wanted, cfg.smoothing) else wanted;
    var kept := if wanted < limit && eased < cfg.minLimit as real then cfg.minLimit as real else eased;
    var below := if kept > cfg.maxLimit as real then cfg.maxLimit as real else kept;
    if below < headroom then headroom else below
  }

  lemma ReactedIsNext(cfg: Config, limit: real, headroom: real, wanted: real)
    ensures Reacted(cfg, limit, headroom, wanted) == Next(cfg, limit, headroom, wanted)
  {
    MixtureIsPartWay(limit, wanted, cfg.smoothing);
  }

  /** After a loss the backed-off limit is wanted. */
  lemma ReactionToLoss(cfg: Config, s: State, e: Sample, wanted: real)
    requires CanDraw(cfg, e.drawn) && Reacting(cfg, s, e) && e.didDrop
    requires wanted == s.limit * cfg.backoff
    ensures OnSample(cfg, s, e).limit == Next(cfg, s.limit, e.headroom, wanted)
  {
    assert wanted == BackedOff(cfg, s.limit);
    ReactedIsNext(cfg, s.limit, e.headroom, wanted);
  }

  /** Otherwise gradient times the limit and the headroom, where the gradient is by the baseline this
      sample leaves. */
  lemma ReactionByGradient(cfg: Config, s: State, e: Sample, g: real, wanted: real)
    requires CanDraw(cfg, e.drawn) && Reacting(cfg, s, e) && !e.didDrop
    requires g == Ratio(cfg, OnSample(cfg, s, e).noLoad, e.rtt) && wanted == s.limit * g + e.headroom
    ensures OnSample(cfg, s, e).limit == Next(cfg, s.limit, e.headroom, wanted)
  {
    assert wanted == Grown(s.limit, g, e.headroom);
    ReactedIsNext(cfg, s.limit, e.headroom, wanted);
  }

  lemma NextBelow(cfg: Config, limit: real, headroom: real, wanted: real)
    requires cfg.smoothing > 0.0 && wanted < limit && cfg.minLimit as real < limit && headroom < limit
    ensures Next(cfg, limit, headroom, wanted) < limit
  {
    ProductPositive(cfg.smoothing, limit - wanted);
    assert cfg.smoothing * (wanted - limit) == -(cfg.smoothing * (limit - wanted));
  }

  lemma LossLowersTheLimit(cfg: Config, s: State, e: Sample)
    requires CanDraw(cfg, e.drawn) && Reacting(cfg, s, e) && e.didDrop
    requires cfg.smoothing > 0.0 && cfg.backoff < 1.0
    requires 0.0 < s.limit && cfg.minLimit as real < s.limit && e.headroom < s.limit
    ensures OnSample(cfg, s, e).limit < s.limit
  {
    var wanted := s.limit * cfg.backoff;
    StrictScale(cfg.backoff, 1.0, s.limit);
    assert wanted < s.limit;
    ReactionToLoss(cfg, s, e, wanted);
    NextBelow(cfg, s.limit, e.headroom, wanted);
  }

  /** A loaded sample whose time exceeds what is tolerated lowers the limit once that exceeds the
      headroom over one less the gradient. */
  lemma LatencyLowersTheLimit(cfg: Config, s: State, e: Sample, g: real)
    requires CanDraw(cfg, e.drawn) && Reacting(cfg, s, e) && !e.didDrop && cfg.smoothing > 0.0
    requires g == Ratio(cfg, OnSample(cfg, s, e).noLoad, e.rtt) && e.headroom < s.limit * (1.0 - g)
    requires cfg.minLimit as real < s.limit && e.headroom < s.limit
    ensures OnSample(cfg, s, e).limit < s.limit
  {
    var wanted := s.limit * g + e.headroom;
    assert s.limit * (1.0 - g) == s.limit - s.limit * g;
    ReactionByGradient(cfg, s, e, g, wanted);
    NextBelow(cfg, s.limit, e.headroom, wanted);
  }
}
