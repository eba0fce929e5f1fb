/** What one sample does to the Gradient2 limit and to the average it keeps, in terms of the sample
    and the state alone: ratios are stated by multiplication. */
module Gradient2Reactions {
  import opened Reals
  import opened Gradient2

  // ---------------------------------------------------------------------------------
  // The gradient

  /** What the gradient is: the tolerated long time over the short one, kept between a half and one. */
  lemma GradientByMultiplication(cfg: Config, long: real, short: real, tolerated: real)
    requires short > 0.0 && tolerated == cfg.tolerance * long
    ensures tolerated >= short ==> Gradient(cfg, long, short) == 1.0
    ensures tolerated <= 0.5 * short ==> Gradient(cfg, long, short) == 0.5
    ensures 0.5 * short <= tolerated <= short ==> Gradient(cfg, long, short) * short == tolerated
  {
    assert tolerated == Tolerated(cfg, long);
    ClippedRatioExact(tolerated, short);
  }

  /** The gradient is below one exactly when the short time exceeds what is tolerated. */
  lemma BelowOneExactlyWhen(cfg: Config, long: real, short: real)
    requires short > 0.0
    ensures Gradient(cfg, long, short) < 1.0 <==> short > cfg.tolerance * long
  {
    var g, x := Gradient(cfg, long, short), cfg.tolerance * long;
    GradientByMultiplication(cfg, long, short, x);
    if 0.5 * short < x < short {
      StrictCancel(g, 1.0, short);
    }
  }

  // ---------------------------------------------------------------------------------
  // The average

  /** A new average takes the plain mean of its first ten times. */
  lemma FreshAverage(window: int)
    ensures Fresh(window) == Average(window, 10, 0, 0.0, 0.0)
  {
  }

  /** One more time: in the warm-up the mean of all so far, afterwards a step of 2 / (window + 1) of
      the way; and when that is more than twice the time itself, 0.95 of it. */
  lemma AverageMoves(cfg: Config, s: State, e: Sample) returns (v: real)
    requires s.long.window != -1 && e.rtt > 0
    ensures var a, b, x := s.long, OnSample(cfg, s, e).long, e.rtt as real;
            && b.window == a.window && b.warmup == a.warmup
            && b.count == (if a.count < a.warmup then a.count + 1 else a.count)
            && b.sum == (if a.count < a.warmup then a.sum + x else a.sum)
            && (a.count < a.warmup ==> v * (a.count + 1) as real == a.sum + x)
            && (a.count >= a.warmup ==> (v - a.value) * (a.window + 1) as real == 2.0 * (x - a.value))
            && b.value == (if v > 2.0 * x then v * 0.95 else v)
  {
    var a, x := s.long, e.rtt as real;
    v := Add(a, x).value;
    if a.count >= a.warmup {
      StepOfTheWay(a.value, x, (a.window + 1) as real);
    }
    MoreThanTwice(v, x);
  }

  lemma MoreThanTwice(v: real, x: real)
    requires x > 0.0
    ensures v / x > 2.0 <==> v > 2.0 * x
  {
    assert v / x * x == v;
    if v > 2.0 * x {
      StrictCancel(2.0, v / x, x);
    } else {
      Cancel(v / x, 2.0, x);
    }
  }

  lemma StepOfTheWay(v: real, x: real, w: real)
    requires w != 0.0
    ensures (Mixture(v, x, 2.0 / w) - v) * w == 2.0 * (x - v)
  {
    var f := 2.0 / w;
    assert f * w == 2.0;
    assert Mixture(v, x, f) - v == (x - v) * f;
    assert (x - v) * f * w == (x - v) * (f * w);
  }

  function Positives(samples: seq<Sample>): seq<int> {
    if samples == [] then []
    else (if samples[0].rtt > 0 then [samples[0].rtt] else []) + Positives(samples[1..])
  }

  function Sum(xs: seq<int>): int { if xs == [] then 0 else xs[0] + Sum(xs[1..]) }

  /** Through the warm-up the average is over every positive time since the start. */
  lemma {:induction false} WarmUpCountsAll(cfg: Config, s: State, samples: seq<Sample>)
    requires s.long.window != -1 && s.long.count + |Positives(samples)| <= s.long.warmup
    ensures Run(cfg, s, samples).long.count == s.long.count + |Positives(samples)|
    ensures Run(cfg, s, samples).long.sum == s.long.sum + Sum(Positives(samples)) as real
    decreases |samples|
  {
    if samples == [] {
    } else {
      var e, rest := samples[0], Positives(samples[1..]);
      if e.rtt > 0 {
        var v := AverageMoves(cfg, s, e);
        assert ([e.rtt] + rest)[1..] == rest;
      } else {
        assert Positives(samples) == rest;
      }
      WarmUpCountsAll(cfg, OnSample(cfg, s, e), samples[1..]);
    }
  }

  // ---------------------------------------------------------------------------------
  // The limit

  /** Samples the limit does not react to: those that are not positive change nothing, and those
      with less than half the limit in flight only the average. */
  lemma WithoutReaction(cfg: Config, s: State, e: Sample)
    requires s.long.window != -1
    ensures e.rtt <= 0 ==> OnSample(cfg, s, e) == s
    ensures 2.0 * e.inflight as real < s.limit ==> OnSample(cfg, s, e).limit == s.limit
  {
  }

  predicate Reacting(s: State, e: Sample) {
    e.rtt > 0 && 2.0 * e.inflight as real >= s.limit
  }

  /** The new limit: a share smoothing of the way to limit * g + queueSize, kept within the range. */
  lemma ReactionByGradient(cfg: Config, s: State, e: Sample, g: real)
    requires s.long.window != -1 && Reacting(s, e)
    requires g == Gradient(cfg, OnSample(cfg, s, e).long.value, e.rtt as real)
    ensures var towards := PartWay(s.limit, s.limit * g + cfg.queueSize, cfg.smoothing);
            var below := if towards > cfg.maxLimit as real then cfg.maxLimit as real else towards;
            OnSample(cfg, s, e).limit == if below < cfg.minLimit as real then cfg.minLimit as real else below
  {
    MixtureIsPartWay(s.limit, s.limit * g + cfg.queueSize, cfg.smoothing);
  }

  /** Rising response times lower the limit: a loaded sample whose time exceeds what is tolerated,
      at a limit above the queue size over one less the gradient and above the minimum. */
  lemma LatencyLowersTheLimit(cfg: Config, s: State, e: Sample)
    requires s.long.window != -1 && Reacting(s, e) && 0.0 < cfg.smoothing <= 1.0
    requires var long, short := OnSample(cfg, s, e).long.value, e.rtt as real;
             && short > cfg.tolerance * long
             && cfg.queueSize < s.limit * (1.0 - Gradient(cfg, long, short))
    requires s.limit > cfg.minLimit as real
    ensures OnSample(cfg, s, e).limit < s.limit
  {
    var g := Gradient(cfg, OnSample(cfg, s, e).long.value, e.rtt as real);
    ReactionByGradient(cfg, s, e, g);
    StepsDown(s.limit, g, cfg.queueSize, cfg.smoothing);
  }

  lemma StepsDown(limit: real, g: real, queueSize: real, f: real)
    requires queueSize < limit * (1.0 - g) && f > 0.0
    ensures PartWay(limit, limit * g + queueSize, f) < limit
  {
    assert limit * (1.0 - g) == limit - limit * g;
    NegativeProduct(f, limit * g + queueSize - limit);
  }

  lemma NegativeProduct(f: real, y: real)
    requires f > 0.0 && y < 0.0
    ensures f * y < 0.0
  {
    ProductPositive(f, -y);
    assert f * y == -(f * -y);
  }

  /** Every sample is loaded, and its time is the tolerated one over g. */
  predicate HoldsRatio(cfg: Config, s: State, samples: seq<Sample>, g: real)
    requires s.long.window != -1
    decreases |samples|
  {
    samples == [] ||
    (Reacting(s, samples[0])
     && cfg.tolerance * OnSample(cfg, s, samples[0]).long.value == g * samples[0].rtt as real
     && HoldsRatio(cfg, OnSample(cfg, s, samples[0]), samples[1..], g))
  }

  lemma RatioIsGradient(cfg: Config, long: real, short: real, g: real)
    requires short > 0.0 && 0.5 <= g <= 1.0 && cfg.tolerance * long == g * short
    ensures Gradient(cfg, long, short) == g
  {
    Scale(g, 1.0, short);
    Scale(0.5, g, short);
    GradientByMultiplication(cfg, long, short, g * short);
    var h := Gradient(cfg, long, short);
    Cancel(g, h, short);
    Cancel(h, g, short);
  }

  lemma {:induction false} RatiosAreGradients(cfg: Config, s: State, samples: seq<Sample>, g: real)
    requires s.long.window != -1 && 0.5 <= g < 1.0 && HoldsRatio(cfg, s, samples, g)
    ensures HoldsGradient(cfg, s, samples, g)
    decreases |samples|
  {
    if samples == [] {
    } else {
      var e := samples[0];
      RatioIsGradient(cfg, OnSample(cfg, s, e).long.value, e.rtt as real, g);
      assert OnSample(cfg, s, e).long == Baseline(s.long, e.rtt as real);
      RatiosAreGradients(cfg, OnSample(cfg, s, e), samples[1..], g);
    }
  }

  /** Geometric approach for samples given by their times: each the tolerated long time over g. */
  lemma ContractsByTimes(cfg: Config, s: State, samples: seq<Sample>, g: real)
    requires s.long.window != -1 && 0.5 <= g < 1.0 && HoldsRatio(cfg, s, samples, g)
    requires 0.0 < cfg.smoothing <= 1.0 && cfg.minLimit <= cfg.maxLimit
    ensures Contracted(cfg, s.limit, g, |samples|, Run(cfg, s, samples).limit)
    ensures Factor(cfg, g) == 1.0 - cfg.smoothing * (1.0 - g) && Balance(cfg, g) * (1.0 - g) == cfg.queueSize
  {
    RatiosAreGradients(cfg, s, samples, g);
    Contracts(cfg, s, samples, g);
  }
}
