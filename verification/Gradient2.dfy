/** The Gradient2 limit of concurrencylimits/gradient2.go and the moving average of
    concurrencylimits/limit.go that it compares each response time with. Floating point is
    exact here. */
module Gradient2 {
  import opened Reals

  // ---------------------------------------------------------------------------------
  // The moving average

  datatype Average = Average(window: int, warmup: nat, count: nat, sum: real, value: real)

  const WARMUP := 10

  function Fresh(window: int): Average { Average(window, WARMUP, 0, 0.0, 0.0) }

  /** A window of -1 would divide by zero. */
  function Add(a: Average, x: real): Average
    requires a.window != -1
  {
    if a.count < a.warmup then
      a.(count := a.count + 1, sum := a.sum + x, value := (a.sum + x) / (a.count + 1) as real)
    else
      var factor := 2.0 / (a.window as real + 1.0);
      a.(value := Mixture(a.value, x, factor))
  }

  class ExpAvg {
    const window: int
    const warmup: nat
    var count: nat
    var sum: real
    var value: real

    ghost function View(): Average
      reads this
    {
      Average(window, warmup, count, sum, value)
    }

    constructor (window: int)
      ensures View() == Fresh(window)
    {
      this.window, warmup, count, sum, value := window, WARMUP, 0, 0.0, 0.0;
    }

    method Include(sample: real) returns (r: real)
      requires window != -1
      modifies this
      ensures View() == Add(old(View()), sample) && r == value
    {
      if count < warmup {
        count := count + 1;
        sum := sum + sample;
        value := sum / count as real;
        return value;
      }
      var factor := 2.0 / (window as real + 1.0);
      value := Mixture(value, sample, factor);
      return value;
    }

    method Update(f: real -> real) returns (r: real)
      modifies this
      ensures View() == old(View()).(value := f(old(value))) && r == value
    {
      value := f(value);
      return value;
    }
  }

  // ---------------------------------------------------------------------------------
  // The limit

  datatype Config = Config(maxLimit: int, minLimit: int, smoothing: real, tolerance: real, queueSize: real)

  datatype State = State(limit: real, long: Average)

  datatype Sample = Sample(rtt: int, inflight: int)

  /** The long average after a sample: a recent time far below it makes it fall faster. */
  function Baseline(long: Average, short: real): Average
    requires long.window != -1 && short > 0.0
  {
    var a := Add(long, short);
    if a.value / short > 2.0 then a.(value := a.value * 0.95) else a
  }

  function Tolerated(cfg: Config, long: real): real { cfg.tolerance * long }

  function Gradient(cfg: Config, long: real, short: real): (g: real)
    requires short > 0.0
    ensures 0.5 <= g <= 1.0
  {
    ClippedRatio(Tolerated(cfg, long), short)
  }

  function Smoothed(cfg: Config, limit: real, gradient: real): real {
    Mixture(limit, limit * gradient + cfg.queueSize, cfg.smoothing)
  }

  function Clamped(cfg: Config, limit: real): real {
    Max(cfg.minLimit as real, Min(cfg.maxLimit as real, limit))
  }

  predicate Idle(s: State, e: Sample) {
    e.inflight as real < s.limit / 2.0
  }

  function OnSample(cfg: Config, s: State, e: Sample): State
    requires s.long.window != -1
  {
    if e.rtt <= 0 then s
    else
      var long := Baseline(s.long, e.rtt as real);
      if Idle(s, e) then s.(long := long)
      else State(Clamped(cfg, Smoothed(cfg, s.limit, Gradient(cfg, long.value, e.rtt as real))), long)
  }

  class Gradient2Limit {
    const cfg: Config
    const longRtt: ExpAvg
    var estimatedLimit: real

    ghost function View(): State
      reads this, longRtt
    {
      State(estimatedLimit, longRtt.View())
    }

    constructor (config: Config, initialLimit: int, longWindow: int)
      ensures cfg == config && fresh(longRtt)
      ensures View() == State(initialLimit as real, Fresh(longWindow))
    {
      cfg := config;
      estimatedLimit := initialLimit as real;
      longRtt := new ExpAvg(longWindow);
    }

    method Observe(rtt: int, inflight: int)
      requires longRtt.window != -1
      modifies this, longRtt
      ensures View() == OnSample(cfg, old(View()), Sample(rtt, inflight))
    {
      if rtt <= 0 {
        return;
      }
      var shortRtt := rtt as real;
      var long := longRtt.Include(shortRtt);
      if long / shortRtt > 2.0 {
        long := longRtt.Update(current => current * 0.95);
      }
      if inflight as real < estimatedLimit / 2.0 {
        return;
      }
      var gradient := Gradient(cfg, long, shortRtt);
      var newLimit := estimatedLimit * gradient + cfg.queueSize;
      newLimit := Mixture(estimatedLimit, newLimit, cfg.smoothing);
      newLimit := Clamped(cfg, newLimit);
      estimatedLimit := newLimit;
    }
  }

  function Run(cfg: Config, s: State, samples: seq<Sample>): State
    requires s.long.window != -1
    decreases |samples|
  {
    if samples == [] then s else Run(cfg, OnSample(cfg, s, samples[0]), samples[1..])
  }

  // ---------------------------------------------------------------------------------
  // The baseline lies among the samples

  /** Either nothing has been seen, or sum and value are within the bounds. */
  predicate Within(a: Average, lo: real, hi: real) {
    && a.window >= 1 && a.warmup >= 1 && 0.0 < lo <= hi
    && if a.count == 0 then a.sum == 0.0
       else a.count as real * lo <= a.sum <= a.count as real * hi && lo <= a.value <= hi
  }

  lemma AddWithin(a: Average, x: real, lo: real, hi: real)
    requires Within(a, lo, hi) && lo <= x <= hi
    ensures Within(Add(a, x), lo, hi) && Add(a, x).count > 0
  {
    if a.count < a.warmup {
      MeanWithin(a, x, lo, hi);
    } else {
      FactorInRange(a.window);
      MixtureBetween(a.value, x, 2.0 / (a.window as real + 1.0), lo, hi);
    }
  }

  lemma MeanWithin(a: Average, x: real, lo: real, hi: real)
    requires Within(a, lo, hi) && lo <= x <= hi && a.count < a.warmup
    ensures Within(Add(a, x), lo, hi)
  {
    var n := a.count as real;
    assert (n + 1.0) * lo == n * lo + lo && (n + 1.0) * hi == n * hi + hi;
    QuotientBetween(a.sum + x, n + 1.0, lo, hi);
  }

  lemma FactorInRange(window: int)
    requires window >= 1
    ensures 0.0 < 2.0 / (window as real + 1.0) <= 1.0
  {
    var w := window as real + 1.0;
    var f := 2.0 / w;
    assert f * w == 2.0 && w >= 2.0;
    QuotientBetween(2.0, w, 0.0, 1.0);
  }

  lemma DecayWithin(value: real, x: real, lo: real, hi: real)
    requires 0.0 < lo <= x && lo <= value <= hi && value / x > 2.0
    ensures lo <= value * 0.95 <= hi
  {
    var q := value / x;
    assert q * x == value;
    Scale(2.0, q, x);
  }

  lemma BaselineWithin(a: Average, x: real, lo: real, hi: real)
    requires Within(a, lo, hi) && lo <= x <= hi
    ensures Within(Baseline(a, x), lo, hi) && Baseline(a, x).count > 0
  {
    AddWithin(a, x, lo, hi);
    var b := Add(a, x);
    if b.value / x > 2.0 {
      DecayWithin(b.value, x, lo, hi);
    }
  }

  predicate Bounded(samples: seq<Sample>, lo: int, hi: int) {
    forall i :: 0 <= i < |samples| && samples[i].rtt > 0 ==> lo <= samples[i].rtt <= hi
  }

  lemma {:induction false} RunWithin(cfg: Config, s: State, samples: seq<Sample>, lo: int, hi: int)
    requires Within(s.long, lo as real, hi as real) && Bounded(samples, lo, hi)
    ensures var t := Run(cfg, s, samples).long;
            Within(t, lo as real, hi as real)
            && (s.long.count > 0 || (exists i :: 0 <= i < |samples| && samples[i].rtt > 0) ==> t.count > 0)
    decreases |samples|
  {
    if samples == [] {
    } else {
      var t := OnSample(cfg, s, samples[0]);
      if samples[0].rtt > 0 {
        BaselineWithin(s.long, samples[0].rtt as real, lo as real, hi as real);
      }
      RunWithin(cfg, t, samples[1..], lo, hi);
      if s.long.count == 0 && samples[0].rtt <= 0 && exists i :: 0 <= i < |samples| && samples[i].rtt > 0 {
        var i :| 0 <= i < |samples| && samples[i].rtt > 0;
        assert samples[1..][i - 1] == samples[i];
      }
    }
  }

  /** The positions of a smallest and a largest of the positive samples. */
  lemma {:induction false} Extremes(samples: seq<Sample>) returns (i: nat, j: nat)
    requires exists k :: 0 <= k < |samples| && samples[k].rtt > 0
    ensures i < |samples| && j < |samples| && 0 < samples[i].rtt <= samples[j].rtt
    ensures Bounded(samples, samples[i].rtt, samples[j].rtt)
  {
    var n := |samples| - 1;
    if exists k :: 0 <= k < n && samples[k].rtt > 0 {
      var k :| 0 <= k < n && samples[k].rtt > 0;
      assert samples[..n][k].rtt > 0;
      i, j := Extremes(samples[..n]);
      assert forall m :: 0 <= m < n ==> samples[..n][m] == samples[m];
      if samples[n].rtt > 0 {
        i := if samples[n].rtt < samples[i].rtt then n else i;
        j := if samples[n].rtt > samples[j].rtt then n else j;
      }
    } else {
      i, j := n, n;
    }
  }

  /** Whatever the samples, the long response time lies between the smallest and the largest of
      them, through the warm-up and the accelerated decay alike. */
  lemma BaselineAmongSamples(cfg: Config, limit: real, window: int, samples: seq<Sample>) returns (i: nat, j: nat)
    requires window >= 1 && exists k :: 0 <= k < |samples| && samples[k].rtt > 0
    ensures i < |samples| && j < |samples| && 0 < samples[i].rtt <= samples[j].rtt
    ensures Bounded(samples, samples[i].rtt, samples[j].rtt)
    ensures samples[i].rtt as real <= Run(cfg, State(limit, Fresh(window)),
        samples).long.value <= samples[j].rtt as real
  {
    i, j := Extremes(samples);
    RunWithin(cfg, State(limit, Fresh(window)), samples, samples[i].rtt, samples[j].rtt);
  }

  // ---------------------------------------------------------------------------------
  // A constant gradient below one

  /** Where the growth term and the gradient balance. */
  function Balance(cfg: Config, g: real): real
    requires g < 1.0
  {
    cfg.queueSize / (1.0 - g)
  }

  /** Where the limit is headed: the balance, or the end of the range nearer to it. */
  function Goal(cfg: Config, g: real): real
    requires g < 1.0
  {
    Clamped(cfg, Balance(cfg, g))
  }

  function Dist(a: real, b: real): real { if a < b then b - a else a - b }

  function Power(k: real, n: nat): real { if n == 0 then 1.0 else k * Power(k, n - 1) }

  function Pull(cfg: Config, g: real): real { cfg.smoothing * (1.0 - g) }

  /** 1 - smoothing * (1 - g) */
  function Factor(cfg: Config, g: real): real { 1.0 - Pull(cfg, g) }

  lemma SmoothedFromBalance(cfg: Config, limit: real, g: real)
    requires g < 1.0
    ensures Smoothed(cfg, limit, g) - Balance(cfg, g) == Factor(cfg, g) * (limit - Balance(cfg, g))
  {
    var b, h := Balance(cfg, g), 1.0 - g;
    assert b * h == cfg.queueSize;
    MovesTowards(limit, b, cfg.smoothing, h);
    assert limit * g == limit - limit * h;
  }

  lemma MovesTowards(limit: real, b: real, s: real, h: real)
    ensures limit * (1.0 - s) + (limit - limit * h + b * h) * s - b == (1.0 - s * h) * (limit - b)
  {
    var sh := s * h;
    assert (limit * h) * s == limit * sh && (b * h) * s == b * sh;
    assert (limit - limit * h + b * h) * s == limit * s - limit * sh + b * sh;
    assert (1.0 - sh) * (limit - b) == limit - b - sh * limit + sh * b;
  }

  lemma FactorBetween(cfg: Config, g: real)
    requires 0.5 <= g < 1.0 && 0.0 < cfg.smoothing <= 1.0
    ensures 0.0 <= Factor(cfg, g) < 1.0
  {
    ProductPositive(cfg.smoothing, 1.0 - g);
    ProductNotNegative(1.0 - cfg.smoothing, 1.0 - g);
    assert (1.0 - cfg.smoothing) * (1.0 - g) == 1.0 - g - Pull(cfg, g);
  }

  lemma DistScales(k: real, x: real, y: real, b: real)
    requires 0.0 <= k && y - b == k * (x - b)
    ensures Dist(y, b) == k * Dist(x, b)
  {
    if x < b {
      Scale(x - b, 0.0, k);
      assert k * (b - x) == -(k * (x - b));
    } else {
      Scale(0.0, x - b, k);
    }
  }

  /** The clamp never moves the limit away from a point it allows. */
  lemma ClampNoFarther(cfg: Config, x: real, b: real)
    requires cfg.minLimit as real <= b <= cfg.maxLimit as real
    ensures Dist(Clamped(cfg, x), b) <= Dist(x, b)
  {
  }

  /** A pull towards a point b beyond t comes at least as near t as a pull towards t itself. */
  lemma PulledBeyond(k: real, x: real, y: real, b: real, t: real)
    requires 0.0 <= k <= 1.0 && y - b == k * (x - b)
    ensures t <= b ==> y - t >= k * (x - t)
    ensures b <= t ==> y - t <= k * (x - t)
  {
    assert y - t - k * (x - t) == (1.0 - k) * (b - t);
    if t <= b {
      ProductNotNegative(1.0 - k, b - t);
    }
    if b <= t {
      ProductNotNegative(1.0 - k, t - b);
      assert (1.0 - k) * (b - t) == -((1.0 - k) * (t - b));
    }
  }

  predicate Adjusts(s: State, e: Sample) {
    e.rtt > 0 && !Idle(s, e)
  }

  /** Every sample adjusts the limit and computes the gradient g. */
  predicate HoldsGradient(cfg: Config, s: State, samples: seq<Sample>, g: real)
    requires s.long.window != -1
    decreases |samples|
  {
    samples == [] ||
    (Adjusts(s, samples[0])
     && Gradient(cfg, Baseline(s.long, samples[0].rtt as real).value, samples[0].rtt as real) == g
     && HoldsGradient(cfg, OnSample(cfg, s, samples[0]), samples[1..], g))
  }

  /** d is at most the share p of d0. */
  predicate AtMostShare(d: real, p: real, d0: real) { d <= p * d0 }

  lemma ContractsOnce(cfg: Config, limit: real, g: real)
    requires 0.5 <= g < 1.0 && 0.0 < cfg.smoothing <= 1.0 && cfg.minLimit <= cfg.maxLimit
    ensures AtMostShare(Dist(Clamped(cfg, Smoothed(cfg, limit, g)), Goal(cfg, g)),
                        Factor(cfg, g), Dist(limit, Goal(cfg, g)))
  {
    FactorBetween(cfg, g);
    SmoothedFromBalance(cfg, limit, g);
    ClampedContracts(cfg, Factor(cfg, g), limit, Smoothed(cfg, limit, g), Balance(cfg, g));
  }

  lemma ClampedContracts(cfg: Config, k: real, x: real, y: real, b: real)
    requires 0.0 <= k <= 1.0 && y - b == k * (x - b) && cfg.minLimit <= cfg.maxLimit
    ensures AtMostShare(Dist(Clamped(cfg, y), Clamped(cfg, b)), k, Dist(x, Clamped(cfg, b)))
  {
    if b > cfg.maxLimit as real {
      ContractsToEnd(cfg, k, x, y, b, cfg.maxLimit as real);
    } else if b < cfg.minLimit as real {
      ContractsToEnd(cfg, k, x, y, b, cfg.minLimit as real);
    } else {
      DistScales(k, x, y, b);
      ClampNoFarther(cfg, y, b);
    }
  }

  lemma ContractsToEnd(cfg: Config, k: real, x: real, y: real, b: real, t: real)
    requires 0.0 <= k <= 1.0 && y - b == k * (x - b) && cfg.minLimit <= cfg.maxLimit
    requires (t == cfg.maxLimit as real && t < b) || (t == cfg.minLimit as real && b < t)
    ensures AtMostShare(Dist(Clamped(cfg, y), t), k, Dist(x, t))
  {
    PulledBeyond(k, x, y, b, t);
    ShareOfDist(k, x, t);
    EndIsNear(cfg, y, t, k * (x - t), k * Dist(x, t), t < b);
  }

  /** At an end t of the range the clamp cuts off what lies beyond, so only the distance on the
      inner side counts. */
  lemma EndIsNear(cfg: Config, y: real, t: real, pull: real, share: real, upper: bool)
    requires cfg.minLimit <= cfg.maxLimit && share >= 0.0 && (pull == share || pull == -share)
    requires t == (if upper then cfg.maxLimit as real else cfg.minLimit as real)
    requires if upper then y - t >= pull else y - t <= pull
    ensures Dist(Clamped(cfg, y), t) <= share
  {
  }

  lemma ShareOfDist(k: real, x: real, t: real)
    requires k >= 0.0
    ensures k * Dist(x, t) >= 0.0
    ensures x <= t ==> k * (x - t) == -(k * Dist(x, t))
    ensures t <= x ==> k * (x - t) == k * Dist(x, t)
  {
    ProductNotNegative(k, Dist(x, t));
    assert k * (x - t) == -(k * (t - x));
  }

  lemma {:induction false} PowerNotNegative(k: real, n: nat)
    requires k >= 0.0
    ensures Power(k, n) >= 0.0
  {
    if n == 0 {
    } else {
      PowerNotNegative(k, n - 1);
      Scale(0.0, k, Power(k, n - 1));
    }
  }

  lemma SharesCompose(d0: real, d1: real, dn: real, k: real, p: real)
    requires AtMostShare(d1, k, d0) && AtMostShare(dn, p, d1) && p >= 0.0
    ensures AtMostShare(dn, k * p, d0)
  {
    Scale(d1, k * d0, p);
    assert (k * d0) * p == (k * p) * d0;
  }

  /** n adjustments with one gradient. */
  function Iterate(cfg: Config, limit: real, g: real, n: nat): real
    decreases n
  {
    if n == 0 then limit else Iterate(cfg, Clamped(cfg, Smoothed(cfg, limit, g)), g, n - 1)
  }

  lemma AdjustsBy(cfg: Config, s: State, samples: seq<Sample>, g: real)
    requires s.long.window != -1 && samples != [] && HoldsGradient(cfg, s, samples, g)
    ensures OnSample(cfg, s, samples[0]).limit == Clamped(cfg, Smoothed(cfg, s.limit, g))
    ensures HoldsGradient(cfg, OnSample(cfg, s, samples[0]), samples[1..], g)
  {
  }

  lemma {:induction false} RunIterates(cfg: Config, s: State, samples: seq<Sample>, g: real)
    requires s.long.window != -1 && HoldsGradient(cfg, s, samples, g)
    ensures Run(cfg, s, samples).limit == Iterate(cfg, s.limit, g, |samples|)
    decreases |samples|
  {
    if samples == [] {
    } else {
      AdjustsBy(cfg, s, samples, g);
      RunIterates(cfg, OnSample(cfg, s, samples[0]), samples[1..], g);
    }
  }

  /** x is no farther from the goal than the n-th power of the factor times limit is. */
  predicate Contracted(cfg: Config, limit: real, g: real, n: nat, x: real)
    requires g < 1.0
  {
    AtMostShare(Dist(x, Goal(cfg, g)), Power(Factor(cfg, g), n), Dist(limit, Goal(cfg, g)))
  }

  lemma ContractedOnceMore(cfg: Config, limit: real, g: real, n: nat, x: real)
    requires 0.5 <= g < 1.0 && 0.0 < cfg.smoothing <= 1.0
    requires cfg.minLimit <= cfg.maxLimit
    requires Contracted(cfg, Clamped(cfg, Smoothed(cfg, limit, g)), g, n, x)
    ensures Contracted(cfg, limit, g, n + 1, x)
  {
    var b, next := Goal(cfg, g), Clamped(cfg, Smoothed(cfg, limit, g));
    ContractsOnce(cfg, limit, g);
    FactorBetween(cfg, g);
    ShareOnceMore(Dist(limit, b), Dist(next, b), Dist(x, b), Factor(cfg, g), n);
  }

  lemma ShareOnceMore(d0: real, d1: real, dn: real, k: real, n: nat)
    requires k >= 0.0 && AtMostShare(d1, k, d0) && AtMostShare(dn, Power(k, n), d1)
    ensures AtMostShare(dn, Power(k, n + 1), d0)
  {
    PowerNotNegative(k, n);
    SharesCompose(d0, d1, dn, k, Power(k, n));
  }

  lemma {:induction false} IterateContracts(cfg: Config, limit: real, g: real, n: nat)
    requires 0.5 <= g < 1.0 && 0.0 < cfg.smoothing <= 1.0
    requires cfg.minLimit <= cfg.maxLimit
    ensures Contracted(cfg, limit, g, n, Iterate(cfg, limit, g, n))
    decreases n
  {
    if n == 0 {
      assert Power(Factor(cfg, g), 0) == 1.0;
    } else {
      var next := Clamped(cfg, Smoothed(cfg, limit, g));
      IterateContracts(cfg, next, g, n - 1);
      ContractedOnceMore(cfg, limit, g, n - 1, Iterate(cfg, next, g, n - 1));
    }
  }

  /** The documented fixed point queueSize / (1 - gradient), or the end of the range nearer to it
      when it lies outside, and how fast the limit gets there: n samples with the same gradient
      g < 1 leave at most (1 - smoothing * (1 - g))^n of the distance. */
  lemma Contracts(cfg: Config, s: State, samples: seq<Sample>, g: real)
    requires s.long.window != -1 && HoldsGradient(cfg, s, samples, g)
    requires 0.5 <= g < 1.0 && 0.0 < cfg.smoothing <= 1.0
    requires cfg.minLimit <= cfg.maxLimit
    ensures 0.0 <= Factor(cfg, g) < 1.0
    ensures Contracted(cfg, s.limit, g, |samples|, Run(cfg, s, samples).limit)
  {
    FactorBetween(cfg, g);
    RunIterates(cfg, s, samples, g);
    IterateContracts(cfg, s.limit, g, |samples|);
  }

  /** The balance itself stays put. */
  lemma BalanceIsFixed(cfg: Config, g: real)
    requires g < 1.0
    requires cfg.minLimit as real <= Balance(cfg, g) <= cfg.maxLimit as real
    ensures Clamped(cfg, Smoothed(cfg, Balance(cfg, g), g)) == Balance(cfg, g)
  {
    SmoothedFromBalance(cfg, Balance(cfg, g), g);
  }

  /** The goal stays put too, wherever the balance lies. */
  lemma GoalIsFixed(cfg: Config, g: real)
    requires 0.5 <= g < 1.0 && 0.0 < cfg.smoothing <= 1.0 && cfg.minLimit <= cfg.maxLimit
    ensures Clamped(cfg, Smoothed(cfg, Goal(cfg, g), g)) == Goal(cfg, g)
    ensures Balance(cfg, g) >= cfg.maxLimit as real ==> Goal(cfg, g) == cfg.maxLimit as real
    ensures Balance(cfg, g) <= cfg.minLimit as real ==> Goal(cfg, g) == cfg.minLimit as real
    ensures cfg.minLimit as real <= Balance(cfg, g) <= cfg.maxLimit as real ==> Goal(cfg, g) == Balance(cfg, g)
  {
    ContractsOnce(cfg, Goal(cfg, g), g);
    assert Factor(cfg, g) * 0.0 == 0.0;
  }

  // ---------------------------------------------------------------------------------
  // A constant response time

  /** Nothing seen yet, or only the response time r. */
  predicate Constant(a: Average, r: real) {
    a.window >= 1 && a.warmup >= 1 && r > 0.0 && a.sum == a.count as real * r && (a.count > 0 ==> a.value == r)
  }

  lemma BaselineConstant(a: Average, r: real)
    requires Constant(a, r)
    ensures Constant(Baseline(a, r), r) && Baseline(a, r).value == r
  {
    AddConstant(a, r);
    QuotientBetween(r, r, 1.0, 1.0);
  }

  lemma AddConstant(a: Average, r: real)
    requires Constant(a, r)
    ensures Constant(Add(a, r), r) && Add(a, r).value == r
  {
    if a.count < a.warmup {
      MeanConstant(a.count, a.sum, r);
    } else {
      MixtureOfEquals(r, 2.0 / (a.window as real + 1.0));
    }
  }

  lemma MeanConstant(count: nat, sum: real, r: real)
    requires sum == count as real * r
    ensures sum + r == (count + 1) as real * r && (sum + r) / (count + 1) as real == r
  {
    var n := count as real;
    assert n * r + r == (n + 1.0) * r;
    QuotientBetween(sum + r, n + 1.0, r, r);
  }

  lemma GradientConstant(cfg: Config, r: real)
    requires r > 0.0 && cfg.tolerance >= 1.0
    ensures Gradient(cfg, r, r) == 1.0
  {
    Scale(1.0, cfg.tolerance, r);
    ClippedRatioExact(Tolerated(cfg, r), r);
  }

  /** What each sample adds when the gradient is one. */
  function Rise(cfg: Config): real { cfg.smoothing * cfg.queueSize }

  lemma SmoothedRises(cfg: Config, limit: real)
    ensures Smoothed(cfg, limit, 1.0) == limit + Rise(cfg)
  {
    assert (limit * 1.0 + cfg.queueSize) * cfg.smoothing == limit * cfg.smoothing + Rise(cfg);
  }

  /** Every sample has the response time r and enough load. */
  predicate ConstantLoad(cfg: Config, s: State, samples: seq<Sample>, r: int)
    requires s.long.window != -1
    decreases |samples|
  {
    samples == [] ||
    (samples[0].rtt == r && Adjusts(s, samples[0]) && ConstantLoad(cfg, OnSample(cfg, s, samples[0]), samples[1..], r))
  }

  lemma ConstantOnce(cfg: Config, s: State, e: Sample)
    requires Adjusts(s, e) && Constant(s.long, e.rtt as real) && cfg.tolerance >= 1.0
    ensures Gradient(cfg, Baseline(s.long, e.rtt as real).value, e.rtt as real) == 1.0
    ensures Constant(OnSample(cfg, s, e).long, e.rtt as real)
  {
    BaselineConstant(s.long, e.rtt as real);
    GradientConstant(cfg, e.rtt as real);
  }

  lemma {:induction false} ConstantHoldsGradientOne(cfg: Config, s: State, samples: seq<Sample>, r: int)
    requires r > 0 && Constant(s.long, r as real) && ConstantLoad(cfg, s, samples, r) && cfg.tolerance >= 1.0
    ensures HoldsGradient(cfg, s, samples, 1.0)
    decreases |samples|
  {
    if samples == [] {
    } else {
      ConstantOnce(cfg, s, samples[0]);
      ConstantHoldsGradientOne(cfg, OnSample(cfg, s, samples[0]), samples[1..], r);
    }
  }

  /** Where n equal rises lead, the maximum being the end of the road. */
  function ClimbedTo(cfg: Config, limit: real, n: nat): real {
    Min(cfg.maxLimit as real, limit + n as real * Rise(cfg))
  }

  lemma ClimbedOnceMore(cfg: Config, limit: real, n: nat)
    requires cfg.minLimit as real <= limit <= cfg.maxLimit as real && Rise(cfg) >= 0.0
    ensures ClimbedTo(cfg, Clamped(cfg, limit + Rise(cfg)), n) == ClimbedTo(cfg, limit, n + 1)
    ensures cfg.minLimit as real <= Clamped(cfg, limit + Rise(cfg)) <= cfg.maxLimit as real
  {
    var m, r := n as real, Rise(cfg);
    Scale(0.0, r, m);
    assert (n + 1) as real * r == m * r + r;
  }

  lemma {:induction false} IterateClimbs(cfg: Config, limit: real, n: nat)
    requires Rise(cfg) >= 0.0 && cfg.minLimit as real <= limit <= cfg.maxLimit as real
    ensures Iterate(cfg, limit, 1.0, n) == ClimbedTo(cfg, limit, n)
    decreases n
  {
    if n == 0 {
    } else {
      SmoothedRises(cfg, limit);
      ClimbedOnceMore(cfg, limit, n - 1);
      IterateClimbs(cfg, Clamped(cfg, Smoothed(cfg, limit, 1.0)), n - 1);
    }
  }

  /** With one response time from the start the limit climbs by the same amount each sample
      until it is at its maximum, and stays there. */
  lemma ClimbsToMaximum(cfg: Config, s: State, samples: seq<Sample>, r: int)
    requires r > 0 && Constant(s.long, r as real) && ConstantLoad(cfg, s, samples, r)
    requires cfg.tolerance >= 1.0 && Rise(cfg) >= 0.0
    requires cfg.minLimit as real <= s.limit <= cfg.maxLimit as real
    ensures Run(cfg, s, samples).limit == ClimbedTo(cfg, s.limit, |samples|)
  {
    ConstantHoldsGradientOne(cfg, s, samples, r);
    RunIterates(cfg, s, samples, 1.0);
    IterateClimbs(cfg, s.limit, |samples|);
  }

  lemma ClimbedToTop(cfg: Config, limit: real, n: nat)
    requires n as real * Rise(cfg) >= cfg.maxLimit as real - limit
    ensures ClimbedTo(cfg, limit, n) == cfg.maxLimit as real
  {
  }

  /** So from a fresh average the maximum is reached after (max - limit) / (smoothing * queueSize)
      samples, rounded up, whatever the response time is. */
  lemma ReachesMaximum(cfg: Config, limit: real, window: int, samples: seq<Sample>, r: int)
    requires window >= 1 && r > 0 && ConstantLoad(cfg, State(limit, Fresh(window)), samples, r)
    requires cfg.tolerance >= 1.0 && cfg.smoothing > 0.0 && cfg.queueSize > 0.0
    requires cfg.minLimit as real <= limit <= cfg.maxLimit as real
    requires |samples| as real * Rise(cfg) >= cfg.maxLimit as real - limit
    ensures Run(cfg, State(limit, Fresh(window)), samples).limit == cfg.maxLimit as real
  {
    ProductNotNegative(cfg.smoothing, cfg.queueSize);
    ClimbedToTop(cfg, limit, |samples|);
    ClimbsToMaximum(cfg, State(limit, Fresh(window)), samples, r);
  }
}
