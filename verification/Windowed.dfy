/** The windowed limit of concurrencylimits/windowed.go, which batches samples into time windows
    and feeds its delegate once per window. The running aggregates are proved to be those of a
    partition of the sample history that is defined on the samples themselves. */
module Windowed {
  import opened Integers
  import opened Tally

  datatype Config = Config(minWindow: int, maxWindow: int, windowSize: int, minRtt: int)

  /** A sample with the time read from the clock when it arrived. */
  datatype Sample = Sample(now: int, rtt: int, inflight: int, didDrop: bool)

  datatype Window = Window(minRtt: int, sumRtt: int, count: nat, maxInFlight: int, didDrop: bool)

  const EMPTY := Window(0, 0, 0, 0, false)

  /** What the delegate is called with. */
  datatype Report = Report(rtt: int, inflight: int, didDrop: bool)

  datatype State = State(window: Window, nextUpdate: Option<int>)

  /** Integer division of the original: towards zero. */
  function TruncDiv(a: int, b: int): (q: int)
    requires b > 0
    ensures a >= 0 ==> q * b <= a < q * b + b
    ensures a <= 0 ==> q * b - b < a <= q * b
  {
    DivisionBounds(a, b);
    DivisionBounds(-a, b);
    if a >= 0 then a / b else -((-a) / b)
  }

  lemma DivisionBounds(a: int, b: int)
    requires b > 0
    ensures a / b * b <= a < a / b * b + b
    ensures -(a / b) * b == -(a / b * b)
  {
  }

  function Clamp(d: int, lo: int, hi: int): (r: int)
    ensures d < lo ==> r == lo
    ensures lo <= d && d > hi ==> r == hi
    ensures lo <= d <= hi ==> r == d
    ensures r >= lo || r >= hi
    ensures lo <= hi ==> lo <= r <= hi && (lo <= d <= hi ==> r == d)
  {
    if d < lo then lo else if d > hi then hi else d
  }

  function Add(w: Window, e: Sample): Window {
    Window(if w.count == 0 || e.rtt < w.minRtt then e.rtt else w.minRtt,
           w.sumRtt + e.rtt,
           w.count + 1,
           if e.inflight > w.maxInFlight then e.inflight else w.maxInFlight,
           w.didDrop || e.didDrop)
  }

  function TrackedRtt(w: Window): int {
    if w.count == 0 then 0 else TruncDiv(w.sumRtt, w.count)
  }

  function OnSample(cfg: Config, s: State, e: Sample): (State, Option<Report>) {
    if e.rtt < cfg.minRtt then (s, None)
    else
      var w := Add(s.window, e);
      if s.nextUpdate.None? then (State(w, Some(e.now + cfg.minWindow)), None)
      else if e.now <= s.nextUpdate.value then (s.(window := w), None)
      else
        (State(EMPTY, Some(e.now + Clamp(w.minRtt * 2, cfg.minWindow, cfg.maxWindow))),
         if w.count >= cfg.windowSize then Some(Report(TrackedRtt(w), w.maxInFlight, w.didDrop)) else None)
  }

  class SampleWindow {
    var minRtt: int
    var sumRtt: int
    var count: nat
    var maxInFlight: int
    var didDrop: bool

    ghost function View(): Window
      reads this
    {
      Window(minRtt, sumRtt, count, maxInFlight, didDrop)
    }

    constructor ()
      ensures View() == EMPTY
    {
      minRtt, sumRtt, count, maxInFlight, didDrop := 0, 0, 0, 0, false;
    }

    method Include(rtt: int, inflight: int, drop: bool)
      modifies this
      ensures forall now :: View() == Add(old(View()), Sample(now, rtt, inflight, drop))
    {
      if count == 0 || rtt < minRtt {
        minRtt := rtt;
      }
      sumRtt := sumRtt + rtt;
      count := count + 1;
      if inflight > maxInFlight {
        maxInFlight := inflight;
      }
      didDrop := didDrop || drop;
    }
  }

  class WindowedLimit {
    const cfg: Config
    var window: SampleWindow
    var nextUpdate: Option<int>

    ghost function View(): State
      reads this, window
    {
      State(window.View(), nextUpdate)
    }

    constructor (config: Config)
      ensures cfg == config && fresh(window) && View() == State(EMPTY, None)
    {
      cfg := config;
      window := new SampleWindow();
      nextUpdate := None;
    }

    /** report is the call made to the delegate, if any. */
    method Observe(e: Sample) returns (report: Option<Report>)
      modifies this, window
      ensures (View(), report) == OnSample(cfg, old(View()), e)
      ensures window == old(window) || fresh(window)
    {
      if e.rtt < cfg.minRtt {
        return None;
      }
      window.Include(e.rtt, e.inflight, e.didDrop);
      assert window.View() == Add(old(window.View()), e);
      if nextUpdate.None? {
        nextUpdate := Some(e.now + cfg.minWindow);
        return None;
      }
      if e.now <= nextUpdate.value {
        return None;
      }
      var current := window;
      window := new SampleWindow();
      nextUpdate := Some(e.now + Clamp(current.minRtt * 2, cfg.minWindow, cfg.maxWindow));
      if current.count >= cfg.windowSize {
        return Some(Report(TruncDiv(current.sumRtt, current.count), current.maxInFlight, current.didDrop));
      }
      return None;
    }
  }

  // ---------------------------------------------------------------------------------
  // Whole runs

  function After(cfg: Config, samples: seq<Sample>): State {
    if samples == [] then State(EMPTY, None)
    else OnSample(cfg, After(cfg, samples[..|samples| - 1]), samples[|samples| - 1]).0
  }

  /** Every call made to the delegate, in order. */
  function Reports(cfg: Config, samples: seq<Sample>): seq<Report> {
    if samples == [] then []
    else
      var front := samples[..|samples| - 1];
      match OnSample(cfg, After(cfg, front), samples[|samples| - 1]).1
      case Some(r) => Reports(cfg, front) + [r]
      case None => Reports(cfg, front)
  }

  // ---------------------------------------------------------------------------------
  // The same on the history

  /** The samples that are not ignored. */
  function Kept(cfg: Config, samples: seq<Sample>): seq<Sample> {
    if samples == [] then []
    else if samples[|samples| - 1].rtt < cfg.minRtt then Kept(cfg, samples[..|samples| - 1])
    else Kept(cfg, samples[..|samples| - 1]) + [samples[|samples| - 1]]
  }

  function MinRtt(xs: seq<Sample>): int
    requires xs != []
  {
    var n := |xs| - 1;
    if n == 0 || xs[n].rtt < MinRtt(xs[..n]) then xs[n].rtt else MinRtt(xs[..n])
  }

  function SumRtt(xs: seq<Sample>): int {
    if xs == [] then 0 else SumRtt(xs[..|xs| - 1]) + xs[|xs| - 1].rtt
  }

  /** The largest number in flight, but at least zero. */
  function MaxInFlight(xs: seq<Sample>): int {
    if xs == [] then 0
    else
      var n := |xs| - 1;
      if xs[n].inflight > MaxInFlight(xs[..n]) then xs[n].inflight else MaxInFlight(xs[..n])
  }

  predicate AnyDrop(xs: seq<Sample>) {
    exists i :: 0 <= i < |xs| && xs[i].didDrop
  }

  function Aggregate(xs: seq<Sample>): Window {
    if xs == [] then EMPTY else Window(MinRtt(xs), SumRtt(xs), |xs|, MaxInFlight(xs), AnyDrop(xs))
  }

  /** The windows closed so far, the open one, and the time after which the next sample closes it. */
  datatype Partition = Partition(closed: seq<seq<Sample>>, open: seq<Sample>, deadline: Option<int>)

  predicate Closes(p: Partition, e: Sample) {
    p.deadline.Some? && e.now > p.deadline.value
  }

  /** A further sample closes the open window or merely joins it. */
  function Extend(cfg: Config, p: Partition, e: Sample): Partition {
    var open := p.open + [e];
    if Closes(p, e) then
      Partition(p.closed + [open], [], Some(e.now + Clamp(2 * MinRtt(open), cfg.minWindow, cfg.maxWindow)))
    else
      Partition(p.closed, open, if p.deadline.Some? then p.deadline else Some(e.now + cfg.minWindow))
  }

  function Cut(cfg: Config, kept: seq<Sample>): Partition {
    if kept == [] then Partition([], [], None)
    else Extend(cfg, Cut(cfg, kept[..|kept| - 1]), kept[|kept| - 1])
  }

  /** The calls owed to the delegate for a list of windows: one for each that is large enough. */
  function Owed(cfg: Config, windows: seq<seq<Sample>>): seq<Report> {
    if windows == [] then []
    else
      var w := windows[|windows| - 1];
      Owed(cfg, windows[..|windows| - 1])
        + (if w != [] && |w| >= cfg.windowSize then [Report(TruncDiv(SumRtt(w), |w|), MaxInFlight(w), AnyDrop(w))]
            else [])
  }

  function Concat(windows: seq<seq<Sample>>): seq<Sample> {
    if windows == [] then [] else Concat(windows[..|windows| - 1]) + windows[|windows| - 1]
  }

  lemma AddExtends(xs: seq<Sample>, e: Sample)
    ensures Add(Aggregate(xs), e) == Aggregate(xs + [e])
  {
    var ys := xs + [e];
    assert ys[..|xs|] == xs && ys[|xs|] == e;
    assert SumRtt(ys) == SumRtt(xs) + e.rtt;
    assert MaxInFlight(ys) == if e.inflight > MaxInFlight(xs) then e.inflight else MaxInFlight(xs);
    assert xs != [] ==> MinRtt(ys) == if e.rtt < MinRtt(xs) then e.rtt else MinRtt(xs);
    assert xs == [] ==> SumRtt(xs) == 0 && MaxInFlight(xs) == 0 && MinRtt(ys) == e.rtt;
    DropExtends(xs, e);
  }

  lemma DropExtends(xs: seq<Sample>, e: Sample)
    ensures AnyDrop(xs + [e]) <==> AnyDrop(xs) || e.didDrop
  {
    assert (xs + [e])[|xs|] == e;
    assert forall i :: 0 <= i < |xs| ==> (xs + [e])[i] == xs[i];
  }

  /** The incremental batching refines the partition: its window is the aggregate of the open
      part, its deadline is the partition's, and the delegate has been called exactly for the
      closed parts that are large enough. */
  lemma {:induction false} BatchingRefinesPartition(cfg: Config, samples: seq<Sample>)
    ensures var p := Cut(cfg, Kept(cfg, samples));
            && After(cfg, samples) == State(Aggregate(p.open), p.deadline)
            && Reports(cfg, samples) == Owed(cfg, p.closed)
  {
    if samples == [] {
    } else {
      var n := |samples| - 1;
      var front, e := samples[..n], samples[n];
      BatchingRefinesPartition(cfg, front);
      if e.rtt >= cfg.minRtt {
        var kept := Kept(cfg, front);
        CutOneMore(cfg, kept, e);
        OneSample(cfg, Cut(cfg, kept), e);
      }
    }
  }

  lemma OneSample(cfg: Config, p: Partition, e: Sample)
    requires e.rtt >= cfg.minRtt
    ensures var q := Extend(cfg, p, e);
            var (t, r) := OnSample(cfg, State(Aggregate(p.open), p.deadline), e);
            && t == State(Aggregate(q.open), q.deadline)
            && Owed(cfg, q.closed) == Owed(cfg, p.closed) + (match r case Some(x) => [x] case None => [])
  {
    AddExtends(p.open, e);
    OwedOneMore(cfg, p.closed, p.open + [e]);
  }

  lemma CutOneMore(cfg: Config, kept: seq<Sample>, e: Sample)
    ensures Cut(cfg, kept + [e]) == Extend(cfg, Cut(cfg, kept), e)
  {
    assert (kept + [e])[..|kept|] == kept;
  }

  lemma OwedOneMore(cfg: Config, windows: seq<seq<Sample>>, w: seq<Sample>)
    requires w != []
    ensures Owed(cfg, windows + [w]) == Owed(cfg, windows)
              + (if |w| >= cfg.windowSize then [Report(TruncDiv(SumRtt(w), |w|), MaxInFlight(w), AnyDrop(w))] else [])
    ensures Concat(windows + [w]) == Concat(windows) + w
  {
    assert (windows + [w])[..|windows|] == windows;
  }

  predicate Covers(p: Partition, kept: seq<Sample>) {
    && Concat(p.closed) + p.open == kept
    && (forall i :: 0 <= i < |p.closed| ==> p.closed[i] != [])
    && (p.deadline.None? <==> kept == [])
  }

  lemma CoversOneMore(cfg: Config, p: Partition, kept: seq<Sample>, e: Sample)
    requires Covers(p, kept)
    ensures Covers(Extend(cfg, p, e), kept + [e])
  {
    OwedOneMore(cfg, p.closed, p.open + [e]);
    assert Concat(p.closed) + (p.open + [e]) == Concat(p.closed) + p.open + [e];
  }

  /** Nothing is lost or counted twice: the closed windows followed by the open one are the kept
      samples, in order, and no closed window is empty. */
  lemma {:induction false} PartitionCovers(cfg: Config, kept: seq<Sample>)
    ensures Covers(Cut(cfg, kept), kept)
  {
    if kept == [] {
    } else {
      var front, e := kept[..|kept| - 1], kept[|kept| - 1];
      PartitionCovers(cfg, front);
      CoversOneMore(cfg, Cut(cfg, front), front, e);
      assert kept == front + [e];
    }
  }

  function ClosedAt(w: seq<Sample>): int
    requires w != []
  {
    w[|w| - 1].now
  }

  predicate Spaced(cfg: Config, p: Partition) {
    && (forall i :: 0 <= i < |p.closed| ==> p.closed[i] != [])
    && (forall i :: 0 < i < |p.closed| ==>
          ClosedAt(p.closed[i]) - ClosedAt(p.closed[i - 1]) > Least(cfg.minWindow, cfg.maxWindow))
    && (p.closed != [] ==>
          p.deadline.Some? &&
          p.deadline.value >= ClosedAt(p.closed[|p.closed| - 1]) + Least(cfg.minWindow, cfg.maxWindow))
  }

  lemma SpacedOneMore(cfg: Config, p: Partition, e: Sample)
    requires Spaced(cfg, p)
    ensures Spaced(cfg, Extend(cfg, p, e))
  {
    var q := Extend(cfg, p, e);
    if Closes(p, e) {
      assert ClosedAt(q.closed[|p.closed|]) == e.now;
    }
  }

  /** Consecutive flushes are more than the smaller of the two window times apart; with
      minWindow <= maxWindow that is minWindow. */
  lemma {:induction false} FlushesSpaced(cfg: Config, kept: seq<Sample>)
    ensures Spaced(cfg, Cut(cfg, kept))
  {
    if kept == [] {
    } else {
      FlushesSpaced(cfg, kept[..|kept| - 1]);
      SpacedOneMore(cfg, Cut(cfg, kept[..|kept| - 1]), kept[|kept| - 1]);
    }
  }

  lemma TruncBetween(sum: int, n: nat, lo: int, hi: int)
    requires n > 0 && lo * n <= sum <= hi * n
    ensures lo <= TruncDiv(sum, n) <= hi
  {
    if sum >= 0 {
      FloorBetween(sum, n, lo, hi);
    } else {
      assert -hi * n == -(hi * n) && -lo * n == -(lo * n);
      FloorBetween(-sum, n, -hi, -lo);
    }
  }

  lemma FloorBetween(a: int, n: nat, lo: int, hi: int)
    requires n > 0 && lo * n <= a <= hi * n
    ensures lo <= a / n <= hi
  {
    var q := a / n;
    FloorExact(a, n);
    assert (q + 1) * n == q * n + n && (hi + 1) * n == hi * n + n;
    MulLess(lo, q + 1, n);
    MulLess(q, hi + 1, n);
  }

  lemma FloorExact(a: int, n: nat)
    requires n > 0
    ensures a / n * n <= a < a / n * n + n
  {
  }

  lemma {:induction false} SumBetween(xs: seq<Sample>, lo: int, hi: int)
    requires forall i :: 0 <= i < |xs| ==> lo <= xs[i].rtt <= hi
    ensures lo * |xs| <= SumRtt(xs) <= hi * |xs|
  {
    if xs == [] {
    } else {
      var n := |xs| - 1;
      assert forall i :: 0 <= i < n ==> xs[..n][i] == xs[i];
      SumBetween(xs[..n], lo, hi);
      assert lo * (n + 1) == lo * n + lo && hi * (n + 1) == hi * n + hi;
    }
  }

  /** What the aggregates are, without saying how they are found. */
  lemma {:induction false} AggregatesAreExtremes(xs: seq<Sample>) returns (i: nat)
    requires xs != []
    ensures i < |xs| && xs[i].rtt == MinRtt(xs)
    ensures forall j :: 0 <= j < |xs| ==>
        MinRtt(xs) <= xs[j].rtt && 0 <= MaxInFlight(xs) && xs[j].inflight <= MaxInFlight(xs)
    ensures MaxInFlight(xs) == 0 || exists j :: 0 <= j < |xs| && xs[j].inflight == MaxInFlight(xs)
  {
    var n := |xs| - 1;
    i := n;
    if n > 0 {
      var k := AggregatesAreExtremes(xs[..n]);
      assert forall j :: 0 <= j < n ==> xs[..n][j] == xs[j];
      if MinRtt(xs) != xs[n].rtt {
        i := k;
      }
      if MaxInFlight(xs) != 0 && MaxInFlight(xs) != xs[n].inflight {
        var j :| 0 <= j < n && xs[..n][j].inflight == MaxInFlight(xs[..n]);
        assert xs[j].inflight == MaxInFlight(xs);
      }
    } else {
      assert MaxInFlight(xs[..n]) == 0;
    }
  }

  /** The reported response time is the mean of the window rounded towards zero, and lies between
      the smallest and the largest of the window. */
  lemma MeanWithinWindow(w: seq<Sample>, hi: int)
    requires w != [] && forall i :: 0 <= i < |w| ==> w[i].rtt <= hi
    ensures MinRtt(w) <= TrackedRtt(Aggregate(w)) <= hi
    ensures SumRtt(w) >= 0 ==> TrackedRtt(Aggregate(w)) * |w| <= SumRtt(w) < TrackedRtt(Aggregate(w)) * |w| + |w|
  {
    var i := AggregatesAreExtremes(w);
    SumBetween(w, MinRtt(w), hi);
    TruncBetween(SumRtt(w), |w|, MinRtt(w), hi);
    FloorExact(SumRtt(w), |w|);
  }
}
