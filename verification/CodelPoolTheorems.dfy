/** What the CoDel pool promises, for every schedule of its goroutines. */
module CodelPoolTheorems {
  import opened Tally
  import Law = CodelControl
  import opened CodelPool
  import opened CodelPoolInvariant

  // ---------------------------------------------------------------------------------
  // Wakeups

  /** While a worker sleeps the queued tasks are covered one by one by workers that are awake
      and heading for the lock; in particular a task is never left with nobody to take it. */
  lemma NoLostWakeup(cfg: Config, acts: seq<Action>, s: System)
    requires Usable(cfg) && Execute(cfg, acts) == Some(s)
    ensures s.sh.closed ==> !SomeAsleep(s)
    ensures SomeAsleep(s) ==> |s.sh.buf| <= Total(s.workers, ReadyWeight)
    ensures SomeAsleep(s) && s.sh.buf != [] ==>
              exists w :: 0 <= w < |s.workers| && Enabled(cfg, s, Action.Take(w, s.clock))
  {
    EveryRunKeepsInv(cfg, acts, s);
    if SomeAsleep(s) && s.sh.buf != [] {
      SomeReady(s.workers);
      var w :| 0 <= w < |s.workers| && s.workers[w] == Ready;
      assert Enabled(cfg, s, Action.Take(w, s.clock));
    }
  }

  lemma SomeReady(workers: seq<Worker>)
    requires Total(workers, ReadyWeight) > 0
    ensures exists w :: 0 <= w < |workers| && workers[w] == Ready
  {
    TotalZero(workers, ReadyWeight);
  }

  // ---------------------------------------------------------------------------------
  // The gate and the caller

  predicate GateOpened(c: Call) { c.stage != Refused }

  /** The gate's done has been called at most once for each call, never for a refused one,
      and with true only for a task that returned success. */
  lemma GateToldOnce(cfg: Config, acts: seq<Action>, s: System, c: nat)
    requires Usable(cfg) && Execute(cfg, acts) == Some(s) && c < |s.calls|
    ensures |s.calls[c].dones| <= 1
    ensures s.calls[c].stage == Refused ==> s.calls[c].dones == []
    ensures true in s.calls[c].dones <==> s.calls[c].stage == Ran(Returned(true))
    ensures s.calls[c].runs <= 1 && s.calls[c].closes <= 1
    ensures s.calls[c].stage == Shed ==> s.calls[c].runs == 0 && s.calls[c].dones == [false]
  {
    BookedCall(cfg, acts, s, c);
  }

  /** A waiting caller that has its answer: told of a drop exactly when its task was dropped,
      told of success exactly when the body has ended, and its channel closed once. */
  lemma CallerToldTheTruth(cfg: Config, acts: seq<Action>, s: System, c: nat)
    requires Usable(cfg) && Execute(cfg, acts) == Some(s) && c < |s.calls|
    requires s.calls[c].waits && s.calls[c].reply.Some?
    ensures s.calls[c].reply == Some(WasShed) <==> s.calls[c].stage == Shed
    ensures s.calls[c].reply == Some(Nil) <==> s.calls[c].runs == 1
    ensures s.calls[c].closes == 1 <==> s.calls[c].reply in {Some(Nil), Some(WasShed)}
  {
    BookedCall(cfg, acts, s, c);
    ReplyOfBooked(s.calls[c]);
  }

  lemma BookedCall(cfg: Config, acts: seq<Action>, s: System, c: nat)
    requires Usable(cfg) && Execute(cfg, acts) == Some(s) && c < |s.calls|
    ensures Booked(s.calls[c])
  {
    EveryRunKeepsInv(cfg, acts, s);
  }

  lemma ReplyOfBooked(c: Call)
    requires Booked(c) && c.waits && c.reply.Some?
    ensures c.reply == Some(WasShed) <==> c.stage == Shed
    ensures c.reply == Some(Nil) <==> c.runs == 1
    ensures c.closes == 1 <==> c.reply in {Some(Nil), Some(WasShed)}
  {
  }

  /** When a waiting caller has its answer its gate has been told, exactly unless the worker is
      between the end of the body and telling the gate. */
  lemma GateToldExactlyWhen(cfg: Config, acts: seq<Action>, s: System, c: nat)
    requires Usable(cfg) && Execute(cfg, acts) == Some(s) && c < |s.calls|
    requires GateOpened(s.calls[c]) && s.calls[c].waits && s.calls[c].reply.Some?
    ensures |s.calls[c].dones| == 1 <==> !s.calls[c].stage.BodyDone?
    ensures s.calls[c].reply == Some(WasShed) ==> s.calls[c].dones == [false]
  {
    BookedCall(cfg, acts, s, c);
    DonesOfBooked(s.calls[c]);
  }

  lemma DonesOfBooked(c: Call)
    requires Booked(c) && GateOpened(c) && c.waits && c.reply.Some?
    ensures |c.dones| == 1 <==> !c.stage.BodyDone?
    ensures c.reply == Some(WasShed) ==> c.dones == [false]
  {
  }

  // ---------------------------------------------------------------------------------
  // Order and conservation

  /** accepted = queued + dropped + taken as multisets, and with adaptive LIFO off the tasks
      leave in exactly the order they came. */
  lemma NothingLost(cfg: Config, acts: seq<Action>, s: System)
    requires Usable(cfg) && Execute(cfg, acts) == Some(s)
    ensures multiset(s.acceptedLog) == multiset(s.sh.buf) + multiset(s.droppedLog) + multiset(s.servedLog)
    ensures s.sh.accepted == |s.sh.buf| + s.sh.dropped + |s.servedLog|
    ensures |s.sh.buf| <= cfg.capacity
    ensures !cfg.adaptiveLIFO ==> s.acceptedLog == s.outLog + s.sh.buf
  {
    EveryRunKeepsInv(cfg, acts, s);
    assert |multiset(s.acceptedLog)| == |s.acceptedLog|;
    assert |multiset(s.sh.buf) + multiset(s.droppedLog) + multiset(s.servedLog)|
        == |s.sh.buf| + |s.droppedLog| + |s.servedLog|;
  }

  /** A worker evaluates the item that has waited longest; what it serves is that item too,
      unless it serves newest-first, and then it is the item accepted last. */
  lemma OldestJudgedNewestServed(cfg: Config, acts: seq<Action>, s: System, now: int)
    requires Usable(cfg) && Execute(cfg, acts) == Some(s) && s.sh.buf != []
    ensures forall x :: x in s.sh.buf ==> now - x.enq <= now - s.sh.buf[0].enq
    ensures var (sh, taken) := WorkerSection(cfg, s.sh, now);
            && (taken.Drop? ==> forall x :: x in s.sh.buf ==> taken.item.ticket <= x.ticket)
            && (taken.Serve? ==> forall x :: x in s.sh.buf ==>
                  if cfg.adaptiveLIFO && sh.law.dropping
                  then x.ticket <= taken.item.ticket && x.enq <= taken.item.enq
                  else taken.item.ticket <= x.ticket && taken.item.enq <= x.enq)
  {
    EveryRunKeepsInv(cfg, acts, s);
    HeadIsOldest(s);
    var k := SectionTakesOne(cfg, s.sh, now);
  }

  lemma HeadIsOldest(s: System)
    requires Ordered(s) && s.sh.buf != []
    ensures forall x :: x in s.sh.buf ==>
              && s.sh.buf[0].enq <= x.enq <= s.sh.buf[|s.sh.buf| - 1].enq
              && s.sh.buf[0].ticket <= x.ticket <= s.sh.buf[|s.sh.buf| - 1].ticket
  {
  }

  /** Whether a call that reaches the lock is accepted depends only on the pool being open and
      having room; an accepted task is the newest in the buffer, and a call turned away leaves
      the buffer alone and has its gate told at once. */
  lemma AcceptedExactlyWhen(cfg: Config, acts: seq<Action>, s: System, c: nat, now: int, wake: nat)
    requires Usable(cfg) && Execute(cfg, acts) == Some(s) && Enabled(cfg, s, Enter(c, now, wake))
    ensures var t := Apply(cfg, s, Enter(c, now, wake));
            && (t.calls[c].stage == Queued <==> !s.sh.closed && |s.sh.buf| < cfg.capacity)
            && (t.calls[c].stage == Queued ==>
                  t.sh.buf == s.sh.buf + [Item(c, |s.acceptedLog|, now)] && t.calls[c].dones == [])
            && (t.calls[c].reply == Some(Stopped) <==> s.sh.closed)
            && (t.calls[c].stage != Queued ==> t.sh.buf == s.sh.buf && t.calls[c].dones == [false])
  {
    EveryRunKeepsInv(cfg, acts, s);
    assert Booked(s.calls[c]);
  }

  // ---------------------------------------------------------------------------------
  // Drops

  /** Every drop in every run: some evaluation at least an interval ago, and every head judged
      from then on, this one included, had waited at least the target. */
  lemma EveryDropJustified(cfg: Config, acts: seq<Action>, s: System, now: int) returns (j: nat)
    requires Usable(cfg) && Execute(cfg, acts) == Some(s)
    requires s.sh.buf != [] && WorkerSection(cfg, s.sh, now).1.Drop?
    ensures j < |s.evals| && now - s.evals[j].now >= cfg.interval
    ensures forall i :: j <= i < |s.evals| ==> Law.Sojourn(s.evals[i]) >= cfg.target
    ensures now - WorkerSection(cfg, s.sh, now).1.item.enq >= cfg.target
  {
    EveryRunKeepsInv(cfg, acts, s);
    var e := Law.Eval(s.sh.buf[0].enq, now);
    StateAfterOneMore(LawParams(cfg), s.evals, e);
    j := Law.DropsAreSound(LawParams(cfg), s.evals + [e]);
    assert forall i :: j <= i < |s.evals| ==> (s.evals + [e])[i] == s.evals[i];
  }

  /** The pool's dropped tasks are the law's drops over its evaluations, whose clock readings
      are ordered. */
  lemma PoolDropsAtTheLawsRate(cfg: Config, acts: seq<Action>, s: System)
    requires Usable(cfg) && Execute(cfg, acts) == Some(s)
    ensures Law.Monotone(s.evals) && |s.evals| == |s.outLog|
    ensures s.sh.law == Law.StateAfter(LawParams(cfg), s.evals)
    ensures s.sh.dropped == Law.DropsSince(LawParams(cfg), s.evals, 0)
  {
    EveryRunKeepsInv(cfg, acts, s);
  }

  /** Any two drops of a run: within an episode they are as far apart as the law's spacing makes
      them, otherwise an interval. */
  lemma PoolDropsSpaced(cfg: Config, acts: seq<Action>, s: System, i: nat, l: nat)
    requires Usable(cfg) && Execute(cfg, acts) == Some(s) && i < l < |s.evals|
    requires Law.Drops(LawParams(cfg), s.evals[..i + 1]) && Law.Drops(LawParams(cfg), s.evals[..l + 1])
    ensures Law.Apart(LawParams(cfg), s.evals, i, l)
  {
    PoolDropsAtTheLawsRate(cfg, acts, s);
    Law.DropsApart(LawParams(cfg), s.evals, i, l);
  }

  /** The first and the last of n + 1 drops of one episode of a run. */
  lemma PoolEpisodeSpan(cfg: Config, acts: seq<Action>, s: System, first: nat, l: nat)
    requires Usable(cfg) && Execute(cfg, acts) == Some(s) && first < l < |s.evals|
    requires Law.Drops(LawParams(cfg), s.evals[..first + 1]) && Law.Drops(LawParams(cfg), s.evals[..l + 1])
    requires var start := Law.EpisodeStart(LawParams(cfg), s.evals[..l + 1]);
             start <= first && Law.DropsSince(LawParams(cfg), s.evals[..first], start) == 0
    ensures var n := Law.DropsSince(LawParams(cfg), s.evals[..l], Law.EpisodeStart(LawParams(cfg), s.evals[..l + 1]));
            n >= 1 && s.evals[l].now - s.evals[first].now >= n * Law.Spacing(cfg.interval, n)
  {
    PoolDropsSpaced(cfg, acts, s, first, l);
  }

  // ---------------------------------------------------------------------------------
  // Stop

  function CallWork(c: Call): nat {
    match c.stage
    case Queued => 3
    case Dropping(_) => 3
    case Running(_) => 3
    case DropTold(_) => 2
    case BodyDone(_, _) => 2
    case _ => 0
  }

  /** What is left for the workers to do. */
  function Work(s: System): nat {
    Total(s.calls, CallWork) + Total(s.workers, ReadyWeight)
  }

  predicate ByWorker(a: Action) {
    a.Take? || a.TellGateDropped? || a.TellCallerDropped? || a.EndBody? || a.TellGateRan?
  }

  lemma WorkAfterHolder(s: System, t: System, w: nat)
    requires HasTask(s, w) && |t.calls| == |s.calls| && |t.workers| == |s.workers|
    requires t.calls == s.calls[s.workers[w].call := t.calls[s.workers[w].call]]
    requires t.workers == s.workers[w := t.workers[w]]
    ensures Work(t) + CallWork(TaskOf(s, w))
         == Work(s) + CallWork(t.calls[s.workers[w].call]) + ReadyWeight(t.workers[w])
  {
    var c := s.workers[w].call;
    TotalUpdate(s.calls, c, t.calls[c], CallWork);
    TotalUpdate(s.workers, w, t.workers[w], ReadyWeight);
  }

  lemma WorkAfterTake(cfg: Config, s: System, w: nat, now: int)
    requires Usable(cfg) && Enabled(cfg, s, Action.Take(w, now)) && BufferLinked(s) && s.sh.closed
    ensures Work(ApplyTake(cfg, s, w, now)) + 1 == Work(s)
  {
    var t := ApplyTake(cfg, s, w, now);
    if s.sh.buf != [] {
      var k, stage := TakeShape(cfg, s, w, now);
      var c := s.sh.buf[k].call;
      TotalUpdate(s.calls, c, t.calls[c], CallWork);
    }
    TotalUpdate(s.workers, w, t.workers[w], ReadyWeight);
  }

  lemma WorkAfterOther(cfg: Config, s: System, a: Action)
    requires Usable(cfg) && Enabled(cfg, s, a) && s.sh.closed && !ByWorker(a)
    ensures Work(Apply(cfg, s, a)) == Work(s)
  {
    var t := Apply(cfg, s, a);
    match a
    case Arrive(_, _) => TotalAppend(s.calls, t.calls[|s.calls|], CallWork);
    case Enter(c, now, wake) => WorkAfterEnter(cfg, s, c, now, wake);
    case Wake(c) => TotalUpdate(s.calls, c, t.calls[c], CallWork);
    case StopReturns =>
  }

  lemma WorkAfterEnter(cfg: Config, s: System, c: nat, now: int, wake: nat)
    requires Usable(cfg) && Enabled(cfg, s, Enter(c, now, wake)) && s.sh.closed
    ensures Work(ApplyEnter(cfg, s, c, now, wake)) == Work(s)
  {
    var t := ApplyEnter(cfg, s, c, now, wake);
    assert t.workers == s.workers && t.calls[c].stage == TurnedAway;
    TotalUpdate(s.calls, c, t.calls[c], CallWork);
  }

  /** Once the pool is closed every worker action uses up exactly one unit of work and no other
      action adds any. */
  lemma WorkRunsDown(cfg: Config, s: System, a: Action)
    requires Usable(cfg) && BufferLinked(s) && Enabled(cfg, s, a) && s.sh.closed
    ensures Work(s) == Work(Apply(cfg, s, a)) + Once(ByWorker(a))
  {
    if a.Take? {
      WorkAfterTake(cfg, s, a.worker, a.now);
    } else if ByWorker(a) {
      WorkAfterReport(cfg, s, a);
    } else {
      WorkAfterOther(cfg, s, a);
    }
  }

  lemma WorkAfterReport(cfg: Config, s: System, a: Action)
    requires Usable(cfg) && Enabled(cfg, s, a) && ByWorker(a) && !a.Take?
    ensures Work(s) == Work(Apply(cfg, s, a)) + 1
  {
    WorkAfterHolder(s, Apply(cfg, s, a), a.worker);
  }

  /** Until every worker has gone, some worker can act: Stop cannot hang. */
  lemma StopNeverStuck(cfg: Config, s: System) returns (a: Action)
    requires Usable(cfg) && Inv(cfg, s) && s.sh.closed
    requires exists w :: 0 <= w < |s.workers| && s.workers[w] != Exited
    ensures ByWorker(a) && Enabled(cfg, s, a)
  {
    var w: nat :| w < |s.workers| && s.workers[w] != Exited;
    if s.workers[w] == Ready {
      a := Action.Take(w, s.clock);
    } else {
      assert s.workers[w] != Asleep;
      assert HeldBy(TaskOf(s, w).stage) == Some(w);
      match TaskOf(s, w).stage
      case Dropping(_) => a := TellGateDropped(w);
      case DropTold(_) => a := TellCallerDropped(w);
      case Running(_) => a := EndBody(w, Panicked);
      case BodyDone(_, _) => a := TellGateRan(w);
    }
  }

  /** The work is used up exactly when every worker has gone, so after Close the workers take
      exactly Work(s) further actions whatever the schedule. */
  lemma NoWorkNoWorkers(cfg: Config, s: System)
    requires Usable(cfg) && Inv(cfg, s) && s.sh.closed
    ensures Work(s) == 0 <==> forall w :: 0 <= w < |s.workers| ==> s.workers[w] == Exited
  {
    TotalZero(s.calls, CallWork);
    TotalZero(s.workers, ReadyWeight);
    if exists w :: 0 <= w < |s.workers| && s.workers[w] != Exited {
      var a := StopNeverStuck(cfg, s);
      WorkRunsDown(cfg, s, a);
    } else {
      AllGoneAllDone(cfg, s);
    }
  }

  lemma AllGoneAllDone(cfg: Config, s: System)
    requires Usable(cfg) && Inv(cfg, s)
    requires forall w :: 0 <= w < |s.workers| ==> s.workers[w] == Exited
    ensures s.sh.buf == []
    ensures forall c :: 0 <= c < |s.calls| ==> CallWork(s.calls[c]) == 0
  {
    assert s.workers[0] == Exited;
  }

  function WorkerActions(a: Action): nat { Once(ByWorker(a)) }

  /** From any closed state on, the worker actions taken and the work left add up to the work
      there was: the drain always takes exactly Work(s) worker actions. */
  lemma {:induction false} DrainLength(cfg: Config, s: System, more: seq<Action>, t: System)
    requires Usable(cfg) && Inv(cfg, s) && s.sh.closed
    requires ExecuteFrom(cfg, s, more) == Some(t)
    ensures t.sh.closed && Total(more, WorkerActions) + Work(t) == Work(s)
  {
    if more == [] {
    } else {
      var n := |more| - 1;
      var r := ExecuteFrom(cfg, s, more[..n]).value;
      DrainLength(cfg, s, more[..n], r);
      LinkedFromThere(cfg, s, more[..n], r);
      WorkRunsDown(cfg, r, more[n]);
      StaysClosed(cfg, r, more[n]);
    }
  }

  lemma LinkedFromThere(cfg: Config, s: System, acts: seq<Action>, t: System)
    requires Usable(cfg) && Inv(cfg, s) && ExecuteFrom(cfg, s, acts) == Some(t)
    ensures BufferLinked(t)
  {
    InvFromThere(cfg, s, acts, t);
  }

  lemma StaysClosed(cfg: Config, s: System, a: Action)
    requires Usable(cfg) && Enabled(cfg, s, a) && s.sh.closed
    ensures Apply(cfg, s, a).sh.closed
  {
  }

  predicate Settled(c: Call) {
    c.stage == Shed || c.stage.Ran?
  }

  /** When Stop has returned: the queue is empty; every call is refused, turned away, still on
      its way to the lock, or settled; a settled one was run exactly once or dropped exactly
      once and its gate told exactly once; and once every call has returned to its caller,
      every admitted call has resolved its gate. */
  lemma StopSettlesEverything(cfg: Config, acts: seq<Action>, s: System)
    requires Usable(cfg) && Execute(cfg, acts) == Some(s) && s.stopReturned
    ensures s.sh.buf == []
    ensures forall c :: 0 <= c < |s.calls| ==>
              s.calls[c].stage in {Refused, Admitted, TurnedAway} || Settled(s.calls[c])
    ensures forall c :: 0 <= c < |s.calls| && Settled(s.calls[c]) ==>
              s.calls[c].runs + Once(s.calls[c].stage == Shed) == 1 && |s.calls[c].dones| == 1
    ensures (forall c :: 0 <= c < |s.calls| ==> s.calls[c].reply.Some?) ==>
              forall c :: 0 <= c < |s.calls| && GateOpened(s.calls[c]) ==> |s.calls[c].dones| == 1
    ensures s.sh.accepted == s.sh.dropped + |s.servedLog|
  {
    EveryRunKeepsInv(cfg, acts, s);
    AllGoneAllDone(cfg, s);
    NothingLost(cfg, acts, s);
    assert forall c :: 0 <= c < |s.calls| ==> Booked(s.calls[c]);
  }
}
