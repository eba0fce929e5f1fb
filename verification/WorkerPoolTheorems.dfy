/** What the bounded pool promises, for every schedule of its goroutines. */
module WorkerPoolTheorems {
  import opened Tally
  import opened WorkerPool
  import opened WorkerPoolInvariant

  // ---------------------------------------------------------------------------------
  // Tokens

  /** The counting argument: the semaphore is queued tasks, plus workers from receive to
      release, plus submitters between acquire and send or refund, and never exceeds
      Workers + QueueCapacity; so neither do the tasks in flight. */
  lemma TokenAccounting(cfg: Config, acts: seq<Action>, s: System)
    requires Usable(cfg) && Execute(cfg, acts) == Some(s)
    ensures s.sh.sem == |s.sh.tasks| + Total(s.workers, BusyWeight) + Total(s.calls, SlotWeight)
    ensures 0 <= s.sh.sem <= Capacity(cfg)
    ensures |s.sh.tasks| + Total(s.workers, BusyWeight) <= cfg.workers + cfg.queueCapacity
  {
    EveryRunKeepsInv(cfg, acts, s);
  }

  /** Whenever a goroutine has reached a channel operation it can complete it at once: the send
      finds room and an open channel, the refund and the worker's release find a token. */
  lemma NothingBlocks(cfg: Config, acts: seq<Action>, s: System)
    requires Usable(cfg) && Execute(cfg, acts) == Some(s)
    ensures forall c :: Enabled(cfg, s, Send(c)) ==> |s.sh.tasks| < Capacity(cfg) && !s.sh.closed
    ensures forall c :: Enabled(cfg, s, Refund(c)) ==> s.sh.sem > 0
    ensures forall w :: Enabled(cfg, s, Release(w)) ==> s.sh.sem > 0
  {
    EveryRunKeepsInv(cfg, acts, s);
    forall c | Enabled(cfg, s, Send(c)) ensures |s.sh.tasks| < Capacity(cfg) && !s.sh.closed {
      SlotTaken(cfg, s, c);
    }
    forall c | Enabled(cfg, s, Refund(c)) ensures s.sh.sem > 0 {
      SlotTaken(cfg, s, c);
    }
    forall w | Enabled(cfg, s, Release(w)) ensures s.sh.sem > 0 {
      TotalAtLeast(s.workers, w, BusyWeight);
    }
  }

  lemma SlotTaken(cfg: Config, s: System, c: nat)
    requires Tokens(cfg, s) && c < |s.calls| && SlotWeight(s.calls[c]) == 1
    ensures |s.sh.tasks| < s.sh.sem <= Capacity(cfg)
  {
    TotalAtLeast(s.calls, c, SlotWeight);
  }

  /** A call is turned away as full only when every slot is taken: by a queued task, a worker
      that is not idle, or a submitter on its way in or out. */
  lemma FullMeansFull(cfg: Config, acts: seq<Action>, s: System, c: nat)
    requires Usable(cfg) && Execute(cfg, acts) == Some(s)
    requires cfg.maxWait <= 0 && At(s, c, Admitted)
    ensures Enabled(cfg, s, GiveUp(c)) <==> !Enabled(cfg, s, TakeSlot(c))
    ensures Enabled(cfg, s, GiveUp(c)) <==>
              |s.sh.tasks| + Total(s.workers, BusyWeight) + Total(s.calls, SlotWeight) == Capacity(cfg)
  {
    EveryRunKeepsInv(cfg, acts, s);
  }

  function NotBusyWeight(w: Worker): nat { if w.Busy? then 0 else 1 }

  /** An idle worker never causes a task to be turned away: if one is turned away as full while a
      worker is idle, more tasks than the queue may hold are already queued or on their way. */
  lemma IdleWorkerNeverRejects(cfg: Config, acts: seq<Action>, s: System, c: nat, w: nat)
    requires Usable(cfg) && Execute(cfg, acts) == Some(s)
    requires cfg.maxWait <= 0 && Enabled(cfg, s, GiveUp(c)) && w < |s.workers| && s.workers[w] == Idle
    ensures |s.sh.tasks| + Total(s.calls, SlotWeight) > cfg.queueCapacity
  {
    EveryRunKeepsInv(cfg, acts, s);
    TotalComplement(s.workers, BusyWeight, NotBusyWeight);
    TotalAtLeast(s.workers, w, NotBusyWeight);
  }

  /** A caller that submits one task after another is refused exactly when nothing may be queued
      and every worker, though done with the body of its task, has not given its token back: a
      queue capacity of one is enough for it to be taken every time. */
  lemma SequentialCallerRefusedExactlyWhen(cfg: Config, acts: seq<Action>, s: System, c: nat)
    requires Usable(cfg) && Execute(cfg, acts) == Some(s) && cfg.maxWait <= 0 && At(s, c, Admitted)
    requires forall d :: 0 <= d < |s.calls| && d != c ==> s.calls[d].waits && s.calls[d].reply.Some?
    ensures Enabled(cfg, s, GiveUp(c)) <==>
              cfg.queueCapacity == 0 && forall w :: 0 <= w < |s.workers| ==> s.workers[w].Busy?
    ensures forall w :: 0 <= w < |s.workers| && s.workers[w].Busy? ==> HasTask(s, w) && TaskOf(s, w).runs == 1
  {
    EveryRunKeepsInv(cfg, acts, s);
    SequentiallyOver(s, c);
    NobodyWaiting(s);
    AllBusy(s.workers);
    forall w | 0 <= w < |s.workers| && s.workers[w].Busy? ensures HasTask(s, w) && TaskOf(s, w).runs == 1 {
      RanWhenHeld(s, w);
    }
  }

  lemma NobodyWaiting(s: System)
    requires Linked(s)
    requires forall d :: 0 <= d < |s.calls| ==> SlotWeight(s.calls[d]) == 0 && s.calls[d].task != Queued
    ensures s.sh.tasks == [] && Total(s.calls, SlotWeight) == 0
  {
    TotalZero(s.calls, SlotWeight);
    if s.sh.tasks != [] {
      SomeQueued(s);
    }
  }

  lemma SomeQueued(s: System)
    requires Linked(s) && s.sh.tasks != []
    ensures exists c :: 0 <= c < |s.calls| && s.calls[c].task == Queued
  {
    assert s.calls[s.sh.tasks[0]].task == Queued;
  }

  lemma SequentiallyOver(s: System, c: nat)
    requires Ledger(s) && At(s, c, Admitted)
    requires forall d :: 0 <= d < |s.calls| && d != c ==> s.calls[d].waits && s.calls[d].reply.Some?
    ensures forall d :: 0 <= d < |s.calls| ==>
              SlotWeight(s.calls[d]) == 0 && s.calls[d].task != Queued && !s.calls[d].task.Running?
  {
    forall d | 0 <= d < |s.calls|
      ensures SlotWeight(s.calls[d]) == 0 && s.calls[d].task != Queued && !s.calls[d].task.Running?
    {
      assert Booked(s.calls[d]);
      if d != c {
        AnsweredIsOver(s.calls[d]);
      }
    }
  }

  lemma AnsweredIsOver(c: Call)
    requires Booked(c) && c.waits && c.reply.Some?
    ensures SlotWeight(c) == 0 && c.task != Queued && !c.task.Running?
  {
  }

  lemma RanWhenHeld(s: System, w: nat)
    requires Linked(s) && Ledger(s) && w < |s.workers| && s.workers[w].Busy?
    requires !s.calls[s.workers[w].call].task.Running?
    ensures HasTask(s, w) && TaskOf(s, w).runs == 1
  {
    assert HeldBy(TaskOf(s, w).task) == Some(w) && Booked(TaskOf(s, w));
  }

  lemma AllBusy(workers: seq<Worker>)
    ensures Total(workers, BusyWeight) <= |workers|
    ensures Total(workers, BusyWeight) == |workers| <==> forall w :: 0 <= w < |workers| ==> workers[w].Busy?
  {
    TotalComplement(workers, BusyWeight, NotBusyWeight);
    TotalZero(workers, NotBusyWeight);
  }

  // ---------------------------------------------------------------------------------
  // The gate, the caller and the order

  /** The gate's done has been called at most once for each call, never for a refused one, and
      with true only for a task that returned success; a body ends at most once. */
  lemma GateToldOnce(cfg: Config, acts: seq<Action>, s: System, c: nat)
    requires Usable(cfg) && Execute(cfg, acts) == Some(s) && c < |s.calls|
    ensures |s.calls[c].dones| <= 1 && s.calls[c].runs <= 1 && s.calls[c].closes <= 1
    ensures s.calls[c].at == Refused ==> s.calls[c].dones == []
    ensures true in s.calls[c].dones <==>
              || (s.calls[c].task.GateTold? && s.calls[c].task.outcome == Returned(true))
              || s.calls[c].task == Finished(Returned(true))
    ensures s.calls[c].at == TurnedAway ==> s.calls[c].dones == [false] && s.calls[c].runs == 0
  {
    EveryRunKeepsInv(cfg, acts, s);
    assert Booked(s.calls[c]);
  }

  /** A waiting caller that has been answered with success has had its task run to its end, and
      one answered with an error has not had it run at all. */
  lemma CallerToldTheTruth(cfg: Config, acts: seq<Action>, s: System, c: nat)
    requires Usable(cfg) && Execute(cfg, acts) == Some(s) && c < |s.calls|
    requires s.calls[c].waits && s.calls[c].reply.Some?
    ensures s.calls[c].reply == Some(Nil) <==> s.calls[c].runs == 1
    ensures s.calls[c].closes == s.calls[c].runs
  {
    EveryRunKeepsInv(cfg, acts, s);
    assert Booked(s.calls[c]);
  }

  /** When a waiting caller has its answer its gate has been told, exactly unless the worker is
      between the end of the body and telling the gate. */
  lemma GateToldExactlyWhen(cfg: Config, acts: seq<Action>, s: System, c: nat)
    requires Usable(cfg) && Execute(cfg, acts) == Some(s) && c < |s.calls|
    requires s.calls[c].at != Refused && s.calls[c].waits && s.calls[c].reply.Some?
    ensures |s.calls[c].dones| == 1 <==> !s.calls[c].task.BodyDone?
  {
    EveryRunKeepsInv(cfg, acts, s);
    assert Booked(s.calls[c]);
    DonesOfBooked(s.calls[c]);
  }

  lemma DonesOfBooked(c: Call)
    requires Booked(c) && c.at != Refused && c.waits && c.reply.Some?
    ensures |c.dones| == 1 <==> !c.task.BodyDone?
  {
  }

  lemma Step(cfg: Config, acts: seq<Action>, s: System, a: Action) returns (more: seq<Action>, t: System)
    requires Usable(cfg) && Execute(cfg, acts) == Some(s) && Enabled(cfg, s, a)
    ensures more == acts + [a] && t == Apply(cfg, s, a) && Execute(cfg, more) == Some(t)
  {
    more, t := acts + [a], Apply(cfg, s, a);
    assert more[..|more| - 1] == acts;
  }

  /** A run in which SubmitWait has been answered with success and the gate not yet told. */
  lemma AnsweredBeforeTheGate() returns (acts: seq<Action>, s: System)
    ensures Execute(Config(1, 0, 0), acts) == Some(s)
    ensures |s.calls| == 1 && s.calls[0].waits && s.calls[0].reply == Some(Nil) && s.calls[0].dones == []
    ensures s.sh.sem == 1
  {
    var cfg := Config(1, 0, 0);
    acts, s := OneTaskRunning();
    acts, s := Step(cfg, acts, s, EndBody(0, Returned(true)));
    assert s.calls == [Call(true, Accepted, BodyDone(0, Returned(true)), [], 1, 1, None)];
    acts, s := Step(cfg, acts, s, Wake(0));
  }

  lemma OneTaskRunning() returns (acts: seq<Action>, s: System)
    ensures Execute(Config(1, 0, 0), acts) == Some(s) && s.sh.sem == 1 && s.workers == [Busy(0)]
    ensures s.calls == [Call(true, Accepted, Running(0), [], 0, 0, None)]
  {
    acts, s := OneTaskSent();
    acts, s := Step(Config(1, 0, 0), acts, s, Receive(0));
  }

  /** A run in which a caller is refused although its one earlier call has been answered with
      success and nobody else has submitted anything. */
  lemma RefusedAfterSuccess() returns (acts: seq<Action>, s: System)
    ensures Execute(Config(1, 0, 0), acts) == Some(s) && |s.calls| == 2
    ensures s.calls[0].reply == Some(Nil) && s.calls[1].at == TurnedAway && s.calls[1].reply == Some(QueueFull)
  {
    var cfg := Config(1, 0, 0);
    acts, s := AnsweredBeforeTheGate();
    acts, s := Step(cfg, acts, s, Arrive(true, true));
    acts, s := Step(cfg, acts, s, GiveUp(1));
  }

  lemma OneTaskSent() returns (acts: seq<Action>, s: System)
    ensures Execute(Config(1, 0, 0), acts) == Some(s)
    ensures s.sh.tasks == [0] && s.sh.sem == 1 && s.workers == [Idle]
    ensures s.calls == [Call(true, Accepted, Queued, [], 0, 0, None)]
  {
    var cfg := Config(1, 0, 0);
    acts, s := OneSlotTaken();
    acts, s := Step(cfg, acts, s, Lock(0));
    assert s.calls == [Call(true, LockedOpen, NoTask, [], 0, 0, None)];
    acts, s := Step(cfg, acts, s, Send(0));
    assert s.calls == [Call(true, Sent, Queued, [], 0, 0, None)];
    acts, s := Step(cfg, acts, s, Count(0));
  }

  lemma OneSlotTaken() returns (acts: seq<Action>, s: System)
    ensures Execute(Config(1, 0, 0), acts) == Some(s)
    ensures s.sh.tasks == [] && s.sh.sem == 1 && !s.sh.closed && s.workers == [Idle]
    ensures s.calls == [Call(true, HasSlot, NoTask, [], 0, 0, None)]
  {
    var cfg := Config(1, 0, 0);
    acts, s := [], Init(cfg);
    acts, s := Step(cfg, acts, s, Arrive(true, true));
    assert s.calls == [Call(true, Admitted, NoTask, [], 0, 0, None)];
    acts, s := Step(cfg, acts, s, TakeSlot(0));
  }

  /** Tasks start in the order they were sent. */
  lemma StartedInOrder(cfg: Config, acts: seq<Action>, s: System)
    requires Usable(cfg) && Execute(cfg, acts) == Some(s)
    ensures s.sentLog == s.receivedLog + s.sh.tasks
  {
    EveryRunKeepsInv(cfg, acts, s);
  }

  // ---------------------------------------------------------------------------------
  // Stop

  function CallWork(c: Call): nat {
    match c.task
    case Queued => 4
    case Running(_) => 4
    case BodyDone(_, _) => 3
    case GateTold(_, _) => 2
    case _ => 0
  }

  function IdleWeight(w: Worker): nat { if w == Idle then 1 else 0 }

  function Work(s: System): nat {
    Total(s.calls, CallWork) + Total(s.workers, IdleWeight)
  }

  predicate ByWorker(a: Action) {
    a.Receive? || a.Quit? || a.EndBody? || a.TellGate? || a.Release?
  }

  function WorkerActions(a: Action): nat { Once(ByWorker(a)) }

  lemma HolderProgress(cfg: Config, s: System, a: Action, w: nat)
    requires a in {TellGate(w), Release(w)} || (a.EndBody? && a.worker == w)
    requires Enabled(cfg, s, a)
    ensures var t, c := Apply(cfg, s, a), s.workers[w].call;
            && Touches(s, a) == Some(c) && c < |t.calls| && Moves(a) == (if a.Release? then Some(w) else None)
            && CallWork(s.calls[c]) == CallWork(t.calls[c]) + (if a.Release? then 2 else 1)
            && (a.Release? ==> |t.workers| == |s.workers| && t.workers[w] == Idle)
  {
  }

  lemma WorkByHolder(cfg: Config, s: System, a: Action, w: nat)
    requires a in {TellGate(w), Release(w)} || (a.EndBody? && a.worker == w)
    requires Enabled(cfg, s, a) && Linked(s)
    ensures Work(s) == Work(Apply(cfg, s, a)) + 1
  {
    HolderProgress(cfg, s, a, w);
    CallTotalAfter(cfg, s, a, CallWork);
    WorkerTotalAfter(cfg, s, a, IdleWeight);
  }

  lemma WorkByIdler(cfg: Config, s: System, a: Action)
    requires a.Receive? || a.Quit?
    requires Enabled(cfg, s, a) && Linked(s)
    ensures Work(s) == Work(Apply(cfg, s, a)) + 1
  {
    CallTotalAfter(cfg, s, a, CallWork);
    WorkerTotalAfter(cfg, s, a, IdleWeight);
  }

  lemma TaskLeftAlone(cfg: Config, s: System, a: Action)
    requires !ByWorker(a) && !a.Send? && Enabled(cfg, s, a)
    ensures Moves(a).None?
    ensures var t := Apply(cfg, s, a);
            match Touches(s, a)
            case Some(c) => c < |s.calls| == |t.calls| && t.calls[c].task == s.calls[c].task
            case None => a.Arrive? ==> |t.calls| == |s.calls| + 1 && t.calls[|s.calls|].task == NoTask
  {
  }

  lemma WorkByOthers(cfg: Config, s: System, a: Action)
    requires !ByWorker(a) && !a.Send? && Enabled(cfg, s, a) && Linked(s)
    ensures Work(s) == Work(Apply(cfg, s, a))
  {
    TaskLeftAlone(cfg, s, a);
    CallTotalAfter(cfg, s, a, CallWork);
    WorkerTotalAfter(cfg, s, a, IdleWeight);
  }

  /** Once the pool is closed every worker action uses up exactly one unit of work and no other
      action adds any: nothing is sent any more. */
  lemma WorkRunsDown(cfg: Config, s: System, a: Action)
    requires Enabled(cfg, s, a) && Linked(s) && LockHonoured(s) && s.sh.closed
    ensures Work(s) == Work(Apply(cfg, s, a)) + Once(ByWorker(a))
  {
    match a
    case Receive(_) => WorkByIdler(cfg, s, a);
    case Quit(_) => WorkByIdler(cfg, s, a);
    case EndBody(w, _) => WorkByHolder(cfg, s, a, w);
    case TellGate(w) => WorkByHolder(cfg, s, a, w);
    case Release(w) => WorkByHolder(cfg, s, a, w);
    case Send(_) => assert false;
    case _ => WorkByOthers(cfg, s, a);
  }

  lemma {:induction false} DrainLength(cfg: Config, s: System, more: seq<Action>, t: System)
    requires Usable(cfg) && Inv(cfg, s) && s.sh.closed
    requires ExecuteFrom(cfg, s, more) == Some(t)
    ensures t.sh.closed && Total(more, WorkerActions) + Work(t) == Work(s)
  {
    if more == [] {
    } else {
      var n := |more| - 1;
      var r := ExecuteFrom(cfg, s, more[..n]).value;
      DrainLength(cfg, s, more[..n], r);
      LinkedFromThere(cfg, s, more[..n], r);
      WorkRunsDown(cfg, r, more[n]);
      StaysClosed(cfg, r, more[n]);
    }
  }

  lemma LinkedFromThere(cfg: Config, s: System, acts: seq<Action>, t: System)
    requires Usable(cfg) && Inv(cfg, s) && ExecuteFrom(cfg, s, acts) == Some(t)
    ensures Linked(t) && LockHonoured(t)
  {
    InvFromThere(cfg, s, acts, t);
  }

  lemma StaysClosed(cfg: Config, s: System, a: Action)
    requires Enabled(cfg, s, a) && s.sh.closed
    ensures Apply(cfg, s, a).sh.closed
  {
  }

  /** Until every worker has gone, some worker can act and finds the token it gives back: Stop
      cannot hang. */
  lemma StopNeverStuck(cfg: Config, s: System) returns (a: Action)
    requires Inv(cfg, s) && s.sh.closed
    requires exists w :: 0 <= w < |s.workers| && s.workers[w] != Exited
    ensures ByWorker(a) && Enabled(cfg, s, a)
    ensures a.Release? ==> s.sh.sem > 0
  {
    var w: nat :| w < |s.workers| && s.workers[w] != Exited;
    if s.workers[w] == Idle {
      a := if s.sh.tasks == [] then Quit(w) else Receive(w);
    } else {
      assert HeldBy(TaskOf(s, w).task) == Some(w);
      TotalAtLeast(s.workers, w, BusyWeight);
      match TaskOf(s, w).task
      case Running(_) => a := EndBody(w, Panicked);
      case BodyDone(_, _) => a := TellGate(w);
      case GateTold(_, _) => a := Release(w);
    }
  }

  /** The write lock of Stop is never kept waiting by a blocked reader: whoever holds the read
      lock has its next action enabled, with room for the task it sends on an open channel and a
      token for the one it takes back. */
  lemma ReadersMoveOn(cfg: Config, acts: seq<Action>, s: System, c: nat) returns (a: Action)
    requires Usable(cfg) && Execute(cfg, acts) == Some(s)
    requires c < |s.calls| && HoldsReadLock(s.calls[c])
    ensures Enabled(cfg, s, a) && a in {Send(c), Refund(c), Decline(c), Count(c)}
    ensures a.Send? ==> |s.sh.tasks| < Capacity(cfg) && !s.sh.closed
    ensures a.Refund? ==> s.sh.sem > 0
  {
    NothingBlocks(cfg, acts, s);
    a := match s.calls[c].at
      case LockedOpen => Send(c)
      case LockedLate => Refund(c)
      case LockedRefunded => Decline(c)
      case _ => Count(c);
  }

  /** The work is used up exactly when every worker has gone, so after the close the workers take
      exactly Work(s) further actions whatever the schedule. */
  lemma NoWorkNoWorkers(cfg: Config, s: System)
    requires Usable(cfg) && Inv(cfg, s) && s.sh.closed
    ensures Work(s) == 0 <==> forall w :: 0 <= w < |s.workers| ==> s.workers[w] == Exited
  {
    TotalZero(s.calls, CallWork);
    TotalZero(s.workers, IdleWeight);
    if exists w :: 0 <= w < |s.workers| && s.workers[w] != Exited {
      var a := StopNeverStuck(cfg, s);
      WorkRunsDown(cfg, s, a);
    } else {
      AllGoneAllDone(cfg, s);
    }
  }

  lemma AllGoneAllDone(cfg: Config, s: System)
    requires Usable(cfg) && Inv(cfg, s)
    requires forall w :: 0 <= w < |s.workers| ==> s.workers[w] == Exited
    ensures s.sh.closed && s.sh.tasks == []
    ensures forall c :: 0 <= c < |s.calls| ==> s.calls[c].task == NoTask || s.calls[c].task.Finished?
  {
    assert s.workers[0] == Exited;
  }

  function RunWeight(c: Call): nat { c.runs }

  lemma SameTotal(calls: seq<Call>, v: Call -> nat, w: Call -> nat)
    requires forall i :: 0 <= i < |calls| ==> v(calls[i]) == w(calls[i])
    ensures Total(calls, v) == Total(calls, w)
  {
    TotalBelow(calls, v, w);
    TotalBelow(calls, w, v);
  }

  /** When Stop has returned: every task ever sent has been run exactly once and its gate told
      exactly once, accepted equals the number of executions, and once every call has
      returned to its caller every admitted call has resolved its gate. */
  lemma StopRunsEverything(cfg: Config, acts: seq<Action>, s: System)
    requires Usable(cfg) && Execute(cfg, acts) == Some(s) && s.stopReturned
    ensures s.sh.tasks == [] && s.receivedLog == s.sentLog
    ensures forall c :: 0 <= c < |s.calls| && s.calls[c].task != NoTask ==>
              s.calls[c].at == Accepted && s.calls[c].runs == 1 && |s.calls[c].dones| == 1
    ensures s.sh.accepted == Total(s.calls, RunWeight)
    ensures (forall c :: 0 <= c < |s.calls| ==> s.calls[c].reply.Some?) ==>
              forall c :: 0 <= c < |s.calls| && s.calls[c].at != Refused ==> |s.calls[c].dones| == 1
  {
    EveryRunKeepsInv(cfg, acts, s);
    AllGoneAllDone(cfg, s);
    assert forall c :: 0 <= c < |s.calls| ==> Booked(s.calls[c]);
    SameTotal(s.calls, AcceptedWeight, RunWeight);
  }
}
