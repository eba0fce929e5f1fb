/** What every action of the bounded pool's protocol keeps. */
module WorkerPoolInvariant {
  import opened Tally
  import opened WorkerPool

  function HeldBy(t: Task): Option<nat> {
    match t
    case Running(w) => Some(w)
    case BodyDone(w, _) => Some(w)
    case GateTold(w, _) => Some(w)
    case _ => None
  }

  predicate InChannel(tasks: seq<nat>, c: nat) {
    exists i :: 0 <= i < |tasks| && tasks[i] == c
  }

  /** A busy worker holds exactly the call whose task names that worker, and the channel holds
      exactly the queued tasks, each once. */
  ghost predicate Linked(s: System) {
    && (forall w :: 0 <= w < |s.workers| && s.workers[w].Busy? ==>
          s.workers[w].call < |s.calls| && HeldBy(s.calls[s.workers[w].call].task) == Some(w))
    && (forall c :: 0 <= c < |s.calls| && HeldBy(s.calls[c].task).Some? ==>
          var w := HeldBy(s.calls[c].task).value; w < |s.workers| && s.workers[w] == Busy(c))
    && (forall i :: 0 <= i < |s.sh.tasks| ==>
          s.sh.tasks[i] < |s.calls| && s.calls[s.sh.tasks[i]].task == Queued)
    && (forall c :: 0 <= c < |s.calls| && s.calls[c].task == Queued ==> InChannel(s.sh.tasks, c))
    && (forall i, j :: 0 <= i < j < |s.sh.tasks| ==> s.sh.tasks[i] != s.sh.tasks[j])
  }

  function BusyWeight(w: Worker): nat { if w.Busy? then 1 else 0 }

  /** A submitter between acquiring its token and sending or refunding. */
  function SlotWeight(c: Call): nat {
    if c.at in {HasSlot, LockedOpen, LockedLate} then 1 else 0
  }

  /** Every token in the semaphore is accounted for. */
  ghost predicate Tokens(cfg: Config, s: System) {
    && s.sh.sem == |s.sh.tasks| + Total(s.workers, BusyWeight) + Total(s.calls, SlotWeight)
    && s.sh.sem <= Capacity(cfg)
  }

  predicate SeesTruth(c: Call, closed: bool) {
    && (c.at == LockedOpen || c.at == Sent ==> !closed)
    && (c.at == LockedLate || c.at == LockedRefunded ==> closed)
  }

  /** The read lock keeps a submitter's view of closed true while it acts on it. */
  ghost predicate LockHonoured(s: System) {
    && (forall c :: 0 <= c < |s.calls| ==>
          SeesTruth(s.calls[c], s.sh.closed))
    && ((exists w :: 0 <= w < |s.workers| && s.workers[w] == Exited) ==> s.sh.closed && s.sh.tasks == [])
    && (s.stopReturned ==> s.sh.closed && forall w :: 0 <= w < |s.workers| ==> s.workers[w] == Exited)
  }

  predicate TaskBooked(c: Call) {
    match c.task
    case NoTask => false
    case Queued => c.dones == [] && c.runs == 0 && c.closes == 0
    case Running(_) => c.dones == [] && c.runs == 0 && c.closes == 0
    case BodyDone(_, _) => c.dones == [] && c.runs == 1 && c.closes == Once(c.waits)
    case GateTold(_, o) => c.dones == [o == Returned(true)] && c.runs == 1 && c.closes == Once(c.waits)
    case Finished(o) => c.dones == [o == Returned(true)] && c.runs == 1 && c.closes == Once(c.waits)
  }

  /** Book-keeping of one call: what the gate, the body and the caller have been told. */
  predicate Booked(c: Call) {
    match c.at
    case Sent => TaskBooked(c) && c.reply == None
    case Accepted =>
      TaskBooked(c) && (c.reply == (if c.waits then None else Some(Nil)) || (c.reply == Some(Nil) && c.closes == 1))
    case Refused => Untasked(c) && c.dones == [] && c.reply == Some(Overloaded)
    case TurnedAway => Untasked(c) && c.dones == [false]
        && c.reply in {Some(Stopped), Some(QueueFull), Some(QueueTimeout)}
    case _ => Untasked(c) && c.dones == [] && c.reply == None
  }

  predicate Untasked(c: Call) {
    c.task == NoTask && c.runs == 0 && c.closes == 0
  }

  ghost predicate Ledger(s: System) {
    forall c :: 0 <= c < |s.calls| ==> Booked(s.calls[c])
  }

  function AcceptedWeight(c: Call): nat { if c.at == Accepted then 1 else 0 }

  ghost predicate Counted(s: System) {
    && s.sh.accepted == Total(s.calls, AcceptedWeight)
    && s.sentLog == s.receivedLog + s.sh.tasks
  }

  ghost predicate Inv(cfg: Config, s: System) {
    && |s.workers| == cfg.workers
    && Linked(s) && Tokens(cfg, s) && LockHonoured(s) && Ledger(s) && Counted(s)
  }

  // ---------------------------------------------------------------------------------
  // Links

  lemma LinkedByTaskless(s: System, t: System)
    requires Linked(s) && t.sh.tasks == s.sh.tasks && |t.calls| >= |s.calls|
    requires forall c :: 0 <= c < |s.calls| ==> t.calls[c].task == s.calls[c].task
    requires forall c :: |s.calls| <= c < |t.calls| ==> t.calls[c].task == NoTask
    requires |t.workers| == |s.workers|
    requires forall w :: 0 <= w < |s.workers| ==>
        t.workers[w] == s.workers[w] || (!s.workers[w].Busy? && !t.workers[w].Busy?)
    ensures Linked(t)
  {
  }

  lemma LinkedByHolder(s: System, t: System, w: nat)
    requires Linked(s) && HasTask(s, w)
    requires |t.calls| == |s.calls| && |t.workers| == |s.workers| && t.sh.tasks == s.sh.tasks
    requires t.calls == s.calls[s.workers[w].call := t.calls[s.workers[w].call]]
    requires t.workers == s.workers[w := t.workers[w]]
    requires var task := t.calls[s.workers[w].call].task;
             || (t.workers[w] == s.workers[w] && HeldBy(task) == Some(w))
             || (t.workers[w] == Idle && task.Finished?)
    ensures Linked(t)
  {
    assert HeldBy(s.calls[s.workers[w].call].task) == Some(w);
    forall d | 0 <= d < |t.calls| && t.calls[d].task == Queued ensures InChannel(t.sh.tasks, d) {
      assert s.calls[d].task == Queued;
    }
  }

  lemma LinkedBySend(s: System, t: System, c: nat)
    requires Linked(s) && c < |s.calls| == |t.calls| && s.calls[c].task == NoTask
    requires t.calls == s.calls[c := t.calls[c]] && t.calls[c].task == Queued
    requires t.sh.tasks == s.sh.tasks + [c] && t.workers == s.workers
    ensures Linked(t)
  {
    forall d | 0 <= d < |t.calls| && t.calls[d].task == Queued ensures InChannel(t.sh.tasks, d) {
      if d == c {
        assert t.sh.tasks[|s.sh.tasks|] == c;
      } else {
        assert s.calls[d].task == Queued;
        var i :| 0 <= i < |s.sh.tasks| && s.sh.tasks[i] == d;
        assert t.sh.tasks[i] == d;
      }
    }
  }

  lemma LinkedByReceive(s: System, w: nat)
    requires Linked(s) && w < |s.workers| && s.workers[w] == Idle && s.sh.tasks != []
    ensures Linked(ApplyReceive(s, w))
  {
    var t := ApplyReceive(s, w);
    forall d | 0 <= d < |t.calls| && t.calls[d].task == Queued ensures InChannel(t.sh.tasks, d) {
      assert s.calls[d].task == Queued && d != s.sh.tasks[0];
      var i :| 0 <= i < |s.sh.tasks| && s.sh.tasks[i] == d;
      assert t.sh.tasks[i - 1] == d;
    }
  }

  lemma LinkedKept(cfg: Config, s: System, a: Action)
    requires Enabled(cfg, s, a) && Linked(s) && Ledger(s)
    ensures Linked(Apply(cfg, s, a))
  {
    var t := Apply(cfg, s, a);
    match a
    case Send(c) => LinkedBySend(s, t, c);
    case Receive(w) => LinkedByReceive(s, w);
    case EndBody(w, _) => LinkedByHolder(s, t, w);
    case TellGate(w) => LinkedByHolder(s, t, w);
    case Release(w) => LinkedByHolder(s, t, w);
    case _ => LinkedByOthers(cfg, s, a);
  }

  lemma LinkedByOthers(cfg: Config, s: System, a: Action)
    requires Enabled(cfg, s, a) && Linked(s)
    requires !a.Send? && !a.Receive? && !a.EndBody? && !a.TellGate? && !a.Release?
    ensures Linked(Apply(cfg, s, a))
  {
    TasksUntouched(cfg, s, a);
    LinkedByTaskless(s, Apply(cfg, s, a));
  }

  lemma TasksUntouched(cfg: Config, s: System, a: Action)
    requires Enabled(cfg, s, a)
    requires !a.Send? && !a.Receive? && !a.EndBody? && !a.TellGate? && !a.Release?
    ensures var t := Apply(cfg, s, a);
            && t.sh.tasks == s.sh.tasks && |t.calls| >= |s.calls| && |t.workers| == |s.workers|
            && (forall c :: 0 <= c < |s.calls| ==> t.calls[c].task == s.calls[c].task)
            && (forall c :: |s.calls| <= c < |t.calls| ==> t.calls[c].task == NoTask)
            && (forall w :: 0 <= w < |s.workers| ==>
                t.workers[w] == s.workers[w] || (!s.workers[w].Busy? && !t.workers[w].Busy?))
  {
  }

  // ---------------------------------------------------------------------------------
  // Tokens

  /** The one call an action changes, if any. */
  function Touches(s: System, a: Action): Option<nat> {
    match a
    case Arrive(_, _) => None
    case TakeSlot(c) => Some(c)
    case GiveUp(c) => Some(c)
    case Lock(c) => Some(c)
    case Refund(c) => Some(c)
    case Decline(c) => Some(c)
    case Send(c) => Some(c)
    case Count(c) => Some(c)
    case Wake(c) => Some(c)
    case Receive(_) => if s.sh.tasks != [] then Some(s.sh.tasks[0]) else None
    case EndBody(w, _) => if HasTask(s, w) then Some(s.workers[w].call) else None
    case TellGate(w) => if HasTask(s, w) then Some(s.workers[w].call) else None
    case Release(w) => if HasTask(s, w) then Some(s.workers[w].call) else None
    case _ => None
  }

  lemma TouchesOnlyThat(cfg: Config, s: System, a: Action)
    requires Enabled(cfg, s, a) && Linked(s)
    ensures var t := Apply(cfg, s, a);
            match Touches(s, a)
            case Some(c) => c < |s.calls| == |t.calls| && t.calls == s.calls[c := t.calls[c]]
            case None => if a.Arrive? then |t.calls| == |s.calls| + 1 && t.calls == s.calls + [t.calls[|s.calls|]]
                         else t.calls == s.calls
  {
  }

  /** How the total of any weight over the calls moves with an action. */
  lemma CallTotalAfter(cfg: Config, s: System, a: Action, weight: Call -> nat)
    requires Enabled(cfg, s, a) && Linked(s)
    ensures var t := Apply(cfg, s, a);
            match Touches(s, a)
            case Some(c) =>
              && c < |s.calls| == |t.calls|
              && Total(t.calls, weight) + weight(s.calls[c]) == Total(s.calls, weight) + weight(t.calls[c])
            case None =>
              if a.Arrive? then |t.calls| == |s.calls| + 1
                  && Total(t.calls, weight) == Total(s.calls, weight) + weight(t.calls[|s.calls|])
              else Total(t.calls, weight) == Total(s.calls, weight)
  {
    var t := Apply(cfg, s, a);
    TouchesOnlyThat(cfg, s, a);
    match Touches(s, a)
    case Some(c) => TotalUpdate(s.calls, c, t.calls[c], weight);
    case None => if a.Arrive? { TotalAppend(s.calls, t.calls[|s.calls|], weight); }
  }

  /** The one worker an action changes, if any. */
  function Moves(a: Action): Option<nat> {
    match a
    case Receive(w) => Some(w)
    case Quit(w) => Some(w)
    case Release(w) => Some(w)
    case _ => None
  }

  lemma WorkerTotalAfter(cfg: Config, s: System, a: Action, weight: Worker -> nat)
    requires Enabled(cfg, s, a)
    ensures var t := Apply(cfg, s, a);
            |t.workers| == |s.workers| &&
            match Moves(a)
            case Some(w) =>
              w < |s.workers|
                  && Total(t.workers, weight) + weight(s.workers[w]) == Total(s.workers, weight) + weight(t.workers[w])
            case None => Total(t.workers, weight) == Total(s.workers, weight)
  {
    var t := Apply(cfg, s, a);
    if Moves(a).Some? {
      var w := Moves(a).value;
      assert t.workers == s.workers[w := t.workers[w]];
      TotalUpdate(s.workers, w, t.workers[w], weight);
    }
  }

  lemma TokensKept(cfg: Config, s: System, a: Action)
    requires Enabled(cfg, s, a) && Tokens(cfg, s) && Linked(s)
    ensures Tokens(cfg, Apply(cfg, s, a))
  {
    if Moves(a).Some? {
      TokensKeptByWorker(cfg, s, a);
    } else {
      TokensKeptByOthers(cfg, s, a);
    }
  }

  lemma TokensKeptByWorker(cfg: Config, s: System, a: Action)
    requires Enabled(cfg, s, a) && Tokens(cfg, s) && Linked(s) && Moves(a).Some?
    ensures Tokens(cfg, Apply(cfg, s, a))
  {
    CallTotalAfter(cfg, s, a, SlotWeight);
    WorkerTotalAfter(cfg, s, a, BusyWeight);
  }

  lemma TokensKeptByOthers(cfg: Config, s: System, a: Action)
    requires Enabled(cfg, s, a) && Tokens(cfg, s) && Linked(s) && Moves(a).None?
    ensures Tokens(cfg, Apply(cfg, s, a))
  {
    var t := Apply(cfg, s, a);
    CallTotalAfter(cfg, s, a, SlotWeight);
    WorkersStay(cfg, s, a);
    match Touches(s, a)
    case Some(c) => SlotsBalance(cfg, s, a, c);
    case None => NobodyTouched(cfg, s, a);
  }

  lemma WorkersStay(cfg: Config, s: System, a: Action)
    requires Enabled(cfg, s, a) && Moves(a).None?
    ensures Apply(cfg, s, a).workers == s.workers
  {
  }

  /** Tokens and queued tasks move with the one submitter that acts. */
  lemma SlotsBalance(cfg: Config, s: System, a: Action, c: nat)
    requires Enabled(cfg, s, a) && Moves(a).None? && Touches(s, a) == Some(c) && c < |s.calls|
    requires s.sh.sem <= Capacity(cfg)
    ensures var t := Apply(cfg, s, a);
            && c < |t.calls| && t.sh.sem <= Capacity(cfg)
            && t.sh.sem - |t.sh.tasks| - SlotWeight(t.calls[c]) == s.sh.sem - |s.sh.tasks| - SlotWeight(s.calls[c])
  {
  }

  lemma NobodyTouched(cfg: Config, s: System, a: Action)
    requires Enabled(cfg, s, a) && Moves(a).None? && Touches(s, a) == None
    ensures var t := Apply(cfg, s, a);
            && t.sh.sem == s.sh.sem && t.sh.tasks == s.sh.tasks && t.sh.accepted == s.sh.accepted
            && (a.Arrive? ==> |t.calls| == |s.calls| + 1
                              && SlotWeight(t.calls[|s.calls|]) == 0 && AcceptedWeight(t.calls[|s.calls|]) == 0)
  {
  }

  // ---------------------------------------------------------------------------------
  // Lock, ledger, counters

  lemma LockHonouredKept(cfg: Config, s: System, a: Action)
    requires Enabled(cfg, s, a) && LockHonoured(s) && Linked(s)
    ensures LockHonoured(Apply(cfg, s, a))
  {
    if a.Close? {
      assert forall c :: 0 <= c < |s.calls| ==> !HoldsReadLock(s.calls[c]);
    } else {
      TruthKept(cfg, s, a);
    }
    GoneOnlyAfterClose(cfg, s, a);
  }

  lemma TruthKept(cfg: Config, s: System, a: Action)
    requires Enabled(cfg, s, a) && LockHonoured(s) && Linked(s) && !a.Close?
    ensures var t := Apply(cfg, s, a);
            forall c :: 0 <= c < |t.calls| ==> SeesTruth(t.calls[c], t.sh.closed)
  {
    var t := Apply(cfg, s, a);
    TouchesOnlyThat(cfg, s, a);
    match Touches(s, a)
    case Some(c) => TruthAfter(cfg, s, a, c);
    case None =>
  }

  lemma TruthAfter(cfg: Config, s: System, a: Action, c: nat)
    requires Enabled(cfg, s, a) && Touches(s, a) == Some(c) && c < |s.calls| && SeesTruth(s.calls[c], s.sh.closed)
    ensures var t := Apply(cfg, s, a);
            t.sh.closed == s.sh.closed && c < |t.calls| && SeesTruth(t.calls[c], t.sh.closed)
  {
  }

  lemma GoneOnlyAfterClose(cfg: Config, s: System, a: Action)
    requires Enabled(cfg, s, a) && LockHonoured(s)
    ensures var t := Apply(cfg, s, a);
            && ((exists w :: 0 <= w < |t.workers| && t.workers[w] == Exited) ==> t.sh.closed && t.sh.tasks == [])
            && (t.stopReturned ==> t.sh.closed && forall w :: 0 <= w < |t.workers| ==> t.workers[w] == Exited)
  {
    var t := Apply(cfg, s, a);
    forall w | 0 <= w < |t.workers| && t.workers[w] == Exited ensures t.sh.closed && t.sh.tasks == [] {
      if s.workers[w] == Exited {
        assert s.sh.closed && s.sh.tasks == [];
      }
    }
  }

  lemma LedgerKept(cfg: Config, s: System, a: Action)
    requires Enabled(cfg, s, a) && Ledger(s) && Linked(s)
    ensures Ledger(Apply(cfg, s, a))
  {
    TouchesOnlyThat(cfg, s, a);
    var t := Apply(cfg, s, a);
    match Touches(s, a)
    case Some(c) =>
      assert Booked(s.calls[c]);
      BookedAfter(cfg, s, a, c);
    case None =>
  }

  lemma BookedAfter(cfg: Config, s: System, a: Action, c: nat)
    requires Enabled(cfg, s, a) && Touches(s, a) == Some(c) && c < |s.calls| && Booked(s.calls[c])
    requires a.Receive? ==> s.calls[c].task == Queued
    ensures c < |Apply(cfg, s, a).calls| && Booked(Apply(cfg, s, a).calls[c])
  {
  }

  lemma CountedKept(cfg: Config, s: System, a: Action)
    requires Enabled(cfg, s, a) && Counted(s) && Linked(s)
    ensures Counted(Apply(cfg, s, a))
  {
    AcceptedIsCounted(cfg, s, a);
    FirstInFirstOut(cfg, s, a);
  }

  lemma AcceptedIsCounted(cfg: Config, s: System, a: Action)
    requires Enabled(cfg, s, a) && s.sh.accepted == Total(s.calls, AcceptedWeight) && Linked(s)
    ensures Apply(cfg, s, a).sh.accepted == Total(Apply(cfg, s, a).calls, AcceptedWeight)
  {
    CallTotalAfter(cfg, s, a, AcceptedWeight);
    match Touches(s, a)
    case Some(c) => AcceptedBalance(cfg, s, a, c);
    case None => if Moves(a).None? { NobodyTouched(cfg, s, a); }
  }

  lemma AcceptedBalance(cfg: Config, s: System, a: Action, c: nat)
    requires Enabled(cfg, s, a) && Touches(s, a) == Some(c) && c < |s.calls|
    ensures var t := Apply(cfg, s, a);
            && c < |t.calls| && t.sh.accepted - AcceptedWeight(t.calls[c]) == s.sh.accepted - AcceptedWeight(s.calls[c])
  {
  }

  lemma FirstInFirstOut(cfg: Config, s: System, a: Action)
    requires Enabled(cfg, s, a) && s.sentLog == s.receivedLog + s.sh.tasks
    ensures Apply(cfg, s, a).sentLog == Apply(cfg, s, a).receivedLog + Apply(cfg, s, a).sh.tasks
  {
    var t := Apply(cfg, s, a);
    if a.Send? {
      assert s.receivedLog + s.sh.tasks + [a.call] == s.receivedLog + t.sh.tasks;
    } else if a.Receive? {
      assert s.receivedLog + s.sh.tasks == t.receivedLog + t.sh.tasks;
    }
  }

  // ---------------------------------------------------------------------------------
  // Every state of every run

  lemma InvInitially(cfg: Config)
    requires Usable(cfg)
    ensures Inv(cfg, Init(cfg))
  {
    TotalZero(Init(cfg).workers, BusyWeight);
  }

  lemma WorkersKept(cfg: Config, s: System, a: Action)
    requires Enabled(cfg, s, a)
    ensures |Apply(cfg, s, a).workers| == |s.workers|
  {
  }

  lemma InvKept(cfg: Config, s: System, a: Action)
    requires Enabled(cfg, s, a) && Inv(cfg, s)
    ensures Inv(cfg, Apply(cfg, s, a))
  {
    LinkedKept(cfg, s, a);
    TokensKept(cfg, s, a);
    LockHonouredKept(cfg, s, a);
    LedgerKept(cfg, s, a);
    CountedKept(cfg, s, a);
    WorkersKept(cfg, s, a);
  }

  lemma {:induction false} InvFromThere(cfg: Config, s: System, acts: seq<Action>, t: System)
    requires Usable(cfg) && Inv(cfg, s) && ExecuteFrom(cfg, s, acts) == Some(t)
    ensures Inv(cfg, t)
  {
    if acts == [] {
    } else {
      var n := |acts| - 1;
      var r := ExecuteFrom(cfg, s, acts[..n]).value;
      InvFromThere(cfg, s, acts[..n], r);
      InvKept(cfg, r, acts[n]);
    }
  }

  lemma EveryRunKeepsInv(cfg: Config, acts: seq<Action>, s: System)
    requires Usable(cfg) && Execute(cfg, acts) == Some(s)
    ensures Inv(cfg, s)
  {
    InvInitially(cfg);
    InvFromThere(cfg, Init(cfg), acts, s);
  }
}
