/** What every action of the CoDel pool's protocol keeps. */
module CodelPoolInvariant {
  import opened Tally
  import Law = CodelControl
  import opened CodelPool

  function HeldBy(st: Stage): Option<nat> {
    match st
    case Dropping(w) => Some(w)
    case DropTold(w) => Some(w)
    case Running(w) => Some(w)
    case BodyDone(w, _) => Some(w)
    case _ => None
  }

  predicate InBuf(buf: seq<Item>, c: nat) {
    exists i :: 0 <= i < |buf| && buf[i].call == c
  }

  /** A worker outside the lock holds exactly the call whose stage names that worker. */
  ghost predicate WorkersLinked(s: System) {
    && (forall w :: 0 <= w < |s.workers| && s.workers[w].Busy? ==>
          s.workers[w].call < |s.calls| && HeldBy(s.calls[s.workers[w].call].stage) == Some(w))
    && (forall c :: 0 <= c < |s.calls| && HeldBy(s.calls[c].stage).Some? ==>
          var w := HeldBy(s.calls[c].stage).value; w < |s.workers| && s.workers[w] == Busy(c))
  }

  /** The buffer holds exactly the queued calls, each once. */
  ghost predicate BufferLinked(s: System) {
    && (forall i :: 0 <= i < |s.sh.buf| ==>
          s.sh.buf[i].call < |s.calls| && s.calls[s.sh.buf[i].call].stage == Queued)
    && (forall c :: 0 <= c < |s.calls| && s.calls[c].stage == Queued ==> InBuf(s.sh.buf, c))
    && (forall i, j :: 0 <= i < j < |s.sh.buf| ==> s.sh.buf[i].call != s.sh.buf[j].call)
  }

  function ReadyWeight(w: Worker): nat { if w == Ready then 1 else 0 }

  /** No wakeup is lost: while anybody sleeps, every queued task has a worker of its own that
      is awake and on its way to the lock; once stopped nobody sleeps. */
  ghost predicate Wakeful(s: System) {
    && (SomeAsleep(s) ==> |s.sh.buf| <= Total(s.workers, ReadyWeight))
    && (s.sh.closed ==> !SomeAsleep(s))
  }

  ghost predicate Closing(s: System) {
    && ((exists w :: 0 <= w < |s.workers| && s.workers[w] == Exited) ==> s.sh.closed && s.sh.buf == [])
    && (s.stopReturned ==> s.sh.closed && forall w :: 0 <= w < |s.workers| ==> s.workers[w] == Exited)
  }

  predicate WaitingReply(c: Call) {
    c.reply == if c.waits then None else Some(Nil)
  }

  /** Book-keeping of one call: what the gate, the body and the caller have been told. */
  predicate Booked(c: Call) {
    match c.stage
    case Refused => c.dones == [] && c.runs == 0 && c.closes == 0 && !c.wasDropped && c.reply == Some(Overloaded)
    case Admitted => c.dones == [] && c.runs == 0 && c.closes == 0 && !c.wasDropped && c.reply == None
    case TurnedAway =>
      c.dones == [false] && c.runs == 0 && c.closes == 0 && !c.wasDropped && c.reply in {Some(Stopped), Some(QueueFull)}
    case Queued => Untold(c)
    case Dropping(_) => Untold(c)
    case Running(_) => Untold(c)
    case DropTold(_) => c.dones == [false] && c.runs == 0 && c.closes == 0 && !c.wasDropped && WaitingReply(c)
    case BodyDone(_, _) => c.dones == [] && c.runs == 1 && c.closes == Once(c.waits) && Answered(c, false)
    case Shed => c.dones == [false] && c.runs == 0 && c.closes == Once(c.waits) && Answered(c, c.waits)
    case Ran(o) => c.dones == [o == Returned(true)] && c.runs == 1 && c.closes == Once(c.waits) && Answered(c, false)
  }

  predicate Untold(c: Call) {
    c.dones == [] && c.runs == 0 && c.closes == 0 && !c.wasDropped && WaitingReply(c)
  }

  predicate Answered(c: Call, wasDropped: bool) {
    && c.wasDropped == wasDropped
    && (WaitingReply(c) || c.reply == Some(if wasDropped then WasShed else Nil))
  }

  ghost predicate Ledger(s: System) {
    forall c :: 0 <= c < |s.calls| ==> Booked(s.calls[c])
  }

  /** Buffer order is acceptance order and enqueue-time order. */
  ghost predicate Ordered(s: System) {
    && |s.acceptedLog| == s.sh.accepted
    && (forall i :: 0 <= i < |s.acceptedLog| ==> s.acceptedLog[i].ticket == i)
    && (forall i :: 0 <= i < |s.sh.buf| ==>
          s.sh.buf[i].enq <= s.clock && s.sh.buf[i].ticket < s.sh.accepted)
    && (forall i, j :: 0 <= i < j < |s.sh.buf| ==>
          s.sh.buf[i].ticket < s.sh.buf[j].ticket && s.sh.buf[i].enq <= s.sh.buf[j].enq)
  }

  /** Nothing accepted is lost or duplicated. */
  ghost predicate Conserved(cfg: Config, s: System) {
    && multiset(s.acceptedLog) == multiset(s.sh.buf) + multiset(s.outLog)
    && multiset(s.outLog) == multiset(s.droppedLog) + multiset(s.servedLog)
    && |s.droppedLog| == s.sh.dropped
    && |s.sh.buf| <= cfg.capacity
    && (!cfg.adaptiveLIFO ==> s.acceptedLog == s.outLog + s.sh.buf)
  }

  /** The control fields are those of the law run over the logged evaluations, and the
      evaluations' clock readings are ordered. */
  ghost predicate Lawful(cfg: Config, s: System)
    requires Usable(cfg)
  {
    && s.sh.law == Law.StateAfter(LawParams(cfg), s.evals)
    && Law.Monotone(s.evals)
    && (s.evals != [] ==> s.evals[|s.evals| - 1].now <= s.clock)
    && |s.evals| == |s.outLog|
    && |s.droppedLog| == Law.DropsSince(LawParams(cfg), s.evals, 0)
  }

  ghost predicate Inv(cfg: Config, s: System)
    requires Usable(cfg)
  {
    && |s.workers| == cfg.workers
    && WorkersLinked(s) && BufferLinked(s) && Wakeful(s) && Closing(s)
    && Ledger(s) && Ordered(s) && Conserved(cfg, s) && Lawful(cfg, s)
  }

  // ---------------------------------------------------------------------------------
  // Links

  /** The three actions a worker makes outside the lock, as one shape. */
  lemma LinksKeptByHolder(s: System, t: System, w: nat)
    requires WorkersLinked(s) && BufferLinked(s) && HasTask(s, w)
    requires |t.calls| == |s.calls| && |t.workers| == |s.workers| && t.sh.buf == s.sh.buf
    requires t.calls == s.calls[s.workers[w].call := t.calls[s.workers[w].call]]
    requires t.workers == s.workers[w := t.workers[w]]
    requires var st := t.calls[s.workers[w].call].stage;
             || (t.workers[w] == s.workers[w] && HeldBy(st) == Some(w))
             || (t.workers[w] == Ready && HeldBy(st) == None && st != Queued)
    ensures WorkersLinked(t) && BufferLinked(t)
  {
    var c := s.workers[w].call;
    assert HeldBy(s.calls[c].stage) == Some(w);
    forall d | 0 <= d < |t.calls| && t.calls[d].stage == Queued ensures InBuf(t.sh.buf, d) {
      assert s.calls[d].stage == Queued;
    }
  }

  lemma LinksKeptByArrive(s: System, waits: bool, ok: bool)
    requires WorkersLinked(s) && BufferLinked(s)
    ensures var t := ApplyArrive(s, waits, ok); WorkersLinked(t) && BufferLinked(t)
  {
    var t := ApplyArrive(s, waits, ok);
    forall c | 0 <= c < |t.calls| && t.calls[c].stage == Queued ensures InBuf(t.sh.buf, c) {
      assert s.calls[c].stage == Queued;
    }
  }

  lemma LinksKeptByEnter(cfg: Config, s: System, c: nat, now: int, wake: nat)
    requires Usable(cfg) && Enabled(cfg, s, Enter(c, now, wake))
    requires WorkersLinked(s) && BufferLinked(s)
    ensures var t := ApplyEnter(cfg, s, c, now, wake); WorkersLinked(t) && BufferLinked(t)
  {
    var t := ApplyEnter(cfg, s, c, now, wake);
    assert |t.calls| == |s.calls| && t.calls == s.calls[c := t.calls[c]];
    if t.calls[c].stage == Queued {
      var it := Item(c, s.sh.accepted, now);
      assert t.sh.buf == s.sh.buf + [it];
      BufferLinkedAfterAppend(s, t, it);
    } else {
      assert t.calls[c].stage == TurnedAway && t.sh.buf == s.sh.buf;
      BufferLinkedUnchanged(s, t, c);
    }
    WorkersLinkedAfterEnter(s, t, c);
  }

  lemma BufferLinkedAfterAppend(s: System, t: System, it: Item)
    requires BufferLinked(s) && t.sh.buf == s.sh.buf + [it]
    requires it.call < |s.calls| == |t.calls| && s.calls[it.call].stage != Queued
    requires t.calls == s.calls[it.call := t.calls[it.call]] && t.calls[it.call].stage == Queued
    ensures BufferLinked(t)
  {
    forall d | 0 <= d < |t.calls| && t.calls[d].stage == Queued ensures InBuf(t.sh.buf, d) {
      if d == it.call {
        assert t.sh.buf[|s.sh.buf|].call == d;
      } else {
        assert s.calls[d].stage == Queued;
        var i :| 0 <= i < |s.sh.buf| && s.sh.buf[i].call == d;
        assert t.sh.buf[i].call == d;
      }
    }
  }

  lemma BufferLinkedUnchanged(s: System, t: System, c: nat)
    requires BufferLinked(s) && t.sh.buf == s.sh.buf
    requires c < |s.calls| == |t.calls| && t.calls == s.calls[c := t.calls[c]]
    requires s.calls[c].stage != Queued && t.calls[c].stage != Queued
    ensures BufferLinked(t)
  {
  }

  lemma WorkersLinkedAfterEnter(s: System, t: System, c: nat)
    requires WorkersLinked(s) && c < |s.calls| == |t.calls| && t.calls == s.calls[c := t.calls[c]]
    requires HeldBy(s.calls[c].stage) == None && HeldBy(t.calls[c].stage) == None
    requires |t.workers| == |s.workers|
    requires forall w :: 0 <= w < |s.workers| ==>
        t.workers[w] == s.workers[w] || (!s.workers[w].Busy? && !t.workers[w].Busy?)
    ensures WorkersLinked(t)
  {
  }

  lemma LinksKeptByDequeue(s: System, t: System, w: nat, k: nat)
    requires WorkersLinked(s) && BufferLinked(s)
    requires w < |s.workers| && s.workers[w] == Ready && k < |s.sh.buf|
    requires t.sh.buf == s.sh.buf[..k] + s.sh.buf[k + 1..]
    requires t.workers == s.workers[w := Busy(s.sh.buf[k].call)]
    requires |t.calls| == |s.calls| && HeldBy(t.calls[s.sh.buf[k].call].stage) == Some(w)
    requires t.calls == s.calls[s.sh.buf[k].call := t.calls[s.sh.buf[k].call]]
    ensures WorkersLinked(t) && BufferLinked(t)
  {
    forall d | 0 <= d < |t.calls| && t.calls[d].stage == Queued ensures InBuf(t.sh.buf, d) {
      assert s.calls[d].stage == Queued && d != s.sh.buf[k].call;
      var i :| 0 <= i < |s.sh.buf| && s.sh.buf[i].call == d;
      assert t.sh.buf[if i < k then i else i - 1].call == d;
    }
  }

  /** A dequeue takes one item out of the buffer: the newest when serving newest-first in the
      dropping state, otherwise the oldest. */
  lemma SectionTakesOne(cfg: Config, sh: Shared, now: int) returns (k: nat)
    requires Usable(cfg) && sh.buf != []
    ensures var (sh', taken) := WorkerSection(cfg, sh, now);
            && k == (if taken.Serve? && cfg.adaptiveLIFO && sh'.law.dropping then |sh.buf| - 1 else 0)
            && (taken == Drop(sh.buf[k]) || taken == Serve(sh.buf[k]))
            && sh'.buf == sh.buf[..k] + sh.buf[k + 1..]
            && sh'.closed == sh.closed && sh'.accepted == sh.accepted
  {
    var (sh', taken) := WorkerSection(cfg, sh, now);
    k := if taken.Serve? && cfg.adaptiveLIFO && sh'.law.dropping then |sh.buf| - 1 else 0;
  }

  /** What a worker's section does to buffer, workers and calls when there is work. */
  lemma TakeShape(cfg: Config, s: System, w: nat, now: int) returns (k: nat, stage: Stage)
    requires Usable(cfg) && Enabled(cfg, s, Take(w, now)) && s.sh.buf != []
    requires forall i :: 0 <= i < |s.sh.buf| ==> s.sh.buf[i].call < |s.calls|
    ensures k < |s.sh.buf| && (stage == Dropping(w) || stage == Running(w))
    ensures var t, c := ApplyTake(cfg, s, w, now), s.sh.buf[k].call;
            && t.sh.buf == s.sh.buf[..k] + s.sh.buf[k + 1..] && t.sh.closed == s.sh.closed
            && t.workers == s.workers[w := Busy(c)]
            && t.calls == s.calls[c := s.calls[c].(stage := stage)]
            && t.stopReturned == s.stopReturned
  {
    k := SectionTakesOne(cfg, s.sh, now);
    stage := if WorkerSection(cfg, s.sh, now).1.Drop? then Dropping(w) else Running(w);
  }

  lemma LinksKeptByTake(cfg: Config, s: System, w: nat, now: int)
    requires Usable(cfg) && Enabled(cfg, s, Take(w, now))
    requires WorkersLinked(s) && BufferLinked(s)
    ensures var t := ApplyTake(cfg, s, w, now); WorkersLinked(t) && BufferLinked(t)
  {
    if s.sh.buf != [] {
      var k, stage := TakeShape(cfg, s, w, now);
      LinksKeptByDequeue(s, ApplyTake(cfg, s, w, now), w, k);
    } else {
      LinksKeptByStageless(s, ApplyTake(cfg, s, w, now));
    }
  }

  lemma LinksKept(cfg: Config, s: System, a: Action)
    requires Usable(cfg) && Enabled(cfg, s, a)
    requires WorkersLinked(s) && BufferLinked(s)
    ensures var t := Apply(cfg, s, a); WorkersLinked(t) && BufferLinked(t)
  {
    var t := Apply(cfg, s, a);
    match a
    case Arrive(waits, ok) => LinksKeptByArrive(s, waits, ok);
    case Enter(c, now, wake) => LinksKeptByEnter(cfg, s, c, now, wake);
    case Take(w, now) => LinksKeptByTake(cfg, s, w, now);
    case TellGateDropped(w) => LinksKeptByHolder(s, t, w);
    case TellCallerDropped(w) => LinksKeptByHolder(s, t, w);
    case EndBody(w, _) => LinksKeptByHolder(s, t, w);
    case TellGateRan(w) => LinksKeptByHolder(s, t, w);
    case Wake(c) => LinksKeptByStageless(s, t);
    case Close => LinksKeptByStageless(s, t);
    case StopReturns =>
  }

  lemma LinksKeptByStageless(s: System, t: System)
    requires WorkersLinked(s) && BufferLinked(s) && t.sh.buf == s.sh.buf
    requires |t.calls| == |s.calls| && forall c :: 0 <= c < |s.calls| ==> t.calls[c].stage == s.calls[c].stage
    requires |t.workers| == |s.workers|
    requires forall w :: 0 <= w < |s.workers| ==>
        t.workers[w] == s.workers[w] || (!s.workers[w].Busy? && !t.workers[w].Busy?)
    ensures WorkersLinked(t) && BufferLinked(t)
  {
  }

  // ---------------------------------------------------------------------------------
  // Wakeups and shutdown

  lemma ReadyAfter(s: System, w: nat, worker: Worker)
    requires w < |s.workers|
    ensures Total(s.workers[w := worker], ReadyWeight) + ReadyWeight(s.workers[w])
         == Total(s.workers, ReadyWeight) + ReadyWeight(worker)
  {
    TotalUpdate(s.workers, w, worker, ReadyWeight);
  }

  lemma SleepersAfter(s: System, t: System, w: nat)
    requires w < |s.workers| == |t.workers| && t.workers == s.workers[w := t.workers[w]] && t.workers[w] != Asleep
    ensures SomeAsleep(t) ==> SomeAsleep(s)
  {
    if SomeAsleep(t) {
      var v :| 0 <= v < |t.workers| && t.workers[v] == Asleep;
      assert s.workers[v] == Asleep;
    }
  }

  lemma WakefulKeptByEnter(cfg: Config, s: System, c: nat, now: int, wake: nat)
    requires Usable(cfg) && Enabled(cfg, s, Enter(c, now, wake)) && Wakeful(s)
    ensures Wakeful(ApplyEnter(cfg, s, c, now, wake))
  {
    if SomeAsleep(s) {
      ReadyAfter(s, wake, Ready);
      var t := ApplyEnter(cfg, s, c, now, wake);
      if t.workers != s.workers {
        SleepersAfter(s, t, wake);
      }
    }
  }

  lemma WakefulKeptByTake(cfg: Config, s: System, w: nat, now: int)
    requires Usable(cfg) && Enabled(cfg, s, Take(w, now)) && Wakeful(s) && BufferLinked(s)
    ensures Wakeful(ApplyTake(cfg, s, w, now))
  {
    var t := ApplyTake(cfg, s, w, now);
    if s.sh.buf != [] {
      var k, stage := TakeShape(cfg, s, w, now);
      ReadyAfter(s, w, t.workers[w]);
      SleepersAfter(s, t, w);
    } else if s.sh.closed {
      SleepersAfter(s, t, w);
    }
  }

  lemma WakefulKeptByReturn(s: System, t: System, w: nat)
    requires Wakeful(s) && HasTask(s, w) && t.workers == s.workers[w := Ready]
    requires t.sh == s.sh
    ensures Wakeful(t)
  {
    ReadyAfter(s, w, Ready);
    SleepersAfter(s, t, w);
  }

  lemma WakefulKept(cfg: Config, s: System, a: Action)
    requires Usable(cfg) && Enabled(cfg, s, a) && Wakeful(s) && BufferLinked(s)
    ensures Wakeful(Apply(cfg, s, a))
  {
    match a
    case Enter(c, now, wake) => WakefulKeptByEnter(cfg, s, c, now, wake);
    case Take(w, now) => WakefulKeptByTake(cfg, s, w, now);
    case TellCallerDropped(w) => WakefulKeptByReturn(s, Apply(cfg, s, a), w);
    case TellGateRan(w) => WakefulKeptByReturn(s, Apply(cfg, s, a), w);
    case _ => SleepersUnchanged(cfg, s, a);
  }

  lemma SleepersUnchanged(cfg: Config, s: System, a: Action)
    requires Usable(cfg) && Enabled(cfg, s, a)
    requires !a.Enter? && !a.Take? && !a.TellCallerDropped? && !a.TellGateRan?
    requires Wakeful(s)
    ensures Wakeful(Apply(cfg, s, a))
  {
    var t := Apply(cfg, s, a);
    if !a.Close? {
      assert t.workers == s.workers && t.sh.buf == s.sh.buf && t.sh.closed == s.sh.closed;
      assert SomeAsleep(t) ==> SomeAsleep(s);
    }
  }

  lemma ClosingKept(cfg: Config, s: System, a: Action)
    requires Usable(cfg) && Enabled(cfg, s, a) && Closing(s) && BufferLinked(s)
    ensures Closing(Apply(cfg, s, a))
  {
    var t := Apply(cfg, s, a);
    if a.Take? && s.sh.buf != [] {
      var k, stage := TakeShape(cfg, s, a.worker, a.now);
    }
    forall w | 0 <= w < |t.workers| && t.workers[w] == Exited ensures t.sh.closed && t.sh.buf == [] {
      if s.workers[w] == Exited {
        assert s.sh.closed && s.sh.buf == [];
      }
    }
  }

  // ---------------------------------------------------------------------------------
  // Book-keeping

  lemma LedgerWith(s: System, t: System, c: nat)
    requires Ledger(s) && c < |s.calls| == |t.calls| && t.calls == s.calls[c := t.calls[c]] && Booked(t.calls[c])
    ensures Ledger(t)
  {
  }

  lemma LedgerKeptByHolder(cfg: Config, s: System, a: Action, w: nat)
    requires Usable(cfg) && Enabled(cfg, s, a) && HasTask(s, w) && Booked(TaskOf(s, w)) && Ledger(s)
    requires a in {TellGateDropped(w), TellCallerDropped(w), TellGateRan(w)} || (a.EndBody? && a.worker == w)
    ensures Ledger(Apply(cfg, s, a))
  {
    LedgerWith(s, Apply(cfg, s, a), s.workers[w].call);
  }

  lemma LedgerKeptByTake(cfg: Config, s: System, w: nat, now: int)
    requires Usable(cfg) && Enabled(cfg, s, Take(w, now)) && Ledger(s) && BufferLinked(s)
    ensures Ledger(ApplyTake(cfg, s, w, now))
  {
    if s.sh.buf != [] {
      var k, stage := TakeShape(cfg, s, w, now);
      assert Booked(s.calls[s.sh.buf[k].call]);
      LedgerWith(s, ApplyTake(cfg, s, w, now), s.sh.buf[k].call);
    }
  }

  lemma LedgerKeptBySubmitter(cfg: Config, s: System, a: Action, c: nat)
    requires Usable(cfg) && Enabled(cfg, s, a) && Ledger(s)
    requires a == Wake(c) || (a.Enter? && a.call == c)
    ensures Ledger(Apply(cfg, s, a))
  {
    assert Booked(s.calls[c]);
    LedgerWith(s, Apply(cfg, s, a), c);
  }

  lemma LedgerKept(cfg: Config, s: System, a: Action)
    requires Usable(cfg) && Enabled(cfg, s, a) && Ledger(s) && BufferLinked(s)
    ensures Ledger(Apply(cfg, s, a))
  {
    match a
    case Arrive(_, _) =>
    case Enter(c, _, _) => LedgerKeptBySubmitter(cfg, s, a, c);
    case Take(w, now) => LedgerKeptByTake(cfg, s, w, now);
    case TellGateDropped(w) => LedgerKeptByHolder(cfg, s, a, w);
    case TellCallerDropped(w) => LedgerKeptByHolder(cfg, s, a, w);
    case EndBody(w, _) => LedgerKeptByHolder(cfg, s, a, w);
    case TellGateRan(w) => LedgerKeptByHolder(cfg, s, a, w);
    case Wake(c) => LedgerKeptBySubmitter(cfg, s, a, c);
    case Close =>
    case StopReturns =>
  }

  lemma OrderedKeptByEnter(cfg: Config, s: System, c: nat, now: int, wake: nat)
    requires Usable(cfg) && Enabled(cfg, s, Enter(c, now, wake)) && Ordered(s)
    ensures Ordered(ApplyEnter(cfg, s, c, now, wake))
  {
  }

  /** What a worker's section does to the buffer, the clock and the logs when there is work. */
  lemma TakeLogs(cfg: Config, s: System, w: nat, now: int) returns (k: nat)
    requires Usable(cfg) && Enabled(cfg, s, Take(w, now)) && s.sh.buf != []
    ensures var t := ApplyTake(cfg, s, w, now);
            && k == (if WorkerSection(cfg, s.sh, now).1.Serve? && cfg.adaptiveLIFO && t.sh.law.dropping
                     then |s.sh.buf| - 1 else 0)
            && t.sh.buf == s.sh.buf[..k] + s.sh.buf[k + 1..]
            && t.clock == now && t.sh.accepted == s.sh.accepted && t.acceptedLog == s.acceptedLog
            && t.outLog == s.outLog + [s.sh.buf[k]]
            && ((t.droppedLog == s.droppedLog + [s.sh.buf[k]] && t.servedLog == s.servedLog
                && t.sh.dropped == s.sh.dropped + 1)
                || (t.droppedLog == s.droppedLog && t.servedLog == s.servedLog + [s.sh.buf[k]]
                    && t.sh.dropped == s.sh.dropped))
  {
    k := SectionTakesOne(cfg, s.sh, now);
  }

  lemma OrderedAfterRemoval(s: System, t: System, k: nat)
    requires Ordered(s) && k < |s.sh.buf| && t.sh.buf == s.sh.buf[..k] + s.sh.buf[k + 1..]
    requires t.clock >= s.clock && t.sh.accepted == s.sh.accepted && t.acceptedLog == s.acceptedLog
    ensures Ordered(t)
  {
  }

  lemma OrderedKeptByTake(cfg: Config, s: System, w: nat, now: int)
    requires Usable(cfg) && Enabled(cfg, s, Take(w, now)) && Ordered(s)
    ensures Ordered(ApplyTake(cfg, s, w, now))
  {
    if s.sh.buf != [] {
      var k := TakeLogs(cfg, s, w, now);
      OrderedAfterRemoval(s, ApplyTake(cfg, s, w, now), k);
    }
  }

  lemma OrderedKept(cfg: Config, s: System, a: Action)
    requires Usable(cfg) && Enabled(cfg, s, a) && Ordered(s)
    ensures Ordered(Apply(cfg, s, a))
  {
    match a
    case Enter(c, now, wake) => OrderedKeptByEnter(cfg, s, c, now, wake);
    case Take(w, now) => OrderedKeptByTake(cfg, s, w, now);
    case _ =>
  }

  lemma RemoveOne(buf: seq<Item>, k: nat)
    requires k < |buf|
    ensures multiset(buf) == multiset(buf[..k] + buf[k + 1..]) + multiset{buf[k]}
  {
    assert buf == buf[..k] + [buf[k]] + buf[k + 1..];
  }

  lemma ConservedAfterRemoval(cfg: Config, s: System, t: System, k: nat)
    requires Conserved(cfg, s) && k < |s.sh.buf| && t.sh.buf == s.sh.buf[..k] + s.sh.buf[k + 1..]
    requires !cfg.adaptiveLIFO ==> k == 0
    requires t.acceptedLog == s.acceptedLog && t.outLog == s.outLog + [s.sh.buf[k]]
    requires (t.droppedLog == s.droppedLog + [s.sh.buf[k]] && t.servedLog == s.servedLog
        && t.sh.dropped == s.sh.dropped + 1)
          || (t.droppedLog == s.droppedLog && t.servedLog == s.servedLog + [s.sh.buf[k]]
              && t.sh.dropped == s.sh.dropped)
    ensures Conserved(cfg, t)
  {
    RemoveOne(s.sh.buf, k);
    if !cfg.adaptiveLIFO {
      assert s.outLog + s.sh.buf == t.outLog + t.sh.buf;
    }
  }

  lemma ConservedKeptByTake(cfg: Config, s: System, w: nat, now: int)
    requires Usable(cfg) && Enabled(cfg, s, Take(w, now)) && Conserved(cfg, s)
    ensures Conserved(cfg, ApplyTake(cfg, s, w, now))
  {
    if s.sh.buf != [] {
      var k := TakeLogs(cfg, s, w, now);
      ConservedAfterRemoval(cfg, s, ApplyTake(cfg, s, w, now), k);
    }
  }

  lemma ConservedKeptByEnter(cfg: Config, s: System, c: nat, now: int, wake: nat)
    requires Usable(cfg) && Enabled(cfg, s, Enter(c, now, wake)) && Conserved(cfg, s)
    ensures Conserved(cfg, ApplyEnter(cfg, s, c, now, wake))
  {
    var t := ApplyEnter(cfg, s, c, now, wake);
    if t.sh.buf != s.sh.buf {
      var it := t.sh.buf[|s.sh.buf|];
      assert t.acceptedLog == s.acceptedLog + [it] && t.sh.buf == s.sh.buf + [it];
      assert multiset(t.acceptedLog) == multiset(s.acceptedLog) + multiset{it};
      assert s.outLog + t.sh.buf == s.outLog + s.sh.buf + [it];
    }
  }

  lemma ConservedKept(cfg: Config, s: System, a: Action)
    requires Usable(cfg) && Enabled(cfg, s, a) && Conserved(cfg, s)
    ensures Conserved(cfg, Apply(cfg, s, a))
  {
    match a
    case Enter(c, now, wake) => ConservedKeptByEnter(cfg, s, c, now, wake);
    case Take(w, now) => ConservedKeptByTake(cfg, s, w, now);
    case _ =>
  }

  lemma LawfulKeptByTake(cfg: Config, s: System, w: nat, now: int)
    requires Usable(cfg) && Enabled(cfg, s, Take(w, now)) && Lawful(cfg, s) && s.sh.buf != []
    ensures Lawful(cfg, ApplyTake(cfg, s, w, now))
  {
    TakeJudges(cfg, s, w, now);
    LawfulAfterEval(cfg, s, ApplyTake(cfg, s, w, now), Law.Eval(s.sh.buf[0].enq, now));
  }

  /** What a worker's section does to the control fields and the logged evaluations when there
      is work. */
  lemma TakeJudges(cfg: Config, s: System, w: nat, now: int)
    requires Usable(cfg) && Enabled(cfg, s, Take(w, now)) && s.sh.buf != []
    ensures var t, e := ApplyTake(cfg, s, w, now), Law.Eval(s.sh.buf[0].enq, now);
            && t.evals == s.evals + [e] && t.clock == now >= s.clock && |t.outLog| == |s.outLog| + 1
            && t.sh.law == Law.Decide(LawParams(cfg), s.sh.law, e).0
            && |t.droppedLog| == |s.droppedLog| + (if Law.Decide(LawParams(cfg), s.sh.law, e).1 then 1 else 0)
  {
  }

  lemma LawfulAfterEval(cfg: Config, s: System, t: System, e: Law.Eval)
    requires Usable(cfg) && Lawful(cfg, s)
    requires t.evals == s.evals + [e] && t.clock == e.now >= s.clock && |t.outLog| == |s.outLog| + 1
    requires t.sh.law == Law.Decide(LawParams(cfg), s.sh.law, e).0
    requires |t.droppedLog| == |s.droppedLog| + (if Law.Decide(LawParams(cfg), s.sh.law, e).1 then 1 else 0)
    ensures Lawful(cfg, t)
  {
    StateAfterOneMore(LawParams(cfg), s.evals, e);
    MonotoneWithLatest(s.evals, e, s.clock);
  }

  lemma MonotoneWithLatest(evals: seq<Law.Eval>, e: Law.Eval, clock: int)
    requires Law.Monotone(evals) && (evals != [] ==> evals[|evals| - 1].now <= clock <= e.now)
    ensures Law.Monotone(evals + [e])
  {
  }

  lemma StateAfterOneMore(p: Law.Params, evals: seq<Law.Eval>, e: Law.Eval)
    ensures Law.StateAfter(p, evals + [e]) == Law.Decide(p, Law.StateAfter(p, evals), e).0
    ensures Law.Drops(p, evals + [e]) == Law.Decide(p, Law.StateAfter(p, evals), e).1
    ensures Law.DropsSince(p, evals + [e], 0)
         == Law.DropsSince(p, evals, 0) + (if Law.Decide(p, Law.StateAfter(p, evals), e).1 then 1 else 0)
  {
    assert Law.Front(evals + [e]) == evals;
  }

  lemma LawfulKept(cfg: Config, s: System, a: Action)
    requires Usable(cfg) && Enabled(cfg, s, a) && Lawful(cfg, s)
    ensures Lawful(cfg, Apply(cfg, s, a))
  {
    if a.Take? && s.sh.buf != [] {
      LawfulKeptByTake(cfg, s, a.worker, a.now);
    }
  }

  // ---------------------------------------------------------------------------------
  // Every state of every run

  lemma InvInitially(cfg: Config)
    requires Usable(cfg)
    ensures Inv(cfg, Init(cfg))
  {
    NothingYet(cfg);
  }

  lemma NothingYet(cfg: Config)
    requires Usable(cfg)
    ensures Conserved(cfg, Init(cfg)) && Lawful(cfg, Init(cfg))
  {
  }

  lemma InvKept(cfg: Config, s: System, a: Action)
    requires Usable(cfg) && Enabled(cfg, s, a) && Inv(cfg, s)
    ensures Inv(cfg, Apply(cfg, s, a))
  {
    LinksKept(cfg, s, a);
    WakefulKept(cfg, s, a);
    ClosingKept(cfg, s, a);
    LedgerKept(cfg, s, a);
    OrderedKept(cfg, s, a);
    ConservedKept(cfg, s, a);
    LawfulKept(cfg, s, a);
    WorkersKept(cfg, s, a);
  }

  lemma WorkersKept(cfg: Config, s: System, a: Action)
    requires Usable(cfg) && Enabled(cfg, s, a)
    ensures |Apply(cfg, s, a).workers| == |s.workers|
  {
  }

  lemma {:induction false} InvFromThere(cfg: Config, s: System, acts: seq<Action>, t: System)
    requires Usable(cfg) && Inv(cfg, s) && ExecuteFrom(cfg, s, acts) == Some(t)
    ensures Inv(cfg, t)
  {
    if acts == [] {
    } else {
      var n := |acts| - 1;
      var r := ExecuteFrom(cfg, s, acts[..n]).value;
      InvFromThere(cfg, s, acts[..n], r);
      InvKept(cfg, r, acts[n]);
    }
  }

  lemma EveryRunKeepsInv(cfg: Config, acts: seq<Action>, s: System)
    requires Usable(cfg) && Execute(cfg, acts) == Some(s)
    ensures Inv(cfg, s)
  {
    InvInitially(cfg);
    InvFromThere(cfg, Init(cfg), acts, s);
  }
}
