/** What becomes of each call and each task of the CoDel pool, in every run: who is refused, what a
    worker does with what it takes, and how stages, logs and counters tell the same story. */
module CodelPoolOutcomes {
  import opened Tally
  import Law = CodelControl
  import opened CodelPool
  import opened CodelPoolInvariant

  // ---------------------------------------------------------------------------------
  // Tasks and logs

  predicate InLog(log: seq<Item>, c: nat) {
    exists i :: 0 <= i < |log| && log[i].call == c
  }

  /** The law decided to drop the task of this call. */
  predicate Condemned(c: Call) { c.stage.Dropping? || c.stage.DropTold? || c.stage == Shed }

  /** A worker was given the task of this call to run. */
  predicate Served(c: Call) { c.stage.Running? || c.stage.BodyDone? || c.stage.Ran? }

  function CondemnedWeight(c: Call): nat { Once(Condemned(c)) }

  function ServedWeight(c: Call): nat { Once(Served(c)) }

  /** The log holds the calls of one kind, each once. */
  ghost predicate LogOf(calls: seq<Call>, log: seq<Item>, kind: Call -> nat) {
    && (forall c :: 0 <= c < |calls| ==> (kind(calls[c]) > 0 <==> InLog(log, c)))
    && (forall i :: 0 <= i < |log| ==> log[i].call < |calls|)
    && Total(calls, kind) == |log|
  }

  ghost predicate Logged(s: System) {
    LogOf(s.calls, s.droppedLog, CondemnedWeight) && LogOf(s.calls, s.servedLog, ServedWeight)
  }

  lemma InLogOneMore(log: seq<Item>, it: Item, c: nat)
    ensures InLog(log + [it], c) <==> InLog(log, c) || it.call == c
  {
    assert (log + [it])[|log|] == it;
    assert forall i :: 0 <= i < |log| ==> (log + [it])[i] == log[i];
  }

  /** One call moves within its kind. */
  lemma LogOfWithin(calls: seq<Call>, log: seq<Item>, kind: Call -> nat, c: nat, moved: Call)
    requires LogOf(calls, log, kind) && c < |calls| && kind(moved) == kind(calls[c])
    ensures LogOf(calls[c := moved], log, kind)
  {
    TotalUpdate(calls, c, moved, kind);
  }

  /** One more call, of another kind. */
  lemma LogOfAppend(calls: seq<Call>, log: seq<Item>, kind: Call -> nat, call: Call)
    requires LogOf(calls, log, kind) && kind(call) == 0
    ensures LogOf(calls + [call], log, kind)
  {
    TotalAppend(calls, call, kind);
  }

  /** One call becomes of this kind, and its item goes into the log. */
  lemma LogOfTaken(calls: seq<Call>, log: seq<Item>, kind: Call -> nat, it: Item, moved: Call)
    requires LogOf(calls, log, kind) && it.call < |calls| && kind(calls[it.call]) == 0 && kind(moved) == 1
    ensures LogOf(calls[it.call := moved], log + [it], kind)
  {
    TotalUpdate(calls, it.call, moved, kind);
    forall c | 0 <= c < |calls| ensures kind(calls[it.call := moved][c]) > 0 <==> InLog(log + [it], c) {
      InLogOneMore(log, it, c);
    }
  }

  lemma LoggedWithin(s: System, t: System, c: nat)
    requires Logged(s) && t.droppedLog == s.droppedLog && t.servedLog == s.servedLog
    requires c < |s.calls| == |t.calls| && t.calls == s.calls[c := t.calls[c]]
    requires Condemned(t.calls[c]) == Condemned(s.calls[c]) && Served(t.calls[c]) == Served(s.calls[c])
    ensures Logged(t)
  {
    LogOfWithin(s.calls, s.droppedLog, CondemnedWeight, c, t.calls[c]);
    LogOfWithin(s.calls, s.servedLog, ServedWeight, c, t.calls[c]);
  }

  lemma LoggedByArrive(s: System, waits: bool, ok: bool)
    requires Logged(s)
    ensures Logged(ApplyArrive(s, waits, ok))
  {
    var call := ApplyArrive(s, waits, ok).calls[|s.calls|];
    LogOfAppend(s.calls, s.droppedLog, CondemnedWeight, call);
    LogOfAppend(s.calls, s.servedLog, ServedWeight, call);
  }

  /** A queued call is taken and its item goes into the one log or the other. */
  lemma LoggedByTaking(s: System, t: System, it: Item, drop: bool)
    requires Logged(s) && it.call < |s.calls| == |t.calls| && s.calls[it.call].stage == Queued
    requires t.calls == s.calls[it.call := t.calls[it.call]]
    requires if drop then Condemned(t.calls[it.call]) else Served(t.calls[it.call])
    requires t.droppedLog == (if drop then s.droppedLog + [it] else s.droppedLog)
    requires t.servedLog == (if drop then s.servedLog else s.servedLog + [it])
    ensures Logged(t)
  {
    var moved := t.calls[it.call];
    if drop {
      LogOfTaken(s.calls, s.droppedLog, CondemnedWeight, it, moved);
      LogOfWithin(s.calls, s.servedLog, ServedWeight, it.call, moved);
    } else {
      LogOfWithin(s.calls, s.droppedLog, CondemnedWeight, it.call, moved);
      LogOfTaken(s.calls, s.servedLog, ServedWeight, it, moved);
    }
  }

  // ---------------------------------------------------------------------------------
  // What a worker does with what it takes

  /** A worker that finds a task judges the head by the time it has waited, drops it exactly when
      the law drops after the evaluations so far and this one, and otherwise serves the newest
      while dropping newest-first and the oldest in all other cases; the call it leaves the lock
      with is to be dropped or to be run accordingly. */
  lemma WhatAWorkerTakes(cfg: Config, s: System, w: nat, now: int) returns (k: nat)
    requires Usable(cfg) && Enabled(cfg, s, Take(w, now)) && s.sh.buf != [] && Lawful(cfg, s) && BufferLinked(s)
    ensures var t, p := ApplyTake(cfg, s, w, now), LawParams(cfg);
            var evals := s.evals + [Law.Eval(s.sh.buf[0].enq, now)];
            var drop := Law.Drops(p, evals);
            && t.evals == evals
            && k == (if !drop && cfg.adaptiveLIFO && Law.StateAfter(p, evals).dropping then |s.sh.buf| - 1 else 0)
            && var it := s.sh.buf[k];
               && t.workers == s.workers[w := Busy(it.call)]
               && it.call < |s.calls|
               && t.calls == s.calls[it.call := s.calls[it.call].(stage := if drop then Dropping(w) else Running(w))]
               && t.droppedLog == (if drop then s.droppedLog + [it] else s.droppedLog)
               && t.servedLog == (if drop then s.servedLog else s.servedLog + [it])
               && t.sh.dropped == s.sh.dropped + Once(drop)
               && t.sh.buf == s.sh.buf[..k] + s.sh.buf[k + 1..]
  {
    k := SectionTakesOne(cfg, s.sh, now);
    StateAfterOneMore(LawParams(cfg), s.evals, Law.Eval(s.sh.buf[0].enq, now));
  }

  /** The time a worker judges by: how long before now the oldest task was accepted. */
  lemma VerdictOfTheOldest(cfg: Config, acts: seq<Action>, s: System, w: nat, now: int)
    requires Usable(cfg) && Execute(cfg, acts) == Some(s) && Enabled(cfg, s, Take(w, now)) && s.sh.buf != []
    ensures var t := Apply(cfg, s, Take(w, now));
            && |t.evals| == |s.evals| + 1
            && t.evals[|s.evals|].now == now
            && (exists x :: x in s.sh.buf && x.enq == t.evals[|s.evals|].enq)
            && (forall x :: x in s.sh.buf ==> t.evals[|s.evals|].enq <= x.enq)
            && (|t.droppedLog| > |s.droppedLog| <==> Law.Drops(LawParams(cfg), t.evals))
  {
    EveryRunKeepsInv(cfg, acts, s);
    var k := WhatAWorkerTakes(cfg, s, w, now);
    assert s.sh.buf[0] in s.sh.buf;
  }

  lemma LoggedByTake(cfg: Config, s: System, w: nat, now: int)
    requires Usable(cfg) && Enabled(cfg, s, Take(w, now)) && Logged(s)
    requires Lawful(cfg, s) && BufferLinked(s)
    ensures Logged(ApplyTake(cfg, s, w, now))
  {
    if s.sh.buf != [] {
      var k := WhatAWorkerTakes(cfg, s, w, now);
      LoggedByTaking(s, ApplyTake(cfg, s, w, now), s.sh.buf[k],
                     Law.Drops(LawParams(cfg), s.evals + [Law.Eval(s.sh.buf[0].enq, now)]));
    }
  }

  predicate ByHolder(a: Action) {
    a.TellGateDropped? || a.TellCallerDropped? || a.EndBody? || a.TellGateRan?
  }

  lemma LoggedByHolder(cfg: Config, s: System, a: Action)
    requires Usable(cfg) && Enabled(cfg, s, a) && ByHolder(a) && Logged(s)
    ensures Logged(Apply(cfg, s, a))
  {
    LoggedWithin(s, Apply(cfg, s, a), s.workers[a.worker].call);
  }

  lemma LoggedByEnter(cfg: Config, s: System, c: nat, now: int, wake: nat)
    requires Usable(cfg) && Enabled(cfg, s, Enter(c, now, wake)) && Logged(s)
    ensures Logged(ApplyEnter(cfg, s, c, now, wake))
  {
    LoggedWithin(s, ApplyEnter(cfg, s, c, now, wake), c);
  }

  lemma LoggedKept(cfg: Config, s: System, a: Action)
    requires Usable(cfg) && Enabled(cfg, s, a) && Logged(s)
    requires Lawful(cfg, s) && BufferLinked(s)
    ensures Logged(Apply(cfg, s, a))
  {
    match a
    case Arrive(waits, ok) => LoggedByArrive(s, waits, ok);
    case Enter(c, now, wake) => LoggedByEnter(cfg, s, c, now, wake);
    case Take(w, now) => LoggedByTake(cfg, s, w, now);
    case Wake(c) => LoggedWithin(s, Apply(cfg, s, a), c);
    case Close =>
    case StopReturns =>
    case _ => LoggedByHolder(cfg, s, a);
  }

  lemma {:induction false} EveryRunIsLogged(cfg: Config, acts: seq<Action>, s: System)
    requires Usable(cfg) && Execute(cfg, acts) == Some(s)
    ensures Logged(s)
  {
    if acts == [] {
    } else {
      var n := |acts| - 1;
      var r := Execute(cfg, acts[..n]).value;
      EveryRunIsLogged(cfg, acts[..n], r);
      EveryRunKeepsInv(cfg, acts[..n], r);
      LoggedKept(cfg, r, acts[n]);
    }
  }

  /** What a waiting caller is told is what the law decided: a drop exactly when its task is among
      those dropped, success exactly when it is among those served and its body has ended. */
  lemma CallerToldTheVerdict(cfg: Config, acts: seq<Action>, s: System, c: nat)
    requires Usable(cfg) && Execute(cfg, acts) == Some(s) && c < |s.calls|
    requires s.calls[c].waits && s.calls[c].reply.Some?
    ensures s.calls[c].reply == Some(WasShed) <==> InLog(s.droppedLog, c)
    ensures s.calls[c].reply == Some(Nil) <==> InLog(s.servedLog, c)
    ensures s.calls[c].reply == Some(Nil) ==> s.calls[c].runs == 1
  {
    EveryRunIsLogged(cfg, acts, s);
    EveryRunKeepsInv(cfg, acts, s);
    ReplyOfKind(s.calls[c]);
  }

  lemma ReplyOfKind(c: Call)
    requires Booked(c) && c.waits && c.reply.Some?
    ensures c.reply == Some(WasShed) <==> Condemned(c)
    ensures c.reply == Some(Nil) <==> Served(c)
    ensures c.reply == Some(Nil) ==> c.runs == 1
  {
  }

  /** Whether a task's body runs is what the law decided: never when dropped, and when served once
      the worker has got that far. */
  lemma RunsAreTheServed(cfg: Config, acts: seq<Action>, s: System, c: nat)
    requires Usable(cfg) && Execute(cfg, acts) == Some(s) && c < |s.calls|
    ensures s.calls[c].runs == 1 <==> InLog(s.servedLog, c) && !s.calls[c].stage.Running?
    ensures InLog(s.droppedLog, c) ==> s.calls[c].runs == 0 && !InLog(s.servedLog, c)
  {
    EveryRunIsLogged(cfg, acts, s);
    EveryRunKeepsInv(cfg, acts, s);
    assert Booked(s.calls[c]);
  }

  function ShedWeight(c: Call): nat { Once(c.stage == Shed) }

  function RunsOf(c: Call): nat { c.runs }

  lemma {:induction false} TotalsAgree(calls: seq<Call>, v: Call -> nat, w: Call -> nat)
    requires forall i :: 0 <= i < |calls| ==> v(calls[i]) == w(calls[i])
    ensures Total(calls, v) == Total(calls, w)
  {
    TotalBelow(calls, v, w);
    TotalBelow(calls, w, v);
  }

  /** When Stop has returned, as many calls were shed as the pool has counted drops, and as many
      bodies were run as tasks were served. */
  lemma StopCountsAgree(cfg: Config, acts: seq<Action>, s: System)
    requires Usable(cfg) && Execute(cfg, acts) == Some(s) && s.stopReturned
    ensures Total(s.calls, ShedWeight) == s.sh.dropped == |s.droppedLog|
    ensures Total(s.calls, RunsOf) == |s.servedLog| == s.sh.accepted - s.sh.dropped
  {
    EveryRunIsLogged(cfg, acts, s);
    EveryRunKeepsInv(cfg, acts, s);
    NobodyAtWork(cfg, s);
    TotalsAgree(s.calls, ShedWeight, CondemnedWeight);
    TotalsAgree(s.calls, RunsOf, ServedWeight);
    AcceptedSplit(cfg, s);
  }

  lemma NobodyAtWork(cfg: Config, s: System)
    requires Usable(cfg) && Inv(cfg, s) && s.stopReturned
    ensures s.sh.buf == []
    ensures forall c :: 0 <= c < |s.calls| ==>
              && ShedWeight(s.calls[c]) == CondemnedWeight(s.calls[c])
              && RunsOf(s.calls[c]) == ServedWeight(s.calls[c])
  {
    assert s.workers[0] == Exited;
    forall c | 0 <= c < |s.calls| ensures HeldBy(s.calls[c].stage) == None && Booked(s.calls[c]) {
    }
  }

  lemma AcceptedSplit(cfg: Config, s: System)
    requires Conserved(cfg, s) && Ordered(s)
    ensures s.sh.accepted == |s.sh.buf| + |s.droppedLog| + |s.servedLog|
  {
    assert |multiset(s.acceptedLog)| == |s.acceptedLog|;
    assert |multiset(s.outLog)| == |multiset(s.droppedLog)| + |multiset(s.servedLog)|;
    assert |multiset(s.acceptedLog)| == |multiset(s.sh.buf)| + |multiset(s.outLog)|;
  }

  // ---------------------------------------------------------------------------------
  // Who is refused

  /** The calls made so far, as the schedule's Arrive actions. */
  function Arrivals(acts: seq<Action>): seq<Action> {
    if acts == [] then []
    else
      var a := acts[|acts| - 1];
      if a.Arrive? then Arrivals(acts[..|acts| - 1]) + [a] else Arrivals(acts[..|acts| - 1])
  }

  ghost predicate Answered(arrivals: seq<Action>, s: System) {
    && |arrivals| == |s.calls|
    && forall c :: 0 <= c < |s.calls| ==>
         arrivals[c].Arrive? && s.calls[c].waits == arrivals[c].waits
         && (s.calls[c].stage == Refused <==> !arrivals[c].ok)
  }

  function TurnedDown(c: Call): nat {
    Once(c.stage == Refused || (c.stage == TurnedAway && c.reply == Some(QueueFull)))
  }

  /** The call an action moves, if any. */
  function Moved(cfg: Config, s: System, a: Action): Option<nat>
    requires Usable(cfg) && Enabled(cfg, s, a)
  {
    match a
    case Enter(c, _, _) => Some(c)
    case Take(_, now) =>
      (match WorkerSection(cfg, s.sh, now).1
       case Drop(it) => Some(it.call)
       case Serve(it) => Some(it.call)
       case _ => None)
    case Wake(c) => Some(c)
    case TellGateDropped(w) => Some(s.workers[w].call)
    case TellCallerDropped(w) => Some(s.workers[w].call)
    case EndBody(w, _) => Some(s.workers[w].call)
    case TellGateRan(w) => Some(s.workers[w].call)
    case _ => None
  }

  /** A step that moves call c alone, which was let in, and accounts for it. */
  predicate MovesIt(s: System, t: System, c: nat) {
    && c < |s.calls| == |t.calls| && t.calls == s.calls[c := t.calls[c]]
    && t.calls[c].waits == s.calls[c].waits && t.calls[c].stage != Refused && s.calls[c].stage != Refused
    && t.sh.rejected - TurnedDown(t.calls[c]) == s.sh.rejected - TurnedDown(s.calls[c])
  }

  lemma TakeMovesIt(cfg: Config, s: System, w: nat, now: int)
    requires Usable(cfg) && Enabled(cfg, s, Take(w, now)) && BufferLinked(s) && s.sh.buf != []
    ensures Moved(cfg, s, Take(w, now)).Some?
    ensures MovesIt(s, ApplyTake(cfg, s, w, now), Moved(cfg, s, Take(w, now)).value)
  {
    var k := SectionTakesOne(cfg, s.sh, now);
  }

  lemma EnterMovesIt(cfg: Config, s: System, c: nat, now: int, wake: nat)
    requires Usable(cfg) && Enabled(cfg, s, Enter(c, now, wake))
    ensures MovesIt(s, ApplyEnter(cfg, s, c, now, wake), c)
  {
  }

  lemma WakeMovesIt(cfg: Config, s: System, c: nat)
    requires Usable(cfg) && Enabled(cfg, s, Wake(c)) && Ledger(s)
    ensures MovesIt(s, Apply(cfg, s, Wake(c)), c)
  {
    assert Booked(s.calls[c]);
  }

  lemma HolderMovesIt(cfg: Config, s: System, a: Action)
    requires Usable(cfg) && Enabled(cfg, s, a) && ByHolder(a)
    ensures MovesIt(s, Apply(cfg, s, a), s.workers[a.worker].call)
  {
  }

  lemma MovesOne(cfg: Config, s: System, a: Action, c: nat)
    requires Usable(cfg) && Enabled(cfg, s, a) && BufferLinked(s) && Ledger(s) && Moved(cfg, s, a) == Some(c)
    ensures MovesIt(s, Apply(cfg, s, a), c)
  {
    match a
    case Enter(_, now, wake) => EnterMovesIt(cfg, s, c, now, wake);
    case Take(w, now) => TakeMovesIt(cfg, s, w, now);
    case Wake(_) => WakeMovesIt(cfg, s, c);
    case _ => HolderMovesIt(cfg, s, a);
  }

  lemma MovesNone(cfg: Config, s: System, a: Action)
    requires Usable(cfg) && Enabled(cfg, s, a) && !a.Arrive? && Moved(cfg, s, a) == None
    ensures Apply(cfg, s, a).calls == s.calls && Apply(cfg, s, a).sh.rejected == s.sh.rejected
  {
  }

  lemma AnsweredKept(cfg: Config, arrivals: seq<Action>, s: System, a: Action)
    requires Usable(cfg) && Enabled(cfg, s, a) && Answered(arrivals, s) && BufferLinked(s) && Ledger(s)
    ensures Answered(if a.Arrive? then arrivals + [a] else arrivals, Apply(cfg, s, a))
  {
    if a.Arrive? {
      AnsweredByArrive(cfg, arrivals, s, a);
    } else {
      match Moved(cfg, s, a)
      case Some(c) =>
        MovesOne(cfg, s, a, c);
        AnsweredWithin(arrivals, s, Apply(cfg, s, a), c);
      case None => MovesNone(cfg, s, a);
    }
  }

  lemma AnsweredByArrive(cfg: Config, arrivals: seq<Action>, s: System, a: Action)
    requires Usable(cfg) && a.Arrive? && Answered(arrivals, s)
    ensures Answered(arrivals + [a], ApplyArrive(s, a.waits, a.ok))
  {
  }

  lemma AnsweredWithin(arrivals: seq<Action>, s: System, t: System, c: nat)
    requires Answered(arrivals, s) && c < |s.calls| == |t.calls| && t.calls == s.calls[c := t.calls[c]]
    requires t.calls[c].waits == s.calls[c].waits && t.calls[c].stage != Refused && s.calls[c].stage != Refused
    ensures Answered(arrivals, t)
  {
  }

  lemma {:induction false} EveryCallIsAnswered(cfg: Config, acts: seq<Action>, s: System)
    requires Usable(cfg) && Execute(cfg, acts) == Some(s)
    ensures Answered(Arrivals(acts), s)
  {
    if acts == [] {
    } else {
      var n := |acts| - 1;
      EveryCallIsAnswered(cfg, acts[..n], Execute(cfg, acts[..n]).value);
      EveryRunKeepsInv(cfg, acts[..n], Execute(cfg, acts[..n]).value);
      AnsweredKept(cfg, Arrivals(acts[..n]), Execute(cfg, acts[..n]).value, acts[n]);
    }
  }

  /** The calls are those that arrived, in order; one is refused exactly when the gate said no, and
      is then told Overloaded, never queued, never run and its gate never called. */
  lemma RefusedExactlyWhenTheGateSaysNo(cfg: Config, acts: seq<Action>, s: System, c: nat)
    requires Usable(cfg) && Execute(cfg, acts) == Some(s)
    ensures |s.calls| == |Arrivals(acts)|
    ensures c < |s.calls| ==> Arrivals(acts)[c] == Arrive(s.calls[c].waits, s.calls[c].stage != Refused)
    ensures c < |s.calls| && s.calls[c].stage == Refused ==>
              s.calls[c].reply == Some(Overloaded) && s.calls[c].dones == [] && s.calls[c].runs == 0
    ensures c < |s.calls| && s.calls[c].reply == Some(Overloaded) ==> s.calls[c].stage == Refused
  {
    EveryCallIsAnswered(cfg, acts, s);
    if c < |s.calls| {
      BookedCall(cfg, acts, s, c);
    }
  }

  lemma BookedCall(cfg: Config, acts: seq<Action>, s: System, c: nat)
    requires Usable(cfg) && Execute(cfg, acts) == Some(s) && c < |s.calls|
    ensures Booked(s.calls[c])
  {
    EveryRunKeepsInv(cfg, acts, s);
  }

  lemma RejectedByArrive(s: System, waits: bool, ok: bool)
    requires s.sh.rejected == Total(s.calls, TurnedDown)
    ensures ApplyArrive(s, waits, ok).sh.rejected == Total(ApplyArrive(s, waits, ok).calls, TurnedDown)
  {
    var call := if ok then Call(waits, Admitted, [], 0, 0, false, None)
                else Call(waits, Refused, [], 0, 0, false, Some(Overloaded));
    TotalAppend(s.calls, call, TurnedDown);
    assert ApplyArrive(s, waits, ok).calls == s.calls + [call];
    assert TurnedDown(call) == Once(!ok);
  }

  lemma RejectedByMove(s: System, t: System, c: nat)
    requires MovesIt(s, t, c) && s.sh.rejected == Total(s.calls, TurnedDown)
    ensures t.sh.rejected == Total(t.calls, TurnedDown)
  {
    TotalUpdate(s.calls, c, t.calls[c], TurnedDown);
  }

  lemma RejectedKept(cfg: Config, s: System, a: Action)
    requires Usable(cfg) && Enabled(cfg, s, a) && BufferLinked(s) && Ledger(s)
    requires s.sh.rejected == Total(s.calls, TurnedDown)
    ensures Apply(cfg, s, a).sh.rejected == Total(Apply(cfg, s, a).calls, TurnedDown)
  {
    if a.Arrive? {
      RejectedByArrive(s, a.waits, a.ok);
    } else if Moved(cfg, s, a).Some? {
      MovesOne(cfg, s, a, Moved(cfg, s, a).value);
      RejectedByMove(s, Apply(cfg, s, a), Moved(cfg, s, a).value);
    } else {
      MovesNone(cfg, s, a);
    }
  }

  /** The rejected counter is the number of calls the gate refused and of those that found the
      queue full; a call that found the pool stopped is not counted. */
  lemma {:induction false} RejectedCounts(cfg: Config, acts: seq<Action>, s: System)
    requires Usable(cfg) && Execute(cfg, acts) == Some(s)
    ensures s.sh.rejected == Total(s.calls, TurnedDown)
  {
    if acts == [] {
    } else {
      var n := |acts| - 1;
      var r := Execute(cfg, acts[..n]).value;
      RejectedCounts(cfg, acts[..n], r);
      EveryRunKeepsInv(cfg, acts[..n], r);
      RejectedKept(cfg, r, acts[n]);
    }
  }

  // ---------------------------------------------------------------------------------
  // What the gate is told

  /** How the body of call c ended, as the schedule has it: one entry for each end. */
  ghost function BodyEnds(cfg: Config, acts: seq<Action>, c: nat): seq<Outcome>
    requires Usable(cfg) && Execute(cfg, acts).Some?
  {
    if acts == [] then []
    else
      var n := |acts| - 1;
      var s, a := Execute(cfg, acts[..n]).value, acts[n];
      BodyEnds(cfg, acts[..n], c) + (if a.EndBody? && s.workers[a.worker].call == c then [a.outcome] else [])
  }

  predicate EndsAs(c: Call, ends: seq<Outcome>) {
    match c.stage
    case BodyDone(_, o) => ends == [o]
    case Ran(o) => ends == [o]
    case _ => ends == []
  }

  lemma EndsKept(cfg: Config, s: System, a: Action, c: nat, ends: seq<Outcome>)
    requires Usable(cfg) && Enabled(cfg, s, a) && BufferLinked(s) && Ledger(s)
    requires if c < |s.calls| then EndsAs(s.calls[c], ends) else ends == []
    requires a.EndBody? ==> s.workers[a.worker].call != c
    ensures c < |Apply(cfg, s, a).calls| ==> EndsAs(Apply(cfg, s, a).calls[c], ends)
    ensures c >= |Apply(cfg, s, a).calls| ==> ends == []
  {
    if !a.Arrive? {
      match Moved(cfg, s, a)
      case Some(d) =>
        MovesOne(cfg, s, a, d);
        if d == c {
          EndsKeptByMove(cfg, s, a, c, ends);
        }
      case None => MovesNone(cfg, s, a);
    }
  }

  lemma EndsKeptByMove(cfg: Config, s: System, a: Action, c: nat, ends: seq<Outcome>)
    requires Usable(cfg) && Enabled(cfg, s, a) && BufferLinked(s) && Moved(cfg, s, a) == Some(c) && !a.EndBody?
    requires c < |s.calls| == |Apply(cfg, s, a).calls| && EndsAs(s.calls[c], ends)
    ensures EndsAs(Apply(cfg, s, a).calls[c], ends)
  {
    match a
    case Take(w, now) => var k := SectionTakesOne(cfg, s.sh, now);
    case _ =>
  }

  lemma {:induction false} BodiesEndAsRecorded(cfg: Config, acts: seq<Action>, s: System, c: nat)
    requires Usable(cfg) && Execute(cfg, acts) == Some(s)
    ensures c < |s.calls| ==> EndsAs(s.calls[c], BodyEnds(cfg, acts, c))
    ensures c >= |s.calls| ==> BodyEnds(cfg, acts, c) == []
  {
    if acts == [] {
    } else {
      var n := |acts| - 1;
      var r, a := Execute(cfg, acts[..n]).value, acts[n];
      BodiesEndAsRecorded(cfg, acts[..n], r, c);
      EveryRunKeepsInv(cfg, acts[..n], r);
      if a.EndBody? && r.workers[a.worker].call == c {
        assert Apply(cfg, r, a).calls[c].stage == BodyDone(a.worker, a.outcome);
      } else {
        EndsKept(cfg, r, a, c, BodyEnds(cfg, acts[..n], c));
      }
    }
  }

  /** A body ends at most once, and the gate is told true exactly when it ended by returning
      success: not when it failed or panicked, nor when the task was dropped. */
  lemma GateToldHowTheBodyEnded(cfg: Config, acts: seq<Action>, s: System, c: nat)
    requires Usable(cfg) && Execute(cfg, acts) == Some(s) && c < |s.calls|
    ensures |BodyEnds(cfg, acts, c)| == s.calls[c].runs <= 1
    ensures s.calls[c].runs == 1 && s.calls[c].dones != [] ==>
              s.calls[c].dones == [BodyEnds(cfg, acts, c) == [Returned(true)]]
    ensures s.calls[c].runs == 0 ==> s.calls[c].dones in {[], [false]}
  {
    BodiesEndAsRecorded(cfg, acts, s, c);
    BookedCall(cfg, acts, s, c);
  }

  // ---------------------------------------------------------------------------------
  // Nobody is stuck

  /** A call that the gate let in can go on to the lock at any later time, and one whose channel has
      been closed can return; the gate may say either, and a body may end in any way. */
  lemma CallsMoveOn(cfg: Config, s: System, now: int, waits: bool, ok: bool, outcome: Outcome)
    requires Usable(cfg) && now >= s.clock
    ensures Enabled(cfg, s, Arrive(waits, ok))
    ensures forall c :: 0 <= c < |s.calls| && s.calls[c].stage == Admitted ==>
              exists wake: nat :: Enabled(cfg, s, Enter(c, now, wake))
    ensures forall c :: 0 <= c < |s.calls| && s.calls[c].waits && s.calls[c].reply.None? && s.calls[c].closes > 0 ==>
              Enabled(cfg, s, Wake(c))
    ensures forall w :: 0 <= w < |s.workers| && s.workers[w] == Ready ==> Enabled(cfg, s, Take(w, now))
    ensures forall w :: HasTask(s, w) && TaskOf(s, w).stage.Running? ==> Enabled(cfg, s, EndBody(w, outcome))
  {
    forall c | 0 <= c < |s.calls| && s.calls[c].stage == Admitted
      ensures exists wake: nat :: Enabled(cfg, s, Enter(c, now, wake))
    {
      if SomeAsleep(s) {
        var w :| 0 <= w < |s.workers| && s.workers[w] == Asleep;
        assert Enabled(cfg, s, Enter(c, now, w));
      } else {
        assert Enabled(cfg, s, Enter(c, now, 0));
      }
    }
  }
}
