/** What becomes of each call of the bounded pool, in every run: who is refused, what those turned
    away are told, how bodies end and what the gate hears of it. */
module WorkerPoolOutcomes {
  import opened Tally
  import opened WorkerPool
  import opened WorkerPoolInvariant

  // ---------------------------------------------------------------------------------
  // Who is refused

  /** The calls made so far, as the schedule's Arrive actions. */
  function Arrivals(acts: seq<Action>): seq<Action> {
    if acts == [] then []
    else
      var a := acts[|acts| - 1];
      if a.Arrive? then Arrivals(acts[..|acts| - 1]) + [a] else Arrivals(acts[..|acts| - 1])
  }

  ghost predicate Answered(arrivals: seq<Action>, s: System) {
    && |arrivals| == |s.calls|
    && forall c :: 0 <= c < |s.calls| ==>
         arrivals[c].Arrive? && s.calls[c].waits == arrivals[c].waits
         && (s.calls[c].at == Refused <==> !arrivals[c].ok)
  }

  lemma MovedWasLetIn(cfg: Config, s: System, a: Action, c: nat)
    requires Enabled(cfg, s, a) && Touches(s, a) == Some(c) && c < |s.calls| && Booked(s.calls[c])
    requires a.Receive? ==> s.calls[c].task == Queued
    ensures c < |Apply(cfg, s, a).calls| && Apply(cfg, s, a).calls[c].waits == s.calls[c].waits
    ensures s.calls[c].at != Refused && Apply(cfg, s, a).calls[c].at != Refused
  {
  }

  lemma AnsweredWithin(arrivals: seq<Action>, s: System, t: System, c: nat)
    requires Answered(arrivals, s) && c < |s.calls| == |t.calls| && t.calls == s.calls[c := t.calls[c]]
    requires t.calls[c].waits == s.calls[c].waits && t.calls[c].at != Refused && s.calls[c].at != Refused
    ensures Answered(arrivals, t)
  {
  }

  lemma AnsweredByArrive(cfg: Config, arrivals: seq<Action>, s: System, a: Action)
    requires a.Arrive? && Answered(arrivals, s)
    ensures Answered(arrivals + [a], Apply(cfg, s, a))
  {
  }

  lemma AnsweredKept(cfg: Config, arrivals: seq<Action>, s: System, a: Action)
    requires Enabled(cfg, s, a) && Answered(arrivals, s) && Linked(s) && Ledger(s)
    ensures Answered(if a.Arrive? then arrivals + [a] else arrivals, Apply(cfg, s, a))
  {
    if a.Arrive? {
      AnsweredByArrive(cfg, arrivals, s, a);
    } else {
      TouchesOnlyThat(cfg, s, a);
      match Touches(s, a)
      case Some(c) =>
        assert Booked(s.calls[c]);
        MovedWasLetIn(cfg, s, a, c);
        AnsweredWithin(arrivals, s, Apply(cfg, s, a), c);
      case None =>
    }
  }

  lemma {:induction false} EveryCallIsAnswered(cfg: Config, acts: seq<Action>, s: System)
    requires Usable(cfg) && Execute(cfg, acts) == Some(s)
    ensures Answered(Arrivals(acts), s)
  {
    if acts == [] {
    } else {
      var n := |acts| - 1;
      var r := Execute(cfg, acts[..n]).value;
      EveryCallIsAnswered(cfg, acts[..n], r);
      EveryRunKeepsInv(cfg, acts[..n], r);
      AnsweredKept(cfg, Arrivals(acts[..n]), r, acts[n]);
    }
  }

  lemma BookedCall(cfg: Config, acts: seq<Action>, s: System, c: nat)
    requires Usable(cfg) && Execute(cfg, acts) == Some(s) && c < |s.calls|
    ensures Booked(s.calls[c])
  {
    EveryRunKeepsInv(cfg, acts, s);
  }

  /** The calls are those that arrived, in order; one is refused exactly when the gate said no, and
      is then told Overloaded: it takes no slot, is never sent, never run and its gate never called. */
  lemma RefusedExactlyWhenTheGateSaysNo(cfg: Config, acts: seq<Action>, s: System, c: nat)
    requires Usable(cfg) && Execute(cfg, acts) == Some(s)
    ensures |s.calls| == |Arrivals(acts)|
    ensures c < |s.calls| ==> Arrivals(acts)[c] == Arrive(s.calls[c].waits, s.calls[c].at != Refused)
    ensures c < |s.calls| && s.calls[c].at == Refused ==>
              && s.calls[c].reply == Some(Overloaded) && s.calls[c].dones == [] && s.calls[c].runs == 0
              && SlotWeight(s.calls[c]) == 0 && s.calls[c].task == NoTask
    ensures c < |s.calls| && s.calls[c].reply == Some(Overloaded) ==> s.calls[c].at == Refused
  {
    EveryCallIsAnswered(cfg, acts, s);
    if c < |s.calls| {
      BookedCall(cfg, acts, s, c);
    }
  }

  // ---------------------------------------------------------------------------------
  // What those turned away are told

  /** A call that gave up waiting for a slot, or found none, counts as rejected; one that found the
      pool stopped does not. */
  function TurnedDown(c: Call): nat {
    Once(c.at == Refused || (c.at == TurnedAway && c.reply in {Some(QueueFull), Some(QueueTimeout)}))
  }

  lemma RejectedBalance(cfg: Config, s: System, a: Action, c: nat)
    requires Enabled(cfg, s, a) && Touches(s, a) == Some(c) && c < |s.calls| && Booked(s.calls[c])
    ensures var t := Apply(cfg, s, a);
            && c < |t.calls| && t.sh.rejected - TurnedDown(t.calls[c]) == s.sh.rejected - TurnedDown(s.calls[c])
  {
  }

  lemma RejectedUntouched(cfg: Config, s: System, a: Action)
    requires Enabled(cfg, s, a) && Touches(s, a) == None
    ensures var t := Apply(cfg, s, a);
            if a.Arrive? then
              |t.calls| == |s.calls| + 1 && t.sh.rejected == s.sh.rejected + TurnedDown(t.calls[|s.calls|])
            else t.sh.rejected == s.sh.rejected
  {
  }

  /** The rejected counter is the number of calls the gate refused and of those that got no slot. */
  lemma {:induction false} RejectedCounts(cfg: Config, acts: seq<Action>, s: System)
    requires Usable(cfg) && Execute(cfg, acts) == Some(s)
    ensures s.sh.rejected == Total(s.calls, TurnedDown)
  {
    if acts == [] {
    } else {
      var n := |acts| - 1;
      var r := Execute(cfg, acts[..n]).value;
      RejectedCounts(cfg, acts[..n], r);
      EveryRunKeepsInv(cfg, acts[..n], r);
      CallTotalAfter(cfg, r, acts[n], TurnedDown);
      match Touches(r, acts[n])
      case Some(c) =>
        assert Booked(r.calls[c]);
        RejectedBalance(cfg, r, acts[n], c);
      case None => RejectedUntouched(cfg, r, acts[n]);
    }
  }

  /** Without a slot: QueueTimeout when there was a wait for one, QueueFull when there was none.
      With a slot on a stopped pool: Stopped, once the slot is back. Both have the gate told false. */
  lemma WhatThoseTurnedAwayAreTold(cfg: Config, s: System, c: nat)
    requires c < |s.calls|
    ensures Enabled(cfg, s, GiveUp(c)) ==>
              var t := Apply(cfg, s, GiveUp(c));
              && t.calls[c].at == TurnedAway && t.calls[c].dones == s.calls[c].dones + [false]
              && t.calls[c].reply == (if cfg.maxWait > 0 then Some(QueueTimeout) else Some(QueueFull))
              && t.sh == s.sh.(rejected := s.sh.rejected + 1)
    ensures Enabled(cfg, s, Decline(c)) ==>
              var t := Apply(cfg, s, Decline(c));
              && t.calls[c].at == TurnedAway && t.calls[c].dones == s.calls[c].dones + [false]
              && t.calls[c].reply == Some(Stopped) && t.sh == s.sh
    ensures Enabled(cfg, s, Lock(c)) ==>
              (Apply(cfg, s, Lock(c)).calls[c].at == LockedOpen <==> !s.sh.closed)
  {
  }

  // ---------------------------------------------------------------------------------
  // What the gate is told

  /** How the body of call c ended, as the schedule has it: one entry for each end. */
  ghost function BodyEnds(cfg: Config, acts: seq<Action>, c: nat): seq<Outcome>
    requires Usable(cfg) && Execute(cfg, acts).Some?
  {
    if acts == [] then []
    else
      var n := |acts| - 1;
      var s, a := Execute(cfg, acts[..n]).value, acts[n];
      BodyEnds(cfg, acts[..n], c) + (if a.EndBody? && s.workers[a.worker].call == c then [a.outcome] else [])
  }

  predicate EndsAs(c: Call, ends: seq<Outcome>) {
    match c.task
    case BodyDone(_, o) => ends == [o]
    case GateTold(_, o) => ends == [o]
    case Finished(o) => ends == [o]
    case _ => ends == []
  }

  lemma EndsKeptByMove(cfg: Config, s: System, a: Action, c: nat, ends: seq<Outcome>)
    requires Enabled(cfg, s, a) && Touches(s, a) == Some(c) && !a.EndBody?
    requires c < |s.calls| && Booked(s.calls[c]) && EndsAs(s.calls[c], ends)
    requires a.Receive? ==> s.calls[c].task == Queued
    ensures c < |Apply(cfg, s, a).calls| && EndsAs(Apply(cfg, s, a).calls[c], ends)
  {
  }

  lemma EndsKept(cfg: Config, s: System, a: Action, c: nat, ends: seq<Outcome>)
    requires Enabled(cfg, s, a) && Linked(s) && Ledger(s)
    requires if c < |s.calls| then EndsAs(s.calls[c], ends) else ends == []
    requires a.EndBody? ==> s.workers[a.worker].call != c
    ensures c < |Apply(cfg, s, a).calls| ==> EndsAs(Apply(cfg, s, a).calls[c], ends)
    ensures c >= |Apply(cfg, s, a).calls| ==> ends == []
  {
    if !a.Arrive? {
      TouchesOnlyThat(cfg, s, a);
      if Touches(s, a) == Some(c) {
        assert Booked(s.calls[c]);
        EndsKeptByMove(cfg, s, a, c, ends);
      }
    }
  }

  lemma {:induction false} BodiesEndAsRecorded(cfg: Config, acts: seq<Action>, s: System, c: nat)
    requires Usable(cfg) && Execute(cfg, acts) == Some(s)
    ensures c < |s.calls| ==> EndsAs(s.calls[c], BodyEnds(cfg, acts, c))
    ensures c >= |s.calls| ==> BodyEnds(cfg, acts, c) == []
  {
    if acts == [] {
    } else {
      var n := |acts| - 1;
      var r, a := Execute(cfg, acts[..n]).value, acts[n];
      BodiesEndAsRecorded(cfg, acts[..n], r, c);
      EveryRunKeepsInv(cfg, acts[..n], r);
      if a.EndBody? && r.workers[a.worker].call == c {
        assert Apply(cfg, r, a).calls[c].task == BodyDone(a.worker, a.outcome);
      } else {
        EndsKept(cfg, r, a, c, BodyEnds(cfg, acts[..n], c));
      }
    }
  }

  /** A body ends at most once, and the gate is told true exactly when it ended by returning
      success: not when it failed or panicked, nor when the call was turned away. */
  lemma GateToldHowTheBodyEnded(cfg: Config, acts: seq<Action>, s: System, c: nat)
    requires Usable(cfg) && Execute(cfg, acts) == Some(s) && c < |s.calls|
    ensures |BodyEnds(cfg, acts, c)| == s.calls[c].runs <= 1
    ensures s.calls[c].runs == 1 && s.calls[c].dones != [] ==>
              s.calls[c].dones == [BodyEnds(cfg, acts, c) == [Returned(true)]]
    ensures s.calls[c].runs == 0 ==> s.calls[c].dones in {[], [false]}
  {
    BodiesEndAsRecorded(cfg, acts, s, c);
    BookedCall(cfg, acts, s, c);
  }

  // ---------------------------------------------------------------------------------
  // Nobody is stuck

  /** A call that the gate let in can take a slot whenever one is free, and give up whenever it has
      a timer or none is; every later step can be taken at once. */
  lemma CallsMoveOn(cfg: Config, s: System, waits: bool, ok: bool, outcome: Outcome)
    ensures Enabled(cfg, s, Arrive(waits, ok))
    ensures forall c :: At(s, c, Admitted) ==>
              && (Enabled(cfg, s, TakeSlot(c)) <==> s.sh.sem < cfg.workers + cfg.queueCapacity)
              && (Enabled(cfg, s, GiveUp(c)) <==> cfg.maxWait > 0 || s.sh.sem >= cfg.workers + cfg.queueCapacity)
    ensures forall c :: At(s, c, HasSlot) ==> Enabled(cfg, s, Lock(c))
    ensures forall c: nat :: At(s, c, Accepted) && s.calls[c].waits && s.calls[c].reply.None? ==>
              (Enabled(cfg, s, Wake(c)) <==> s.calls[c].closes > 0)
    ensures forall w :: HasTask(s, w) && TaskOf(s, w).task.Running? ==> Enabled(cfg, s, EndBody(w, outcome))
  {
  }
}
