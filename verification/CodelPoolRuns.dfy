/** Runs of the CoDel pool that show what it does not promise. */
module CodelPoolRuns {
  import opened Tally
  import Law = CodelControl
  import opened CodelPool

  /** One worker, a target of 5 and an interval of 100. */
  const SMALL := Config(1, 10, 5, 100, false)

  lemma Step(acts: seq<Action>, s: System, a: Action) returns (more: seq<Action>, t: System)
    requires Execute(SMALL, acts) == Some(s) && Enabled(SMALL, s, a)
    ensures more == acts + [a] && t == Apply(SMALL, s, a) && Execute(SMALL, more) == Some(t)
  {
    more, t := acts + [a], Apply(SMALL, s, a);
    assert more[..|more| - 1] == acts;
  }

  /** Open, with nothing queued and the one worker in the given state. */
  predicate Quiet(s: System, worker: Worker, clock: int, law: Law.Control) {
    s.workers == [worker] && s.sh.buf == [] && !s.sh.closed && s.clock == clock && s.sh.law == law
  }

  /** A task that is submitted and taken up: what its evaluation decides. */
  lemma OneTask(acts: seq<Action>, s: System, worker: Worker, clock: int, waits: bool, enq: int, now: int)
    returns (more: seq<Action>, t: System)
    requires Execute(SMALL, acts) == Some(s) && Quiet(s, worker, clock, s.sh.law)
    requires (worker == Ready || worker == Asleep) && clock <= enq <= now
    ensures more == acts + [Arrive(waits, true), Enter(|s.calls|, enq, 0), Take(0, now)]
    ensures Execute(SMALL, more) == Some(t)
    ensures var (law, drop) := Law.Decide(Law.Params(5, 100), s.sh.law, Law.Eval(enq, now));
            && Quiet(t, Busy(|s.calls|), now, law)
            && t.calls == s.calls + [Call(waits, if drop then Dropping(0) else Running(0), [], 0, 0, false,
                                          if waits then None else Some(Nil))]
  {
    var c := |s.calls|;
    more, t := Step(acts, s, Arrive(waits, true));
    assert t.calls == s.calls + [Call(waits, Admitted, [], 0, 0, false, None)];
    assert t.workers[0] == worker;
    var u;
    more, u := Step(more, t, Enter(c, enq, 0));
    assert u.workers == [Ready] && |u.sh.buf| == 1 && u.sh.buf[0].call == c && u.sh.buf[0].enq == enq;
    assert u.calls == s.calls + [Call(waits, Queued, [], 0, 0, false, if waits then None else Some(Nil))];
    more, t := Step(more, u, Take(0, now));
  }

  /** SubmitWait has been answered with success and the gate has not been told. */
  lemma AnsweredBeforeTheGate() returns (acts: seq<Action>, s: System)
    ensures Execute(SMALL, acts) == Some(s)
    ensures |s.calls| == 1 && s.calls[0].waits && s.calls[0].reply == Some(Nil) && s.calls[0].dones == []
  {
    acts, s := OneTask([], Init(SMALL), Ready, 0, true, 0, 1);
    acts, s := Step(acts, s, EndBody(0, Returned(true)));
    assert s.calls == [Call(true, BodyDone(0, Returned(true)), [], 1, 1, false, None)];
    acts, s := Step(acts, s, Wake(0));
  }

  lemma OneServed() returns (acts: seq<Action>, s: System)
    ensures Execute(SMALL, acts) == Some(s) && Quiet(s, Ready, 10, Law.Control(false, Some(110), 0, 0))
  {
    acts, s := OneTask([], Init(SMALL), Ready, 0, false, 0, 10);
    assert s.calls == [Call(false, Running(0), [], 0, 0, false, Some(Nil))];
    acts, s := Step(acts, s, EndBody(0, Returned(true)));
    acts, s := Step(acts, s, TellGateRan(0));
  }

  lemma OneDropped() returns (acts: seq<Action>, s: System)
    ensures Execute(SMALL, acts) == Some(s) && Quiet(s, Ready, 120, Law.Control(true, Some(110), 220, 1))
  {
    acts, s := OneServed();
    var c := |s.calls|;
    acts, s := OneTask(acts, s, Ready, 10, false, 50, 120);
    assert s.calls[c].stage == Dropping(0);
    acts, s := Step(acts, s, TellGateDropped(0));
    acts, s := Step(acts, s, TellCallerDropped(0));
  }

  /** The queue has run empty and the only worker sleeps on it, yet the pool is still dropping; the
      next task, long after, waits no more than 10 and is dropped. */
  lemma IdlePoolStillDrops() returns (acts: seq<Action>, s: System, more: seq<Action>, t: System)
    ensures Execute(SMALL, acts) == Some(s) && s.sh.buf == [] && s.workers == [Asleep] && s.sh.law.dropping
    ensures more == acts + [Arrive(false, true), Enter(|s.calls|, 900, 0), Take(0, 910)]
    ensures Execute(SMALL, more) == Some(t) && |t.calls| == |s.calls| + 1 && t.calls[|s.calls|].stage == Dropping(0)
  {
    acts, s := OneDropped();
    acts, s := Step(acts, s, Take(0, 200));
    more, t := OneTask(acts, s, Asleep, 120, false, 900, 910);
  }

  /** Nothing but a worker that finds a task changes the control state, for however long the pool
      is idle. */
  lemma OnlyEvaluationsMoveTheLaw(cfg: Config, s: System, a: Action)
    requires Usable(cfg) && Enabled(cfg, s, a)
    ensures Apply(cfg, s, a).sh.law != s.sh.law ==> a.Take? && s.sh.buf != []
    ensures Apply(cfg, s, a).evals != s.evals <==> a.Take? && s.sh.buf != []
  {
  }
}
