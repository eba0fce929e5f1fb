/** The fail-fast limiter of concurrencylimits/limiter.go: an atomic counter incremented
    optimistically and undone when it turns out to exceed the limit, and a listener that gives
    its slot back once however often it is called. */
module SimpleLimiter {
  import opened Tally

  /** Without interference: one call to Acquire, one call to a listener. */
  class Limiter {
    var inflight: int

    constructor ()
      ensures inflight == 0
    {
      inflight := 0;
    }

    /** limit is what the limit algorithm answers when asked. */
    method Acquire(limit: int) returns (listener: Listener?)
      modifies this
      ensures listener != null <==> old(inflight) < limit
      ensures inflight == old(inflight) + Once(listener != null)
      ensures listener != null ==> fresh(listener) && listener.limiter == this
                                   && listener.inflight == old(inflight) + 1 && !listener.done
    {
      inflight := inflight + 1;
      var current := inflight;
      if current > limit {
        inflight := inflight - 1;
        return null;
      }
      listener := new Listener(this, current);
    }
  }

  class Listener {
    const limiter: Limiter
    const inflight: int
    var done: bool

    constructor (l: Limiter, current: int)
      ensures limiter == l && inflight == current && !done
    {
      limiter, inflight, done := l, current, false;
    }

    /** OnSuccess, OnIgnore and OnDropped. sampled says whether the limit algorithm is fed. */
    method Finish(sample: bool) returns (sampled: bool)
      modifies this`done, limiter`inflight
      ensures done
      ensures limiter.inflight == old(limiter.inflight) - Once(!old(done))
      ensures sampled == (sample && !old(done))
    {
      if done {
        return false;
      }
      done := true;
      limiter.inflight := limiter.inflight - 1;
      sampled := sample;
    }
  }

  // ---------------------------------------------------------------------------------
  // With interference: every atomic operation is one action.

  datatype Stage =
    | Deciding  // has incremented, has not read the limit
    | Undoing   // found itself over the limit, has not decremented
    | Live      // holds a listener
    | Finishing // has set done, has not decremented

  /** A caller whose increment still counts, with the value its increment returned. */
  datatype Caller = Caller(id: nat, current: int, stage: Stage)

  /** counted lists the callers in the order of their increments; finished are the listeners
      whose slot has been given back. */
  datatype System = System(inflight: int, counted: seq<Caller>, finished: set<nat>, nextId: nat)

  datatype Action =
    | Increment
    | ReadLimit(at: nat, limit: int)
    | Undo(at: nat)
    | Callback(at: nat)
    | CallbackAgain(id: nat)
    | Decrement(at: nat)

  const INITIAL := System(0, [], {}, 0)

  predicate At(s: System, at: nat, stage: Stage) {
    at < |s.counted| && s.counted[at].stage == stage
  }

  predicate Enabled(s: System, a: Action) {
    match a
    case Increment => true
    case ReadLimit(at, _) => At(s, at, Deciding)
    case Undo(at) => At(s, at, Undoing)
    case Callback(at) => At(s, at, Live)
    case CallbackAgain(id) =>
      id in s.finished
          || exists at :: 0 <= at < |s.counted| && s.counted[at] == Caller(id, s.counted[at].current, Finishing)
    case Decrement(at) => At(s, at, Finishing)
  }

  function Apply(s: System, a: Action): System
    requires Enabled(s, a)
  {
    match a
    case Increment =>
      s.(inflight := s.inflight + 1, nextId := s.nextId + 1,
         counted := s.counted + [Caller(s.nextId, s.inflight + 1, Deciding)])
    case ReadLimit(at, limit) =>
      s.(counted := s.counted[at := s.counted[at].(stage := if s.counted[at].current > limit then Undoing else Live)])
    case Undo(at) => s.(inflight := s.inflight - 1, counted := Gone(s.counted, at))
    case Callback(at) => s.(counted := s.counted[at := s.counted[at].(stage := Finishing)])
    case CallbackAgain(_) => s
    case Decrement(at) =>
      s.(inflight := s.inflight - 1, counted := Gone(s.counted, at), finished := s.finished + {s.counted[at].id})
  }

  function Gone(callers: seq<Caller>, at: nat): seq<Caller>
    requires at < |callers|
  {
    callers[..at] + callers[at + 1..]
  }

  ghost function Execute(acts: seq<Action>): Option<System> {
    if acts == [] then Some(INITIAL)
    else
      match Execute(acts[..|acts| - 1])
      case None => None
      case Some(s) => if Enabled(s, acts[|acts| - 1]) then Some(Apply(s, acts[|acts| - 1])) else None
  }

  /** Every limit read during the schedule is at most m. */
  ghost predicate LimitsBelow(acts: seq<Action>, m: int) {
    forall i :: 0 <= i < |acts| && acts[i].ReadLimit? ==> acts[i].limit <= m
  }

  /** A listener that is out, or whose slot is on its way back. */
  function Outstanding(c: Caller): nat { if c.stage.Live? || c.stage.Finishing? then 1 else 0 }

  function InDecision(c: Caller): nat { if c.stage.Deciding? || c.stage.Undoing? then 1 else 0 }

  /** The k-th caller still counted, in the order of increments, was given at least k: the
      callers before it were counted when it came. */
  ghost predicate Inv(s: System, m: int) {
    && s.inflight == |s.counted|
    && (forall k :: 0 <= k < |s.counted| ==> s.counted[k].current >= k + 1)
    && (forall k :: 0 <= k < |s.counted| && Outstanding(s.counted[k]) == 1 ==> s.counted[k].current <= m)
    && (forall k :: 0 <= k < |s.counted| ==> s.counted[k].id < s.nextId && s.counted[k].id !in s.finished)
    && (forall j, k :: 0 <= j < k < |s.counted| ==> s.counted[j].id < s.counted[k].id)
    && (forall id :: id in s.finished ==> id < s.nextId)
  }

  lemma InvKeptByRemoval(s: System, t: System, at: nat, m: int)
    requires Inv(s, m) && at < |s.counted|
    requires t.counted == Gone(s.counted, at) && t.inflight == s.inflight - 1 && t.nextId == s.nextId
    requires t.finished == s.finished || t.finished == s.finished + {s.counted[at].id}
    ensures Inv(t, m)
  {
    forall k | 0 <= k < |t.counted|
      ensures t.counted[k] == s.counted[if k < at then k else k + 1]
    {
    }
  }

  lemma InvKeptByStage(s: System, t: System, at: nat, stage: Stage, m: int)
    requires Inv(s, m) && at < |s.counted|
    requires t == s.(counted := s.counted[at := s.counted[at].(stage := stage)])
    requires stage in {Live, Finishing} ==> s.counted[at].current <= m
    ensures Inv(t, m)
  {
  }

  lemma InvKeptByIncrement(s: System, m: int)
    requires Inv(s, m)
    ensures Inv(Apply(s, Increment), m)
  {
  }

  lemma InvKept(s: System, a: Action, m: int)
    requires Inv(s, m) && Enabled(s, a) && (a.ReadLimit? ==> a.limit <= m)
    ensures Inv(Apply(s, a), m)
  {
    match a
    case Increment => InvKeptByIncrement(s, m);
    case ReadLimit(at, limit) =>
      InvKeptByStage(s, Apply(s, a), at, if s.counted[at].current > limit then Undoing else Live, m);
    case Undo(at) => InvKeptByRemoval(s, Apply(s, a), at, m);
    case Callback(at) => InvKeptByStage(s, Apply(s, a), at, Finishing, m);
    case CallbackAgain(_) =>
    case Decrement(at) => InvKeptByRemoval(s, Apply(s, a), at, m);
  }

  lemma {:induction false} EveryRunKeepsInv(acts: seq<Action>, s: System, m: int)
    requires Execute(acts) == Some(s) && LimitsBelow(acts, m)
    ensures Inv(s, m)
  {
    if acts == [] {
    } else {
      var n := |acts| - 1;
      EveryRunKeepsInv(acts[..n], Execute(acts[..n]).value, m);
      InvKept(Execute(acts[..n]).value, acts[n], m);
    }
  }

  lemma {:induction false} CountBelow(callers: seq<Caller>, m: nat)
    requires forall k :: 0 <= k < |callers| ==> callers[k].current >= k + 1
    requires forall k :: 0 <= k < |callers| && Outstanding(callers[k]) == 1 ==> callers[k].current <= m
    ensures Total(callers, Outstanding) <= m && Total(callers, Outstanding) <= |callers|
  {
    if callers == [] {
    } else {
      var n := |callers| - 1;
      assert forall k :: 0 <= k < n ==> callers[..n][k] == callers[k];
      CountBelow(callers[..n], m);
    }
  }

  /** Whatever the interleaving, and however the limit moves below m, no more than m listeners
      are out at once, and the counter is listeners out plus callers deciding. */
  lemma NeverOverTheLimit(acts: seq<Action>, s: System, m: nat)
    requires Execute(acts) == Some(s) && LimitsBelow(acts, m)
    ensures Total(s.counted, Outstanding) <= m
    ensures s.inflight == Total(s.counted, Outstanding) + Total(s.counted, InDecision)
  {
    EveryRunKeepsInv(acts, s, m);
    CountBelow(s.counted, m);
    TotalComplement(s.counted, Outstanding, InDecision);
  }

  /** A caller counts everybody who has incremented: it is refused exactly when the listeners out
      and the callers deciding when it came make up the limit it reads. So a limiter below its
      limit refuses only because of callers that are deciding. */
  lemma RefusedExactlyWhen(acts: seq<Action>, s: System, m: nat, limit: int)
    requires Execute(acts) == Some(s) && LimitsBelow(acts, m)
    ensures var t, at := Apply(s, Increment), |s.counted|;
            && Enabled(t, ReadLimit(at, limit))
            && (At(Apply(t, ReadLimit(at, limit)), at, Undoing)
                <==> Total(s.counted, Outstanding) + Total(s.counted, InDecision) >= limit)
  {
    NeverOverTheLimit(acts, s, m);
    EveryRunKeepsInv(acts, s, m);
  }

  /** Two callers at once, a limit of one, nobody holding a listener: the second is refused. */
  lemma RefusedBelowTheLimit() returns (acts: seq<Action>, s: System)
    ensures Execute(acts) == Some(s) && LimitsBelow(acts, 1)
    ensures Total(s.counted, Outstanding) == 0 && At(s, 1, Undoing)
  {
    var first := [Increment];
    var second := first + [Increment];
    acts := second + [ReadLimit(1, 1)];
    assert first[..0] == [] && second[..1] == first && acts[..2] == second;
    var one := Apply(INITIAL, Increment);
    var two := Apply(one, Increment);
    assert Execute(first) == Some(one) && Execute(second) == Some(two);
    s := Apply(two, ReadLimit(1, 1));
    TotalZero(s.counted, Outstanding);
  }

  /** A slot is given back once: a listener is finished or counted, never both, and calling it
      again changes nothing. */
  lemma GivenBackOnce(acts: seq<Action>, s: System, m: int, id: nat)
    requires Execute(acts) == Some(s) && LimitsBelow(acts, m)
    ensures id in s.finished ==> forall k :: 0 <= k < |s.counted| ==> s.counted[k].id != id
    ensures id in s.finished ==> Enabled(s, CallbackAgain(id)) && Apply(s, CallbackAgain(id)) == s
    ensures forall j, k :: 0 <= j < k < |s.counted| ==> s.counted[j].id != s.counted[k].id
  {
    EveryRunKeepsInv(acts, s, m);
  }

  /** The actions of one Acquire with nothing in between do what the method does. */
  lemma UninterruptedAcquire(s: System, limit: int)
    requires s.inflight == |s.counted|
    ensures var at, t := |s.counted|, Apply(s, Increment);
            && Enabled(t, ReadLimit(at, limit))
            && var u := Apply(t, ReadLimit(at, limit));
               if s.inflight < limit then
                 At(u, at, Live) && u.counted[at].current == s.inflight + 1 && u.inflight == s.inflight + 1
               else
                 Enabled(u, Undo(at)) && Apply(u, Undo(at)).inflight == s.inflight
                     && Apply(u, Undo(at)).counted == s.counted
  {
  }
}
