/** The blocking limiter of concurrencylimits/lifo.go: a bounded newest-first backlog in front
    of a delegate limiter, where the hand-over of a freed permit races the waiter's timeout.

    The class holds the fields guarded by the mutex, waiters being named by the call that
    created them; its methods are the critical sections. The delegate is any limiter with a
    limit that moves below a given bound and that never has more permits out than that. */
module LifoLimiter {
  import opened Tally

  const DEFAULT_BACKLOG := 100

  function Normalized(backlogSize: int): (r: int)
    ensures r >= 1
    ensures backlogSize >= 1 ==> r == backlogSize
    ensures backlogSize <= 0 ==> r == 100
  {
    if backlogSize <= 0 then DEFAULT_BACKLOG else backlogSize
  }

  /** closes counts how often the ready channel was closed; order is the position of this
      waiter among all that ever joined the backlog. */
  datatype Waiter = Waiter(closes: nat, listener: Option<nat>, removed: bool, order: nat)

  /** backlog[0] is the newest waiter. */
  datatype Shared = Shared(backlog: seq<nat>, waiters: map<nat, Waiter>, joined: nat)

  const EMPTY := Shared([], map[], 0)

  function Join(backlogSize: int, sh: Shared, c: nat): (Shared, bool) {
    if |sh.backlog| >= backlogSize then (sh, false)
    else (Shared([c] + sh.backlog, sh.waiters[c := Waiter(0, None, false, sh.joined)], sh.joined + 1), true)
  }

  /** The locked part of a release. grant is the delegate's answer, asked only when somebody waits. */
  function HandOver(sh: Shared, grant: Option<nat>): Shared {
    if sh.backlog == [] || grant.None? then sh
    else
      var w := sh.backlog[0];
      var record := if w in sh.waiters then sh.waiters[w] else Waiter(0, None, false, 0);
      sh.(backlog := sh.backlog[1..],
          waiters := sh.waiters[w := record.(listener := grant, removed := true, closes := record.closes + 1)])
  }

  /** What a waiter gets whose timer fired: the permit handed over in the meantime, or nothing. */
  function Expire(sh: Shared, c: nat): (Shared, Option<nat>)
    requires c in sh.waiters
  {
    if sh.waiters[c].removed then (sh, sh.waiters[c].listener)
    else (sh.(backlog := Without(sh.backlog, c), waiters := sh.waiters[c := sh.waiters[c].(removed := true)]), None)
  }

  /** The sequence with the first occurrence of c taken out. */
  function Without(xs: seq<nat>, c: nat): seq<nat> {
    if xs == [] then []
    else if xs[0] == c then xs[1..]
    else [xs[0]] + Without(xs[1..], c)
  }

  lemma {:induction false} WithoutAt(xs: seq<nat>, c: nat, i: nat)
    requires i <= |xs| && c !in xs[..i]
    ensures i < |xs| && xs[i] == c ==> Without(xs, c) == xs[..i] + xs[i + 1..]
    ensures i == |xs| ==> Without(xs, c) == xs
  {
    if i == 0 {
    } else {
      assert xs[0] == xs[..i][0];
      assert xs[1..][..i - 1] == xs[..i][1..];
      WithoutAt(xs[1..], c, i - 1);
      assert xs == [xs[0]] + xs[1..];
    }
  }

  class LifoBlockingLimiter {
    const backlogSize: int
    var backlog: seq<nat>
    var waiters: map<nat, Waiter>
    var joined: nat

    ghost function View(): Shared
      reads this
    {
      Shared(backlog, waiters, joined)
    }

    constructor (size: int)
      ensures backlogSize == Normalized(size) && View() == EMPTY
    {
      backlogSize := Normalized(size);
      backlog, waiters, joined := [], map[], 0;
    }

    method Enqueue(c: nat) returns (queued: bool)
      modifies this
      ensures (View(), queued) == Join(backlogSize, old(View()), c)
    {
      if |backlog| >= backlogSize {
        return false;
      }
      waiters := waiters[c := Waiter(0, None, false, joined)];
      joined := joined + 1;
      backlog := [c] + backlog;
      return true;
    }

    method Unblock(grant: Option<nat>)
      requires forall c :: c in backlog ==> c in waiters
      modifies this
      ensures View() == HandOver(old(View()), grant)
    {
      if |backlog| == 0 {
        return;
      }
      var w := backlog[0];
      if grant.None? {
        return;
      }
      backlog := backlog[1..];
      var record := waiters[w];
      waiters := waiters[w := record.(listener := grant, removed := true, closes := record.closes + 1)];
    }

    method RemoveWaiter(c: nat)
      modifies `backlog
      ensures backlog == Without(old(backlog), c)
    {
      for i := 0 to |backlog|
        invariant backlog == old(backlog)
        invariant c !in backlog[..i]
      {
        if backlog[i] == c {
          WithoutAt(backlog, c, i);
          backlog := backlog[..i] + backlog[i + 1..];
          return;
        }
      }
      WithoutAt(backlog, c, |backlog|);
    }

    /** The timer branch of tryAcquire. */
    method TimedOut(c: nat) returns (listener: Option<nat>)
      requires c in waiters
      modifies this
      ensures (View(), listener) == Expire(old(View()), c)
    {
      if waiters[c].removed {
        return waiters[c].listener;
      }
      RemoveWaiter(c);
      waiters := waiters[c := waiters[c].(removed := true)];
      return None;
    }
  }

  // ---------------------------------------------------------------------------------
  // Goroutines

  datatype Call =
    | Arrived
    | Failed              // the fast path was refused, the mutex not yet taken
    | Rejected            // backlog full
    | Waiting
    | Expiring            // the timer branch was chosen, the mutex not yet taken
    | TimedOut
    | Holding(permit: nat)
    | Releasing           // permit given back, unblock not yet run
    | Done

  /** start is the delegate's first limit, permits the most it ever has. */
  datatype Config = Config(backlogSize: int, start: int, permits: nat)

  predicate Usable(c: Config) { c.backlogSize >= 1 && c.start <= c.permits }

  /** live are the permits the delegate has out, with the call each is meant for; limit is the
      delegate's present limit. */
  datatype System = System(sh: Shared, calls: seq<Call>, live: map<nat, nat>, nextPermit: nat, limit: int)

  /** grant says whether the delegate, if asked, has a permit to give. */
  datatype Action =
    | Arrive
    | FastPath(call: nat, grant: bool)
    | Enqueue(call: nat)
    | Collect(call: nat)
    | TimerFires(call: nat)
    | Expired(call: nat)
    | Release(call: nat)
    | Unblock(call: nat, grant: bool)
    | Resize(limit: int)

  function Init(cfg: Config): System { System(EMPTY, [], map[], 0, cfg.start) }

  predicate At(s: System, c: nat, at: Call) {
    c < |s.calls| && s.calls[c] == at
  }

  /** The delegate keeps to its bound, whatever its limit is at present; unblock may run again for
      a call that is done, because a listener may be called again. */
  predicate Enabled(cfg: Config, s: System, a: Action) {
    match a
    case Arrive => true
    case FastPath(c, grant) => At(s, c, Arrived) && (grant ==> |s.live| < cfg.permits)
    case Enqueue(c) => At(s, c, Failed)
    case Collect(c) => At(s, c, Waiting) && c in s.sh.waiters && s.sh.waiters[c].closes > 0
    case TimerFires(c) => At(s, c, Waiting)
    case Expired(c) => At(s, c, Expiring) && c in s.sh.waiters
    case Release(c) => c < |s.calls| && s.calls[c].Holding?
    case Unblock(c, grant) => (At(s, c, Releasing) || At(s, c, Done)) && (grant ==> |s.live| < cfg.permits)
    case Resize(limit) => limit <= cfg.permits
  }

  function Apply(cfg: Config, s: System, a: Action): System
    requires Enabled(cfg, s, a)
  {
    match a
    case Arrive => s.(calls := s.calls + [Arrived])
    case FastPath(c, grant) =>
      if grant then
        s.(calls := s.calls[c := Holding(s.nextPermit)], live := s.live[s.nextPermit := c],
           nextPermit := s.nextPermit + 1)
      else s.(calls := s.calls[c := Failed])
    case Enqueue(c) =>
      var (sh, queued) := Join(cfg.backlogSize, s.sh, c);
      s.(sh := sh, calls := s.calls[c := if queued then Waiting else Rejected])
    case Collect(c) => Returned(s, c, s.sh.waiters[c].listener)
    case TimerFires(c) => s.(calls := s.calls[c := Expiring])
    case Expired(c) =>
      var (sh, listener) := Expire(s.sh, c);
      Returned(s.(sh := sh), c, listener)
    case Release(c) =>
      s.(calls := s.calls[c := Releasing], live := s.live - {s.calls[c].permit})
    case Unblock(c, grant) => ApplyUnblock(s, c, grant)
    case Resize(limit) => s.(limit := limit)
  }

  /** tryAcquire returns a listener, or nil. */
  function Returned(s: System, c: nat, listener: Option<nat>): System
    requires c < |s.calls|
  {
    s.(calls := s.calls[c := match listener case Some(p) => Holding(p) case None => TimedOut])
  }

  function ApplyUnblock(s: System, c: nat, grant: bool): System
    requires c < |s.calls|
  {
    if s.sh.backlog == [] || !grant then s.(calls := s.calls[c := Done])
    else
      System(HandOver(s.sh, Some(s.nextPermit)), s.calls[c := Done],
             s.live[s.nextPermit := s.sh.backlog[0]], s.nextPermit + 1, s.limit)
  }

  ghost function Execute(cfg: Config, acts: seq<Action>): Option<System> {
    if acts == [] then Some(Init(cfg))
    else
      match Execute(cfg, acts[..|acts| - 1])
      case None => None
      case Some(s) => if Enabled(cfg, s, acts[|acts| - 1]) then Some(Apply(cfg, s, acts[|acts| - 1])) else None
  }

  // ---------------------------------------------------------------------------------
  // The invariant

  predicate InBacklog(s: System, c: nat) { c in s.sh.backlog }

  /** The permit a call is to give back: the one it holds, or the one handed to it while it
      waits. */
  function Owns(s: System, c: nat): Option<nat>
    requires c < |s.calls|
  {
    match s.calls[c]
    case Holding(p) => Some(p)
    case Waiting => if c in s.sh.waiters then s.sh.waiters[c].listener else None
    case Expiring => if c in s.sh.waiters then s.sh.waiters[c].listener else None
    case _ => None
  }

  predicate StillQueued(w: Waiter) { w.listener == None && !w.removed && w.closes == 0 }

  predicate Handed(w: Waiter) { w.listener.Some? && w.removed && w.closes == 1 }

  predicate GivenUp(w: Waiter) { w.listener == None && w.removed && w.closes == 0 }

  /** A waiter is in exactly one of the three conditions, and in the backlog in the first. */
  ghost predicate WaitersOk(s: System) {
    && (forall c :: c in s.sh.waiters ==> c < |s.calls|)
    && (forall c :: 0 <= c < |s.calls| ==>
          match s.calls[c]
          case Arrived => c !in s.sh.waiters
          case Failed => c !in s.sh.waiters
          case Waiting => c in s.sh.waiters
              && (if InBacklog(s, c) then StillQueued(s.sh.waiters[c]) else Handed(s.sh.waiters[c]))
          case Expiring => c in s.sh.waiters
              && (if InBacklog(s, c) then StillQueued(s.sh.waiters[c]) else Handed(s.sh.waiters[c]))
          case TimedOut => c in s.sh.waiters && GivenUp(s.sh.waiters[c])
          case _ => c in s.sh.waiters ==> Handed(s.sh.waiters[c]))
  }

  /** The backlog holds waiting calls only, newest first and within its bound. */
  ghost predicate BacklogOk(cfg: Config, s: System) {
    && |s.sh.backlog| <= cfg.backlogSize
    && (forall i :: 0 <= i < |s.sh.backlog| ==>
          var c := s.sh.backlog[i];
          && c < |s.calls| && (s.calls[c] == Waiting || s.calls[c] == Expiring)
          && c in s.sh.waiters && s.sh.waiters[c].order < s.sh.joined)
    && (forall i, j :: 0 <= i < j < |s.sh.backlog| ==>
          s.sh.waiters[s.sh.backlog[i]].order > s.sh.waiters[s.sh.backlog[j]].order)
  }

  /** Every permit out is owned by exactly the call it was meant for. */
  ghost predicate PermitsOk(cfg: Config, s: System) {
    && (forall c :: 0 <= c < |s.calls| && Owns(s, c).Some? ==>
          Owns(s, c).value in s.live && s.live[Owns(s, c).value] == c)
    && (forall p :: p in s.live ==> p < s.nextPermit && s.live[p] < |s.calls| && Owns(s, s.live[p]) == Some(p))
    && |s.live| <= cfg.permits
  }

  ghost predicate Inv(cfg: Config, s: System) {
    WaitersOk(s) && BacklogOk(cfg, s) && PermitsOk(cfg, s) && s.limit <= cfg.permits
  }
}
