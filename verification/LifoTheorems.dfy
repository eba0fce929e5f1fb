/** What the LIFO limiter promises, for every interleaving of hand-over and timeout. */
module LifoTheorems {
  import opened Tally
  import opened LifoLimiter

  // ---------------------------------------------------------------------------------
  // The critical sections on the backlog

  lemma {:induction false} WithoutElements(xs: seq<nat>, c: nat)
    ensures |Without(xs, c)| == |xs| - Once(c in xs)
    ensures forall x :: x != c ==> (x in Without(xs, c) <==> x in xs)
  {
    if xs == [] {
    } else {
      assert xs == [xs[0]] + xs[1..];
      if xs[0] != c {
        WithoutElements(xs[1..], c);
      }
    }
  }

  predicate Decreasing(xs: seq<nat>, rank: map<nat, Waiter>) {
    && (forall i :: 0 <= i < |xs| ==> xs[i] in rank)
    && (forall i, j :: 0 <= i < j < |xs| ==> rank[xs[i]].order > rank[xs[j]].order)
  }

  lemma {:induction false} WithoutDecreasing(xs: seq<nat>, rank: map<nat, Waiter>, c: nat)
    requires Decreasing(xs, rank)
    ensures Decreasing(Without(xs, c), rank)
    ensures c !in Without(xs, c)
  {
    if xs == [] {
    } else {
      assert Decreasing(xs[1..], rank);
      if xs[0] == c {
        HeadOnlyOnce(xs, rank);
      } else {
        WithoutDecreasing(xs[1..], rank, c);
        WithoutElements(xs[1..], c);
        ConsDecreasing(xs, Without(xs[1..], c), rank);
      }
    }
  }

  lemma HeadOnlyOnce(xs: seq<nat>, rank: map<nat, Waiter>)
    requires Decreasing(xs, rank) && xs != []
    ensures xs[0] !in xs[1..]
  {
    assert forall i :: 0 <= i < |xs| - 1 ==> xs[1..][i] == xs[i + 1] && rank[xs[0]].order > rank[xs[i + 1]].order;
  }

  lemma ConsDecreasing(xs: seq<nat>, rest: seq<nat>, rank: map<nat, Waiter>)
    requires Decreasing(xs, rank) && Decreasing(rest, rank) && xs != []
    requires forall x :: x in rest ==> x in xs[1..]
    ensures Decreasing([xs[0]] + rest, rank)
  {
    forall i | 0 <= i < |rest| ensures rank[xs[0]].order > rank[rest[i]].order {
      assert rest[i] in xs[1..];
      var j :| 0 <= j < |xs[1..]| && xs[1..][j] == rest[i];
      assert xs[j + 1] == rest[i];
    }
  }

  // ---------------------------------------------------------------------------------
  // Every action keeps the invariant

  lemma KeptByArrive(cfg: Config, s: System)
    requires Inv(cfg, s)
    ensures Inv(cfg, Apply(cfg, s, Arrive))
  {
    var t := Apply(cfg, s, Arrive);
    forall c | 0 <= c < |s.calls| ensures Owns(t, c) == Owns(s, c) {
    }
  }

  /** A step of one call that leaves the shared fields and the permits alone. */
  lemma KeptByMove(cfg: Config, s: System, t: System, c: nat)
    requires Inv(cfg, s) && c < |s.calls| == |t.calls| && t == s.(calls := s.calls[c := t.calls[c]])
    requires Owns(t, c) == Owns(s, c)
    requires match t.calls[c]
             case Failed => s.calls[c] == Arrived
             case Expiring => s.calls[c] == Waiting
             case Holding(_) => s.calls[c] in {Waiting, Expiring} && c !in s.sh.backlog
             case TimedOut => false
             case Done => s.calls[c] in {Releasing, Done}
             case Rejected => s.calls[c] == Failed
             case _ => false
    ensures Inv(cfg, t)
  {
    MoveKeepsPermits(cfg, s, t, c);
  }

  lemma MoveKeepsPermits(cfg: Config, s: System, t: System, c: nat)
    requires PermitsOk(cfg, s) && c < |s.calls| == |t.calls| && t == s.(calls := s.calls[c := t.calls[c]])
    requires Owns(t, c) == Owns(s, c)
    ensures PermitsOk(cfg, t)
  {
    forall d | 0 <= d < |s.calls| ensures Owns(t, d) == Owns(s, d) {
    }
  }

  lemma KeptByGrant(cfg: Config, s: System, c: nat)
    requires Inv(cfg, s) && Enabled(cfg, s, FastPath(c, true))
    ensures Inv(cfg, Apply(cfg, s, FastPath(c, true)))
  {
    var t := Apply(cfg, s, FastPath(c, true));
    forall d | 0 <= d < |s.calls| && d != c ensures Owns(t, d) == Owns(s, d) {
    }
    assert |t.live| == |s.live| + 1;
  }

  lemma KeptByEnqueue(cfg: Config, s: System, c: nat)
    requires Inv(cfg, s) && Enabled(cfg, s, Enqueue(c)) && |s.sh.backlog| < cfg.backlogSize
    ensures Inv(cfg, Apply(cfg, s, Enqueue(c)))
  {
    var t := Apply(cfg, s, Enqueue(c));
    assert c !in s.sh.backlog;
    forall d | 0 <= d < |s.calls| ensures Owns(t, d) == Owns(s, d) {
    }
    forall d | 0 <= d < |s.calls| && d != c ensures InBacklog(t, d) == InBacklog(s, d) {
    }
  }

  lemma KeptByTimeout(cfg: Config, s: System, c: nat)
    requires Inv(cfg, s) && Enabled(cfg, s, Expired(c)) && c in s.sh.backlog
    ensures Inv(cfg, Apply(cfg, s, Expired(c)))
  {
    var t := Apply(cfg, s, Expired(c));
    assert StillQueued(s.sh.waiters[c]);
    WithoutElements(s.sh.backlog, c);
    assert Decreasing(s.sh.backlog, s.sh.waiters);
    WithoutDecreasing(s.sh.backlog, s.sh.waiters, c);
    TimeoutKeepsBacklog(cfg, s, t, c);
    forall d | 0 <= d < |s.calls| ensures Owns(t, d) == Owns(s, d) {
    }
    forall d | 0 <= d < |s.calls| && d != c ensures InBacklog(t, d) == InBacklog(s, d) {
    }
  }

  lemma TimeoutKeepsBacklog(cfg: Config, s: System, t: System, c: nat)
    requires BacklogOk(cfg, s) && c < |s.calls| == |t.calls| && c in s.sh.waiters
    requires t.sh.joined == s.sh.joined && t.sh.backlog == Without(s.sh.backlog, c)
    requires t.calls == s.calls[c := TimedOut] && t.sh.waiters == s.sh.waiters[c := s.sh.waiters[c].(removed := true)]
    ensures BacklogOk(cfg, t)
  {
    WithoutElements(s.sh.backlog, c);
    assert Decreasing(s.sh.backlog, s.sh.waiters);
    WithoutDecreasing(s.sh.backlog, s.sh.waiters, c);
    forall i | 0 <= i < |t.sh.backlog| ensures t.sh.backlog[i] in s.sh.backlog && t.sh.backlog[i] != c {
      assert t.sh.backlog[i] in t.sh.backlog;
    }
  }

  lemma KeptByRelease(cfg: Config, s: System, c: nat)
    requires Inv(cfg, s) && Enabled(cfg, s, Release(c))
    ensures Inv(cfg, Apply(cfg, s, Release(c)))
  {
    ReleaseKeepsPermits(cfg, s, Apply(cfg, s, Release(c)), c);
    ReleaseKeepsWaiters(cfg, s, Apply(cfg, s, Release(c)), c);
  }

  lemma ReleaseKeepsWaiters(cfg: Config, s: System, t: System, c: nat)
    requires WaitersOk(s) && BacklogOk(cfg, s) && c < |s.calls| && s.calls[c].Holding?
    requires t.calls == s.calls[c := Releasing] && t.sh == s.sh
    ensures WaitersOk(t) && BacklogOk(cfg, t)
  {
  }

  lemma ReleaseKeepsPermits(cfg: Config, s: System, t: System, c: nat)
    requires PermitsOk(cfg, s) && c < |s.calls| && s.calls[c].Holding?
    requires t.calls == s.calls[c := Releasing] && t.sh == s.sh && t.nextPermit == s.nextPermit
    requires t.live == s.live - {s.calls[c].permit}
    ensures PermitsOk(cfg, t)
  {
    OwnersAfterRelease(s, t, c);
    WithoutPermit(s.live, s.calls[c].permit);
    PermitGivenUp(cfg, s, t, c, s.calls[c].permit);
  }

  lemma OwnersAfterRelease(s: System, t: System, c: nat)
    requires c < |s.calls| && t.calls == s.calls[c := Releasing] && t.sh == s.sh
    ensures forall d :: 0 <= d < |s.calls| ==> Owns(t, d) == if d == c then None else Owns(s, d)
  {
  }

  lemma PermitGivenUp(cfg: Config, s: System, t: System, c: nat, p: nat)
    requires PermitsOk(cfg, s) && c < |s.calls| == |t.calls| && Owns(s, c) == Some(p)
    requires t.nextPermit == s.nextPermit && |t.live| <= |s.live|
    requires forall d :: 0 <= d < |s.calls| ==> Owns(t, d) == if d == c then None else Owns(s, d)
    requires forall q :: q in t.live <==> q in s.live && q != p
    requires forall q :: q in t.live ==> t.live[q] == s.live[q]
    ensures PermitsOk(cfg, t)
  {
  }

  lemma WithoutPermit(live: map<nat, nat>, p: nat)
    ensures |live - {p}| <= |live|
    ensures forall q :: q in live - {p} <==> q in live && q != p
    ensures forall q :: q in live - {p} ==> (live - {p})[q] == live[q]
  {
    assert (live - {p}).Keys == live.Keys - {p};
    SubsetNoLarger((live - {p}).Keys, live.Keys);
  }

  lemma {:induction false} SubsetNoLarger(a: set<nat>, b: set<nat>)
    requires a <= b
    ensures |a| <= |b|
  {
    if a == {} {
    } else {
      var x :| x in a;
      SubsetNoLarger(a - {x}, b - {x});
    }
  }

  lemma KeptByHandOver(cfg: Config, s: System, c: nat)
    requires Inv(cfg, s) && Enabled(cfg, s, Unblock(c, true)) && s.sh.backlog != []
    ensures Inv(cfg, ApplyUnblock(s, c, true))
  {
    var w := s.sh.backlog[0];
    assert InBacklog(s, w) && StillQueued(s.sh.waiters[w]);
    HandOverParts(s, c);
    HandOverKeepsBacklog(cfg, s, ApplyUnblock(s, c, true), c);
    HandOverKeepsWaiters(s, ApplyUnblock(s, c, true), c, w, s.nextPermit);
    HandOverKeepsPermits(cfg, s, ApplyUnblock(s, c, true), c, w);
  }

  lemma HandOverParts(s: System, c: nat)
    requires c < |s.calls| && s.sh.backlog != [] && s.sh.backlog[0] in s.sh.waiters
        && s.sh.waiters[s.sh.backlog[0]].closes == 0
    ensures var t, w := ApplyUnblock(s, c, true), s.sh.backlog[0];
            && t.calls == s.calls[c := Done] && t.sh.backlog == s.sh.backlog[1..] && t.sh.joined == s.sh.joined
            && t.sh.waiters
                == s.sh.waiters[w := s.sh.waiters[w].(listener := Some(s.nextPermit), removed := true, closes := 1)]
            && t.live == s.live[s.nextPermit := w] && t.nextPermit == s.nextPermit + 1 && t.limit == s.limit
  {
  }

  lemma HandOverKeepsBacklog(cfg: Config, s: System, t: System, c: nat)
    requires BacklogOk(cfg, s) && c < |s.calls| && (s.calls[c] == Releasing || s.calls[c] == Done) && s.sh.backlog != []
    requires t.calls == s.calls[c := Done] && t.sh.backlog == s.sh.backlog[1..] && t.sh.joined == s.sh.joined
    requires t.sh.waiters.Keys == s.sh.waiters.Keys
    requires forall d :: d in s.sh.waiters && d != s.sh.backlog[0] ==> t.sh.waiters[d] == s.sh.waiters[d]
    ensures BacklogOk(cfg, t) && s.sh.backlog[0] !in t.sh.backlog
  {
    var w := s.sh.backlog[0];
    forall i | 0 <= i < |t.sh.backlog| ensures t.sh.backlog[i] == s.sh.backlog[i + 1] != w {
    }
  }

  lemma HandOverKeepsWaiters(s: System, t: System, c: nat, w: nat, p: nat)
    requires WaitersOk(s) && c < |s.calls| && (s.calls[c] == Releasing || s.calls[c] == Done)
    requires s.sh.backlog != [] && w == s.sh.backlog[0] && w !in s.sh.backlog[1..]
    requires w < |s.calls| && (s.calls[w] == Waiting || s.calls[w] == Expiring) && w in s.sh.waiters
    requires t.calls == s.calls[c := Done] && t.sh.backlog == s.sh.backlog[1..]
    requires t.sh.waiters == s.sh.waiters[w := s.sh.waiters[w].(listener := Some(p), removed := true, closes := 1)]
    ensures WaitersOk(t)
  {
    forall d | 0 <= d < |s.calls| && d != w ensures InBacklog(t, d) == InBacklog(s, d) {
      assert s.sh.backlog == [w] + s.sh.backlog[1..];
    }
  }

  lemma HandOverKeepsPermits(cfg: Config, s: System, t: System, c: nat, w: nat)
    requires PermitsOk(cfg, s) && c < |s.calls| && (s.calls[c] == Releasing || s.calls[c] == Done)
    requires w < |s.calls| && w != c && (s.calls[w] == Waiting || s.calls[w] == Expiring)
    requires w in s.sh.waiters && s.sh.waiters[w].listener == None && |s.live| < cfg.permits
    requires t.calls == s.calls[c := Done] && t.nextPermit == s.nextPermit + 1
    requires t.live == s.live[s.nextPermit := w]
    requires t.sh.waiters.Keys == s.sh.waiters.Keys && t.sh.waiters[w].listener == Some(s.nextPermit)
    requires forall d :: d in s.sh.waiters && d != w ==> t.sh.waiters[d] == s.sh.waiters[d]
    ensures PermitsOk(cfg, t)
  {
    forall d | 0 <= d < |s.calls| && d != w ensures Owns(t, d) == Owns(s, d) {
    }
    assert Owns(t, w) == Some(s.nextPermit) && Owns(s, w) == None;
    assert |t.live| == |s.live| + 1;
  }

  lemma KeptByReturn(cfg: Config, s: System, a: Action, c: nat)
    requires a == Collect(c) || (a == Expired(c) && c !in s.sh.backlog)
    requires Enabled(cfg, s, a) && Inv(cfg, s)
    ensures Inv(cfg, Apply(cfg, s, a))
  {
    var t := Apply(cfg, s, a);
    assert InBacklog(s, c) == (c in s.sh.backlog);
    assert Handed(s.sh.waiters[c]);
    KeptByMove(cfg, s, t, c);
  }

  lemma KeptByQuietStep(cfg: Config, s: System, a: Action, c: nat)
    requires || a == FastPath(c, false) || a == TimerFires(c)
             || (a == Enqueue(c) && |s.sh.backlog| >= cfg.backlogSize)
             || (a in {Unblock(c, false), Unblock(c, true)} && (s.sh.backlog == [] || !a.grant))
    requires Enabled(cfg, s, a) && Inv(cfg, s)
    ensures Inv(cfg, Apply(cfg, s, a))
  {
    KeptByMove(cfg, s, Apply(cfg, s, a), c);
  }

  lemma InvKept(cfg: Config, s: System, a: Action)
    requires Enabled(cfg, s, a) && Inv(cfg, s)
    ensures Inv(cfg, Apply(cfg, s, a))
  {
    match a
    case Arrive => KeptByArrive(cfg, s);
    case FastPath(c, grant) => if grant { KeptByGrant(cfg, s, c); } else { KeptByQuietStep(cfg, s, a, c); }
    case Enqueue(c) => if |s.sh.backlog| < cfg.backlogSize { KeptByEnqueue(cfg, s, c); }
        else { KeptByQuietStep(cfg, s, a, c); }
    case Collect(c) => KeptByReturn(cfg, s, a, c);
    case TimerFires(c) => KeptByQuietStep(cfg, s, a, c);
    case Expired(c) => if c in s.sh.backlog { KeptByTimeout(cfg, s, c); } else { KeptByReturn(cfg, s, a, c); }
    case Release(c) => KeptByRelease(cfg, s, c);
    case Unblock(c, grant) =>
      if s.sh.backlog != [] && grant { KeptByHandOver(cfg, s, c); } else { KeptByQuietStep(cfg, s, a, c); }
    case Resize(limit) => KeptByResize(cfg, s, limit);
  }

  lemma KeptByResize(cfg: Config, s: System, limit: int)
    requires Inv(cfg, s) && limit <= cfg.permits
    ensures Inv(cfg, s.(limit := limit))
  {
    forall c | 0 <= c < |s.calls| ensures Owns(s.(limit := limit), c) == Owns(s, c) {
    }
  }

  lemma {:induction false} EveryRunKeepsInv(cfg: Config, acts: seq<Action>, s: System)
    requires Usable(cfg) && Execute(cfg, acts) == Some(s)
    ensures Inv(cfg, s)
  {
    if acts == [] {
    } else {
      var n := |acts| - 1;
      EveryRunKeepsInv(cfg, acts[..n], Execute(cfg, acts[..n]).value);
      InvKept(cfg, Execute(cfg, acts[..n]).value, acts[n]);
    }
  }

  // ---------------------------------------------------------------------------------
  // Results

  /** The permits callers hold. */
  ghost function HeldPermits(s: System): set<nat> {
    set c | 0 <= c < |s.calls| && s.calls[c].Holding? :: s.calls[c].permit
  }

  /** The permits handed to waiters that have not returned to their caller yet. */
  ghost function HandedPermits(s: System): set<nat> {
    set c | 0 <= c < |s.calls| && !s.calls[c].Holding? && Owns(s, c).Some? :: Owns(s, c).value
  }

  lemma LivePermitsInHand(cfg: Config, s: System)
    requires PermitsOk(cfg, s)
    ensures s.live.Keys <= HeldPermits(s) + HandedPermits(s)
  {
    forall p | p in s.live ensures p in HeldPermits(s) + HandedPermits(s) {
      var c := s.live[p];
      assert Owns(s, c) == Some(p);
    }
  }

  lemma HeldPermitsLive(cfg: Config, s: System)
    requires PermitsOk(cfg, s)
    ensures forall p :: p in HeldPermits(s) ==> p in s.live && s.calls[s.live[p]].Holding?
  {
    forall p | p in HeldPermits(s) ensures p in s.live && s.calls[s.live[p]].Holding? {
      var c :| 0 <= c < |s.calls| && s.calls[c].Holding? && s.calls[c].permit == p;
      assert Owns(s, c) == Some(p);
    }
  }

  lemma HandedPermitsLive(cfg: Config, s: System)
    requires PermitsOk(cfg, s)
    ensures forall p :: p in HandedPermits(s) ==> p in s.live && !s.calls[s.live[p]].Holding?
  {
    forall p | p in HandedPermits(s) ensures p in s.live && !s.calls[s.live[p]].Holding? {
      var c :| 0 <= c < |s.calls| && !s.calls[c].Holding? && Owns(s, c) == Some(p);
    }
  }

  /** Live permits are those held and those handed over; none is in two hands, none is lost,
      and there are never more than the delegate grants. */
  lemma PermitsConserved(cfg: Config, acts: seq<Action>, s: System)
    requires Usable(cfg) && Execute(cfg, acts) == Some(s)
    ensures s.live.Keys == HeldPermits(s) + HandedPermits(s) && HeldPermits(s) !! HandedPermits(s)
    ensures forall c, d :: 0 <= c < |s.calls| && 0 <= d < |s.calls| && Owns(s, c).Some? && Owns(s, c) == Owns(s, d) ==>
        c == d
    ensures |s.live| <= cfg.permits
  {
    EveryRunKeepsInv(cfg, acts, s);
    LivePermitsInHand(cfg, s);
    HeldPermitsLive(cfg, s);
    HandedPermitsLive(cfg, s);
  }

  /** Each waiter is queued, handed a permit or given up, and never two of these; its ready
      channel is closed at most once; one that gave up has no permit. */
  lemma WaiterInOneCondition(cfg: Config, acts: seq<Action>, s: System, c: nat)
    requires Usable(cfg) && Execute(cfg, acts) == Some(s) && c in s.sh.waiters
    ensures var w := s.sh.waiters[c];
            && (StillQueued(w) || Handed(w) || GivenUp(w))
            && (c in s.sh.backlog <==> StillQueued(w))
            && (c < |s.calls| && s.calls[c] == TimedOut <==> GivenUp(w))
            && w.closes <= 1
  {
    EveryRunKeepsInv(cfg, acts, s);
    if c in s.sh.backlog {
      assert InBacklog(s, c);
    }
  }

  /** Whichever branch of the select a waiter takes, it comes back with the permit it was
      handed; it comes back empty-handed only from the timer branch and only if it was not. */
  lemma RaceKeepsThePermit(cfg: Config, acts: seq<Action>, s: System, c: nat)
    requires Usable(cfg) && Execute(cfg, acts) == Some(s) && c < |s.calls|
    ensures Enabled(cfg, s, Collect(c)) ==>
              Owns(s, c).Some? && Apply(cfg, s, Collect(c)).calls[c] == Holding(Owns(s, c).value)
    ensures s.calls[c] == Waiting && Owns(s, c).Some? ==> Enabled(cfg, s, Collect(c))
    ensures s.calls[c] == Expiring ==>
              && Enabled(cfg, s, Expired(c))
              && Apply(cfg, s, Expired(c)).calls[c]
                 == (match Owns(s, c) case Some(p) => Holding(p) case None => TimedOut)
              && c !in Apply(cfg, s, Expired(c)).sh.backlog
  {
    EveryRunKeepsInv(cfg, acts, s);
    if s.calls[c] == Expiring && c in s.sh.backlog {
      assert InBacklog(s, c) && Decreasing(s.sh.backlog, s.sh.waiters);
      WithoutDecreasing(s.sh.backlog, s.sh.waiters, c);
    }
  }

  /** A freed permit goes to the waiter that joined last, and to nobody else. */
  lemma NewestIsServed(cfg: Config, acts: seq<Action>, s: System, c: nat)
    requires Usable(cfg) && Execute(cfg, acts) == Some(s)
    requires Enabled(cfg, s, Unblock(c, true)) && s.sh.backlog != []
    ensures |s.sh.backlog| <= cfg.backlogSize
    ensures var t, w := Apply(cfg, s, Unblock(c, true)), s.sh.backlog[0];
            && w < |t.calls| && Owns(t, w) == Some(s.nextPermit) && s.nextPermit !in s.live
            && forall d :: d in s.sh.backlog && d != w ==>
                 d in s.sh.waiters && w in s.sh.waiters && s.sh.waiters[d].order < s.sh.waiters[w].order
                 && d in t.sh.backlog && d < |t.calls| && Owns(t, d) == None
  {
    EveryRunKeepsInv(cfg, acts, s);
    HeadIsNewest(cfg, s);
  }

  lemma HeadIsNewest(cfg: Config, s: System)
    requires BacklogOk(cfg, s) && s.sh.backlog != []
    ensures forall d :: d in s.sh.backlog && d != s.sh.backlog[0] ==>
              && s.sh.waiters[d].order < s.sh.waiters[s.sh.backlog[0]].order
              && d in s.sh.backlog[1..] && InBacklog(s, d)
  {
    forall d | d in s.sh.backlog && d != s.sh.backlog[0]
      ensures s.sh.waiters[d].order < s.sh.waiters[s.sh.backlog[0]].order && d in s.sh.backlog[1..]
    {
      var i :| 0 <= i < |s.sh.backlog| && s.sh.backlog[i] == d;
      assert s.sh.backlog[1..][i - 1] == d;
    }
  }

  /** A caller refused by the delegate is rejected exactly when the backlog is full; otherwise it
      waits in front of all others, with nothing handed to it yet. */
  lemma RejectedExactlyWhenFull(cfg: Config, s: System, c: nat)
    requires Enabled(cfg, s, Enqueue(c))
    ensures var t := Apply(cfg, s, Enqueue(c));
            && (t.calls[c] == Rejected <==> |s.sh.backlog| >= cfg.backlogSize)
            && (t.calls[c] == Rejected ==> t.sh == s.sh)
            && (t.calls[c] != Rejected ==>
                  && t.calls[c] == Waiting && t.sh.backlog == [c] + s.sh.backlog
                  && c in t.sh.waiters && StillQueued(t.sh.waiters[c]))
            && t.live == s.live
  {
  }

  /** A permit the delegate grants is held by whoever asked for it. */
  lemma GrantsGoToTheAsker(cfg: Config, s: System, c: nat, grant: bool)
    requires Enabled(cfg, s, FastPath(c, grant))
    ensures var t := Apply(cfg, s, FastPath(c, grant));
            && t.sh == s.sh
            && (grant ==> t.calls[c] == Holding(s.nextPermit) && t.live == s.live[s.nextPermit := c])
            && (!grant ==> t.calls[c] == Failed && t.live == s.live)
  {
  }

  /** An unblock that finds nobody, or is refused, changes nothing but the call's own progress. */
  lemma UnblockMayDoNothing(cfg: Config, s: System, c: nat, grant: bool)
    requires Enabled(cfg, s, Unblock(c, grant)) && (s.sh.backlog == [] || !grant)
    ensures Apply(cfg, s, Unblock(c, grant)) == s.(calls := s.calls[c := Done])
  {
  }

  /** Every call can take its next step at once, whatever the others do: nobody waits for anything
      but the delegate's answer, its own timer or its ready channel. */
  lemma CallsMoveOn(cfg: Config, acts: seq<Action>, s: System, c: nat) returns (a: Action)
    requires Usable(cfg) && Execute(cfg, acts) == Some(s) && c < |s.calls|
    ensures s.calls[c] !in {Rejected, TimedOut, Done} ==> Enabled(cfg, s, a) && Apply(cfg, s, a).calls[c] != s.calls[c]
    ensures s.calls[c] == Waiting ==> Enabled(cfg, s, TimerFires(c))
    ensures forall d: nat :: |s.live| < cfg.permits && At(s, d, Arrived) ==> Enabled(cfg, s, FastPath(d, true))
    ensures forall d: nat :: |s.live| < cfg.permits && At(s, d, Releasing) ==> Enabled(cfg, s, Unblock(d, true))
  {
    EveryRunKeepsInv(cfg, acts, s);
    a := match s.calls[c]
      case Arrived => FastPath(c, false)
      case Failed => Enqueue(c)
      case Waiting => TimerFires(c)
      case Expiring => Expired(c)
      case Holding(_) => Release(c)
      case _ => Unblock(c, false);
  }

  // ---------------------------------------------------------------------------------
  // What is not promised

  lemma Step(cfg: Config, acts: seq<Action>, s: System, a: Action) returns (more: seq<Action>, t: System)
    requires Execute(cfg, acts) == Some(s) && Enabled(cfg, s, a)
    ensures more == acts + [a] && t == Apply(cfg, s, a) && Execute(cfg, more) == Some(t)
  {
    more, t := acts + [a], Apply(cfg, s, a);
    assert more[..|acts|] == acts;
  }

  /** One caller admitted at a limit of one, a second refused, nobody waiting yet. */
  lemma OneHoldsOneRefused(cfg: Config) returns (acts: seq<Action>, s: System)
    requires cfg.start == 1 <= cfg.permits
    ensures Execute(cfg, acts) == Some(s)
    ensures s == System(EMPTY, [Holding(0), Failed], map[0 := 0], 1, 1)
  {
    acts, s := [], Init(cfg);
    acts, s := Step(cfg, acts, s, Arrive);
    acts, s := Step(cfg, acts, s, Arrive);
    assert s.calls == [Arrived, Arrived];
    acts, s := Step(cfg, acts, s, FastPath(0, true));
    acts, s := Step(cfg, acts, s, FastPath(1, false));
  }

  const ONE_PERMIT := Config(100, 1, 1)

  /** The permit was released and nobody was there to take it. */
  lemma ReleasedInTheGap() returns (acts: seq<Action>, s: System)
    ensures Execute(ONE_PERMIT, acts) == Some(s) && s == System(EMPTY, [Done, Failed], map[], 1, 1)
  {
    acts, s := OneHoldsOneRefused(ONE_PERMIT);
    acts, s := Step(ONE_PERMIT, acts, s, Release(0));
    assert s == System(EMPTY, [Releasing, Failed], map[], 1, 1);
    acts, s := Step(ONE_PERMIT, acts, s, Unblock(0, true));
  }

  /** A caller can end up waiting although the delegate has a permit free and nobody is left to
      hand it over: the release falls between its failed fast path and its joining. */
  lemma WaitingWithAFreePermit() returns (acts: seq<Action>, s: System)
    ensures Execute(ONE_PERMIT, acts) == Some(s)
    ensures s.live == map[] && s.limit == 1 && s.sh.backlog == [1] && s.calls == [Done, Waiting]
  {
    acts, s := ReleasedInTheGap();
    acts, s := Step(ONE_PERMIT, acts, s, Enqueue(1));
  }
}
