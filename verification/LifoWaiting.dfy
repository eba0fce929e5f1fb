/** When a caller waits at the LIFO limiter although its delegate has a permit free, and when it
    does not. */
module LifoWaiting {
  import opened Tally
  import opened LifoLimiter
  import opened LifoTheorems

  function DueWeight(c: Call): nat { if c == Releasing then 1 else 0 }

  /** The releases whose unblock is still to come. */
  function Due(s: System): nat { Total(s.calls, DueWeight) }

  /** While anybody waits, each permit of the present limit is out or about to be offered to the
      backlog. */
  predicate Covered(s: System) {
    s.sh.backlog != [] ==> s.limit <= |s.live| + Due(s)
  }

  /** A caller joins the backlog past a free permit that no unblock is going to offer. */
  predicate JoinsTooLate(cfg: Config, s: System, a: Action) {
    a.Enqueue? && |s.sh.backlog| < cfg.backlogSize && |s.live| + Due(s) < s.limit
  }

  /** An unblock is refused with a waiter in the backlog, and no other is left for its permit. */
  predicate HandOverLost(s: System, a: Action) {
    && a.Unblock? && !a.grant && s.sh.backlog != [] && At(s, a.call, Releasing)
    && |s.live| + Due(s) <= s.limit
  }

  /** The limit rises while somebody waits, past the permits out and about to be offered: nobody
      offers the new ones. */
  predicate Outgrown(s: System, a: Action) {
    a.Resize? && s.sh.backlog != [] && |s.live| + Due(s) < a.limit
  }

  /** The three ways in which a waiter comes to wait past a free permit that nobody will offer. */
  predicate LeavesUncovered(cfg: Config, s: System, a: Action) {
    JoinsTooLate(cfg, s, a) || HandOverLost(s, a) || Outgrown(s, a)
  }

  // ---------------------------------------------------------------------------------
  // One action

  lemma DueAfter(s: System, c: nat, call: Call)
    requires c < |s.calls|
    ensures Total(s.calls[c := call], DueWeight) + DueWeight(s.calls[c]) == Due(s) + DueWeight(call)
  {
    TotalUpdate(s.calls, c, call, DueWeight);
  }

  lemma CoverAfterRelease(cfg: Config, s: System, c: nat)
    requires Inv(cfg, s) && Enabled(cfg, s, Release(c))
    ensures var t := Apply(cfg, s, Release(c));
            |t.live| + Due(t) == |s.live| + Due(s) && t.sh == s.sh && t.limit == s.limit
  {
    DueAfter(s, c, Releasing);
    assert Owns(s, c) == Some(s.calls[c].permit);
    assert Apply(cfg, s, Release(c)).live.Keys == s.live.Keys - {s.calls[c].permit};
  }

  lemma CoverAfterUnblock(cfg: Config, s: System, c: nat, grant: bool)
    requires Inv(cfg, s) && Enabled(cfg, s, Unblock(c, grant)) && s.sh.backlog != []
    ensures var t := Apply(cfg, s, Unblock(c, grant));
            && |t.live| + Due(t) == |s.live| + Due(s) + Once(grant) - Once(At(s, c, Releasing))
            && t.limit == s.limit && (!grant ==> t.sh == s.sh)
  {
    DueAfter(s, c, Done);
    assert grant ==> s.nextPermit !in s.live;
  }

  lemma CoverAfterGrant(cfg: Config, s: System, c: nat)
    requires Inv(cfg, s) && Enabled(cfg, s, FastPath(c, true))
    ensures var t := Apply(cfg, s, FastPath(c, true));
            |t.live| + Due(t) == |s.live| + Due(s) + 1 && t.sh == s.sh && t.limit == s.limit
  {
    DueAfter(s, c, Holding(s.nextPermit));
  }

  /** The other actions leave permits and pending unblocks alone, and only a caller that joins
      adds to the backlog. */
  lemma CoverAfterOther(cfg: Config, s: System, a: Action)
    requires Enabled(cfg, s, a) && !a.Release? && !a.Unblock? && !a.Resize? && !(a.FastPath? && a.grant)
    ensures var t := Apply(cfg, s, a);
            && t.live == s.live && Due(t) == Due(s) && t.limit == s.limit
            && (a.Enqueue? && |s.sh.backlog| < cfg.backlogSize ==> t.sh.backlog != [])
            && (!a.Enqueue? && s.sh.backlog == [] ==> t.sh.backlog == [])
            && (!a.Enqueue? && !a.Expired? ==> t.sh.backlog == s.sh.backlog)
            && (a.Enqueue? && |s.sh.backlog| >= cfg.backlogSize ==> t.sh.backlog == s.sh.backlog)
  {
    match a
    case Arrive => TotalAppend(s.calls, Arrived, DueWeight);
    case FastPath(c, _) => DueAfter(s, c, Failed);
    case Enqueue(c) => DueAfter(s, c, Apply(cfg, s, a).calls[c]);
    case Collect(c) => DueAfter(s, c, Apply(cfg, s, a).calls[c]);
    case TimerFires(c) => DueAfter(s, c, Expiring);
    case Expired(c) => DueAfter(s, c, Apply(cfg, s, a).calls[c]);
  }

  lemma CoverKeptExactlyWhen(cfg: Config, s: System, a: Action)
    requires Inv(cfg, s) && Enabled(cfg, s, a) && Covered(s)
    ensures Covered(Apply(cfg, s, a)) <==> !LeavesUncovered(cfg, s, a)
  {
    match a
    case Release(c) => CoverAfterRelease(cfg, s, c);
    case Unblock(c, grant) => if s.sh.backlog != [] { CoverAfterUnblock(cfg, s, c, grant); }
    case FastPath(c, grant) => if grant { CoverAfterGrant(cfg, s, c); } else { CoverAfterOther(cfg, s, a); }
    case Resize(_) =>
    case _ => CoverAfterOther(cfg, s, a);
  }

  // ---------------------------------------------------------------------------------
  // Whole runs

  lemma {:induction false} PrefixRuns(cfg: Config, acts: seq<Action>, k: nat)
    requires Execute(cfg, acts).Some? && k <= |acts|
    ensures Execute(cfg, acts[..k]).Some?
    decreases |acts|
  {
    if k == |acts| {
      assert acts[..k] == acts;
    } else {
      var n := |acts| - 1;
      PrefixRuns(cfg, acts[..n], k);
      assert acts[..n][..k] == acts[..k];
    }
  }

  /** The state after the first k actions. */
  ghost function StateAfter(cfg: Config, acts: seq<Action>, k: nat): (s: System)
    requires Execute(cfg, acts).Some? && k <= |acts|
    ensures Execute(cfg, acts[..k]) == Some(s)
  {
    PrefixRuns(cfg, acts, k);
    Execute(cfg, acts[..k]).value
  }

  lemma StateAfterNext(cfg: Config, acts: seq<Action>, k: nat)
    requires Execute(cfg, acts).Some? && k < |acts|
    ensures Enabled(cfg, StateAfter(cfg, acts, k), acts[k])
    ensures StateAfter(cfg, acts, k + 1) == Apply(cfg, StateAfter(cfg, acts, k), acts[k])
  {
    PrefixRuns(cfg, acts, k + 1);
    assert acts[..k + 1][..k] == acts[..k];
  }

  ghost predicate CoveredAt(cfg: Config, acts: seq<Action>, k: nat)
    requires Execute(cfg, acts).Some? && k <= |acts|
  {
    Covered(StateAfter(cfg, acts, k))
  }

  /** Action k neither joins too late, nor loses a hand-over, nor lets the limit outgrow the waiters. */
  ghost predicate Timely(cfg: Config, acts: seq<Action>, k: nat)
    requires Execute(cfg, acts).Some? && k < |acts|
  {
    !LeavesUncovered(cfg, StateAfter(cfg, acts, k), acts[k])
  }

  lemma CoveredOneMore(cfg: Config, acts: seq<Action>, k: nat)
    requires Usable(cfg) && Execute(cfg, acts).Some? && k < |acts| && CoveredAt(cfg, acts, k)
    ensures CoveredAt(cfg, acts, k + 1) <==> Timely(cfg, acts, k)
  {
    var s := StateAfter(cfg, acts, k);
    StateAfterNext(cfg, acts, k);
    EveryRunKeepsInv(cfg, acts[..k], s);
    CoverKeptExactlyWhen(cfg, s, acts[k]);
  }

  lemma CoveredAtFirst(cfg: Config, acts: seq<Action>)
    requires Usable(cfg) && Execute(cfg, acts).Some?
    ensures CoveredAt(cfg, acts, 0)
  {
    assert StateAfter(cfg, acts, 0) == Init(cfg);
  }

  lemma {:induction false} HoldsUpTo(holds: seq<bool>, kept: seq<bool>, n: nat)
    requires |holds| == |kept| + 1 && n <= |kept| && holds[0]
    requires forall k :: 0 <= k < |kept| && holds[k] ==> holds[k + 1] == kept[k]
    requires forall k :: 0 <= k < |kept| ==> kept[k]
    ensures holds[n]
  {
    if n == 0 {
    } else {
      HoldsUpTo(holds, kept, n - 1);
      assert holds[n - 1 + 1] == kept[n - 1];
    }
  }

  /** What holds at first and is kept exactly by the steps of one kind holds throughout exactly
      when every step is of that kind. */
  lemma KeptThroughout(holds: seq<bool>, kept: seq<bool>)
    requires |holds| == |kept| + 1 && holds[0]
    requires forall k :: 0 <= k < |kept| && holds[k] ==> holds[k + 1] == kept[k]
    ensures (forall k :: 0 <= k < |holds| ==> holds[k]) <==> (forall k :: 0 <= k < |kept| ==> kept[k])
  {
    if forall k :: 0 <= k < |kept| ==> kept[k] {
      forall k | 0 <= k < |holds| ensures holds[k] {
        HoldsUpTo(holds, kept, k);
      }
    }
    if forall k :: 0 <= k < |holds| ==> holds[k] {
      forall k | 0 <= k < |kept| ensures kept[k] {
        assert holds[k] && holds[k + 1];
      }
    }
  }

  /** Throughout a run callers wait only while each permit of the present limit is out or about to
      be offered to them, exactly when nobody joins past a permit that is not, no unblock is
      refused that was the last to offer one, and the limit never outgrows what is offered. */
  lemma WaitersCoveredExactlyWhen(cfg: Config, acts: seq<Action>)
    requires Usable(cfg) && Execute(cfg, acts).Some?
    ensures (forall k :: 0 <= k <= |acts| ==> CoveredAt(cfg, acts, k))
       <==> (forall k :: 0 <= k < |acts| ==> Timely(cfg, acts, k))
  {
    var holds := seq(|acts| + 1, k requires 0 <= k <= |acts| => CoveredAt(cfg, acts, k));
    var kept := seq(|acts|, k requires 0 <= k < |acts| => Timely(cfg, acts, k));
    CoveredAtFirst(cfg, acts);
    forall k | 0 <= k < |acts| && holds[k] ensures holds[k + 1] == kept[k] {
      CoveredOneMore(cfg, acts, k);
    }
    KeptThroughout(holds, kept);
    assert forall k :: 0 <= k <= |acts| ==> holds[k] == CoveredAt(cfg, acts, k);
    assert forall k :: 0 <= k < |acts| ==> kept[k] == Timely(cfg, acts, k);
  }

  /** In such a run, whoever waits with no unblock to come waits at the limit. */
  lemma TimelyWaitersWaitAtLimit(cfg: Config, acts: seq<Action>, s: System)
    requires Usable(cfg) && Execute(cfg, acts) == Some(s)
    requires forall k :: 0 <= k < |acts| ==> Timely(cfg, acts, k)
    ensures s.sh.backlog != [] && Due(s) == 0 ==> s.limit <= |s.live|
  {
    WaitersCoveredExactlyWhen(cfg, acts);
    assert CoveredAt(cfg, acts, |acts|);
    assert acts[..|acts|] == acts;
    EveryRunKeepsInv(cfg, acts, s);
  }

  /** A delegate that refuses only at its limit loses no hand-over: the released permit is still
      free when its unblock asks, unless another caller got it. */
  lemma HonestRefusalsLoseNothing(cfg: Config, s: System, a: Action)
    requires Inv(cfg, s) && Enabled(cfg, s, a)
    requires a.Unblock? && !a.grant ==> s.limit <= |s.live|
    ensures !HandOverLost(s, a)
  {
    if a.Unblock? && At(s, a.call, Releasing) {
      TotalZero(s.calls, DueWeight);
    }
  }

  // ---------------------------------------------------------------------------------
  // Waiting below the limit

  predicate WaitsOnlyAtLimit(s: System) {
    s.sh.backlog != [] ==> s.limit <= |s.live|
  }

  /** A release at the limit or a rise of the limit with a waiter in the backlog, or a caller that
      joins below the limit. */
  predicate LeavesAtLimit(cfg: Config, s: System, a: Action) {
    || (a.Release? && s.sh.backlog != [] && |s.live| <= s.limit)
    || (a.Enqueue? && |s.sh.backlog| < cfg.backlogSize && |s.live| < s.limit)
    || (a.Resize? && s.sh.backlog != [] && |s.live| < a.limit)
  }

  lemma AtLimitKeptExactlyWhen(cfg: Config, s: System, a: Action)
    requires Inv(cfg, s) && Enabled(cfg, s, a) && WaitsOnlyAtLimit(s)
    ensures WaitsOnlyAtLimit(Apply(cfg, s, a)) <==> !LeavesAtLimit(cfg, s, a)
  {
    match a
    case Release(c) => ReleaseFreesOne(cfg, s, c);
    case Unblock(c, grant) => if s.sh.backlog != [] { UnblockTakesAtMostOne(cfg, s, c, grant); }
    case FastPath(c, grant) => if grant { CoverAfterGrant(cfg, s, c); } else { CoverAfterOther(cfg, s, a); }
    case Resize(_) =>
    case _ => CoverAfterOther(cfg, s, a);
  }

  lemma UnblockTakesAtMostOne(cfg: Config, s: System, c: nat, grant: bool)
    requires Inv(cfg, s) && Enabled(cfg, s, Unblock(c, grant)) && s.sh.backlog != []
    ensures var t := Apply(cfg, s, Unblock(c, grant));
            |t.live| == |s.live| + Once(grant) && t.limit == s.limit && (!grant ==> t.sh == s.sh)
  {
    assert grant ==> s.nextPermit !in s.live;
  }

  lemma ReleaseFreesOne(cfg: Config, s: System, c: nat)
    requires Inv(cfg, s) && Enabled(cfg, s, Release(c))
    ensures var t := Apply(cfg, s, Release(c)); |t.live| == |s.live| - 1 && t.sh == s.sh && t.limit == s.limit
  {
    assert Owns(s, c) == Some(s.calls[c].permit);
    assert Apply(cfg, s, Release(c)).live.Keys == s.live.Keys - {s.calls[c].permit};
  }

  ghost predicate AtLimitAt(cfg: Config, acts: seq<Action>, k: nat)
    requires Execute(cfg, acts).Some? && k <= |acts|
  {
    WaitsOnlyAtLimit(StateAfter(cfg, acts, k))
  }

  ghost predicate KeepsAtLimit(cfg: Config, acts: seq<Action>, k: nat)
    requires Execute(cfg, acts).Some? && k < |acts|
  {
    !LeavesAtLimit(cfg, StateAfter(cfg, acts, k), acts[k])
  }

  lemma AtLimitOneMore(cfg: Config, acts: seq<Action>, k: nat)
    requires Usable(cfg) && Execute(cfg, acts).Some? && k < |acts| && AtLimitAt(cfg, acts, k)
    ensures AtLimitAt(cfg, acts, k + 1) <==> KeepsAtLimit(cfg, acts, k)
  {
    var s := StateAfter(cfg, acts, k);
    StateAfterNext(cfg, acts, k);
    EveryRunKeepsInv(cfg, acts[..k], s);
    AtLimitKeptExactlyWhen(cfg, s, acts[k]);
  }

  /** Throughout a run callers wait only while the delegate is at its present limit, exactly when
      nobody joins below the limit, no permit is released at the limit while somebody waits, and the
      limit does not rise past the permits out while somebody waits. */
  lemma WaitersAtLimitExactlyWhen(cfg: Config, acts: seq<Action>)
    requires Usable(cfg) && Execute(cfg, acts).Some?
    ensures (forall k :: 0 <= k <= |acts| ==> AtLimitAt(cfg, acts, k))
       <==> (forall k :: 0 <= k < |acts| ==> KeepsAtLimit(cfg, acts, k))
  {
    var holds := seq(|acts| + 1, k requires 0 <= k <= |acts| => AtLimitAt(cfg, acts, k));
    var kept := seq(|acts|, k requires 0 <= k < |acts| => KeepsAtLimit(cfg, acts, k));
    assert StateAfter(cfg, acts, 0) == Init(cfg);
    forall k | 0 <= k < |acts| && holds[k] ensures holds[k + 1] == kept[k] {
      AtLimitOneMore(cfg, acts, k);
    }
    KeptThroughout(holds, kept);
    assert forall k :: 0 <= k <= |acts| ==> holds[k] == AtLimitAt(cfg, acts, k);
    assert forall k :: 0 <= k < |acts| ==> kept[k] == KeepsAtLimit(cfg, acts, k);
  }

  /** A delegate that refuses below its limit makes a caller wait without any release. */
  lemma WaitingWithoutAnyRelease() returns (acts: seq<Action>, s: System)
    ensures Execute(ONE_PERMIT, acts) == Some(s) && forall k :: 0 <= k < |acts| ==> !acts[k].Release?
    ensures s.live == map[] && s.limit == 1 && s.sh.backlog == [0] && s.calls == [Waiting]
  {
    acts, s := [], Init(ONE_PERMIT);
    acts, s := Step(ONE_PERMIT, acts, s, Arrive);
    assert s.calls == [Arrived];
    acts, s := Step(ONE_PERMIT, acts, s, FastPath(0, false));
    acts, s := Step(ONE_PERMIT, acts, s, Enqueue(0));
  }

  /** A second way to wait with a free permit: joined at the limit, and the only unblock refused
      below it. */
  lemma WaitingAfterALostHandOver() returns (acts: seq<Action>, s: System)
    ensures Execute(ONE_PERMIT, acts) == Some(s)
    ensures s.live == map[] && s.limit == 1 && s.sh.backlog == [1] && s.calls == [Done, Waiting]
  {
    acts, s := OneHoldsOneRefused(ONE_PERMIT);
    acts, s := Step(ONE_PERMIT, acts, s, Enqueue(1));
    acts, s := Step(ONE_PERMIT, acts, s, Release(0));
    assert s.calls == [Releasing, Waiting] && s.live == map[];
    acts, s := Step(ONE_PERMIT, acts, s, Unblock(0, false));
  }

  /** One caller holds the only permit and two that joined at the limit wait. */
  lemma OneHoldsTwoWait(cfg: Config) returns (acts: seq<Action>, s: System)
    requires cfg == Config(100, 1, 2)
    ensures Execute(cfg, acts) == Some(s) && s.live == map[0 := 0] && s.limit == 1 && s.nextPermit == 1
    ensures s.calls == [Holding(0), Waiting, Waiting] && s.sh.backlog == [2, 1]
  {
    acts, s := OneHoldsOneRefused(cfg);
    acts, s := Step(cfg, acts, s, Enqueue(1));
    acts, s := Step(cfg, acts, s, Arrive);
    assert s.calls == [Holding(0), Waiting, Arrived] && s.sh.backlog == [1];
    acts, s := Step(cfg, acts, s, FastPath(2, false));
    acts, s := Step(cfg, acts, s, Enqueue(2));
  }

  lemma TwoWaitAsTheLimitRises(cfg: Config) returns (acts: seq<Action>, s: System)
    requires cfg == Config(100, 1, 2)
    ensures Execute(cfg, acts) == Some(s) && s.live == map[] && s.limit == 2 && s.nextPermit == 1
    ensures s.calls == [Releasing, Waiting, Waiting] && s.sh.backlog == [2, 1]
  {
    acts, s := OneHoldsTwoWait(cfg);
    acts, s := Step(cfg, acts, s, Release(0));
    assert s.calls == [Releasing, Waiting, Waiting] && s.live == map[];
    acts, s := Step(cfg, acts, s, Resize(2));
  }

  /** A third: nobody joined late and no unblock was refused, but the sample of the release raised
      the limit by one and its unblock handed over one permit. */
  lemma WaitingAfterTheLimitRose() returns (acts: seq<Action>, s: System)
    ensures Execute(Config(100, 1, 2), acts) == Some(s)
    ensures |s.live| == 1 && s.limit == 2 && s.sh.backlog == [1] && Due(s) == 0
  {
    var cfg := Config(100, 1, 2);
    acts, s := TwoWaitAsTheLimitRises(cfg);
    acts, s := Step(cfg, acts, s, Unblock(0, true));
    assert s.calls == [Done, Waiting, Waiting];
    TotalZero(s.calls, DueWeight);
  }

  /** A release between a refusal and the joining need not leave a permit free: another caller may
      have taken it. */
  lemma LateJoinAtTheLimit() returns (acts: seq<Action>, s: System)
    ensures Execute(ONE_PERMIT, acts) == Some(s) && s.limit == 1
    ensures s.calls == [Done, Waiting, Holding(1)] && s.live == map[1 := 2] && s.sh.backlog == [1]
  {
    acts, s := ReleasedInTheGap();
    acts, s := Step(ONE_PERMIT, acts, s, Arrive);
    assert s.calls == [Done, Failed, Arrived];
    acts, s := Step(ONE_PERMIT, acts, s, FastPath(2, true));
    acts, s := Step(ONE_PERMIT, acts, s, Enqueue(1));
  }
}
