/** The LIFO limiter on top of the fail-fast limiter it is documented with: the delegate's answer
    is no longer any answer, but what its counter says while other callers come and go. Asking the
    delegate takes several steps; an unblock holds the mutex throughout. */
module LifoOverSimple {
  import opened Tally
  import Lifo = LifoLimiter
  import LifoTheorems
  import LifoWaiting
  import Simple = SimpleLimiter

  /** The unblock that holds the mutex: whose it is, and how many callers of the delegate were
      deciding when it asked. */
  datatype Holder = Holder(call: nat, others: nat)

  /** tries are the calls that are asking the delegate, with the delegate's name for each; slots
      are the delegate's names for the permits. */
  datatype System = System(lifo: Lifo.System, delegate: Simple.System, tries: map<nat, nat>, slots: map<nat, nat>,
                           holder: Option<Holder>)

  datatype Action =
    | Own(a: Lifo.Action)          // a step that does not concern the delegate, or moves its limit
    | Ask(call: nat)               // the increment
    | Answer(call: nat, at: nat)   // the limit read and the decision
    | Withdraw(call: nat, at: nat) // the decrement of a refused caller
    | Finish(call: nat, at: nat)   // a listener is called
    | GiveBack(call: nat, at: nat) // its decrement
    | PassBy(call: nat)            // an unblock that finds nobody waiting

  function Init(cfg: Lifo.Config): System {
    System(Lifo.Init(cfg), Simple.INITIAL, map[], map[], None)
  }

  predicate Released(s: Lifo.System, c: nat) { Lifo.At(s, c, Lifo.Releasing) || Lifo.At(s, c, Lifo.Done) }

  predicate Trying(x: System, c: nat, at: nat, stage: Simple.Stage) {
    && c in x.tries && c < |x.lifo.calls|
    && Simple.At(x.delegate, at, stage) && x.delegate.counted[at].id == x.tries[c]
  }

  /** The permit of a call and the delegate's caller it stands for. */
  predicate Holds(x: System, c: nat, at: nat, stage: Simple.Stage) {
    && c < |x.lifo.calls| && x.lifo.calls[c].Holding? && x.lifo.calls[c].permit in x.slots
    && Simple.At(x.delegate, at, stage) && x.delegate.counted[at].id == x.slots[x.lifo.calls[c].permit]
  }

  /** What the delegate's answer is to the LIFO limiter. */
  function AnswerOf(x: System, c: nat, at: nat): Lifo.Action
    requires c < |x.lifo.calls| && at < |x.delegate.counted|
  {
    var granted := x.delegate.counted[at].current <= x.lifo.limit;
    if x.lifo.calls[c] == Lifo.Arrived then Lifo.FastPath(c, granted) else Lifo.Unblock(c, granted)
  }

  /** The last guard of Answer is never in the way: see AnswersAreAllowed. */
  predicate Enabled(cfg: Lifo.Config, x: System, a: Action) {
    match a
    case Own(o) =>
      && Lifo.Enabled(cfg, x.lifo, o)
      && (o.Arrive? || o.Resize?
          || ((o.Enqueue? || o.Collect? || o.TimerFires? || o.Expired?) && o.call !in x.tries))
      && (o.Enqueue? || o.Collect? || o.Expired? ==> x.holder.None?)
    case Ask(c) =>
      && c !in x.tries
      && (Lifo.At(x.lifo, c, Lifo.Arrived) || (Released(x.lifo, c) && x.holder.None? && x.lifo.sh.backlog != []))
    case Answer(c, at) => Trying(x, c, at, Simple.Deciding) && Lifo.Enabled(cfg, x.lifo, AnswerOf(x, c, at))
    case Withdraw(c, at) => Trying(x, c, at, Simple.Undoing)
    case Finish(c, at) => Holds(x, c, at, Simple.Live)
    case GiveBack(c, at) => Holds(x, c, at, Simple.Finishing)
    case PassBy(c) => Released(x.lifo, c) && x.holder.None? && x.lifo.sh.backlog == []
  }

  function Apply(cfg: Lifo.Config, x: System, a: Action): System
    requires Enabled(cfg, x, a)
  {
    match a
    case Own(o) => x.(lifo := Lifo.Apply(cfg, x.lifo, o))
    case Ask(c) =>
      x.(delegate := Simple.Apply(x.delegate, Simple.Increment), tries := x.tries[c := x.delegate.nextId],
         holder := if x.lifo.calls[c] == Lifo.Arrived then x.holder
                   else Some(Holder(c, Total(x.delegate.counted, Simple.InDecision))))
    case Answer(c, at) => ApplyAnswer(cfg, x, c, at)
    case Withdraw(c, at) =>
      x.(delegate := Simple.Apply(x.delegate, Simple.Undo(at)), tries := x.tries - {c}, holder := Freed(x, c))
    case Finish(_, at) => x.(delegate := Simple.Apply(x.delegate, Simple.Callback(at)))
    case GiveBack(c, at) =>
      x.(delegate := Simple.Apply(x.delegate, Simple.Decrement(at)), lifo := Lifo.Apply(cfg, x.lifo, Lifo.Release(c)))
    case PassBy(c) => x.(lifo := Lifo.Apply(cfg, x.lifo, Lifo.Unblock(c, false)))
  }

  /** A refused caller goes on to its decrement, with the mutex if it has it. */
  function ApplyAnswer(cfg: Lifo.Config, x: System, c: nat, at: nat): System
    requires Enabled(cfg, x, Answer(c, at))
  {
    var o := AnswerOf(x, c, at);
    var asked := x.(delegate := Simple.Apply(x.delegate, Simple.ReadLimit(at, x.lifo.limit)),
                    lifo := Lifo.Apply(cfg, x.lifo, o));
    if o.grant then
      asked.(tries := x.tries - {c}, slots := x.slots[x.lifo.nextPermit := x.tries[c]], holder := Freed(x, c))
    else asked
  }

  function Freed(x: System, c: nat): Option<Holder> {
    if x.holder.Some? && x.holder.value.call == c then None else x.holder
  }

  ghost function Execute(cfg: Lifo.Config, acts: seq<Action>): Option<System> {
    if acts == [] then Some(Init(cfg))
    else
      match Execute(cfg, acts[..|acts| - 1])
      case None => None
      case Some(x) => if Enabled(cfg, x, acts[|acts| - 1]) then Some(Apply(cfg, x, acts[|acts| - 1])) else None
  }

  // ---------------------------------------------------------------------------------
  // The invariant

  predicate IsTry(e: Simple.Caller, id: nat) { e.id == id && e.stage == Simple.Deciding }

  /** A call that waits for its answer has arrived, or has released and holds the mutex. */
  ghost predicate TriesOk(x: System) {
    forall c :: c in x.tries ==>
      && c < |x.lifo.calls| && x.tries[c] < x.delegate.nextId
      && forall e :: e in x.delegate.counted && IsTry(e, x.tries[c]) ==>
           || x.lifo.calls[c] == Lifo.Arrived
           || (Released(x.lifo, c) && x.holder.Some? && x.holder.value.call == c)
  }

  /** While an unblock waits for its answer somebody is in the backlog, and what it was counted as
      does not exceed the permits out, the unblocks due and the callers that were deciding. */
  ghost predicate HolderOk(x: System) {
    x.holder.Some? ==>
      && x.holder.value.call in x.tries && Released(x.lifo, x.holder.value.call)
      && forall e :: e in x.delegate.counted && IsTry(e, x.tries[x.holder.value.call]) ==>
        && x.lifo.sh.backlog != []
        && (Lifo.At(x.lifo, x.holder.value.call, Lifo.Releasing) ==>
              e.current <= |x.lifo.live| + LifoWaiting.Due(x.lifo) + x.holder.value.others)
  }

  ghost predicate Inv(cfg: Lifo.Config, x: System) {
    && Lifo.Inv(cfg, x.lifo) && Simple.Inv(x.delegate, cfg.permits)
    && |x.lifo.live| == Total(x.delegate.counted, Simple.Outstanding)
    && TriesOk(x) && HolderOk(x)
  }

  // ---------------------------------------------------------------------------------
  // The delegate's side

  lemma OutstandingAfterStage(s: Simple.System, at: nat, stage: Simple.Stage)
    requires at < |s.counted|
    ensures var e := s.counted[at].(stage := stage);
            Total(s.counted[at := e], Simple.Outstanding) + Simple.Outstanding(s.counted[at])
              == Total(s.counted, Simple.Outstanding) + Simple.Outstanding(e)
  {
    TotalUpdate(s.counted, at, s.counted[at].(stage := stage), Simple.Outstanding);
  }

  lemma OutstandingAfterGone(s: Simple.System, at: nat)
    requires at < |s.counted|
    ensures Total(Simple.Gone(s.counted, at), Simple.Outstanding) + Simple.Outstanding(s.counted[at])
         == Total(s.counted, Simple.Outstanding)
    ensures forall e :: e in Simple.Gone(s.counted, at) ==> e in s.counted
  {
    TotalRemove(s.counted, at, Simple.Outstanding);
  }

  lemma GrantLeavesRoom(cfg: Lifo.Config, x: System, at: nat)
    requires Inv(cfg, x) && Simple.At(x.delegate, at, Simple.Deciding)
    requires x.delegate.counted[at].current <= x.lifo.limit
    ensures |x.lifo.live| < cfg.permits
  {
    var a := Simple.ReadLimit(at, x.lifo.limit);
    Simple.InvKept(x.delegate, a, cfg.permits);
    Simple.CountBelow(Simple.Apply(x.delegate, a).counted, cfg.permits);
    OutstandingAfterStage(x.delegate, at, Simple.Live);
  }

  /** Whatever the delegate answers, the LIFO limiter's model allows for it: the callers of the
      delegate never have more permits than its bound. */
  lemma AnswersAreAllowed(cfg: Lifo.Config, acts: seq<Action>, x: System, c: nat, at: nat)
    requires Lifo.Usable(cfg) && Execute(cfg, acts) == Some(x) && Trying(x, c, at, Simple.Deciding)
    ensures Enabled(cfg, x, Answer(c, at))
  {
    EveryRunKeepsInv(cfg, acts, x);
    AnswerIsAllowed(cfg, x, c, at);
  }

  lemma AnswerIsAllowed(cfg: Lifo.Config, x: System, c: nat, at: nat)
    requires Inv(cfg, x) && Trying(x, c, at, Simple.Deciding)
    ensures Lifo.Enabled(cfg, x.lifo, AnswerOf(x, c, at))
  {
    var e := x.delegate.counted[at];
    assert e in x.delegate.counted && IsTry(e, x.tries[c]);
    if e.current <= x.lifo.limit {
      GrantLeavesRoom(cfg, x, at);
    }
  }

  // ---------------------------------------------------------------------------------
  // Every action keeps the invariant

  /** Steps of the LIFO limiter alone. */
  lemma KeptByOwn(cfg: Lifo.Config, x: System, o: Lifo.Action)
    requires Inv(cfg, x) && Enabled(cfg, x, Own(o))
    ensures Inv(cfg, Apply(cfg, x, Own(o)))
  {
    var y := Apply(cfg, x, Own(o));
    LifoTheorems.InvKept(cfg, x.lifo, o);
    if !o.Resize? {
      LifoWaiting.CoverAfterOther(cfg, x.lifo, o);
    }
    OwnKeepsCalls(cfg, x, o);
    OwnKeepsHolder(cfg, x, o);
  }

  lemma OwnKeepsCalls(cfg: Lifo.Config, x: System, o: Lifo.Action)
    requires TriesOk(x) && Enabled(cfg, x, Own(o))
    ensures TriesOk(Apply(cfg, x, Own(o)))
    ensures |Lifo.Apply(cfg, x.lifo, o).live| == |x.lifo.live|
  {
    var y := Apply(cfg, x, Own(o));
    forall c | c in x.tries ensures c < |y.lifo.calls| && y.lifo.calls[c] == x.lifo.calls[c] {
    }
  }

  lemma OwnKeepsHolder(cfg: Lifo.Config, x: System, o: Lifo.Action)
    requires HolderOk(x) && TriesOk(x) && Enabled(cfg, x, Own(o))
    requires LifoWaiting.Due(Lifo.Apply(cfg, x.lifo, o)) == LifoWaiting.Due(x.lifo)
    ensures HolderOk(Apply(cfg, x, Own(o)))
  {
    var y := Apply(cfg, x, Own(o));
    if x.holder.Some? {
      assert y.lifo.sh.backlog == x.lifo.sh.backlog && y.lifo.live == x.lifo.live;
      var c := x.holder.value.call;
      assert y.lifo.calls[c] == x.lifo.calls[c];
    }
  }

  /** The delegate's callers when none begins to decide: what a try still is, it was before. */
  ghost predicate NoNewTries(x: System, d: Simple.System) {
    && d.nextId == x.delegate.nextId
    && forall e :: e in d.counted && e.stage == Simple.Deciding ==> e in x.delegate.counted
  }

  lemma NoNewTriesByStage(x: System, at: nat, stage: Simple.Stage)
    requires at < |x.delegate.counted| && stage != Simple.Deciding
    ensures var e := x.delegate.counted[at].(stage := stage);
            NoNewTries(x, x.delegate.(counted := x.delegate.counted[at := e]))
  {
  }

  // ---- the increment

  lemma KeptByAsk(cfg: Lifo.Config, x: System, c: nat)
    requires Inv(cfg, x) && Enabled(cfg, x, Ask(c))
    ensures Inv(cfg, Apply(cfg, x, Ask(c)))
  {
    var e := Simple.Caller(x.delegate.nextId, x.delegate.inflight + 1, Simple.Deciding);
    AskKeepsDelegate(cfg, x, e);
    AskKeepsTries(cfg, x, c, e);
    AskKeepsHolder(cfg, x, c, e);
  }

  lemma AskKeepsDelegate(cfg: Lifo.Config, x: System, e: Simple.Caller)
    requires Simple.Inv(x.delegate, cfg.permits)
    requires e == Simple.Caller(x.delegate.nextId, x.delegate.inflight + 1, Simple.Deciding)
    ensures var d := Simple.Apply(x.delegate, Simple.Increment);
            && Simple.Inv(d, cfg.permits) && d.counted == x.delegate.counted + [e]
            && Total(d.counted, Simple.Outstanding) == Total(x.delegate.counted, Simple.Outstanding)
  {
    Simple.InvKept(x.delegate, Simple.Increment, cfg.permits);
    TotalAppend(x.delegate.counted, e, Simple.Outstanding);
  }

  lemma AskKeepsTries(cfg: Lifo.Config, x: System, c: nat, e: Simple.Caller)
    requires TriesOk(x) && HolderOk(x) && Enabled(cfg, x, Ask(c))
    requires Simple.Inv(x.delegate, cfg.permits)
    requires e.id == x.delegate.nextId && Apply(cfg, x, Ask(c)).delegate.counted == x.delegate.counted + [e]
    ensures TriesOk(Apply(cfg, x, Ask(c)))
  {
    var y := Apply(cfg, x, Ask(c));
    forall f | f in x.delegate.counted ensures f.id < x.delegate.nextId {
    }
  }

  lemma AskKeepsHolder(cfg: Lifo.Config, x: System, c: nat, e: Simple.Caller)
    requires Inv(cfg, x) && Enabled(cfg, x, Ask(c))
    requires e == Simple.Caller(x.delegate.nextId, x.delegate.inflight + 1, Simple.Deciding)
    requires Apply(cfg, x, Ask(c)).delegate.counted == x.delegate.counted + [e]
    ensures HolderOk(Apply(cfg, x, Ask(c)))
  {
    var y := Apply(cfg, x, Ask(c));
    forall f | f in x.delegate.counted ensures f.id < x.delegate.nextId {
    }
    if x.lifo.calls[c] != Lifo.Arrived {
      TotalComplement(x.delegate.counted, Simple.Outstanding, Simple.InDecision);
      TotalAtLeast(x.lifo.calls, c, LifoWaiting.DueWeight);
      assert e.current == |x.lifo.live| + y.holder.value.others + 1;
    }
  }

  // ---- the other steps, which move one call or one of the delegate's callers

  ghost predicate NoTry(d: Simple.System, id: nat) {
    forall e :: e in d.counted ==> !IsTry(e, id)
  }

  lemma DecidedIsNoTry(cfg: Lifo.Config, s: Simple.System, at: nat, stage: Simple.Stage)
    requires Simple.Inv(s, cfg.permits) && at < |s.counted| && stage != Simple.Deciding
    ensures NoTry(s.(counted := s.counted[at := s.counted[at].(stage := stage)]), s.counted[at].id)
  {
  }

  lemma GoneIsNoTry(cfg: Lifo.Config, s: Simple.System, at: nat)
    requires Simple.Inv(s, cfg.permits) && at < |s.counted|
    ensures NoTry(s.(counted := Simple.Gone(s.counted, at)), s.counted[at].id)
  {
  }

  /** Only call c moved, and it is not waiting for an answer any more. */
  lemma TriesKeptByMove(x: System, y: System, c: nat)
    requires TriesOk(x) && NoNewTries(x, y.delegate) && |y.lifo.calls| == |x.lifo.calls|
    requires forall d :: 0 <= d < |x.lifo.calls| && d != c ==> y.lifo.calls[d] == x.lifo.calls[d]
    requires y.tries == x.tries || y.tries == x.tries - {c}
    requires c in y.tries ==> NoTry(y.delegate, y.tries[c])
    requires y.holder == x.holder || (x.holder.Some? && x.holder.value.call == c)
    ensures TriesOk(y)
  {
    forall d, e | d in y.tries && e in y.delegate.counted && IsTry(e, y.tries[d])
      ensures || y.lifo.calls[d] == Lifo.Arrived
              || (Released(y.lifo, d) && y.holder.Some? && y.holder.value.call == d)
    {
      assert d != c && e in x.delegate.counted;
    }
  }

  /** The unblock that holds the mutex has its answer, or what it was counted as is still made up
      for. */
  lemma HolderKeptByMove(x: System, y: System, c: nat)
    requires HolderOk(x) && NoNewTries(x, y.delegate)
    requires y.holder.Some? ==>
               var h := y.holder.value.call;
               && y.holder == x.holder && h in y.tries && y.tries[h] == x.tries[h] && Released(y.lifo, h)
               && (h == c ==> NoTry(y.delegate, y.tries[h]))
               && (h != c ==> y.lifo.calls[h] == x.lifo.calls[h]
                              && (x.lifo.sh.backlog != [] ==> y.lifo.sh.backlog != [])
                              && |x.lifo.live| + LifoWaiting.Due(x.lifo) <= |y.lifo.live| + LifoWaiting.Due(y.lifo))
    ensures HolderOk(y)
  {
  }

  lemma KeptByRefusal(cfg: Lifo.Config, x: System, c: nat, at: nat)
    requires Inv(cfg, x) && Enabled(cfg, x, Answer(c, at)) && x.lifo.limit < x.delegate.counted[at].current
    ensures Inv(cfg, Apply(cfg, x, Answer(c, at)))
  {
    var y := Apply(cfg, x, Answer(c, at));
    RefusalKeepsDelegate(cfg, x, c, at);
    LifoTheorems.InvKept(cfg, x.lifo, AnswerOf(x, c, at));
    RefusalOnLifo(cfg, x, c, at);
    RefusalKeepsTries(cfg, x, c, at);
  }

  lemma RefusalKeepsTries(cfg: Lifo.Config, x: System, c: nat, at: nat)
    requires Inv(cfg, x) && Enabled(cfg, x, Answer(c, at)) && x.lifo.limit < x.delegate.counted[at].current
    ensures TriesOk(Apply(cfg, x, Answer(c, at))) && HolderOk(Apply(cfg, x, Answer(c, at)))
  {
    RefusalKeepsDelegate(cfg, x, c, at);
    RefusalOnLifo(cfg, x, c, at);
    TriesKeptByMove(x, Apply(cfg, x, Answer(c, at)), c);
    HolderKeptByMove(x, Apply(cfg, x, Answer(c, at)), c);
  }

  lemma RefusalKeepsDelegate(cfg: Lifo.Config, x: System, c: nat, at: nat)
    requires Inv(cfg, x) && Enabled(cfg, x, Answer(c, at)) && x.lifo.limit < x.delegate.counted[at].current
    ensures var d := Apply(cfg, x, Answer(c, at)).delegate;
            && Simple.Inv(d, cfg.permits) && NoNewTries(x, d) && NoTry(d, x.tries[c])
            && Total(d.counted, Simple.Outstanding) == |x.lifo.live|
  {
    Simple.InvKept(x.delegate, Simple.ReadLimit(at, x.lifo.limit), cfg.permits);
    OutstandingAfterStage(x.delegate, at, Simple.Undoing);
    NoNewTriesByStage(x, at, Simple.Undoing);
    DecidedIsNoTry(cfg, x.delegate, at, Simple.Undoing);
  }

  lemma RefusalOnLifo(cfg: Lifo.Config, x: System, c: nat, at: nat)
    requires Inv(cfg, x) && Enabled(cfg, x, Answer(c, at)) && x.lifo.limit < x.delegate.counted[at].current
    ensures var y := Apply(cfg, x, Answer(c, at));
            && y.lifo.live == x.lifo.live && y.lifo.sh == x.lifo.sh && y.holder == x.holder && y.tries == x.tries
            && |y.lifo.calls| == |x.lifo.calls|
            && (forall d :: 0 <= d < |x.lifo.calls| && d != c ==> y.lifo.calls[d] == x.lifo.calls[d])
            && (x.lifo.calls[c] == Lifo.Arrived ==> LifoWaiting.Due(y.lifo) == LifoWaiting.Due(x.lifo))
            && (x.lifo.calls[c] != Lifo.Arrived ==>
                  Released(y.lifo, c) && x.holder.Some? && x.holder.value.call == c)
  {
    var o := AnswerOf(x, c, at);
    var e := x.delegate.counted[at];
    assert e in x.delegate.counted && IsTry(e, x.tries[c]);
    if x.lifo.calls[c] == Lifo.Arrived {
      LifoWaiting.CoverAfterOther(cfg, x.lifo, o);
    }
  }

  lemma KeptByGrant(cfg: Lifo.Config, x: System, c: nat, at: nat)
    requires Inv(cfg, x) && Enabled(cfg, x, Answer(c, at)) && x.delegate.counted[at].current <= x.lifo.limit
    ensures Inv(cfg, Apply(cfg, x, Answer(c, at)))
  {
    var y := Apply(cfg, x, Answer(c, at));
    GrantKeepsDelegate(cfg, x, c, at);
    LifoTheorems.InvKept(cfg, x.lifo, AnswerOf(x, c, at));
    GrantOnLifo(cfg, x, c, at);
    GrantKeepsTries(cfg, x, c, at);
  }

  lemma GrantKeepsTries(cfg: Lifo.Config, x: System, c: nat, at: nat)
    requires Inv(cfg, x) && Enabled(cfg, x, Answer(c, at)) && x.delegate.counted[at].current <= x.lifo.limit
    ensures TriesOk(Apply(cfg, x, Answer(c, at))) && HolderOk(Apply(cfg, x, Answer(c, at)))
  {
    GrantKeepsDelegate(cfg, x, c, at);
    GrantOnLifo(cfg, x, c, at);
    TriesKeptByMove(x, Apply(cfg, x, Answer(c, at)), c);
    HolderKeptByMove(x, Apply(cfg, x, Answer(c, at)), c);
  }

  lemma GrantKeepsDelegate(cfg: Lifo.Config, x: System, c: nat, at: nat)
    requires Inv(cfg, x) && Enabled(cfg, x, Answer(c, at)) && x.delegate.counted[at].current <= x.lifo.limit
    ensures var d := Apply(cfg, x, Answer(c, at)).delegate;
            && Simple.Inv(d, cfg.permits) && NoNewTries(x, d)
            && Total(d.counted, Simple.Outstanding) == |x.lifo.live| + 1
  {
    Simple.InvKept(x.delegate, Simple.ReadLimit(at, x.lifo.limit), cfg.permits);
    OutstandingAfterStage(x.delegate, at, Simple.Live);
    NoNewTriesByStage(x, at, Simple.Live);
  }

  lemma GrantOnLifo(cfg: Lifo.Config, x: System, c: nat, at: nat)
    requires Inv(cfg, x) && Enabled(cfg, x, Answer(c, at)) && x.delegate.counted[at].current <= x.lifo.limit
    ensures var y := Apply(cfg, x, Answer(c, at));
            && |y.lifo.live| == |x.lifo.live| + 1 && |y.lifo.calls| == |x.lifo.calls| && y.tries == x.tries - {c}
            && (forall d :: 0 <= d < |x.lifo.calls| && d != c ==> y.lifo.calls[d] == x.lifo.calls[d])
            && (x.lifo.calls[c] == Lifo.Arrived ==>
                  && y.lifo.sh == x.lifo.sh && y.holder == x.holder
                  && |x.lifo.live| + LifoWaiting.Due(x.lifo) <= |y.lifo.live| + LifoWaiting.Due(y.lifo))
            && (x.lifo.calls[c] != Lifo.Arrived ==>
                  y.holder == None && x.holder.Some? && x.holder.value.call == c)
            && (y.holder.Some? ==> y.holder.value.call != c)
  {
    var e := x.delegate.counted[at];
    assert e in x.delegate.counted && IsTry(e, x.tries[c]);
    assert x.lifo.nextPermit !in x.lifo.live;
    if x.lifo.calls[c] == Lifo.Arrived {
      LifoWaiting.CoverAfterGrant(cfg, x.lifo, c);
    } else {
      LifoWaiting.UnblockTakesAtMostOne(cfg, x.lifo, c, true);
    }
  }

  lemma KeptByWithdraw(cfg: Lifo.Config, x: System, c: nat, at: nat)
    requires Inv(cfg, x) && Enabled(cfg, x, Withdraw(c, at))
    ensures Inv(cfg, Apply(cfg, x, Withdraw(c, at)))
  {
    WithdrawKeepsDelegate(cfg, x, at);
    WithdrawKeepsTries(cfg, x, c, at);
  }

  lemma WithdrawKeepsDelegate(cfg: Lifo.Config, x: System, at: nat)
    requires Simple.Inv(x.delegate, cfg.permits) && Simple.At(x.delegate, at, Simple.Undoing)
    ensures var d := Simple.Apply(x.delegate, Simple.Undo(at));
            && Simple.Inv(d, cfg.permits)
            && Total(d.counted, Simple.Outstanding) == Total(x.delegate.counted, Simple.Outstanding)
  {
    Simple.InvKept(x.delegate, Simple.Undo(at), cfg.permits);
    OutstandingAfterGone(x.delegate, at);
  }

  lemma WithdrawKeepsTries(cfg: Lifo.Config, x: System, c: nat, at: nat)
    requires TriesOk(x) && HolderOk(x) && Enabled(cfg, x, Withdraw(c, at))
    ensures TriesOk(Apply(cfg, x, Withdraw(c, at))) && HolderOk(Apply(cfg, x, Withdraw(c, at)))
  {
    OutstandingAfterGone(x.delegate, at);
    TriesKeptByMove(x, Apply(cfg, x, Withdraw(c, at)), c);
    HolderKeptByMove(x, Apply(cfg, x, Withdraw(c, at)), c);
  }

  lemma KeptByFinish(cfg: Lifo.Config, x: System, c: nat, at: nat)
    requires Inv(cfg, x) && Enabled(cfg, x, Finish(c, at))
    ensures Inv(cfg, Apply(cfg, x, Finish(c, at)))
  {
    var y := Apply(cfg, x, Finish(c, at));
    Simple.InvKept(x.delegate, Simple.Callback(at), cfg.permits);
    OutstandingAfterStage(x.delegate, at, Simple.Finishing);
    NoNewTriesByStage(x, at, Simple.Finishing);
    TriesKeptByMove(x, y, |x.lifo.calls|);
    HolderKeptByMove(x, y, |x.lifo.calls|);
  }

  lemma KeptByGiveBack(cfg: Lifo.Config, x: System, c: nat, at: nat)
    requires Inv(cfg, x) && Enabled(cfg, x, GiveBack(c, at))
    ensures Inv(cfg, Apply(cfg, x, GiveBack(c, at)))
  {
    var y := Apply(cfg, x, GiveBack(c, at));
    GiveBackKeepsDelegate(cfg, x, c, at);
    LifoTheorems.InvKept(cfg, x.lifo, Lifo.Release(c));
    GiveBackOnLifo(cfg, x, c);
    TriesKeptByMove(x, y, c);
    HolderKeptByMove(x, y, c);
  }

  lemma GiveBackKeepsDelegate(cfg: Lifo.Config, x: System, c: nat, at: nat)
    requires Inv(cfg, x) && Enabled(cfg, x, GiveBack(c, at))
    ensures var d := Simple.Apply(x.delegate, Simple.Decrement(at));
            && Simple.Inv(d, cfg.permits) && NoNewTries(x, d)
            && Total(d.counted, Simple.Outstanding) + 1 == |x.lifo.live|
            && (c in x.tries ==> NoTry(d, x.tries[c]))
  {
    Simple.InvKept(x.delegate, Simple.Decrement(at), cfg.permits);
    OutstandingAfterGone(x.delegate, at);
    assert c in x.tries ==> NoTry(x.delegate, x.tries[c]);
  }

  lemma GiveBackOnLifo(cfg: Lifo.Config, x: System, c: nat)
    requires Inv(cfg, x) && Lifo.Enabled(cfg, x.lifo, Lifo.Release(c))
    ensures var t := Lifo.Apply(cfg, x.lifo, Lifo.Release(c));
            && |t.live| + 1 == |x.lifo.live| && t.sh == x.lifo.sh && t.calls == x.lifo.calls[c := Lifo.Releasing]
            && |t.live| + LifoWaiting.Due(t) == |x.lifo.live| + LifoWaiting.Due(x.lifo)
  {
    LifoWaiting.ReleaseFreesOne(cfg, x.lifo, c);
    LifoWaiting.CoverAfterRelease(cfg, x.lifo, c);
  }

  lemma KeptByPassBy(cfg: Lifo.Config, x: System, c: nat)
    requires Inv(cfg, x) && Enabled(cfg, x, PassBy(c))
    ensures Inv(cfg, Apply(cfg, x, PassBy(c)))
  {
    LifoTheorems.InvKept(cfg, x.lifo, Lifo.Unblock(c, false));
    assert c in x.tries ==> NoTry(x.delegate, x.tries[c]);
    TriesKeptByMove(x, Apply(cfg, x, PassBy(c)), c);
  }

  lemma InvKept(cfg: Lifo.Config, x: System, a: Action)
    requires Inv(cfg, x) && Enabled(cfg, x, a)
    ensures Inv(cfg, Apply(cfg, x, a))
  {
    match a
    case Own(o) => KeptByOwn(cfg, x, o);
    case Ask(c) => KeptByAsk(cfg, x, c);
    case Answer(c, at) =>
      if x.delegate.counted[at].current <= x.lifo.limit {
        KeptByGrant(cfg, x, c, at);
      } else {
        KeptByRefusal(cfg, x, c, at);
      }
    case Withdraw(c, at) => KeptByWithdraw(cfg, x, c, at);
    case Finish(c, at) => KeptByFinish(cfg, x, c, at);
    case GiveBack(c, at) => KeptByGiveBack(cfg, x, c, at);
    case PassBy(c) => KeptByPassBy(cfg, x, c);
  }

  lemma {:induction false} EveryRunKeepsInv(cfg: Lifo.Config, acts: seq<Action>, x: System)
    requires Lifo.Usable(cfg) && Execute(cfg, acts) == Some(x)
    ensures Inv(cfg, x)
  {
    if acts == [] {
      InvInitially(cfg);
    } else {
      var n := |acts| - 1;
      EveryRunKeepsInv(cfg, acts[..n], Execute(cfg, acts[..n]).value);
      InvKept(cfg, Execute(cfg, acts[..n]).value, acts[n]);
    }
  }

  lemma InvInitially(cfg: Lifo.Config)
    requires Lifo.Usable(cfg)
    ensures Inv(cfg, Init(cfg))
  {
  }

  // ---------------------------------------------------------------------------------
  // Results

  /** An action as the LIFO limiter's model sees it. */
  function LifoActions(x: System, a: Action): seq<Lifo.Action>
    requires a.Answer? ==> a.call < |x.lifo.calls| && a.at < |x.delegate.counted|
  {
    match a
    case Own(o) => [o]
    case Answer(c, at) => [AnswerOf(x, c, at)]
    case GiveBack(c, _) => [Lifo.Release(c)]
    case PassBy(c) => [Lifo.Unblock(c, false)]
    case _ => []
  }

  /** An action as the fail-fast limiter's model sees it. */
  function SimpleActions(x: System, a: Action): seq<Simple.Action> {
    match a
    case Ask(_) => [Simple.Increment]
    case Answer(_, at) => [Simple.ReadLimit(at, x.lifo.limit)]
    case Withdraw(_, at) => [Simple.Undo(at)]
    case Finish(_, at) => [Simple.Callback(at)]
    case GiveBack(_, at) => [Simple.Decrement(at)]
    case _ => []
  }

  /** Every run of the two together is a run of the LIFO limiter's model and one of the fail-fast
      limiter's, so that whatever holds of theirs holds of it: one limiter inside the other needs no
      assumption about the delegate. */
  lemma {:induction false} RunsOfBoth(cfg: Lifo.Config, acts: seq<Action>, x: System)
    returns (outer: seq<Lifo.Action>, inner: seq<Simple.Action>)
    requires Lifo.Usable(cfg) && Execute(cfg, acts) == Some(x)
    ensures Lifo.Execute(cfg, outer) == Some(x.lifo)
    ensures Simple.Execute(inner) == Some(x.delegate) && Simple.LimitsBelow(inner, cfg.permits)
  {
    outer, inner := [], [];
    if acts == [] {
    } else {
      var n := |acts| - 1;
      var y := Execute(cfg, acts[..n]).value;
      outer, inner := RunsOfBoth(cfg, acts[..n], y);
      EveryRunKeepsInv(cfg, acts[..n], y);
      OuterOneMore(cfg, outer, y, acts[n]);
      InnerOneMore(cfg, inner, y, acts[n]);
      outer, inner := outer + LifoActions(y, acts[n]), inner + SimpleActions(y, acts[n]);
    }
  }

  lemma OuterOneMore(cfg: Lifo.Config, outer: seq<Lifo.Action>, y: System, a: Action)
    requires Lifo.Execute(cfg, outer) == Some(y.lifo) && Enabled(cfg, y, a)
    ensures Lifo.Execute(cfg, outer + LifoActions(y, a)) == Some(Apply(cfg, y, a).lifo)
  {
    var more := LifoActions(y, a);
    if more == [] {
      assert outer + more == outer;
    } else {
      var longer, t := LifoTheorems.Step(cfg, outer, y.lifo, more[0]);
    }
  }

  lemma InnerOneMore(cfg: Lifo.Config, inner: seq<Simple.Action>, y: System, a: Action)
    requires Simple.Execute(inner) == Some(y.delegate) && Simple.LimitsBelow(inner, cfg.permits)
    requires Enabled(cfg, y, a) && y.lifo.limit <= cfg.permits
    ensures Simple.Execute(inner + SimpleActions(y, a)) == Some(Apply(cfg, y, a).delegate)
    ensures Simple.LimitsBelow(inner + SimpleActions(y, a), cfg.permits)
  {
    var more := SimpleActions(y, a);
    if more == [] {
      assert inner + more == inner;
    } else {
      assert (inner + more)[..|inner|] == inner && (inner + more)[|inner|] == more[0];
    }
  }

  /** What an unblock records when it asks: the counter it finds, less the permits out, which is how
      many callers are between their increment and their admission or undo. */
  lemma AskCountsTheDeciding(cfg: Lifo.Config, acts: seq<Action>, x: System, c: nat)
    requires Lifo.Usable(cfg) && Execute(cfg, acts) == Some(x) && Enabled(cfg, x, Ask(c)) && Released(x.lifo, c)
    ensures Apply(cfg, x, Ask(c)).holder.Some? && Apply(cfg, x, Ask(c)).holder.value.call == c
    ensures x.delegate.inflight == |x.lifo.live| + Apply(cfg, x, Ask(c)).holder.value.others
  {
    EveryRunKeepsInv(cfg, acts, x);
    TotalComplement(x.delegate.counted, Simple.Outstanding, Simple.InDecision);
  }

  /** A hand-over is lost only behind another caller of the delegate that had incremented and was
      neither admitted nor gone when the unblock asked; whatever the limit did meanwhile. */
  lemma LostOnlyBehindADecidingCaller(cfg: Lifo.Config, acts: seq<Action>, x: System, c: nat, at: nat)
    requires Lifo.Usable(cfg) && Execute(cfg, acts) == Some(x) && Enabled(cfg, x, Answer(c, at))
    requires LifoWaiting.HandOverLost(x.lifo, AnswerOf(x, c, at))
    ensures x.holder.Some? && x.holder.value.call == c && x.holder.value.others > 0
  {
    EveryRunKeepsInv(cfg, acts, x);
    var e := x.delegate.counted[at];
    assert e in x.delegate.counted && IsTry(e, x.tries[c]);
  }

  // ---------------------------------------------------------------------------------
  // A lost hand-over

  const ONE := LifoTheorems.ONE_PERMIT

  lemma Step(acts: seq<Action>, x: System, a: Action) returns (more: seq<Action>, y: System)
    requires Execute(ONE, acts) == Some(x) && Enabled(ONE, x, a)
    ensures more == acts + [a] && y == Apply(ONE, x, a) && Execute(ONE, more) == Some(y)
  {
    more, y := acts + [a], Apply(ONE, x, a);
    assert more[..|acts|] == acts;
  }

  predicate Shows(x: System, calls: seq<Lifo.Call>, backlog: seq<nat>, counted: seq<Simple.Caller>) {
    x.lifo.calls == calls && x.lifo.sh.backlog == backlog && x.delegate.counted == counted && x.lifo.limit == 1
  }

  lemma OneAdmitted() returns (acts: seq<Action>, x: System)
    ensures Execute(ONE, acts) == Some(x) && Shows(x, [Lifo.Holding(0)], [], [Simple.Caller(0, 1, Simple.Live)])
    ensures x.slots == map[0 := 0] && x.tries == map[] && x.holder == None && x.lifo.live.Keys == {0}
    ensures x.delegate.nextId == 1 && x.delegate.inflight == 1
  {
    acts, x := [], Init(ONE);
    acts, x := Step(acts, x, Own(Lifo.Arrive));
    acts, x := Step(acts, x, Ask(0));
    assert Shows(x, [Lifo.Arrived], [], [Simple.Caller(0, 1, Simple.Deciding)]);
    acts, x := Step(acts, x, Answer(0, 0));
  }

  lemma OneRefused() returns (acts: seq<Action>, x: System)
    ensures Execute(ONE, acts) == Some(x)
    ensures Shows(x, [Lifo.Holding(0), Lifo.Failed], [], [Simple.Caller(0, 1, Simple.Live)])
    ensures x.slots == map[0 := 0] && x.tries == map[] && x.holder == None && x.lifo.live.Keys == {0}
    ensures x.delegate.nextId == 2 && x.delegate.inflight == 1
  {
    acts, x := OneAdmitted();
    acts, x := Step(acts, x, Own(Lifo.Arrive));
    acts, x := Step(acts, x, Ask(1));
    assert x.delegate.counted == [Simple.Caller(0, 1, Simple.Live), Simple.Caller(1, 2, Simple.Deciding)];
    acts, x := Step(acts, x, Answer(1, 1));
    assert x.delegate.counted == [Simple.Caller(0, 1, Simple.Live), Simple.Caller(1, 2, Simple.Undoing)];
    acts, x := Step(acts, x, Withdraw(1, 1));
  }

  /** One caller waits at the limit and another has just been counted past it. */
  lemma OneWaitsOneAsks() returns (acts: seq<Action>, x: System)
    ensures Execute(ONE, acts) == Some(x)
    ensures Shows(x, [Lifo.Holding(0), Lifo.Waiting, Lifo.Arrived], [1],
                  [Simple.Caller(0, 1, Simple.Live), Simple.Caller(2, 2, Simple.Deciding)])
    ensures x.slots == map[0 := 0] && x.tries == map[2 := 2] && x.holder == None && x.lifo.live.Keys == {0}
    ensures x.delegate.nextId == 3 && x.delegate.inflight == 2
  {
    acts, x := OneRefused();
    acts, x := Step(acts, x, Own(Lifo.Enqueue(1)));
    acts, x := Step(acts, x, Own(Lifo.Arrive));
    assert x.lifo.calls == [Lifo.Holding(0), Lifo.Waiting, Lifo.Arrived];
    acts, x := Step(acts, x, Ask(2));
  }

  lemma PermitGivenBack() returns (acts: seq<Action>, x: System)
    ensures Execute(ONE, acts) == Some(x)
    ensures Shows(x, [Lifo.Releasing, Lifo.Waiting, Lifo.Arrived], [1], [Simple.Caller(2, 2, Simple.Deciding)])
    ensures x.tries == map[2 := 2] && x.holder == None && x.lifo.live == map[]
    ensures x.delegate.nextId == 3 && x.delegate.inflight == 1
  {
    acts, x := OneWaitsOneAsks();
    acts, x := Step(acts, x, Finish(0, 0));
    assert x.delegate.counted == [Simple.Caller(0, 1, Simple.Finishing), Simple.Caller(2, 2, Simple.Deciding)];
    acts, x := Step(acts, x, GiveBack(0, 0));
  }

  /** The unblock of the last release is refused because of a caller that has not been refused
      itself yet. */
  lemma UnblockRefused() returns (acts: seq<Action>, x: System)
    ensures Execute(ONE, acts) == Some(x)
    ensures Shows(x, [Lifo.Done, Lifo.Waiting, Lifo.Arrived], [1],
                  [Simple.Caller(2, 2, Simple.Deciding), Simple.Caller(3, 2, Simple.Undoing)])
    ensures x.tries == map[2 := 2, 0 := 3] && x.lifo.live == map[]
  {
    acts, x := PermitGivenBack();
    acts, x := Step(acts, x, Ask(0));
    assert x.delegate.counted == [Simple.Caller(2, 2, Simple.Deciding), Simple.Caller(3, 2, Simple.Deciding)];
    acts, x := Step(acts, x, Answer(0, 1));
  }

  /** In the end somebody waits although nobody is left at the delegate at all. */
  lemma WaitingAtAnIdleDelegate() returns (acts: seq<Action>, x: System)
    ensures Execute(ONE, acts) == Some(x)
    ensures Shows(x, [Lifo.Done, Lifo.Waiting, Lifo.Failed], [1], []) && x.lifo.live == map[]
  {
    acts, x := UnblockRefused();
    acts, x := Step(acts, x, Withdraw(0, 1));
    assert x.delegate.counted == [Simple.Caller(2, 2, Simple.Deciding)] && x.tries == map[2 := 2];
    acts, x := Step(acts, x, Answer(2, 0));
    assert x.delegate.counted == [Simple.Caller(2, 2, Simple.Undoing)];
    acts, x := Step(acts, x, Withdraw(2, 0));
  }
}
