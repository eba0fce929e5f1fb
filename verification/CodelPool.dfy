/** The worker pool of queue/codel.go.

    The class holds the fields the mutex guards and its methods are the bodies of the
    critical sections; each is proved equal to a function on the abstract value Shared.
    The protocol around it is a transition system: every locked section, every callback a
    worker makes outside the lock, and every return to a caller is one atomic action, and
    actions of all goroutines interleave freely. */
module CodelPool {
  import opened Tally
  import Law = CodelControl

  // ---------------------------------------------------------------------------------
  // Configuration and the guarded fields

  datatype Config = Config(workers: int, capacity: int, target: int, interval: int, adaptiveLIFO: bool)

  const MILLISECOND := 1_000_000
  const DEFAULT_TARGET := 5_000_000
  const DEFAULT_INTERVAL := 100_000_000

  function Normalized(c: Config): (r: Config)
    ensures r.workers >= 1 && r.capacity >= 1 && r.target > 0 && r.interval > 0
    ensures c.workers < 1 ==> r.workers == 1
    ensures c.capacity < 1 ==> r.capacity == 1
    ensures c.target <= 0 ==> r.target == 5 * MILLISECOND
    ensures c.interval <= 0 ==> r.interval == 100 * MILLISECOND
    ensures r.adaptiveLIFO == c.adaptiveLIFO
    ensures Usable(c) ==> r == c
    ensures c.workers >= 1 ==> r.workers == c.workers
    ensures c.capacity >= 1 ==> r.capacity == c.capacity
    ensures c.target > 0 ==> r.target == c.target
    ensures c.interval > 0 ==> r.interval == c.interval
  {
    c.(workers := if c.workers < 1 then 1 else c.workers,
       capacity := if c.capacity < 1 then 1 else c.capacity,
       target := if c.target <= 0 then DEFAULT_TARGET else c.target,
       interval := if c.interval <= 0 then DEFAULT_INTERVAL else c.interval)
  }

  predicate Usable(c: Config) {
    c.workers >= 1 && c.capacity >= 1 && c.target > 0 && c.interval > 0
  }

  function LawParams(c: Config): Law.Params
    requires Usable(c)
  {
    Law.Params(c.target, c.interval)
  }

  /** A queued task: the submit call it belongs to, its position among all accepted tasks,
      and the time it was enqueued. */
  datatype Item = Item(call: nat, ticket: nat, enq: int)

  datatype Reply = Nil | Overloaded | Stopped | QueueFull | WasShed

  /** What a worker leaves its critical section with. */
  datatype Taken = Sleep | Exit | Drop(item: Item) | Serve(item: Item)

  datatype Shared = Shared(buf: seq<Item>, closed: bool, law: Law.Control,
                           accepted: nat, rejected: nat, dropped: nat)

  const EMPTY := Shared([], false, Law.INITIAL, 0, 0, 0)

  function SubmitSection(cfg: Config, sh: Shared, call: nat, now: int): (Shared, Reply) {
    if sh.closed then (sh, Stopped)
    else if |sh.buf| >= cfg.capacity then (sh.(rejected := sh.rejected + 1), QueueFull)
    else (sh.(buf := sh.buf + [Item(call, sh.accepted, now)], accepted := sh.accepted + 1), Nil)
  }

  function WorkerSection(cfg: Config, sh: Shared, now: int): (Shared, Taken)
    requires Usable(cfg)
  {
    if sh.buf == [] then (sh, if sh.closed then Exit else Sleep)
    else
      var (law, drop) := Law.Decide(LawParams(cfg), sh.law, Law.Eval(sh.buf[0].enq, now));
      var last := |sh.buf| - 1;
      if drop then
        (sh.(buf := sh.buf[1..], law := law, dropped := sh.dropped + 1), Drop(sh.buf[0]))
      else if cfg.adaptiveLIFO && law.dropping then
        (sh.(buf := sh.buf[..last], law := law), Serve(sh.buf[last]))
      else
        (sh.(buf := sh.buf[1..], law := law), Serve(sh.buf[0]))
  }

  class CodelPool {
    const cfg: Config
    var buf: seq<Item>
    var closed: bool
    var dropping: bool
    var firstAbove: Option<int>
    var dropNext: int
    var count: nat
    var accepted: nat
    var rejected: nat
    var dropped: nat

    ghost function Control(): Law.Control
      reads this
    {
      Law.Control(dropping, firstAbove, dropNext, count)
    }

    ghost function View(): Shared
      reads this
    {
      Shared(buf, closed, Control(), accepted, rejected, dropped)
    }

    constructor (config: Config)
      ensures cfg == Normalized(config) && Usable(cfg)
      ensures View() == EMPTY
    {
      cfg := Normalized(config);
      buf, closed := [], false;
      dropping, firstAbove, dropNext, count := false, None, 0, 0;
      accepted, rejected, dropped := 0, 0, 0;
    }

    method ShouldDrop(enq: int, now: int) returns (drop: bool)
      requires Usable(cfg)
      modifies `dropping, `firstAbove, `dropNext, `count
      ensures (Control(), drop) == Law.Decide(LawParams(cfg), old(Control()), Law.Eval(enq, now))
    {
      var sojourn := now - enq;
      if sojourn < cfg.target {
        firstAbove := None;
        dropping := false;
        return false;
      }
      if firstAbove.None? {
        firstAbove := Some(now + cfg.interval);
        return false;
      }
      if now < firstAbove.value {
        return false;
      }
      if !dropping {
        dropping := true;
        count := 1;
        dropNext := now + cfg.interval;
        return true;
      }
      if now < dropNext {
        return false;
      }
      count := count + 1;
      dropNext := now + Law.Spacing(cfg.interval, count);
      return true;
    }

    /** The locked part of submitWithOutcome. */
    method Submit(call: nat, now: int) returns (reply: Reply)
      modifies this
      ensures (View(), reply) == SubmitSection(cfg, old(View()), call, now)
    {
      if closed {
        return Stopped;
      }
      if |buf| >= cfg.capacity {
        rejected := rejected + 1;
        return QueueFull;
      }
      buf := buf + [Item(call, accepted, now)];
      accepted := accepted + 1;
      return Nil;
    }

    /** One pass of a worker through its critical section. */
    method Take(now: int) returns (taken: Taken)
      requires Usable(cfg)
      modifies this
      ensures (View(), taken) == WorkerSection(cfg, old(View()), now)
    {
      if |buf| == 0 && !closed {
        return Sleep;
      }
      if |buf| == 0 && closed {
        return Exit;
      }
      var drop := ShouldDrop(buf[0].enq, now);
      if drop {
        taken := Drop(buf[0]);
        buf := buf[1..];
        dropped := dropped + 1;
        return;
      }
      if cfg.adaptiveLIFO && dropping {
        var last := |buf| - 1;
        taken := Serve(buf[last]);
        buf := buf[..last];
      } else {
        taken := Serve(buf[0]);
        buf := buf[1..];
      }
    }

    /** The locked part of Stop. */
    method Close()
      modifies `closed
      ensures View() == old(View()).(closed := true)
    {
      closed := true;
    }
  }

  // ---------------------------------------------------------------------------------
  // Goroutines

  /** A worker is about to lock, asleep on the condition variable, outside the lock with the
      task of one call, or gone. */
  datatype Worker = Ready | Asleep | Busy(call: nat) | Exited

  /** How far a submit call and its task have come. */
  datatype Stage =
    | Refused                                 // the gate said no
    | Admitted                                // the gate said yes, the lock not yet taken
    | TurnedAway                              // stopped or full, found under the lock
    | Queued
    | Dropping(worker: nat)                   // dequeued to be dropped, gate not yet told
    | DropTold(worker: nat)                   // gate told, the waiting caller not yet
    | Running(worker: nat)
    | BodyDone(worker: nat, outcome: Outcome) // body over and caller signalled, gate not yet told
    | Shed
    | Ran(outcome: Outcome)

  /** dones is every value the gate's done has been called with for this call, runs how often
      the task body ended, closes how often the caller's channel was closed. */
  datatype Call = Call(waits: bool, stage: Stage, dones: seq<bool>, runs: nat, closes: nat,
                       wasDropped: bool, reply: Option<Reply>)

  datatype System = System(sh: Shared, workers: seq<Worker>, calls: seq<Call>, clock: int, stopReturned: bool,
                           evals: seq<Law.Eval>, acceptedLog: seq<Item>, outLog: seq<Item>,
                           droppedLog: seq<Item>, servedLog: seq<Item>)

  datatype Action =
    | Arrive(waits: bool, ok: bool)
    | Enter(call: nat, now: int, wake: nat)
    | Take(worker: nat, now: int)
    | TellGateDropped(worker: nat)
    | TellCallerDropped(worker: nat)
    | EndBody(worker: nat, outcome: Outcome)
    | TellGateRan(worker: nat)
    | Wake(call: nat)
    | Close
    | StopReturns

  function Init(cfg: Config): System
    requires Usable(cfg)
  {
    System(EMPTY, seq(cfg.workers, _ => Ready), [], 0, false, [], [], [], [], [])
  }

  predicate HasTask(s: System, w: nat) {
    w < |s.workers| && s.workers[w].Busy? && s.workers[w].call < |s.calls|
  }

  function TaskOf(s: System, w: nat): Call
    requires HasTask(s, w)
  {
    s.calls[s.workers[w].call]
  }

  predicate SomeAsleep(s: System) {
    exists w :: 0 <= w < |s.workers| && s.workers[w] == Asleep
  }

  /** Both clock readings happen under the mutex, so they are ordered as the sections are. */
  predicate Enabled(cfg: Config, s: System, a: Action) {
    match a
    case Arrive(_, _) => true
    case Enter(c, now, wake) =>
      && c < |s.calls| && s.calls[c].stage == Admitted && now >= s.clock
      && (SomeAsleep(s) ==> wake < |s.workers| && s.workers[wake] == Asleep)
    case Take(w, now) => w < |s.workers| && s.workers[w] == Ready && now >= s.clock
    case TellGateDropped(w) => HasTask(s, w) && TaskOf(s, w).stage.Dropping?
    case TellCallerDropped(w) => HasTask(s, w) && TaskOf(s, w).stage.DropTold?
    case EndBody(w, _) => HasTask(s, w) && TaskOf(s, w).stage.Running?
    case TellGateRan(w) => HasTask(s, w) && TaskOf(s, w).stage.BodyDone?
    case Wake(c) =>
      c < |s.calls| && s.calls[c].waits && s.calls[c].reply.None? && s.calls[c].closes > 0
    case Close => !s.sh.closed
    case StopReturns => s.sh.closed && forall w :: 0 <= w < |s.workers| ==> s.workers[w] == Exited
  }

  function Apply(cfg: Config, s: System, a: Action): System
    requires Usable(cfg) && Enabled(cfg, s, a)
  {
    match a
    case Arrive(waits, ok) => ApplyArrive(s, waits, ok)
    case Enter(c, now, wake) => ApplyEnter(cfg, s, c, now, wake)
    case Take(w, now) => ApplyTake(cfg, s, w, now)
    case TellGateDropped(w) =>
      var c := TaskOf(s, w);
      WithCall(s, s.workers[w].call, c.(stage := DropTold(w), dones := c.dones + [false]))
    case TellCallerDropped(w) =>
      var c := TaskOf(s, w);
      WithWorker(
        WithCall(s, s.workers[w].call,
                 if c.waits then c.(stage := Shed, wasDropped := true, closes := c.closes + 1)
                 else c.(stage := Shed)),
        w, Ready)
    case EndBody(w, o) =>
      var c := TaskOf(s, w);
      WithCall(s, s.workers[w].call,
               c.(stage := BodyDone(w, o), runs := c.runs + 1, closes := if c.waits then c.closes + 1 else c.closes))
    case TellGateRan(w) =>
      var c := TaskOf(s, w);
      WithWorker(
        WithCall(s, s.workers[w].call,
                 c.(stage := Ran(c.stage.outcome), dones := c.dones + [c.stage.outcome == Returned(true)])),
        w, Ready)
    case Wake(c) =>
      WithCall(s, c, s.calls[c].(reply := Some(if s.calls[c].wasDropped then WasShed else Nil)))
    case Close =>
      s.(sh := s.sh.(closed := true),
          workers := seq(|s.workers|, i requires 0 <= i < |s.workers| => Roused(s.workers[i])))
    case StopReturns => s.(stopReturned := true)
  }

  function WithCall(s: System, c: nat, call: Call): System
    requires c < |s.calls|
  {
    s.(calls := s.calls[c := call])
  }

  function WithWorker(s: System, w: nat, worker: Worker): System
    requires w < |s.workers|
  {
    s.(workers := s.workers[w := worker])
  }

  function Roused(w: Worker): Worker { if w == Asleep then Ready else w }

  function ApplyArrive(s: System, waits: bool, ok: bool): System {
    if ok then
      s.(calls := s.calls + [Call(waits, Admitted, [], 0, 0, false, None)])
    else
      s.(calls := s.calls + [Call(waits, Refused, [], 0, 0, false, Some(Overloaded))],
         sh := s.sh.(rejected := s.sh.rejected + 1))
  }

  /** The gate is told false inside the section when the call is turned away; otherwise the
      condition variable is signalled, which rouses one sleeper if there is any. */
  function ApplyEnter(cfg: Config, s: System, c: nat, now: int, wake: nat): System
    requires Usable(cfg) && Enabled(cfg, s, Enter(c, now, wake))
  {
    var (sh, reply) := SubmitSection(cfg, s.sh, c, now);
    var call := s.calls[c];
    if reply != Nil then
      WithCall(s, c, call.(stage := TurnedAway, dones := call.dones + [false], reply := Some(reply)))
        .(sh := sh)
    else
      s.(sh := sh, clock := now,
         calls := s.calls[c := call.(stage := Queued, reply := if call.waits then None else Some(Nil))],
         workers := if SomeAsleep(s) then s.workers[wake := Ready] else s.workers,
         acceptedLog := s.acceptedLog + [sh.buf[|sh.buf| - 1]])
  }

  function ApplyTake(cfg: Config, s: System, w: nat, now: int): System
    requires Usable(cfg) && Enabled(cfg, s, Take(w, now))
  {
    var (sh, taken) := WorkerSection(cfg, s.sh, now);
    match taken
    case Sleep => s.(workers := s.workers[w := Asleep])
    case Exit => s.(workers := s.workers[w := Exited])
    case Drop(it) =>
      Dequeued(s, sh, w, now, it, Dropping(w)).(droppedLog := s.droppedLog + [it])
    case Serve(it) =>
      Dequeued(s, sh, w, now, it, Running(w)).(servedLog := s.servedLog + [it])
  }

  function Dequeued(s: System, sh: Shared, w: nat, now: int, it: Item, stage: Stage): System
    requires w < |s.workers| && s.sh.buf != []
  {
    s.(sh := sh, clock := now, workers := s.workers[w := Busy(it.call)],
       calls := if it.call < |s.calls| then s.calls[it.call := s.calls[it.call].(stage := stage)] else s.calls,
       evals := s.evals + [Law.Eval(s.sh.buf[0].enq, now)], outLog := s.outLog + [it])
  }

  // ---------------------------------------------------------------------------------
  // Runs

  /** The state a schedule leads to, or None when some action of it was not enabled. */
  ghost function ExecuteFrom(cfg: Config, s: System, acts: seq<Action>): Option<System>
    requires Usable(cfg)
  {
    if acts == [] then Some(s)
    else
      match ExecuteFrom(cfg, s, acts[..|acts| - 1])
      case None => None
      case Some(r) => if Enabled(cfg, r, acts[|acts| - 1]) then Some(Apply(cfg, r, acts[|acts| - 1])) else None
  }

  ghost function Execute(cfg: Config, acts: seq<Action>): Option<System>
    requires Usable(cfg)
  {
    ExecuteFrom(cfg, Init(cfg), acts)
  }
}
