/** The bounded worker pool of queue/pool.go: a semaphore channel that counts in-flight tasks
    and a task channel of the same capacity.

    The class holds the two channels, the closed flag and the counters; its methods are the
    single channel and counter operations. A send into the task channel and a receive from
    the semaphore would block, and a send after the close would panic: the transition system
    performs them without asking, and the invariant shows that they always can proceed. */
module WorkerPool {
  import opened Tally

  datatype Config = Config(workers: int, queueCapacity: int, maxWait: int)

  function Normalized(c: Config): (r: Config)
    ensures Usable(r) && r.maxWait == c.maxWait
    ensures Usable(c) ==> r == c
    ensures c.workers < 1 ==> r.workers == 1
    ensures c.workers >= 1 ==> r.workers == c.workers
    ensures c.queueCapacity < 0 ==> r.queueCapacity == 0
    ensures c.queueCapacity >= 0 ==> r.queueCapacity == c.queueCapacity
  {
    c.(workers := if c.workers < 1 then 1 else c.workers,
       queueCapacity := if c.queueCapacity < 0 then 0 else c.queueCapacity)
  }

  predicate Usable(c: Config) {
    c.workers >= 1 && c.queueCapacity >= 0
  }

  /** The capacity of both channels. */
  function Capacity(c: Config): int { c.workers + c.queueCapacity }

  /** tasks holds the calls whose closures are in the task channel, sem the number of tokens
      in the semaphore channel. */
  datatype Shared = Shared(tasks: seq<nat>, sem: int, closed: bool, accepted: nat, rejected: nat)

  function TokenIn(sh: Shared): Shared { sh.(sem := sh.sem + 1) }

  function TokenOut(sh: Shared): Shared { sh.(sem := sh.sem - 1) }

  function SendTask(sh: Shared, call: nat): Shared { sh.(tasks := sh.tasks + [call]) }

  function TakeTask(sh: Shared): Shared
    requires sh.tasks != []
  {
    sh.(tasks := sh.tasks[1..])
  }

  class Pool {
    const cfg: Config
    var tasks: seq<nat>
    var sem: int
    var closed: bool
    var accepted: nat
    var rejected: nat

    ghost function View(): Shared
      reads this
    {
      Shared(tasks, sem, closed, accepted, rejected)
    }

    constructor (config: Config)
      ensures cfg == Normalized(config) && View() == Shared([], 0, false, 0, 0)
    {
      cfg := Normalized(config);
      tasks, sem, closed, accepted, rejected := [], 0, false, 0, 0;
    }

    /** timeUp says that the timer branch of the timed select was taken; its send branch can
        only be taken when there is room. Without a wait the choice is the channel's. */
    method Acquire(timeUp: bool) returns (ok: bool)
      requires cfg.maxWait > 0 && !timeUp ==> sem < Capacity(cfg)
      modifies `sem
      ensures ok == (if cfg.maxWait > 0 then !timeUp else old(sem) < Capacity(cfg))
      ensures View() == if ok then TokenIn(old(View())) else old(View())
    {
      if cfg.maxWait <= 0 {
        if sem < Capacity(cfg) {
          sem := sem + 1;
          return true;
        }
        return false;
      }
      if timeUp {
        return false;
      }
      sem := sem + 1;
      return true;
    }

    method Release()
      requires sem > 0
      modifies `sem
      ensures View() == TokenOut(old(View()))
    {
      sem := sem - 1;
    }

    /** The part of submitWithOutcome under the read lock. Its two channel operations must not
        block. */
    method SubmitLocked(call: nat) returns (stopped: bool)
      requires if closed then sem > 0 else |tasks| < Capacity(cfg)
      modifies `sem, `tasks, `accepted
      ensures stopped == old(closed)
      ensures View() == if stopped then TokenOut(old(View()))
                        else SendTask(old(View()), call).(accepted := old(accepted) + 1)
    {
      if closed {
        sem := sem - 1;
        return true;
      }
      tasks := tasks + [call];
      accepted := accepted + 1;
      return false;
    }

    method Reject()
      modifies `rejected
      ensures View() == old(View()).(rejected := old(rejected) + 1)
    {
      rejected := rejected + 1;
    }

    /** The part of Stop under the write lock; closing the channel twice would panic. */
    method Close()
      requires !closed
      modifies `closed
      ensures View() == old(View()).(closed := true)
    {
      closed := true;
    }

    /** One turn of the range loop: a task, or the end once closed and empty. */
    method Receive() returns (task: Option<nat>)
      requires tasks != [] || closed
      modifies `tasks
      ensures task.None? <==> old(tasks) == []
      ensures task.None? ==> View() == old(View())
      ensures task.Some? ==> task.value == old(tasks)[0] && View() == TakeTask(old(View()))
    {
      if |tasks| == 0 {
        return None;
      }
      task := Some(tasks[0]);
      tasks := tasks[1..];
    }
  }

  // ---------------------------------------------------------------------------------
  // Goroutines

  datatype Worker = Idle | Busy(call: nat) | Exited

  datatype Reply = Nil | Overloaded | Stopped | QueueFull | QueueTimeout

  /** Where the submitting goroutine is. The three Locked stages and Sent hold the read lock. */
  datatype Submitter =
    | Refused       // the gate said no
    | Admitted      // the gate said yes, no slot yet
    | HasSlot       // token taken, read lock not yet
    | LockedOpen    // under the read lock, saw the pool open
    | LockedLate    // under the read lock, saw the pool closed
    | LockedRefunded
    | Sent          // task sent, accepted not yet counted
    | Accepted
    | TurnedAway

  /** Where the task of the call is; once sent it goes its own way. */
  datatype Task = NoTask | Queued | Running(worker: nat) | BodyDone(worker: nat, outcome: Outcome)
                | GateTold(worker: nat, outcome: Outcome) | Finished(outcome: Outcome)

  datatype Call = Call(waits: bool, at: Submitter, task: Task, dones: seq<bool>, runs: nat, closes: nat,
                       reply: Option<Reply>)

  datatype System = System(sh: Shared, workers: seq<Worker>, calls: seq<Call>, stopReturned: bool,
                           sentLog: seq<nat>, receivedLog: seq<nat>)

  datatype Action =
    | Arrive(waits: bool, ok: bool)
    | TakeSlot(call: nat)
    | GiveUp(call: nat)
    | Lock(call: nat)
    | Refund(call: nat)
    | Decline(call: nat)
    | Send(call: nat)
    | Count(call: nat)
    | Wake(call: nat)
    | Receive(worker: nat)
    | Quit(worker: nat)
    | EndBody(worker: nat, outcome: Outcome)
    | TellGate(worker: nat)
    | Release(worker: nat)
    | Close
    | StopReturns

  function Init(cfg: Config): System
    requires Usable(cfg)
  {
    System(Shared([], 0, false, 0, 0), seq(cfg.workers, _ => Idle), [], false, [], [])
  }

  predicate HoldsReadLock(c: Call) {
    c.at in {LockedOpen, LockedLate, LockedRefunded, Sent}
  }

  predicate At(s: System, c: nat, at: Submitter) {
    c < |s.calls| && s.calls[c].at == at
  }

  predicate HasTask(s: System, w: nat) {
    w < |s.workers| && s.workers[w].Busy? && s.workers[w].call < |s.calls|
  }

  function TaskOf(s: System, w: nat): Call
    requires HasTask(s, w)
  {
    s.calls[s.workers[w].call]
  }

  /** Without a wait, acquire gives up only when the semaphore is full; with one, the timer may
      fire at any moment. Stop's write lock needs every read lock released. */
  predicate Enabled(cfg: Config, s: System, a: Action) {
    match a
    case Arrive(_, _) => true
    case TakeSlot(c) => At(s, c, Admitted) && s.sh.sem < Capacity(cfg)
    case GiveUp(c) => At(s, c, Admitted) && (cfg.maxWait > 0 || s.sh.sem >= Capacity(cfg))
    case Lock(c) => At(s, c, HasSlot)
    case Refund(c) => At(s, c, LockedLate)
    case Decline(c) => At(s, c, LockedRefunded)
    case Send(c) => At(s, c, LockedOpen)
    case Count(c) => At(s, c, Sent)
    case Wake(c) => At(s, c, Accepted) && s.calls[c].waits && s.calls[c].reply.None? && s.calls[c].closes > 0
    case Receive(w) => w < |s.workers| && s.workers[w] == Idle && s.sh.tasks != []
    case Quit(w) => w < |s.workers| && s.workers[w] == Idle && s.sh.tasks == [] && s.sh.closed
    case EndBody(w, _) => HasTask(s, w) && TaskOf(s, w).task.Running?
    case TellGate(w) => HasTask(s, w) && TaskOf(s, w).task.BodyDone?
    case Release(w) => HasTask(s, w) && TaskOf(s, w).task.GateTold?
    case Close => !s.sh.closed && forall c :: 0 <= c < |s.calls| ==> !HoldsReadLock(s.calls[c])
    case StopReturns => s.sh.closed && forall w :: 0 <= w < |s.workers| ==> s.workers[w] == Exited
  }

  function WithCall(s: System, c: nat, call: Call): System
    requires c < |s.calls|
  {
    s.(calls := s.calls[c := call])
  }

  function Apply(cfg: Config, s: System, a: Action): System
    requires Enabled(cfg, s, a)
  {
    match a
    case Arrive(waits, ok) =>
      if ok then s.(calls := s.calls + [Call(waits, Admitted, NoTask, [], 0, 0, None)])
      else s.(calls := s.calls + [Call(waits, Refused, NoTask, [], 0, 0, Some(Overloaded))],
              sh := s.sh.(rejected := s.sh.rejected + 1))
    case TakeSlot(c) =>
      WithCall(s, c, s.calls[c].(at := HasSlot)).(sh := TokenIn(s.sh))
    case GiveUp(c) =>
      WithCall(s, c, s.calls[c].(at := TurnedAway, dones := s.calls[c].dones + [false],
                                 reply := Some(if cfg.maxWait > 0 then QueueTimeout else QueueFull)))
        .(sh := s.sh.(rejected := s.sh.rejected + 1))
    case Lock(c) =>
      WithCall(s, c, s.calls[c].(at := if s.sh.closed then LockedLate else LockedOpen))
    case Refund(c) =>
      WithCall(s, c, s.calls[c].(at := LockedRefunded)).(sh := TokenOut(s.sh))
    case Decline(c) =>
      WithCall(s, c, s.calls[c].(at := TurnedAway, dones := s.calls[c].dones + [false], reply := Some(Stopped)))
    case Send(c) =>
      WithCall(s, c, s.calls[c].(at := Sent, task := Queued))
        .(sh := SendTask(s.sh, c), sentLog := s.sentLog + [c])
    case Count(c) =>
      WithCall(s, c, s.calls[c].(at := Accepted, reply := if s.calls[c].waits then None else Some(Nil)))
        .(sh := s.sh.(accepted := s.sh.accepted + 1))
    case Wake(c) =>
      WithCall(s, c, s.calls[c].(reply := Some(Nil)))
    case Receive(w) => ApplyReceive(s, w)
    case Quit(w) =>
      s.(workers := s.workers[w := Exited])
    case EndBody(w, o) =>
      var c := TaskOf(s, w);
      WithCall(s, s.workers[w].call,
               c.(task := BodyDone(w, o), runs := c.runs + 1, closes := if c.waits then c.closes + 1 else c.closes))
    case TellGate(w) =>
      var c := TaskOf(s, w);
      WithCall(s, s.workers[w].call,
               c.(task := GateTold(w, c.task.outcome), dones := c.dones + [c.task.outcome == Returned(true)]))
    case Release(w) =>
      var c := TaskOf(s, w);
      WithCall(s, s.workers[w].call, c.(task := Finished(c.task.outcome)))
        .(sh := TokenOut(s.sh), workers := s.workers[w := Idle])
    case Close => s.(sh := s.sh.(closed := true))
    case StopReturns => s.(stopReturned := true)
  }

  function ApplyReceive(s: System, w: nat): System
    requires w < |s.workers| && s.sh.tasks != []
  {
    var c := s.sh.tasks[0];
    s.(sh := TakeTask(s.sh), workers := s.workers[w := Busy(c)], receivedLog := s.receivedLog + [c],
       calls := if c < |s.calls| then s.calls[c := s.calls[c].(task := Running(w))] else s.calls)
  }

  /** The state a schedule leads to, or None when some action of it was not enabled. */
  ghost function ExecuteFrom(cfg: Config, s: System, acts: seq<Action>): Option<System>
    requires Usable(cfg)
  {
    if acts == [] then Some(s)
    else
      match ExecuteFrom(cfg, s, acts[..|acts| - 1])
      case None => None
      case Some(r) => if Enabled(cfg, r, acts[|acts| - 1]) then Some(Apply(cfg, r, acts[|acts| - 1])) else None
  }

  ghost function Execute(cfg: Config, acts: seq<Action>): Option<System>
    requires Usable(cfg)
  {
    ExecuteFrom(cfg, Init(cfg), acts)
  }
}
