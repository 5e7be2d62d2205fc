/**
 The lock programs of the agent's job runtime
 (crates/agent/src/job_executor.rs: running, pids, cancelled), of the scheduler
 (crates/scheduler/src/lib.rs: queue, slots, capacity) and of the WebSocket
 manager (crates/server/src/ws_handler.rs: clients, address counts).
 */
module LockPrograms {
  import opened LockOrder

  const RUNNING := 0
  const PIDS := 1
  const CANCELLED := 2

  /** What an agent's tasks do with the runtime's locks. */
  datatype AgentCall =
    | TryClaim | ReleaseClaim        // running
    | TouchPids                      // look up, insert or remove a pid; escalate
    | IsCancelled | DropMark         // cancelled
    | Cancel                         // request_cancel and force_cancel
    | Prune

  const QUEUE := 0
  const SLOTS := 1
  const CAPACITY := 2

  datatype SchedulerCall =
    | RemoveQueued
    | TouchSlots                     // complete, drop, remove, restore, list
    | Enqueue
    | Schedule(found: seq<bool>)     // per queued job: was a node found
    | SetCapacity
    | FindNode
    | GetAvailable

  const CLIENTS := 0
  const IP_COUNTS := 1

  datatype WsCall =
    | Touch                          // both maps
    | ClientsOnly                    // a client without address, len, broadcast, subscribe
    | IpConnCount

  function Single(l: nat): Program {
    [Acquire(l), Release(l)]
  }

  function AgentProgram(c: AgentCall): Program {
    match c
    case TryClaim => Single(RUNNING)
    case ReleaseClaim => Single(RUNNING)
    case TouchPids => Single(PIDS)
    case IsCancelled => Single(CANCELLED)
    case DropMark => Single(CANCELLED)
    case Cancel => [Acquire(PIDS), Acquire(CANCELLED), Release(CANCELLED), Release(PIDS)]
    case Prune =>
      [Acquire(RUNNING), Acquire(PIDS), Acquire(CANCELLED), Release(CANCELLED), Release(PIDS), Release(RUNNING)]
  }

  const FIND_NODE: Program := [Acquire(SLOTS), Acquire(CAPACITY), Release(CAPACITY), Release(SLOTS)]

  /** The body of the scheduling loop, for the first `n` jobs. */
  function Iterations(found: seq<bool>, n: nat): Program
    requires n <= |found|
  {
    if n == 0 then []
    else Iterations(found, n - 1) + (FIND_NODE + if found[n - 1] then Single(SLOTS) else [])
  }

  function SchedulerProgram(c: SchedulerCall): Program {
    match c
    case RemoveQueued => Single(QUEUE)
    case TouchSlots => Single(SLOTS)
    case Enqueue => [Acquire(QUEUE), Acquire(SLOTS), Release(SLOTS), Release(QUEUE)]
    case Schedule(found) => [Acquire(QUEUE)] + Iterations(found, |found|) + [Release(QUEUE)]
    case SetCapacity => Single(CAPACITY)
    case FindNode => FIND_NODE
    case GetAvailable => Single(CAPACITY) + Single(SLOTS)
  }

  function WsProgram(c: WsCall): Program {
    match c
    case Touch => [Acquire(CLIENTS), Acquire(IP_COUNTS), Release(IP_COUNTS), Release(CLIENTS)]
    case ClientsOnly => Single(CLIENTS)
    case IpConnCount => Single(IP_COUNTS)
  }

  /** A task: one call after the other, as many as it likes. */
  function Task<C>(calls: seq<C>, program: C -> Program, n: nat): Program
    requires n <= |calls|
  {
    if n == 0 then [] else Task(calls, program, n - 1) + program(calls[n - 1])
  }

  predicate LocksBelow(p: Program, rank: nat) {
    forall i | 0 <= i < |p| :: p[i].lock < rank
  }

  predicate Proper(p: Program) {
    Orderly({}, p) && LocksBelow(p, 3)
  }

  lemma ProperThen(p: Program, q: Program)
    requires Proper(p) && Proper(q)
    ensures Proper(p + q)
  {
    OrderlyThen({}, p, q);
  }

  lemma {:induction false} TaskProper<C>(calls: seq<C>, program: C -> Program, n: nat)
    requires n <= |calls| && forall i | 0 <= i < |calls| :: Proper(program(calls[i]))
    ensures Proper(Task(calls, program, n))
  {
    if n == 0 {
      OrderlyEmpty({});
    } else {
      TaskProper(calls, program, n - 1);
      ProperThen(Task(calls, program, n - 1), program(calls[n - 1]));
    }
  }

  lemma SingleOrderly(base: set<nat>, l: nat)
    requires forall h | h in base :: h < l
    ensures Orderly(base, Single(l))
  {
    OrderlyEmpty(base + {l});
    OrderlyInside(base, l, []);
    assert [Acquire(l)] + [] + [Release(l)] == Single(l);
  }

  lemma PairOrderly(base: set<nat>, l: nat, m: nat)
    requires (forall h | h in base :: h < l) && l < m
    ensures Orderly(base, [Acquire(l), Acquire(m), Release(m), Release(l)])
  {
    SingleOrderly(base + {l}, m);
    OrderlyInside(base, l, Single(m));
    assert [Acquire(l)] + Single(m) + [Release(l)] == [Acquire(l), Acquire(m), Release(m), Release(l)];
  }

  lemma AgentProper(c: AgentCall)
    ensures Proper(AgentProgram(c))
  {
    match c {
      case TryClaim => SingleOrderly({}, RUNNING);
      case ReleaseClaim => SingleOrderly({}, RUNNING);
      case TouchPids => SingleOrderly({}, PIDS);
      case IsCancelled => SingleOrderly({}, CANCELLED);
      case DropMark => SingleOrderly({}, CANCELLED);
      case Cancel => PairOrderly({}, PIDS, CANCELLED);
      case Prune =>
        PairOrderly({} + {RUNNING}, PIDS, CANCELLED);
        OrderlyInside({}, RUNNING, AgentProgram(Cancel));
        assert [Acquire(RUNNING)] + AgentProgram(Cancel) + [Release(RUNNING)] == AgentProgram(Prune);
    }
  }

  lemma {:induction false} IterationsOrderly(found: seq<bool>, n: nat)
    requires n <= |found|
    ensures Orderly({QUEUE}, Iterations(found, n))
  {
    if n == 0 {
      OrderlyEmpty({QUEUE});
    } else {
      IterationsOrderly(found, n - 1);
      PairOrderly({QUEUE}, SLOTS, CAPACITY);
      SingleOrderly({QUEUE}, SLOTS);
      OrderlyEmpty({QUEUE});
      var tail := if found[n - 1] then Single(SLOTS) else [];
      OrderlyThen({QUEUE}, FIND_NODE, tail);
      OrderlyThen({QUEUE}, Iterations(found, n - 1), FIND_NODE + tail);
    }
  }

  lemma SchedulerProper(c: SchedulerCall)
    ensures Proper(SchedulerProgram(c))
  {
    match c {
      case RemoveQueued => SingleOrderly({}, QUEUE);
      case TouchSlots => SingleOrderly({}, SLOTS);
      case Enqueue => PairOrderly({}, QUEUE, SLOTS);
      case Schedule(found) =>
        IterationsOrderly(found, |found|);
        assert {} + {QUEUE} == {QUEUE};
        OrderlyInside({}, QUEUE, Iterations(found, |found|));
        IterationLocks(found, |found|);
      case SetCapacity => SingleOrderly({}, CAPACITY);
      case FindNode => PairOrderly({}, SLOTS, CAPACITY);
      case GetAvailable =>
        SingleOrderly({}, CAPACITY);
        SingleOrderly({}, SLOTS);
        OrderlyThen({}, Single(CAPACITY), Single(SLOTS));
    }
  }

  lemma WsProper(c: WsCall)
    ensures Proper(WsProgram(c))
  {
    match c {
      case Touch => PairOrderly({}, CLIENTS, IP_COUNTS);
      case ClientsOnly => SingleOrderly({}, CLIENTS);
      case IpConnCount => SingleOrderly({}, IP_COUNTS);
    }
  }

  lemma {:induction false} IterationLocks(found: seq<bool>, n: nat)
    requires n <= |found|
    ensures LocksBelow(Iterations(found, n), 3)
  {
    if n > 0 {
      IterationLocks(found, n - 1);
    }
  }

  /** The programs are tasks of one component, any number of them. */
  ghost predicate TasksOf<C(!new)>(programs: seq<Program>, program: C -> Program) {
    forall t | 0 <= t < |programs| :: IsTask(programs[t], program)
  }

  ghost predicate IsTask<C(!new)>(p: Program, program: C -> Program) {
    exists calls: seq<C> :: p == Task(calls, program, |calls|)
  }

  lemma ComponentProper<C(!new)>(programs: seq<Program>, program: C -> Program)
    requires TasksOf(programs, program) && forall c :: Proper(program(c))
    ensures AllOrderly(programs) && Below(programs, 3)
  {
    forall t | 0 <= t < |programs| ensures Proper(programs[t]) {
      assert IsTask(programs[t], program);
      var calls: seq<C> :| programs[t] == Task(calls, program, |calls|);
      TaskProper(calls, program, |calls|);
    }
  }

  /** The tasks of the agent's runtime, of the scheduler, or of the WebSocket
      manager. */
  ghost predicate OneComponent(programs: seq<Program>) {
    TasksOf(programs, AgentProgram) || TasksOf(programs, SchedulerProgram) || TasksOf(programs, WsProgram)
  }

  lemma OneComponentProper(programs: seq<Program>)
    requires OneComponent(programs)
    ensures AllOrderly(programs) && Below(programs, 3)
  {
    if TasksOf(programs, AgentProgram) {
      forall c ensures Proper(AgentProgram(c)) {
        AgentProper(c);
      }
      ComponentProper(programs, AgentProgram);
    } else if TasksOf(programs, SchedulerProgram) {
      forall c ensures Proper(SchedulerProgram(c)) {
        SchedulerProper(c);
      }
      ComponentProper(programs, SchedulerProgram);
    } else {
      forall c ensures Proper(WsProgram(c)) {
        WsProper(c);
      }
      ComponentProper(programs, WsProgram);
    }
  }

  /** No component ever reaches a cyclic wait: in every reachable state with an
      unfinished task some task can step. */
  lemma NoDeadlock(programs: seq<Program>, states: seq<State>, steps: seq<nat>, n: nat, t: nat) returns (u: nat)
    requires OneComponent(programs) && IsRun(programs, states, steps) && n <= |steps|
    requires Unfinished(programs, states[n], t)
    ensures CanStep(programs, states[n], u)
  {
    OneComponentProper(programs);
    u := NeverStuck(programs, states, steps, n, t, 3);
  }

  /** And every run ends, with every task finished. */
  lemma AllFinish(programs: seq<Program>, states: seq<State>, steps: seq<nat>)
    requires OneComponent(programs) && IsRun(programs, states, steps)
    ensures |steps| <= Sum(Lengths(programs), |programs|)
    ensures (forall u: nat :: !CanStep(programs, states[|steps|], u)) ==>
              forall t: nat :: !Unfinished(programs, states[|steps|], t)
  {
    OneComponentProper(programs);
    EveryTaskFinishes(programs, states, steps, 3);
  }
}
