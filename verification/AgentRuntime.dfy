/**
 The agent's job runtime (crates/agent/src/job_executor.rs, JobRuntime): the
 claims, the process groups and the cancel marks, updated under their locks. The
 object is the memory of the agent protocol, and each method takes it through one
 step of the protocol.
 */
module AgentRuntime {
  import opened Text
  import opened Scheduling
  import opened AgentProtocol

  /** The leader of a job's process group; pid 0 while the spawn is in flight. */
  datatype Leader = Leader(pid: int, starttime: nat)

  datatype Signal = NoSignal | Terminate(group: int) | Kill(group: int)

  /** The recorded pid now belongs to another process. `actual` is the start
      time the system reports for it, if it is alive. */
  predicate Recycled(leader: Leader, actual: Option<nat>) {
    actual.Some? && leader.starttime > 0 && actual.value != leader.starttime
  }

  /** A process group that is registered, is not the agent's own group 0, and is
      not known to belong to somebody else: nobody is alive at that pid, or the
      start time was never recorded, or it is the one recorded. */
  predicate Signallable(pids: map<JobId, Leader>, id: JobId, actual: Option<nat>) {
    && id in pids && pids[id].pid > 0
    && (actual.None? || pids[id].starttime == 0 || actual.value == pids[id].starttime)
  }

  class JobRuntime {
    var pids: map<JobId, Leader>
    var cancelled: set<JobId>
    var running: set<JobId>
    ghost var agent: Agent

    /** The three collections are what the protocol remembers. */
    ghost predicate Valid()
      reads this
    {
      && running == agent.mem.running.Keys && pids.Keys == agent.mem.pids.Keys
      && cancelled == agent.mem.cancelled
    }

    constructor ()
      ensures Valid() && agent == INIT
    {
      pids, cancelled, running := map[], {}, {};
      agent := INIT;
    }

    /** The answer decides whether the task goes on; a refused one is over. */
    method TryClaim(id: JobId, ghost k: nat) returns (claimed: bool)
      requires Valid() && At(agent, k, Delivered) && agent.tasks[k].job == id
      modifies this`running, this`agent
      ensures Valid() && agent == AfterClaim(old(agent), k)
      ensures claimed <==> At(agent, k, Claimed)
      ensures !claimed ==> k !in agent.tasks && running == old(running)
    {
      agent := AfterClaim(agent, k);
      claimed := id !in running;
      running := running + {id};
    }

    method Release(id: JobId, ghost k: nat)
      requires Valid() && At(agent, k, Leaving) && agent.tasks[k].job == id
      modifies this`running, this`agent
      ensures Valid() && agent == AfterRelease(old(agent), k)
    {
      agent := AfterRelease(agent, k);
      running := running - {id};
    }

    /** The poll loop's look at the pids, and the placeholder it then inserts. */
    method Reserve(id: JobId, ghost k: nat)
      requires Valid() && agent.mem.poll.Some? && agent.mem.poll.value.job == id && k !in agent.tasks
      modifies this`pids, this`agent
      ensures Valid() && agent == AfterDeliver(old(agent), k, old(agent).mem.poll.value)
      ensures forall actual :: !Signallable(pids, id, actual)
    {
      agent := AfterDeliver(agent, k, agent.mem.poll.value);
      pids := pids[id := Leader(0, 0)];
    }

    /** A process that can be signalled takes the placeholder's place. */
    method Register(id: JobId, leader: Leader, ghost k: nat)
      requires Valid() && At(agent, k, Spawned) && agent.tasks[k].job == id
      modifies this`pids, this`agent
      ensures Valid() && agent == Effect(old(agent), AgentProtocol.Register(k))
      ensures pids[id] == leader && forall j | j in old(pids) && j != id :: j in pids && pids[j] == old(pids)[j]
    {
      agent := Effect(agent, AgentProtocol.Register(k));
      pids := pids[id := leader];
    }

    method Forget(id: JobId, ghost k: nat, ghost exit: Exit)
      requires Valid() && At(agent, k, Active) && agent.tasks[k].job == id
      modifies this`pids, this`agent
      ensures Valid() && agent == Effect(old(agent), ProcessExit(k, exit))
    {
      agent := Effect(agent, ProcessExit(k, exit));
      pids := pids - {id};
    }

    /** Ask a job to stop. The mark is always left, so that a job on its way to
        its spawn still sees it; the signal goes to a group of ours, and only on
        the request that leaves the mark. The answer is false when nobody will
        report the cancellation but the caller. */
    method RequestCancel(id: JobId, actual: Option<nat>) returns (known: bool, signal: Signal)
      requires Valid()
      modifies this`cancelled, this`agent
      ensures Valid() && agent == AfterHousekeeping(old(agent), CancelRequest(id))
      ensures id in cancelled
      ensures known <==> agent.mem.cancels == old(agent).mem.cancels
      ensures signal == if id !in old(cancelled) && Signallable(pids, id, actual)
                        then Terminate(pids[id].pid) else NoSignal
    {
      agent := AfterHousekeeping(agent, CancelRequest(id));
      if id in cancelled {
        return id in pids, NoSignal;
      }
      cancelled := cancelled + {id};
      if id !in pids {
        return false, NoSignal;
      }
      if Recycled(pids[id], actual) || pids[id].pid <= 0 {
        return true, NoSignal;
      }
      return true, Terminate(pids[id].pid);
    }

    /** Five seconds after a termination signal: kill what is still there. */
    method Escalate(id: JobId, actual: Option<nat>) returns (signal: Signal)
      ensures signal == if Signallable(pids, id, actual) then Kill(pids[id].pid) else NoSignal
    {
      if id !in pids || Recycled(pids[id], actual) || pids[id].pid <= 0 {
        return NoSignal;
      }
      return Kill(pids[id].pid);
    }

    /** A forced cancel kills at once, and again on every repetition. */
    method ForceCancel(id: JobId, actual: Option<nat>) returns (known: bool, signal: Signal)
      requires Valid()
      modifies this`cancelled, this`agent
      ensures Valid() && agent == AfterHousekeeping(old(agent), CancelRequest(id))
      ensures id in cancelled
      ensures known <==> agent.mem.cancels == old(agent).mem.cancels
      ensures signal == if Signallable(pids, id, actual) then Kill(pids[id].pid) else NoSignal
    {
      agent := AfterHousekeeping(agent, CancelRequest(id));
      cancelled := cancelled + {id};
      if id in pids && pids[id].pid > 0 {
        if Recycled(pids[id], actual) {
          return true, NoSignal;
        }
        return true, Kill(pids[id].pid);
      }
      return id in pids, NoSignal;
    }

    /** A mark that nobody else will look at goes with the report of the caller. */
    method DropMark(id: JobId)
      requires Valid() && id in agent.mem.cancels
      modifies this`cancelled, this`agent
      ensures Valid() && agent == AfterHousekeeping(old(agent), CancelUnmark(id))
      ensures forall k :: k in cancelled <==> k in old(cancelled) && k != id
      ensures agent.mem.cancels == old(agent).mem.cancels - multiset{id}
    {
      agent := AfterHousekeeping(agent, CancelUnmark(id));
      cancelled := cancelled - {id};
    }

    method IsCancelled(id: JobId) returns (marked: bool)
      requires Valid()
      ensures marked <==> id in agent.mem.cancelled
    {
      marked := id in cancelled;
    }

    /** Drop the marks nobody will look at again, and only those. */
    method Prune()
      requires Valid()
      modifies this`cancelled, this`agent
      ensures Valid() && agent == AfterHousekeeping(old(agent), PruneMarks)
      ensures forall id :: id in cancelled <==> id in old(cancelled) && (id in running || id in pids)
    {
      agent := AfterHousekeeping(agent, PruneMarks);
      cancelled := set id | id in cancelled && (id in running || id in pids);
    }
  }

  // ----- how long a mark stays -----

  /** The step takes the job's mark away: a prune only when the job has neither a
      claim nor a pid entry. */
  predicate Unmarks(a: Agent, e: Event, job: JobId) {
    || (e.PruneMarks? && job !in a.mem.running && job !in a.mem.pids)
    || e.AgentRestart?
    || (e.CancelUnmark? && e.job == job)
  }

  lemma MarkStep(a: Agent, e: Event, job: JobId)
    requires job in a.mem.cancelled && !Unmarks(a, e, job)
    ensures job in Step(a, e).mem.cancelled
  {
    if Enabled(a, e) {
      if Housekeeping(e) {
        MarkHousekeeping(a, e, job);
      } else if Opening(e) {
        MarkOpening(a, e);
      }
    }
  }

  lemma MarkOpening(a: Agent, e: Event)
    requires Enabled(a, e) && Opening(e)
    ensures Effect(a, e).mem.cancelled == a.mem.cancelled
  {
  }

  lemma MarkHousekeeping(a: Agent, e: Event, job: JobId)
    requires job in a.mem.cancelled && Enabled(a, e) && Housekeeping(e) && !Unmarks(a, e, job)
    ensures job in AfterHousekeeping(a, e).mem.cancelled
  {
  }

  /** The job was asked to cancel at step `i`, and its mark not taken away since. */
  ghost predicate MarkedSince(states: seq<Agent>, events: seq<Event>, i: nat, n: nat, job: JobId) {
    && |states| == |events| + 1 && i < n <= |events| && events[i] == CancelRequest(job)
    && forall m {:trigger events[m]} | i < m < n :: !Unmarks(states[m], events[m], job)
  }

  lemma MarkedSinceBefore(states: seq<Agent>, events: seq<Event>, i: nat, n: nat, job: JobId)
    requires MarkedSince(states, events, i, n + 1, job) && i < n
    ensures MarkedSince(states, events, i, n, job)
  {
  }

  lemma MarkGoesOn(states: seq<Agent>, events: seq<Event>, i: nat, n: nat, job: JobId)
    requires IsRun(states, events) && MarkedSince(states, events, i, n + 1, job)
    requires i < n ==> job in states[n].mem.cancelled
    ensures job in states[n + 1].mem.cancelled
  {
    if i < n {
      MarkStep(states[n], events[n], job);
    }
  }

  /** A cancel request that comes again finds the mark of the first one, whatever
      happened in between to this job and to others, as long as the mark was not
      taken away: so it sends no second termination signal. */
  lemma {:induction false} RepeatedCancelFindsMark(states: seq<Agent>, events: seq<Event>, i: nat, n: nat, job: JobId)
    requires IsRun(states, events) && MarkedSince(states, events, i, n, job)
    ensures job in states[n].mem.cancelled
    decreases n
  {
    if i < n - 1 {
      MarkedSinceBefore(states, events, i, n - 1, job);
      RepeatedCancelFindsMark(states, events, i, n - 1, job);
    }
    MarkGoesOn(states, events, i, n - 1, job);
  }
}
