/**
 The states that runs of the dispatch protocol reach, one step after the other:
 what an uninterrupted piece of code does is a path of the protocol.
 */
module DispatchRuns {
  import opened Text
  import opened Jobs
  import opened Scheduling
  import opened JobTable
  import opened Dispatch
  import opened DispatchProperties

  /** Some run with genuine agents leads here from the empty start. */
  ghost predicate Reached(s: State) {
    exists states: seq<State>, events: seq<Event> :: AgentRun(states, events) && states[|events|] == s
  }

  lemma StartReached()
    ensures Reached(INIT)
  {
    var events: seq<Event> := [];
    assert AgentRun([INIT], events) && [INIT][|events|] == INIT;
  }

  lemma Extend(s: State, e: Event)
    requires Reached(s) && FromAgents(e) && Enabled(s, e)
    ensures Reached(Effect(s, e))
  {
    var states: seq<State>, events: seq<Event> :| AgentRun(states, events) && states[|events|] == s;
    var t := Effect(s, e);
    ExtendRun(states, events, s, e, t);
  }

  lemma ExtendRun(states: seq<State>, events: seq<Event>, s: State, e: Event, t: State)
    requires AgentRun(states, events) && states[|events|] == s && FromAgents(e) && t == Step(s, e)
    ensures Reached(t)
  {
    var longer, more := states + [t], events + [e];
    forall i {:trigger more[i]} | 0 <= i < |more| ensures longer[i + 1] == Step(longer[i], more[i]) {
      if i < |events| {
        assert events[i] == more[i];
      }
    }
    assert AgentRun(longer, more) && longer[|more|] == t;
  }

  lemma ReachedInv(s: State)
    requires Reached(s)
    ensures Inv(s) && (Quiet(s) ==> s.slots.Keys == ActiveIds(s.rows))
  {
    var states: seq<State>, events: seq<Event> :| AgentRun(states, events) && states[|events|] == s;
    RunKeepsInv(states, events, |events|);
    if Quiet(s) {
      QuietSlots(s);
    }
  }

  // ----- requests -----

  lemma Submitted(s: State, id: JobId, row: Row)
    requires Reached(s) && id !in s.rows && row.status.Queued? && row.startedAt.None?
    ensures Reached(s.(rows := s.rows[id := row]))
  {
    Extend(s, Submit(id, row.node, row.quota, row.createdAt, row.retry));
  }

  lemma NodeKnown(s: State, node: NodeId, info: NodeInfo)
    requires Reached(s) && info.gpuCount <= U32_MAX
    ensures Reached(s.(registry := s.registry[node := info]))
  {
    Extend(s, NodeChanged(node, info));
  }

  lemma Reported(s: State, id: JobId, status: JobStatus)
    requires Reached(s) && id in s.rows && CanTransition(s.rows[id].status, status) && AgentReports(status)
    ensures Reached(Recording(s, {id}, status, if IsTerminal(status) then multiset{FreeSlot(id)} else multiset{}))
  {
    Extend(s, Report(id, status));
  }

  lemma Stopped(s: State, id: JobId)
    requires Reached(s) && (InState(s.rows, id, Starting) || InState(s.rows, id, Running))
    ensures Reached(Recording(s, {id}, Stopping, multiset{}))
  {
    Extend(s, MarkStopping(id));
  }

  lemma CancelledActive(s: State, id: JobId)
    requires Reached(s) && id in s.rows && IsActive(s.rows[id].status)
    ensures Reached(Recording(s, {id}, Stopping, multiset{}))
  {
    Extend(s, RpcCancel(id));
  }

  lemma CancelledQueued(s: State, id: JobId)
    requires Reached(s) && InState(s.rows, id, Queued)
    ensures Reached(Recording(s, {id}, Cancelled, multiset{Unqueue(id), FreeSlot(id)}))
  {
    Extend(s, CancelQueued(id));
  }

  lemma SlotFreed(s: State, id: JobId)
    requires Reached(s) && FreeSlot(id) in s.tasks
    ensures Reached(Freeing(TaskDone(s, FreeSlot(id)), id))
  {
    Extend(s, RunTask(FreeSlot(id)));
  }

  lemma Unqueued(s: State, id: JobId)
    requires Reached(s) && Unqueue(id) in s.tasks && !LocksQueue(s.cycle)
    ensures Reached(Unqueueing(TaskDone(s, Unqueue(id)), id))
  {
    Extend(s, RunTask(Unqueue(id)));
  }

  lemma LostOnNodes(s: State, dead: set<NodeId>)
    requires Reached(s)
    ensures Reached(Recording(s, ActiveOn(s.rows, dead), Lost, FreeSlots(ActiveOn(s.rows, dead))))
  {
    Extend(s, LoseOnNodes(dead));
  }

  lemma LostRunningOn(s: State, dead: set<NodeId>)
    requires Reached(s)
    ensures Reached(Recording(s, RunningOn(s.rows, dead), Lost, FreeSlots(RunningOn(s.rows, dead))))
  {
    Extend(s, LoseRunningOn(dead));
  }

  lemma LostStopping(s: State, cutoff: int)
    requires Reached(s)
    ensures Reached(Recording(s, StaleStopping(s.rows, cutoff), Lost, FreeSlots(StaleStopping(s.rows, cutoff))))
  {
    Extend(s, LoseStopping(cutoff));
  }

  lemma Restarted(s: State)
    requires Reached(s)
    ensures Reached(State(s.rows, [], ActiveSlots(s.rows), map[], map[], {}, Idle, multiset{}))
  {
    Extend(s, Restart);
  }

  // ----- the cycle -----

  lemma CycleBegun(s: State)
    requires Reached(s) && s.cycle.Idle?
    ensures Reached(Refreshing(s))
  {
    Extend(s, BeginCycle);
  }

  lemma StaleReset(s: State, cutoff: int)
    requires Reached(s) && s.cycle.Refreshed?
    ensures Reached(Requeueing(s, StaleStarting(s.rows, cutoff, OnlineNodes(s.registry))))
  {
    Extend(s, ResetStale(cutoff));
  }

  lemma RequeuedDropped(s: State, id: JobId)
    requires Reached(s) && s.cycle.Dropping? && id in s.cycle.drops
    ensures Reached(Freeing(s.(cycle := Dropping(s.cycle.drops - {id})), id))
  {
    Extend(s, DropRequeued(id));
  }

  lemma RowsLoaded(s: State, order: seq<JobId>)
    requires Reached(s) && s.cycle.Dropping? && s.cycle.drops == {} && ListsQueue(order, s.rows)
    requires forall id | id in order :: id in s.rows
    ensures Reached(s.(cycle := Loading({}, JobsOf(order, s.rows))))
  {
    Extend(s, LoadRows(order));
  }

  lemma NothingLoaded(s: State)
    requires Reached(s) && s.cycle.Dropping? && s.cycle.drops == {}
    ensures Reached(s.(cycle := Loading({}, [])))
  {
    Extend(s, LoadFailed);
  }

  lemma NextEnqueued(s: State, j: Job, rest: seq<Job>)
    requires Reached(s) && s.cycle.Loading? && s.cycle.rows == [j] + rest
    ensures Reached(Enqueueing(s, j, rest))
  {
    Extend(s, EnqueueNext);
    assert s.cycle.rows[0] == j && s.cycle.rows[1..] == rest;
  }

  lemma ScheduleBegun(s: State)
    requires Reached(s) && s.cycle.Loading? && s.cycle.rows == []
    ensures Reached(s.(queue := [], cycle := Placing(s.queue, [], [])))
  {
    Extend(s, BeginSchedule);
  }

  lemma NextChecked(s: State, j: Job, rest: seq<Job>)
    requires Reached(s) && s.cycle.Placing? && s.cycle.todo == [j] + rest
    ensures Reached(Checking(s, j, rest, NodeFor(j, s.slots, s.capacity)))
  {
    Extend(s, CheckNext);
    assert s.cycle.todo[0] == j && s.cycle.todo[1..] == rest;
  }

  lemma SlotInserted(s: State)
    requires Reached(s) && s.cycle.Chosen?
    ensures Reached(Inserting(s, Placed(s.cycle.job, s.cycle.node)))
  {
    Extend(s, InsertSlot);
  }

  lemma ScheduleEnded(s: State)
    requires Reached(s) && s.cycle.Placing? && s.cycle.todo == []
    ensures Reached(s.(queue := s.cycle.remaining, cycle := Assigning(s.cycle.scheduled)))
  {
    Extend(s, EndSchedule);
  }

  lemma NextAssigned(s: State, j: Job, rest: seq<Job>, reached: bool, now: int)
    requires Reached(s) && s.cycle.Assigning? && s.cycle.assigns == [j] + rest
    ensures Reached(AssigningNext(s, j, rest, reached, now))
  {
    Extend(s, Assign(reached, now));
    assert s.cycle.assigns[0] == j && s.cycle.assigns[1..] == rest;
  }

  lemma SlotReleased(s: State)
    requires Reached(s) && s.cycle.Releasing?
    ensures Reached(Freeing(s.(cycle := Assigning(s.cycle.assigns)), s.cycle.id))
  {
    Extend(s, ReleaseSlot);
  }

  lemma CycleEnded(s: State)
    requires Reached(s) && s.cycle.Assigning? && s.cycle.assigns == []
    ensures Reached(s.(cycle := Idle))
  {
    Extend(s, EndCycle);
  }

  // ----- a pass without interruption -----

  /** The protocol's state while a pass is at `p`. */
  ghost function AtPass(s: State, p: Pass, rest: seq<Job>): State {
    s.(slots := p.slots, cycle := Placing(rest, p.remaining, p.scheduled))
  }

  lemma OnePlaced(s: State, p: Pass, j: Job, rest: seq<Job>, choice: Option<NodeId>)
    requires Reached(AtPass(s, p, [j] + rest)) && choice == NodeFor(j, p.slots, s.capacity)
    ensures Reached(AtPass(s, Decide(p, j, choice), rest))
  {
    var a := AtPass(s, p, [j] + rest);
    NextChecked(a, j, rest);
    var b := Checking(a, j, rest, choice);
    if choice.Some? {
      SlotInserted(b);
      assert Inserting(b, Placed(j, choice.value)) == AtPass(s, Decide(p, j, choice), rest);
    } else {
      assert b == AtPass(s, Decide(p, j, choice), rest);
    }
  }

  /** The protocol's checks and inserts, uninterrupted, are the functional pass. */
  lemma {:induction false} PassReached(s: State, queue: seq<Job>, n: nat)
    requires Reached(AtPass(s, Pass([], [], s.slots), queue)) && n <= |queue|
    ensures Reached(AtPass(s, Schedule(queue, n, s.slots, s.capacity), queue[n..]))
    decreases n
  {
    if n > 0 {
      PassReached(s, queue, n - 1);
      var p := Schedule(queue, n - 1, s.slots, s.capacity);
      assert queue[n - 1..] == [queue[n - 1]] + queue[n..];
      OnePlaced(s, p, queue[n - 1], queue[n..], NodeFor(queue[n - 1], p.slots, s.capacity));
    }
  }

  lemma WholePass(s: State)
    requires Reached(s) && s.cycle.Loading? && s.cycle.rows == []
    ensures var p := Schedule(s.queue, |s.queue|, s.slots, s.capacity);
            Reached(s.(queue := p.remaining, slots := p.slots, cycle := Assigning(p.scheduled)))
  {
    ScheduleBegun(s);
    var t := s.(queue := [], cycle := Placing(s.queue, [], []));
    assert t == AtPass(t, Pass([], [], t.slots), s.queue);
    PassReached(t, s.queue, |s.queue|);
    var p := Schedule(s.queue, |s.queue|, s.slots, s.capacity);
    assert s.queue[|s.queue|..] == [];
    ScheduleEnded(AtPass(t, p, []));
    assert AtPass(t, p, []).(queue := p.remaining, cycle := Assigning(p.scheduled))
        == s.(queue := p.remaining, slots := p.slots, cycle := Assigning(p.scheduled));
  }
}
