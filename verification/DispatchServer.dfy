/**
 The server's own code over the job table and the scheduler, run without
 interruption: the request handlers, the scheduling cycle and the startup
 rebuild. Each is a path of the dispatch protocol, so everything proved of the
 protocol's runs holds of it.
 Sources: crates/server/src/lib.rs, crates/server/src/grpc.rs,
 crates/server/src/handlers.rs.
 */
module DispatchServer {
  import opened Text
  import opened Jobs
  import opened Scheduling
  import opened JobTable
  import D = Dispatch
  import R = DispatchRuns

  class Server {
    const store: JobStore
    const scheduler: Scheduler
    var registry: map<NodeId, D.NodeInfo>
    ghost var online: set<NodeId>
    ghost var cycle: D.Cycle
    ghost var tasks: multiset<D.Task>

    ghost function State(): D.State
      reads this, store, scheduler
    {
      D.State(store.rows, scheduler.jobQueue, scheduler.runningJobs, scheduler.nodeGpuCapacity,
              registry, online, cycle, tasks)
    }

    /** The state is one that the protocol reaches. */
    ghost predicate Valid()
      reads this, store, scheduler
    {
      R.Reached(State())
    }

    /** Nothing is in progress. */
    ghost predicate Quiet()
      reads this
    {
      cycle.Idle? && tasks == multiset{}
    }

    /** The slots are exactly the active rows, on their nodes. */
    ghost predicate Exact()
      reads this, store, scheduler
    {
      && scheduler.runningJobs.Keys == ActiveIds(store.rows)
      && forall id | id in scheduler.runningJobs :: scheduler.runningJobs[id].node == store.rows[id].node
    }

    lemma QuietIsExact()
      requires Valid() && Quiet()
      ensures Exact()
    {
      R.ReachedInv(State());
    }

    constructor ()
      ensures Valid() && Quiet() && store.rows == map[] && fresh(store) && fresh(scheduler)
    {
      store := new JobStore();
      scheduler := new Scheduler();
      registry, online, cycle, tasks := map[], {}, D.Idle, multiset{};
      new;
      R.StartReached();
    }

    /** The startup rebuild: a server over the rows another one left. */
    constructor Restarted(rows: JobStore, ghost before: D.State)
      requires R.Reached(before) && before.rows == rows.rows
      ensures Valid() && Quiet() && Exact() && store == rows && fresh(scheduler)
    {
      store := rows;
      scheduler := new Scheduler();
      registry, online, cycle, tasks := map[], {}, D.Idle, multiset{};
      new;
      var jobs := rows.ListActiveJobs();
      scheduler.RestoreRunning(jobs);
      RestoredIsActiveSlots(rows.rows, jobs);
      R.Restarted(before);
      QuietIsExact();
    }

    // ----- requests -----

    /** A new job is a queued row that waits for the next cycle; an id in use is
        refused and nothing changes. */
    method SubmitJob(id: JobId, row: Row) returns (ok: bool)
      requires Valid() && row.status.Queued? && row.startedAt.None?
      modifies store
      ensures Valid() && (ok <==> id !in old(store.rows))
      ensures store.rows == if ok then old(store.rows)[id := row] else old(store.rows)
    {
      if id !in store.rows {
        R.Submitted(State(), id, row);
      }
      ghost var expected := store.rows[id := row];
      ok := store.InsertJob(id, row);
      assert ok ==> store.rows == expected;
      assert !ok ==> store.rows == old(store.rows);
    }

    method NodeReports(node: NodeId, info: D.NodeInfo)
      requires Valid() && info.gpuCount <= U32_MAX
      modifies this`registry
      ensures Valid() && registry == old(registry)[node := info]
    {
      R.NodeKnown(State(), node, info);
      registry := registry[node := info];
    }

    /** The last thing a handler does: forget the slot of a finished job. */
    method FreeSlot(id: JobId)
      requires D.FreeSlot(id) in tasks
      modifies scheduler`runningJobs, this`tasks
      ensures old(Valid()) ==> Valid()
      ensures tasks == old(tasks) - multiset{D.FreeSlot(id)}
      ensures scheduler.runningJobs == old(scheduler.runningJobs) - {id}
    {
      ghost var s := State();
      if Valid() {
        R.SlotFreed(s, id);
      }
      var dropped := scheduler.DropJob(id);
      tasks := tasks - multiset{D.FreeSlot(id)};
      assert State() == D.Freeing(D.TaskDone(s, D.FreeSlot(id)), id);
    }

    method Unqueue(id: JobId)
      requires Valid() && cycle.Idle? && D.Unqueue(id) in tasks
      modifies scheduler`jobQueue, this`tasks
      ensures Valid() && tasks == old(tasks) - multiset{D.Unqueue(id)}
      ensures !D.InJobs(scheduler.jobQueue, id)
    {
      ghost var s := State();
      R.Unqueued(s, id);
      var removed := scheduler.RemoveQueued(id);
      tasks := tasks - multiset{D.Unqueue(id)};
      assert State() == D.Unqueueing(D.TaskDone(s, D.Unqueue(id)), id);
    }

    /** Record what is reported of a job. */
    method RecordStatus(id: JobId, status: JobStatus)
      requires Valid() && id in store.rows && CanTransition(store.rows[id].status, status)
      modifies store, this`tasks
      ensures AgentReports(status) ==> Valid()
      ensures tasks == old(tasks) + (if IsTerminal(status) then multiset{D.FreeSlot(id)} else multiset{})
      ensures OthersKept(old(store.rows), store.rows, {id}) && OnlyStatus(old(store.rows)[id], store.rows[id], status)
    {
      ghost var s := State();
      ghost var added := if IsTerminal(status) then multiset{D.FreeSlot(id)} else multiset{};
      if AgentReports(status) {
        R.Reported(s, id, status);
      }
      store.UpdateJobStatus(id, status);
      StatusTable(s.rows, store.rows, {id}, status);
      tasks := tasks + added;
      assert State() == D.Recording(s, {id}, status, added);
    }

    /** A status report: accepted exactly when the table allows the transition;
        then the row has the status and, if it is terminal, the job has no slot
        any more. What agents report stays within the protocol. */
    method ReportStatus(id: JobId, status: JobStatus) returns (accepted: bool)
      requires Valid()
      modifies store, scheduler`runningJobs, this`tasks
      ensures accepted <==> id in old(store.rows) && CanTransition(old(store.rows)[id].status, status)
      ensures OthersKept(old(store.rows), store.rows, if accepted then {id} else {})
      ensures accepted ==> OnlyStatus(old(store.rows)[id], store.rows[id], status)
      ensures scheduler.runningJobs
           == if accepted && IsTerminal(status) then old(scheduler.runningJobs) - {id} else old(scheduler.runningJobs)
      ensures tasks == old(tasks) && (AgentReports(status) || !accepted ==> Valid())
    {
      if id !in store.rows || !CanTransition(store.rows[id].status, status) {
        return false;
      }
      RecordStatus(id, status);
      if IsTerminal(status) {
        FreeSlot(id);
        assert tasks == old(tasks);
      }
      accepted := true;
    }

    method RecordCancel(id: JobId) returns (cancelled: bool)
      requires Valid()
      modifies store, this`tasks
      ensures Valid()
      ensures cancelled <==> InState(old(store.rows), id, Queued)
      ensures cancelled ==> InState(store.rows, id, Cancelled)
      ensures !cancelled ==> store.rows == old(store.rows)
      ensures tasks == old(tasks) + if cancelled then multiset{D.Unqueue(id), D.FreeSlot(id)} else multiset{}
    {
      ghost var s := State();
      cancelled := store.CancelQueuedJob(id);
      if cancelled {
        R.CancelledQueued(s, id);
        StatusTable(s.rows, store.rows, {id}, Cancelled);
        tasks := tasks + multiset{D.Unqueue(id), D.FreeSlot(id)};
        assert State() == D.Recording(s, {id}, Cancelled, multiset{D.Unqueue(id), D.FreeSlot(id)});
      } else {
        assert store.rows == s.rows;
      }
    }

    /** Cancelling a queued job takes it out of the queue, memory included. */
    method CancelQueued(id: JobId) returns (cancelled: bool)
      requires Valid() && Quiet()
      modifies store, scheduler`jobQueue, scheduler`runningJobs, this`tasks
      ensures Valid() && Quiet()
      ensures cancelled <==> InState(old(store.rows), id, Queued)
      ensures cancelled ==> InState(store.rows, id, Cancelled) && !D.InJobs(scheduler.jobQueue, id)
      ensures !cancelled ==> store.rows == old(store.rows)
    {
      cancelled := RecordCancel(id);
      if cancelled {
        Unqueue(id);
        FreeSlot(id);
        assert tasks == multiset{};
      }
    }

    method MarkStopping(id: JobId) returns (stopped: bool)
      requires Valid() && Quiet()
      modifies store
      ensures Valid()
      ensures stopped <==> InState(old(store.rows), id, Starting) || InState(old(store.rows), id, Running)
      ensures stopped ==> InState(store.rows, id, Stopping)
    {
      ghost var s := State();
      if InState(store.rows, id, Starting) || InState(store.rows, id, Running) {
        R.Stopped(s, id);
      }
      stopped := store.MarkStoppingIfActive(id);
      if stopped {
        StatusTable(s.rows, store.rows, {id}, Stopping);
        assert State() == D.Recording(s, {id}, Stopping, multiset{});
      } else {
        assert store.rows == s.rows;
      }
    }

    /** Stopping a job: a queued one is cancelled and leaves the queue, an active
        one is asked to stop and keeps its slot. */
    method StopJob(id: JobId) returns (stopped: bool)
      requires Valid() && Quiet()
      modifies store, scheduler`jobQueue, scheduler`runningJobs, this`tasks
      ensures Valid() && Quiet() && Exact()
      ensures stopped <==> InState(old(store.rows), id, Queued) || InState(old(store.rows), id, Starting)
                           || InState(old(store.rows), id, Running)
      ensures InState(old(store.rows), id, Queued) ==>
                InState(store.rows, id, Cancelled) && !D.InJobs(scheduler.jobQueue, id)
      ensures stopped && !InState(old(store.rows), id, Queued) ==>
                InState(store.rows, id, Stopping) && id in scheduler.runningJobs
    {
      stopped := CancelQueued(id);
      if !stopped {
        stopped := MarkStopping(id);
      }
      QuietIsExact();
    }

    /** The gRPC cancellation: an active job is asked to stop, by the bare write,
        and keeps its slot; any other is left alone. */
    method CancelJob(id: JobId) returns (found: bool)
      requires Valid() && Quiet()
      modifies store
      ensures Valid() && Exact()
      ensures found <==> id in old(store.rows)
      ensures var active := id in old(store.rows)
                && (old(store.rows)[id].status.Starting? || old(store.rows)[id].status.Running?
                    || old(store.rows)[id].status.Stopping?);
              && OthersKept(old(store.rows), store.rows, if active then {id} else {})
              && (active ==> OnlyStatus(old(store.rows)[id], store.rows[id], Stopping))
    {
      ghost var s := State();
      found := id in store.rows;
      if found && (store.rows[id].status.Starting? || store.rows[id].status.Running? || store.rows[id].status.Stopping?) {
        R.CancelledActive(s, id);
        store.UpdateJobStatus(id, Stopping);
        StatusTable(s.rows, store.rows, {id}, Stopping);
        assert State() == D.Recording(s, {id}, Stopping, multiset{});
      }
      QuietIsExact();
    }

    // ----- the scheduling cycle -----

    /** Offline and degraded nodes get no capacity; unknown ones keep theirs. */
    method RefreshCapacities()
      requires Valid() && Quiet()
      modifies scheduler`nodeGpuCapacity, this`online, this`cycle
      ensures Valid() && cycle.Refreshed? && online == D.OnlineNodes(registry)
      ensures scheduler.nodeGpuCapacity == D.RefreshedCapacity(old(scheduler.nodeGpuCapacity), registry)
    {
      ghost var s := State();
      R.CycleBegun(s);
      SetCapacities();
      online, cycle := D.OnlineNodes(registry), D.Refreshed;
      assert State() == D.Refreshing(s);
    }

    method SetCapacities()
      modifies scheduler`nodeGpuCapacity
      ensures scheduler.nodeGpuCapacity == D.RefreshedCapacity(old(scheduler.nodeGpuCapacity), registry)
    {
      ghost var before := scheduler.nodeGpuCapacity;
      var todo := registry.Keys;
      while todo != {}
        invariant todo <= registry.Keys
        invariant scheduler.nodeGpuCapacity.Keys == before.Keys + (registry.Keys - todo)
        invariant forall n | n in scheduler.nodeGpuCapacity ::
                    scheduler.nodeGpuCapacity[n]
                    == if n in registry && n !in todo then (if registry[n].isOnline then registry[n].gpuCount else 0)
                       else before[n]
        decreases todo
      {
        var node :| node in todo;
        scheduler.SetNodeGpuCapacity(node, if registry[node].isOnline then registry[node].gpuCount else 0);
        todo := todo - {node};
      }
    }

    /** Exactly the overdue starting jobs without an online node go back to the
        queue, and exactly their slots go. */
    method RequeueStale(cutoff: int)
      requires Valid() && cycle.Refreshed?
      modifies store, scheduler`runningJobs, this`cycle
      ensures Valid() && cycle == D.Dropping({})
      ensures var stale := StaleStarting(old(store.rows), cutoff, D.OnlineNodes(registry));
              && OthersKept(old(store.rows), store.rows, stale) && stale <= Queue(store.rows)
              && scheduler.runningJobs == old(scheduler.runningJobs) - stale
    {
      ghost var s := State();
      R.StaleReset(s, cutoff);
      var ids := store.ResetStaleStartingJobs(cutoff, D.OnlineNodes(registry));
      ghost var stale := ids;
      assert stale == StaleStarting(s.rows, cutoff, D.OnlineNodes(registry));
      RequeueTable(s.rows, store.rows, ids);
      cycle := D.Dropping(ids);
      assert State() == D.Requeueing(s, ids);
      DropAllRequeued(ids);
    }

    method DropAllRequeued(stale: set<JobId>)
      requires Valid() && cycle == D.Dropping(stale)
      modifies scheduler`runningJobs, this`cycle
      ensures Valid() && cycle == D.Dropping({})
      ensures scheduler.runningJobs == old(scheduler.runningJobs) - stale
    {
      var ids := stale;
      while ids != {}
        invariant Valid() && cycle == D.Dropping(ids) && ids <= stale
        invariant scheduler.runningJobs == old(scheduler.runningJobs) - (stale - ids)
        decreases ids
      {
        var id :| id in ids;
        OneLess(old(scheduler.runningJobs), stale, ids, id);
        ids := ids - {id};
        DropRequeued(id);
      }
    }

    method DropRequeued(id: JobId)
      requires Valid() && cycle.Dropping? && id in cycle.drops
      modifies scheduler`runningJobs, this`cycle
      ensures Valid() && cycle == D.Dropping(old(cycle).drops - {id})
      ensures scheduler.runningJobs == old(scheduler.runningJobs) - {id}
    {
      ghost var s := State();
      R.RequeuedDropped(s, id);
      var dropped := scheduler.DropJob(id);
      cycle := D.Dropping(cycle.drops - {id});
      assert State() == D.Freeing(s.(cycle := cycle), id);
    }

    method RecordLost(dead: set<NodeId>) returns (ids: set<JobId>)
      requires Valid() && tasks == multiset{}
      modifies store, this`tasks
      ensures Valid() && tasks == D.FreeSlots(ids)
      ensures forall id :: id in ids <==>
                && (InState(old(store.rows), id, Running) || InState(old(store.rows), id, Stopping))
                && old(store.rows)[id].node in dead
      ensures OthersKept(old(store.rows), store.rows, ids) && forall id | id in ids :: InState(store.rows, id, Lost)
    {
      ghost var s := State();
      R.LostOnNodes(s, dead);
      ids := store.MarkLostJobsOnNodes(dead);
      ActiveOnIs(s.rows, dead, ids);
      StatusTable(s.rows, store.rows, ids, Lost);
      tasks := D.FreeSlots(ids);
      assert State() == D.Recording(s, ids, Lost, D.FreeSlots(ids));
    }

    method FreeAll(lost: set<JobId>)
      requires Valid() && tasks == D.FreeSlots(lost)
      modifies scheduler`runningJobs, this`tasks
      ensures Valid() && tasks == multiset{}
      ensures scheduler.runningJobs == old(scheduler.runningJobs) - lost
    {
      var ids := lost;
      while ids != {}
        invariant Valid() && tasks == D.FreeSlots(ids) && ids <= lost
        invariant scheduler.runningJobs == old(scheduler.runningJobs) - (lost - ids)
        decreases ids
      {
        var id :| id in ids;
        OneFreed(ids, id);
        OneLess(old(scheduler.runningJobs), lost, ids, id);
        FreeSlot(id);
        ids := ids - {id};
      }
    }

    /** Exactly the jobs running or stopping on dead nodes are lost, and exactly
        their slots go. */
    method ReapDeadNodes(dead: set<NodeId>)
      requires Valid() && tasks == multiset{}
      modifies store, scheduler`runningJobs, this`tasks
      ensures Valid() && tasks == multiset{}
      ensures forall id | id in old(store.rows) ::
                if old(store.rows)[id].node in dead
                   && (old(store.rows)[id].status.Running? || old(store.rows)[id].status.Stopping?)
                then InState(store.rows, id, Lost) && id !in scheduler.runningJobs
                else Untouched(old(store.rows), store.rows, old(scheduler.runningJobs), scheduler.runningJobs, id)
    {
      var ids := RecordLost(dead);
      FreeAll(ids);
    }

    /** Exactly the jobs running on nodes offline for long are lost, and exactly
        their slots go; what is stopping there is left to its own time. */
    method ReapRunning(dead: set<NodeId>)
      requires Valid() && Quiet()
      modifies store, scheduler`runningJobs, this`tasks
      ensures Valid() && Quiet() && Exact()
      ensures forall id | id in old(store.rows) ::
                if old(store.rows)[id].node in dead && old(store.rows)[id].status.Running?
                then InState(store.rows, id, Lost) && id !in scheduler.runningJobs
                else Untouched(old(store.rows), store.rows, old(scheduler.runningJobs), scheduler.runningJobs, id)
    {
      var ids := RecordRunningLost(dead);
      FreeAll(ids);
      QuietIsExact();
    }

    method RecordRunningLost(dead: set<NodeId>) returns (ids: set<JobId>)
      requires Valid() && tasks == multiset{}
      modifies store, this`tasks
      ensures Valid() && tasks == D.FreeSlots(ids)
      ensures forall id :: id in ids <==> InState(old(store.rows), id, Running) && old(store.rows)[id].node in dead
      ensures OthersKept(old(store.rows), store.rows, ids) && forall id | id in ids :: InState(store.rows, id, Lost)
    {
      ghost var s := State();
      R.LostRunningOn(s, dead);
      ids := store.MarkRunningJobsLost(dead);
      RunningOnIs(s.rows, dead, ids);
      StatusTable(s.rows, store.rows, ids, Lost);
      tasks := D.FreeSlots(ids);
      assert State() == D.Recording(s, ids, Lost, D.FreeSlots(ids));
    }

    /** Exactly the stopping jobs that started, or failing that were created,
        before the cutoff are lost, and exactly their slots go: a job that was just
        asked to stop keeps its row and its slot. */
    method ReapStopping(cutoff: int)
      requires Valid() && Quiet()
      modifies store, scheduler`runningJobs, this`tasks
      ensures Valid() && Quiet() && Exact()
      ensures forall id | id in old(store.rows) ::
                var row := old(store.rows)[id];
                if row.status.Stopping? && (if row.startedAt.Some? then row.startedAt.value else row.createdAt) < cutoff
                then InState(store.rows, id, Lost) && id !in scheduler.runningJobs
                else Untouched(old(store.rows), store.rows, old(scheduler.runningJobs), scheduler.runningJobs, id)
    {
      var ids := RecordStoppingLost(cutoff);
      FreeAll(ids);
      QuietIsExact();
    }

    method RecordStoppingLost(cutoff: int) returns (ids: set<JobId>)
      requires Valid() && tasks == multiset{}
      modifies store, this`tasks
      ensures Valid() && tasks == D.FreeSlots(ids)
      ensures forall id :: id in ids <==>
                && InState(old(store.rows), id, Stopping)
                && (if old(store.rows)[id].startedAt.Some? then old(store.rows)[id].startedAt.value
                    else old(store.rows)[id].createdAt) < cutoff
      ensures OthersKept(old(store.rows), store.rows, ids) && forall id | id in ids :: InState(store.rows, id, Lost)
    {
      ghost var s := State();
      R.LostStopping(s, cutoff);
      ids := store.ResetStaleStoppingJobs(cutoff);
      StaleStoppingIs(s.rows, cutoff, ids);
      StatusTable(s.rows, store.rows, ids, Lost);
      tasks := D.FreeSlots(ids);
      assert State() == D.Recording(s, ids, Lost, D.FreeSlots(ids));
    }

    /** Hand the queued rows to the scheduler, unless they cannot be read. */
    method LoadQueued(readable: bool)
      requires Valid() && cycle == D.Dropping({})
      modifies scheduler`jobQueue, this`cycle
      ensures Valid() && cycle.Loading? && cycle.rows == []
      ensures readable ==> forall id | id in Queue(store.rows) :: D.InJobs(scheduler.jobQueue, id)
    {
      if !readable {
        R.NothingLoaded(State());
        cycle := D.Loading({}, []);
        return;
      }
      var order := store.ListQueuedJobs();
      assert forall id | id in order :: id in store.rows;
      R.RowsLoaded(State(), order);
      ghost var jobs := D.JobsOf(order, store.rows);
      cycle := D.Loading({}, jobs);
      for n := 0 to |order|
        invariant Valid() && cycle.Loading? && cycle.rows == jobs[n..]
        invariant forall i | 0 <= i < n :: order[i] in cycle.loaded
      {
        assert jobs[n..] == [jobs[n]] + jobs[n + 1..];
        EnqueueNext(ToJob(order[n], store.rows[order[n]]), jobs[n + 1..]);
      }
      R.ReachedInv(State());
    }

    method EnqueueNext(job: Job, ghost rest: seq<Job>)
      requires Valid() && cycle.Loading? && cycle.rows == [job] + rest
      modifies scheduler`jobQueue, this`cycle
      ensures Valid() && cycle == D.Loading(old(cycle).loaded + {job.id}, rest)
    {
      ghost var s := State();
      R.NextEnqueued(s, job, rest);
      var added := scheduler.Enqueue(job);
      assert added <==> !(job.id in s.slots || D.InJobs(s.queue, job.id));
      cycle := D.Loading(cycle.loaded + {job.id}, rest);
      assert State() == D.Enqueueing(s, job, rest);
    }

    method PlaceJobs() returns (scheduled: seq<Job>)
      requires Valid() && cycle.Loading? && cycle.rows == []
      modifies scheduler`jobQueue, scheduler`runningJobs, this`cycle
      ensures Valid() && cycle == D.Assigning(scheduled)
      ensures forall id | D.InJobs(old(scheduler.jobQueue), id) ::
                D.InJobs(scheduler.jobQueue, id) || D.InJobs(scheduled, id)
      ensures forall i, node | 0 <= i < |scheduler.jobQueue| ::
                !Fits(scheduler.runningJobs, scheduler.nodeGpuCapacity, Gpus(scheduler.jobQueue[i]), node)
    {
      ghost var s := State();
      R.WholePass(s);
      R.ReachedInv(s);
      ghost var queue := scheduler.jobQueue;
      assert WellQueued(queue, s.slots) by {
        assert forall i | 0 <= i < |queue| :: queue[i] in queue;
      }
      scheduled := scheduler.RunSchedule();
      cycle := D.Assigning(scheduled);
      ghost var p := Schedule(queue, |queue|, s.slots, s.capacity);
      PassLeavesNothing(queue, s.slots, s.capacity);
      ScheduleConserves(queue, s.slots, s.capacity);
      MergedIds(queue, |queue|, p.scheduled, p.remaining);
    }

    /** Write each dispatch; a job that left the queue meanwhile, or whose write
        fails, loses its slot again. */
    method WriteDispatches(scheduled: seq<Job>, reaches: JobId -> bool, now: int)
      requires Valid() && cycle == D.Assigning(scheduled)
      modifies store, scheduler`runningJobs, this`cycle
      ensures Valid() && cycle == D.Assigning([])
      ensures Queue(store.rows) <= Queue(old(store.rows))
      ensures forall i | 0 <= i < |scheduled| && reaches(scheduled[i].id) :: scheduled[i].id !in Queue(store.rows)
      ensures scheduler.runningJobs.Keys <= old(scheduler.runningJobs).Keys
      ensures forall id | id in scheduler.runningJobs :: scheduler.runningJobs[id] == old(scheduler.runningJobs)[id]
    {
      for n := 0 to |scheduled|
        invariant Valid() && cycle == D.Assigning(scheduled[n..])
        invariant Queue(store.rows) <= Queue(old(store.rows))
        invariant forall i | 0 <= i < n && reaches(scheduled[i].id) :: scheduled[i].id !in Queue(store.rows)
        invariant scheduler.runningJobs.Keys <= old(scheduler.runningJobs).Keys
        invariant forall id | id in scheduler.runningJobs :: scheduler.runningJobs[id] == old(scheduler.runningJobs)[id]
      {
        assert scheduled[n..] == [scheduled[n]] + scheduled[n + 1..];
        WriteDispatch(scheduled[n], reaches(scheduled[n].id), now, scheduled[n + 1..]);
      }
      assert scheduled[|scheduled|..] == [];
    }

    method WriteDispatch(job: Job, reached: bool, now: int, ghost rest: seq<Job>)
      requires Valid() && cycle == D.Assigning([job] + rest)
      modifies store, scheduler`runningJobs, this`cycle
      ensures Valid() && cycle == D.Assigning(rest)
      ensures Queue(store.rows) == Queue(old(store.rows)) - (if reached then {job.id} else {})
      ensures scheduler.runningJobs == old(scheduler.runningJobs)
              || scheduler.runningJobs == old(scheduler.runningJobs) - {job.id}
    {
      ghost var s := State();
      R.NextAssigned(s, job, rest, reached, now);
      var won := false;
      if reached {
        won := store.AssignJobToNode(job.id, job.node, now);
      }
      if won {
        DispatchTable(s.rows, store.rows, job.id, job.node, now);
        cycle := D.Assigning(rest);
        assert State() == D.AssigningNext(s, job, rest, true, now);
      } else {
        assert store.rows == s.rows;
        cycle := D.Releasing(job.id, rest);
        assert State() == D.AssigningNext(s, job, rest, reached, now);
        ReleaseSlot(job.id);
      }
    }

    method ReleaseSlot(id: JobId)
      requires Valid() && cycle.Releasing? && cycle.id == id
      modifies scheduler`runningJobs, this`cycle
      ensures Valid() && cycle == D.Assigning(old(cycle).assigns)
      ensures scheduler.runningJobs == old(scheduler.runningJobs) - {id}
    {
      ghost var s := State();
      R.SlotReleased(s);
      var dropped := scheduler.DropJob(id);
      cycle := D.Assigning(cycle.assigns);
      assert State() == D.Freeing(s.(cycle := cycle), id);
    }

    /** One cycle. Afterwards the slots are exactly the active rows again; and if
        the queued rows could be read and every write reached the database, every
        row that is still queued is in the queue. */
    method RunSchedulerCycle(cutoff: int, dead: set<NodeId>, readable: bool, reaches: JobId -> bool, now: int)
      requires Valid() && Quiet()
      modifies this, store, scheduler
      ensures Valid() && Quiet() && Exact() && registry == old(registry)
      ensures readable && (forall id :: reaches(id)) ==>
                forall id | id in Queue(store.rows) :: D.InJobs(scheduler.jobQueue, id)
    {
      RefreshCapacities();
      RequeueStale(cutoff);
      ReapDeadNodes(dead);
      LoadQueued(readable);
      var scheduled := PlaceJobs();
      WriteDispatches(scheduled, reaches, now);
      R.CycleEnded(State());
      cycle := D.Idle;
      QuietIsExact();
      if readable && forall id :: reaches(id) {
        forall id | id in Queue(store.rows) ensures D.InJobs(scheduler.jobQueue, id) {
          assert forall i | 0 <= i < |scheduled| :: scheduled[i].id != id;
          assert !D.InJobs(scheduled, id);
        }
      }
    }
  }

  /** The job's row and its slot, if it has one, are as they were. */
  predicate Untouched(rows: Rows, newRows: Rows, slots: Slots, newSlots: Slots, id: JobId) {
    && id in rows && id in newRows && newRows[id] == rows[id]
    && (id in newSlots <==> id in slots) && (id in slots ==> id in newSlots && newSlots[id] == slots[id])
  }

  lemma OneLess(slots: Slots, all: set<JobId>, ids: set<JobId>, id: JobId)
    requires id in ids && ids <= all
    ensures slots - (all - ids) - {id} == slots - (all - (ids - {id}))
  {
  }

  lemma OneFreed(ids: set<JobId>, id: JobId)
    requires id in ids
    ensures D.FreeSlot(id) in D.FreeSlots(ids)
    ensures D.FreeSlots(ids) - multiset{D.FreeSlot(id)} == D.FreeSlots(ids - {id})
  {
  }

  lemma PassLeavesNothing(queue: seq<Job>, slots: Slots, capacity: Capacity)
    requires WellQueued(queue, slots)
    ensures var p := Schedule(queue, |queue|, slots, capacity);
            forall i, node | 0 <= i < |p.remaining| :: !Fits(p.slots, capacity, Gpus(p.remaining[i]), node)
  {
    var p := Schedule(queue, |queue|, slots, capacity);
    forall i, node | 0 <= i < |p.remaining| ensures !Fits(p.slots, capacity, Gpus(p.remaining[i]), node) {
      ScheduleIsGreedy(queue, slots, capacity, i, node);
    }
  }

  lemma {:induction false} MergedIds(queue: seq<Job>, n: nat, scheduled: seq<Job>, remaining: seq<Job>)
    requires n <= |queue| && Merges(queue, n, scheduled, remaining)
    ensures forall i | 0 <= i < n :: D.InJobs(remaining, queue[i].id) || D.InJobs(scheduled, queue[i].id)
    decreases n
  {
    if n > 0 {
      var k, m := |scheduled| - 1, |remaining| - 1;
      if k >= 0 && scheduled[k] == Placed(queue[n - 1], scheduled[k].node)
         && Merges(queue, n - 1, scheduled[..k], remaining) {
        MergedIds(queue, n - 1, scheduled[..k], remaining);
        LongerHolds(scheduled[..k], scheduled);
        assert scheduled[k] in scheduled;
      } else {
        MergedIds(queue, n - 1, scheduled, remaining[..m]);
        LongerHolds(remaining[..m], remaining);
        assert remaining[m] in remaining;
      }
    }
  }

  lemma LongerHolds(some: seq<Job>, more: seq<Job>)
    requires some <= more
    ensures forall id | D.InJobs(some, id) :: D.InJobs(more, id)
  {
    forall id | D.InJobs(some, id) ensures D.InJobs(more, id) {
      var j :| j in some && j.id == id;
      assert j in more;
    }
  }
}
