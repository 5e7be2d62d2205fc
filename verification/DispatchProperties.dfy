/**
 What the dispatch protocol guarantees over whole runs, and where a coarser or
 finer reading of the code would lose it.
 */
module DispatchProperties {
  import opened Text
  import opened Jobs
  import opened Scheduling
  import opened JobTable
  import opened Dispatch

  /** A run of the system from its empty start, with genuine agents. */
  ghost predicate AgentRun(states: seq<State>, events: seq<Event>) {
    IsRun(states, events) && states[0] == INIT && AgentsOnly(events)
  }

  /** No handler and no cycle is in progress. */
  predicate Quiet(s: State) {
    s.cycle.Idle? && s.tasks == multiset{}
  }

  /** In every run every active row has a slot on its node; and when nothing is
      in progress the slots are exactly the active rows, so no queued row is
      wedged behind a leftover slot and no capacity is leaked. */
  lemma SlotsAgree(states: seq<State>, events: seq<Event>, n: nat)
    requires AgentRun(states, events) && n <= |events|
    ensures var s := states[n];
            && Agreement(s)
            && (Quiet(s) ==> s.slots.Keys == ActiveIds(s.rows))
  {
    RunKeepsInv(states, events, n);
    var s := states[n];
    if Quiet(s) {
      QuietSlots(s);
    }
  }

  lemma QuietSlots(s: State)
    requires Inv(s) && Quiet(s)
    ensures s.slots.Keys == ActiveIds(s.rows)
  {
    forall id | id in s.slots ensures id in ActiveIds(s.rows) {
      assert !Excused(s, id);
    }
  }

  /** What is read: the load step goes over exactly the queued rows. */
  lemma LoadReadsAll(s: State, order: seq<JobId>, id: JobId)
    requires Enabled(s, LoadRows(order)) && InState(s.rows, id, Queued)
    ensures var t := Effect(s, LoadRows(order)); InJobs(t.cycle.rows, id) && t.cycle.loaded == {}
  {
    var t := Effect(s, LoadRows(order));
    assert id in Queue(s.rows);
    var i :| 0 <= i < |order| && order[i] == id;
    assert t.cycle.rows[i] in t.cycle.rows;
  }

  /** The row was read by the load step in progress. */
  predicate InLoad(c: Cycle, id: JobId) {
    c.Loading? && (id in c.loaded || InJobs(c.rows, id))
  }

  lemma EnqueueingKeepsLoad(s: State, j: Job, rest: seq<Job>, id: JobId)
    requires s.cycle.Loading? && s.cycle.rows == [j] + rest && InLoad(s.cycle, id)
    ensures InLoad(Enqueueing(s, j, rest).cycle, id)
  {
    if id !in s.cycle.loaded {
      var k :| k in [j] + rest && k.id == id;
      assert k == j || k in rest;
    }
  }

  lemma StepKeepsLoad(s: State, e: Event, id: JobId)
    requires InLoad(s.cycle, id) && Step(s, e).cycle.Loading?
    ensures InLoad(Step(s, e).cycle, id)
  {
    if Enabled(s, e) {
      if e.EnqueueNext? {
        var rows := s.cycle.rows;
        assert rows == [rows[0]] + rows[1..];
        EnqueueingKeepsLoad(s, rows[0], rows[1..], id);
      } else {
        OnlyEnqueueMovesLoad(s, e);
      }
    }
  }

  lemma OnlyEnqueueMovesLoad(s: State, e: Event)
    requires s.cycle.Loading? && Enabled(s, e) && Effect(s, e).cycle.Loading? && !e.EnqueueNext?
    ensures Effect(s, e).cycle == s.cycle
  {
  }

  /** Row `k` of the run is a load step, still in progress at `n`. */
  ghost predicate LoadingSince(states: seq<State>, events: seq<Event>, k: nat, n: nat)
    requires |states| == |events| + 1
  {
    && k < n <= |events| && events[k].LoadRows? && Enabled(states[k], events[k])
    && forall i | k < i <= n :: states[i].cycle.Loading?
  }

  lemma LoadStarts(states: seq<State>, events: seq<Event>, k: nat, id: JobId)
    requires IsRun(states, events) && LoadingSince(states, events, k, k + 1) && InState(states[k].rows, id, Queued)
    ensures InLoad(states[k + 1].cycle, id)
  {
    LoadReadsAll(states[k], events[k].order, id);
  }

  lemma LoadGoesOn(states: seq<State>, events: seq<Event>, n: nat, id: JobId)
    requires IsRun(states, events) && n < |events| && InLoad(states[n].cycle, id) && states[n + 1].cycle.Loading?
    ensures InLoad(states[n + 1].cycle, id)
  {
    StepKeepsLoad(states[n], events[n], id);
  }

  lemma {:induction false} LoadCovers(states: seq<State>, events: seq<Event>, k: nat, n: nat, id: JobId)
    requires IsRun(states, events) && LoadingSince(states, events, k, n) && InState(states[k].rows, id, Queued)
    ensures InLoad(states[n].cycle, id)
    decreases n
  {
    if n == k + 1 {
      LoadStarts(states, events, k, id);
    } else {
      LoadCovers(states, events, k, n - 1, id);
      LoadGoesOn(states, events, n - 1, id);
    }
  }

  /** When a load step has gone through its rows, every row that was queued when
      it read them and still is, is in the in-memory queue, and no queued row at
      all is kept out by a slot: none is wedged. */
  lemma LoadReachesQueue(states: seq<State>, events: seq<Event>, k: nat, n: nat, id: JobId)
    requires AgentRun(states, events) && LoadingSince(states, events, k, n) && states[n].cycle.rows == []
    requires InState(states[n].rows, id, Queued)
    ensures id !in states[n].slots
    ensures InState(states[k].rows, id, Queued) ==> InJobs(states[n].queue, id)
  {
    RunKeepsInv(states, events, n);
    QueuedHasNoSlot(states[n], id);
    if InState(states[k].rows, id, Queued) {
      LoadCovers(states, events, k, n, id);
    }
  }

  // ----- oversubscription -----

  /** No step pushes a node over its capacity, and the sums always fit 32 bits. */
  lemma NoOversubscription(states: seq<State>, events: seq<Event>, n: nat, node: NodeId)
    requires AgentRun(states, events) && n < |events|
    ensures var s := states[n];
            var t := states[n + 1];
            && InUse(t.slots, node) <= Max(InUse(s.slots, node), CapacityOf(s.capacity, node))
            && InUse(t.slots, node) <= 0xFFFF_FFFF
  {
    RunKeepsInv(states, events, n);
    RunKeepsInv(states, events, n + 1);
    var s := states[n];
    if Enabled(s, events[n]) {
      StepWithinCapacity(s, events[n], node);
    }
  }

  lemma StepWithinCapacity(s: State, e: Event, node: NodeId)
    requires Inv(s) && Enabled(s, e)
    ensures InUse(Effect(s, e).slots, node) <= Max(InUse(s.slots, node), CapacityOf(s.capacity, node))
  {
    if e.InsertSlot? {
      InsertWithinCapacity(s, node);
    } else if e.Restart? {
      RestartUsesNoMore(s, node);
    } else {
      var gone := OnlyDropsSlots(s, e);
      InUseDrop(s.slots, node, gone);
    }
  }

  /** Every other step removes one slot at most. */
  lemma OnlyDropsSlots(s: State, e: Event) returns (gone: JobId)
    requires Enabled(s, e) && !e.InsertSlot? && !e.Restart?
    ensures Effect(s, e).slots == s.slots || Effect(s, e).slots == s.slots - {gone}
  {
    gone := if e.RunTask? then e.task.id else if e.DropRequeued? then e.id
            else if e.ReleaseSlot? then s.cycle.id else JobId("");
    if e.RunTask? || e.DropRequeued? || e.ReleaseSlot? {
      DropsSlot(s, e, gone);
    } else if Records(e) {
      RecordsKeepSlots(s, e);
    } else if e.CheckNext? {
      CheckingKeepsRows(s, s.cycle.todo[0], s.cycle.todo[1..], NodeFor(s.cycle.todo[0], s.slots, s.capacity));
    } else if e.Submit? || e.NodeChanged? || e.BeginCycle? || e.ResetStale? || e.Assign? {
      WritesKeepSlots(s, e);
    } else {
      PhasesKeepSlots(s, e);
    }
  }

  lemma DropsSlot(s: State, e: Event, gone: JobId)
    requires Enabled(s, e)
    requires || (e.RunTask? && gone == e.task.id) || (e.DropRequeued? && gone == e.id)
             || (e.ReleaseSlot? && gone == s.cycle.id)
    ensures Effect(s, e).slots == s.slots || Effect(s, e).slots == s.slots - {gone}
  {
  }

  lemma RecordsKeepSlots(s: State, e: Event)
    requires Enabled(s, e) && Records(e)
    ensures Effect(s, e).slots == s.slots && Effect(s, e).online == s.online
  {
  }

  lemma WritesKeepSlots(s: State, e: Event)
    requires Enabled(s, e) && (e.Submit? || e.NodeChanged? || e.BeginCycle? || e.ResetStale? || e.Assign?)
    ensures Effect(s, e).slots == s.slots
    ensures Effect(s, e).online == if e.BeginCycle? then OnlineNodes(s.registry) else s.online
  {
  }

  lemma PhasesKeepSlots(s: State, e: Event)
    requires Enabled(s, e)
    requires || e.LoadRows? || e.LoadFailed? || e.EnqueueNext? || e.BeginSchedule? || e.EndSchedule? || e.EndCycle?
    ensures Effect(s, e).slots == s.slots && Effect(s, e).online == s.online
  {
  }

  lemma InsertWithinCapacity(s: State, node: NodeId)
    requires Inv(s) && s.cycle.Chosen?
    ensures InUse(Inserting(s, Placed(s.cycle.job, s.cycle.node)).slots, node)
         <= Max(InUse(s.slots, node), CapacityOf(s.capacity, node))
  {
    var j := s.cycle.job;
    assert Waiting(s)[|s.cycle.remaining|] == j;
    assert j in Waiting(s);
    PlaceWithinCapacity(s.slots, s.capacity, j, s.cycle.node, node);
  }

  /** The last cycle that began in the current server lifetime. */
  ghost predicate BeganAt(states: seq<State>, events: seq<Event>, n: nat, k: nat)
    requires |states| == |events| + 1
  {
    && k < n <= |events| && events[k].BeginCycle? && states[k].cycle.Idle?
    && forall i | k < i < n :: !events[i].Restart? && !(events[i].BeginCycle? && states[i].cycle.Idle?)
  }

  lemma {:induction false} OnlineSinceCycleBegan(states: seq<State>, events: seq<Event>, n: nat) returns (k: nat)
    requires AgentRun(states, events) && n <= |events|
    ensures states[n].online != {} ==>
              BeganAt(states, events, n, k) && states[n].online == OnlineNodes(states[k].registry)
    decreases n
  {
    k := 0;
    if n > 0 {
      var s, e := states[n - 1], events[n - 1];
      OnlineStep(s, e);
      if e.BeginCycle? && s.cycle.Idle? {
        k := n - 1;
      } else if !e.Restart? && s.online != {} {
        k := OnlineSinceCycleBegan(states, events, n - 1);
        StillBegan(states, events, n, k);
      }
    }
  }

  lemma StillBegan(states: seq<State>, events: seq<Event>, n: nat, k: nat)
    requires |states| == |events| + 1 && 0 < n <= |events| && BeganAt(states, events, n - 1, k)
    requires !events[n - 1].Restart? && !(events[n - 1].BeginCycle? && states[n - 1].cycle.Idle?)
    ensures BeganAt(states, events, n, k)
  {
  }

  lemma OnlineStep(s: State, e: Event)
    ensures Step(s, e).online
         == if e.Restart? then {} else if e.BeginCycle? && s.cycle.Idle? then OnlineNodes(s.registry) else s.online
  {
    if Enabled(s, e) {
      if e.RunTask? || e.DropRequeued? || e.ReleaseSlot? || e.InsertSlot? || e.Restart? {
        SlotsMoveOnline(s, e);
      } else if Records(e) {
        RecordsKeepSlots(s, e);
      } else if e.CheckNext? {
        CheckingKeepsRows(s, s.cycle.todo[0], s.cycle.todo[1..], NodeFor(s.cycle.todo[0], s.slots, s.capacity));
      } else if e.Submit? || e.NodeChanged? || e.BeginCycle? || e.ResetStale? || e.Assign? {
        WritesKeepSlots(s, e);
      } else {
        PhasesKeepSlots(s, e);
      }
    }
  }

  lemma SlotsMoveOnline(s: State, e: Event)
    requires Enabled(s, e) && (e.RunTask? || e.DropRequeued? || e.ReleaseSlot? || e.InsertSlot? || e.Restart?)
    ensures Effect(s, e).online == if e.Restart? then {} else s.online
  {
  }

  /** A job is dispatched only to a node that was online when the running cycle
      began: a new slot, and a row turned `starting`, name such a node. */
  lemma DispatchOnlyToOnline(states: seq<State>, events: seq<Event>, n: nat, id: JobId) returns (k: nat)
    requires AgentRun(states, events) && n < |events|
    requires var s := states[n];
             var t := states[n + 1];
             || (!events[n].Restart? && id in t.slots && id !in s.slots)
             || (InState(t.rows, id, Starting) && !InState(s.rows, id, Starting))
    ensures var t := states[n + 1];
            && BeganAt(states, events, n, k)
            && (id in t.slots ==> t.slots[id].node in OnlineNodes(states[k].registry))
            && (InState(t.rows, id, Starting) ==> t.rows[id].node in OnlineNodes(states[k].registry))
  {
    RunKeepsInv(states, events, n);
    RunKeepsInv(states, events, n + 1);
    var s := states[n];
    var t := states[n + 1];
    k := OnlineSinceCycleBegan(states, events, n);
    if id in t.slots && id !in s.slots && !events[n].Restart? {
      NewSlotOnline(s, events[n], id);
    } else {
      NewStartOnline(s, events[n], id);
    }
  }

  lemma NewSlotOnline(s: State, e: Event, id: JobId)
    requires Inv(s) && FromAgents(e) && !e.Restart? && id in Step(s, e).slots && id !in s.slots
    ensures Step(s, e).slots[id].node in s.online
    ensures !InState(Step(s, e).rows, id, Starting)
  {
    OnlyInsertAddsSlot(s, e, id);
    assert InState(s.rows, id, Starting) ==> id in s.slots;
  }

  lemma OnlyInsertAddsSlot(s: State, e: Event, id: JobId)
    requires !e.Restart? && id in Step(s, e).slots && id !in s.slots
    ensures e.InsertSlot? && s.cycle.Chosen? && id == s.cycle.job.id
  {
    if Enabled(s, e) && !e.InsertSlot? {
      var gone := OnlyDropsSlots(s, e);
    }
  }

  lemma NewStartOnline(s: State, e: Event, id: JobId)
    requires Inv(s) && FromAgents(e) && InState(Step(s, e).rows, id, Starting) && !InState(s.rows, id, Starting)
    ensures Step(s, e).rows[id].node in s.online
    ensures id in Step(s, e).slots ==> Step(s, e).slots[id].node in s.online
  {
    OnlyAssignStarts(s, e, id);
    assert s.cycle.assigns[0] in Pending(s.cycle);
  }

  // ----- how rows change -----

  /** Events that set the status of rows and nothing else about them. */
  predicate Records(e: Event) {
    || e.CancelQueued? || e.MarkStopping? || e.RpcCancel? || e.Report?
    || e.LoseOnNodes? || e.LoseRunningOn? || e.LoseStopping?
  }

  function RecordedStatus(e: Event): JobStatus
    requires Records(e)
  {
    if e.CancelQueued? then Cancelled
    else if e.MarkStopping? || e.RpcCancel? then Stopping
    else if e.Report? then e.status
    else Lost
  }

  lemma RecordedStep(s: State, e: Event, id: JobId)
    requires Enabled(s, e) && Records(e) && id in s.rows
    ensures var t := Effect(s, e);
            && t.rows.Keys == s.rows.Keys && t.rows[id].retry == s.rows[id].retry
            && (|| t.rows[id] == s.rows[id]
                || (&& t.rows[id].status == RecordedStatus(e)
                    && (if e.Report? then CanTransition(s.rows[id].status, e.status)
                        else !IsTerminal(s.rows[id].status))))
  {
  }

  lemma OtherStep(s: State, e: Event)
    requires Enabled(s, e) && !Records(e) && !e.Submit? && !e.ResetStale? && !e.Assign?
    ensures Effect(s, e).rows == s.rows
  {
    if e.CheckNext? {
      CheckingKeepsRows(s, s.cycle.todo[0], s.cycle.todo[1..], NodeFor(s.cycle.todo[0], s.slots, s.capacity));
    } else if e.InsertSlot? || e.RunTask? {
      SlotStep(s, e);
    } else if e.EnqueueNext? || e.LoadRows? {
      QueueStep(s, e);
    } else {
      PhaseStep(s, e);
    }
  }

  lemma CheckingKeepsRows(s: State, j: Job, rest: seq<Job>, choice: Option<NodeId>)
    requires s.cycle.Placing?
    ensures Checking(s, j, rest, choice).rows == s.rows && Checking(s, j, rest, choice).slots == s.slots
    ensures Checking(s, j, rest, choice).online == s.online
  {
  }

  lemma SlotStep(s: State, e: Event)
    requires Enabled(s, e) && (e.InsertSlot? || e.RunTask?)
    ensures Effect(s, e).rows == s.rows
  {
  }

  lemma QueueStep(s: State, e: Event)
    requires Enabled(s, e) && (e.EnqueueNext? || e.LoadRows?)
    ensures Effect(s, e).rows == s.rows
  {
  }

  lemma PhaseStep(s: State, e: Event)
    requires Enabled(s, e)
    requires || e.NodeChanged? || e.BeginCycle? || e.DropRequeued? || e.LoadFailed? || e.BeginSchedule?
             || e.EndSchedule? || e.ReleaseSlot? || e.EndCycle? || e.Restart?
    ensures Effect(s, e).rows == s.rows
  {
  }

  lemma RowWriterStep(s: State, e: Event, id: JobId)
    requires Enabled(s, e) && (e.Submit? || e.ResetStale? || e.Assign?)
    requires id in s.rows
    ensures var t := Effect(s, e);
            && id in t.rows && t.rows[id].retry == s.rows[id].retry
            && (|| t.rows[id] == s.rows[id]
                || (e.ResetStale? && s.rows[id].status.Starting?)
                || (e.Assign? && s.rows[id].status.Queued? && id == s.cycle.assigns[0].id))
  {
  }

  lemma OnlyAssignStarts(s: State, e: Event, id: JobId)
    requires FromAgents(e) && InState(Step(s, e).rows, id, Starting) && !InState(s.rows, id, Starting)
    ensures e.Assign? && s.cycle.Assigning? && s.cycle.assigns != []
    ensures id == s.cycle.assigns[0].id && s.cycle.assigns[0].node == Step(s, e).rows[id].node
    ensures Step(s, e).slots == s.slots && InState(s.rows, id, Queued)
  {
    if Records(e) {
      if id in s.rows {
        RecordedStep(s, e, id);
      }
    } else if !e.Submit? && !e.ResetStale? && !e.Assign? {
      OtherStep(s, e);
    }
  }

  // ----- terminal states -----

  function StatusAt(s: State, id: JobId): Option<JobStatus> {
    if id in s.rows then Some(s.rows[id].status) else None
  }

  /** One step, whatever a caller reports, leaves a terminal row as it is or
      moves it to `queued`; and it leaves a lost row lost. */
  lemma TerminalStep(s: State, e: Event, id: JobId)
    requires id in s.rows && IsTerminal(s.rows[id].status)
    ensures var t := Step(s, e);
            && id in t.rows
            && (t.rows[id].status == s.rows[id].status
                || (t.rows[id].status.Queued? && e.Report? && !s.rows[id].status.Lost? && !FromAgents(e)))
  {
    RowStep(s, e, id);
  }

  /** What a step may do to a row. */
  lemma RowStep(s: State, e: Event, id: JobId)
    requires id in s.rows
    ensures var t := Step(s, e);
            && id in t.rows && t.rows[id].retry == s.rows[id].retry
            && (|| t.rows[id] == s.rows[id]
                || (Records(e) && t.rows[id].status == RecordedStatus(e)
                    && (if e.Report? then CanTransition(s.rows[id].status, e.status)
                        else !IsTerminal(s.rows[id].status)))
                || (!Records(e) && (s.rows[id].status.Starting? || s.rows[id].status.Queued?)))
  {
    if Enabled(s, e) {
      if Records(e) {
        RecordedStep(s, e, id);
      } else if e.Submit? || e.ResetStale? || e.Assign? {
        RowWriterStep(s, e, id);
      } else {
        OtherStep(s, e);
      }
    }
  }

  /** No statement removes a row or changes its retry count. */
  lemma RetryStays(s: State, e: Event, id: JobId)
    requires id in s.rows
    ensures id in Step(s, e).rows && Step(s, e).rows[id].retry == s.rows[id].retry
  {
    RowStep(s, e, id);
  }

  /** What a step may do to the status of one row: rows never vanish, and a
      terminal row stays or, unless it is lost, goes back to `queued`, which no
      agent report ever asks for. */
  predicate StatusChange(a: Option<JobStatus>, b: Option<JobStatus>, byAgent: bool) {
    a.Some? ==>
      && b.Some?
      && (IsTerminal(a.value) ==> b == a || (b.value.Queued? && !a.value.Lost? && !byAgent))
  }

  lemma StepStatusChange(s: State, e: Event, id: JobId)
    ensures StatusChange(StatusAt(s, id), StatusAt(Step(s, e), id), FromAgents(e))
  {
    if id in s.rows {
      RetryStays(s, e, id);
      if IsTerminal(s.rows[id].status) {
        TerminalStep(s, e, id);
      }
    }
  }

  /** The statuses one row goes through in a run. */
  function Trail(states: seq<State>, id: JobId): (trail: seq<Option<JobStatus>>)
    ensures |trail| == |states| && forall i | 0 <= i < |states| :: trail[i] == StatusAt(states[i], id)
  {
    seq(|states|, i requires 0 <= i < |states| => StatusAt(states[i], id))
  }

  predicate IsTrail(trail: seq<Option<JobStatus>>, byAgents: bool) {
    forall i | 1 <= i < |trail| :: StatusChange(trail[i - 1], trail[i], byAgents)
  }

  lemma RunTrail(states: seq<State>, events: seq<Event>, id: JobId)
    requires IsRun(states, events)
    ensures IsTrail(Trail(states, id), AgentsOnly(events))
  {
    forall i | 1 <= i < |states|
      ensures StatusChange(Trail(states, id)[i - 1], Trail(states, id)[i], AgentsOnly(events))
    {
      StepStatusChange(states[i - 1], events[i - 1], id);
    }
  }

  lemma {:induction false} TrailFinal(trail: seq<Option<JobStatus>>, byAgents: bool, n: nat)
    requires IsTrail(trail, byAgents) && n < |trail|
    requires trail[0].Some? && IsTerminal(trail[0].value) && (byAgents || trail[0].value.Lost?)
    ensures trail[n] == trail[0]
    decreases n
  {
    if n > 0 {
      TrailFinal(trail, byAgents, n - 1);
    }
  }

  lemma {:induction false} TrailPresent(trail: seq<Option<JobStatus>>, byAgents: bool, n: nat)
    requires IsTrail(trail, byAgents) && n < |trail| && trail[0].Some?
    ensures trail[n].Some?
    decreases n
  {
    if n > 0 {
      TrailPresent(trail, byAgents, n - 1);
    }
  }

  lemma {:induction false} TrailThroughQueued(trail: seq<Option<JobStatus>>, n: nat) returns (k: nat)
    requires IsTrail(trail, false) && n < |trail|
    requires trail[0].Some? && IsTerminal(trail[0].value) && trail[n].Some? && IsActive(trail[n].value)
    ensures 0 < k < n && trail[k] == Some(Queued)
    decreases n
  {
    TrailPresent(trail, false, n - 1);
    k := n - 1;
    if IsActive(trail[n - 1].value) {
      k := TrailThroughQueued(trail, n - 1);
    }
  }

  /** A lost row stays lost, whatever is reported later, by whomever. */
  lemma LostForever(states: seq<State>, events: seq<Event>, n: nat, id: JobId)
    requires IsRun(states, events) && n <= |events| && StatusAt(states[0], id) == Some(Lost)
    ensures StatusAt(states[n], id) == Some(Lost)
  {
    RunTrail(states, events, id);
    TrailFinal(Trail(states, id), AgentsOnly(events), n);
  }

  /** With agents reporting only what the agent code reports, every terminal
      state is final: late and repeated reports change nothing. */
  lemma TerminalForever(states: seq<State>, events: seq<Event>, n: nat, id: JobId)
    requires IsRun(states, events) && AgentsOnly(events) && n <= |events|
    requires id in states[0].rows && IsTerminal(states[0].rows[id].status)
    ensures StatusAt(states[n], id) == StatusAt(states[0], id)
  {
    RunTrail(states, events, id);
    TrailFinal(Trail(states, id), true, n);
  }

  /** Whatever is reported, no terminal row is active again without having been
      `queued` in between. */
  lemma ActiveAgainOnlyThroughQueued(states: seq<State>, events: seq<Event>, n: nat, id: JobId) returns (k: nat)
    requires IsRun(states, events) && n <= |events|
    requires id in states[0].rows && IsTerminal(states[0].rows[id].status)
    requires id in states[n].rows && IsActive(states[n].rows[id].status)
    ensures 0 < k < n && StatusAt(states[k], id) == Some(Queued)
  {
    var trail := Trail(states, id);
    RunTrail(states, events, id);
    assert IsTrail(trail, false);
    k := TrailThroughQueued(trail, n);
  }

  /** A report of success is recorded exactly from `running` and `stopping`: a
      replayed success that finds the row still `starting` is rejected. */
  lemma SuccessRecordedIff(s: State, id: JobId)
    requires id in s.rows && !s.rows[id].status.Succeeded?
    ensures StatusAt(Step(s, Report(id, Succeeded)), id) == Some(Succeeded)
            <==> s.rows[id].status.Running? || s.rows[id].status.Stopping?
    ensures s.rows[id].status.Starting? ==> Step(s, Report(id, Succeeded)) == s
  {
    var e := Report(id, Succeeded);
    if Enabled(s, e) {
      RecordedStep(s, e, id);
      assert Effect(s, e).rows[id].status == Succeeded;
    }
  }

  /** The statuses from which a report is recorded, one by one. */
  predicate RecordedFrom(from: JobStatus, to: JobStatus) {
    match to
    case Queued => from.Succeeded? || from.Failed? || from.Cancelled?
    case Starting => from.Queued?
    case Running => from.Starting?
    case Stopping => from.Running?
    case Succeeded => from.Running? || from.Stopping?
    case Failed => from.Queued? || from.Starting? || from.Running? || from.Stopping?
    case Cancelled => from.Queued? || from.Starting? || from.Running? || from.Stopping?
    case Lost => from.Running? || from.Stopping?
  }

  /** A report is recorded exactly from those, and then nothing of the row but its
      status changes; from any other it changes nothing at all. */
  lemma ReportRecordedIff(s: State, id: JobId, status: JobStatus)
    requires id in s.rows
    ensures var t := Step(s, Report(id, status));
            if RecordedFrom(s.rows[id].status, status)
            then t.rows == s.rows[id := s.rows[id].(status := status)]
            else t == s
  {
    var e := Report(id, status);
    assert CanTransition(s.rows[id].status, status) <==> RecordedFrom(s.rows[id].status, status);
    assert WithStatus(s.rows, {id}, status) == s.rows[id := s.rows[id].(status := status)];
  }

  /** The three ways to cancel, and exactly when they act: a queued job is cancelled
      for good, an active one is asked to stop, and nothing else changes. */
  lemma CancelsActIff(s: State, id: JobId)
    requires id in s.rows
    ensures var status := s.rows[id].status;
            && Step(s, CancelQueued(id)) == (if status.Queued?
                 then s.(rows := s.rows[id := s.rows[id].(status := Cancelled)],
                         tasks := s.tasks + multiset{Unqueue(id), FreeSlot(id)}) else s)
            && (Enabled(s, MarkStopping(id)) <==> status.Starting? || status.Running?)
            && Step(s, MarkStopping(id)).rows == (if status.Starting? || status.Running?
                 then s.rows[id := s.rows[id].(status := Stopping)] else s.rows)
            && Step(s, RpcCancel(id)).rows == (if status.Starting? || status.Running? || status.Stopping?
                 then s.rows[id := s.rows[id].(status := Stopping)] else s.rows)
  {
    assert WithStatus(s.rows, {id}, Cancelled) == s.rows[id := s.rows[id].(status := Cancelled)];
    assert WithStatus(s.rows, {id}, Stopping) == s.rows[id := s.rows[id].(status := Stopping)];
  }

  // ----- where the guarantee ends -----

  /** The write behind a status report, on its own: it checks nothing. */
  function RawWrite(s: State, id: JobId, status: JobStatus): State {
    s.(rows := WithStatus(s.rows, {id}, status))
  }

  /** A bare write keeps the agreement exactly when it does not make the row
      active, or the row has its slot. */
  lemma RawWriteAgreesIff(s: State, id: JobId, status: JobStatus)
    requires Agreement(s) && id in s.rows
    ensures Agreement(RawWrite(s, id, status))
       <==> (!IsActive(status) || (id in s.slots && s.slots[id].node == s.rows[id].node))
  {
    var t := RawWrite(s, id, status);
    assert t.rows[id].status == status && t.rows[id].node == s.rows[id].node;
  }

  /** If a report's check and its write were separate steps, the agreement would
      be lost whenever the row is requeued and its slot dropped in between: the
      check on the `starting` row passes, the later write makes it active. */
  lemma SplitReportLosesSlot(s: State, id: JobId, cutoff: int)
    requires Enabled(s, ResetStale(cutoff)) && id in StaleStarting(s.rows, cutoff, OnlineNodes(s.registry))
    ensures Enabled(s, Report(id, Running))
    ensures var t := Effect(s, ResetStale(cutoff));
            Enabled(t, DropRequeued(id)) && !Agreement(RawWrite(Effect(t, DropRequeued(id)), id, Running))
  {
    var t := Effect(s, ResetStale(cutoff));
    var u := Effect(t, DropRequeued(id));
    assert id !in u.slots;
    assert RawWrite(u, id, Running).rows[id].status == Running;
  }

  /** The streaming report handler frees the slot of a finished job even when
      its write failed. */
  function StreamReportDone(s: State, id: JobId, status: JobStatus, wrote: bool): State {
    var t := if wrote then RawWrite(s, id, status) else s;
    if IsTerminal(status) then Freeing(t, id) else t
  }

  /** It therefore keeps the agreement exactly when the write succeeded or the
      row was not active; agents use the other, unary handler. */
  lemma StreamReportAgreesIff(s: State, id: JobId, status: JobStatus, wrote: bool)
    requires Agreement(s) && id in s.rows && IsTerminal(status)
    ensures Agreement(StreamReportDone(s, id, status, wrote)) <==> wrote || !IsActive(s.rows[id].status)
  {
    var t := StreamReportDone(s, id, status, wrote);
    assert t.rows[id].status == if wrote then status else s.rows[id].status;
  }

  /** When the startup read of the active rows fails, the server goes on with no
      slots: that agrees with the rows exactly when none is active. */
  lemma BlindRestartAgreesIff(s: State)
    ensures Agreement(Effect(s, Restart).(slots := map[])) <==> ActiveIds(s.rows) == {}
  {
    var t := Effect(s, Restart).(slots := map[]);
    if ActiveIds(s.rows) != {} {
      var id :| id in ActiveIds(s.rows);
      assert id in t.rows && IsActive(t.rows[id].status);
    } else {
      assert forall id | id in t.rows && IsActive(t.rows[id].status) :: id in ActiveIds(s.rows);
    }
  }

  // ----- what the steps leave out -----

  /** A dispatch write that took effect while its answer was lost: the cycle
      takes it for failed and releases the slot. */
  function AnswerLost(s: State, now: int): State
    requires s.cycle.Assigning? && s.cycle.assigns != []
  {
    var j := s.cycle.assigns[0];
    var rows := if InState(s.rows, j.id, Queued) then Dispatched(s.rows, j.id, j.node, now) else s.rows;
    Freeing(s.(rows := rows, cycle := Assigning(s.cycle.assigns[1..])), j.id)
  }

  /** It keeps the agreement exactly when the write changed nothing, because the
      job had left the queue before. */
  lemma AnswerLostAgreesIff(s: State, now: int)
    requires Inv(s) && s.cycle.Assigning? && s.cycle.assigns != []
    ensures Agreement(AnswerLost(s, now)) <==> !InState(s.rows, s.cycle.assigns[0].id, Queued)
  {
    var j := s.cycle.assigns[0];
    var t := AnswerLost(s, now);
    assert j in Pending(s.cycle);
    if InState(s.rows, j.id, Queued) {
      assert t.rows[j.id].status == Starting;
    }
  }

  /** Handlers that are dropped between their statement and their slot update:
      their tasks are never run. */
  function HandlersDropped(s: State): State {
    s.(tasks := multiset{})
  }

  /** Active rows keep their slots, but the slots are exactly the active rows
      only when none of those tasks had a slot to free. */
  lemma HandlersDroppedExactIff(s: State)
    requires Inv(s) && s.cycle.Idle?
    ensures var t := HandlersDropped(s);
            && Agreement(t) && Quiet(t)
            && (t.slots.Keys == ActiveIds(t.rows) <==> forall id | FreeSlot(id) in s.tasks :: id !in s.slots)
  {
    forall id | FreeSlot(id) in s.tasks ensures id !in ActiveIds(s.rows) {
      assert IsTerminal(s.rows[FreeSlot(id).id].status);
    }
    forall id | id in s.slots && FreeSlot(id) !in s.tasks ensures id in ActiveIds(s.rows) {
      assert !Excused(s, id);
    }
  }
}
