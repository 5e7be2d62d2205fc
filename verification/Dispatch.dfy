/**
 The dispatch protocol: the job rows in the database, the scheduler's memory,
 the one background task that runs scheduling cycles, and the request handlers
 that run beside it. Every database statement is one step and every critical
 section under the scheduler's locks is one step, interleaved in any order;
 only a report handler's read, check and write form a single step.
 Sources: crates/server/src/lib.rs, crates/server/src/grpc.rs,
 crates/server/src/handlers.rs, crates/scheduler/src/lib.rs.
 */
module Dispatch {
  import opened Text
  import opened Jobs
  import opened Scheduling
  import opened JobTable

  /** What a handler still has to do to the scheduler after its statement. */
  datatype Task = FreeSlot(id: JobId) | Unqueue(id: JobId)

  datatype NodeInfo = NodeInfo(isOnline: bool, gpuCount: nat)

  /** Where the background task is in its cycle. */
  datatype Cycle =
    | Idle
    | Refreshed
    | Dropping(drops: set<JobId>)
    | Loading(loaded: set<JobId>, rows: seq<Job>)
    | Placing(todo: seq<Job>, remaining: seq<Job>, scheduled: seq<Job>)
    | Chosen(job: Job, node: NodeId, todo: seq<Job>, remaining: seq<Job>, scheduled: seq<Job>)
    | Assigning(assigns: seq<Job>)
    | Releasing(id: JobId, assigns: seq<Job>)

  datatype State = State(
    rows: Rows,
    queue: seq<Job>,
    slots: Slots,
    capacity: Capacity,
    registry: map<NodeId, NodeInfo>,
    online: set<NodeId>, // the nodes online when the last cycle began
    cycle: Cycle,
    tasks: multiset<Task>
  )

  datatype Event =
    | Submit(id: JobId, node: NodeId, quota: Quota, at: int, retry: nat)
    | NodeChanged(node: NodeId, info: NodeInfo)
    // request handlers
    | CancelQueued(id: JobId)
    | MarkStopping(id: JobId)
    | RpcCancel(id: JobId)
    | Report(id: JobId, status: JobStatus)
    | RunTask(task: Task)
    // reaping
    | LoseOnNodes(dead: set<NodeId>)
    | LoseRunningOn(dead: set<NodeId>)
    | LoseStopping(cutoff: int)
    // the scheduling cycle
    | BeginCycle
    | ResetStale(cutoff: int)
    | DropRequeued(id: JobId)
    | LoadRows(order: seq<JobId>)
    | LoadFailed
    | EnqueueNext
    | BeginSchedule
    | CheckNext
    | InsertSlot
    | EndSchedule
    | Assign(reached: bool, now: int)
    | ReleaseSlot
    | EndCycle
    | Restart

  const INIT := State(map[], [], map[], map[], map[], {}, Idle, multiset{})

  function OnlineNodes(registry: map<NodeId, NodeInfo>): set<NodeId> {
    set n | n in registry && registry[n].isOnline
  }

  function RefreshedCapacity(capacity: Capacity, registry: map<NodeId, NodeInfo>): Capacity {
    map n | n in capacity.Keys + registry.Keys ::
      if n in registry then (if registry[n].isOnline then registry[n].gpuCount else 0) else capacity[n]
  }

  predicate InJobs(jobs: seq<Job>, id: JobId) {
    exists j :: j in jobs && j.id == id
  }

  /** The list is some order of exactly the queued rows. */
  ghost predicate ListsQueue(order: seq<JobId>, rows: Rows) {
    forall id :: id in order <==> id in Queue(rows)
  }

  function JobsOf(order: seq<JobId>, rows: Rows): (jobs: seq<Job>)
    requires forall id | id in order :: id in rows
    ensures |jobs| == |order| && forall i | 0 <= i < |jobs| :: jobs[i] == ToJob(order[i], rows[order[i]])
  {
    seq(|order|, i requires 0 <= i < |order| => ToJob(order[i], rows[order[i]]))
  }

  predicate LocksQueue(c: Cycle) {
    c.Placing? || c.Chosen?
  }

  ghost predicate Enabled(s: State, e: Event) {
    match e
    case Submit(id, node, quota, at, retry) => id !in s.rows
    case NodeChanged(node, info) => info.gpuCount <= U32_MAX
    case CancelQueued(id) => InState(s.rows, id, Queued)
    case MarkStopping(id) => InState(s.rows, id, Starting) || InState(s.rows, id, Running)
    case RpcCancel(id) => id in s.rows && IsActive(s.rows[id].status)
    case Report(id, status) => id in s.rows && CanTransition(s.rows[id].status, status)
    case RunTask(task) => task in s.tasks && (task.Unqueue? ==> !LocksQueue(s.cycle))
    case LoseOnNodes(dead) => true
    case LoseRunningOn(dead) => true
    case LoseStopping(cutoff) => true
    case BeginCycle => s.cycle.Idle?
    case ResetStale(cutoff) => s.cycle.Refreshed?
    case DropRequeued(id) => s.cycle.Dropping? && id in s.cycle.drops
    case LoadRows(order) => s.cycle.Dropping? && s.cycle.drops == {} && ListsQueue(order, s.rows)
    case LoadFailed => s.cycle.Dropping? && s.cycle.drops == {}
    case EnqueueNext => s.cycle.Loading? && s.cycle.rows != []
    case BeginSchedule => s.cycle.Loading? && s.cycle.rows == []
    case CheckNext => s.cycle.Placing? && s.cycle.todo != []
    case InsertSlot => s.cycle.Chosen?
    case EndSchedule => s.cycle.Placing? && s.cycle.todo == []
    case Assign(reached, now) => s.cycle.Assigning? && s.cycle.assigns != []
    case ReleaseSlot => s.cycle.Releasing?
    case EndCycle => s.cycle.Assigning? && s.cycle.assigns == []
    case Restart => true
  }

  function Recording(s: State, ids: set<JobId>, status: JobStatus, tasks: multiset<Task>): State {
    s.(rows := WithStatus(s.rows, ids, status), tasks := s.tasks + tasks)
  }

  function FreeSlots(ids: set<JobId>): multiset<Task> {
    multiset(set id | id in ids :: FreeSlot(id))
  }

  function Freeing(s: State, id: JobId): State {
    s.(slots := s.slots - {id})
  }

  function Unqueueing(s: State, id: JobId): State {
    s.(queue := Without(s.queue, |s.queue|, id))
  }

  function TaskDone(s: State, task: Task): State {
    s.(tasks := s.tasks - multiset{task})
  }

  function Refreshing(s: State): State {
    s.(capacity := RefreshedCapacity(s.capacity, s.registry), online := OnlineNodes(s.registry), cycle := Refreshed)
  }

  function Requeueing(s: State, ids: set<JobId>): State {
    s.(rows := Requeued(s.rows, ids), cycle := Dropping(ids))
  }

  function Enqueueing(s: State, j: Job, rest: seq<Job>): State
    requires s.cycle.Loading?
  {
    s.(queue := if j.id in s.slots || InJobs(s.queue, j.id) then s.queue else s.queue + [j],
       cycle := Loading(s.cycle.loaded + {j.id}, rest))
  }

  function Checking(s: State, j: Job, rest: seq<Job>, choice: Option<NodeId>): State
    requires s.cycle.Placing?
  {
    match choice
    case Some(node) => s.(cycle := Chosen(j, node, rest, s.cycle.remaining, s.cycle.scheduled))
    case None => s.(cycle := Placing(rest, s.cycle.remaining + [j], s.cycle.scheduled))
  }

  function Inserting(s: State, placed: Job): State
    requires s.cycle.Chosen?
  {
    s.(slots := s.slots[placed.id := placed],
       cycle := Placing(s.cycle.todo, s.cycle.remaining, s.cycle.scheduled + [placed]))
  }

  function AssigningNext(s: State, j: Job, rest: seq<Job>, reached: bool, now: int): State {
    if reached && InState(s.rows, j.id, Queued)
    then s.(rows := Dispatched(s.rows, j.id, j.node, now), cycle := Assigning(rest))
    else s.(cycle := Releasing(j.id, rest))
  }

  ghost function Effect(s: State, e: Event): State
    requires Enabled(s, e)
  {
    match e
    case Submit(id, node, quota, at, retry) => s.(rows := s.rows[id := Row(Queued, node, quota, at, None, retry)])
    case NodeChanged(node, info) => s.(registry := s.registry[node := info])
    case CancelQueued(id) => Recording(s, {id}, Cancelled, multiset{Unqueue(id), FreeSlot(id)})
    case MarkStopping(id) => Recording(s, {id}, Stopping, multiset{})
    case RpcCancel(id) => Recording(s, {id}, Stopping, multiset{})
    case Report(id, status) =>
      Recording(s, {id}, status, if IsTerminal(status) then multiset{FreeSlot(id)} else multiset{})
    case RunTask(task) =>
      if task.FreeSlot? then Freeing(TaskDone(s, task), task.id) else Unqueueing(TaskDone(s, task), task.id)
    case LoseOnNodes(dead) => Recording(s, ActiveOn(s.rows, dead), Lost, FreeSlots(ActiveOn(s.rows, dead)))
    case LoseRunningOn(dead) => Recording(s, RunningOn(s.rows, dead), Lost, FreeSlots(RunningOn(s.rows, dead)))
    case LoseStopping(cutoff) => Recording(s, StaleStopping(s.rows, cutoff), Lost, FreeSlots(StaleStopping(s.rows, cutoff)))
    case BeginCycle => Refreshing(s)
    case ResetStale(cutoff) => Requeueing(s, StaleStarting(s.rows, cutoff, OnlineNodes(s.registry)))
    case DropRequeued(id) => Freeing(s.(cycle := Dropping(s.cycle.drops - {id})), id)
    case LoadRows(order) => s.(cycle := Loading({}, JobsOf(order, s.rows)))
    case LoadFailed => s.(cycle := Loading({}, []))
    case EnqueueNext => Enqueueing(s, s.cycle.rows[0], s.cycle.rows[1..])
    case BeginSchedule => s.(queue := [], cycle := Placing(s.queue, [], []))
    case CheckNext =>
      Checking(s, s.cycle.todo[0], s.cycle.todo[1..], NodeFor(s.cycle.todo[0], s.slots, s.capacity))
    case InsertSlot => Inserting(s, Placed(s.cycle.job, s.cycle.node))
    case EndSchedule => s.(queue := s.cycle.remaining, cycle := Assigning(s.cycle.scheduled))
    case Assign(reached, now) => AssigningNext(s, s.cycle.assigns[0], s.cycle.assigns[1..], reached, now)
    case ReleaseSlot => Freeing(s.(cycle := Assigning(s.cycle.assigns)), s.cycle.id)
    case EndCycle => s.(cycle := Idle)
    case Restart => State(s.rows, [], ActiveSlots(s.rows), map[], map[], {}, Idle, multiset{})
  }

  /** An event that cannot happen changes nothing. */
  ghost function Step(s: State, e: Event): State {
    if Enabled(s, e) then Effect(s, e) else s
  }

  /** A run: the states between successive events. */
  ghost predicate IsRun(states: seq<State>, events: seq<Event>) {
    && |states| == |events| + 1
    && forall i {:trigger events[i]} | 0 <= i < |events| :: states[i + 1] == Step(states[i], events[i])
  }

  /** Agents report only what the agent code reports. */
  predicate FromAgents(e: Event) {
    e.Report? ==> AgentReports(e.status)
  }

  // ----- the invariant -----

  /** Jobs waiting for a node. */
  function Waiting(s: State): seq<Job> {
    match s.cycle
    case Placing(todo, remaining, scheduled) => remaining + todo
    case Chosen(job, node, todo, remaining, scheduled) => remaining + ([job] + todo)
    case _ => s.queue
  }

  /** Jobs that have a slot but whose dispatch is not yet written. */
  function Pending(c: Cycle): seq<Job> {
    match c
    case Placing(todo, remaining, scheduled) => scheduled
    case Chosen(job, node, todo, remaining, scheduled) => scheduled
    case Assigning(assigns) => assigns
    case Releasing(id, assigns) => assigns
    case _ => []
  }


  /** Every active row has a slot on the same node. */
  predicate Agreement(s: State) {
    forall id | id in s.rows && IsActive(s.rows[id].status) ::
      id in s.slots && s.slots[id].node == s.rows[id].node
  }

  predicate Known(rows: Rows, j: Job) {
    j.id in rows && rows[j.id].quota == j.quota
  }

  predicate AllKnown(s: State) {
    && (forall id | id in s.slots :: s.slots[id].id == id && Known(s.rows, s.slots[id]))
    && (forall j | j in Waiting(s) :: Known(s.rows, j))
    && (s.cycle.Loading? ==> forall j | j in s.cycle.rows :: Known(s.rows, j))
  }

  predicate Inactive(rows: Rows, id: JobId) {
    id in rows && !IsActive(rows[id].status)
  }

  /** The reason a slot may exist without an active row. */
  predicate Excused(s: State, id: JobId) {
    || FreeSlot(id) in s.tasks
    || InJobs(Pending(s.cycle), id)
    || (s.cycle.Dropping? && id in s.cycle.drops)
    || (s.cycle.Releasing? && id == s.cycle.id)
  }

  predicate SlotsJustified(s: State) {
    forall id | id in s.slots :: (id in s.rows && IsActive(s.rows[id].status)) || Excused(s, id)
  }

  predicate TasksTerminal(s: State) {
    forall t | t in s.tasks :: t.id in s.rows && IsTerminal(s.rows[t.id].status)
  }

  predicate CycleOk(s: State) {
    && (s.cycle.Dropping? ==> forall id | id in s.cycle.drops :: Inactive(s.rows, id))
    && (s.cycle.Releasing? ==> Inactive(s.rows, s.cycle.id) && !InJobs(s.cycle.assigns, s.cycle.id))
    && (forall j | j in Pending(s.cycle) ::
          && Inactive(s.rows, j.id)
          && j.node in s.online
          && (s.rows[j.id].status.Queued? ==> j.id in s.slots && s.slots[j.id] == j))
  }

  predicate Disjoint(a: seq<Job>, b: seq<Job>) {
    forall j, k | j in a && k in b :: j.id != k.id
  }

  predicate Apart(s: State) {
    && DistinctIds(Waiting(s)) && DistinctIds(Pending(s.cycle))
    && Disjoint(Pending(s.cycle), Waiting(s))
    && (forall j | j in Waiting(s) :: j.id !in s.slots)
  }

  ghost predicate CapacityOk(s: State) {
    && (forall n | n in s.registry :: s.registry[n].gpuCount <= U32_MAX)
    && (forall n | n in s.capacity ::
          n in s.registry && s.capacity[n] <= U32_MAX && (s.capacity[n] > 0 ==> n in s.online))
    && (forall n :: InUse(s.slots, n) <= U32_MAX)
    && (s.cycle.Chosen? ==> Fits(s.slots, s.capacity, Gpus(s.cycle.job), s.cycle.node) && s.cycle.node in s.online)
  }

  predicate LoadedQueued(s: State) {
    s.cycle.Loading? ==>
      forall id | id in s.cycle.loaded :: id in s.rows && (s.rows[id].status.Queued? ==> InJobs(s.queue, id))
  }

  ghost predicate Inv(s: State) {
    && Agreement(s) && AllKnown(s) && SlotsJustified(s) && TasksTerminal(s)
    && CycleOk(s) && Apart(s) && CapacityOk(s) && LoadedQueued(s)
  }

  // ----- every step keeps it -----

  /** How a handler or reaping statement may change the rows: an active row
      stays active on its node, or a row becomes terminal and the removal of
      its slot is scheduled. */
  ghost predicate Evolves(s: State, t: State) {
    && t == s.(rows := t.rows, tasks := t.tasks)
    && t.rows.Keys == s.rows.Keys
    && (forall id | id in t.rows ::
          && t.rows[id].node == s.rows[id].node && t.rows[id].quota == s.rows[id].quota
          && (|| t.rows[id].status == s.rows[id].status
              || (IsActive(t.rows[id].status) && IsActive(s.rows[id].status))
              || (IsTerminal(t.rows[id].status) && !IsTerminal(s.rows[id].status) && FreeSlot(id) in t.tasks)))
    && (forall k | k in s.tasks :: k in t.tasks)
    && (forall k | k in t.tasks :: k in s.tasks || (k.id in t.rows && IsTerminal(t.rows[k.id].status)))
  }

  lemma KeepEvolving(s: State, t: State)
    requires Inv(s) && Evolves(s, t)
    ensures Inv(t)
  {
    assert Waiting(t) == Waiting(s);
    EvolvingKnown(s, t);
    EvolvingSlots(s, t);
    EvolvingTasks(s, t);
    EvolvingCycle(s, t);
  }

  lemma EvolvingKnown(s: State, t: State)
    requires Evolves(s, t) && AllKnown(s)
    ensures AllKnown(t)
  {
    assert Waiting(t) == Waiting(s);
  }

  lemma EvolvingSlots(s: State, t: State)
    requires Evolves(s, t) && AllKnown(s) && SlotsJustified(s) && Agreement(s)
    ensures SlotsJustified(t) && Agreement(t)
  {
    forall id | id in t.slots
      ensures (id in t.rows && IsActive(t.rows[id].status)) || Excused(t, id)
    {
      assert Known(s.rows, s.slots[id]);
      assert Excused(s, id) ==> Excused(t, id);
    }
  }

  lemma EvolvingTasks(s: State, t: State)
    requires Evolves(s, t) && TasksTerminal(s)
    ensures TasksTerminal(t)
  {
  }

  lemma EvolvingCycle(s: State, t: State)
    requires Evolves(s, t) && CycleOk(s) && LoadedQueued(s)
    ensures CycleOk(t) && LoadedQueued(t)
  {
    assert forall id | Inactive(s.rows, id) :: Inactive(t.rows, id);
    assert forall id | id in s.rows && t.rows[id].status.Queued? :: s.rows[id].status.Queued?;
  }

  lemma RecordingEvolves(s: State, ids: set<JobId>, status: JobStatus, tasks: multiset<Task>)
    requires forall id | id in ids ::
               id in s.rows && (|| (IsActive(status) && IsActive(s.rows[id].status))
                                || (IsTerminal(status) && !IsTerminal(s.rows[id].status) && FreeSlot(id) in tasks))
    requires forall k | k in tasks :: k.id in ids && IsTerminal(status)
    ensures Evolves(s, Recording(s, ids, status, tasks))
  {
    var t := Recording(s, ids, status, tasks);
    assert forall k | k in s.tasks || k in tasks :: k in t.tasks;
  }

  lemma KeepCancelQueued(s: State, id: JobId)
    requires Inv(s) && InState(s.rows, id, Queued)
    ensures Inv(Recording(s, {id}, Cancelled, multiset{Unqueue(id), FreeSlot(id)}))
  {
    RecordingEvolves(s, {id}, Cancelled, multiset{Unqueue(id), FreeSlot(id)});
    KeepEvolving(s, Recording(s, {id}, Cancelled, multiset{Unqueue(id), FreeSlot(id)}));
  }

  lemma KeepStopping(s: State, id: JobId)
    requires Inv(s) && id in s.rows && IsActive(s.rows[id].status)
    ensures Inv(Recording(s, {id}, Stopping, multiset{}))
  {
    RecordingEvolves(s, {id}, Stopping, multiset{});
    KeepEvolving(s, Recording(s, {id}, Stopping, multiset{}));
  }

  lemma KeepReport(s: State, id: JobId, status: JobStatus)
    requires Inv(s) && id in s.rows && CanTransition(s.rows[id].status, status) && AgentReports(status)
    ensures Inv(Recording(s, {id}, status, if IsTerminal(status) then multiset{FreeSlot(id)} else multiset{}))
  {
    var tasks := if IsTerminal(status) then multiset{FreeSlot(id)} else multiset{};
    RecordingEvolves(s, {id}, status, tasks);
    KeepEvolving(s, Recording(s, {id}, status, tasks));
  }

  lemma KeepLosing(s: State, ids: set<JobId>)
    requires Inv(s) && forall id | id in ids :: id in s.rows && IsActive(s.rows[id].status)
    ensures Inv(Recording(s, ids, Lost, FreeSlots(ids)))
  {
    RecordingEvolves(s, ids, Lost, FreeSlots(ids));
    KeepEvolving(s, Recording(s, ids, Lost, FreeSlots(ids)));
  }

  lemma KeepSubmit(s: State, id: JobId, row: Row)
    requires Inv(s) && id !in s.rows && row.status.Queued?
    ensures Inv(s.(rows := s.rows[id := row]))
  {
    SubmitKnown(s, id, row);
    SubmitSlots(s, id, row);
    SubmitCycle(s, id, row);
  }

  lemma SubmitKnown(s: State, id: JobId, row: Row)
    requires AllKnown(s) && Agreement(s) && Apart(s) && id !in s.rows && row.status.Queued?
    ensures var t := s.(rows := s.rows[id := row]); AllKnown(t) && Agreement(t) && Apart(t)
  {
    assert Waiting(s.(rows := s.rows[id := row])) == Waiting(s);
  }

  lemma SubmitCycle(s: State, id: JobId, row: Row)
    requires CycleOk(s) && LoadedQueued(s) && TasksTerminal(s) && CapacityOk(s) && id !in s.rows
    ensures var t := s.(rows := s.rows[id := row]);
            CycleOk(t) && LoadedQueued(t) && TasksTerminal(t) && CapacityOk(t)
  {
  }

  lemma SubmitSlots(s: State, id: JobId, row: Row)
    requires AllKnown(s) && SlotsJustified(s) && id !in s.rows
    ensures SlotsJustified(s.(rows := s.rows[id := row]))
  {
    var t := s.(rows := s.rows[id := row]);
    forall k | k in t.slots
      ensures (k in t.rows && IsActive(t.rows[k].status)) || Excused(t, k)
    {
      assert Known(s.rows, s.slots[k]);
      assert Excused(s, k) ==> Excused(t, k);
    }
  }

  lemma KeepNodeChanged(s: State, node: NodeId, info: NodeInfo)
    requires Inv(s) && info.gpuCount <= U32_MAX
    ensures Inv(s.(registry := s.registry[node := info]))
  {
    var t := s.(registry := s.registry[node := info]);
    assert Waiting(t) == Waiting(s);
    assert forall k | Excused(s, k) :: Excused(t, k);
  }

  /** Removing a slot whose row is not active, and with it the reason to. */
  lemma KeepFreeing(s: State, id: JobId, c: Cycle, tasks: multiset<Task>)
    requires Inv(s) && Inactive(s.rows, id)
    requires Pending(c) == Pending(s.cycle)
    requires c == s.cycle || (s.cycle.Dropping? && c == Dropping(s.cycle.drops - {id}))
             || (s.cycle.Releasing? && id == s.cycle.id && c == Assigning(s.cycle.assigns))
    requires forall k | k in tasks :: k in s.tasks
    requires forall k | k in s.tasks && k != FreeSlot(id) :: k in tasks
    requires InJobs(Pending(s.cycle), id) ==> !s.rows[id].status.Queued?
    ensures Inv(Freeing(s.(cycle := c, tasks := tasks), id))
  {
    var t := Freeing(s.(cycle := c, tasks := tasks), id);
    assert Waiting(t) == Waiting(s);
    FreeingKnown(s, id, t);
    FreeingRows(s, id, t);
    FreeingCycle(s, id, t);
    FreeingJustified(s, id, t);
    FreeingCapacity(s, id, t);
  }

  lemma FreeingKnown(s: State, id: JobId, t: State)
    requires AllKnown(s) && Apart(s) && t.rows == s.rows && t.slots == s.slots - {id} && Waiting(t) == Waiting(s)
    requires Pending(t.cycle) == Pending(s.cycle) && (t.cycle.Loading? ==> t.cycle == s.cycle)
    ensures AllKnown(t) && Apart(t)
  {
  }

  lemma FreeingRows(s: State, id: JobId, t: State)
    requires Agreement(s) && TasksTerminal(s) && LoadedQueued(s) && Inactive(s.rows, id)
    requires t.rows == s.rows && t.slots == s.slots - {id} && t.queue == s.queue
    requires (forall k | k in t.tasks :: k in s.tasks) && (t.cycle.Loading? ==> t.cycle == s.cycle)
    ensures Agreement(t) && TasksTerminal(t) && LoadedQueued(t)
  {
  }

  lemma FreeingCycle(s: State, id: JobId, t: State)
    requires CycleOk(s) && t.rows == s.rows && t.slots == s.slots - {id} && t.online == s.online
    requires Pending(t.cycle) == Pending(s.cycle)
    requires t.cycle == s.cycle || t.cycle.Assigning? || (s.cycle.Dropping? && t.cycle == Dropping(s.cycle.drops - {id}))
    requires InJobs(Pending(s.cycle), id) ==> !s.rows[id].status.Queued?
    ensures CycleOk(t)
  {
    assert forall j | j in Pending(s.cycle) && j.id == id :: InJobs(Pending(s.cycle), id);
  }

  lemma FreeingJustified(s: State, id: JobId, t: State)
    requires SlotsJustified(s) && t.rows == s.rows && t.slots == s.slots - {id}
    requires Pending(t.cycle) == Pending(s.cycle)
    requires t.cycle == s.cycle || (s.cycle.Dropping? && t.cycle == Dropping(s.cycle.drops - {id}))
             || (s.cycle.Releasing? && id == s.cycle.id && t.cycle == Assigning(s.cycle.assigns))
    requires forall k | k in s.tasks && k != FreeSlot(id) :: k in t.tasks
    ensures SlotsJustified(t)
  {
    assert forall k | Excused(s, k) && k != id :: Excused(t, k);
  }

  lemma FreeingCapacity(s: State, id: JobId, t: State)
    requires CapacityOk(s) && t.slots == s.slots - {id}
    requires t.capacity == s.capacity && t.registry == s.registry && t.online == s.online
    requires t.cycle.Chosen? ==> t.cycle == s.cycle
    ensures CapacityOk(t)
  {
    forall n ensures InUse(t.slots, n) <= InUse(s.slots, n) {
      InUseDrop(s.slots, n, id);
    }
  }

  lemma KeepFreeTask(s: State, id: JobId)
    requires Inv(s) && FreeSlot(id) in s.tasks
    ensures Inv(Freeing(TaskDone(s, FreeSlot(id)), id))
  {
    var tasks := s.tasks - multiset{FreeSlot(id)};
    assert IsTerminal(s.rows[FreeSlot(id).id].status);
    KeepFreeing(s, id, s.cycle, tasks);
    assert TaskDone(s, FreeSlot(id)) == s.(cycle := s.cycle, tasks := tasks);
  }

  lemma KeepUnqueue(s: State, id: JobId)
    requires Inv(s) && Unqueue(id) in s.tasks && !LocksQueue(s.cycle)
    ensures Inv(Unqueueing(TaskDone(s, Unqueue(id)), id))
  {
    var t := Unqueueing(TaskDone(s, Unqueue(id)), id);
    assert IsTerminal(s.rows[Unqueue(id).id].status);
    assert s.queue[..|s.queue|] == s.queue;
    assert Waiting(t) == t.queue && Waiting(s) == s.queue;
    assert forall j :: j in t.queue <==> j in s.queue && j.id != id;
    UnqueueKnown(s, t, id);
    UnqueueLoaded(s, t, id);
    UnqueueJustified(s, t, id);
  }

  lemma UnqueueKnown(s: State, t: State, id: JobId)
    requires AllKnown(s) && Apart(s) && t == s.(queue := t.queue, tasks := t.tasks)
    requires Waiting(t) == t.queue && Waiting(s) == s.queue && DistinctIds(t.queue)
    requires forall j | j in t.queue :: j in s.queue
    ensures AllKnown(t) && Apart(t)
  {
  }

  lemma UnqueueLoaded(s: State, t: State, id: JobId)
    requires LoadedQueued(s) && t == s.(queue := t.queue, tasks := t.tasks) && !InState(s.rows, id, Queued)
    requires forall j | j in s.queue && j.id != id :: j in t.queue
    ensures LoadedQueued(t)
  {
    if t.cycle.Loading? {
      forall k | k in t.cycle.loaded && t.rows[k].status.Queued? ensures InJobs(t.queue, k) {
        var j :| j in s.queue && j.id == k;
        assert j in t.queue;
      }
    }
  }

  lemma UnqueueJustified(s: State, t: State, id: JobId)
    requires SlotsJustified(s) && t == s.(queue := t.queue, tasks := s.tasks - multiset{Unqueue(id)})
    ensures SlotsJustified(t)
  {
    assert forall k | FreeSlot(k) in s.tasks :: FreeSlot(k) in t.tasks;
    assert forall k | Excused(s, k) :: Excused(t, k);
  }

  lemma KeepBeginCycle(s: State)
    requires Inv(s) && s.cycle.Idle?
    ensures Inv(Refreshing(s))
  {
    var t := Refreshing(s);
    assert Waiting(t) == Waiting(s);
    assert forall n | n in t.capacity :: n in s.registry;
    assert forall k | Excused(s, k) :: Excused(t, k);
  }

  lemma KeepResetStale(s: State, ids: set<JobId>)
    requires Inv(s) && s.cycle.Refreshed?
    requires forall id | id in ids :: id in s.rows && s.rows[id].status.Starting?
    ensures Inv(Requeueing(s, ids))
  {
    RequeueKnown(s, ids);
    RequeueJustified(s, ids);
    RequeueRows(s, ids);
  }

  lemma RequeueKnown(s: State, ids: set<JobId>)
    requires AllKnown(s) && Apart(s) && CapacityOk(s) && s.cycle.Refreshed?
    ensures AllKnown(Requeueing(s, ids)) && Apart(Requeueing(s, ids)) && CapacityOk(Requeueing(s, ids))
  {
    assert Waiting(Requeueing(s, ids)) == Waiting(s);
  }

  lemma RequeueRows(s: State, ids: set<JobId>)
    requires Agreement(s) && TasksTerminal(s) && s.cycle.Refreshed?
    requires forall id | id in ids :: id in s.rows && s.rows[id].status.Starting?
    ensures var t := Requeueing(s, ids); Agreement(t) && TasksTerminal(t) && CycleOk(t) && LoadedQueued(t)
  {
  }

  lemma RequeueJustified(s: State, ids: set<JobId>)
    requires AllKnown(s) && SlotsJustified(s) && s.cycle.Refreshed?
    ensures SlotsJustified(Requeueing(s, ids))
  {
    var t := Requeueing(s, ids);
    forall id | id in t.slots
      ensures (id in t.rows && IsActive(t.rows[id].status)) || Excused(t, id)
    {
      assert Known(s.rows, s.slots[id]);
      assert Excused(s, id) ==> FreeSlot(id) in s.tasks;
    }
  }

  lemma KeepLoad(s: State, jobs: seq<Job>)
    requires Inv(s) && s.cycle.Dropping? && s.cycle.drops == {}
    requires forall i | 0 <= i < |jobs| :: Known(s.rows, jobs[i])
    ensures Inv(s.(cycle := Loading({}, jobs)))
  {
    var t := s.(cycle := Loading({}, jobs));
    assert Waiting(t) == Waiting(s);
    assert forall k | Excused(s, k) :: Excused(t, k);
  }

  /** While rows are being loaded, a queued row never occupies a slot. */
  lemma QueuedHasNoSlot(s: State, id: JobId)
    requires Inv(s) && (s.cycle.Idle? || s.cycle.Refreshed? || s.cycle.Loading?)
    requires InState(s.rows, id, Queued)
    ensures id !in s.slots
  {
    assert Excused(s, id) ==> FreeSlot(id) in s.tasks;
    assert FreeSlot(id) in s.tasks ==> IsTerminal(s.rows[FreeSlot(id).id].status);
  }

  lemma KeepEnqueueNext(s: State, j: Job, rest: seq<Job>)
    requires Inv(s) && s.cycle.Loading? && s.cycle.rows == [j] + rest
    ensures Inv(Enqueueing(s, j, rest))
  {
    var t := Enqueueing(s, j, rest);
    assert Waiting(t) == t.queue && Waiting(s) == s.queue;
    assert j in s.cycle.rows && forall k | k in rest :: k in s.cycle.rows;
    assert AllKnown(t);
    EnqueueApart(s, j, t);
    assert LoadedQueued(t) by {
      forall id | id in t.cycle.loaded && t.rows[id].status.Queued? ensures InJobs(t.queue, id) {
        if InJobs(s.queue, id) {
          var k :| k in s.queue && k.id == id;
          assert k in t.queue;
        } else {
          assert id == j.id;
          QueuedHasNoSlot(s, id);
          assert t.queue[|s.queue|] == j;
        }
      }
    }
    assert forall k | Excused(s, k) :: Excused(t, k);
  }

  lemma EnqueueApart(s: State, j: Job, t: State)
    requires Apart(s) && s.cycle.Loading? && t.cycle.Loading? && t.slots == s.slots
    requires t.queue == if j.id in s.slots || InJobs(s.queue, j.id) then s.queue else s.queue + [j]
    ensures Apart(t)
  {
    assert Waiting(t) == t.queue && Waiting(s) == s.queue;
    assert forall i | 0 <= i < |s.queue| :: s.queue[i] in s.queue;
  }

  lemma KeepBeginSchedule(s: State)
    requires Inv(s) && s.cycle.Loading? && s.cycle.rows == []
    ensures Inv(s.(queue := [], cycle := Placing(s.queue, [], [])))
  {
    var t := s.(queue := [], cycle := Placing(s.queue, [], []));
    assert Waiting(t) == Waiting(s) == s.queue;
    assert forall k | Excused(s, k) :: Excused(t, k);
  }

  lemma KeepCheckNext(s: State, j: Job, rest: seq<Job>, choice: Option<NodeId>)
    requires Inv(s) && s.cycle.Placing? && s.cycle.todo == [j] + rest
    requires choice.Some? ==> Fits(s.slots, s.capacity, Gpus(j), choice.value)
    ensures Inv(Checking(s, j, rest, choice))
  {
    var t := Checking(s, j, rest, choice);
    assert Waiting(t) == Waiting(s);
    assert Pending(t.cycle) == Pending(s.cycle);
    assert forall k | Excused(s, k) :: Excused(t, k);
    assert CapacityOk(t);
  }

  lemma KeepInsertSlot(s: State)
    requires Inv(s) && s.cycle.Chosen?
    ensures Inv(Inserting(s, Placed(s.cycle.job, s.cycle.node)))
  {
    var j := s.cycle.job;
    var placed := Placed(j, s.cycle.node);
    var t := Inserting(s, placed);
    InsertWaits(s, j);
    InsertApart(Pending(s.cycle), s.cycle.remaining, j, s.cycle.todo, placed);
    InsertKnown(s, t, placed);
    InsertCycle(s, t, placed);
    InsertCapacity(s, t, j);
    InsertJustified(s, t, placed);
  }

  /** The job a node was chosen for has no slot and is not active. */
  lemma InsertWaits(s: State, j: Job)
    requires Agreement(s) && AllKnown(s) && Apart(s) && s.cycle.Chosen? && s.cycle.job == j
    ensures j.id !in s.slots && Known(s.rows, j) && Inactive(s.rows, j.id)
  {
    assert Waiting(s)[|s.cycle.remaining|] == j;
    assert j in Waiting(s);
  }

  lemma InsertKnown(s: State, t: State, placed: Job)
    requires AllKnown(s) && Apart(s) && Agreement(s) && s.cycle.Chosen? && t == Inserting(s, placed)
    requires placed.id == s.cycle.job.id && Known(s.rows, placed) && Inactive(s.rows, placed.id)
    requires DistinctIds(Waiting(t)) && DistinctIds(Pending(t.cycle)) && Disjoint(Pending(t.cycle), Waiting(t))
    requires forall k | k in Waiting(t) :: k in Waiting(s) && k.id != placed.id
    ensures AllKnown(t) && Apart(t) && Agreement(t)
  {
  }

  lemma InsertCycle(s: State, t: State, placed: Job)
    requires CycleOk(s) && s.cycle.Chosen? && s.cycle.node in s.online && t == Inserting(s, placed)
    requires placed.node == s.cycle.node && Inactive(s.rows, placed.id) && placed.id !in s.slots
    ensures CycleOk(t)
  {
    assert forall j | j in Pending(s.cycle) && j.id == placed.id :: !s.rows[j.id].status.Queued?;
  }

  lemma InsertCapacity(s: State, t: State, j: Job)
    requires CapacityOk(s) && s.cycle.Chosen? && s.cycle.job == j && j.id !in s.slots
    requires t == Inserting(s, Placed(j, s.cycle.node))
    ensures CapacityOk(t)
  {
    forall n ensures InUse(t.slots, n) <= U32_MAX {
      PlaceWithinCapacity(s.slots, s.capacity, j, s.cycle.node, n);
    }
  }

  lemma InsertJustified(s: State, t: State, placed: Job)
    requires SlotsJustified(s) && s.cycle.Chosen? && t == Inserting(s, placed)
    ensures SlotsJustified(t)
  {
    var p := Pending(s.cycle);
    assert Pending(t.cycle) == p + [placed] && placed in Pending(t.cycle);
    forall id | id in t.slots && id != placed.id && Excused(s, id) ensures Excused(t, id) {
      if InJobs(p, id) {
        var k :| k in p && k.id == id;
        assert k in Pending(t.cycle);
      }
    }
  }

  lemma InsertApart(p: seq<Job>, rem: seq<Job>, j: Job, todo: seq<Job>, placed: Job)
    requires DistinctIds(rem + ([j] + todo)) && DistinctIds(p) && Disjoint(p, rem + ([j] + todo))
    requires placed.id == j.id
    ensures DistinctIds(rem + todo) && DistinctIds(p + [placed]) && Disjoint(p + [placed], rem + todo)
    ensures forall k | k in rem + todo :: k in rem + ([j] + todo) && k.id != j.id
  {
    var a, b := rem + ([j] + todo), rem + todo;
    assert a[|rem|] == j && j in a;
    assert forall i | 0 <= i < |rem| :: b[i] == a[i];
    assert forall i | |rem| <= i < |b| :: b[i] == a[i + 1];
    forall k | k in b ensures k in a && k.id != j.id {
      var i :| 0 <= i < |b| && b[i] == k;
      assert i < |rem| || a[i + 1] == k;
    }
    assert forall i | 0 <= i < |p| :: p[i] in p;
  }

  lemma KeepEndSchedule(s: State)
    requires Inv(s) && s.cycle.Placing? && s.cycle.todo == []
    ensures Inv(s.(queue := s.cycle.remaining, cycle := Assigning(s.cycle.scheduled)))
  {
    var t := s.(queue := s.cycle.remaining, cycle := Assigning(s.cycle.scheduled));
    assert Waiting(t) == Waiting(s);
    assert forall k | Excused(s, k) :: Excused(t, k);
  }

  lemma PendingTail(j: Job, rest: seq<Job>)
    requires DistinctIds([j] + rest)
    ensures DistinctIds(rest)
    ensures forall k | k in rest :: k in [j] + rest && k.id != j.id
    ensures forall id | InJobs([j] + rest, id) :: id == j.id || InJobs(rest, id)
  {
    var a := [j] + rest;
    assert forall i | 0 <= i < |rest| :: rest[i] == a[i + 1];
    assert a[0] == j;
  }

  lemma KeepAssignWon(s: State, j: Job, rest: seq<Job>, now: int)
    requires Inv(s) && s.cycle.Assigning? && s.cycle.assigns == [j] + rest && InState(s.rows, j.id, Queued)
    ensures Inv(s.(rows := Dispatched(s.rows, j.id, j.node, now), cycle := Assigning(rest)))
  {
    var t := s.(rows := Dispatched(s.rows, j.id, j.node, now), cycle := Assigning(rest));
    PendingTail(j, rest);
    assert Waiting(t) == Waiting(s) == s.queue;
    assert Pending(t.cycle) == rest && Pending(s.cycle) == [j] + rest;
    assert j in Pending(s.cycle);
    AssignKnown(s, j, t);
    AssignTasks(s, j, t);
    AssignJustified(s, j, t);
    AssignCycle(s, j, t);
  }

  lemma AssignKnown(s: State, j: Job, t: State)
    requires AllKnown(s) && Apart(s) && Agreement(s) && t == s.(rows := t.rows, cycle := t.cycle)
    requires t.cycle.Assigning? && Waiting(t) == Waiting(s) == s.queue && DistinctIds(Pending(t.cycle))
    requires forall k | k in Pending(t.cycle) :: k in Pending(s.cycle)
    requires j.id in s.slots && s.slots[j.id] == j && t.rows.Keys == s.rows.Keys && j.id in s.rows
    requires t.rows[j.id].node == j.node && t.rows[j.id].quota == s.rows[j.id].quota
    requires forall id | id in s.rows && id != j.id :: t.rows[id] == s.rows[id]
    ensures AllKnown(t) && Apart(t) && Agreement(t)
  {
  }

  lemma AssignJustified(s: State, j: Job, t: State)
    requires SlotsJustified(s) && s.cycle.Assigning? && t.cycle.Assigning? && t.slots == s.slots && t.tasks == s.tasks
    requires forall id | InJobs(Pending(s.cycle), id) :: id == j.id || InJobs(Pending(t.cycle), id)
    requires t.rows.Keys == s.rows.Keys && j.id in t.rows && IsActive(t.rows[j.id].status)
    requires forall id | id in s.rows && id != j.id :: t.rows[id] == s.rows[id]
    ensures SlotsJustified(t)
  {
    assert forall id | id != j.id && Excused(s, id) :: Excused(t, id);
  }

  lemma AssignCycle(s: State, j: Job, t: State)
    requires CycleOk(s) && t.cycle.Assigning? && t.slots == s.slots && t.online == s.online
    requires forall k | k in Pending(t.cycle) :: k in Pending(s.cycle) && k.id != j.id
    requires t.rows.Keys == s.rows.Keys && forall id | id in s.rows && id != j.id :: t.rows[id] == s.rows[id]
    ensures CycleOk(t)
  {
  }

  lemma KeepAssignLost(s: State, j: Job, rest: seq<Job>)
    requires Inv(s) && s.cycle.Assigning? && s.cycle.assigns == [j] + rest
    ensures Inv(s.(cycle := Releasing(j.id, rest)))
  {
    var t := s.(cycle := Releasing(j.id, rest));
    PendingTail(j, rest);
    assert Waiting(t) == Waiting(s) == s.queue;
    assert Pending(t.cycle) == rest && Pending(s.cycle) == [j] + rest;
    assert j in Pending(s.cycle);
    assert forall id | Excused(s, id) :: Excused(t, id);
  }

  lemma AssignTasks(s: State, j: Job, t: State)
    requires TasksTerminal(s) && t.tasks == s.tasks && t.rows.Keys == s.rows.Keys
    requires forall id | id in s.rows && (id != j.id || !s.rows[id].status.Queued?) :: t.rows[id] == s.rows[id]
    ensures TasksTerminal(t)
  {
  }

  lemma KeepEndCycle(s: State)
    requires Inv(s) && s.cycle.Assigning? && s.cycle.assigns == []
    ensures Inv(s.(cycle := Idle))
  {
    var t := s.(cycle := Idle);
    assert Waiting(t) == Waiting(s);
    assert forall k | Excused(s, k) :: Excused(t, k);
  }

  lemma KeepRestart(s: State)
    requires Inv(s)
    ensures Inv(State(s.rows, [], ActiveSlots(s.rows), map[], map[], {}, Idle, multiset{}))
  {
    forall n ensures InUse(ActiveSlots(s.rows), n) <= U32_MAX {
      RestartUsesNoMore(s, n);
    }
  }

  lemma RestartUsesNoMore(s: State, n: NodeId)
    requires Agreement(s) && AllKnown(s)
    ensures InUse(ActiveSlots(s.rows), n) <= InUse(s.slots, n)
  {
    InUseMonotone(ActiveSlots(s.rows), s.slots, n);
  }

  lemma KeepCycleStep(s: State, e: Event)
    requires Inv(s) && Enabled(s, e)
    requires e.EnqueueNext? || e.CheckNext? || e.InsertSlot? || e.Assign? || e.LoadRows?
    ensures Inv(Effect(s, e))
  {
    match e {
      case LoadRows(order) =>
        KeepLoad(s, JobsOf(order, s.rows));
      case EnqueueNext =>
        var rows := s.cycle.rows;
        assert rows == [rows[0]] + rows[1..];
        KeepEnqueueNext(s, rows[0], rows[1..]);
      case CheckNext =>
        var todo := s.cycle.todo;
        assert todo == [todo[0]] + todo[1..];
        NodeForFits(todo[0], s.slots, s.capacity, todo[0].node);
        KeepCheckNext(s, todo[0], todo[1..], NodeFor(todo[0], s.slots, s.capacity));
      case InsertSlot =>
        KeepInsertSlot(s);
      case Assign(reached, now) =>
        var assigns := s.cycle.assigns;
        assert assigns == [assigns[0]] + assigns[1..];
        if reached && InState(s.rows, assigns[0].id, Queued) {
          KeepAssignWon(s, assigns[0], assigns[1..], now);
        } else {
          KeepAssignLost(s, assigns[0], assigns[1..]);
        }
    }
  }

  lemma KeepFreeingStep(s: State, e: Event)
    requires Inv(s) && Enabled(s, e) && (e.DropRequeued? || e.ReleaseSlot?)
    ensures Inv(Effect(s, e))
  {
    if e.DropRequeued? {
      KeepFreeing(s, e.id, Dropping(s.cycle.drops - {e.id}), s.tasks);
    } else {
      KeepFreeing(s, s.cycle.id, Assigning(s.cycle.assigns), s.tasks);
    }
  }

  predicate IsHandlerEvent(e: Event) {
    || e.Submit? || e.NodeChanged? || e.CancelQueued? || e.MarkStopping? || e.RpcCancel? || e.Report? || e.RunTask?
    || e.LoseOnNodes? || e.LoseRunningOn? || e.LoseStopping?
  }

  lemma HandlerKeepsInv(s: State, e: Event)
    requires Inv(s) && FromAgents(e) && Enabled(s, e) && IsHandlerEvent(e)
    ensures Inv(Effect(s, e))
  {
    match e {
      case Submit(id, node, quota, at, retry) => KeepSubmit(s, id, Row(Queued, node, quota, at, None, retry));
      case NodeChanged(node, info) => KeepNodeChanged(s, node, info);
      case RunTask(task) => TaskKeepsInv(s, task);
      case _ => RequestKeepsInv(s, e);
    }
  }

  lemma TaskKeepsInv(s: State, task: Task)
    requires Inv(s) && Enabled(s, RunTask(task))
    ensures Inv(Effect(s, RunTask(task)))
  {
    if task.FreeSlot? {
      KeepFreeTask(s, task.id);
    } else {
      KeepUnqueue(s, task.id);
    }
  }

  lemma RequestKeepsInv(s: State, e: Event)
    requires Inv(s) && FromAgents(e) && Enabled(s, e)
    requires || e.CancelQueued? || e.MarkStopping? || e.RpcCancel? || e.Report?
             || e.LoseOnNodes? || e.LoseRunningOn? || e.LoseStopping?
    ensures Inv(Effect(s, e))
  {
    match e {
      case CancelQueued(id) => KeepCancelQueued(s, id);
      case MarkStopping(id) => KeepStopping(s, id);
      case RpcCancel(id) => KeepStopping(s, id);
      case Report(id, status) => KeepReport(s, id, status);
      case LoseOnNodes(dead) => KeepLosing(s, ActiveOn(s.rows, dead));
      case LoseRunningOn(dead) => KeepLosing(s, RunningOn(s.rows, dead));
      case LoseStopping(cutoff) => KeepLosing(s, StaleStopping(s.rows, cutoff));
    }
  }

  lemma CycleKeepsInv(s: State, e: Event)
    requires Inv(s) && Enabled(s, e) && !IsHandlerEvent(e)
    ensures Inv(Effect(s, e))
  {
    match e {
      case BeginCycle => KeepBeginCycle(s);
      case ResetStale(cutoff) => KeepResetStale(s, StaleStarting(s.rows, cutoff, OnlineNodes(s.registry)));
      case DropRequeued(_) => KeepFreeingStep(s, e);
      case LoadRows(_) => KeepCycleStep(s, e);
      case LoadFailed => KeepLoad(s, []);
      case EnqueueNext => KeepCycleStep(s, e);
      case BeginSchedule => KeepBeginSchedule(s);
      case CheckNext => KeepCycleStep(s, e);
      case InsertSlot => KeepCycleStep(s, e);
      case EndSchedule => KeepEndSchedule(s);
      case Assign(_, _) => KeepCycleStep(s, e);
      case ReleaseSlot => KeepFreeingStep(s, e);
      case EndCycle => KeepEndCycle(s);
      case Restart => KeepRestart(s);
    }
  }

  lemma StepKeepsInv(s: State, e: Event)
    requires Inv(s) && FromAgents(e)
    ensures Inv(Step(s, e))
  {
    if Enabled(s, e) {
      if IsHandlerEvent(e) {
        HandlerKeepsInv(s, e);
      } else {
        CycleKeepsInv(s, e);
      }
    }
  }

  lemma InitInv()
    ensures Inv(INIT)
  {
  }

  predicate AgentsOnly(events: seq<Event>) {
    forall i | 0 <= i < |events| :: FromAgents(events[i])
  }

  lemma RunStepKeepsInv(states: seq<State>, events: seq<Event>, n: nat)
    requires IsRun(states, events) && AgentsOnly(events) && n < |events| && Inv(states[n])
    ensures Inv(states[n + 1])
  {
    StepKeepsInv(states[n], events[n]);
  }

  /** Every state of every run. */
  lemma {:induction false} RunKeepsInv(states: seq<State>, events: seq<Event>, n: nat)
    requires IsRun(states, events) && states[0] == INIT && n <= |events| && AgentsOnly(events)
    ensures Inv(states[n])
    decreases n
  {
    if n == 0 {
      InitInv();
    } else {
      RunKeepsInv(states, events, n - 1);
      RunStepKeepsInv(states, events, n - 1);
    }
  }
}
