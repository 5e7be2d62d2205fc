/**
 Everything an agent does with jobs, as steps of its concurrent tasks
 (crates/agent/src/grpc_client.rs, poll_pending_jobs, and
 crates/agent/src/job_executor.rs, execute_job and execute_job_inner): the poll
 loop, one task per delivered job, one task per cancel request. Deliveries and
 cancels may repeat and interleave in any way, marker writes may fail or be
 torn, and the agent may restart at any moment.
 */
module AgentProtocol {
  import opened Text
  import opened Jobs
  import opened Scheduling
  import opened CompletionMarker

  datatype Note = Note(text: string)
  datatype Delivery = Delivery(job: JobId, retry: RetryCount)
  datatype Message = Message(job: JobId, status: JobStatus)

  /** How waiting for the process ended. */
  datatype Exit = Exited(code: ExitCode) | WaitFailed(why: Note)

  /** What a marker write did to the file. */
  datatype Write = Wrote | Torn(length: nat) | Untouched

  /** How far a task has got with its job. */
  datatype Pc =
    | Delivered
    | Claimed
    | Fresh                              // not cancelled; about to read the marker
    | Replaying(outcome: Outcome)
    | Ready                              // about to spawn
    | Spawned
    | Active                             // process group registered
    | Ended(exit: Exit)                  // process gone, pid entry removed
    | Decided(outcome: Outcome, code: ExitCode, note: Note)
    | Marked(outcome: Outcome)
    | Leaving                            // about to release the claim

  datatype Task = Task(job: JobId, retry: RetryCount, pc: Pc)

  /** What the agent keeps in memory. Next to each claim and each pid entry the
      model records the task it was made for. */
  datatype Memory = Memory(
    running: map<JobId, nat>,
    pids: map<JobId, nat>,
    cancelled: set<JobId>,
    poll: Option<Delivery>,
    cancels: multiset<JobId>
  )

  /** What has happened. */
  datatype History = History(
    sent: set<Message>,
    clean: set<JobId>,                   // jobs with a process that exited 0, unmarked
    spawns: seq<Delivery>,               // spawn attempts in this lifetime
    delivered: map<JobId, RetryCount>,   // latest delivery in this lifetime
    written: map<JobId, RetryCount>      // latest marker written in this lifetime
  )

  datatype Agent = Agent(
    mem: Memory,
    tasks: map<nat, Task>,
    files: map<JobId, Note>,             // the completion markers on disk
    past: History
  )

  const EMPTY := Memory(map[], map[], {}, None, multiset{})

  const INIT := Agent(EMPTY, map[], map[], History({}, {}, [], map[], map[]))

  datatype Event =
    | PollCheck(d: Delivery)
    | PollSkip
    | PollDeliver(k: nat)
    | CancelRequest(job: JobId)
    | CancelReport(job: JobId)
    | CancelUnmark(job: JobId)
    | PruneMarks
    | Claim(k: nat)
    | CheckCancelled(k: nat)
    | ReadMarker(k: nat, readable: bool)
    | Replay(k: nat)
    | DirFailed(k: nat)
    | Spawn(k: nat, ok: bool, note: Note)
    | Register(k: nat)
    | ReportRunning(k: nat)
    | ProcessExit(k: nat, exit: Exit)
    | Decide(k: nat, note: Note)
    | WriteMarker(k: nat, write: Write)
    | ReportFinal(k: nat)
    | Release(k: nat)
    | CleanUpDir(job: JobId)
    | AgentRestart

  function StatusOf(o: Outcome): JobStatus {
    match o
    case Succeeded => JobStatus.Succeeded
    case Failed => JobStatus.Failed
    case Cancelled => JobStatus.Cancelled
  }

  predicate At(a: Agent, k: nat, pc: Pc) {
    k in a.tasks && a.tasks[k].pc == pc
  }

  predicate Enabled(a: Agent, e: Event) {
    match e
    case PollCheck(d) => a.mem.poll.None? && d.job !in a.mem.pids
    case PollSkip => a.mem.poll.Some?
    case PollDeliver(k) => a.mem.poll.Some? && k !in a.tasks
    case CancelRequest(job) => true
    case CancelReport(job) => job in a.mem.cancels
    case CancelUnmark(job) => job in a.mem.cancels
    case PruneMarks => true
    case Claim(k) => At(a, k, Delivered)
    case CheckCancelled(k) => At(a, k, Claimed)
    case ReadMarker(k, _) => At(a, k, Fresh)
    case Replay(k) => k in a.tasks && a.tasks[k].pc.Replaying?
    case DirFailed(k) => At(a, k, Ready)
    case Spawn(k, _, _) => At(a, k, Ready)
    case Register(k) => At(a, k, Spawned)
    case ReportRunning(k) => At(a, k, Active)
    case ProcessExit(k, _) => At(a, k, Active)
    case Decide(k, _) => k in a.tasks && a.tasks[k].pc.Ended?
    case WriteMarker(k, _) => k in a.tasks && a.tasks[k].pc.Decided?
    case ReportFinal(k) => k in a.tasks && a.tasks[k].pc.Marked?
    case Release(k) => At(a, k, Leaving)
    case CleanUpDir(job) => true
    case AgentRestart => true
  }

  function Moved(a: Agent, k: nat, pc: Pc): Agent
    requires k in a.tasks
  {
    a.(tasks := a.tasks[k := a.tasks[k].(pc := pc)])
  }

  function Sending(a: Agent, job: JobId, status: JobStatus): Agent {
    a.(past := a.past.(sent := a.past.sent + {Message(job, status)}))
  }

  function MarkerOf(a: Agent, job: JobId, readable: bool): Option<string> {
    if readable && job in a.files then Some(a.files[job].text) else None
  }

  function AfterDeliver(a: Agent, k: nat, d: Delivery): Agent {
    a.(mem := a.mem.(poll := None, pids := a.mem.pids[d.job := k]),
       tasks := a.tasks[k := Task(d.job, d.retry, Delivered)],
       past := a.past.(delivered := a.past.delivered[d.job := d.retry]))
  }

  function AfterRead(a: Agent, k: nat, r: MarkerRead): Agent
    requires k in a.tasks
  {
    match r
    case Valid(outcome, _, _) => Moved(a, k, Replaying(outcome))
    case Corrupt => Moved(Sending(a, a.tasks[k].job, JobStatus.Failed), k, Leaving)
    case Missing => Moved(a, k, Ready)
  }

  function AfterSpawn(a: Agent, k: nat, ok: bool, note: Note): Agent
    requires k in a.tasks
  {
    var t := a.tasks[k];
    Moved(a.(past := a.past.(spawns := a.past.spawns + [Delivery(t.job, t.retry)])), k,
          if ok then Spawned else Decided(Outcome.Failed, -1, note))
  }

  /** The exit decides the outcome, unless a cancel mark is up by then. */
  function Verdict(exit: Exit, marked: bool, note: Note): Pc {
    match exit
    case WaitFailed(why) => Decided(Outcome.Failed, -1, why)
    case Exited(code) =>
      if marked then Decided(Outcome.Cancelled, code, note)
      else if code == 0 then Decided(Outcome.Succeeded, code, Note(""))
      else Decided(Outcome.Failed, code, note)
  }

  function AfterDecide(a: Agent, k: nat, note: Note): Agent
    requires k in a.tasks && a.tasks[k].pc.Ended?
  {
    var job := a.tasks[k].job;
    var pc := Verdict(a.tasks[k].pc.exit, job in a.mem.cancelled, note);
    Moved(if pc.outcome.Succeeded? then a.(past := a.past.(clean := a.past.clean + {job})) else a, k, pc)
  }

  function Content(t: Task): string
    requires t.pc.Decided?
  {
    Encode(t.retry, t.pc.outcome, t.pc.code, t.pc.note.text)
  }

  function AfterWrite(a: Agent, k: nat, write: Write): Agent
    requires k in a.tasks && a.tasks[k].pc.Decided?
  {
    var t := a.tasks[k];
    var content := Content(t);
    var b := Moved(a, k, Marked(t.pc.outcome));
    match write
    case Wrote =>
      b.(files := a.files[t.job := Note(content)],
         past := a.past.(written := a.past.written[t.job := t.retry]))
    case Torn(n) => b.(files := a.files[t.job := Note(if n < |content| then content[..n] else content)])
    case Untouched => b
  }

  function AfterRelease(a: Agent, k: nat): Agent
    requires k in a.tasks
  {
    a.(mem := a.mem.(running := a.mem.running - {a.tasks[k].job}), tasks := a.tasks - {k})
  }

  function AfterClaim(a: Agent, k: nat): Agent
    requires k in a.tasks
  {
    var job := a.tasks[k].job;
    if job in a.mem.running then a.(tasks := a.tasks - {k})
    else Moved(a.(mem := a.mem.(running := a.mem.running[job := k])), k, Claimed)
  }

  /** The steps that touch no task. */
  function AfterHousekeeping(a: Agent, e: Event): Agent
    requires Enabled(a, e) && Housekeeping(e)
  {
    match e
    case PollCheck(d) => a.(mem := a.mem.(poll := Some(d)))
    case PollSkip => a.(mem := a.mem.(poll := None))
    case CancelRequest(job) =>
      a.(mem := a.mem.(cancelled := a.mem.cancelled + {job},
                       cancels := if job in a.mem.pids then a.mem.cancels else a.mem.cancels + multiset{job}))
    case CancelReport(job) => Sending(a, job, JobStatus.Cancelled)
    case CancelUnmark(job) =>
      a.(mem := a.mem.(cancelled := a.mem.cancelled - {job}, cancels := a.mem.cancels - multiset{job}))
    case PruneMarks => a.(mem := a.mem.(cancelled := a.mem.cancelled * (a.mem.running.Keys + a.mem.pids.Keys)))
    case ReportRunning(k) => Sending(a, a.tasks[k].job, JobStatus.Running)
  }

  predicate Housekeeping(e: Event) {
    || e.PollCheck? || e.PollSkip? || e.CancelRequest? || e.CancelReport? || e.CancelUnmark? || e.PruneMarks?
    || e.ReportRunning?
  }

  /** The steps of a task up to its spawn. */
  predicate Opening(e: Event) {
    e.PollDeliver? || e.Claim? || e.CheckCancelled? || e.ReadMarker? || e.Replay? || e.DirFailed?
  }

  function Effect(a: Agent, e: Event): Agent
    requires Enabled(a, e)
  {
    match e
    case PollDeliver(k) => AfterDeliver(a, k, a.mem.poll.value)
    case Claim(k) => AfterClaim(a, k)
    case CheckCancelled(k) =>
      if a.tasks[k].job in a.mem.cancelled
      then Moved(Sending(a, a.tasks[k].job, JobStatus.Cancelled), k, Leaving) else Moved(a, k, Fresh)
    case ReadMarker(k, readable) => AfterRead(a, k, Read(MarkerOf(a, a.tasks[k].job, readable), a.tasks[k].retry))
    case Replay(k) => Moved(Sending(a, a.tasks[k].job, StatusOf(a.tasks[k].pc.outcome)), k, Leaving)
    case DirFailed(k) => Moved(a, k, Leaving)
    case Spawn(k, ok, note) => AfterSpawn(a, k, ok, note)
    case Register(k) => Moved(a.(mem := a.mem.(pids := a.mem.pids[a.tasks[k].job := k])), k, Active)
    case ProcessExit(k, exit) => Moved(a.(mem := a.mem.(pids := a.mem.pids - {a.tasks[k].job})), k, Ended(exit))
    case Decide(k, note) => AfterDecide(a, k, note)
    case WriteMarker(k, write) => AfterWrite(a, k, write)
    case ReportFinal(k) => Moved(Sending(a, a.tasks[k].job, StatusOf(a.tasks[k].pc.outcome)), k, Leaving)
    case Release(k) => AfterRelease(a, k)
    case CleanUpDir(job) => a.(files := a.files - {job})
    case AgentRestart => Agent(EMPTY, map[], a.files, History(a.past.sent, a.past.clean, [], map[], map[]))
    case _ => AfterHousekeeping(a, e)
  }

  function Step(a: Agent, e: Event): Agent {
    if Enabled(a, e) then Effect(a, e) else a
  }

  ghost predicate IsRun(states: seq<Agent>, events: seq<Event>) {
    && |states| == |events| + 1
    && forall i {:trigger events[i]} | 0 <= i < |events| :: states[i + 1] == Step(states[i], events[i])
  }

  // ----- one execution at a time -----

  /** The task holds the claim on its job. */
  predicate Holds(pc: Pc) {
    !pc.Delivered?
  }

  /** The task has not yet given up its pid entry. */
  predicate Early(pc: Pc) {
    pc.Delivered? || pc.Claimed? || pc.Fresh? || pc.Replaying? || pc.Ready? || pc.Spawned? || pc.Active?
  }

  predicate Owner(owners: map<JobId, nat>, job: JobId, k: nat) {
    job in owners && owners[job] == k
  }

  predicate FlightInv(a: Agent) {
    && (forall k | k in a.tasks && Holds(a.tasks[k].pc) :: Owner(a.mem.running, a.tasks[k].job, k))
    && (forall k | k in a.tasks && Early(a.tasks[k].pc) :: Owner(a.mem.pids, a.tasks[k].job, k))
    && (a.mem.poll.Some? ==> a.mem.poll.value.job !in a.mem.pids)
  }

  /** At most one execution of a job is in flight. */
  lemma OneInFlight(a: Agent, k: nat, m: nat)
    requires FlightInv(a) && k in a.tasks && m in a.tasks && a.tasks[k].job == a.tasks[m].job
    requires Holds(a.tasks[k].pc) && Holds(a.tasks[m].pc)
    ensures k == m
  {
  }

  /** A task that moves along under the claim and pid entry it has. */
  lemma FlightMoved(a: Agent, b: Agent, k: nat, pc: Pc)
    requires FlightInv(a) && k in a.tasks && b.mem == a.mem && b.tasks == a.tasks
    requires Holds(a.tasks[k].pc) && (Early(pc) ==> Early(a.tasks[k].pc))
    ensures FlightInv(Moved(b, k, pc))
  {
  }

  lemma FlightDeliver(a: Agent, k: nat, d: Delivery)
    requires FlightInv(a) && k !in a.tasks && a.mem.poll == Some(d)
    ensures FlightInv(AfterDeliver(a, k, d))
  {
  }

  lemma FlightClaim(a: Agent, k: nat)
    requires FlightInv(a) && At(a, k, Delivered)
    ensures FlightInv(AfterClaim(a, k))
  {
  }

  lemma FlightPids(a: Agent, k: nat, exit: Exit)
    requires FlightInv(a) && k in a.tasks && Holds(a.tasks[k].pc) && Early(a.tasks[k].pc)
    ensures FlightInv(Moved(a.(mem := a.mem.(pids := a.mem.pids - {a.tasks[k].job})), k, Ended(exit)))
    ensures FlightInv(Moved(a.(mem := a.mem.(pids := a.mem.pids[a.tasks[k].job := k])), k, Active))
  {
  }

  lemma FlightRelease(a: Agent, k: nat)
    requires FlightInv(a) && At(a, k, Leaving)
    ensures FlightInv(AfterRelease(a, k))
  {
  }

  lemma FlightHousekeeping(a: Agent, e: Event)
    requires FlightInv(a) && Enabled(a, e) && Housekeeping(e)
    ensures FlightInv(AfterHousekeeping(a, e))
  {
  }

  lemma FlightOpening(a: Agent, e: Event)
    requires FlightInv(a) && Enabled(a, e) && Opening(e)
    ensures FlightInv(Effect(a, e))
  {
    match e
    case PollDeliver(k) => FlightDeliver(a, k, a.mem.poll.value);
    case Claim(k) => FlightClaim(a, k);
    case CheckCancelled(k) =>
      FlightMoved(a, Sending(a, a.tasks[k].job, JobStatus.Cancelled), k, Leaving);
      FlightMoved(a, a, k, Fresh);
    case ReadMarker(k, readable) => FlightRead(a, k, Read(MarkerOf(a, a.tasks[k].job, readable), a.tasks[k].retry));
    case Replay(k) => FlightMoved(a, Sending(a, a.tasks[k].job, StatusOf(a.tasks[k].pc.outcome)), k, Leaving);
    case DirFailed(k) => FlightMoved(a, a, k, Leaving);
  }

  lemma FlightStep(a: Agent, e: Event)
    requires FlightInv(a)
    ensures FlightInv(Step(a, e))
  {
    if Enabled(a, e) && Opening(e) {
      FlightOpening(a, e);
    } else if Enabled(a, e) {
      match e {
        case Spawn(k, ok, note) => FlightSpawn(a, k, ok, note);
        case Register(k) => FlightPids(a, k, Exited(0));
        case ProcessExit(k, exit) => FlightPids(a, k, exit);
        case Decide(k, note) => FlightDecide(a, k, note);
        case WriteMarker(k, write) => FlightWrite(a, k, write);
        case ReportFinal(k) => FlightMoved(a, Sending(a, a.tasks[k].job, StatusOf(a.tasks[k].pc.outcome)), k, Leaving);
        case Release(k) => FlightRelease(a, k);
        case CleanUpDir(_) =>
        case AgentRestart =>
        case _ => FlightHousekeeping(a, e);
      }
    }
  }

  lemma FlightRead(a: Agent, k: nat, r: MarkerRead)
    requires FlightInv(a) && At(a, k, Fresh)
    ensures FlightInv(AfterRead(a, k, r))
  {
    match r
    case Valid(o, _, _) => FlightMoved(a, a, k, Replaying(o));
    case Corrupt => FlightMoved(a, Sending(a, a.tasks[k].job, JobStatus.Failed), k, Leaving);
    case Missing => FlightMoved(a, a, k, Ready);
  }

  lemma FlightSpawn(a: Agent, k: nat, ok: bool, note: Note)
    requires FlightInv(a) && At(a, k, Ready)
    ensures FlightInv(AfterSpawn(a, k, ok, note))
  {
    var b := a.(past := a.past.(spawns := a.past.spawns + [Delivery(a.tasks[k].job, a.tasks[k].retry)]));
    FlightMoved(a, b, k, if ok then Spawned else Decided(Outcome.Failed, -1, note));
  }

  lemma FlightDecide(a: Agent, k: nat, note: Note)
    requires FlightInv(a) && k in a.tasks && a.tasks[k].pc.Ended?
    ensures FlightInv(AfterDecide(a, k, note))
  {
    var job := a.tasks[k].job;
    var pc := Verdict(a.tasks[k].pc.exit, job in a.mem.cancelled, note);
    FlightMoved(a, if pc.outcome.Succeeded? then a.(past := a.past.(clean := a.past.clean + {job})) else a, k, pc);
  }

  lemma FlightWrite(a: Agent, k: nat, write: Write)
    requires FlightInv(a) && k in a.tasks && a.tasks[k].pc.Decided?
    ensures FlightInv(AfterWrite(a, k, write))
  {
    FlightMoved(a, a, k, Marked(a.tasks[k].pc.outcome));
  }

  // ----- what success means -----

  predicate SaysSuccess(pc: Pc) {
    (pc.Replaying? || pc.Decided? || pc.Marked?) && pc.outcome.Succeeded?
  }

  /** A marker that some run would replay as a success. */
  ghost predicate ReadsSuccess(text: string) {
    exists retry: RetryCount :: Read(Some(text), retry).Valid? && Read(Some(text), retry).status.Succeeded?
  }

  /** Success is only ever said of a job with a clean exit: in a message, by a
      task about to say it, or by a marker on disk. */
  ghost predicate SuccessInv(a: Agent) {
    && (forall m | m in a.past.sent && m.status == JobStatus.Succeeded :: m.job in a.past.clean)
    && (forall k | k in a.tasks && SaysSuccess(a.tasks[k].pc) :: a.tasks[k].job in a.past.clean)
    && (forall job | job in a.files && ReadsSuccess(a.files[job].text) :: job in a.past.clean)
  }

  lemma SuccessMoved(a: Agent, k: nat, pc: Pc)
    requires SuccessInv(a) && k in a.tasks && (SaysSuccess(pc) ==> a.tasks[k].job in a.past.clean)
    ensures SuccessInv(Moved(a, k, pc))
  {
  }

  lemma SuccessSending(a: Agent, job: JobId, status: JobStatus)
    requires SuccessInv(a) && (status == JobStatus.Succeeded ==> job in a.past.clean)
    ensures SuccessInv(Sending(a, job, status))
  {
  }

  lemma SuccessRead(a: Agent, k: nat, readable: bool)
    requires SuccessInv(a) && At(a, k, Fresh)
    ensures SuccessInv(AfterRead(a, k, Read(MarkerOf(a, a.tasks[k].job, readable), a.tasks[k].retry)))
  {
    var job, retry := a.tasks[k].job, a.tasks[k].retry;
    var r := Read(MarkerOf(a, job, readable), retry);
    match r
    case Valid(o, _, _) =>
      assert o.Succeeded? ==> ReadsSuccess(a.files[job].text);
      SuccessMoved(a, k, Replaying(o));
    case Corrupt =>
      SuccessSending(a, job, JobStatus.Failed);
      SuccessMoved(Sending(a, job, JobStatus.Failed), k, Leaving);
    case Missing => SuccessMoved(a, k, Ready);
  }

  lemma SuccessWrite(a: Agent, k: nat, write: Write)
    requires SuccessInv(a) && k in a.tasks && a.tasks[k].pc.Decided?
    ensures SuccessInv(AfterWrite(a, k, write))
  {
    var t := a.tasks[k];
    var b := AfterWrite(a, k, write);
    SuccessMoved(a, k, Marked(t.pc.outcome));
    if !write.Untouched? {
      TornNeverSucceeds(b.files[t.job].text, t);
    }
  }

  lemma TornNeverSucceeds(text: string, t: Task)
    requires t.pc.Decided? && text <= Content(t)
    ensures ReadsSuccess(text) ==> t.pc.outcome.Succeeded?
  {
    if ReadsSuccess(text) {
      var retry: RetryCount :| Read(Some(text), retry).Valid? && Read(Some(text), retry).status.Succeeded?;
      TornWriteKeepsStatus(text, t.retry, t.pc.outcome, t.pc.code, t.pc.note.text, retry);
    }
  }

  lemma SuccessDecide(a: Agent, k: nat, note: Note)
    requires SuccessInv(a) && k in a.tasks && a.tasks[k].pc.Ended?
    ensures SuccessInv(AfterDecide(a, k, note))
  {
    var job := a.tasks[k].job;
    var pc := Verdict(a.tasks[k].pc.exit, job in a.mem.cancelled, note);
    SuccessMoved(if pc.outcome.Succeeded? then a.(past := a.past.(clean := a.past.clean + {job})) else a, k, pc);
  }

  lemma SuccessLeaves(a: Agent, k: nat, status: JobStatus)
    requires SuccessInv(a) && k in a.tasks && (status == JobStatus.Succeeded ==> a.tasks[k].job in a.past.clean)
    ensures SuccessInv(Moved(Sending(a, a.tasks[k].job, status), k, Leaving))
  {
    SuccessSending(a, a.tasks[k].job, status);
    SuccessMoved(Sending(a, a.tasks[k].job, status), k, Leaving);
  }

  lemma SuccessHousekeeping(a: Agent, e: Event)
    requires SuccessInv(a) && Enabled(a, e) && Housekeeping(e)
    ensures SuccessInv(AfterHousekeeping(a, e))
  {
  }

  lemma SuccessOpening(a: Agent, e: Event)
    requires SuccessInv(a) && Enabled(a, e) && Opening(e)
    ensures SuccessInv(Effect(a, e))
  {
    match e
    case PollDeliver(_) =>
    case Claim(k) => SuccessMoved(a, k, Claimed);
    case CheckCancelled(k) =>
      SuccessLeaves(a, k, JobStatus.Cancelled);
      SuccessMoved(a, k, Fresh);
    case ReadMarker(k, readable) => SuccessRead(a, k, readable);
    case Replay(k) => SuccessLeaves(a, k, StatusOf(a.tasks[k].pc.outcome));
    case DirFailed(k) => SuccessMoved(a, k, Leaving);
  }

  lemma SuccessStep(a: Agent, e: Event)
    requires SuccessInv(a)
    ensures SuccessInv(Step(a, e))
  {
    if Enabled(a, e) && Opening(e) {
      SuccessOpening(a, e);
    } else if Enabled(a, e) {
      match e {
        case Spawn(k, ok, note) => SuccessMoved(a, k, if ok then Spawned else Decided(Outcome.Failed, -1, note));
        case Register(k) => SuccessMoved(a, k, Active);
        case ProcessExit(k, exit) => SuccessMoved(a, k, Ended(exit));
        case Decide(k, note) => SuccessDecide(a, k, note);
        case WriteMarker(k, write) => SuccessWrite(a, k, write);
        case ReportFinal(k) => SuccessLeaves(a, k, StatusOf(a.tasks[k].pc.outcome));
        case Release(_) =>
        case CleanUpDir(_) =>
        case AgentRestart =>
        case _ => SuccessHousekeeping(a, e);
      }
    }
  }

  lemma InitInv()
    ensures SuccessInv(INIT) && FlightInv(INIT) && LifetimeInv(INIT)
  {
  }

  lemma RunStepKeepsInv(states: seq<Agent>, events: seq<Event>, n: nat)
    requires IsRun(states, events) && n < |events| && SuccessInv(states[n]) && FlightInv(states[n])
    ensures SuccessInv(states[n + 1]) && FlightInv(states[n + 1])
  {
    SuccessStep(states[n], events[n]);
    FlightStep(states[n], events[n]);
  }

  lemma {:induction false} RunKeepsInv(states: seq<Agent>, events: seq<Event>, n: nat)
    requires IsRun(states, events) && states[0] == INIT && n <= |events|
    ensures SuccessInv(states[n]) && FlightInv(states[n])
    decreases n
  {
    if n == 0 {
      InitInv();
    } else {
      RunKeepsInv(states, events, n - 1);
      RunStepKeepsInv(states, events, n - 1);
    }
  }

  /** In every run a success is only ever reported of a job with a clean exit on
      record. */
  lemma SentIsOnRecord(states: seq<Agent>, events: seq<Event>, n: nat, job: JobId)
    requires IsRun(states, events) && states[0] == INIT && n <= |events|
    requires Message(job, JobStatus.Succeeded) in states[n].past.sent
    ensures job in states[n].past.clean
  {
    RunKeepsInv(states, events, n);
    assert Message(job, JobStatus.Succeeded).job == job;
  }

  /** Each job has at most one execution in flight: two tasks that hold the
      claim on it are one and the same. */
  lemma AtMostOneInFlight(states: seq<Agent>, events: seq<Event>, n: nat, k: nat, m: nat)
    requires IsRun(states, events) && states[0] == INIT && n <= |events|
    requires k in states[n].tasks && m in states[n].tasks && states[n].tasks[k].job == states[n].tasks[m].job
    requires Holds(states[n].tasks[k].pc) && Holds(states[n].tasks[m].pc)
    ensures k == m
  {
    RunKeepsInv(states, events, n);
    OneInFlight(states[n], k, m);
  }

  // ----- each run is spawned at most once -----

  /** Markers are written and stay readable. */
  predicate MarkersWork(e: Event) {
    (e.ReadMarker? ==> e.readable) && (e.WriteMarker? ==> e.write.Wrote?) && !e.CleanUpDir?
  }

  /** Markers work, and a job's retry count never goes down from one delivery to
      the next. */
  predicate Faithful(a: Agent, e: Event) {
    && (e.PollDeliver? && a.mem.poll.Some? && a.mem.poll.value.job in a.past.delivered ==>
          a.past.delivered[a.mem.poll.value.job] <= a.mem.poll.value.retry)
    && MarkersWork(e)
  }

  predicate PreSpawn(pc: Pc) {
    pc.Delivered? || pc.Claimed? || pc.Fresh? || pc.Ready?
  }

  /** The task has tried to spawn and has yet to write the marker. */
  predicate Attempting(pc: Pc) {
    pc.Spawned? || pc.Active? || pc.Ended? || pc.Decided?
  }

  ghost predicate IsMarkerFor(text: string, retry: RetryCount) {
    exists o: Outcome, code: ExitCode, message: string :: text == Encode(retry, o, code, message)
  }

  predicate AttemptOpen(a: Agent, job: JobId) {
    exists k :: k in a.tasks && a.tasks[k].job == job && Attempting(a.tasks[k].pc)
  }

  /** No spawn of the job had a higher retry count. */
  predicate NoneAbove(spawns: seq<Delivery>, job: JobId, retry: RetryCount) {
    forall d | d in spawns && d.job == job :: d.retry <= retry
  }

  /** What must hold of a task at `pc`, given the history. */
  predicate TaskOk(past: History, job: JobId, retry: RetryCount, pc: Pc) {
    && job in past.delivered && retry <= past.delivered[job]
    && (PreSpawn(pc) || Attempting(pc) ==> NoneAbove(past.spawns, job, retry))
    && (PreSpawn(pc) && job in past.written ==> past.written[job] <= retry)
    && (Attempting(pc) ==> Delivery(job, retry) in past.spawns)
    && (pc.Ready? ==> Delivery(job, retry) !in past.spawns)
  }

  predicate TasksOk(a: Agent) {
    forall k | k in a.tasks :: TaskOk(a.past, a.tasks[k].job, a.tasks[k].retry, a.tasks[k].pc)
  }

  predicate SpawnsRecorded(a: Agent) {
    forall d | d in a.past.spawns ::
      && d.job in a.past.delivered && d.retry <= a.past.delivered[d.job]
      && (AttemptOpen(a, d.job) || (d.job in a.past.written && d.retry <= a.past.written[d.job]))
  }

  ghost predicate MarkersCurrent(a: Agent) {
    forall job | job in a.past.written ::
      && job in a.files && IsMarkerFor(a.files[job].text, a.past.written[job])
      && job in a.past.delivered && a.past.written[job] <= a.past.delivered[job]
  }

  predicate NoRepeats(spawns: seq<Delivery>) {
    forall i, k | 0 <= i < k < |spawns| :: spawns[i] != spawns[k]
  }

  ghost predicate LifetimeInv(a: Agent) {
    TasksOk(a) && SpawnsRecorded(a) && MarkersCurrent(a) && NoRepeats(a.past.spawns)
  }

  /** Attempts that stay open. */
  lemma OpenStays(a: Agent, b: Agent, job: JobId)
    requires forall k | k in a.tasks && a.tasks[k].job == job && Attempting(a.tasks[k].pc) ::
               k in b.tasks && b.tasks[k].job == job && Attempting(b.tasks[k].pc)
    ensures AttemptOpen(a, job) ==> AttemptOpen(b, job)
  {
    if AttemptOpen(a, job) {
      var k :| k in a.tasks && a.tasks[k].job == job && Attempting(a.tasks[k].pc);
      assert k in b.tasks;
    }
  }

  /** The history of spawns, deliveries and markers is as it was. */
  predicate SameRecord(a: Agent, b: Agent) {
    && b.tasks == a.tasks && b.files == a.files && b.past.spawns == a.past.spawns
    && b.past.delivered == a.past.delivered && b.past.written == a.past.written
  }

  lemma LifetimeSame(a: Agent, b: Agent)
    requires LifetimeInv(a) && SameRecord(a, b)
    ensures LifetimeInv(b)
  {
    assert TasksOk(b) by {
      assert forall k | k in a.tasks ::
          TaskOk(b.past, a.tasks[k].job, a.tasks[k].retry, a.tasks[k].pc)
          <==> TaskOk(a.past, a.tasks[k].job, a.tasks[k].retry, a.tasks[k].pc);
    }
    assert SpawnsRecorded(b) by {
      forall d | d in a.past.spawns ensures AttemptOpen(a, d.job) ==> AttemptOpen(b, d.job) {
        OpenStays(a, b, d.job);
      }
    }
  }

  /** A task moves along without opening or closing an attempt. */
  lemma LifetimeMoved(a: Agent, k: nat, pc: Pc)
    requires LifetimeInv(a) && k in a.tasks
    requires Attempting(a.tasks[k].pc) ==> Attempting(pc)
    requires TaskOk(a.past, a.tasks[k].job, a.tasks[k].retry, pc)
    ensures LifetimeInv(Moved(a, k, pc))
  {
    var b := Moved(a, k, pc);
    assert SpawnsRecorded(b) by {
      forall d | d in a.past.spawns ensures AttemptOpen(a, d.job) ==> AttemptOpen(b, d.job) {
        OpenStays(a, b, d.job);
      }
    }
  }

  /** A task that is not inside an attempt disappears. */
  lemma LifetimeGone(a: Agent, k: nat)
    requires LifetimeInv(a) && k in a.tasks && !Attempting(a.tasks[k].pc)
    ensures LifetimeInv(a.(tasks := a.tasks - {k}))
  {
    var b := a.(tasks := a.tasks - {k});
    assert SpawnsRecorded(b) by {
      forall d | d in a.past.spawns ensures AttemptOpen(a, d.job) ==> AttemptOpen(b, d.job) {
        OpenStays(a, b, d.job);
      }
    }
  }

  /** The marker guard: a task whose marker reads as missing is about to run
      something that was never spawned before. */
  lemma MissingMeansUnspawned(a: Agent, k: nat)
    requires FlightInv(a) && LifetimeInv(a) && At(a, k, Fresh)
    requires Read(MarkerOf(a, a.tasks[k].job, true), a.tasks[k].retry).Missing?
    ensures Delivery(a.tasks[k].job, a.tasks[k].retry) !in a.past.spawns
  {
    var job, retry := a.tasks[k].job, a.tasks[k].retry;
    if Delivery(job, retry) in a.past.spawns {
      assert !AttemptOpen(a, job);
      assert a.past.written[job] == retry;
      var o: Outcome, code: ExitCode, message: string :| a.files[job].text == Encode(retry, o, code, message);
      RoundTrip(retry, o, code, message, retry);
      assert false;
    }
  }

  lemma LifetimeRead(a: Agent, k: nat, r: MarkerRead)
    requires LifetimeInv(a) && At(a, k, Fresh)
    requires r.Missing? ==> Delivery(a.tasks[k].job, a.tasks[k].retry) !in a.past.spawns
    ensures LifetimeInv(AfterRead(a, k, r))
  {
    match r
    case Valid(o, _, _) => LifetimeMoved(a, k, Replaying(o));
    case Corrupt => LifetimeLeaves(a, k, JobStatus.Failed);
    case Missing => LifetimeMoved(a, k, Ready);
  }

  lemma LifetimeLeaves(a: Agent, k: nat, status: JobStatus)
    requires LifetimeInv(a) && k in a.tasks && !Attempting(a.tasks[k].pc)
    ensures LifetimeInv(Moved(Sending(a, a.tasks[k].job, status), k, Leaving))
  {
    var b := Sending(a, a.tasks[k].job, status);
    LifetimeSame(a, b);
    LifetimeMoved(b, k, Leaving);
  }

  lemma LifetimeSpawn(a: Agent, k: nat, ok: bool, note: Note)
    requires FlightInv(a) && LifetimeInv(a) && At(a, k, Ready)
    ensures LifetimeInv(AfterSpawn(a, k, ok, note))
  {
    var b := AfterSpawn(a, k, ok, note);
    var d := Delivery(a.tasks[k].job, a.tasks[k].retry);
    SpawnTasksOk(a, k, ok, note);
    assert SpawnsRecorded(b) by {
      assert Attempting(b.tasks[k].pc);
      assert AttemptOpen(b, d.job);
      forall c | c in a.past.spawns ensures AttemptOpen(a, c.job) ==> AttemptOpen(b, c.job) {
        OpenStays(a, b, c.job);
      }
      assert forall c | c in b.past.spawns :: c in a.past.spawns || c == d;
    }
    assert NoRepeats(b.past.spawns) by {
      assert forall i | 0 <= i < |a.past.spawns| :: a.past.spawns[i] in a.past.spawns;
    }
  }

  lemma SpawnTasksOk(a: Agent, k: nat, ok: bool, note: Note)
    requires FlightInv(a) && TasksOk(a) && At(a, k, Ready)
    ensures TasksOk(AfterSpawn(a, k, ok, note))
  {
    var b := AfterSpawn(a, k, ok, note);
    var d := Delivery(a.tasks[k].job, a.tasks[k].retry);
    assert forall c :: c in b.past.spawns <==> c in a.past.spawns || c == d;
    forall m | m in b.tasks ensures TaskOk(b.past, b.tasks[m].job, b.tasks[m].retry, b.tasks[m].pc) {
      assert TaskOk(a.past, a.tasks[m].job, a.tasks[m].retry, a.tasks[m].pc);
      // no other task of this job is left
      assert m != k ==> a.tasks[m].job != d.job;
    }
  }

  lemma LifetimeWrite(a: Agent, k: nat)
    requires FlightInv(a) && LifetimeInv(a) && k in a.tasks && a.tasks[k].pc.Decided?
    ensures LifetimeInv(AfterWrite(a, k, Wrote))
  {
    var b := AfterWrite(a, k, Wrote);
    var t := a.tasks[k];
    assert TaskOk(a.past, t.job, t.retry, t.pc);
    WriteTasksOk(a, k);
    assert SpawnsRecorded(b) by {
      forall c | c in a.past.spawns && c.job != t.job ensures AttemptOpen(a, c.job) ==> AttemptOpen(b, c.job) {
        OpenStays(a, b, c.job);
      }
    }
    assert MarkersCurrent(b) by {
      assert b.files[t.job].text == Encode(t.retry, t.pc.outcome, t.pc.code, t.pc.note.text);
      assert IsMarkerFor(b.files[t.job].text, t.retry);
    }
  }

  lemma WriteTasksOk(a: Agent, k: nat)
    requires TasksOk(a) && k in a.tasks && a.tasks[k].pc.Decided?
    ensures TasksOk(AfterWrite(a, k, Wrote))
  {
    var b := AfterWrite(a, k, Wrote);
    var t := a.tasks[k];
    assert TaskOk(a.past, t.job, t.retry, t.pc);
    forall m | m in b.tasks ensures TaskOk(b.past, b.tasks[m].job, b.tasks[m].retry, b.tasks[m].pc) {
      assert TaskOk(a.past, a.tasks[m].job, a.tasks[m].retry, a.tasks[m].pc);
    }
  }

  lemma LifetimeDeliver(a: Agent, k: nat, d: Delivery)
    requires LifetimeInv(a) && k !in a.tasks
    requires d.job in a.past.delivered ==> a.past.delivered[d.job] <= d.retry
    ensures LifetimeInv(AfterDeliver(a, k, d))
  {
    var b := AfterDeliver(a, k, d);
    assert TasksOk(b) by {
      forall m | m in b.tasks ensures TaskOk(b.past, b.tasks[m].job, b.tasks[m].retry, b.tasks[m].pc) {
        if m != k {
          assert TaskOk(a.past, a.tasks[m].job, a.tasks[m].retry, a.tasks[m].pc);
        }
      }
    }
    assert SpawnsRecorded(b) by {
      forall c | c in a.past.spawns ensures AttemptOpen(a, c.job) ==> AttemptOpen(b, c.job) {
        OpenStays(a, b, c.job);
      }
    }
  }

  lemma LifetimeDecide(a: Agent, k: nat, note: Note)
    requires LifetimeInv(a) && k in a.tasks && a.tasks[k].pc.Ended?
    ensures LifetimeInv(AfterDecide(a, k, note))
  {
    var job := a.tasks[k].job;
    var pc := Verdict(a.tasks[k].pc.exit, job in a.mem.cancelled, note);
    var b := if pc.outcome.Succeeded? then a.(past := a.past.(clean := a.past.clean + {job})) else a;
    LifetimeSame(a, b);
    assert TaskOk(b.past, b.tasks[k].job, b.tasks[k].retry, b.tasks[k].pc);
    LifetimeMoved(b, k, pc);
  }

  lemma LifetimeClaim(a: Agent, k: nat)
    requires LifetimeInv(a) && At(a, k, Delivered)
    ensures LifetimeInv(AfterClaim(a, k))
  {
    var job := a.tasks[k].job;
    if job in a.mem.running {
      LifetimeGone(a, k);
    } else {
      var b := a.(mem := a.mem.(running := a.mem.running[job := k]));
      LifetimeSame(a, b);
      assert TaskOk(b.past, job, b.tasks[k].retry, Delivered);
      LifetimeMoved(b, k, Claimed);
    }
  }

  lemma LifetimePids(a: Agent, k: nat, pids: map<JobId, nat>, pc: Pc)
    requires LifetimeInv(a) && k in a.tasks && Attempting(a.tasks[k].pc) && Attempting(pc)
    ensures LifetimeInv(Moved(a.(mem := a.mem.(pids := pids)), k, pc))
  {
    var b := a.(mem := a.mem.(pids := pids));
    LifetimeSame(a, b);
    assert TaskOk(b.past, b.tasks[k].job, b.tasks[k].retry, b.tasks[k].pc);
    LifetimeMoved(b, k, pc);
  }

  lemma LifetimeCheck(a: Agent, k: nat)
    requires LifetimeInv(a) && At(a, k, Claimed)
    ensures LifetimeInv(Moved(Sending(a, a.tasks[k].job, JobStatus.Cancelled), k, Leaving))
    ensures LifetimeInv(Moved(a, k, Fresh))
  {
    LifetimeLeaves(a, k, JobStatus.Cancelled);
    assert TaskOk(a.past, a.tasks[k].job, a.tasks[k].retry, Claimed);
    LifetimeMoved(a, k, Fresh);
  }

  lemma LifetimeRelease(a: Agent, k: nat)
    requires LifetimeInv(a) && At(a, k, Leaving)
    ensures LifetimeInv(AfterRelease(a, k))
  {
    var b := a.(mem := a.mem.(running := a.mem.running - {a.tasks[k].job}));
    LifetimeSame(a, b);
    LifetimeGone(b, k);
  }

  lemma LifetimeHousekeeping(a: Agent, e: Event)
    requires LifetimeInv(a) && Enabled(a, e) && Housekeeping(e)
    ensures LifetimeInv(AfterHousekeeping(a, e))
  {
    LifetimeSame(a, AfterHousekeeping(a, e));
  }

  lemma LifetimeOpening(a: Agent, e: Event)
    requires FlightInv(a) && LifetimeInv(a) && Faithful(a, e) && Enabled(a, e) && Opening(e)
    ensures LifetimeInv(Effect(a, e))
  {
    match e
    case PollDeliver(k) => LifetimeDeliver(a, k, a.mem.poll.value);
    case Claim(k) => LifetimeClaim(a, k);
    case CheckCancelled(k) => LifetimeCheck(a, k);
    case ReadMarker(k, _) =>
      var r := Read(MarkerOf(a, a.tasks[k].job, true), a.tasks[k].retry);
      if r.Missing? {
        MissingMeansUnspawned(a, k);
      }
      LifetimeRead(a, k, r);
    case Replay(k) => LifetimeLeaves(a, k, StatusOf(a.tasks[k].pc.outcome));
    case DirFailed(k) => LifetimeMoved(a, k, Leaving);
  }

  lemma LifetimeStep(a: Agent, e: Event)
    requires FlightInv(a) && LifetimeInv(a) && Faithful(a, e)
    ensures LifetimeInv(Step(a, e))
  {
    if Enabled(a, e) && Opening(e) {
      LifetimeOpening(a, e);
    } else if Enabled(a, e) {
      match e {
        case Spawn(k, ok, note) => LifetimeSpawn(a, k, ok, note);
        case Register(k) => LifetimePids(a, k, a.mem.pids[a.tasks[k].job := k], Active);
        case ProcessExit(k, exit) => LifetimePids(a, k, a.mem.pids - {a.tasks[k].job}, Ended(exit));
        case Decide(k, note) => LifetimeDecide(a, k, note);
        case WriteMarker(k, _) => LifetimeWrite(a, k);
        case ReportFinal(k) => LifetimeLeaves(a, k, StatusOf(a.tasks[k].pc.outcome));
        case Release(k) => LifetimeRelease(a, k);
        case AgentRestart =>
        case _ => LifetimeHousekeeping(a, e);
      }
    }
  }

  ghost predicate FaithfulRun(states: seq<Agent>, events: seq<Event>) {
    && IsRun(states, events) && states[0] == INIT
    && forall i | 0 <= i < |events| :: Faithful(states[i], events[i])
  }

  lemma RunStepKeepsLifetime(states: seq<Agent>, events: seq<Event>, n: nat)
    requires FaithfulRun(states, events) && n < |events| && LifetimeInv(states[n]) && FlightInv(states[n])
    ensures LifetimeInv(states[n + 1]) && FlightInv(states[n + 1])
  {
    assert Faithful(states[n], events[n]);
    LifetimeStep(states[n], events[n]);
    FlightStep(states[n], events[n]);
  }

  lemma {:induction false} RunKeepsLifetime(states: seq<Agent>, events: seq<Event>, n: nat)
    requires FaithfulRun(states, events) && n <= |events|
    ensures LifetimeInv(states[n]) && FlightInv(states[n])
    decreases n
  {
    if n == 0 {
      InitInv();
    } else {
      RunKeepsLifetime(states, events, n - 1);
      RunStepKeepsLifetime(states, events, n - 1);
    }
  }

  /** Within one agent lifetime, for any interleaving of repeated deliveries and
      cancels: each (job, retry count) is spawned at most once. */
  lemma SpawnedAtMostOnce(states: seq<Agent>, events: seq<Event>, n: nat)
    requires FaithfulRun(states, events) && n <= |events|
    ensures NoRepeats(states[n].past.spawns)
  {
    RunKeepsLifetime(states, events, n);
  }

  // ----- what agents say -----

  /** Agents report only running and the three outcomes of a process. */
  predicate SentOk(a: Agent) {
    forall m | m in a.past.sent :: AgentReports(m.status)
  }

  lemma SentStep(a: Agent, e: Event)
    requires SentOk(a)
    ensures SentOk(Step(a, e))
    ensures a.past.clean <= Step(a, e).past.clean && a.past.sent <= Step(a, e).past.sent
  {
    if Enabled(a, e) {
      if e.ReadMarker? {
        SentRead(a, e.k, Read(MarkerOf(a, a.tasks[e.k].job, e.readable), a.tasks[e.k].retry));
      } else if Housekeeping(e) {
        SentHousekeeping(a, e);
      } else if Opening(e) {
        SentOpening(a, e);
      }
    }
  }

  lemma SentOpening(a: Agent, e: Event)
    requires SentOk(a) && Enabled(a, e) && Opening(e) && !e.ReadMarker?
    ensures var b := Effect(a, e); SentOk(b) && b.past.clean == a.past.clean && a.past.sent <= b.past.sent
  {
  }

  lemma SentHousekeeping(a: Agent, e: Event)
    requires SentOk(a) && Enabled(a, e) && Housekeeping(e)
    ensures var b := AfterHousekeeping(a, e);
            SentOk(b) && b.past.clean == a.past.clean && a.past.sent <= b.past.sent
  {
  }

  lemma SentRead(a: Agent, k: nat, r: MarkerRead)
    requires SentOk(a) && k in a.tasks
    ensures var b := AfterRead(a, k, r); SentOk(b) && b.past.clean == a.past.clean && a.past.sent <= b.past.sent
  {
  }
}
