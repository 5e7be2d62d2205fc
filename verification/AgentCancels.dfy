/**
 That an agent reports a job cancelled only if it was asked to cancel it
 (crates/agent/src/grpc_client.rs:208-236, crates/agent/src/job_executor.rs:244-256
 and 463-493): directly, before the start, at the end of a process, or through a
 marker replayed much later.
 */
module AgentCancels {
  import opened Text
  import opened Jobs
  import opened Scheduling
  import opened CompletionMarker
  import opened AgentProtocol
  import opened AgentHistory

  predicate SaysCancelled(pc: Pc) {
    (pc.Replaying? || pc.Decided? || pc.Marked?) && pc.outcome.Cancelled?
  }

  /** A marker that some run would replay as a cancellation. */
  ghost predicate ReadsCancelled(text: string) {
    exists retry: RetryCount :: Read(Some(text), retry).Valid? && Read(Some(text), retry).status.Cancelled?
  }

  /** Every mark, every cancellation said or about to be said, and every marker of
      one belongs to a job among those asked for. */
  ghost predicate CancelInv(a: Agent, asked: set<JobId>) {
    && a.mem.cancelled <= asked
    && (forall job | job in a.mem.cancels :: job in asked)
    && (forall m | m in a.past.sent && m.status == JobStatus.Cancelled :: m.job in asked)
    && (forall k | k in a.tasks && SaysCancelled(a.tasks[k].pc) :: a.tasks[k].job in asked)
    && (forall job | job in a.files && ReadsCancelled(a.files[job].text) :: job in asked)
  }

  /** What was asked for after the step. */
  function AskedAfter(asked: set<JobId>, e: Event): set<JobId> {
    if e.CancelRequest? then asked + {e.job} else asked
  }

  lemma CancelMoved(a: Agent, asked: set<JobId>, k: nat, pc: Pc)
    requires CancelInv(a, asked) && k in a.tasks && (SaysCancelled(pc) ==> a.tasks[k].job in asked)
    ensures CancelInv(Moved(a, k, pc), asked)
  {
  }

  lemma CancelSending(a: Agent, asked: set<JobId>, job: JobId, status: JobStatus)
    requires CancelInv(a, asked) && (status == JobStatus.Cancelled ==> job in asked)
    ensures CancelInv(Sending(a, job, status), asked)
  {
  }

  lemma CancelLeaves(a: Agent, asked: set<JobId>, k: nat, status: JobStatus)
    requires CancelInv(a, asked) && k in a.tasks && (status == JobStatus.Cancelled ==> a.tasks[k].job in asked)
    ensures CancelInv(Moved(Sending(a, a.tasks[k].job, status), k, Leaving), asked)
  {
    CancelSending(a, asked, a.tasks[k].job, status);
    CancelMoved(Sending(a, a.tasks[k].job, status), asked, k, Leaving);
  }

  lemma CancelRead(a: Agent, asked: set<JobId>, k: nat, readable: bool)
    requires CancelInv(a, asked) && At(a, k, Fresh)
    ensures CancelInv(AfterRead(a, k, Read(MarkerOf(a, a.tasks[k].job, readable), a.tasks[k].retry)), asked)
  {
    var job := a.tasks[k].job;
    match Read(MarkerOf(a, job, readable), a.tasks[k].retry)
    case Valid(o, _, _) =>
      assert o.Cancelled? ==> ReadsCancelled(a.files[job].text);
      CancelMoved(a, asked, k, Replaying(o));
    case Corrupt => CancelLeaves(a, asked, k, JobStatus.Failed);
    case Missing => CancelMoved(a, asked, k, Ready);
  }

  lemma TornNeverCancels(text: string, t: Task)
    requires t.pc.Decided? && text <= Content(t)
    ensures ReadsCancelled(text) ==> t.pc.outcome.Cancelled?
  {
    if ReadsCancelled(text) {
      var retry: RetryCount :| Read(Some(text), retry).Valid? && Read(Some(text), retry).status.Cancelled?;
      TornWriteKeepsStatus(text, t.retry, t.pc.outcome, t.pc.code, t.pc.note.text, retry);
    }
  }

  lemma CancelWrite(a: Agent, asked: set<JobId>, k: nat, write: Write)
    requires CancelInv(a, asked) && k in a.tasks && a.tasks[k].pc.Decided?
    ensures CancelInv(AfterWrite(a, k, write), asked)
  {
    var t := a.tasks[k];
    CancelMoved(a, asked, k, Marked(t.pc.outcome));
    if !write.Untouched? {
      TornNeverCancels(AfterWrite(a, k, write).files[t.job].text, t);
    }
  }

  lemma CancelDecide(a: Agent, asked: set<JobId>, k: nat, note: Note)
    requires CancelInv(a, asked) && k in a.tasks && a.tasks[k].pc.Ended?
    ensures CancelInv(AfterDecide(a, k, note), asked)
  {
    var job := a.tasks[k].job;
    var pc := Verdict(a.tasks[k].pc.exit, job in a.mem.cancelled, note);
    CancelMoved(if pc.outcome.Succeeded? then a.(past := a.past.(clean := a.past.clean + {job})) else a, asked, k, pc);
  }

  lemma CancelHousekeeping(a: Agent, asked: set<JobId>, e: Event)
    requires CancelInv(a, asked) && Enabled(a, e) && Housekeeping(e)
    ensures CancelInv(AfterHousekeeping(a, e), AskedAfter(asked, e))
  {
  }

  lemma CancelOpening(a: Agent, asked: set<JobId>, e: Event)
    requires CancelInv(a, asked) && Enabled(a, e) && Opening(e)
    ensures CancelInv(Effect(a, e), asked)
  {
    match e
    case PollDeliver(_) =>
    case Claim(k) => CancelMoved(a, asked, k, Claimed);
    case CheckCancelled(k) =>
      CancelMoved(a, asked, k, Fresh);
      if a.tasks[k].job in a.mem.cancelled {
        CancelLeaves(a, asked, k, JobStatus.Cancelled);
      }
    case ReadMarker(k, readable) => CancelRead(a, asked, k, readable);
    case Replay(k) => CancelLeaves(a, asked, k, StatusOf(a.tasks[k].pc.outcome));
    case DirFailed(k) => CancelMoved(a, asked, k, Leaving);
  }

  lemma CancelOther(a: Agent, asked: set<JobId>, e: Event)
    requires CancelInv(a, asked) && Enabled(a, e) && !Opening(e) && !Housekeeping(e)
    ensures CancelInv(Effect(a, e), asked)
  {
    match e
    case Spawn(k, ok, note) => CancelMoved(a, asked, k, if ok then Spawned else Decided(Outcome.Failed, -1, note));
    case Register(k) => CancelMoved(a, asked, k, Active);
    case ProcessExit(k, exit) => CancelMoved(a, asked, k, Ended(exit));
    case Decide(k, note) => CancelDecide(a, asked, k, note);
    case WriteMarker(k, write) => CancelWrite(a, asked, k, write);
    case ReportFinal(k) => CancelLeaves(a, asked, k, StatusOf(a.tasks[k].pc.outcome));
    case Release(_) =>
    case CleanUpDir(_) =>
    case AgentRestart =>
  }

  lemma CancelStep(a: Agent, asked: set<JobId>, e: Event)
    requires CancelInv(a, asked) && Enabled(a, e)
    ensures CancelInv(Effect(a, e), AskedAfter(asked, e))
  {
    if Opening(e) {
      CancelOpening(a, asked, e);
    } else if Housekeeping(e) {
      CancelHousekeeping(a, asked, e);
    } else {
      CancelOther(a, asked, e);
    }
  }

  /** The jobs the agent was asked to cancel in the first `n` steps. */
  function Asked(events: seq<Option<Event>>, n: nat): set<JobId>
    requires n <= |events|
  {
    if n == 0 then {}
    else match events[n - 1]
      case Some(e) => AskedAfter(Asked(events, n - 1), e)
      case None => Asked(events, n - 1)
  }

  lemma {:induction false} AskedIff(events: seq<Option<Event>>, n: nat, job: JobId)
    requires n <= |events|
    ensures job in Asked(events, n) <==> exists i :: 0 <= i < n && events[i] == Some(CancelRequest(job))
    decreases n
  {
    if n > 0 {
      AskedIff(events, n - 1, job);
    }
  }

  lemma PathStepCancels(states: seq<Agent>, events: seq<Option<Event>>, n: nat)
    requires IsPath(states, events) && n < |events| && CancelInv(states[n], Asked(events, n))
    ensures CancelInv(states[n + 1], Asked(events, n + 1))
  {
    PathStep(states, events, n);
    if Happens(states[n], events[n]) {
      CancelStep(states[n], Asked(events, n), events[n].value);
    }
  }

  lemma {:induction false} PathCancels(states: seq<Agent>, events: seq<Option<Event>>, n: nat)
    requires IsPath(states, events) && n <= |events|
    ensures CancelInv(states[n], Asked(events, n))
    decreases n
  {
    if n > 0 {
      PathCancels(states, events, n - 1);
      PathStepCancels(states, events, n - 1);
    }
  }

  /** In every run, across restarts, failed and torn writes: if a job was ever
      reported cancelled, a request to cancel it had come before. */
  lemma CancelledOnlyIfAsked(states: seq<Agent>, events: seq<Option<Event>>, n: nat, job: JobId)
    requires IsPath(states, events) && n <= |events| && Message(job, JobStatus.Cancelled) in states[n].past.sent
    ensures exists i :: 0 <= i < n && events[i] == Some(CancelRequest(job))
  {
    PathCancels(states, events, n);
    assert Message(job, JobStatus.Cancelled).status == JobStatus.Cancelled;
    assert Message(job, JobStatus.Cancelled).job in Asked(events, n);
    AskedIff(events, n, job);
  }
}
