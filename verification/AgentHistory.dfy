/**
 What an agent reports, told by the events of its run: which step sends which
 message, what the outcome of a process comes from, and that success is said only
 of a job whose process exited 0 and was not marked cancelled when that was
 looked up (crates/agent/src/job_executor.rs:431-515).
 */
module AgentHistory {
  import opened Text
  import opened Jobs
  import opened Scheduling
  import opened CompletionMarker
  import opened AgentProtocol

  // ----- outcomes -----

  /** What becomes of a process: succeeded exactly when it exited 0 unmarked,
      cancelled exactly when it exited, however, with its job marked, and failed in
      every other case; the exit code is kept, and a failed wait counts as -1. */
  lemma OutcomeIff(a: Agent, k: nat, note: Note)
    requires Enabled(a, Decide(k, note))
    ensures var t := a.tasks[k];
            var b := Step(a, Decide(k, note));
            var marked := t.job in a.mem.cancelled;
            && k in b.tasks && b.tasks[k].job == t.job && b.tasks[k].retry == t.retry && b.tasks[k].pc.Decided?
            && (b.tasks[k].pc.outcome == Outcome.Succeeded <==> t.pc.exit == Exited(0) && !marked)
            && (b.tasks[k].pc.outcome == Outcome.Cancelled <==> t.pc.exit.Exited? && marked)
            && (b.tasks[k].pc.outcome == Outcome.Failed <==>
                  t.pc.exit.WaitFailed? || (t.pc.exit.code != 0 && !marked))
            && b.tasks[k].pc.code == (match t.pc.exit case Exited(code) => code case WaitFailed(_) => -1)
  {
  }

  /** The marker that is written replays the outcome that was decided, to the run
      it belongs to. */
  lemma WrittenMarkerReplays(a: Agent, k: nat)
    requires Enabled(a, WriteMarker(k, Wrote))
    ensures var t := a.tasks[k];
            var b := Step(a, WriteMarker(k, Wrote));
            && t.job in b.files && k in b.tasks && b.tasks[k] == t.(pc := Marked(t.pc.outcome))
            && var r := Read(Some(b.files[t.job].text), t.retry);
               r.Valid? && r.status == t.pc.outcome && r.exitCode == t.pc.code
  {
    var t := a.tasks[k];
    RoundTrip(t.retry, t.pc.outcome, t.pc.code, t.pc.note.text, t.retry);
  }

  /** What a marker leads to: its outcome is replayed, a corrupt one stops the run,
      and with none, or one that cannot be read, the run goes on to its spawn. */
  lemma MarkerLeadsTo(a: Agent, k: nat, readable: bool)
    requires Enabled(a, ReadMarker(k, readable))
    ensures var t := a.tasks[k];
            var b := Step(a, ReadMarker(k, readable));
            && k in b.tasks && b.tasks[k].job == t.job
            && if !readable || t.job !in a.files then b.tasks[k].pc == Ready
               else match Read(Some(a.files[t.job].text), t.retry)
                 case Missing => b.tasks[k].pc == Ready
                 case Corrupt => b.tasks[k].pc == Leaving
                 case Valid(outcome, _, _) => b.tasks[k].pc == Replaying(outcome)
  {
    LeadsTo(a, k, Read(MarkerOf(a, a.tasks[k].job, readable), a.tasks[k].retry));
  }

  lemma LeadsTo(a: Agent, k: nat, r: MarkerRead)
    requires k in a.tasks
    ensures var b := AfterRead(a, k, r);
            && k in b.tasks && b.tasks[k].job == a.tasks[k].job
            && b.tasks[k].pc == (match r
                case Missing => Ready
                case Corrupt => Leaving
                case Valid(outcome, _, _) => Replaying(outcome))
            && b.past.sent == a.past.sent + (if r.Corrupt? then {Message(a.tasks[k].job, JobStatus.Failed)} else {})
  {
  }

  /** A restart forgets what was in memory and every task, but not the markers on
      disk nor what was said: a run that had its marker written is replayed, not
      repeated. */
  lemma RestartKeepsMarkers(a: Agent, job: JobId, retry: RetryCount)
    requires job in a.files && Read(Some(a.files[job].text), retry).Valid?
    ensures var b := Step(a, AgentRestart);
            && b.tasks == map[] && b.mem == EMPTY && b.past.sent == a.past.sent
            && job in b.files && Read(Some(b.files[job].text), retry) == Read(Some(a.files[job].text), retry)
  {
  }

  // ----- who says what -----

  function Final(job: JobId, outcome: Outcome): Message {
    match outcome
    case Succeeded => Message(job, JobStatus.Succeeded)
    case Failed => Message(job, JobStatus.Failed)
    case Cancelled => Message(job, JobStatus.Cancelled)
  }

  /** The report a step sends, if it sends one. */
  predicate Says(a: Agent, e: Event, m: Message)
    requires Enabled(a, e)
  {
    match e
    case CancelReport(job) => m == Message(job, JobStatus.Cancelled)
    case CheckCancelled(k) => a.tasks[k].job in a.mem.cancelled && m == Message(a.tasks[k].job, JobStatus.Cancelled)
    case ReadMarker(k, readable) =>
      && readable && a.tasks[k].job in a.files
      && Read(Some(a.files[a.tasks[k].job].text), a.tasks[k].retry).Corrupt?
      && m == Message(a.tasks[k].job, JobStatus.Failed)
    case Replay(k) => m == Final(a.tasks[k].job, a.tasks[k].pc.outcome)
    case ReportRunning(k) => m == Message(a.tasks[k].job, JobStatus.Running)
    case ReportFinal(k) => m == Final(a.tasks[k].job, a.tasks[k].pc.outcome)
    case _ => false
  }

  /** A step adds to what was said exactly what it says. */
  lemma SaysStep(a: Agent, e: Event, m: Message)
    requires Enabled(a, e)
    ensures m in Step(a, e).past.sent <==> m in a.past.sent || Says(a, e, m)
  {
    if e.ReadMarker? {
      LeadsTo(a, e.k, Read(MarkerOf(a, a.tasks[e.k].job, e.readable), a.tasks[e.k].retry));
    } else if Housekeeping(e) {
      SaysHousekeeping(a, e, m);
    } else if Opening(e) {
      SaysOpening(a, e, m);
    } else {
      SaysOther(a, e, m);
    }
  }

  lemma SaysHousekeeping(a: Agent, e: Event, m: Message)
    requires Enabled(a, e) && Housekeeping(e)
    ensures m in AfterHousekeeping(a, e).past.sent <==> m in a.past.sent || Says(a, e, m)
  {
  }

  lemma SaysOpening(a: Agent, e: Event, m: Message)
    requires Enabled(a, e) && Opening(e) && !e.ReadMarker?
    ensures m in Effect(a, e).past.sent <==> m in a.past.sent || Says(a, e, m)
  {
  }

  lemma SaysOther(a: Agent, e: Event, m: Message)
    requires Enabled(a, e) && !Opening(e) && !Housekeeping(e)
    ensures m in Effect(a, e).past.sent <==> m in a.past.sent || Says(a, e, m)
  {
  }

  // ----- one agent's way through a run -----

  /** The states of an agent, with the event of each step, if the step was its own. */
  ghost predicate IsPath(states: seq<Agent>, events: seq<Option<Event>>) {
    && |states| == |events| + 1 && states[0] == INIT
    && forall i {:trigger events[i]} | 0 <= i < |events| ::
         states[i + 1] == match events[i] case Some(e) => Step(states[i], e) case None => states[i]
  }

  /** The step happened: it was the agent's own and it was possible. */
  predicate Happens(a: Agent, e: Option<Event>) {
    e.Some? && Enabled(a, e.value)
  }

  lemma PathStep(states: seq<Agent>, events: seq<Option<Event>>, n: nat)
    requires IsPath(states, events) && n < |events|
    ensures states[n + 1] == if Happens(states[n], events[n]) then Effect(states[n], events[n].value) else states[n]
  {
  }

  lemma PathStepInv(states: seq<Agent>, events: seq<Option<Event>>, n: nat)
    requires IsPath(states, events) && n < |events| && SuccessInv(states[n]) && FlightInv(states[n])
    ensures SuccessInv(states[n + 1]) && FlightInv(states[n + 1])
  {
    if events[n].Some? {
      SuccessStep(states[n], events[n].value);
      FlightStep(states[n], events[n].value);
    }
  }

  lemma {:induction false} PathInv(states: seq<Agent>, events: seq<Option<Event>>, n: nat)
    requires IsPath(states, events) && n <= |events|
    ensures SuccessInv(states[n]) && FlightInv(states[n])
    decreases n
  {
    if n == 0 {
      InitInv();
    } else {
      PathInv(states, events, n - 1);
      PathStepInv(states, events, n - 1);
    }
  }

  /** At step `i` the wait for task `k` ended, and the task is still there. */
  predicate EndedAt(states: seq<Agent>, events: seq<Option<Event>>, n: nat, k: nat, i: nat)
    requires |states| == |events| + 1 && n <= |events|
  {
    && i < n && k in states[n].tasks && states[n].tasks[k].pc.Ended?
    && Happens(states[i], events[i]) && events[i].value == ProcessExit(k, states[n].tasks[k].pc.exit)
    && states[i].tasks[k].job == states[n].tasks[k].job && states[i].tasks[k].retry == states[n].tasks[k].retry
  }

  /** A task is at its end only by the end of a wait. */
  lemma EndedStep(a: Agent, e: Event, k: nat)
    requires Enabled(a, e) && k in Effect(a, e).tasks && Effect(a, e).tasks[k].pc.Ended?
    ensures || (k in a.tasks && a.tasks[k] == Effect(a, e).tasks[k])
            || (&& e == ProcessExit(k, Effect(a, e).tasks[k].pc.exit)
                && a.tasks[k].job == Effect(a, e).tasks[k].job && a.tasks[k].retry == Effect(a, e).tasks[k].retry)
  {
    if e.ReadMarker? {
      EndedRead(a, e.k, Read(MarkerOf(a, a.tasks[e.k].job, e.readable), a.tasks[e.k].retry), k);
    } else if Opening(e) {
      EndedOpening(a, e, k);
    } else if Housekeeping(e) {
      EndedHousekeeping(a, e);
    } else {
      EndedOther(a, e, k);
    }
  }

  lemma EndedRead(a: Agent, m: nat, r: MarkerRead, k: nat)
    requires m in a.tasks && k in AfterRead(a, m, r).tasks && AfterRead(a, m, r).tasks[k].pc.Ended?
    ensures k in a.tasks && a.tasks[k] == AfterRead(a, m, r).tasks[k]
  {
  }

  lemma EndedOpening(a: Agent, e: Event, k: nat)
    requires Enabled(a, e) && Opening(e) && !e.ReadMarker?
    requires k in Effect(a, e).tasks && Effect(a, e).tasks[k].pc.Ended?
    ensures k in a.tasks && a.tasks[k] == Effect(a, e).tasks[k]
  {
  }

  lemma EndedHousekeeping(a: Agent, e: Event)
    requires Enabled(a, e) && Housekeeping(e)
    ensures AfterHousekeeping(a, e).tasks == a.tasks && AfterHousekeeping(a, e).past.clean == a.past.clean
  {
  }

  lemma EndedOther(a: Agent, e: Event, k: nat)
    requires Enabled(a, e) && !Opening(e) && !Housekeeping(e)
    requires k in Effect(a, e).tasks && Effect(a, e).tasks[k].pc.Ended?
    ensures || (k in a.tasks && a.tasks[k] == Effect(a, e).tasks[k])
            || (&& e == ProcessExit(k, Effect(a, e).tasks[k].pc.exit)
                && a.tasks[k].job == Effect(a, e).tasks[k].job && a.tasks[k].retry == Effect(a, e).tasks[k].retry)
  {
  }

  lemma EndedPathStep(states: seq<Agent>, events: seq<Option<Event>>, n: nat, k: nat) returns (i: nat)
    requires IsPath(states, events) && n < |events| && k in states[n + 1].tasks && states[n + 1].tasks[k].pc.Ended?
    ensures || (i == n && EndedAt(states, events, n + 1, k, i))
            || (k in states[n].tasks && states[n].tasks[k] == states[n + 1].tasks[k])
  {
    i := n;
    PathStep(states, events, n);
    if Happens(states[n], events[n]) {
      EndedStep(states[n], events[n].value, k);
    }
  }

  lemma {:induction false} EndedByExit(states: seq<Agent>, events: seq<Option<Event>>, n: nat, k: nat) returns (i: nat)
    requires IsPath(states, events) && n <= |events| && k in states[n].tasks && states[n].tasks[k].pc.Ended?
    ensures EndedAt(states, events, n, k, i)
    decreases n
  {
    assert n > 0;
    i := EndedPathStep(states, events, n - 1, k);
    if !EndedAt(states, events, n, k, i) {
      i := EndedByExit(states, events, n - 1, k);
    }
  }

  /** At step `j` the outcome of task `k` of the job was decided: its process had
      exited 0 at step `i`, and the job was not marked cancelled. */
  predicate CleanExitAt(states: seq<Agent>, events: seq<Option<Event>>, n: nat, job: JobId, k: nat, i: nat, j: nat)
    requires |states| == |events| + 1 && n <= |events|
  {
    && i < j < n
    && Happens(states[i], events[i]) && events[i].value == ProcessExit(k, Exited(0)) && states[i].tasks[k].job == job
    && Happens(states[j], events[j]) && events[j].value.Decide? && events[j].value.k == k
    && states[j].tasks[k] == states[i].tasks[k].(pc := Ended(Exited(0)))
    && job !in states[j].mem.cancelled
  }

  ghost predicate CleanExit(states: seq<Agent>, events: seq<Option<Event>>, n: nat, job: JobId)
    requires |states| == |events| + 1 && n <= |events|
  {
    exists k: nat, i: nat, j: nat :: CleanExitAt(states, events, n, job, k, i, j)
  }

  /** The record of clean exits grows only by a process that exited 0, unmarked. */
  lemma CleanStep(a: Agent, e: Event, job: JobId)
    requires Enabled(a, e) && job in Effect(a, e).past.clean && job !in a.past.clean
    ensures e.Decide? && a.tasks[e.k].job == job && a.tasks[e.k].pc == Ended(Exited(0)) && job !in a.mem.cancelled
  {
    if e.ReadMarker? {
      CleanRead(a, e.k, Read(MarkerOf(a, a.tasks[e.k].job, e.readable), a.tasks[e.k].retry));
    } else if Opening(e) {
      CleanOpening(a, e);
    } else if Housekeeping(e) {
      EndedHousekeeping(a, e);
    }
  }

  lemma CleanRead(a: Agent, k: nat, r: MarkerRead)
    requires k in a.tasks
    ensures AfterRead(a, k, r).past.clean == a.past.clean
  {
  }

  lemma CleanOpening(a: Agent, e: Event)
    requires Enabled(a, e) && Opening(e) && !e.ReadMarker?
    ensures Effect(a, e).past.clean == a.past.clean
  {
  }

  lemma CleanPathStep(states: seq<Agent>, events: seq<Option<Event>>, n: nat, job: JobId)
    requires IsPath(states, events) && n < |events| && job in states[n + 1].past.clean && job !in states[n].past.clean
    ensures CleanExit(states, events, n + 1, job)
  {
    PathStep(states, events, n);
    CleanStep(states[n], events[n].value, job);
    var k := events[n].value.k;
    var i := EndedByExit(states, events, n, k);
    EndedIsClean(states, events, n, job, k, i);
  }

  lemma EndedIsClean(states: seq<Agent>, events: seq<Option<Event>>, n: nat, job: JobId, k: nat, i: nat)
    requires |states| == |events| + 1 && n < |events| && EndedAt(states, events, n, k, i)
    requires Happens(states[n], events[n]) && events[n].value.Decide? && events[n].value.k == k
    requires states[n].tasks[k].job == job && states[n].tasks[k].pc == Ended(Exited(0)) && job !in states[n].mem.cancelled
    ensures CleanExit(states, events, n + 1, job)
  {
    assert CleanExitAt(states, events, n + 1, job, k, i, n);
  }

  lemma CleanExitStays(states: seq<Agent>, events: seq<Option<Event>>, n: nat, job: JobId)
    requires |states| == |events| + 1 && n < |events| && CleanExit(states, events, n, job)
    ensures CleanExit(states, events, n + 1, job)
  {
    var k: nat, i: nat, j: nat :| CleanExitAt(states, events, n, job, k, i, j);
    assert CleanExitAt(states, events, n + 1, job, k, i, j);
  }

  lemma {:induction false} CleanHasExit(states: seq<Agent>, events: seq<Option<Event>>, n: nat, job: JobId)
    requires IsPath(states, events) && n <= |events| && job in states[n].past.clean
    ensures CleanExit(states, events, n, job)
    decreases n
  {
    assert n > 0;
    if job in states[n - 1].past.clean {
      CleanHasExit(states, events, n - 1, job);
      CleanExitStays(states, events, n - 1, job);
    } else {
      CleanPathStep(states, events, n - 1, job);
    }
  }

  /** In every run, across restarts, failed and torn writes: if success was ever
      reported of a job, some process of it had exited 0 before, and the job was
      not marked cancelled when that was decided. */
  lemma SuccessNeedsCleanExit(states: seq<Agent>, events: seq<Option<Event>>, n: nat, job: JobId)
    requires IsPath(states, events) && n <= |events| && Message(job, JobStatus.Succeeded) in states[n].past.sent
    ensures CleanExit(states, events, n, job)
  {
    PathInv(states, events, n);
    assert Message(job, JobStatus.Succeeded).status == JobStatus.Succeeded;
    assert Message(job, JobStatus.Succeeded).job == job;
    CleanHasExit(states, events, n, job);
  }

  /** A report was sent exactly if some step of the run said it. */
  lemma {:induction false} SentIff(states: seq<Agent>, events: seq<Option<Event>>, n: nat, m: Message)
    requires IsPath(states, events) && n <= |events|
    ensures m in states[n].past.sent
       <==> exists i :: 0 <= i < n && Happens(states[i], events[i]) && Says(states[i], events[i].value, m)
    decreases n
  {
    if n > 0 {
      SentIff(states, events, n - 1, m);
      SentPathStep(states, events, n - 1, m);
    }
  }

  lemma SentPathStep(states: seq<Agent>, events: seq<Option<Event>>, n: nat, m: Message)
    requires IsPath(states, events) && n < |events|
    ensures m in states[n + 1].past.sent
       <==> m in states[n].past.sent || (Happens(states[n], events[n]) && Says(states[n], events[n].value, m))
  {
    PathStep(states, events, n);
    if Happens(states[n], events[n]) {
      SaysStep(states[n], events[n].value, m);
    }
  }
}
