/**
 When a job's pid entry is there, and when that shuts the job out: only the wait
 for a process removes the entry (crates/agent/src/job_executor.rs:454), although
 the poll loop counts on its removal on every exit path
 (crates/agent/src/grpc_client.rs:256-258).
 */
module AgentPids {
  import opened Text
  import opened Jobs
  import opened Scheduling
  import opened CompletionMarker
  import opened AgentProtocol

  // ----- where entries come from and go to -----

  /** The step accepts a delivery of the job. */
  predicate Delivers(a: Agent, e: Event, job: JobId) {
    e.PollDeliver? && Enabled(a, e) && a.mem.poll.value.job == job
  }

  /** The step ends the wait for a process of the job. */
  predicate Waits(a: Agent, e: Event, job: JobId) {
    e.ProcessExit? && Enabled(a, e) && a.tasks[e.k].job == job
  }

  /** One step: a delivery makes the entry, a finished wait or a restart removes
      it, and nothing else does either. */
  lemma PidStep(a: Agent, e: Event, job: JobId)
    requires FlightInv(a)
    ensures job in Step(a, e).mem.pids
       <==> Delivers(a, e, job) || (job in a.mem.pids && !e.AgentRestart? && !Waits(a, e, job))
  {
    if Enabled(a, e) {
      if e.ReadMarker? {
        PidRead(a, e.k, Read(MarkerOf(a, a.tasks[e.k].job, e.readable), a.tasks[e.k].retry));
      } else if Opening(e) {
        PidOpening(a, e, job);
      } else if Housekeeping(e) {
        PidHousekeeping(a, e);
      } else {
        PidOther(a, e, job);
      }
    }
  }

  lemma PidRead(a: Agent, k: nat, r: MarkerRead)
    requires k in a.tasks
    ensures AfterRead(a, k, r).mem.pids == a.mem.pids
  {
  }

  lemma PidOpening(a: Agent, e: Event, job: JobId)
    requires Enabled(a, e) && Opening(e) && !e.ReadMarker?
    ensures job in Effect(a, e).mem.pids <==> Delivers(a, e, job) || job in a.mem.pids
  {
  }

  lemma PidHousekeeping(a: Agent, e: Event)
    requires Enabled(a, e) && Housekeeping(e)
    ensures AfterHousekeeping(a, e).mem.pids == a.mem.pids
  {
  }

  lemma PidOther(a: Agent, e: Event, job: JobId)
    requires FlightInv(a) && Enabled(a, e) && !Opening(e) && !Housekeeping(e)
    ensures job in Effect(a, e).mem.pids <==> job in a.mem.pids && !e.AgentRestart? && !Waits(a, e, job)
  {
  }

  /** The job was delivered at step `d` of the run, and since then neither a
      process of it was waited for nor the agent restarted. */
  ghost predicate UnwaitedSince(states: seq<Agent>, events: seq<Event>, n: nat, job: JobId, d: nat)
    requires |states| == |events| + 1 && n <= |events|
  {
    && d < n && Delivers(states[d], events[d], job)
    && forall i | d < i < n :: !events[i].AgentRestart? && !Waits(states[i], events[i], job)
  }

  ghost predicate Unwaited(states: seq<Agent>, events: seq<Event>, n: nat, job: JobId)
    requires |states| == |events| + 1 && n <= |events|
  {
    exists d: nat :: UnwaitedSince(states, events, n, job, d)
  }

  lemma UnwaitedStep(states: seq<Agent>, events: seq<Event>, n: nat, job: JobId)
    requires |states| == |events| + 1 && n < |events|
    ensures Unwaited(states, events, n + 1, job)
       <==> || Delivers(states[n], events[n], job)
            || (Unwaited(states, events, n, job) && !events[n].AgentRestart? && !Waits(states[n], events[n], job))
  {
    if Delivers(states[n], events[n], job) {
      assert UnwaitedSince(states, events, n + 1, job, n);
    }
    if Unwaited(states, events, n, job) && !events[n].AgentRestart? && !Waits(states[n], events[n], job) {
      var d: nat :| UnwaitedSince(states, events, n, job, d);
      assert UnwaitedSince(states, events, n + 1, job, d);
    }
    if Unwaited(states, events, n + 1, job) {
      var d: nat :| UnwaitedSince(states, events, n + 1, job, d);
      assert d < n ==> UnwaitedSince(states, events, n, job, d);
    }
  }

  /** In every run the entry is there exactly when the job was delivered and no
      process of it has been waited for since. */
  lemma {:induction false} PidIff(states: seq<Agent>, events: seq<Event>, n: nat, job: JobId)
    requires IsRun(states, events) && states[0] == INIT && n <= |events|
    ensures job in states[n].mem.pids <==> Unwaited(states, events, n, job)
    decreases n
  {
    if n > 0 {
      PidIff(states, events, n - 1, job);
      RunKeepsInv(states, events, n - 1);
      PidStep(states[n - 1], events[n - 1], job);
      UnwaitedStep(states, events, n - 1, job);
    }
  }

  // ----- and when they shut a job out -----

  /** The job has a pid entry and nobody working on it. */
  predicate Wedged(a: Agent, job: JobId) {
    job in a.mem.pids && forall k | k in a.tasks :: a.tasks[k].job != job
  }

  lemma WedgedStep(a: Agent, e: Event, job: JobId)
    requires FlightInv(a) && Wedged(a, job) && !e.AgentRestart?
    ensures Wedged(Step(a, e), job) && SpawnsOf(Step(a, e), job) == SpawnsOf(a, job)
  {
    if Enabled(a, e) {
      if Opening(e) {
        WedgedOpening(a, e, job);
      } else if e.Spawn? {
        assert a.tasks[e.k].job != job;
      } else {
        WedgedOther(a, e, job);
      }
    }
  }

  lemma WedgedOpening(a: Agent, e: Event, job: JobId)
    requires FlightInv(a) && Wedged(a, job) && Enabled(a, e) && Opening(e)
    ensures Wedged(Effect(a, e), job) && Effect(a, e).past.spawns == a.past.spawns
  {
    if e.ReadMarker? {
      WedgedRead(a, e.k, Read(MarkerOf(a, a.tasks[e.k].job, e.readable), a.tasks[e.k].retry), job);
    }
  }

  lemma WedgedOther(a: Agent, e: Event, job: JobId)
    requires Wedged(a, job) && Enabled(a, e) && !Opening(e) && !e.Spawn? && !e.AgentRestart?
    ensures Wedged(Effect(a, e), job) && Effect(a, e).past.spawns == a.past.spawns
  {
    if Housekeeping(e) {
      WedgedHousekeeping(a, e, job);
    }
  }

  lemma WedgedHousekeeping(a: Agent, e: Event, job: JobId)
    requires Wedged(a, job) && Enabled(a, e) && Housekeeping(e)
    ensures Wedged(AfterHousekeeping(a, e), job) && AfterHousekeeping(a, e).past.spawns == a.past.spawns
  {
  }

  lemma WedgedRead(a: Agent, k: nat, r: MarkerRead, job: JobId)
    requires Wedged(a, job) && k in a.tasks
    ensures Wedged(AfterRead(a, k, r), job) && AfterRead(a, k, r).past.spawns == a.past.spawns
  {
  }

  /** The retry counts the job was spawned with in this lifetime. */
  function SpawnsOf(a: Agent, job: JobId): set<RetryCount> {
    set d | d in a.past.spawns && d.job == job :: d.retry
  }

  /** A job nobody works on is shut out exactly when no process was waited for
      since its last delivery: whatever the exit it took. */
  lemma WedgedIff(states: seq<Agent>, events: seq<Event>, n: nat, job: JobId)
    requires IsRun(states, events) && states[0] == INIT && n <= |events|
    requires forall k | k in states[n].tasks :: states[n].tasks[k].job != job
    ensures Wedged(states[n], job) <==> Unwaited(states, events, n, job)
  {
    PidIff(states, events, n, job);
  }

  /** Until the agent restarts, every later delivery of such a job is skipped,
      whatever its retry count. */
  lemma {:induction false} WedgedUntilRestart(states: seq<Agent>, events: seq<Event>, n: nat, m: nat, job: JobId)
    requires IsRun(states, events) && states[0] == INIT && n <= m <= |events| && Wedged(states[n], job)
    requires forall i | n <= i < m :: !events[i].AgentRestart?
    ensures Wedged(states[m], job) && SpawnsOf(states[m], job) == SpawnsOf(states[n], job)
    decreases m
  {
    if n < m {
      WedgedUntilRestart(states, events, n, m - 1, job);
      RunKeepsInv(states, events, m - 1);
      WedgedStep(states[m - 1], events[m - 1], job);
    }
  }

  /** A task that leaves with its pid entry untouched. */
  lemma LeavingWedges(a: Agent, b: Agent, k: nat)
    requires FlightInv(a) && k in a.tasks && Holds(a.tasks[k].pc) && Early(a.tasks[k].pc)
    requires b.mem == a.mem && b.tasks == a.tasks[k := a.tasks[k].(pc := Leaving)]
    ensures Wedged(AfterRelease(b, k), a.tasks[k].job)
  {
  }

  /** Every exit before the spawn leaves the placeholder behind. */
  lemma EarlyExitWedges(a: Agent, e: Event, k: nat)
    requires FlightInv(a) && Enabled(a, e) && At(Effect(a, e), k, Leaving)
    requires (e.CheckCancelled? || e.ReadMarker? || e.Replay? || e.DirFailed?) && e.k == k
    ensures Wedged(AfterRelease(Effect(a, e), k), a.tasks[k].job)
  {
    if e.ReadMarker? {
      LeavingOnRead(a, k, Read(MarkerOf(a, a.tasks[k].job, e.readable), a.tasks[k].retry));
    }
    LeavingWedges(a, Effect(a, e), k);
  }

  lemma LeavingOnRead(a: Agent, k: nat, r: MarkerRead)
    requires At(a, k, Fresh) && At(AfterRead(a, k, r), k, Leaving)
    ensures var b := AfterRead(a, k, r); b.mem == a.mem && b.tasks == a.tasks[k := a.tasks[k].(pc := Leaving)]
  {
  }

  /** The state when a failed spawn has written its marker and reported. */
  function SpawnFailed(a: Agent, k: nat, note: Note, write: Write): Agent
    requires k in a.tasks
  {
    Moved(Sending(AfterWrite(AfterSpawn(a, k, false, note), k, write), a.tasks[k].job, JobStatus.Failed), k, Leaving)
  }

  /** So does a spawn that fails: its marker is written and its failure reported,
      but the entry stays. */
  lemma FailedSpawnWedges(a: Agent, k: nat, note: Note, write: Write)
    requires FlightInv(a) && At(a, k, Ready)
    ensures Wedged(AfterRelease(SpawnFailed(a, k, note, write), k), a.tasks[k].job)
  {
    LeavingWedges(a, SpawnFailed(a, k, note, write), k);
  }

  /** And so does a delivery whose claim is refused, once the execution that held
      the claim, already waited for, has left. */
  lemma RefusedClaimWedges(a: Agent, k: nat, m: nat)
    requires FlightInv(a) && At(a, k, Leaving) && At(a, m, Delivered) && a.tasks[m].job == a.tasks[k].job
    ensures Wedged(AfterRelease(AfterClaim(a, m), k), a.tasks[k].job)
  {
  }

  // ----- a run that gets there -----

  ghost predicate Reached(a: Agent) {
    exists states: seq<Agent>, events: seq<Event> ::
      IsRun(states, events) && states[0] == INIT && states[|events|] == a
  }

  lemma StartReached()
    ensures Reached(INIT)
  {
    var events: seq<Event> := [];
    assert IsRun([INIT], events);
  }

  lemma Extend(a: Agent, e: Event, b: Agent)
    requires Reached(a) && b == Step(a, e)
    ensures Reached(b)
  {
    var states: seq<Agent>, events: seq<Event> :|
      IsRun(states, events) && states[0] == INIT && states[|events|] == a;
    var longer, more := states + [b], events + [e];
    forall i {:trigger more[i]} | 0 <= i < |more| ensures longer[i + 1] == Step(longer[i], more[i]) {
      if i < |events| {
        assert events[i] == more[i];
      }
    }
    assert IsRun(longer, more) && longer[0] == INIT && longer[|more|] == b;
  }

  lemma Checked(a: Agent, d: Delivery)
    requires Reached(a) && a.mem.poll.None? && d.job !in a.mem.pids
    ensures Reached(a.(mem := a.mem.(poll := Some(d))))
  {
    Extend(a, PollCheck(d), a.(mem := a.mem.(poll := Some(d))));
  }

  lemma Accepted(a: Agent, k: nat)
    requires Reached(a) && a.mem.poll.Some? && k !in a.tasks
    ensures Reached(AfterDeliver(a, k, a.mem.poll.value))
  {
    Extend(a, PollDeliver(k), AfterDeliver(a, k, a.mem.poll.value));
  }

  lemma ClaimDone(a: Agent, k: nat)
    requires Reached(a) && At(a, k, Delivered)
    ensures Reached(AfterClaim(a, k))
  {
    Extend(a, Claim(k), AfterClaim(a, k));
  }

  lemma NotCancelled(a: Agent, k: nat)
    requires Reached(a) && At(a, k, Claimed) && a.tasks[k].job !in a.mem.cancelled
    ensures Reached(Moved(a, k, Fresh))
  {
    Extend(a, CheckCancelled(k), Moved(a, k, Fresh));
  }

  lemma NoMarker(a: Agent, k: nat)
    requires Reached(a) && At(a, k, Fresh) && a.tasks[k].job !in a.files
    ensures Reached(Moved(a, k, Ready))
  {
    Extend(a, ReadMarker(k, true), Moved(a, k, Ready));
  }

  lemma SpawnTried(a: Agent, k: nat, note: Note)
    requires Reached(a) && At(a, k, Ready)
    ensures Reached(AfterSpawn(a, k, false, note))
  {
    Extend(a, Spawn(k, false, note), AfterSpawn(a, k, false, note));
  }

  lemma MarkerWritten(a: Agent, k: nat, write: Write)
    requires Reached(a) && k in a.tasks && a.tasks[k].pc.Decided?
    ensures Reached(AfterWrite(a, k, write))
  {
    Extend(a, WriteMarker(k, write), AfterWrite(a, k, write));
  }

  lemma FailureReported(a: Agent, k: nat)
    requires Reached(a) && At(a, k, Marked(Outcome.Failed))
    ensures Reached(Moved(Sending(a, a.tasks[k].job, JobStatus.Failed), k, Leaving))
  {
    Extend(a, ReportFinal(k), Moved(Sending(a, a.tasks[k].job, JobStatus.Failed), k, Leaving));
  }

  lemma ClaimReleased(a: Agent, k: nat)
    requires Reached(a) && At(a, k, Leaving)
    ensures Reached(AfterRelease(a, k))
  {
    Extend(a, Release(k), AfterRelease(a, k));
  }

  const J := JobId("j")

  /** The first delivery, up to its spawn. */
  lemma ReadyReached() returns (a: Agent)
    ensures Reached(a) && At(a, 0, Ready) && a.tasks[0].job == J
  {
    var d := Delivery(J, 0);
    StartReached();
    Checked(INIT, d);
    var b := INIT.(mem := INIT.mem.(poll := Some(d)));
    Accepted(b, 0);
    var c := AfterDeliver(b, 0, d);
    ClaimDone(c, 0);
    var e := AfterClaim(c, 0);
    assert At(e, 0, Claimed) && e.tasks[0].job == J && J !in e.mem.cancelled && J !in e.files;
    NotCancelled(e, 0);
    NoMarker(Moved(e, 0, Fresh), 0);
    a := Moved(Moved(e, 0, Fresh), 0, Ready);
  }

  /** A spawn that fails shuts its job out. */
  lemma WedgedExample() returns (a: Agent)
    ensures Reached(a) && Wedged(a, J)
  {
    var ready := ReadyReached();
    var note := Note("spawn failed");
    SpawnTried(ready, 0, note);
    var b := AfterSpawn(ready, 0, false, note);
    MarkerWritten(b, 0, Untouched);
    var c := AfterWrite(b, 0, Untouched);
    FailureReported(c, 0);
    var d := Moved(Sending(c, J, JobStatus.Failed), 0, Leaving);
    ClaimReleased(d, 0);
    a := AfterRelease(d, 0);
    ReachedFlight(ready);
    FailedSpawnWedges(ready, 0, note, Untouched);
  }

  lemma ReachedFlight(a: Agent)
    requires Reached(a)
    ensures FlightInv(a)
  {
    var states: seq<Agent>, events: seq<Event> :|
      IsRun(states, events) && states[0] == INIT && states[|events|] == a;
    RunKeepsInv(states, events, |events|);
  }
}
