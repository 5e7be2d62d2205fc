/**
 What the two gaps between agents and server come to together: a success replayed
 while the row is still `starting` is rejected (crates/common/src/job.rs:57-59),
 and the replay leaves the placeholder pid behind
 (crates/agent/src/job_executor.rs:269-284), so that no later delivery gets
 through. Nothing is left that would move the job on by itself.
 */
module StuckJobs {
  import opened Text
  import opened Jobs
  import opened Scheduling
  import opened JobTable
  import D = Dispatch
  import P = DispatchProperties
  import M = CompletionMarker
  import A = AgentProtocol
  import Pids = AgentPids
  import C = Cluster

  /** The row waits for its node's agent, which is done with the job. */
  predicate Stuck(c: C.Cluster, node: NodeId, id: JobId) {
    && InState(c.server.rows, id, Starting) && c.server.rows[id].node == node
    && node in c.agents && Silent(c.agents[node], id)
  }

  /** The agent has a pid entry for the job, nobody working on it, and no report
      of its cancellation to make. */
  predicate Silent(a: A.Agent, job: JobId) {
    Pids.Wedged(a, job) && job !in a.mem.cancels
  }

  /** What the agent has said of the job so far. */
  function SaidOf(a: A.Agent, job: JobId): set<A.Message> {
    set m | m in a.past.sent && m.job == job
  }

  /** How a job comes to be stuck: its agent replays a success and leaves, and the
      server rejects the report. */
  lemma ReplayGetsStuck(c: C.Cluster, node: NodeId, k: nat)
    requires C.Inv(c) && node in c.agents && A.At(c.agents[node], k, A.Replaying(M.Outcome.Succeeded))
    requires var a := c.agents[node];
             var id := a.tasks[k].job;
             InState(c.server.rows, id, Starting) && c.server.rows[id].node == node && id !in a.mem.cancels
    ensures var a := c.agents[node];
            var id := a.tasks[k].job;
            var b := A.Moved(A.Sending(a, id, Succeeded), k, A.Leaving);
            && Stuck(c.(agents := c.agents[node := A.AfterRelease(b, k)]), node, id)
            && D.Step(c.server, D.Report(id, Succeeded)) == c.server
  {
    var a := c.agents[node];
    var id := a.tasks[k].job;
    assert C.AgentOk(a);
    Pids.LeavingWedges(a, A.Moved(A.Sending(a, id, Succeeded), k, A.Leaving), k);
    P.SuccessRecordedIff(c.server, id);
  }

  /** Nothing from outside reaches the job: every other report of it is lost,
      nobody stops it, its node is online whenever stale rows are requeued, and
      its agent does not restart. */
  predicate LeftAlone(c: C.Cluster, e: C.Event, node: NodeId, id: JobId) {
    match e
    case Server(step) =>
      && (step.Report? && step.id == id ==> step.status.Succeeded?)
      && ((step.MarkStopping? || step.RpcCancel?) ==> step.id != id)
      && (step.ResetStale? ==> node in D.OnlineNodes(c.server.registry))
    case Agent(n, action) => n == node ==> !action.AgentRestart?
  }

  // ----- the server's side -----

  lemma RecordLeaves(s: D.State, e: D.Event, id: JobId)
    requires D.Enabled(s, e) && P.Records(e) && InState(s.rows, id, Starting)
    requires (e.Report? && e.id == id ==> e.status.Succeeded?) && ((e.MarkStopping? || e.RpcCancel?) ==> e.id != id)
    ensures id in D.Effect(s, e).rows && D.Effect(s, e).rows[id] == s.rows[id]
  {
  }

  lemma WriterLeaves(s: D.State, e: D.Event, id: JobId)
    requires D.Enabled(s, e) && (e.Submit? || e.ResetStale? || e.Assign?) && InState(s.rows, id, Starting)
    requires e.ResetStale? ==> s.rows[id].node in D.OnlineNodes(s.registry)
    ensures id in D.Effect(s, e).rows && D.Effect(s, e).rows[id] == s.rows[id]
  {
    P.RowWriterStep(s, e, id);
  }

  lemma StartingStays(c: C.Cluster, e: D.Event, node: NodeId, id: JobId)
    requires InState(c.server.rows, id, Starting) && c.server.rows[id].node == node
    requires LeftAlone(c, C.Server(e), node, id)
    ensures var t := D.Step(c.server, e); id in t.rows && t.rows[id] == c.server.rows[id]
  {
    if D.Enabled(c.server, e) {
      if P.Records(e) {
        RecordLeaves(c.server, e, id);
      } else if e.Submit? || e.ResetStale? || e.Assign? {
        WriterLeaves(c.server, e, id);
      } else {
        P.OtherStep(c.server, e);
      }
    }
  }

  // ----- the agent's side -----

  lemma SilentStep(a: A.Agent, e: A.Event, job: JobId)
    requires A.FlightInv(a) && Silent(a, job) && !e.AgentRestart?
    ensures var b := A.Step(a, e);
            Silent(b, job) && SaidOf(b, job) == SaidOf(a, job) && Pids.SpawnsOf(b, job) == Pids.SpawnsOf(a, job)
  {
    Pids.WedgedStep(a, e, job);
    if A.Enabled(a, e) {
      if e.ReadMarker? {
        SilentRead(a, e.k, M.Read(A.MarkerOf(a, a.tasks[e.k].job, e.readable), a.tasks[e.k].retry), job);
      } else if A.Opening(e) {
        SilentOpening(a, e, job);
      } else if A.Housekeeping(e) {
        SilentHousekeeping(a, e, job);
      } else {
        SilentOther(a, e, job);
      }
    }
  }

  lemma SilentRead(a: A.Agent, k: nat, r: M.MarkerRead, job: JobId)
    requires k in a.tasks && a.tasks[k].job != job
    ensures SaidOf(A.AfterRead(a, k, r), job) == SaidOf(a, job) && A.AfterRead(a, k, r).mem == a.mem
  {
  }

  lemma SilentOpening(a: A.Agent, e: A.Event, job: JobId)
    requires Silent(a, job) && A.Enabled(a, e) && A.Opening(e) && !e.ReadMarker?
    ensures SaidOf(A.Effect(a, e), job) == SaidOf(a, job) && A.Effect(a, e).mem.cancels == a.mem.cancels
  {
  }

  lemma SilentHousekeeping(a: A.Agent, e: A.Event, job: JobId)
    requires Silent(a, job) && A.Enabled(a, e) && A.Housekeeping(e)
    ensures SaidOf(A.AfterHousekeeping(a, e), job) == SaidOf(a, job) && job !in A.AfterHousekeeping(a, e).mem.cancels
  {
  }

  lemma SilentOther(a: A.Agent, e: A.Event, job: JobId)
    requires Silent(a, job) && A.Enabled(a, e) && !A.Opening(e) && !A.Housekeeping(e) && !e.AgentRestart?
    ensures SaidOf(A.Effect(a, e), job) == SaidOf(a, job) && A.Effect(a, e).mem.cancels == a.mem.cancels
  {
  }

  // ----- together -----

  /** Stuck, with nothing more said or spawned. */
  ghost predicate StillStuck(c: C.Cluster, d: C.Cluster, node: NodeId, id: JobId) {
    && Stuck(c, node, id) && Stuck(d, node, id)
    && SaidOf(d.agents[node], id) == SaidOf(c.agents[node], id)
    && Pids.SpawnsOf(d.agents[node], id) == Pids.SpawnsOf(c.agents[node], id)
  }

  lemma ServerStuck(c: C.Cluster, e: D.Event, node: NodeId, id: JobId)
    requires Stuck(c, node, id) && LeftAlone(c, C.Server(e), node, id)
    ensures StillStuck(c, c.(server := D.Step(c.server, e)), node, id)
  {
    StartingStays(c, e, node, id);
  }

  lemma AgentStuck(c: C.Cluster, n: NodeId, b: A.Agent, node: NodeId, id: JobId)
    requires Stuck(c, node, id)
    requires n == node ==>
               && Silent(b, id) && SaidOf(b, id) == SaidOf(c.agents[node], id)
               && Pids.SpawnsOf(b, id) == Pids.SpawnsOf(c.agents[node], id)
    ensures StillStuck(c, c.(agents := c.agents[n := b]), node, id)
  {
  }

  lemma StuckStep(c: C.Cluster, e: C.Event, node: NodeId, id: JobId)
    requires C.Inv(c) && C.Possible(c, e) && Stuck(c, node, id) && LeftAlone(c, e, node, id)
    ensures StillStuck(c, C.Step(c, e), node, id)
  {
    match e
    case Server(step) => ServerStuck(c, step, node, id);
    case Agent(n, action) =>
      if n == node {
        assert C.AgentOk(c.agents[node]);
        SilentStep(c.agents[node], action, id);
      }
      AgentStuck(c, n, A.Step(c.agents[n], action), node, id);
  }

  /** The job is left alone from step `n` to step `m`. */
  ghost predicate AloneFrom(states: seq<C.Cluster>, events: seq<C.Event>, n: nat, m: nat, node: NodeId, id: JobId) {
    && |states| == |events| + 1 && n <= m <= |events|
    && forall i {:trigger events[i]} | n <= i < m :: LeftAlone(states[i], events[i], node, id)
  }

  lemma AloneBefore(states: seq<C.Cluster>, events: seq<C.Event>, n: nat, m: nat, node: NodeId, id: JobId)
    requires AloneFrom(states, events, n, m + 1, node, id) && n <= m
    ensures AloneFrom(states, events, n, m, node, id)
  {
  }

  lemma RunStepStuck(states: seq<C.Cluster>, events: seq<C.Event>, n: nat, m: nat, node: NodeId, id: JobId)
    requires C.IsRun(states, events) && AloneFrom(states, events, n, m + 1, node, id) && n <= m
    requires Stuck(states[m], node, id)
    ensures StillStuck(states[m], states[m + 1], node, id)
  {
    C.RunKeepsInv(states, events, m);
    assert C.Possible(states[m], events[m]);
    StuckStep(states[m], events[m], node, id);
  }

  /** A stuck job stays stuck for as long as it is left alone: its row stays
      `starting`, its agent neither spawns it nor says another word of it, however
      often it is delivered. */
  lemma {:induction false} StuckStays(states: seq<C.Cluster>, events: seq<C.Event>, n: nat, m: nat, node: NodeId, id: JobId)
    requires C.IsRun(states, events) && AloneFrom(states, events, n, m, node, id) && Stuck(states[n], node, id)
    ensures StillStuck(states[n], states[m], node, id)
    decreases m
  {
    if n < m {
      AloneBefore(states, events, n, m - 1, node, id);
      StuckStays(states, events, n, m - 1, node, id);
      RunStepStuck(states, events, n, m - 1, node, id);
    }
  }

  /** All the while it holds its slot on that node. */
  lemma StuckHoldsSlot(states: seq<C.Cluster>, events: seq<C.Event>, n: nat, node: NodeId, id: JobId)
    requires C.IsRun(states, events) && n <= |events| && Stuck(states[n], node, id)
    ensures id in states[n].server.slots && states[n].server.slots[id].node == node
  {
    C.RunKeepsInv(states, events, n);
  }
}
