/**
 The server and its agents together. Every report the server handles is one
 that some agent sent; the network may lose, repeat, delay and reorder reports
 as it likes, and what the agents are given to run is not restricted at all.
 */
module Cluster {
  import opened Text
  import opened Jobs
  import opened Scheduling
  import opened JobTable
  import D = Dispatch
  import P = DispatchProperties
  import A = AgentProtocol
  import H = AgentHistory
  import M = CompletionMarker

  datatype Cluster = Cluster(server: D.State, agents: map<NodeId, A.Agent>)

  datatype Event =
    | Server(step: D.Event)
    | Agent(node: NodeId, action: A.Event)

  /** Some agent has sent this report, now or at any earlier time. */
  predicate WasSent(agents: map<NodeId, A.Agent>, id: JobId, status: JobStatus) {
    exists node :: node in agents && A.Message(id, status) in agents[node].past.sent
  }

  predicate Possible(c: Cluster, e: Event) {
    match e
    case Server(step) => step.Report? ==> WasSent(c.agents, step.id, step.status)
    case Agent(node, _) => node in c.agents
  }

  ghost function Step(c: Cluster, e: Event): Cluster
    requires Possible(c, e)
  {
    match e
    case Server(step) => c.(server := D.Step(c.server, step))
    case Agent(node, action) => c.(agents := c.agents[node := A.Step(c.agents[node], action)])
  }

  ghost predicate Starts(c: Cluster) {
    c.server == D.INIT && forall node | node in c.agents :: c.agents[node] == A.INIT
  }

  ghost predicate IsRun(states: seq<Cluster>, events: seq<Event>) {
    && |states| == |events| + 1
    && Starts(states[0])
    && forall i {:trigger events[i]} | 0 <= i < |events| ::
         Possible(states[i], events[i]) && states[i + 1] == Step(states[i], events[i])
  }

  /** Some process of the job exited 0 without being marked cancelled. */
  predicate ExitedCleanly(agents: map<NodeId, A.Agent>, id: JobId) {
    exists node :: node in agents && id in agents[node].past.clean
  }

  ghost predicate AgentOk(a: A.Agent) {
    A.SuccessInv(a) && A.FlightInv(a) && A.SentOk(a)
  }

  predicate SuccessEarned(c: Cluster) {
    forall id | id in c.server.rows && c.server.rows[id].status.Succeeded? :: ExitedCleanly(c.agents, id)
  }

  ghost predicate Inv(c: Cluster) {
    && D.Inv(c.server) && SuccessEarned(c)
    && forall node | node in c.agents :: AgentOk(c.agents[node])
  }

  lemma SentIsEarned(c: Cluster, id: JobId, status: JobStatus)
    requires Inv(c) && WasSent(c.agents, id, status)
    ensures AgentReports(status) && (status.Succeeded? ==> ExitedCleanly(c.agents, id))
  {
    var node :| node in c.agents && A.Message(id, status) in c.agents[node].past.sent;
    assert AgentOk(c.agents[node]);
    assert A.Message(id, status).status == status;
  }

  /** The only way into `succeeded` is a report of it. */
  lemma OnlyReportsSucceed(s: D.State, e: D.Event, id: JobId)
    requires id in D.Step(s, e).rows && D.Step(s, e).rows[id].status.Succeeded?
    ensures || (id in s.rows && s.rows[id].status.Succeeded?)
            || (e.Report? && e.id == id && e.status.Succeeded?)
  {
    if D.Enabled(s, e) {
      if P.Records(e) {
        RecordedElsewhere(s, e, id);
      } else if e.Submit? || e.ResetStale? || e.Assign? {
        if id in s.rows {
          P.RowWriterStep(s, e, id);
        }
      } else {
        P.OtherStep(s, e);
      }
    }
  }

  lemma RecordedElsewhere(s: D.State, e: D.Event, id: JobId)
    requires D.Enabled(s, e) && P.Records(e) && id in D.Effect(s, e).rows
    ensures id in s.rows
    ensures D.Effect(s, e).rows[id] == s.rows[id] || D.Effect(s, e).rows[id].status == P.RecordedStatus(e)
    ensures e.Report? && e.id != id ==> D.Effect(s, e).rows[id] == s.rows[id]
  {
  }

  lemma ServerStep(c: Cluster, e: D.Event)
    requires Inv(c) && Possible(c, Server(e))
    ensures Inv(Step(c, Server(e)))
  {
    var d := Step(c, Server(e));
    if e.Report? {
      SentIsEarned(c, e.id, e.status);
    }
    assert D.FromAgents(e);
    D.StepKeepsInv(c.server, e);
    forall id | id in d.server.rows && d.server.rows[id].status.Succeeded? ensures ExitedCleanly(d.agents, id) {
      OnlyReportsSucceed(c.server, e, id);
    }
  }

  lemma AgentOkStep(a: A.Agent, action: A.Event)
    requires AgentOk(a)
    ensures AgentOk(A.Step(a, action)) && a.past.clean <= A.Step(a, action).past.clean
  {
    A.SuccessStep(a, action);
    A.FlightStep(a, action);
    A.SentStep(a, action);
  }

  lemma CleanStays(agents: map<NodeId, A.Agent>, node: NodeId, b: A.Agent, id: JobId)
    requires node in agents && agents[node].past.clean <= b.past.clean && ExitedCleanly(agents, id)
    ensures ExitedCleanly(agents[node := b], id)
  {
    var n :| n in agents && id in agents[n].past.clean;
    assert n in agents[node := b] && id in agents[node := b][n].past.clean;
  }

  lemma AgentChanged(c: Cluster, node: NodeId, b: A.Agent)
    requires Inv(c) && node in c.agents && AgentOk(b) && c.agents[node].past.clean <= b.past.clean
    ensures Inv(c.(agents := c.agents[node := b]))
  {
    forall id | id in c.server.rows && c.server.rows[id].status.Succeeded?
      ensures ExitedCleanly(c.agents[node := b], id)
    {
      CleanStays(c.agents, node, b, id);
    }
  }

  lemma AgentStep(c: Cluster, node: NodeId, action: A.Event)
    requires Inv(c) && node in c.agents
    ensures Inv(Step(c, Agent(node, action)))
  {
    assert AgentOk(c.agents[node]);
    AgentOkStep(c.agents[node], action);
    AgentChanged(c, node, A.Step(c.agents[node], action));
  }

  lemma StartInv(c: Cluster)
    requires Starts(c)
    ensures Inv(c)
  {
    D.InitInv();
    A.InitInv();
  }

  lemma {:induction false} RunKeepsInv(states: seq<Cluster>, events: seq<Event>, n: nat)
    requires IsRun(states, events) && n <= |events|
    ensures Inv(states[n])
    decreases n
  {
    if n == 0 {
      StartInv(states[0]);
    } else {
      RunKeepsInv(states, events, n - 1);
      match events[n - 1]
      case Server(step) => ServerStep(states[n - 1], step);
      case Agent(node, action) => AgentStep(states[n - 1], node, action);
    }
  }

  // ----- one agent's part in a run -----

  /** The states of one agent, index for index. */
  function AgentStates(states: seq<Cluster>, node: NodeId): (r: seq<A.Agent>)
    ensures |r| == |states|
    ensures forall i | 0 <= i < |r| :: r[i] == if node in states[i].agents then states[i].agents[node] else A.INIT
  {
    seq(|states|, i requires 0 <= i < |states| =>
      if node in states[i].agents then states[i].agents[node] else A.INIT)
  }

  /** Its own events among all of them, index for index. */
  function AgentEvents(events: seq<Event>, node: NodeId): (r: seq<Option<A.Event>>)
    ensures |r| == |events|
    ensures forall i | 0 <= i < |r| ::
              r[i] == if events[i].Agent? && events[i].node == node then Some(events[i].action) else None
  {
    seq(|events|, i requires 0 <= i < |events| =>
      if events[i].Agent? && events[i].node == node then Some(events[i].action) else None)
  }

  lemma AgentIsPath(states: seq<Cluster>, events: seq<Event>, node: NodeId)
    requires IsRun(states, events)
    ensures H.IsPath(AgentStates(states, node), AgentEvents(events, node))
  {
    var path, own := AgentStates(states, node), AgentEvents(events, node);
    forall i {:trigger own[i]} | 0 <= i < |own|
      ensures path[i + 1] == match own[i] case Some(e) => A.Step(path[i], e) case None => path[i]
    {
      assert Possible(states[i], events[i]);
      AgentPathStep(states[i], events[i], node);
    }
  }

  lemma AgentPathStep(c: Cluster, e: Event, node: NodeId)
    requires Possible(c, e)
    ensures node in Step(c, e).agents <==> node in c.agents
    ensures e.Agent? && e.node == node ==> Step(c, e).agents[node] == A.Step(c.agents[node], e.action)
    ensures !(e.Agent? && e.node == node) && node in c.agents ==> Step(c, e).agents[node] == c.agents[node]
  {
  }

  /** End to end: a row is `succeeded` only if some process of that job, on some
      agent, exited 0 at an earlier step, and the job was not marked cancelled when
      that was decided; directly or through a replayed marker. */
  lemma SuccessIsEarned(states: seq<Cluster>, events: seq<Event>, n: nat, id: JobId) returns (node: NodeId)
    requires IsRun(states, events) && n <= |events|
    requires P.StatusAt(states[n].server, id) == Some(Succeeded)
    ensures node in states[n].agents
    ensures H.CleanExit(AgentStates(states, node), AgentEvents(events, node), n, id)
  {
    RunKeepsInv(states, events, n);
    assert ExitedCleanly(states[n].agents, id);
    node :| node in states[n].agents && id in states[n].agents[node].past.clean;
    AgentIsPath(states, events, node);
    H.CleanHasExit(AgentStates(states, node), AgentEvents(events, node), n, id);
  }

  /** The agents of the model are the genuine agents the dispatch protocol
      counts on: with them the slots agree with the rows in every state. */
  lemma SlotsAgree(states: seq<Cluster>, events: seq<Event>, n: nat)
    requires IsRun(states, events) && n <= |events|
    ensures D.Agreement(states[n].server)
    ensures P.Quiet(states[n].server) ==> states[n].server.slots.Keys == ActiveIds(states[n].server.rows)
  {
    RunKeepsInv(states, events, n);
    if P.Quiet(states[n].server) {
      P.QuietSlots(states[n].server);
    }
  }

  // ----- spawned at most once -----

  /** What is delivered to an agent is a row of the job table. */
  predicate FromRows(c: Cluster, e: Event) {
    e.Agent? && e.action.PollCheck? ==>
      e.action.d.job in c.server.rows && c.server.rows[e.action.d.job].retry == e.action.d.retry
  }

  /** What the agent was given carries the retry count of its row. */
  predicate RetriesMatch(a: A.Agent, rows: Rows) {
    && (forall job | job in a.past.delivered :: job in rows && rows[job].retry == a.past.delivered[job])
    && (a.mem.poll.Some? ==> a.mem.poll.value.job in rows && rows[a.mem.poll.value.job].retry == a.mem.poll.value.retry)
  }

  ghost predicate LifetimeOk(a: A.Agent, rows: Rows) {
    A.LifetimeInv(a) && A.FlightInv(a) && RetriesMatch(a, rows)
  }

  ghost predicate SpawnInv(c: Cluster) {
    forall node | node in c.agents :: LifetimeOk(c.agents[node], c.server.rows)
  }

  lemma ServerKeepsRetries(s: D.State, e: D.Event, a: A.Agent)
    requires RetriesMatch(a, s.rows)
    ensures RetriesMatch(a, D.Step(s, e).rows)
  {
    forall job | job in a.past.delivered ensures job in D.Step(s, e).rows && D.Step(s, e).rows[job].retry == s.rows[job].retry {
      P.RetryStays(s, e, job);
    }
    if a.mem.poll.Some? {
      P.RetryStays(s, e, a.mem.poll.value.job);
    }
  }

  /** Only an accepted delivery and a restart change what was delivered, and only
      the poll loop changes what it is looking at. */
  lemma DeliveredStep(a: A.Agent, e: A.Event)
    ensures var b := A.Step(a, e);
            && (|| b.past.delivered == a.past.delivered || b.past.delivered == map[]
                || (e.PollDeliver? && a.mem.poll.Some?
                    && b.past.delivered == a.past.delivered[a.mem.poll.value.job := a.mem.poll.value.retry]))
            && (b.mem.poll == a.mem.poll || b.mem.poll.None? || (e.PollCheck? && b.mem.poll == Some(e.d)))
  {
    if A.Enabled(a, e) {
      if e.ReadMarker? {
        DeliveredRead(a, e.k, M.Read(A.MarkerOf(a, a.tasks[e.k].job, e.readable), a.tasks[e.k].retry));
      } else if A.Housekeeping(e) {
        DeliveredHousekeeping(a, e);
      } else if A.Opening(e) {
        DeliveredOpening(a, e);
      }
    }
  }

  lemma DeliveredRead(a: A.Agent, k: nat, r: M.MarkerRead)
    requires k in a.tasks
    ensures A.AfterRead(a, k, r).past.delivered == a.past.delivered && A.AfterRead(a, k, r).mem == a.mem
  {
  }

  lemma DeliveredHousekeeping(a: A.Agent, e: A.Event)
    requires A.Enabled(a, e) && A.Housekeeping(e)
    ensures var b := A.AfterHousekeeping(a, e);
            && b.past.delivered == a.past.delivered
            && (b.mem.poll == a.mem.poll || b.mem.poll.None? || (e.PollCheck? && b.mem.poll == Some(e.d)))
  {
  }

  lemma DeliveredOpening(a: A.Agent, e: A.Event)
    requires A.Enabled(a, e) && A.Opening(e) && !e.ReadMarker?
    ensures var b := A.Effect(a, e);
            && (if e.PollDeliver?
                then b.past.delivered == a.past.delivered[a.mem.poll.value.job := a.mem.poll.value.retry]
                     && b.mem.poll.None?
                else b.past.delivered == a.past.delivered && b.mem.poll == a.mem.poll)
  {
  }

  lemma AgentKeepsLifetime(a: A.Agent, e: A.Event, rows: Rows)
    requires LifetimeOk(a, rows) && A.MarkersWork(e)
    requires e.PollCheck? ==> e.d.job in rows && rows[e.d.job].retry == e.d.retry
    ensures LifetimeOk(A.Step(a, e), rows)
  {
    assert A.Faithful(a, e);
    A.LifetimeStep(a, e);
    A.FlightStep(a, e);
    DeliveredStep(a, e);
  }

  lemma StepKeepsSpawns(c: Cluster, e: Event)
    requires SpawnInv(c) && Possible(c, e) && FromRows(c, e) && (e.Agent? ==> A.MarkersWork(e.action))
    ensures SpawnInv(Step(c, e))
  {
    var d := Step(c, e);
    forall node | node in d.agents ensures LifetimeOk(d.agents[node], d.server.rows) {
      assert LifetimeOk(c.agents[node], c.server.rows);
      match e {
        case Server(step) => ServerKeepsRetries(c.server, step, c.agents[node]);
        case Agent(n, action) =>
          if n == node {
            AgentKeepsLifetime(c.agents[node], action, c.server.rows);
          }
      }
    }
  }

  ghost predicate WorkingRun(states: seq<Cluster>, events: seq<Event>) {
    && IsRun(states, events)
    && forall i | 0 <= i < |events| ::
         FromRows(states[i], events[i]) && (events[i].Agent? ==> A.MarkersWork(events[i].action))
  }

  lemma RunStepKeepsSpawns(states: seq<Cluster>, events: seq<Event>, n: nat)
    requires WorkingRun(states, events) && n < |events| && SpawnInv(states[n])
    ensures SpawnInv(states[n + 1])
  {
    assert FromRows(states[n], events[n]);
    StepKeepsSpawns(states[n], events[n]);
  }

  lemma {:induction false} RunKeepsSpawns(states: seq<Cluster>, events: seq<Event>, n: nat)
    requires WorkingRun(states, events) && n <= |events|
    ensures SpawnInv(states[n])
    decreases n
  {
    if n == 0 {
      A.InitInv();
    } else {
      RunKeepsSpawns(states, events, n - 1);
      RunStepKeepsSpawns(states, events, n - 1);
    }
  }

  /** End to end: no statement changes a retry count, so while markers are
      written and stay readable no agent spawns a (job, retry count) twice in its
      lifetime, however deliveries are repeated. */
  lemma SpawnedAtMostOnce(states: seq<Cluster>, events: seq<Event>, n: nat, node: NodeId)
    requires WorkingRun(states, events) && n <= |events| && node in states[n].agents
    ensures A.NoRepeats(states[n].agents[node].past.spawns)
  {
    RunKeepsSpawns(states, events, n);
    assert LifetimeOk(states[n].agents[node], states[n].server.rows);
  }
}
