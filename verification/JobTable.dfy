/**
 The rows of the jobs table and the statements that change them
 (crates/storage/src/job_queries.rs). Each statement is one atomic update
 under its WHERE condition.
 */
module JobTable {
  import opened Text
  import opened Jobs
  import opened Scheduling

  /** `node` is empty for SQL NULL. Times are in any fixed unit. */
  datatype Row = Row(
    status: JobStatus,
    node: NodeId,
    quota: Quota,
    createdAt: int,
    startedAt: Option<int>,
    retry: nat
  )

  type Rows = map<JobId, Row>

  function WithStatus(rows: Rows, ids: set<JobId>, status: JobStatus): (r: Rows)
    ensures r.Keys == rows.Keys
  {
    map id | id in rows :: if id in ids then rows[id].(status := status) else rows[id]
  }

  function Requeued(rows: Rows, ids: set<JobId>): (r: Rows)
    ensures r.Keys == rows.Keys
  {
    map id | id in rows :: if id in ids then rows[id].(status := Queued, startedAt := None) else rows[id]
  }

  function Dispatched(rows: Rows, id: JobId, node: NodeId, now: int): Rows
    requires id in rows
  {
    rows[id := rows[id].(node := node, status := Starting, startedAt := Some(now))]
  }

  // ----- which rows a statement selects -----

  predicate InState(rows: Rows, id: JobId, status: JobStatus) {
    id in rows && rows[id].status == status
  }

  /** `starting`, started before the cutoff, and on no online node. */
  function StaleStarting(rows: Rows, cutoff: int, online: set<NodeId>): set<JobId> {
    set id | id in rows && rows[id].status.Starting? && rows[id].startedAt.Some?
             && rows[id].startedAt.value < cutoff && rows[id].node !in online
  }

  /** `running` or `stopping` on a dead node. */
  function ActiveOn(rows: Rows, dead: set<NodeId>): set<JobId> {
    set id | id in rows && (rows[id].status.Running? || rows[id].status.Stopping?) && rows[id].node in dead
  }

  /** `running` on a dead node. */
  function RunningOn(rows: Rows, dead: set<NodeId>): set<JobId> {
    set id | id in rows && rows[id].status.Running? && rows[id].node in dead
  }

  /** `stopping`, started (or, failing that, created) before the cutoff. */
  function StaleStopping(rows: Rows, cutoff: int): set<JobId> {
    set id | id in rows && rows[id].status.Stopping?
             && (if rows[id].startedAt.Some? then rows[id].startedAt.value else rows[id].createdAt) < cutoff
  }

  function Queue(rows: Rows): set<JobId> {
    set id | id in rows && rows[id].status.Queued?
  }

  function ActiveIds(rows: Rows): set<JobId> {
    set id | id in rows && IsActive(rows[id].status)
  }

  /** The row as the scheduler keeps it. */
  function ToJob(id: JobId, row: Row): Job {
    Job(id, row.node, row.quota, row.status)
  }

  /** What the startup rebuild puts into the slots. */
  function ActiveSlots(rows: Rows): (slots: Slots)
    ensures slots.Keys == ActiveIds(rows)
  {
    map id | id in ActiveIds(rows) :: ToJob(id, rows[id])
  }

  /** Reading the active rows back in any order and restoring them gives exactly
      those slots. */
  lemma {:induction false} RestoreGivesActiveSlots(rows: Rows, jobs: seq<Job>, n: nat)
    requires n <= |jobs|
    requires forall i | 0 <= i < |jobs| :: jobs[i].id in ActiveIds(rows) && jobs[i] == ToJob(jobs[i].id, rows[jobs[i].id])
    ensures var slots := Restored(jobs, n, map[]);
            && (forall id | id in slots :: id in ActiveIds(rows) && slots[id] == ToJob(id, rows[id]))
            && (forall i | 0 <= i < n :: jobs[i].id in slots)
    decreases n
  {
    if n > 0 {
      RestoreGivesActiveSlots(rows, jobs, n - 1);
    }
  }

  /** The startup rebuild: a list of exactly the active rows, in any order, is
      restored to exactly their slots. */
  lemma RestoredIsActiveSlots(rows: Rows, jobs: seq<Job>)
    requires forall i | 0 <= i < |jobs| :: jobs[i].id in ActiveIds(rows) && jobs[i] == ToJob(jobs[i].id, rows[jobs[i].id])
    requires forall id | id in ActiveIds(rows) :: exists i :: 0 <= i < |jobs| && jobs[i].id == id
    ensures Restored(jobs, |jobs|, map[]) == ActiveSlots(rows)
  {
    RestoreGivesActiveSlots(rows, jobs, |jobs|);
  }

  // ----- the statements -----

  /** No row is added or removed, and every row but these is as it was. */
  predicate OthersKept(before: Rows, after: Rows, ids: set<JobId>) {
    after.Keys == before.Keys && forall id | id in before && id !in ids :: after[id] == before[id]
  }

  /** What was asked for when the job was submitted is untouched. */
  predicate SameRequest(a: Row, b: Row) {
    b.quota == a.quota && b.createdAt == a.createdAt && b.retry == a.retry
  }

  /** The row has another status and is otherwise as it was. */
  predicate OnlyStatus(a: Row, b: Row, status: JobStatus) {
    b.status == status && b.node == a.node && b.startedAt == a.startedAt && SameRequest(a, b)
  }

  /** The row-by-row accounts of the statements determine the whole table. */
  lemma StatusTable(before: Rows, after: Rows, ids: set<JobId>, status: JobStatus)
    requires OthersKept(before, after, ids) && ids <= before.Keys
    requires forall id | id in ids :: OnlyStatus(before[id], after[id], status)
    ensures after == WithStatus(before, ids, status)
  {
  }

  lemma DispatchTable(before: Rows, after: Rows, id: JobId, node: NodeId, now: int)
    requires OthersKept(before, after, {id}) && id in before && SameRequest(before[id], after[id])
    requires after[id].status.Starting? && after[id].node == node && after[id].startedAt == Some(now)
    ensures after == Dispatched(before, id, node, now)
  {
  }

  lemma RequeueTable(before: Rows, after: Rows, ids: set<JobId>)
    requires OthersKept(before, after, ids) && ids <= before.Keys
    requires forall id | id in ids ::
               && after[id].status.Queued? && after[id].startedAt.None? && after[id].node == before[id].node
               && SameRequest(before[id], after[id])
    ensures after == Requeued(before, ids)
  {
  }

  /** The selections, told by the columns. */
  lemma ActiveOnIs(rows: Rows, dead: set<NodeId>, ids: set<JobId>)
    requires forall id :: id in ids <==>
               (InState(rows, id, Running) || InState(rows, id, Stopping)) && rows[id].node in dead
    ensures ids == ActiveOn(rows, dead)
  {
  }

  lemma RunningOnIs(rows: Rows, dead: set<NodeId>, ids: set<JobId>)
    requires forall id :: id in ids <==> InState(rows, id, Running) && rows[id].node in dead
    ensures ids == RunningOn(rows, dead)
  {
  }

  lemma StaleStoppingIs(rows: Rows, cutoff: int, ids: set<JobId>)
    requires forall id :: id in ids <==>
               && InState(rows, id, Stopping)
               && (if rows[id].startedAt.Some? then rows[id].startedAt.value else rows[id].createdAt) < cutoff
    ensures ids == StaleStopping(rows, cutoff)
  {
  }

  class JobStore {
    var rows: Rows

    constructor ()
      ensures rows == map[]
    {
      rows := map[];
    }

    /** An insert fails on an existing job id. */
    method InsertJob(id: JobId, row: Row) returns (ok: bool)
      modifies this
      ensures ok <==> id !in old(rows)
      ensures forall k | k in old(rows) :: k in rows && rows[k] == old(rows)[k]
      ensures rows.Keys == old(rows).Keys + {id} && (ok ==> rows[id] == row)
    {
      ok := id !in rows;
      if ok {
        rows := rows[id := row];
      }
    }

    /** The queued rows, in some order. */
    method ListQueuedJobs() returns (order: seq<JobId>)
      ensures forall id :: id in order <==> id in Queue(rows)
    {
      order := [];
      var todo := Queue(rows);
      while todo != {}
        invariant todo <= Queue(rows)
        invariant forall id :: id in order <==> id in Queue(rows) && id !in todo
        decreases todo
      {
        var id :| id in todo;
        order, todo := order + [id], todo - {id};
      }
    }

    /** The active rows, as jobs, in some order. */
    method ListActiveJobs() returns (jobs: seq<Job>)
      ensures forall i | 0 <= i < |jobs| :: jobs[i].id in ActiveIds(rows) && jobs[i] == ToJob(jobs[i].id, rows[jobs[i].id])
      ensures forall id | id in ActiveIds(rows) :: exists i :: 0 <= i < |jobs| && jobs[i].id == id
    {
      jobs := [];
      var todo := ActiveIds(rows);
      while todo != {}
        invariant todo <= ActiveIds(rows)
        invariant forall i | 0 <= i < |jobs| ::
                    jobs[i].id in ActiveIds(rows) && jobs[i] == ToJob(jobs[i].id, rows[jobs[i].id])
        invariant forall id | id in ActiveIds(rows) && id !in todo :: exists i :: 0 <= i < |jobs| && jobs[i].id == id
        decreases todo
      {
        var id :| id in todo;
        ghost var before := jobs;
        jobs, todo := jobs + [ToJob(id, rows[id])], todo - {id};
        assert jobs[|before|].id == id;
        forall k | k in ActiveIds(rows) && k !in todo ensures exists i :: 0 <= i < |jobs| && jobs[i].id == k {
          if k != id {
            var i :| 0 <= i < |before| && before[i].id == k;
            assert jobs[i].id == k;
          }
        }
      }
    }

    /** Compare and set: of several dispatches of a queued job one wins, which
        takes the job out of the queue and makes it active on that node. */
    method AssignJobToNode(id: JobId, node: NodeId, now: int) returns (updated: bool)
      modifies this
      ensures updated <==> id in Queue(old(rows))
      ensures OthersKept(old(rows), rows, if updated then {id} else {})
      ensures updated ==>
                && rows[id].status.Starting? && rows[id].node == node && rows[id].startedAt == Some(now)
                && SameRequest(old(rows)[id], rows[id])
      ensures Queue(rows) == Queue(old(rows)) - {id}
      ensures ActiveIds(rows) == ActiveIds(old(rows)) + (if updated then {id} else {})
    {
      updated := InState(rows, id, Queued);
      if updated {
        rows := rows[id := rows[id].(node := node, status := Starting, startedAt := Some(now))];
      }
    }

    /** Takes a job out of the queue for good; it never touches an active one. */
    method CancelQueuedJob(id: JobId) returns (updated: bool)
      modifies this
      ensures updated <==> id in Queue(old(rows))
      ensures OthersKept(old(rows), rows, if updated then {id} else {})
      ensures updated ==> OnlyStatus(old(rows)[id], rows[id], Cancelled)
      ensures Queue(rows) == Queue(old(rows)) - {id} && ActiveIds(rows) == ActiveIds(old(rows))
    {
      updated := InState(rows, id, Queued);
      if updated {
        rows := rows[id := rows[id].(status := Cancelled)];
      }
    }

    /** A job asked to stop stays active on its node, and so keeps its slot. */
    method MarkStoppingIfActive(id: JobId) returns (updated: bool)
      modifies this
      ensures updated <==> InState(old(rows), id, Starting) || InState(old(rows), id, Running)
      ensures OthersKept(old(rows), rows, if updated then {id} else {})
      ensures updated ==> OnlyStatus(old(rows)[id], rows[id], Stopping)
      ensures Queue(rows) == Queue(old(rows)) && ActiveIds(rows) == ActiveIds(old(rows))
    {
      updated := InState(rows, id, Starting) || InState(rows, id, Running);
      if updated {
        rows := rows[id := rows[id].(status := Stopping)];
      }
    }

    /** The write behind every status report: it asks no question, so it can
        move any job into or out of the queue and the active set. */
    method UpdateJobStatus(id: JobId, status: JobStatus)
      modifies this
      ensures OthersKept(old(rows), rows, {id})
      ensures id in rows ==> OnlyStatus(old(rows)[id], rows[id], status)
      ensures id in rows ==> (id in ActiveIds(rows) <==> IsActive(status)) && (id in Queue(rows) <==> status.Queued?)
    {
      if id in rows {
        rows := rows[id := rows[id].(status := status)];
      }
    }

    /** Exactly the overdue starting jobs without an online node go back to the
        queue; the node they had is kept as their preference. */
    method ResetStaleStartingJobs(cutoff: int, online: set<NodeId>) returns (ids: set<JobId>)
      modifies this
      ensures forall id :: id in ids <==>
                && InState(old(rows), id, Starting) && old(rows)[id].node !in online
                && old(rows)[id].startedAt.Some? && old(rows)[id].startedAt.value < cutoff
      ensures OthersKept(old(rows), rows, ids) && ids <= rows.Keys
      ensures forall id | id in ids ::
                && rows[id].status.Queued? && rows[id].startedAt.None? && rows[id].node == old(rows)[id].node
                && SameRequest(old(rows)[id], rows[id])
      ensures Queue(rows) == Queue(old(rows)) + ids && ActiveIds(rows) == ActiveIds(old(rows)) - ids
    {
      ids := StaleStarting(rows, cutoff, online);
      rows := Requeued(rows, ids);
    }

    /** Nothing is left running or stopping on the dead nodes, and nothing else
        has changed. */
    method MarkLostJobsOnNodes(dead: set<NodeId>) returns (ids: set<JobId>)
      modifies this
      ensures forall id :: id in ids <==>
                && (InState(old(rows), id, Running) || InState(old(rows), id, Stopping))
                && old(rows)[id].node in dead
      ensures OthersKept(old(rows), rows, ids) && ids <= rows.Keys
      ensures forall id | id in ids :: OnlyStatus(old(rows)[id], rows[id], Lost)
      ensures forall id | id in rows && rows[id].node in dead :: !rows[id].status.Running? && !rows[id].status.Stopping?
      ensures Queue(rows) == Queue(old(rows)) && ActiveIds(rows) == ActiveIds(old(rows)) - ids
    {
      ids := ActiveOn(rows, dead);
      rows := WithStatus(rows, ids, Lost);
    }

    /** Nothing is left running on the dead nodes; what was stopping there still
        is. */
    method MarkRunningJobsLost(dead: set<NodeId>) returns (ids: set<JobId>)
      modifies this
      ensures forall id :: id in ids <==> InState(old(rows), id, Running) && old(rows)[id].node in dead
      ensures OthersKept(old(rows), rows, ids) && ids <= rows.Keys
      ensures forall id | id in ids :: OnlyStatus(old(rows)[id], rows[id], Lost)
      ensures forall id | id in rows && rows[id].node in dead :: !rows[id].status.Running?
      ensures forall id | InState(old(rows), id, Stopping) :: InState(rows, id, Stopping)
      ensures Queue(rows) == Queue(old(rows)) && ActiveIds(rows) == ActiveIds(old(rows)) - ids
    {
      ids := RunningOn(rows, dead);
      rows := WithStatus(rows, ids, Lost);
    }

    /** No overdue stopping job is left, and nothing else has changed. */
    method ResetStaleStoppingJobs(cutoff: int) returns (ids: set<JobId>)
      modifies this
      ensures forall id :: id in ids <==>
                && InState(old(rows), id, Stopping)
                && (if old(rows)[id].startedAt.Some? then old(rows)[id].startedAt.value
                    else old(rows)[id].createdAt) < cutoff
      ensures OthersKept(old(rows), rows, ids) && ids <= rows.Keys
      ensures forall id | id in ids :: OnlyStatus(old(rows)[id], rows[id], Lost)
      ensures forall id | InState(rows, id, Stopping) ::
                (if rows[id].startedAt.Some? then rows[id].startedAt.value else rows[id].createdAt) >= cutoff
      ensures Queue(rows) == Queue(old(rows)) && ActiveIds(rows) == ActiveIds(old(rows)) - ids
    {
      ids := StaleStopping(rows, cutoff);
      rows := WithStatus(rows, ids, Lost);
    }
  }
}
