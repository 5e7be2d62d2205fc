/**
 One short run of the dispatch protocol, from the empty start to a dispatched
 job, and what goes wrong from there when a step is split, a write fails or an
 answer is lost.
 */
module DispatchExamples {
  import opened Text
  import opened Jobs
  import opened Scheduling
  import opened JobTable
  import opened Dispatch
  import opened DispatchProperties
  import opened DispatchRuns

  const J := JobId("j")
  const N := NodeId("n")
  const ANY := Quota("")

  const WAITING := Row(Queued, N, ANY, 0, None, 0)
  const STARTED := Row(Starting, N, ANY, 0, Some(0), 0)
  const PLACED := Job(J, N, ANY, Starting)

  /** The job has its slot and its dispatch is about to be written. */
  const ASSIGNING := State(map[J := WAITING], [], map[J := PLACED], map[N := 1], map[N := NodeInfo(true, 1)], {N},
                           Assigning([PLACED]), multiset{})

  /** The job is dispatched and nothing is in progress. */
  const DISPATCHED := State(map[J := STARTED], [], map[J := PLACED], map[N := 1], map[N := NodeInfo(true, 1)], {N},
                            Idle, multiset{})

  /** Its node has gone, and the next cycle has begun. */
  const NODE_GONE := State(map[J := STARTED], [], map[J := PLACED], map[N := 0], map[N := NodeInfo(false, 1)], {},
                           Refreshed, multiset{})

  lemma OnePassPlaces()
    ensures Schedule([ToJob(J, WAITING)], 1, map[], map[N := 1]) == Pass([PLACED], [], map[J := PLACED])
  {
    var j := ToJob(J, WAITING);
    assert Gpus(j) == 1;
    assert N in Candidates(map[], map[N := 1], 1);
    ChoiceUnique(map[], map[N := 1], 1, Some(N), Some(N));
    assert NodeFor(j, map[], map[N := 1]) == Some(N);
    var p := PassWith(Picker(map[N := 1]), [j], 0, map[]);
    assert Decide(p, j, Some(N)) == Pass([PLACED], [], map[J := PLACED]);
  }

  lemma LoadingReached(s: State)
    requires s == State(map[J := WAITING], [ToJob(J, WAITING)], map[], map[N := 1], map[N := NodeInfo(true, 1)], {N},
                        Loading({J}, []), multiset{})
    ensures Reached(s)
  {
    StartReached();
    var a := INIT.(rows := map[J := WAITING]);
    Submitted(INIT, J, WAITING);
    assert INIT.rows[J := WAITING] == a.rows;
    var b := a.(registry := map[N := NodeInfo(true, 1)]);
    NodeKnown(a, N, NodeInfo(true, 1));
    assert a.registry[N := NodeInfo(true, 1)] == b.registry;
    var c := b.(capacity := map[N := 1], online := {N}, cycle := Refreshed);
    CycleBegun(b);
    assert Refreshing(b) == c;
    var d := c.(cycle := Dropping({}));
    StaleReset(c, 0);
    assert StaleStarting(c.rows, 0, OnlineNodes(c.registry)) == {};
    assert Requeued(c.rows, {}) == c.rows;
    var j := ToJob(J, WAITING);
    RowsLoaded(d, [J]);
    assert JobsOf([J], d.rows) == [j];
    NextEnqueued(d.(cycle := Loading({}, [j])), j, []);
    assert !InJobs(d.queue, J) && d.queue + [j] == [j] && {} + {J} == {J};
    assert Enqueueing(d.(cycle := Loading({}, [j])), j, []) == s;
  }

  lemma AssigningReached()
    ensures Reached(ASSIGNING)
  {
    var j := ToJob(J, WAITING);
    var s := State(map[J := WAITING], [j], map[], map[N := 1], map[N := NodeInfo(true, 1)], {N},
                   Loading({J}, []), multiset{});
    LoadingReached(s);
    WholePass(s);
    OnePassPlaces();
    assert |s.queue| == 1;
  }

  lemma DispatchedReached()
    ensures Reached(DISPATCHED)
  {
    AssigningReached();
    NextAssigned(ASSIGNING, PLACED, [], true, 0);
    var t := DISPATCHED.(cycle := Assigning([]));
    assert Dispatched(ASSIGNING.rows, J, N, 0) == map[J := STARTED];
    assert AssigningNext(ASSIGNING, PLACED, [], true, 0) == t;
    CycleEnded(t);
  }

  lemma NodeGoneReached()
    ensures Reached(NODE_GONE) && J in StaleStarting(NODE_GONE.rows, 1, OnlineNodes(NODE_GONE.registry))
  {
    DispatchedReached();
    var a := DISPATCHED.(registry := map[N := NodeInfo(false, 1)]);
    NodeKnown(DISPATCHED, N, NodeInfo(false, 1));
    assert DISPATCHED.registry[N := NodeInfo(false, 1)] == a.registry;
    CycleBegun(a);
    assert Refreshing(a) == NODE_GONE;
  }

  /** A report that finds the row `starting`, with a requeue before its write. */
  lemma SplitReportExample()
    ensures Reached(NODE_GONE) && Enabled(NODE_GONE, ResetStale(1)) && Enabled(NODE_GONE, Report(J, Running))
    ensures var t := Effect(NODE_GONE, ResetStale(1));
            Enabled(t, DropRequeued(J)) && !Agreement(RawWrite(Effect(t, DropRequeued(J)), J, Running))
  {
    NodeGoneReached();
    SplitReportLosesSlot(NODE_GONE, J, 1);
  }

  /** A streamed report of failure whose write fails. */
  lemma StreamReportExample()
    ensures Reached(DISPATCHED) && !Agreement(StreamReportDone(DISPATCHED, J, Failed, false))
  {
    DispatchedReached();
    ReachedInv(DISPATCHED);
    StreamReportAgreesIff(DISPATCHED, J, Failed, false);
  }

  /** A restart whose read of the active rows fails. */
  lemma BlindRestartExample()
    ensures Reached(DISPATCHED) && !Agreement(Effect(DISPATCHED, Restart).(slots := map[]))
  {
    DispatchedReached();
    BlindRestartAgreesIff(DISPATCHED);
    assert J in ActiveIds(DISPATCHED.rows);
  }

  /** A dispatch that was written while its answer was lost. */
  lemma AnswerLostExample()
    ensures Reached(ASSIGNING) && !Agreement(AnswerLost(ASSIGNING, 0))
  {
    AssigningReached();
    ReachedInv(ASSIGNING);
    AnswerLostAgreesIff(ASSIGNING, 0);
  }

  /** A handler dropped after recording that the job failed. */
  lemma HandlerDroppedExample()
    ensures var s := Recording(DISPATCHED, {J}, Failed, multiset{FreeSlot(J)});
            && Reached(s) && Quiet(HandlersDropped(s))
            && HandlersDropped(s).slots.Keys != ActiveIds(HandlersDropped(s).rows)
  {
    DispatchedReached();
    Reported(DISPATCHED, J, Failed);
    var s := Recording(DISPATCHED, {J}, Failed, multiset{FreeSlot(J)});
    ReachedInv(s);
    assert FreeSlot(J) in s.tasks;
    HandlersDroppedExactIff(s);
  }
}
