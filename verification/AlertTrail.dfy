/**
 The alert engine beside its persisted event log (crates/server/src/grpc.rs,
 evaluate_alerts and persist_alert_event; crates/server/src/handlers.rs,
 acknowledge_alert; crates/storage/src/alert_queries.rs; the expiry step of
 crates/server/src/lib.rs). Rows carry the database's own timestamps; two rows
 of one key never share one.
 */
module AlertTrail {
  import opened Text
  import opened Alerts

  datatype Entry = Entry(key: Key, state: AlertState, at: int)

  /** `boot` is the length of the log when the server last started. */
  datatype Trail = Trail(instances: Instances, log: seq<Entry>, boot: nat)

  datatype Op =
    | Evaluate(rule: Rule, node: Name, gpu: Name, reading: Reading, at: int)
    | Acknowledge(key: Key, at: int)
    | Expire(cutoff: int, order: seq<Key>, at: int)
    | Restart

  const INIT := Trail(map[], [], 0)

  predicate Open(state: AlertState) {
    state.Pending? || state.Firing?
  }

  // ----- the queries, as the database answers them -----

  /** The row is the newest one of its key. */
  predicate Newest(log: seq<Entry>, i: nat) {
    i < |log| && forall m | 0 <= m < |log| && log[m].key == log[i].key :: log[m].at <= log[i].at
  }

  /** The active view: the newest row of each key, where that is open. */
  function ActiveView(log: seq<Entry>): set<Entry> {
    set i | 0 <= i < |log| && Newest(log, i) && Open(log[i].state) :: log[i]
  }

  /** The keys an expiry closes. */
  function Stale(log: seq<Entry>, cutoff: int): set<Key> {
    set i | 0 <= i < |log| && Newest(log, i) && Open(log[i].state) && log[i].at < cutoff :: log[i].key
  }

  // ----- the operations -----

  function Persisted(log: seq<Entry>, key: Key, event: Option<AlertState>, at: int): seq<Entry> {
    match event
    case Some(state) => log + [Entry(key, state, at)]
    case None => log
  }

  function Resolutions(order: seq<Key>, at: int): (rows: seq<Entry>)
    ensures |rows| == |order| && forall i | 0 <= i < |rows| :: rows[i] == Entry(order[i], Resolved, at)
  {
    seq(|order|, i requires 0 <= i < |order| => Entry(order[i], Resolved, at))
  }

  /** The time is later than that of every row of the key. */
  predicate LaterThan(log: seq<Entry>, key: Key, at: int) {
    forall i | 0 <= i < |log| && log[i].key == key :: log[i].at < at
  }

  predicate NoRepeats(order: seq<Key>) {
    forall i, k | 0 <= i < k < |order| :: order[i] != order[k]
  }

  ghost predicate Enabled(s: Trail, op: Op) {
    match op
    case Evaluate(rule, node, gpu, _, at) => LaterThan(s.log, Key(rule.id, node, gpu), at)
    case Acknowledge(key, at) => LaterThan(s.log, key, at)
    case Expire(cutoff, order, at) =>
      && NoRepeats(order) && (forall k | k in order :: LaterThan(s.log, k, at))
      && (forall k :: k in order <==> k in Stale(s.log, cutoff))
    case Restart => true
  }

  function Evaluating(s: Trail, rule: Rule, node: Name, gpu: Name, r: Reading, at: int): Trail {
    s.(instances := Evaluated(s.instances, rule, node, gpu, r),
       log := Persisted(s.log, Key(rule.id, node, gpu), Emitted(s.instances, rule, node, gpu, r), at))
  }

  function Acknowledging(s: Trail, key: Key, at: int): Trail {
    s.(instances := ResetIn(s.instances, key), log := s.log + [Entry(key, Resolved, at)])
  }

  function Expiring(s: Trail, order: seq<Key>, at: int): Trail {
    s.(instances := ResetAllIn(s.instances, set k | k in order), log := s.log + Resolutions(order, at))
  }

  ghost function Step(s: Trail, op: Op): Trail {
    if !Enabled(s, op) then s else
      match op
      case Evaluate(rule, node, gpu, r, at) => Evaluating(s, rule, node, gpu, r, at)
      case Acknowledge(key, at) => Acknowledging(s, key, at)
      case Expire(_, order, at) => Expiring(s, order, at)
      case Restart => Trail(map[], s.log, |s.log|)
  }

  ghost predicate IsRun(states: seq<Trail>, ops: seq<Op>) {
    && |states| == |ops| + 1 && states[0] == INIT
    && forall i {:trigger ops[i]} | 0 <= i < |ops| :: states[i + 1] == Step(states[i], ops[i])
  }

  // ----- the last row of a key -----

  function Last(log: seq<Entry>, n: nat, key: Key): (i: Option<nat>)
    requires n <= |log|
    ensures i.Some? ==> i.value < n && log[i.value].key == key
    ensures forall m | 0 <= m < n && log[m].key == key :: i.Some? && m <= i.value
  {
    if n == 0 then None
    else if log[n - 1].key == key then Some(n - 1)
    else Last(log, n - 1, key)
  }

  function LastOf(log: seq<Entry>, key: Key): Option<nat> {
    Last(log, |log|, key)
  }

  /** The rows of each key are in the order of their timestamps. */
  predicate Ordered(log: seq<Entry>) {
    forall i, m | 0 <= i < m < |log| && log[i].key == log[m].key :: log[i].at < log[m].at
  }

  /** In an ordered log the newest row of a key is its last one. */
  lemma NewestIsLast(log: seq<Entry>, i: nat)
    requires Ordered(log) && i < |log|
    ensures Newest(log, i) <==> LastOf(log, log[i].key) == Some(i)
  {
    var last := LastOf(log, log[i].key);
    assert last.Some? && i <= last.value;
    assert i < last.value ==> log[i].at < log[last.value].at;
  }

  lemma ViewIff(log: seq<Entry>, e: Entry)
    requires Ordered(log)
    ensures e in ActiveView(log) <==>
              Open(e.state) && LastOf(log, e.key).Some? && log[LastOf(log, e.key).value] == e
  {
    if e in ActiveView(log) {
      var i :| 0 <= i < |log| && Newest(log, i) && Open(log[i].state) && log[i] == e;
      NewestIsLast(log, i);
    }
    if LastOf(log, e.key).Some? {
      NewestIsLast(log, LastOf(log, e.key).value);
    }
  }

  lemma AppendRow(log: seq<Entry>, e: Entry, key: Key)
    ensures LastOf(log + [e], key) == if e.key == key then Some(|log|) else LastOf(log, key)
  {
    if e.key != key {
      SamePrefix(log + [e], log, |log|, key);
    }
  }

  lemma {:induction false} SamePrefix(longer: seq<Entry>, log: seq<Entry>, n: nat, key: Key)
    requires n <= |log| <= |longer| && longer[..|log|] == log
    ensures Last(longer, n, key) == Last(log, n, key)
  {
    if n > 0 {
      assert longer[n - 1] == longer[..|log|][n - 1];
      SamePrefix(longer, log, n - 1, key);
    }
  }

  lemma {:induction false} AppendRows(log: seq<Entry>, order: seq<Key>, at: int, n: nat, key: Key)
    requires n <= |order|
    ensures var all := log + Resolutions(order, at);
            var i := Last(all, |log| + n, key);
            if key in order[..n] then i.Some? && i.value >= |log| && all[i.value].state == Resolved
            else i == LastOf(log, key)
  {
    var all := log + Resolutions(order, at);
    if n == 0 {
      SamePrefix(all, log, |log|, key);
    } else {
      AppendRows(log, order, at, n - 1, key);
      assert order[..n] == order[..n - 1] + [order[n - 1]];
      assert all[|log| + n - 1] == Entry(order[n - 1], Resolved, at);
    }
  }

  // ----- the agreement -----

  /** A state other than Normal is the state of the last row, written since the
      server started. A Normal key's last row is not firing, unless it was
      written before. */
  predicate AgreesAt(s: Trail, key: Key) {
    var last := LastOf(s.log, key);
    match StateOf(s.instances, key)
    case Normal => last.Some? && s.log[last.value].state.Firing? ==> last.value < s.boot
    case state => last.Some? && last.value >= s.boot && s.log[last.value].state == state
  }

  ghost predicate Agrees(s: Trail) {
    && Ordered(s.log) && s.boot <= |s.log|
    && (forall key | key in s.instances && s.instances[key].state.Normal? :: s.instances[key].count == 0)
    && forall key :: AgreesAt(s, key)
  }

  /** What evaluating does to one key. */
  lemma EvaluateAgreesAt(s: Trail, rule: Rule, node: Name, gpu: Name, r: Reading, at: int, k: Key)
    requires Agrees(s)
    ensures AgreesAt(Evaluating(s, rule, node, gpu, r, at), k)
  {
    var key := Key(rule.id, node, gpu);
    var event := Emitted(s.instances, rule, node, gpu, r);
    assert AgreesAt(s, k);
    if event.Some? {
      AppendRow(s.log, Entry(key, event.value, at), k);
    }
  }

  lemma EvaluateAgrees(s: Trail, rule: Rule, node: Name, gpu: Name, r: Reading, at: int)
    requires Agrees(s) && LaterThan(s.log, Key(rule.id, node, gpu), at)
    ensures Agrees(Evaluating(s, rule, node, gpu, r, at))
  {
    var t := Evaluating(s, rule, node, gpu, r, at);
    var key := Key(rule.id, node, gpu);
    var event := Emitted(s.instances, rule, node, gpu, r);
    if event.Some? {
      AppendOrdered(s.log, Entry(key, event.value, at));
    }
    forall k ensures AgreesAt(t, k) {
      EvaluateAgreesAt(s, rule, node, gpu, r, at, k);
    }
  }

  lemma AcknowledgeAgrees(s: Trail, key: Key, at: int)
    requires Agrees(s) && LaterThan(s.log, key, at)
    ensures Agrees(Acknowledging(s, key, at))
  {
    var t := Acknowledging(s, key, at);
    forall k ensures AgreesAt(t, k) {
      assert AgreesAt(s, k);
      AppendRow(s.log, Entry(key, Resolved, at), k);
    }
  }

  lemma AppendOrdered(log: seq<Entry>, e: Entry)
    requires Ordered(log) && LaterThan(log, e.key, e.at)
    ensures Ordered(log + [e])
  {
  }

  lemma ExpireOrdered(log: seq<Entry>, order: seq<Key>, at: int)
    requires Ordered(log) && NoRepeats(order) && forall k | k in order :: LaterThan(log, k, at)
    ensures Ordered(log + Resolutions(order, at))
  {
    var all := log + Resolutions(order, at);
    forall i, m | 0 <= i < m < |all| && all[i].key == all[m].key ensures all[i].at < all[m].at {
      if i < |log| <= m {
        assert all[m].key == order[m - |log|];
        assert LaterThan(log, order[m - |log|], at);
      }
    }
  }

  lemma ExpireAgrees(s: Trail, order: seq<Key>, at: int)
    requires Agrees(s) && NoRepeats(order) && forall k | k in order :: LaterThan(s.log, k, at)
    ensures Agrees(Expiring(s, order, at))
  {
    var t := Expiring(s, order, at);
    ExpireOrdered(s.log, order, at);
    forall k ensures AgreesAt(t, k) {
      assert AgreesAt(s, k);
      AppendRows(s.log, order, at, |order|, k);
      assert order[..|order|] == order;
    }
  }

  lemma StepAgrees(s: Trail, op: Op)
    requires Agrees(s)
    ensures Agrees(Step(s, op))
  {
    if Enabled(s, op) {
      match op
      case Evaluate(rule, node, gpu, r, at) => EvaluateAgrees(s, rule, node, gpu, r, at);
      case Acknowledge(key, at) => AcknowledgeAgrees(s, key, at);
      case Expire(_, order, at) => ExpireAgrees(s, order, at);
      case Restart =>
    }
  }

  lemma {:induction false} RunAgrees(states: seq<Trail>, ops: seq<Op>, n: nat)
    requires IsRun(states, ops) && n <= |ops|
    ensures Agrees(states[n])
    ensures (forall i | 0 <= i < n :: !ops[i].Restart?) ==> states[n].boot == 0
  {
    if n > 0 {
      RunAgrees(states, ops, n - 1);
      StepAgrees(states[n - 1], ops[n - 1]);
    }
  }

  // ----- what the log tells about the engine -----

  /** Over every run, restarts included: an instance that is Pending, Firing or
      Resolved has exactly that state in the newest row of its key, so every
      active alert is in the active view. */
  lemma ActiveViewIsComplete(states: seq<Trail>, ops: seq<Op>, n: nat, key: Key)
    requires IsRun(states, ops) && n <= |ops| && !StateOf(states[n].instances, key).Normal?
    ensures var s := states[n];
            var state := StateOf(s.instances, key);
            && (exists i: nat :: Newest(s.log, i) && s.log[i].key == key && s.log[i].state == state)
            && (state.Pending? || state.Firing? ==>
                  exists e :: e in ActiveView(s.log) && e.key == key && e.state == state)
  {
    RunAgrees(states, ops, n);
    var s := states[n];
    assert AgreesAt(s, key);
    var i := LastOf(s.log, key).value;
    NewestIsLast(s.log, i);
    assert Newest(s.log, i) && s.log[i].key == key && s.log[i].state == StateOf(s.instances, key);
    assert Open(s.log[i].state) ==> s.log[i] in ActiveView(s.log);
  }

  /** While the server has not restarted, the firing rows of the active view are
      exactly the firing instances. */
  lemma FiringRowsAreFiring(states: seq<Trail>, ops: seq<Op>, n: nat, key: Key)
    requires IsRun(states, ops) && n <= |ops| && forall i | 0 <= i < n :: !ops[i].Restart?
    ensures var s := states[n];
            (exists e :: e in ActiveView(s.log) && e.key == key && e.state.Firing?)
            <==> StateOf(s.instances, key).Firing?
  {
    RunAgrees(states, ops, n);
    FiringRowsIff(states[n], key);
  }

  lemma FiringRowsIff(s: Trail, key: Key)
    requires Agrees(s) && s.boot == 0
    ensures (exists e :: e in ActiveView(s.log) && e.key == key && e.state.Firing?)
            <==> StateOf(s.instances, key).Firing?
  {
    assert AgreesAt(s, key);
    if e :| e in ActiveView(s.log) && e.key == key && e.state.Firing? {
      ViewIff(s.log, e);
    } else if LastOf(s.log, key).Some? {
      ViewIff(s.log, s.log[LastOf(s.log, key).value]);
    }
  }

  /** An expiry leaves in the active view only what is newer than its cutoff: in
      particular what a restart left behind is gone once it is that old. */
  lemma ExpiryHeals(s: Trail, cutoff: int, order: seq<Key>, at: int, e: Entry)
    requires Agrees(s) && Enabled(s, Expire(cutoff, order, at))
    requires e in ActiveView(Step(s, Expire(cutoff, order, at)).log)
    ensures e.at >= cutoff && e in s.log
  {
    var t := Step(s, Expire(cutoff, order, at));
    ExpireAgrees(s, order, at);
    ViewIff(t.log, e);
    AppendRows(s.log, order, at, |order|, e.key);
    assert order[..|order|] == order;
    var i := LastOf(s.log, e.key).value;
    assert t.log[i] == s.log[i];
    NewestIsLast(s.log, i);
    assert e.key !in Stale(s.log, cutoff);
  }

  /** And it closes nothing else: an open row of the view is closed, by a resolved
      row and a reset of its instance, exactly when it is older than the cutoff. */
  lemma ExpiryClosesIff(s: Trail, cutoff: int, order: seq<Key>, at: int, e: Entry)
    requires Agrees(s) && Enabled(s, Expire(cutoff, order, at)) && e in ActiveView(s.log)
    ensures var t := Step(s, Expire(cutoff, order, at));
            if e.at < cutoff
            then LastOf(t.log, e.key).Some? && t.log[LastOf(t.log, e.key).value] == Entry(e.key, Resolved, at)
                 && StateOf(t.instances, e.key).Normal?
            else e in ActiveView(t.log) && Kept(s.instances, t.instances, e.key)
  {
    var t := Step(s, Expire(cutoff, order, at));
    ExpireAgrees(s, order, at);
    ViewIff(s.log, e);
    var i := LastOf(s.log, e.key).value;
    NewestIsLast(s.log, i);
    StaleIff(s.log, cutoff, e.key, i);
    AppendRows(s.log, order, at, |order|, e.key);
    assert order[..|order|] == order;
    if e.at < cutoff {
      var m := LastOf(t.log, e.key).value;
      assert t.log[m] == Resolutions(order, at)[m - |s.log|];
    } else {
      assert t.log[i] == s.log[i];
      ViewIff(t.log, e);
    }
  }

  predicate Kept(before: Instances, after: Instances, key: Key) {
    if key in before then key in after && after[key] == before[key] else key !in after
  }

  /** A key is stale exactly when its last row is pending or firing and old. */
  lemma StaleIff(log: seq<Entry>, cutoff: int, key: Key, i: nat)
    requires Ordered(log) && LastOf(log, key) == Some(i)
    ensures key in Stale(log, cutoff) <==> (log[i].state.Pending? || log[i].state.Firing?) && log[i].at < cutoff
  {
    NewestIsLast(log, i);
    if key in Stale(log, cutoff) {
      var m :| 0 <= m < |log| && Newest(log, m) && Open(log[m].state) && log[m].at < cutoff && log[m].key == key;
      NewestIsLast(log, m);
    }
  }

  // ----- finer steps and failed writes -----

  /** An evaluation between an expiry's statement and its reset of the engine. The
      end is the same when a whole expiry or acknowledgement runs between an
      evaluation and its own insert: the resolved row, then the row of the
      evaluation, and the engine reset. */
  function ExpireWithGap(s: Trail, key: Key, rule: Rule, r: Reading, at: int, later: int): Trail {
    var mid := s.(log := s.log + [Entry(key, Resolved, at)]);
    var done := Evaluating(mid, rule, key.node, key.gpu, r, later);
    done.(instances := ResetIn(done.instances, key))
  }

  /** The reading ends the wait of a pending alert. */
  predicate FiresNow(instances: Instances, key: Key, rule: Rule, r: Reading) {
    && Applies(rule, key.node, key.gpu) && key in instances && instances[key].state.Pending?
    && r.met && HeldFor(instances[key], r.now) >= Required(rule)
  }

  /** It is harmless exactly when that reading does not end the wait of a pending
      alert: a firing there is forgotten by the engine but stays in the active
      view. */
  lemma ExpireGapAgreesIff(s: Trail, key: Key, rule: Rule, r: Reading, at: int, later: int)
    requires Agrees(s) && rule.id == key.rule && LaterThan(s.log, key, at) && at < later
    ensures AgreesAt(ExpireWithGap(s, key, rule, r, at, later), key) <==> !FiresNow(s.instances, key, rule, r)
  {
    var mid := s.(log := s.log + [Entry(key, Resolved, at)]);
    var event := Emitted(s.instances, rule, key.node, key.gpu, r);
    assert event == Some(Firing) <==> FiresNow(s.instances, key, rule, r);
    AppendRow(s.log, Entry(key, Resolved, at), key);
    if event.Some? {
      AppendRow(mid.log, Entry(key, event.value, later), key);
    }
  }

  /** An evaluation between an acknowledgement's reset and its row. */
  function AcknowledgeWithGap(s: Trail, key: Key, rule: Rule, r: Reading, at: int, later: int): Trail {
    var done := Evaluating(s.(instances := ResetIn(s.instances, key)), rule, key.node, key.gpu, r, at);
    done.(log := done.log + [Entry(key, Resolved, later)])
  }

  /** It is harmless exactly when the reading does not meet its condition (or
      the rule does not apply): otherwise the new pending alert is hidden from
      the active view. */
  lemma AcknowledgeGapAgreesIff(s: Trail, key: Key, rule: Rule, r: Reading, at: int, later: int)
    requires Agrees(s) && rule.id == key.rule && LaterThan(s.log, key, at) && at < later
    ensures AgreesAt(AcknowledgeWithGap(s, key, rule, r, at, later), key)
            <==> !(r.met && Applies(rule, key.node, key.gpu))
  {
    var mid := Evaluating(s.(instances := ResetIn(s.instances, key)), rule, key.node, key.gpu, r, at);
    AppendRow(mid.log, Entry(key, Resolved, later), key);
  }

  /** A failed insert is only logged. The log still agrees exactly when nothing
      was announced, or the announcement repeats the last row. */
  lemma FailedInsertAgreesIff(s: Trail, rule: Rule, node: Name, gpu: Name, r: Reading)
    requires Agrees(s)
    ensures var key := Key(rule.id, node, gpu);
            var event := Emitted(s.instances, rule, node, gpu, r);
            AgreesAt(s.(instances := Evaluated(s.instances, rule, node, gpu, r)), key)
            <==> || event.None?
                 || (event == Some(Pending) && LastOf(s.log, key).Some? && LastOf(s.log, key).value >= s.boot
                     && s.log[LastOf(s.log, key).value].state.Pending?)
  {
    assert AgreesAt(s, Key(rule.id, node, gpu));
  }

  /** An acknowledgement whose insert fails has reset the engine all the same. */
  function AcknowledgeFailed(s: Trail, key: Key): Trail {
    s.(instances := ResetIn(s.instances, key))
  }

  /** That is harmless exactly when the alert was not firing: a firing one is
      forgotten by the engine but stays in the active view. */
  lemma FailedAcknowledgeAgreesIff(s: Trail, key: Key)
    requires Agrees(s)
    ensures Agrees(AcknowledgeFailed(s, key)) <==> !StateOf(s.instances, key).Firing?
  {
    var t := AcknowledgeFailed(s, key);
    assert AgreesAt(s, key);
    assert AgreesAt(t, key) <==> !StateOf(s.instances, key).Firing?;
    forall k | k != key ensures AgreesAt(t, k) {
      assert AgreesAt(s, k);
    }
  }

  /** Two readings of one key on two streams, whose rows are written the other
      way round. */
  function InsertsSwapped(s: Trail, key: Key, first: Rule, r: Reading, second: Rule, q: Reading, at: int, later: int): Trail {
    var mid := Evaluated(s.instances, first, key.node, key.gpu, r);
    s.(instances := Evaluated(mid, second, key.node, key.gpu, q),
       log := Persisted(Persisted(s.log, key, Emitted(mid, second, key.node, key.gpu, q), at),
                        key, Emitted(s.instances, first, key.node, key.gpu, r), later))
  }

  /** That is harmless exactly when not both announce something. */
  lemma SwappedInsertsAgreeIff(s: Trail, key: Key, first: Rule, r: Reading, second: Rule, q: Reading, at: int, later: int)
    requires Agrees(s) && first.id == key.rule && second.id == key.rule && LaterThan(s.log, key, at) && at < later
    ensures var mid := Evaluated(s.instances, first, key.node, key.gpu, r);
            AgreesAt(InsertsSwapped(s, key, first, r, second, q, at, later), key)
            <==> || Emitted(s.instances, first, key.node, key.gpu, r).None?
                 || Emitted(mid, second, key.node, key.gpu, q).None?
  {
    var mid := Evaluated(s.instances, first, key.node, key.gpu, r);
    var e, f := Emitted(s.instances, first, key.node, key.gpu, r), Emitted(mid, second, key.node, key.gpu, q);
    assert AgreesAt(s, key);
    var log := Persisted(s.log, key, f, at);
    if f.Some? {
      AppendRow(s.log, Entry(key, f.value, at), key);
    }
    if e.Some? {
      AppendRow(log, Entry(key, e.value, later), key);
    }
  }

  // ----- the handlers -----

  class AlertService {
    const engine: AlertEngine
    var log: seq<Entry>
    ghost var boot: nat

    constructor (rows: seq<Entry>)
      requires Ordered(rows)
      ensures fresh(engine) && log == rows && State() == Trail(map[], rows, |rows|)
      ensures Agrees(State())
    {
      engine := new AlertEngine();
      log := rows;
      boot := |rows|;
    }

    ghost function State(): Trail
      reads this, engine
    {
      Trail(engine.instances, log, boot)
    }

    method EvaluateAndPersist(rule: Rule, node: Name, gpu: Name, r: Reading, at: int)
      requires Agrees(State()) && LaterThan(log, Key(rule.id, node, gpu), at)
      modifies this`log, engine
      ensures State() == Evaluating(old(State()), rule, node, gpu, r, at)
      ensures Agrees(State())
    {
      EvaluateAgrees(State(), rule, node, gpu, r, at);
      var event := engine.Evaluate(rule, node, gpu, r);
      if event.Some? {
        log := log + [Entry(event.value.key, event.value.after, at)];
      }
    }

    /** The engine is reset first; the row, written whether or not the key has an
        instance, may fail, and the caller is told. A firing alert that was reset
        without its row is the one way to lose the agreement. */
    method Acknowledge(key: Key, at: int, writable: bool) returns (ok: bool)
      requires Agrees(State()) && LaterThan(log, key, at)
      modifies this`log, engine
      ensures ok <==> writable
      ensures State() == if ok then Acknowledging(old(State()), key, at) else AcknowledgeFailed(old(State()), key)
      ensures Agrees(State()) <==> ok || !StateOf(old(engine.instances), key).Firing?
    {
      AcknowledgeAgrees(State(), key, at);
      FailedAcknowledgeAgreesIff(State(), key);
      ghost var before := engine.instances;
      engine.ResetState(key);
      ResetTable(before, engine.instances, key);
      if !writable {
        return false;
      }
      log := log + [Entry(key, Resolved, at)];
      ok := true;
    }

    /** `order` is the list of stale keys in the order the statement returns. */
    method ExpireStale(cutoff: int, order: seq<Key>, at: int)
      requires Agrees(State()) && Enabled(State(), Expire(cutoff, order, at))
      modifies this`log, engine
      ensures State() == Expiring(old(State()), order, at)
      ensures Agrees(State())
      ensures forall e | e in ActiveView(log) :: e.at >= cutoff
    {
      ExpireAgrees(State(), order, at);
      forall e | e in ActiveView(Expiring(State(), order, at).log) ensures e.at >= cutoff {
        ExpiryHeals(State(), cutoff, order, at, e);
      }
      log := log + Resolutions(order, at);
      engine.ResetAll(order);
    }

    method ActiveEvents() returns (rows: set<Entry>)
      requires Agrees(State())
      ensures forall key | key in engine.instances
                           && (engine.instances[key].state.Pending? || engine.instances[key].state.Firing?) ::
                exists e :: e in rows && e.key == key && e.state == engine.instances[key].state
      ensures forall e | e in rows :: e in log && (e.state.Pending? || e.state.Firing?)
    {
      rows := ActiveView(log);
      forall key | key in engine.instances && Open(engine.instances[key].state)
        ensures exists e :: e in rows && e.key == key && e.state == engine.instances[key].state
      {
        assert AgreesAt(State(), key);
        var e := log[LastOf(log, key).value];
        ViewIff(log, e);
        assert e in rows && e.key == key;
      }
    }
  }

  // ----- runs that get there -----

  ghost predicate Reached(s: Trail) {
    exists states: seq<Trail>, ops: seq<Op> :: IsRun(states, ops) && states[|ops|] == s
  }

  lemma StartReached()
    ensures Reached(INIT)
  {
    var ops: seq<Op> := [];
    assert IsRun([INIT], ops);
  }

  lemma Extend(s: Trail, op: Op, t: Trail)
    requires Reached(s) && t == Step(s, op)
    ensures Reached(t)
  {
    var states: seq<Trail>, ops: seq<Op> :| IsRun(states, ops) && states[|ops|] == s;
    var longer, more := states + [t], ops + [op];
    forall i {:trigger more[i]} | 0 <= i < |more| ensures longer[i + 1] == Step(longer[i], more[i]) {
      if i < |ops| {
        assert ops[i] == more[i];
      }
    }
    assert IsRun(longer, more) && longer[|more|] == t;
  }

  lemma ReachedAgrees(s: Trail)
    requires Reached(s)
    ensures Agrees(s)
  {
    var states: seq<Trail>, ops: seq<Op> :| IsRun(states, ops) && states[|ops|] == s;
    RunAgrees(states, ops, |ops|);
  }

  /** A rule that waits a second longer than the expiry does. */
  const RULE := Rule(Name("r"), 0.0, 601, Name(""), [], true)
  const KEY := Key(Name("r"), Name("n"), Name(""))
  const LATE: int := 601 * SECOND

  /** A met reading at `now`. */
  function High(now: int): Reading {
    Reading(1.0, true, now)
  }

  const PENDING := Trail(map[KEY := Instance(Pending, Some(1.0), 0.0, 1, Some(0), None, 0)],
                         [Entry(KEY, Pending, 0)], 0)

  const FIRING := Trail(map[KEY := Instance(Firing, Some(1.0), 0.0, 2, Some(0), None, LATE)],
                        [Entry(KEY, Pending, 0), Entry(KEY, Firing, LATE)], 0)

  lemma PendingReached()
    ensures Reached(PENDING)
  {
    StartReached();
    var t := Evaluating(INIT, RULE, KEY.node, KEY.gpu, High(0), 0);
    Extend(INIT, Evaluate(RULE, KEY.node, KEY.gpu, High(0), 0), t);
    assert t.log == [Entry(KEY, Pending, 0)];
    assert t.instances == PENDING.instances;
  }

  lemma FiringReached()
    ensures Reached(FIRING)
  {
    PendingReached();
    var t := Evaluating(PENDING, RULE, KEY.node, KEY.gpu, High(LATE), LATE);
    Extend(PENDING, Evaluate(RULE, KEY.node, KEY.gpu, High(LATE), LATE), t);
    assert t.log == FIRING.log;
    assert t.instances == FIRING.instances;
  }

  /** The expiry's statement takes the key for stale, the next reading fires it,
      and then the engine is reset. */
  lemma ExpireGapExample()
    ensures Reached(PENDING) && KEY in Stale(PENDING.log, LATE - 600 * SECOND)
    ensures !AgreesAt(ExpireWithGap(PENDING, KEY, RULE, High(LATE), LATE, LATE + 1), KEY)
  {
    PendingReached();
    ReachedAgrees(PENDING);
    assert Newest(PENDING.log, 0);
    ExpireGapAgreesIff(PENDING, KEY, RULE, High(LATE), LATE, LATE + 1);
  }

  lemma AcknowledgeGapExample()
    ensures Reached(FIRING)
    ensures !AgreesAt(AcknowledgeWithGap(FIRING, KEY, RULE, High(LATE + 1), LATE + 1, LATE + 2), KEY)
  {
    FiringReached();
    ReachedAgrees(FIRING);
    AcknowledgeGapAgreesIff(FIRING, KEY, RULE, High(LATE + 1), LATE + 1, LATE + 2);
  }

  lemma FailedInsertExample()
    ensures Reached(PENDING)
    ensures !AgreesAt(PENDING.(instances := Evaluated(PENDING.instances, RULE, KEY.node, KEY.gpu, High(LATE))), KEY)
  {
    PendingReached();
    ReachedAgrees(PENDING);
    FailedInsertAgreesIff(PENDING, RULE, KEY.node, KEY.gpu, High(LATE));
  }

  lemma FailedAcknowledgeExample()
    ensures Reached(FIRING) && !Agrees(AcknowledgeFailed(FIRING, KEY))
  {
    FiringReached();
    ReachedAgrees(FIRING);
    FailedAcknowledgeAgreesIff(FIRING, KEY);
  }

  lemma SwappedInsertsExample()
    ensures Reached(INIT) && !AgreesAt(InsertsSwapped(INIT, KEY, RULE, High(0), RULE, High(LATE), 0, 1), KEY)
  {
    StartReached();
    ReachedAgrees(INIT);
    SwappedInsertsAgreeIff(INIT, KEY, RULE, High(0), RULE, High(LATE), 0, 1);
  }
}
