/**
 Logins that run side by side (crates/server/src/handlers.rs, login): each takes
 one of 4 permits, then checks the limiter, then may record one failure, and
 holds its permit until it returns. Token refreshes share the limiter without
 taking a permit.
 */
module LoginConcurrency {
  import opened LoginLimiter

  const PERMITS: nat := 4
  const REFRESH_NAME: string := "<refresh-token>"

  /** Failures in one bucket in any 60 s: the limit, plus the logins that passed
      the check beside the last one. */
  const BURST: nat := MAX_FAILURES + PERMITS - 1

  /** `passed` are the logins that passed the check and have not recorded. */
  datatype State = State(
    failures: map<Bucket, seq<int>>,
    clock: int,
    acquired: nat,
    passed: multiset<Bucket>,
    returning: nat
  )

  datatype Event =
    | Acquire
    | Check(bucket: Bucket, now: int, ok: bool)
    | Fail(bucket: Bucket, now: int)
    | Finish(bucket: Bucket)
    | Release
    | RefreshFail(ip: string, now: int)

  const INIT := State(map[], 0, 0, multiset{}, 0)

  function Held(s: State): nat {
    s.acquired + |s.passed| + s.returning
  }

  /** What the limiter may answer to a check, which may have been overtaken on its
      way to the lock. */
  predicate MayAnswer(s: State, bucket: Bucket, now: int, ok: bool) {
    var history := QueueOf(s.failures, bucket);
    && (ok ==> |Recent(history, Max(s.clock, now))| < MAX_FAILURES)
    && (!ok ==> |Recent(history, now)| >= MAX_FAILURES)
  }

  predicate Enabled(s: State, e: Event) {
    match e
    case Acquire => Held(s) < PERMITS
    case Check(bucket, now, ok) => s.acquired > 0 && MayAnswer(s, bucket, now, ok)
    case Fail(bucket, now) => bucket in s.passed && s.clock <= now
    case Finish(bucket) => bucket in s.passed
    case Release => s.returning > 0
    case RefreshFail(ip, now) => SEPARATOR !in ip && s.clock <= now
  }

  function Recorded(s: State, b: Bucket, now: int): State {
    s.(failures := s.failures[b := QueueOf(s.failures, b) + [now]], clock := now)
  }

  function Leave(s: State, b: Bucket): State {
    s.(passed := s.passed - multiset{b}, returning := s.returning + 1)
  }

  function Checked(s: State, b: Bucket, now: int, ok: bool): State
    requires s.acquired > 0
  {
    var t := s.(clock := Max(s.clock, now), acquired := s.acquired - 1);
    if ok then t.(passed := s.passed + multiset{b}) else t.(returning := s.returning + 1)
  }

  function Step(s: State, e: Event): State {
    if !Enabled(s, e) then s else
      match e
      case Acquire => s.(acquired := s.acquired + 1)
      case Check(b, now, ok) => Checked(s, b, now, ok)
      case Fail(b, now) => Leave(Recorded(s, b, now), b)
      case Finish(b) => Leave(s, b)
      case Release => s.(returning := s.returning - 1)
      case RefreshFail(ip, now) => Recorded(s, LoginKey(ip, REFRESH_NAME), now)
  }

  ghost predicate IsRun(states: seq<State>, events: seq<Event>) {
    && |states| == |events| + 1 && states[0] == INIT
    && forall i {:trigger events[i]} | 0 <= i < |events| :: states[i + 1] == Step(states[i], events[i])
  }

  /** The bucket is that of the token refreshes of some address; no address holds
      the separator. */
  ghost predicate IsRefresh(b: Bucket) {
    exists ip :: SEPARATOR !in ip && LoginKey(ip, "<refresh-token>") == b
  }

  /** With `m` logins past the check, the failure that many places short of the
      burst is already out of the window. */
  predicate Room(history: seq<int>, clock: int, m: nat) {
    && m <= PERMITS
    && (|history| >= BURST + 1 - m ==> clock - history[|history| - (BURST + 1 - m)] > WINDOW)
  }

  predicate BucketInv(history: seq<int>, clock: int, m: nat) {
    && Sorted(history) && (history != [] ==> history[|history| - 1] <= clock)
    && Spaced(history, BURST)
    && (m > 0 ==> Room(history, clock, m))
  }

  ghost predicate Inv(s: State, b: Bucket) {
    Held(s) <= PERMITS && BucketInv(QueueOf(s.failures, b), s.clock, s.passed[b])
  }

  lemma TimePasses(history: seq<int>, clock: int, now: int, m: nat)
    requires BucketInv(history, clock, m) && clock <= now
    ensures BucketInv(history, now, m)
  {
  }

  /** One more passes the check. */
  lemma PassCheck(history: seq<int>, now: int, m: nat)
    requires BucketInv(history, now, m) && m < PERMITS && |Recent(history, now)| < MAX_FAILURES
    ensures BucketInv(history, now, m + 1)
  {
    var back := BURST + 1 - (m + 1);
    if |history| >= back {
      FewRecent(history, now, MAX_FAILURES);
      assert history[|history| - back] <= history[|history| - MAX_FAILURES];
    }
  }

  lemma RecordFailure(history: seq<int>, now: int, m: nat)
    requires BucketInv(history, now, m) && m > 0
    ensures BucketInv(history + [now], now, m - 1)
  {
    var back := BURST + 1 - m;
    if |history| >= BURST {
      assert history[|history| - BURST] <= history[|history| - back];
    }
  }

  lemma LeaveUnrecorded(history: seq<int>, now: int, m: nat)
    requires BucketInv(history, now, m) && m > 0
    ensures BucketInv(history, now, m - 1)
  {
    var back := BURST + 1 - m;
    if |history| > back {
      assert history[|history| - back - 1] <= history[|history| - back];
    }
  }

  lemma CheckKeepsInv(s: State, k: Bucket, now: int, ok: bool, b: Bucket)
    requires Inv(s, b) && Enabled(s, Event.Check(k, now, ok))
    ensures Inv(Checked(s, k, now, ok), b)
  {
    var history, m, latest := QueueOf(s.failures, b), s.passed[b], Max(s.clock, now);
    MultiplicityIsBounded(s.passed, b);
    TimePasses(history, s.clock, latest, m);
    if k == b && ok {
      PassCheck(history, latest, m);
    }
  }

  lemma FailKeepsInv(s: State, k: Bucket, now: int, b: Bucket)
    requires Inv(s, b) && Enabled(s, Event.Fail(k, now))
    ensures Inv(Leave(Recorded(s, k, now), k), b)
  {
    var history, m := QueueOf(s.failures, b), s.passed[b];
    TimePasses(history, s.clock, now, m);
    if k == b {
      RecordFailure(history, now, m);
    }
  }

  lemma FinishKeepsInv(s: State, k: Bucket, b: Bucket)
    requires Inv(s, b) && k in s.passed
    ensures Inv(Leave(s, k), b)
  {
    if k == b {
      LeaveUnrecorded(QueueOf(s.failures, b), s.clock, s.passed[b]);
    }
  }

  lemma RefreshKeepsInv(s: State, k: Bucket, now: int, b: Bucket)
    requires Inv(s, b) && s.clock <= now && k != b
    ensures Inv(Recorded(s, k, now), b)
  {
    TimePasses(QueueOf(s.failures, b), s.clock, now, s.passed[b]);
  }

  lemma StepKeepsInv(s: State, e: Event, b: Bucket)
    requires Inv(s, b) && !IsRefresh(b)
    ensures Inv(Step(s, e), b)
  {
    if Enabled(s, e) {
      match e
      case Acquire =>
      case Check(k, now, ok) => CheckKeepsInv(s, k, now, ok, b);
      case Fail(k, now) => FailKeepsInv(s, k, now, b);
      case Finish(k) => FinishKeepsInv(s, k, b);
      case Release =>
      case RefreshFail(ip, now) => RefreshKeepsInv(s, LoginKey(ip, REFRESH_NAME), now, b);
    }
  }

  lemma MultiplicityIsBounded(bag: multiset<Bucket>, b: Bucket)
    ensures bag[b] <= |bag|
  {
    var only := multiset{}[b := bag[b]];
    assert only <= bag;
    assert |only| == bag[b];
    assert bag == only + (bag - only);
  }

  lemma {:induction false} RunKeepsInv(states: seq<State>, events: seq<Event>, n: nat, b: Bucket)
    requires IsRun(states, events) && n <= |events| && !IsRefresh(b)
    ensures Inv(states[n], b)
  {
    if n > 0 {
      RunKeepsInv(states, events, n - 1, b);
      StepKeepsInv(states[n - 1], events[n - 1], b);
    }
  }

  /** However logins interleave, and however their checks are overtaken, one
      bucket other than the refresh ones gets at most 10 + 4 - 1 failures in any
      60 s. */
  lemma BurstIsBounded(states: seq<State>, events: seq<Event>, n: nat, b: Bucket, t: int)
    requires IsRun(states, events) && n <= |events| && !IsRefresh(b)
    ensures |InWindow(QueueOf(states[n].failures, b), t)| <= 13
  {
    RunKeepsInv(states, events, n, b);
    SpacedBoundsWindows(QueueOf(states[n].failures, b), BURST, t);
  }

  // ----- the bound is reached -----

  ghost predicate Reached(s: State) {
    exists states: seq<State>, events: seq<Event> :: IsRun(states, events) && states[|events|] == s
  }

  lemma StartReached()
    ensures Reached(INIT)
  {
    var events: seq<Event> := [];
    assert IsRun([INIT], events);
  }

  lemma Extend(s: State, e: Event, t: State)
    requires Reached(s) && t == Step(s, e)
    ensures Reached(t)
  {
    var states: seq<State>, events: seq<Event> :| IsRun(states, events) && states[|events|] == s;
    var longer, more := states + [t], events + [e];
    forall i {:trigger more[i]} | 0 <= i < |more| ensures longer[i + 1] == Step(longer[i], more[i]) {
      if i < |events| {
        assert events[i] == more[i];
      }
    }
    assert IsRun(longer, more) && longer[|more|] == t;
  }

  /** That many failures, all at one moment. */
  function AtOnce(n: nat): (s: seq<int>)
    ensures |s| == n && forall i | 0 <= i < n :: s[i] == 0
  {
    seq(n, i => 0)
  }

  lemma AllRecent(n: nat)
    ensures |Recent(AtOnce(n), 0)| == n && |InWindow(AtOnce(n), 0)| == n
  {
    assert Recent(AtOnce(n), 0) == Range(0, n);
    assert InWindow(AtOnce(n), 0) == Range(0, n);
  }

  /** `failed` failures recorded, `passed` logins past their check. */
  function Moment(b: Bucket, failed: nat, acquired: nat, passed: nat, returning: nat): State {
    State(map[b := AtOnce(failed)], 0, acquired, multiset{}[b := passed], returning)
  }

  lemma PassOne(b: Bucket, failed: nat, passed: nat)
    requires Reached(Moment(b, failed, 0, passed, 0)) && failed < 10 && passed < 4
    ensures Reached(Moment(b, failed, 0, passed + 1, 0))
  {
    var s := Moment(b, failed, 0, passed, 0);
    assert |s.passed| == passed;
    Extend(s, Acquire, Moment(b, failed, 1, passed, 0));
    AllRecent(failed);
    assert multiset{}[b := passed] + multiset{b} == multiset{}[b := passed + 1];
    Extend(Moment(b, failed, 1, passed, 0), Event.Check(b, 0, true), Moment(b, failed, 0, passed + 1, 0));
  }

  lemma FailOne(b: Bucket, failed: nat, passed: nat)
    requires Reached(Moment(b, failed, 0, passed, 0)) && passed > 0
    ensures Reached(Moment(b, failed + 1, 0, passed - 1, 0))
  {
    var s := Moment(b, failed, 0, passed, 0);
    assert AtOnce(failed) + [0] == AtOnce(failed + 1);
    assert map[b := AtOnce(failed)][b := AtOnce(failed + 1)] == map[b := AtOnce(failed + 1)];
    assert multiset{}[b := passed] - multiset{b} == multiset{}[b := passed - 1];
    Extend(s, Event.Fail(b, 0), Moment(b, failed + 1, 0, passed - 1, 1));
    Extend(Moment(b, failed + 1, 0, passed - 1, 1), Release, Moment(b, failed + 1, 0, passed - 1, 0));
  }

  lemma FirstFailure(b: Bucket)
    ensures Reached(Moment(b, 1, 0, 0, 0))
  {
    StartReached();
    var s := INIT.(acquired := 1);
    Extend(INIT, Acquire, s);
    assert |Recent([], 0)| == 0 by {
      assert Recent([], 0) == {};
    }
    var t := State(map[], 0, 0, multiset{b}, 0);
    Extend(s, Event.Check(b, 0, true), t);
    assert [0] == AtOnce(1);
    assert QueueOf(t.failures, b) + [0] == [0];
    assert t.failures[b := [0]] == map[b := AtOnce(1)];
    assert multiset{b} - multiset{b} == multiset{}[b := 0];
    Extend(t, Event.Fail(b, 0), Moment(b, 1, 0, 0, 1));
    Extend(Moment(b, 1, 0, 0, 1), Release, Moment(b, 1, 0, 0, 0));
  }

  lemma {:induction false} OneByOne(b: Bucket, n: nat)
    requires 1 <= n <= 9
    ensures Reached(Moment(b, n, 0, 0, 0))
    decreases n
  {
    if n == 1 {
      FirstFailure(b);
    } else {
      OneByOne(b, n - 1);
      PassOne(b, n - 1, 0);
      FailOne(b, n - 1, 1);
    }
  }

  lemma {:induction false} AllPass(b: Bucket, m: nat)
    requires m <= 4
    ensures Reached(Moment(b, 9, 0, m, 0))
    decreases m
  {
    if m == 0 {
      OneByOne(b, 9);
    } else {
      AllPass(b, m - 1);
      PassOne(b, 9, m - 1);
    }
  }

  lemma {:induction false} AllFail(b: Bucket, m: nat)
    requires m <= 4
    ensures Reached(Moment(b, 9 + m, 0, 4 - m, 0))
    decreases m
  {
    if m == 0 {
      AllPass(b, 4);
    } else {
      AllFail(b, m - 1);
      FailOne(b, 9 + m - 1, 4 - m + 1);
    }
  }

  /** For every bucket some run puts that many failures into 60 s: nine one after
      the other, then four logins that all pass the check before any of them
      fails. */
  lemma BurstIsReached(b: Bucket) returns (s: State)
    ensures Reached(s) && |InWindow(QueueOf(s.failures, b), 0)| == 13
  {
    AllFail(b, 4);
    AllRecent(13);
    s := Moment(b, 13, 0, 0, 0);
  }
}
