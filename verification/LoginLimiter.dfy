/**
 The login limiter (crates/server/src/handlers.rs, LoginLimiter): sliding
 windows kept as pruned queues, against the full history of what was recorded.
 Times are nanoseconds of a clock that does not run backwards. What is recorded
 is stamped under the lock; a check reads the clock before it takes the lock, so
 its time may lie before anything that happened meanwhile.
 */
module LoginLimiter {
  const WINDOW: nat := 60_000_000_000
  const MAX_FAILURES: nat := 10
  const MAX_GLOBAL: nat := 300

  /** One rate-limit bucket: source address and account. */
  datatype Bucket = Bucket(text: string)

  const SEPARATOR: char := '\U{001F}'

  function LoginKey(ip: string, username: string): Bucket {
    Bucket(ip + [SEPARATOR] + username)
  }

  lemma SeparatorIsFirst(ip: string, username: string, otherIp: string, otherName: string)
    requires SEPARATOR !in otherIp && ip + [SEPARATOR] + username == otherIp + [SEPARATOR] + otherName
    ensures |otherIp| <= |ip|
  {
    var s := ip + [SEPARATOR] + username;
    assert s[|ip|] == SEPARATOR;
    assert forall i | 0 <= i < |otherIp| :: s[i] == otherIp[i];
  }

  /** Buckets of different pairs differ, for addresses without the separator. */
  lemma LoginKeyInjective(ip: string, username: string, otherIp: string, otherName: string)
    requires '\U{001F}' !in ip && '\U{001F}' !in otherIp
    ensures LoginKey(ip, username) == LoginKey(otherIp, otherName) <==> ip == otherIp && username == otherName
  {
    if LoginKey(ip, username) == LoginKey(otherIp, otherName) {
      var s := ip + [SEPARATOR] + username;
      var t := otherIp + [SEPARATOR] + otherName;
      SeparatorIsFirst(ip, username, otherIp, otherName);
      SeparatorIsFirst(otherIp, otherName, ip, username);
      assert ip == s[..|ip|] && otherIp == t[..|otherIp|];
      assert username == s[|ip| + 1..] && otherName == t[|otherIp| + 1..];
    }
  }

  /** An address holding the separator can be confused with another one. */
  lemma LoginKeyConfusion(ip: string, rest: string, username: string)
    ensures LoginKey(ip + [SEPARATOR] + rest, username) == LoginKey(ip, rest + [SEPARATOR] + username)
  {
    assert (ip + [SEPARATOR] + rest) + [SEPARATOR] + username == ip + [SEPARATOR] + (rest + [SEPARATOR] + username);
  }

  // ----- histories -----

  predicate Sorted(s: seq<int>) {
    forall i, k | 0 <= i < k < |s| :: s[i] <= s[k]
  }

  /** The recorded times that lie in the window before `now`. */
  function Recent(s: seq<int>, now: int): set<nat> {
    set i: nat | i < |s| && now - s[i] <= 60_000_000_000
  }

  /** The queue is what is left of the history after dropping entries that have
      fallen out of the window for good. */
  predicate Abridges(queue: seq<int>, history: seq<int>, clock: int) {
    && Sorted(history) && (history != [] ==> history[|history| - 1] <= clock)
    && |queue| <= |history|
    && (forall i | 0 <= i < |queue| :: queue[i] == history[|history| - |queue| + i])
    && forall i | 0 <= i < |history| - |queue| :: clock - history[i] > WINDOW
  }

  function Range(lo: nat, hi: nat): (r: set<nat>)
    requires lo <= hi
    ensures |r| == hi - lo && forall i: nat :: i in r <==> lo <= i < hi
    decreases hi - lo
  {
    if lo == hi then {} else Range(lo, hi - 1) + {hi - 1}
  }

  function Max(a: int, b: int): int {
    if a < b then b else a
  }

  /** A queue with nothing left that is old at `now` holds all that is recent at
      the latest time seen, and nothing that is not recent at `now`. */
  lemma QueueCounts(queue: seq<int>, history: seq<int>, clock: int, now: int)
    requires Abridges(queue, history, clock) && now <= clock
    requires queue != [] ==> now - queue[0] <= WINDOW
    ensures |Recent(history, clock)| <= |queue| <= |Recent(history, now)|
  {
    var cut := |history| - |queue|;
    var r := Range(cut, |history|);
    assert queue != [] ==> queue[0] == history[cut];
    SubsetSize(Recent(history, clock), r);
    SubsetSize(r, Recent(history, now));
  }

  /** Fewer than `max` recent entries: the entry `max` places back is old. */
  lemma FewRecent(history: seq<int>, now: int, max: nat)
    requires Sorted(history) && |Recent(history, now)| < max <= |history|
    ensures now - history[|history| - max] > WINDOW
  {
    var cut := |history| - max;
    if now - history[cut] <= WINDOW {
      var r := Range(cut, |history|);
      assert r <= Recent(history, now);
      SubsetSize(r, Recent(history, now));
      assert false;
    }
  }

  lemma SubsetSize(a: set<nat>, b: set<nat>)
    requires a <= b
    ensures |a| <= |b|
  {
    assert b == a + (b - a);
  }

  /** Any entry is more than a window after the one `max` places before it. */
  predicate Spaced(history: seq<int>, max: nat) {
    forall i | max <= i < |history| :: history[i] - history[i - max] > WINDOW
  }

  lemma AppendSpaced(history: seq<int>, clock: int, later: int, max: nat)
    requires Sorted(history) && Spaced(history, max) && |Recent(history, clock)| < max && clock <= later
    ensures Spaced(history + [later], max)
  {
    if |history| >= max {
      FewRecent(history, clock, max);
    }
  }

  /** The recorded times that lie in the window starting at `t`. */
  function InWindow(history: seq<int>, t: int): set<nat> {
    set i: nat | i < |history| && t <= history[i] <= t + 60_000_000_000
  }

  /** A spaced history has at most `max` entries in any window at all. */
  lemma SpacedBoundsWindows(history: seq<int>, max: nat, t: int)
    requires Sorted(history) && Spaced(history, max)
    ensures |InWindow(history, t)| <= max
  {
    var w := InWindow(history, t);
    if w != {} {
      var a := FirstIn(history, t, 0);
      var r := Range(a, a + max);
      forall i: nat | a + max <= i < |history| ensures i !in w {
        assert history[a + max] - history[a] > WINDOW;
        assert a + max < i ==> history[a + max] <= history[i];
      }
      SubsetSize(w, r);
    }
  }

  /** The first index from `from` on that lies in the window. */
  lemma FirstIn(history: seq<int>, t: int, from: nat) returns (a: nat)
    requires exists i :: i in InWindow(history, t) && i >= from
    ensures a in InWindow(history, t) && a >= from
    ensures forall i | i in InWindow(history, t) && i >= from :: a <= i
    decreases |history| - from
  {
    a := from;
    if from !in InWindow(history, t) {
      var i :| i in InWindow(history, t) && i >= from;
      assert i >= from + 1;
      a := FirstIn(history, t, from + 1);
    }
  }

  function QueueOf(attempts: map<Bucket, seq<int>>, b: Bucket): seq<int> {
    if b in attempts then attempts[b] else []
  }

  predicate BucketOk(attempts: map<Bucket, seq<int>>, failures: map<Bucket, seq<int>>, clock: int, b: Bucket) {
    Abridges(QueueOf(attempts, b), QueueOf(failures, b), clock)
  }

  /** Every bucket's queue stands for its history. */
  ghost predicate AllAbridge(attempts: map<Bucket, seq<int>>, failures: map<Bucket, seq<int>>, clock: int) {
    forall b :: BucketOk(attempts, failures, clock, b)
  }

  lemma AbridgesLater(queue: seq<int>, history: seq<int>, clock: int, now: int)
    requires Abridges(queue, history, clock) && clock <= now
    ensures Abridges(queue, history, now)
  {
  }

  lemma AllLater(attempts: map<Bucket, seq<int>>, failures: map<Bucket, seq<int>>, clock: int, now: int)
    requires AllAbridge(attempts, failures, clock) && clock <= now
    ensures AllAbridge(attempts, failures, now)
  {
    forall b ensures BucketOk(attempts, failures, now, b) {
      assert BucketOk(attempts, failures, clock, b);
      AbridgesLater(QueueOf(attempts, b), QueueOf(failures, b), clock, now);
    }
  }

  lemma AppendAbridges(queue: seq<int>, history: seq<int>, clock: int, now: int)
    requires Abridges(queue, history, clock) && clock <= now
    ensures Abridges(queue + [now], history + [now], now)
  {
  }

  /** One bucket is brought up to date, the others wait. */
  lemma OneChanged(
      attempts: map<Bucket, seq<int>>, failures: map<Bucket, seq<int>>, clock: int, now: int,
      key: Bucket, queue: seq<int>, grown: map<Bucket, seq<int>>)
    requires AllAbridge(attempts, failures, clock) && clock <= now
    requires Abridges(queue, QueueOf(grown, key), now)
    requires forall b | b != key :: QueueOf(grown, b) == QueueOf(failures, b)
    ensures AllAbridge(attempts[key := queue], grown, now)
  {
    var changed := attempts[key := queue];
    forall b ensures BucketOk(changed, grown, now, b) {
      if b != key {
        assert BucketOk(attempts, failures, clock, b);
        AbridgesLater(QueueOf(attempts, b), QueueOf(failures, b), clock, now);
      }
    }
  }

  predicate Live(queue: seq<int>, now: int) {
    queue != [] && now - queue[|queue| - 1] <= WINDOW
  }

  function Kept(attempts: map<Bucket, seq<int>>, now: int): map<Bucket, seq<int>> {
    map b | b in attempts && Live(attempts[b], now) :: attempts[b]
  }

  /** A bucket that prune keeps has a failure in the window, and one that it
      drops has none, now or at the latest time seen. */
  lemma PruneTest(queue: seq<int>, history: seq<int>, clock: int, now: int)
    requires Abridges(queue, history, clock)
    ensures Live(queue, now) ==> Recent(history, now) != {}
    ensures !Live(queue, now) ==> Recent(history, Max(clock, now)) == {} && Abridges([], history, Max(clock, now))
  {
    if history != [] {
      var last: nat := |history| - 1;
      assert forall i | 0 <= i < |history| :: history[i] <= history[last];
      assert now - history[last] <= WINDOW ==> last in Recent(history, now);
      assert queue != [] ==> queue[|queue| - 1] == history[last];
      assert queue == [] ==> clock - history[last] > WINDOW;
    }
  }

  lemma KeptOk(attempts: map<Bucket, seq<int>>, failures: map<Bucket, seq<int>>, clock: int, now: int)
    requires AllAbridge(attempts, failures, clock)
    ensures AllAbridge(Kept(attempts, now), failures, Max(clock, now))
    ensures forall b | b in Kept(attempts, now) :: Recent(QueueOf(failures, b), now) != {}
    ensures forall b | b in attempts && b !in Kept(attempts, now) :: Recent(QueueOf(failures, b), Max(clock, now)) == {}
  {
    var kept, latest := Kept(attempts, now), Max(clock, now);
    forall b
      ensures BucketOk(kept, failures, latest, b)
      ensures b in kept ==> Recent(QueueOf(failures, b), now) != {}
      ensures b in attempts && b !in kept ==> Recent(QueueOf(failures, b), latest) == {}
    {
      assert BucketOk(attempts, failures, clock, b);
      PruneTest(QueueOf(attempts, b), QueueOf(failures, b), clock, now);
      AbridgesLater(QueueOf(attempts, b), QueueOf(failures, b), clock, latest);
      assert QueueOf(kept, b) == if Live(QueueOf(attempts, b), now) then QueueOf(attempts, b) else [];
    }
  }

  class Limiter {
    var attempts: map<Bucket, seq<int>>
    var global: seq<int>
    ghost var failures: map<Bucket, seq<int>> // every failure ever recorded
    ghost var all: seq<int>                   // every attempt ever recorded
    ghost var clock: int                      // the latest time seen under the lock of `attempts`
    ghost var globalClock: int                // and under that of `global`

    ghost predicate Valid()
      reads this
    {
      Abridges(global, all, globalClock) && AllAbridge(attempts, failures, clock)
    }

    constructor (now: int)
      ensures Valid() && failures == map[] && all == [] && clock == now && globalClock == now
    {
      attempts, global := map[], [];
      failures, all, clock, globalClock := map[], [], now, now;
    }

    /** Whatever was popped or pruned before: allowed exactly when fewer than 10
        of all failures ever recorded for the pair lie in the last 60 s. A check
        that was overtaken on its way to the lock is allowed only if that holds
        at the latest time seen, and refused only if it fails at its own. */
    method Allowed(ip: string, username: string, now: int) returns (ok: bool)
      requires Valid()
      modifies this`attempts, this`clock
      ensures Valid() && clock == Max(old(clock), now)
      ensures var history := QueueOf(failures, LoginKey(ip, username));
              && (ok ==> |Recent(history, clock)| < 10)
              && (!ok ==> |Recent(history, now)| >= 10)
              && (old(clock) <= now ==> (ok <==> |Recent(history, now)| < 10))
    {
      var key := LoginKey(ip, username);
      ghost var history := QueueOf(failures, key);
      ghost var latest := Max(clock, now);
      var queue := QueueOf(attempts, key);
      assert BucketOk(attempts, failures, clock, key);
      queue := PopOld(queue, now, history, clock);
      QueueCounts(queue, history, latest, now);
      OneChanged(attempts, failures, clock, latest, key, queue, failures);
      attempts := attempts[key := queue];
      clock := latest;
      ok := |queue| < MAX_FAILURES;
    }

    method RecordFailure(ip: string, username: string, now: int)
      requires Valid() && clock <= now
      modifies this`attempts, this`failures, this`clock
      ensures Valid() && clock == now
      ensures var key := LoginKey(ip, username);
              failures == old(failures)[key := QueueOf(old(failures), key) + [now]]
    {
      var key := LoginKey(ip, username);
      var queue := QueueOf(attempts, key) + [now];
      ghost var grown := failures[key := QueueOf(failures, key) + [now]];
      assert BucketOk(attempts, failures, clock, key);
      AppendAbridges(QueueOf(attempts, key), QueueOf(failures, key), clock, now);
      OneChanged(attempts, failures, clock, now, key, queue, grown);
      attempts := attempts[key := queue];
      failures := grown;
      clock := now;
    }

    /** The same for the budget of all addresses together. */
    method GlobalAllowed(now: int) returns (ok: bool)
      requires Valid()
      modifies this`global, this`globalClock
      ensures Valid() && globalClock == Max(old(globalClock), now)
      ensures ok ==> |Recent(all, globalClock)| < 300
      ensures !ok ==> |Recent(all, now)| >= 300
      ensures old(globalClock) <= now ==> (ok <==> |Recent(all, now)| < 300)
    {
      global := PopOld(global, now, all, globalClock);
      globalClock := Max(globalClock, now);
      QueueCounts(global, all, globalClock, now);
      ok := |global| < MAX_GLOBAL;
    }

    method RecordAttempt(now: int)
      requires Valid() && globalClock <= now
      modifies this`global, this`all, this`globalClock
      ensures Valid() && globalClock == now && all == old(all) + [now]
    {
      AppendAbridges(global, all, globalClock, now);
      global := global + [now];
      all := all + [now];
      globalClock := now;
    }

    /** The check and record that open every login: one after the other they
        never put more than 300 attempts in any 60 s. */
    method BeginLogin(now: int, later: int) returns (ok: bool)
      requires Valid() && globalClock <= later && now <= later && Spaced(all, MAX_GLOBAL)
      modifies this`global, this`all, this`globalClock
      ensures Valid() && Spaced(all, MAX_GLOBAL) && globalClock <= later
      ensures all == if ok then old(all) + [later] else old(all)
      ensures forall t :: |InWindow(all, t)| <= 300
    {
      ok := GlobalAllowed(now);
      if ok {
        AppendSpaced(all, globalClock, later, MAX_GLOBAL);
        RecordAttempt(later);
      }
      forall t ensures |InWindow(all, t)| <= MAX_GLOBAL {
        SpacedBoundsWindows(all, MAX_GLOBAL, t);
      }
    }

    /** Dropping whole buckets loses nothing that still counts: what goes are
        buckets without a failure in the window, and what stays has one. */
    method Prune(now: int)
      requires Valid()
      modifies this`attempts, this`clock
      ensures Valid() && clock == Max(old(clock), now)
      ensures attempts == Kept(old(attempts), now)
      ensures forall b | b in attempts :: Recent(QueueOf(failures, b), now) != {}
      ensures forall b | b in old(attempts) && b !in attempts :: Recent(QueueOf(failures, b), clock) == {}
    {
      KeptOk(attempts, failures, clock, now);
      attempts := map b | b in attempts && Live(attempts[b], now) :: attempts[b];
      clock := Max(clock, now);
    }
  }

  /** Drop the expired entries at the front of a queue. */
  method PopOld(queue: seq<int>, now: int, ghost history: seq<int>, ghost clock: int) returns (rest: seq<int>)
    requires Abridges(queue, history, clock)
    ensures Abridges(rest, history, Max(clock, now))
    ensures rest != [] ==> now - rest[0] <= WINDOW
  {
    rest := queue;
    AbridgesLater(queue, history, clock, Max(clock, now));
    while rest != [] && now - rest[0] > WINDOW
      invariant Abridges(rest, history, Max(clock, now))
      decreases |rest|
    {
      assert rest[0] == history[|history| - |rest|];
      rest := rest[1..];
    }
  }

  // ----- sequences of calls -----

  /** What handlers and the background task ask of the limiter; a login checks
      the global budget and then records itself. */
  datatype Call =
    | Check(ip: string, username: string, now: int)
    | Fail(ip: string, username: string, now: int)
    | Login(now: int, later: int)
    | Tidy(now: int)

  /** The last time the call has to do with. */
  function Time(c: Call): int {
    if c.Login? then c.later else c.now
  }

  /** What a call records is not stamped before anything that came earlier. */
  predicate StampedAfter(c: Call, latest: int) {
    && (c.Fail? ==> latest <= c.now)
    && (c.Login? ==> latest <= c.later && c.now <= c.later)
  }

  /** The latest time in the first `n` calls. */
  function Latest(calls: seq<Call>, n: nat, start: int): int
    requires n <= |calls|
  {
    if n == 0 then start else Max(Latest(calls, n - 1, start), Time(calls[n - 1]))
  }

  method ServeOne(limiter: Limiter, call: Call, ghost latest: int)
    requires limiter.Valid() && Spaced(limiter.all, MAX_GLOBAL) && StampedAfter(call, latest)
    requires limiter.clock <= latest && limiter.globalClock <= latest
    modifies limiter
    ensures limiter.Valid() && Spaced(limiter.all, MAX_GLOBAL)
    ensures limiter.clock <= Max(latest, Time(call)) && limiter.globalClock <= Max(latest, Time(call))
  {
    match call {
      case Check(ip, username, now) =>
        var ok := limiter.Allowed(ip, username, now);
      case Fail(ip, username, now) =>
        limiter.RecordFailure(ip, username, now);
      case Login(now, later) =>
        var ok := limiter.BeginLogin(now, later);
      case Tidy(now) =>
        limiter.Prune(now);
    }
  }

  /** Whatever is asked of a new limiter, one call after the other, it never lets
      more than 300 logins into any 60 s. */
  method Serve(calls: seq<Call>, start: int) returns (limiter: Limiter)
    requires forall n: nat | n < |calls| :: StampedAfter(calls[n], Latest(calls, n, start))
    ensures fresh(limiter) && limiter.Valid()
    ensures forall t :: |InWindow(limiter.all, t)| <= 300
  {
    limiter := new Limiter(start);
    for n := 0 to |calls|
      invariant fresh(limiter) && limiter.Valid() && Spaced(limiter.all, MAX_GLOBAL)
      invariant limiter.clock <= Latest(calls, n, start) && limiter.globalClock <= Latest(calls, n, start)
    {
      assert StampedAfter(calls[n], Latest(calls, n, start));
      ServeOne(limiter, calls[n], Latest(calls, n, start));
    }
    forall t ensures |InWindow(limiter.all, t)| <= MAX_GLOBAL {
      SpacedBoundsWindows(limiter.all, MAX_GLOBAL, t);
    }
  }
}
