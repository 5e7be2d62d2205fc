/**
 When an alert fires, told by the history of its key alone: the engine's
 counters and timers against the readings and resets that went in.
 */
module AlertTiming {
  import opened Text
  import opened Alerts

  datatype Op =
    | Evaluate(rule: Rule, node: Name, gpu: Name, reading: Reading)
    | Reset(key: Key)
    | RemoveRule(id: Name)
    | Clear

  function Apply(instances: Instances, op: Op): Instances {
    match op
    case Evaluate(rule, node, gpu, r) => Evaluated(instances, rule, node, gpu, r)
    case Reset(key) => ResetIn(instances, key)
    case RemoveRule(rule) => WithoutRule(instances, rule)
    case Clear => map[]
  }

  /** A run of an engine from its creation. */
  ghost predicate IsRun(states: seq<Instances>, ops: seq<Op>) {
    && |states| == |ops| + 1 && states[0] == map[]
    && forall i {:trigger ops[i]} | 0 <= i < |ops| :: states[i + 1] == Apply(states[i], ops[i])
  }

  /** What an operation means to one key. */
  datatype Input =
    | Elsewhere
    | Seen(met: bool, now: int, duration: nat)
    | Interrupt

  function Project(op: Op, key: Key): Input {
    match op
    case Evaluate(rule, node, gpu, r) =>
      if Applies(rule, node, gpu) && Key(rule.id, node, gpu) == key
      then Seen(r.met, r.now, rule.duration) else Elsewhere
    case Reset(k) => if k == key then Interrupt else Elsewhere
    case RemoveRule(rule) => if rule == key.rule then Interrupt else Elsewhere
    case Clear => Interrupt
  }

  function History(ops: seq<Op>, key: Key): (h: seq<Input>)
    ensures |h| == |ops| && forall i | 0 <= i < |ops| :: h[i] == Project(ops[i], key)
  {
    seq(|ops|, i requires 0 <= i < |ops| => Project(ops[i], key))
  }

  predicate Met(x: Input) {
    x.Seen? && x.met
  }

  predicate Breaks(x: Input) {
    x.Interrupt? || (x.Seen? && !x.met)
  }

  /** The reading comes the rule's duration, in seconds, after `since`, or later.
      A duration that does not fit 63 bits counts as the largest that does. */
  predicate Due(x: Input, since: int) {
    && x.Seen?
    && x.now - since >= (if x.duration <= 0x7FFF_FFFF_FFFF_FFFF then x.duration else 0x7FFF_FFFF_FFFF_FFFF) * 1_000_000_000
  }

  /** Before `n`, the condition has been met without a break since reading `i`,
      and `i` is the first reading of that stretch. */
  predicate MetSince(h: seq<Input>, n: nat, i: nat)
    requires n <= |h|
  {
    && i < n && Met(h[i])
    && (forall m | i < m < n :: !Breaks(h[m]))
    && (forall m | 0 <= m < i && Met(h[m]) :: BreakBetween(h, m, i))
  }

  predicate BreakBetween(h: seq<Input>, m: nat, i: nat)
    requires m < i <= |h|
  {
    exists q :: m < q < i && Breaks(h[q])
  }

  /** Some reading after `i` and before `n` was due. */
  predicate DueBefore(h: seq<Input>, n: nat, i: nat)
    requires i < n <= |h| && h[i].Seen?
  {
    exists m :: i < m < n && Due(h[m], h[i].now)
  }

  function StretchStart(h: seq<Input>, n: nat): Option<nat>
    requires n <= |h|
  {
    if n == 0 || Breaks(h[n - 1]) then None
    else if Met(h[n - 1]) && StretchStart(h, n - 1).None? then Some(n - 1)
    else StretchStart(h, n - 1)
  }

  lemma {:induction false} StretchStartSound(h: seq<Input>, n: nat)
    requires n <= |h|
    ensures match StretchStart(h, n)
            case Some(i) => MetSince(h, n, i)
            case None => forall m | 0 <= m < n && Met(h[m]) :: BreakBetween(h, m, n)
  {
    if n > 0 {
      StretchStartSound(h, n - 1);
      if Breaks(h[n - 1]) {
        forall m | 0 <= m < n && Met(h[m]) ensures BreakBetween(h, m, n) {
          assert m < n - 1 < n;
        }
      } else if StretchStart(h, n - 1).None? {
        forall m | 0 <= m < n - 1 && Met(h[m]) ensures BreakBetween(h, m, n) && BreakBetween(h, m, n - 1) {
          assert BreakBetween(h, m, n - 1);
        }
      }
    }
  }

  lemma OneStart(h: seq<Input>, n: nat, i: nat, k: nat)
    requires i < k < n <= |h|
    ensures !(MetSince(h, n, i) && MetSince(h, n, k))
  {
    assert MetSince(h, n, i) ==> !BreakBetween(h, i, k);
  }

  lemma StretchStartIff(h: seq<Input>, n: nat, i: nat)
    requires n <= |h|
    ensures StretchStart(h, n) == Some(i) <==> MetSince(h, n, i)
  {
    StretchStartSound(h, n);
    match StretchStart(h, n)
    case Some(k) =>
      if i < k {
        OneStart(h, n, i, k);
      } else if k < i < n {
        OneStart(h, n, k, i);
      }
    case None => assert MetSince(h, n, i) ==> !BreakBetween(h, i, n);
  }

  function Lookup(instances: Instances, key: Key): Option<Instance> {
    if key in instances then Some(instances[key]) else None
  }

  /** The instance stands for exactly this history. */
  predicate Tracks(o: Option<Instance>, h: seq<Input>, n: nat)
    requires n <= |h|
  {
    match StretchStart(h, n)
    case None =>
      o.Some? ==> (o.value.state.Normal? && o.value.count == 0) || o.value.state.Resolved?
    case Some(i) =>
      && o.Some? && i < n && h[i].Seen?
      && o.value.triggeredAt == Some(h[i].now)
      && o.value.state == if DueBefore(h, n, i) then Firing else Pending
  }

  /** Other keys' operations leave a key's instance alone. */
  lemma ElsewhereKeeps(instances: Instances, op: Op, key: Key)
    requires Project(op, key).Elsewhere?
    ensures Lookup(Apply(instances, op), key) == Lookup(instances, key)
  {
  }

  lemma DueBeforeStep(h: seq<Input>, n: nat, i: nat)
    requires i < n < |h| && h[i].Seen?
    ensures DueBefore(h, n + 1, i) <==> DueBefore(h, n, i) || Due(h[n], h[i].now)
  {
    if DueBefore(h, n, i) {
      var m :| i < m < n && Due(h[m], h[i].now);
      assert i < m < n + 1;
    }
  }

  lemma TracksStep(instances: Instances, op: Op, key: Key, h: seq<Input>, n: nat)
    requires n < |h| && h[n] == Project(op, key) && Tracks(Lookup(instances, key), h, n)
    ensures Tracks(Lookup(Apply(instances, op), key), h, n + 1)
  {
    var start := StretchStart(h, n);
    if start.Some? {
      DueBeforeStep(h, n, start.value);
    }
    match h[n]
    case Elsewhere => ElsewhereKeeps(instances, op, key);
    case Interrupt =>
    case Seen(met, now, duration) =>
      assert !DueBefore(h, n + 1, n);
  }

  lemma RunStartTracks(states: seq<Instances>, ops: seq<Op>, key: Key, h: seq<Input>)
    requires IsRun(states, ops)
    ensures Tracks(Lookup(states[0], key), h, 0)
  {
  }

  lemma RunStepTracks(states: seq<Instances>, ops: seq<Op>, key: Key, h: seq<Input>, n: nat)
    requires IsRun(states, ops) && h == History(ops, key) && 0 < n <= |ops|
    requires Tracks(Lookup(states[n - 1], key), h, n - 1)
    ensures Tracks(Lookup(states[n], key), h, n)
  {
    TracksStep(states[n - 1], ops[n - 1], key, h, n - 1);
  }

  /** In every run the instance of each key stands for the history of that key. */
  lemma {:induction false} RunTracks(states: seq<Instances>, ops: seq<Op>, key: Key, h: seq<Input>, n: nat)
    requires IsRun(states, ops) && h == History(ops, key) && n <= |ops|
    ensures Tracks(Lookup(states[n], key), h, n)
    decreases n
  {
    if n == 0 {
      RunStartTracks(states, ops, key, h);
    } else {
      RunTracks(states, ops, key, h, n - 1);
      RunStepTracks(states, ops, key, h, n);
    }
  }

  /** The history of a key calls for firing at operation `n`: its condition has
      been met without a break or reset since some earlier reading, for the
      rule's duration by now and never before. */
  ghost predicate FiringIsDue(h: seq<Input>, n: nat)
    requires n < |h|
  {
    && Met(h[n])
    && exists i: nat :: MetSince(h, n, i) && Due(h[n], h[i].now) && !DueBefore(h, n, i)
  }

  lemma FiringIsDueIff(h: seq<Input>, n: nat)
    requires n < |h|
    ensures FiringIsDue(h, n) <==>
              && Met(h[n]) && StretchStart(h, n).Some?
              && MetSince(h, n, StretchStart(h, n).value)
              && Due(h[n], h[StretchStart(h, n).value].now)
              && !DueBefore(h, n, StretchStart(h, n).value)
  {
    if FiringIsDue(h, n) {
      var i: nat :| MetSince(h, n, i) && Due(h[n], h[i].now) && !DueBefore(h, n, i);
      StretchStartIff(h, n, i);
    }
  }

  /** In every run of the engine, whatever happens on other keys, evaluating a
      reading fires exactly when the history of that key calls for it. */
  lemma FiresIff(states: seq<Instances>, ops: seq<Op>, n: nat)
    requires IsRun(states, ops) && n < |ops| && ops[n].Evaluate?
    ensures var op := ops[n];
            var key := Key(op.rule.id, op.node, op.gpu);
            Emitted(states[n], op.rule, op.node, op.gpu, op.reading) == Some(Firing)
            <==> FiringIsDue(History(ops, key), n)
  {
    var op := ops[n];
    var key := Key(op.rule.id, op.node, op.gpu);
    var h := History(ops, key);
    RunTracks(states, ops, key, h, n);
    FiringIsDueIff(h, n);
    StretchStartSound(h, n);
  }

  /** Normal always has a zero count, so a met reading always enters Pending. */
  lemma NormalEntersPending(states: seq<Instances>, ops: seq<Op>, n: nat)
    requires IsRun(states, ops) && n < |ops| && ops[n].Evaluate?
    requires Applies(ops[n].rule, ops[n].node, ops[n].gpu)
    ensures var op := ops[n];
            var key := Key(op.rule.id, op.node, op.gpu);
            StateOf(states[n], key).Normal? ==>
              && (key in states[n] ==> states[n][key].count == 0)
              && (Emitted(states[n], op.rule, op.node, op.gpu, op.reading) == Some(Pending) <==> op.reading.met)
  {
    var key := Key(ops[n].rule.id, ops[n].node, ops[n].gpu);
    RunTracks(states, ops, key, History(ops, key), n);
  }
}
