/**
 The alert engine (crates/common/src/alert.rs): one timed state machine per
 (rule, node, GPU). Whether a reading meets its rule's condition is part of the
 reading. Times and durations are in nanoseconds.
 */
module Alerts {
  import opened Text

  const U32_WRAP: nat := 0x1_0000_0000
  const I64_MAX: nat := 0x7FFF_FFFF_FFFF_FFFF
  const SECOND: nat := 1_000_000_000

  type Count = n: nat | n < U32_WRAP

  datatype Name = Name(text: string)
  datatype Key = Key(rule: Name, node: Name, gpu: Name)

  datatype AlertState = Normal | Pending | Firing | Resolved

  datatype Instance = Instance(
    state: AlertState,
    value: Option<real>,
    threshold: real,
    count: Count,
    triggeredAt: Option<int>,
    resolvedAt: Option<int>,
    updatedAt: int
  )

  datatype Rule = Rule(
    id: Name,
    threshold: real,
    duration: nat, // seconds
    node: Name,    // empty: every node
    gpus: seq<Name>, // empty: every GPU
    enabled: bool
  )

  datatype Reading = Reading(value: real, met: bool, now: int)

  datatype AlertEvent = AlertEvent(
    key: Key, before: AlertState, after: AlertState, value: real, threshold: real, at: int)

  type Instances = map<Key, Instance>

  predicate Applies(rule: Rule, node: Name, gpu: Name) {
    && rule.enabled
    && (rule.node.text != "" ==> rule.node == node)
    && (rule.gpus != [] ==> gpu in rule.gpus)
  }

  function Required(rule: Rule): nat {
    (if rule.duration < I64_MAX then rule.duration else I64_MAX) * SECOND
  }

  function Born(rule: Rule, now: int): Instance {
    Instance(Normal, None, rule.threshold, 0, None, None, now)
  }

  function HeldFor(i: Instance, now: int): int {
    match i.triggeredAt
    case Some(t) => now - t
    case None => 0
  }

  /** The state a reading leads to. */
  function Next(i: Instance, required: nat, r: Reading): AlertState {
    match i.state
    case Normal => if r.met && i.count == 0 then Pending else Normal
    case Pending => if !r.met then Normal else if HeldFor(i, r.now) >= required then Firing else Pending
    case Firing => if r.met then Firing else Resolved
    case Resolved => if r.met then Pending else Resolved
  }

  /** Every change of state is announced, except the fall back to Normal. */
  function Announced(before: AlertState, after: AlertState): Option<AlertState> {
    if after == before || after.Normal? then None else Some(after)
  }

  /** The whole instance after a reading. */
  function After(i: Instance, required: nat, r: Reading): Instance {
    var next := Next(i, required, r);
    Instance(
      next,
      if i.state.Firing? || r.met then Some(r.value) else i.value,
      i.threshold,
      if i.state.Resolved? then (if r.met then 1 else i.count)
      else if i.state.Firing? then i.count
      else if r.met then (i.count + 1) % U32_WRAP
      else if i.state.Pending? then 0 else i.count,
      if next.Pending? && !i.state.Pending? then Some(r.now)
      else if i.state.Pending? && next.Normal? then None else i.triggeredAt,
      if i.state.Firing? && next.Resolved? then Some(r.now)
      else if i.state.Resolved? && r.met then None else i.resolvedAt,
      r.now)
  }

  function Cleared(i: Instance): Instance {
    i.(state := Normal, count := 0, triggeredAt := None, resolvedAt := None, value := None)
  }

  function InstanceOf(instances: Instances, key: Key, rule: Rule, now: int): Instance {
    if key in instances then instances[key] else Born(rule, now)
  }

  function StateOf(instances: Instances, key: Key): AlertState {
    if key in instances then instances[key].state else Normal
  }

  function Evaluated(instances: Instances, rule: Rule, node: Name, gpu: Name, r: Reading): Instances {
    var key := Key(rule.id, node, gpu);
    if Applies(rule, node, gpu)
    then instances[key := After(InstanceOf(instances, key, rule, r.now), Required(rule), r)]
    else instances
  }

  function Emitted(instances: Instances, rule: Rule, node: Name, gpu: Name, r: Reading): Option<AlertState> {
    var key := Key(rule.id, node, gpu);
    if Applies(rule, node, gpu)
    then Announced(StateOf(instances, key), Next(InstanceOf(instances, key, rule, r.now), Required(rule), r))
    else None
  }

  function ResetIn(instances: Instances, key: Key): Instances {
    if key in instances then instances[key := Cleared(instances[key])] else instances
  }

  function WithoutRule(instances: Instances, rule: Name): Instances {
    map key | key in instances && key.rule != rule :: instances[key]
  }

  /** Every key in the list is reset. */
  function ResetAllIn(instances: Instances, keys: set<Key>): Instances {
    map key | key in instances :: if key in keys then Cleared(instances[key]) else instances[key]
  }

  /** Back to the start, with only the threshold and the last update kept. */
  predicate IsReset(i: Instance, j: Instance) {
    && j.state.Normal? && j.count == 0 && j.triggeredAt.None? && j.resolvedAt.None? && j.value.None?
    && j.threshold == i.threshold && j.updatedAt == i.updatedAt
  }

  /** What ResetState says of each key determines the whole map. */
  lemma ResetTable(before: Instances, after: Instances, key: Key)
    requires after.Keys == before.Keys && forall k | k in after && k != key :: after[k] == before[k]
    requires key in after ==> IsReset(before[key], after[key])
    ensures after == ResetIn(before, key)
  {
  }

  class AlertEngine {
    var instances: Instances

    constructor ()
      ensures instances == map[]
    {
      instances := map[];
    }

    /** One reading moves one key's machine and nothing else, and the event
        returned is exactly the announced change of state. */
    method Evaluate(rule: Rule, node: Name, gpu: Name, r: Reading) returns (event: Option<AlertEvent>)
      modifies this
      ensures instances == Evaluated(old(instances), rule, node, gpu, r)
      ensures event.Some? <==> Emitted(old(instances), rule, node, gpu, r).Some?
      ensures event.Some? ==>
                && Emitted(old(instances), rule, node, gpu, r) == Some(event.value.after)
                && event.value.key == Key(rule.id, node, gpu) && event.value.key in instances
                && event.value.before == StateOf(old(instances), event.value.key)
                && event.value.after == instances[event.value.key].state
                && Some(event.value.value) == instances[event.value.key].value
                && event.value.threshold == rule.threshold && event.value.at == r.now
      ensures forall k | k in instances && k !in old(instances) :: instances[k].threshold == rule.threshold
    {
      event := None;
      if !rule.enabled {
        return;
      }
      if rule.node.text != "" && rule.node != node {
        return;
      }
      if rule.gpus != [] && gpu !in rule.gpus {
        return;
      }
      var key := Key(rule.id, node, gpu);
      var i := if key in instances then instances[key] else Born(rule, r.now);
      var before := i.state;
      match before {
        case Normal =>
          if r.met {
            i := i.(count := (i.count + 1) % U32_WRAP, value := Some(r.value));
            if i.count == 1 {
              i := i.(state := Pending, triggeredAt := Some(r.now));
              event := Some(AlertEvent(key, Normal, Pending, r.value, rule.threshold, r.now));
            }
          }
        case Pending =>
          if r.met {
            i := i.(count := (i.count + 1) % U32_WRAP, value := Some(r.value));
            if HeldFor(i, r.now) >= Required(rule) {
              i := i.(state := Firing);
              event := Some(AlertEvent(key, Pending, Firing, r.value, rule.threshold, r.now));
            }
          } else {
            i := i.(count := 0, state := Normal, triggeredAt := None);
          }
        case Firing =>
          if !r.met {
            i := i.(state := Resolved, resolvedAt := Some(r.now), value := Some(r.value));
            event := Some(AlertEvent(key, Firing, Resolved, r.value, rule.threshold, r.now));
          } else {
            i := i.(value := Some(r.value));
          }
        case Resolved =>
          if r.met {
            i := i.(state := Pending, resolvedAt := None, count := 1, triggeredAt := Some(r.now), value := Some(r.value));
            event := Some(AlertEvent(key, Resolved, Pending, r.value, rule.threshold, r.now));
          }
      }
      i := i.(updatedAt := r.now);
      instances := instances[key := i];
    }

    /** An instance goes back to Normal with a zero count and nothing left of its
        timers and its value, so that its next met reading starts a new stretch;
        every other instance, and a missing one, is left alone. */
    method ResetState(key: Key)
      modifies this
      ensures instances.Keys == old(instances).Keys
      ensures forall k | k in instances && k != key :: instances[k] == old(instances)[k]
      ensures key in instances ==> IsReset(old(instances)[key], instances[key])
    {
      if key in instances {
        instances := instances[key := Cleared(instances[key])];
      }
    }

    /** What follows an expiry: each returned key is reset in turn. */
    method ResetAll(keys: seq<Key>)
      modifies this
      ensures instances == ResetAllIn(old(instances), set k | k in keys)
    {
      for n := 0 to |keys|
        invariant instances == ResetAllIn(old(instances), set k | k in keys[..n])
      {
        assert keys[..n + 1] == keys[..n] + [keys[n]];
        ghost var before := instances;
        ResetState(keys[n]);
        ResetTable(before, instances, keys[n]);
      }
      assert keys[..|keys|] == keys;
    }

    /** Nothing of the rule is remembered, and nothing else is forgotten. */
    method RemoveRuleInstances(rule: Name)
      modifies this
      ensures forall k | k in instances :: k.rule != rule && k in old(instances) && instances[k] == old(instances)[k]
      ensures forall k | k in old(instances) && k !in instances :: k.rule == rule
      ensures forall k: Key | k.rule == rule :: StateOf(instances, k).Normal?
    {
      instances := map key | key in instances && key.rule != rule :: instances[key];
    }
  }
}
