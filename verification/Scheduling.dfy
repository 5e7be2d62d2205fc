/**
 The in-memory GPU scheduler (crates/scheduler/src/lib.rs): what it computes,
 as functions over its queue, running slots and node capacities, and the class
 that updates them in place.
 */
module Scheduling {
  import opened Text
  import opened Jobs
  import opened GpuQuota

  datatype JobId = JobId(text: string)
  datatype NodeId = NodeId(name: string)
  datatype Quota = Quota(text: string)

  /** `node` is empty while nobody asked for a particular one. */
  datatype Job = Job(id: JobId, node: NodeId, quota: Quota, status: JobStatus)

  type Slots = map<JobId, Job>
  type Capacity = map<NodeId, nat>

  function Gpus(j: Job): (n: nat)
    ensures 1 <= n <= U32_MAX
  {
    GpuRequirement(j.quota.text)
  }

  // ----- capacity accounting -----

  function Weight(j: Job, node: NodeId): nat {
    if j.node == node then Gpus(j) else 0
  }

  ghost function AnyId(slots: Slots): (id: JobId)
    requires slots != map[]
    ensures id in slots
  {
    var id :| id in slots; id
  }

  /** GPUs in use on a node: the sum over the running slots. */
  ghost function InUse(slots: Slots, node: NodeId): nat
    decreases |slots|
  {
    if slots == map[] then 0 else
      var id := AnyId(slots);
      Weight(slots[id], node) + InUse(slots - {id}, node)
  }

  /** The sum does not depend on the order of the slots. */
  lemma {:induction false} InUseSplit(slots: Slots, node: NodeId, id: JobId)
    requires id in slots
    ensures InUse(slots, node) == Weight(slots[id], node) + InUse(slots - {id}, node)
    decreases |slots|
  {
    var k := AnyId(slots);
    if k != id {
      var without := slots - {k};
      InUseSplit(without, node, id);
      InUseSplit(slots - {id}, node, k);
      assert without - {id} == slots - {id} - {k};
    }
  }

  lemma InUseDrop(slots: Slots, node: NodeId, id: JobId)
    ensures InUse(slots - {id}, node) <= InUse(slots, node)
  {
    if id in slots {
      InUseSplit(slots, node, id);
    } else {
      assert slots - {id} == slots;
    }
  }

  lemma InUseAdd(slots: Slots, node: NodeId, j: Job)
    requires j.id !in slots
    ensures InUse(slots[j.id := j], node) == InUse(slots, node) + Weight(j, node)
  {
    InUseSplit(slots[j.id := j], node, j.id);
    assert slots[j.id := j] - {j.id} == slots;
  }

  /** Fewer slots with the same jobs use no more. */
  lemma {:induction false} InUseMonotone(some: Slots, more: Slots, node: NodeId)
    requires forall id | id in some :: id in more && Weight(some[id], node) == Weight(more[id], node)
    ensures InUse(some, node) <= InUse(more, node)
    decreases |some|
  {
    if some != map[] {
      var id := AnyId(some);
      InUseSplit(more, node, id);
      InUseMonotone(some - {id}, more - {id}, node);
    }
  }

  // ----- choosing a node -----

  /** The order of Rust strings: by code point, which is also their byte order. */
  predicate Leq(a: NodeId, b: NodeId) {
    LeqFrom(a.name, b.name, 0)
  }

  predicate LeqFrom(a: string, b: string, i: nat)
    requires i <= |a| && i <= |b|
    decreases |a| - i
  {
    i == |a| || (i < |b| && (a[i] < b[i] || (a[i] == b[i] && LeqFrom(a, b, i + 1))))
  }

  lemma {:induction false} LeqFromTotal(a: string, b: string, i: nat)
    requires i <= |a| && i <= |b|
    ensures LeqFrom(a, b, i) || LeqFrom(b, a, i)
    decreases |a| - i
  {
    if i < |a| && i < |b| && a[i] == b[i] {
      LeqFromTotal(a, b, i + 1);
    }
  }

  lemma {:induction false} LeqFromAntisymmetric(a: string, b: string, i: nat)
    requires i <= |a| && i <= |b| && a[..i] == b[..i]
    requires LeqFrom(a, b, i) && LeqFrom(b, a, i)
    ensures a == b
    decreases |a| - i
  {
    if i < |a| && i < |b| {
      assert a[..i + 1] == a[..i] + [a[i]] == b[..i] + [b[i]] == b[..i + 1];
      LeqFromAntisymmetric(a, b, i + 1);
    } else {
      assert a == a[..i] == b[..i] == b;
    }
  }

  lemma {:induction false} LeqFromTransitive(a: string, b: string, c: string, i: nat)
    requires i <= |a| && i <= |b| && i <= |c|
    requires LeqFrom(a, b, i) && LeqFrom(b, c, i)
    ensures LeqFrom(a, c, i)
    decreases |a| - i
  {
    if i < |a| && a[i] == b[i] == c[i] {
      LeqFromTransitive(a, b, c, i + 1);
    }
  }

  lemma LeqTotal(a: NodeId, b: NodeId)
    ensures Leq(a, b) || Leq(b, a)
  {
    LeqFromTotal(a.name, b.name, 0);
  }

  lemma LeqTransitive(a: NodeId, b: NodeId, c: NodeId)
    requires Leq(a, b) && Leq(b, c)
    ensures Leq(a, c)
  {
    LeqFromTransitive(a.name, b.name, c.name, 0);
  }

  lemma {:induction false} LeqFromDifference(a: string, b: string, k: nat, i: nat)
    requires i <= k < |a| && k < |b| && a[..k] == b[..k] && a[k] < b[k]
    ensures LeqFrom(a, b, i) && !LeqFrom(b, a, i)
    decreases k - i
  {
    if i < k {
      assert a[..k][i] == b[..k][i];
      LeqFromDifference(a, b, k, i + 1);
    }
  }

  /** At the first difference the smaller code point comes first. */
  lemma LeqAtDifference(a: string, b: string, k: nat)
    requires k < |a| && k < |b| && a[..k] == b[..k] && a[k] < b[k]
    ensures Leq(NodeId(a), NodeId(b)) && !Leq(NodeId(b), NodeId(a))
  {
    LeqFromDifference(a, b, k, 0);
  }

  lemma {:induction false} LeqFromPrefix(a: string, b: string, i: nat)
    requires i <= |a| < |b| && a == b[..|a|]
    ensures LeqFrom(a, b, i) && !LeqFrom(b, a, i)
    decreases |a| - i
  {
    if i < |a| {
      assert a[i] == b[..|a|][i];
      LeqFromPrefix(a, b, i + 1);
    }
  }

  /** A name comes before every longer one that starts with it. */
  lemma LeqOfPrefix(a: string, b: string)
    requires |a| < |b| && a == b[..|a|]
    ensures Leq(NodeId(a), NodeId(b)) && !Leq(NodeId(b), NodeId(a))
  {
    LeqFromPrefix(a, b, 0);
  }

  ghost predicate IsLeast(n: NodeId, names: set<NodeId>) {
    n in names && forall m | m in names :: Leq(n, m)
  }

  lemma LeastUnique(m: NodeId, n: NodeId, names: set<NodeId>)
    requires IsLeast(m, names) && IsLeast(n, names)
    ensures m == n
  {
    LeqFromAntisymmetric(m.name, n.name, 0);
  }

  lemma {:induction false} LeastExists(names: set<NodeId>) returns (n: NodeId)
    requires names != {}
    ensures IsLeast(n, names)
    decreases |names|
  {
    n :| n in names;
    LeqTotal(n, n);
    if names != {n} {
      var m := LeastExists(names - {n});
      LeqTotal(m, n);
      if Leq(m, n) {
        n := m;
      } else {
        forall k | k in names ensures Leq(n, k) {
          if k != n {
            assert k in names - {n};
            LeqTransitive(n, m, k);
          }
        }
      }
    }
  }

  /** The node is known and has `gpus` free, with saturating subtraction. */
  ghost predicate Fits(slots: Slots, capacity: Capacity, gpus: nat, node: NodeId) {
    && node in capacity
    && (if capacity[node] > InUse(slots, node) then capacity[node] - InUse(slots, node) else 0) >= gpus
  }

  ghost function Candidates(slots: Slots, capacity: Capacity, gpus: nat): set<NodeId> {
    set node | node in capacity && Fits(slots, capacity, gpus, node)
  }

  function Preferred(j: Job): Option<NodeId> {
    if j.node.name == "" then None else Some(j.node)
  }

  /** The chosen node: the preferred one when it is a candidate, else the
      candidate with the least name, if there is any. */
  ghost predicate IsChoice(slots: Slots, capacity: Capacity, gpus: nat, preferred: Option<NodeId>, r: Option<NodeId>) {
    var names := Candidates(slots, capacity, gpus);
    if preferred.Some? && preferred.value in names then r == preferred
    else if names == {} then r == None
    else r.Some? && IsLeast(r.value, names)
  }

  ghost function FindNode(slots: Slots, capacity: Capacity, gpus: nat, preferred: Option<NodeId>): (r: Option<NodeId>)
    ensures IsChoice(slots, capacity, gpus, preferred, r)
  {
    assert exists r :: IsChoice(slots, capacity, gpus, preferred, r) by {
      var r := ChoiceExists(slots, capacity, gpus, preferred);
    }
    var r :| IsChoice(slots, capacity, gpus, preferred, r); r
  }

  lemma ChoiceExists(slots: Slots, capacity: Capacity, gpus: nat, preferred: Option<NodeId>) returns (r: Option<NodeId>)
    ensures IsChoice(slots, capacity, gpus, preferred, r)
  {
    var names := Candidates(slots, capacity, gpus);
    if preferred.Some? && preferred.value in names {
      r := preferred;
    } else if names == {} {
      r := None;
    } else {
      var n := LeastExists(names);
      r := Some(n);
    }
  }

  /** A chosen node has room, and none is chosen only when no node has. */
  lemma ChoiceFits(slots: Slots, capacity: Capacity, gpus: nat, preferred: Option<NodeId>, node: NodeId)
    ensures var r := FindNode(slots, capacity, gpus, preferred);
            && (r.Some? ==> Fits(slots, capacity, gpus, r.value))
            && (r.None? ==> !Fits(slots, capacity, gpus, node))
  {
    var names := Candidates(slots, capacity, gpus);
    assert Fits(slots, capacity, gpus, node) ==> node in names;
  }

  lemma ChoiceUnique(slots: Slots, capacity: Capacity, gpus: nat, preferred: Option<NodeId>, r: Option<NodeId>)
    requires IsChoice(slots, capacity, gpus, preferred, r)
    ensures r == FindNode(slots, capacity, gpus, preferred)
  {
    var names := Candidates(slots, capacity, gpus);
    if r.Some? && !(preferred.Some? && preferred.value in names) {
      LeastUnique(r.value, FindNode(slots, capacity, gpus, preferred).value, names);
    }
  }

  ghost function NodeFor(j: Job, slots: Slots, capacity: Capacity): Option<NodeId> {
    FindNode(slots, capacity, Gpus(j), Preferred(j))
  }

  // ----- one scheduling pass -----

  function Placed(j: Job, node: NodeId): Job {
    j.(node := node, status := Starting)
  }

  datatype Pass = Pass(scheduled: seq<Job>, remaining: seq<Job>, slots: Slots)

  /** What happens to one job. */
  ghost function Decide(p: Pass, j: Job, choice: Option<NodeId>): Pass {
    match choice
    case Some(node) =>
      Pass(p.scheduled + [Placed(j, node)], p.remaining, p.slots[j.id := Placed(j, node)])
    case None =>
      Pass(p.scheduled, p.remaining + [j], p.slots)
  }

  /** How a pass picks a node for a job, given the slots taken so far. */
  type Pick = (Job, Slots) -> Option<NodeId>

  /** A pass that nothing interrupts, after its first `n` jobs. */
  ghost function PassWith(pick: Pick, queue: seq<Job>, n: nat, slots: Slots): Pass
    requires n <= |queue|
  {
    if n == 0 then Pass([], [], slots) else
      var p := PassWith(pick, queue, n - 1, slots);
      Decide(p, queue[n - 1], pick(queue[n - 1], p.slots))
  }

  ghost function Picker(capacity: Capacity): Pick {
    (j: Job, slots: Slots) => NodeFor(j, slots, capacity)
  }

  /** The scheduler's pass. */
  ghost function Schedule(queue: seq<Job>, n: nat, slots: Slots, capacity: Capacity): Pass
    requires n <= |queue|
  {
    PassWith(Picker(capacity), queue, n, slots)
  }

  /** The first `n` jobs of the queue are the order-preserving merge of the
      scheduled jobs, each as it was before it was placed, and the remaining. */
  ghost predicate Merges(queue: seq<Job>, n: nat, scheduled: seq<Job>, remaining: seq<Job>)
    requires n <= |queue|
  {
    if n == 0 then scheduled == [] && remaining == [] else
      var j := queue[n - 1];
      || (scheduled != [] && scheduled[|scheduled| - 1] == Placed(j, scheduled[|scheduled| - 1].node)
          && Merges(queue, n - 1, scheduled[..|scheduled| - 1], remaining))
      || (remaining != [] && remaining[|remaining| - 1] == j
          && Merges(queue, n - 1, scheduled, remaining[..|remaining| - 1]))
  }

  lemma DecideMerges(queue: seq<Job>, n: nat, p: Pass, choice: Option<NodeId>)
    requires 0 < n <= |queue| && Merges(queue, n - 1, p.scheduled, p.remaining)
    ensures var q := Decide(p, queue[n - 1], choice); Merges(queue, n, q.scheduled, q.remaining)
  {
    var q := Decide(p, queue[n - 1], choice);
    if choice.Some? {
      assert q.scheduled[..|q.scheduled| - 1] == p.scheduled;
    } else {
      assert q.remaining[..|q.remaining| - 1] == p.remaining;
    }
  }

  /** No job is lost, duplicated or reordered, however nodes are picked. */
  lemma {:induction false} PassConserves(pick: Pick, queue: seq<Job>, n: nat, slots: Slots)
    requires n <= |queue|
    ensures var p := PassWith(pick, queue, n, slots); Merges(queue, n, p.scheduled, p.remaining)
    decreases n
  {
    if n > 0 {
      PassConserves(pick, queue, n - 1, slots);
      var p := PassWith(pick, queue, n - 1, slots);
      DecideMerges(queue, n, p, pick(queue[n - 1], p.slots));
    }
  }

  lemma ScheduleConserves(queue: seq<Job>, slots: Slots, capacity: Capacity)
    ensures var p := Schedule(queue, |queue|, slots, capacity); Merges(queue, |queue|, p.scheduled, p.remaining)
  {
    PassConserves(Picker(capacity), queue, |queue|, slots);
  }

  predicate DistinctIds(jobs: seq<Job>) {
    forall i, k | 0 <= i < k < |jobs| :: jobs[i].id != jobs[k].id
  }

  predicate NoneInSlots(jobs: seq<Job>, slots: Slots) {
    forall i | 0 <= i < |jobs| :: jobs[i].id !in slots
  }

  /** The queue holds each job once, and none that occupies a slot. */
  predicate WellQueued(queue: seq<Job>, slots: Slots) {
    DistinctIds(queue) && NoneInSlots(queue, slots)
  }

  /** What a pass keeps about ids after `n` jobs. */
  ghost predicate KeepsIds(queue: seq<Job>, n: nat, slots: Slots, p: Pass)
    requires n <= |queue|
  {
    // old slots are untouched, and new ones hold exactly the scheduled jobs
    && (forall id | id in slots :: id in p.slots && p.slots[id] == slots[id])
    && (forall i | 0 <= i < |p.scheduled| :: p.scheduled[i].id in p.slots && p.slots[p.scheduled[i].id] == p.scheduled[i])
    && (forall id | id in p.slots :: id in slots || p.slots[id] in p.scheduled)
    // what remains is apart from the slots and from what is yet to come
    && WellQueued(p.remaining, p.slots)
    && (forall k | n <= k < |queue| :: queue[k].id !in p.slots)
    && (forall i, k | 0 <= i < |p.remaining| && n <= k < |queue| :: p.remaining[i].id != queue[k].id)
  }

  lemma DecideKeepsIds(queue: seq<Job>, n: nat, slots: Slots, p: Pass, choice: Option<NodeId>)
    requires 0 < n <= |queue| && WellQueued(queue, slots) && KeepsIds(queue, n - 1, slots, p)
    ensures KeepsIds(queue, n, slots, Decide(p, queue[n - 1], choice))
  {
  }

  /** The ids stay apart: what was queued is afterwards either in a slot or
      still queued, never both, and old slots are untouched. */
  lemma {:induction false} PassKeepsIds(pick: Pick, queue: seq<Job>, n: nat, slots: Slots)
    requires n <= |queue| && WellQueued(queue, slots)
    ensures KeepsIds(queue, n, slots, PassWith(pick, queue, n, slots))
    decreases n
  {
    if n > 0 {
      PassKeepsIds(pick, queue, n - 1, slots);
      var p := PassWith(pick, queue, n - 1, slots);
      DecideKeepsIds(queue, n, slots, p, pick(queue[n - 1], p.slots));
    }
  }

  lemma ScheduleKeepsIds(queue: seq<Job>, slots: Slots, capacity: Capacity)
    requires WellQueued(queue, slots)
    ensures KeepsIds(queue, |queue|, slots, Schedule(queue, |queue|, slots, capacity))
  {
    PassKeepsIds(Picker(capacity), queue, |queue|, slots);
  }

  /** Placing a job that fits leaves the node within its capacity. */
  lemma PlaceWithinCapacity(slots: Slots, capacity: Capacity, j: Job, node: NodeId, other: NodeId)
    requires j.id !in slots && Fits(slots, capacity, Gpus(j), node)
    ensures var used := InUse(slots[j.id := Placed(j, node)], other);
            if other == node then used <= capacity[node] && used == InUse(slots, node) + Gpus(j)
            else used == InUse(slots, other)
  {
    InUseAdd(slots, other, Placed(j, node));
  }

  function CapacityOf(capacity: Capacity, node: NodeId): nat {
    if node in capacity then capacity[node] else 0
  }

  function Max(a: nat, b: nat): nat {
    if a < b then b else a
  }

  lemma DecideWithinCapacity(p: Pass, j: Job, choice: Option<NodeId>, capacity: Capacity, node: NodeId)
    requires j.id !in p.slots
    requires choice.Some? ==> Fits(p.slots, capacity, Gpus(j), choice.value)
    ensures InUse(p.slots, node) <= InUse(Decide(p, j, choice).slots, node)
            <= Max(InUse(p.slots, node), CapacityOf(capacity, node))
  {
    if choice.Some? {
      PlaceWithinCapacity(p.slots, capacity, j, choice.value, node);
    }
  }

  lemma NodeForFits(j: Job, slots: Slots, capacity: Capacity, node: NodeId)
    ensures var r := NodeFor(j, slots, capacity);
            && (r.Some? ==> Fits(slots, capacity, Gpus(j), r.value))
            && (r.None? ==> !Fits(slots, capacity, Gpus(j), node))
  {
    ChoiceFits(slots, capacity, Gpus(j), Preferred(j), node);
  }

  ghost predicate PicksWell(pick: Pick, capacity: Capacity, j: Job, slots: Slots, node: NodeId) {
    && (pick(j, slots).Some? ==> Fits(slots, capacity, Gpus(j), pick(j, slots).value))
    && (pick(j, slots).None? ==> !Fits(slots, capacity, Gpus(j), node))
  }

  /** A picked node has room, and none is picked only when no node has. */
  ghost predicate Honest(pick: Pick, capacity: Capacity) {
    forall j, slots, node :: PicksWell(pick, capacity, j, slots, node)
  }

  lemma PickerIsHonest(capacity: Capacity)
    ensures Honest(Picker(capacity), capacity)
  {
    forall j, slots, node ensures PicksWell(Picker(capacity), capacity, j, slots, node) {
      NodeForFits(j, slots, capacity, node);
    }
  }

  /** The next job of a pass has no slot yet. */
  lemma NextHasNoSlot(pick: Pick, queue: seq<Job>, n: nat, slots: Slots)
    requires n < |queue| && WellQueued(queue, slots)
    ensures queue[n].id !in PassWith(pick, queue, n, slots).slots
  {
    PassKeepsIds(pick, queue, n, slots);
  }

  lemma StaysWithin(before: Slots, p: Pass, j: Job, choice: Option<NodeId>, capacity: Capacity, node: NodeId)
    requires j.id !in p.slots && (choice.Some? ==> Fits(p.slots, capacity, Gpus(j), choice.value))
    requires InUse(before, node) <= InUse(p.slots, node) <= Max(InUse(before, node), CapacityOf(capacity, node))
    ensures InUse(before, node) <= InUse(Decide(p, j, choice).slots, node)
            <= Max(InUse(before, node), CapacityOf(capacity, node))
  {
    DecideWithinCapacity(p, j, choice, capacity, node);
  }

  lemma {:induction false} PassWithinCapacity(
      pick: Pick, queue: seq<Job>, n: nat, slots: Slots, capacity: Capacity, node: NodeId)
    requires n <= |queue| && WellQueued(queue, slots) && Honest(pick, capacity)
    ensures InUse(slots, node) <= InUse(PassWith(pick, queue, n, slots).slots, node)
            <= Max(InUse(slots, node), CapacityOf(capacity, node))
    decreases n
  {
    if n > 0 {
      PassWithinCapacity(pick, queue, n - 1, slots, capacity, node);
      NextHasNoSlot(pick, queue, n - 1, slots);
      var p := PassWith(pick, queue, n - 1, slots);
      assert PicksWell(pick, capacity, queue[n - 1], p.slots, node);
      StaysWithin(slots, p, queue[n - 1], pick(queue[n - 1], p.slots), capacity, node);
    }
  }

  /** A pass never pushes a node over its capacity, and never frees anything. */
  lemma ScheduleWithinCapacity(queue: seq<Job>, slots: Slots, capacity: Capacity, node: NodeId)
    requires WellQueued(queue, slots)
    ensures InUse(slots, node) <= InUse(Schedule(queue, |queue|, slots, capacity).slots, node)
            <= Max(InUse(slots, node), CapacityOf(capacity, node))
  {
    PickerIsHonest(capacity);
    PassWithinCapacity(Picker(capacity), queue, |queue|, slots, capacity, node);
  }

  lemma DecideRemaining(p: Pass, j: Job, choice: Option<NodeId>, i: nat)
    requires i < |Decide(p, j, choice).remaining|
    ensures var q := Decide(p, j, choice);
            if i < |p.remaining| then q.remaining[i] == p.remaining[i]
            else choice.None? && q.remaining[i] == j && q.slots == p.slots
  {
  }

  lemma DecideIsGreedy(p: Pass, j: Job, choice: Option<NodeId>, capacity: Capacity, i: nat, node: NodeId)
    requires j.id !in p.slots && i < |Decide(p, j, choice).remaining|
    requires match choice
             case Some(n) => Fits(p.slots, capacity, Gpus(j), n)
             case None => !Fits(p.slots, capacity, Gpus(j), node)
    requires i < |p.remaining| ==> !Fits(p.slots, capacity, Gpus(p.remaining[i]), node)
    ensures var q := Decide(p, j, choice); !Fits(q.slots, capacity, Gpus(q.remaining[i]), node)
  {
    DecideRemaining(p, j, choice, i);
    DecideWithinCapacity(p, j, choice, capacity, node);
  }

  lemma {:induction false} PassIsGreedy(
      pick: Pick, queue: seq<Job>, n: nat, slots: Slots, capacity: Capacity, i: nat, node: NodeId)
    requires n <= |queue| && WellQueued(queue, slots) && Honest(pick, capacity)
    requires i < |PassWith(pick, queue, n, slots).remaining|
    ensures var p := PassWith(pick, queue, n, slots);
            !Fits(p.slots, capacity, Gpus(p.remaining[i]), node)
    decreases n
  {
    var p := PassWith(pick, queue, n - 1, slots);
    var j := queue[n - 1];
    assert PicksWell(pick, capacity, j, p.slots, node);
    NextHasNoSlot(pick, queue, n - 1, slots);
    if i < |p.remaining| {
      PassIsGreedy(pick, queue, n - 1, slots, capacity, i, node);
    }
    DecideIsGreedy(p, j, pick(j, p.slots), capacity, i, node);
  }

  /** The pass is greedy: after it, no job left in the queue fits anywhere. */
  lemma ScheduleIsGreedy(queue: seq<Job>, slots: Slots, capacity: Capacity, i: nat, node: NodeId)
    requires WellQueued(queue, slots)
    requires i < |Schedule(queue, |queue|, slots, capacity).remaining|
    ensures var p := Schedule(queue, |queue|, slots, capacity);
            !Fits(p.slots, capacity, Gpus(p.remaining[i]), node)
  {
    PickerIsHonest(capacity);
    PassIsGreedy(Picker(capacity), queue, |queue|, slots, capacity, i, node);
  }

  /** What became of one job of a pass. */
  ghost predicate Got(ahead: Pass, j: Job, choice: Option<NodeId>, p: Pass) {
    if choice.Some?
    then |ahead.scheduled| < |p.scheduled| && p.scheduled[|ahead.scheduled|] == Placed(j, choice.value)
    else |ahead.remaining| < |p.remaining| && p.remaining[|ahead.remaining|] == j
  }

  lemma DecideGives(ahead: Pass, j: Job, choice: Option<NodeId>)
    ensures Got(ahead, j, choice, Decide(ahead, j, choice))
  {
  }

  /** Later jobs do not change what happened to earlier ones. */
  lemma DecideLeaves(ahead: Pass, j: Job, choice: Option<NodeId>, p: Pass, next: Job, nextChoice: Option<NodeId>)
    requires Got(ahead, j, choice, p)
    ensures Got(ahead, j, choice, Decide(p, next, nextChoice))
  {
  }

  lemma {:induction false} PassAtTurn(pick: Pick, queue: seq<Job>, k: nat, n: nat, slots: Slots)
    requires k < n <= |queue|
    ensures var ahead := PassWith(pick, queue, k, slots);
            Got(ahead, queue[k], pick(queue[k], ahead.slots), PassWith(pick, queue, n, slots))
    decreases n
  {
    var ahead := PassWith(pick, queue, k, slots);
    if n == k + 1 {
      DecideGives(ahead, queue[k], pick(queue[k], ahead.slots));
    } else {
      PassAtTurn(pick, queue, k, n - 1, slots);
      var p := PassWith(pick, queue, n - 1, slots);
      DecideLeaves(ahead, queue[k], pick(queue[k], ahead.slots), p, queue[n - 1], pick(queue[n - 1], p.slots));
    }
  }

  /** Each job gets the node picked against the slots taken by the jobs ahead of
      it, and stays queued exactly when there is none. */
  lemma ScheduleAtTurn(queue: seq<Job>, k: nat, slots: Slots, capacity: Capacity)
    requires k < |queue|
    ensures var ahead := Schedule(queue, k, slots, capacity);
            Got(ahead, queue[k], NodeFor(queue[k], ahead.slots, capacity), Schedule(queue, |queue|, slots, capacity))
  {
    PassAtTurn(Picker(capacity), queue, k, |queue|, slots);
  }

  /** The node is known and has that many GPUs left. */
  ghost predicate HasRoom(slots: Slots, capacity: Capacity, gpus: nat, node: NodeId) {
    node in capacity && InUse(slots, node) + gpus <= capacity[node]
  }

  lemma FitsIff(slots: Slots, capacity: Capacity, gpus: nat, node: NodeId)
    requires gpus > 0
    ensures Fits(slots, capacity, gpus, node) <==> HasRoom(slots, capacity, gpus, node)
  {
  }

  /** The choice for a job, told by its fields. */
  lemma NodeForIs(j: Job, slots: Slots, capacity: Capacity)
    ensures var gpus := GpuRequirement(j.quota.text);
            var r := NodeFor(j, slots, capacity);
            if j.node.name != "" && HasRoom(slots, capacity, gpus, j.node) then r == Some(j.node)
            else match r
              case Some(n) => HasRoom(slots, capacity, gpus, n) && forall m | HasRoom(slots, capacity, gpus, m) :: Leq(n, m)
              case None => forall m :: !HasRoom(slots, capacity, gpus, m)
  {
    var gpus := GpuRequirement(j.quota.text);
    var names := Candidates(slots, capacity, gpus);
    forall n ensures n in names <==> HasRoom(slots, capacity, gpus, n) {
      FitsIff(slots, capacity, gpus, n);
    }
  }

  /** Where each job of a pass goes: to the node it asks for if that has room next
      to the jobs ahead of it, otherwise to the first name that has; and only when
      no node has room it stays in the queue. */
  lemma SchedulePlaces(queue: seq<Job>, k: nat, slots: Slots, capacity: Capacity)
    requires k < |queue|
    ensures var j := queue[k];
            var gpus := GpuRequirement(j.quota.text);
            var ahead := Schedule(queue, k, slots, capacity);
            var p := Schedule(queue, |queue|, slots, capacity);
            if j.node.name != "" && HasRoom(ahead.slots, capacity, gpus, j.node)
            then GoesTo(ahead, p, j, j.node)
            else if exists n :: HasRoom(ahead.slots, capacity, gpus, n)
            then exists n :: GoesTo(ahead, p, j, n) && HasRoom(ahead.slots, capacity, gpus, n)
                             && forall m | HasRoom(ahead.slots, capacity, gpus, m) :: Leq(n, m)
            else |ahead.remaining| < |p.remaining| && p.remaining[|ahead.remaining|] == j
  {
    var j := queue[k];
    var ahead := Schedule(queue, k, slots, capacity);
    var p := Schedule(queue, |queue|, slots, capacity);
    ScheduleAtTurn(queue, k, slots, capacity);
    NodeForIs(j, ahead.slots, capacity);
    PlacesAs(ahead, p, j, NodeFor(j, ahead.slots, capacity), capacity);
  }

  /** The job is the next one scheduled, on that node and otherwise as it was. */
  predicate GoesTo(ahead: Pass, p: Pass, j: Job, node: NodeId) {
    |ahead.scheduled| < |p.scheduled| && p.scheduled[|ahead.scheduled|] == Job(j.id, node, j.quota, Starting)
  }

  lemma PlacesAs(ahead: Pass, p: Pass, j: Job, choice: Option<NodeId>, capacity: Capacity)
    requires Got(ahead, j, choice, p)
    ensures match choice
            case Some(n) => GoesTo(ahead, p, j, n)
            case None => |ahead.remaining| < |p.remaining| && p.remaining[|ahead.remaining|] == j
  {
  }

  /** What a slot takes from its node: as many GPUs as its quota asks for, and
      nothing from any other. */
  lemma SlotTakes(slots: Slots, node: NodeId, j: Job)
    requires j.id !in slots
    ensures InUse(map[], node) == 0
    ensures InUse(slots[j.id := j], node)
         == InUse(slots, node) + if j.node == node then GpuRequirement(j.quota.text) else 0
  {
    InUseAdd(slots, node, j);
  }

  // ----- the class -----

  lemma PassNext(queue: seq<Job>, n: nat, slots: Slots, capacity: Capacity)
    requires n < |queue|
    ensures var p := Schedule(queue, n, slots, capacity);
            Schedule(queue, n + 1, slots, capacity) == Decide(p, queue[n], NodeFor(queue[n], p.slots, capacity))
  {
  }

  function Without(jobs: seq<Job>, n: nat, id: JobId): (kept: seq<Job>)
    requires n <= |jobs|
    ensures forall j :: j in kept <==> j in jobs[..n] && j.id != id
    ensures |kept| <= n
    ensures |kept| == n <==> forall i | 0 <= i < n :: jobs[i].id != id
    ensures DistinctIds(jobs) ==> DistinctIds(kept)
  {
    if n == 0 then [] else
      var kept := Without(jobs, n - 1, id);
      assert jobs[..n] == jobs[..n - 1] + [jobs[n - 1]];
      if jobs[n - 1].id == id then kept else kept + [jobs[n - 1]]
  }

  lemma WithoutTells(jobs: seq<Job>, id: JobId)
    ensures |Without(jobs, |jobs|, id)| != |jobs| <==> exists j | j in jobs :: j.id == id
  {
    assert forall i | 0 <= i < |jobs| :: jobs[i] in jobs;
  }

  lemma WithoutStaysWell(jobs: seq<Job>, id: JobId, slots: Slots)
    ensures WellQueued(jobs, slots) ==> WellQueued(Without(jobs, |jobs|, id), slots)
  {
    var kept := Without(jobs, |jobs|, id);
    assert jobs[..|jobs|] == jobs;
    assert forall i | 0 <= i < |kept| :: kept[i] in kept;
  }

  function Restored(jobs: seq<Job>, n: nat, slots: Slots): Slots
    requires n <= |jobs|
  {
    if n == 0 then slots else
      var r := Restored(jobs, n - 1, slots);
      if IsActive(jobs[n - 1].status) then r[jobs[n - 1].id := jobs[n - 1]] else r
  }

  class Scheduler {
    var jobQueue: seq<Job>
    var runningJobs: Slots
    var nodeGpuCapacity: Capacity

    constructor ()
      ensures jobQueue == [] && runningJobs == map[] && nodeGpuCapacity == map[]
    {
      jobQueue, runningJobs, nodeGpuCapacity := [], map[], map[];
    }

    method SetNodeGpuCapacity(node: NodeId, capacity: nat)
      modifies this`nodeGpuCapacity
      ensures nodeGpuCapacity == old(nodeGpuCapacity)[node := capacity]
    {
      nodeGpuCapacity := nodeGpuCapacity[node := capacity];
    }

    /** Queue a job unless it is queued or dispatched already. */
    method Enqueue(job: Job) returns (added: bool)
      modifies this`jobQueue
      ensures added <==> job.id !in runningJobs && forall j | j in old(jobQueue) :: j.id != job.id
      ensures jobQueue == if added then old(jobQueue) + [job] else old(jobQueue)
      ensures old(WellQueued(jobQueue, runningJobs)) ==> WellQueued(jobQueue, runningJobs)
    {
      if job.id in runningJobs {
        return false;
      }
      for i := 0 to |jobQueue|
        invariant forall k | 0 <= k < i :: jobQueue[k].id != job.id
      {
        if jobQueue[i].id == job.id {
          return false;
        }
      }
      jobQueue := jobQueue + [job];
      return true;
    }

    /** Remove every queued copy of a job. */
    method RemoveQueued(id: JobId) returns (removed: bool)
      modifies this`jobQueue
      ensures jobQueue == Without(old(jobQueue), |old(jobQueue)|, id)
      ensures removed <==> exists j | j in old(jobQueue) :: j.id == id
      ensures old(WellQueued(jobQueue, runningJobs)) ==> WellQueued(jobQueue, runningJobs)
    {
      WithoutTells(jobQueue, id);
      WithoutStaysWell(jobQueue, id, runningJobs);
      var kept := Retain(jobQueue, id);
      removed := |kept| != |jobQueue|;
      jobQueue := kept;
    }

    static method Retain(jobs: seq<Job>, id: JobId) returns (kept: seq<Job>)
      ensures kept == Without(jobs, |jobs|, id)
    {
      kept := [];
      for i := 0 to |jobs|
        invariant kept == Without(jobs, i, id)
      {
        if jobs[i].id != id {
          kept := kept + [jobs[i]];
        }
      }
    }

    /** `drop_job`, `remove_running` and the removal in `complete_job`. */
    method DropJob(id: JobId) returns (dropped: bool)
      modifies this`runningJobs
      ensures dropped <==> id in old(runningJobs)
      ensures runningJobs == old(runningJobs) - {id}
      ensures old(WellQueued(jobQueue, runningJobs)) ==> WellQueued(jobQueue, runningJobs)
    {
      dropped := id in runningJobs;
      runningJobs := runningJobs - {id};
    }

    /** Rebuild the slots after a restart from the rows read back. */
    method RestoreRunning(jobs: seq<Job>)
      modifies this`runningJobs
      ensures runningJobs == Restored(jobs, |jobs|, old(runningJobs))
    {
      for i := 0 to |jobs|
        invariant runningJobs == Restored(jobs, i, old(runningJobs))
      {
        if IsActive(jobs[i].status) {
          runningJobs := runningJobs[jobs[i].id := jobs[i]];
        }
      }
    }

    /** The sum the code folds over the slots, in whatever order. */
    method GpusInUse(node: NodeId) returns (used: nat)
      ensures used == InUse(runningJobs, node)
    {
      used := 0;
      var todo := runningJobs;
      while todo != map[]
        invariant used + InUse(todo, node) == InUse(runningJobs, node)
        decreases |todo|
      {
        var id :| id in todo;
        InUseSplit(todo, node, id);
        used := used + Weight(todo[id], node);
        todo := todo - {id};
      }
    }

    /** The candidates, gathered in whatever order the map is walked; the
        result does not depend on that order. */
    method FindNodeForJob(gpuRequired: nat, preferred: Option<NodeId>) returns (r: Option<NodeId>)
      ensures r == FindNode(runningJobs, nodeGpuCapacity, gpuRequired, preferred)
    {
      ghost var names := Candidates(runningJobs, nodeGpuCapacity, gpuRequired);
      var candidates: seq<NodeId> := [];
      var todo := nodeGpuCapacity.Keys;
      while todo != {}
        invariant todo <= nodeGpuCapacity.Keys
        invariant forall n :: n in candidates <==> n in names && n !in todo
      {
        var node :| node in todo;
        var used := GpusInUse(node);
        var cap := nodeGpuCapacity[node];
        if (if cap > used then cap - used else 0) >= gpuRequired {
          candidates := candidates + [node];
        }
        todo := todo - {node};
      }
      if preferred.Some? && preferred.value in candidates {
        r := preferred;
      } else if candidates == [] {
        assert names == {} by {
          assert forall n :: n in names ==> n in candidates;
        }
        r := None;
      } else {
        var least := First(candidates);
        assert candidates[0] in names;
        r := Some(least);
      }
      ChoiceUnique(runningJobs, nodeGpuCapacity, gpuRequired, preferred, r);
    }

    /** What sorting the names and taking the first one yields. */
    static method First(names: seq<NodeId>) returns (least: NodeId)
      requires names != []
      ensures least in names && forall n | n in names :: Leq(least, n)
    {
      least := names[0];
      LeqTotal(least, least);
      for i := 1 to |names|
        invariant least in names
        invariant forall k | 0 <= k < i :: Leq(least, names[k])
      {
        LeqTotal(least, names[i]);
        if !Leq(least, names[i]) {
          forall k | 0 <= k < i ensures Leq(names[i], names[k]) {
            LeqTransitive(names[i], least, names[k]);
          }
          LeqTotal(names[i], names[i]);
          least := names[i];
        }
      }
    }

    /** One turn of the loop: the job gets a slot, or stays in the queue. */
    method PlaceOne(job: Job, scheduled: seq<Job>, remaining: seq<Job>) returns (s: seq<Job>, r: seq<Job>)
      modifies this`runningJobs
      ensures Pass(s, r, runningJobs)
           == Decide(Pass(scheduled, remaining, old(runningJobs)), job, NodeFor(job, old(runningJobs), nodeGpuCapacity))
    {
      var choice := FindNodeForJob(Gpus(job), Preferred(job));
      match choice {
        case Some(node) =>
          var placed := Placed(job, node);
          runningJobs := runningJobs[placed.id := placed];
          return scheduled + [placed], remaining;
        case None =>
          return scheduled, remaining + [job];
      }
    }

    /** One uninterrupted pass. */
    method RunSchedule() returns (scheduled: seq<Job>)
      modifies this`jobQueue, this`runningJobs
      ensures Pass(scheduled, jobQueue, runningJobs)
           == Schedule(old(jobQueue), |old(jobQueue)|, old(runningJobs), nodeGpuCapacity)
    {
      var queue := jobQueue;
      jobQueue := [];
      scheduled := [];
      var remaining: seq<Job> := [];
      for i := 0 to |queue|
        invariant Pass(scheduled, remaining, runningJobs) == Schedule(queue, i, old(runningJobs), nodeGpuCapacity)
      {
        PassNext(queue, i, old(runningJobs), nodeGpuCapacity);
        scheduled, remaining := PlaceOne(queue[i], scheduled, remaining);
      }
      jobQueue := remaining;
    }
  }
}
