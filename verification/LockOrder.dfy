/**
 Why tasks that take exclusive locks in the order of their ranks never
 deadlock, whatever their number and interleaving.
 */
module LockOrder {
  datatype Instr = Acquire(lock: nat) | Release(lock: nat)

  type Program = seq<Instr>

  /** The locks held after the first `n` instructions, starting from `base`. */
  function Held(base: set<nat>, p: Program, n: nat): set<nat>
    requires n <= |p|
  {
    if n == 0 then base
    else match p[n - 1]
      case Acquire(l) => Held(base, p, n - 1) + {l}
      case Release(l) => Held(base, p, n - 1) - {l}
  }

  /** An instruction respects the order, given what is held. */
  predicate Respects(held: set<nat>, i: Instr) {
    match i
    case Acquire(l) => forall h | h in held :: h < l
    case Release(l) => l in held
  }

  predicate RespectsAt(base: set<nat>, p: Program, n: nat)
    requires n < |p|
  {
    Respects(Held(base, p, n), p[n])
  }

  /** The program takes locks in order and gives back what it took. */
  predicate Orderly(base: set<nat>, p: Program) {
    && (forall n: nat | n < |p| :: RespectsAt(base, p, n))
    && Held(base, p, |p|) == base
  }

  lemma {:induction false} HeldAlong(base: set<nat>, p: Program, q: Program, n: nat)
    requires n <= |p| + |q|
    ensures Held(base, p + q, n) == if n <= |p| then Held(base, p, n) else Held(Held(base, p, |p|), q, n - |p|)
  {
    if n > 0 {
      HeldAlong(base, p, q, n - 1);
    }
  }

  lemma OrderlyThen(base: set<nat>, p: Program, q: Program)
    requires Orderly(base, p) && Orderly(base, q)
    ensures Orderly(base, p + q)
  {
    var whole := p + q;
    forall n: nat | n < |whole| ensures RespectsAt(base, whole, n) {
      HeldAlong(base, p, q, n);
      if n >= |p| {
        assert RespectsAt(base, q, n - |p|);
      } else {
        assert RespectsAt(base, p, n);
      }
    }
    HeldAlong(base, p, q, |p| + |q|);
  }

  /** A critical section around an orderly program. */
  lemma OrderlyInside(base: set<nat>, l: nat, p: Program)
    requires (forall h | h in base :: h < l) && Orderly(base + {l}, p)
    ensures Orderly(base, [Acquire(l)] + p + [Release(l)])
  {
    var whole := [Acquire(l)] + p + [Release(l)];
    forall n: nat | n < |whole| ensures RespectsAt(base, whole, n) {
      InsideHeld(base, l, p, n);
      if 0 < n <= |p| {
        assert RespectsAt(base + {l}, p, n - 1);
      }
    }
    InsideHeld(base, l, p, |p| + 1);
    assert Held(base, whole, |whole|) == Held(base, whole, |p| + 1) - {l};
  }

  lemma {:induction false} InsideHeld(base: set<nat>, l: nat, p: Program, n: nat)
    requires n <= |p| + 1
    ensures Held(base, [Acquire(l)] + p + [Release(l)], n) == if n == 0 then base else Held(base + {l}, p, n - 1)
  {
    if n > 0 {
      InsideHeld(base, l, p, n - 1);
    }
  }

  lemma OrderlyEmpty(base: set<nat>)
    ensures Orderly(base, [])
  {
  }

  // ----- tasks running side by side -----

  /** How far each task is, and who owns each lock. */
  datatype State = State(pcs: seq<nat>, owner: map<nat, nat>)

  predicate Unfinished(programs: seq<Program>, s: State, t: nat)
    requires |s.pcs| == |programs|
  {
    t < |programs| && s.pcs[t] < |programs[t]|
  }

  predicate CanStep(programs: seq<Program>, s: State, t: nat)
    requires |s.pcs| == |programs|
  {
    && Unfinished(programs, s, t)
    && (programs[t][s.pcs[t]].Acquire? ==> programs[t][s.pcs[t]].lock !in s.owner)
  }

  function Step(programs: seq<Program>, s: State, t: nat): State
    requires |s.pcs| == |programs| && CanStep(programs, s, t)
  {
    State(s.pcs[t := s.pcs[t] + 1],
          match programs[t][s.pcs[t]]
          case Acquire(l) => s.owner[l := t]
          case Release(l) => s.owner - {l})
  }

  ghost predicate IsRun(programs: seq<Program>, states: seq<State>, steps: seq<nat>) {
    && |states| == |steps| + 1
    && states[0] == State(seq(|programs|, i => 0), map[])
    && (forall i | 0 <= i < |states| :: |states[i].pcs| == |programs|)
    && forall i {:trigger steps[i]} | 0 <= i < |steps| ::
         CanStep(programs, states[i], steps[i]) && states[i + 1] == Step(programs, states[i], steps[i])
  }

  predicate AllOrderly(programs: seq<Program>) {
    forall t | 0 <= t < |programs| :: Orderly({}, programs[t])
  }

  function HeldBy(programs: seq<Program>, s: State, t: nat): set<nat>
    requires t < |programs| == |s.pcs| && s.pcs[t] <= |programs[t]|
  {
    Held({}, programs[t], s.pcs[t])
  }

  predicate InRange(programs: seq<Program>, s: State) {
    |s.pcs| == |programs| && forall t | 0 <= t < |programs| :: s.pcs[t] <= |programs[t]|
  }

  predicate Owns(programs: seq<Program>, s: State, t: nat, l: nat)
    requires InRange(programs, s)
  {
    t < |programs| && l in HeldBy(programs, s, t)
  }

  /** A lock's owner is exactly the task whose program holds it. */
  ghost predicate Inv(programs: seq<Program>, s: State) {
    && InRange(programs, s)
    && (forall l | l in s.owner :: Owns(programs, s, s.owner[l], l))
    && (forall t: nat, l: nat | Owns(programs, s, t, l) :: l in s.owner && s.owner[l] == t)
  }

  lemma StepOwns(programs: seq<Program>, s: State, t: nat, x: nat, l: nat)
    requires InRange(programs, s) && CanStep(programs, s, t)
    ensures InRange(programs, Step(programs, s, t))
    ensures Owns(programs, Step(programs, s, t), x, l) <==>
              if x == t && programs[t][s.pcs[t]].lock == l then programs[t][s.pcs[t]].Acquire?
              else Owns(programs, s, x, l)
  {
  }

  lemma StepKeepsInv(programs: seq<Program>, s: State, t: nat)
    requires AllOrderly(programs) && Inv(programs, s) && CanStep(programs, s, t)
    ensures Inv(programs, Step(programs, s, t))
  {
    var u := Step(programs, s, t);
    var i := programs[t][s.pcs[t]];
    StepOwns(programs, s, t, t, i.lock);
    assert i.Release? ==> Owns(programs, s, t, i.lock) by {
      assert Orderly({}, programs[t]);
      assert RespectsAt({}, programs[t], s.pcs[t]);
    }
    forall l | l in u.owner ensures Owns(programs, u, u.owner[l], l) {
      if l in s.owner {
        assert Owns(programs, s, s.owner[l], l);
      }
      StepOwns(programs, s, t, u.owner[l], l);
    }
    forall x: nat, l: nat | Owns(programs, u, x, l) ensures l in u.owner && u.owner[l] == x {
      StepOwns(programs, s, t, x, l);
    }
  }

  lemma {:induction false} RunKeepsInv(programs: seq<Program>, states: seq<State>, steps: seq<nat>, n: nat)
    requires AllOrderly(programs) && IsRun(programs, states, steps) && n <= |steps|
    ensures Inv(programs, states[n])
  {
    if n > 0 {
      RunKeepsInv(programs, states, steps, n - 1);
      StepKeepsInv(programs, states[n - 1], steps[n - 1]);
    }
  }

  /** No program uses a lock of this rank or above. */
  predicate Below(programs: seq<Program>, rank: nat) {
    forall t, n | 0 <= t < |programs| && 0 <= n < |programs[t]| :: programs[t][n].lock < rank
  }

  /** From a blocked task to the owner of its lock, who waits for a higher one,
      and so on: the chain ends at a task that can step. */
  lemma {:induction false} Chase(programs: seq<Program>, s: State, t: nat, rank: nat) returns (u: nat)
    requires AllOrderly(programs) && Inv(programs, s) && Below(programs, rank) && Unfinished(programs, s, t)
    ensures CanStep(programs, s, u)
    decreases rank - programs[t][s.pcs[t]].lock
  {
    u := t;
    if !CanStep(programs, s, t) {
      var l := programs[t][s.pcs[t]].lock;
      var o := s.owner[l];
      assert Owns(programs, s, o, l);
      OwnerWaitsHigher(programs, s, o, l);
      if programs[o][s.pcs[o]].Release? {
        u := o;
      } else {
        u := Chase(programs, s, o, rank);
      }
    }
  }

  /** Whoever owns a lock is not finished, and asks only for higher ones. */
  lemma OwnerWaitsHigher(programs: seq<Program>, s: State, o: nat, l: nat)
    requires AllOrderly(programs) && InRange(programs, s) && Owns(programs, s, o, l)
    ensures Unfinished(programs, s, o)
    ensures programs[o][s.pcs[o]].Acquire? ==> l < programs[o][s.pcs[o]].lock
  {
    assert Orderly({}, programs[o]);
    if s.pcs[o] < |programs[o]| {
      assert RespectsAt({}, programs[o], s.pcs[o]);
    }
  }

  /** In every reachable state with an unfinished task, some task can step. */
  lemma NeverStuck(programs: seq<Program>, states: seq<State>, steps: seq<nat>, n: nat, t: nat, rank: nat) returns (u: nat)
    requires AllOrderly(programs) && Below(programs, rank) && IsRun(programs, states, steps) && n <= |steps|
    requires Unfinished(programs, states[n], t)
    ensures CanStep(programs, states[n], u)
  {
    RunKeepsInv(programs, states, steps, n);
    u := Chase(programs, states[n], t, rank);
  }

  // ----- and all of them finish -----

  function Sum(s: seq<nat>, n: nat): nat
    requires n <= |s|
  {
    if n == 0 then 0 else Sum(s, n - 1) + s[n - 1]
  }

  lemma {:induction false} SumBump(s: seq<nat>, t: nat, n: nat)
    requires t < |s| && n <= |s|
    ensures Sum(s[t := s[t] + 1], n) == Sum(s, n) + if t < n then 1 else 0
  {
    if n > 0 {
      SumBump(s, t, n - 1);
    }
  }

  lemma {:induction false} SumZero(s: seq<nat>, n: nat)
    requires n <= |s| && forall i | 0 <= i < |s| :: s[i] == 0
    ensures Sum(s, n) == 0
  {
    if n > 0 {
      SumZero(s, n - 1);
    }
  }

  lemma {:induction false} SumLeq(s: seq<nat>, r: seq<nat>, n: nat)
    requires n <= |s| == |r| && forall i | 0 <= i < |s| :: s[i] <= r[i]
    ensures Sum(s, n) <= Sum(r, n)
  {
    if n > 0 {
      SumLeq(s, r, n - 1);
    }
  }

  function Lengths(programs: seq<Program>): (r: seq<nat>)
    ensures |r| == |programs| && forall i | 0 <= i < |r| :: r[i] == |programs[i]|
  {
    seq(|programs|, i requires 0 <= i < |programs| => |programs[i]|)
  }

  lemma {:induction false} StepsCounted(programs: seq<Program>, states: seq<State>, steps: seq<nat>, n: nat)
    requires IsRun(programs, states, steps) && n <= |steps|
    ensures Sum(states[n].pcs, |programs|) == n
  {
    if n == 0 {
      SumZero(states[0].pcs, |programs|);
    } else {
      StepsCounted(programs, states, steps, n - 1);
      assert CanStep(programs, states[n - 1], steps[n - 1]);
      SumBump(states[n - 1].pcs, steps[n - 1], |programs|);
    }
  }

  /** No run is longer than all programs together; and a run that cannot be
      extended has finished every task. */
  lemma EveryTaskFinishes(programs: seq<Program>, states: seq<State>, steps: seq<nat>, rank: nat)
    requires AllOrderly(programs) && Below(programs, rank) && IsRun(programs, states, steps)
    ensures |steps| <= Sum(Lengths(programs), |programs|)
    ensures (forall u: nat :: !CanStep(programs, states[|steps|], u)) ==>
              forall t: nat :: !Unfinished(programs, states[|steps|], t)
  {
    var last := states[|steps|];
    RunKeepsInv(programs, states, steps, |steps|);
    StepsCounted(programs, states, steps, |steps|);
    SumLeq(last.pcs, Lengths(programs), |programs|);
    if t: nat :| Unfinished(programs, last, t) {
      var u := Chase(programs, last, t, rank);
    }
  }
}
