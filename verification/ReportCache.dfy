/**
 Duplicate suppression of metrics reports (crates/server/src/grpc.rs,
 report_metrics; the cache is built in crates/server/src/lib.rs): a bounded
 least-recently-used cache, against the full sequence of accepted reports. A
 lookup does not promote an entry and only absent keys are inserted, so entries
 leave in the order in which they came.
 */
module ReportCache {
  import opened Text

  const CAPACITY: nat := 100000

  datatype Report = Report(node: string, sequence: nat)
  datatype CacheKey = CacheKey(text: string)

  function KeyOf(r: Report): CacheKey {
    CacheKey(r.node + ":" + Decimal(r.sequence))
  }

  /** With no colon in the tail, the tail is as short as any. */
  lemma ColonIsLast(head: string, tail: string, otherHead: string, otherTail: string)
    requires head + ":" + tail == otherHead + ":" + otherTail && AllDigits(otherTail)
    ensures |head| <= |otherHead|
  {
    var s := head + ":" + tail;
    assert s[|head|] == ':';
    assert forall i | |otherHead| < i < |s| :: s[i] == otherTail[i - |otherHead| - 1];
  }

  /** The key tells reports apart, even when node ids contain colons. */
  lemma KeyInjective(a: Report, b: Report)
    ensures KeyOf(a) == KeyOf(b) <==> a == b
  {
    if KeyOf(a) == KeyOf(b) {
      var s, t := Decimal(a.sequence), Decimal(b.sequence);
      var k := a.node + ":" + s;
      ColonIsLast(a.node, s, b.node, t);
      ColonIsLast(b.node, t, a.node, s);
      assert a.node == k[..|a.node|] && b.node == k[..|b.node|];
      assert s == k[|a.node| + 1..] && t == k[|b.node| + 1..];
      DecimalInjective(a.sequence, b.sequence);
    }
  }

  /** Two acceptances of one report have `capacity` others between them. */
  predicate FarApart(accepted: seq<Report>, capacity: nat) {
    forall i, k | 0 <= i < k < |accepted| && accepted[i] == accepted[k] :: k - i - 1 >= capacity
  }

  /** The report is among the last `capacity` accepted ones. */
  predicate Remembered(accepted: seq<Report>, capacity: nat, r: Report) {
    exists i :: 0 <= i < |accepted| && |accepted| - capacity <= i && accepted[i] == r
  }

  /** The cache holds the keys of exactly the last accepted reports, in order. */
  predicate Mirrors(order: seq<CacheKey>, accepted: seq<Report>, capacity: nat) {
    && |order| == (if |accepted| < capacity then |accepted| else capacity)
    && forall i | 0 <= i < |order| :: order[i] == KeyOf(accepted[|accepted| - |order| + i])
  }

  lemma LookupIff(order: seq<CacheKey>, accepted: seq<Report>, capacity: nat, r: Report)
    requires Mirrors(order, accepted, capacity)
    ensures KeyOf(r) in order <==> Remembered(accepted, capacity, r)
  {
    var cut := |accepted| - |order|;
    if KeyOf(r) in order {
      var i :| 0 <= i < |order| && order[i] == KeyOf(r);
      KeyInjective(accepted[cut + i], r);
      assert accepted[cut + i] == r;
    }
    if Remembered(accepted, capacity, r) {
      var i :| 0 <= i < |accepted| && |accepted| - capacity <= i && accepted[i] == r;
      assert order[i - cut] == KeyOf(r);
    }
  }

  lemma AcceptKeepsApart(accepted: seq<Report>, capacity: nat, r: Report)
    requires FarApart(accepted, capacity) && !Remembered(accepted, capacity, r)
    ensures FarApart(accepted + [r], capacity)
  {
    var longer := accepted + [r];
    forall i, k | 0 <= i < k < |longer| && longer[i] == longer[k] ensures k - i - 1 >= capacity {
      assert k == |accepted| ==> accepted[i] == r;
    }
  }

  /** The keys after one more: the oldest one makes room. */
  function Pushed(order: seq<CacheKey>, capacity: nat, key: CacheKey): seq<CacheKey> {
    (if 0 < |order| == capacity then order[1..] else order) + [key]
  }

  lemma PushedMirrors(order: seq<CacheKey>, accepted: seq<Report>, capacity: nat, r: Report)
    requires capacity > 0 && Mirrors(order, accepted, capacity)
    ensures Mirrors(Pushed(order, capacity, KeyOf(r)), accepted + [r], capacity)
  {
  }

  class SeenReports {
    const capacity: nat
    var order: seq<CacheKey> // least recently used first
    ghost var accepted: seq<Report>

    ghost predicate Valid()
      reads this
    {
      capacity > 0 && Mirrors(order, accepted, capacity) && FarApart(accepted, capacity)
    }

    constructor ()
      ensures Valid() && accepted == [] && capacity == 100000
    {
      capacity := CAPACITY;
      order, accepted := [], [];
    }

    /** A report is processed exactly when it is not among the last `capacity`
        processed ones; and so it is never processed twice without at least
        `capacity` others in between (`Valid`). */
    method Accept(r: Report) returns (isNew: bool)
      requires Valid()
      modifies this
      ensures Valid()
      ensures isNew <==> !Remembered(old(accepted), capacity, r)
      ensures accepted == if isNew then old(accepted) + [r] else old(accepted)
    {
      var key := KeyOf(r);
      LookupIff(order, accepted, capacity, r);
      if key in order {
        return false;
      }
      AcceptKeepsApart(accepted, capacity, r);
      PushedMirrors(order, accepted, capacity, r);
      if |order| == capacity {
        order := order[1..];
      }
      order := order + [key];
      accepted := accepted + [r];
      isNew := true;
    }

    /** A whole stream of reports, with whatever repetitions. */
    method AcceptAll(reports: seq<Report>) returns (processed: seq<Report>)
      requires Valid()
      modifies this
      ensures Valid() && accepted == old(accepted) + processed
      ensures forall r | r in processed :: r in reports
      ensures forall r | r in reports :: r in accepted
    {
      processed := [];
      for n := 0 to |reports|
        invariant Valid() && accepted == old(accepted) + processed
        invariant forall r | r in processed :: r in reports
        invariant forall i | 0 <= i < n :: reports[i] in accepted
      {
        var isNew := Accept(reports[n]);
        if isNew {
          processed := processed + [reports[n]];
        }
      }
    }
  }
}
