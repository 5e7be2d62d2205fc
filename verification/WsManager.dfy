/**
 The connection-count mirror of the WebSocket manager
 (crates/server/src/ws_handler.rs): clients by id, and beside them a count per
 source address that is kept separately.
 */
module WsManager {
  import opened Text

  datatype ClientId = ClientId(text: string)
  datatype Ip = Ip(text: string)
  datatype Client = Client(filter: Option<string>, ip: Option<Ip>)

  type Clients = map<ClientId, Client>
  type Counts = map<Ip, nat>

  /** What trying to send to a client gives. */
  datatype SendResult = Sent | Full | Closed

  /** The registered clients of one address. */
  function LiveOf(clients: Clients, ip: Ip): set<ClientId> {
    set id | id in clients && clients[id].ip == Some(ip)
  }

  function CountOf(counts: Counts, ip: Ip): nat {
    if ip in counts then counts[ip] else 0
  }

  /** The client gets a message for `node`; None is for everybody. */
  predicate Wants(c: Client, node: Option<string>) {
    node.None? || c.filter.None? || c.filter == node
  }

  lemma RemoveOne(clients: Clients, id: ClientId, ip: Ip)
    ensures |LiveOf(clients - {id}, ip)|
         == |LiveOf(clients, ip)| - (if id in clients && clients[id].ip == Some(ip) then 1 else 0)
  {
    var live := LiveOf(clients, ip);
    assert LiveOf(clients - {id}, ip) == live - {id};
    assert id !in live ==> live - {id} == live;
  }

  lemma AddOne(clients: Clients, id: ClientId, c: Client, ip: Ip)
    ensures |LiveOf(clients[id := c], ip)|
         == |LiveOf(clients - {id}, ip)| + (if c.ip == Some(ip) then 1 else 0)
  {
    var rest := LiveOf(clients - {id}, ip);
    assert LiveOf(clients[id := c], ip) == if c.ip == Some(ip) then rest + {id} else rest;
  }

  function Bumped(counts: Counts, ip: Option<Ip>): Counts {
    match ip
    case Some(a) => counts[a := CountOf(counts, a) + 1]
    case None => counts
  }

  function Lowered(counts: Counts, ip: Option<Ip>): Counts {
    match ip
    case Some(a) =>
      if CountOf(counts, a) <= 1 then counts - {a} else counts[a := CountOf(counts, a) - 1]
    case None => counts
  }

  function IpOf(clients: Clients, id: ClientId): Option<Ip> {
    if id in clients then clients[id].ip else None
  }

  /** The clients a broadcast throws out. */
  function Dropped(clients: Clients, node: Option<string>, send: ClientId -> SendResult): set<ClientId> {
    set id | id in clients && Wants(clients[id], node) && send(id) != Sent
  }

  /** Every count is the live clients plus the leaked ones. */
  ghost predicate Balanced(clients: Clients, counts: Counts, leaked: Counts) {
    && (forall ip :: CountOf(counts, ip) == |LiveOf(clients, ip)| + CountOf(leaked, ip))
    && (forall ip | ip in counts :: counts[ip] > 0)
  }

  /** The mirror is exact. */
  ghost predicate Exact(clients: Clients, counts: Counts) {
    forall ip :: CountOf(counts, ip) == |LiveOf(clients, ip)|
  }

  /** A client goes with its count taken down: the count was at least 1. */
  lemma RemoveCounted(clients: Clients, counts: Counts, leaked: Counts, id: ClientId)
    requires Balanced(clients, counts, leaked)
    ensures Balanced(clients - {id}, Lowered(counts, IpOf(clients, id)), leaked)
    ensures IpOf(clients, id).Some? ==> CountOf(counts, IpOf(clients, id).value) >= 1
  {
    forall ip ensures |LiveOf(clients - {id}, ip)| == |LiveOf(clients, ip)| - (if IpOf(clients, id) == Some(ip) then 1 else 0) {
      RemoveOne(clients, id, ip);
    }
    assert IpOf(clients, id).Some? ==> id in LiveOf(clients, IpOf(clients, id).value);
  }

  /** A client goes and its count stays. */
  lemma RemoveLeaks(clients: Clients, counts: Counts, leaked: Counts, id: ClientId)
    requires Balanced(clients, counts, leaked)
    ensures Balanced(clients - {id}, counts, Bumped(leaked, IpOf(clients, id)))
  {
    forall ip ensures |LiveOf(clients - {id}, ip)| == |LiveOf(clients, ip)| - (if IpOf(clients, id) == Some(ip) then 1 else 0) {
      RemoveOne(clients, id, ip);
    }
  }

  lemma AddCounted(clients: Clients, counts: Counts, leaked: Counts, id: ClientId, c: Client)
    requires Balanced(clients, counts, leaked) && id !in clients
    ensures Balanced(clients[id := c], Bumped(counts, c.ip), leaked)
  {
    assert clients - {id} == clients;
    forall ip ensures |LiveOf(clients[id := c], ip)| == |LiveOf(clients, ip)| + (if c.ip == Some(ip) then 1 else 0) {
      AddOne(clients, id, c, ip);
    }
  }

  lemma ExactIff(clients: Clients, counts: Counts, leaked: Counts)
    requires Balanced(clients, counts, leaked)
    ensures Exact(clients, counts) <==> forall ip :: CountOf(leaked, ip) == 0
  {
    forall ip ensures CountOf(counts, ip) == |LiveOf(clients, ip)| <==> CountOf(leaked, ip) == 0 {
    }
  }

  class Manager {
    var clients: Clients
    var counts: Counts
    ghost var leaked: Counts // clients that went without being counted down

    ghost predicate Valid()
      reads this
    {
      Balanced(clients, counts, leaked)
    }

    constructor ()
      ensures Valid() && clients == map[] && counts == map[] && leaked == map[]
    {
      clients, counts, leaked := map[], map[], map[];
    }

    /** Registering under an id in use replaces that client and leaks its count. */
    method Register(id: ClientId, ip: Option<Ip>)
      requires Valid()
      modifies this
      ensures Valid()
      ensures clients == old(clients)[id := Client(None, ip)]
      ensures counts == Bumped(old(counts), ip)
      ensures leaked == Bumped(old(leaked), IpOf(old(clients), id))
    {
      RemoveLeaks(clients, counts, leaked, id);
      AddCounted(clients - {id}, counts, Bumped(leaked, IpOf(clients, id)), id, Client(None, ip));
      assert (clients - {id})[id := Client(None, ip)] == clients[id := Client(None, ip)];
      leaked := Bumped(leaked, IpOf(clients, id));
      clients := clients[id := Client(None, ip)];
      if ip.Some? {
        counts := counts[ip.value := CountOf(counts, ip.value) + 1];
      }
    }

    /** The count taken down is never zero, and no count is left at zero. */
    method Unregister(id: ClientId)
      requires Valid()
      modifies this`clients, this`counts
      ensures Valid()
      ensures clients == old(clients) - {id}
      ensures counts == Lowered(old(counts), IpOf(old(clients), id))
    {
      RemoveCounted(clients, counts, leaked, id);
      if id in clients {
        var ip := clients[id].ip;
        clients := clients - {id};
        if ip.Some? && ip.value in counts {
          var c: nat := counts[ip.value] - 1;
          counts := counts[ip.value := c];
          if c == 0 {
            counts := counts - {ip.value};
          }
        }
      }
    }

    /** The per-address count is never below the live clients, and is exact
        as long as nothing leaked. */
    method IpConnCount(ip: Ip) returns (n: nat)
      requires Valid()
      ensures n == CountOf(counts, ip) && n >= |LiveOf(clients, ip)|
      ensures n == |LiveOf(clients, ip)| <==> CountOf(leaked, ip) == 0
    {
      n := if ip in counts then counts[ip] else 0;
      assert n == CountOf(counts, ip);
    }

    /** A client chooses the node it wants to hear about; an empty name means
        every node. */
    method Subscribe(id: ClientId, node: Option<string>)
      requires Valid()
      modifies this`clients
      ensures Valid()
      ensures clients.Keys == old(clients).Keys
      ensures forall k | k in clients ::
                clients[k] == if k == id then Client(if node == Some("") then None else node, old(clients)[k].ip)
                              else old(clients)[k]
    {
      if id in clients {
        var client := clients[id].(filter := if node == Some("") then None else node);
        forall ip ensures LiveOf(clients[id := client], ip) == LiveOf(clients, ip) {
        }
        clients := clients[id := client];
      }
    }

    method DropUncounted(id: ClientId)
      requires Valid()
      modifies this`clients, this`leaked
      ensures Valid() && clients == old(clients) - {id}
      ensures leaked == Bumped(old(leaked), IpOf(old(clients), id))
    {
      RemoveLeaks(clients, counts, leaked, id);
      leaked := Bumped(leaked, IpOf(clients, id));
      clients := clients - {id};
    }

    /** A broadcast throws out exactly the interested clients it cannot send to.
        It takes no count down: each of them leaks one. */
    method Broadcast(node: Option<string>, send: ClientId -> SendResult)
      requires Valid()
      modifies this`clients, this`leaked
      ensures Valid()
      ensures clients == old(clients) - Dropped(old(clients), node, send)
      ensures forall id | id in old(clients) ::
                var filter := old(clients)[id].filter;
                id !in clients <==>
                  (node.None? || filter.None? || filter.value == node.value) && (send(id).Full? || send(id).Closed?)
      ensures forall ip :: CountOf(leaked, ip) == CountOf(old(leaked), ip)
                           + |LiveOf(old(clients), ip) * Dropped(old(clients), node, send)|
    {
      var dead: seq<ClientId> := [];
      var todo := clients.Keys;
      while todo != {}
        invariant todo <= clients.Keys
        invariant forall id :: id in dead <==> id in Dropped(clients, node, send) && id !in todo
        decreases todo
      {
        var id :| id in todo;
        todo := todo - {id};
        if Wants(clients[id], node) && send(id) != Sent {
          dead := dead + [id];
        }
      }
      for n := 0 to |dead|
        invariant Valid()
        invariant clients == old(clients) - set id | id in dead[..n]
      {
        assert dead[..n + 1] == dead[..n] + [dead[n]];
        DropUncounted(dead[n]);
      }
      assert dead[..|dead|] == dead;
      assert (set id | id in dead) == Dropped(old(clients), node, send);
      LeakedBy(old(clients), counts, old(leaked), Dropped(old(clients), node, send), leaked);
    }
  }

  lemma LeakedBy(clients: Clients, counts: Counts, leaked: Counts, dropped: set<ClientId>, after: Counts)
    requires Balanced(clients, counts, leaked) && Balanced(clients - dropped, counts, after)
    ensures forall ip :: CountOf(after, ip) == CountOf(leaked, ip) + |LiveOf(clients, ip) * dropped|
  {
    forall ip ensures CountOf(after, ip) == CountOf(leaked, ip) + |LiveOf(clients, ip) * dropped| {
      LiveSplit(clients, dropped, ip);
      assert CountOf(counts, ip) == |LiveOf(clients, ip)| + CountOf(leaked, ip);
      assert CountOf(counts, ip) == |LiveOf(clients - dropped, ip)| + CountOf(after, ip);
    }
  }

  lemma LiveSplit(clients: Clients, dropped: set<ClientId>, ip: Ip)
    ensures |LiveOf(clients, ip)| == |LiveOf(clients - dropped, ip)| + |LiveOf(clients, ip) * dropped|
  {
    var live := LiveOf(clients, ip);
    assert LiveOf(clients - dropped, ip) == live - dropped;
    assert live == (live - dropped) + (live * dropped);
  }

  // ----- whole runs -----

  datatype State = State(clients: Clients, counts: Counts)

  datatype Op =
    | Join(id: ClientId, ip: Option<Ip>)
    | Leave(id: ClientId)
    | Follow(id: ClientId, filter: Option<string>)
    | Send(node: Option<string>, send: ClientId -> SendResult)

  /** What the manager's methods do to clients and counts. */
  function Step(s: State, op: Op): State {
    match op
    case Join(id, ip) => State(s.clients[id := Client(None, ip)], Bumped(s.counts, ip))
    case Leave(id) => State(s.clients - {id}, Lowered(s.counts, IpOf(s.clients, id)))
    case Follow(id, filter) =>
      if id in s.clients then s.(clients := s.clients[id := s.clients[id].(filter := filter)]) else s
    case Send(node, send) => s.(clients := s.clients - Dropped(s.clients, node, send))
  }

  ghost predicate IsRun(states: seq<State>, ops: seq<Op>) {
    && |states| == |ops| + 1 && states[0] == State(map[], map[])
    && forall i {:trigger ops[i]} | 0 <= i < |ops| :: states[i + 1] == Step(states[i], ops[i])
  }

  /** The clients of an address that a step removes without counting them down:
      one whose id is taken over, and those a broadcast cannot reach. */
  function LeaksTo(s: State, op: Op, ip: Ip): nat {
    match op
    case Join(id, _) => if IpOf(s.clients, id) == Some(ip) then 1 else 0
    case Send(node, send) => |LiveOf(s.clients, ip) * Dropped(s.clients, node, send)|
    case _ => 0
  }

  function Leaked(states: seq<State>, ops: seq<Op>, n: nat, ip: Ip): nat
    requires n <= |ops| && |states| == |ops| + 1
  {
    if n == 0 then 0 else Leaked(states, ops, n - 1, ip) + LeaksTo(states[n - 1], ops[n - 1], ip)
  }

  /** One step: the count moves with the live clients, but for what leaks. */
  lemma StepCounts(s: State, op: Op, ip: Ip)
    requires CountOf(s.counts, ip) >= |LiveOf(s.clients, ip)|
    ensures var t := Step(s, op);
            CountOf(t.counts, ip) + |LiveOf(s.clients, ip)|
            == CountOf(s.counts, ip) + |LiveOf(t.clients, ip)| + LeaksTo(s, op, ip)
  {
    match op
    case Join(id, a) =>
      RemoveOne(s.clients, id, ip);
      AddOne(s.clients, id, Client(None, a), ip);
    case Leave(id) =>
      RemoveOne(s.clients, id, ip);
      assert IpOf(s.clients, id) == Some(ip) ==> id in LiveOf(s.clients, ip);
    case Follow(id, filter) =>
      assert LiveOf(Step(s, op).clients, ip) == LiveOf(s.clients, ip);
    case Send(node, send) =>
      LiveSplit(s.clients, Dropped(s.clients, node, send), ip);
  }

  lemma RunStepCounts(states: seq<State>, ops: seq<Op>, n: nat, ip: Ip)
    requires IsRun(states, ops) && 0 < n <= |ops|
    requires CountOf(states[n - 1].counts, ip) == |LiveOf(states[n - 1].clients, ip)| + Leaked(states, ops, n - 1, ip)
    ensures CountOf(states[n].counts, ip) == |LiveOf(states[n].clients, ip)| + Leaked(states, ops, n, ip)
  {
    StepCounts(states[n - 1], ops[n - 1], ip);
  }

  /** In every run each address's count is its live clients plus those that have
      leaked so far. */
  lemma {:induction false} RunCounts(states: seq<State>, ops: seq<Op>, n: nat, ip: Ip)
    requires IsRun(states, ops) && n <= |ops|
    ensures CountOf(states[n].counts, ip) == |LiveOf(states[n].clients, ip)| + Leaked(states, ops, n, ip)
    decreases n
  {
    if n > 0 {
      RunCounts(states, ops, n - 1, ip);
      RunStepCounts(states, ops, n, ip);
    } else {
      assert LiveOf(states[0].clients, ip) == {};
    }
  }

  lemma {:induction false} NothingLeakedIff(states: seq<State>, ops: seq<Op>, n: nat, ip: Ip)
    requires |states| == |ops| + 1 && n <= |ops|
    ensures Leaked(states, ops, n, ip) == 0 <==> forall i | 0 <= i < n :: LeaksTo(states[i], ops[i], ip) == 0
    decreases n
  {
    if n > 0 {
      NothingLeakedIff(states, ops, n - 1, ip);
    }
  }

  /** So it is never below the live clients, and exact just as long as every id
      was fresh and no broadcast dropped a client of that address. */
  lemma RunExactIff(states: seq<State>, ops: seq<Op>, n: nat, ip: Ip)
    requires IsRun(states, ops) && n <= |ops|
    ensures CountOf(states[n].counts, ip) >= |LiveOf(states[n].clients, ip)|
    ensures CountOf(states[n].counts, ip) == |LiveOf(states[n].clients, ip)|
       <==> forall i | 0 <= i < n :: LeaksTo(states[i], ops[i], ip) == 0
  {
    RunCounts(states, ops, n, ip);
    NothingLeakedIff(states, ops, n, ip);
  }

  /** A client that is dropped by a broadcast still counts against its address. */
  method LeakedCountExample() returns (m: Manager, n: nat)
    ensures fresh(m) && m.Valid() && m.clients == map[] && n == 1
  {
    m := new Manager();
    var id, ip := ClientId("c"), Ip("a");
    m.Register(id, Some(ip));
    m.Broadcast(None, (c: ClientId) => Closed);
    assert m.clients == map[];
    n := m.IpConnCount(ip);
  }
}
