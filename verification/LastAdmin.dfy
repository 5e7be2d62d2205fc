/**
 The last-admin guard (crates/storage/src/user_queries.rs): guarded updates and
 deletes of users, as transactions at READ COMMITTED. `SELECT ... FOR UPDATE`
 fixes its candidate rows when it starts, then locks them one at a time, waiting
 for other holders and testing each row again once it is locked. Locks are held
 to the end of the transaction; changes are visible when it commits.
 */
module LastAdmin {
  import opened Text

  datatype UserId = UserId(text: string)
  datatype Role = Admin | Role(name: string)
  datatype User = User(role: Role, enabled: bool)

  type Users = map<UserId, User>

  /** Refresh tokens, each with its user. */
  type Tokens = map<nat, UserId>

  datatype Change =
    | Update(role: Option<Role>, enabled: Option<bool>)
    | Delete

  predicate EnabledAdmin(u: User) {
    u.role.Admin? && u.enabled
  }

  function Admins(users: Users): set<UserId> {
    set id | id in users && EnabledAdmin(users[id])
  }

  function Updated(u: User, change: Change): User
    requires change.Update?
  {
    User(if change.role.Some? then change.role.value else u.role,
         if change.enabled.Some? then change.enabled.value else u.enabled)
  }

  /** The change takes an enabled admin away. */
  predicate Removes(u: User, change: Change) {
    EnabledAdmin(u) && (change.Delete? || !EnabledAdmin(Updated(u, change)))
  }

  function Applied(users: Users, id: UserId, change: Change): Users
    requires id in users
  {
    if change.Delete? then users - {id} else users[id := Updated(users[id], change)]
  }

  // ----- one transaction after the other -----

  class UserStore {
    var users: Users
    var tokens: Tokens

    constructor (users: Users, tokens: Tokens)
      ensures this.users == users && this.tokens == tokens
    {
      this.users, this.tokens := users, tokens;
    }

    method LockAdminsAndReadTarget(id: UserId) returns (count: nat, target: Option<User>)
      ensures count == |Admins(users)|
      ensures target == if id in users then Some(users[id]) else None
    {
      count := |Admins(users)|;
      target := if id in users then Some(users[id]) else None;
    }

    /** Refused exactly when the user does not exist, or the change would take
        the only enabled admin away; otherwise applied, to that user alone. */
    method UpdateUserGuarded(id: UserId, role: Option<Role>, enabled: Option<bool>) returns (ok: bool)
      modifies this`users
      ensures ok <==> id in old(users)
                      && (Removes(old(users)[id], Update(role, enabled)) ==> Admins(old(users)) != {id})
      ensures users == if ok then Applied(old(users), id, Update(role, enabled)) else old(users)
      ensures old(Admins(users)) != {} ==> Admins(users) != {}
    {
      var count, target := LockAdminsAndReadTarget(id);
      if target.None? {
        return false;
      }
      var newRole := if role.Some? then role.value else target.value.role;
      var newEnabled := if enabled.Some? then enabled.value else target.value.enabled;
      LoneAdmin(users, id);
      if EnabledAdmin(target.value) && (newRole != Admin || !newEnabled) && count <= 1 {
        return false;
      }
      AdminsLeft(users, id, Update(role, enabled));
      users := users[id := User(newRole, newEnabled)];
      ok := true;
    }

    /** The user's tokens go with the user, so every token keeps its user. */
    method DeleteUserGuarded(id: UserId) returns (ok: bool)
      requires tokens.Values <= users.Keys
      modifies this
      ensures ok <==> id in old(users) && Admins(old(users)) != {id}
      ensures users == if ok then old(users) - {id} else old(users)
      ensures tokens == if ok then (map t | t in old(tokens) && old(tokens)[t] != id :: old(tokens)[t]) else old(tokens)
      ensures tokens.Values <= users.Keys
      ensures old(Admins(users)) != {} ==> Admins(users) != {}
    {
      var count, target := LockAdminsAndReadTarget(id);
      if target.None? {
        return false;
      }
      LoneAdmin(users, id);
      if EnabledAdmin(target.value) && count <= 1 {
        return false;
      }
      AdminsLeft(users, id, Delete);
      tokens := map t | t in tokens && tokens[t] != id :: tokens[t];
      users := users - {id};
      ok := true;
    }
  }

  lemma LoneAdmin(users: Users, id: UserId)
    ensures id in Admins(users) ==> (|Admins(users)| <= 1 <==> Admins(users) == {id})
  {
    if id in Admins(users) && Admins(users) != {id} {
      var other :| other in Admins(users) && other != id;
      TwoMembers(Admins(users), id, other);
    }
  }

  lemma TwoMembers(s: set<UserId>, a: UserId, b: UserId)
    requires a in s && b in s && a != b
    ensures |s| >= 2
  {
    assert s == {a, b} + (s - {a, b});
  }

  /** If some admin is left over, one survives the change. */
  lemma AdminsLeft(users: Users, id: UserId, change: Change)
    requires id in users && (Removes(users[id], change) ==> Admins(users) != {id})
    ensures Admins(users) != {} ==> Admins(Applied(users, id, change)) != {}
  {
    if Admins(users) != {} {
      var keeper :| keeper in Admins(users) && (Removes(users[id], change) ==> keeper != id);
      assert keeper in Admins(Applied(users, id, change));
    }
  }

  // ----- interleaved transactions -----

  datatype Phase =
    | Locking(todo: set<UserId>)           // inside the first SELECT ... FOR UPDATE
    | Read(target: User)                   // the target row is locked and read
    | Cleared(target: User, doomed: set<nat>) // its tokens are deleted, not yet committed

  datatype Tx = Tx(id: UserId, change: Change, counted: set<UserId>, phase: Phase)

  datatype State = State(users: Users, tokens: Tokens, locks: map<UserId, nat>, txs: map<nat, Tx>)

  datatype Event =
    | Begin(tx: nat, id: UserId, change: Change)
    | LockNext(tx: nat, row: UserId)
    | ReadTarget(tx: nat)
    | DeleteTokens(tx: nat)
    | Commit(tx: nat)
    | Abort(tx: nat)                       // rollback, deadlock victim, lost connection
    | CreateUser(id: UserId, user: User)
    | CreateToken(token: nat, id: UserId)
    | DropToken(token: nat)

  /** A row is free for the transaction: it can be locked without waiting. */
  predicate Free(s: State, row: UserId, tx: nat) {
    row in s.locks ==> s.locks[row] == tx
  }

  predicate Refused(t: Tx)
    requires !t.phase.Locking?
  {
    Removes(t.phase.target, t.change) && |t.counted| <= 1
  }

  predicate Enabled(s: State, e: Event) {
    match e
    case Begin(tx, _, _) => tx !in s.txs
    case LockNext(tx, row) =>
      tx in s.txs && s.txs[tx].phase.Locking? && row in s.txs[tx].phase.todo && Free(s, row, tx)
    case ReadTarget(tx) =>
      tx in s.txs && s.txs[tx].phase.Locking? && s.txs[tx].phase.todo == {} && Free(s, s.txs[tx].id, tx)
    case DeleteTokens(tx) =>
      tx in s.txs && s.txs[tx].phase.Read? && s.txs[tx].change.Delete? && !Refused(s.txs[tx])
    case Commit(tx) =>
      && tx in s.txs && (if s.txs[tx].change.Delete? then s.txs[tx].phase.Cleared? else s.txs[tx].phase.Read?)
      && !Refused(s.txs[tx])
    case Abort(tx) => tx in s.txs
    case CreateUser(id, _) => id !in s.users
    // the foreign key makes the insert wait for the lock on the user's row
    case CreateToken(token, id) => token !in s.tokens && id in s.users && id !in s.locks
    case DropToken(token) => true
  }

  function Ended(s: State, tx: nat): State {
    s.(locks := map row | row in s.locks && s.locks[row] != tx :: s.locks[row], txs := s.txs - {tx})
  }

  function Began(s: State, tx: nat, id: UserId, change: Change): State {
    s.(txs := s.txs[tx := Tx(id, change, {}, Locking(Admins(s.users)))])
  }

  /** Lock the row, then test it again: a row that was deleted meanwhile is
      gone, one that no longer qualifies is not counted. */
  function LockedNext(s: State, tx: nat, row: UserId): State
    requires tx in s.txs && s.txs[tx].phase.Locking?
  {
    var t := s.txs[tx];
    var rest := Locking(t.phase.todo - {row});
    if row !in s.users then s.(txs := s.txs[tx := t.(phase := rest)])
    else s.(locks := s.locks[row := tx],
            txs := s.txs[tx := t.(phase := rest, counted :=
                     if EnabledAdmin(s.users[row]) then t.counted + {row} else t.counted)])
  }

  function TargetRead(s: State, tx: nat): State
    requires tx in s.txs
  {
    var t := s.txs[tx];
    if t.id !in s.users then Ended(s, tx)
    else s.(locks := s.locks[t.id := tx], txs := s.txs[tx := t.(phase := Read(s.users[t.id]))])
  }

  function TokensDeleted(s: State, tx: nat): State
    requires tx in s.txs && s.txs[tx].phase.Read?
  {
    var t := s.txs[tx];
    s.(txs := s.txs[tx := t.(phase := Cleared(t.phase.target, set k | k in s.tokens && s.tokens[k] == t.id))])
  }

  function Committed(s: State, tx: nat): State
    requires tx in s.txs && s.txs[tx].id in s.users
  {
    var t := s.txs[tx];
    var doomed := if t.phase.Cleared? then t.phase.doomed else {};
    Ended(s.(users := Applied(s.users, t.id, t.change), tokens := s.tokens - doomed), tx)
  }

  function Step(s: State, e: Event): State {
    if !Enabled(s, e) then s else
      match e
      case Begin(tx, id, change) => Began(s, tx, id, change)
      case LockNext(tx, row) => LockedNext(s, tx, row)
      case ReadTarget(tx) => TargetRead(s, tx)
      case DeleteTokens(tx) => TokensDeleted(s, tx)
      case Commit(tx) => if s.txs[tx].id in s.users then Committed(s, tx) else Ended(s, tx)
      case Abort(tx) => Ended(s, tx)
      case CreateUser(id, user) => s.(users := s.users[id := user])
      case CreateToken(token, id) => s.(tokens := s.tokens[token := id])
      case DropToken(token) => s.(tokens := s.tokens - {token})
  }

  ghost predicate IsRun(states: seq<State>, events: seq<Event>) {
    && |states| == |events| + 1
    && states[0].locks == map[] && states[0].txs == map[]
    && forall i {:trigger events[i]} | 0 <= i < |events| :: states[i + 1] == Step(states[i], events[i])
  }

  predicate Holds(s: State, row: UserId, tx: nat) {
    row in s.users && row in s.locks && s.locks[row] == tx
  }

  /** What a transaction has seen under its locks is still so. */
  predicate TxOk(s: State, tx: nat, t: Tx) {
    && (forall row | row in t.counted :: Holds(s, row, tx) && EnabledAdmin(s.users[row]))
    && (!t.phase.Locking? ==> Holds(s, t.id, tx) && s.users[t.id] == t.phase.target)
    && (t.phase.Cleared? ==> t.change.Delete? && forall k | k in s.tokens && s.tokens[k] == t.id :: k in t.phase.doomed)
  }

  predicate TxsOk(s: State) {
    forall tx | tx in s.txs :: TxOk(s, tx, s.txs[tx])
  }

  predicate TokensOk(s: State) {
    forall k | k in s.tokens :: s.tokens[k] in s.users
  }

  predicate Inv(s: State) {
    TxsOk(s) && TokensOk(s) && Admins(s.users) != {}
  }

  /** A transaction that may commit leaves an enabled admin. */
  lemma CommitLeavesAdmin(s: State, tx: nat)
    requires Inv(s) && Enabled(s, Commit(tx)) && s.txs[tx].id in s.users
    ensures Admins(Applied(s.users, s.txs[tx].id, s.txs[tx].change)) != {}
  {
    var t := s.txs[tx];
    assert TxOk(s, tx, t);
    if Removes(t.phase.target, t.change) {
      var other := Another(t.counted, t.id);
      assert other in Admins(s.users);
    }
    AdminsLeft(s.users, t.id, t.change);
  }

  lemma Another(s: set<UserId>, id: UserId) returns (other: UserId)
    requires |s| >= 2
    ensures other in s && other != id
  {
    assert |s| <= |s - {id}| + 1 by {
      assert s == (s - {id}) + (s * {id});
      assert s * {id} == if id in s then {id} else {};
    }
    other :| other in s - {id};
  }

  lemma CommitKeepsInv(s: State, tx: nat)
    requires Inv(s) && Enabled(s, Commit(tx)) && s.txs[tx].id in s.users
    ensures Inv(Committed(s, tx))
  {
    var t := s.txs[tx];
    var u := Committed(s, tx);
    CommitLeavesAdmin(s, tx);
    assert TxOk(s, tx, t);
    forall x | x in u.txs ensures TxOk(u, x, u.txs[x]) {
      assert TxOk(s, x, s.txs[x]);
    }
  }

  lemma EndKeepsInv(s: State, tx: nat)
    requires Inv(s)
    ensures Inv(Ended(s, tx))
  {
    var u := Ended(s, tx);
    forall x | x in u.txs ensures TxOk(u, x, u.txs[x]) {
      assert TxOk(s, x, s.txs[x]);
    }
  }

  /** One transaction goes on, possibly with one more lock. */
  lemma TxMoves(s: State, tx: nat, t: Tx, locks: map<UserId, nat>)
    requires Inv(s)
    requires TxOk(s.(locks := locks), tx, t)
    requires forall row | row in s.locks :: row in locks && locks[row] == s.locks[row]
    ensures Inv(s.(locks := locks, txs := s.txs[tx := t]))
  {
    var u := s.(locks := locks, txs := s.txs[tx := t]);
    forall x | x in u.txs ensures TxOk(u, x, u.txs[x]) {
      if x != tx {
        assert TxOk(s, x, s.txs[x]);
      }
    }
  }

  lemma LockKeepsInv(s: State, tx: nat, row: UserId)
    requires Inv(s) && Enabled(s, LockNext(tx, row))
    ensures Inv(LockedNext(s, tx, row))
  {
    var u := LockedNext(s, tx, row);
    assert TxOk(s, tx, s.txs[tx]);
    TxMoves(s, tx, u.txs[tx], u.locks);
    assert u == s.(locks := u.locks, txs := s.txs[tx := u.txs[tx]]);
  }

  lemma ReadKeepsInv(s: State, tx: nat)
    requires Inv(s) && Enabled(s, ReadTarget(tx))
    ensures Inv(TargetRead(s, tx))
  {
    var u := TargetRead(s, tx);
    assert TxOk(s, tx, s.txs[tx]);
    if s.txs[tx].id in s.users {
      TxMoves(s, tx, u.txs[tx], u.locks);
      assert u == s.(locks := u.locks, txs := s.txs[tx := u.txs[tx]]);
    } else {
      EndKeepsInv(s, tx);
    }
  }

  lemma DeleteTokensKeepsInv(s: State, tx: nat)
    requires Inv(s) && Enabled(s, DeleteTokens(tx))
    ensures Inv(TokensDeleted(s, tx))
  {
    var u := TokensDeleted(s, tx);
    assert TxOk(s, tx, s.txs[tx]);
    TxMoves(s, tx, u.txs[tx], s.locks);
    assert u == s.(locks := s.locks, txs := s.txs[tx := u.txs[tx]]);
  }

  lemma OutsideKeepsInv(s: State, e: Event)
    requires Inv(s) && Enabled(s, e) && (e.CreateUser? || e.CreateToken? || e.DropToken?)
    ensures Inv(Step(s, e))
  {
    var u := Step(s, e);
    forall x | x in u.txs ensures TxOk(u, x, u.txs[x]) {
      assert TxOk(s, x, s.txs[x]);
    }
    var a :| a in Admins(s.users);
    assert a in Admins(u.users);
  }

  lemma StepKeepsInv(s: State, e: Event)
    requires Inv(s)
    ensures Inv(Step(s, e))
  {
    if Enabled(s, e) {
      match e
      case Begin(tx, id, change) => TxMoves(s, tx, Tx(id, change, {}, Locking(Admins(s.users))), s.locks);
      case LockNext(tx, row) => LockKeepsInv(s, tx, row);
      case ReadTarget(tx) => ReadKeepsInv(s, tx);
      case DeleteTokens(tx) => DeleteTokensKeepsInv(s, tx);
      case Commit(tx) =>
        assert TxOk(s, tx, s.txs[tx]);
        CommitKeepsInv(s, tx);
      case Abort(tx) => EndKeepsInv(s, tx);
      case _ => OutsideKeepsInv(s, e);
    }
  }

  /** For any interleaving of guarded updates and deletes, waits and aborts:
      there is always an enabled admin if there was one at the start, and no
      token ever outlives its user. */
  lemma {:induction false} AdminSurvives(states: seq<State>, events: seq<Event>, n: nat)
    requires IsRun(states, events) && n <= |events|
    requires Admins(states[0].users) != {} && TokensOk(states[0])
    ensures Inv(states[n])
    ensures exists id :: id in states[n].users && states[n].users[id].role.Admin? && states[n].users[id].enabled
    ensures forall k | k in states[n].tokens :: states[n].tokens[k] in states[n].users
  {
    if n > 0 {
      AdminSurvives(states, events, n - 1);
      StepKeepsInv(states[n - 1], events[n - 1]);
    }
    var id :| id in Admins(states[n].users);
    assert id in states[n].users;
  }

  /** A transaction that has counted exactly the enabled admins there are is
      refused exactly when it would take the only one away. */
  lemma RefusedIff(t: Tx, users: Users)
    requires !t.phase.Locking? && t.counted == Admins(users) && t.id in users && t.phase.target == users[t.id]
    ensures Refused(t) <==>
              && (t.change.Delete? || (t.change.role.Some? && t.change.role.value != Admin) || t.change.enabled == Some(false))
              && users[t.id].role.Admin? && users[t.id].enabled
              && forall id | id in users && id != t.id :: !(users[id].role.Admin? && users[id].enabled)
  {
    LoneAdmin(users, t.id);
    if Admins(users) == {t.id} {
      forall id | id in users && id != t.id ensures !EnabledAdmin(users[id]) {
        assert id !in Admins(users);
      }
    } else if t.id in Admins(users) {
      var other :| other in Admins(users) && other != t.id;
    }
  }

  // ----- a transaction without company -----

  /** The state after the transaction has locked the first `n` of the admins. */
  function LockedUpTo(s: State, tx: nat, id: UserId, change: Change, order: seq<UserId>, n: nat): State
    requires n <= |order|
  {
    if n == 0 then Step(s, Begin(tx, id, change))
    else Step(LockedUpTo(s, tx, id, change, order, n - 1), LockNext(tx, order[n - 1]))
  }

  /** The order is one of exactly the enabled admins, each once. */
  ghost predicate ListsAdmins(order: seq<UserId>, users: Users) {
    && (forall id :: id in order <==> id in Admins(users))
    && forall i, k | 0 <= i < k < |order| :: order[i] != order[k]
  }

  function Firsts(order: seq<UserId>, n: nat): set<UserId>
    requires n <= |order|
  {
    set i | 0 <= i < n :: order[i]
  }

  /** A transaction in the middle of its locking, alone. */
  predicate LoneLocking(l: State, users: Users, tokens: Tokens, tx: nat, id: UserId, change: Change,
                        counted: set<UserId>, todo: set<UserId>) {
    && l.users == users && l.tokens == tokens && l.txs == map[tx := Tx(id, change, counted, Locking(todo))]
    && forall row | row in l.locks :: l.locks[row] == tx
  }

  lemma LockOne(l: State, tx: nat, id: UserId, change: Change, counted: set<UserId>, todo: set<UserId>, row: UserId)
    requires LoneLocking(l, l.users, l.tokens, tx, id, change, counted, todo) && row in todo && row in Admins(l.users)
    ensures LoneLocking(Step(l, LockNext(tx, row)), l.users, l.tokens, tx, id, change, counted + {row}, todo - {row})
  {
    var t := Step(l, LockNext(tx, row));
    assert t.txs == map[tx := Tx(id, change, counted + {row}, Locking(todo - {row}))];
  }

  lemma {:induction false} LocksInTurn(s: State, tx: nat, id: UserId, change: Change, order: seq<UserId>, n: nat)
    requires s.locks == map[] && s.txs == map[] && ListsAdmins(order, s.users) && n <= |order|
    ensures LoneLocking(LockedUpTo(s, tx, id, change, order, n), s.users, s.tokens, tx, id, change,
                        Firsts(order, n), Admins(s.users) - Firsts(order, n))
    decreases n
  {
    if n == 0 {
      assert Firsts(order, 0) == {} && Admins(s.users) - {} == Admins(s.users);
      assert Began(s, tx, id, change).txs == map[tx := Tx(id, change, {}, Locking(Admins(s.users)))];
    } else {
      LocksInTurn(s, tx, id, change, order, n - 1);
      var l := LockedUpTo(s, tx, id, change, order, n - 1);
      var row, counted := order[n - 1], Firsts(order, n - 1);
      NextFirst(order, n, Admins(s.users));
      LockOne(l, tx, id, change, counted, Admins(s.users) - counted, row);
    }
  }

  lemma NextFirst(order: seq<UserId>, n: nat, admins: set<UserId>)
    requires 0 < n <= |order| && forall i, k | 0 <= i < k < |order| :: order[i] != order[k]
    ensures order[n - 1] !in Firsts(order, n - 1)
    ensures Firsts(order, n) == Firsts(order, n - 1) + {order[n - 1]}
    ensures admins - Firsts(order, n - 1) - {order[n - 1]} == admins - Firsts(order, n)
  {
  }

  /** Running alone it locks and counts every enabled admin, whatever the order, and
      ends as the sequential operations do: nothing changed when the user does not
      exist or the change would take the only enabled admin away, and otherwise the
      change applied to that user alone. */
  lemma LoneUpdateIsSequential(s: State, tx: nat, id: UserId, change: Change, order: seq<UserId>)
    requires s.locks == map[] && s.txs == map[] && ListsAdmins(order, s.users) && change.Update?
    ensures var r := Step(LockedUpTo(s, tx, id, change, order, |order|), ReadTarget(tx));
            var t := Step(r, Commit(tx));
            if id !in s.users then r.users == s.users && tx !in r.txs
            else if Removes(s.users[id], change) && Admins(s.users) == {id} then t == r && r.users == s.users
            else t.users == Applied(s.users, id, change) && tx !in t.txs
  {
    LocksInTurn(s, tx, id, change, order, |order|);
    var l := LockedUpTo(s, tx, id, change, order, |order|);
    assert Firsts(order, |order|) == Admins(s.users);
    assert Admins(s.users) - Firsts(order, |order|) == {};
    LoneRead(s, l, tx, id, change);
  }

  lemma LoneRead(s: State, l: State, tx: nat, id: UserId, change: Change)
    requires l.users == s.users && change.Update?
    requires l.txs == map[tx := Tx(id, change, Admins(s.users), Locking({}))]
    requires forall row | row in l.locks :: l.locks[row] == tx
    ensures var r := Step(l, ReadTarget(tx));
            var t := Step(r, Commit(tx));
            if id !in s.users then r.users == s.users && tx !in r.txs
            else if Removes(s.users[id], change) && Admins(s.users) == {id} then t == r && r.users == s.users
            else t.users == Applied(s.users, id, change) && tx !in t.txs
  {
    if id in s.users {
      var read := Tx(id, change, Admins(s.users), Read(s.users[id]));
      assert TargetRead(l, tx).txs[tx] == read;
      LoneAdmin(s.users, id);
      assert Refused(read) <==> Removes(s.users[id], change) && Admins(s.users) == {id};
    }
  }

  /** The same for a delete, whose tokens go with the user. */
  lemma LoneDeleteIsSequential(s: State, tx: nat, id: UserId, order: seq<UserId>)
    requires s.locks == map[] && s.txs == map[] && ListsAdmins(order, s.users)
    ensures var r := Step(LockedUpTo(s, tx, id, Delete, order, |order|), ReadTarget(tx));
            var d := Step(r, DeleteTokens(tx));
            var t := Step(d, Commit(tx));
            if id !in s.users then r.users == s.users && tx !in r.txs
            else if Admins(s.users) == {id} then d == r && t == r && r.users == s.users && r.tokens == s.tokens
            else && t.users == s.users - {id} && tx !in t.txs
                 && t.tokens == map k | k in s.tokens && s.tokens[k] != id :: s.tokens[k]
  {
    LocksInTurn(s, tx, id, Delete, order, |order|);
    var l := LockedUpTo(s, tx, id, Delete, order, |order|);
    assert Firsts(order, |order|) == Admins(s.users);
    assert Admins(s.users) - Firsts(order, |order|) == {};
    LoneDelete(s, l, tx, id);
  }

  lemma LoneDelete(s: State, l: State, tx: nat, id: UserId)
    requires l.users == s.users && l.tokens == s.tokens
    requires l.txs == map[tx := Tx(id, Delete, Admins(s.users), Locking({}))]
    requires forall row | row in l.locks :: l.locks[row] == tx
    ensures var r := Step(l, ReadTarget(tx));
            var d := Step(r, DeleteTokens(tx));
            var t := Step(d, Commit(tx));
            if id !in s.users then r.users == s.users && tx !in r.txs
            else if Admins(s.users) == {id} then d == r && t == r && r.users == s.users && r.tokens == s.tokens
            else && t.users == s.users - {id} && tx !in t.txs
                 && t.tokens == map k | k in s.tokens && s.tokens[k] != id :: s.tokens[k]
  {
    if id in s.users {
      var read := Tx(id, Delete, Admins(s.users), Read(s.users[id]));
      assert TargetRead(l, tx).txs[tx] == read;
      LoneAdmin(s.users, id);
      assert Refused(read) <==> Admins(s.users) == {id};
    }
  }
}
