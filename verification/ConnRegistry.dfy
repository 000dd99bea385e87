/**
 The connection registry (internal/gateway/conn_manager.go, conn.go:266-272).

 Connections are named by number; the fields of a connection that the registry
 reads or writes (its uid, and whether it was closed) are kept beside the two
 indexes.  uid 0 means not authenticated.
 */
module ConnRegistry {
  import opened Prelude

  type ConnId = nat
  type Uid = int

  datatype State = State(
    conns: set<ConnId>,
    userConns: map<Uid, ConnId>,
    count: int,
    uids: map<ConnId, Uid>,      // every connection ever made
    closed: set<ConnId>)

  function UidOf(s: State, c: ConnId): Uid { if c in s.uids then s.uids[c] else 0 }

  // ---------------------------------------------------------------------
  // The operations
  // ---------------------------------------------------------------------

  function Register(s: State, c: ConnId): State {
    s.(conns := s.conns + {c}, count := s.count + 1, uids := s.uids[c := 0])
  }

  function Unregister(s: State, c: ConnId): State {
    s.(conns := s.conns - {c},
       userConns := if UidOf(s, c) != 0 then s.userConns - {UidOf(s, c)} else s.userConns,
       count := s.count - 1)
  }

  /** Close takes effect once. */
  function Close(s: State, c: ConnId): State {
    if c in s.closed then s else Unregister(s.(closed := s.closed + {c}), c)
  }

  /** LoadAndDelete of a user's index entry. */
  function TakeUser(s: State, uid: Uid): State { s.(userConns := s.userConns - {uid}) }

  /** SetUID and the store of the index entry. */
  function StoreUser(s: State, uid: Uid, c: ConnId): State {
    s.(uids := s.uids[c := uid], userConns := s.userConns[uid := c])
  }

  /** Lines 43-53: kick the previous connection of the user, then take its place. */
  function Bind(s: State, uid: Uid, c: ConnId): State {
    var taken := TakeUser(s, uid);
    StoreUser(if uid in s.userConns && s.userConns[uid] != c then Close(taken, s.userConns[uid]) else taken, uid, c)
  }

  class ConnManager {
    var conns: set<ConnId>
    var userConns: map<Uid, ConnId>
    var count: int
    var uids: map<ConnId, Uid>
    var closed: set<ConnId>

    ghost function Snapshot(): State
      reads this
    {
      State(conns, userConns, count, uids, closed)
    }

    constructor ()
      ensures Snapshot() == State({}, map[], 0, map[], {})
    {
      conns, userConns, count, uids, closed := {}, map[], 0, map[], {};
    }

    method RegisterConn(c: ConnId)
      modifies this
      ensures Snapshot() == Register(old(Snapshot()), c)
      ensures Inv(old(Snapshot())) && CanStep(old(Snapshot()), DoRegister(c)) ==> Inv(Snapshot()) && c in conns
    {
      uids := uids[c := 0];
      conns := conns + {c};
      count := count + 1;
    }

    method UnregisterConn(c: ConnId)
      modifies this
      ensures Snapshot() == Unregister(old(Snapshot()), c)
    {
      conns := conns - {c};
      var uid := if c in uids then uids[c] else 0;
      if uid != 0 {
        userConns := userConns - {uid};
      }
      count := count - 1;
    }

    method CloseConn(c: ConnId)
      modifies this
      ensures Snapshot() == Close(old(Snapshot()), c)
      ensures Inv(old(Snapshot())) && CanStep(old(Snapshot()), DoClose(c)) ==> Inv(Snapshot()) && c !in conns
    {
      if c !in closed {
        closed := closed + {c};
        UnregisterConn(c);
      }
      CloseKeepsAll(old(Snapshot()), c);
    }

    method BindUser(uid: Uid, c: ConnId)
      modifies this
      ensures Snapshot() == Bind(old(Snapshot()), uid, c)
      ensures Inv(old(Snapshot())) && CanStep(old(Snapshot()), DoBind(uid, c)) ==>
                Inv(Snapshot()) && forall d :: d in conns && UidOf(Snapshot(), d) == uid <==> d == c
    {
      if uid in userConns {
        var prev := userConns[uid];
        userConns := userConns - {uid};
        if prev != c {
          CloseConn(prev);
        }
      }
      uids := uids[c := uid];
      userConns := userConns[uid := c];
      BindKeepsAll(old(Snapshot()), uid, c);
    }

    /** While all agrees, this finds exactly the open connection bound to the user. */
    method GetByUid(uid: Uid) returns (r: Option<ConnId>)
      ensures r == if uid in userConns then Some(userConns[uid]) else None
      ensures Inv(Snapshot()) && uid != 0 ==>
                forall c :: r == Some(c) <==> c in conns && UidOf(Snapshot(), c) == uid
    {
      if uid in userConns {
        return Some(userConns[uid]);
      }
      return None;
    }
  }

  // ---------------------------------------------------------------------
  // Whole handlers as steps
  // ---------------------------------------------------------------------

  datatype Step = DoRegister(c: ConnId) | DoBind(uid: Uid, c: ConnId) | DoClose(c: ConnId)

  /** Fresh ids, positive uids, one uid per connection, and no bind after close. */
  predicate CanStep(s: State, e: Step) {
    match e
    case DoRegister(c) => c !in s.uids
    case DoBind(uid, c) => uid > 0 && c in s.conns && (UidOf(s, c) == 0 || UidOf(s, c) == uid)
    case DoClose(c) => c in s.uids
  }

  function Do(s: State, e: Step): State {
    match e
    case DoRegister(c) => Register(s, c)
    case DoBind(uid, c) => Bind(s, uid, c)
    case DoClose(c) => Close(s, c)
  }

  ghost predicate IsRun(run: seq<State>, es: seq<Step>) {
    && |run| == |es| + 1
    && run[0] == State({}, map[], 0, map[], {})
    && forall i :: 0 <= i < |es| ==> CanStep(run[i], es[i]) && run[i + 1] == Do(run[i], es[i])
  }

  /** The uid index is exactly the registered, authenticated connections, and at most one per uid. */
  ghost predicate IndexExact(s: State) {
    && (forall u :: u in s.userConns ==> u != 0 && s.userConns[u] in s.conns && UidOf(s, s.userConns[u]) == u)
    && (forall c :: c in s.conns && UidOf(s, c) != 0 ==> UidOf(s, c) in s.userConns && s.userConns[UidOf(s, c)] == c)
  }

  /** Registered means made and not closed, and the counter counts them. */
  ghost predicate CountExact(s: State) {
    && s.count == |s.conns|
    && (forall c :: c in s.conns <==> c in s.uids && c !in s.closed)
    && (forall c :: c in s.closed ==> c in s.uids)
  }

  ghost predicate Inv(s: State) { IndexExact(s) && CountExact(s) }

  lemma CloseKeeps(s: State, c: ConnId)
    requires Inv(s) && c in s.uids
    ensures Inv(Close(s, c))
  {
    if c !in s.closed {
      assert s.conns - {c} + {c} == s.conns;
    }
  }

  /** Between taking the index entry away and storing the new one, only the kicked connection is missing from it. */
  lemma KickKeeps(s: State, uid: Uid)
    requires Inv(s) && uid in s.userConns
    ensures Inv(Close(s, s.userConns[uid])) && uid !in Close(s, s.userConns[uid]).userConns
    ensures Close(TakeUser(s, uid), s.userConns[uid]) == Close(s, s.userConns[uid])
  {
    CloseKeeps(s, s.userConns[uid]);
    assert s.userConns - {uid} - {uid} == s.userConns - {uid};
  }

  lemma BindKeeps(s: State, uid: Uid, c: ConnId)
    requires Inv(s) && CanStep(s, DoBind(uid, c))
    ensures Inv(Bind(s, uid, c))
  {
    if uid in s.userConns && s.userConns[uid] != c {
      KickKeeps(s, uid);
    }
  }

  lemma CloseKeepsAll(s: State, c: ConnId)
    ensures Inv(s) && CanStep(s, DoClose(c)) ==> Inv(Close(s, c)) && c !in Close(s, c).conns
  {
    if Inv(s) && CanStep(s, DoClose(c)) {
      CloseKeeps(s, c);
    }
  }

  lemma BindKeepsAll(s: State, uid: Uid, c: ConnId)
    ensures Inv(s) && CanStep(s, DoBind(uid, c)) ==>
              Inv(Bind(s, uid, c)) && forall d :: d in Bind(s, uid, c).conns && UidOf(Bind(s, uid, c), d) == uid <==> d == c
  {
    if Inv(s) && CanStep(s, DoBind(uid, c)) {
      BindKeeps(s, uid, c);
    }
  }

  /** At every point of every run the two indexes and the counter agree. */
  lemma {:induction false} Agree(run: seq<State>, es: seq<Step>, k: nat)
    requires IsRun(run, es) && k < |run|
    ensures Inv(run[k])
  {
    if k > 0 {
      Agree(run, es, k - 1);
      var s, e := run[k - 1], es[k - 1];
      match e
      case DoRegister(c) =>
      case DoBind(uid, c) => BindKeeps(s, uid, c);
      case DoClose(c) => CloseKeeps(s, c);
    }
  }

  /** At most one open connection per user, and it is the one GetByUID returns. */
  lemma OnePerUser(run: seq<State>, es: seq<Step>, k: nat, c: ConnId, c': ConnId)
    requires IsRun(run, es) && k < |run|
    requires c in run[k].conns && c' in run[k].conns && UidOf(run[k], c) == UidOf(run[k], c') != 0
    ensures c == c' && UidOf(run[k], c) in run[k].userConns && run[k].userConns[UidOf(run[k], c)] == c
  {
    Agree(run, es, k);
  }

  /**
   From a state in which all agrees, a bind of a positive uid keeps the index
   exact exactly when the connection is registered and not bound to another uid.
   */
  lemma BindExactIff(s: State, uid: Uid, c: ConnId)
    requires Inv(s) && uid > 0
    ensures IndexExact(Bind(s, uid, c)) <==> c in s.conns && (UidOf(s, c) == 0 || UidOf(s, c) == uid)
  {
    if c in s.conns && (UidOf(s, c) == 0 || UidOf(s, c) == uid) {
      BindKeeps(s, uid, c);
    } else {
      var s' := Bind(s, uid, c);
      assert s'.userConns[uid] == c;
      if c in s.conns {
        var other := UidOf(s, c);
        assert s.userConns[other] == c;
        assert other in s'.userConns && s'.userConns[other] == c && UidOf(s', c) == uid;
      }
    }
  }
}
