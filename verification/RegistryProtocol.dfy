/**
 The connection registry under real interleavings
 (internal/gateway/conn_manager.go:33-53, conn.go:266-272): every map operation,
 atomic update and flag is a step of its own.

 A connection's binds come from its own read loop, one at a time.  Its close can
 be begun by anyone and runs once; a kick that finds it begun waits for its end,
 as sync.Once does.
 */
module RegistryProtocol {
  import opened Prelude
  import R = ConnRegistry

  type ConnId = R.ConnId
  type Uid = R.Uid

  /** How far the close of a connection is: the operation to come. */
  datatype Closing =
    | Unlink              // conns.Delete
    | ReadUid             // c.UID()
    | DropUser(uid: Uid)  // userConns.Delete
    | CountDown           // count.Add(-1)
    | Closed

  /** How far the bind of a connection is. */
  datatype Binding =
    | Loading(uid: Uid)               // before LoadAndDelete
    | Kicking(uid: Uid, prev: ConnId)  // before prev.Close()
    | Waiting(uid: Uid, prev: ConnId)  // inside prev.Close()
    | Naming(uid: Uid)                // before SetUID
    | Storing(uid: Uid)               // before userConns.Store

  datatype State = State(
    conns: set<ConnId>,
    userConns: map<Uid, ConnId>,
    count: int,
    uids: map<ConnId, Uid>,          // every connection ever made
    closes: map<ConnId, Closing>,    // every close ever begun
    binds: map<ConnId, Binding>)     // the binds in progress

  datatype Step =
    | Register(c: ConnId)
    | StartBind(c: ConnId, uid: Uid)
    | Load(c: ConnId)
    | Kick(c: ConnId)
    | Resume(c: ConnId)
    | Name(c: ConnId)
    | Store(c: ConnId)
    | StartClose(c: ConnId)
    | Proceed(c: ConnId)

  function UidOf(s: State, c: ConnId): Uid { if c in s.uids then s.uids[c] else 0 }

  /** Fresh ids, positive uids and one uid per connection; nothing keeps a bind from a closing connection. */
  predicate CanStep(s: State, e: Step) {
    match e
    case Register(c) => c !in s.uids
    case StartBind(c, uid) => uid > 0 && c in s.uids && c !in s.binds && (s.uids[c] == 0 || s.uids[c] == uid)
    case Load(c) => c in s.binds && s.binds[c].Loading?
    case Kick(c) => c in s.binds && s.binds[c].Kicking?
    case Resume(c) => c in s.binds && s.binds[c].Waiting? && s.binds[c].prev in s.closes && s.closes[s.binds[c].prev].Closed?
    case Name(c) => c in s.binds && s.binds[c].Naming?
    case Store(c) => c in s.binds && s.binds[c].Storing?
    case StartClose(c) => c in s.uids && c !in s.closes
    case Proceed(c) => c in s.closes && !s.closes[c].Closed?
  }

  function SetBind(s: State, c: ConnId, b: Binding): State { s.(binds := s.binds[c := b]) }

  function SetClose(s: State, c: ConnId, k: Closing): State { s.(closes := s.closes[c := k]) }

  function Do(s: State, e: Step): State
    requires CanStep(s, e)
  {
    match e
    case Register(c) => s.(conns := s.conns + {c}, count := s.count + 1, uids := s.uids[c := 0])
    case StartBind(c, uid) => SetBind(s, c, Loading(uid))
    case Load(c) =>
      var uid := s.binds[c].uid;
      if uid !in s.userConns then SetBind(s, c, Naming(uid))
      else
        var prev := s.userConns[uid];
        SetBind(s, c, if prev != c then Kicking(uid, prev) else Naming(uid)).(userConns := s.userConns - {uid})
    case Kick(c) =>
      var Kicking(uid, prev) := s.binds[c];
      SetBind(if prev in s.closes then s else SetClose(s, prev, Unlink), c, Waiting(uid, prev))
    case Resume(c) => SetBind(s, c, Naming(s.binds[c].uid))
    case Name(c) => SetBind(s, c, Storing(s.binds[c].uid)).(uids := s.uids[c := s.binds[c].uid])
    case Store(c) => s.(userConns := s.userConns[s.binds[c].uid := c], binds := s.binds - {c})
    case StartClose(c) => SetClose(s, c, Unlink)
    case Proceed(c) =>
      match s.closes[c]
      case Unlink => SetClose(s, c, ReadUid).(conns := s.conns - {c})
      case ReadUid => SetClose(s, c, if UidOf(s, c) != 0 then DropUser(UidOf(s, c)) else CountDown)
      case DropUser(uid) => SetClose(s, c, CountDown).(userConns := s.userConns - {uid})
      case _ => SetClose(s, c, Closed).(count := s.count - 1)
  }

  ghost predicate IsRun(run: seq<State>, es: seq<Step>) {
    && |run| == |es| + 1
    && run[0] == State({}, map[], 0, map[], map[], map[])
    && forall i :: 0 <= i < |es| ==> CanStep(run[i], es[i]) && run[i + 1] == Do(run[i], es[i])
  }

  // ---------------------------------------------------------------------
  // What always holds
  // ---------------------------------------------------------------------

  /** Closes out of the map and not yet off the counter. */
  ghost function Leaving(closes: map<ConnId, Closing>): set<ConnId> {
    set c | c in closes && Underway(closes[c])
  }

  predicate Underway(k: Closing) { !k.Unlink? && !k.Closed? }

  /** Every id and uid about is one that was made or bound. */
  ghost predicate Known(s: State) {
    && (forall c :: c in s.closes || c in s.binds ==> c in s.uids)
    && (forall u :: u in s.userConns ==> u > 0 && s.userConns[u] in s.uids)
    && (forall c :: c in s.binds ==> s.binds[c].uid > 0)
    && (forall c :: c in s.binds && (s.binds[c].Kicking? || s.binds[c].Waiting?) ==> s.binds[c].prev in s.uids)
  }

  /** Registered means made and not yet out of the map. */
  ghost predicate Listed(s: State) {
    forall c :: c in s.conns <==> c in s.uids && (c !in s.closes || s.closes[c].Unlink?)
  }

  ghost predicate Made(s: State) { Known(s) && Listed(s) }

  /** Connection `c` has one uid, and its close drops that one. */
  predicate UidFits(s: State, c: ConnId) {
    && UidOf(s, c) >= 0
    && (c in s.binds ==> UidOf(s, c) == 0 || UidOf(s, c) == s.binds[c].uid)
    && (c in s.binds && s.binds[c].Storing? ==> UidOf(s, c) == s.binds[c].uid)
    && (c in s.closes && s.closes[c].DropUser? ==> UidOf(s, c) == s.closes[c].uid > 0)
  }

  ghost predicate OneUid(s: State) { forall c :: UidFits(s, c) }

  ghost predicate Counted(s: State) { s.count == |s.conns| + |Leaving(s.closes)| }

  ghost predicate Basic(s: State) { Made(s) && OneUid(s) && Counted(s) }

  lemma KnownStep(s: State, e: Step)
    requires Known(s) && CanStep(s, e)
    ensures Known(Do(s, e))
  {}

  lemma ListedStep(s: State, e: Step)
    requires Known(s) && Listed(s) && CanStep(s, e)
    ensures Listed(Do(s, e))
  {}

  lemma UidFitsStep(s: State, e: Step, c: ConnId)
    requires Made(s) && UidFits(s, c) && CanStep(s, e)
    ensures UidFits(Do(s, e), c)
  {}

  lemma CountedStep(s: State, e: Step)
    requires Made(s) && Counted(s) && CanStep(s, e)
    ensures Counted(Do(s, e))
  {
    if e.Proceed? {
      CountedProceed(s, e.c);
    } else if e.StartClose? {
      LeavingNew(s.closes, e.c);
    } else if e.Kick? && s.binds[e.c].prev !in s.closes {
      LeavingNew(s.closes, s.binds[e.c].prev);
    }
  }

  lemma LeavingNew(closes: map<ConnId, Closing>, c: ConnId)
    requires c !in closes
    ensures Leaving(closes[c := Unlink]) == Leaving(closes)
  {
    forall d ensures d in Leaving(closes[c := Unlink]) <==> d in Leaving(closes) {}
  }

  lemma CountedProceed(s: State, c: ConnId)
    requires Counted(s) && CanStep(s, Proceed(c)) && (s.closes[c].Unlink? ==> c in s.conns)
    ensures Counted(Do(s, Proceed(c)))
  {
    var s' := Do(s, Proceed(c));
    LeavingAfter(s.closes, c, s'.closes[c]);
    Without(s.conns, c);
    assert s'.closes == s.closes[c := s'.closes[c]];
  }

  lemma LeavingAfter(closes: map<ConnId, Closing>, c: ConnId, k: Closing)
    requires c in closes
    ensures |Leaving(closes[c := k])| - (if Underway(k) then 1 else 0)
         == |Leaving(closes)| - (if Underway(closes[c]) then 1 else 0)
  {
    var before, after := Leaving(closes), Leaving(closes[c := k]);
    Without(before, c);
    Without(after, c);
    forall d | d != c ensures d in before <==> d in after {}
    assert before - {c} == after - {c};
  }

  lemma Without(xs: set<ConnId>, c: ConnId)
    ensures |xs| == |xs - {c}| + if c in xs then 1 else 0
  {
    if c in xs {
      assert xs == (xs - {c}) + {c};
    } else {
      assert xs == xs - {c};
    }
  }

  lemma BasicStep(s: State, e: Step)
    requires Basic(s) && CanStep(s, e)
    ensures Basic(Do(s, e))
  {
    KnownStep(s, e);
    ListedStep(s, e);
    forall c ensures UidFits(Do(s, e), c) {
      UidFitsStep(s, e, c);
    }
    CountedStep(s, e);
  }

  lemma {:induction false} BasicAlways(run: seq<State>, es: seq<Step>, k: nat)
    requires IsRun(run, es) && k < |run|
    ensures Basic(run[k])
  {
    if k > 0 {
      BasicAlways(run, es, k - 1);
      BasicStep(run[k - 1], es[k - 1]);
    }
  }

  // ---------------------------------------------------------------------
  // One user's index entry
  // ---------------------------------------------------------------------

  predicate BindsTo(s: State, c: ConnId, u: Uid) { c in s.binds && s.binds[c].uid == u }

  /** Two binds to `u` are in progress, or one whose own connection has begun to close. */
  ghost predicate Clash(s: State, u: Uid) {
    || (exists c, c' :: c != c' && BindsTo(s, c, u) && BindsTo(s, c', u))
    || (exists c :: BindsTo(s, c, u) && c in s.closes)
  }

  /** Connection `c` of user `u` has not dropped the user's index entry yet. */
  predicate Live(s: State, c: ConnId, u: Uid) {
    c in s.uids && s.uids[c] == u && (c in s.closes ==> !s.closes[c].CountDown? && !s.closes[c].Closed?)
  }

  predicate Entry(s: State, c: ConnId, u: Uid) { u in s.userConns && s.userConns[u] == c }

  /** A bind to `u` took the entry of `c` and will not go on before the close of `c` has ended. */
  ghost predicate Taken(s: State, c: ConnId, u: Uid) {
    exists b :: BindsTo(s, b, u) && Takes(s.binds[b], c)
  }

  predicate Takes(b: Binding, c: ConnId) { (b.Kicking? || b.Waiting?) && b.prev == c }

  predicate Renewing(s: State, c: ConnId, u: Uid) {
    c in s.binds && (s.binds[c] == Naming(u) || s.binds[c] == Storing(u))
  }

  /** While live, `c` has the entry, was taken from it, or is about to store it. */
  ghost predicate Placed(s: State, c: ConnId, u: Uid) {
    Live(s, c, u) ==> Entry(s, c, u) || Taken(s, c, u) || Renewing(s, c, u)
  }

  predicate EntryLive(s: State, u: Uid) { u in s.userConns ==> Live(s, s.userConns[u], u) }

  /** Once bind `b` has taken the entry of `u` there is none, and a kick waits for another connection's close. */
  predicate BindFits(s: State, b: ConnId, u: Uid) {
    BindsTo(s, b, u) ==>
      && (!s.binds[b].Loading? ==> u !in s.userConns)
      && (s.binds[b].Kicking? || s.binds[b].Waiting? ==> s.binds[b].prev != b)
      && (s.binds[b].Waiting? ==> s.binds[b].prev in s.closes)
  }

  ghost predicate Inv(s: State, u: Uid) {
    EntryLive(s, u) && (forall c :: Placed(s, c, u)) && (forall b :: BindFits(s, b, u))
  }

  /** A close drops nobody else's entry. */
  lemma DropsOwn(s: State, d: ConnId, u: Uid)
    requires Basic(s) && Inv(s, u) && d in s.closes && s.closes[d] == DropUser(u) && u in s.userConns
    ensures s.userConns[u] == d
  {
    assert UidFits(s, d) && Placed(s, d, u);
    assert forall b :: BindFits(s, b, u) && BindsTo(s, b, u) ==> s.binds[b].Loading? && !Takes(s.binds[b], d);
    assert Renewing(s, d, u) ==> BindsTo(s, d, u);
  }

  /** Without a clash, a bind about to store is the only claim to the entry. */
  lemma StoresAlone(s: State, c: ConnId, u: Uid, d: ConnId)
    requires Basic(s) && Inv(s, u) && !Clash(s, u) && BindsTo(s, c, u) && s.binds[c].Storing?
    ensures u !in s.userConns && c !in s.closes && Live(s, c, u)
    ensures Live(s, d, u) || BindsTo(s, d, u) ==> d == c
  {
    assert UidFits(s, c) && Placed(s, d, u) && BindFits(s, c, u);
    assert forall b :: BindsTo(s, b, u) ==> b == c && !Takes(s.binds[b], d);
    assert Renewing(s, d, u) ==> BindsTo(s, d, u);
  }

  /** A taken entry stays taken until the bind that took it resumes after the close. */
  lemma StaysTaken(s: State, e: Step, d: ConnId, u: Uid)
    requires CanStep(s, e) && Taken(s, d, u) && Live(s, d, u)
    ensures Taken(Do(s, e), d, u)
  {
    var b :| BindsTo(s, b, u) && Takes(s.binds[b], d);
    assert BindsTo(Do(s, e), b, u) && Takes(Do(s, e).binds[b], d);
  }

  /** An entry stays until its connection drops it or a bind takes it. */
  lemma StaysEntry(s: State, e: Step, d: ConnId, u: Uid)
    requires Basic(s) && Inv(s, u) && CanStep(s, e) && Entry(s, d, u) && Live(Do(s, e), d, u)
    requires !(e.Store? && BindsTo(s, e.c, u))
    ensures Entry(Do(s, e), d, u) || Taken(Do(s, e), d, u) || Renewing(Do(s, e), d, u)
  {
    var s' := Do(s, e);
    if e.Load? && BindsTo(s, e.c, u) {
      assert BindsTo(s', e.c, u) && s'.binds[e.c] == if d != e.c then Kicking(u, d) else Naming(u);
      assert d != e.c ==> Takes(s'.binds[e.c], d);
    } else if e.Proceed? && s.closes[e.c] == DropUser(u) {
      DropsOwn(s, e.c, u);
    }
  }

  lemma StaysRenewing(s: State, e: Step, d: ConnId, u: Uid)
    requires CanStep(s, e) && Renewing(s, d, u)
    ensures Entry(Do(s, e), d, u) || Renewing(Do(s, e), d, u)
  {}

  lemma NewlyLive(s: State, e: Step, d: ConnId, u: Uid)
    requires UidFits(s, d) && CanStep(s, e) && u > 0 && !Live(s, d, u) && Live(Do(s, e), d, u)
    ensures Renewing(Do(s, e), d, u)
  {}

  lemma PlacedStep(s: State, e: Step, d: ConnId, u: Uid)
    requires Basic(s) && Inv(s, u) && CanStep(s, e) && u > 0 && (e.Store? ==> !Clash(s, u))
    ensures Placed(Do(s, e), d, u)
  {
    assert UidFits(s, d) && Placed(s, d, u);
    if Live(Do(s, e), d, u) {
      if !Live(s, d, u) {
        NewlyLive(s, e, d, u);
      } else if Taken(s, d, u) {
        StaysTaken(s, e, d, u);
      } else if Renewing(s, d, u) {
        StaysRenewing(s, e, d, u);
      } else if e.Store? && BindsTo(s, e.c, u) {
        StoresAlone(s, e.c, u, d);
      } else {
        StaysEntry(s, e, d, u);
      }
    }
  }

  lemma EntryLiveStep(s: State, e: Step, u: Uid)
    requires Basic(s) && Inv(s, u) && CanStep(s, e) && u > 0 && (e.Store? ==> !Clash(s, u))
    ensures EntryLive(Do(s, e), u)
  {
    assert u in s.userConns ==> UidFits(s, s.userConns[u]);
    if e.Store? && BindsTo(s, e.c, u) {
      StoresAlone(s, e.c, u, e.c);
    } else if e.Proceed? && s.closes[e.c] == DropUser(u) && u in s.userConns {
      DropsOwn(s, e.c, u);
    }
  }

  lemma BindFitsOther(s: State, e: Step, b: ConnId, u: Uid)
    requires BindFits(s, b, u) && CanStep(s, e) && !(e.Store? && BindsTo(s, e.c, u))
    ensures BindFits(Do(s, e), b, u)
  {}

  lemma BindFitsStep(s: State, e: Step, b: ConnId, u: Uid)
    requires Basic(s) && Inv(s, u) && CanStep(s, e) && u > 0 && (e.Store? ==> !Clash(s, u))
    ensures BindFits(Do(s, e), b, u)
  {
    if e.Store? && BindsTo(s, e.c, u) {
      assert BindsTo(Do(s, e), b, u) ==> BindsTo(s, b, u) && b != e.c;
      StoresAlone(s, e.c, u, b);
    } else {
      BindFitsOther(s, e, b, u);
    }
  }

  lemma InvStep(s: State, e: Step, u: Uid)
    requires Basic(s) && Inv(s, u) && CanStep(s, e) && u > 0 && (e.Store? ==> !Clash(s, u))
    ensures Inv(Do(s, e), u)
  {
    forall d ensures Placed(Do(s, e), d, u) {
      PlacedStep(s, e, d, u);
    }
    forall b ensures BindFits(Do(s, e), b, u) {
      BindFitsStep(s, e, b, u);
    }
    EntryLiveStep(s, e, u);
  }

  lemma {:induction false} InvAlways(run: seq<State>, es: seq<Step>, k: nat, u: Uid)
    requires IsRun(run, es) && k < |run| && u > 0
    requires forall i :: 0 <= i < k ==> !Clash(run[i], u)
    ensures Inv(run[k], u)
  {
    if k > 0 {
      InvAlways(run, es, k - 1, u);
      BasicAlways(run, es, k - 1);
      assert !Clash(run[k - 1], u);
      InvStep(run[k - 1], es[k - 1], u);
    }
  }

  /** A close of a connection of `u` is under way and may still drop the entry. */
  predicate Dropping(s: State, c: ConnId, u: Uid) { c in s.closes && Live(s, c, u) }

  /** No bind to `u` is in progress, and no close that may still drop the entry. */
  ghost predicate Quiet(s: State, u: Uid) { forall c :: !BindsTo(s, c, u) && !Dropping(s, c, u) }

  /** The index has for `u` exactly the open connection bound to `u`. */
  ghost predicate Exact(s: State, u: Uid) {
    forall c :: Entry(s, c, u) <==> c in s.conns && UidOf(s, c) == u
  }

  /**
   For each user, in every run in which binds to the user overlap neither each
   other nor the close of their own connection, the index is exact for the user
   whenever nothing of the user's is under way.  Closes may overlap everything
   else, also a reconnect: a bind that takes the entry of a closing connection
   waits for its close, and one that finds no entry comes after the drop.
   */
  lemma ExactWithoutClash(run: seq<State>, es: seq<Step>, k: nat, u: Uid)
    requires IsRun(run, es) && k < |run| && u > 0
    requires (forall i :: 0 <= i < k ==> !Clash(run[i], u)) && Quiet(run[k], u)
    ensures Exact(run[k], u)
  {
    InvAlways(run, es, k, u);
    BasicAlways(run, es, k);
    var s := run[k];
    forall c ensures Entry(s, c, u) <==> c in s.conns && UidOf(s, c) == u {
      assert Placed(s, c, u) && !Dropping(s, c, u) && !BindsTo(s, c, u);
      assert Renewing(s, c, u) ==> BindsTo(s, c, u);
    }
  }

  /** The fields that the whole handlers work on. */
  ghost function Snapshot(s: State): R.State {
    R.State(s.conns, s.userConns, s.count, s.uids, set c | c in s.closes && s.closes[c].Closed?)
  }

  ghost predicate AtRest(s: State) {
    s.binds == map[] && forall c :: c in s.closes ==> s.closes[c].Closed?
  }

  /** In runs without clashes everything agrees at rest, as it does after whole handlers. */
  lemma AgreeAtRest(run: seq<State>, es: seq<Step>, k: nat)
    requires IsRun(run, es) && k < |run| && AtRest(run[k])
    requires forall i, u :: 0 <= i < k && u > 0 ==> !Clash(run[i], u)
    ensures R.Inv(Snapshot(run[k]))
  {
    var s, r := run[k], Snapshot(run[k]);
    BasicAlways(run, es, k);
    assert Leaving(s.closes) == {};
    forall u | u > 0 ensures Exact(s, u) {
      ExactWithoutClash(run, es, k, u);
    }
    forall c | c in s.conns && UidOf(s, c) != 0 ensures Entry(s, c, UidOf(s, c)) {
      assert UidFits(s, c) && Exact(s, UidOf(s, c));
    }
    forall u | u in s.userConns ensures s.userConns[u] in s.conns && UidOf(s, s.userConns[u]) == u {
      assert Exact(s, u) && Entry(s, s.userConns[u], u);
    }
    assert forall c :: R.UidOf(r, c) == UidOf(s, c);
  }

  // ---------------------------------------------------------------------
  // A clash breaks it
  // ---------------------------------------------------------------------

  /** The state after taking `es` from `s`, if every step is possible. */
  function Exec(s: State, es: seq<Step>): Option<State>
    decreases |es|
  {
    if es == [] then Some(s)
    else if CanStep(s, es[0]) then Exec(Do(s, es[0]), es[1..])
    else None
  }

  lemma {:induction false} ExecConcat(s: State, es: seq<Step>, es': seq<Step>)
    requires Exec(s, es).Some?
    ensures Exec(s, es + es') == Exec(Exec(s, es).value, es')
    decreases |es|
  {
    if es == [] {
      assert [] + es' == es';
    } else {
      assert (es + es')[1..] == es[1..] + es';
      ExecConcat(Do(s, es[0]), es[1..], es');
    }
  }

  /** Some steps lead from `s` to `s'`. */
  ghost predicate Leads(s: State, s': State) { exists es :: Exec(s, es) == Some(s') }

  lemma LeadsNowhere(s: State)
    ensures Leads(s, s)
  {
    assert Exec(s, []) == Some(s);
  }

  lemma LeadsOn(s: State, s': State, e: Step)
    requires Leads(s, s') && CanStep(s', e)
    ensures Leads(s, Do(s', e))
  {
    var es :| Exec(s, es) == Some(s');
    ExecConcat(s, es, [e]);
    assert [e][1..] == [];
    assert Exec(s, es + [e]) == Some(Do(s', e));
  }

  /** A state in which the invariants hold for `u`, whether or not binds clash. */
  ghost predicate Sound(s: State, u: Uid) { Basic(s) && Inv(s, u) && u > 0 }

  /** One more step on the way from `start`. */
  lemma Go(start: State, s: State, e: Step, u: Uid) returns (s': State)
    requires Leads(start, s) && Sound(s, u) && CanStep(s, e) && !e.Store?
    ensures Leads(start, s') && Sound(s', u) && s' == Do(s, e)
  {
    s' := Do(s, e);
    LeadsOn(start, s, e);
    BasicStep(s, e);
    InvStep(s, e, u);
  }

  /** Closing `d` to the end changes no bind and no other close. */
  ghost predicate AfterClose(s: State, s': State, d: ConnId) {
    && s'.binds == s.binds && s'.uids == s.uids
    && s'.closes == s.closes[d := Closed]
    && s'.conns == s.conns - {d}
  }

  function Left(k: Closing): nat {
    match k
    case Unlink => 4
    case ReadUid => 3
    case DropUser(_) => 2
    case CountDown => 1
    case Closed => 0
  }

  lemma CloseGoesOn(s: State, d: ConnId)
    requires CanStep(s, Proceed(d)) && Made(s)
    ensures var s' := Do(s, Proceed(d));
            && s'.binds == s.binds && s'.uids == s.uids && s'.conns == s.conns - {d}
            && d in s'.closes && Left(s'.closes[d]) < Left(s.closes[d])
            && s'.closes[d := Closed] == s.closes[d := Closed]
  {
    assert !s.closes[d].Unlink? ==> s.conns == s.conns - {d};
  }

  lemma ClosedAlready(s: State, d: ConnId)
    requires Made(s) && d in s.closes && s.closes[d].Closed?
    ensures AfterClose(s, s, d)
  {
    assert s.closes == s.closes[d := Closed] && s.conns == s.conns - {d};
  }

  lemma ClosedThen(s: State, s': State, d: ConnId)
    requires Made(s) && CanStep(s, Proceed(d)) && AfterClose(Do(s, Proceed(d)), s', d)
    ensures AfterClose(s, s', d)
  {
    CloseGoesOn(s, d);
    assert s.conns - {d} - {d} == s.conns - {d};
  }

  lemma {:induction false} FinishClose(start: State, s: State, d: ConnId, u: Uid) returns (s': State)
    requires Leads(start, s) && Sound(s, u) && d in s.closes
    ensures Leads(start, s') && Sound(s', u) && AfterClose(s, s', d)
    decreases Left(s.closes[d])
  {
    if s.closes[d].Closed? {
      s' := s;
      ClosedAlready(s, d);
    } else {
      CloseGoesOn(s, d);
      var s1 := Go(start, s, Proceed(d), u);
      s' := FinishClose(start, s1, d, u);
      ClosedThen(s, s', d);
    }
  }

  /** The bind of `c` has come as far as its store; it may have closed another connection on the way. */
  predicate AfterBind(s: State, s': State, c: ConnId, u: Uid, kicked: Option<ConnId>) {
    && s'.binds == s.binds[c := Storing(u)] && s'.uids == s.uids[c := u]
    && (kicked.None? ==> s'.closes == s.closes && s'.conns == s.conns)
    && (kicked.Some? ==> kicked.value != c && s'.closes == s.closes[kicked.value := Closed] && s'.conns == s.conns - {kicked.value})
  }

  lemma FromNaming(start: State, s: State, c: ConnId, u: Uid) returns (s': State)
    requires Leads(start, s) && Sound(s, u) && BindsTo(s, c, u) && (s.binds[c].Naming? || s.binds[c].Storing?)
    ensures Leads(start, s') && Sound(s', u) && AfterBind(s, s', c, u, None)
  {
    if s.binds[c].Naming? {
      s' := Go(start, s, Name(c), u);
    } else {
      s' := s;
      assert UidFits(s, c);
      assert s.binds == s.binds[c := Storing(u)] && s.uids == s.uids[c := u];
    }
  }

  lemma KickJoined(s: State, s1: State, s2: State, s': State, c: ConnId, u: Uid)
    requires BindsTo(s, c, u) && s.binds[c].Waiting? && s.binds[c].prev != c
    requires AfterClose(s, s1, s.binds[c].prev) && CanStep(s1, Resume(c)) && s2 == Do(s1, Resume(c))
    requires AfterBind(s2, s', c, u, None)
    ensures AfterBind(s, s', c, u, Some(s.binds[c].prev))
  {}

  lemma FromWaiting(start: State, s: State, c: ConnId, u: Uid) returns (s': State)
    requires Leads(start, s) && Sound(s, u) && BindsTo(s, c, u) && s.binds[c].Waiting?
    ensures Leads(start, s') && Sound(s', u) && AfterBind(s, s', c, u, Some(s.binds[c].prev))
  {
    assert BindFits(s, c, u);
    var s1 := FinishClose(start, s, s.binds[c].prev, u);
    var s2 := Go(start, s1, Resume(c), u);
    s' := FromNaming(start, s2, c, u);
    KickJoined(s, s1, s2, s', c, u);
  }

  lemma KickBegun(s: State, s': State, c: ConnId, u: Uid)
    requires BindsTo(s, c, u) && CanStep(s, Kick(c))
    requires AfterBind(Do(s, Kick(c)), s', c, u, Some(s.binds[c].prev))
    ensures AfterBind(s, s', c, u, Some(s.binds[c].prev))
  {}

  /** Any bind can be brought to its store. */
  lemma ToStoring(start: State, s: State, c: ConnId, u: Uid) returns (s': State, kicked: Option<ConnId>)
    requires Leads(start, s) && Sound(s, u) && BindsTo(s, c, u) && !s.binds[c].Loading?
    ensures Leads(start, s') && Sound(s', u) && AfterBind(s, s', c, u, kicked)
  {
    if s.binds[c].Kicking? {
      var s1 := Go(start, s, Kick(c), u);
      s' := FromWaiting(start, s1, c, u);
      KickBegun(s, s', c, u);
      kicked := Some(s.binds[c].prev);
    } else if s.binds[c].Waiting? {
      s' := FromWaiting(start, s, c, u);
      kicked := Some(s.binds[c].prev);
    } else {
      s' := FromNaming(start, s, c, u);
      kicked := None;
    }
  }

  lemma LoadedThen(s: State, s': State, c: ConnId, u: Uid, kicked: Option<ConnId>)
    requires BindsTo(s, c, u) && CanStep(s, Load(c)) && AfterBind(Do(s, Load(c)), s', c, u, kicked)
    ensures AfterBind(s, s', c, u, kicked)
  {}

  lemma LoadToStoring(start: State, s: State, c: ConnId, u: Uid) returns (s': State, kicked: Option<ConnId>)
    requires Leads(start, s) && Sound(s, u) && BindsTo(s, c, u)
    ensures Leads(start, s') && Sound(s', u) && AfterBind(s, s', c, u, kicked)
  {
    if s.binds[c].Loading? {
      var s1 := Go(start, s, Load(c), u);
      s', kicked := ToStoring(start, s1, c, u);
      LoadedThen(s, s', c, u, kicked);
    } else {
      s', kicked := ToStoring(start, s, c, u);
    }
  }

  /** With `c` about to store and at most one other bind to `u`, not past its load, only those two can still be dropping. */
  lemma NothingDropping(s: State, c: ConnId, c': ConnId, u: Uid, d: ConnId)
    requires Sound(s, u) && BindsTo(s, c, u) && s.binds[c].Storing?
    requires forall b :: BindsTo(s, b, u) ==> b == c || b == c'
    requires BindsTo(s, c', u) ==> !s.binds[c'].Kicking? && !s.binds[c'].Waiting?
    ensures Live(s, d, u) ==> d == c || d == c'
    ensures u !in s.userConns
  {
    assert Placed(s, d, u) && BindFits(s, c, u);
    assert forall b :: BindsTo(s, b, u) ==> !Takes(s.binds[b], d);
    assert Renewing(s, d, u) ==> BindsTo(s, d, u);
  }

  /** All binds to `u` in progress are those of `c` and `c'`. */
  ghost predicate OnlyBinds(s: State, c: ConnId, c': ConnId, u: Uid) { forall b :: BindsTo(s, b, u) ==> b == c || b == c' }

  lemma SameBinds(s: State, s': State, c: ConnId, c': ConnId, u: Uid)
    requires OnlyBinds(s, c, c', u) && (s'.binds.Keys == s.binds.Keys) && BindsTo(s, c, u)
    requires forall b :: b in s.binds && b != c ==> s'.binds[b] == s.binds[b]
    ensures OnlyBinds(s', c, c', u)
  {
    forall b ensures BindsTo(s', b, u) ==> b == c || b == c' {
      assert BindsTo(s', b, u) && b != c ==> BindsTo(s, b, u);
    }
  }

  lemma LastStore(s: State, c: ConnId, u: Uid)
    requires Sound(s, u) && CanStep(s, Store(c)) && OnlyBinds(s, c, c, u) && BindsTo(s, c, u)
    requires c in s.closes ==> s.closes[c].Closed?
    ensures Quiet(Do(s, Store(c)), u) && Entry(Do(s, Store(c)), c, u)
  {
    var end := Do(s, Store(c));
    forall d ensures !BindsTo(end, d, u) && !Dropping(end, d, u) {
      assert BindsTo(end, d, u) ==> BindsTo(s, d, u) && d != c;
      NothingDropping(s, c, c, u, d);
    }
  }

  /** A bind of a connection that has begun to close can end with a closed connection in the index. */
  lemma CloseThenStore(start: State, s: State, c: ConnId, u: Uid) returns (end: State)
    requires Leads(start, s) && Sound(s, u) && BindsTo(s, c, u) && c in s.closes && OnlyBinds(s, c, c, u)
    ensures Leads(start, end) && Quiet(end, u) && !Exact(end, u)
  {
    var s1 := FinishClose(start, s, c, u);
    var s2, kicked := LoadToStoring(start, s1, c, u);
    SameBinds(s, s2, c, c, u);
    LastStore(s2, c, u);
    LeadsOn(start, s2, Store(c));
    end := Do(s2, Store(c));
    assert Entry(end, c, u) && c !in end.conns;
  }

  lemma BothStore(s: State, c: ConnId, c': ConnId, u: Uid)
    requires Sound(s, u) && c != c' && BindsTo(s, c, u) && BindsTo(s, c', u) && OnlyBinds(s, c, c', u)
    requires s.binds[c].Storing? && s.binds[c'].Storing? && c !in s.closes && (c' in s.closes ==> s.closes[c'].Closed?)
    ensures CanStep(s, Store(c)) && CanStep(Do(s, Store(c)), Store(c'))
    ensures var end := Do(Do(s, Store(c)), Store(c'));
            Quiet(end, u) && !Exact(end, u)
  {
    var end := Do(Do(s, Store(c)), Store(c'));
    forall d ensures !BindsTo(end, d, u) && !Dropping(end, d, u) {
      assert BindsTo(end, d, u) ==> BindsTo(s, d, u) && d != c && d != c';
      NothingDropping(s, c, c', u, d);
    }
    assert UidFits(s, c);
    assert Entry(end, c', u) && c in end.conns && UidOf(end, c) == u;
  }

  lemma SecondCatchesUp(start: State, s: State, c: ConnId, c': ConnId, u: Uid) returns (s': State)
    requires Leads(start, s) && Sound(s, u) && c != c' && BindsTo(s, c, u) && BindsTo(s, c', u) && OnlyBinds(s, c, c', u)
    requires s.binds[c].Storing? && s.binds[c'].Loading?
    ensures Leads(start, s') && Sound(s', u) && AfterBind(s, s', c', u, None)
  {
    NothingDropping(s, c, c', u, c);
    var s1 := Go(start, s, Load(c'), u);
    s' := FromNaming(start, s1, c', u);
    LoadedThen(s, s', c', u, None);
  }

  lemma BothReady(start: State, s: State, c: ConnId, c': ConnId, u: Uid) returns (s': State)
    requires Leads(start, s) && Sound(s, u) && c != c' && BindsTo(s, c, u) && BindsTo(s, c', u) && OnlyBinds(s, c, c', u)
    requires s.binds[c'].Loading? && c !in s.closes && (c' in s.closes ==> s.closes[c'].Closed?)
    ensures Leads(start, s') && Sound(s', u) && s'.binds == s.binds[c := Storing(u)][c' := Storing(u)]
    ensures OnlyBinds(s', c', c, u) && c !in s'.closes && (c' in s'.closes ==> s'.closes[c'].Closed?)
  {
    var s1, kicked := LoadToStoring(start, s, c, u);
    SameBinds(s, s1, c, c', u);
    s' := SecondCatchesUp(start, s1, c, c', u);
    SameBinds(s1, s', c', c, u);
  }

  /** Two binds to one user that overlap can end with two open connections and one entry. */
  lemma TwoStores(start: State, s: State, c: ConnId, c': ConnId, u: Uid) returns (end: State)
    requires Leads(start, s) && Sound(s, u) && c != c' && BindsTo(s, c, u) && BindsTo(s, c', u) && OnlyBinds(s, c, c', u)
    requires s.binds[c'].Loading? && c !in s.closes && (c' in s.closes ==> s.closes[c'].Closed?)
    ensures Leads(start, end) && Quiet(end, u) && !Exact(end, u)
  {
    var s1 := BothReady(start, s, c, c', u);
    BothStore(s1, c, c', u);
    LeadsOn(start, s1, Store(c));
    LeadsOn(start, Do(s1, Store(c)), Store(c'));
    end := Do(Do(s1, Store(c)), Store(c'));
  }

  /** What the first clash of a run looks like. */
  lemma FirstClash(s: State, e: Step, u: Uid) returns (c: ConnId, c': ConnId)
    requires CanStep(s, e) && !Clash(s, u) && Clash(Do(s, e), u)
    ensures var s' := Do(s, e);
            && BindsTo(s', c, u) && BindsTo(s', c', u) && OnlyBinds(s', c, c', u)
            && (c == c' ==> c in s'.closes)
            && (c != c' ==> c !in s'.closes && s'.binds[c'].Loading?)
  {
    var s' := Do(s, e);
    assert forall a, b :: BindsTo(s, a, u) && BindsTo(s, b, u) ==> a == b && a !in s.closes;
    assert forall a :: BindsTo(s', a, u) ==> BindsTo(s, a, u) || (e == StartBind(a, u) && s'.binds[a].Loading?);
    if a, b :| a != b && BindsTo(s', a, u) && BindsTo(s', b, u) {
      if BindsTo(s, a, u) {
        c, c' := a, b;
      } else {
        c, c' := b, a;
      }
    } else {
      c :| BindsTo(s', c, u) && c in s'.closes;
      c' := c;
    }
  }

  lemma ClashContinues(s: State, c: ConnId, c': ConnId, u: Uid) returns (end: State)
    requires Sound(s, u) && BindsTo(s, c, u) && BindsTo(s, c', u) && OnlyBinds(s, c, c', u)
    requires c == c' ==> c in s.closes
    requires c != c' ==> c !in s.closes && s.binds[c'].Loading?
    ensures Leads(s, end) && Quiet(end, u) && !Exact(end, u)
  {
    LeadsNowhere(s);
    if c == c' {
      end := CloseThenStore(s, s, c, u);
    } else if c' in s.closes {
      var s1 := FinishClose(s, s, c', u);
      SameBinds(s, s1, c, c', u);
      end := TwoStores(s, s1, c, c', u);
    } else {
      end := TwoStores(s, s, c, c', u);
    }
  }

  /**
   The condition is exact: from the first clash of any run, for any user, the run
   can be continued to a state in which nothing of the user's is under way and
   the index is wrong for the user.
   */
  lemma ClashBreaksIndex(run: seq<State>, es: seq<Step>, u: Uid) returns (end: State)
    requires IsRun(run, es) && u > 0
    requires (forall i :: 0 <= i < |es| ==> !Clash(run[i], u)) && Clash(run[|es|], u)
    ensures Leads(run[|es|], end) && Quiet(end, u) && !Exact(end, u)
  {
    var k := |es|;
    InvAlways(run, es, k, u);
    BasicAlways(run, es, k);
    assert k > 0 && !Clash(run[k - 1], u);
    var c, c' := FirstClash(run[k - 1], es[k - 1], u);
    end := ClashContinues(run[k], c, c', u);
  }

  /** Without a clash any bind in progress can be brought to its end, and then its connection has the user's entry. */
  lemma BindCompletes(run: seq<State>, es: seq<Step>, c: ConnId, u: Uid) returns (end: State)
    requires IsRun(run, es) && u > 0 && BindsTo(run[|es|], c, u)
    requires forall i :: 0 <= i <= |es| ==> !Clash(run[i], u)
    ensures Leads(run[|es|], end) && Quiet(end, u) && Entry(end, c, u) && c in end.conns && UidOf(end, c) == u
  {
    var s := run[|es|];
    InvAlways(run, es, |es|, u);
    BasicAlways(run, es, |es|);
    LeadsNowhere(s);
    assert !Clash(s, u);
    assert OnlyBinds(s, c, c, u) && c !in s.closes;
    var s1, kicked := LoadToStoring(s, s, c, u);
    SameBinds(s, s1, c, c, u);
    LastStore(s1, c, u);
    LeadsOn(s, s1, Store(c));
    end := Do(s1, Store(c));
  }

  /** And any close can be brought to its end. */
  lemma CloseCompletes(run: seq<State>, es: seq<Step>, c: ConnId) returns (end: State)
    requires IsRun(run, es) && c in run[|es|].closes
    ensures Leads(run[|es|], end) && c in end.closes && end.closes[c].Closed? && c !in end.conns
    ensures UidOf(end, c) != 0 && c in run[|es|].conns ==> !Entry(end, c, UidOf(end, c))
  {
    var s := run[|es|];
    BasicAlways(run, es, |es|);
    LeadsNowhere(s);
    end := CloseToEnd(s, s, c);
  }

  /** A close takes entries away only, and its connection's uid has none once it was dropped. */
  ghost predicate Dropped(s: State, end: State, c: ConnId)
    requires c in s.closes
  {
    && end.userConns.Keys <= s.userConns.Keys
    && (Left(s.closes[c]) >= 2 && UidOf(s, c) != 0 ==> UidOf(s, c) !in end.userConns)
  }

  lemma DroppedThen(s: State, end: State, c: ConnId)
    requires CanStep(s, Proceed(c)) && UidFits(s, c) && Dropped(Do(s, Proceed(c)), end, c)
    ensures Dropped(s, end, c)
  {}

  lemma {:induction false} CloseToEnd(start: State, s: State, c: ConnId) returns (end: State)
    requires Leads(start, s) && Basic(s) && c in s.closes
    ensures Leads(start, end) && AfterClose(s, end, c) && Dropped(s, end, c)
    decreases Left(s.closes[c])
  {
    if s.closes[c].Closed? {
      end := s;
      ClosedAlready(s, c);
    } else {
      CloseGoesOn(s, c);
      BasicStep(s, Proceed(c));
      LeadsOn(start, s, Proceed(c));
      end := CloseToEnd(start, Do(s, Proceed(c)), c);
      ClosedThen(s, end, c);
      assert UidFits(s, c);
      DroppedThen(s, end, c);
    }
  }

  /** Clashes happen: two new connections bind to one user at once, and the index can end up wrong. */
  lemma OverlappingBinds(u: Uid, c: ConnId, c': ConnId) returns (run: seq<State>, es: seq<Step>, end: State)
    requires u > 0 && c != c'
    ensures IsRun(run, es) && Leads(run[|es|], end) && Quiet(end, u) && !Exact(end, u)
  {
    var s0 := State({}, map[], 0, map[], map[], map[]);
    es := [Register(c), Register(c'), StartBind(c, u), StartBind(c', u)];
    var s1 := Do(s0, es[0]);
    var s2 := Do(s1, es[1]);
    var s3 := Do(s2, es[2]);
    run := [s0, s1, s2, s3, Do(s3, es[3])];
    assert forall b :: BindsTo(s3, b, u) ==> b == c;
    forall i | 0 <= i < 4 ensures !Clash(run[i], u) {
      assert run[i].closes == map[] && forall b :: BindsTo(run[i], b, u) ==> b == c;
    }
    assert BindsTo(run[4], c, u) && BindsTo(run[4], c', u);
    end := ClashBreaksIndex(run, es, u);
  }

  /** A user's connection `c` is closed while the user reconnects with `c'`. */
  ghost function ReconnectSteps(u: Uid, c: ConnId, c': ConnId): seq<Step> {
    [Register(c), Register(c'), StartBind(c, u), Load(c), Name(c), Store(c),
     StartClose(c), Proceed(c), Proceed(c), StartBind(c', u), Load(c')]
  }

  ghost function ReconnectState(u: Uid, c: ConnId, c': ConnId, i: nat): State {
    State(
      if i == 0 then {} else if i == 1 then {c} else if i < 8 then {c, c'} else {c'},
      if 6 <= i < 11 then map[u := c] else map[],
      if i < 2 then i else 2,
      if i == 0 then map[] else if i == 1 then map[c := 0] else map[c := if i < 5 then 0 else u, c' := 0],
      if i < 7 then map[] else map[c := if i == 7 then Unlink else if i == 8 then ReadUid else DropUser(u)],
      if i == 3 then map[c := Loading(u)] else if i == 4 then map[c := Naming(u)] else if i == 5 then map[c := Storing(u)]
      else if i == 10 then map[c' := Loading(u)] else if i == 11 then map[c' := Kicking(u, c)] else map[])
  }

  lemma ReconnectStep(u: Uid, c: ConnId, c': ConnId, i: nat)
    requires u > 0 && c != c' && i < 11
    ensures CanStep(ReconnectState(u, c, c', i), ReconnectSteps(u, c, c')[i])
    ensures Do(ReconnectState(u, c, c', i), ReconnectSteps(u, c, c')[i]) == ReconnectState(u, c, c', i + 1)
  {}

  /**
   A reconnect in the middle of the old connection's close is not a clash: here
   the close is about to drop the entry that the bind has just taken.
   */
  lemma ReconnectDuringClose(u: Uid, c: ConnId, c': ConnId) returns (run: seq<State>, es: seq<Step>)
    requires u > 0 && c != c'
    ensures IsRun(run, es) && forall i :: 0 <= i < |run| ==> !Clash(run[i], u)
    ensures var s := run[|es|];
            c in s.closes && s.closes[c] == DropUser(u) && c' in s.binds && s.binds[c'] == Kicking(u, c)
  {
    es := ReconnectSteps(u, c, c');
    run := seq(12, i requires 0 <= i < 12 => ReconnectState(u, c, c', i));
    forall i | 0 <= i < 11 ensures CanStep(run[i], es[i]) && run[i + 1] == Do(run[i], es[i]) {
      ReconnectStep(u, c, c', i);
    }
  }
}
