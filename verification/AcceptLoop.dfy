/**
 The connection limit (internal/gateway/server.go:56-75) with Register and
 Unregister split into their single atomic operations
 (internal/gateway/conn_manager.go:26-38).
 */
module AcceptLoop {

  type ConnId = nat

  /** The one accept loop: between the limit check and the last step of Register. */
  datatype Acceptor = Waiting | Admitted(c: ConnId) | Entered(c: ConnId)

  datatype State = State(
    max: int,
    acceptor: Acceptor,
    conns: set<ConnId>,
    leaving: set<ConnId>,  // deleted from the map, not yet subtracted from the count
    count: int)

  datatype Step =
    | Accept(c: ConnId)   // the check of line 66 on a new connection
    | Enter               // conns.Store
    | CountUp             // count.Add(1)
    | Leave(c: ConnId)    // conns.Delete, once per connection
    | CountDown(c: ConnId)

  predicate CanStep(s: State, e: Step) {
    match e
    case Accept(c) => s.acceptor.Waiting? && c !in s.conns && c !in s.leaving
    case Enter => s.acceptor.Admitted?
    case CountUp => s.acceptor.Entered?
    case Leave(c) => c in s.conns
    case CountDown(c) => c in s.leaving
  }

  function Do(s: State, e: Step): State
    requires CanStep(s, e)
  {
    match e
    case Accept(c) => if s.count >= s.max then s else s.(acceptor := Admitted(c))
    case Enter => s.(conns := s.conns + {s.acceptor.c}, acceptor := Entered(s.acceptor.c))
    case CountUp => s.(count := s.count + 1, acceptor := Waiting)
    case Leave(c) => s.(conns := s.conns - {c}, leaving := s.leaving + {c})
    case CountDown(c) => s.(leaving := s.leaving - {c}, count := s.count - 1)
  }

  ghost predicate IsRun(run: seq<State>, es: seq<Step>) {
    && |run| == |es| + 1
    && run[0].max >= 0 && run[0] == State(run[0].max, Waiting, {}, {}, 0)
    && forall i :: 0 <= i < |es| ==> CanStep(run[i], es[i]) && run[i + 1] == Do(run[i], es[i])
  }

  /** The counter runs behind the map by one entering connection, and ahead of it by those leaving. */
  ghost predicate Inv(s: State) {
    && s.conns !! s.leaving
    && (s.acceptor.Admitted? ==> s.acceptor.c !in s.conns && s.acceptor.c !in s.leaving)
    && s.count == |s.conns| + |s.leaving| - (if s.acceptor.Entered? then 1 else 0)
    && s.count <= s.max
    && (!s.acceptor.Waiting? ==> s.count < s.max)
  }

  lemma InvStep(s: State, e: Step)
    requires Inv(s) && CanStep(s, e)
    ensures Inv(Do(s, e))
  {
    match e
    case Leave(c) => assert |s.conns - {c}| == |s.conns| - 1 && |s.leaving + {c}| == |s.leaving| + 1;
    case CountDown(c) => assert |s.leaving - {c}| == |s.leaving| - 1;
    case Enter => assert |s.conns + {s.acceptor.c}| == |s.conns| + 1;
    case _ =>
  }

  /** Whatever connections come and go meanwhile, neither the counter nor the map exceeds the limit. */
  lemma {:induction false} LimitHolds(run: seq<State>, es: seq<Step>, k: nat)
    requires IsRun(run, es) && k < |run|
    ensures Inv(run[k]) && run[k].max == run[0].max
    ensures run[k].count <= run[0].max && |run[k].conns| <= run[0].max
  {
    if k > 0 {
      LimitHolds(run, es, k - 1);
      InvStep(run[k - 1], es[k - 1]);
    }
  }

  /** At rest the counter is the number of registered connections. */
  lemma CountAtRest(run: seq<State>, es: seq<Step>, k: nat)
    requires IsRun(run, es) && k < |run| && !run[k].acceptor.Entered? && run[k].leaving == {}
    ensures run[k].count == |run[k].conns|
  {
    LimitHolds(run, es, k);
  }

  /**
   A connection that arrives while the accept loop waits is registered and
   counted exactly when the counter is below the limit; otherwise nothing changes.
   */
  lemma AdmittedIff(s: State, c: ConnId)
    requires CanStep(s, Accept(c))
    ensures s.count >= s.max ==> Do(s, Accept(c)) == s
    ensures s.count < s.max ==>
              var admitted := Do(s, Accept(c));
              && CanStep(admitted, Enter) && CanStep(Do(admitted, Enter), CountUp)
              && var end := Do(Do(admitted, Enter), CountUp);
              && end == s.(conns := s.conns + {c}, count := s.count + 1)
              && c !in s.conns
  {}

  /** A registered connection can leave, and then is gone and no longer counted. */
  lemma LeavesFully(s: State, c: ConnId)
    requires Inv(s) && c in s.conns
    ensures CanStep(s, Leave(c)) && CanStep(Do(s, Leave(c)), CountDown(c))
    ensures Do(Do(s, Leave(c)), CountDown(c)) == s.(conns := s.conns - {c}, count := s.count - 1)
  {
    assert s.leaving + {c} - {c} == s.leaving;
  }

  /** At rest a place is free exactly when fewer connections than the limit are registered. */
  lemma FullIff(run: seq<State>, es: seq<Step>, k: nat, c: ConnId)
    requires IsRun(run, es) && k < |run| && run[k].acceptor.Waiting? && run[k].leaving == {} && c !in run[k].conns
    ensures Do(run[k], Accept(c)).acceptor == (if |run[k].conns| < run[0].max then Admitted(c) else Waiting)
  {
    CountAtRest(run, es, k);
    LimitHolds(run, es, k);
  }
}
