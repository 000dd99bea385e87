/**
 Runs that show what the send path allows.  A retry, or another user's send, is
 answered with success although nothing of its own was posted: the dedup key is
 set even when the call that sets it is rate limited or its reply is lost
 (internal/store/redis.go:445-448), and it is built from the client message id
 alone (internal/store/redis.go:457-460).  And the bound on sends per interval
 is reached.
 */
module RetryRuns {
  import SA = SeqAlloc
  import opened SendPath
  import opened RateLimit

  ghost predicate Reachable(s: State) {
    exists run, es :: IsRun(run, es) && run[|es|] == s
  }

  lemma ReachStep(s: State, e: Step)
    requires Reachable(s) && CanStep(s, e)
    ensures Reachable(Do(s, e))
  {
    var run, es :| IsRun(run, es) && run[|es|] == s;
    assert IsRun(run + [Do(s, e)], es + [e]);
    assert (run + [Do(s, e)])[|es + [e]|] == Do(s, e);
  }

  lemma ReachInit(s: State)
    requires Init(s)
    ensures Reachable(s)
  {
    var run, es: seq<Step> := [s], [];
    assert IsRun(run, es) && run[|es|] == s;
  }

  /** The second of two checks with one client message id is answered from the key the first one created. */
  lemma SecondAnswered(s: State, t: SA.ThreadId, t': SA.ThreadId, delivered: bool)
    requires IdInv(s) && t != t' && CanStep(s, Check(t, delivered)) && CanStep(s, Check(t', true))
    requires s.senders[t].req.cmid == s.senders[t'].req.cmid != "" && !DedupLive(s.keys, s.now, s.senders[t].req.cmid)
    ensures var s' := Do(s, Check(t, delivered));
            && CanStep(s', Check(t', true)) && |s'.calls| == |s.calls| + 1
            && s'.calls[|s.calls|] == ScriptCall(s, s.senders[t].req, s.senders[t].id, delivered).1
            && SetsKey(s'.calls[|s.calls|]) && s'.calls[|s.calls|].at == s'.now
            && ScriptCall(s', s'.senders[t'].req, s'.senders[t'].id, true).1.outcome == Duplicate(s.senders[t].id)
            && s'.senders[t'] == s.senders[t']
  {
    HintPositive(s, t);
  }

  lemma SecondReplies(s: State, t: SA.ThreadId, id: int)
    requires CanStep(s, Check(t, true)) && ScriptCall(s, s.senders[t].req, s.senders[t].id, true).1.outcome == Duplicate(id)
    ensures var s' := Do(s, Check(t, true));
            && s'.replies == s.replies + [Sent(s.senders[t].req, id, |s.calls|)]
            && |s'.calls| == |s.calls| + 1 && (forall i :: 0 <= i < |s.calls| ==> s'.calls[i] == s.calls[i])
            && s'.calls[|s.calls|].req == s.senders[t].req && s'.calls[|s.calls|].at == s.now
  {}

  /**
   Two senders use one non-empty client message id whose key is not live.  If the
   first check is not accepted, or is by another user or to another channel, the
   second is answered with success, and no message of its own is posted or on
   its way.
   */
  lemma RetryUnbacked(s: State, t: SA.ThreadId, t': SA.ThreadId, delivered: bool)
    requires Reachable(s) && t != t' && CanStep(s, Check(t, delivered)) && CanStep(s, Check(t', true))
    requires s.senders[t].req.cmid == s.senders[t'].req.cmid != "" && !DedupLive(s.keys, s.now, s.senders[t].req.cmid)
    requires !Accepted(ScriptCall(s, s.senders[t].req, s.senders[t].id, delivered).1) || s.senders[t].req != s.senders[t'].req
    ensures var s' := Do(s, Check(t, delivered));
            && CanStep(s', Check(t', true))
            && var s'' := Do(s', Check(t', true));
            && Reachable(s'')
            && s''.replies == s'.replies + [Sent(s.senders[t'].req, s.senders[t].id, |s.calls| + 1)]
            && InLife(s''.calls, |s.calls|, |s.calls| + 1)
            && !BackedInLife(s'', |s.calls|, s.senders[t'].req)
  {
    var run, es :| IsRun(run, es) && run[|es|] == s;
    Always(run, es, |es|);
    SecondAnswered(s, t, t', delivered);
    var s' := Do(s, Check(t, delivered));
    SecondReplies(s', t', s.senders[t].id);
    ReachStep(s, Check(t, delivered));
    ReachStep(s', Check(t', true));
    UnbackedThere(Do(s', Check(t', true)), |s'.replies|, |s.calls|);
  }

  lemma UnbackedThere(s: State, r: nat, i: nat)
    requires Reachable(s) && r < |s.replies| && InLife(s.calls, i, s.replies[r].call)
    requires !Accepted(s.calls[i]) || s.calls[i].req != s.replies[r].req
    ensures !BackedInLife(s, i, s.replies[r].req)
  {
    var run, es :| IsRun(run, es) && run[|es|] == s;
    ReplyBackedIff(run, es, |es|, r, i);
    Always(run, es, |es|);
    assert ReplySound(s, s.replies[r]);
  }

  ghost predicate AtRest(s: State, t: SA.ThreadId) {
    t in s.senders && s.senders[t].Ready? && t in s.seqs.threads && s.seqs.threads[t].phase.Idle?
  }

  /** Only thread `t` of the allocator moved, to phase `p`. */
  ghost predicate Moved(s: State, s': State, t: SA.ThreadId, p: SA.Phase) {
    && s' == s.(seqs := s'.seqs)
    && t in s.seqs.threads
    && s'.seqs.threads == s.seqs.threads[t := s.seqs.threads[t].(phase := p)]
  }

  /** A refilling thread can finish its allocation. */
  lemma Refills(s: State, t: SA.ThreadId) returns (s': State, id: int)
    requires Reachable(s) && t in s.seqs.threads && s.seqs.threads[t].phase.Refill?
    ensures Reachable(s') && Moved(s, s', t, SA.Done(s.seqs.threads[t].phase.ch, id))
  {
    ReachStep(s, Alloc(SA.IncrBy(t)));
    var s1 := Do(s, Alloc(SA.IncrBy(t)));
    ReachStep(s1, Alloc(SA.Install(t)));
    s' := Do(s1, Alloc(SA.Install(t)));
    id := s'.seqs.threads[t].phase.id;
  }

  /** A sender inside SendMsg can get its id. */
  lemma Allocates(s: State, t: SA.ThreadId) returns (s': State, id: int)
    requires Reachable(s) && t in s.senders && s.senders[t].Allocating?
    requires t in s.seqs.threads && s.seqs.threads[t].phase.Idle?
    ensures Reachable(s') && Moved(s, s', t, SA.Done(s.senders[t].req.channel, id))
  {
    var fast := Alloc(SA.FastPath(t, s.senders[t].req.channel));
    ReachStep(s, fast);
    s' := Do(s, fast);
    if s'.seqs.threads[t].phase.Refill? {
      s', id := Refills(s', t);
    } else {
      id := s'.seqs.threads[t].phase.id;
    }
  }

  /** A sender at rest can get as far as its check, with nothing else changed. */
  lemma GetsAnId(s: State, t: SA.ThreadId, req: Request) returns (s': State)
    requires Reachable(s) && AtRest(s, t)
    ensures Reachable(s') && t in s'.senders && s'.senders[t].Checking? && s'.senders[t].req == req
    ensures s' == s.(seqs := s'.seqs, senders := s.senders[t := s'.senders[t]])
    ensures t in s'.seqs.threads && s'.seqs.threads == s.seqs.threads[t := s'.seqs.threads[t]] && s'.seqs.threads[t].phase.Idle?
  {
    var s1 := Do(s, Begin(t, req));
    ReachStep(s, Begin(t, req));
    var s2, id := Allocates(s1, t);
    ReachStep(s2, AllocReturns(t));
    s' := Do(s2, AllocReturns(t));
  }

  const USER: int := 7
  const ANON := Request(USER, "world", "")
  const NAMED := Request(USER, "world", "m")

  /** How often the user's living rate key was used; 0 when there is none. */
  function Used(s: State): int { if RateLive(s.keys, s.now, USER) then s.keys.rate[USER].count else 0 }

  /** From `s` to `s'` the user's sends, without client message ids, all passed within one instant. */
  ghost predicate AllPassed(s: State, s': State, n: nat) {
    && s'.now == s.now && s'.keys.dedup == s.keys.dedup
    && |s'.calls| == |s.calls| + n && s.calls <= s'.calls
    && (forall i :: |s.calls| <= i < |s'.calls| ==> Passed(s'.calls, i, USER) && s'.calls[i].at == s.now)
    && (n > 0 ==> RateLive(s'.keys, s'.now, USER) && s'.keys.rate[USER] == RateKey(Used(s) + n, ExpiryAfter(s)))
    && (n == 0 ==> s' == s)
  }

  /** When the user's rate key expires once it has been used. */
  function ExpiryAfter(s: State): int {
    if RateLive(s.keys, s.now, USER) then s.keys.rate[USER].expireAt else s.now + RATE_LIMIT_TTL
  }

  /** The user's next call, without a client message id, is fresh and counts one more. */
  lemma NextCall(s: State, s1: State, id: int)
    requires Reachable(s) && s1.keys == s.keys && s1.now == s.now && Used(s) < RATE_PER_SECOND
    ensures Used(s) >= 0
    ensures var (keys, call) := ScriptCall(s1, ANON, id, true);
            && Accepted(call) && call.outcome.count == Used(s) + 1 && call.at == s.now && call.req == ANON
            && keys == s.keys.(rate := s.keys.rate[USER := RateKey(Used(s) + 1, ExpiryAfter(s))])
  {
    var run, es :| IsRun(run, es) && run[|es|] == s;
    Always(run, es, |es|);
    RatedAlways(run, es, |es|);
    assert USER in s.keys.rate ==> KeyRated(s.keys.rate[USER], s.calls, s.now, USER);
    assert "" !in s.keys.dedup;
  }

  lemma SendOnce(s: State) returns (s': State)
    requires Reachable(s) && AtRest(s, 0) && Used(s) < RATE_PER_SECOND
    ensures Reachable(s') && AtRest(s', 0) && AllPassed(s, s', 1)
    ensures forall t :: t != 0 && AtRest(s, t) ==> AtRest(s', t)
  {
    var s1 := GetsAnId(s, 0, ANON);
    var id := s1.senders[0].id;
    NextCall(s, s1, id);
    var s2 := Do(s1, Check(0, true));
    assert s2.senders[0] == Posting(ANON, id, |s.calls|);
    s' := PostsAndReplies(s1, s2);
  }

  /** After an accepted check a sender can come to rest. */
  lemma PostsAndReplies(s1: State, s2: State) returns (s': State)
    requires Reachable(s1) && CanStep(s1, Check(0, true)) && s2 == Do(s1, Check(0, true)) && s2.senders[0].Posting?
    ensures Reachable(s') && s'.senders == s2.senders[0 := Ready]
    ensures s'.seqs == s2.seqs && s'.now == s2.now && s'.keys == s2.keys && s'.calls == s2.calls
  {
    ReachStep(s1, Check(0, true));
    var s3 := Do(s2, Post(0));
    ReachStep(s2, Post(0));
    s' := Do(s3, Reply(0));
    ReachStep(s3, Reply(0));
  }

  lemma PassedKept(s: State, s': State, s'': State, n: nat)
    requires AllPassed(s, s', n) && AllPassed(s', s'', 1)
    ensures AllPassed(s, s'', n + 1)
  {
    forall i | |s.calls| <= i < |s''.calls| ensures Passed(s''.calls, i, USER) && s''.calls[i].at == s.now {
      if i < |s'.calls| {
        assert Passed(s'.calls, i, USER) && s''.calls[i] == s'.calls[i];
      }
    }
  }

  /** The user can have as many sends accepted within one instant as the living key leaves room for. */
  lemma {:induction false} SendsInARow(s: State, n: nat) returns (s': State)
    requires Reachable(s) && AtRest(s, 0) && Used(s) + n <= RATE_PER_SECOND
    ensures Reachable(s') && AtRest(s', 0) && AllPassed(s, s', n)
    ensures forall t :: t != 0 && AtRest(s, t) ==> AtRest(s', t)
  {
    if n == 0 {
      s' := s;
    } else {
      var s1 := SendsInARow(s, n - 1);
      s' := SendOnce(s1);
      PassedKept(s, s1, s', n - 1);
    }
  }

  /** Two senders at rest, and nothing sent. */
  lemma Beginning() returns (s: State)
    ensures Reachable(s) && AtRest(s, 0) && AtRest(s, 1) && s.calls == [] && s.now == 0 && s.keys == Keys(map[], map[])
  {
    var threads := map[0 := SA.Thread(0, SA.Idle), 1 := SA.Thread(0, SA.Idle)];
    s := State(0, SA.State(map[], map[], threads, []), Keys(map[], map[]), map[0 := Ready, 1 := Ready], [], [], []);
    ReachInit(s);
  }

  /** The rate-limited case occurs: a run in which the first call was over the limit and its retry "succeeds". */
  lemma RateLimitedRetry() returns (s: State, i: nat, r: nat)
    ensures Reachable(s) && r < |s.replies| && InLife(s.calls, i, s.replies[r].call)
    ensures s.calls[i].outcome.count > RATE_PER_SECOND && s.calls[i].delivered
    ensures !BackedInLife(s, i, s.replies[r].req)
  {
    var start := Beginning();
    var s0 := SendsInARow(start, RATE_PER_SECOND);
    var s1 := GetsAnId(s0, 0, NAMED);
    var s2 := GetsAnId(s1, 1, NAMED);
    OverLimit(s2, s2.senders[0].id);
    RetryUnbacked(s2, 0, 1, true);
    var s3 := Do(s2, Check(0, true));
    s := Do(s3, Check(1, true));
    i, r := |s2.calls|, |s3.replies|;
  }

  lemma OverLimit(s: State, id: int)
    requires s.keys.dedup == map[] && Used(s) == RATE_PER_SECOND
    ensures var call := ScriptCall(s, NAMED, id, true).1;
            call.outcome.Fresh? && call.outcome.count == RATE_PER_SECOND + 1 && call.delivered
  {}

  /** The shared id occurs: a run in which one user's send is answered with another user's message. */
  lemma SharedClientId(mine: Request, theirs: Request) returns (s: State, i: nat, r: nat)
    requires mine.cmid == theirs.cmid != "" && mine != theirs
    ensures Reachable(s) && r < |s.replies| && InLife(s.calls, i, s.replies[r].call)
    ensures s.replies[r].req == mine && s.calls[i].req == theirs && Accepted(s.calls[i])
    ensures !BackedInLife(s, i, mine)
  {
    var start := Beginning();
    var s1 := GetsAnId(start, 0, theirs);
    var s2 := GetsAnId(s1, 1, mine);
    RetryUnbacked(s2, 0, 1, true);
    var s3 := Do(s2, Check(0, true));
    s := Do(s3, Check(1, true));
    i, r := |s2.calls|, |s3.replies|;
  }

  ghost function Range(lo: nat, hi: nat): (r: set<nat>)
    requires lo <= hi
    ensures |r| == hi - lo && forall i :: i in r <==> lo <= i < hi
  {
    if lo == hi then {} else Range(lo, hi - 1) + {hi - 1}
  }

  /** The bound on an interval is reached: one send creates a key, 99 more use it at its end, and 100 its successor. */
  lemma IntervalBoundReached() returns (s: State, from: int, picked: set<nat>)
    ensures Reachable(s) && |picked| == 199
    ensures forall i :: i in picked ==> Passed(s.calls, i, USER) && from <= s.calls[i].at < from + 1000
  {
    var s0 := Beginning();
    var s1 := SendsInARow(s0, 1);
    ReachStep(s1, Tick(RATE_LIMIT_TTL - 1));
    var s2 := Do(s1, Tick(RATE_LIMIT_TTL - 1));
    var s3 := SendsInARow(s2, RATE_PER_SECOND - 1);
    ReachStep(s3, Tick(1));
    var s4 := Do(s3, Tick(1));
    s := SendsInARow(s4, RATE_PER_SECOND);
    from, picked := s2.now, Range(1, 2 * RATE_PER_SECOND);
    forall i | i in picked ensures Passed(s.calls, i, USER) && from <= s.calls[i].at < from + RATE_LIMIT_TTL {
      if i < |s3.calls| {
        assert Passed(s3.calls, i, USER) && s.calls[i] == s3.calls[i];
      }
    }
  }
}
