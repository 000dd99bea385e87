/**
 What the rate limit guarantees over every run of the send path
 (internal/store/redis.go:439-443, internal/service/msg.go:114-119).
 */
module RateLimit {
  import opened SendPath

  /** A call by `uid` that used the rate key created at time `w`. */
  predicate Counted(c: Call, uid: int, w: int) {
    c.req.uid == uid && c.outcome.Fresh? && c.outcome.window == w
  }

  /** How many calls by `uid` used the rate key created at time `w`. */
  function Uses(calls: seq<Call>, uid: int, w: int): nat {
    if calls == [] then 0
    else Uses(calls[..|calls| - 1], uid, w) + if Counted(calls[|calls| - 1], uid, w) then 1 else 0
  }

  lemma {:induction false} UsesAppend(calls: seq<Call>, c: Call, uid: int, w: int)
    ensures Uses(calls + [c], uid, w) == Uses(calls, uid, w) + if Counted(c, uid, w) then 1 else 0
  {
    assert (calls + [c])[..|calls|] == calls;
  }

  lemma {:induction false} UnusedKey(calls: seq<Call>, uid: int, w: int)
    requires forall i :: 0 <= i < |calls| ==> !Counted(calls[i], uid, w)
    ensures Uses(calls, uid, w) == 0
  {
    if calls != [] {
      UnusedKey(calls[..|calls| - 1], uid, w);
    }
  }

  lemma {:induction false} UsesGrow(calls: seq<Call>, i: nat, j: nat, uid: int, w: int)
    requires i < j <= |calls| && Counted(calls[i], uid, w)
    ensures Uses(calls[..i], uid, w) < Uses(calls[..j], uid, w)
  {
    assert calls[..j][..j - 1] == calls[..j - 1];
    if i < j - 1 {
      UsesGrow(calls, i, j - 1, uid, w);
    }
  }

  /** Two lifetimes of one user's rate key do not overlap. */
  predicate SameOrLater(w: int, w': int) { w == w' || w + RATE_LIMIT_TTL <= w' }

  /** Call `i` used a living rate key, which its count tells how many calls used before; the first created it. */
  ghost predicate CallRated(calls: seq<Call>, i: nat) {
    i < |calls| && calls[i].outcome.Fresh? ==>
      && calls[i].outcome.window <= calls[i].at < calls[i].outcome.window + RATE_LIMIT_TTL
      && calls[i].outcome.count == Uses(calls[..i], calls[i].req.uid, calls[i].outcome.window) + 1
      && (calls[i].outcome.count == 1 ==> calls[i].outcome.window == calls[i].at)
  }

  ghost predicate KeyOrder(calls: seq<Call>, i: nat, j: nat) {
    i < j < |calls| && calls[i].outcome.Fresh? && calls[j].outcome.Fresh? && calls[i].req.uid == calls[j].req.uid ==>
      SameOrLater(calls[i].outcome.window, calls[j].outcome.window)
  }

  ghost predicate CallsRated(calls: seq<Call>) {
    (forall i: nat :: CallRated(calls, i)) && (forall i: nat, j: nat :: KeyOrder(calls, i, j))
  }

  /** A rate key of user `u` agrees with the calls made so far. */
  ghost predicate KeyRated(key: RateKey, calls: seq<Call>, now: int, u: int) {
    var w := key.expireAt - RATE_LIMIT_TTL;
    && w <= now
    && key.count == Uses(calls, u, w) >= 1
    && (forall i :: 0 <= i < |calls| && calls[i].req.uid == u && calls[i].outcome.Fresh? ==> SameOrLater(calls[i].outcome.window, w))
  }

  ghost predicate KeysRated(rate: map<int, RateKey>, calls: seq<Call>, now: int) {
    && (forall u :: u in rate ==> KeyRated(rate[u], calls, now, u))
    && (forall i :: 0 <= i < |calls| && calls[i].outcome.Fresh? ==> calls[i].req.uid in rate)
  }

  ghost predicate Rated(s: State) {
    CallsRated(s.calls) && KeysRated(s.keys.rate, s.calls, s.now)
  }

  /** A fresh call's count and key, told by the calls so far; an answered duplicate leaves the keys alone. */
  ghost predicate Fits(rate: map<int, RateKey>, calls: seq<Call>, call: Call, rate': map<int, RateKey>) {
    if call.outcome.Fresh? then
      var uid, w := call.req.uid, call.outcome.window;
      && w <= call.at < w + RATE_LIMIT_TTL
      && call.outcome.count == Uses(calls, uid, w) + 1
      && (call.outcome.count == 1 ==> w == call.at)
      && rate' == rate[uid := RateKey(call.outcome.count, w + RATE_LIMIT_TTL)]
      && (forall i :: 0 <= i < |calls| && calls[i].req.uid == uid && calls[i].outcome.Fresh? ==> SameOrLater(calls[i].outcome.window, w))
    else rate' == rate
  }

  lemma ScriptFits(s: State, req: Request, id: int, delivered: bool)
    requires IdInv(s) && DedupInv(s) && KeysRated(s.keys.rate, s.calls, s.now)
    ensures var (keys, call) := ScriptCall(s, req, id, delivered);
            Fits(s.keys.rate, s.calls, call, keys.rate)
  {
    var l := Finds(s, req, id, delivered);
    if !RateLive(s.keys, s.now, req.uid) {
      UnusedKey(s.calls, req.uid, s.now);
    }
  }

  lemma NewCallRated(rate: map<int, RateKey>, calls: seq<Call>, call: Call, rate': map<int, RateKey>)
    requires CallsRated(calls) && Fits(rate, calls, call, rate')
    ensures CallsRated(calls + [call])
  {
    var calls' := calls + [call];
    forall i: nat ensures CallRated(calls', i) {
      if i <= |calls| {
        assert calls'[..i] == calls[..i] && calls[..|calls|] == calls;
        assert CallRated(calls, i);
      }
    }
    forall i: nat, j: nat ensures KeyOrder(calls', i, j) {
      assert KeyOrder(calls, i, j);
    }
  }

  lemma NewKeysRated(rate: map<int, RateKey>, calls: seq<Call>, call: Call, rate': map<int, RateKey>)
    requires KeysRated(rate, calls, call.at) && Fits(rate, calls, call, rate')
    ensures KeysRated(rate', calls + [call], call.at)
  {
    forall u | u in rate' ensures KeyRated(rate'[u], calls + [call], call.at, u) {
      UsesAppend(calls, call, u, rate'[u].expireAt - RATE_LIMIT_TTL);
    }
  }

  lemma RatedInitial(s: State)
    requires Init(s)
    ensures Rated(s)
  {}

  lemma RatedStep(s: State, e: Step)
    requires IdInv(s) && DedupInv(s) && Rated(s) && CanStep(s, e)
    ensures Rated(Do(s, e))
  {
    if e.Check? {
      var (keys, call) := ScriptCall(s, s.senders[e.t].req, s.senders[e.t].id, e.delivered);
      ScriptFits(s, s.senders[e.t].req, s.senders[e.t].id, e.delivered);
      NewCallRated(s.keys.rate, s.calls, call, keys.rate);
      NewKeysRated(s.keys.rate, s.calls, call, keys.rate);
      assert Do(s, e).calls == s.calls + [call] && Do(s, e).keys == keys;
    } else {
      assert Do(s, e).calls == s.calls && Do(s, e).keys == s.keys && s.now <= Do(s, e).now;
    }
  }

  lemma {:induction false} RatedAlways(run: seq<State>, es: seq<Step>, k: nat)
    requires IsRun(run, es) && k < |run|
    ensures Rated(run[k])
  {
    if k == 0 {
      RatedInitial(run[0]);
    } else {
      RatedAlways(run, es, k - 1);
      Always(run, es, k - 1);
      RatedStep(run[k - 1], es[k - 1]);
    }
  }

  /**
   A call is let through exactly when fewer than the limit of earlier calls used
   the same rate key; answered duplicates are not among them.
   */
  lemma AllowedIff(run: seq<State>, es: seq<Step>, k: nat, i: nat)
    requires IsRun(run, es) && k < |run| && i < |run[k].calls| && run[k].calls[i].outcome.Fresh?
    ensures var c := run[k].calls[i];
            c.outcome.count <= RATE_PER_SECOND <==> Uses(run[k].calls[..i], c.req.uid, c.outcome.window) < 100
  {
    RatedAlways(run, es, k);
    assert CallRated(run[k].calls, i);
  }

  /** Call `i` is a call by `uid` that the rate limit let through. */
  predicate Passed(calls: seq<Call>, i: nat, uid: int) {
    i < |calls| && calls[i].req.uid == uid && calls[i].outcome.Fresh? && calls[i].outcome.count <= RATE_PER_SECOND
  }

  /** Calls with pairwise distinct rate counts above `n` and up to `m` are at most `m - n`. */
  lemma {:induction false} Pigeonhole(calls: seq<Call>, picked: set<nat>, n: nat, m: nat)
    requires n <= m
    requires forall i :: i in picked ==> i < |calls| && calls[i].outcome.Fresh? && n < calls[i].outcome.count <= m
    requires forall i, j | i in picked && j in picked :: calls[i].outcome.count == calls[j].outcome.count ==> i == j
    ensures |picked| <= m - n
    decreases m
  {
    if m == n {
      assert picked == {};
    } else if i :| i in picked && calls[i].outcome.count == m {
      Pigeonhole(calls, picked - {i}, n, m - 1);
    } else {
      Pigeonhole(calls, picked, n, m - 1);
    }
  }

  /** Calls that used one key and had counts above `n` are at most the limit less `n`. */
  lemma LimitOfKey(calls: seq<Call>, uid: int, w: int, picked: set<nat>, n: nat)
    requires CallsRated(calls) && n <= RATE_PER_SECOND
    requires forall i :: i in picked ==> Passed(calls, i, uid) && calls[i].outcome.window == w && calls[i].outcome.count > n
    ensures |picked| <= RATE_PER_SECOND - n
  {
    forall i, j | i in picked && j in picked && i < j ensures calls[i].outcome.count != calls[j].outcome.count {
      assert CallRated(calls, i) && CallRated(calls, j);
      UsesGrow(calls, i, j, uid, w);
    }
    Pigeonhole(calls, picked, n, RATE_PER_SECOND);
  }

  /** At most the limit of a user's calls pass per rate-key lifetime. */
  lemma LimitPerKey(run: seq<State>, es: seq<Step>, k: nat, uid: int, w: int, picked: set<nat>)
    requires IsRun(run, es) && k < |run|
    requires forall i :: i in picked ==> Passed(run[k].calls, i, uid) && run[k].calls[i].outcome.window == w
    ensures |picked| <= 100
  {
    RatedAlways(run, es, k);
    forall i | i in picked ensures run[k].calls[i].outcome.count > 0 {
      assert CallRated(run[k].calls, i);
    }
    LimitOfKey(run[k].calls, uid, w, picked, 0);
  }

  /** Within one interval, the calls whose key is older than it share that key, and so do the others. */
  lemma OneKeyEachSide(calls: seq<Call>, uid: int, from: int, i: nat, j: nat)
    requires CallsRated(calls) && Passed(calls, i, uid) && Passed(calls, j, uid)
    requires from <= calls[i].at < from + RATE_LIMIT_TTL && from <= calls[j].at < from + RATE_LIMIT_TTL
    requires calls[i].outcome.window < from <==> calls[j].outcome.window < from
    ensures calls[i].outcome.window == calls[j].outcome.window
  {
    assert CallRated(calls, i) && CallRated(calls, j) && KeyOrder(calls, i, j) && KeyOrder(calls, j, i);
  }

  /**
   At most one less than twice the limit of a user's calls pass in any half-open
   interval of one rate-key lifetime: a key older than the interval was created
   by a call before it.
   */
  lemma LimitPerInterval(run: seq<State>, es: seq<Step>, k: nat, uid: int, from: int, picked: set<nat>)
    requires IsRun(run, es) && k < |run|
    requires forall i :: i in picked ==> Passed(run[k].calls, i, uid) && from <= run[k].calls[i].at < from + 1000
    ensures |picked| <= 199
  {
    RatedAlways(run, es, k);
    LimitOfInterval(run[k].calls, uid, from, picked);
  }

  lemma LimitOfInterval(calls: seq<Call>, uid: int, from: int, picked: set<nat>)
    requires CallsRated(calls)
    requires forall i :: i in picked ==> Passed(calls, i, uid) && from <= calls[i].at < from + RATE_LIMIT_TTL
    ensures |picked| <= 2 * RATE_PER_SECOND - 1
  {
    var early := set i | i in picked && calls[i].outcome.window < from;
    SideLimit(calls, uid, from, true, early);
    SideLimit(calls, uid, from, false, picked - early);
    assert picked == early + (picked - early);
  }

  lemma SideLimit(calls: seq<Call>, uid: int, from: int, older: bool, picked: set<nat>)
    requires CallsRated(calls)
    requires forall i :: i in picked ==>
               && Passed(calls, i, uid) && from <= calls[i].at < from + RATE_LIMIT_TTL
               && (calls[i].outcome.window < from <==> older)
    ensures |picked| <= RATE_PER_SECOND - if older then 1 else 0
  {
    if i :| i in picked {
      forall j | j in picked
        ensures calls[j].outcome.window == calls[i].outcome.window && calls[j].outcome.count > if older then 1 else 0
      {
        assert CallRated(calls, j);
        OneKeyEachSide(calls, uid, from, i, j);
      }
      LimitOfKey(calls, uid, calls[i].outcome.window, picked, if older then 1 else 0);
    }
  }
}
