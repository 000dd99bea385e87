/**
 The send path (internal/service/msg.go, internal/store/redis.go).

 Any number of senders run `SendMsg`: allocate an id (SeqAlloc, step by step),
 run the atomic dedup-and-rate script, post, reply.  Every Redis command or
 script is one step.  Redis keys expire by the Redis clock, in milliseconds.
 */
module SendPath {
  import opened Prelude
  import SA = SeqAlloc

  const RATE_PER_SECOND: int := 100
  const RATE_LIMIT_TTL: int := 1000
  const DEDUP_TTL: int := 24 * 3600 * 1000

  // ---------------------------------------------------------------------
  // The script
  // ---------------------------------------------------------------------

  datatype DedupKey = DedupKey(msgId: int, expireAt: int)
  datatype RateKey = RateKey(count: int, expireAt: int)

  /** The keys the script touches: dedup by client message id, rate by user. */
  datatype Keys = Keys(dedup: map<string, DedupKey>, rate: map<int, RateKey>)

  predicate DedupLive(k: Keys, now: int, cmid: string) { cmid in k.dedup && now < k.dedup[cmid].expireAt }

  predicate RateLive(k: Keys, now: int, uid: int) { uid in k.rate && now < k.rate[uid].expireAt }

  /** The rate key after INCR, with EXPIRE when the count is 1. */
  function Bump(k: Keys, now: int, uid: int): RateKey {
    if RateLive(k, now, uid) && k.rate[uid].count != 0 then k.rate[uid].(count := k.rate[uid].count + 1)
    else RateKey(1, now + RATE_LIMIT_TTL)
  }

  /** The Lua script (lines 425-451): the new keys and the pair it returns. */
  function DedupRateScript(k: Keys, now: int, cmid: string, uid: int, dedupTtl: int, seqHint: int): (Keys, (int, int)) {
    if DedupLive(k, now, cmid) then
      (k, (k.dedup[cmid].msgId, 0))
    else
      var rate := Bump(k, now, uid);
      var dedup := if dedupTtl > 0 && seqHint > 0 then k.dedup[cmid := DedupKey(seqHint, now + dedupTtl)] else k.dedup;
      (Keys(dedup, k.rate[uid := rate]), (-1, rate.count))
  }

  datatype DedupRateResult = DedupRateResult(dedupExists: bool, dedupMsgId: int, rateOk: bool)

  /** Lines 456-480: how the reply is read. */
  function ReadReply(res: (int, int), rateLimit: int): DedupRateResult {
    DedupRateResult(res.0 >= 0, if res.0 >= 0 then res.0 else 0, res.1 <= rateLimit)
  }

  function DedupTtlFor(cmid: string): int { if cmid != "" then DEDUP_TTL else 0 }

  /** How many calls the user's living rate key has counted. */
  function CountNow(rate: map<int, RateKey>, now: int, uid: int): int {
    if uid in rate && now < rate[uid].expireAt then rate[uid].count else 0
  }

  class RedisStore {
    var dedup: map<string, DedupKey>
    var rate: map<int, RateKey>

    ghost function Snapshot(): Keys
      reads this
    {
      Keys(dedup, rate)
    }

    /** The script run key by key, in place, and its reply decoded. */
    method DedupAndRateCheck(now: int, cmid: string, uid: int, rateLimit: int, seqHint: int) returns (r: DedupRateResult)
      modifies this
      // a living dedup key with an id answers with it and changes nothing
      ensures old(DedupLive(Snapshot(), now, cmid)) && old(dedup[cmid].msgId) >= 0 ==>
                r.dedupExists && r.dedupMsgId == old(dedup[cmid].msgId)
      ensures old(DedupLive(Snapshot(), now, cmid)) ==> dedup == old(dedup) && rate == old(rate)
      // otherwise the call is counted, and is within the limit if fewer calls than the limit were counted before
      ensures old(!DedupLive(Snapshot(), now, cmid)) ==>
                && !r.dedupExists
                && (r.rateOk <==> old(CountNow(rate, now, uid)) < rateLimit)
                && CountNow(rate, now, uid) == old(CountNow(rate, now, uid)) + 1
                && (forall u :: u != uid ==> CountNow(rate, now, u) == old(CountNow(rate, now, u)))
      // a key newly counted lives one second; a client message id is remembered for 24 hours, rate limited or not
      ensures old(!DedupLive(Snapshot(), now, cmid) && !RateLive(Snapshot(), now, uid)) ==> rate[uid].expireAt == now + 1000
      ensures old(!DedupLive(Snapshot(), now, cmid) && RateLive(Snapshot(), now, uid) && rate[uid].count > 0) ==>
                rate[uid].expireAt == old(rate[uid].expireAt)
      ensures old(!DedupLive(Snapshot(), now, cmid)) ==>
                dedup == if cmid != "" && seqHint > 0 then old(dedup)[cmid := DedupKey(seqHint, now + 86_400_000)] else old(dedup)
      ensures Snapshot() == DedupRateScript(old(Snapshot()), now, cmid, uid, DedupTtlFor(cmid), seqHint).0
      ensures r == ReadReply(DedupRateScript(old(Snapshot()), now, cmid, uid, DedupTtlFor(cmid), seqHint).1, rateLimit)
    {
      var dedupTtl := 0;
      if cmid != "" {
        dedupTtl := DEDUP_TTL;
      }
      if cmid in dedup && now < dedup[cmid].expireAt {
        var val := dedup[cmid].msgId;
        return DedupRateResult(val >= 0, if val >= 0 then val else 0, 0 <= rateLimit);
      }
      var count, expireAt := 0, -1;
      if uid in rate && now < rate[uid].expireAt {
        count, expireAt := rate[uid].count, rate[uid].expireAt;
      }
      count := count + 1;
      if count == 1 {
        expireAt := now + RATE_LIMIT_TTL;
      }
      rate := rate[uid := RateKey(count, expireAt)];
      if dedupTtl > 0 && seqHint > 0 {
        dedup := dedup[cmid := DedupKey(seqHint, now + dedupTtl)];
      }
      return DedupRateResult(false, 0, count <= rateLimit);
    }
  }

  // ---------------------------------------------------------------------
  // The system
  // ---------------------------------------------------------------------

  datatype Request = Request(uid: int, channel: string, cmid: string)

  datatype Outcome =
    | Fresh(count: int, window: int)  // rate count, and when the rate key was created
    | Duplicate(msgId: int)

  /** One run of the script; `delivered` tells whether its reply reached the caller. */
  datatype Call = Call(at: int, req: Request, hint: int, outcome: Outcome, delivered: bool)

  /** A sender inside SendMsg; `call` is the index of its script call. */
  datatype Sender =
    | Ready
    | Allocating(req: Request)
    | Checking(req: Request, id: int)
    | Posting(req: Request, id: int, call: nat)
    | Replying(req: Request, id: int, call: nat)

  /** A posted message, or a success response, and the script call it rests on. */
  datatype Sent = Sent(req: Request, msgId: int, call: nat)

  datatype State = State(
    now: int,
    seqs: SA.State,
    keys: Keys,
    senders: map<SA.ThreadId, Sender>,
    calls: seq<Call>,
    posts: seq<Sent>,
    replies: seq<Sent>)

  datatype Step =
    | Tick(ms: nat)
    | Begin(t: SA.ThreadId, req: Request)
    | Alloc(e: SA.Step)
    | AllocReturns(t: SA.ThreadId)
    | Check(t: SA.ThreadId, delivered: bool)
    | CheckFails(t: SA.ThreadId)
    | Post(t: SA.ThreadId)
    | Reply(t: SA.ThreadId)

  predicate CanStep(s: State, e: Step) {
    match e
    case Tick(_) => true
    case Begin(t, _) => t in s.senders && s.senders[t].Ready?
    case Alloc(a) =>
      && !a.Return? && SA.CanStep(s.seqs, a)
      && (a.FastPath? ==> a.t in s.senders && s.senders[a.t].Allocating? && s.senders[a.t].req.channel == a.c)
    case AllocReturns(t) => t in s.senders && s.senders[t].Allocating? && SA.CanStep(s.seqs, SA.Return(t))
    case Check(t, _) => t in s.senders && s.senders[t].Checking?
    case CheckFails(t) => t in s.senders && s.senders[t].Checking?
    case Post(t) => t in s.senders && s.senders[t].Posting?
    case Reply(t) => t in s.senders && s.senders[t].Replying?
  }

  function SetSender(s: State, t: SA.ThreadId, p: Sender): State { s.(senders := s.senders[t := p]) }

  /** The script call made now, with the keys it leaves. */
  function ScriptCall(s: State, req: Request, id: int, delivered: bool): (Keys, Call) {
    var (keys, res) := DedupRateScript(s.keys, s.now, req.cmid, req.uid, DedupTtlFor(req.cmid), id);
    var r := ReadReply(res, RATE_PER_SECOND);
    var outcome := if r.dedupExists then Duplicate(r.dedupMsgId)
                   else Fresh(res.1, Bump(s.keys, s.now, req.uid).expireAt - RATE_LIMIT_TTL);
    (keys, Call(s.now, req, id, outcome, delivered))
  }

  /** Line 117: the script let the call through. */
  predicate Accepted(c: Call) { c.outcome.Fresh? && c.outcome.count <= RATE_PER_SECOND && c.delivered }

  function Do(s: State, e: Step): State
    requires CanStep(s, e)
  {
    match e
    case Tick(ms) => s.(now := s.now + ms)
    case Begin(t, req) => SetSender(s, t, Allocating(req))
    case Alloc(a) => s.(seqs := SA.Do(s.seqs, a))
    case AllocReturns(t) =>
      var p := s.seqs.threads[t].phase;
      SetSender(s, t, if p.Done? then Checking(s.senders[t].req, p.id) else Ready).(seqs := SA.Do(s.seqs, SA.Return(t)))
    case Check(t, delivered) =>
      var Checking(req, id) := s.senders[t];
      var (keys, call) := ScriptCall(s, req, id, delivered);
      var s' := s.(keys := keys, calls := s.calls + [call]);
      if Accepted(call) then SetSender(s', t, Posting(req, id, |s.calls|))
      else if delivered && call.outcome.Duplicate? then
        SetSender(s', t, Ready).(replies := s.replies + [Sent(req, call.outcome.msgId, |s.calls|)])
      else SetSender(s', t, Ready)
    case CheckFails(t) => SetSender(s, t, Ready)
    case Post(t) =>
      var Posting(req, id, call) := s.senders[t];
      SetSender(s, t, Replying(req, id, call)).(posts := s.posts + [Sent(req, id, call)])
    case Reply(t) =>
      var Replying(req, id, call) := s.senders[t];
      SetSender(s, t, Ready).(replies := s.replies + [Sent(req, id, call)])
  }

  predicate Init(s: State) {
    && SA.Init(s.seqs)
    && s.keys == Keys(map[], map[])
    && (forall t :: t in s.senders ==> s.senders[t].Ready?)
    && s.calls == [] && s.posts == [] && s.replies == []
  }

  ghost predicate IsRun(run: seq<State>, es: seq<Step>) {
    && |run| == |es| + 1
    && Init(run[0])
    && forall i :: 0 <= i < |es| ==> CanStep(run[i], es[i]) && run[i + 1] == Do(run[i], es[i])
  }

  // ---------------------------------------------------------------------
  // Ids
  // ---------------------------------------------------------------------

  /** Where an issued id can be: inside a Next call, at a sender before its check, or in a script call. */
  datatype Holder = InNext(t: SA.ThreadId) | AtSender(t: SA.ThreadId) | InCall(i: nat)

  predicate HeldBy(s: State, h: Holder, ch: string, x: int) {
    match h
    case InNext(t) => SA.Holds(s.seqs, t, ch, x)
    case AtSender(t) => t in s.senders && s.senders[t].Checking? && s.senders[t].req.channel == ch && s.senders[t].id == x
    case InCall(i) => i < |s.calls| && s.calls[i].req.channel == ch && s.calls[i].hint == x
  }

  /** A thread inside `Next` belongs to a sender that asked for its channel. */
  ghost predicate CallsMatch(s: State) {
    forall t :: t in s.seqs.threads && !s.seqs.threads[t].phase.Idle? ==>
      && t in s.senders && s.senders[t].Allocating?
      && (!s.seqs.threads[t].phase.Failed? ==> s.seqs.threads[t].phase.ch == s.senders[t].req.channel)
  }

  ghost predicate HeldAreIssued(s: State) {
    forall h, ch, x :: HeldBy(s, h, ch, x) ==> SA.WasIssued(s.seqs, ch, x)
  }

  ghost predicate OneHolder(s: State) {
    forall h, h', ch, x :: HeldBy(s, h, ch, x) && HeldBy(s, h', ch, x) ==> h == h'
  }

  ghost predicate IdInv(s: State) {
    SA.Inv(s.seqs) && CallsMatch(s) && HeldAreIssued(s) && OneHolder(s)
  }

  lemma IdInitial(s: State)
    requires Init(s)
    ensures IdInv(s)
  {
    SA.InvInit(s.seqs);
  }

  lemma AllocStep(s: State, a: SA.Step)
    requires IdInv(s) && CanStep(s, Alloc(a))
    ensures IdInv(Do(s, Alloc(a)))
  {
    SA.InvStep(s.seqs, a);
    var s' := Do(s, Alloc(a));
    forall h, ch, x | HeldBy(s', h, ch, x)
      ensures HeldBy(s, h, ch, x) || (h == InNext(a.t) && !SA.WasIssued(s.seqs, ch, x))
      ensures SA.WasIssued(s'.seqs, ch, x)
    {
      AllocHolds(s, a, h, ch, x);
    }
  }

  lemma AllocHolds(s: State, a: SA.Step, h: Holder, ch: string, x: int)
    requires HeldAreIssued(s) && CanStep(s, Alloc(a)) && SA.IssuedUnique(SA.Do(s.seqs, a))
    requires HeldBy(Do(s, Alloc(a)), h, ch, x)
    ensures HeldBy(s, h, ch, x) || (h == InNext(a.t) && !SA.WasIssued(s.seqs, ch, x))
    ensures SA.WasIssued(SA.Do(s.seqs, a), ch, x)
  {
    var issued := SA.Do(s.seqs, a).issued;
    if h.InNext? {
      SA.HoldsAfter(s.seqs, a, h.t, ch, x);
    }
    if HeldBy(s, h, ch, x) {
      var i :| 0 <= i < |s.seqs.issued| && s.seqs.issued[i].ch == ch && s.seqs.issued[i].id == x;
      assert issued[i] == s.seqs.issued[i];
    } else {
      assert issued[|s.seqs.issued|].id == x;
    }
  }

  /** Who held an id before step `e`, given who holds it after. */
  function Origin(s: State, e: Step, h: Holder): Holder
    requires CanStep(s, e) && !e.Alloc?
  {
    if e.AllocReturns? && h == AtSender(e.t) then InNext(e.t)
    else if e.Check? && h == InCall(|s.calls|) then AtSender(e.t)
    else h
  }

  lemma HeldBefore(s: State, e: Step, h: Holder, ch: string, x: int)
    requires CallsMatch(s) && CanStep(s, e) && !e.Alloc? && HeldBy(Do(s, e), h, ch, x)
    ensures HeldBy(s, Origin(s, e, h), ch, x)
    ensures e.AllocReturns? ==> h != InNext(e.t)
    ensures e.Check? ==> h != AtSender(e.t)
  {}

  /** The other steps only pass ids on. */
  lemma PassOnStep(s: State, e: Step)
    requires IdInv(s) && CanStep(s, e) && !e.Alloc?
    ensures HeldAreIssued(Do(s, e)) && OneHolder(Do(s, e))
  {
    var s' := Do(s, e);
    assert s'.seqs.issued == s.seqs.issued;
    forall h, ch, x | HeldBy(s', h, ch, x) ensures SA.WasIssued(s'.seqs, ch, x) {
      HeldBefore(s, e, h, ch, x);
      var i :| 0 <= i < |s.seqs.issued| && s.seqs.issued[i].ch == ch && s.seqs.issued[i].id == x;
      assert s'.seqs.issued[i].ch == ch;
    }
    forall h, h', ch, x | HeldBy(s', h, ch, x) && HeldBy(s', h', ch, x) ensures h == h' {
      HeldBefore(s, e, h, ch, x);
      HeldBefore(s, e, h', ch, x);
      assert Origin(s, e, h) == Origin(s, e, h');
    }
  }

  lemma PhasesStep(s: State, e: Step)
    requires IdInv(s) && CanStep(s, e) && !e.Alloc?
    ensures SA.Inv(Do(s, e).seqs) && CallsMatch(Do(s, e))
  {
    if e.AllocReturns? {
      SA.InvStep(s.seqs, SA.Return(e.t));
    }
  }

  lemma IdStep(s: State, e: Step)
    requires IdInv(s) && CanStep(s, e)
    ensures IdInv(Do(s, e))
  {
    if e.Alloc? {
      AllocStep(s, e.e);
    } else {
      PassOnStep(s, e);
      PhasesStep(s, e);
    }
  }

  // ---------------------------------------------------------------------
  // Dedup keys
  // ---------------------------------------------------------------------

  /** The call created the dedup key of its client message id. */
  predicate SetsKey(c: Call) { c.outcome.Fresh? && c.req.cmid != "" }

  /** Call `j` falls into the life of the dedup key that call `i` created. */
  predicate InLife(calls: seq<Call>, i: nat, j: nat) {
    && i <= j < |calls|
    && SetsKey(calls[i]) && calls[j].req.cmid == calls[i].req.cmid
    && calls[j].at < calls[i].at + DEDUP_TTL
  }

  ghost predicate TimesOrdered(calls: seq<Call>, now: int) {
    && (forall i, j :: 0 <= i < j < |calls| ==> calls[i].at <= calls[j].at)
    && (forall i :: 0 <= i < |calls| ==> calls[i].at <= now)
  }

  ghost predicate KeysTraced(dedup: map<string, DedupKey>, calls: seq<Call>) {
    && (forall c :: c in dedup ==> c != "" && exists i :: KeyFrom(dedup, calls, c, i))
    && (forall i :: 0 <= i < |calls| && SetsKey(calls[i]) ==> calls[i].req.cmid in dedup)
  }

  ghost predicate KeysApart(calls: seq<Call>) {
    forall i, j | 0 <= i < j < |calls| && SetsKey(calls[i]) && SetsKey(calls[j]) ::
      calls[i].req.cmid == calls[j].req.cmid ==> calls[i].at + DEDUP_TTL <= calls[j].at
  }

  ghost predicate RepeatsTraced(calls: seq<Call>) {
    forall j :: 0 <= j < |calls| && calls[j].outcome.Duplicate? ==> exists i :: RepeatOf(calls, i, j)
  }

  ghost predicate DedupInv(s: State) {
    TimesOrdered(s.calls, s.now) && KeysTraced(s.keys.dedup, s.calls) && KeysApart(s.calls) && RepeatsTraced(s.calls)
  }

  /** The key of client message id `c` is the one created by call `i`, the last to create it. */
  ghost predicate KeyFrom(dedup: map<string, DedupKey>, calls: seq<Call>, c: string, i: int) {
    && 0 <= i < |calls| && c in dedup
    && SetsKey(calls[i]) && calls[i].req.cmid == c
    && dedup[c] == DedupKey(calls[i].hint, calls[i].at + DEDUP_TTL)
    && forall j :: i < j < |calls| && calls[j].req.cmid == c ==> !SetsKey(calls[j])
  }

  ghost predicate RepeatOf(calls: seq<Call>, i: int, j: int) {
    && 0 <= i < j < |calls|
    && InLife(calls, i, j)
    && calls[j].outcome == Duplicate(calls[i].hint)
  }

  lemma DedupStep(s: State, e: Step)
    requires IdInv(s) && DedupInv(s) && CanStep(s, e)
    ensures DedupInv(Do(s, e))
  {
    if e.Check? {
      HintPositive(s, e.t);
      CheckDedup(s, s.senders[e.t].req, s.senders[e.t].id, e.delivered);
      var (keys, call) := ScriptCall(s, s.senders[e.t].req, s.senders[e.t].id, e.delivered);
      assert Do(s, e).calls == s.calls + [call] && Do(s, e).keys == keys;
    } else {
      assert Do(s, e).calls == s.calls && Do(s, e).keys == s.keys;
    }
  }

  lemma CheckDedup(s: State, req: Request, id: int, delivered: bool)
    requires IdInv(s) && DedupInv(s) && id >= 1
    ensures var (keys, call) := ScriptCall(s, req, id, delivered);
            DedupInv(s.(keys := keys, calls := s.calls + [call]))
  {
    var (keys, call) := ScriptCall(s, req, id, delivered);
    ApartAfter(s, req, id, delivered);
    RepeatsAfter(s, req, id, delivered);
    KeysAfter(s, req, id, delivered);
    TimesAfter(s.calls, s.now, call);
  }

  lemma TimesAfter(calls: seq<Call>, now: int, call: Call)
    requires TimesOrdered(calls, now) && call.at == now
    ensures TimesOrdered(calls + [call], now)
  {}

  /** What the script finds under the key, told by the calls so far. */
  lemma Finds(s: State, req: Request, id: int, delivered: bool) returns (l: nat)
    requires IdInv(s) && DedupInv(s)
    ensures ScriptCall(s, req, id, delivered).1.outcome.Duplicate? == DedupLive(s.keys, s.now, req.cmid)
    ensures req.cmid in s.keys.dedup ==> KeyFrom(s.keys.dedup, s.calls, req.cmid, l)
    ensures DedupLive(s.keys, s.now, req.cmid) ==>
              ScriptCall(s, req, id, delivered).1.outcome == Duplicate(s.calls[l].hint)
  {
    if req.cmid in s.keys.dedup {
      l :| KeyFrom(s.keys.dedup, s.calls, req.cmid, l);
      assert HeldBy(s, InCall(l), s.calls[l].req.channel, s.calls[l].hint);
    } else {
      l := 0;
    }
  }

  lemma ApartAfter(s: State, req: Request, id: int, delivered: bool)
    requires IdInv(s) && DedupInv(s)
    ensures KeysApart(s.calls + [ScriptCall(s, req, id, delivered).1])
  {
    var l := Finds(s, req, id, delivered);
  }

  lemma RepeatsAfter(s: State, req: Request, id: int, delivered: bool)
    requires IdInv(s) && DedupInv(s)
    ensures RepeatsTraced(s.calls + [ScriptCall(s, req, id, delivered).1])
  {
    var calls := s.calls + [ScriptCall(s, req, id, delivered).1];
    forall j | 0 <= j < |calls| && calls[j].outcome.Duplicate? ensures exists i :: RepeatOf(calls, i, j) {
      if j < |s.calls| {
        var i :| RepeatOf(s.calls, i, j);
        assert RepeatOf(calls, i, j);
      } else {
        var l := Finds(s, req, id, delivered);
        assert RepeatOf(calls, l, j);
      }
    }
  }

  lemma KeysAfter(s: State, req: Request, id: int, delivered: bool)
    requires IdInv(s) && DedupInv(s) && id >= 1
    ensures var (keys, call) := ScriptCall(s, req, id, delivered);
            KeysTraced(keys.dedup, s.calls + [call])
  {
    var (keys, call) := ScriptCall(s, req, id, delivered);
    var l := Finds(s, req, id, delivered);
    var key := DedupKey(id, s.now + DEDUP_TTL);
    assert keys.dedup == if SetsKey(call) then s.keys.dedup[req.cmid := key] else s.keys.dedup;
    OneMoreCall(s.keys.dedup, s.calls, call);
  }

  /** A key that a call creates replaces what its client message id had before. */
  lemma OneMoreCall(dedup: map<string, DedupKey>, calls: seq<Call>, call: Call)
    requires KeysTraced(dedup, calls)
    ensures KeysTraced(if SetsKey(call) then dedup[call.req.cmid := DedupKey(call.hint, call.at + DEDUP_TTL)] else dedup,
                       calls + [call])
  {
    var dedup' := if SetsKey(call) then dedup[call.req.cmid := DedupKey(call.hint, call.at + DEDUP_TTL)] else dedup;
    var calls' := calls + [call];
    forall c | c in dedup' ensures c != "" && exists i :: KeyFrom(dedup', calls', c, i) {
      if c == call.req.cmid && SetsKey(call) {
        assert KeyFrom(dedup', calls', c, |calls|);
      } else {
        var i :| KeyFrom(dedup, calls, c, i);
        assert KeyFrom(dedup', calls', c, i);
      }
    }
  }

  lemma HintPositive(s: State, t: SA.ThreadId)
    requires IdInv(s) && t in s.senders && s.senders[t].Checking?
    ensures s.senders[t].id >= 1
  {
    assert HeldBy(s, AtSender(t), s.senders[t].req.channel, s.senders[t].id);
  }

  // ---------------------------------------------------------------------
  // Posts and replies
  // ---------------------------------------------------------------------

  /** `p` rests on an accepted script call with the same request and id. */
  predicate RestsOn(s: State, p: Sent) {
    p.call < |s.calls| && Accepted(s.calls[p.call]) && s.calls[p.call].req == p.req && s.calls[p.call].hint == p.msgId
  }

  ghost predicate PostedCall(s: State, call: nat) {
    exists i :: 0 <= i < |s.posts| && s.posts[i].call == call
  }

  ghost predicate PendingCall(s: State, call: nat) {
    exists t :: t in s.senders && s.senders[t].Posting? && s.senders[t].call == call
  }

  predicate ReplySound(s: State, r: Sent) {
    && r.call < |s.calls| && s.calls[r.call].req == r.req && s.calls[r.call].delivered
    && (s.calls[r.call].outcome == Duplicate(r.msgId) || RestsOn(s, r))
  }

  ghost predicate AllRest(s: State) {
    && (forall t :: t in s.senders && (s.senders[t].Posting? || s.senders[t].Replying?) ==>
          RestsOn(s, Sent(s.senders[t].req, s.senders[t].id, s.senders[t].call)))
    && (forall i :: 0 <= i < |s.posts| ==> RestsOn(s, s.posts[i]))
    && (forall i :: 0 <= i < |s.replies| ==> ReplySound(s, s.replies[i]))
  }

  ghost predicate PostedOnce(s: State) {
    && (forall i, j :: 0 <= i < j < |s.posts| ==> s.posts[i].call != s.posts[j].call)
    && (forall t, i :: t in s.senders && s.senders[t].Posting? && 0 <= i < |s.posts| ==> s.senders[t].call != s.posts[i].call)
    && (forall t, t' | t in s.senders && t' in s.senders && s.senders[t].Posting? && s.senders[t'].Posting? ::
          s.senders[t].call == s.senders[t'].call ==> t == t')
  }

  ghost predicate NoneLost(s: State) {
    forall k :: 0 <= k < |s.calls| && Accepted(s.calls[k]) ==> PostedCall(s, k) || PendingCall(s, k)
  }

  ghost predicate PostInv(s: State) {
    AllRest(s) && PostedOnce(s) && NoneLost(s)
  }

  lemma CallsKept(s: State, e: Step, p: Sent)
    requires CanStep(s, e)
    ensures RestsOn(s, p) ==> RestsOn(Do(s, e), p)
    ensures ReplySound(s, p) ==> ReplySound(Do(s, e), p)
  {
    assert forall i :: 0 <= i < |s.calls| ==> Do(s, e).calls[i] == s.calls[i];
  }

  lemma SenderRests(s: State, e: Step, t: SA.ThreadId)
    requires AllRest(s) && CanStep(s, e)
    requires t in Do(s, e).senders && (Do(s, e).senders[t].Posting? || Do(s, e).senders[t].Replying?)
    ensures var p := Do(s, e).senders[t]; RestsOn(Do(s, e), Sent(p.req, p.id, p.call))
  {
    var p := Do(s, e).senders[t];
    CallsKept(s, e, Sent(p.req, p.id, p.call));
  }

  lemma ReplyRests(s: State, e: Step, i: nat)
    requires AllRest(s) && CanStep(s, e) && i < |Do(s, e).replies|
    ensures ReplySound(Do(s, e), Do(s, e).replies[i])
  {
    CallsKept(s, e, Do(s, e).replies[i]);
  }

  lemma RestStep(s: State, e: Step)
    requires AllRest(s) && CanStep(s, e)
    ensures AllRest(Do(s, e))
  {
    var s' := Do(s, e);
    forall t | t in s'.senders && (s'.senders[t].Posting? || s'.senders[t].Replying?)
      ensures RestsOn(s', Sent(s'.senders[t].req, s'.senders[t].id, s'.senders[t].call))
    {
      SenderRests(s, e, t);
    }
    forall i | 0 <= i < |s'.posts| ensures RestsOn(s', s'.posts[i]) {
      CallsKept(s, e, s'.posts[i]);
    }
    forall i | 0 <= i < |s'.replies| ensures ReplySound(s', s'.replies[i]) {
      ReplyRests(s, e, i);
    }
  }

  /** A pending post was pending before, or its check just ran; a post ends one. */
  lemma PendingAfter(s: State, e: Step, t: SA.ThreadId)
    requires CanStep(s, e) && t in Do(s, e).senders && Do(s, e).senders[t].Posting?
    ensures t in s.senders && e != Post(t)
    ensures Do(s, e).senders[t] == s.senders[t] || (e.Check? && e.t == t && Do(s, e).senders[t].call == |s.calls|)
    ensures e.Check? && e.t == t ==> Do(s, e).senders[t].call == |s.calls|
  {}

  lemma PostsAfter(s: State, e: Step)
    requires CanStep(s, e)
    ensures !e.Post? ==> Do(s, e).posts == s.posts
    ensures e.Post? ==> |Do(s, e).posts| == |s.posts| + 1 && Do(s, e).posts[|s.posts|].call == s.senders[e.t].call
    ensures forall i :: 0 <= i < |s.posts| ==> Do(s, e).posts[i] == s.posts[i]
  {}

  lemma PostedOnceStep(s: State, e: Step)
    requires AllRest(s) && PostedOnce(s) && CanStep(s, e)
    ensures PostedOnce(Do(s, e))
  {
    var s' := Do(s, e);
    PostsAfter(s, e);
    forall i | 0 <= i < |s.posts| ensures s.posts[i].call < |s.calls| {
      assert RestsOn(s, s.posts[i]);
    }
    forall t | t in s'.senders && s'.senders[t].Posting?
      ensures t in s.senders && e != Post(t)
      ensures (s'.senders[t] == s.senders[t] && s.senders[t].call < |s.calls|) || (e.Check? && e.t == t && s'.senders[t].call == |s.calls|)
    {
      PendingAfter(s, e, t);
    }
  }

  lemma NoneLostStep(s: State, e: Step)
    requires NoneLost(s) && CanStep(s, e)
    ensures NoneLost(Do(s, e))
  {
    var s' := Do(s, e);
    forall k: nat | k < |s'.calls| && Accepted(s'.calls[k]) ensures PostedCall(s', k) || PendingCall(s', k) {
      if k == |s.calls| {
        assert s'.senders[e.t].Posting? && s'.senders[e.t].call == k;
      } else if PostedCall(s, k) {
        var i :| 0 <= i < |s.posts| && s.posts[i].call == k;
        assert s'.posts[i].call == k;
      } else {
        assert s'.calls[k] == s.calls[k];
        var t :| t in s.senders && s.senders[t].Posting? && s.senders[t].call == k;
        if e == Post(t) {
          assert s'.posts[|s.posts|].call == k;
        } else {
          assert t in s'.senders && s'.senders[t] == s.senders[t];
        }
      }
    }
  }

  lemma PostStep(s: State, e: Step)
    requires PostInv(s) && CanStep(s, e)
    ensures PostInv(Do(s, e))
  {
    RestStep(s, e);
    PostedOnceStep(s, e);
    NoneLostStep(s, e);
  }

  // ---------------------------------------------------------------------
  // Every run
  // ---------------------------------------------------------------------

  lemma AllInitial(s: State)
    requires Init(s)
    ensures IdInv(s) && DedupInv(s) && PostInv(s)
  {
    IdInitial(s);
  }

  lemma {:induction false} Always(run: seq<State>, es: seq<Step>, k: nat)
    requires IsRun(run, es) && k < |run|
    ensures IdInv(run[k]) && DedupInv(run[k]) && PostInv(run[k])
  {
    if k == 0 {
      AllInitial(run[0]);
    } else {
      Always(run, es, k - 1);
      IdStep(run[k - 1], es[k - 1]);
      DedupStep(run[k - 1], es[k - 1]);
      PostStep(run[k - 1], es[k - 1]);
    }
  }

  /** Within one key's life every later call is answered with the id of the call that created the key. */
  lemma LifeAnswers(s: State, i: nat, j: nat)
    requires DedupInv(s) && InLife(s.calls, i, j) && i < j
    ensures s.calls[j].outcome == Duplicate(s.calls[i].hint)
  {
    if s.calls[j].outcome.Duplicate? {
      var l :| RepeatOf(s.calls, l, j);
    }
  }

  /**
   For a non-empty client message id, during the life of its dedup key: at most
   one message is posted, it is the one of the call that created the key, and
   every success response carries that call's id.
   */
  lemma OneMessagePerLife(run: seq<State>, es: seq<Step>, k: nat, i: nat)
    requires IsRun(run, es) && k < |run| && InLife(run[k].calls, i, i)
    ensures forall p, q | 0 <= p < |run[k].posts| && 0 <= q < |run[k].posts| ::
              InLife(run[k].calls, i, run[k].posts[p].call) && InLife(run[k].calls, i, run[k].posts[q].call) ==> p == q
    ensures forall p :: 0 <= p < |run[k].posts| && InLife(run[k].calls, i, run[k].posts[p].call) ==>
                          run[k].posts[p].call == i && run[k].posts[p].msgId == run[k].calls[i].hint
    ensures forall r :: 0 <= r < |run[k].replies| && InLife(run[k].calls, i, run[k].replies[r].call) ==>
                          run[k].replies[r].msgId == run[k].calls[i].hint
  {
    Always(run, es, k);
    forall j: nat | InLife(run[k].calls, i, j) && i < j ensures run[k].calls[j].outcome == Duplicate(run[k].calls[i].hint) {
      LifeAnswers(run[k], i, j);
    }
  }

  /** Every success response for a non-empty client message id falls into the life of some dedup key. */
  lemma EveryReplyHasALife(run: seq<State>, es: seq<Step>, k: nat, r: nat) returns (i: nat)
    requires IsRun(run, es) && k < |run| && r < |run[k].replies| && run[k].replies[r].req.cmid != ""
    ensures InLife(run[k].calls, i, run[k].replies[r].call)
  {
    Always(run, es, k);
    var call := run[k].replies[r].call;
    assert ReplySound(run[k], run[k].replies[r]);
    if run[k].calls[call].outcome.Duplicate? {
      i :| RepeatOf(run[k].calls, i, call);
    } else {
      i := call;
    }
  }

  /** Two posts with one non-empty client message id had their checks at least a key lifetime apart. */
  lemma PostsFarApart(run: seq<State>, es: seq<Step>, k: nat, p: nat, q: nat)
    requires IsRun(run, es) && k < |run| && p < |run[k].posts| && q < |run[k].posts| && p != q
    requires run[k].posts[p].req.cmid == run[k].posts[q].req.cmid != ""
    ensures RestsOn(run[k], run[k].posts[p]) && RestsOn(run[k], run[k].posts[q])
    ensures var a, b := run[k].calls[run[k].posts[p].call].at, run[k].calls[run[k].posts[q].call].at;
            a + 86_400_000 <= b || b + 86_400_000 <= a
  {
    Always(run, es, k);
    assert RestsOn(run[k], run[k].posts[p]) && RestsOn(run[k], run[k].posts[q]);
  }

  /** A call without a client message id is never taken for a duplicate. */
  lemma EmptyIdNeverDuplicate(run: seq<State>, es: seq<Step>, k: nat, j: nat)
    requires IsRun(run, es) && k < |run| && j < |run[k].calls| && run[k].calls[j].req.cmid == ""
    ensures run[k].calls[j].outcome.Fresh?
  {
    Always(run, es, k);
    assert forall i :: !RepeatOf(run[k].calls, i, j);
  }

  lemma DistinctIds(s: State, p: nat, q: nat)
    requires OneHolder(s) && PostInv(s) && p < |s.posts| && q < |s.posts| && p != q
    requires s.posts[p].req.channel == s.posts[q].req.channel
    ensures s.posts[p].msgId != s.posts[q].msgId
  {
    assert RestsOn(s, s.posts[p]) && RestsOn(s, s.posts[q]);
    assert HeldBy(s, InCall(s.posts[p].call), s.posts[p].req.channel, s.posts[p].msgId);
    if s.posts[p].msgId == s.posts[q].msgId {
      assert HeldBy(s, InCall(s.posts[q].call), s.posts[p].req.channel, s.posts[p].msgId);
    }
  }

  /** No two posted messages share a channel and an id, whichever nodes sent them. */
  lemma PostedIdsDistinct(run: seq<State>, es: seq<Step>, k: nat, p: nat, q: nat)
    requires IsRun(run, es) && k < |run| && p < |run[k].posts| && q < |run[k].posts| && p != q
    requires run[k].posts[p].req.channel == run[k].posts[q].req.channel
    ensures run[k].posts[p].msgId != run[k].posts[q].msgId
  {
    Always(run, es, k);
    DistinctIds(run[k], p, q);
  }

  /** The message of call `call` is posted, or its sender is past its checks and will post it. */
  ghost predicate Backs(s: State, call: nat) { PostedCall(s, call) || PendingCall(s, call) }

  /** Some message of the request `req`, checked in the life of the key created by call `i`, is posted or will be. */
  ghost predicate BackedInLife(s: State, i: nat, req: Request) {
    exists j: nat :: InLife(s.calls, i, j) && s.calls[j].req == req && Backs(s, j)
  }

  /** In a key's life only the call that created the key can be backed, and it is if it was accepted. */
  lemma BacksIff(run: seq<State>, es: seq<Step>, k: nat, i: nat, j: nat)
    requires IsRun(run, es) && k < |run| && InLife(run[k].calls, i, j)
    ensures Backs(run[k], j) <==> j == i && Accepted(run[k].calls[i])
  {
    Always(run, es, k);
    var s := run[k];
    if PostedCall(s, j) {
      var p :| 0 <= p < |s.posts| && s.posts[p].call == j;
      assert RestsOn(s, s.posts[p]);
    }
    if i < j {
      LifeAnswers(s, i, j);
    }
  }

  /**
   A success response is backed by a message of its own user and channel, posted
   or on its way, in the life of the dedup key it was answered from, exactly when
   the call that created the key was within the rate limit, had its reply arrive,
   and was by that user to that channel.  The key is built from the client
   message id alone, so the last part is not given.
   */
  lemma ReplyBackedIff(run: seq<State>, es: seq<Step>, k: nat, r: nat, i: nat)
    requires IsRun(run, es) && k < |run| && r < |run[k].replies|
    requires InLife(run[k].calls, i, run[k].replies[r].call)
    ensures var req, c := run[k].replies[r].req, run[k].calls[i];
            BackedInLife(run[k], i, req)
            <==> c.outcome.count <= RATE_PER_SECOND && c.delivered && c.req.uid == req.uid && c.req.channel == req.channel
  {
    Always(run, es, k);
    var s := run[k];
    var req := s.replies[r].req;
    assert ReplySound(s, s.replies[r]);
    BacksIff(run, es, k, i, i);
    if BackedInLife(s, i, req) {
      var j: nat :| InLife(s.calls, i, j) && s.calls[j].req == req && Backs(s, j);
      BacksIff(run, es, k, i, j);
    }
    assert s.calls[i].req.cmid == req.cmid;
    assert InLife(s.calls, i, i);
  }

  // ---------------------------------------------------------------------
  // What a check leads to
  // ---------------------------------------------------------------------

  lemma DedupIdsPositive(s: State, cmid: string)
    requires IdInv(s) && DedupInv(s) && cmid in s.keys.dedup
    ensures s.keys.dedup[cmid].msgId >= 1
  {
    var i: int :| KeyFrom(s.keys.dedup, s.calls, cmid, i);
    assert HeldBy(s, InCall(i), s.calls[i].req.channel, s.calls[i].hint);
  }

  lemma FreshCount(s: State, req: Request, id: int, delivered: bool)
    requires !DedupLive(s.keys, s.now, req.cmid)
    ensures var call := ScriptCall(s, req, id, delivered).1;
            call.outcome.Fresh? && call.outcome.count == CountNow(s.keys.rate, s.now, req.uid) + 1
  {}

  /**
   In every run a check whose reply arrives leads to a post exactly when no key
   of its client message id lives and fewer than 100 calls were counted by the
   user's living rate key; it is answered with the key's id exactly when such a
   key lives; otherwise, and when the reply is lost, the sender gives up.
   */
  lemma CheckLeadsTo(run: seq<State>, es: seq<Step>, t: SA.ThreadId, delivered: bool)
    requires IsRun(run, es) && CanStep(run[|es|], Check(t, delivered))
    ensures var s := run[|es|];
            var s', req, id := Do(s, Check(t, delivered)), s.senders[t].req, s.senders[t].id;
            var live, room := DedupLive(s.keys, s.now, req.cmid), CountNow(s.keys.rate, s.now, req.uid) < 100;
            && (delivered && !live && room ==> s'.senders[t] == Posting(req, id, |s.calls|) && s'.replies == s.replies)
            && (delivered && live ==>
                  s'.senders[t].Ready? && s'.replies == s.replies + [Sent(req, s.keys.dedup[req.cmid].msgId, |s.calls|)])
            && (!delivered || (!live && !room) ==> s'.senders[t].Ready? && s'.replies == s.replies)
            && s'.posts == s.posts
  {
    var s := run[|es|];
    Always(run, es, |es|);
    var req, id := s.senders[t].req, s.senders[t].id;
    if DedupLive(s.keys, s.now, req.cmid) {
      DedupIdsPositive(s, req.cmid);
    } else {
      FreshCount(s, req, id, delivered);
    }
  }

  /** A call is accepted exactly when its reply arrived and reads as no duplicate and within the limit. */
  lemma AcceptedIff(s: State, req: Request, id: int, delivered: bool)
    ensures var res := DedupRateScript(s.keys, s.now, req.cmid, req.uid, DedupTtlFor(req.cmid), id).1;
            var r := ReadReply(res, 100);
            Accepted(ScriptCall(s, req, id, delivered).1) <==> delivered && !r.dedupExists && r.rateOk
  {}

  // ---------------------------------------------------------------------
  // Every success is answered
  // ---------------------------------------------------------------------

  ghost predicate BeingAnswered(s: State, x: Sent) {
    exists t :: t in s.senders && s.senders[t] == Replying(x.req, x.msgId, x.call)
  }

  ghost predicate AllAnswered(s: State) {
    && (forall p :: 0 <= p < |s.posts| ==> s.posts[p] in s.replies || BeingAnswered(s, s.posts[p]))
    && (forall j: nat :: j < |s.calls| && s.calls[j].outcome.Duplicate? && s.calls[j].delivered ==>
          Sent(s.calls[j].req, s.calls[j].outcome.msgId, j) in s.replies)
  }

  lemma AnsweredStep(s: State, e: Step, x: Sent)
    requires CanStep(s, e) && (x in s.replies || BeingAnswered(s, x))
    ensures x in Do(s, e).replies || BeingAnswered(Do(s, e), x)
  {
    var s' := Do(s, e);
    if x in s.replies {
      var r :| 0 <= r < |s.replies| && s.replies[r] == x;
      assert s'.replies[r] == x;
    } else {
      var t :| t in s.senders && s.senders[t] == Replying(x.req, x.msgId, x.call);
      if e == Reply(t) {
        assert s'.replies[|s.replies|] == x;
      } else {
        assert t in s'.senders && s'.senders[t] == s.senders[t];
      }
    }
  }

  lemma DuplicateAnswered(s: State, e: Step, j: nat)
    requires CanStep(s, e) && AllAnswered(s) && j < |Do(s, e).calls|
    requires Do(s, e).calls[j].outcome.Duplicate? && Do(s, e).calls[j].delivered
    ensures Sent(Do(s, e).calls[j].req, Do(s, e).calls[j].outcome.msgId, j) in Do(s, e).replies
  {
    var s' := Do(s, e);
    var x := Sent(s'.calls[j].req, s'.calls[j].outcome.msgId, j);
    if j < |s.calls| {
      assert s'.calls[j] == s.calls[j];
      var r :| 0 <= r < |s.replies| && s.replies[r] == x;
      assert s'.replies[r] == x;
    } else {
      assert s'.replies[|s.replies|] == x;
    }
  }

  lemma AllAnsweredStep(s: State, e: Step)
    requires CanStep(s, e) && AllAnswered(s)
    ensures AllAnswered(Do(s, e))
  {
    var s' := Do(s, e);
    PostsAfter(s, e);
    forall p | 0 <= p < |s'.posts| ensures s'.posts[p] in s'.replies || BeingAnswered(s', s'.posts[p]) {
      if p < |s.posts| {
        AnsweredStep(s, e, s.posts[p]);
      } else {
        var q := s'.senders[e.t];
        assert q == Replying(s'.posts[p].req, s'.posts[p].msgId, s'.posts[p].call);
      }
    }
    forall j: nat | j < |s'.calls| && s'.calls[j].outcome.Duplicate? && s'.calls[j].delivered
      ensures Sent(s'.calls[j].req, s'.calls[j].outcome.msgId, j) in s'.replies
    {
      DuplicateAnswered(s, e, j);
    }
  }

  /**
   In every run each posted message has its success response, with its own id, or
   its sender is about to give it; and each duplicate whose reply arrived has the
   response with the id of the first send.
   */
  lemma {:induction false} EverySuccessAnswered(run: seq<State>, es: seq<Step>, k: nat)
    requires IsRun(run, es) && k < |run|
    ensures AllAnswered(run[k])
  {
    if k > 0 {
      EverySuccessAnswered(run, es, k - 1);
      AllAnsweredStep(run[k - 1], es[k - 1]);
    }
  }

  /** A sender about to post or reply needs only its own steps to end with the response. */
  lemma PostsThenReplies(s: State, t: SA.ThreadId)
    requires t in s.senders && s.senders[t].Posting?
    ensures var x := Sent(s.senders[t].req, s.senders[t].id, s.senders[t].call);
            && CanStep(s, Post(t)) && CanStep(Do(s, Post(t)), Reply(t))
            && var s' := Do(Do(s, Post(t)), Reply(t));
            s'.posts == s.posts + [x] && s'.replies == s.replies + [x] && s'.senders[t].Ready?
  {}
}
