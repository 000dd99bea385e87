/**
 Message-id allocation (internal/service/seqalloc.go).

 `SeqAllocator` is the per-node object.  `State`, `Step` and `Do` describe any
 number of nodes and threads that run `Next` as separate steps over one shared
 Redis counter per channel: the locked fast path, the INCRBY, and the locked
 install, with the lock released in between.
 */
module SeqAlloc {
  import opened Prelude

  const SEQ_BATCH_SIZE: int := 1000

  type Channel = string
  type NodeId = nat
  type ThreadId = nat

  datatype SeqRange = SeqRange(next: int, max: int)
  type Ranges = map<Channel, SeqRange>

  /** Lines 38-46: hand out the next reserved number, if there is one. */
  function TakeLocal(ranges: Ranges, ch: Channel): (Ranges, Option<int>) {
    if ch in ranges && ranges[ch].next <= ranges[ch].max then
      (ranges[ch := SeqRange(ranges[ch].next + 1, ranges[ch].max)], Some(ranges[ch].next))
    else
      (ranges, None)
  }

  /** The first number of the batch that ends at `newMax`. */
  function BatchStart(newMax: int): int { newMax - SEQ_BATCH_SIZE + 1 }

  /** Lines 55-57: install the rest of a reserved batch. */
  function InstallBatch(ranges: Ranges, ch: Channel, newMax: int): Ranges {
    ranges[ch := SeqRange(BatchStart(newMax) + 1, newMax)]
  }

  // ---------------------------------------------------------------------
  // The allocator object, used by one caller at a time
  // ---------------------------------------------------------------------

  /** Outcome of the INCRBY as the caller sees it; a lost reply still counts in Redis. */
  datatype Reply = Answered | LostReply | Refused

  class SeqAllocator {
    var ranges: Ranges
    /** The shared Redis counters (absent means 0). */
    var counters: map<Channel, int>

    constructor ()
      ensures Valid() && forall ch :: Last(ch) == 0
    {
      ranges, counters := map[], map[];
    }

    ghost function Counter(ch: Channel): int
      reads this
    {
      if ch in counters then counters[ch] else 0
    }

    /** No other node uses the counters: an unexhausted range ends at its counter. */
    ghost predicate Valid()
      reads this
    {
      forall ch :: ch in ranges && ranges[ch].next <= ranges[ch].max ==> ranges[ch].max == Counter(ch)
    }

    /** The number that a plain INCR-per-call allocator would have reached. */
    ghost function Last(ch: Channel): int
      reads this
    {
      if ch in ranges && ranges[ch].next <= ranges[ch].max then ranges[ch].next - 1 else Counter(ch)
    }

    /** Lines 37-60, undisturbed: each success is one more than the last number. */
    method Next(ch: Channel, reply: Reply) returns (r: Option<int>)
      requires Valid()
      modifies this
      ensures Valid()
      ensures r == Some(old(Last(ch)) + 1) || (r == None && reply != Answered)
      ensures r.Some? ==> Last(ch) == r.value
      ensures r.None? ==> ranges == old(ranges) && TakeLocal(old(ranges), ch).1 == None
      ensures r.None? ==> Last(ch) == old(Last(ch)) + if reply == LostReply then SEQ_BATCH_SIZE else 0
      ensures forall other :: other != ch ==> Last(other) == old(Last(other))
    {
      var (taken, id) := TakeLocal(ranges, ch);
      if id.Some? {
        ranges := taken;
        return id;
      }
      if reply == Refused {
        return None;
      }
      var newMax := (if ch in counters then counters[ch] else 0) + SEQ_BATCH_SIZE;
      counters := counters[ch := newMax];
      if reply == LostReply {
        return None;
      }
      ranges := InstallBatch(ranges, ch, newMax);
      return Some(BatchStart(newMax));
    }
  }

  // ---------------------------------------------------------------------
  // Any number of threads and nodes
  // ---------------------------------------------------------------------

  datatype Phase =
    | Idle
    | Refill(ch: Channel)                 // past line 46, INCRBY not yet done
    | Reserved(ch: Channel, newMax: int)  // past line 49, install not yet done
    | Done(ch: Channel, id: int)         // returned id
    | Failed                              // returned an error

  datatype Thread = Thread(node: NodeId, phase: Phase)

  /** An id handed out, recorded at the step that fixes it (line 41 or line 49). */
  datatype Issue = Issue(node: NodeId, ch: Channel, id: int)

  datatype State = State(
    counters: map<Channel, int>,
    ranges: map<NodeId, Ranges>,
    threads: map<ThreadId, Thread>,
    issued: seq<Issue>)

  function Counter(s: State, ch: Channel): int { if ch in s.counters then s.counters[ch] else 0 }

  function NodeRanges(s: State, n: NodeId): Ranges { if n in s.ranges then s.ranges[n] else map[] }

  datatype Step =
    | FastPath(t: ThreadId, c: Channel)
    | IncrBy(t: ThreadId)
    | IncrByFails(t: ThreadId, applied: bool)
    | Install(t: ThreadId)
    | Return(t: ThreadId)

  predicate CanStep(s: State, e: Step) {
    e.t in s.threads &&
    var p := s.threads[e.t].phase;
    match e
    case FastPath(_, _) => p.Idle?
    case IncrBy(_) => p.Refill?
    case IncrByFails(_, _) => p.Refill?
    case Install(_) => p.Reserved?
    case Return(_) => p.Done? || p.Failed?
  }

  function SetPhase(s: State, t: ThreadId, p: Phase): State
    requires t in s.threads
  {
    s.(threads := s.threads[t := s.threads[t].(phase := p)])
  }

  function Do(s: State, e: Step): State
    requires CanStep(s, e)
  {
    var n := s.threads[e.t].node;
    var p := s.threads[e.t].phase;
    match e
    case FastPath(t, c) =>
      var (ranges, id) := TakeLocal(NodeRanges(s, n), c);
      if id.None? then SetPhase(s, t, Refill(c))
      else SetPhase(s, t, Done(c, id.value)).(ranges := s.ranges[n := ranges],
                                               issued := s.issued + [Issue(n, c, id.value)])
    case IncrBy(t) =>
      var newMax := Counter(s, p.ch) + SEQ_BATCH_SIZE;
      SetPhase(s, t, Reserved(p.ch, newMax)).(counters := s.counters[p.ch := newMax],
                                              issued := s.issued + [Issue(n, p.ch, BatchStart(newMax))])
    case IncrByFails(t, applied) =>
      var failed := SetPhase(s, t, Failed);
      if applied then failed.(counters := s.counters[p.ch := Counter(s, p.ch) + SEQ_BATCH_SIZE]) else failed
    case Install(t) =>
      SetPhase(s, t, Done(p.ch, BatchStart(p.newMax))).(ranges := s.ranges[n := InstallBatch(NodeRanges(s, n), p.ch, p.newMax)])
    case Return(t) => SetPhase(s, t, Idle)
  }

  predicate Init(s: State) {
    && s.counters == map[]
    && s.ranges == map[]
    && s.issued == []
    && forall t :: t in s.threads ==> s.threads[t].phase.Idle?
  }

  /** `run` is a run of the system that takes the steps `es`, from its start. */
  ghost predicate IsRun(run: seq<State>, es: seq<Step>) {
    && |run| == |es| + 1
    && Init(run[0])
    && forall i :: 0 <= i < |es| ==> CanStep(run[i], es[i]) && run[i + 1] == Do(run[i], es[i])
  }

  // ---------------------------------------------------------------------
  // Uniqueness
  // ---------------------------------------------------------------------

  /** Who may still hand out reserved numbers: a node's range, or a batch about to be installed. */
  datatype Owner = NodePool(n: NodeId) | BatchPool(t: ThreadId)

  predicate InPool(s: State, o: Owner, ch: Channel, x: int) {
    match o
    case NodePool(n) =>
      var r := NodeRanges(s, n);
      ch in r && r[ch].next <= x <= r[ch].max
    case BatchPool(t) =>
      && t in s.threads && s.threads[t].phase.Reserved? && s.threads[t].phase.ch == ch
      && BatchStart(s.threads[t].phase.newMax) < x <= s.threads[t].phase.newMax
  }

  /** Thread `t` is inside a call whose result is already fixed to be `x`. */
  predicate Holds(s: State, t: ThreadId, ch: Channel, x: int) {
    && t in s.threads
    && var p := s.threads[t].phase;
       || (p.Reserved? && p.ch == ch && x == BatchStart(p.newMax))
       || (p.Done? && p.ch == ch && x == p.id)
  }

  ghost predicate PoolsBounded(s: State) {
    forall o, ch, x :: InPool(s, o, ch, x) ==> 1 <= x <= Counter(s, ch)
  }

  ghost predicate PoolsDisjoint(s: State) {
    forall o, o', ch, x :: InPool(s, o, ch, x) && InPool(s, o', ch, x) ==> o == o'
  }

  ghost predicate IssuedBounded(s: State) {
    && (forall ch :: 0 <= Counter(s, ch))
    && (forall i :: 0 <= i < |s.issued| ==> 1 <= s.issued[i].id <= Counter(s, s.issued[i].ch))
  }

  ghost predicate IssuedOutsidePools(s: State) {
    forall o, i :: 0 <= i < |s.issued| ==> !InPool(s, o, s.issued[i].ch, s.issued[i].id)
  }

  /** No id was handed out twice for a channel, by any node. */
  ghost predicate IssuedUnique(s: State) {
    forall i, j :: 0 <= i < j < |s.issued| && s.issued[i].ch == s.issued[j].ch ==> s.issued[i].id != s.issued[j].id
  }

  /** A held id was issued, and to one thread only. */
  ghost predicate HeldIssued(s: State) {
    && (forall t, ch, x :: Holds(s, t, ch, x) ==> Issue(s.threads[t].node, ch, x) in s.issued)
    && (forall t, t', ch, x :: Holds(s, t, ch, x) && Holds(s, t', ch, x) ==> t == t')
  }

  ghost predicate Inv(s: State) {
    && PoolsBounded(s)
    && PoolsDisjoint(s)
    && IssuedBounded(s)
    && IssuedOutsidePools(s)
    && IssuedUnique(s)
    && HeldIssued(s)
  }

  lemma InvInit(s: State)
    requires Init(s)
    ensures Inv(s)
  {}

  /** Steps never create pool members except the fresh batch, and never share one. */
  lemma PoolsAfter(s: State, e: Step, o: Owner, ch: Channel, x: int)
    requires CanStep(s, e) && InPool(Do(s, e), o, ch, x)
    ensures e.IncrBy? && o == BatchPool(e.t) ==> Counter(s, ch) + 1 < x <= Counter(Do(s, e), ch)
    ensures e.Install? && o == NodePool(s.threads[e.t].node) && ch == s.threads[e.t].phase.ch ==> InPool(s, BatchPool(e.t), ch, x)
    ensures InPool(s, o, ch, x)
         || (e.IncrBy? && o == BatchPool(e.t))
         || (e.Install? && o == NodePool(s.threads[e.t].node) && ch == s.threads[e.t].phase.ch)
    ensures e.Install? ==> o != BatchPool(e.t)
    ensures e.FastPath? && o == NodePool(s.threads[e.t].node) && ch == e.c ==>
              TakeLocal(NodeRanges(s, s.threads[e.t].node), ch).1 != Some(x)
  {}

  lemma InvStep(s: State, e: Step)
    requires Inv(s) && CanStep(s, e)
    ensures Inv(Do(s, e))
  {
    var s' := Do(s, e);
    forall o, ch, x | InPool(s', o, ch, x) ensures 1 <= x <= Counter(s', ch) {
      PoolsAfter(s, e, o, ch, x);
    }
    forall o, o', ch, x | InPool(s', o, ch, x) && InPool(s', o', ch, x) ensures o == o' {
      PoolsAfter(s, e, o, ch, x);
      PoolsAfter(s, e, o', ch, x);
    }
    IssuedStep(s, e);
    HeldStep(s, e);
  }

  /** Only the stepping thread fixes an id, from its node's range or as the start of a new batch. */
  lemma IssuedAfter(s: State, e: Step, i: nat)
    requires CanStep(s, e) && i < |Do(s, e).issued|
    ensures i < |s.issued| ==> Do(s, e).issued[i] == s.issued[i]
    ensures i >= |s.issued| ==>
              var n, x, c := s.threads[e.t].node, Do(s, e).issued[i], Do(s, e).issued[i].ch;
              && i == |s.issued| && x.node == n
              && (e.FastPath? || e.IncrBy?)
              && (e.FastPath? ==> InPool(s, NodePool(n), c, x.id) && (forall y :: InPool(Do(s, e), NodePool(n), c, y) ==> x.id < y))
              && (e.IncrBy? ==> Refilling(s, e.t, n, c) && x.id == Counter(s, c) + 1 <= Counter(Do(s, e), c))
  {}

  lemma BoundedStep(s: State, e: Step, i: nat)
    requires IssuedBounded(s) && PoolsBounded(s) && CanStep(s, e) && i < |Do(s, e).issued|
    ensures 1 <= Do(s, e).issued[i].id <= Counter(Do(s, e), Do(s, e).issued[i].ch)
  {
    IssuedAfter(s, e, i);
    assert Counter(s, Do(s, e).issued[i].ch) <= Counter(Do(s, e), Do(s, e).issued[i].ch);
  }

  lemma OutsideStep(s: State, e: Step, o: Owner, i: nat)
    requires IssuedBounded(s) && IssuedOutsidePools(s) && PoolsBounded(s) && PoolsDisjoint(s)
    requires CanStep(s, e) && i < |Do(s, e).issued|
    ensures !InPool(Do(s, e), o, Do(s, e).issued[i].ch, Do(s, e).issued[i].id)
  {
    var x := Do(s, e).issued[i];
    IssuedAfter(s, e, i);
    if InPool(Do(s, e), o, x.ch, x.id) {
      PoolsAfter(s, e, o, x.ch, x.id);
    }
  }

  lemma UniqueStep(s: State, e: Step, i: nat, j: nat)
    requires IssuedBounded(s) && IssuedOutsidePools(s) && IssuedUnique(s)
    requires CanStep(s, e) && i < j < |Do(s, e).issued| && Do(s, e).issued[i].ch == Do(s, e).issued[j].ch
    ensures Do(s, e).issued[i].id != Do(s, e).issued[j].id
  {
    IssuedAfter(s, e, i);
    IssuedAfter(s, e, j);
  }

  lemma IssuedStep(s: State, e: Step)
    requires Inv(s) && CanStep(s, e)
    ensures IssuedBounded(Do(s, e)) && IssuedOutsidePools(Do(s, e)) && IssuedUnique(Do(s, e))
  {
    var s' := Do(s, e);
    forall ch ensures 0 <= Counter(s, ch) <= Counter(s', ch) {}
    forall i | 0 <= i < |s'.issued| ensures 1 <= s'.issued[i].id <= Counter(s', s'.issued[i].ch) {
      BoundedStep(s, e, i);
    }
    forall o, i | 0 <= i < |s'.issued| ensures !InPool(s', o, s'.issued[i].ch, s'.issued[i].id) {
      OutsideStep(s, e, o, i);
    }
    forall i, j | 0 <= i < j < |s'.issued| && s'.issued[i].ch == s'.issued[j].ch ensures s'.issued[i].id != s'.issued[j].id {
      UniqueStep(s, e, i, j);
    }
  }

  /** Some node handed out `x` for `ch`. */
  ghost predicate WasIssued(s: State, ch: Channel, x: int) {
    exists i :: 0 <= i < |s.issued| && s.issued[i].ch == ch && s.issued[i].id == x
  }

  /** After a step a thread holds what it held before, or the new id this step issued to it. */
  lemma HoldsAfter(s: State, e: Step, t: ThreadId, ch: Channel, x: int)
    requires CanStep(s, e) && IssuedUnique(Do(s, e)) && Holds(Do(s, e), t, ch, x)
    ensures !Holds(s, t, ch, x) ==>
              && t == e.t
              && Do(s, e).issued == s.issued + [Issue(s.threads[t].node, ch, x)]
              && !WasIssued(s, ch, x)
  {
    var issued := Do(s, e).issued;
    if !Holds(s, t, ch, x) {
      forall i | 0 <= i < |s.issued| ensures !(s.issued[i].ch == ch && s.issued[i].id == x) {
        assert issued[i] == s.issued[i] && issued[|s.issued|] == Issue(s.threads[t].node, ch, x);
      }
    }
  }

  lemma HeldStep(s: State, e: Step)
    requires Inv(s) && CanStep(s, e) && IssuedUnique(Do(s, e))
    ensures HeldIssued(Do(s, e))
  {
    var s' := Do(s, e);
    forall t, ch, x | Holds(s', t, ch, x)
      ensures Issue(s'.threads[t].node, ch, x) in s'.issued
    {
      HoldsAfter(s, e, t, ch, x);
    }
    forall t, t', ch, x | Holds(s', t, ch, x) && Holds(s', t', ch, x) ensures t == t' {
      HoldsAfter(s, e, t, ch, x);
      HoldsAfter(s, e, t', ch, x);
    }
  }

  /** The invariant holds at every point of every run. */
  lemma {:induction false} InvAlways(run: seq<State>, es: seq<Step>, k: nat)
    requires IsRun(run, es) && k < |run|
    ensures Inv(run[k])
  {
    if k == 0 {
      InvInit(run[0]);
    } else {
      InvAlways(run, es, k - 1);
      InvStep(run[k - 1], es[k - 1]);
    }
  }

  /**
   In every interleaving of any number of threads and nodes no id is handed out
   twice for a channel, and each lies between 1 and the Redis counter.
   */
  lemma IdsUnique(run: seq<State>, es: seq<Step>, k: nat, i: nat, j: nat)
    requires IsRun(run, es) && k < |run|
    requires i < j < |run[k].issued| && run[k].issued[i].ch == run[k].issued[j].ch
    ensures run[k].issued[i].id != run[k].issued[j].id
    ensures 1 <= run[k].issued[i].id <= Counter(run[k], run[k].issued[i].ch)
    ensures 1 <= run[k].issued[j].id <= Counter(run[k], run[k].issued[j].ch)
  {
    InvAlways(run, es, k);
  }

  // ---------------------------------------------------------------------
  // Order on one node
  // ---------------------------------------------------------------------

  /** Thread `t` of node `n` is between line 46 and line 57 for channel `ch`. */
  predicate Refilling(s: State, t: ThreadId, n: NodeId, ch: Channel) {
    && t in s.threads && s.threads[t].node == n
    && (s.threads[t].phase.Refill? || s.threads[t].phase.Reserved?)
    && s.threads[t].phase.ch == ch
  }

  ghost predicate NoOverlap(s: State, n: NodeId, ch: Channel) {
    forall t, t' :: Refilling(s, t, n, ch) && Refilling(s, t', n, ch) ==> t == t'
  }

  /** Node `n` fixed its ids for `ch` in strictly increasing order. */
  ghost predicate Increasing(s: State, n: NodeId, ch: Channel) {
    forall i, j :: 0 <= i < j < |s.issued| && By(s.issued[i], n, ch) && By(s.issued[j], n, ch) ==>
                     s.issued[i].id < s.issued[j].id
  }

  predicate By(issue: Issue, n: NodeId, ch: Channel) { issue.node == n && issue.ch == ch }

  /** Every id node `n` fixed for `ch` is below `bound`. */
  ghost predicate AllBelow(s: State, n: NodeId, ch: Channel, bound: int) {
    forall i :: 0 <= i < |s.issued| && By(s.issued[i], n, ch) ==> s.issued[i].id < bound
  }

  /** Nothing reserved lies below an issued id. */
  ghost predicate PoolsAbove(s: State, n: NodeId, ch: Channel) {
    && (forall x :: InPool(s, NodePool(n), ch, x) ==> AllBelow(s, n, ch, x))
    && (forall t :: Refilling(s, t, n, ch) && s.threads[t].phase.Reserved? ==>
          AllBelow(s, n, ch, BatchStart(s.threads[t].phase.newMax) + 1))
  }

  /** Refills start from an empty range. */
  ghost predicate RefillsEmpty(s: State, n: NodeId, ch: Channel) {
    forall t, x :: Refilling(s, t, n, ch) ==> !InPool(s, NodePool(n), ch, x)
  }

  ghost predicate OrderInv(s: State, n: NodeId, ch: Channel) {
    Increasing(s, n, ch) && PoolsAbove(s, n, ch) && RefillsEmpty(s, n, ch)
  }

  lemma IncreasingStep(s: State, e: Step, n: NodeId, ch: Channel)
    requires Inv(s) && CanStep(s, e) && OrderInv(s, n, ch)
    ensures Increasing(Do(s, e), n, ch)
  {
    var s' := Do(s, e);
    forall i, j | 0 <= i < j < |s'.issued| && By(s'.issued[i], n, ch) && By(s'.issued[j], n, ch)
      ensures s'.issued[i].id < s'.issued[j].id
    {
      IssuedAfter(s, e, i);
      IssuedAfter(s, e, j);
      assert e.FastPath? && j == |s.issued| ==> AllBelow(s, n, ch, s'.issued[j].id);
    }
  }

  lemma RangeAbove(s: State, e: Step, n: NodeId, ch: Channel, x: int)
    requires Inv(s) && CanStep(s, e) && OrderInv(s, n, ch)
    requires InPool(Do(s, e), NodePool(n), ch, x)
    ensures AllBelow(Do(s, e), n, ch, x)
  {
    var s' := Do(s, e);
    PoolsAfter(s, e, NodePool(n), ch, x);
    assert InPool(s, NodePool(n), ch, x) ==> AllBelow(s, n, ch, x);
    forall i | 0 <= i < |s'.issued| && By(s'.issued[i], n, ch) ensures s'.issued[i].id < x {
      IssuedAfter(s, e, i);
      if !InPool(s, NodePool(n), ch, x) {
        assert Refilling(s, e.t, n, ch) && AllBelow(s, n, ch, BatchStart(s.threads[e.t].phase.newMax) + 1);
      }
    }
  }

  lemma BatchAbove(s: State, e: Step, n: NodeId, ch: Channel, t: ThreadId)
    requires Inv(s) && CanStep(s, e) && OrderInv(s, n, ch) && NoOverlap(s, n, ch)
    requires Refilling(Do(s, e), t, n, ch) && Do(s, e).threads[t].phase.Reserved?
    ensures AllBelow(Do(s, e), n, ch, BatchStart(Do(s, e).threads[t].phase.newMax) + 1)
  {
    var s' := Do(s, e);
    assert Refilling(s, t, n, ch);
    assert t != e.t ==> AllBelow(s, n, ch, BatchStart(s.threads[t].phase.newMax) + 1);
    forall i | 0 <= i < |s'.issued| && By(s'.issued[i], n, ch)
      ensures s'.issued[i].id < BatchStart(s'.threads[t].phase.newMax) + 1
    {
      IssuedAfter(s, e, i);
    }
  }

  lemma EmptyStep(s: State, e: Step, n: NodeId, ch: Channel)
    requires CanStep(s, e) && RefillsEmpty(s, n, ch) && NoOverlap(s, n, ch)
    ensures RefillsEmpty(Do(s, e), n, ch)
  {
    var s' := Do(s, e);
    forall t | Refilling(s', t, n, ch) ensures Refilling(s, t, n, ch) || (t == e.t && e.FastPath?) {}
    forall x | InPool(s', NodePool(n), ch, x)
      ensures InPool(s, NodePool(n), ch, x) || (e.Install? && Refilling(s, e.t, n, ch))
    {
      PoolsAfter(s, e, NodePool(n), ch, x);
    }
  }

  lemma OrderStep(s: State, e: Step, n: NodeId, ch: Channel)
    requires Inv(s) && CanStep(s, e) && OrderInv(s, n, ch) && NoOverlap(s, n, ch)
    ensures OrderInv(Do(s, e), n, ch)
  {
    var s' := Do(s, e);
    IncreasingStep(s, e, n, ch);
    EmptyStep(s, e, n, ch);
    forall x | InPool(s', NodePool(n), ch, x) ensures AllBelow(s', n, ch, x) {
      RangeAbove(s, e, n, ch, x);
    }
    forall t | Refilling(s', t, n, ch) && s'.threads[t].phase.Reserved?
      ensures AllBelow(s', n, ch, BatchStart(s'.threads[t].phase.newMax) + 1)
    {
      BatchAbove(s, e, n, ch, t);
    }
  }

  /**
   On one node the ids of a channel strictly increase, in the order they are
   fixed, in every run where refills of that channel never overlap there,
   whatever the other nodes reserve.
   */
  lemma {:induction false} OrderedWithoutOverlap(run: seq<State>, es: seq<Step>, n: NodeId, ch: Channel, k: nat)
    requires IsRun(run, es) && k < |run|
    requires forall i :: 0 <= i <= k ==> NoOverlap(run[i], n, ch)
    ensures Increasing(run[k], n, ch) && OrderInv(run[k], n, ch)
  {
    if k > 0 {
      OrderedWithoutOverlap(run, es, n, ch, k - 1);
      InvAlways(run, es, k - 1);
      OrderStep(run[k - 1], es[k - 1], n, ch);
    }
  }

  /** The state after taking `es` from `s`, if every step is possible. */
  function Exec(s: State, es: seq<Step>): Option<State>
    decreases |es|
  {
    if es == [] then Some(s)
    else if CanStep(s, es[0]) then Exec(Do(s, es[0]), es[1..])
    else None
  }

  lemma {:induction false} ExecConcat(s: State, es: seq<Step>, es': seq<Step>)
    requires Exec(s, es).Some?
    ensures Exec(s, es + es') == Exec(Exec(s, es).value, es')
    decreases |es|
  {
    if es == [] {
      assert [] + es' == es';
    } else {
      assert (es + es')[1..] == es[1..] + es';
      ExecConcat(Do(s, es[0]), es[1..], es');
    }
  }

  /** Of the ids node `n` fixed for `ch`, one from position `from` on is smaller than one before it. */
  ghost predicate InvertedFrom(s: State, n: NodeId, ch: Channel, from: nat) {
    exists i, j :: 0 <= i < j < |s.issued| && from <= j && By(s.issued[i], n, ch) && By(s.issued[j], n, ch) && s.issued[i].id > s.issued[j].id
  }

  /** Let `t`, which is refilling, do its INCRBY if it has not yet. */
  lemma Reserve(s: State, t: ThreadId, n: NodeId, ch: Channel) returns (es: seq<Step>, s': State)
    requires Inv(s) && Refilling(s, t, n, ch)
    ensures Exec(s, es) == Some(s') && Inv(s') && |s.issued| <= |s'.issued|
    ensures Refilling(s', t, n, ch) && s'.threads[t].phase.Reserved?
    ensures forall u :: u != t && u in s.threads ==> u in s'.threads && s'.threads[u] == s.threads[u]
  {
    es, s' := [], s;
    if s.threads[t].phase.Refill? {
      InvStep(s, IncrBy(t));
      es, s' := [IncrBy(t)], Do(s, IncrBy(t));
    }
  }

  /** Of two overlapping batches, install the lower one and hand out from it. */
  lemma InstallStale(s: State, low: ThreadId, high: ThreadId, n: NodeId, ch: Channel) returns (es: seq<Step>)
    requires Inv(s) && Refilling(s, low, n, ch) && Refilling(s, high, n, ch)
    requires s.threads[low].phase.Reserved? && s.threads[high].phase.Reserved?
    requires s.threads[low].phase.newMax < s.threads[high].phase.newMax
    ensures Exec(s, es).Some? && InvertedFrom(Exec(s, es).value, n, ch, |s.issued|)
  {
    var lowMax, highMax := s.threads[low].phase.newMax, s.threads[high].phase.newMax;
    assert Holds(s, high, ch, BatchStart(highMax));
    var i :| 0 <= i < |s.issued| && s.issued[i] == Issue(n, ch, BatchStart(highMax));
    assert !InPool(s, BatchPool(low), ch, BatchStart(highMax));
    assert BatchStart(lowMax) + 1 < BatchStart(highMax);
    var s1 := Do(s, Install(low));
    var s2 := Do(s1, Return(low));
    var s3 := Do(s2, FastPath(low, ch));
    assert TakeLocal(NodeRanges(s2, n), ch).1 == Some(BatchStart(lowMax) + 1);
    assert s3.issued == s.issued + [Issue(n, ch, BatchStart(lowMax) + 1)];
    assert s3.issued[i] == s.issued[i];
    assert By(s3.issued[i], n, ch) && By(s3.issued[|s.issued|], n, ch);
    es := [Install(low), Return(low), FastPath(low, ch)];
    assert Exec(s2, es[1..][1..]) == Exec(s3, []);
    assert Exec(s, es) == Some(s3);
  }

  /**
   The condition cannot be dropped anywhere: as soon as two refills of a channel
   overlap on a node, the run can be continued so that a later id is smaller than
   one before it, whatever happened so far.
   */
  lemma OverlapBreaksOrder(run: seq<State>, es: seq<Step>, n: NodeId, ch: Channel) returns (more: seq<Step>)
    requires IsRun(run, es) && !NoOverlap(run[|es|], n, ch)
    ensures Exec(run[|es|], more).Some? && InvertedFrom(Exec(run[|es|], more).value, n, ch, |run[|es|].issued|)
  {
    var s := run[|es|];
    InvAlways(run, es, |es|);
    var t, t' :| Refilling(s, t, n, ch) && Refilling(s, t', n, ch) && t != t';
    var es1, s1 := Reserve(s, t, n, ch);
    var es2, s2 := Reserve(s1, t', n, ch);
    ExecConcat(s, es1, es2);
    assert Holds(s2, t, ch, BatchStart(s2.threads[t].phase.newMax));
    assert Holds(s2, t', ch, BatchStart(s2.threads[t'].phase.newMax));
    var es3;
    if s2.threads[t].phase.newMax < s2.threads[t'].phase.newMax {
      es3 := InstallStale(s2, t, t', n, ch);
    } else {
      es3 := InstallStale(s2, t', t, n, ch);
    }
    ExecConcat(s, es1 + es2, es3);
    more := es1 + es2 + es3;
  }

  // ---------------------------------------------------------------------
  // Batches are handed out whole
  // ---------------------------------------------------------------------

  /** The last id that node `n` fixed for `ch`. */
  function LastId(issued: seq<Issue>, n: NodeId, ch: Channel): Option<int> {
    if issued == [] then None
    else if By(issued[|issued| - 1], n, ch) then Some(issued[|issued| - 1].id)
    else LastId(issued[..|issued| - 1], n, ch)
  }

  /** `x` may follow the last id: it is the next number, or it starts a batch and the last id ended one. */
  predicate MayFollow(last: Option<int>, x: int) {
    if last.None? then x % 1000 == 1 else x == last.value + 1 || (last.value % 1000 == 0 && x % 1000 == 1)
  }

  /** Node `n` handed out every batch of `ch` to its end before it began another. */
  predicate WholeBatches(issued: seq<Issue>, n: NodeId, ch: Channel) {
    issued == [] ||
    var front, x := issued[..|issued| - 1], issued[|issued| - 1];
    WholeBatches(front, n, ch) && (By(x, n, ch) ==> MayFollow(LastId(front, n, ch), x.id))
  }

  lemma {:induction false} OneMoreIssue(issued: seq<Issue>, x: Issue, n: NodeId, ch: Channel)
    ensures LastId(issued + [x], n, ch) == if By(x, n, ch) then Some(x.id) else LastId(issued, n, ch)
    ensures WholeBatches(issued + [x], n, ch) <==> WholeBatches(issued, n, ch) && (By(x, n, ch) ==> MayFollow(LastId(issued, n, ch), x.id))
  {
    assert (issued + [x])[..|issued|] == issued;
  }

  /** Where the last id of (n, ch) stands in its batch. */
  ghost predicate InBatch(s: State, n: NodeId, ch: Channel) {
    var last, r := LastId(s.issued, n, ch), NodeRanges(s, n);
    && Counter(s, ch) % 1000 == 0
    && (forall t :: Refilling(s, t, n, ch) && s.threads[t].phase.Reserved? ==>
          s.threads[t].phase.newMax % 1000 == 0 && last == Some(s.threads[t].phase.newMax - 999))
    && (ch in r && r[ch].next <= r[ch].max ==> r[ch].max % 1000 == 0 && last == Some(r[ch].next - 1))
    && ((forall t :: Refilling(s, t, n, ch) ==> s.threads[t].phase.Refill?) && (ch in r ==> r[ch].next > r[ch].max) ==>
          last.None? || last.value % 1000 == 0)
  }

  /** A step that fixes no id for (n, ch) leaves its last id and batches alone. */
  lemma {:induction false} ElsewhereKeeps(s: State, e: Step, n: NodeId, ch: Channel)
    requires CanStep(s, e) && WholeBatches(s.issued, n, ch)
    requires forall i :: |s.issued| <= i < |Do(s, e).issued| ==> !By(Do(s, e).issued[i], n, ch)
    ensures LastId(Do(s, e).issued, n, ch) == LastId(s.issued, n, ch) && WholeBatches(Do(s, e).issued, n, ch)
  {
    var issued := Do(s, e).issued;
    if |issued| > |s.issued| {
      OneMoreIssue(s.issued, issued[|s.issued|], n, ch);
      assert issued == s.issued + [issued[|s.issued|]];
    }
  }

  ghost predicate BatchInv(s: State, n: NodeId, ch: Channel) { WholeBatches(s.issued, n, ch) && InBatch(s, n, ch) }

  lemma FastPathWhole(s: State, t: ThreadId, n: NodeId, ch: Channel)
    requires CanStep(s, FastPath(t, ch)) && s.threads[t].node == n && BatchInv(s, n, ch) && RefillsEmpty(s, n, ch)
    ensures BatchInv(Do(s, FastPath(t, ch)), n, ch)
  {
    var s', r := Do(s, FastPath(t, ch)), NodeRanges(s, n);
    forall u | u != t ensures Refilling(s', u, n, ch) == Refilling(s, u, n, ch) {}
    if ch in r && r[ch].next <= r[ch].max {
      assert InPool(s, NodePool(n), ch, r[ch].next);
      OneMoreIssue(s.issued, Issue(n, ch, r[ch].next), n, ch);
      assert NodeRanges(s', n)[ch] == SeqRange(r[ch].next + 1, r[ch].max);
      assert s'.issued == s.issued + [Issue(n, ch, r[ch].next)];
    } else {
      assert s'.issued == s.issued && NodeRanges(s', n) == r;
    }
  }

  lemma IncrByWhole(s: State, t: ThreadId, n: NodeId, ch: Channel)
    requires CanStep(s, IncrBy(t)) && Refilling(s, t, n, ch) && BatchInv(s, n, ch) && RefillsEmpty(s, n, ch) && NoOverlap(s, n, ch)
    ensures BatchInv(Do(s, IncrBy(t)), n, ch)
  {
    var s', r := Do(s, IncrBy(t)), NodeRanges(s, n);
    assert ch in r ==> !InPool(s, NodePool(n), ch, r[ch].next);
    forall u | u != t ensures !Refilling(s, u, n, ch) && !Refilling(s', u, n, ch) {
      assert Refilling(s', u, n, ch) ==> Refilling(s, u, n, ch);
    }
    assert LastId(s.issued, n, ch).None? || LastId(s.issued, n, ch).value % 1000 == 0;
    OneMoreIssue(s.issued, Issue(n, ch, Counter(s, ch) + 1), n, ch);
    assert s'.issued == s.issued + [Issue(n, ch, Counter(s, ch) + 1)];
    assert Refilling(s', t, n, ch) && s'.threads[t].phase == Reserved(ch, Counter(s, ch) + 1000);
    assert NodeRanges(s', n) == r;
  }

  lemma InstallWhole(s: State, t: ThreadId, n: NodeId, ch: Channel)
    requires CanStep(s, Install(t)) && Refilling(s, t, n, ch) && BatchInv(s, n, ch) && NoOverlap(s, n, ch)
    ensures BatchInv(Do(s, Install(t)), n, ch)
  {
    var s' := Do(s, Install(t));
    assert forall u :: Refilling(s', u, n, ch) ==> Refilling(s, u, n, ch) && u != t;
    assert NodeRanges(s', n)[ch] == SeqRange(s.threads[t].phase.newMax - 998, s.threads[t].phase.newMax);
  }

  /** A step elsewhere: neither the range nor the counter of (n, ch) moves, the counter but by whole batches. */
  lemma RangeElsewhere(s: State, e: Step, n: NodeId, ch: Channel)
    requires CanStep(s, e)
    requires !(e.FastPath? && s.threads[e.t].node == n && e.c == ch) && !((e.IncrBy? || e.Install?) && Refilling(s, e.t, n, ch))
    ensures var r, r' := NodeRanges(s, n), NodeRanges(Do(s, e), n);
            (ch in r' <==> ch in r) && (ch in r ==> r'[ch] == r[ch])
    ensures Counter(Do(s, e), ch) == Counter(s, ch) || Counter(Do(s, e), ch) == Counter(s, ch) + 1000
    ensures forall u :: Refilling(Do(s, e), u, n, ch) ==> Refilling(s, u, n, ch) && Do(s, e).threads[u] == s.threads[u]
    ensures forall u :: u != e.t && Refilling(s, u, n, ch) ==> Refilling(Do(s, e), u, n, ch)
    ensures Refilling(s, e.t, n, ch) ==> s.threads[e.t].phase.Refill?
    ensures forall i :: |s.issued| <= i < |Do(s, e).issued| ==> !By(Do(s, e).issued[i], n, ch)
  {}

  lemma OtherWhole(s: State, e: Step, n: NodeId, ch: Channel)
    requires CanStep(s, e) && BatchInv(s, n, ch)
    requires !(e.FastPath? && s.threads[e.t].node == n && e.c == ch) && !((e.IncrBy? || e.Install?) && Refilling(s, e.t, n, ch))
    ensures BatchInv(Do(s, e), n, ch)
  {
    RangeElsewhere(s, e, n, ch);
    ElsewhereKeeps(s, e, n, ch);
  }

  lemma BatchInvStep(s: State, e: Step, n: NodeId, ch: Channel)
    requires CanStep(s, e) && BatchInv(s, n, ch) && RefillsEmpty(s, n, ch) && NoOverlap(s, n, ch)
    ensures BatchInv(Do(s, e), n, ch)
  {
    if e.FastPath? && s.threads[e.t].node == n && e.c == ch {
      FastPathWhole(s, e.t, n, ch);
    } else if e.IncrBy? && Refilling(s, e.t, n, ch) {
      IncrByWhole(s, e.t, n, ch);
    } else if e.Install? && Refilling(s, e.t, n, ch) {
      InstallWhole(s, e.t, n, ch);
    } else {
      OtherWhole(s, e, n, ch);
    }
  }

  /**
   On one node every batch of a channel is handed out number by number to its end
   before the node begins another, in every run where refills of the channel
   never overlap there.
   */
  lemma {:induction false} BatchesWhole(run: seq<State>, es: seq<Step>, n: NodeId, ch: Channel, k: nat)
    requires IsRun(run, es) && k < |run|
    requires forall i :: 0 <= i <= k ==> NoOverlap(run[i], n, ch)
    ensures WholeBatches(run[k].issued, n, ch) && BatchInv(run[k], n, ch)
  {
    if k > 0 {
      BatchesWhole(run, es, n, ch, k - 1);
      OrderedWithoutOverlap(run, es, n, ch, k - 1);
      assert NoOverlap(run[k - 1], n, ch);
      BatchInvStep(run[k - 1], es[k - 1], n, ch);
    }
  }
}
