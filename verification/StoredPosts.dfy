/**
 From posted messages to the store: the send path of any number of nodes, each
 with its own write channel and batching writer, over one shared store
 (internal/service/msg.go:139-161, 217-249, internal/store/mongo.go:141-155).
 */
module StoredPosts {
  import opened AsyncWriter
  import opened MessageStore
  import opened Prelude
  import SA = SeqAlloc
  import SP = SendPath

  /** A document and the number of the post it is made for. */
  datatype Posted = Posted(number: nat, doc: Doc)

  datatype State = State(
    send: SP.State,
    homes: seq<SA.NodeId>,                    // the node of each post
    nodes: map<SA.NodeId, Buffers<Posted>>,
    reached: seq<Posted>,                     // what reached the store, in order
    store: Collection)

  datatype Step =
    | Send(e: SP.Step)
    | PostDoc(t: SA.ThreadId, doc: Doc)
    | Take(n: SA.NodeId, insert: Insert)      // the node's writer receives from its channel
    | Ticker(n: SA.NodeId, insert: Insert)

  function At(s: State, n: SA.NodeId): Buffers<Posted> { if n in s.nodes then s.nodes[n] else Buffers([], []) }

  /** The document of a post carries its channel and id (lines 148-149). */
  predicate CanStep(s: State, e: Step) {
    match e
    case Send(a) => !a.Post? && SP.CanStep(s.send, a)
    case PostDoc(t, doc) =>
      && SP.CanStep(s.send, SP.Post(t)) && t in s.send.seqs.threads
      && doc.channel == s.send.senders[t].req.channel && doc.id == s.send.senders[t].id
    case Take(n, _) => At(s, n).writeCh != []
    case Ticker(_, _) => true
  }

  function DocsIn(ps: seq<Posted>): seq<Doc> {
    seq(|ps|, i requires 0 <= i < |ps| => ps[i].doc)
  }

  /** Node `n` is left with buffers `b` after handing `batch` to the store. */
  function Flushes(s: State, n: SA.NodeId, b: Buffers<Posted>, batch: seq<Posted>, insert: Insert): State {
    s.(nodes := s.nodes[n := b],
       reached := s.reached + Applied(batch, insert),
       store := InsertAll(s.store, DocsIn(Applied(batch, insert))))
  }

  function Do(s: State, e: Step): State
    requires CanStep(s, e)
  {
    match e
    case Send(a) => s.(send := SP.Do(s.send, a))
    case PostDoc(t, doc) =>
      var n := s.send.seqs.threads[t].node;
      s.(send := SP.Do(s.send, SP.Post(t)), homes := s.homes + [n],
         nodes := s.nodes[n := Offered(At(s, n), Posted(|s.send.posts|, doc))])
    case Take(n, insert) => Flushes(s, n, Received(At(s, n)).0, Received(At(s, n)).1, insert)
    case Ticker(n, insert) => Flushes(s, n, At(s, n).(batch := []), At(s, n).batch, insert)
  }

  predicate Init(s: State) {
    SP.Init(s.send) && s.homes == [] && s.nodes == map[] && s.reached == [] && s.store == map[]
  }

  ghost predicate IsRun(run: seq<State>, es: seq<Step>) {
    && |run| == |es| + 1
    && Init(run[0])
    && forall i :: 0 <= i < |es| ==> CanStep(run[i], es[i]) && run[i + 1] == Do(run[i], es[i])
  }

  // ---------------------------------------------------------------------
  // What always holds
  // ---------------------------------------------------------------------

  /** `p` is the document of a post, of node `n`. */
  predicate From(posts: seq<SP.Sent>, homes: seq<SA.NodeId>, p: Posted, n: SA.NodeId) {
    && p.number < |posts| == |homes| && homes[p.number] == n
    && p.doc.channel == posts[p.number].req.channel && p.doc.id == posts[p.number].msgId
  }

  ghost predicate Ascending(ps: seq<Posted>) {
    forall i, j :: 0 <= i < j < |ps| ==> ps[i].number < ps[j].number
  }

  ghost predicate AllFrom(posts: seq<SP.Sent>, homes: seq<SA.NodeId>, ps: seq<Posted>, n: SA.NodeId) {
    forall i :: 0 <= i < |ps| ==> From(posts, homes, ps[i], n)
  }

  /** All that node `n` still has to hand to the store, oldest first. */
  function Waiting(b: Buffers<Posted>): seq<Posted> { b.batch + b.writeCh }

  ghost predicate NodeInv(posts: seq<SP.Sent>, homes: seq<SA.NodeId>, b: Buffers<Posted>, n: SA.NodeId) {
    Ascending(Waiting(b)) && AllFrom(posts, homes, Waiting(b), n)
  }

  /** Everything of node `n` that reached the store is older than what still waits there. */
  ghost predicate Behind(reached: seq<Posted>, homes: seq<SA.NodeId>, b: Buffers<Posted>, n: SA.NodeId) {
    forall i, j | 0 <= i < |reached| && 0 <= j < |Waiting(b)| ::
      reached[i].number < |homes| && homes[reached[i].number] == n ==> reached[i].number < Waiting(b)[j].number
  }

  ghost predicate NodeFits(s: State, n: SA.NodeId) {
    NodeInv(s.send.posts, s.homes, At(s, n), n) && Behind(s.reached, s.homes, At(s, n), n)
  }

  ghost predicate ReachedInv(posts: seq<SP.Sent>, homes: seq<SA.NodeId>, reached: seq<Posted>) {
    && (forall i :: 0 <= i < |reached| ==> Known(posts, homes, reached[i]))
    && (forall i, j :: 0 <= i < j < |reached| ==> reached[i].number != reached[j].number)
  }

  ghost predicate SendInv(s: SP.State) { SP.IdInv(s) && SP.DedupInv(s) && SP.PostInv(s) }

  ghost predicate Inv(s: State) {
    && SendInv(s.send) && |s.homes| == |s.send.posts|
    && (forall n :: NodeFits(s, n))
    && ReachedInv(s.send.posts, s.homes, s.reached)
    && s.store == InsertAll(map[], DocsIn(s.reached))
  }

  lemma SendInvStep(s: SP.State, e: SP.Step)
    requires SendInv(s) && SP.CanStep(s, e)
    ensures SendInv(SP.Do(s, e))
  {
    SP.IdStep(s, e);
    SP.DedupStep(s, e);
    SP.PostStep(s, e);
  }

  lemma PostsKept(s: SP.State, e: SP.Step)
    requires SP.CanStep(s, e) && !e.Post?
    ensures SP.Do(s, e).posts == s.posts
  {}

  /** A further post disturbs nothing that waits or was stored. */
  lemma MorePosts(s: State, n: SA.NodeId, posts: seq<SP.Sent>, homes: seq<SA.NodeId>)
    requires NodeFits(s, n) && |s.homes| == |s.send.posts|
    requires ReachedInv(s.send.posts, s.homes, s.reached)
    requires s.send.posts <= posts && s.homes <= homes && |homes| == |posts|
    ensures NodeInv(posts, homes, At(s, n), n) && Behind(s.reached, homes, At(s, n), n)
    ensures ReachedInv(posts, homes, s.reached)
  {
    forall i | 0 <= i < |Waiting(At(s, n))| ensures From(posts, homes, Waiting(At(s, n))[i], n) {
      assert From(s.send.posts, s.homes, Waiting(At(s, n))[i], n);
    }
    forall i | 0 <= i < |s.reached| ensures Known(posts, homes, s.reached[i]) {
      assert Known(s.send.posts, s.homes, s.reached[i]);
    }
  }

  /** The new post's document is newer than everything of its node. */
  lemma OfferKeeps(posts: seq<SP.Sent>, homes: seq<SA.NodeId>, reached: seq<Posted>, b: Buffers<Posted>, p: Posted, n: SA.NodeId)
    requires NodeInv(posts, homes, b, n) && Behind(reached, homes, b, n) && From(posts, homes, p, n) && ReachedInv(posts, homes, reached)
    requires forall i :: 0 <= i < |Waiting(b)| ==> Waiting(b)[i].number < p.number
    requires forall i :: 0 <= i < |reached| ==> reached[i].number < p.number
    ensures NodeInv(posts, homes, Offered(b, p), n) && Behind(reached, homes, Offered(b, p), n)
  {
    if |b.writeCh| < WRITE_CH_CAP {
      assert Waiting(Offered(b, p)) == Waiting(b) + [p];
    }
  }

  // ---- Flushing ----

  /** `part` is taken from `batch` in order. */
  lemma {:induction false} AppliedInOrder(batch: seq<Posted>, insert: Insert)
    requires Ascending(batch)
    ensures Ascending(Applied(batch, insert))
    ensures forall i :: 0 <= i < |Applied(batch, insert)| ==> Applied(batch, insert)[i] in batch
  {
    if insert.Fails? && batch != [] {
      var n := |batch| - 1;
      var front := Picked(batch[..n], insert.stored);
      AppliedInOrder(batch[..n], insert);
      assert Applied(batch[..n], insert) == front;
      forall i | 0 <= i < |front| ensures front[i].number < batch[n].number && front[i] in batch {
        assert front[i] in batch[..n];
      }
    }
  }

  lemma WaitingFrom(posts: seq<SP.Sent>, homes: seq<SA.NodeId>, reached: seq<Posted>, b: Buffers<Posted>, n: SA.NodeId, p: Posted)
    requires NodeInv(posts, homes, b, n) && Behind(reached, homes, b, n) && p in Waiting(b)
    ensures From(posts, homes, p, n)
    ensures forall i :: 0 <= i < |reached| ==> reached[i].number != p.number
  {
    assert p in Waiting(b);
    var w :| 0 <= w < |Waiting(b)| && Waiting(b)[w] == p;
    assert From(posts, homes, Waiting(b)[w], n);
  }

  /** `p` is the document of some post. */
  predicate Known(posts: seq<SP.Sent>, homes: seq<SA.NodeId>, p: Posted) {
    p.number < |homes| && From(posts, homes, p, homes[p.number])
  }

  lemma ReachedMore(posts: seq<SP.Sent>, homes: seq<SA.NodeId>, reached: seq<Posted>, b: Buffers<Posted>, n: SA.NodeId, more: seq<Posted>)
    requires ReachedInv(posts, homes, reached) && NodeInv(posts, homes, b, n) && Behind(reached, homes, b, n)
    requires Ascending(more) && forall i :: 0 <= i < |more| ==> more[i] in Waiting(b)
    ensures ReachedInv(posts, homes, reached + more)
  {
    var all := reached + more;
    forall i | 0 <= i < |all| ensures Known(posts, homes, all[i]) {
      if i >= |reached| {
        WaitingFrom(posts, homes, reached, b, n, more[i - |reached|]);
      }
    }
    forall i, j | 0 <= i < j < |all| ensures all[i].number != all[j].number {
      if j >= |reached| {
        WaitingFrom(posts, homes, reached, b, n, more[j - |reached|]);
      }
    }
  }

  /** What waits at `n` after a flush is newer than what was flushed. */
  lemma StillBehind(posts: seq<SP.Sent>, homes: seq<SA.NodeId>, reached: seq<Posted>, b: Buffers<Posted>, n: SA.NodeId, k: nat, more: seq<Posted>, b': Buffers<Posted>)
    requires NodeInv(posts, homes, b, n) && Behind(reached, homes, b, n) && k <= |Waiting(b)| && Waiting(b') == Waiting(b)[k..]
    requires forall i :: 0 <= i < |more| ==> more[i] in Waiting(b)[..k]
    ensures NodeInv(posts, homes, b', n) && Behind(reached + more, homes, b', n)
  {
    forall i, j | 0 <= i < |more| && 0 <= j < |Waiting(b')| ensures more[i].number < Waiting(b')[j].number {
      assert more[i] in Waiting(b)[..k];
      var w :| 0 <= w < k && Waiting(b)[..k][w] == more[i];
      assert Waiting(b')[j] == Waiting(b)[k + j];
    }
  }

  /** What another node flushes does not concern `m`. */
  lemma OthersBehind(posts: seq<SP.Sent>, homes: seq<SA.NodeId>, reached: seq<Posted>, b: Buffers<Posted>, n: SA.NodeId, more: seq<Posted>, c: Buffers<Posted>, m: SA.NodeId)
    requires NodeInv(posts, homes, b, n) && n != m && Behind(reached, homes, c, m)
    requires forall i :: 0 <= i < |more| ==> more[i] in Waiting(b)
    ensures Behind(reached + more, homes, c, m)
  {
    forall i | 0 <= i < |more| ensures From(posts, homes, more[i], n) {
      assert more[i] in Waiting(b);
      var w :| 0 <= w < |Waiting(b)| && Waiting(b)[w] == more[i];
    }
  }

  lemma AppliedWaits(b: Buffers<Posted>, k: nat, insert: Insert)
    requires Ascending(Waiting(b)) && k <= |Waiting(b)|
    ensures var more := Applied(Waiting(b)[..k], insert);
            && Ascending(more)
            && (forall i :: 0 <= i < |more| ==> more[i] in Waiting(b)[..k])
            && (forall i :: 0 <= i < |more| ==> more[i] in Waiting(b))
  {
    AppliedInOrder(Waiting(b)[..k], insert);
  }

  lemma FlushKeepsNode(s: State, n: SA.NodeId, b: Buffers<Posted>, k: nat, insert: Insert, m: SA.NodeId)
    requires NodeFits(s, n) && NodeFits(s, m) && k <= |Waiting(At(s, n))| && Waiting(b) == Waiting(At(s, n))[k..]
    ensures NodeFits(Flushes(s, n, b, Waiting(At(s, n))[..k], insert), m)
  {
    var posts, homes, more := s.send.posts, s.homes, Applied(Waiting(At(s, n))[..k], insert);
    AppliedWaits(At(s, n), k, insert);
    if m == n {
      StillBehind(posts, homes, s.reached, At(s, n), n, k, more, b);
    } else {
      OthersBehind(posts, homes, s.reached, At(s, n), n, more, At(s, m), m);
    }
  }

  lemma StoreGrows(reached: seq<Posted>, more: seq<Posted>)
    ensures InsertAll(InsertAll(map[], DocsIn(reached)), DocsIn(more)) == InsertAll(map[], DocsIn(reached + more))
  {
    assert DocsIn(reached + more) == DocsIn(reached) + DocsIn(more);
    InsertAppend(map[], DocsIn(reached), DocsIn(more));
  }

  /** A flush of the first `k` waiting documents of node `n`. */
  lemma FlushKeeps(s: State, n: SA.NodeId, b: Buffers<Posted>, k: nat, insert: Insert)
    requires Inv(s) && k <= |Waiting(At(s, n))| && Waiting(b) == Waiting(At(s, n))[k..]
    ensures Inv(Flushes(s, n, b, Waiting(At(s, n))[..k], insert))
  {
    var more := Applied(Waiting(At(s, n))[..k], insert);
    assert NodeFits(s, n);
    forall m ensures NodeFits(Flushes(s, n, b, Waiting(At(s, n))[..k], insert), m) {
      assert NodeFits(s, m);
      FlushKeepsNode(s, n, b, k, insert, m);
    }
    AppliedWaits(At(s, n), k, insert);
    ReachedMore(s.send.posts, s.homes, s.reached, At(s, n), n, more);
    StoreGrows(s.reached, more);
  }

  lemma NothingFlushed(s: State, n: SA.NodeId, b: Buffers<Posted>, insert: Insert)
    requires Inv(s) && Waiting(b) == Waiting(At(s, n))
    ensures Inv(Flushes(s, n, b, [], insert))
  {
    assert Waiting(At(s, n))[..0] == [] && Waiting(At(s, n))[0..] == Waiting(b);
    FlushKeeps(s, n, b, 0, insert);
  }

  /** The batch is the front of what waits. */
  lemma BatchFirst(b: Buffers<Posted>)
    ensures Waiting(b)[..|b.batch|] == b.batch && Waiting(b)[|b.batch|..] == Waiting(b.(batch := []))
  {}

  lemma GrownFirst(b: Buffers<Posted>)
    requires b.writeCh != []
    ensures var grown := b.batch + [b.writeCh[0]];
            && |grown| <= |Waiting(b)| && Waiting(b)[..|grown|] == grown
            && Waiting(b)[|grown|..] == Waiting(Buffers(b.writeCh[1..], []))
            && Waiting(b) == Waiting(Buffers(b.writeCh[1..], grown))
  {
    assert Waiting(b) == (b.batch + [b.writeCh[0]]) + b.writeCh[1..];
  }

  lemma TakeKeeps(s: State, n: SA.NodeId, insert: Insert)
    requires Inv(s) && CanStep(s, Take(n, insert))
    ensures Inv(Do(s, Take(n, insert)))
  {
    var b := At(s, n);
    var grown := b.batch + [b.writeCh[0]];
    GrownFirst(b);
    if |grown| >= BATCH_SIZE {
      assert Do(s, Take(n, insert)) == Flushes(s, n, Buffers(b.writeCh[1..], []), Waiting(b)[..|grown|], insert);
      FlushKeeps(s, n, Buffers(b.writeCh[1..], []), |grown|, insert);
    } else {
      NothingFlushed(s, n, Buffers(b.writeCh[1..], grown), insert);
    }
  }

  lemma TickerKeeps(s: State, n: SA.NodeId, insert: Insert)
    requires Inv(s)
    ensures Inv(Do(s, Ticker(n, insert)))
  {
    var b := At(s, n);
    BatchFirst(b);
    assert Do(s, Ticker(n, insert)) == Flushes(s, n, b.(batch := []), Waiting(b)[..|b.batch|], insert);
    FlushKeeps(s, n, b.(batch := []), |b.batch|, insert);
  }

  lemma PostKeepsNode(s: State, t: SA.ThreadId, doc: Doc, m: SA.NodeId)
    requires NodeFits(s, m) && |s.homes| == |s.send.posts| && ReachedInv(s.send.posts, s.homes, s.reached)
    requires CanStep(s, PostDoc(t, doc))
    ensures var s' := Do(s, PostDoc(t, doc));
            NodeFits(s', m) && ReachedInv(s'.send.posts, s'.homes, s'.reached)
  {
    var s' := Do(s, PostDoc(t, doc));
    var p := Posted(|s.send.posts|, doc);
    MorePosts(s, m, s'.send.posts, s'.homes);
    if m == s.send.seqs.threads[t].node {
      forall i | 0 <= i < |Waiting(At(s, m))| ensures Waiting(At(s, m))[i].number < p.number {
        assert From(s.send.posts, s.homes, Waiting(At(s, m))[i], m);
      }
      OfferKeeps(s'.send.posts, s'.homes, s.reached, At(s, m), p, m);
    }
  }

  lemma PostKeeps(s: State, t: SA.ThreadId, doc: Doc)
    requires Inv(s) && CanStep(s, PostDoc(t, doc))
    ensures Inv(Do(s, PostDoc(t, doc)))
  {
    SendInvStep(s.send, SP.Post(t));
    forall m ensures NodeFits(Do(s, PostDoc(t, doc)), m) {
      assert NodeFits(s, m);
      PostKeepsNode(s, t, doc, m);
    }
    assert NodeFits(s, 0);
    PostKeepsNode(s, t, doc, 0);
  }

  lemma InvStep(s: State, e: Step)
    requires Inv(s) && CanStep(s, e)
    ensures Inv(Do(s, e))
  {
    match e
    case Send(a) =>
      SendInvStep(s.send, a);
      PostsKept(s.send, a);
      forall n ensures NodeFits(Do(s, e), n) {
        assert NodeFits(s, n) && At(Do(s, e), n) == At(s, n);
      }
    case PostDoc(t, doc) => PostKeeps(s, t, doc);
    case Take(n, insert) => TakeKeeps(s, n, insert);
    case Ticker(n, insert) => TickerKeeps(s, n, insert);
  }

  lemma InvInitial(s: State)
    requires Init(s)
    ensures Inv(s)
  {
    SP.AllInitial(s.send);
    assert DocsIn(s.reached) == [];
    forall n ensures NodeFits(s, n) {
      assert Waiting(At(s, n)) == [];
    }
  }

  lemma {:induction false} InvAlways(run: seq<State>, es: seq<Step>, k: nat)
    requires IsRun(run, es) && k < |run|
    ensures Inv(run[k])
  {
    if k == 0 {
      InvInitial(run[0]);
    } else {
      InvAlways(run, es, k - 1);
      InvStep(run[k - 1], es[k - 1]);
    }
  }

  // ---------------------------------------------------------------------
  // What the store holds
  // ---------------------------------------------------------------------

  lemma ReachedApart(s: State, i: nat, j: nat)
    requires Inv(s) && i < |s.reached| && j < |s.reached| && i != j
    ensures KeyOf(s.reached[i].doc) != KeyOf(s.reached[j].doc)
  {
    var p, q := s.reached[i], s.reached[j];
    assert Known(s.send.posts, s.homes, p) && Known(s.send.posts, s.homes, q);
    if p.doc.channel == q.doc.channel {
      SP.DistinctIds(s.send, p.number, q.number);
    }
  }

  lemma ReachedStored(s: State, i: nat)
    requires Inv(s) && i < |s.reached|
    ensures var d := s.reached[i].doc; KeyOf(d) in s.store && s.store[KeyOf(d)] == d
  {
    var docs := DocsIn(s.reached);
    forall j | 0 <= j < i ensures KeyOf(docs[j]) != KeyOf(docs[i]) {
      ReachedApart(s, i, j);
    }
    FirstWins(map[], docs, i);
  }

  lemma {:induction false} ReachedStays(run: seq<State>, es: seq<Step>, i: nat, k: nat)
    requires IsRun(run, es) && i <= k < |run|
    ensures run[i].reached <= run[k].reached
  {
    if i < k {
      ReachedStays(run, es, i, k - 1);
    }
  }

  /** The batch that a step hands to the store. */
  function Handed(s: State, e: Step): seq<Posted>
    requires CanStep(s, e)
  {
    if e.Take? then Received(At(s, e.n)).1 else if e.Ticker? then At(s, e.n).batch else []
  }

  lemma HandedReach(s: State, e: Step, a: nat)
    requires CanStep(s, e) && (e.Take? || e.Ticker?) && e.insert.Succeeds? && a < |Handed(s, e)|
    ensures |Do(s, e).reached| == |s.reached| + |Handed(s, e)| && Do(s, e).reached[|s.reached| + a] == Handed(s, e)[a]
  {}

  /**
   In every run of any number of nodes and senders: a document handed to the
   store in an insert that succeeds is from then on in the store, unchanged,
   under its own key; it was never taken for a repeat of another message.
   */
  lemma PostsSurvive(run: seq<State>, es: seq<Step>, i: nat, k: nat, a: nat)
    requires IsRun(run, es) && i < k < |run|
    requires (es[i].Take? || es[i].Ticker?) && es[i].insert.Succeeds? && a < |Handed(run[i], es[i])|
    ensures var d := Handed(run[i], es[i])[a].doc;
            KeyOf(d) in run[k].store && run[k].store[KeyOf(d)] == d
  {
    var j := |run[i].reached| + a;
    assert j < |run[k].reached| && run[k].reached[j] == Handed(run[i], es[i])[a] by {
      HandedReach(run[i], es[i], a);
      ReachedStays(run, es, i + 1, k);
    }
    InvAlways(run, es, k);
    ReachedStored(run[k], j);
  }

  /** And nothing else is in the store: every document there was made for a posted message and handed over once. */
  lemma OnlyPostsStored(run: seq<State>, es: seq<Step>, k: nat, key: Key) returns (i: nat)
    requires IsRun(run, es) && k < |run| && key in run[k].store
    ensures i < |run[k].reached| && run[k].store[key] == run[k].reached[i].doc && KeyOf(run[k].reached[i].doc) == key
    ensures var p := run[k].reached[i];
            && Known(run[k].send.posts, run[k].homes, p)
            && forall j :: 0 <= j < |run[k].reached| && j != i ==> run[k].reached[j].number != p.number
  {
    InvAlways(run, es, k);
    var docs := DocsIn(run[k].reached);
    InsertKeys(map[], docs, key);
    var j :| 0 <= j < |docs| && KeyOf(docs[j]) == key;
    i := j;
    ReachedStored(run[k], i);
  }

  // ---------------------------------------------------------------------
  // Nothing is stuck on the way
  // ---------------------------------------------------------------------

  /** The document of a post is queued at its node exactly if fewer than 4096 are. */
  lemma PostQueued(s: State, t: SA.ThreadId, doc: Doc)
    requires CanStep(s, PostDoc(t, doc))
    ensures var s', n := Do(s, PostDoc(t, doc)), s.send.seqs.threads[t].node;
            && At(s', n).batch == At(s, n).batch
            && At(s', n).writeCh == At(s, n).writeCh + (if |At(s, n).writeCh| < 4096 then [Posted(|s.send.posts|, doc)] else [])
            && |s'.send.posts| == |s.send.posts| + 1 && s'.reached == s.reached
  {}

  /** The state after taking `es` from `s`, if every step is possible. */
  function Exec(s: State, es: seq<Step>): Option<State>
    decreases |es|
  {
    if es == [] then Some(s)
    else if CanStep(s, es[0]) then Exec(Do(s, es[0]), es[1..])
    else None
  }

  lemma {:induction false} ExecMore(s: State, es: seq<Step>, e: Step)
    requires Exec(s, es).Some? && CanStep(Exec(s, es).value, e)
    ensures Exec(s, es + [e]) == Some(Do(Exec(s, es).value, e))
    decreases |es|
  {
    if es == [] {
      assert [e][1..] == [];
    } else {
      assert (es + [e])[1..] == es[1..] + [e];
      ExecMore(Do(s, es[0]), es[1..], e);
    }
  }

  /** What node `n` has handed over since `s` and what is still in its batch. */
  ghost predicate HandedOver(s: State, s': State, n: SA.NodeId, taken: seq<Posted>) {
    s.reached <= s'.reached && s'.reached[|s.reached|..] + At(s', n).batch == taken
  }

  lemma TakeHandsOver(s: State, s': State, n: SA.NodeId, taken: seq<Posted>)
    requires HandedOver(s, s', n, taken) && At(s', n).writeCh != []
    ensures var s'' := Do(s', Take(n, Succeeds));
            && HandedOver(s, s'', n, taken + [At(s', n).writeCh[0]])
            && At(s'', n).writeCh == At(s', n).writeCh[1..]
  {
    var s'', b := Do(s', Take(n, Succeeds)), At(s', n);
    var (b', batch) := Received(b);
    assert At(s'', n) == b' && s''.reached == s'.reached + batch;
    ReceivedSplits(b);
    Regroup(s.reached, s'.reached, batch, b'.batch, b.batch, b.writeCh[0], taken);
  }

  lemma ReceivedSplits(b: Buffers<Posted>)
    requires b.writeCh != []
    ensures Received(b).1 + Received(b).0.batch == b.batch + [b.writeCh[0]] && Received(b).0.writeCh == b.writeCh[1..]
  {
    var grown := b.batch + [b.writeCh[0]];
    assert grown + [] == grown == [] + grown;
  }

  lemma Regroup(first: seq<Posted>, reached: seq<Posted>, batch: seq<Posted>, left: seq<Posted>, before: seq<Posted>, x: Posted, taken: seq<Posted>)
    requires first <= reached && reached[|first|..] + before == taken && batch + left == before + [x]
    ensures first <= reached + batch && (reached + batch)[|first|..] + left == taken + [x]
  {
    var part := reached[|first|..];
    assert (reached + batch)[|first|..] == part + batch;
    assert part + batch + left == part + (batch + left);
    assert part + (before + [x]) == part + before + [x];
  }

  lemma {:induction false} TakesAll(s: State, es: seq<Step>, s': State, n: SA.NodeId, taken: seq<Posted>)
    returns (es': seq<Step>, end: State)
    requires Exec(s, es) == Some(s') && HandedOver(s, s', n, taken)
    ensures Exec(s, es') == Some(end) && HandedOver(s, end, n, taken + At(s', n).writeCh) && At(end, n).writeCh == []
    decreases |At(s', n).writeCh|
  {
    var queue := At(s', n).writeCh;
    if queue == [] {
      es', end := es, s';
      assert taken + [] == taken;
    } else {
      ExecMore(s, es, Take(n, Succeeds));
      TakeHandsOver(s, s', n, taken);
      es', end := TakesAll(s, es + [Take(n, Succeeds)], Do(s', Take(n, Succeeds)), n, taken + [queue[0]]);
      assert taken + [queue[0]] + queue[1..] == taken + queue;
    }
  }

  /** From any state the steps of a node's writer can bring everything that waits there to the store, in order. */
  lemma {:induction false} WriterFinishes(s: State, n: SA.NodeId) returns (es: seq<Step>, end: State)
    ensures Exec(s, es) == Some(end) && Waiting(At(end, n)) == []
    ensures end.reached == s.reached + Waiting(At(s, n))
  {
    assert s.reached[|s.reached|..] == [] && [] + At(s, n).batch == At(s, n).batch;
    var es1, s1 := TakesAll(s, [], s, n, At(s, n).batch);
    ExecMore(s, es1, Ticker(n, Succeeds));
    es, end := es1 + [Ticker(n, Succeeds)], Do(s1, Ticker(n, Succeeds));
    assert end.reached == s1.reached + At(s1, n).batch;
    assert s1.reached == s.reached + s1.reached[|s.reached|..];
  }
}
