/**
 The write loop of a connection (internal/gateway/conn.go:72-89, 202-250): two
 bounded queues merged into one byte stream, batch by batch, while other
 goroutines keep enqueueing.
 */
module WriteLoop {
  import opened Prelude
  import opened Codec

  const RESP_CAP: nat := 64
  const PUSHES_PER_BATCH: nat := 256

  /** A queue entry taken by the write loop. */
  datatype Item = Resp(data: Bytes) | Push(data: Bytes)

  // ---------------------------------------------------------------------
  // Sequences of items
  // ---------------------------------------------------------------------

  function Contents(items: seq<Item>): seq<Bytes> {
    seq(|items|, i requires 0 <= i < |items| => items[i].data)
  }

  /** The responses among the items, in order. */
  function Resps(items: seq<Item>): seq<Bytes> {
    if items == [] then [] else Resps(items[..|items| - 1]) + Kept(items[|items| - 1].Resp?, items[|items| - 1].data)
  }

  /** The pushes among the items, in order. */
  function Pushes(items: seq<Item>): seq<Bytes> {
    if items == [] then [] else Pushes(items[..|items| - 1]) + Kept(items[|items| - 1].Push?, items[|items| - 1].data)
  }

  function Kept(keep: bool, data: Bytes): seq<Bytes> { if keep then [data] else [] }

  function Flat(batches: seq<seq<Item>>): seq<Item> {
    if batches == [] then [] else Flat(batches[..|batches| - 1]) + batches[|batches| - 1]
  }

  lemma {:induction false} TakeOne(items: seq<Item>, x: Item)
    ensures Resps(items + [x]) == Resps(items) + Kept(x.Resp?, x.data)
    ensures Pushes(items + [x]) == Pushes(items) + Kept(x.Push?, x.data)
    ensures Contents(items + [x]) == Contents(items) + [x.data]
  {
    assert (items + [x])[..|items|] == items;
  }

  lemma {:induction false} FlatAppend(batches: seq<seq<Item>>, batch: seq<Item>)
    ensures Flat(batches + [batch]) == Flat(batches) + batch
  {
    assert (batches + [batch])[..|batches|] == batches;
  }

  lemma {:induction false} JoinAppend(items: seq<Bytes>, more: seq<Bytes>)
    ensures Join(items + more) == Join(items) + Join(more)
  {
    if items == [] {
      assert items + more == more;
    } else {
      assert (items + more)[1..] == items[1..] + more;
      JoinAppend(items[1..], more);
    }
  }

  lemma ContentsAppend(items: seq<Item>, more: seq<Item>)
    ensures Contents(items + more) == Contents(items) + Contents(more)
  {}

  // ---------------------------------------------------------------------
  // The loop as a step system
  // ---------------------------------------------------------------------

  datatype Phase = Blocked | DrainingResps | DrainingPushes(n: nat) | Writing

  datatype State = State(
    pushCap: nat,
    respCh: seq<Bytes>, pushCh: seq<Bytes>,
    phase: Phase,
    buf: Bytes,
    wire: Bytes,
    respIn: seq<Bytes>, pushIn: seq<Bytes>,  // everything ever accepted into the queues
    batch: seq<Item>,                        // what `buf` is made of
    batches: seq<seq<Item>>)                 // what `wire` is made of

  datatype Step =
    | SendResp(data: Bytes)
    | Send(data: Bytes)
    | TakeFirstResp
    | TakeFirstPush
    | TakeResp
    | NoResp
    | TakePush
    | NoPush
    | Write

  predicate CanStep(s: State, e: Step) {
    match e
    case SendResp(_) => true
    case Send(_) => true
    case TakeFirstResp => s.phase.Blocked? && s.respCh != []
    case TakeFirstPush => s.phase.Blocked? && s.pushCh != []
    case TakeResp => s.phase.DrainingResps? && s.respCh != []
    case NoResp => s.phase.DrainingResps? && s.respCh == []
    case TakePush => s.phase.DrainingPushes? && s.phase.n < PUSHES_PER_BATCH && s.pushCh != []
    case NoPush => s.phase.DrainingPushes? && (s.phase.n >= PUSHES_PER_BATCH || s.pushCh == [])
    case Write => s.phase.Writing?
  }

  function PopResp(s: State): State
    requires s.respCh != []
  {
    s.(respCh := s.respCh[1..], buf := s.buf + s.respCh[0], batch := s.batch + [Resp(s.respCh[0])])
  }

  function PopPush(s: State): State
    requires s.pushCh != []
  {
    s.(pushCh := s.pushCh[1..], buf := s.buf + s.pushCh[0], batch := s.batch + [Push(s.pushCh[0])])
  }

  function Do(s: State, e: Step): State
    requires CanStep(s, e)
  {
    match e
    case SendResp(data) =>
      if |s.respCh| < RESP_CAP then s.(respCh := s.respCh + [data], respIn := s.respIn + [data]) else s
    case Send(data) =>
      if |s.pushCh| < s.pushCap then s.(pushCh := s.pushCh + [data], pushIn := s.pushIn + [data]) else s
    case TakeFirstResp => PopResp(s.(buf := [], batch := [])).(phase := DrainingResps)
    case TakeFirstPush => PopPush(s.(buf := [], batch := [])).(phase := DrainingResps)
    case TakeResp => PopResp(s)
    case NoResp => s.(phase := DrainingPushes(0))
    case TakePush => PopPush(s).(phase := DrainingPushes(s.phase.n + 1))
    case NoPush => s.(phase := Writing)
    case Write => s.(wire := s.wire + s.buf, batches := s.batches + [s.batch], phase := Blocked, buf := [], batch := [])
  }

  predicate Init(s: State) {
    && s.respCh == s.pushCh == s.respIn == s.pushIn == []
    && s.phase.Blocked? && s.buf == s.wire == [] && s.batch == [] && s.batches == []
  }

  ghost predicate IsRun(run: seq<State>, es: seq<Step>) {
    && |run| == |es| + 1
    && Init(run[0])
    && forall i :: 0 <= i < |es| ==> CanStep(run[i], es[i]) && run[i + 1] == Do(run[i], es[i])
  }

  // ---------------------------------------------------------------------
  // What is written
  // ---------------------------------------------------------------------

  /** All items ever taken from the queues, in order. */
  function Taken(s: State): seq<Item> { Flat(s.batches) + s.batch }

  /** Each queue is consumed in order, every entry once: taken or still queued. */
  predicate Fifo(s: State) {
    Resps(Taken(s)) + s.respCh == s.respIn && Pushes(Taken(s)) + s.pushCh == s.pushIn
  }

  /** The bytes written are whole items. */
  predicate WholeItems(s: State) {
    s.wire == Join(Contents(Flat(s.batches))) && s.buf == Join(Contents(s.batch))
  }

  /** After any first item, responses up to `k`, then at most 256 pushes. */
  predicate Shaped(batch: seq<Item>, k: nat) {
    && 1 <= k <= |batch| <= k + PUSHES_PER_BATCH
    && (forall i :: 1 <= i < k ==> batch[i].Resp?)
    && (forall i :: k <= i < |batch| ==> batch[i].Push?)
  }

  ghost predicate PhaseShaped(phase: Phase, batch: seq<Item>) {
    match phase
    case Blocked => batch == []
    case DrainingResps => Shaped(batch, |batch|)
    case DrainingPushes(n) => n <= |batch| && n <= PUSHES_PER_BATCH && Shaped(batch, |batch| - n)
    case Writing => WellShaped(batch)
  }

  ghost predicate WellShaped(batch: seq<Item>) { exists k :: Shaped(batch, k) }

  ghost predicate Batched(s: State) {
    PhaseShaped(s.phase, s.batch) && forall i :: 0 <= i < |s.batches| ==> WellShaped(s.batches[i])
  }

  lemma TakenStep(s: State, x: Item)
    ensures Flat(s.batches) + (s.batch + [x]) == Taken(s) + [x]
    ensures Resps(Flat(s.batches) + (s.batch + [x])) == Resps(Taken(s)) + Kept(x.Resp?, x.data)
    ensures Pushes(Flat(s.batches) + (s.batch + [x])) == Pushes(Taken(s)) + Kept(x.Push?, x.data)
    ensures Join(Contents(s.batch + [x])) == Join(Contents(s.batch)) + x.data
  {
    assert Flat(s.batches) + (s.batch + [x]) == Taken(s) + [x];
    TakeOne(Taken(s), x);
    TakeOne(s.batch, x);
    JoinAppend(Contents(s.batch), [x.data]);
    assert Join([x.data]) == x.data;
  }

  /** Moving the head of a queue behind what was taken from it. */
  lemma MoveHead(taken: seq<Bytes>, queue: seq<Bytes>)
    requires queue != []
    ensures (taken + [queue[0]]) + queue[1..] == taken + queue
  {}

  lemma PopRespKeeps(s: State)
    requires s.respCh != [] && Fifo(s) && WholeItems(s)
    ensures Fifo(PopResp(s)) && WholeItems(PopResp(s))
  {
    TakenStep(s, Resp(s.respCh[0]));
    MoveHead(Resps(Taken(s)), s.respCh);
    assert Pushes(Taken(s)) + [] == Pushes(Taken(s));
  }

  lemma PopPushKeeps(s: State)
    requires s.pushCh != [] && Fifo(s) && WholeItems(s)
    ensures Fifo(PopPush(s)) && WholeItems(PopPush(s))
  {
    TakenStep(s, Push(s.pushCh[0]));
    MoveHead(Pushes(Taken(s)), s.pushCh);
    assert Resps(Taken(s)) + [] == Resps(Taken(s));
  }

  lemma WriteKeeps(s: State)
    requires CanStep(s, Write) && Fifo(s) && WholeItems(s)
    ensures Fifo(Do(s, Write)) && WholeItems(Do(s, Write))
  {
    var s' := Do(s, Write);
    FlatAppend(s.batches, s.batch);
    assert Taken(s') == Taken(s);
    ContentsAppend(Flat(s.batches), s.batch);
    JoinAppend(Contents(Flat(s.batches)), Contents(s.batch));
  }

  lemma MergeStep(s: State, e: Step)
    requires CanStep(s, e) && Fifo(s) && WholeItems(s) && (s.phase.Blocked? ==> s.batch == [])
    ensures Fifo(Do(s, e)) && WholeItems(Do(s, e))
  {
    match e
    case Write => WriteKeeps(s);
    case TakeFirstResp => PopRespKeeps(s.(buf := [], batch := []));
    case TakeFirstPush => PopPushKeeps(s.(buf := [], batch := []));
    case TakeResp => PopRespKeeps(s);
    case TakePush => PopPushKeeps(s);
    case SendResp(data) => assert Resps(Taken(s)) + (s.respCh + [data]) == Resps(Taken(s)) + s.respCh + [data];
    case Send(data) => assert Pushes(Taken(s)) + (s.pushCh + [data]) == Pushes(Taken(s)) + s.pushCh + [data];
    case _ =>
  }

  lemma ShapedMore(batch: seq<Item>, k: nat, x: Item)
    requires Shaped(batch, k)
    ensures x.Resp? && k == |batch| ==> Shaped(batch + [x], k + 1)
    ensures x.Push? && |batch| < k + PUSHES_PER_BATCH ==> Shaped(batch + [x], k)
  {}

  lemma BatchStep(s: State, e: Step)
    requires CanStep(s, e) && Batched(s)
    ensures Batched(Do(s, e))
  {
    match e
    case TakeResp => ShapedMore(s.batch, |s.batch|, Resp(s.respCh[0]));
    case TakePush => ShapedMore(s.batch, |s.batch| - s.phase.n, Push(s.pushCh[0]));
    case NoPush => assert Shaped(s.batch, |s.batch| - s.phase.n);
    case _ =>
  }

  /**
   At every point of every run: the bytes written are whole items, each queue's
   entries in the order they were accepted, each once; and every batch written
   has its responses before its pushes apart from the first item, with at most
   256 pushes after it.
   */
  lemma {:induction false} MergeAlways(run: seq<State>, es: seq<Step>, k: nat)
    requires IsRun(run, es) && k < |run|
    ensures Fifo(run[k]) && WholeItems(run[k]) && Batched(run[k])
  {
    if k > 0 {
      MergeAlways(run, es, k - 1);
      MergeStep(run[k - 1], es[k - 1]);
      BatchStep(run[k - 1], es[k - 1]);
    }
  }

  /** A batch carries at most 257 pushes. */
  lemma {:induction false} PushesPerBatch(batch: seq<Item>, k: nat)
    requires Shaped(batch, k)
    ensures |Pushes(batch)| <= 257
    ensures |Pushes(batch)| <= |batch| - k + 1
    decreases |batch|
  {
    var front := batch[..|batch| - 1];
    if |batch| > k {
      PushesPerBatch(front, k);
    } else if k > 1 {
      PushesPerBatch(front, k - 1);
    } else {
      assert Pushes(front) == [];
    }
  }

  // ---------------------------------------------------------------------
  // Responses come first
  // ---------------------------------------------------------------------

  predicate PastResps(s: State) { s.phase.DrainingPushes? || s.phase.Writing? }

  /** `more` is `batch` and some pushes. */
  ghost predicate PushesAdded(batch: seq<Item>, more: seq<Item>) {
    batch <= more && forall i :: |batch| <= i < |more| ==> more[i].Push?
  }

  lemma PastRespsBefore(s: State, e: Step)
    requires CanStep(s, e) && PastResps(Do(s, e))
    ensures |Do(s, e).batches| == |s.batches| && PushesAdded(s.batch, Do(s, e).batch)
    ensures if e == NoResp then s.respCh == [] else PastResps(s)
  {}

  lemma PushesAddedOn(a: seq<Item>, b: seq<Item>, c: seq<Item>)
    requires PushesAdded(a, b) && PushesAdded(b, c)
    ensures PushesAdded(a, c)
  {
    forall i | |a| <= i < |c| ensures c[i].Push? {
      assert i < |b| ==> c[i] == b[i];
    }
  }

  lemma AllRespsTaken(s: State)
    requires Fifo(s) && s.respCh == []
    ensures Resps(Taken(s)) == s.respIn
  {
    assert Resps(Taken(s)) + [] == Resps(Taken(s));
  }

  /**
   In every run, when the write loop takes its pushes or writes a batch, it has
   before that, in the same batch, found the response queue empty: every response
   accepted up to then was taken first, and only pushes followed it.
   */
  lemma {:induction false} ResponsesFirst(run: seq<State>, es: seq<Step>, k: nat) returns (j: nat)
    requires IsRun(run, es) && k < |run| && PastResps(run[k])
    ensures j < k && es[j] == NoResp && |run[j].batches| == |run[k].batches|
    ensures run[j].respCh == [] && Resps(Taken(run[j])) == run[j].respIn
    ensures PushesAdded(run[j].batch, run[k].batch)
  {
    assert k > 0;
    PastRespsBefore(run[k - 1], es[k - 1]);
    if es[k - 1] == NoResp {
      j := k - 1;
      MergeAlways(run, es, j);
      AllRespsTaken(run[j]);
    } else {
      j := ResponsesFirst(run, es, k - 1);
      PushesAddedOn(run[j].batch, run[k - 1].batch, run[k].batch);
    }
  }

  /** A response or push is queued exactly if its queue has room. */
  lemma Queued(s: State, data: Bytes)
    ensures var t := Do(s, SendResp(data));
            t.respCh == s.respCh + (if |s.respCh| < 64 then [data] else []) && t.pushCh == s.pushCh && t.phase == s.phase
    ensures var t := Do(s, Send(data));
            t.pushCh == s.pushCh + (if |s.pushCh| < s.pushCap then [data] else []) && t.respCh == s.respCh && t.phase == s.phase
  {}

  // ---------------------------------------------------------------------
  // The loop goes on
  // ---------------------------------------------------------------------

  /** The state after taking `es` from `s`, if every step is possible. */
  function Exec(s: State, es: seq<Step>): Option<State>
    decreases |es|
  {
    if es == [] then Some(s)
    else if CanStep(s, es[0]) then Exec(Do(s, es[0]), es[1..])
    else None
  }

  lemma {:induction false} ExecMore(s: State, es: seq<Step>, e: Step)
    requires Exec(s, es).Some? && CanStep(Exec(s, es).value, e)
    ensures Exec(s, es + [e]) == Some(Do(Exec(s, es).value, e))
    decreases |es|
  {
    if es == [] {
      assert [e][1..] == [];
    } else {
      assert (es + [e])[1..] == es[1..] + [e];
      ExecMore(Do(s, es[0]), es[1..], e);
    }
  }

  lemma {:induction false} JoinMore(buf: Bytes, items: seq<Bytes>)
    requires items != []
    ensures (buf + items[0]) + Join(items[1..]) == buf + Join(items)
  {}

  /** All queued responses are taken in order. */
  lemma {:induction false} TakesResps(start: State, es: seq<Step>, s: State) returns (es': seq<Step>, s': State)
    requires Exec(start, es) == Some(s) && s.phase.DrainingResps?
    ensures Exec(start, es') == Some(s') && s'.phase.DrainingResps? && s'.respCh == [] && s'.buf == s.buf + Join(s.respCh)
    ensures s'.pushCh == s.pushCh && s'.wire == s.wire
    decreases |s.respCh|
  {
    if s.respCh == [] {
      es', s' := es, s;
    } else {
      ExecMore(start, es, TakeResp);
      es', s' := TakesResps(start, es + [TakeResp], Do(s, TakeResp));
      JoinMore(s.buf, s.respCh);
    }
  }

  /** As many of `n` pushes as may still go into the batch. */
  function PushShare(taken: nat, n: nat): nat
    requires taken <= 256
  {
    if n <= 256 - taken then n else 256 - taken
  }

  lemma PushNext(queue: seq<Bytes>, taken: nat, buf: Bytes)
    requires queue != [] && taken < 256
    ensures var n, m := PushShare(taken, |queue|), PushShare(taken + 1, |queue| - 1);
            n == m + 1 && queue[1..][m..] == queue[n..] && (buf + queue[0]) + Join(queue[1..][..m]) == buf + Join(queue[..n])
  {
    var n := PushShare(taken, |queue|);
    assert queue[..n][1..] == queue[1..][..n - 1];
  }

  lemma {:induction false} TakesPushes(start: State, es: seq<Step>, s: State) returns (es': seq<Step>, s': State)
    requires Exec(start, es) == Some(s) && s.phase.DrainingPushes? && s.phase.n <= 256
    ensures Exec(start, es') == Some(s') && CanStep(s', NoPush) && s'.respCh == s.respCh && s'.wire == s.wire
    ensures var n := PushShare(s.phase.n, |s.pushCh|);
            s'.pushCh == s.pushCh[n..] && s'.buf == s.buf + Join(s.pushCh[..n])
    decreases |s.pushCh|
  {
    if s.pushCh == [] || s.phase.n == 256 {
      es', s' := es, s;
      assert s.pushCh[..0] == [] && s.pushCh[0..] == s.pushCh && s.buf + [] == s.buf;
    } else {
      ExecMore(start, es, TakePush);
      es', s' := TakesPushes(start, es + [TakePush], Do(s, TakePush));
      PushNext(s.pushCh, s.phase.n, s.buf);
    }
  }

  lemma {:induction false} JoinFour(wire: Bytes, first: Bytes, resps: seq<Bytes>, pushes: seq<Bytes>)
    ensures wire + (first + Join(resps) + Join(pushes)) == wire + Join([first] + resps + pushes)
  {
    JoinAppend([first] + resps, pushes);
    assert ([first] + resps)[1..] == resps;
  }

  /**
   From any state in which the loop is blocked and a queue is not empty, its own
   steps write a batch: an item from whichever queue select picks, then every
   queued response, then up to 256 queued pushes, in order; the rest stays queued.
   */
  lemma WritesBatch(s: State, pushFirst: bool) returns (es: seq<Step>, end: State)
    requires s.phase.Blocked? && if pushFirst then s.pushCh != [] else s.respCh != []
    ensures Exec(s, es) == Some(end) && end.phase.Blocked? && end.respCh == []
    ensures var first := if pushFirst then s.pushCh[0] else s.respCh[0];
            var resps, pushes := if pushFirst then s.respCh else s.respCh[1..], if pushFirst then s.pushCh[1..] else s.pushCh;
            var n := if |pushes| <= 256 then |pushes| else 256;
            end.pushCh == pushes[n..] && end.wire == s.wire + Join([first] + resps + pushes[..n])
  {
    var e := if pushFirst then TakeFirstPush else TakeFirstResp;
    assert Exec(s, []) == Some(s) && [] + [e] == [e];
    ExecMore(s, [], e);
    var s1 := Do(s, e);
    var first, resps := if pushFirst then s.pushCh[0] else s.respCh[0], s1.respCh;
    assert [] + first == first == s1.buf;
    var es2, s2 := TakesResps(s, [e], s1);
    ExecMore(s, es2, NoResp);
    var s3 := Do(s2, NoResp);
    var es4, s4 := TakesPushes(s, es2 + [NoResp], s3);
    ExecMore(s, es4, NoPush);
    var s5 := Do(s4, NoPush);
    ExecMore(s, es4 + [NoPush], Write);
    es, end := es4 + [NoPush] + [Write], Do(s5, Write);
    JoinFour(s.wire, first, resps, s1.pushCh[..PushShare(0, |s1.pushCh|)]);
  }

  // ---------------------------------------------------------------------
  // What the client decodes
  // ---------------------------------------------------------------------

  /** If every item written is a packet, the client decodes exactly the frames of the merge. */
  lemma ClientDecodesMerge(run: seq<State>, es: seq<Step>, k: nat, fs: seq<Frame>)
    requires IsRun(run, es) && k < |run| && |fs| == |Flat(run[k].batches)|
    requires forall i :: 0 <= i < |fs| ==> Carries(Flat(run[k].batches)[i].data, fs[i])
    ensures ReadAll(run[k].wire) == Received(fs, ShortHeader)
  {
    MergeAlways(run, es, k);
    var items := Contents(Flat(run[k].batches));
    StreamRoundTrip(items, fs, []);
    assert Join(items) + [] == Join(items);
    assert fs + [] == fs;
  }

  const CMD_PUSH_NEW_MESSAGE: U32 := 4001

  /** engine.go:132-145: the push frame without the length header; the payload is never empty. */
  function MarshalPush(payload: Bytes): Bytes
    requires payload != []
  {
    Marshal(Frame(CMD_PUSH_NEW_MESSAGE, 0, payload))
  }

  /** Read as a packet, every such buffer announces a body of 144776986 bytes. */
  lemma PushReadsTooLarge(payload: Bytes, rest: Bytes)
    requires payload != []
    ensures ReadPacket(MarshalPush(payload) + rest) == Err(TooLarge(0x08A1_1F1A))
  {
    assert Varint(CMD_PUSH_NEW_MESSAGE) == [0xA1, 0x1F] by {
      assert Varint(31) == [31];
    }
    assert Varint(Tag(1, VARINT)) == [0x08] && Varint(Tag(3, LEN)) == [0x1A];
    var bs := MarshalPush(payload) + rest;
    assert bs[..HEADER_SIZE] == [0x08, 0xA1, 0x1F, 0x1A];
  }

  /** What an item is: anything EncodeRaw makes, or a push without its header. */
  datatype Kind = Framed(f: Frame) | Unframed(payload: Bytes)

  predicate IsKind(data: Bytes, kind: Kind) {
    match kind
    case Framed(f) => Packet(f) == Some(data)
    case Unframed(payload) => payload != [] && data == MarshalPush(payload)
  }

  /** The packet of a frame other than the all-default one. */
  predicate Readable(kind: Kind) { kind.Framed? && kind.f != DEFAULT_FRAME }

  /** How the client stops at an item it cannot read. */
  function StopAt(kind: Kind): DecodeError {
    if kind.Unframed? then TooLarge(0x08A1_1F1A) else EmptyBody
  }

  lemma {:induction false} StopsAtItem(data: Bytes, kind: Kind, rest: Bytes)
    requires IsKind(data, kind) && !Readable(kind)
    ensures ReadAll(data + rest) == Received([], StopAt(kind))
  {
    if kind.Unframed? {
      PushReadsTooLarge(kind.payload, rest);
    } else {
      PacketRoundTripIff(kind.f, rest);
    }
  }

  lemma {:induction false} StreamStops(before: seq<Bytes>, fs: seq<Frame>, item: Bytes, kind: Kind, after: seq<Bytes>)
    requires |before| == |fs| && forall i :: 0 <= i < |fs| ==> Carries(before[i], fs[i])
    requires IsKind(item, kind) && !Readable(kind)
    ensures ReadAll(Join(before + ([item] + after))) == Received(fs, StopAt(kind))
  {
    var rest := item + Join(after);
    assert Join(before + ([item] + after)) == Join(before) + rest by {
      JoinAppend(before, [item] + after);
      assert ([item] + after)[1..] == after;
    }
    StopsAtItem(item, kind, Join(after));
    StreamRoundTrip(before, fs, rest);
    assert fs + [] == fs;
  }

  lemma TakeApart(items: seq<Bytes>, n: nat)
    requires n < |items|
    ensures items[..n] + ([items[n]] + items[n + 1..]) == items
  {}

  /**
   The client decodes the packets before the first item it cannot read and
   stops there, whatever is written after it.
   */
  lemma ClientStops(run: seq<State>, es: seq<Step>, k: nat, fs: seq<Frame>, kind: Kind)
    requires IsRun(run, es) && k < |run| && |fs| < |Flat(run[k].batches)| && !Readable(kind)
    requires forall i :: 0 <= i < |fs| ==> Carries(Flat(run[k].batches)[i].data, fs[i])
    requires IsKind(Flat(run[k].batches)[|fs|].data, kind)
    ensures ReadAll(run[k].wire) == Received(fs, StopAt(kind))
  {
    var items := Contents(Flat(run[k].batches));
    assert run[k].wire == Join(items) by { MergeAlways(run, es, k); }
    var before, item, after := items[..|fs|], items[|fs|], items[|fs| + 1..];
    TakeApart(items, |fs|);
    StreamStops(before, fs, item, kind, after);
  }

  /** The frames before the first item that the client cannot read. */
  function Leading(kinds: seq<Kind>): seq<Frame> {
    if kinds == [] || !Readable(kinds[0]) then [] else [kinds[0].f] + Leading(kinds[1..])
  }

  lemma {:induction false} LeadingSound(kinds: seq<Kind>)
    ensures |Leading(kinds)| <= |kinds|
    ensures forall i :: 0 <= i < |Leading(kinds)| ==> Readable(kinds[i]) && kinds[i].f == Leading(kinds)[i]
    ensures |Leading(kinds)| < |kinds| ==> !Readable(kinds[|Leading(kinds)|])
  {
    if kinds != [] && Readable(kinds[0]) {
      LeadingSound(kinds[1..]);
    }
  }

  /**
   Whatever mix of EncodeRaw packets and marshalPush buffers is written, the
   client decodes the frames up to the first all-default frame or unframed push;
   it decodes the whole merge exactly when there is none.
   */
  lemma {:induction false} ClientDecodesAllIff(run: seq<State>, es: seq<Step>, k: nat, kinds: seq<Kind>)
    requires IsRun(run, es) && k < |run| && |kinds| == |Flat(run[k].batches)|
    requires forall i :: 0 <= i < |kinds| ==> IsKind(Flat(run[k].batches)[i].data, kinds[i])
    ensures ReadAll(run[k].wire)
         == Received(Leading(kinds), if |Leading(kinds)| >= |kinds| then ShortHeader else StopAt(kinds[|Leading(kinds)|]))
    ensures |ReadAll(run[k].wire).frames| == |kinds| <==> forall i :: 0 <= i < |kinds| ==> Readable(kinds[i])
  {
    LeadingSound(kinds);
    var fs := Leading(kinds);
    var items := Flat(run[k].batches);
    forall i | 0 <= i < |fs| ensures Carries(items[i].data, fs[i]) {
      assert IsKind(items[i].data, kinds[i]);
    }
    if |fs| == |kinds| {
      ClientDecodesMerge(run, es, k, fs);
    } else {
      assert IsKind(items[|fs|].data, kinds[|fs|]);
      ClientStops(run, es, k, fs, kinds[|fs|]);
    }
  }

  // ---------------------------------------------------------------------
  // One undisturbed iteration
  // ---------------------------------------------------------------------

  class Conn {
    var respCh: seq<Bytes>
    var pushCh: seq<Bytes>
    const pushCap: nat
    /** What was written to the socket. */
    var netConn: Bytes

    constructor (sendChanSize: nat)
      ensures respCh == pushCh == [] && pushCap == sendChanSize && netConn == []
    {
      respCh, pushCh, pushCap, netConn := [], [], sendChanSize, [];
    }

    method Send(data: Bytes) returns (ok: bool)
      modifies this`pushCh
      ensures ok == (|old(pushCh)| < pushCap)
      ensures pushCh == old(pushCh) + if ok then [data] else []
    {
      ok := |pushCh| < pushCap;
      if ok {
        pushCh := pushCh + [data];
      }
    }

    method SendResp(data: Bytes) returns (ok: bool)
      modifies this`respCh
      ensures ok == (|old(respCh)| < RESP_CAP)
      ensures respCh == old(respCh) + if ok then [data] else []
    {
      ok := |respCh| < RESP_CAP;
      if ok {
        respCh := respCh + [data];
      }
    }

    /**
     Lines 207-248 with nothing enqueued meanwhile: the first item from the
     queue that select picks, then all responses, then up to 256 pushes.
     */
    method WriteBatch(pushFirst: bool)
      requires if pushFirst then pushCh != [] else respCh != []
      modifies this`respCh, this`pushCh, this`netConn
      ensures respCh == []
      ensures var pushes := if pushFirst then old(pushCh)[1..] else old(pushCh);
              var n := if |pushes| <= PUSHES_PER_BATCH then |pushes| else PUSHES_PER_BATCH;
              && pushCh == pushes[n..]
              && netConn == old(netConn)
                 + Join((if pushFirst then [old(pushCh)[0]] + old(respCh) else old(respCh)) + pushes[..n])
    {
      var buf;
      ghost var items;
      if pushFirst {
        buf, items, pushCh := pushCh[0], [pushCh[0]], pushCh[1..];
      } else {
        buf, items, respCh := respCh[0], [respCh[0]], respCh[1..];
      }
      ghost var resps, pushes := respCh, pushCh;
      ghost var goal := items + resps;
      assert goal == if pushFirst then [old(pushCh)[0]] + old(respCh) else old(respCh);
      while respCh != []
        invariant items + respCh == goal && buf == Join(items) && pushCh == pushes && netConn == old(netConn)
      {
        JoinAppend(items, [respCh[0]]);
        buf, items, respCh := buf + respCh[0], items + [respCh[0]], respCh[1..];
      }
      assert items == goal;
      var n := 0;
      while n < PUSHES_PER_BATCH && pushCh != []
        invariant n <= |pushes| && n <= PUSHES_PER_BATCH && pushCh == pushes[n..]
        invariant respCh == [] && netConn == old(netConn)
        invariant items == goal + pushes[..n] && buf == Join(items)
        decreases PUSHES_PER_BATCH - n
      {
        JoinAppend(items, [pushCh[0]]);
        assert pushes[..n + 1] == pushes[..n] + [pushes[n]];
        buf, items, pushCh := buf + pushCh[0], items + [pushCh[0]], pushCh[1..];
        n := n + 1;
      }
      netConn := netConn + buf;
    }
  }
}
