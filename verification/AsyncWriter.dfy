/**
 The batching writer (internal/service/msg.go:146-161, 217-249): documents go
 through a bounded channel into batches, and batches into the store.
 */
module AsyncWriter {
  import opened MessageStore

  const WRITE_CH_CAP: nat := 4096
  const BATCH_SIZE: nat := 64

  /** The outcome of one InsertMany; a failed one may still have stored some positions of the batch. */
  datatype Insert = Succeeds | Fails(stored: set<nat>)

  /** One flush: the batch, and the documents of it that reached the store. */
  datatype Flush = Flush(batch: seq<Doc>, applied: seq<Doc>)

  datatype Event =
    | Arrive(doc: Doc)           // SendMsg offers a document
    | Receive(insert: Insert)    // the writer takes one from the channel
    | Tick(insert: Insert)       // the ticker fires
    | Close(insert: Insert)      // the channel is closed and drained

  /** The part of the batch that an insert stores. */
  function Applied<T>(batch: seq<T>, insert: Insert): seq<T> {
    if insert.Succeeds? then batch else Picked(batch, insert.stored)
  }

  function Picked<T>(batch: seq<T>, stored: set<nat>): seq<T> {
    if batch == [] then []
    else Picked(batch[..|batch| - 1], stored) + if |batch| - 1 in stored then [batch[|batch| - 1]] else []
  }

  /** A failed insert stores exactly the documents at the given positions, and nothing else. */
  lemma {:induction false} PickedExactly(batch: seq<Doc>, stored: set<nat>)
    ensures forall i: nat :: i < |batch| && i in stored ==> batch[i] in Picked(batch, stored)
    ensures forall d :: d in Picked(batch, stored) ==> exists i: nat :: i < |batch| && i in stored && batch[i] == d
  {
    if batch != [] {
      var n := |batch| - 1;
      PickedExactly(batch[..n], stored);
      forall i: nat | i < |batch| && i in stored ensures batch[i] in Picked(batch, stored) {
        assert i < n ==> batch[..n][i] == batch[i];
      }
      forall d | d in Picked(batch, stored) ensures exists i: nat :: i < |batch| && i in stored && batch[i] == d {
        if d in Picked(batch[..n], stored) {
          var i: nat :| i < n && i in stored && batch[..n][i] == d;
          assert batch[i] == d;
        } else {
          assert n in stored && batch[n] == d;
        }
      }
    }
  }

  /** What is on its way to the store. */
  datatype Buffers<T> = Buffers(writeCh: seq<T>, batch: seq<T>)

  /** Lines 146-161: accepted if there is room. */
  function Offered<T>(b: Buffers<T>, x: T): Buffers<T> {
    if |b.writeCh| < WRITE_CH_CAP then b.(writeCh := b.writeCh + [x]) else b
  }

  /** Lines 236-244: the buffers after one receive, and the batch it hands to the store, if any. */
  function Received<T>(b: Buffers<T>): (Buffers<T>, seq<T>)
    requires b.writeCh != []
  {
    var batch := b.batch + [b.writeCh[0]];
    if |batch| >= BATCH_SIZE then (Buffers(b.writeCh[1..], []), batch) else (Buffers(b.writeCh[1..], batch), [])
  }

  /** What the writer has seen and done so far. */
  datatype History = History(buffers: Buffers<Doc>, accepted: seq<Doc>, flushes: seq<Flush>, closed: bool)

  function Flushing(h: History, buffers: Buffers<Doc>, batch: seq<Doc>, insert: Insert): History {
    h.(buffers := buffers, flushes := h.flushes + if batch == [] then [] else [Flush(batch, Applied(batch, insert))])
  }

  function After(h: History, e: Event): History {
    if h.closed then h
    else
      match e
      case Arrive(doc) =>
        h.(buffers := Offered(h.buffers, doc), accepted := h.accepted + if |h.buffers.writeCh| < WRITE_CH_CAP then [doc] else [])
      case Receive(insert) =>
        if h.buffers.writeCh == [] then h else Flushing(h, Received(h.buffers).0, Received(h.buffers).1, insert)
      case Tick(insert) => Flushing(h, h.buffers.(batch := []), h.buffers.batch, insert)
      case Close(insert) =>
        if h.buffers.writeCh != [] then h
        else Flushing(h, h.buffers.(batch := []), h.buffers.batch, insert).(closed := true)
  }

  function AfterAll(h: History, events: seq<Event>): History {
    if events == [] then h else After(AfterAll(h, events[..|events| - 1]), events[|events| - 1])
  }

  lemma {:induction false} AfterClosed(h: History, events: seq<Event>, i: nat)
    requires i <= |events| && AfterAll(h, events[..i]).closed
    ensures AfterAll(h, events) == AfterAll(h, events[..i])
    decreases |events|
  {
    if i < |events| {
      var front := events[..|events| - 1];
      assert front[..i] == events[..i];
      AfterClosed(h, front, i);
    } else {
      assert events[..i] == events;
    }
  }

  /** All batches handed to the store, joined in order. */
  function Flushed(fs: seq<Flush>): seq<Doc> {
    if fs == [] then [] else Flushed(fs[..|fs| - 1]) + fs[|fs| - 1].batch
  }

  /** All documents that reached the store, in order. */
  function Reached(fs: seq<Flush>): seq<Doc> {
    if fs == [] then [] else Reached(fs[..|fs| - 1]) + fs[|fs| - 1].applied
  }

  lemma {:induction false} OneMoreFlush(fs: seq<Flush>, f: Flush)
    ensures Flushed(fs + [f]) == Flushed(fs) + f.batch
    ensures InsertAll(map[], Reached(fs + [f])) == InsertAll(InsertAll(map[], Reached(fs)), f.applied)
  {
    assert (fs + [f])[..|fs|] == fs;
    InsertAppend(map[], Reached(fs), f.applied);
  }

  /**
   Nothing is lost, repeated or reordered on the way to the store; no flush is
   empty or larger than 64; the store is the first-wins union of what reached it.
   */
  ghost predicate Conserves(accepted: seq<Doc>, writeCh: seq<Doc>, batch: seq<Doc>, store: Collection, fs: seq<Flush>) {
    && accepted == Flushed(fs) + batch + writeCh
    && |writeCh| <= 4096 && |batch| <= 64
    && (forall i :: 0 <= i < |fs| ==> 1 <= |fs[i].batch| <= 64)
    && store == InsertAll(map[], Reached(fs))
  }

  lemma {:induction false} FlushConserves(accepted: seq<Doc>, writeCh: seq<Doc>, batch: seq<Doc>, store: Collection, fs: seq<Flush>, applied: seq<Doc>)
    requires Conserves(accepted, writeCh, batch, store, fs) && batch != []
    ensures Conserves(accepted, writeCh, [], InsertAll(store, applied), fs + [Flush(batch, applied)])
  {
    OneMoreFlush(fs, Flush(batch, applied));
    assert Flushed(fs) + batch + [] + writeCh == Flushed(fs) + batch + writeCh;
  }

  lemma TakeConserves(accepted: seq<Doc>, writeCh: seq<Doc>, batch: seq<Doc>, store: Collection, fs: seq<Flush>)
    requires Conserves(accepted, writeCh, batch, store, fs) && writeCh != [] && |batch| < BATCH_SIZE
    ensures Conserves(accepted, writeCh[1..], batch + [writeCh[0]], store, fs)
  {
    assert Flushed(fs) + batch + writeCh == Flushed(fs) + (batch + [writeCh[0]]) + writeCh[1..];
  }

  // ---------------------------------------------------------------------
  // The writer
  // ---------------------------------------------------------------------

  class Writer {
    var writeCh: seq<Doc>
    var batch: seq<Doc>
    var store: Collection
    /** Everything accepted into the channel, and every flush, in order. */
    ghost var accepted: seq<Doc>
    ghost var flushes: seq<Flush>

    ghost predicate Conserved()
      reads this
    {
      Conserves(accepted, writeCh, batch, store, flushes)
    }

    ghost predicate Valid()
      reads this
    {
      Conserved() && |batch| < BATCH_SIZE
    }

    ghost function Past(closed: bool): History
      reads this
    {
      History(Buffers(writeCh, batch), accepted, flushes, closed)
    }

    constructor ()
      ensures Valid() && accepted == [] && flushes == []
    {
      writeCh, batch, store := [], [], map[];
      accepted, flushes := [], [];
    }

    /** Lines 146-161: drop when the channel is full. */
    method Offer(doc: Doc) returns (ok: bool)
      requires Valid()
      modifies this`writeCh, this`accepted
      ensures Valid() && ok == (|old(writeCh)| < 4096)
      ensures Buffers(writeCh, batch) == Offered(old(Buffers(writeCh, batch)), doc)
      ensures accepted == old(accepted) + if ok then [doc] else []
    {
      ok := |writeCh| < WRITE_CH_CAP;
      if ok {
        accepted, writeCh := accepted + [doc], writeCh + [doc];
      }
    }

    /** Lines 222-232: hand the batch to the store, whatever comes of it, and start over. */
    method FlushBatch(insert: Insert)
      requires Conserved()
      modifies this`batch, this`store, this`flushes
      ensures Valid() && batch == []
      ensures Past(false) == Flushing(old(Past(false)), Buffers(writeCh, []), old(batch), insert)
      ensures flushes == old(flushes) + if old(batch) == [] then [] else [Flush(old(batch), Applied(old(batch), insert))]
    {
      if |batch| == 0 {
        return;
      }
      var applied := Applied(batch, insert);
      FlushConserves(accepted, writeCh, batch, store, flushes, applied);
      store := InsertAll(store, applied);
      flushes := flushes + [Flush(batch, applied)];
      batch := [];
    }

    /** Lines 236-244: one document from the channel; a full batch is flushed at once. */
    method TakeOne(insert: Insert)
      requires Valid() && writeCh != []
      modifies this`writeCh, this`batch, this`store, this`flushes
      ensures Valid() && writeCh == old(writeCh)[1..]
      ensures var (buffers, full) := Received(old(Buffers(writeCh, batch)));
              Past(false) == Flushing(old(Past(false)), buffers, full, insert)
      ensures var grown := old(batch) + [old(writeCh)[0]];
              if |grown| < 64 then batch == grown && flushes == old(flushes)
              else batch == [] && flushes == old(flushes) + [Flush(grown, Applied(grown, insert))]
    {
      TakeConserves(accepted, writeCh, batch, store, flushes);
      writeCh, batch := writeCh[1..], batch + [writeCh[0]];
      if |batch| >= BATCH_SIZE {
        FlushBatch(insert);
      }
    }

    /** One event: what it adds to what was accepted and flushed, and whether the writer ends. */
    method Handle(e: Event) returns (closed: bool)
      requires Valid()
      modifies this
      ensures Past(closed) == After(old(Past(false)), e)
      ensures Valid() && old(accepted) <= accepted && old(flushes) <= flushes
      ensures closed ==> Flushed(flushes) == accepted
    {
      closed := false;
      match e
      case Arrive(doc) =>
        var ok := Offer(doc);
      case Receive(insert) =>
        if writeCh != [] {
          TakeOne(insert);
        }
      case Tick(insert) => FlushBatch(insert);
      case Close(insert) =>
        if writeCh == [] {
          FlushBatch(insert);
          closed := true;
          assert Flushed(flushes) + [] + [] == Flushed(flushes);
        }
    }

    /**
     Lines 234-248 over any sequence of events, with SendMsg offering documents
     in between: what was accepted and flushed is what the events say,
     conservation holds at every point, and once the channel is closed and drained
     everything accepted has been flushed.
     */
    method Run(events: seq<Event>) returns (closed: bool)
      requires Valid()
      modifies this
      ensures Past(closed) == AfterAll(old(Past(false)), events)
      ensures Valid() && old(accepted) <= accepted && old(flushes) <= flushes
      ensures closed ==> Flushed(flushes) == accepted
    {
      closed := false;
      ghost var start := Past(false);
      for i := 0 to |events|
        invariant Valid() && old(accepted) <= accepted && old(flushes) <= flushes && !closed
        invariant Past(false) == AfterAll(start, events[..i])
      {
        assert events[..i + 1][..i] == events[..i];
        closed := Handle(events[i]);
        if closed {
          AfterClosed(start, events, i + 1);
          return;
        }
      }
      assert events[..|events|] == events;
    }
  }

  // ---------------------------------------------------------------------
  // The store in the end
  // ---------------------------------------------------------------------

  ghost predicate AllSucceeded(fs: seq<Flush>) { forall i :: 0 <= i < |fs| ==> fs[i].applied == fs[i].batch }

  lemma {:induction false} ReachedAll(fs: seq<Flush>)
    requires AllSucceeded(fs)
    ensures Reached(fs) == Flushed(fs)
  {
    if fs != [] {
      ReachedAll(fs[..|fs| - 1]);
    }
  }

  /** If every flush succeeded, the store holds, for each key flushed, its first document. */
  lemma {:induction false} StoreIsFirstWins(fs: seq<Flush>, k: Key)
    requires AllSucceeded(fs)
    ensures k in InsertAll(map[], Reached(fs)) <==> HasKey(Flushed(fs), k)
    ensures forall i: nat :: FirstOfKey(Flushed(fs), i) && KeyOf(Flushed(fs)[i]) == k ==>
              k in InsertAll(map[], Reached(fs)) && InsertAll(map[], Reached(fs))[k] == Flushed(fs)[i]
  {
    ReachedAll(fs);
    InsertKeys(map[], Flushed(fs), k);
    forall i: nat | FirstOfKey(Flushed(fs), i) && KeyOf(Flushed(fs)[i]) == k
      ensures k in InsertAll(map[], Reached(fs)) && InsertAll(map[], Reached(fs))[k] == Flushed(fs)[i]
    {
      FirstWins(map[], Flushed(fs), i);
    }
  }

  /** With distinct keys, as posted messages have, no flushed document loses its place. */
  lemma {:induction false} NothingShadowed(fs: seq<Flush>, i: nat)
    requires AllSucceeded(fs) && i < |Flushed(fs)|
    requires forall a, b :: 0 <= a < b < |Flushed(fs)| ==> KeyOf(Flushed(fs)[a]) != KeyOf(Flushed(fs)[b])
    ensures var d := Flushed(fs)[i];
            KeyOf(d) in InsertAll(map[], Reached(fs)) && InsertAll(map[], Reached(fs))[KeyOf(d)] == d
  {
    assert FirstOfKey(Flushed(fs), i);
    StoreIsFirstWins(fs, KeyOf(Flushed(fs)[i]));
  }

  // ---------------------------------------------------------------------
  // Nothing waits for ever
  // ---------------------------------------------------------------------

  /** Everything taken from the channel so far, flushed or not. */
  function TakenSoFar(h: History): seq<Doc> { Flushed(h.flushes) + h.buffers.batch }

  lemma {:induction false} FlushingKeeps(h: History, buffers: Buffers<Doc>, batch: seq<Doc>, insert: Insert)
    ensures Flushed(Flushing(h, buffers, batch, insert).flushes) == Flushed(h.flushes) + batch
  {
    if batch != [] {
      OneMoreFlush(h.flushes, Flush(batch, Applied(batch, insert)));
    } else {
      assert h.flushes + [] == h.flushes && Flushed(h.flushes) + [] == Flushed(h.flushes);
    }
  }

  /** The ticker hands over whatever is in the batch, however little. */
  lemma {:induction false} TickFlushes(h: History, insert: Insert)
    requires !h.closed
    ensures var h' := After(h, Tick(insert));
            && h'.buffers.batch == [] && h'.buffers.writeCh == h.buffers.writeCh && h'.accepted == h.accepted
            && Flushed(h'.flushes) == TakenSoFar(h)
  {
    FlushingKeeps(h, h.buffers.(batch := []), h.buffers.batch, insert);
  }

  /** A receive takes the oldest document of the channel. */
  lemma {:induction false} ReceiveTakes(h: History, insert: Insert)
    requires !h.closed && h.buffers.writeCh != []
    ensures var h' := After(h, Receive(insert));
            && !h'.closed && h'.buffers.writeCh == h.buffers.writeCh[1..] && h'.accepted == h.accepted
            && TakenSoFar(h') == TakenSoFar(h) + [h.buffers.writeCh[0]]
  {
    var (buffers, batch) := Received(h.buffers);
    FlushingKeeps(h, buffers, batch, insert);
    var grown := h.buffers.batch + [h.buffers.writeCh[0]];
    assert Flushed(h.flushes) + grown == TakenSoFar(h) + [h.buffers.writeCh[0]];
    assert Flushed(h.flushes) + grown + [] == Flushed(h.flushes) + grown;
    assert Flushed(h.flushes) + [] + grown == Flushed(h.flushes) + grown;
  }

  lemma NextOf(taken: seq<Doc>, queue: seq<Doc>, n: nat)
    requires 0 < n <= |queue|
    ensures queue[n - 1..][1..] == queue[n..] && taken + queue[..n] == taken + queue[..n - 1] + [queue[n - 1..][0]]
  {}

  function Receives(n: nat, insert: Insert): seq<Event> { seq(n, _ => Receive(insert)) }

  lemma {:induction false} ReceivesTake(h: History, n: nat, insert: Insert)
    requires !h.closed && n <= |h.buffers.writeCh|
    ensures var h' := AfterAll(h, Receives(n, insert));
            && !h'.closed && h'.buffers.writeCh == h.buffers.writeCh[n..] && h'.accepted == h.accepted
            && TakenSoFar(h') == TakenSoFar(h) + h.buffers.writeCh[..n]
  {
    if n > 0 {
      ReceivesTake(h, n - 1, insert);
      var events := Receives(n, insert);
      assert events[..n - 1] == Receives(n - 1, insert) && events[n - 1] == Receive(insert);
      var before := AfterAll(h, Receives(n - 1, insert));
      ReceiveTakes(before, insert);
      NextOf(TakenSoFar(h), h.buffers.writeCh, n);
    }
  }

  /** After as many receives as documents are queued and one tick, everything queued or batched has been handed over, in order. */
  lemma {:induction false} AllHandedOver(h: History, insert: Insert)
    requires !h.closed
    ensures var h' := AfterAll(h, Receives(|h.buffers.writeCh|, insert) + [Tick(insert)]);
            && h'.buffers == Buffers([], []) && h'.accepted == h.accepted
            && Flushed(h'.flushes) == Flushed(h.flushes) + h.buffers.batch + h.buffers.writeCh
  {
    var n := |h.buffers.writeCh|;
    var receives := Receives(n, insert);
    ReceivesTake(h, n, insert);
    assert (receives + [Tick(insert)])[..n] == receives;
    TickFlushes(AfterAll(h, receives), insert);
    assert h.buffers.writeCh[..n] == h.buffers.writeCh;
  }
}
