/**
 The broadcast ring (internal/gateway/ringbuf.go) and one undisturbed pass of a
 connection over it (internal/gateway/conn.go:157-196).
 */
module BroadcastRing {
  import opened Prelude

  type Data = seq<int>

  // ---------------------------------------------------------------------
  // Positions and slots
  // ---------------------------------------------------------------------

  ghost predicate IsPowerOfTwo(n: int)
    decreases n
  {
    n == 1 || (n > 1 && n % 2 == 0 && IsPowerOfTwo(n / 2))
  }

  /** The bitwise AND of two numbers. */
  function BitAnd(x: nat, y: nat): nat {
    if x == 0 || y == 0 then 0
    else 2 * BitAnd(x / 2, y / 2) + (if x % 2 == 1 && y % 2 == 1 then 1 else 0)
  }

  lemma Multiples(n: int, d: int)
    requires n > 0
    ensures d >= 1 ==> n * d >= n
    ensures d <= -1 ==> n * d <= -n
    ensures d == 0 ==> n * d == 0
  {}

  lemma Remainder(x: int, n: int, q: int, r: int)
    requires n > 0 && 0 <= r < n && x == n * q + r
    ensures x % n == r
  {
    Multiples(n, q - x / n);
    assert n * (q - x / n) == x % n - r;
  }

  /** The last bit and the remaining bits of a remainder by an even number. */
  lemma HalveRemainder(x: nat, h: nat)
    requires h > 0
    ensures x % (2 * h) == 2 * (x / 2 % h) + x % 2
  {
    var y := x / 2;
    assert y == h * (y / h) + y % h;
    Remainder(x, 2 * h, y / h, 2 * (y % h) + x % 2);
  }

  /** For a power of two, masking with one less is the remainder. */
  lemma {:induction false} MaskIsRemainder(x: nat, n: nat)
    requires IsPowerOfTwo(n)
    ensures BitAnd(x, n - 1) == x % n
    decreases n
  {
    if x == 0 || n == 1 {
      Remainder(x, n, if n == 1 then x else 0, 0);
    } else {
      var h := n / 2;
      assert n == 2 * h && (n - 1) / 2 == h - 1 && (n - 1) % 2 == 1;
      MaskIsRemainder(x / 2, h);
      HalveRemainder(x, h);
    }
  }

  /** Positions less than one lap apart use different slots; a full lap apart, the same one. */
  lemma Slots(p: nat, q: nat, n: nat)
    requires n > 0
    ensures p < q < p + n ==> p % n != q % n
    ensures q == p + n ==> p % n == q % n
  {
    Multiples(n, q / n - p / n);
    assert p % n == q % n ==> q - p == n * (q / n - p / n);
    if q == p + n {
      Remainder(q, n, p / n + 1, p % n);
    }
  }

  // ---------------------------------------------------------------------
  // The ring object
  // ---------------------------------------------------------------------

  /** The slots hold the last lap of `log`, and nothing where it has not come to yet. */
  ghost predicate HoldsLap(slots: seq<Option<Data>>, log: seq<Data>) {
    && |slots| > 0
    && (forall p :: |log| - |slots| <= p < |log| && 0 <= p ==> slots[p % |slots|] == Some(log[p]))
    && (forall k :: |log| <= k < |slots| ==> slots[k] == None)
  }

  lemma StoreNext(slots: seq<Option<Data>>, log: seq<Data>, data: Data)
    requires HoldsLap(slots, log)
    ensures HoldsLap(slots[|log| % |slots| := Some(data)], log + [data])
  {
    var n, pos := |slots|, |log|;
    var slots', log' := slots[pos % n := Some(data)], log + [data];
    forall p | |log'| - n <= p < |log'| && 0 <= p ensures slots'[p % n] == Some(log'[p]) {
      if p < pos {
        Slots(p, pos, n);
      }
    }
    forall k | |log'| <= k < n ensures slots'[k] == None {
      Remainder(pos, n, 0, pos);
    }
  }

  lemma ReadsSlot(slots: seq<Option<Data>>, log: seq<Data>, pos: nat)
    requires HoldsLap(slots, log)
    ensures pos < |log| <= pos + |slots| ==> slots[pos % |slots|] == Some(log[pos])
    ensures forall q: nat :: |log| - |slots| <= q < |log| && q % |slots| == pos % |slots| ==> slots[pos % |slots|] == Some(log[q])
    ensures pos < |log| ==> slots[pos % |slots|].Some?
  {
    if pos < |log| {
      var q := Newest(pos, |log|, |slots|);
      assert slots[q % |slots|] == Some(log[q]);
    }
  }

  class Ring {
    var buf: array<Option<Data>>
    var mask: nat
    var writePos: nat
    /** Everything ever put, in order. */
    ghost var log: seq<Data>

    ghost predicate Valid()
      reads this, buf
    {
      && buf.Length == mask + 1 && IsPowerOfTwo(buf.Length)
      && writePos == |log|
      && HoldsLap(buf[..], log)
    }

    /** Rounds the size up to the least power of two (at least 1) and starts empty. */
    constructor (size: int)
      ensures Valid() && fresh(buf) && log == []
      ensures size <= buf.Length && (buf.Length == 1 || buf.Length < 2 * size)
    {
      var n := 1;
      while n < size
        invariant n > 0 && IsPowerOfTwo(n) && (n == 1 || n < 2 * size)
        decreases size - n
      {
        n := n * 2;
      }
      buf := new Option<Data>[n](_ => None);
      mask, writePos := n - 1, 0;
      log := [];
    }

    /** Line 41-45 as one step: the log grows by one entry. */
    method Put(data: Data)
      requires Valid()
      modifies this`writePos, this`log, buf
      ensures Valid() && log == old(log) + [data]
    {
      writePos := writePos + 1;
      var pos := writePos - 1;
      MaskIsRemainder(pos, buf.Length);
      StoreNext(buf[..], log, data);
      buf[BitAnd(pos, mask)] := Some(data);
      log := log + [data];
      assert buf[..] == old(buf[..])[pos % buf.Length := Some(data)];
    }

    /**
     Reads the entry of a position.  While the position is at most one lap old
     this is exactly its data; later it is newer data of the same slot, never
     nil as the comment on Get says.
     */
    method Get(pos: nat) returns (data: Option<Data>)
      requires Valid()
      ensures pos < |log| <= pos + buf.Length ==> data == Some(log[pos])
      ensures forall q: nat :: |log| - buf.Length <= q < |log| && q % buf.Length == pos % buf.Length ==> data == Some(log[q])
      ensures pos < |log| ==> data.Some?
    {
      MaskIsRemainder(pos, buf.Length);
      ReadsSlot(buf[..], log, pos);
      data := buf[BitAnd(pos, mask)];
    }
  }

  /** The newest position below `w` that shares `pos`'s slot. */
  lemma {:induction false} Newest(pos: nat, w: nat, n: nat) returns (q: nat)
    requires pos < w && n > 0
    ensures w - n <= q < w && q % n == pos % n && pos <= q
    decreases w - pos
  {
    q := pos;
    if pos + n < w {
      Slots(pos, pos + n, n);
      q := Newest(pos + n, w, n);
    }
  }

  // ---------------------------------------------------------------------
  // One pass of a connection
  // ---------------------------------------------------------------------

  /** Enqueue if there is room, drop otherwise (conn.go:190-194). */
  function Offer(queue: seq<Data>, capacity: nat, data: Data): seq<Data> {
    if |queue| < capacity then queue + [data] else queue
  }

  function OfferAll(queue: seq<Data>, capacity: nat, items: seq<Data>): seq<Data> {
    if items == [] then queue else Offer(OfferAll(queue, capacity, items[..|items| - 1]), capacity, items[|items| - 1])
  }

  lemma {:induction false} OfferAllAppend(queue: seq<Data>, capacity: nat, items: seq<Data>, x: Data)
    ensures OfferAll(queue, capacity, items + [x]) == Offer(OfferAll(queue, capacity, items), capacity, x)
  {
    assert (items + [x])[..|items|] == items;
  }

  lemma {:induction false} OfferNext(queue: seq<Data>, capacity: nat, log: seq<Data>, cur: nat, pos: nat)
    requires cur <= pos < |log|
    ensures OfferAll(queue, capacity, log[cur..pos + 1]) == Offer(OfferAll(queue, capacity, log[cur..pos]), capacity, log[pos])
  {
    assert log[cur..pos + 1] == log[cur..pos] + [log[pos]];
    OfferAllAppend(queue, capacity, log[cur..pos], log[pos]);
  }

  /** Offering drops only what does not fit, from the end. */
  lemma {:induction false} OfferAllKeepsPrefix(queue: seq<Data>, capacity: nat, items: seq<Data>)
    requires |queue| <= capacity
    ensures var room := capacity - |queue|;
            OfferAll(queue, capacity, items) == queue + if |items| <= room then items else items[..room]
  {
    if items != [] {
      var front := items[..|items| - 1];
      OfferAllKeepsPrefix(queue, capacity, front);
      assert front + [items[|items| - 1]] == items;
      var room := capacity - |queue|;
      if room <= |front| {
        assert front[..room] == items[..room];
      }
    }
  }

  /** Where a pass that starts at `cur` and sees `wp` begins reading. */
  function PassStart(cur: nat, wp: nat, capacity: nat): nat {
    if wp - cur > capacity then wp - capacity else cur
  }

  class Consumer {
    var cursor: nat
    var pushCh: seq<Data>
    const pushCap: nat

    constructor (ring: Ring, pushCap: nat)
      requires ring.Valid()
      ensures cursor == |ring.log| && pushCh == [] && this.pushCap == pushCap
    {
      cursor, pushCh := ring.writePos, [];
      this.pushCap := pushCap;
    }

    /** Offers the entries of positions `cur` to `wp`, none of them more than a lap old, in order. */
    method Deliver(ring: Ring, cur: nat, wp: nat)
      requires ring.Valid() && cur <= wp <= |ring.log| <= cur + ring.buf.Length
      modifies this`pushCh
      ensures pushCh == OfferAll(old(pushCh), pushCap, ring.log[cur..wp])
    {
      ghost var log, start := ring.log, pushCh;
      var pos := cur;
      while pos < wp
        invariant cur <= pos <= wp
        invariant pushCh == OfferAll(start, pushCap, log[cur..pos])
      {
        var data := ring.Get(pos);
        OfferNext(start, pushCap, log, cur, pos);
        if data.Some? && |pushCh| < pushCap {
          pushCh := pushCh + [data.value];
        }
        pos := pos + 1;
      }
    }

    /** A pass offers exactly the unread entries of the last lap, in order, and catches up. */
    method Pass(ring: Ring)
      requires ring.Valid() && cursor <= |ring.log|
      modifies this
      ensures cursor == |ring.log|
      ensures pushCh == OfferAll(old(pushCh), pushCap, ring.log[PassStart(old(cursor), |ring.log|, ring.buf.Length)..])
    {
      var cur, wp := cursor, ring.writePos;
      if cur >= wp {
        assert ring.log[PassStart(cur, wp, ring.buf.Length)..] == [];
        return;
      }
      var capacity := ring.mask + 1;
      if wp - cur > capacity {
        cur := wp - capacity;
      }
      Deliver(ring, cur, wp);
      cursor := wp;
      assert ring.log[cur..wp] == ring.log[cur..];
    }
  }
}
