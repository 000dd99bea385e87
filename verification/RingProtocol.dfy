/**
 Many producers and many connections on one broadcast ring
 (internal/gateway/ringbuf.go:41-66, internal/gateway/conn.go:149-198).

 Every published message runs `Put` in a goroutine of its own
 (internal/bus/local.go:41-43), so `Put` is split into its three steps: claim a
 position, store into the slot, broadcast.  `Wait` is split into the check of
 writePos and the enrolment with the condition variable; a broadcast does not
 take the lock, so it can fall in between.
 */
module RingProtocol {
  import opened Prelude
  import opened BroadcastRing

  /** How far the Put that claimed a position has come. */
  datatype Stage = Claimed | Stored

  /** What a connection read at a position, with the write position then and whether the store was outstanding. */
  datatype Read = Read(pos: nat, data: Option<Data>, wp: nat, storing: bool)

  /** Positions `from` to `to` were skipped by a pass that saw write position `wp`. */
  datatype Skip = Skip(from: nat, to: nat, wp: nat)

  datatype Phase =
    | Top                       // conn.go:157
    | Pass(wp: nat, pos: nat)   // conn.go:185, next to read `pos`
    | Checking                  // ringbuf.go:62, before the comparison
    | Enrolling                 // inside cond.Wait, not yet on the notify list
    | Asleep(heard: set<nat>)   // on the notify list since the broadcasts of `heard`
    | Resumed                   // Wait has returned

  datatype Reader = Reader(first: nat, cursor: nat, phase: Phase, got: seq<Read>, skips: seq<Skip>)

  datatype State = State(
    cap: nat,
    buf: seq<Option<Data>>,
    log: seq<Data>,              // the data of each claimed position; |log| is writePos
    puts: map<nat, Stage>,       // unfinished Puts by position
    announced: set<nat>,         // positions whose broadcast has happened
    consumers: map<nat, Reader>)

  datatype Step =
    | Claim(data: Data)
    | Store(p: nat)
    | Announce(p: nat)
    | Join(c: nat)
    | Load(c: nat)
    | Get(c: nat)
    | Finish(c: nat)
    | Check(c: nat)
    | Enrol(c: nat)

  predicate CanStep(s: State, e: Step) {
    match e
    case Claim(_) => true
    case Store(p) => p in s.puts && s.puts[p].Claimed? && p < |s.log| && s.cap > 0 && |s.buf| == s.cap
    case Announce(p) => p in s.puts && s.puts[p].Stored?
    case Join(c) => c !in s.consumers
    case Load(c) => c in s.consumers && (s.consumers[c].phase.Top? || s.consumers[c].phase.Resumed?)
    case Get(c) =>
      c in s.consumers && s.consumers[c].phase.Pass? && s.consumers[c].phase.pos < s.consumers[c].phase.wp
      && s.cap > 0 && |s.buf| == s.cap
    case Finish(c) => c in s.consumers && s.consumers[c].phase.Pass? && s.consumers[c].phase.pos == s.consumers[c].phase.wp
    case Check(c) => c in s.consumers && s.consumers[c].phase.Checking?
    case Enrol(c) => c in s.consumers && s.consumers[c].phase.Enrolling?
  }

  /** cond.Broadcast: every enrolled connection goes back to its check. */
  function Wake(c: Reader): Reader { if c.phase.Asleep? then c.(phase := Checking) else c }

  predicate Storing(s: State, p: nat) { p in s.puts && s.puts[p].Claimed? }

  function SetConsumer(s: State, c: nat, x: Reader): State { s.(consumers := s.consumers[c := x]) }

  function Do(s: State, e: Step): State
    requires CanStep(s, e)
  {
    match e
    case Claim(data) => s.(log := s.log + [data], puts := s.puts[|s.log| := Claimed])
    case Store(p) => s.(buf := s.buf[p % s.cap := Some(s.log[p])], puts := s.puts[p := Stored])
    case Announce(p) =>
      s.(puts := s.puts - {p}, announced := s.announced + {p}, consumers := map c | c in s.consumers :: Wake(s.consumers[c]))
    case Join(c) => SetConsumer(s, c, Reader(|s.log|, |s.log|, Top, [], []))
    case Load(c) =>
      var x, wp := s.consumers[c], |s.log|;
      if x.cursor >= wp then SetConsumer(s, c, x.(phase := Checking))
      else
        var start := PassStart(x.cursor, wp, s.cap);
        SetConsumer(s, c, x.(phase := Pass(wp, start),
                             skips := if start == x.cursor then x.skips else x.skips + [Skip(x.cursor, start, wp)]))
    case Get(c) =>
      var x := s.consumers[c];
      var pos := x.phase.pos;
      SetConsumer(s, c, x.(phase := Pass(x.phase.wp, pos + 1),
                           got := x.got + [Read(pos, s.buf[pos % s.cap], |s.log|, Storing(s, pos))]))
    case Finish(c) => SetConsumer(s, c, s.consumers[c].(cursor := s.consumers[c].phase.wp, phase := Top))
    case Check(c) => SetConsumer(s, c, s.consumers[c].(phase := if |s.log| <= s.consumers[c].cursor then Enrolling else Resumed))
    case Enrol(c) => SetConsumer(s, c, s.consumers[c].(phase := Asleep(s.announced)))
  }

  predicate Init(s: State) {
    && s.cap > 0 && |s.buf| == s.cap && (forall k :: 0 <= k < s.cap ==> s.buf[k] == None)
    && s.log == [] && s.puts == map[] && s.announced == {} && s.consumers == map[]
  }

  ghost predicate IsRun(run: seq<State>, es: seq<Step>) {
    && |run| == |es| + 1
    && Init(run[0])
    && forall i :: 0 <= i < |es| ==> CanStep(run[i], es[i]) && run[i + 1] == Do(run[i], es[i])
  }

  // ---------------------------------------------------------------------
  // The slots
  // ---------------------------------------------------------------------

  /** No producer with an outstanding store has been lapped. */
  ghost predicate NoneLapped(s: State) {
    forall p: nat :: Storing(s, p) ==> |s.log| <= p + s.cap
  }

  /** What the slot of position `p` held one lap earlier. */
  function Before(s: State, p: nat): Option<Data>
    requires p < |s.log| && s.cap > 0
  {
    if p < s.cap then None else Some(s.log[p - s.cap])
  }

  /** The slot of position `p` holds p's data, or the previous lap's while p's store is outstanding. */
  ghost predicate SlotRight(s: State, p: nat) {
    && p < |s.log| && s.cap > 0 && |s.buf| == s.cap
    && s.buf[p % s.cap] == if Storing(s, p) then Before(s, p) else Some(s.log[p])
  }

  ghost predicate WindowRight(s: State) {
    forall p: nat :: |s.log| - s.cap <= p < |s.log| ==> SlotRight(s, p)
  }

  ghost predicate RestEmpty(s: State) {
    && s.cap > 0 && |s.buf| == s.cap
    && (forall p :: p in s.puts ==> p < |s.log|)
    && (forall k: nat :: |s.log| <= k < s.cap ==> s.buf[k] == None)
  }

  lemma ClaimKeepsWindow(s: State, data: Data)
    requires RestEmpty(s) && WindowRight(s) && NoneLapped(Do(s, Claim(data)))
    ensures WindowRight(Do(s, Claim(data)))
  {
    var s' := Do(s, Claim(data));
    var n := |s.log|;
    forall p: nat | |s'.log| - s.cap <= p < |s'.log| ensures SlotRight(s', p) {
      if p < n {
        assert SlotRight(s, p) && Storing(s', p) == Storing(s, p);
      } else if n < s.cap {
        Remainder(n, s.cap, 0, n);
      } else {
        Slots(n - s.cap, n, s.cap);
        assert SlotRight(s, n - s.cap) && Storing(s', n - s.cap) == Storing(s, n - s.cap);
      }
    }
  }

  lemma StoreKeepsWindow(s: State, q: nat)
    requires RestEmpty(s) && WindowRight(s) && NoneLapped(s) && CanStep(s, Store(q))
    ensures WindowRight(Do(s, Store(q))) && RestEmpty(Do(s, Store(q)))
  {
    var s' := Do(s, Store(q));
    assert Storing(s, q);
    forall p: nat | |s'.log| - s.cap <= p < |s'.log| ensures SlotRight(s', p) {
      assert SlotRight(s, p) && (p != q ==> Storing(s', p) == Storing(s, p));
      Slots(p, q, s.cap);
      Slots(q, p, s.cap);
    }
    forall k: nat | |s.log| <= k < s.cap ensures s'.buf[k] == None {
      Remainder(q, s.cap, 0, q);
    }
  }

  lemma WindowStep(s: State, e: Step)
    requires RestEmpty(s) && WindowRight(s) && NoneLapped(s) && CanStep(s, e) && NoneLapped(Do(s, e))
    ensures RestEmpty(Do(s, e)) && WindowRight(Do(s, e))
  {
    match e
    case Claim(data) => ClaimKeepsWindow(s, data);
    case Store(q) => StoreKeepsWindow(s, q);
    case _ => OtherKeepsWindow(s, e);
  }

  /** The other steps touch neither slots nor outstanding stores. */
  lemma OtherKeepsWindow(s: State, e: Step)
    requires RestEmpty(s) && WindowRight(s) && CanStep(s, e) && !e.Claim? && !e.Store?
    ensures WindowRight(Do(s, e)) && RestEmpty(Do(s, e))
  {
    var s' := Do(s, e);
    assert s'.log == s.log && s'.buf == s.buf && s'.cap == s.cap;
    forall p: nat | |s.log| - s.cap <= p < |s.log| ensures SlotRight(s', p) {
      assert SlotRight(s, p) && Storing(s', p) == Storing(s, p);
    }
  }

  /**
   In every run of many producers in which none is lapped before it stores, each
   position of the last lap has in its slot its own data or, while its store is
   outstanding, what the slot held one lap before (nothing on the first lap).
   */
  lemma {:induction false} WindowAlways(run: seq<State>, es: seq<Step>, k: nat)
    requires IsRun(run, es) && k < |run|
    requires forall i :: 0 <= i <= k ==> NoneLapped(run[i])
    ensures RestEmpty(run[k]) && WindowRight(run[k])
  {
    if k > 0 {
      WindowAlways(run, es, k - 1);
      assert NoneLapped(run[k - 1]) && NoneLapped(run[k]);
      WindowStep(run[k - 1], es[k - 1]);
    }
  }

  /**
   The condition is exact: the first claim that laps an outstanding store breaks
   the window, unless the lapped slot happens to hold equal data already.
   */
  lemma LappingBreaksWindow(run: seq<State>, es: seq<Step>, data: Data)
    requires IsRun(run, es) && (forall i :: 0 <= i < |run| ==> NoneLapped(run[i]))
    ensures run[|es|].cap > 0
    ensures var s := run[|es|];
            var s' := Do(s, Claim(data));
            WindowRight(s') <==> NoneLapped(s') || (var p := |s.log| - s.cap; p >= 0 && Before(s, p) == Some(s.log[p]))
  {
    var s := run[|es|];
    var s' := Do(s, Claim(data));
    WindowAlways(run, es, |es|);
    if NoneLapped(s') {
      ClaimKeepsWindow(s, data);
    } else {
      var p: nat :| Storing(s', p) && |s'.log| > p + s.cap;
      assert Storing(s, p) && p == |s.log| - s.cap && SlotRight(s, p);
      Slots(p, |s.log|, s.cap);
      if Before(s, p) == Some(s.log[p]) {
        forall q: nat | |s'.log| - s.cap <= q < |s'.log| ensures SlotRight(s', q) {
          assert q < |s.log| ==> SlotRight(s, q) && Storing(s', q) == Storing(s, q);
        }
      } else {
        assert !SlotRight(s', |s.log|);
      }
    }
  }

  // ---------------------------------------------------------------------
  // The connections
  // ---------------------------------------------------------------------

  /** Positions below this have been dealt with. */
  function Frontier(c: Reader): nat { if c.phase.Pass? then c.phase.pos else c.cursor }

  ghost predicate WasRead(c: Reader, p: nat) {
    exists i :: 0 <= i < |c.got| && c.got[i].pos == p
  }

  /** A pass skipped `p`, and `p` was more than a lap behind the write position it saw. */
  ghost predicate WasSkipped(c: Reader, p: nat, cap: nat) {
    exists i :: 0 <= i < |c.skips| && c.skips[i].from <= p < c.skips[i].to && p + cap < c.skips[i].wp
  }

  ghost predicate InOrder(c: Reader) {
    && (forall i, j :: 0 <= i < j < |c.got| ==> c.got[i].pos < c.got[j].pos)
    && (forall i :: 0 <= i < |c.got| ==> c.first <= c.got[i].pos < Frontier(c))
  }

  ghost predicate Covered(c: Reader, cap: nat) {
    forall p: nat :: c.first <= p < Frontier(c) ==> WasRead(c, p) || WasSkipped(c, p, cap)
  }

  predicate Placed(c: Reader, wp: nat) {
    && c.first <= c.cursor <= wp
    && (c.phase.Pass? ==> c.cursor <= c.phase.pos <= c.phase.wp <= wp)
    && (c.phase.Resumed? ==> c.cursor < wp)
  }

  ghost predicate ConsumerInv(c: Reader, cap: nat, wp: nat) {
    Placed(c, wp) && InOrder(c) && Covered(c, cap)
  }

  ghost predicate ConsumersInv(s: State) {
    s.cap > 0 && forall c :: c in s.consumers ==> ConsumerInv(s.consumers[c], s.cap, |s.log|)
  }

  lemma LoadKeeps(s: State, c: nat)
    requires CanStep(s, Load(c)) && s.cap > 0 && ConsumerInv(s.consumers[c], s.cap, |s.log|)
    ensures ConsumerInv(Do(s, Load(c)).consumers[c], s.cap, |s.log|)
  {
    var x, x' := s.consumers[c], Do(s, Load(c)).consumers[c];
    forall p: nat | x.first <= p < Frontier(x') ensures WasRead(x', p) || WasSkipped(x', p, s.cap) {
      if p < x.cursor {
        if WasSkipped(x, p, s.cap) {
          var i :| 0 <= i < |x.skips| && x.skips[i].from <= p < x.skips[i].to && p + s.cap < x.skips[i].wp;
          assert x'.skips[i] == x.skips[i];
        }
      } else {
        assert x'.skips[|x.skips|].from <= p;
      }
    }
  }

  lemma GetKeeps(s: State, c: nat)
    requires CanStep(s, Get(c)) && ConsumerInv(s.consumers[c], s.cap, |s.log|)
    ensures ConsumerInv(Do(s, Get(c)).consumers[c], s.cap, |s.log|)
  {
    var x, x' := s.consumers[c], Do(s, Get(c)).consumers[c];
    forall p: nat | x.first <= p < Frontier(x') ensures WasRead(x', p) || WasSkipped(x', p, s.cap) {
      if p == x.phase.pos {
        assert x'.got[|x.got|].pos == p;
      } else if WasRead(x, p) {
        var i :| 0 <= i < |x.got| && x.got[i].pos == p;
        assert x'.got[i].pos == p;
      }
    }
  }

  lemma ConsumersStep(s: State, e: Step)
    requires ConsumersInv(s) && CanStep(s, e)
    ensures ConsumersInv(Do(s, e))
  {
    match e
    case Load(c) => LoadKeeps(s, c);
    case Get(c) => GetKeeps(s, c);
    case _ =>
      forall c | c in Do(s, e).consumers ensures ConsumerInv(Do(s, e).consumers[c], s.cap, |Do(s, e).log|) {
        OtherKeeps(s, e, c);
      }
  }

  lemma OtherKeeps(s: State, e: Step, c: nat)
    requires ConsumersInv(s) && CanStep(s, e) && !e.Load? && !e.Get? && c in Do(s, e).consumers
    ensures ConsumerInv(Do(s, e).consumers[c], s.cap, |Do(s, e).log|)
  {
    if c in s.consumers {
      assert ConsumerInv(s.consumers[c], s.cap, |s.log|);
      SameCoverage(s.consumers[c], Do(s, e).consumers[c], s.cap);
    }
  }

  lemma SameCoverage(c: Reader, c': Reader, cap: nat)
    requires Covered(c, cap) && c'.first == c.first && c'.got == c.got && c'.skips == c.skips && Frontier(c') == Frontier(c)
    ensures Covered(c', cap)
  {
    forall p: nat | c'.first <= p < Frontier(c') ensures WasRead(c', p) || WasSkipped(c', p, cap) {
      assert WasRead(c, p) ==> WasRead(c', p);
      assert WasSkipped(c, p, cap) ==> WasSkipped(c', p, cap);
    }
  }

  /**
   In every run a connection reads strictly increasing positions, and every
   position from its start to where it stands was read or was more than a lap
   old when a pass began; its cursor never passes the write position, and Wait
   has returned only if there is something to read.
   */
  lemma {:induction false} ConsumersAlways(run: seq<State>, es: seq<Step>, k: nat)
    requires IsRun(run, es) && k < |run|
    ensures ConsumersInv(run[k])
  {
    if k > 0 {
      ConsumersAlways(run, es, k - 1);
      ConsumersStep(run[k - 1], es[k - 1]);
    }
  }

  /** No step moves a cursor back. */
  lemma CursorsOnlyAdvance(s: State, e: Step, c: nat)
    requires ConsumersInv(s) && CanStep(s, e) && c in s.consumers
    ensures c in Do(s, e).consumers && s.consumers[c].cursor <= Do(s, e).consumers[c].cursor
    ensures s.consumers[c].got <= Do(s, e).consumers[c].got
  {
    assert ConsumerInv(s.consumers[c], s.cap, |s.log|);
  }

  /** A read at most one lap behind gave that Put's data if it was stored, else the previous lap's. */
  ghost predicate ReadRight(s: State, r: Read) {
    && r.pos < |s.log| && s.cap > 0
    && (r.wp <= r.pos + s.cap ==> r.data == if r.storing then Before(s, r.pos) else Some(s.log[r.pos]))
  }

  ghost predicate ReadsRight(s: State) {
    forall c, i :: c in s.consumers && 0 <= i < |s.consumers[c].got| ==> ReadRight(s, s.consumers[c].got[i])
  }

  lemma OldReadStep(s: State, e: Step, r: Read)
    requires CanStep(s, e) && ReadRight(s, r)
    ensures ReadRight(Do(s, e), r)
  {}

  lemma NewReadStep(s: State, c: nat)
    requires CanStep(s, Get(c)) && WindowRight(s) && Placed(s.consumers[c], |s.log|)
    ensures var pos := s.consumers[c].phase.pos;
            ReadRight(s, Read(pos, s.buf[pos % s.cap], |s.log|, Storing(s, pos)))
  {
    var pos := s.consumers[c].phase.pos;
    if |s.log| <= pos + s.cap {
      assert SlotRight(s, pos);
    }
  }

  lemma ReadsStep(s: State, e: Step)
    requires ReadsRight(s) && ConsumersInv(s) && WindowRight(s) && CanStep(s, e)
    ensures ReadsRight(Do(s, e))
  {
    var s' := Do(s, e);
    forall c, i | c in s'.consumers && 0 <= i < |s'.consumers[c].got| ensures ReadRight(s', s'.consumers[c].got[i]) {
      if !(c in s.consumers && i < |s.consumers[c].got|) {
        assert ConsumerInv(s.consumers[c], s.cap, |s.log|);
        NewReadStep(s, c);
      } else {
        assert s'.consumers[c].got[i] == s.consumers[c].got[i];
      }
      OldReadStep(s, e, s'.consumers[c].got[i]);
    }
  }

  /**
   In every run in which no producer is lapped, a read of a stored position at
   most one lap behind the writer returns exactly that Put's data.
   */
  lemma {:induction false} ReadsAlways(run: seq<State>, es: seq<Step>, k: nat)
    requires IsRun(run, es) && k < |run|
    requires forall i :: 0 <= i <= k ==> NoneLapped(run[i])
    ensures ReadsRight(run[k])
  {
    if k > 0 {
      ReadsAlways(run, es, k - 1);
      ConsumersAlways(run, es, k - 1);
      WindowAlways(run, es, k - 1);
      ReadsStep(run[k - 1], es[k - 1]);
    }
  }

  /** A run in which claim and store are never separated: Put as one step. */
  ghost predicate WholePuts(run: seq<State>, es: seq<Step>) {
    IsRun(run, es) && forall i :: 0 < i < |es| && es[i - 1].Claim? ==> es[i] == Store(|run[i - 1].log|)
  }

  lemma {:induction false} OnlyJustClaimed(run: seq<State>, es: seq<Step>, k: nat)
    requires WholePuts(run, es) && k < |run|
    ensures forall p: nat :: Storing(run[k], p) ==> k > 0 && es[k - 1].Claim? && p == |run[k - 1].log|
    ensures NoneLapped(run[k]) && run[k].cap > 0
  {
    if k > 0 {
      OnlyJustClaimed(run, es, k - 1);
      var s, e := run[k - 1], es[k - 1];
      forall p: nat | Storing(Do(s, e), p) ensures e.Claim? && p == |s.log| {
        assert Storing(s, p) || (e.Claim? && p == |s.log|);
      }
    }
  }

  /** With Put as one step, every read at most one lap behind the writer is exact. */
  lemma {:induction false} WholePutsReadExactly(run: seq<State>, es: seq<Step>, k: nat)
    requires WholePuts(run, es) && k < |run|
    ensures forall c, i :: c in run[k].consumers && 0 <= i < |run[k].consumers[c].got| ==>
              var r := run[k].consumers[c].got[i];
              !r.storing && r.pos < |run[k].log| && (r.wp <= r.pos + run[k].cap ==> r.data == Some(run[k].log[r.pos]))
  {
    forall i | 0 <= i <= k ensures NoneLapped(run[i]) {
      OnlyJustClaimed(run, es, i);
    }
    ReadsAlways(run, es, k);
    NeverMidStore(run, es, k);
    forall c, i | c in run[k].consumers && 0 <= i < |run[k].consumers[c].got| ensures ReadRight(run[k], run[k].consumers[c].got[i]) {}
  }

  lemma {:induction false} NeverMidStore(run: seq<State>, es: seq<Step>, k: nat)
    requires WholePuts(run, es) && k < |run|
    ensures forall c, i :: c in run[k].consumers && 0 <= i < |run[k].consumers[c].got| ==> !run[k].consumers[c].got[i].storing
  {
    if k > 0 {
      NeverMidStore(run, es, k - 1);
      OnlyJustClaimed(run, es, k - 1);
    }
  }

  /** The read gave the data of position `q`, the newest written to its slot when it happened. */
  predicate GaveNewest(s: State, r: Read, q: nat) {
    && s.cap > 0 && r.pos <= q < r.wp <= |s.log| && r.wp <= q + s.cap
    && q % s.cap == r.pos % s.cap && r.data == Some(s.log[q])
  }

  ghost predicate IsNewest(s: State, r: Read) { exists q: nat :: GaveNewest(s, r, q) }

  lemma NewestRead(s: State, c: nat)
    requires CanStep(s, Get(c)) && ConsumersInv(s) && WindowRight(s) && forall p: nat :: !Storing(s, p)
    ensures var pos := s.consumers[c].phase.pos;
            IsNewest(s, Read(pos, s.buf[pos % s.cap], |s.log|, false))
  {
    assert ConsumerInv(s.consumers[c], s.cap, |s.log|);
    var pos := s.consumers[c].phase.pos;
    var q := Newest(pos, |s.log|, s.cap);
    assert SlotRight(s, q);
    assert GaveNewest(s, Read(pos, s.buf[pos % s.cap], |s.log|, false), q);
  }

  lemma StaysNewest(s: State, e: Step, r: Read)
    requires CanStep(s, e) && IsNewest(s, r)
    ensures IsNewest(Do(s, e), r)
  {
    var q: nat :| GaveNewest(s, r, q);
    assert GaveNewest(Do(s, e), r, q);
  }

  lemma NewestStep(s: State, e: Step, c: nat, i: nat)
    requires CanStep(s, e) && ConsumersInv(s) && WindowRight(s) && (e.Get? ==> forall p: nat :: !Storing(s, p))
    requires c in s.consumers && i < |s.consumers[c].got| ==> IsNewest(s, s.consumers[c].got[i])
    requires c in Do(s, e).consumers && i < |Do(s, e).consumers[c].got|
    ensures IsNewest(Do(s, e), Do(s, e).consumers[c].got[i])
  {
    var r := Do(s, e).consumers[c].got[i];
    if !(c in s.consumers && i < |s.consumers[c].got|) {
      NewestRead(s, c);
    }
    StaysNewest(s, e, r);
  }

  /**
   With Put as one step, a read at any distance gives the newest data of the
   slot: the position's own data at most one lap behind, a later Put's beyond.
   */
  lemma {:induction false} WholePutsReadNewest(run: seq<State>, es: seq<Step>, k: nat, c: nat, i: nat)
    requires WholePuts(run, es) && k < |run| && c in run[k].consumers && i < |run[k].consumers[c].got|
    ensures IsNewest(run[k], run[k].consumers[c].got[i])
  {
    if k > 0 {
      if c in run[k - 1].consumers && i < |run[k - 1].consumers[c].got| {
        WholePutsReadNewest(run, es, k - 1, c, i);
      }
      NewestNext(run, es, k - 1, c, i);
    }
  }

  lemma NewestNext(run: seq<State>, es: seq<Step>, k: nat, c: nat, i: nat)
    requires WholePuts(run, es) && k < |es| && c in run[k + 1].consumers && i < |run[k + 1].consumers[c].got|
    requires c in run[k].consumers && i < |run[k].consumers[c].got| ==> IsNewest(run[k], run[k].consumers[c].got[i])
    ensures IsNewest(run[k + 1], run[k + 1].consumers[c].got[i])
  {
    NoneStoringAtGet(run, es, k);
    ConsumersAlways(run, es, k);
    WholePutsWindow(run, es, k);
    NewestStep(run[k], es[k], c, i);
  }

  lemma NoneStoringAtGet(run: seq<State>, es: seq<Step>, k: nat)
    requires WholePuts(run, es) && k < |es|
    ensures es[k].Get? ==> forall p: nat :: !Storing(run[k], p)
  {
    OnlyJustClaimed(run, es, k);
  }

  lemma WholePutsWindow(run: seq<State>, es: seq<Step>, k: nat)
    requires WholePuts(run, es) && k < |run|
    ensures WindowRight(run[k])
  {
    forall i | 0 <= i <= k ensures NoneLapped(run[i]) {
      OnlyJustClaimed(run, es, i);
    }
    WindowAlways(run, es, k);
  }
}
