/**
 Waiting on the ring (internal/gateway/ringbuf.go:41-66): which wake-ups are lost
 and which are not.
 */
module RingWaiting {
  import opened Prelude
  import opened BroadcastRing
  import opened RingProtocol

  ghost predicate WaitInv(s: State) {
    && (forall p: nat :: p < |s.log| <==> p in s.puts || p in s.announced)
    && (forall p: nat :: p in s.puts ==> p !in s.announced)
    && (forall c :: c in s.consumers && s.consumers[c].phase.Asleep? ==> s.consumers[c].phase.heard == s.announced)
  }

  lemma WaitStep(s: State, e: Step)
    requires WaitInv(s) && CanStep(s, e)
    ensures WaitInv(Do(s, e))
  {}

  lemma {:induction false} WaitAlways(run: seq<State>, es: seq<Step>, k: nat)
    requires IsRun(run, es) && k < |run|
    ensures WaitInv(run[k])
  {
    if k > 0 {
      WaitAlways(run, es, k - 1);
      WaitStep(run[k - 1], es[k - 1]);
    }
  }

  // ---- When a wake-up is lost ----

  /** Connection `c` sleeps at `k` since its check at step `a` and its enrolment at step `b`. */
  ghost predicate SleepsSince(run: seq<State>, es: seq<Step>, k: nat, c: nat, a: nat, b: nat) {
    && a < b < k < |run| && |run| == |es| + 1 && es[a] == Check(c) && es[b] == Enrol(c)
    && (forall i :: a < i <= b ==> c in run[i].consumers && run[i].consumers[c].phase.Enrolling?)
    && (forall i :: b < i <= k ==> c in run[i].consumers && run[i].consumers[c].phase.Asleep?)
  }

  /** The only ways to the two waiting phases. */
  lemma PhaseBefore(s: State, e: Step, c: nat)
    requires CanStep(s, e) && c in Do(s, e).consumers
    ensures Do(s, e).consumers[c].phase.Enrolling? && e != Check(c) ==> c in s.consumers && s.consumers[c].phase.Enrolling?
    ensures Do(s, e).consumers[c].phase.Asleep? && e != Enrol(c) ==> c in s.consumers && s.consumers[c].phase.Asleep?
    ensures e == Enrol(c) ==> c in s.consumers && s.consumers[c].phase.Enrolling?
  {}

  /** Every connection between check and enrolment got there by a check. */
  lemma {:induction false} EnrolledBy(run: seq<State>, es: seq<Step>, k: nat, c: nat) returns (a: nat)
    requires IsRun(run, es) && k < |run| && c in run[k].consumers && run[k].consumers[c].phase.Enrolling?
    ensures a < k && es[a] == Check(c)
    ensures forall i :: a < i <= k ==> c in run[i].consumers && run[i].consumers[c].phase.Enrolling?
  {
    assert k > 0;
    PhaseBefore(run[k - 1], es[k - 1], c);
    if es[k - 1] == Check(c) {
      a := k - 1;
    } else {
      a := EnrolledBy(run, es, k - 1, c);
    }
  }

  /** Every sleeping connection has such a check and enrolment. */
  lemma {:induction false} SleepsSinceSome(run: seq<State>, es: seq<Step>, k: nat, c: nat) returns (a: nat, b: nat)
    requires IsRun(run, es) && k < |run| && c in run[k].consumers && run[k].consumers[c].phase.Asleep?
    ensures SleepsSince(run, es, k, c, a, b)
  {
    assert k > 0;
    PhaseBefore(run[k - 1], es[k - 1], c);
    if es[k - 1] == Enrol(c) {
      b := k - 1;
      a := EnrolledBy(run, es, b, c);
    } else {
      a, b := SleepsSinceSome(run, es, k - 1, c);
    }
  }

  /** The claim and the broadcast of position `p`. */
  predicate ClaimedAt(run: seq<State>, es: seq<Step>, i: nat, p: nat) {
    i < |es| < |run| && es[i].Claim? && |run[i].log| == p
  }

  lemma {:induction false} ClaimStep(run: seq<State>, es: seq<Step>, i: nat, k: nat, p: nat) returns (j: nat)
    requires IsRun(run, es) && i <= k < |run| && |run[i].log| <= p < |run[k].log|
    ensures i <= j < k && ClaimedAt(run, es, j, p)
  {
    if |run[k - 1].log| <= p {
      j := k - 1;
    } else {
      j := ClaimStep(run, es, i, k - 1, p);
    }
  }

  /** What was announced between two points was announced by a step between them. */
  lemma {:induction false} AnnounceStep(run: seq<State>, es: seq<Step>, i: nat, k: nat, p: nat) returns (j: nat)
    requires IsRun(run, es) && i <= k < |run| && p !in run[i].announced && p in run[k].announced
    ensures i <= j < k && es[j] == Announce(p)
  {
    if p !in run[k - 1].announced {
      j := k - 1;
    } else {
      j := AnnounceStep(run, es, i, k - 1, p);
    }
  }

  lemma {:induction false} StaysAnnounced(run: seq<State>, es: seq<Step>, i: nat, k: nat)
    requires IsRun(run, es) && i <= k < |run|
    ensures run[i].announced <= run[k].announced && |run[i].log| <= |run[k].log|
  {
    if i < k {
      StaysAnnounced(run, es, i, k - 1);
    }
  }

  /** The cursor and, from the enrolment on, the broadcasts stand still while a connection waits. */
  lemma {:induction false} WaitsStill(run: seq<State>, es: seq<Step>, k: nat, c: nat, a: nat, b: nat)
    requires IsRun(run, es) && SleepsSince(run, es, k, c, a, b)
    ensures |run[a].log| <= run[k].consumers[c].cursor
    ensures run[k].announced == run[b].announced
  {
    WaitAlways(run, es, k);
    WaitAlways(run, es, b + 1);
    CheckedCursor(run, es, c, a, k);
    HeardStays(run, es, c, b, k);
  }

  lemma {:induction false} CheckedCursor(run: seq<State>, es: seq<Step>, c: nat, a: nat, k: nat)
    requires IsRun(run, es) && a < k < |run| && es[a] == Check(c)
    requires forall i :: a < i <= k ==> c in run[i].consumers && (run[i].consumers[c].phase.Enrolling? || run[i].consumers[c].phase.Asleep?)
    ensures |run[a].log| <= run[k].consumers[c].cursor
  {
    if k > a + 1 {
      CheckedCursor(run, es, c, a, k - 1);
    }
  }

  lemma {:induction false} HeardStays(run: seq<State>, es: seq<Step>, c: nat, b: nat, k: nat)
    requires IsRun(run, es) && b < k < |run| && es[b] == Enrol(c)
    requires forall i :: b < i <= k ==> c in run[i].consumers && run[i].consumers[c].phase.Asleep?
    ensures run[k].consumers[c].phase.heard == run[b].announced
  {
    if k > b + 1 {
      HeardStays(run, es, c, b, k - 1);
    }
  }

  /** The whole Put of `p` up to its broadcast fell between steps `a` and `b`. */
  ghost predicate FellBetween(run: seq<State>, es: seq<Step>, a: nat, b: nat, p: nat) {
    exists i, j :: a < i < j < b <= |es| && ClaimedAt(run, es, i, p) && es[j] == Announce(p)
  }

  /**
   When a wake-up is lost: of a sleeping connection's unread Puts, exactly those
   that were claimed after its check and broadcast before its enrolment have no
   broadcast to come.
   */
  lemma AsleepUnread(run: seq<State>, es: seq<Step>, k: nat, c: nat, a: nat, b: nat, p: nat)
    requires IsRun(run, es) && SleepsSince(run, es, k, c, a, b)
    requires run[k].consumers[c].cursor <= p < |run[k].log|
    ensures p !in run[k].puts <==> FellBetween(run, es, a, b, p)
  {
    WaitAlways(run, es, k);
    WaitsStill(run, es, k, c, a, b);
    if p !in run[k].puts {
      WaitAlways(run, es, a);
      WaitAlways(run, es, b);
      var i := ClaimStep(run, es, a, b, p);
      WaitAlways(run, es, i);
      WaitAlways(run, es, i + 1);
      var j := AnnounceStep(run, es, i + 1, b, p);
    } else if FellBetween(run, es, a, b, p) {
      var i, j :| a < i < j < b && ClaimedAt(run, es, i, p) && es[j] == Announce(p);
      StaysAnnounced(run, es, j + 1, k);
    }
  }

  /** While a connection sleeps nothing is broadcast: any broadcast wakes it. */
  lemma BroadcastWakes(run: seq<State>, es: seq<Step>, k: nat, c: nat, a: nat, b: nat)
    requires IsRun(run, es) && SleepsSince(run, es, k, c, a, b)
    ensures forall j :: b < j < k ==> !es[j].Announce?
  {
    forall j | b < j < k ensures !es[j].Announce? {
      assert run[j].consumers[c].phase.Asleep? && run[j + 1].consumers[c].phase.Asleep?;
    }
  }

  /** If no Put is broadcast between a connection's check and its enrolment, every unread Put will still wake it. */
  lemma NoWakeupLost(run: seq<State>, es: seq<Step>, k: nat, c: nat, a: nat, b: nat)
    requires IsRun(run, es) && SleepsSince(run, es, k, c, a, b)
    requires forall j :: a < j < b ==> !es[j].Announce?
    ensures forall p: nat :: run[k].consumers[c].cursor <= p < |run[k].log| ==> p in run[k].puts
  {
    forall p: nat | run[k].consumers[c].cursor <= p < |run[k].log| ensures p in run[k].puts {
      AsleepUnread(run, es, k, c, a, b, p);
    }
  }

  /** The state after taking `es` from `s`, if every step is possible. */
  function Exec(s: State, es: seq<Step>): Option<State>
    decreases |es|
  {
    if es == [] then Some(s)
    else if CanStep(s, es[0]) then Exec(Do(s, es[0]), es[1..])
    else None
  }

  lemma {:induction false} ExecMore(s: State, es: seq<Step>, e: Step)
    requires Exec(s, es).Some? && CanStep(Exec(s, es).value, e)
    ensures Exec(s, es + [e]) == Some(Do(Exec(s, es).value, e))
    decreases |es|
  {
    if es == [] {
      assert [e][1..] == [];
    } else {
      assert (es + [e])[1..] == es[1..] + [e];
      ExecMore(Do(s, es[0]), es[1..], e);
    }
  }

  /** Connection `c` is between its check and its enrolment. */
  ghost predicate AboutToEnrol(s: State, c: nat) {
    && WaitInv(s) && s.cap > 0 && |s.buf| == s.cap
    && c in s.consumers && s.consumers[c].phase.Enrolling? && s.consumers[c].cursor <= |s.log|
  }

  lemma {:induction false} BufferKept(run: seq<State>, es: seq<Step>, k: nat)
    requires IsRun(run, es) && k < |run|
    ensures run[k].cap > 0 && |run[k].buf| == run[k].cap
  {
    if k > 0 {
      BufferKept(run, es, k - 1);
    }
  }

  /** One step by others, as part of the continuation `es` from `start`. */
  lemma Others(start: State, es: seq<Step>, s: State, e: Step, c: nat) returns (es': seq<Step>, s': State)
    requires Exec(start, es) == Some(s) && AboutToEnrol(s, c) && CanStep(s, e) && (e.Claim? || e.Store? || e.Announce?)
    ensures es' == es + [e] && s' == Do(s, e) && Exec(start, es') == Some(s') && AboutToEnrol(s', c)
    ensures s'.consumers[c] == s.consumers[c]
  {
    ExecMore(start, es, e);
    WaitStep(s, e);
    es', s' := es + [e], Do(s, e);
  }

  /** Finish the Put of position `p`. */
  lemma FinishPut(start: State, es: seq<Step>, s: State, c: nat, p: nat) returns (es': seq<Step>, s': State)
    requires Exec(start, es) == Some(s) && AboutToEnrol(s, c) && p in s.puts
    ensures Exec(start, es') == Some(s') && AboutToEnrol(s', c) && s'.puts == s.puts - {p}
    ensures s'.log == s.log && s'.consumers[c] == s.consumers[c]
  {
    var es1, s1 := es, s;
    if s.puts[p].Claimed? {
      es1, s1 := Others(start, es, s, Store(p), c);
    }
    es', s' := Others(start, es1, s1, Announce(p), c);
  }

  lemma {:induction false} FinishPuts(start: State, es: seq<Step>, s: State, c: nat) returns (es': seq<Step>, s': State)
    requires Exec(start, es) == Some(s) && AboutToEnrol(s, c)
    ensures Exec(start, es') == Some(s') && AboutToEnrol(s', c) && s'.puts == map[]
    ensures s'.log == s.log && s'.consumers[c] == s.consumers[c]
    decreases s.puts.Keys
  {
    if p: nat :| p in s.puts {
      var es1, s1 := FinishPut(start, es, s, c, p);
      assert p !in s1.puts.Keys;
      es', s' := FinishPuts(start, es1, s1, c);
    } else {
      es', s' := es, s;
    }
  }

  /**
   The converse: wherever a run leaves a connection between its check and its
   enrolment, it can be continued, with any data, to one that leaves the
   connection asleep with that data unread and no broadcast to come.
   */
  lemma LostWakeup(run: seq<State>, es: seq<Step>, c: nat, data: Data) returns (more: seq<Step>, end: State)
    requires IsRun(run, es) && c in run[|es|].consumers && run[|es|].consumers[c].phase.Enrolling?
    ensures Exec(run[|es|], more) == Some(end)
    ensures c in end.consumers && end.consumers[c].phase.Asleep? && end.puts == map[]
    ensures end.log == run[|es|].log + [data] && end.consumers[c].cursor < |end.log|
  {
    var start := run[|es|];
    WaitAlways(run, es, |es|);
    ConsumersAlways(run, es, |es|);
    BufferKept(run, es, |es|);
    assert ConsumerInv(start.consumers[c], start.cap, |start.log|);
    assert Exec(start, []) == Some(start);
    var es1, s1 := FinishPuts(start, [], start, c);
    var es2, s2 := Others(start, es1, s1, Claim(data), c);
    var es3, s3 := FinishPut(start, es2, s2, c, |s1.log|);
    ExecMore(start, es3, Enrol(c));
    more, end := es3 + [Enrol(c)], Do(s3, Enrol(c));
  }

  /** The case arises on any ring: a connection with nothing to read can be between its check and its enrolment. */
  lemma ChecksInVain(run: seq<State>, es: seq<Step>, c: nat)
    requires IsRun(run, es) && c in run[|es|].consumers
    requires run[|es|].consumers[c].phase.Top? && run[|es|].consumers[c].cursor == |run[|es|].log|
    ensures var end := Exec(run[|es|], [Load(c), Check(c)]);
            end.Some? && c in end.value.consumers && end.value.consumers[c].phase.Enrolling?
  {
    var s := run[|es|];
    assert [Load(c), Check(c)][1..] == [Check(c)] && [Check(c)][1..] == [];
    assert Exec(Do(s, Load(c)), [Check(c)]) == Exec(Do(Do(s, Load(c)), Check(c)), []);
  }
}
