/**
 Connections on the ring get on with reading (internal/gateway/conn.go:149-198):
 when they wait, what they read by their own steps, and where they start.
 */
module RingReading {
  import opened Prelude
  import opened BroadcastRing
  import opened RingProtocol
  import opened RingWaiting

  predicate WaitsNow(s: State, c: nat) {
    c in s.consumers && (s.consumers[c].phase.Checking? || s.consumers[c].phase.Enrolling? || s.consumers[c].phase.Asleep?)
  }

  /** The only way to start waiting is to load a write position that is not above the cursor. */
  lemma WaitsBefore(s: State, e: Step, c: nat)
    requires CanStep(s, e) && WaitsNow(Do(s, e), c)
    ensures e == Load(c) ==> c in s.consumers && s.consumers[c].cursor >= |s.log|
    ensures e != Load(c) ==> WaitsNow(s, c)
  {}

  /** Connection `c` has been waiting since its load at step `i` found nothing unread. */
  ghost predicate WaitsSince(run: seq<State>, es: seq<Step>, k: nat, c: nat, i: nat) {
    && i < k < |run| == |es| + 1 && es[i] == Load(c)
    && c in run[i].consumers && run[i].consumers[c].cursor == |run[i].log|
    && forall j :: i < j <= k ==> WaitsNow(run[j], c) && (j < k ==> es[j] != Load(c))
  }

  /** In every run a connection waits only if it had read everything at its last load. */
  lemma {:induction false} WaitsOnlyCaughtUp(run: seq<State>, es: seq<Step>, k: nat, c: nat) returns (i: nat)
    requires IsRun(run, es) && k < |run| && WaitsNow(run[k], c)
    ensures WaitsSince(run, es, k, c, i)
  {
    assert k > 0;
    WaitsBefore(run[k - 1], es[k - 1], c);
    if es[k - 1] == Load(c) {
      i := k - 1;
      ConsumersAlways(run, es, i);
      assert ConsumerInv(run[i].consumers[c], run[i].cap, |run[i].log|);
    } else {
      i := WaitsOnlyCaughtUp(run, es, k - 1, c);
    }
  }

  /** A connection's own steps for one pass over `n` positions. */
  function OwnPass(c: nat, n: nat): seq<Step> { [Load(c)] + Gets(c, n) + [Finish(c)] }

  function Gets(c: nat, n: nat): seq<Step> { if n == 0 then [] else Gets(c, n - 1) + [Get(c)] }

  /** Of `s'` only connection `c` differs from `s`, which has read positions `start` to `pos` in order. */
  ghost predicate HasRead(s: State, s': State, c: nat, start: nat, pos: nat) {
    && s.cap > 0 && |s.buf| == s.cap && start <= pos && c in s.consumers && c in s'.consumers
    && s' == s.(consumers := s.consumers[c := s'.consumers[c]])
    && |s'.consumers[c].got| == |s.consumers[c].got| + (pos - start)
    && s.consumers[c].got <= s'.consumers[c].got
    && forall p :: start <= p < pos ==>
         s'.consumers[c].got[|s.consumers[c].got| + (p - start)] == Read(p, s.buf[p % s.cap], |s.log|, Storing(s, p))
  }

  lemma ReadOne(s: State, s': State, c: nat, start: nat, pos: nat, wp: nat)
    requires HasRead(s, s', c, start, pos) && s'.consumers[c].phase == Pass(wp, pos) && pos < wp
    ensures CanStep(s', Get(c)) && HasRead(s, Do(s', Get(c)), c, start, pos + 1)
    ensures Do(s', Get(c)).consumers[c].phase == Pass(wp, pos + 1)
  {
    var s'' := Do(s', Get(c));
    var sofar, got := s'.consumers[c].got, s''.consumers[c].got;
    assert got == sofar + [Read(pos, s.buf[pos % s.cap], |s.log|, Storing(s, pos))];
    assert s''.consumers == s.consumers[c := s''.consumers[c]];
  }

  lemma {:induction false} ReadMany(s: State, loaded: State, c: nat, start: nat, n: nat) returns (s': State)
    requires Exec(s, [Load(c)]) == Some(loaded) && HasRead(s, loaded, c, start, start)
    requires loaded.consumers[c].phase == Pass(|s.log|, start) && start + n <= |s.log|
    ensures Exec(s, [Load(c)] + Gets(c, n)) == Some(s') && HasRead(s, s', c, start, start + n)
    ensures s'.consumers[c].phase == Pass(|s.log|, start + n)
  {
    if n == 0 {
      s' := loaded;
      assert [Load(c)] + Gets(c, 0) == [Load(c)];
    } else {
      var before := ReadMany(s, loaded, c, start, n - 1);
      ReadOne(s, before, c, start, start + n - 1, |s.log|);
      ExecMore(s, [Load(c)] + Gets(c, n - 1), Get(c));
      assert [Load(c)] + Gets(c, n) == [Load(c)] + Gets(c, n - 1) + [Get(c)];
      s' := Do(before, Get(c));
    }
  }

  /**
   From any reachable state a connection with unread data can catch up by its own
   steps: it then has read, in order, exactly the positions from its cursor, or
   from one lap behind the write position if that is later, up to the write
   position, and its cursor is there.
   */
  lemma CatchesUp(run: seq<State>, es: seq<Step>, c: nat) returns (end: State)
    requires IsRun(run, es) && c in run[|es|].consumers && run[|es|].consumers[c].cursor < |run[|es|].log|
    requires run[|es|].consumers[c].phase.Top? || run[|es|].consumers[c].phase.Resumed?
    ensures var s := run[|es|];
            var start := if s.consumers[c].cursor + s.cap >= |s.log| then s.consumers[c].cursor else |s.log| - s.cap;
            && Exec(s, OwnPass(c, |s.log| - start)) == Some(end)
            && HasRead(s, end, c, start, |s.log|)
            && end.consumers[c].cursor == |s.log| && end.consumers[c].phase.Top?
  {
    var s := run[|es|];
    BufferKept(run, es, |es|);
    var start := if s.consumers[c].cursor + s.cap >= |s.log| then s.consumers[c].cursor else |s.log| - s.cap;
    var n := |s.log| - start;
    assert Exec(s, []) == Some(s) && [] + [Load(c)] == [Load(c)];
    ExecMore(s, [], Load(c));
    LoadsToRead(s, c, start);
    var s' := ReadMany(s, Do(s, Load(c)), c, start, n);
    FinishesRead(s, s', c, start);
    ExecMore(s, [Load(c)] + Gets(c, n), Finish(c));
    end := Do(s', Finish(c));
  }

  lemma LoadsToRead(s: State, c: nat, start: nat)
    requires CanStep(s, Load(c)) && s.cap > 0 && |s.buf| == s.cap && s.consumers[c].cursor < |s.log|
    requires start == if s.consumers[c].cursor + s.cap >= |s.log| then s.consumers[c].cursor else |s.log| - s.cap
    ensures HasRead(s, Do(s, Load(c)), c, start, start) && Do(s, Load(c)).consumers[c].phase == Pass(|s.log|, start)
  {}

  lemma FinishesRead(s: State, s': State, c: nat, start: nat)
    requires start <= |s.log| && HasRead(s, s', c, start, |s.log|) && s'.consumers[c].phase == Pass(|s.log|, |s.log|)
    ensures CanStep(s', Finish(c)) && HasRead(s, Do(s', Finish(c)), c, start, |s.log|)
    ensures Do(s', Finish(c)).consumers[c].cursor == |s.log| && Do(s', Finish(c)).consumers[c].phase.Top?
  {
    var end := Do(s', Finish(c));
    assert end.consumers == s.consumers[c := end.consumers[c]];
  }

  /** And one that waits with unread data before its check goes on to read it. */
  lemma WakesToRead(run: seq<State>, es: seq<Step>, c: nat)
    requires IsRun(run, es) && c in run[|es|].consumers && run[|es|].consumers[c].cursor < |run[|es|].log|
    requires run[|es|].consumers[c].phase.Checking?
    ensures CanStep(run[|es|], Check(c)) && Do(run[|es|], Check(c)).consumers[c] == run[|es|].consumers[c].(phase := Resumed)
  {}

  /** A connection only ever reads what was put after it joined. */
  lemma {:induction false} JoinedAt(run: seq<State>, es: seq<Step>, k: nat, c: nat) returns (i: nat)
    requires IsRun(run, es) && k < |run| && c in run[k].consumers
    ensures i < k && es[i] == Join(c) && c !in run[i].consumers
    ensures forall r :: 0 <= r < |run[k].consumers[c].got| ==> run[k].consumers[c].got[r].pos >= |run[i].log|
  {
    i := JoinStep(run, es, k, c);
    ConsumersAlways(run, es, k);
    assert ConsumerInv(run[k].consumers[c], run[k].cap, |run[k].log|);
  }

  lemma JoinBefore(s: State, e: Step, c: nat)
    requires CanStep(s, e) && c in Do(s, e).consumers
    ensures c in s.consumers ==> Do(s, e).consumers[c].first == s.consumers[c].first
    ensures c !in s.consumers ==> e == Join(c) && Do(s, e).consumers[c].first == |s.log|
  {}

  lemma {:induction false} JoinStep(run: seq<State>, es: seq<Step>, k: nat, c: nat) returns (i: nat)
    requires IsRun(run, es) && k < |run| && c in run[k].consumers
    ensures i < k && es[i] == Join(c) && c !in run[i].consumers && run[k].consumers[c].first == |run[i].log|
  {
    assert k > 0;
    JoinBefore(run[k - 1], es[k - 1], c);
    if c in run[k - 1].consumers {
      i := JoinStep(run, es, k - 1, c);
    } else {
      i := k - 1;
    }
  }
}
