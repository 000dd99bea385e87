/**
 The 5-second caches in front of the ban and availability stores
 (internal/service/cache.go, internal/service/msg.go:252-277).  Times are in
 milliseconds.
 */
module LocalCache {
  import opened Prelude

  const TTL: int := 5000

  datatype Entry = Entry(value: bool, expireAt: int)

  /** What Get finds: an entry counts up to and including its expiry time. */
  function Lookup(entries: map<string, Entry>, key: string, now: int): Option<bool> {
    if key in entries && now <= entries[key].expireAt then Some(entries[key].value) else None
  }

  class Cache {
    var entries: map<string, Entry>

    constructor ()
      ensures entries == map[]
    {
      entries := map[];
    }

    method Get(key: string, now: int) returns (r: Option<bool>)
      ensures r == Lookup(entries, key, now)
    {
      if key !in entries || now > entries[key].expireAt {
        return None;
      }
      return Some(entries[key].value);
    }

    method Set(key: string, value: bool, now: int)
      modifies this
      ensures entries == old(entries)[key := Entry(value, now + TTL)]
      ensures forall t :: Lookup(entries, key, t) == if t <= now + 5000 then Some(value) else None
    {
      entries := entries[key := Entry(value, now + TTL)];
    }

    method Delete(key: string)
      modifies this
      ensures forall k, t :: Lookup(entries, k, t) == if k == key then None else Lookup(old(entries), k, t)
    {
      entries := entries - {key};
    }

    /**
     checkBanCached and checkAvailCached, undisturbed: the cached answer if there
     is one, else the store's, which is then cached; a failed read is answered
     with `failOpen` and not cached.
     */
    method Check(key: string, now: int, stored: Option<bool>, failOpen: bool) returns (r: bool)
      modifies this
      ensures var hit := Lookup(old(entries), key, now);
              r == if hit.Some? then hit.value else if stored.Some? then stored.value else failOpen
      ensures Lookup(old(entries), key, now).Some? || stored.None? ==> entries == old(entries)
      ensures Lookup(old(entries), key, now).None? && stored.Some? ==> entries == old(entries)[key := Entry(r, now + TTL)]
    {
      var val := Get(key, now);
      if val.Some? {
        return val.value;
      }
      if stored.None? {
        return failOpen;
      }
      Set(key, stored.value, now);
      return stored.value;
    }
  }

  // ---------------------------------------------------------------------
  // Any number of senders
  // ---------------------------------------------------------------------

  /** A sender past its cache miss, or between its store read and its cache write. */
  datatype Sender = Idle | Missed(key: string) | HasRead(key: string, value: bool, at: int)

  datatype Answer = Answer(key: string, value: bool)

  datatype State = State(
    now: int,
    stored: map<string, bool>,   // what the store holds; absent means false
    entries: map<string, Entry>,
    senders: map<nat, Sender>,
    answer: Option<Answer>)      // the error-free answer given by the last step, if it gave one

  function Holds(s: State, key: string): bool { key in s.stored && s.stored[key] }

  datatype Step =
    | Clock(ms: nat)
    | Change(key: string, value: bool)
    | Hit(t: nat, key: string)
    | Miss(t: nat, key: string)
    | ReadStore(t: nat)
    | WriteCache(t: nat)
    | ReadFails(t: nat)

  predicate CanStep(s: State, e: Step) {
    match e
    case Clock(_) => true
    case Change(_, _) => true
    case Hit(t, key) => t in s.senders && s.senders[t].Idle? && Lookup(s.entries, key, s.now).Some?
    case Miss(t, key) => t in s.senders && s.senders[t].Idle? && Lookup(s.entries, key, s.now).None?
    case ReadStore(t) => t in s.senders && s.senders[t].Missed?
    case WriteCache(t) => t in s.senders && s.senders[t].HasRead?
    case ReadFails(t) => t in s.senders && s.senders[t].Missed?
  }

  function Do(s: State, e: Step): State
    requires CanStep(s, e)
  {
    var quiet := s.(answer := None);
    match e
    case Clock(ms) => quiet.(now := s.now + ms)
    case Change(key, value) => quiet.(stored := s.stored[key := value])
    case Hit(_, key) => s.(answer := Some(Answer(key, Lookup(s.entries, key, s.now).value)))
    case Miss(t, key) => quiet.(senders := s.senders[t := Missed(key)])
    case ReadStore(t) => quiet.(senders := s.senders[t := HasRead(s.senders[t].key, Holds(s, s.senders[t].key), s.now)])
    case WriteCache(t) =>
      var HasRead(key, value, _) := s.senders[t];
      s.(entries := s.entries[key := Entry(value, s.now + TTL)], senders := s.senders[t := Idle],
         answer := Some(Answer(key, value)))
    case ReadFails(t) => quiet.(senders := s.senders[t := Idle])
  }

  ghost predicate IsRun(run: seq<State>, es: seq<Step>) {
    && |run| == |es| + 1
    && run[0].entries == map[] && run[0].answer == None
    && (forall t :: t in run[0].senders ==> run[0].senders[t].Idle?)
    && forall i :: 0 <= i < |es| ==> CanStep(run[i], es[i]) && run[i + 1] == Do(run[i], es[i])
  }

  /** Between a store read and its cache write at most `delay` passes. */
  ghost predicate Prompt(run: seq<State>, es: seq<Step>, delay: nat) {
    IsRun(run, es) && forall i :: 0 <= i < |es| && es[i].WriteCache? ==> run[i].now <= run[i].senders[es[i].t].at + delay
  }

  /** At some point of the run up to `k`, not before time `since`, the store held `value` for `key`. */
  ghost predicate HeldSince(run: seq<State>, k: nat, key: string, value: bool, since: int) {
    exists j :: 0 <= j <= k < |run| && since <= run[j].now && Holds(run[j], key) == value
  }

  /** The entry of `key` was held no longer ago than its age and `delay` allow. */
  ghost predicate EntryTraced(run: seq<State>, k: nat, delay: nat, key: string)
    requires k < |run|
  {
    key in run[k].entries ==>
      HeldSince(run, k, key, run[k].entries[key].value, run[k].entries[key].expireAt - TTL - delay)
  }

  /** What sender `t` has read was held when it read it. */
  ghost predicate ReadTraced(run: seq<State>, k: nat, t: nat)
    requires k < |run|
  {
    t in run[k].senders && run[k].senders[t].HasRead? ==>
      HeldSince(run, k, run[k].senders[t].key, run[k].senders[t].value, run[k].senders[t].at)
  }

  ghost predicate Traced(run: seq<State>, k: nat, delay: nat)
    requires k < |run|
  {
    (forall key :: EntryTraced(run, k, delay, key)) && (forall t :: ReadTraced(run, k, t))
  }

  lemma HeldLater(run: seq<State>, k: nat, k': nat, key: string, value: bool, since: int, since': int)
    requires HeldSince(run, k, key, value, since) && k <= k' < |run| && since' <= since
    ensures HeldSince(run, k', key, value, since')
  {
    var j :| 0 <= j <= k && since <= run[j].now && Holds(run[j], key) == value;
    assert 0 <= j <= k' < |run| && since' <= run[j].now;
  }

  lemma EntryStep(run: seq<State>, es: seq<Step>, delay: nat, k: nat, key: string)
    requires Prompt(run, es, delay) && k < |es| && Traced(run, k, delay)
    ensures EntryTraced(run, k + 1, delay, key)
  {
    var s, s', e := run[k], run[k + 1], es[k];
    if e.WriteCache? && key == s.senders[e.t].key {
      assert ReadTraced(run, k, e.t);
      HeldLater(run, k, k + 1, key, s.senders[e.t].value, s.senders[e.t].at, s'.entries[key].expireAt - TTL - delay);
    } else if key in s.entries {
      assert EntryTraced(run, k, delay, key);
      var since := s.entries[key].expireAt - TTL - delay;
      HeldLater(run, k, k + 1, key, s.entries[key].value, since, since);
    }
  }

  lemma ReadStep(run: seq<State>, es: seq<Step>, k: nat, t: nat)
    requires IsRun(run, es) && k < |es| && ReadTraced(run, k, t)
    ensures ReadTraced(run, k + 1, t)
  {
    var s, s', e := run[k], run[k + 1], es[k];
    if t in s'.senders && s'.senders[t].HasRead? {
      if e.ReadStore? && t == e.t {
        assert Holds(run[k], s'.senders[t].key) == s'.senders[t].value && s'.senders[t].at <= run[k].now;
      } else {
        HeldLater(run, k, k + 1, s.senders[t].key, s.senders[t].value, s.senders[t].at, s.senders[t].at);
      }
    }
  }

  lemma {:induction false} TracedAlways(run: seq<State>, es: seq<Step>, delay: nat, k: nat)
    requires Prompt(run, es, delay) && k < |run|
    ensures Traced(run, k, delay)
  {
    if k > 0 {
      TracedAlways(run, es, delay, k - 1);
      forall key ensures EntryTraced(run, k, delay, key) {
        EntryStep(run, es, delay, k - 1, key);
      }
      forall t ensures ReadTraced(run, k, t) {
        ReadStep(run, es, k - 1, t);
      }
    }
  }

  /**
   Every error-free answer equals what the store held at some instant within the
   last five seconds, plus the longest time any sender took from its store read
   to its cache write.
   */
  lemma AnswersFresh(run: seq<State>, es: seq<Step>, delay: nat, k: nat)
    requires Prompt(run, es, delay) && k < |run| && run[k].answer.Some?
    ensures HeldSince(run, k, run[k].answer.value.key, run[k].answer.value.value, run[k].now - TTL - delay)
  {
    var s, e := run[k - 1], es[k - 1];
    TracedAlways(run, es, delay, k - 1);
    if e.Hit? {
      assert EntryTraced(run, k - 1, delay, e.key);
      HeldLater(run, k - 1, k, e.key, s.entries[e.key].value, s.entries[e.key].expireAt - TTL - delay, s.now - TTL - delay);
    } else {
      var r := s.senders[e.t];
      assert ReadTraced(run, k - 1, e.t);
      HeldLater(run, k - 1, k, r.key, r.value, r.at, s.now - TTL - delay);
    }
  }

  /** Counting a store read and its cache write as one instant, answers are at most five seconds old. */
  lemma AnswersFiveSeconds(run: seq<State>, es: seq<Step>, k: nat)
    requires Prompt(run, es, 0) && k < |run| && run[k].answer.Some?
    ensures HeldSince(run, k, run[k].answer.value.key, run[k].answer.value.value, run[k].now - 5000)
  {
    AnswersFresh(run, es, 0, k);
  }

  /** The store changes right after a read, the cache write comes `delay` later, and the entry is hit at its last moment. */
  ghost function LateSteps(delay: nat, key: string): seq<Step> {
    [Miss(0, key), ReadStore(0), Change(key, true), Clock(delay), WriteCache(0), Clock(TTL), Hit(0, key)]
  }

  ghost function LateState(delay: nat, key: string, i: nat): State {
    if i == 0 then State(0, map[], map[], map[0 := Idle], None)
    else if i == 1 then State(0, map[], map[], map[0 := Missed(key)], None)
    else if i <= 4 then
      State(if i < 4 then 0 else delay, if i < 3 then map[] else map[key := true], map[], map[0 := HasRead(key, false, 0)], None)
    else
      State(if i < 6 then delay else delay + TTL, map[key := true], map[key := Entry(false, delay + TTL)], map[0 := Idle],
            if i == 6 then None else Some(Answer(key, false)))
  }

  lemma LateStep(delay: nat, key: string, i: nat)
    requires i < 7
    ensures CanStep(LateState(delay, key, i), LateSteps(delay, key)[i])
    ensures Do(LateState(delay, key, i), LateSteps(delay, key)[i]) == LateState(delay, key, i + 1)
  {}

  /** The bound is reached, for every delay: the last answer of that run is what the store last held that long before. */
  lemma BoundReached(delay: nat, key: string) returns (run: seq<State>, es: seq<Step>)
    ensures Prompt(run, es, delay) && run[|es|].answer == Some(Answer(key, false))
    ensures !HeldSince(run, |es|, key, false, run[|es|].now - 5000 - delay + 1)
  {
    es := LateSteps(delay, key);
    run := seq(8, i requires 0 <= i < 8 => LateState(delay, key, i));
    forall i | 0 <= i < 7 ensures CanStep(run[i], es[i]) && run[i + 1] == Do(run[i], es[i]) {
      LateStep(delay, key, i);
    }
    assert forall j :: 0 <= j < 8 && run[j].now > 0 ==> Holds(run[j], key);
  }
}
