/**
 The state store's short-lived cache: one load in flight per key, however many
 callers ask, and no load sooner than the time to live after the last.
 */
module Cache {
  import opened Wrappers

  type Key = string
  type Value = int
  type Task = nat
  type Time = int

  datatype Entry = Entry(storedAt: Time, value: Value)

  /** A load that succeeded: when it started and when its value was stored. */
  datatype Load = Load(start: Time, storedAt: Time, value: Value)

  datatype Loading = Loading(task: Task, start: Time)

  /** Any load that has ended, and when. */
  datatype Span = Span(start: Time, ended: Time)

  /** All that concerns one key: the cached entry, who holds its lock and who waits for it. */
  datatype Slot = Slot(
    entry: Option<Entry>, loading: Option<Loading>, waiting: set<Task>,
    loads: seq<Load>,   // those that succeeded
    spans: seq<Span>)   // all that have ended

  const FRESH_SLOT := Slot(None, None, {}, [], [])

  /** Once the load under way has ended. */
  function Ending(slot: Slot, now: Time): seq<Span> {
    slot.spans + if slot.loading.Some? then [Span(slot.loading.value.start, now)] else []
  }

  datatype Op =
    | Call(task: Task)                // the first look at the cache
    | Acquire(task: Task)             // the lock is free: the second look, then the load starts
    | Finish(task: Task, value: Value)
    | Fail(task: Task)                // the load raised, or was cancelled
    | Cancel(task: Task)              // cancelled while waiting for the lock

  /** What a caller gets, and where it came from. */
  datatype Answer = Cached(storedAt: Time, value: Value) | Loaded(value: Value)

  predicate Fresh(slot: Slot, now: Time, ttl: Time) {
    slot.entry.Some? && now - slot.entry.value.storedAt < ttl
  }

  predicate Enabled(slot: Slot, op: Op) {
    match op
    case Call(t) => t !in slot.waiting && (slot.loading.Some? ==> slot.loading.value.task != t)
    case Acquire(t) => t in slot.waiting && slot.loading.None?
    case Finish(t, _) => slot.loading.Some? && slot.loading.value.task == t
    case Fail(t) => slot.loading.Some? && slot.loading.value.task == t
    case Cancel(t) => t in slot.waiting
  }

  /** One uninterrupted stretch of a call, at a moment, and the answer if it returns one. */
  function Step(slot: Slot, op: Op, now: Time, ttl: Time): (Slot, Option<Answer>) {
    match op
    case Call(t) =>
      if Fresh(slot, now, ttl) then (slot, Some(Cached(slot.entry.value.storedAt, slot.entry.value.value)))
      else (slot.(waiting := slot.waiting + {t}), None)
    case Acquire(t) =>
      if Fresh(slot, now, ttl) then
        (slot.(waiting := slot.waiting - {t}), Some(Cached(slot.entry.value.storedAt, slot.entry.value.value)))
      else
        (slot.(waiting := slot.waiting - {t}, loading := Some(Loading(t, now))), None)
    case Finish(t, value) =>
      var start := if slot.loading.Some? then slot.loading.value.start else now;
      (Slot(Some(Entry(now, value)), None, slot.waiting, slot.loads + [Load(start, now, value)], Ending(slot, now)),
       Some(Loaded(value)))
    case Fail(t) => (slot.(loading := None, spans := Ending(slot, now)), None)
    case Cancel(t) => (slot.(waiting := slot.waiting - {t}), None)
  }

  // ----------------------------------------------------------------- the store

  /** The store, whose fields the calls update. A clock only moves forward. */
  class StateStore {
    const ttl: Time
    var slots: map<Key, Slot>
    var clock: Time

    constructor (ttl: Time, now: Time)
      ensures this.ttl == ttl && slots == map[] && clock == now
    {
      this.ttl := ttl;
      slots, clock := map[], now;
    }

    function SlotOf(key: Key): Slot
      reads this
    {
      if key in slots then slots[key] else FRESH_SLOT
    }

    /** The first look: answers from the cache, or leaves the task waiting for the key's lock. */
    method Lookup(task: Task, key: Key, now: Time) returns (answer: Option<Answer>)
      requires now >= clock && Enabled(SlotOf(key), Call(task))
      modifies this
      ensures (SlotOf(key), answer) == Step(old(SlotOf(key)), Call(task), now, ttl)
      ensures clock == now && forall k :: k != key ==> SlotOf(k) == old(SlotOf(k))
    {
      clock := now;
      var slot := SlotOf(key);
      if slot.entry.Some? && now - slot.entry.value.storedAt < ttl {
        return Some(Cached(slot.entry.value.storedAt, slot.entry.value.value));
      }
      slots := slots[key := slot.(waiting := slot.waiting + {task})];
      answer := None;
    }

    /** With the lock: looks again, and starts a load if nothing fresh has appeared meanwhile. */
    method UnderLock(task: Task, key: Key, now: Time) returns (answer: Option<Answer>)
      requires now >= clock && Enabled(SlotOf(key), Acquire(task))
      modifies this
      ensures (SlotOf(key), answer) == Step(old(SlotOf(key)), Acquire(task), now, ttl)
      ensures clock == now && forall k :: k != key ==> SlotOf(k) == old(SlotOf(k))
    {
      clock := now;
      var slot := SlotOf(key);
      slot := slot.(waiting := slot.waiting - {task});
      if slot.entry.Some? && now - slot.entry.value.storedAt < ttl {
        answer := Some(Cached(slot.entry.value.storedAt, slot.entry.value.value));
      } else {
        slot := slot.(loading := Some(Loading(task, now)));
        answer := None;
      }
      slots := slots[key := slot];
    }

    /** The load ended: its value is stored and returned, or nothing is. Either way the lock is released. */
    method Ended(task: Task, key: Key, loaded: Option<Value>, now: Time) returns (answer: Option<Answer>)
      requires now >= clock && SlotOf(key).loading.Some? && SlotOf(key).loading.value.task == task
      modifies this
      ensures (SlotOf(key), answer)
           == Step(old(SlotOf(key)), if loaded.Some? then Finish(task, loaded.value) else Fail(task), now, ttl)
      ensures clock == now && forall k :: k != key ==> SlotOf(k) == old(SlotOf(k))
    {
      clock := now;
      var slot := SlotOf(key);
      answer := None;
      if loaded.Some? {
        var done := Load(slot.loading.value.start, now, loaded.value);
        slot := slot.(entry := Some(Entry(now, loaded.value)), loads := slot.loads + [done]);
        answer := Some(Loaded(loaded.value));
      }
      var span := Span(slot.loading.value.start, now);
      slots := slots[key := slot.(loading := None, spans := slot.spans + [span])];
    }
  }

  // ------------------------------------------------------------------ every run

  /** Something that happens to one key at a moment. */
  datatype Event = Event(op: Op, at: Time)

  predicate InOrder(events: seq<Event>) {
    forall i, j :: 0 <= i < j < |events| ==> events[i].at <= events[j].at
  }

  /** The key's state after a run; what is not enabled does not happen. */
  function Run(events: seq<Event>, ttl: Time): Slot {
    if events == [] then FRESH_SLOT
    else
      var before, last := Run(events[..|events| - 1], ttl), events[|events| - 1];
      if Enabled(before, last.op) then Step(before, last.op, last.at, ttl).0 else before
  }

  /** The entry is the last load's, and each load started only once the one before had expired. */
  ghost predicate Inv(slot: Slot, now: Time, ttl: Time) {
    && (slot.entry.None? <==> slot.loads == [])
    && (slot.loads != [] ==>
          var last := slot.loads[|slot.loads| - 1];
          slot.entry.value == Entry(last.storedAt, last.value) && last.storedAt <= now
          && (slot.loading.Some? ==> slot.loading.value.start - last.storedAt >= ttl))
    && (slot.loading.Some? ==> slot.loading.value.start <= now)
    && (forall i :: 0 <= i < |slot.loads| ==> slot.loads[i].start <= slot.loads[i].storedAt)
    && Spaced(slot.loads, ttl)
  }

  /** Each load, also one that failed, started once the one before had ended. */
  ghost predicate Apart(slot: Slot, now: Time) {
    && (forall i :: 0 <= i < |slot.spans| ==> slot.spans[i].start <= slot.spans[i].ended <= now)
    && (forall i, j :: 0 <= i < j < |slot.spans| ==> slot.spans[i].ended <= slot.spans[j].start)
    && (slot.loading.Some? ==> forall i :: 0 <= i < |slot.spans| ==> slot.spans[i].ended <= slot.loading.value.start)
  }

  ghost predicate Spaced(loads: seq<Load>, ttl: Time) {
    forall i :: 0 <= i < |loads| - 1 ==> loads[i + 1].start - loads[i].storedAt >= ttl
  }

  lemma StepKeepsInv(slot: Slot, op: Op, at: Time, ttl: Time, now: Time)
    requires Inv(slot, at, ttl) && Enabled(slot, op) && at <= now
    ensures Inv(Step(slot, op, at, ttl).0, now, ttl)
  {
  }

  lemma StepKeepsApart(slot: Slot, op: Op, at: Time, ttl: Time, now: Time)
    requires Apart(slot, at) && Enabled(slot, op) && at <= now && (slot.loading.Some? ==> slot.loading.value.start <= at)
    ensures Apart(Step(slot, op, at, ttl).0, now)
  {
    match op
    case Call(_) =>
    case Acquire(_) =>
    case Finish(_, _) => EndingIsApart(slot, at, now);
    case Fail(_) => EndingIsApart(slot, at, now);
    case Cancel(_) =>
  }

  lemma EndingIsApart(slot: Slot, at: Time, now: Time)
    requires Apart(slot, at) && slot.loading.Some? && slot.loading.value.start <= at <= now
    ensures var spans := Ending(slot, at);
      && (forall i :: 0 <= i < |spans| ==> spans[i].start <= spans[i].ended <= now)
      && (forall i, j :: 0 <= i < j < |spans| ==> spans[i].ended <= spans[j].start)
  {
  }

  lemma {:induction false} RunKeepsInv(events: seq<Event>, ttl: Time, now: Time)
    requires InOrder(events) && forall e :: e in events ==> e.at <= now
    ensures Inv(Run(events, ttl), now, ttl) && Apart(Run(events, ttl), now)
  {
    if events != [] {
      var before, last := events[..|events| - 1], events[|events| - 1];
      assert last in events;
      forall e | e in before ensures e.at <= last.at {
        var i :| 0 <= i < |before| && before[i] == e;
        assert events[i].at <= events[|events| - 1].at;
      }
      RunKeepsInv(before, ttl, last.at);
      if Enabled(Run(before, ttl), last.op) {
        StepKeepsInv(Run(before, ttl), last.op, last.at, ttl, now);
        StepKeepsApart(Run(before, ttl), last.op, last.at, ttl, now);
      }
    }
  }

  /**
   Whatever a call answers was loaded in that call, or is what the last load
   to succeed stored, less than the time to live before.
   */
  lemma AnswersAreFresh(events: seq<Event>, ttl: Time, op: Op, now: Time)
    requires InOrder(events) && forall e :: e in events ==> e.at <= now
    requires Enabled(Run(events, ttl), op)
    ensures var slot := Run(events, ttl);
      var answer := Step(slot, op, now, ttl).1;
      && (op.Finish? ==> answer == Some(Loaded(op.value)))
      && (answer.Some? && !op.Finish? ==>
            && slot.loads != [] && answer.value == Cached(slot.loads[|slot.loads| - 1].storedAt, slot.loads[|slot.loads| - 1].value)
            && 0 <= now - answer.value.storedAt < ttl)
  {
    RunKeepsInv(events, ttl, now);
  }

  /**
   A call is answered from the cache exactly when the last load to succeed is
   younger than the time to live, be another load under way or not; else it
   waits for the lock, and with the lock starts a load itself.
   */
  lemma AnsweredAtOnceIff(events: seq<Event>, ttl: Time, op: Op, now: Time)
    requires InOrder(events) && forall e :: e in events ==> e.at <= now
    requires Enabled(Run(events, ttl), op) && (op.Call? || op.Acquire?)
    ensures var slot := Run(events, ttl);
      var (after, answer) := Step(slot, op, now, ttl);
      && (answer.Some? <==> slot.loads != [] && now < slot.loads[|slot.loads| - 1].storedAt + ttl)
      && (answer.Some? ==> answer.value.Cached? && answer.value.value == slot.loads[|slot.loads| - 1].value)
      && (op.Call? && answer.None? ==> op.task in after.waiting && after.loading == slot.loading)
      && (op.Acquire? && answer.None? ==> after.loading == Some(Loading(op.task, now)))
      && (op.Acquire? ==> op.task !in after.waiting) && after.loads == slot.loads
  {
    RunKeepsInv(events, ttl, now);
  }

  /** A load that fails gives nobody a value and frees the lock; the last success goes on being the cache's. */
  lemma FailureStoresNothing(events: seq<Event>, ttl: Time, task: Task, now: Time)
    requires InOrder(events) && forall e :: e in events ==> e.at <= now
    requires Enabled(Run(events, ttl), Fail(task))
    ensures var slot := Run(events, ttl);
      var (after, answer) := Step(slot, Fail(task), now, ttl);
      answer.None? && after.loading.None? && after.loads == slot.loads && after.waiting == slot.waiting
      && (after.entry.Some? <==> slot.loads != [])
      && (slot.loads != [] ==> after.entry.value.value == slot.loads[|slot.loads| - 1].value)
  {
    RunKeepsInv(events, ttl, now);
  }

  /** A load starts only when none is under way: loads of one key never overlap, whether they succeed or fail. */
  lemma LoadsNeverOverlap(events: seq<Event>, ttl: Time, now: Time, i: nat, j: nat)
    requires InOrder(events) && forall e :: e in events ==> e.at <= now
    requires i < j < |Run(events, ttl).spans|
    ensures var slot := Run(events, ttl);
      && slot.spans[i].ended <= slot.spans[j].start
      && (slot.loading.Some? ==> slot.spans[j].ended <= slot.loading.value.start)
  {
    RunKeepsInv(events, ttl, now);
  }

  /** And after one that succeeds the next comes no sooner than the time to live. */
  lemma LoadsAreSpaced(events: seq<Event>, ttl: Time, now: Time, i: nat, j: nat)
    requires InOrder(events) && ttl >= 0 && forall e :: e in events ==> e.at <= now
    requires var loads := Run(events, ttl).loads; i < j < |loads|
    ensures var slot := Run(events, ttl);
      && slot.loads[i].storedAt + ttl <= slot.loads[j].start
      && (slot.loading.Some? ==> slot.loads[j].storedAt + ttl <= slot.loading.value.start)
  {
    RunKeepsInv(events, ttl, now);
    var slot := Run(events, ttl);
    FarApart(slot.loads, ttl, i, j);
    if slot.loading.Some? && j < |slot.loads| - 1 {
      FarApart(slot.loads, ttl, j, |slot.loads| - 1);
    }
  }

  lemma FarApart(loads: seq<Load>, ttl: Time, i: nat, j: nat)
    requires Spaced(loads, ttl) && ttl >= 0 && i < j < |loads|
    requires forall k :: 0 <= k < |loads| ==> loads[k].start <= loads[k].storedAt
    ensures loads[i].storedAt + ttl <= loads[j].start <= loads[j].storedAt
  {
    StartsSpread(loads, ttl, i + 1, j);
    assert 0 <= (j - (i + 1)) * ttl;
    assert loads[i + 1].start - loads[i].storedAt >= ttl;
  }

  /** Successive starts are at least the time to live apart. */
  lemma {:induction false} StartsSpread(loads: seq<Load>, ttl: Time, i: nat, j: nat)
    requires Spaced(loads, ttl) && ttl >= 0 && i <= j < |loads|
    requires forall k :: 0 <= k < |loads| ==> loads[k].start <= loads[k].storedAt
    ensures loads[j].start >= loads[i].start + (j - i) * ttl
    ensures loads[j].storedAt >= loads[i].start
    decreases j - i
  {
    if i < j {
      StartsSpread(loads, ttl, i, j - 1);
      assert loads[j - 1 + 1].start - loads[j - 1].storedAt >= ttl;
      assert (j - i) * ttl == (j - 1 - i) * ttl + ttl;
    }
  }

  ghost function StartedWithin(loads: seq<Load>, from: Time, width: Time): set<nat> {
    set i: nat | i < |loads| && from <= loads[i].start <= from + width
  }

  /** However many callers ask, at most width / ttl + 1 loads that succeed start in a window. */
  lemma LoadsBounded(events: seq<Event>, ttl: Time, now: Time, from: Time, width: nat)
    requires InOrder(events) && ttl > 0 && forall e :: e in events ==> e.at <= now
    ensures |StartedWithin(Run(events, ttl).loads, from, width)| <= width / ttl + 1
  {
    RunKeepsInv(events, ttl, now);
    var loads := Run(events, ttl).loads;
    var started := StartedWithin(loads, from, width);
    if started != {} {
      var i := Least(started);
      forall j | j in started ensures j <= i + width / ttl {
        StartsSpread(loads, ttl, i, j);
        Quotient(j - i, ttl, width);
      }
      RangeSize(started, i, i + width / ttl + 1);
    }
  }

  lemma Quotient(n: nat, d: int, width: nat)
    requires d > 0 && n * d <= width
    ensures n <= width / d
  {
    var q := width / d;
    assert width < (q + 1) * d;
    if n >= q + 1 {
      Multiplied(q + 1, n, d);
    }
  }

  lemma Multiplied(a: int, b: int, d: int)
    requires a <= b && d > 0
    ensures a * d <= b * d
  {
    assert (b - a) * d >= 0;
  }

  lemma {:induction false} Least(s: set<nat>) returns (least: nat)
    requires s != {}
    ensures least in s && forall j :: j in s ==> least <= j
    decreases s
  {
    var x :| x in s;
    var rest := s - {x};
    if rest == {} {
      assert s == {x};
      least := x;
    } else {
      var i := Least(rest);
      least := if x < i then x else i;
      assert forall j :: j in s ==> j == x || j in rest;
    }
  }

  lemma {:induction false} RangeSize(s: set<nat>, lo: nat, hi: nat)
    requires lo <= hi && forall k :: k in s ==> lo <= k < hi
    ensures |s| <= hi - lo
    decreases hi - lo
  {
    if lo < hi {
      RangeSize(s - {lo}, lo + 1, hi);
      assert |s| <= |s - {lo}| + 1;
    }
  }
}
