/**
 The state a replication is in, from what the two servers report and what the
 previous pass recorded.
 */
module Health {
  import opened Wrappers
  import opened Catalog

  datatype State = Initializing | Streaming | Lagging | Stalled | SlotLost | Disabled

  /** The slot, read on the source. A figure the server could not give is absent. */
  datatype SlotHealth = SlotHealth(active: bool, lost: bool, lag: Option<int>, retained: Option<int>)

  datatype SubscriptionHealth = SubscriptionHealth(workerRunning: bool, applyErrors: int, syncErrors: int)

  /** `tables` says of each subscribed table whether it is ready. */
  datatype Observation = Observation(
    slot: Option<SlotHealth>, subscription: Option<SubscriptionHealth>, tables: map<Name, bool>)

  /** Thresholds: bytes, bytes and seconds. The spec refuses any that is not positive. */
  datatype Alerting = Alerting(maxLag: int, maxRetained: int, maxInactive: int) {
    predicate Valid() {
      maxLag > 0 && maxRetained > 0 && maxInactive > 0
    }
  }

  /** The part of `status.health` that later passes read. `inactiveSince` is in whole seconds. */
  datatype Recorded = Recorded(inactiveSince: Option<int>, applyErrors: Option<int>, syncErrors: Option<int>)

  const NOTHING := Recorded(None, None, None)

  /** An observation with the moment it was made, in microseconds, and the spec it is judged by. */
  datatype Sighting = Sighting(seen: Observation, now: int, enabled: bool, alerting: Alerting)

  datatype Assessment = Assessment(state: State, health: Recorded)

  const SECOND := 1_000_000

  /** The moment written as a status stamp, which has no fraction of a second. */
  function Stamp(now: int): int {
    now / SECOND
  }

  predicate Inactive(o: Observation) {
    o.slot.Some? && !o.slot.value.active
  }

  function RecordedBy(s: Sighting, previous: Recorded): Recorded {
    Recorded(
      if !Inactive(s.seen) then None
      else if previous.inactiveSince.Some? then previous.inactiveSince
      else Some(Stamp(s.now)),
      if s.seen.subscription.Some? then Some(s.seen.subscription.value.applyErrors) else None,
      if s.seen.subscription.Some? then Some(s.seen.subscription.value.syncErrors) else None)
  }

  // ------------------------------------------------------------- what counts

  predicate LostSlot(o: Observation) {
    o.slot.None? || o.slot.value.lost
  }

  predicate WorkerStopped(o: Observation) {
    o.subscription.Some? && !o.subscription.value.workerRunning
  }

  predicate InactiveTooLong(s: Sighting, health: Recorded) {
    health.inactiveSince.Some? && s.now - health.inactiveSince.value * SECOND > s.alerting.maxInactive * SECOND
  }

  predicate Rose(before: Option<int>, after: Option<int>) {
    before.Some? && after.Some? && after.value > before.value
  }

  predicate Stalls(s: Sighting, previous: Recorded) {
    var health := RecordedBy(s, previous);
    || WorkerStopped(s.seen)
    || InactiveTooLong(s, health)
    || Rose(previous.applyErrors, health.applyErrors)
    || Rose(previous.syncErrors, health.syncErrors)
  }

  /** Over its threshold, or over four fifths of it for a replication already lagging. */
  predicate Over(value: Option<int>, limit: int, lagging: bool) {
    value.Some? && if lagging then value.value * 10 > limit * 8 else value.value > limit
  }

  predicate OverEither(s: Sighting, lagging: bool)
    requires s.seen.slot.Some?
  {
    || Over(s.seen.slot.value.lag, s.alerting.maxLag, lagging)
    || Over(s.seen.slot.value.retained, s.alerting.maxRetained, lagging)
  }

  predicate Copying(o: Observation) {
    exists n :: n in o.tables && !o.tables[n]
  }

  /** The state, by precedence: the worst that applies. */
  function StateOf(s: Sighting, previous: Recorded, previousState: Option<State>): State {
    if LostSlot(s.seen) then SlotLost
    else if !s.enabled then Disabled
    else if Stalls(s, previous) then Stalled
    else if OverEither(s, previousState == Some(Lagging)) then Lagging
    else if Copying(s.seen) then Initializing
    else Streaming
  }

  // ------------------------------------------------ what each state stands for

  /** The slot is there and can still be followed. */
  predicate LiveSlot(o: Observation) {
    o.slot.Some? && !o.slot.value.lost
  }

  /** When the slot was first seen without a consumer, in microseconds. */
  function IdleFrom(s: Sighting, previous: Recorded): int {
    if previous.inactiveSince.Some? then previous.inactiveSince.value * 1_000_000 else s.now - s.now % 1_000_000
  }

  /** One of the four causes, in the figures read now and those on record. */
  predicate HeldUp(s: Sighting, previous: Recorded)
    requires s.seen.slot.Some?
  {
    || (!s.seen.slot.value.active && s.now > IdleFrom(s, previous) + s.alerting.maxInactive * 1_000_000)
    || (s.seen.subscription.Some? &&
          var sub := s.seen.subscription.value;
          || !sub.workerRunning
          || (previous.applyErrors.Some? && previous.applyErrors.value < sub.applyErrors)
          || (previous.syncErrors.Some? && previous.syncErrors.value < sub.syncErrors))
  }

  /** A figure that was read exceeds its threshold, or four fifths of it where lagging was the last state. */
  predicate Behind(s: Sighting, previousState: Option<State>)
    requires s.seen.slot.Some?
  {
    var slot, fifths := s.seen.slot.value, if previousState == Some(Lagging) then 4 else 5;
    || (slot.lag.Some? && 5 * slot.lag.value > fifths * s.alerting.maxLag)
    || (slot.retained.Some? && 5 * slot.retained.value > fifths * s.alerting.maxRetained)
  }

  /**
   Each state, by what has been read: a lost slot comes before anything, being
   switched off before all else, and a table still copying last of all.
   */
  lemma StatesIff(s: Sighting, previous: Recorded, previousState: Option<State>)
    ensures var state, live := StateOf(s, previous, previousState), LiveSlot(s.seen);
      && (state == SlotLost <==> !live)
      && (state == Disabled <==> live && !s.enabled)
      && (state == Stalled <==> live && s.enabled && HeldUp(s, previous))
      && (state == Lagging <==> live && s.enabled && !HeldUp(s, previous) && Behind(s, previousState))
      && (state == Initializing <==> (live && s.enabled && !HeldUp(s, previous) && !Behind(s, previousState)
            && exists n :: n in s.seen.tables && !s.seen.tables[n]))
      && (state == Streaming <==> (live && s.enabled && !HeldUp(s, previous) && !Behind(s, previousState)
            && forall n :: n in s.seen.tables ==> s.seen.tables[n]))
  {
  }

  // ---------------------------------------------------------------- the pass

  datatype Cause = NoWorker | NoConsumer | ApplyErrorsRose | SyncErrorsRose

  /** Decides the state, worst first, and says what stalled it. */
  method Assess(s: Sighting, previous: Recorded, previousState: Option<State>)
    returns (a: Assessment, stalls: seq<Cause>)
    ensures a == Assessment(StateOf(s, previous, previousState), RecordedBy(s, previous))
    ensures a.state == Stalled <==> stalls != []
    ensures a.state == Stalled ==>
      && (NoWorker in stalls <==> WorkerStopped(s.seen))
      && (NoConsumer in stalls <==> InactiveTooLong(s, a.health))
      && (ApplyErrorsRose in stalls <==> Rose(previous.applyErrors, a.health.applyErrors))
      && (SyncErrorsRose in stalls <==> Rose(previous.syncErrors, a.health.syncErrors))
  {
    stalls := [];
    var health := RecordedBy(s, previous);
    if s.seen.slot.None? || s.seen.slot.value.lost {
      return Assessment(SlotLost, health), [];
    }
    var slot := s.seen.slot.value;
    if !s.enabled {
      return Assessment(Disabled, health), [];
    }
    if s.seen.subscription.Some? && !s.seen.subscription.value.workerRunning {
      stalls := stalls + [NoWorker];
    }
    if health.inactiveSince.Some? && s.now - health.inactiveSince.value * SECOND > s.alerting.maxInactive * SECOND {
      stalls := stalls + [NoConsumer];
    }
    var kinds := [(ApplyErrorsRose, previous.applyErrors, health.applyErrors),
                  (SyncErrorsRose, previous.syncErrors, health.syncErrors)];
    ghost var first := stalls;
    assert NoWorker in first <==> WorkerStopped(s.seen);
    assert NoConsumer in first <==> InactiveTooLong(s, health);
    for k := 0 to |kinds|
      invariant forall cause :: cause in stalls <==>
        cause in first || exists j :: 0 <= j < k && kinds[j].0 == cause && Rose(kinds[j].1, kinds[j].2)
    {
      var (cause, before, after) := kinds[k];
      if before.Some? && after.Some? && after.value > before.value {
        stalls := stalls + [cause];
      }
    }
    assert ApplyErrorsRose in stalls <==> Rose(kinds[0].1, kinds[0].2);
    assert SyncErrorsRose in stalls <==> Rose(kinds[1].1, kinds[1].2);
    if stalls != [] {
      assert stalls[0] in stalls;
      return Assessment(Stalled, health), stalls;
    }
    assert !Stalls(s, previous) by {
      assert NoWorker !in stalls && NoConsumer !in stalls && ApplyErrorsRose !in stalls && SyncErrorsRose !in stalls;
    }
    var lagging := previousState == Some(Lagging);
    var over := false;
    var figures := [(slot.lag, s.alerting.maxLag), (slot.retained, s.alerting.maxRetained)];
    for k := 0 to |figures|
      invariant over <==> exists j :: 0 <= j < k && Over(figures[j].0, figures[j].1, lagging)
    {
      over := over || Over(figures[k].0, figures[k].1, lagging);
    }
    assert over <==> OverEither(s, lagging) by {
      assert over <==> Over(figures[0].0, figures[0].1, lagging) || Over(figures[1].0, figures[1].1, lagging);
    }
    if over {
      return Assessment(Lagging, health), [];
    }
    var copying := exists n :: n in s.seen.tables && !s.seen.tables[n];
    a := Assessment(if copying then Initializing else Streaming, health);
  }
}
