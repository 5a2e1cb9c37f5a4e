/**
 Health over a run of passes: how long a slot has been without a consumer, and
 how often a replication can fall back into lagging.
 */
module HealthRuns {
  import opened Wrappers
  import opened Health

  /** What status holds after a run of recorded observations. */
  datatype Status = Status(state: Option<State>, health: Recorded)

  function After(run: seq<Sighting>): Status {
    if run == [] then Status(None, NOTHING)
    else
      var before, s := After(run[..|run| - 1]), run[|run| - 1];
      Status(Some(StateOf(s, before.health, before.state)), RecordedBy(s, before.health))
  }

  // -------------------------------------------------------------- inactivity

  /** The first observation of the unbroken run of inactive ones that the run ends with. */
  ghost predicate InactiveSince(run: seq<Sighting>, first: nat) {
    && first < |run|
    && (forall k :: first <= k < |run| ==> Inactive(run[k].seen))
    && (first > 0 ==> !Inactive(run[first - 1].seen))
  }

  /** The stamp is that of the first observation without a consumer since there last was one. */
  lemma {:induction false} StampIsOfFirst(run: seq<Sighting>)
    ensures After(run).health.inactiveSince.Some? <==> run != [] && Inactive(run[|run| - 1].seen)
    ensures forall first: nat :: InactiveSince(run, first) ==>
      After(run).health.inactiveSince == Some(Stamp(run[first].now))
  {
    if run != [] {
      var before := run[..|run| - 1];
      StampIsOfFirst(before);
      forall first: nat | InactiveSince(run, first)
        ensures After(run).health.inactiveSince == Some(Stamp(run[first].now))
      {
        if first < |before| {
          assert InactiveSince(before, first);
          assert before[first] == run[first];
          assert Inactive(before[|before| - 1].seen);
        } else if before != [] {
          assert !Inactive(before[|before| - 1].seen);
        }
      }
    }
  }

  /**
   Exactly when a slot without a consumer is reported: the time since its first
   observation, rounded down to a whole second, exceeds the threshold. The
   rounding can only make the report early, and by less than a second.
   */
  lemma ReportedWhen(run: seq<Sighting>, first: nat)
    requires InactiveSince(run, first)
    ensures var last := run[|run| - 1];
      var elapsed, limit := last.now - run[first].now, last.alerting.maxInactive * SECOND;
      && (InactiveTooLong(last, After(run).health) <==> elapsed + run[first].now % SECOND > limit)
      && (elapsed > limit ==> InactiveTooLong(last, After(run).health))
      && (InactiveTooLong(last, After(run).health) ==> elapsed > limit - SECOND)
  {
    StampIsOfFirst(run);
  }

  /** So on an enabled replication with a live slot it stalls. */
  lemma StallsWhenInactive(run: seq<Sighting>, first: nat)
    requires InactiveSince(run, first)
    requires run[|run| - 1].enabled && !LostSlot(run[|run| - 1].seen)
    requires var last := run[|run| - 1];
      last.now - run[first].now > last.alerting.maxInactive * SECOND
    ensures After(run).state == Some(Stalled)
  {
    ReportedWhen(run, first);
  }

  /** A slot first seen idle late in a second is reported before the threshold has passed. */
  lemma ReportedEarly() returns (run: seq<Sighting>)
    ensures InactiveSince(run, 0) && |run| == 2 && run[1].alerting.Valid()
    ensures run[1].now - run[0].now < run[1].alerting.maxInactive * SECOND
    ensures InactiveTooLong(run[1], After(run).health)
  {
    var idle := Observation(Some(SlotHealth(false, false, None, None)), None, map[]);
    var alerting := Alerting(1, 1, 600);
    run := [Sighting(idle, 900_000, true, alerting), Sighting(idle, 600_500_000, true, alerting)];
    ReportedWhen(run, 0);
  }

  /** A replication whose counters have risen since the sighting before is stalled, as long as both could be read. */
  lemma ErrorsSinceTheLast(run: seq<Sighting>)
    requires |run| >= 2
    requires run[|run| - 2].seen.subscription.Some? && run[|run| - 1].seen.subscription.Some?
    ensures var last, before := run[|run| - 1], run[|run| - 2];
      var was, now := before.seen.subscription.value, last.seen.subscription.value;
      last.enabled && LiveSlot(last.seen) && (now.applyErrors > was.applyErrors || now.syncErrors > was.syncErrors)
      ==> After(run).state == Some(Stalled)
    ensures var last, before := run[|run| - 1], run[|run| - 2];
      var was, now := before.seen.subscription.value, last.seen.subscription.value;
      After(run).state == Some(Stalled) && last.seen.slot.value.active && now.workerRunning
      ==> now.applyErrors > was.applyErrors || now.syncErrors > was.syncErrors
  {
    var before := run[..|run| - 1];
    assert before[|before| - 1] == run[|run| - 2];
    StatesIff(run[|run| - 1], After(before).health, After(before).state);
  }

  // -------------------------------------------------------------- hysteresis

  /** Enabled and unstalled throughout, with both figures read and one set of thresholds. */
  ghost predicate Measured(run: seq<Sighting>) {
    forall k :: 0 <= k < |run| ==>
      && run[k].enabled && !LostSlot(run[k].seen)
      && run[k].seen.slot.value.lag.Some? && run[k].seen.slot.value.retained.Some?
      && !Stalls(run[k], After(run[..k]).health)
      && run[k].alerting == run[0].alerting && run[k].alerting.Valid()
  }

  ghost predicate IsLagging(run: seq<Sighting>) {
    After(run).state == Some(Lagging)
  }

  ghost predicate HasLagged(run: seq<Sighting>) {
    run != [] && (IsLagging(run) || HasLagged(run[..|run| - 1]))
  }

  /** How often the run falls back into lagging after having left it. */
  ghost function Reentries(run: seq<Sighting>): nat {
    if run == [] then 0
    else
      var before := run[..|run| - 1];
      Reentries(before) + if IsLagging(run) && !IsLagging(before) && HasLagged(before) then 1 else 0
  }

  /** A figure as a share of its threshold. */
  ghost function Share(value: int, limit: int): real
    requires limit > 0
  {
    value as real / limit as real
  }

  ghost function LagShare(s: Sighting): real
    requires s.seen.slot.Some? && s.seen.slot.value.lag.Some? && s.alerting.Valid()
  {
    Share(s.seen.slot.value.lag.value, s.alerting.maxLag)
  }

  ghost function RetainedShare(s: Sighting): real
    requires s.seen.slot.Some? && s.seen.slot.value.retained.Some? && s.alerting.Valid()
  {
    Share(s.seen.slot.value.retained.value, s.alerting.maxRetained)
  }

  ghost function Positive(r: real): real {
    if r > 0.0 then r else 0.0
  }

  /** How far the figures rose over the run, each as a share of its threshold: upward moves only. */
  ghost function Rise(run: seq<Sighting>): real
    requires Measured(run)
  {
    if |run| < 2 then 0.0
    else
      PrefixMeasured(run);
      var s, s' := run[|run| - 2], run[|run| - 1];
      Rise(run[..|run| - 1]) + Positive(LagShare(s') - LagShare(s)) + Positive(RetainedShare(s') - RetainedShare(s))
  }

  lemma PrefixMeasured(run: seq<Sighting>)
    requires Measured(run) && run != []
    ensures Measured(run[..|run| - 1])
  {
    var before := run[..|run| - 1];
    forall k | 0 <= k < |before| ensures before[..k] == run[..k] {
    }
  }

  lemma ShareCompares(value: int, limit: int)
    requires limit > 0
    ensures value > limit <==> Share(value, limit) > 1.0
    ensures value * 10 > limit * 8 <==> Share(value, limit) > 0.8
  {
    RatioCompares(value as real, limit as real, 1.0);
    RatioCompares(value as real, limit as real, 0.8);
  }

  lemma RatioCompares(v: real, scale: real, bar: real)
    requires scale > 0.0
    ensures v / scale > bar <==> v > bar * scale
  {
    var ratio := v / scale;
    assert ratio * scale == v;
    Ordered(ratio, bar, scale);
    Ordered(bar, ratio, scale);
  }

  lemma Ordered(x: real, y: real, scale: real)
    requires scale > 0.0
    ensures x <= y ==> x * scale <= y * scale
    ensures x < y ==> x * scale < y * scale
  {
    var gap := y - x;
    assert y * scale == x * scale + gap * scale;
    if gap > 0.0 {
      assert gap * scale > 0.0;
    }
  }

  /** Over a measured run the state is lagging exactly as the shares say. */
  lemma LaggingByShares(run: seq<Sighting>)
    requires Measured(run) && run != []
    ensures var s, bar := run[|run| - 1], if IsLagging(run[..|run| - 1]) then 0.8 else 1.0;
      IsLagging(run) <==> LagShare(s) > bar || RetainedShare(s) > bar
  {
    var s := run[|run| - 1];
    ShareCompares(s.seen.slot.value.lag.value, s.alerting.maxLag);
    ShareCompares(s.seen.slot.value.retained.value, s.alerting.maxRetained);
  }

  /** How far the last figures stand above the level at which lagging ends. */
  ghost function Uncharged(run: seq<Sighting>): real
    requires Measured(run) && run != []
  {
    var s := run[|run| - 1];
    if IsLagging(run) then 0.0 else Positive(LagShare(s) - 0.8) + Positive(RetainedShare(s) - 0.8)
  }

  /** One observation's rise pays for what it leaves uncharged, and for the re-entry if it is one. */
  lemma RiseOfOne(run: seq<Sighting>)
    requires Measured(run) && |run| >= 2
    requires Measured(run[..|run| - 1])
    ensures var before, rise := run[..|run| - 1], Rise(run) - Rise(run[..|run| - 1]);
      && rise >= 0.0
      && Uncharged(run) <= Uncharged(before) + rise
      && (IsLagging(run) && !IsLagging(before) ==> 0.2 <= Uncharged(before) + rise)
  {
    var before, s, s' := run[..|run| - 1], run[|run| - 2], run[|run| - 1];
    LaggingByShares(run);
    PrefixMeasured(run);
    LaggingByShares(before);
    assert before[|before| - 1] == s;
    var lag, retained := Positive(LagShare(s') - LagShare(s)), Positive(RetainedShare(s') - RetainedShare(s));
    assert Rise(run) == Rise(before) + lag + retained;
    assert Positive(LagShare(s') - 0.8) <= Positive(LagShare(s) - 0.8) + lag;
    assert Positive(RetainedShare(s') - 0.8) <= Positive(RetainedShare(s) - 0.8) + retained;
  }

  /** The rise a replication has spent since it last left lagging is not yet charged to a re-entry. */
  lemma {:induction false} RiseCovers(run: seq<Sighting>)
    requires Measured(run) && run != []
    ensures !HasLagged(run) ==> Reentries(run) == 0
    ensures Rise(run) >= 0.0
    ensures HasLagged(run) ==> Reentries(run) as real + 5.0 * Uncharged(run) <= 5.0 * Rise(run)
  {
    var before := run[..|run| - 1];
    if before != [] {
      PrefixMeasured(run);
      RiseCovers(before);
      RiseOfOne(run);
      assert Reentries(run) as real
          == Reentries(before) as real + if IsLagging(run) && !IsLagging(before) && HasLagged(before) then 1.0 else 0.0;
      if HasLagged(before) {
        assert Reentries(before) as real + 5.0 * Uncharged(before) <= 5.0 * Rise(before);
      }
    } else {
      assert !HasLagged(before) && Reentries(before) == 0;
    }
  }

  /**
   The bound: a replication re-enters lagging at most five times for every
   whole threshold's worth that its figures rise.
   */
  lemma ReentriesBounded(run: seq<Sighting>)
    requires Measured(run)
    ensures Reentries(run) as real <= 5.0 * Rise(run)
  {
    if run != [] {
      RiseCovers(run);
    }
  }

  predicate InBand(share: real) {
    0.8 < share <= 1.0
  }

  /**
   A figure between four fifths of its threshold and the threshold itself never
   changes the state: while it is there lagging does not end, and it begins only
   if the other figure is over its threshold.
   */
  lemma BandNeverToggles(run: seq<Sighting>)
    requires Measured(run) && run != []
    ensures var s, before := run[|run| - 1], run[..|run| - 1];
      && (InBand(LagShare(s)) || InBand(RetainedShare(s)) ==> IsLagging(before) ==> IsLagging(run))
      && (InBand(LagShare(s)) && IsLagging(run) && !IsLagging(before) ==> RetainedShare(s) > 1.0)
      && (InBand(RetainedShare(s)) && IsLagging(run) && !IsLagging(before) ==> LagShare(s) > 1.0)
      && (InBand(LagShare(s)) && InBand(RetainedShare(s)) ==> (IsLagging(run) <==> IsLagging(before)))
  {
    LaggingByShares(run);
  }

  const UNIT := Alerting(1, 1, 1)

  /** A live slot at twice its lag's threshold, when that can be read. */
  function AtTwice(lag: Option<int>): Sighting {
    Sighting(Observation(Some(SlotHealth(true, false, lag, Some(0))), None, map[]), 0, true, UNIT)
  }

  /**
   A figure that could not be read ends the lagging, so with one that comes and
   goes a replication re-enters as often as one likes while no figure ever
   rises: the bound needs every figure read.
   */
  lemma {:induction false} UnreadFigureTogglesFreely(n: nat) returns (run: seq<Sighting>)
    ensures Reentries(run) == n
    ensures forall s :: s in run ==> s == AtTwice(Some(2)) || s == AtTwice(None)
    ensures |run| == 2 * n + 1 && IsLagging(run)
  {
    var high, unread := AtTwice(Some(2)), AtTwice(None);
    if n == 0 {
      run := [high];
      assert [high][..0] == [];
    } else {
      var before := UnreadFigureTogglesFreely(n - 1);
      run := before + [unread] + [high];
      assert (before + [unread])[..|before|] == before && run[..|before| + 1] == before + [unread];
      assert !IsLagging(before + [unread]) && HasLagged(before);
    }
  }
}
