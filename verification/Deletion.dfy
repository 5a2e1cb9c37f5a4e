/**
 The whole life of a replication: passes interrupted anywhere, then deletion.
 What teardown leaves behind is exactly what no pass had recorded.
 */
module Deletion {
  import L = Lifecycle
  import R = LifecycleRuns
  import T = Teardown
  import TR = TeardownRuns

  /** What a replication's objects are called. */
  datatype Names = Names(
    publication: T.InDatabase, subscription: T.InDatabase, slot: string, secret: string, system: nat)

  /** The record as teardown reads it. */
  function Read(s: L.Status, names: Names): T.Status {
    T.Status(
      T.Created(s.created.publication, s.created.login, s.created.secret, s.created.slot, s.created.subscription),
      s.granted, names.subscription, s.oid, names.publication, names.slot, s.login, names.secret)
  }

  /** Whether the object is on the servers, among whatever else is. */
  predicate Stands(c: L.Config, names: Names, x: L.Thing, s: T.State) {
    match x
    case ThePublication => names.publication in s.publications
    case TheLogin => c.login in s.roles
    case TheSecret => names.secret in s.secrets
    case TheSlot => T.Main(names.slot) in s.slots
    case TheSubscription => names.subscription in s.subscriptions
    case TheGrant(group) => c.login in s.roles && T.Membership(c.login, group) in s.memberships
  }

  /** Teardown meets what the passes made. */
  ghost predicate Meets(c: L.Config, names: Names, w: L.World, s: T.State) {
    forall x :: L.MadeByOperator(c, w, x) ==> Stands(c, names, x, s)
  }

  ghost predicate Deleted(c: L.Config, names: Names, w: L.World, states: seq<T.State>) {
    && TR.Attempts(states, Read(w.status, names), names.system)
    && Meets(c, names, w, states[0])
    && T.Cleared(Read(w.status, names), false, false, states[|states| - 1])
  }

  /**
   However many attempts it took, with both servers still there: of what the
   operator made, teardown leaves exactly what is on no record.
   */
  lemma TeardownLeavesTheUnrecorded(c: L.Config, names: Names, w: L.World, states: seq<T.State>, x: L.Thing)
    requires L.WellFormed(c, w) && Deleted(c, names, w, states) && L.MadeByOperator(c, w, x)
    ensures Stands(c, names, x, states[|states| - 1]) <==> L.Unrecorded(c, w, x)
  {
    var st := Read(w.status, names);
    var a, b := states[0], states[|states| - 1];
    TR.AttemptsStayWithin(states, st, names.system);
    match x
    case TheSlot =>
      assert T.Found(st, T.Main(names.slot));
      if !L.Known(c, w.status, x) {
        assert !T.SlotMayGo(a, st, names.system, T.Main(names.slot));
      }
    case TheGrant(group) =>
      var m := T.Membership(c.login, group);
      assert T.MembershipMayGo(st, m) <==> L.Known(c, w.status, x);
    case _ =>
  }

  /**
   Deleted after interrupted passes, a replication leaves the objects of at most
   one stage for each, and of the login once more if one of them lost its record.
   */
  lemma OneStageLeftPerStop(c: L.Config, names: Names, first: L.World, stops: seq<nat>, states: seq<T.State>)
    returns (stages: seq<L.Stage>)
    requires L.WellFormed(c, first)
    requires forall x :: !L.Unrecorded(c, first, x)
    requires Deleted(c, names, R.AfterStops(c, first, stops), states)
    ensures |stages| == |stops| + if R.LosesOnTheWay(c, first, stops) then 1 else 0
    ensures forall x ::
      L.MadeByOperator(c, R.AfterStops(c, first, stops), x) && Stands(c, names, x, states[|states| - 1])
      ==> exists i :: 0 <= i < |stages| && L.MadeIn(stages[i], x)
  {
    var w := R.AfterStops(c, first, stops);
    R.StaysFormed(c, first, stops);
    stages := R.OneStagePerStop(c, first, stops);
    forall x | L.MadeByOperator(c, w, x) && Stands(c, names, x, states[|states| - 1])
      ensures exists i :: 0 <= i < |stages| && L.MadeIn(stages[i], x)
    {
      TeardownLeavesTheUnrecorded(c, names, w, states, x);
    }
  }

  /** Deleted once a pass has completed, with a login of the operator's own, it leaves nothing. */
  lemma NothingLeft(c: L.Config, names: Names, first: L.World, stops: seq<nat>, states: seq<T.State>, x: L.Thing)
    requires L.WellFormed(c, first) && !c.provided
    requires R.Startable(c, R.AfterStops(c, first, stops))
    requires Deleted(c, names, R.AfterStops(c, first, stops + [R.WHOLE_PASS]), states)
    ensures L.MadeByOperator(c, R.AfterStops(c, first, stops + [R.WHOLE_PASS]), x) ==>
              !Stands(c, names, x, states[|states| - 1])
  {
    var w := R.AfterStops(c, first, stops + [R.WHOLE_PASS]);
    R.StaysFormed(c, first, stops + [R.WHOLE_PASS]);
    R.CompletionRecovers(c, first, stops, x);
    if L.MadeByOperator(c, w, x) {
      TeardownLeavesTheUnrecorded(c, names, w, states, x);
    }
  }
}
