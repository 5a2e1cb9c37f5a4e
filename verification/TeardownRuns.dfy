/**
 Sequences of teardown attempts: what they keep safe, what the one that
 returns leaves, and where the names by which slots are found reach too far.
 */
module TeardownRuns {
  import opened Wrappers
  import opened Teardown

  /** Attempts one after another with the same record, each failing or succeeding as it may. */
  ghost predicate Attempts(states: seq<State>, st: Status, system: nat) {
    |states| > 0 && forall i :: 0 <= i < |states| - 1 ==> Within(states[i], st, system, states[i + 1])
  }

  lemma {:induction false} AttemptsStayWithin(states: seq<State>, st: Status, system: nat)
    requires Attempts(states, st, system)
    ensures Within(states[0], st, system, states[|states| - 1])
  {
    if |states| > 1 {
      var k := |states| - 1;
      AttemptsStayWithin(states[..k], st, system);
      assert Within(states[k - 1], st, system, states[k - 1 + 1]);
      Transitive(states[0], states[k - 1], states[k], st, system);
    }
  }

  predicate IsSlotOfRecorded(a: State, st: Status, name: string) {
    st.created.subscription && st.subscription in a.subscriptions && a.subscriptions[st.subscription].slot == Some(name)
  }

  /**
   However many attempts, failing in whatever way: another replication's
   subscription, publication and slot, a provided login, every membership the
   operator did not grant it, and a Secret the operator did not make stay.
   */
  lemma WhatIsNotRecordedStays(states: seq<State>, st: Status, system: nat)
    requires Attempts(states, st, system)
    ensures var a, b := states[0], states[|states| - 1];
      && (forall k :: k in a.subscriptions && k != st.subscription ==>
            k in b.subscriptions && b.subscriptions[k] == a.subscriptions[k])
      && (forall p :: p in a.publications && p != st.publication ==> p in b.publications)
      && (!st.created.login ==> b.roles == a.roles)
      && (forall m :: m in a.memberships && m.member != st.login ==> m in b.memberships)
      && (!st.created.login ==> forall m :: m in a.memberships && m.group !in st.granted ==> m in b.memberships)
      && (!st.created.secret ==> b.secrets == a.secrets)
      && (!MayHaveSlots(st) ==> b.slots == a.slots)
      && (forall name :: Main(name) in a.slots && name != st.slot && !IsSlotOfRecorded(a, st, name) ==>
            Main(name) in b.slots)
      && (NothingRecorded(st) ==> a.subscriptions == b.subscriptions && a == b)
  {
    AttemptsStayWithin(states, st, system);
    var a, b := states[0], states[|states| - 1];
    forall m | m in a.memberships && m !in b.memberships ensures MembershipMayGo(st, m) {
    }
    forall slot | slot in a.slots && slot !in b.slots ensures SlotMayGo(a, st, system, slot) {
    }
    if NothingRecorded(st) {
      assert forall k :: k in a.subscriptions ==> k in b.subscriptions && b.subscriptions[k] == a.subscriptions[k];
      assert a.subscriptions == b.subscriptions;
      assert a.memberships == b.memberships;
    }
  }

  /** A role that is not there is nobody's member. */
  ghost predicate WellFormed(s: State) {
    forall m :: m in s.memberships ==> m.member in s.roles
  }

  /** What is cleared stays cleared, so what one attempt did another need not. */
  lemma StaysCleared(st: Status, system: nat, targetGone: bool, sourceGone: bool, a: State, b: State)
    requires Cleared(st, targetGone, sourceGone, a) && Within(a, st, system, b)
    ensures Cleared(st, targetGone, sourceGone, b)
  {
  }

  /** Once everything recorded is gone, a further attempt changes nothing. */
  lemma Idempotent(st: Status, system: nat, a: State, b: State)
    requires WellFormed(a) && Cleared(st, false, false, a) && Within(a, st, system, b)
    ensures b == a
  {
    forall slot ensures !SlotMayGo(a, st, system, slot) || slot !in a.slots {
    }
    assert b.slots == a.slots;
    forall m | m in a.memberships ensures m in b.memberships {
      assert m.member in a.roles;
      assert !MembershipMayGo(st, m);
    }
    assert b.memberships == a.memberships;
    assert b.subscriptions == a.subscriptions by {
      assert forall k :: k in a.subscriptions ==> k in b.subscriptions && b.subscriptions[k] == a.subscriptions[k];
    }
  }

  /**
   Any sequence whose last attempt returned has removed exactly what was
   recorded on each server that still exists, and the Secret in any case; on
   one that is gone, nothing else.
   */
  lemma ReturnedRemovesExactlyTheRecorded(
    states: seq<State>, st: Status, system: nat, targetGone: bool, sourceGone: bool)
    requires Attempts(states, st, system) && Cleared(st, targetGone, sourceGone, states[|states| - 1])
    requires !NothingRecorded(st)
    ensures var a, b := states[0], states[|states| - 1];
      && RemovedFrom(a.subscriptions.Keys, b.subscriptions.Keys, st.created.subscription, st.subscription, targetGone)
      && RemovedFrom(a.publications, b.publications, st.created.publication, st.publication, sourceGone)
      && RemovedFrom(a.roles, b.roles, st.created.login, st.login, sourceGone)
      && RemovedFrom(a.secrets, b.secrets, st.created.secret, st.secret, false)
  {
    AttemptsStayWithin(states, st, system);
  }

  /** What is recorded has gone, or, where the server has, may have; and nothing else. */
  predicate RemovedFrom<T(==)>(before: set<T>, after: set<T>, created: bool, recorded: T, gone: bool) {
    var own := if created then {recorded} else {};
    before - own <= after <= before && (!gone ==> after == before - own)
  }

  // ------------------------------------------------------- whose slots are found

  /** A slot of a table being synchronised into some other server. */
  predicate ElsewhereBound(slot: Slot, system: nat) {
    slot.Sync? && slot.system != system
  }

  /**
   The table-synchronisation slots of other targets survive a teardown exactly
   when none was made for a subscription numbered like the one torn down: the
   names are matched on that number and not on the target's identifier.
   */
  lemma OthersSyncSlotsSurviveIff(st: Status, system: nat, a: State, b: State)
    requires Within(a, st, system, b) && Cleared(st, false, false, b) && MayHaveSlots(st)
    ensures (forall slot :: slot in a.slots && ElsewhereBound(slot, system) ==> slot in b.slots)
       <==> !(exists slot :: slot in a.slots && ElsewhereBound(slot, system) && st.oid == Some(slot.oid))
  {
    forall slot | slot in a.slots && ElsewhereBound(slot, system)
      ensures slot in b.slots <==> st.oid != Some(slot.oid)
    {
      if slot !in b.slots {
        assert SlotMayGo(a, st, system, slot);
      }
    }
  }

  function Replication(subscription: InDatabase): Status {
    Status(Created(false, false, false, true, true), {}, subscription, Some(16400), subscription, "mine", "login", "secret")
  }

  function OnTheServers(subscription: InDatabase, slots: set<Slot>): State {
    State(map[subscription := Subscription(16400, Some("mine"))], slots, {}, {}, {}, {})
  }

  /** Two targets, one source, and a number used on both: one's teardown takes the other's slot. */
  lemma AnothersSyncSlotIsTaken(key: InDatabase)
    ensures var st := Replication(key);
            var a := OnTheServers(key, {Main("mine"), Sync(16400, 1, 2)});
            var b := State(map[], {}, {}, {}, {}, {});
      Within(a, st, 1, b) && Cleared(st, false, false, b) && ElsewhereBound(Sync(16400, 1, 2), 1)
  {
    var st, a := Replication(key), OnTheServers(key, {Main("mine"), Sync(16400, 1, 2)});
    var b := State(map[], {}, {}, {}, {}, {});
    forall slot | slot in a.slots ensures SlotMayGo(a, st, 1, slot) {
      assert Found(st, slot);
    }
    assert SlotsWithin(a, st, 1, b);
  }

  // ------------------------------------------------------ what the record lacks

  /**
   A login the record says was created, without its name, outlives every
   attempt, including one that returns; it goes exactly if it is named.
   */
  lemma NamelessLoginSurvives(states: seq<State>, st: Status, system: nat, role: string)
    requires Attempts(states, st, system) && role in states[0].roles && st.created.login
    ensures st.login != role ==> role in states[|states| - 1].roles
    ensures st.login == role && Cleared(st, false, false, states[|states| - 1]) ==> role !in states[|states| - 1].roles
  {
    AttemptsStayWithin(states, st, system);
  }

  /** Without the subscription's number, the slots of its tables outlive it once it is gone. */
  lemma UnnumberedSyncSlotsStay(states: seq<State>, st: Status, system: nat)
    requires Attempts(states, st, system) && st.oid.None? && st.subscription !in states[0].subscriptions
    ensures forall slot :: slot in states[0].slots && slot.Sync? ==> slot in states[|states| - 1].slots
  {
    AttemptsStayWithin(states, st, system);
    var a, b := states[0], states[|states| - 1];
    forall slot | slot in a.slots && slot.Sync? ensures slot in b.slots {
      assert !SlotMayGo(a, st, system, slot);
    }
  }
}
