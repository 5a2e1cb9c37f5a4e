/**
 Removing what a replication created, from two servers that may each be gone,
 unreachable or failing, working from the status record alone.
 */
module Teardown {
  import opened Wrappers

  // ------------------------------------------------------------------- status

  /** Which kinds of object the status records as created. */
  datatype Created = Created(publication: bool, login: bool, secret: bool, slot: bool, subscription: bool)

  datatype InDatabase = InDatabase(database: string, name: string)

  datatype Status = Status(
    created: Created,
    granted: set<string>,        // memberships the operator gave the login
    subscription: InDatabase,
    oid: Option<nat>,            // the subscription's, once it exists
    publication: InDatabase,
    slot: string,
    login: string,               // empty when no name is recorded
    secret: string)

  predicate NothingRecorded(st: Status) {
    st.created == Created(false, false, false, false, false) && st.granted == {}
  }

  predicate MayHaveSlots(st: Status) {
    st.created.subscription || st.created.slot
  }

  // --------------------------------------------------------------- the servers

  /** A subscription's own slot, or one of a table being synchronised, named after three numbers. */
  datatype Slot = Main(name: string) | Sync(oid: nat, relation: nat, system: nat)

  datatype Subscription = Subscription(oid: nat, slot: Option<string>)

  datatype Membership = Membership(member: string, group: string)

  datatype State = State(
    subscriptions: map<InDatabase, Subscription>,  // on the target
    slots: set<Slot>,                              // the rest on the source
    publications: set<InDatabase>,
    roles: set<string>,
    memberships: set<Membership>,
    secrets: set<string>)                          // in Kubernetes

  /** The slots that are found by the recorded names. */
  predicate Found(st: Status, slot: Slot) {
    match slot
    case Main(name) => name == st.slot
    case Sync(oid, _, _) => st.oid == Some(oid)
  }

  /** The slots of a subscription, which dropping it takes along. */
  predicate SlotOf(sub: Subscription, system: nat, slot: Slot) {
    match slot
    case Main(name) => sub.slot == Some(name)
    case Sync(oid, _, sys) => sub.slot.Some? && oid == sub.oid && sys == system
  }

  // --------------------------------------- what an attempt may and must change

  /** The subscriptions: only the recorded one may go, or be detached from its slot. */
  ghost predicate SubscriptionsWithin(b: State, st: Status, a: State) {
    a.subscriptions.Keys <= b.subscriptions.Keys
    && forall key :: key in b.subscriptions ==>
         if key == st.subscription && st.created.subscription
         then key in a.subscriptions ==> Detached(b.subscriptions[key], a.subscriptions[key])
         else key in a.subscriptions && a.subscriptions[key] == b.subscriptions[key]
  }

  predicate Detached(before: Subscription, after: Subscription) {
    after.oid == before.oid && (after.slot == before.slot || after.slot.None?)
  }

  /** The slots that may go: those found by the recorded names, and those of the recorded subscription. */
  predicate SlotMayGo(b: State, st: Status, system: nat, slot: Slot) {
    (MayHaveSlots(st) && Found(st, slot))
    || WentWithSubscription(b, st, system, slot)
  }

  ghost predicate SlotsWithin(b: State, st: Status, system: nat, a: State) {
    a.slots <= b.slots && forall slot :: slot in b.slots && slot !in a.slots ==> SlotMayGo(b, st, system, slot)
  }

  predicate MembershipMayGo(st: Status, m: Membership) {
    m.member == st.login && (st.created.login || m.group in st.granted)
  }

  ghost predicate LoginsWithin(b: State, st: Status, a: State) {
    && a.roles <= b.roles && (forall r :: r in b.roles && r !in a.roles ==> st.created.login && r == st.login)
    && a.memberships <= b.memberships
    && forall m :: m in b.memberships && m !in a.memberships ==> MembershipMayGo(st, m)
  }

  ghost predicate PublicationsWithin(b: State, st: Status, a: State) {
    a.publications <= b.publications
    && forall p :: p in b.publications && p !in a.publications ==> st.created.publication && p == st.publication
  }

  ghost predicate SecretsWithin(b: State, st: Status, a: State) {
    a.secrets <= b.secrets
    && forall k :: k in b.secrets && k !in a.secrets ==> st.created.secret && k == st.secret
  }

  /** Only what is recorded as created may have gone. */
  ghost predicate Within(b: State, st: Status, system: nat, a: State) {
    && SubscriptionsWithin(b, st, a) && SlotsWithin(b, st, system, a)
    && PublicationsWithin(b, st, a) && LoginsWithin(b, st, a) && SecretsWithin(b, st, a)
  }

  ghost predicate TargetCleared(st: Status, a: State) {
    st.created.subscription ==> st.subscription !in a.subscriptions
  }

  ghost predicate SlotsCleared(st: Status, a: State) {
    MayHaveSlots(st) ==> forall slot :: slot in a.slots ==> !Found(st, slot)
  }

  ghost predicate SourceCleared(st: Status, a: State) {
    && SlotsCleared(st, a)
    && (st.created.publication ==> st.publication !in a.publications)
    && (st.created.login ==> st.login !in a.roles)
    && (st.login in a.roles ==> forall m :: m in a.memberships ==> !MembershipMayGo(st, m))
  }

  ghost predicate SecretCleared(st: Status, a: State) {
    st.created.secret ==> st.secret !in a.secrets
  }

  // ------------------------------------------------------------------ one attempt

  datatype Outcome = Done | Lost | Failed

  /** How a server is met by one attempt. */
  datatype Reach = Answers | Gone | Unreachable | Broken

  datatype Verdict = Returned | WillRetry | Raised

  class Servers {
    const system: nat                 // the target's system identifier
    const sourceDatabases: set<string>
    const targetDatabases: set<string>
    const whenSilent: Outcome         // how a server that stops answering shows
    const held: nat -> set<Slot>      // the slots in use when somebody looks for the k-th time
    var subscriptions: map<InDatabase, Subscription>
    var slots: set<Slot>
    var publications: set<InDatabase>
    var roles: set<string>
    var memberships: set<Membership>
    var secrets: set<string>
    var answers: nat                  // how often the servers answer before one falls silent
    var looks: nat                    // how often somebody has looked which slots are in use
    ghost var droppedAt: map<Slot, nat>   // the last look before each slot was dropped

    ghost predicate Valid() reads this {
      && whenSilent != Done
      && (forall s :: s in subscriptions ==> s.database in targetDatabases)
      && (forall p :: p in publications ==> p.database in sourceDatabases)
      && "" !in roles
    }

    /** Every slot of these that is gone was seen idle, at a look since then, when it was dropped. */
    ghost predicate OnlyIdleDropped(before: set<Slot>, since: nat) reads this {
      forall slot :: slot in before && slot !in slots ==>
        slot in droppedAt && since <= droppedAt[slot] < looks && slot !in held(droppedAt[slot])
    }

    /** Nothing has been said anew of slots that were gone. */
    twostate predicate SameOfOthers() reads this {
      forall slot :: slot !in old(slots) && slot in old(droppedAt) ==>
        slot in droppedAt && droppedAt[slot] == old(droppedAt)[slot]
    }

    /** No slot went that was in use, and each look took an answer. */
    twostate predicate DroppedIdle() reads this {
      slots <= old(slots) && OnlyIdleDropped(old(slots), old(looks)) && SameOfOthers()
      && old(looks) <= looks && looks - old(looks) <= old(answers) - answers
    }

    ghost function View(): State reads this {
      State(subscriptions, slots, publications, roles, memberships, secrets)
    }

    constructor (s: State, system: nat, sourceDatabases: set<string>, targetDatabases: set<string>,
        whenSilent: Outcome, held: nat -> set<Slot>, answers: nat)
      requires whenSilent != Done
      requires forall k :: k in s.subscriptions ==> k.database in targetDatabases
      requires (forall p :: p in s.publications ==> p.database in sourceDatabases) && "" !in s.roles
      ensures Valid() && View() == s && this.system == system && this.answers == answers
      ensures this.sourceDatabases == sourceDatabases && this.targetDatabases == targetDatabases
      ensures this.held == held && looks == 0
    {
      this.system, this.whenSilent, this.held, this.answers := system, whenSilent, held, answers;
      looks, droppedAt := 0, map[];
      this.sourceDatabases, this.targetDatabases := sourceDatabases, targetDatabases;
      subscriptions, slots, publications := s.subscriptions, s.slots, s.publications;
      roles, memberships, secrets := s.roles, s.memberships, s.secrets;
    }

    method Ask() returns (ok: bool)
      modifies this`answers
      ensures ok <==> old(answers) > 0
      ensures answers == if ok then old(answers) - 1 else 0
    {
      ok := answers > 0;
      if ok {
        answers := answers - 1;
      }
    }

    /**
     The target's server drops a subscription with its slots. One it cannot
     reach or that is in use stops it; the subscription then stays, but the
     slots of tables being synchronised that went before do not come back.
     */
    method PlainDrop(key: InDatabase, reachesSource: bool) returns (ok: bool)
      requires Valid() && key in subscriptions
      modifies this`subscriptions, this`slots, this`looks, this`answers, this`droppedAt
      ensures Valid() && DroppedIdle() && answers >= old(answers) - 1
      ensures looks <= old(looks) + 1
      ensures subscriptions == if ok then old(subscriptions) - {key} else old(subscriptions)
      ensures forall slot :: slot in old(slots) && slot !in slots ==>
        SlotOf(old(subscriptions)[key], system, slot) && (ok || slot.Sync?)
      ensures ok ==> forall slot :: slot in slots ==> !SlotOf(old(subscriptions)[key], system, slot)
    {
      var sub := subscriptions[key];
      ok := Ask();
      if !ok { return; }
      if sub.slot.Some? {
        ok := DropInTurn(sub, sub.slot.value, reachesSource);
        if !ok { return; }
      }
      subscriptions := subscriptions - {key};
    }

    /** The slots of tables being synchronised, one after another and each only if idle, and then its own. */
    method DropInTurn(sub: Subscription, main: string, reachesSource: bool) returns (ok: bool)
      requires sub.slot == Some(main)
      modifies this`slots, this`looks, this`droppedAt
      ensures looks == old(looks) + 1 && slots <= old(slots)
      ensures OnlyIdleDropped(old(slots), old(looks)) && SameOfOthers()
      ensures forall slot :: slot in old(slots) && slot !in slots ==> SlotOf(sub, system, slot) && (ok || slot.Sync?)
      ensures ok ==> forall slot :: slot in slots ==> !SlotOf(sub, system, slot)
    {
      looks := looks + 1;
      if !reachesSource { return false; }
      var rest := set slot <- slots | slot.Sync? && SlotOf(sub, system, slot);
      while rest != {}
        invariant looks == old(looks) + 1 && rest <= slots <= old(slots)
        invariant forall slot :: slot in slots && slot.Sync? && SlotOf(sub, system, slot) ==> slot in rest
        invariant forall slot :: slot in old(slots) && (slot !in slots || slot in rest) ==>
          slot.Sync? && SlotOf(sub, system, slot)
        invariant OnlyIdleDropped(old(slots), old(looks)) && SameOfOthers()
        decreases rest
      {
        var slot :| slot in rest;
        if slot in held(looks - 1) { return false; }
        rest := rest - {slot};
        slots, droppedAt := slots - {slot}, droppedAt[slot := looks - 1];
      }
      ok := Main(main) in slots && Main(main) !in held(looks - 1);
      if ok {
        slots, droppedAt := slots - {Main(main)}, droppedAt[Main(main) := looks - 1];
      }
    }

    /** Disable it, drop it with its slots, or failing that detach it and drop it alone. */
    method DropSubscription(key: InDatabase, reachesSource: bool) returns (out: Outcome)
      requires Valid() && key in subscriptions
      modifies this`subscriptions, this`slots, this`looks, this`answers, this`droppedAt
      ensures Valid() && DroppedIdle() && looks <= old(looks) + 1 && (out == Done || out == whenSilent)
      ensures (old(answers) >= 4 ==> out == Done && answers >= old(answers) - 4)
      ensures old(subscriptions).Keys - {key} <= subscriptions.Keys <= old(subscriptions).Keys
      ensures forall k :: k in old(subscriptions) && k != key ==> subscriptions[k] == old(subscriptions)[k]
      ensures key in subscriptions ==> Detached(old(subscriptions)[key], subscriptions[key])
      ensures out == Done ==> key !in subscriptions
      ensures forall slot :: slot in old(slots) && slot !in slots ==>
        SlotOf(old(subscriptions)[key], system, slot) && (key !in subscriptions || slot.Sync?)
    {
      var ok := Ask();
      if !ok { return whenSilent; }
      ok := PlainDrop(key, reachesSource);
      if ok { return Done; }
      ok := Ask();
      if !ok { return whenSilent; }
      subscriptions := subscriptions[key := subscriptions[key].(slot := None)];
      ok := Ask();
      if !ok { return whenSilent; }
      subscriptions := subscriptions - {key};
      out := Done;
    }

    method RemoveSubscription(st: Status, reachesSource: bool) returns (out: Outcome)
      requires Valid() && st.created.subscription
      modifies this`subscriptions, this`slots, this`looks, this`answers, this`droppedAt
      ensures Valid() && DroppedIdle() && looks <= old(looks) + 1 && (out == Done || out == whenSilent)
      ensures Within(old(View()), st, system, View())
      ensures out == Done ==> TargetCleared(st, View())
      ensures old(answers) >= 6 ==> out == Done && answers >= old(answers) - 6
    {
      var ok := Ask();
      if !ok { return whenSilent; }
      if st.subscription.database !in targetDatabases { return Done; }
      ok := Ask();
      if !ok { return whenSilent; }
      if st.subscription !in subscriptions { return Done; }
      out := DropSubscription(st.subscription, reachesSource);
    }

    /** Lists the slots found by the recorded names, and those of them in use. */
    method Look(st: Status) returns (ok: bool, found: set<Slot>, busy: set<Slot>)
      modifies this`looks, this`answers
      ensures ok <==> old(answers) > 0
      ensures ok ==> looks == old(looks) + 1 && answers == old(answers) - 1
      ensures ok ==> found == AllFound(slots, st) && busy == found * held(looks - 1)
      ensures !ok ==> looks == old(looks) && answers == old(answers)
    {
      ok := answers > 0;
      if ok {
        answers, looks := answers - 1, looks + 1;
        found := AllFound(slots, st);
        busy := found * held(looks - 1);
      } else {
        found, busy := {}, {};
      }
    }

    /** The source's server drops no slot in use. */
    method DropSlot(slot: Slot) returns (ok: bool)
      requires slot in slots && looks > 0 && slot !in held(looks - 1)
      modifies this`slots, this`answers, this`droppedAt
      ensures ok <==> old(answers) > 0
      ensures slots == (if ok then old(slots) - {slot} else old(slots))
      ensures droppedAt == (if ok then old(droppedAt)[slot := looks - 1] else old(droppedAt))
      ensures answers == if ok then old(answers) - 1 else 0
    {
      ok := Ask();
      if ok {
        slots, droppedAt := slots - {slot}, droppedAt[slot := looks - 1];
      }
    }

    /**
     Waits for the slots found to be let go, ending whoever holds them, and
     drops them: as many as `LOOKS` times it looks again.
     */
    method RemoveSlots(st: Status) returns (out: Outcome)
      requires Valid() && MayHaveSlots(st)
      modifies this`slots, this`looks, this`answers, this`droppedAt
      ensures Valid() && DroppedIdle()
      ensures Within(old(View()), st, system, View())
      ensures out == Done ==> SlotsCleared(st, View())
      ensures out == Lost ==> whenSilent == Lost
      ensures out == Failed && whenSilent != Failed ==>
        forall k :: old(looks) <= k <= old(looks) + LOOKS ==> !FreeAt(old(slots), st, held, k)
      ensures old(answers) >= 1 + LOOKS + |old(slots)| && SomeFree(old(slots), st, held, old(looks))
        ==> out == Done && answers >= old(answers) - 1 - LOOKS - |old(slots)|
    {
      var found;
      out, found := AwaitFree(st);
      if out != Done { return; }
      NoMore(found, slots);
      out := DropSlots(st, found);
    }

    /** Looks until none of the slots found is in use. */
    method AwaitFree(st: Status) returns (out: Outcome, found: set<Slot>)
      requires Valid()
      modifies this`looks, this`answers
      ensures out == Done ==> looks > old(looks) && found == AllFound(slots, st) && found !! held(looks - 1)
      ensures out == Lost ==> whenSilent == Lost
      ensures old(looks) <= looks <= old(looks) + 1 + LOOKS && looks - old(looks) == old(answers) - answers
      ensures out == Failed && whenSilent != Failed ==>
        looks == old(looks) + 21 && forall k :: old(looks) <= k <= old(looks) + LOOKS ==> !FreeAt(slots, st, held, k)
      ensures old(answers) > LOOKS && SomeFree(slots, st, held, old(looks)) ==> out == Done
    {
      var ok, busy;
      ok, found, busy := Look(st);
      if !ok { return whenSilent, found; }
      var again := 0;
      while again < LOOKS && busy != {}
        invariant again <= LOOKS && looks == old(looks) + 1 + again && answers == old(answers) - 1 - again
        invariant found == AllFound(slots, st) && busy == found * held(looks - 1)
        invariant forall k :: old(looks) <= k < looks - 1 ==> !FreeAt(slots, st, held, k)
      {
        BusyIsNotFree(slots, st, held, looks - 1);
        ok, found, busy := Look(st);
        if !ok { return whenSilent, found; }
        again := again + 1;
      }
      if busy != {} {
        BusyIsNotFree(slots, st, held, looks - 1);
        return Failed, found;
      }
      assert forall slot :: slot in found && slot in held(looks - 1) ==> slot in busy;
      out := Done;
    }

    method DropSlots(st: Status, found: set<Slot>) returns (out: Outcome)
      requires Valid() && MayHaveSlots(st) && found == AllFound(slots, st)
      requires looks > 0 && found !! held(looks - 1)
      modifies this`slots, this`answers, this`droppedAt
      ensures Valid() && Within(old(View()), st, system, View())
      ensures OnlyIdleDropped(old(slots), looks - 1) && SameOfOthers()
      ensures out == Done || out == whenSilent
      ensures out == Done ==> SlotsCleared(st, View())
      ensures old(answers) >= |found| ==> out == Done && answers == old(answers) - |found|
      ensures answers <= old(answers)
    {
      var rest := found;
      while rest != {}
        invariant rest <= found && rest <= slots <= old(slots)
        invariant forall slot :: slot in slots && Found(st, slot) ==> slot in rest
        invariant forall slot :: slot in old(slots) && slot !in slots ==> Found(st, slot)
        invariant OnlyIdleDropped(old(slots), looks - 1) && SameOfOthers()
        invariant answers + |found| - |rest| == old(answers)
        decreases rest
      {
        var slot :| slot in rest;
        assert slot !in held(looks - 1);
        var ok := DropSlot(slot);
        if !ok { return whenSilent; }
        rest := rest - {slot};
      }
      out := Done;
    }

    method RemovePublication(st: Status) returns (out: Outcome)
      requires Valid()
      modifies this`publications, this`answers
      ensures Valid() && (out == Done || out == whenSilent)
      ensures PublicationsWithin(old(View()), st, View())
      ensures out == Done && st.created.publication ==> st.publication !in publications
      ensures old(answers) >= 2 ==> out == Done && answers >= old(answers) - 2
      ensures answers <= old(answers)
    {
      var ok := Ask();
      if !ok { return whenSilent; }
      if st.created.publication && st.publication.database in sourceDatabases {
        ok := Ask();
        if !ok { return whenSilent; }
        publications := publications - {st.publication};
      }
      out := Done;
    }

    /** The operator's own login goes altogether; a provided one loses what it was granted. */
    method RemoveLogin(st: Status) returns (out: Outcome)
      requires Valid()
      modifies this`roles, this`memberships, this`answers
      ensures Valid() && (out == Done || out == whenSilent)
      ensures LoginsWithin(old(View()), st, View())
      ensures out == Done && st.created.login ==> st.login !in roles
      ensures out == Done && st.login in roles ==> forall m :: m in memberships ==> !MembershipMayGo(st, m)
      ensures old(answers) >= 4 + |st.granted| ==> out == Done && answers >= old(answers) - 4 - |st.granted|
      ensures answers <= old(answers)
    {
      var ok := Ask();
      if !ok { return whenSilent; }
      if st.login == "" || st.login !in roles { return Done; }
      if st.created.login {
        ok := Ask();
        if !ok { return whenSilent; }
        ok := Ask();
        if !ok { return whenSilent; }
        memberships := set m <- memberships | m.member != st.login;
        ok := Ask();
        if !ok { return whenSilent; }
        roles := roles - {st.login};
        return Done;
      }
      var rest := st.granted;
      while rest != {}
        invariant rest <= st.granted && memberships <= old(memberships) && roles == old(roles)
        invariant forall m :: m in memberships && MembershipMayGo(st, m) ==> m.group in rest
        invariant forall m :: m in old(memberships) && m !in memberships ==> MembershipMayGo(st, m)
        invariant old(answers) - 1 - (|st.granted| - |rest|) <= answers <= old(answers)
        decreases rest
      {
        var group :| group in rest;
        rest := rest - {group};
        if Membership(st.login, group) in memberships {
          ok := Ask();
          if !ok { return whenSilent; }
          memberships := memberships - {Membership(st.login, group)};
        }
      }
      out := Done;
    }

    /** All that is the source's: the slots first, then the publication, then the login. */
    method ClearSource(st: Status) returns (out: Outcome)
      requires Valid()
      modifies this`slots, this`publications, this`roles, this`memberships, this`looks, this`answers, this`droppedAt
      ensures Valid() && DroppedIdle() && (out == Lost ==> whenSilent == Lost)
      ensures Within(old(View()), st, system, View())
      ensures out == Done ==> SourceCleared(st, View())
      ensures InOrder(old(View()), st, View())
      ensures old(answers) >= 7 + LOOKS + |old(slots)| + |st.granted| && SomeFree(old(slots), st, held, old(looks))
        ==> out == Done
    {
      if MayHaveSlots(st) {
        out := RemoveSlots(st);
        if out != Done { return; }
      }
      out := RemovePublication(st);
      if out != Done { return; }
      out := RemoveLogin(st);
    }

    /** The target's part; an instance that is gone took its subscription along. */
    method ClearTarget(st: Status, target: Reach, reachesSource: bool) returns (out: Outcome)
      requires Valid()
      modifies this`subscriptions, this`slots, this`looks, this`answers, this`droppedAt
      ensures Valid() && DroppedIdle() && looks <= old(looks) + 1 && Within(old(View()), st, system, View())
      ensures out == Done ==> target == Gone || TargetCleared(st, View())
      ensures target == Answers && old(answers) >= 6 ==> out == Done && answers >= old(answers) - 6
      ensures target == Unreachable && st.created.subscription ==> out == Lost
      ensures target == Gone || target == Unreachable ==> out != Failed && answers == old(answers)
      ensures target == Broken && st.created.subscription ==> out == Failed && slots == old(slots)
    {
      if !st.created.subscription || target == Gone { return Done; }
      if target == Answers {
        out := RemoveSubscription(st, reachesSource);
      } else {
        out := if target == Unreachable then Lost else Failed;
      }
    }

    /** The source's part; an instance that is gone took everything along. */
    method SourcePart(st: Status, source: Reach) returns (out: Outcome)
      requires Valid()
      modifies this`slots, this`publications, this`roles, this`memberships, this`looks, this`answers, this`droppedAt
      ensures Valid() && DroppedIdle() && Within(old(View()), st, system, View())
      ensures out == Done ==> source == Gone || SourceCleared(st, View())
      ensures InOrder(old(View()), st, View())
      ensures source == Unreachable ==> out == Lost
      ensures source == Broken ==> out == Failed
      ensures source == Answers && old(answers) >= 7 + LOOKS + |old(slots)| + |st.granted|
        && SomeFree(old(slots), st, held, old(looks))
        ==> out == Done
    {
      match source
      case Answers => out := ClearSource(st);
      case Gone => out := Done;
      case Unreachable => out := Lost;
      case Broken => out := Failed;
    }

    /** Both servers, each on its own; the source only if the target did not fail outright. */
    method ClearServers(st: Status, target: Reach, source: Reach, reachesSource: bool)
      returns (onTarget: Outcome, onSource: Outcome)
      requires Valid()
      modifies this`subscriptions, this`slots, this`publications, this`roles, this`memberships,
        this`looks, this`answers, this`droppedAt
      ensures Valid() && DroppedIdle() && Within(old(View()), st, system, View())
      ensures onTarget == Done ==> target == Gone || TargetCleared(st, View())
      ensures onSource == Done ==> onTarget != Failed && (source == Gone || SourceCleared(st, View()))
      ensures InOrder(old(View()), st, View())
      ensures onTarget == Failed ==> SourceKept(old(View()), View())
      ensures target == Answers && old(answers) >= 6 ==> onTarget == Done
      ensures target != Broken && source == Answers && Enough(old(answers), old(slots), st)
        && LetGoAfter(old(slots), st, held, old(looks))
        ==> onSource == Done && onTarget != Failed
      ensures onTarget != Failed && source == Unreachable ==> onSource == Lost
      ensures onTarget != Failed && source == Broken ==> onSource == Failed
      ensures target == Unreachable && st.created.subscription ==> onTarget == Lost
      ensures target == Gone || target == Unreachable ==> onTarget != Failed
      ensures target == Broken && st.created.subscription ==> onTarget == Failed && slots == old(slots)
    {
      ghost var first, began := View(), looks;
      onSource := Failed;
      onTarget := ClearTarget(st, target, reachesSource);
      if onTarget == Failed { return; }
      ghost var second := View();
      NoMore(slots, first.slots);
      StillLetGo(first.slots, slots, st, held, began, looks);
      onSource := SourcePart(st, source);
      Transitive(first, second, View(), st, system);
    }

    /** One attempt. The Secret goes only once the source is cleared; an unreachable server is left for the next. */
    method Attempt(st: Status, target: Reach, source: Reach, reachesSource: bool, secretsAnswer: bool)
      returns (verdict: Verdict)
      requires Valid()
      modifies this`subscriptions, this`slots, this`publications, this`roles, this`memberships, this`secrets,
        this`looks, this`answers, this`droppedAt
      ensures Valid() && DroppedIdle() && Within(old(View()), st, system, View())
      ensures verdict == Returned ==> Cleared(st, target == Gone, source == Gone, View())
      ensures target == Answers && old(answers) >= 6 ==> TargetCleared(st, View())
      ensures target != Broken && source == Answers && Enough(old(answers), old(slots), st)
        && LetGoAfter(old(slots), st, held, old(looks))
        ==> SourceCleared(st, View()) && (secretsAnswer ==> SecretCleared(st, View()))
      ensures source == Answers && target == Answers && secretsAnswer && Enough(old(answers), old(slots), st)
        && LetGoAfter(old(slots), st, held, old(looks))
        ==> verdict == Returned
      ensures target == Unreachable && st.created.subscription ==> verdict != Returned
      // A server out of reach means another attempt, a broken one a failure, and the source waits for a broken target.
      ensures source == Unreachable && !NothingRecorded(st) ==> verdict != Returned
      ensures source == Unreachable && !NothingRecorded(st)
        && (target == Gone || target == Unreachable || (target == Answers && old(answers) >= 6))
        ==> verdict == WillRetry
      ensures source == Broken && !NothingRecorded(st) ==> verdict == Raised
      ensures target == Broken && st.created.subscription ==>
        verdict == Raised && slots == old(slots) && SourceKept(old(View()), View())
      ensures InOrder(old(View()), st, View())
      ensures secrets != old(secrets) ==> source == Gone || SourceCleared(st, View())
    {
      if NothingRecorded(st) {
        return Returned;
      }
      ghost var first := View();
      var onTarget, onSource := ClearServers(st, target, source, reachesSource);
      if onTarget == Failed || onSource == Failed { return Raised; }
      ghost var second := View();
      if onSource == Done && st.created.secret {
        if !secretsAnswer { return Raised; }
        secrets := secrets - {st.secret};
        Transitive(first, second, View(), st, system);
      }
      verdict := if onTarget == Lost || onSource == Lost then WillRetry else Returned;
    }
  }

  const LOOKS: nat := 20

  /** Answers for both servers' calls, however the slots are looked at and dropped. */
  predicate Enough(answers: nat, slots: set<Slot>, st: Status) {
    answers >= 13 + LOOKS + |slots| + |st.granted|
  }

  /** At one of the twenty looks after this one, none of the slots found is in use. */
  ghost predicate LetGoAfter(slots: set<Slot>, st: Status, held: nat -> set<Slot>, from: nat) {
    exists k :: from < k <= from + 20 && FreeAt(slots, st, held, k)
  }

  /** With some of the slots gone and one look taken, there is still such a look to come. */
  lemma StillLetGo(before: set<Slot>, now: set<Slot>, st: Status, held: nat -> set<Slot>, from: nat, since: nat)
    requires now <= before && from <= since <= from + 1
    ensures LetGoAfter(before, st, held, from) ==> SomeFree(now, st, held, since)
  {
    if LetGoAfter(before, st, held, from) {
      var k :| from < k <= from + 20 && FreeAt(before, st, held, k);
      assert FreeAt(now, st, held, k);
    }
  }

  /** Nothing goes before what uses it: the publication after the slots, the login after both. */
  ghost predicate InOrder(b: State, st: Status, a: State) {
    && (a.publications != b.publications ==> SlotsCleared(st, a))
    && (a.roles != b.roles || a.memberships != b.memberships ==>
          SlotsCleared(st, a) && (st.created.publication ==> st.publication !in a.publications))
  }

  predicate SourceKept(b: State, a: State) {
    a.publications == b.publications && a.roles == b.roles && a.memberships == b.memberships && a.secrets == b.secrets
  }

  function AllFound(slots: set<Slot>, st: Status): set<Slot> {
    set slot <- slots | Found(st, slot)
  }

  /** No slot found by the recorded names is in use at this look. */
  ghost predicate FreeAt(slots: set<Slot>, st: Status, held: nat -> set<Slot>, k: nat) {
    forall slot :: slot in slots && Found(st, slot) ==> slot !in held(k)
  }

  /** Among the looks from this one on, one finds none in use. */
  ghost predicate SomeFree(slots: set<Slot>, st: Status, held: nat -> set<Slot>, from: nat) {
    exists k :: from <= k <= from + LOOKS && FreeAt(slots, st, held, k)
  }

  lemma BusyIsNotFree(slots: set<Slot>, st: Status, held: nat -> set<Slot>, k: nat)
    requires AllFound(slots, st) * held(k) != {}
    ensures !FreeAt(slots, st, held, k)
  {
    var slot :| slot in AllFound(slots, st) * held(k);
    assert slot in slots && Found(st, slot);
  }

  /** Dropped by the target's server along with the subscription. */
  predicate WentWithSubscription(b: State, st: Status, system: nat, slot: Slot) {
    st.created.subscription && st.subscription in b.subscriptions
    && SlotOf(b.subscriptions[st.subscription], system, slot)
  }

  /** What an attempt that returns leaves of what is recorded: nothing, except on a server that is gone. */
  ghost predicate Cleared(st: Status, targetGone: bool, sourceGone: bool, a: State) {
    NothingRecorded(st)
    || ((targetGone || TargetCleared(st, a)) && (sourceGone || SourceCleared(st, a)) && SecretCleared(st, a))
  }

  lemma NoMore<T>(a: set<T>, b: set<T>)
    requires a <= b
    ensures |a| <= |b|
  {
    if a != {} {
      var x :| x in a;
      NoMore(a - {x}, b - {x});
    }
  }

  /** What may go only shrinks as attempts proceed, so a sequence of them stays within the bounds of one. */
  lemma Transitive(a: State, b: State, c: State, st: Status, system: nat)
    requires Within(a, st, system, b) && Within(b, st, system, c)
    ensures Within(a, st, system, c)
  {
    forall slot | slot in a.slots && slot !in c.slots ensures SlotMayGo(a, st, system, slot) {
      if slot in b.slots {
        assert SlotMayGo(b, st, system, slot);
      }
    }
  }
}
