/**
 What is on the servers and not on the record: at every point a pass may stop,
 over sequences of interrupted passes, and once one completes.
 */
module LifecycleRuns {
  import opened Wrappers
  import opened Lifecycle
  import opened Trace

  // ------------------------------------------------------------ within one pass

  function Rank(stage: Stage): nat {
    match stage
    case PublicationStage => 0
    case LoginStage => 1
    case SlotStage => 2
    case SubscriptionStage => 3
  }

  /**
   Past its login the record does not name it: it did not when the pass began,
   or the record of a new publication has emptied the name, and the login's own
   record is not rewritten, being as it was to be.
   */
  predicate Lost(c: Config, first: World) {
    (first.publication.Absent? || first.status.login != c.login) && !RewritesLogin(c, first)
  }

  /** And there is something of the login's on the record that this loses. */
  predicate LosesLogin(c: Config, first: World) {
    Lost(c, first) && (first.status.created.login || first.status.granted != {})
  }

  /** What may be unrecorded at this point of a pass that began in `first`. */
  ghost predicate Excused(c: Config, first: World, stage: Stage, x: Thing) {
    Unrecorded(c, first, x) || MadeIn(stage, x) || (LosesLogin(c, first) && OfLogin(x))
  }

  lemma EarlyIsExcused(c: Config, first: World, pc: Pc, x: Thing)
    requires WellFormed(c, first) && OnPath(c, first, pc) && Rank(StageOf(pc)) < 2
    requires Unrecorded(c, WorldAt(c, first, pc), x)
    ensures Excused(c, first, StageOf(pc), x)
  {
    match pc
    case Start =>
    case MakePublication =>
    case MarkPublication =>
    case RecordPublication =>
    case TakeLogin =>
    case MarkLogin =>
    case GrantStreaming =>
    case WriteSecret =>
    case GrantReading =>
    case RecordLogin =>
  }

  lemma LoginKeptIsExcused(c: Config, first: World, x: Thing)
    requires WellFormed(c, first) && Unrecorded(c, LoginKept(c, first), x)
    ensures Unrecorded(c, first, x) || (LosesLogin(c, first) && OfLogin(x))
  {
  }

  /** The record only gains from there on. */
  lemma RecordGains(c: Config, first: World, pc: Pc, x: Thing)
    requires OnPath(c, first, pc) && Rank(StageOf(pc)) >= 2 && Known(c, StatusAtSlot(c, first), x)
    ensures Known(c, WorldAt(c, first, pc).status, x)
  {
    match pc
    case MakeSlot =>
    case RecordSlot =>
    case MakeSubscription =>
    case MarkSubscription =>
    case RecordSubscription =>
    case Finish =>
    case Done =>
  }

  lemma LateIsExcused(c: Config, first: World, pc: Pc, x: Thing)
    requires WellFormed(c, first) && OnPath(c, first, pc) && Rank(StageOf(pc)) >= 2
    requires Unrecorded(c, WorldAt(c, first, pc), x)
    ensures Excused(c, first, StageOf(pc), x)
  {
    if x.TheSlot? || x.TheSubscription? {
      LateSlotIsExcused(c, first, pc, x);
    } else {
      LoginIsKept(c, first, pc);
      if Known(c, StatusAtSlot(c, first), x) {
        RecordGains(c, first, pc, x);
      } else {
        LoginKeptIsExcused(c, first, x);
      }
    }
  }

  lemma LateSlotIsExcused(c: Config, first: World, pc: Pc, x: Thing)
    requires OnPath(c, first, pc) && Rank(StageOf(pc)) >= 2 && (x.TheSlot? || x.TheSubscription?)
    requires Unrecorded(c, WorldAt(c, first, pc), x)
    ensures Unrecorded(c, first, x) || MadeIn(StageOf(pc), x)
  {
    match pc
    case MakeSlot =>
    case RecordSlot =>
    case MakeSubscription =>
    case MarkSubscription =>
    case RecordSubscription =>
    case Finish =>
    case Done =>
  }

  /** From the login stage on, all but the slot, the subscription and the record stays as the login left it. */
  lemma LoginIsKept(c: Config, first: World, pc: Pc)
    requires OnPath(c, first, pc) && Rank(StageOf(pc)) >= 2
    ensures var w, kept := WorldAt(c, first, pc), LoginKept(c, first);
      w.(slot := kept.slot, subscription := kept.subscription, status := kept.status) == kept
  {
  }

  /**
   Wherever a pass stops, what it has made and not recorded belongs to the one
   stage it was in, and the rest was unrecorded before; unless it loses the
   record of the login on the way, and then only what is the login's.
   */
  lemma OneStageUnrecorded(c: Config, first: World, n: nat, x: Thing)
    requires WellFormed(c, first)
    requires var (w, p) := Steps(c, first, n); Unrecorded(c, w, x)
    ensures var (w, p) := Steps(c, first, n);
      Unrecorded(c, first, x) || MadeIn(StageOf(p.pc), x) || (LosesLogin(c, first) && OfLogin(x))
  {
    StepsAreTraced(c, first, n);
    var pc := Steps(c, first, n).1.pc;
    if pc == Refused {
      if !RefusedAtOnce(c, first) {
        LoginKeptIsExcused(c, first, x);
      }
    } else if Rank(StageOf(pc)) < 2 {
      EarlyIsExcused(c, first, pc, x);
    } else {
      LateIsExcused(c, first, pc, x);
    }
  }

  /**
   A completed pass leaves nothing unrecorded, except a membership of a
   provided login that was already unrecorded: the pass finds it held, and
   takes it for somebody else's grant.
   */
  lemma CompletedRecordsAll(c: Config, first: World, n: nat, x: Thing)
    requires WellFormed(c, first)
    requires Steps(c, first, n).1.pc == Done
    ensures Unrecorded(c, Steps(c, first, n).0, x) <==> c.provided && x.TheGrant? && Unrecorded(c, first, x)
  {
    StepsAreTraced(c, first, n);
  }

  // ---------------------------------------------------------------- completion

  predicate Startable(c: Config, first: World) {
    !RefusedAtOnce(c, first) && !RefusedAtSlot(first)
  }

  // No pass takes more steps.
  const WHOLE_PASS: nat := 16

  /** How many steps a pass has left at most. */
  function Left(pc: Pc): nat {
    match pc
    case Start => 16
    case MakePublication => 15 case MarkPublication => 14 case RecordPublication => 13
    case TakeLogin => 12 case MarkLogin => 11 case GrantStreaming => 10 case WriteSecret => 9
    case GrantReading => 8 case RecordLogin => 7
    case MakeSlot => 6 case RecordSlot => 5
    case MakeSubscription => 4 case MarkSubscription => 3 case RecordSubscription => 2
    case Finish => 1
    case Done => 0 case Refused => 0
  }

  /** Once this step has been taken. */
  predicate Beyond(pc: Pc, step: Pc) {
    Left(pc) < Left(step)
  }

  lemma {:induction false} ComesNearer(c: Config, first: World, n: nat)
    ensures Left(PcAfter(c, first, n)) <= (if n <= WHOLE_PASS then WHOLE_PASS - n else 0)
  {
    if n > 0 {
      ComesNearer(c, first, n - 1);
    }
  }

  lemma {:induction false} RefusedOnlyIf(c: Config, first: World, n: nat)
    ensures PcAfter(c, first, n) == Refused ==> !Startable(c, first)
    ensures PcAfter(c, first, n) != Start && PcAfter(c, first, n) != Refused ==> !RefusedAtOnce(c, first)
    ensures Beyond(PcAfter(c, first, n), MakeSlot) ==> PcAfter(c, first, n) == Refused || Startable(c, first)
  {
    if n > 0 {
      RefusedOnlyIf(c, first, n - 1);
    }
  }

  /** A pass that nothing interrupts completes exactly when it finds all names free and a slot to be had. */
  lemma CompletesIff(c: Config, first: World)
    ensures Steps(c, first, WHOLE_PASS).1.pc == (if Startable(c, first) then Done else Refused)
  {
    StepsAreTraced(c, first, WHOLE_PASS);
    ComesNearer(c, first, WHOLE_PASS);
    RefusedOnlyIf(c, first, WHOLE_PASS);
  }

  /** The names are free or its own, by marks and records. */
  predicate NamesFree(c: Config, first: World) {
    var made := first.status.created;
    && (first.publication.There? ==> first.publication.marked || made.publication)
    && (first.role.There? ==> c.provided || first.role.marked || made.login)
    && (first.subscription.Subscribed? && first.subscription.what.There? ==>
          first.subscription.what.marked || made.subscription)
  }

  /** A subscription is there, or there is room for a slot and none of its name that is another's. */
  predicate SlotToBeHad(c: Config, first: World) {
    first.subscription.NoSubscription? ==>
      c.slotsFree && (first.slot.SlotThere? ==> first.slot.ourDatabase && !first.slot.active)
  }

  /** What that comes to, on both servers and in the record. */
  lemma CompletesOverFields(c: Config, first: World)
    ensures Steps(c, first, WHOLE_PASS).1.pc == Done <==> NamesFree(c, first) && SlotToBeHad(c, first)
    ensures !NamesFree(c, first) ==> Steps(c, first, WHOLE_PASS).0 == first
  {
    CompletesIff(c, first);
    if !NamesFree(c, first) {
      NameTakenMakesNothing(c, first, WHOLE_PASS);
    }
  }

  /**
   A slot that is in use, or of another database, belongs to somebody: wherever
   a pass over it stops it is as it was, no subscription is made, neither is put
   on record, and the pass does not complete.
   */
  lemma OthersSlotIsNeverTaken(c: Config, first: World, n: nat)
    requires first.subscription.NoSubscription? && first.slot.SlotThere?
    requires first.slot.active || !first.slot.ourDatabase
    ensures var (w, p) := Steps(c, first, n);
      && w.slot == first.slot && w.subscription == first.subscription && p.pc != Done
      && w.status.created.slot == first.status.created.slot
      && w.status.created.subscription == first.status.created.subscription
  {
    StepsAreTraced(c, first, n);
    RefusedOnlyIf(c, first, n);
    var pc := PcAfter(c, first, n);
    assert !Startable(c, first);
    UpToTheSlot(c, first, if pc == Refused then (if RefusedAtOnce(c, first) then Start else MakeSlot) else pc);
  }

  lemma UpToTheSlot(c: Config, first: World, pc: Pc)
    requires !Beyond(pc, MakeSlot)
    ensures var w := WorldAt(c, first, pc);
      && w.slot == first.slot && w.subscription == first.subscription
      && w.status.created.slot == first.status.created.slot
      && w.status.created.subscription == first.status.created.subscription
  {
    match pc
    case Start =>
    case MakePublication =>
    case MarkPublication =>
    case RecordPublication =>
    case TakeLogin =>
    case MarkLogin =>
    case GrantStreaming =>
    case WriteSecret =>
    case GrantReading =>
    case RecordLogin =>
    case MakeSlot =>
  }

  /** An idle one of this database is taken as it is, and put on record with the subscription made over it. */
  lemma IdleSlotIsTaken(c: Config, first: World)
    requires NamesFree(c, first) && c.slotsFree && first.subscription.NoSubscription?
    requires first.slot.SlotThere? && first.slot.ourDatabase && !first.slot.active
    ensures var (w, p) := Steps(c, first, WHOLE_PASS);
      p.pc == Done && w.slot == first.slot && w.status.created.slot && w.subscription.Subscribed?
  {
    CompletesIff(c, first);
    StepsAreTraced(c, first, WHOLE_PASS);
  }

  /** A pass that completes leaves all of it standing, and a record that says so. */
  lemma CompletedIsWhole(c: Config, first: World, n: nat)
    requires Steps(c, first, n).1.pc == Done
    ensures var w := Steps(c, first, n).0;
      && w.publication.There? && w.subscription.Subscribed? && c.readGroup in w.held
      && (first.subscription.NoSubscription? ==> w.slot.SlotThere? && w.status.created.slot)
      && (!c.provided ==> w.role.There? && w.secret && (c.streamGroup.Some? ==> c.streamGroup.value in w.held))
      && w.status.created.publication && w.status.created.subscription
      && w.status.created.login == w.status.created.secret == !c.provided
      && w.status.login == c.login && w.status.oid == Some(w.subscription.oid)
  {
    StepsAreTraced(c, first, n);
    LateObjects(c, first, Done);
    LoginIsKept(c, first, Done);
    LoginIsReady(c, first);
  }

  lemma LoginIsReady(c: Config, first: World)
    ensures var w := LoginKept(c, first);
      && w.publication.There? && c.readGroup in w.held
      && (!c.provided ==> w.role.There? && w.secret && (c.streamGroup.Some? ==> c.streamGroup.value in w.held))
  {
  }

  /** The slot comes first: wherever a pass stops, a subscription it has made stands over a slot on record. */
  lemma SlotBeforeSubscription(c: Config, first: World, n: nat)
    requires first.subscription.NoSubscription?
    ensures var w := Steps(c, first, n).0;
      w.subscription.Subscribed? ==> w.slot.SlotThere? && w.status.created.slot
  {
    StepsAreTraced(c, first, n);
    var pc := Standstill(c, first, Steps(c, first, n).1.pc);
    if Rank(StageOf(pc)) >= 2 {
      LoginIsKept(c, first, pc);
      LateObjects(c, first, pc);
      FlagsGain(c, first, pc);
    }
  }

  /** And on the way it comes to every step of its path. */
  lemma {:induction false} ComesTo(c: Config, first: World, pc: Pc) returns (n: nat)
    requires OnPath(c, first, pc) && Startable(c, first)
    ensures PcAfter(c, first, n) == pc && Steps(c, first, n).1.pc == pc
    ensures Steps(c, first, n).0 == WorldAt(c, first, pc)
    decreases WHOLE_PASS - Left(pc)
  {
    if pc == Start {
      n := 0;
    } else {
      var before := Previous(c, first, pc);
      n := ComesTo(c, first, before);
      n := n + 1;
    }
    StepsAreTraced(c, first, n);
  }

  function Previous(c: Config, first: World, pc: Pc): (before: Pc)
    requires OnPath(c, first, pc) && Startable(c, first) && pc != Start
    ensures OnPath(c, first, before) && Next(c, first, before) == pc && Left(before) > Left(pc)
  {
    match pc
    case MakePublication => Start
    case MarkPublication => MakePublication
    case RecordPublication => MarkPublication
    case TakeLogin => if first.publication.Absent? then RecordPublication else MakePublication
    case MarkLogin => TakeLogin
    case GrantStreaming => if first.role.Absent? then MarkLogin else TakeLogin
    case WriteSecret => GrantStreaming
    case GrantReading => if c.provided then TakeLogin else WriteSecret
    case RecordLogin => GrantReading
    case MakeSlot => RecordLogin
    case RecordSlot => MakeSlot
    case MakeSubscription => RecordSlot
    case MarkSubscription => MakeSubscription
    case RecordSubscription => MarkSubscription
    case Finish => if MakesSubscription(first) then RecordSubscription else MakeSlot
    case Done => Finish
  }

  /** Refused for a name it would have to take, a pass has made nothing and written nothing. */
  lemma {:induction false} NameTakenMakesNothing(c: Config, first: World, n: nat)
    requires NameTaken(c, first)
    ensures Steps(c, first, n).0 == first
    ensures n > 0 ==> Steps(c, first, n).1.pc == Refused
  {
    if n > 0 {
      NameTakenMakesNothing(c, first, n - 1);
    }
  }

  /**
   A pass that stops is followed by one refused for a name exactly when it
   stopped between making an object and marking it, with that kind of object
   not yet on the record: its own object then looks like somebody else's.
   */
  lemma RefusesItsOwnIff(c: Config, first: World, n: nat)
    requires !NameTaken(c, first)
    ensures var (w, p) := Steps(c, first, n);
      NameTaken(c, w) <==>
        || (p.pc == MarkPublication && !first.status.created.publication)
        || (p.pc == MarkLogin && !first.status.created.login)
        || (p.pc == MarkSubscription && !first.status.created.subscription)
  {
    StepsAreTraced(c, first, n);
    var pc := Standstill(c, first, Steps(c, first, n).1.pc);
    if Rank(StageOf(pc)) < 2 {
      EarlyTaken(c, first, pc);
    } else {
      LateTaken(c, first, pc);
    }
  }

  lemma EarlyTaken(c: Config, first: World, pc: Pc)
    requires !NameTaken(c, first) && OnPath(c, first, pc) && Rank(StageOf(pc)) < 2
    ensures NameTaken(c, WorldAt(c, first, pc)) <==>
      || (pc == MarkPublication && !first.status.created.publication)
      || (pc == MarkLogin && !first.status.created.login)
  {
    match pc
    case Start =>
    case MakePublication =>
    case MarkPublication =>
    case RecordPublication =>
    case TakeLogin =>
    case MarkLogin =>
    case GrantStreaming =>
    case WriteSecret =>
    case GrantReading =>
    case RecordLogin =>
  }

  lemma LateTaken(c: Config, first: World, pc: Pc)
    requires !NameTaken(c, first) && OnPath(c, first, pc) && Rank(StageOf(pc)) >= 2
    ensures NameTaken(c, WorldAt(c, first, pc)) <==> (pc == MarkSubscription && !first.status.created.subscription)
  {
    LoginIsKept(c, first, pc);
    KeptIsFree(c, first);
    FlagsGain(c, first, pc);
    SubscriptionTaken(c, first, pc);
  }

  lemma KeptIsFree(c: Config, first: World)
    requires !NameTaken(c, first)
    ensures var w, created := LoginKept(c, first), first.status.created;
      && !Foreign(w.publication, created.publication)
      && (!c.provided ==> !Foreign(w.role, created.login))
  {
  }

  lemma FlagsGain(c: Config, first: World, pc: Pc)
    requires OnPath(c, first, pc) && Rank(StageOf(pc)) >= 2
    ensures var created := WorldAt(c, first, pc).status.created;
      && (first.status.created.publication ==> created.publication)
      && (!c.provided && first.status.created.login ==> created.login)
  {
    match pc
    case MakeSlot =>
    case RecordSlot =>
    case MakeSubscription =>
    case MarkSubscription =>
    case RecordSubscription =>
    case Finish =>
    case Done =>
  }

  lemma SubscriptionTaken(c: Config, first: World, pc: Pc)
    requires !NameTaken(c, first) && OnPath(c, first, pc) && Rank(StageOf(pc)) >= 2
    ensures var w := WorldAt(c, first, pc);
      (w.subscription.Subscribed? && Foreign(w.subscription.what, w.status.created.subscription))
        <==> (pc == MarkSubscription && !first.status.created.subscription)
  {
    match pc
    case MakeSlot =>
    case RecordSlot =>
    case MakeSubscription =>
    case MarkSubscription =>
    case RecordSubscription =>
    case Finish =>
    case Done =>
  }

  // --------------------------------------------- exactly when the login is lost

  /** The name on record, at each stage of a pass. */
  lemma NameOnRecord(c: Config, first: World, pc: Pc)
    requires OnPath(c, first, pc)
    ensures var name := WorldAt(c, first, pc).status.login;
      && (Rank(StageOf(pc)) == 0 ==> name == first.status.login)
      && (Rank(StageOf(pc)) == 1 ==> name == StatusAtLogin(first).login)
      && (Rank(StageOf(pc)) == 2 ==> name == StatusAtSlot(c, first).login)
      && (Rank(StageOf(pc)) == 3 ==> name == StatusAtSlot(c, first).login || name == c.login)
  {
  }

  /** The name is off the record past the login stage exactly when it is lost. */
  lemma LostIff(c: Config, first: World)
    requires WellFormed(c, first) && Startable(c, first)
    ensures (exists n: nat :: var (w, p) := Steps(c, first, n); Rank(StageOf(p.pc)) >= 2 && w.status.login != c.login)
       <==> Lost(c, first)
  {
    var m := ComesTo(c, first, MakeSlot);
    if n: nat :| Rank(StageOf(Steps(c, first, n).1.pc)) >= 2 && Steps(c, first, n).0.status.login != c.login {
      StepsAreTraced(c, first, n);
      RefusedOnlyIf(c, first, n);
      NameOnRecord(c, first, Steps(c, first, n).1.pc);
    }
  }

  /**
   And a login or a membership that was recorded when the pass began is off the
   record outside the login stage, at some step, exactly when the publication
   had to be made again and the record of the login is not rewritten.
   */
  lemma LoginOffRecordIff(c: Config, first: World, x: Thing)
    requires WellFormed(c, first) && Startable(c, first)
    requires (x.TheLogin? || x.TheGrant?) && MadeByOperator(c, first, x) && Known(c, first.status, x)
    ensures (exists n: nat :: !StageOf(Steps(c, first, n).1.pc).LoginStage? && Unrecorded(c, Steps(c, first, n).0, x))
       <==> first.publication.Absent? && !RewritesLogin(c, first)
  {
    if first.publication.Absent? && !RewritesLogin(c, first) {
      var m := ComesTo(c, first, MakeSlot);
      assert Unrecorded(c, Steps(c, first, m).0, x);
    }
    if n: nat :| !StageOf(Steps(c, first, n).1.pc).LoginStage? && Unrecorded(c, Steps(c, first, n).0, x) {
      OneStageUnrecorded(c, first, n, x);
    }
  }

  // ------------------------------------------------------------- many passes

  lemma WorldIsFormed(c: Config, first: World, pc: Pc)
    requires WellFormed(c, first) && OnPath(c, first, pc)
    ensures WellFormed(c, WorldAt(c, first, pc))
  {
    if Rank(StageOf(pc)) < 2 {
      EarlyIsFormed(c, first, pc);
    } else {
      LateIsFormed(c, first, pc);
    }
  }

  lemma EarlyIsFormed(c: Config, first: World, pc: Pc)
    requires WellFormed(c, first) && OnPath(c, first, pc) && Rank(StageOf(pc)) < 2
    ensures WellFormed(c, WorldAt(c, first, pc))
  {
    match pc
    case Start =>
    case MakePublication =>
    case MarkPublication =>
    case RecordPublication =>
    case TakeLogin =>
    case MarkLogin =>
    case GrantStreaming =>
    case WriteSecret =>
    case GrantReading =>
    case RecordLogin =>
  }

  lemma LateIsFormed(c: Config, first: World, pc: Pc)
    requires WellFormed(c, first) && OnPath(c, first, pc) && Rank(StageOf(pc)) >= 2
    ensures WellFormed(c, WorldAt(c, first, pc))
  {
    KeptIsFormed(c, first);
    LoginIsKept(c, first, pc);
    LateStatusIsFormed(c, first, pc);
  }

  lemma KeptIsFormed(c: Config, first: World)
    requires WellFormed(c, first)
    ensures WellFormed(c, LoginKept(c, first))
  {
  }

  lemma LateStatusIsFormed(c: Config, first: World, pc: Pc)
    requires WellFormed(c, first) && OnPath(c, first, pc) && Rank(StageOf(pc)) >= 2
    ensures var w := WorldAt(c, first, pc);
      && (c.provided ==> !w.status.created.login && !w.status.created.secret)
      && (w.subscription.Subscribed? ==> w.subscription.what.There?)
  {
  }

  /** Passes one after another, each stopped after so many steps. */
  function AfterStops(c: Config, w: World, stops: seq<nat>): World {
    if stops == [] then w else Steps(c, AfterStops(c, w, stops[..|stops| - 1]), stops[|stops| - 1]).0
  }

  ghost predicate FromStages(c: Config, first: World, w: World, stages: seq<Stage>) {
    forall x :: Unrecorded(c, w, x) ==> Unrecorded(c, first, x) || exists i :: 0 <= i < |stages| && MadeIn(stages[i], x)
  }

  /** Some pass of the run begins where the record of the login gets lost. */
  ghost predicate LosesOnTheWay(c: Config, first: World, stops: seq<nat>) {
    exists i :: 0 <= i < |stops| && LosesLogin(c, AfterStops(c, first, stops[..i]))
  }

  /**
   Each pass that is interrupted adds the objects of at most one stage to those
   on no record. If one of them loses the record of the login on the way, what
   is the login's comes to it once, however many interruptions follow.
   */
  lemma {:induction false} OneStagePerStop(c: Config, first: World, stops: seq<nat>) returns (stages: seq<Stage>)
    requires WellFormed(c, first)
    ensures |stages| == |stops| + if LosesOnTheWay(c, first, stops) then 1 else 0
    ensures FromStages(c, first, AfterStops(c, first, stops), stages)
  {
    stages := StagesOfStops(c, first, stops);
    if LosesOnTheWay(c, first, stops) {
      var before := stages;
      stages := before + [LoginStage];
      forall x | Unrecorded(c, AfterStops(c, first, stops), x)
        ensures Unrecorded(c, first, x) || exists i :: 0 <= i < |stages| && MadeIn(stages[i], x)
      {
        if OfLogin(x) {
          assert MadeIn(stages[|before|], x);
        } else if !Unrecorded(c, first, x) {
          var i :| 0 <= i < |before| && MadeIn(before[i], x);
          assert stages[i] == before[i];
        }
      }
    }
  }

  lemma {:induction false} StagesOfStops(c: Config, first: World, stops: seq<nat>) returns (stages: seq<Stage>)
    requires WellFormed(c, first)
    ensures |stages| == |stops|
    ensures forall x :: Unrecorded(c, AfterStops(c, first, stops), x) ==>
      || Unrecorded(c, first, x) || (exists i :: 0 <= i < |stages| && MadeIn(stages[i], x))
      || (LosesOnTheWay(c, first, stops) && OfLogin(x))
  {
    stages := [];
    if stops != [] {
      var k := |stops| - 1;
      var before := StagesOfStops(c, first, stops[..k]);
      var w := AfterStops(c, first, stops[..k]);
      StaysFormed(c, first, stops[..k]);
      LosesLater(c, first, stops);
      var (v, p) := Steps(c, w, stops[k]);
      stages := before + [StageOf(p.pc)];
      forall x | Unrecorded(c, v, x)
        ensures || Unrecorded(c, first, x) || (exists i :: 0 <= i < |stages| && MadeIn(stages[i], x))
                || (LosesOnTheWay(c, first, stops) && OfLogin(x))
      {
        OneStageUnrecorded(c, w, stops[k], x);
        if MadeIn(StageOf(p.pc), x) {
          assert stages[k] == StageOf(p.pc);
        } else if i :| 0 <= i < |before| && MadeIn(before[i], x) {
          assert stages[i] == before[i];
        }
      }
    }
  }

  lemma LosesLater(c: Config, first: World, stops: seq<nat>)
    requires stops != []
    ensures var k := |stops| - 1;
      LosesOnTheWay(c, first, stops) <==>
        LosesOnTheWay(c, first, stops[..k]) || LosesLogin(c, AfterStops(c, first, stops[..k]))
  {
    var k := |stops| - 1;
    forall i | 0 <= i <= k ensures i < k ==> stops[..k][..i] == stops[..i] {
    }
  }

  lemma {:induction false} StaysFormed(c: Config, first: World, stops: seq<nat>)
    requires WellFormed(c, first)
    ensures WellFormed(c, AfterStops(c, first, stops))
  {
    if stops != [] {
      var k := |stops| - 1;
      StaysFormed(c, first, stops[..k]);
      var w := AfterStops(c, first, stops[..k]);
      StepsAreTraced(c, w, stops[k]);
      WorldIsFormed(c, w, Standstill(c, w, Steps(c, w, stops[k]).1.pc));
    }
  }

  /**
   With a login of the operator's own, whatever interruptions came before, a
   pass that completes has everything on the record again: also a login whose
   record was lost on the way.
   */
  lemma CompletionRecovers(c: Config, first: World, stops: seq<nat>, x: Thing)
    requires WellFormed(c, first) && !c.provided
    requires Startable(c, AfterStops(c, first, stops))
    ensures !Unrecorded(c, AfterStops(c, first, stops + [WHOLE_PASS]), x)
  {
    var w := AfterStops(c, first, stops);
    StaysFormed(c, first, stops);
    CompletesIff(c, w);
    assert (stops + [WHOLE_PASS])[..|stops|] == stops;
    CompletedRecordsAll(c, w, WHOLE_PASS, x);
  }

  // ------------------------------------- exactly when two stages are missing

  /** A publication that was found and taken is not on the record yet. */
  predicate Unwritten(c: Config, first: World, pc: Pc) {
    match pc
    case MakeSlot | RecordSlot => !RewritesLogin(c, first)
    case MakeSubscription | MarkSubscription | RecordSubscription =>
      !RewritesLogin(c, first) && first.status.created.slot
    case Finish => !RewritesLogin(c, first) && !MakesSubscription(first)
    case Done => false
    case _ => true
  }

  /** Where a pass stands after so many steps; refused, where it was refused. */
  function StandsAt(c: Config, first: World, n: nat): Pc {
    Standstill(c, first, PcAfter(c, first, n))
  }

  /**
   Exactly how long a publication that is found, and taken, stays off the
   record: to the end of the login stage; and beyond if the record of the login
   need not be rewritten, until a slot or a subscription is recorded.
   */
  lemma AdoptedStaysUnrecordedIff(c: Config, first: World, n: nat)
    requires WellFormed(c, first) && Unrecorded(c, first, ThePublication)
    ensures Unrecorded(c, Steps(c, first, n).0, ThePublication) <==> Unwritten(c, first, StandsAt(c, first, n))
    ensures Unwritten(c, first, StandsAt(c, first, n)) ==> Steps(c, first, n).0.status == first.status
  {
    StepsAreTraced(c, first, n);
    UnwrittenIff(c, first, StandsAt(c, first, n));
  }

  lemma UnwrittenIff(c: Config, first: World, pc: Pc)
    requires Unrecorded(c, first, ThePublication) && OnPath(c, first, pc)
    ensures Unrecorded(c, WorldAt(c, first, pc), ThePublication) <==> Unwritten(c, first, pc)
    ensures Unwritten(c, first, pc) ==> WorldAt(c, first, pc).status == first.status
  {
    if Rank(StageOf(pc)) >= 2 {
      LoginIsKept(c, first, pc);
    }
  }

  /** What the operator has made by now: what it had made before, and what this pass has come to make. */
  predicate Made(c: Config, first: World, pc: Pc, x: Thing) {
    match x
    case ThePublication => if first.publication.There? then first.publication.mine else Beyond(pc, MakePublication)
    case TheLogin => !c.provided && if first.role.There? then first.role.mine else Beyond(pc, TakeLogin)
    case TheSecret => !c.provided && (first.secret || Beyond(pc, WriteSecret))
    case TheSlot =>
      if first.slot.SlotThere? then first.slot.mine else MakesSubscription(first) && Beyond(pc, MakeSlot)
    case TheSubscription =>
      if first.subscription.Subscribed? then first.subscription.what.There? && first.subscription.what.mine
      else Beyond(pc, MakeSubscription)
    case TheGrant(group) =>
      || group in first.given
      || (group in Streaming(c, first) && Beyond(pc, GrantStreaming))
      || (group in Reading(c, first) && Beyond(pc, GrantReading))
  }

  lemma MadeIff(c: Config, first: World, pc: Pc, x: Thing)
    requires OnPath(c, first, pc)
    ensures MadeByOperator(c, WorldAt(c, first, pc), x) <==> Made(c, first, pc, x)
  {
    if x.TheGrant? {
      GrantMadeIff(c, first, pc, x);
    } else if Rank(StageOf(pc)) < 2 {
      EarlyMadeIff(c, first, pc, x);
    } else {
      LateMadeIff(c, first, pc, x);
    }
  }

  lemma EarlyMadeIff(c: Config, first: World, pc: Pc, x: Thing)
    requires OnPath(c, first, pc) && !x.TheGrant? && Rank(StageOf(pc)) < 2
    ensures MadeByOperator(c, WorldAt(c, first, pc), x) <==> Made(c, first, pc, x)
  {
    match pc
    case Start =>
    case MakePublication =>
    case MarkPublication =>
    case RecordPublication =>
    case TakeLogin =>
    case MarkLogin =>
    case GrantStreaming =>
    case WriteSecret =>
    case GrantReading =>
    case RecordLogin =>
  }

  lemma LateMadeIff(c: Config, first: World, pc: Pc, x: Thing)
    requires OnPath(c, first, pc) && !x.TheGrant? && Rank(StageOf(pc)) >= 2
    ensures MadeByOperator(c, WorldAt(c, first, pc), x) <==> Made(c, first, pc, x)
  {
    if x.TheSlot? || x.TheSubscription? {
      SlotOrSubscriptionMadeIff(c, first, pc, x);
    } else {
      LoginIsKept(c, first, pc);
      KeptMadeIff(c, first, pc, x);
    }
  }

  lemma KeptMadeIff(c: Config, first: World, pc: Pc, x: Thing)
    requires Rank(StageOf(pc)) >= 2 && pc != Refused && (x.ThePublication? || x.TheLogin? || x.TheSecret?)
    ensures MadeByOperator(c, LoginKept(c, first), x) <==> Made(c, first, pc, x)
  {
  }

  lemma SlotOrSubscriptionMadeIff(c: Config, first: World, pc: Pc, x: Thing)
    requires OnPath(c, first, pc) && Rank(StageOf(pc)) >= 2 && (x.TheSlot? || x.TheSubscription?)
    ensures MadeByOperator(c, WorldAt(c, first, pc), x) <==> Made(c, first, pc, x)
  {
    LateObjects(c, first, pc);
  }

  lemma LateObjects(c: Config, first: World, pc: Pc)
    requires OnPath(c, first, pc) && Rank(StageOf(pc)) >= 2
    ensures WorldAt(c, first, pc).slot ==
      if MakesSubscription(first) && first.slot.NoSlot? && Beyond(pc, MakeSlot) then SlotThere(true, true, false)
      else first.slot
    ensures WorldAt(c, first, pc).subscription ==
      if MakesSubscription(first) && Beyond(pc, MakeSubscription)
      then Subscribed(There(true, pc != MarkSubscription), c.nextOid)
      else first.subscription
  {
    match pc
    case MakeSlot =>
    case RecordSlot =>
    case MakeSubscription =>
    case MarkSubscription =>
    case RecordSubscription =>
    case Finish =>
    case Done =>
  }

  lemma GrantMadeIff(c: Config, first: World, pc: Pc, x: Thing)
    requires OnPath(c, first, pc) && x.TheGrant?
    ensures MadeByOperator(c, WorldAt(c, first, pc), x) <==> Made(c, first, pc, x)
  {
    KeptGrants(c, first);
    if Rank(StageOf(pc)) < 2 {
      EarlyGrantMadeIff(c, first, pc, x);
    } else {
      LoginIsKept(c, first, pc);
    }
  }

  lemma KeptGrants(c: Config, first: World)
    ensures c.provided ==> Streaming(c, first) == {}
    ensures LoginKept(c, first).given == first.given + Streaming(c, first) + Reading(c, first)
  {
    if c.provided {
      assert Streaming(c, first) == {};
    }
  }

  lemma EarlyGrantMadeIff(c: Config, first: World, pc: Pc, x: Thing)
    requires OnPath(c, first, pc) && x.TheGrant? && Rank(StageOf(pc)) < 2 && (c.provided ==> Streaming(c, first) == {})
    ensures MadeByOperator(c, WorldAt(c, first, pc), x) <==> Made(c, first, pc, x)
  {
    match pc
    case Start =>
    case MakePublication =>
    case MarkPublication =>
    case RecordPublication =>
    case TakeLogin =>
    case MarkLogin =>
    case GrantStreaming =>
    case WriteSecret =>
    case GrantReading =>
    case RecordLogin =>
  }

  /**
   So exactly when another object is missing from the record beside it, for
   every stop of every pass: the publication is still unwritten, and the object
   has been made by then and was not recorded when the pass began.
   */
  lemma TwoStagesMissingIff(c: Config, first: World, n: nat, x: Thing)
    requires WellFormed(c, first) && Unrecorded(c, first, ThePublication)
    ensures var w, pc := Steps(c, first, n).0, StandsAt(c, first, n);
      (Unrecorded(c, w, ThePublication) && Unrecorded(c, w, x))
        <==> (Unwritten(c, first, pc) && Made(c, first, pc, x) && !Known(c, first.status, x))
  {
    StepsAreTraced(c, first, n);
    AdoptedStaysUnrecordedIff(c, first, n);
    MadeIff(c, first, StandsAt(c, first, n), x);
  }

  // --------------------------------------------------------- what may be missed

  function Fresh(status: Status): World {
    World(Absent, Absent, false, {}, {}, NoSlot, NoSubscription, status)
  }

  const NONE_CREATED: Created := Created(false, false, false, false, false)

  const OWN_LOGIN: Config := Config(false, "repl", None, "readers", true, 16400)

  lemma Unrolled(c: Config, w: World)
    ensures Steps(c, w, 0) == (w, Begin(w))
    ensures Steps(c, w, 1) == Step(c, w, Begin(w))
    ensures forall n: nat :: Steps(c, w, n + 1) == Step(c, Steps(c, w, n).0, Steps(c, w, n).1)
  {
  }

  /** Two interruptions, and two stages are missing: a publication found and taken is not written down. */
  lemma TwoStagesMayBeMissing()
    ensures var first := Fresh(Status(NONE_CREATED, {}, "", None));
            var w := AfterStops(OWN_LOGIN, first, [3, 4]);
      WellFormed(OWN_LOGIN, first) && Unrecorded(OWN_LOGIN, w, ThePublication) && Unrecorded(OWN_LOGIN, w, TheLogin)
  {
    var first := Fresh(Status(NONE_CREATED, {}, "", None));
    Unrolled(OWN_LOGIN, first);
    var v := first.(publication := There(true, true));
    assert Steps(OWN_LOGIN, first, 2).1.pc == MarkPublication;
    assert Steps(OWN_LOGIN, first, 3).0 == v;
    Unrolled(OWN_LOGIN, v);
    assert Steps(OWN_LOGIN, v, 2).1.pc == TakeLogin;
    assert Steps(OWN_LOGIN, v, 3).1.pc == MarkLogin;
    assert Steps(OWN_LOGIN, v, 4).0 == v.(role := There(true, true));
    assert AfterStops(OWN_LOGIN, first, [3]) == v by {
      assert [3][..0] == [];
    }
    assert [3, 4][..1] == [3];
  }

  /** Refused for its own unmarked object, a replication stays refused: no later pass changes anything. */
  lemma {:induction false} RefusedForGood(c: Config, first: World, stops: seq<nat>)
    requires NameTaken(c, first)
    ensures AfterStops(c, first, stops) == first
  {
    if stops != [] {
      RefusedForGood(c, first, stops[..|stops| - 1]);
      NameTakenMakesNothing(c, first, stops[|stops| - 1]);
    }
  }

  const PROVIDED_LOGIN: Config := Config(true, "theirs", None, "readers", true, 16400)

  /** What a first pass with a provided login leaves if it stops before recording what it granted. */
  const GRANTED_ONLY: World :=
    World(There(true, true), There(false, false), false, {"readers"}, {"readers"}, NoSlot, NoSubscription,
      Status(NONE_CREATED.(publication := true), {}, "", None))

  lemma FirstPassGrants()
    ensures var first := Fresh(Status(NONE_CREATED, {}, "", None)).(role := There(false, false));
      Steps(PROVIDED_LOGIN, first, 6).0 == GRANTED_ONLY
  {
    var first := Fresh(Status(NONE_CREATED, {}, "", None)).(role := There(false, false));
    Unrolled(PROVIDED_LOGIN, first);
    assert Steps(PROVIDED_LOGIN, first, 1) == (first, Begin(first).(pc := MakePublication));
    assert Steps(PROVIDED_LOGIN, first, 2).1.pc == MarkPublication;
    assert Steps(PROVIDED_LOGIN, first, 3).1.pc == RecordPublication;
    assert Steps(PROVIDED_LOGIN, first, 4).1.pc == TakeLogin;
    assert Steps(PROVIDED_LOGIN, first, 5).1.pc == GrantReading;
    assert Steps(PROVIDED_LOGIN, first, 6).0.held == {"readers"};
  }

  /** It keeps that membership, which no later record mentions: the next pass finds it held, and completes. */
  lemma ProvidedGrantMissed()
    ensures var first := Fresh(Status(NONE_CREATED, {}, "", None)).(role := There(false, false));
      Steps(PROVIDED_LOGIN, first, 6).0 == GRANTED_ONLY
    ensures WellFormed(PROVIDED_LOGIN, GRANTED_ONLY) && Unrecorded(PROVIDED_LOGIN, GRANTED_ONLY, TheGrant("readers"))
    ensures Steps(PROVIDED_LOGIN, GRANTED_ONLY, WHOLE_PASS).1.pc == Done
    ensures Unrecorded(PROVIDED_LOGIN, Steps(PROVIDED_LOGIN, GRANTED_ONLY, WHOLE_PASS).0, TheGrant("readers"))
  {
    FirstPassGrants();
    CompletesIff(PROVIDED_LOGIN, GRANTED_ONLY);
    CompletedRecordsAll(PROVIDED_LOGIN, GRANTED_ONLY, WHOLE_PASS, TheGrant("readers"));
  }

  /** A replication whose login is recorded loses that record on the way exactly when its publication has gone. */
  lemma LoginForgottenIff(c: Config, first: World)
    requires WellFormed(c, first) && Startable(c, first) && first.status.login == c.login
    ensures (exists n :: Steps(c, first, n).0.status.login == "") <==> first.publication.Absent?
  {
    if first.publication.Absent? {
      var m := ComesTo(c, first, TakeLogin);
      assert Steps(c, first, m).0.status.login == "";
    }
    if n: nat :| Steps(c, first, n).0.status.login == "" {
      StepsAreTraced(c, first, n);
      RefusedOnlyIf(c, first, n);
      NameOnRecord(c, first, Steps(c, first, n).1.pc);
    }
  }

  /**
   The number of a subscription, on record when a pass begins, is missing from
   the record on the way exactly when the publication has to be made again or
   the record of the login has to be rewritten. It is back once the pass ends.
   */
  lemma NumberForgottenIff(c: Config, first: World)
    requires Startable(c, first) && first.subscription.Subscribed? && first.status.oid == Some(first.subscription.oid)
    ensures (exists n: nat :: Steps(c, first, n).0.status.oid.None?)
       <==> first.publication.Absent? || RewritesLogin(c, first)
    ensures Steps(c, first, WHOLE_PASS).0.status.oid == Some(first.subscription.oid)
  {
    CompletesIff(c, first);
    StepsAreTraced(c, first, WHOLE_PASS);
    var m := ComesTo(c, first, Finish);
    NumberOnRecord(c, first, Finish);
    if n: nat :| Steps(c, first, n).0.status.oid.None? {
      StepsAreTraced(c, first, n);
      RefusedOnlyIf(c, first, n);
      NumberOnRecord(c, first, Steps(c, first, n).1.pc);
    }
  }

  /** The number on record, at each stage of a pass that finds a subscription. */
  lemma NumberOnRecord(c: Config, first: World, pc: Pc)
    requires OnPath(c, first, pc) && !MakesSubscription(first)
    ensures WorldAt(c, first, pc).status.oid ==
      if pc == Done then Some(first.subscription.oid)
      else if Rank(StageOf(pc)) == 0 then first.status.oid
      else if first.publication.Absent? || (Rank(StageOf(pc)) >= 2 && RewritesLogin(c, first)) then None
      else first.status.oid
  {
  }

  /** Two ways to lose it: a publication dropped by somebody, and a credential that is swapped. */
  lemma NumberLost(c: Config, first: World)
    requires Startable(c, first) && first.subscription.Subscribed? && first.status.oid == Some(first.subscription.oid)
    requires first.publication.Absent? || first.status.created.login == c.provided
    ensures exists n: nat :: Steps(c, first, n).0.status.oid.None?
  {
    NumberForgottenIff(c, first);
  }
}
