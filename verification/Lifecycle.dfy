/**
 One pass of a replication as a machine of single steps, any of which may be
 the last: the objects it makes on both servers, the marks it leaves on them,
 and the status it writes along the way.
 */
module Lifecycle {
  import opened Wrappers

  /** Who made an object, and whether it carries this replication's mark. */
  datatype Object = Absent | There(mine: bool, marked: bool)

  datatype Slot = NoSlot | SlotThere(mine: bool, ourDatabase: bool, active: bool)

  datatype Subscription = NoSubscription | Subscribed(what: Object, oid: nat)

  datatype Created = Created(publication: bool, login: bool, secret: bool, slot: bool, subscription: bool)

  /** The persisted record. No login is recorded as an empty name. */
  datatype Status = Status(created: Created, granted: set<string>, login: string, oid: Option<nat>)

  /** Both servers and Kubernetes. `held` are the login's memberships, `given` those the operator granted. */
  datatype World = World(
    publication: Object, role: Object, secret: bool, held: set<string>, given: set<string>,
    slot: Slot, subscription: Subscription, status: Status)

  /** What stays fixed: whether the login is provided, its name, and the groups it needs. */
  datatype Config = Config(
    provided: bool, login: string, streamGroup: Option<string>, readGroup: string, slotsFree: bool, nextOid: nat)

  /** Where a pass is: the step it is about to take. */
  datatype Pc =
    | Start
    | MakePublication | MarkPublication | RecordPublication
    | TakeLogin | MarkLogin | GrantStreaming | WriteSecret | GrantReading | RecordLogin
    | MakeSlot | RecordSlot
    | MakeSubscription | MarkSubscription | RecordSubscription
    | Finish
    | Done | Refused

  /** What a pass knows and has not written yet, beside the status it started from. */
  datatype Pass = Pass(
    pc: Pc, existing: Status, created: Created, granted: set<string>, login: string, oid: Option<nat>,
    createdBefore: Created, grantedBefore: set<string>)

  function Begin(w: World): Pass {
    Pass(Start, w.status, w.status.created, w.status.granted, "", None, w.status.created, w.status.granted)
  }

  predicate Foreign(o: Object, recorded: bool) {
    o.There? && !o.marked && !recorded
  }

  /** Going by marks and records, one of its names is in use for something that is not its own. */
  predicate NameTaken(c: Config, w: World) {
    (w.subscription.Subscribed? && Foreign(w.subscription.what, w.status.created.subscription))
    || Foreign(w.publication, w.status.created.publication)
    || (!c.provided && Foreign(w.role, w.status.created.login))
  }

  predicate Usable(slot: Slot) {
    slot.NoSlot? || (slot.ourDatabase && !slot.active)
  }

  function Written(p: Pass): Status {
    Status(p.created, p.granted, p.login, p.oid)
  }

  /** The login as a pass has it once it has it: a recorded grant stands only for the same login. */
  function WithLogin(c: Config, p: Pass): Pass {
    p.(login := c.login,
       granted := p.granted + (if p.existing.login == c.login then p.grantedBefore else {}),
       created := p.created.(login := !c.provided, secret := !c.provided))
  }

  /** Grants a group unless the login has it already. */
  function Grant(w: World, group: string): World {
    if group in w.held then w else w.(held := w.held + {group}, given := w.given + {group})
  }

  function Granting(w: World, p: Pass, group: string): Pass {
    if group in w.held then p else p.(granted := p.granted + {group})
  }

  /** One step. Whatever fails, fails before or after one. */
  function Step(c: Config, w: World, p: Pass): (World, Pass) {
    match p.pc
    case Start =>
      if NameTaken(c, w) || (w.subscription.NoSubscription? && !c.slotsFree) then (w, p.(pc := Refused))
      else (w, p.(pc := MakePublication))
    case MakePublication =>
      var known := p.(created := p.created.(publication := true));
      if w.publication.Absent? then (w.(publication := There(true, false)), known.(pc := MarkPublication))
      else (w, Entering(known))
    case MarkPublication =>
      (w.(publication := There(true, true)), p.(pc := RecordPublication))
    case RecordPublication =>
      (w.(status := Written(p)), Entering(p))
    case TakeLogin =>
      if c.provided then (w, WithLogin(c, p).(pc := GrantReading))
      else if w.role.Absent? then (w.(role := There(true, false)), p.(pc := MarkLogin))
      else (w, p.(pc := GrantStreaming))
    case MarkLogin =>
      (w.(role := There(true, true)), p.(pc := GrantStreaming))
    case GrantStreaming =>
      if c.streamGroup.None? then (w, p.(pc := WriteSecret))
      else (Grant(w, c.streamGroup.value), Granting(w, p, c.streamGroup.value).(pc := WriteSecret))
    case WriteSecret =>
      (w.(secret := true), WithLogin(c, p).(pc := GrantReading))
    case GrantReading =>
      (Grant(w, c.readGroup), Granting(w, p, c.readGroup).(pc := RecordLogin))
    case RecordLogin =>
      if p.created != p.createdBefore || p.granted != p.grantedBefore then (w.(status := Written(p)), p.(pc := MakeSlot))
      else (w, p.(pc := MakeSlot))
    case MakeSlot =>
      if w.subscription.Subscribed? then
        (w, p.(created := p.created.(subscription := true), oid := Some(w.subscription.oid), pc := Finish))
      else if !Usable(w.slot) then (w, p.(pc := Refused))
      else if w.slot.NoSlot? then (w.(slot := SlotThere(true, true, false)), p.(pc := RecordSlot))
      else (w, p.(pc := RecordSlot))
    case RecordSlot =>
      var known := p.(created := p.created.(slot := true), pc := MakeSubscription);
      if p.created.slot then (w, known) else (w.(status := Written(known)), known)
    case MakeSubscription =>
      (w.(subscription := Subscribed(There(true, false), c.nextOid)), p.(pc := MarkSubscription))
    case MarkSubscription =>
      (w.(subscription := Subscribed(There(true, true), c.nextOid)), p.(pc := RecordSubscription))
    case RecordSubscription =>
      var known := p.(created := p.created.(subscription := true), oid := Some(c.nextOid), pc := Finish);
      (w.(status := Written(known)), known)
    case Finish =>
      (w.(status := Written(p)), p.(pc := Done))
    case Done => (w, p)
    case Refused => (w, p)
  }

  /** Coming to the login, a pass starts its list of grants afresh and remembers what was known. */
  function Entering(p: Pass): Pass {
    p.(pc := TakeLogin, createdBefore := p.created, grantedBefore := p.granted, granted := {})
  }

  /** The first `n` steps of a pass. */
  function Steps(c: Config, w: World, n: nat): (World, Pass) {
    if n == 0 then (w, Begin(w))
    else var (v, p) := Steps(c, w, n - 1); Step(c, v, p)
  }

  // ------------------------------------------------- what a teardown would miss

  datatype Thing = ThePublication | TheLogin | TheSecret | TheSlot | TheSubscription | TheGrant(group: string)

  predicate MadeByOperator(c: Config, w: World, x: Thing) {
    match x
    case ThePublication => w.publication.There? && w.publication.mine
    case TheLogin => !c.provided && w.role.There? && w.role.mine
    case TheSecret => !c.provided && w.secret
    case TheSlot => w.slot.SlotThere? && w.slot.mine
    case TheSubscription => w.subscription.Subscribed? && w.subscription.what.There? && w.subscription.what.mine
    case TheGrant(group) => group in w.given
  }

  /** Whether a teardown reading this status would come to it. Dropping the operator's own login takes its grants. */
  predicate Known(c: Config, s: Status, x: Thing) {
    match x
    case ThePublication => s.created.publication
    case TheLogin => s.created.login && s.login == c.login
    case TheSecret => s.created.secret
    case TheSlot => s.created.slot || s.created.subscription
    case TheSubscription => s.created.subscription
    case TheGrant(group) => s.login == c.login && (s.created.login || group in s.granted)
  }

  predicate Unrecorded(c: Config, w: World, x: Thing) {
    MadeByOperator(c, w, x) && !Known(c, w.status, x)
  }

  predicate OfLogin(x: Thing) {
    x.TheLogin? || x.TheSecret? || x.TheGrant?
  }

  datatype Stage = PublicationStage | LoginStage | SlotStage | SubscriptionStage

  predicate MadeIn(stage: Stage, x: Thing) {
    match stage
    case PublicationStage => x.ThePublication?
    case LoginStage => OfLogin(x)
    case SlotStage => x.TheSlot?
    case SubscriptionStage => x.TheSubscription?
  }

  /** The stage a pass is in, whose objects may not be recorded yet. */
  function StageOf(pc: Pc): Stage {
    match pc
    case Start | MakePublication | MarkPublication | RecordPublication => PublicationStage
    case TakeLogin | MarkLogin | GrantStreaming | WriteSecret | GrantReading | RecordLogin => LoginStage
    case MakeSlot | RecordSlot => SlotStage
    case MakeSubscription | MarkSubscription | RecordSubscription | Finish | Done | Refused => SubscriptionStage
  }

  /** Only the operator marks objects, and a status for a provided login records no login of the operator's. */
  ghost predicate WellFormed(c: Config, w: World) {
    && c.login != "" && (c.streamGroup.Some? ==> c.streamGroup.value != c.readGroup)
    && (w.publication.There? && w.publication.marked ==> w.publication.mine)
    && (w.role.There? && w.role.marked ==> w.role.mine)
    && (w.subscription.Subscribed? ==> w.subscription.what.There?)
    && w.given <= w.held
    && (c.provided ==> !w.status.created.login && !w.status.created.secret)
  }
}
