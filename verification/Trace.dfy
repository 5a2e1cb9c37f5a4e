/**
 Where a pass stands is all there is to know of it: the world, the status and
 what the pass has gathered are functions of the step it is about to take and
 of the world it began in.
 */
module Trace {
  import opened Wrappers
  import opened Lifecycle

  // ------------------------------------------------------- what a pass comes to

  /** The right to stream, if it is a group and the login lacks it. */
  function Streaming(c: Config, first: World): set<string> {
    (if !c.provided && c.streamGroup.Some? then {c.streamGroup.value} else {}) - first.held
  }

  /** The group read through, if the login lacks it. */
  function Reading(c: Config, first: World): set<string> {
    {c.readGroup} - first.held
  }

  /** The grants on record, if they are this login's. */
  function Standing(c: Config, first: World): set<string> {
    if first.status.login == c.login then first.status.granted else {}
  }

  /** The login is not what the record says: a flag, or the list of what it was granted. */
  predicate RewritesLogin(c: Config, first: World) {
    || first.status.created.login != !c.provided || first.status.created.secret != !c.provided
    || first.status.granted != Streaming(c, first) + Standing(c, first) + Reading(c, first)
  }

  predicate MakesSubscription(first: World) {
    first.subscription.NoSubscription?
  }

  // ---------------------------------------------------------------- the status

  function AfterPublication(first: World): Created {
    first.status.created.(publication := true)
  }

  function AfterLogin(c: Config, first: World): Created {
    AfterPublication(first).(login := !c.provided, secret := !c.provided)
  }

  /** The end of a pass: a subscription found has its slot recorded or not, one made has. */
  function AtTheEnd(c: Config, first: World): Created {
    if MakesSubscription(first) then AfterLogin(c, first).(slot := true, subscription := true)
    else AfterLogin(c, first).(subscription := true)
  }

  function GrantedInAll(c: Config, first: World): set<string> {
    Streaming(c, first) + Standing(c, first) + Reading(c, first)
  }

  function Number(c: Config, first: World): nat {
    if first.subscription.Subscribed? then first.subscription.oid else c.nextOid
  }

  /** The record while a pass is at its login: the publication's, if it had to be made. */
  function StatusAtLogin(first: World): Status {
    if first.publication.Absent? then Status(AfterPublication(first), first.status.granted, "", None)
    else first.status
  }

  /** The record once the login is past: the login's, if that had to be rewritten. */
  function StatusAtSlot(c: Config, first: World): Status {
    if RewritesLogin(c, first) then Status(AfterLogin(c, first), GrantedInAll(c, first), c.login, None)
    else StatusAtLogin(first)
  }

  /** The record while a subscription is being made: the slot's, if that was not recorded. */
  function StatusAtSubscription(c: Config, first: World): Status {
    if first.status.created.slot then StatusAtSlot(c, first)
    else Status(AfterLogin(c, first).(slot := true), GrantedInAll(c, first), c.login, None)
  }

  function StatusAtEnd(c: Config, first: World): Status {
    Status(AtTheEnd(c, first), GrantedInAll(c, first), c.login, Some(Number(c, first)))
  }

  // ----------------------------------------------------------------- the world

  /** With the publication there. */
  function Published(first: World): World {
    if first.publication.Absent? then first.(publication := There(true, true), status := StatusAtLogin(first))
    else first
  }

  /** With the operator's own role there. */
  function Housed(first: World): World {
    if first.role.Absent? then Published(first).(role := There(true, true)) else Published(first)
  }

  function Granted(w: World, groups: set<string>): World {
    w.(held := w.held + groups, given := w.given + groups)
  }

  /** With a login that needs only to be let in to read. */
  function Settled(c: Config, first: World): World {
    if c.provided then Published(first) else Granted(Housed(first), Streaming(c, first)).(secret := true)
  }

  /** With the login as it is to be. */
  function LoggedIn(c: Config, first: World): World {
    Granted(Settled(c, first), Reading(c, first))
  }

  /** And recorded. */
  function LoginKept(c: Config, first: World): World {
    LoggedIn(c, first).(status := StatusAtSlot(c, first))
  }

  /** With the slot that is to be subscribed to. */
  function Slotted(c: Config, first: World): World {
    if first.slot.NoSlot? then LoginKept(c, first).(slot := SlotThere(true, true, false)) else LoginKept(c, first)
  }

  function SlotKept(c: Config, first: World): World {
    Slotted(c, first).(status := StatusAtSubscription(c, first))
  }

  function WorldAt(c: Config, first: World, pc: Pc): World {
    match pc
    case Start | MakePublication | Refused => first
    case MarkPublication => first.(publication := There(true, false))
    case RecordPublication => first.(publication := There(true, true))
    case TakeLogin => Published(first)
    case MarkLogin => Published(first).(role := There(true, false))
    case GrantStreaming => Housed(first)
    case WriteSecret => Granted(Housed(first), Streaming(c, first))
    case GrantReading => Settled(c, first)
    case RecordLogin => LoggedIn(c, first)
    case MakeSlot => LoginKept(c, first)
    case RecordSlot => Slotted(c, first)
    case MakeSubscription => SlotKept(c, first)
    case MarkSubscription => SlotKept(c, first).(subscription := Subscribed(There(true, false), c.nextOid))
    case RecordSubscription => SlotKept(c, first).(subscription := Subscribed(There(true, true), c.nextOid))
    case Finish => if MakesSubscription(first) then AtLast(c, first) else LoginKept(c, first)
    case Done => AtLast(c, first)
  }

  /** What a pass that completes leaves. */
  function AtLast(c: Config, first: World): World {
    if MakesSubscription(first) then
      SlotKept(c, first).(subscription := Subscribed(There(true, true), c.nextOid), status := StatusAtEnd(c, first))
    else LoginKept(c, first).(status := StatusAtEnd(c, first))
  }

  function CreatedAt(c: Config, first: World, pc: Pc): Created {
    match pc
    case Start | MakePublication | Refused => first.status.created
    case MarkPublication | RecordPublication | TakeLogin | MarkLogin | GrantStreaming | WriteSecret =>
      AfterPublication(first)
    case GrantReading | RecordLogin | MakeSlot | RecordSlot => AfterLogin(c, first)
    case MakeSubscription | MarkSubscription | RecordSubscription => AfterLogin(c, first).(slot := true)
    case Finish | Done => AtTheEnd(c, first)
  }

  function GrantedAt(c: Config, first: World, pc: Pc): set<string> {
    match pc
    case Start | MakePublication | MarkPublication | RecordPublication | Refused => first.status.granted
    case TakeLogin | MarkLogin | GrantStreaming => {}
    case WriteSecret => Streaming(c, first)
    case GrantReading => Streaming(c, first) + Standing(c, first)
    case _ => GrantedInAll(c, first)
  }

  function LoginAt(c: Config, pc: Pc): string {
    match pc
    case GrantReading | RecordLogin | MakeSlot | RecordSlot | MakeSubscription | MarkSubscription
      | RecordSubscription | Finish | Done => c.login
    case _ => ""
  }

  function PassAt(c: Config, first: World, pc: Pc): Pass {
    Pass(pc, first.status, CreatedAt(c, first, pc), GrantedAt(c, first, pc), LoginAt(c, pc),
      if pc == Finish || pc == Done then Some(Number(c, first)) else None,
      match pc
        case Start | MakePublication | MarkPublication | RecordPublication => first.status.created
        case _ => AfterPublication(first),
      first.status.granted)
  }

  /** The steps a pass takes from here, if it is not refused. */
  predicate OnPath(c: Config, first: World, pc: Pc) {
    match pc
    case MarkPublication | RecordPublication => first.publication.Absent?
    case MarkLogin => !c.provided && first.role.Absent?
    case GrantStreaming | WriteSecret => !c.provided
    case RecordSlot | MakeSubscription | MarkSubscription | RecordSubscription => MakesSubscription(first)
    case Refused => false
    case _ => true
  }

  // ------------------------------------------------------------------ the trace

  /** A pass may be refused for a name or for want of a slot, before it does anything. */
  predicate RefusedAtOnce(c: Config, first: World) {
    NameTaken(c, first) || (MakesSubscription(first) && !c.slotsFree)
  }

  /** Or once its login is there, for a slot that is in use or of another database. */
  predicate RefusedAtSlot(first: World) {
    MakesSubscription(first) && !Usable(first.slot)
  }

  /** The step a pass takes after this one. */
  function Next(c: Config, first: World, pc: Pc): Pc {
    match pc
    case Start => if RefusedAtOnce(c, first) then Refused else MakePublication
    case MakePublication => if first.publication.Absent? then MarkPublication else TakeLogin
    case MarkPublication => RecordPublication
    case RecordPublication => TakeLogin
    case TakeLogin => if c.provided then GrantReading else if first.role.Absent? then MarkLogin else GrantStreaming
    case MarkLogin => GrantStreaming
    case GrantStreaming => WriteSecret
    case WriteSecret => GrantReading
    case GrantReading => RecordLogin
    case RecordLogin => MakeSlot
    case MakeSlot => if !MakesSubscription(first) then Finish else if RefusedAtSlot(first) then Refused else RecordSlot
    case RecordSlot => MakeSubscription
    case MakeSubscription => MarkSubscription
    case MarkSubscription => RecordSubscription
    case RecordSubscription => Finish
    case Finish | Done => Done
    case Refused => Refused
  }

  /** Where a refused pass stopped. */
  function Standstill(c: Config, first: World, pc: Pc): Pc {
    if pc != Refused then pc else if RefusedAtOnce(c, first) then Start else MakeSlot
  }

  function Landing(c: Config, first: World, pc: Pc): (World, Pass) {
    var next := Next(c, first, pc);
    if next == Refused then (WorldAt(c, first, pc), PassAt(c, first, pc).(pc := Refused))
    else (WorldAt(c, first, next), PassAt(c, first, next))
  }

  ghost predicate Lands(c: Config, first: World, pc: Pc) {
    Step(c, WorldAt(c, first, pc), PassAt(c, first, pc)) == Landing(c, first, pc)
  }

  lemma NothingGranted(w: World, none: set<string>)
    requires none == {}
    ensures Granted(w, none) == w
  {
    assert w.held + none == w.held && w.given + none == w.given;
  }

  lemma GrantIs(w: World, group: string, missing: set<string>)
    requires missing <= {group} && (group !in w.held ==> group in missing)
    requires group in missing && group in w.held ==> group in w.given
    ensures Grant(w, group) == Granted(w, missing)
  {
    if group in w.held {
      assert w.held + missing == w.held && w.given + missing == w.given;
    } else {
      assert missing == {group};
    }
  }

  lemma TakingMakePublication(c: Config, first: World)
    requires OnPath(c, first, MakePublication)
    ensures Lands(c, first, MakePublication)
  {
  }

  lemma TakingMarkPublication(c: Config, first: World)
    requires OnPath(c, first, MarkPublication)
    ensures Lands(c, first, MarkPublication)
  {
  }

  lemma TakingRecordPublication(c: Config, first: World)
    requires OnPath(c, first, RecordPublication)
    ensures Lands(c, first, RecordPublication)
  {
  }

  lemma TakingTakeLogin(c: Config, first: World)
    requires OnPath(c, first, TakeLogin)
    ensures Lands(c, first, TakeLogin)
  {
    if c.provided {
      assert Streaming(c, first) + Standing(c, first) == {} + Standing(c, first);
    }
  }

  lemma TakingMarkLogin(c: Config, first: World)
    requires OnPath(c, first, MarkLogin)
    ensures Lands(c, first, MarkLogin)
  {
  }

  lemma TakingGrantStreaming(c: Config, first: World)
    requires OnPath(c, first, GrantStreaming)
    ensures Lands(c, first, GrantStreaming)
  {
    var w := Housed(first);
    if c.streamGroup.None? {
      assert Streaming(c, first) == {};
      NothingGranted(w, {});
    } else {
      var group := c.streamGroup.value;
      GrantIs(w, group, Streaming(c, first));
      assert Streaming(c, first) == (if group in w.held then {} else {} + {group});
    }
  }

  lemma TakingWriteSecret(c: Config, first: World)
    requires OnPath(c, first, WriteSecret)
    ensures Lands(c, first, WriteSecret)
  {
  }

  lemma TakingGrantReading(c: Config, first: World)
    requires OnPath(c, first, GrantReading)
    ensures Lands(c, first, GrantReading)
  {
    ReadingIsGranted(c, first);
  }

  lemma ReadingIsGranted(c: Config, first: World)
    ensures Grant(Settled(c, first), c.readGroup) == LoggedIn(c, first)
    ensures (if c.readGroup in Settled(c, first).held then Streaming(c, first) + Standing(c, first)
             else Streaming(c, first) + Standing(c, first) + {c.readGroup}) == GrantedInAll(c, first)
  {
    var w := Settled(c, first);
    if c.provided {
      assert Streaming(c, first) == {} && w.held == first.held;
    }
    GrantIs(w, c.readGroup, Reading(c, first));
    if c.readGroup !in w.held {
      assert Reading(c, first) == {c.readGroup};
    }
  }

  lemma TakingRecordLogin(c: Config, first: World)
    requires OnPath(c, first, RecordLogin)
    ensures Lands(c, first, RecordLogin)
  {
  }

  lemma TakingMakeSlot(c: Config, first: World)
    requires OnPath(c, first, MakeSlot)
    ensures Lands(c, first, MakeSlot)
  {
  }

  lemma TakingRecordSlot(c: Config, first: World)
    requires OnPath(c, first, RecordSlot)
    ensures Lands(c, first, RecordSlot)
  {
  }

  lemma TakingMakeSubscription(c: Config, first: World)
    requires OnPath(c, first, MakeSubscription)
    ensures Lands(c, first, MakeSubscription)
  {
  }

  lemma TakingMarkSubscription(c: Config, first: World)
    requires OnPath(c, first, MarkSubscription)
    ensures Lands(c, first, MarkSubscription)
  {
  }

  lemma TakingRecordSubscription(c: Config, first: World)
    requires OnPath(c, first, RecordSubscription)
    ensures Lands(c, first, RecordSubscription)
  {
  }

  lemma TakingFinish(c: Config, first: World)
    requires OnPath(c, first, Finish)
    ensures Lands(c, first, Finish)
  {
  }

  lemma StepLands(c: Config, first: World, pc: Pc)
    requires OnPath(c, first, pc) && pc != Start && pc != Done
    ensures Lands(c, first, pc)
  {
    match pc
    case MakePublication => TakingMakePublication(c, first);
    case MarkPublication => TakingMarkPublication(c, first);
    case RecordPublication => TakingRecordPublication(c, first);
    case TakeLogin => TakingTakeLogin(c, first);
    case MarkLogin => TakingMarkLogin(c, first);
    case GrantStreaming => TakingGrantStreaming(c, first);
    case WriteSecret => TakingWriteSecret(c, first);
    case GrantReading => TakingGrantReading(c, first);
    case RecordLogin => TakingRecordLogin(c, first);
    case MakeSlot => TakingMakeSlot(c, first);
    case RecordSlot => TakingRecordSlot(c, first);
    case MakeSubscription => TakingMakeSubscription(c, first);
    case MarkSubscription => TakingMarkSubscription(c, first);
    case RecordSubscription => TakingRecordSubscription(c, first);
    case Finish => TakingFinish(c, first);
  }

  // ------------------------------------------------------------ after any steps

  /** Where a pass is after so many steps. */
  function PcAfter(c: Config, first: World, n: nat): Pc {
    if n == 0 then Start else Next(c, first, PcAfter(c, first, n - 1))
  }

  ghost predicate Traced(c: Config, first: World, w: World, p: Pass) {
    && w == WorldAt(c, first, Standstill(c, first, p.pc))
    && (p.pc != Refused ==> OnPath(c, first, p.pc) && p == PassAt(c, first, p.pc))
    && (p.pc == Refused ==> RefusedAtOnce(c, first) || RefusedAtSlot(first))
    && (p.pc != Refused && p.pc != Start ==> !RefusedAtOnce(c, first))
  }

  lemma StepIsTraced(c: Config, first: World, w: World, p: Pass)
    requires Traced(c, first, w, p)
    ensures var (v, q) := Step(c, w, p); Traced(c, first, v, q) && q.pc == Next(c, first, p.pc)
  {
    if p.pc == Start {
      TracedAtStart(c, first);
    } else if p.pc != Done && p.pc != Refused {
      StepLands(c, first, p.pc);
      LandingIsTraced(c, first, p.pc);
    }
  }

  lemma LandingIsTraced(c: Config, first: World, pc: Pc)
    requires OnPath(c, first, pc) && pc != Start && pc != Done && !RefusedAtOnce(c, first)
    ensures var (v, q) := Landing(c, first, pc); Traced(c, first, v, q) && q.pc == Next(c, first, pc)
  {
    if Next(c, first, pc) != Refused {
      NextIsOnPath(c, first, pc);
    }
  }

  lemma NextIsOnPath(c: Config, first: World, pc: Pc)
    requires OnPath(c, first, pc) && Next(c, first, pc) != Refused
    ensures OnPath(c, first, Next(c, first, pc)) && Next(c, first, pc) != Start
  {
  }

  lemma TracedAtStart(c: Config, first: World)
    ensures WorldAt(c, first, Start) == first && PassAt(c, first, Start) == Begin(first)
    ensures var (v, q) := Step(c, first, Begin(first)); Traced(c, first, v, q) && q.pc == Next(c, first, Start)
  {
  }

  /** A pass is where its start says, with the world and the knowledge that go with it. */
  lemma {:induction false} StepsAreTraced(c: Config, first: World, n: nat)
    ensures var (w, p) := Steps(c, first, n); Traced(c, first, w, p) && p.pc == PcAfter(c, first, n)
  {
    if n == 0 {
      TracedAtStart(c, first);
    } else {
      StepsAreTraced(c, first, n - 1);
      var before := Steps(c, first, n - 1);
      assert Steps(c, first, n) == Step(c, before.0, before.1);
      StepIsTraced(c, first, before.0, before.1);
    }
  }
}
