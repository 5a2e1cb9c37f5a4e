/**
 A pass of a replication as it is carried out: one call after another on two
 servers and the status, any of which may be the last. It goes through the
 states of the step machine and no others.
 */
module Reconcile {
  import opened Wrappers
  import opened Lifecycle

  datatype Outcome = Converged | WasRefused | FellSilent

  class Replication {
    const c: Config
    var publication: Object
    var role: Object
    var secret: bool
    var held: set<string>
    var given: set<string>
    var slot: Slot
    var subscription: Subscription
    var status: Status        // as persisted
    var answers: nat          // how many more calls succeed

    // What the pass has gathered so far.
    var existing: Status      // the status it began with
    var created: Created
    var granted: set<string>
    var login: string
    var oid: Option<nat>
    var refused: bool

    ghost var first: World    // where the pass began
    ghost var taken: nat      // how many steps it has taken
    ghost var pass: Pass      // where the step machine is

    ghost function View(): World reads this {
      World(publication, role, secret, held, given, slot, subscription, status)
    }

    constructor (c: Config, w: World, answers: nat)
      ensures this.c == c && View() == w && this.answers == answers
      ensures At(Start) && taken == 0 && first == w && pass == Begin(w)
    {
      this.c, this.answers := c, answers;
      publication, role, secret, held, given := w.publication, w.role, w.secret, w.held, w.given;
      slot, subscription, status, existing := w.slot, w.subscription, w.status, w.status;
      created, granted, login, oid, refused := w.status.created, w.status.granted, "", None, false;
      first, taken, pass := w, 0, Begin(w);
    }

    /** The step machine, run for as many steps, has made the same world. */
    ghost predicate OnCourse() reads this {
      (View(), pass) == Steps(c, first, taken)
    }

    /** What the pass has gathered is what the machine knows. */
    ghost predicate Knows(granted: set<string>) reads this {
      created == pass.created && this.granted == granted && login == pass.login && oid == pass.oid
      && existing == pass.existing
    }

    ghost predicate At(pc: Pc) reads this {
      OnCourse() && !refused && pass.pc == pc && Knows(if pc == TakeLogin then pass.grantedBefore else pass.granted)
      && (pc == TakeLogin ==> pass.granted == {} && pass.createdBefore == pass.created)
    }

    /** A part of a pass came to its end, or fell silent, or was refused. */
    ghost predicate Came(ok: bool, pc: Pc) reads this {
      if ok then At(pc)
      else OnCourse() && if refused then pass.pc == Refused else Silent()
    }

    ghost predicate Silent() reads this {
      answers == 0 && pass.pc != Done && pass.pc != Refused
    }

    twostate predicate SamePass() reads this {
      first == old(first) && taken + answers == old(taken) + old(answers)
    }

    /** One call has succeeded: the machine has taken its step from `before`. */
    ghost method Advance(before: World)
      requires (before, pass) == Steps(c, first, taken)
      modifies this`pass, this`taken
      ensures taken == old(taken) + 1
      ensures Steps(c, first, taken) == Step(c, before, old(pass)) && pass == Step(c, before, old(pass)).1
    {
      pass := Step(c, before, pass).1;
      taken := taken + 1;
    }

    /** Brings the persisted status up to what the pass has gathered so far. */
    method RecordCreated()
      requires OnCourse() && answers > 0
      requires Step(c, View(), pass).0 == View().(status := Status(created, granted, login, oid))
      modifies this`status, this`answers, this`pass, this`taken
      ensures OnCourse() && SamePass() && pass == Step(c, old(View()), old(pass)).1
    {
      ghost var before := View();
      status, answers := Status(created, granted, login, oid), answers - 1;
      Advance(before);
    }

    /** A call that only reads. */
    method Look()
      requires OnCourse() && answers > 0 && Step(c, View(), pass).0 == View()
      modifies this`answers, this`pass, this`taken
      ensures OnCourse() && SamePass() && pass == Step(c, old(View()), old(pass)).1
    {
      ghost var before := View();
      answers := answers - 1;
      Advance(before);
    }

    // ------------------------------------------------------- the publication

    method WritePublication(marked: bool)
      requires OnCourse() && answers > 0
      requires Step(c, View(), pass).0 == View().(publication := There(true, marked))
      modifies this`publication, this`answers, this`pass, this`taken
      ensures OnCourse() && SamePass() && pass == Step(c, old(View()), old(pass)).1
    {
      ghost var before := View();
      publication, answers := There(true, marked), answers - 1;
      Advance(before);
    }

    /** Creates the publication and records it, or takes the one that is there. */
    method EnsurePublication() returns (ok: bool)
      requires At(MakePublication)
      modifies this
      ensures Came(ok, TakeLogin) && SamePass()
    {
      if answers == 0 { return false; }
      if publication.There? {
        FindPublication();
        return true;
      }
      ok := CreatePublication();
      if !ok { return; }
      if answers == 0 { return false; }
      RecordThePublication();
    }

    method FindPublication()
      requires At(MakePublication) && publication.There? && answers > 0
      modifies this`created, this`answers, this`pass, this`taken
      ensures At(TakeLogin) && SamePass()
    {
      Look();
      created := created.(publication := true);
    }

    method RecordThePublication()
      requires OnCourse() && !refused && pass.pc == RecordPublication && answers > 0
      requires Knows(pass.granted)
      modifies this`status, this`answers, this`pass, this`taken
      ensures At(TakeLogin) && SamePass()
    {
      RecordCreated();
    }

    /** Two statements: only the second marks it. */
    method CreatePublication() returns (ok: bool)
      requires At(MakePublication) && publication.Absent? && answers > 0
      modifies this`publication, this`created, this`answers, this`pass, this`taken
      ensures OnCourse() && SamePass() && (!ok ==> Silent())
      ensures ok ==> pass.pc == RecordPublication && Knows(pass.granted)
    {
      WritePublication(false);
      if answers == 0 { return false; }
      WritePublication(true);
      created := created.(publication := true);
      ok := true;
    }

    // ------------------------------------------------------------- the login

    method WriteRole(marked: bool)
      requires OnCourse() && answers > 0
      requires Step(c, View(), pass).0 == View().(role := There(true, marked))
      modifies this`role, this`answers, this`pass, this`taken
      ensures OnCourse() && SamePass() && pass == Step(c, old(View()), old(pass)).1
    {
      ghost var before := View();
      role, answers := There(true, marked), answers - 1;
      Advance(before);
    }

    /** Grants the group if the login lacks it, and notes what was granted. */
    method GrantGroup(group: string)
      requires OnCourse() && answers > 0
      requires Step(c, View(), pass) == (Grant(View(), group), Granting(View(), pass, group).(pc := Step(c, View(), pass).1.pc))
      modifies this`held, this`given, this`granted, this`answers, this`pass, this`taken
      ensures OnCourse() && SamePass()
      ensures pass == Granting(old(View()), old(pass), group).(pc := Step(c, old(View()), old(pass)).1.pc)
      ensures granted == old(granted) + (if group in old(held) then {} else {group})
    {
      ghost var before := View();
      if group !in held {
        held, given, granted := held + {group}, given + {group}, granted + {group};
      }
      answers := answers - 1;
      Advance(before);
    }

    method GrantStreamingRight()
      requires OnCourse() && answers > 0 && pass.pc == GrantStreaming
      modifies this`held, this`given, this`granted, this`answers, this`pass, this`taken
      ensures OnCourse() && SamePass()
      ensures exists more ::
        pass == old(pass).(granted := old(pass).granted + more, pc := WriteSecret) && granted == old(granted) + more
    {
      ghost var p := pass;
      if c.streamGroup.Some? {
        ghost var more := if c.streamGroup.value in held then {} else {c.streamGroup.value};
        GrantGroup(c.streamGroup.value);
        assert pass == p.(granted := p.granted + more, pc := WriteSecret);
      } else {
        Look();
        assert pass == p.(granted := p.granted + {}, pc := WriteSecret);
      }
    }

    method GrantReadGroup()
      requires OnCourse() && answers > 0 && pass.pc == GrantReading
      modifies this`held, this`given, this`granted, this`answers, this`pass, this`taken
      ensures OnCourse() && SamePass()
      ensures pass == old(pass).(granted := pass.granted, pc := RecordLogin)
      ensures old(granted) == old(pass).granted ==> granted == pass.granted
    {
      GrantGroup(c.readGroup);
    }

    method ApplySecret()
      requires OnCourse() && answers > 0 && pass.pc == WriteSecret
      modifies this`secret, this`answers, this`pass, this`taken
      ensures OnCourse() && SamePass() && pass == WithLogin(c, old(pass)).(pc := GrantReading)
    {
      ghost var before := View();
      secret, answers := true, answers - 1;
      Advance(before);
    }

    /** A provided login is taken as it is; neither it nor its Secret is the operator's. */
    method AdoptProvided()
      requires OnCourse() && answers > 0 && pass.pc == TakeLogin && c.provided && Knows({}) && pass.granted == {}
      modifies this`login, this`created, this`answers, this`pass, this`taken
      ensures OnCourse() && SamePass() && Gathered(old(pass))
    {
      Look();
      login, created := c.login, created.(login := false, secret := false);
    }

    /** The operator's own login: the role, its mark, the right to stream, and the Secret. */
    method EnsureGenerated() returns (ok: bool)
      requires OnCourse() && pass.pc == TakeLogin && !c.provided && Knows({}) && pass.granted == {}
      modifies this
      ensures SamePass() && OnCourse() && (!ok ==> Silent()) && existing == old(existing) && refused == old(refused)
      ensures ok ==> Gathered(old(pass))
    {
      ok := EnsureRole();
      if !ok { return; }
      ok := GrantAndStore();
      login, created := c.login, created.(login := true, secret := true);
    }

    method GrantAndStore() returns (ok: bool)
      requires OnCourse() && pass.pc == GrantStreaming && granted == pass.granted
      modifies this`held, this`given, this`granted, this`secret, this`answers, this`pass, this`taken
      ensures SamePass() && OnCourse() && (!ok ==> Silent())
      ensures ok ==> pass == WithLogin(c, old(pass).(granted := granted)).(pc := GrantReading)
    {
      if answers == 0 { return false; }
      GrantStreamingRight();
      if answers == 0 { return false; }
      ApplySecret();
      ok := true;
    }

    /** With the login there: all but the grants of earlier passes is what the machine knows. */
    ghost predicate Gathered(p: Pass) reads this {
      && pass == WithLogin(c, p.(granted := granted)).(pc := GrantReading)
      && created == pass.created && login == pass.login && oid == pass.oid
    }

    method EnsureRole() returns (ok: bool)
      requires OnCourse() && pass.pc == TakeLogin && !c.provided
      modifies this`role, this`answers, this`pass, this`taken
      ensures SamePass() && OnCourse() && (!ok ==> Silent())
      ensures ok ==> pass == old(pass).(pc := GrantStreaming)
    {
      if answers == 0 { return false; }
      if role.There? {
        Look();
        return true;
      }
      WriteRole(false);
      if answers == 0 { return false; }
      WriteRole(true);
      ok := true;
    }

    /** The login of whichever kind, its grants, and the record of both if it differs. */
    method EnsureLogin() returns (ok: bool)
      requires At(TakeLogin)
      modifies this
      ensures Came(ok, MakeSlot) && SamePass()
    {
      var inherited, createdBefore := granted, created;
      ok := ObtainLogin();
      if !ok { return; }
      if answers == 0 { return false; }
      GrantReadGroup();
      ok := RecordIfChanged(createdBefore, inherited);
    }

    /** A grant of earlier passes stands only if it was made to the same login. */
    method ObtainLogin() returns (ok: bool)
      requires At(TakeLogin)
      modifies this
      ensures SamePass() && OnCourse() && !refused && (!ok ==> Silent())
      ensures ok ==> At(GrantReading)
      ensures ok ==> pass.grantedBefore == old(pass).grantedBefore && pass.createdBefore == old(pass).createdBefore
    {
      var inherited := granted;
      granted := {};
      ghost var p := pass;
      if c.provided {
        if answers == 0 { return false; }
        AdoptProvided();
      } else {
        ok := EnsureGenerated();
        if !ok { return; }
      }
      assert Gathered(p);
      if login == existing.login {
        granted := granted + inherited;
      }
      ok := true;
    }

    method RecordIfChanged(createdBefore: Created, grantedBefore: set<string>) returns (ok: bool)
      requires At(RecordLogin) && pass.createdBefore == createdBefore && pass.grantedBefore == grantedBefore
      modifies this`status, this`answers, this`pass, this`taken
      ensures Came(ok, MakeSlot) && SamePass()
    {
      if answers == 0 { return false; }
      if created != createdBefore || granted != grantedBefore {
        RecordCreated();
      } else {
        Look();
      }
      ok := true;
    }

    // ------------------------------------------------- the slot and subscription

    method CreateSlot()
      requires OnCourse() && answers > 0 && pass.pc == MakeSlot && subscription.NoSubscription? && slot.NoSlot?
      modifies this`slot, this`answers, this`pass, this`taken
      ensures OnCourse() && SamePass() && pass == old(pass).(pc := RecordSlot)
    {
      ghost var before := View();
      slot, answers := SlotThere(true, true, false), answers - 1;
      Advance(before);
    }

    /** The subscription's slot, made before it, or an idle one adopted; one in use is never touched. */
    method EnsureSlot() returns (ok: bool)
      requires At(MakeSlot) && subscription.NoSubscription?
      modifies this
      ensures Came(ok, MakeSubscription) && SamePass()
      ensures old(slot).SlotThere? ==> slot == old(slot) && (ok ==> slot.ourDatabase && !slot.active)
    {
      if answers == 0 { return false; }
      ok := TakeSlot();
      if !ok { return; }
      if answers == 0 { return false; }
      RecordTheSlot();
    }

    method TakeSlot() returns (ok: bool)
      requires At(MakeSlot) && subscription.NoSubscription? && answers > 0
      modifies this`slot, this`refused, this`answers, this`pass, this`taken
      ensures Came(ok, RecordSlot) && SamePass()
      ensures old(slot).SlotThere? ==> slot == old(slot) && ok == (slot.ourDatabase && !slot.active)
    {
      if slot.NoSlot? {
        CreateSlot();
        return true;
      }
      Look();
      refused := !slot.ourDatabase || slot.active;
      ok := !refused;
    }

    method RecordTheSlot()
      requires At(RecordSlot) && answers > 0
      modifies this`status, this`created, this`answers, this`pass, this`taken
      ensures At(MakeSubscription) && SamePass()
    {
      if created.slot {
        Look();
      } else {
        created := created.(slot := true);
        RecordCreated();
      }
    }

    method WriteSubscription(marked: bool)
      requires OnCourse() && answers > 0
      requires Step(c, View(), pass).0 == View().(subscription := Subscribed(There(true, marked), c.nextOid))
      modifies this`subscription, this`answers, this`pass, this`taken
      ensures OnCourse() && SamePass() && pass == Step(c, old(View()), old(pass)).1
    {
      ghost var before := View();
      subscription, answers := Subscribed(There(true, marked), c.nextOid), answers - 1;
      Advance(before);
    }

    method CreateSubscription() returns (ok: bool)
      requires OnCourse() && pass.pc == MakeSubscription
      modifies this`subscription, this`answers, this`pass, this`taken
      ensures OnCourse() && SamePass() && (!ok ==> Silent())
      ensures ok ==> pass == old(pass).(pc := RecordSubscription)
    {
      if answers == 0 { return false; }
      WriteSubscription(false);
      if answers == 0 { return false; }
      WriteSubscription(true);
      ok := true;
    }

    method RecordTheSubscription()
      requires At(RecordSubscription) && answers > 0
      modifies this`status, this`created, this`oid, this`answers, this`pass, this`taken
      ensures At(Finish) && SamePass()
    {
      ghost var before, p := View(), pass;
      SubscriptionIsRecorded(c, before, p);
      created, oid, answers := created.(subscription := true), Some(c.nextOid), answers - 1;
      status := Status(created, granted, login, oid);
      Advance(before);
    }

    /** One that is there is taken as it is. */
    method TakeSubscription()
      requires At(MakeSlot) && subscription.Subscribed? && answers > 0
      modifies this`created, this`oid, this`answers, this`pass, this`taken
      ensures At(Finish) && SamePass()
    {
      Look();
      created, oid := created.(subscription := true), Some(subscription.oid);
    }

    method ConvergeSubscription() returns (ok: bool)
      requires At(MakeSlot)
      modifies this
      ensures Came(ok, Finish) && SamePass()
    {
      if subscription.NoSubscription? {
        ok := EnsureSlot();
        if !ok { return; }
        ok := CreateSubscription();
        if !ok { return; }
        if answers == 0 { return false; }
        RecordTheSubscription();
        return;
      }
      if answers == 0 { return false; }
      TakeSubscription();
      ok := true;
    }

    // --------------------------------------------------------------- the pass

    /** Looks at each name in turn, as far as the first that is in use for something else. */
    method FindForeign() returns (found: bool)
      requires created == status.created
      ensures found == NameTaken(c, View())
    {
      if subscription.Subscribed? && subscription.what.There? && !subscription.what.marked && !created.subscription {
        return true;
      }
      if publication.There? && !publication.marked && !created.publication {
        return true;
      }
      found := !c.provided && !created.login && role.There? && !role.marked;
    }

    /** The first step, at which a pass is still free to refuse with nothing changed. */
    method RefuseForeign() returns (ok: bool)
      requires At(Start) && taken == 0 && first == View() && pass == Begin(first)
      modifies this`refused, this`answers, this`pass, this`taken
      ensures Came(ok, MakePublication) && SamePass()
    {
      if answers == 0 { return false; }
      refused := FindForeign();
      if subscription.NoSubscription? && !c.slotsFree {
        refused := true;
      }
      Look();
      ok := !refused;
    }

    method Parts() returns (ok: bool)
      requires At(Start) && taken == 0 && first == View() && pass == Begin(first)
      modifies this
      ensures Came(ok, Finish) && SamePass()
    {
      ok := RefuseForeign();
      if !ok { return; }
      ok := EnsurePublication();
      if !ok { return; }
      ok := EnsureLogin();
      if !ok { return; }
      ok := ConvergeSubscription();
    }

    /**
     One pass, as far as the servers answer: what it leaves is what the step
     machine leaves after as many steps.
     */
    method Reconcile() returns (outcome: Outcome)
      requires At(Start) && taken == 0 && first == View() && pass == Begin(first)
      modifies this
      ensures View() == Steps(c, old(View()), old(answers)).0
      ensures outcome == Converged <==> Steps(c, old(View()), old(answers)).1.pc == Done
      ensures outcome == WasRefused <==> Steps(c, old(View()), old(answers)).1.pc == Refused
    {
      ghost var calls := answers;
      var ok := Parts();
      if ok && answers > 0 {
        RecordCreated();
        outcome := Converged;
      } else {
        outcome := if refused then WasRefused else FellSilent;
      }
      if outcome != FellSilent {
        Stops(c, first, taken, calls);
      }
    }
  }

  lemma SubscriptionIsRecorded(c: Config, w: World, p: Pass)
    requires p.pc == RecordSubscription
    ensures var known := p.(created := p.created.(subscription := true), oid := Some(c.nextOid), pc := Finish);
      Step(c, w, p) == (w.(status := Written(known)), known)
  {
  }

  /** A pass that has ended takes no further step. */
  lemma {:induction false} Stops(c: Config, w: World, n: nat, m: nat)
    requires n <= m && (Steps(c, w, n).1.pc == Done || Steps(c, w, n).1.pc == Refused)
    ensures Steps(c, w, m) == Steps(c, w, n)
  {
    if n < m {
      Stops(c, w, n, m - 1);
    }
  }
}
