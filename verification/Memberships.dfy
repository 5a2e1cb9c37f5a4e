/**
 The group memberships and per-database default roles of one login: what a
 pass grants and revokes, and what histories of passes leave.
 */
module Memberships {
  import opened Wrappers

  type Role = string
  type Db = string

  datatype Access = Owner | ReadWrite | ReadOnly

  /** A resolved access entry. */
  datatype Grant = Grant(database: Db, level: Access, groupRole: Role, setRoleForOwners: bool)

  /** What the status keeps of it. */
  datatype Entry = Entry(database: Db, level: Access, groupRole: Role)

  function Recorded(grants: seq<Grant>): (entries: seq<Entry>)
    ensures |entries| == |grants|
  {
    seq(|grants|, i requires 0 <= i < |grants| => Entry(grants[i].database, grants[i].level, grants[i].groupRole))
  }

  function Desired(grants: seq<Grant>): set<Role> {
    set g <- grants :: g.groupRole
  }

  function Previously(entries: seq<Entry>): set<Role> {
    (set e <- entries :: e.groupRole) - {""}
  }

  /** The role to become in each database held as owner; a later entry for a database overrides an earlier one. */
  function OwnerRoles(grants: seq<Grant>): map<Db, Role> {
    if grants == [] then map[]
    else
      var g := grants[|grants| - 1];
      var before := OwnerRoles(grants[..|grants| - 1]);
      if g.level == Owner && g.setRoleForOwners then before[g.database := g.groupRole] else before
  }

  /** Databases recorded as held as owner, whatever they say about the default role. */
  function OwnerDbs(entries: seq<Entry>): set<Db> {
    (set e <- entries | e.level == Owner :: e.database) - {""}
  }

  /** What the server holds for this login; `given` are the memberships it holds by the operator's grant. */
  datatype State = State(held: set<Role>, given: set<Role>, defaults: map<Db, Role>, recorded: seq<Entry>)

  /** One pass, and what else exists on the server while it runs. */
  datatype Pass = Pass(grants: seq<Grant>, roles: set<Role>, databases: set<Db>)

  function HeldAfter(held: set<Role>, desired: set<Role>, previously: set<Role>, roles: set<Role>): set<Role> {
    (held + desired * roles) - (previously - desired)
  }

  /** Whoever makes a pass gives what comes to be held in it; what is lost is nobody's. */
  function GivenAfter(given: set<Role>, held: set<Role>, now: set<Role>): set<Role> {
    given * now + (now - held)
  }

  function DefaultAfter(defaults: map<Db, Role>, p: Pass, recorded: seq<Entry>, db: Db): Option<Role> {
    var owned := OwnerRoles(p.grants);
    if db in owned && db in p.databases then Some(owned[db])
    else if db !in owned && db in OwnerDbs(recorded) then None
    else At(defaults, db)
  }

  function At(defaults: map<Db, Role>, db: Db): Option<Role> {
    if db in defaults then Some(defaults[db]) else None
  }

  /** A completed pass. */
  ghost predicate Completes(s: State, p: Pass, t: State) {
    && t.held == HeldAfter(s.held, Desired(p.grants), Previously(s.recorded), p.roles)
    && t.given == GivenAfter(s.given, s.held, t.held)
    && (forall db :: At(t.defaults, db) == DefaultAfter(s.defaults, p, s.recorded, db))
    && t.recorded == Recorded(p.grants)
  }

  /** A pass cut short: each membership and each default is as before or as it was to be. */
  ghost predicate CutShort(s: State, p: Pass, t: State) {
    && s.held - (Previously(s.recorded) - Desired(p.grants)) <= t.held <= s.held + Desired(p.grants) * p.roles
    && t.given == GivenAfter(s.given, s.held, t.held)
    && (forall db :: Midway(s.defaults, p, s.recorded, t.defaults, db))
    && t.recorded == s.recorded
  }

  ghost predicate Midway(before: map<Db, Role>, p: Pass, recorded: seq<Entry>, now: map<Db, Role>, db: Db) {
    At(now, db) == At(before, db) || At(now, db) == DefaultAfter(before, p, recorded, db)
  }

  // ----------------------------------------------------------------- the pass

  class Login {
    var held: set<Role>
    var given: set<Role>
    var defaults: map<Db, Role>
    var answers: nat   // how many more statements the server answers before one fails

    constructor (held: set<Role>, given: set<Role>, defaults: map<Db, Role>, answers: nat)
      ensures this.held == held && this.given == given && this.defaults == defaults && this.answers == answers
    {
      this.held, this.given, this.defaults, this.answers := held, given, defaults, answers;
    }

    /** Grants what is missing and exists, then revokes what was granted and is no longer wanted. */
    method ApplyMemberships(desired: set<Role>, previously: set<Role>, roles: set<Role>)
      returns (ok: bool, missing: set<Role>)
      requires given <= held
      modifies this`held, this`given, this`answers
      ensures given <= held && given == GivenAfter(old(given), old(held), held)
      ensures old(held) - (previously - desired) <= held <= old(held) + desired * roles
      ensures ok ==> held == HeldAfter(old(held), desired, previously, roles)
      ensures ok ==> missing == desired - old(held) - roles
    {
      var observed := held;
      missing := {};
      var rest := desired - observed;
      while rest != {}
        invariant rest <= desired - old(held)
        invariant held == old(held) + (desired - rest) * roles
        invariant given == GivenAfter(old(given), old(held), held)
        invariant missing == desired - old(held) - rest - roles
        decreases rest
      {
        var role :| role in rest;
        rest := rest - {role};
        if role !in roles {
          missing := missing + {role};
        } else {
          if answers == 0 {
            return false, missing;
          }
          answers, held, given := answers - 1, held + {role}, given + {role};
        }
      }
      ghost var granted := held;
      rest := (previously - desired) * observed;
      while rest != {}
        invariant rest <= (previously - desired) * old(held)
        invariant granted == old(held) + desired * roles
        invariant held == granted - ((previously - desired) - rest)
        invariant given == GivenAfter(old(given), old(held), held)
        decreases rest
      {
        var role :| role in rest;
        if answers == 0 {
          return false, missing;
        }
        answers, held, given, rest := answers - 1, held - {role}, given - {role}, rest - {role};
      }
      ok := true;
    }

    /** Sets the default role where the login is an owner, and clears it where it no longer is. */
    method ApplyDefaultRoles(p: Pass, recorded: seq<Entry>) returns (ok: bool, missing: set<Db>)
      modifies this`defaults, this`answers
      ensures forall db :: Midway(old(defaults), p, recorded, defaults, db)
      ensures ok ==> forall db :: At(defaults, db) == DefaultAfter(old(defaults), p, recorded, db)
      ensures ok ==> missing == OwnerRoles(p.grants).Keys - p.databases
    {
      var owned := CollectOwnerRoles(p.grants);
      missing := {};
      var rest := owned.Keys;
      while rest != {}
        invariant rest <= owned.Keys
        invariant forall db :: At(defaults, db) == Progress(old(defaults), p, recorded, owned.Keys - rest, db)
        invariant missing == owned.Keys - rest - p.databases
        decreases rest
      {
        var db :| db in rest;
        ghost var before := defaults;
        if db !in p.databases {
          missing := missing + {db};
        } else if At(defaults, db) != Some(owned[db]) {
          if answers == 0 {
            return false, missing;
          }
          answers, defaults := answers - 1, defaults[db := owned[db]];
        }
        OneMore(old(defaults), p, recorded, owned.Keys - rest, before, defaults, db);
        assert owned.Keys - (rest - {db}) == owned.Keys - rest + {db};
        rest := rest - {db};
      }
      var gone := OwnerDbs(recorded) - owned.Keys;
      rest := gone;
      assert owned.Keys + (gone - rest) == owned.Keys;
      assert owned.Keys - {} == owned.Keys;
      while rest != {}
        invariant rest <= gone
        invariant forall db :: At(defaults, db) == Progress(old(defaults), p, recorded, owned.Keys + (gone - rest), db)
        decreases rest
      {
        var db :| db in rest;
        ghost var before := defaults;
        if db in defaults {
          if answers == 0 {
            return false, missing;
          }
          answers, defaults := answers - 1, defaults - {db};
        }
        OneMore(old(defaults), p, recorded, owned.Keys + (gone - rest), before, defaults, db);
        assert owned.Keys + (gone - (rest - {db})) == owned.Keys + (gone - rest) + {db};
        rest := rest - {db};
      }
      ok := true;
    }

    /** The part of a pass that grants; only a completed pass is recorded. */
    method Converge(p: Pass, recorded: seq<Entry>) returns (record: Option<seq<Entry>>, waiting: bool)
      requires given <= held
      modifies this
      ensures given <= held
      ensures var s := State(old(held), old(given), old(defaults), recorded);
        if record.Some? then Completes(s, p, State(held, given, defaults, record.value))
        else CutShort(s, p, State(held, given, defaults, recorded))
      ensures record.Some? ==>
        (waiting <==> !(Desired(p.grants) <= old(held) + p.roles && OwnerRoles(p.grants).Keys <= p.databases))
    {
      var ok, roles := ApplyMemberships(Desired(p.grants), Previously(recorded), p.roles);
      if !ok {
        return None, false;
      }
      var dbs;
      ok, dbs := ApplyDefaultRoles(p, recorded);
      record := if ok then Some(Recorded(p.grants)) else None;
      waiting := roles != {} || dbs != {};
      assert roles == {} <==> Desired(p.grants) <= old(held) + p.roles by {
        assert forall r :: r in roles <==> r in Desired(p.grants) && r !in old(held) + p.roles;
      }
      assert ok && dbs == {} ==> OwnerRoles(p.grants).Keys <= p.databases by {
        assert ok ==> forall db :: db in dbs <==> db in OwnerRoles(p.grants).Keys && db !in p.databases;
      }
    }
  }

  /** The dictionary the source fills entry by entry. */
  method CollectOwnerRoles(grants: seq<Grant>) returns (owned: map<Db, Role>)
    ensures owned == OwnerRoles(grants)
  {
    owned := map[];
    for k := 0 to |grants|
      invariant owned == OwnerRoles(grants[..k])
    {
      if grants[k].level == Owner && grants[k].setRoleForOwners {
        owned := owned[grants[k].database := grants[k].groupRole];
      }
      assert grants[..k + 1][..k] == grants[..k];
    }
    assert grants[..|grants|] == grants;
  }

  /** The default for a database once those in `done` had their turn. */
  ghost function Progress(before: map<Db, Role>, p: Pass, recorded: seq<Entry>, done: set<Db>, db: Db): Option<Role> {
    if db in done then DefaultAfter(before, p, recorded, db) else At(before, db)
  }

  lemma OneMore(
    before: map<Db, Role>, p: Pass, recorded: seq<Entry>, done: set<Db>,
    was: map<Db, Role>, now: map<Db, Role>, turn: Db)
    requires forall db :: At(was, db) == Progress(before, p, recorded, done, db)
    requires At(now, turn) == DefaultAfter(before, p, recorded, turn)
    requires forall db :: db != turn ==> At(now, db) == At(was, db)
    ensures forall db :: At(now, db) == Progress(before, p, recorded, done + {turn}, db)
  {
  }

  // -------------------------------------------------- entry by entry, role by role

  predicate WantsRole(grants: seq<Grant>, r: Role) {
    exists i :: 0 <= i < |grants| && grants[i].groupRole == r
  }

  predicate RecordsRole(entries: seq<Entry>, r: Role) {
    r != "" && exists i :: 0 <= i < |entries| && entries[i].groupRole == r
  }

  /** A wanted role is held if it was or exists to be granted; any other only if it was held and is on no record. */
  lemma HeldIff(s: State, p: Pass, t: State, r: Role)
    requires Completes(s, p, t)
    ensures r in t.held <==>
      if WantsRole(p.grants, r) then r in s.held || r in p.roles else r in s.held && !RecordsRole(s.recorded, r)
  {
    assert WantsRole(p.grants, r) <==> r in Desired(p.grants) by {
      if i :| 0 <= i < |p.grants| && p.grants[i].groupRole == r {
        assert p.grants[i] in p.grants;
      }
    }
    assert RecordsRole(s.recorded, r) <==> r in Previously(s.recorded) by {
      if i :| 0 <= i < |s.recorded| && s.recorded[i].groupRole == r {
        assert s.recorded[i] in s.recorded;
      }
    }
  }

  predicate OwnsWithRole(g: Grant, db: Db) {
    g.level == Owner && g.setRoleForOwners && g.database == db
  }

  /** The last entry that makes the login an owner of the database who is to become its group. */
  predicate LastOwning(grants: seq<Grant>, i: nat, db: Db) {
    i < |grants| && OwnsWithRole(grants[i], db) && forall j :: i < j < |grants| ==> !OwnsWithRole(grants[j], db)
  }

  lemma {:induction false} OwnerRolesIff(grants: seq<Grant>, db: Db)
    ensures db in OwnerRoles(grants) <==> exists i :: 0 <= i < |grants| && OwnsWithRole(grants[i], db)
  {
    if grants != [] {
      var k := |grants| - 1;
      OwnerRolesIff(grants[..k], db);
      assert OwnsWithRole(grants[k], db) || forall i :: 0 <= i < |grants| && OwnsWithRole(grants[i], db) ==> i < k;
    }
  }

  lemma {:induction false} TheLastCounts(grants: seq<Grant>, i: nat, db: Db)
    requires LastOwning(grants, i, db)
    ensures db in OwnerRoles(grants) && OwnerRoles(grants)[db] == grants[i].groupRole
  {
    var k := |grants| - 1;
    if i < k {
      TheLastCounts(grants[..k], i, db);
      assert !OwnsWithRole(grants[k], db);
    }
  }

  predicate RecordsOwner(entries: seq<Entry>, db: Db) {
    db != "" && exists i :: 0 <= i < |entries| && entries[i].level == Owner && entries[i].database == db
  }

  /**
   The default role in a database: that of the last entry owning it, once it
   exists; cleared, where none does and one on record did; untouched elsewhere.
   */
  lemma DefaultIff(s: State, p: Pass, t: State, db: Db)
    requires Completes(s, p, t)
    ensures forall i: nat :: LastOwning(p.grants, i, db) ==>
      At(t.defaults, db) == if db in p.databases then Some(p.grants[i].groupRole) else At(s.defaults, db)
    ensures (forall i :: 0 <= i < |p.grants| ==> !OwnsWithRole(p.grants[i], db)) ==>
      At(t.defaults, db) == if RecordsOwner(s.recorded, db) then None else At(s.defaults, db)
  {
    OwnerRolesIff(p.grants, db);
    forall i: nat | LastOwning(p.grants, i, db)
      ensures db in OwnerRoles(p.grants) && OwnerRoles(p.grants)[db] == p.grants[i].groupRole
    {
      TheLastCounts(p.grants, i, db);
    }
    assert RecordsOwner(s.recorded, db) <==> db in OwnerDbs(s.recorded) by {
      if i :| 0 <= i < |s.recorded| && s.recorded[i].level == Owner && s.recorded[i].database == db {
        assert s.recorded[i] in s.recorded;
      }
    }
    assert At(t.defaults, db) == DefaultAfter(s.defaults, p, s.recorded, db);
  }

  // ---------------------------------------------------------------- histories

  ghost predicate IsRun(states: seq<State>, passes: seq<Pass>) {
    |states| == |passes| + 1
    && forall i :: 0 <= i < |passes| ==> Completes(states[i], passes[i], states[i + 1])
  }

  function EverDesired(passes: seq<Pass>): set<Role> {
    set p, r | p in passes && r in Desired(p.grants) :: r
  }

  function EverOwner(passes: seq<Pass>): set<Db> {
    set p, db | p in passes && db in OwnerDbs(Recorded(p.grants)) :: db
  }

  ghost predicate RolesExist(passes: seq<Pass>) {
    forall p :: p in passes ==> Desired(p.grants) <= p.roles && "" !in Desired(p.grants)
  }

  ghost predicate DatabasesExist(passes: seq<Pass>) {
    forall p :: p in passes ==> OwnerRoles(p.grants).Keys <= p.databases && "" !in OwnerRoles(p.grants)
  }

  lemma RecordedRoles(grants: seq<Grant>)
    ensures Previously(Recorded(grants)) == Desired(grants) - {""}
  {
    var entries := Recorded(grants);
    forall r ensures r in Previously(entries) <==> r in Desired(grants) - {""} {
      if r in Previously(entries) {
        var i :| 0 <= i < |entries| && entries[i].groupRole == r;
        assert grants[i].groupRole == r;
      }
      if r in Desired(grants) - {""} {
        var i :| 0 <= i < |grants| && grants[i].groupRole == r;
        assert entries[i].groupRole == r && entries[i] in entries;
      }
    }
  }

  /** One role after each pass of a run. */
  lemma {:induction false} HeldAt(states: seq<State>, passes: seq<Pass>, k: nat, r: Role)
    requires IsRun(states, passes) && RolesExist(passes) && k < |passes|
    ensures r in states[k + 1].held <==>
      || r in Desired(passes[k].grants)
      || (r in states[0].held && r !in Previously(states[0].recorded)
          && forall i :: 0 <= i < k ==> r !in Desired(passes[i].grants))
  {
    assert Completes(states[k], passes[k], states[k + 1]);
    assert passes[k] in passes;
    if k > 0 {
      HeldAt(states, passes, k - 1, r);
      RecordedAt(states, passes, k);
    }
  }

  lemma RecordedAt(states: seq<State>, passes: seq<Pass>, k: nat)
    requires IsRun(states, passes) && RolesExist(passes) && 0 < k <= |passes|
    ensures states[k].recorded == Recorded(passes[k - 1].grants)
    ensures Previously(states[k].recorded) == Desired(passes[k - 1].grants)
  {
    assert Completes(states[k - 1], passes[k - 1], states[k]);
    assert passes[k - 1] in passes;
    RecordedRoles(passes[k - 1].grants);
  }

  /**
   The memberships after a run: those of the beginning that were never wanted
   or recorded before, and those wanted now. Nothing else of the history matters.
   */
  lemma HeldAfterRun(states: seq<State>, passes: seq<Pass>)
    requires IsRun(states, passes) && RolesExist(passes) && passes != []
    ensures var last := Desired(passes[|passes| - 1].grants);
            var earlier := Previously(states[0].recorded) + EverDesired(passes[..|passes| - 1]);
      states[|passes|].held == (states[0].held - earlier) + last
  {
    var k := |passes| - 1;
    var earlier := Previously(states[0].recorded) + EverDesired(passes[..k]);
    forall r ensures r in states[k + 1].held <==>
        r in Desired(passes[k].grants) || (r in states[0].held && r !in earlier)
    {
      HeldAt(states, passes, k, r);
      assert r in EverDesired(passes[..k]) <==> exists i :: 0 <= i < k && r in Desired(passes[i].grants) by {
        if i :| 0 <= i < k && r in Desired(passes[i].grants) {
          assert passes[i] in passes[..k];
        }
      }
    }
  }

  lemma {:induction false} OwnerRolesAreOwned(grants: seq<Grant>, db: Db)
    requires db in OwnerRoles(grants) && db != ""
    ensures db in OwnerDbs(Recorded(grants))
  {
    var k := |grants| - 1;
    var entries := Recorded(grants);
    if grants[k].level == Owner && grants[k].database == db {
      assert entries[k].database == db && entries[k] in entries;
    } else {
      OwnerRolesAreOwned(grants[..k], db);
      var e :| e in Recorded(grants[..k]) && e.level == Owner && e.database == db;
      var i :| 0 <= i < k && Recorded(grants[..k])[i] == e;
      assert entries[i] == e && entries[i] in entries;
    }
  }

  /** One default role after each pass of a run. */
  lemma {:induction false} DefaultAt(states: seq<State>, passes: seq<Pass>, k: nat, db: Db)
    requires IsRun(states, passes) && DatabasesExist(passes) && k < |passes|
    ensures At(states[k + 1].defaults, db) ==
      if db in OwnerRoles(passes[k].grants) then Some(OwnerRoles(passes[k].grants)[db])
      else if OwnedBefore(states[0].recorded, passes, k, db) then None
      else At(states[0].defaults, db)
  {
    DefaultOfPass(states, passes, k, db);
    if k > 0 && db !in OwnerRoles(passes[k].grants) {
      DefaultAt(states, passes, k - 1, db);
      RecordedEntries(states, passes, k, db);
    }
  }

  /** Held as owner by the record, or by one of the passes so far. */
  ghost predicate OwnedBefore(recorded: seq<Entry>, passes: seq<Pass>, k: nat, db: Db)
    requires k <= |passes|
  {
    db in OwnerDbs(recorded) || exists i :: 0 <= i < k && OwnedIn(passes[i], db)
  }

  predicate OwnedIn(p: Pass, db: Db) {
    db in OwnerDbs(Recorded(p.grants))
  }

  lemma DefaultOfPass(states: seq<State>, passes: seq<Pass>, k: nat, db: Db)
    requires IsRun(states, passes) && DatabasesExist(passes) && k < |passes|
    ensures At(states[k + 1].defaults, db) ==
      if db in OwnerRoles(passes[k].grants) then Some(OwnerRoles(passes[k].grants)[db])
      else if db in OwnerDbs(states[k].recorded) then None
      else At(states[k].defaults, db)
  {
    assert Completes(states[k], passes[k], states[k + 1]);
    assert passes[k] in passes;
    assert At(states[k + 1].defaults, db) == DefaultAfter(states[k].defaults, passes[k], states[k].recorded, db);
  }

  lemma RecordedEntries(states: seq<State>, passes: seq<Pass>, k: nat, db: Db)
    requires IsRun(states, passes) && DatabasesExist(passes) && 0 < k <= |passes|
    ensures db in OwnerDbs(states[k].recorded) <==> OwnedIn(passes[k - 1], db)
    ensures db in OwnerRoles(passes[k - 1].grants) ==> OwnedIn(passes[k - 1], db)
  {
    assert Completes(states[k - 1], passes[k - 1], states[k]);
    assert passes[k - 1] in passes;
    if db in OwnerRoles(passes[k - 1].grants) {
      OwnerRolesAreOwned(passes[k - 1].grants, db);
    }
  }

  /**
   The default roles after a run: that of the owner grant where there is one
   now, none where there was one earlier, and elsewhere as in the beginning.
   */
  lemma DefaultsAfterRun(states: seq<State>, passes: seq<Pass>, db: Db)
    requires IsRun(states, passes) && DatabasesExist(passes) && passes != []
    ensures var owned := OwnerRoles(passes[|passes| - 1].grants);
            var earlier := OwnerDbs(states[0].recorded) + EverOwner(passes[..|passes| - 1]);
      At(states[|passes|].defaults, db) ==
        if db in owned then Some(owned[db])
        else if db in earlier then None
        else At(states[0].defaults, db)
  {
    var k := |passes| - 1;
    DefaultAt(states, passes, k, db);
    assert db in EverOwner(passes[..k]) <==> exists i :: 0 <= i < k && OwnedIn(passes[i], db) by {
      if i :| 0 <= i < k && OwnedIn(passes[i], db) {
        assert passes[i] in passes[..k];
      }
    }
  }

  // ------------------------------------- with failures and changes from outside

  datatype Event =
    | Completed(pass: Pass)
    | Interrupted(pass: Pass)
    | Outside(granted: set<Role>, revoked: set<Role>)

  ghost predicate Step(s: State, e: Event, t: State) {
    match e
    case Completed(p) => Completes(s, p, t)
    case Interrupted(p) => CutShort(s, p, t)
    case Outside(granted, revoked) =>
      t.held == s.held + granted - revoked && t.given == s.given - revoked && t.recorded == s.recorded
  }

  ghost predicate IsHistory(states: seq<State>, events: seq<Event>) {
    |states| == |events| + 1
    && forall i :: 0 <= i < |events| ==> Step(states[i], events[i], states[i + 1])
  }

  predicate CompletesWanting(e: Event, r: Role) {
    e.Completed? && r in Desired(e.pass.grants)
  }

  /** A membership no completed pass ever wanted, and none recorded, is never revoked by a pass, whatever fails. */
  lemma {:induction false} NeverWantedIsSafe(states: seq<State>, events: seq<Event>, r: Role)
    requires IsHistory(states, events)
    requires r in states[0].held && r !in Previously(states[0].recorded)
    requires forall e :: e in events ==> !CompletesWanting(e, r) && !(e.Outside? && r in e.revoked)
    ensures r in states[|events|].held && r !in Previously(states[|events|].recorded)
  {
    if events != [] {
      var k := |events| - 1;
      NeverWantedIsSafe(states[..k + 1], events[..k], r);
      assert Step(states[k], events[k], states[k + 1]);
      assert events[k] in events;
      if events[k].Completed? {
        RecordedRoles(events[k].pass.grants);
        assert !CompletesWanting(events[k], r);
      }
    }
  }

  /** Memberships held but on no record, which no later pass will revoke unless they are wanted again. */
  function Unrecorded(first: State, events: seq<Event>): set<Role> {
    if events == [] then first.held - Previously(first.recorded)
    else
      var before := Unrecorded(first, events[..|events| - 1]);
      match events[|events| - 1]
      case Completed(p) => before - Desired(p.grants)
      case Interrupted(p) => before + Desired(p.grants) * p.roles
      case Outside(granted, _) => before + granted
  }

  /**
   Whatever is held is on the record, or came from outside or from a failed
   pass and has been wanted by no completed pass since.
   */
  lemma {:induction false} HeldIsAccountedFor(states: seq<State>, events: seq<Event>)
    requires IsHistory(states, events)
    requires forall e :: e in events && !e.Outside? ==> "" !in Desired(e.pass.grants)
    ensures states[|events|].held <= Previously(states[|events|].recorded) + Unrecorded(states[0], events)
  {
    if events != [] {
      var k := |events| - 1;
      HeldIsAccountedFor(states[..k + 1], events[..k]);
      assert Step(states[k], events[k], states[k + 1]);
      assert events[k] in events;
      if events[k].Completed? {
        RecordedRoles(events[k].pass.grants);
      }
    }
  }

  /** Failed attempts at one declaration leave no mark on the memberships once a pass completes. */
  lemma {:induction false} RetriesFinish(states: seq<State>, p: Pass, attempts: nat)
    requires IsHistory(states, seq(attempts, i => Interrupted(p)))
    ensures states[attempts].recorded == states[0].recorded
    ensures HeldAfter(states[attempts].held, Desired(p.grants), Previously(states[0].recorded), p.roles)
         == HeldAfter(states[0].held, Desired(p.grants), Previously(states[0].recorded), p.roles)
    ensures forall db :: DefaultAfter(states[attempts].defaults, p, states[0].recorded, db)
                      == DefaultAfter(states[0].defaults, p, states[0].recorded, db)
  {
    if attempts > 0 {
      var k := attempts - 1;
      var events, shorter := seq(attempts, i => Interrupted(p)), seq(k, i => Interrupted(p));
      forall i | 0 <= i < |shorter| ensures Step(states[..attempts][i], shorter[i], states[..attempts][i + 1]) {
        assert events[i] == Interrupted(p);
        assert Step(states[i], events[i], states[i + 1]);
      }
      RetriesFinish(states[..attempts], p, k);
      assert events[k] == Interrupted(p);
      assert CutShort(states[k], p, states[attempts]);
      forall db ensures DefaultAfter(states[attempts].defaults, p, states[0].recorded, db)
                     == DefaultAfter(states[0].defaults, p, states[0].recorded, db) {
        assert Midway(states[k].defaults, p, states[k].recorded, states[attempts].defaults, db);
      }
    }
  }

  // ------------------------------------------------ whose grant a membership is

  /** A pass, and not somebody else, made the login a member. */
  predicate GrantedAt(states: seq<State>, events: seq<Event>, j: nat, r: Role)
    requires j < |events| < |states|
  {
    !events[j].Outside? && r !in states[j].held && r in states[j + 1].held
  }

  ghost predicate HeldThroughout(states: seq<State>, from: nat, to: nat, r: Role)
    requires to < |states|
  {
    forall i :: from <= i <= to ==> r in states[i].held
  }

  /** Only what is held can be held by the operator's grant. */
  ghost predicate Sound(s: State) {
    s.given <= s.held
  }

  lemma {:induction false} HistoryIsSound(states: seq<State>, events: seq<Event>, n: nat)
    requires IsHistory(states, events) && Sound(states[0]) && n <= |events|
    ensures Sound(states[n])
  {
    if n > 0 {
      HistoryIsSound(states, events, n - 1);
      assert Step(states[n - 1], events[n - 1], states[n]);
    }
  }

  /** One event: a grant lasts as long as the membership. */
  lemma GivenStep(states: seq<State>, events: seq<Event>, j: nat, r: Role)
    requires IsHistory(states, events) && Sound(states[0]) && j < |events|
    ensures r in states[j + 1].given <==>
      (r in states[j].given && r in states[j + 1].held) || GrantedAt(states, events, j, r)
  {
    HistoryIsSound(states, events, j);
    assert Step(states[j], events[j], states[j + 1]);
  }

  /**
   In every history: a membership is held by the operator's grant exactly when
   a pass granted it and it has been held ever since.
   */
  lemma {:induction false} GivenIff(states: seq<State>, events: seq<Event>, n: nat, r: Role)
    requires IsHistory(states, events) && Sound(states[0]) && n <= |events|
    ensures r in states[n].given <==>
      || (r in states[0].given && HeldThroughout(states, 0, n, r))
      || exists j: nat :: j < n && GrantedAt(states, events, j, r) && HeldThroughout(states, j + 1, n, r)
  {
    HistoryIsSound(states, events, n);
    if n > 0 {
      GivenIff(states, events, n - 1, r);
      GivenStep(states, events, n - 1, r);
      if r in states[n].given && r in states[n - 1].given && !HeldThroughout(states, 0, n, r) {
        var j: nat :| j < n - 1 && GrantedAt(states, events, j, r) && HeldThroughout(states, j + 1, n - 1, r);
        assert HeldThroughout(states, j + 1, n, r);
      } else if r in states[n].given && r !in states[n - 1].given {
        assert GrantedAt(states, events, n - 1, r) && HeldThroughout(states, n - 1 + 1, n, r);
      }
      if j: nat :| j < n && GrantedAt(states, events, j, r) && HeldThroughout(states, j + 1, n, r) {
        assert j < n - 1 ==> HeldThroughout(states, j + 1, n - 1, r);
      }
      if HeldThroughout(states, 0, n, r) {
        assert HeldThroughout(states, 0, n - 1, r);
      }
    }
  }

  ghost predicate NobodyTakes(states: seq<State>, from: nat, to: nat, r: Role)
    requires to < |states|
  {
    forall j :: from <= j < to && r in states[j].held ==> r in states[j + 1].held
  }

  lemma {:induction false} GivenSince(states: seq<State>, events: seq<Event>, k: nat, m: nat, r: Role)
    requires IsHistory(states, events) && Sound(states[0]) && k <= m <= |events|
    requires NobodyTakes(states, k, m, r)
    ensures r in states[m].given <==>
      r in states[k].given || exists j: nat :: k <= j < m && GrantedAt(states, events, j, r)
  {
    if k < m {
      GivenSince(states, events, k, m - 1, r);
      GivenStep(states, events, m - 1, r);
      HistoryIsSound(states, events, m - 1);
    }
  }

  /** What a pass revokes was put on record by a completed pass that wanted it, unless it was there from the first. */
  lemma {:induction false} PutOnRecord(states: seq<State>, events: seq<Event>, m: nat, r: Role) returns (k: nat)
    requires IsHistory(states, events) && m <= |events|
    requires r in Previously(states[m].recorded) && r !in Previously(states[0].recorded)
    ensures k < m && CompletesWanting(events[k], r) && r !in Previously(states[k].recorded)
    ensures forall j :: k < j <= m ==> r in Previously(states[j].recorded)
  {
    k := m - 1;
    assert Step(states[k], events[k], states[m]);
    if events[k].Completed? {
      RecordedRoles(events[k].pass.grants);
    }
    if r in Previously(states[k].recorded) {
      k := PutOnRecord(states, events, k, r);
    }
  }

  /** A pass revokes only what is recorded and no longer wanted; one that completes, all of that. */
  lemma RevokedExactly(states: seq<State>, events: seq<Event>, m: nat, r: Role)
    requires IsHistory(states, events) && m < |events| && !events[m].Outside? && r in states[m].held
    ensures r !in states[m + 1].held ==>
      r in Previously(states[m].recorded) && r !in Desired(events[m].pass.grants)
    ensures events[m].Completed? && r in Previously(states[m].recorded) && r !in Desired(events[m].pass.grants) ==>
      r !in states[m + 1].held
  {
    assert Step(states[m], events[m], states[m + 1]);
  }

  /**
   Exactly when a membership that a pass revokes is not one the operator
   granted, if nobody took it away meanwhile: when a pass put it on record it
   was already held by somebody else's grant, or its role was missing; and no
   pass has granted it since.
   */
  lemma RevokedWithoutBeingGrantedIff(states: seq<State>, events: seq<Event>, k: nat, m: nat, r: Role)
    requires IsHistory(states, events) && Sound(states[0]) && k < m < |events|
    requires CompletesWanting(events[k], r) && NobodyTakes(states, k, m, r)
    requires !events[m].Outside? && r in states[m].held && r !in states[m + 1].held
    ensures r !in states[m].given <==>
      && (if r in states[k].held then r !in states[k].given else r !in events[k].pass.roles)
      && forall j: nat :: k < j < m ==> !GrantedAt(states, events, j, r)
  {
    GivenSince(states, events, k, m, r);
    HistoryIsSound(states, events, k);
    assert Step(states[k], events[k], states[k + 1]);
    if GrantedAt(states, events, k, r) {
      assert r in states[m].given;
    }
  }

  const READERS: seq<Grant> := [Grant("app", ReadOnly, "app_ro", true)]

  /**
   Both ways it happens: a role already held when first declared, and one
   missing then and granted by somebody else later.
   */
  lemma RevokedWithoutBeingGranted()
    ensures var wants, wantsNot := Pass(READERS, {"app_ro"}, {"app"}), Pass([], {"app_ro"}, {"app"});
            var first := State({"app_ro"}, {}, map[], []);
      && Completes(first, wants, State({"app_ro"}, {}, map[], Recorded(READERS)))
      && Completes(State({"app_ro"}, {}, map[], Recorded(READERS)), wantsNot, State({}, {}, map[], []))
    ensures var early, wantsNot := Pass(READERS, {}, {"app"}), Pass([], {"app_ro"}, {"app"});
            var first, waiting := State({}, {}, map[], []), State({}, {}, map[], Recorded(READERS));
      && Completes(first, early, waiting)
      && Step(waiting, Outside({"app_ro"}, {}), State({"app_ro"}, {}, map[], Recorded(READERS)))
      && Completes(State({"app_ro"}, {}, map[], Recorded(READERS)), wantsNot, State({}, {}, map[], []))
  {
    RecordedRoles(READERS);
    assert READERS[0] in READERS;
    assert Desired(READERS) == {"app_ro"};
    assert OwnerRoles(READERS) == map[] by {
      assert READERS[..0] == [];
    }
    assert OwnerDbs(Recorded(READERS)) == {};
    assert Desired([]) == {} && Previously([]) == {} && OwnerDbs([]) == {} && Recorded([]) == [];
  }

  // ------------------------------------------------- what a failed pass leaves

  /** Whether a completed pass leaves a role as it would have, held before or not: it gives it or takes it. */
  predicate Settles(p: Pass, recorded: seq<Entry>, r: Role) {
    r in Desired(p.grants) * p.roles || (r in Previously(recorded) && r !in Desired(p.grants))
  }

  /**
   Exactly when failed passes leave a mark on the memberships that a completed
   one does not remove, however many they were and whatever they wanted: when one of the
   roles they granted or revoked is neither given nor taken by it.
   */
  lemma FailedLeavesNoMarkIff(s: State, t: State, p: Pass)
    requires t.recorded == s.recorded
    ensures HeldAfter(t.held, Desired(p.grants), Previously(t.recorded), p.roles)
         <= HeldAfter(s.held, Desired(p.grants), Previously(s.recorded), p.roles)
       <==> forall r :: r in t.held - s.held ==> Settles(p, s.recorded, r)
    ensures HeldAfter(t.held, Desired(p.grants), Previously(t.recorded), p.roles)
         == HeldAfter(s.held, Desired(p.grants), Previously(s.recorded), p.roles)
       <==> forall r :: r in (t.held - s.held) + (s.held - t.held) ==> Settles(p, s.recorded, r)
  {
    var after, before := HeldAfter(t.held, Desired(p.grants), Previously(t.recorded), p.roles),
                         HeldAfter(s.held, Desired(p.grants), Previously(s.recorded), p.roles);
    forall r ensures (r in after <==> r in before) <==> (r in t.held <==> r in s.held) || Settles(p, s.recorded, r) {
    }
  }

  /** Whether a completed pass sets the default role in a database, or clears it, whatever it was. */
  predicate SettlesDefault(p: Pass, recorded: seq<Entry>, db: Db) {
    (db in OwnerRoles(p.grants) && db in p.databases) || (db !in OwnerRoles(p.grants) && db in OwnerDbs(recorded))
  }

  /** And the same of default roles, database by database. */
  lemma FailedLeavesNoDefaultIff(s: State, t: State, p: Pass, db: Db)
    requires t.recorded == s.recorded
    ensures DefaultAfter(t.defaults, p, t.recorded, db) == DefaultAfter(s.defaults, p, s.recorded, db)
       <==> At(t.defaults, db) == At(s.defaults, db) || SettlesDefault(p, s.recorded, db)
  {
  }

  /** A role granted by a failed pass, and then no longer wanted, stays. */
  lemma AbandonedGrantStays()
    ensures var tried, next := Pass(READERS, {"app_ro"}, {"app"}), Pass([], {"app_ro"}, {"app"});
            var s, t := State({}, {}, map[], []), State({"app_ro"}, {"app_ro"}, map[], []);
      && CutShort(s, tried, t) && Completes(t, next, t) && !Settles(next, s.recorded, "app_ro")
  {
    assert READERS[0] in READERS;
    assert Desired(READERS) == {"app_ro"} && Desired([]) == {} && Previously([]) == {};
    assert OwnerDbs([]) == {} && Recorded([]) == [];
    var s, t := State({}, {}, map[], []), State({"app_ro"}, {"app_ro"}, map[], []);
    forall db ensures Midway(s.defaults, Pass(READERS, {"app_ro"}, {"app"}), s.recorded, t.defaults, db) {
    }
  }
}
