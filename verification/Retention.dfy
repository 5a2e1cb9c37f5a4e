/**
 What a database converge creates, drops and records: schemas and extensions
 that were declared once and no longer are, kept or dropped by the retention
 policy, over whole histories of passes.
 */
module Retention {
  import opened Wrappers

  datatype Policy = Retain | Drop

  // Extensions every database has, which are never dropped.
  const BASELINE: set<string> := {"plpgsql"}

  // A schema that counts as declared in every pass.
  const ALWAYS: string := "public"

  /** Recorded names that are no longer declared, still live, and not among those always spared. */
  function Orphans(live: set<string>, recorded: set<string>, declared: set<string>, spared: set<string>): set<string> {
    (recorded - declared) * (live - spared)
  }

  /** One kind of object: what the database holds, and what the status says is managed. */
  datatype State = State(live: set<string>, recorded: set<string>)

  /** One pass over it. `creatable` are the names the server is able to create. */
  datatype Pass = Pass(declared: set<string>, creatable: set<string>, policy: Policy)

  /** A completed pass. */
  function After(s: State, p: Pass, spared: set<string>): State {
    var live := s.live + p.declared * p.creatable;
    var orphans := Orphans(live, s.recorded, p.declared, spared);
    match p.policy
    case Retain => State(live, p.declared + orphans)
    case Drop => State(live - orphans, p.declared)
  }

  /**
   A pass cut short anywhere: some of what it creates is there, some of what
   it drops is gone, and the record is not written.
   */
  ghost predicate CutShort(s: State, p: Pass, spared: set<string>, t: State) {
    t.recorded == s.recorded
    && t.live <= s.live + p.declared * p.creatable
    && (if p.policy == Retain then s.live else s.live - (s.recorded - p.declared - spared)) <= t.live
  }

  // ----------------------------------------------------------------- the pass

  datatype Declaration = Declaration(schemas: set<string>, extensions: set<string>, available: set<string>, policy: Policy)

  function Managed(schemas: set<string>): set<string> {
    schemas + {ALWAYS}
  }

  function SchemaPass(d: Declaration): Pass {
    Pass(Managed(d.schemas), Managed(d.schemas), d.policy)
  }

  function ExtensionPass(d: Declaration): Pass {
    Pass(d.extensions, d.available, d.policy)
  }

  datatype Record = Record(schemas: set<string>, extensions: set<string>)

  class Database {
    var schemas: set<string>
    var extensions: set<string>
    var answers: nat   // how many more statements the server answers before one fails

    constructor (schemas: set<string>, extensions: set<string>, answers: nat)
      ensures this.schemas == schemas && this.extensions == extensions && this.answers == answers
    {
      this.schemas, this.extensions, this.answers := schemas, extensions, answers;
    }

    method EnsureSchemas(declared: set<string>) returns (ok: bool)
      modifies this`schemas, this`answers
      ensures old(schemas) <= schemas <= old(schemas) + declared
      ensures ok ==> schemas == old(schemas) + declared && answers == old(answers) - |declared|
      ensures ok <==> old(answers) >= |declared|
    {
      var rest := declared;
      while rest != {}
        invariant rest <= declared
        invariant schemas == old(schemas) + (declared - rest)
        invariant old(answers) - answers == |declared| - |rest| && answers >= 0
        decreases rest
      {
        var name :| name in rest;
        if answers == 0 {
          return false;
        }
        answers, schemas, rest := answers - 1, schemas + {name}, rest - {name};
      }
      ok := true;
    }

    /** An extension the server does not offer is reported and passed over. */
    method EnsureExtensions(declared: set<string>, available: set<string>) returns (ok: bool)
      modifies this`extensions, this`answers
      ensures old(extensions) <= extensions <= old(extensions) + declared * available
      ensures ok ==> extensions == old(extensions) + declared * available
      ensures ok ==> old(answers) - |declared| <= answers
      ensures old(answers) >= |declared| ==> ok
    {
      var rest := declared;
      while rest != {}
        invariant rest <= declared
        invariant extensions == old(extensions) + (declared - rest) * available
        invariant old(answers) - answers <= |declared| - |rest| && answers >= 0
        decreases rest
      {
        var name :| name in rest;
        rest := rest - {name};
        if name in available && name !in extensions {
          if answers == 0 {
            return false;
          }
          answers, extensions := answers - 1, extensions + {name};
        }
      }
      ok := true;
    }

    method DropSchemas(orphans: set<string>) returns (ok: bool)
      modifies this`schemas, this`answers
      ensures old(schemas) - orphans <= schemas <= old(schemas)
      ensures ok ==> schemas == old(schemas) - orphans && answers == old(answers) - |orphans|
      ensures ok <==> old(answers) >= |orphans|
    {
      var rest := orphans;
      while rest != {}
        invariant rest <= orphans
        invariant schemas == old(schemas) - (orphans - rest)
        invariant old(answers) - answers == |orphans| - |rest| && answers >= 0
        decreases rest
      {
        var name :| name in rest;
        if answers == 0 {
          return false;
        }
        answers, schemas, rest := answers - 1, schemas - {name}, rest - {name};
      }
      ok := true;
    }

    method DropExtensions(orphans: set<string>) returns (ok: bool)
      modifies this`extensions, this`answers
      ensures old(extensions) - orphans <= extensions <= old(extensions)
      ensures ok ==> extensions == old(extensions) - orphans
      ensures ok <==> old(answers) >= |orphans|
    {
      var rest := orphans;
      while rest != {}
        invariant rest <= orphans
        invariant extensions == old(extensions) - (orphans - rest)
        invariant old(answers) - answers == |orphans| - |rest| && answers >= 0
        decreases rest
      {
        var name :| name in rest;
        if answers == 0 {
          return false;
        }
        answers, extensions, rest := answers - 1, extensions - {name}, rest - {name};
      }
      ok := true;
    }

    /** Drops the orphans, or leaves them and says which they are. */
    method HandleOrphans(d: Declaration, recorded: Record) returns (kept: Option<Record>)
      modifies this
      ensures Handled(old(schemas), recorded.schemas, SchemaPass(d), {}, schemas)
      ensures Handled(old(extensions), recorded.extensions, ExtensionPass(d), BASELINE, extensions)
      ensures kept.Some? ==>
        && HandledFully(old(schemas), recorded.schemas, SchemaPass(d), {}, schemas, kept.value.schemas)
        && HandledFully(old(extensions), recorded.extensions, ExtensionPass(d), BASELINE, extensions, kept.value.extensions)
      ensures old(answers) >= |recorded.schemas| + |recorded.extensions| ==> kept.Some?
    {
      var orphanSchemas := Orphans(schemas, recorded.schemas, Managed(d.schemas), {});
      var orphanExtensions := Orphans(extensions, recorded.extensions, d.extensions, BASELINE);
      Fewer(orphanSchemas, recorded.schemas);
      Fewer(orphanExtensions, recorded.extensions);
      if d.policy == Drop {
        var ok := DropSchemas(orphanSchemas);
        if ok {
          ok := DropExtensions(orphanExtensions);
        }
        return if ok then Some(Record({}, {})) else None;
      }
      kept := Some(Record(orphanSchemas, orphanExtensions));
    }

    /** The in-database phase of a pass: nothing is recorded unless all of it went through. */
    method Converge(d: Declaration, recorded: Record) returns (record: Option<Record>)
      modifies this
      ensures record.Some? ==>
        && State(schemas, record.value.schemas) == After(State(old(schemas), recorded.schemas), SchemaPass(d), {})
        && State(extensions, record.value.extensions)
           == After(State(old(extensions), recorded.extensions), ExtensionPass(d), BASELINE)
      ensures record.None? ==>
        && CutShort(State(old(schemas), recorded.schemas), SchemaPass(d), {}, State(schemas, recorded.schemas))
        && CutShort(State(old(extensions), recorded.extensions), ExtensionPass(d), BASELINE,
             State(extensions, recorded.extensions))
      ensures old(answers) >= |Managed(d.schemas)| + |d.extensions| + |recorded.schemas| + |recorded.extensions|
        ==> record.Some?
      ensures "public" in old(schemas) ==> "public" in schemas
      ensures "plpgsql" in old(extensions) ==> "plpgsql" in extensions
      ensures d.policy == Retain ==> old(schemas) <= schemas && old(extensions) <= extensions
    {
      ghost var s, e := State(schemas, recorded.schemas), State(extensions, recorded.extensions);
      assert Managed(d.schemas) == SchemaPass(d).declared * SchemaPass(d).creatable;
      var ok := EnsureSchemas(Managed(d.schemas));
      if !ok {
        return None;
      }
      ok := EnsureExtensions(d.extensions, d.available);
      if !ok {
        return None;
      }
      var kept := HandleOrphans(d, recorded);
      HandledIsCutShort(s, SchemaPass(d), {}, schemas);
      HandledIsCutShort(e, ExtensionPass(d), BASELINE, extensions);
      if kept.None? {
        return None;
      }
      HandledIsAfter(s, SchemaPass(d), {}, schemas, kept.value.schemas);
      HandledIsAfter(e, ExtensionPass(d), BASELINE, extensions, kept.value.extensions);
      record := Some(Record(Managed(d.schemas) + kept.value.schemas, d.extensions + kept.value.extensions));
    }
  }

  /** What handling orphans may leave of `live`, however far it came. */
  ghost predicate Handled(live: set<string>, recorded: set<string>, p: Pass, spared: set<string>, now: set<string>) {
    live - (if p.policy == Drop then Orphans(live, recorded, p.declared, spared) else {}) <= now <= live
  }

  ghost predicate HandledFully(
    live: set<string>, recorded: set<string>, p: Pass, spared: set<string>, now: set<string>, kept: set<string>)
  {
    var orphans := Orphans(live, recorded, p.declared, spared);
    if p.policy == Drop then now == live - orphans && kept == {} else now == live && kept == orphans
  }

  lemma HandledIsCutShort(s: State, p: Pass, spared: set<string>, now: set<string>)
    requires Handled(s.live + p.declared * p.creatable, s.recorded, p, spared, now)
    ensures CutShort(s, p, spared, State(now, s.recorded))
  {
  }

  lemma HandledIsAfter(s: State, p: Pass, spared: set<string>, now: set<string>, kept: set<string>)
    requires HandledFully(s.live + p.declared * p.creatable, s.recorded, p, spared, now, kept)
    ensures State(now, p.declared + kept) == After(s, p, spared)
  {
  }

  lemma Fewer(a: set<string>, b: set<string>)
    requires a <= b
    ensures |a| <= |b|
  {
    if a != {} {
      var x :| x in a;
      Fewer(a - {x}, b - {x});
    }
  }

  /** Schemas: all declared and the public one are made; what is on record beside them is dropped, or kept there. */
  lemma SchemasAfter(s: State, d: Declaration)
    ensures var t, wanted := After(s, SchemaPass(d), {}), d.schemas + {"public"};
      if d.policy == Drop then t == State((s.live - s.recorded) + wanted, wanted)
      else t == State(s.live + wanted, wanted + s.recorded * s.live)
  {
  }

  /** Extensions: those declared and offered are made; of the rest on record plpgsql alone is left be. */
  lemma ExtensionsAfter(s: State, d: Declaration)
    ensures var t, made := After(s, ExtensionPass(d), BASELINE), d.extensions * d.available;
      if d.policy == Drop then
        t == State(s.live + made - (s.recorded - d.extensions - {"plpgsql"}), d.extensions)
      else
        t == State(s.live + made, d.extensions + (s.recorded * s.live - {"plpgsql"}))
  {
  }

  // ---------------------------------------------------------------- histories

  /** A run of completed passes. */
  function Run(s: State, passes: seq<Pass>, spared: set<string>): State {
    if passes == [] then s
    else After(Run(s, passes[..|passes| - 1], spared), passes[|passes| - 1], spared)
  }

  function EverDeclared(passes: seq<Pass>): set<string> {
    if passes == [] then {}
    else EverDeclared(passes[..|passes| - 1]) + passes[|passes| - 1].declared
  }

  /** What some pass could make, had it not been there. */
  function EverMade(passes: seq<Pass>): set<string> {
    if passes == [] then {}
    else
      var p := passes[|passes| - 1];
      EverMade(passes[..|passes| - 1]) + p.declared * p.creatable
  }

  predicate Known(first: State, passes: seq<Pass>, x: string) {
    x in first.recorded || x in EverDeclared(passes)
  }

  /** The name was dropped, as one once declared, and no pass has been able to make it since. */
  predicate Gone(first: State, passes: seq<Pass>, x: string) {
    passes != []
    && var p, earlier := passes[|passes| - 1], passes[..|passes| - 1];
      x !in p.declared * p.creatable
      && ((p.policy == Drop && x !in p.declared && Known(first, earlier, x)) || Gone(first, earlier, x))
  }

  /** What is live after any history, read off the declarations and policies. */
  predicate LiveAfter(first: State, passes: seq<Pass>, spared: set<string>, x: string) {
    (x in first.live || x in EverMade(passes)) && (x in spared || !Gone(first, passes, x))
  }

  /** For one name: it is live as the history says, and if known, live and not spared, it is on the record. */
  lemma {:induction false} RunsAreAccounted(first: State, passes: seq<Pass>, spared: set<string>, x: string)
    ensures var s := Run(first, passes, spared);
      && (x in s.live <==> LiveAfter(first, passes, spared, x))
      && (x in s.recorded ==> Known(first, passes, x))
      && (x in s.live && x !in spared && Known(first, passes, x) ==> x in s.recorded)
  {
    if passes != [] {
      RunsAreAccounted(first, passes[..|passes| - 1], spared, x);
    }
  }

  /** What a history that ends by dropping leaves: nothing in it depends on the order or the earlier policies. */
  function LeftBy(first: State, passes: seq<Pass>, spared: set<string>): set<string> {
    (first.live + EverMade(passes) * spared) - (first.recorded + EverDeclared(passes) - spared)
  }

  /**
   A history ending in a dropping pass leaves what was there before and never
   declared or recorded, and what is declared now: all of it that can be made,
   and of the rest what was live until then.
   */
  lemma DropSettles(first: State, passes: seq<Pass>, spared: set<string>, x: string)
    requires passes != [] && passes[|passes| - 1].policy == Drop
    ensures var last, earlier := passes[|passes| - 1], passes[..|passes| - 1];
      x in Run(first, passes, spared).live <==>
        if x in last.declared then x in last.creatable || LiveAfter(first, earlier, spared, x)
        else x in LeftBy(first, passes, spared)
    ensures Run(first, passes, spared).recorded == passes[|passes| - 1].declared
  {
    RunsAreAccounted(first, passes[..|passes| - 1], spared, x);
    OnlyKnownGo(first, passes[..|passes| - 1], x);
  }

  /** In whole, where the server can make all that is declared at the end, as any can make a schema. */
  lemma DropSettlesWholly(first: State, passes: seq<Pass>, spared: set<string>)
    requires passes != [] && passes[|passes| - 1].policy == Drop
    requires passes[|passes| - 1].declared <= passes[|passes| - 1].creatable
    ensures var last := passes[|passes| - 1].declared;
      Run(first, passes, spared) == State(LeftBy(first, passes, spared) + last, last)
  {
    var last := passes[|passes| - 1].declared;
    forall x ensures x in Run(first, passes, spared).live <==> x in LeftBy(first, passes, spared) + last {
      DropSettles(first, passes, spared, x);
    }
    DropSettles(first, passes, spared, "");
  }

  lemma {:induction false} OnlyKnownGo(first: State, passes: seq<Pass>, x: string)
    ensures Gone(first, passes, x) ==> Known(first, passes, x)
    ensures x in EverMade(passes) ==> x in EverDeclared(passes)
  {
    if passes != [] {
      OnlyKnownGo(first, passes[..|passes| - 1], x);
    }
  }

  /** The same declarations on the same servers under other policies. */
  ghost predicate SameButPolicies(p: seq<Pass>, q: seq<Pass>) {
    |p| == |q| && forall i :: 0 <= i < |p| ==> p[i].declared == q[i].declared && p[i].creatable == q[i].creatable
  }

  lemma {:induction false} SameDeclarations(p: seq<Pass>, q: seq<Pass>)
    requires SameButPolicies(p, q)
    ensures EverDeclared(p) == EverDeclared(q) && EverMade(p) == EverMade(q)
  {
    if p != [] {
      SameDeclarations(p[..|p| - 1], q[..|q| - 1]);
    }
  }

  /** Declared at the end, when the server cannot make it, and there until something dropped it. */
  predicate Wanting(first: State, passes: seq<Pass>, spared: set<string>, x: string)
    requires passes != []
  {
    var last, earlier := passes[|passes| - 1], passes[..|passes| - 1];
    x in last.declared && x !in last.creatable && x !in spared && (x in first.live || x in EverMade(earlier))
  }

  /**
   Histories of the same declarations that end by dropping leave the same,
   whatever their policies, exactly when they agree on every name that is
   declared at the end and cannot be made then: whether it was dropped.
   */
  lemma PoliciesMatterIff(first: State, p: seq<Pass>, q: seq<Pass>, spared: set<string>)
    requires SameButPolicies(p, q) && p != []
    requires p[|p| - 1].policy == q[|q| - 1].policy == Drop
    ensures Run(first, p, spared) == Run(first, q, spared) <==>
      forall x :: Wanting(first, p, spared, x) ==> (Gone(first, p[..|p| - 1], x) <==> Gone(first, q[..|q| - 1], x))
  {
    SameDeclarations(p, q);
    SameDeclarations(p[..|p| - 1], q[..|q| - 1]);
    var s, t := Run(first, p, spared), Run(first, q, spared);
    forall x ensures (x in s.live <==> x in t.live) <==>
        (Wanting(first, p, spared, x) ==> (Gone(first, p[..|p| - 1], x) <==> Gone(first, q[..|q| - 1], x)))
    {
      DropSettles(first, p, spared, x);
      DropSettles(first, q, spared, x);
    }
    if s == t {
      forall x | Wanting(first, p, spared, x)
        ensures Gone(first, p[..|p| - 1], x) <==> Gone(first, q[..|q| - 1], x)
      {
        assert x in s.live <==> x in t.live;
      }
    }
    DropSettles(first, p, spared, "");
    DropSettles(first, q, spared, "");
  }

  /**
   So retaining and then dropping once is the same as having dropped all along,
   or any mixture, as long as the server can make what is declared at the end.
   Every server can make a schema.
   */
  lemma RetainThenDrop(first: State, p: seq<Pass>, q: seq<Pass>, spared: set<string>)
    requires SameButPolicies(p, q) && p != [] && p[|p| - 1].policy == q[|q| - 1].policy == Drop
    requires p[|p| - 1].declared <= p[|p| - 1].creatable
    ensures Run(first, p, spared) == Run(first, q, spared)
  {
    PoliciesMatterIff(first, p, q, spared);
  }

  /** An extension made once, undeclared for a while, and declared again when the server no longer offers it. */
  function MadeThenWithheld(policy: Policy): seq<Pass> {
    [Pass({"postgis"}, {"postgis"}, policy), Pass({}, {}, policy), Pass({"postgis"}, {}, Drop)]
  }

  lemma PoliciesMatter()
    ensures Run(State({}, {}), MadeThenWithheld(Retain), BASELINE).live == {"postgis"}
    ensures Run(State({}, {}), MadeThenWithheld(Drop), BASELINE).live == {}
  {
    ThreePasses(State({}, {}), MadeThenWithheld(Retain), BASELINE);
    ThreePasses(State({}, {}), MadeThenWithheld(Drop), BASELINE);
  }

  lemma ThreePasses(first: State, p: seq<Pass>, spared: set<string>)
    requires |p| == 3
    ensures Run(first, p, spared) == After(After(After(first, p[0], spared), p[1], spared), p[2], spared)
  {
    var two, one := p[..2], p[..1];
    assert two[..1] == one && one[..0] == [] && two[1] == p[1] && one[0] == p[0];
    assert Run(first, one, spared) == After(first, p[0], spared);
    assert Run(first, two, spared) == After(Run(first, one, spared), p[1], spared);
  }

  // ------------------------------------- with failures and changes from outside

  datatype Event =
    | Completed(pass: Pass)
    | Interrupted(pass: Pass)
    | Outside(created: set<string>, dropped: set<string>)

  ghost predicate Step(s: State, e: Event, t: State, spared: set<string>) {
    match e
    case Completed(p) => t == After(s, p, spared)
    case Interrupted(p) => CutShort(s, p, spared, t)
    case Outside(created, dropped) => t == State(s.live + created - dropped, s.recorded)
  }

  ghost predicate IsHistory(states: seq<State>, events: seq<Event>, spared: set<string>) {
    |states| == |events| + 1
    && forall i :: 0 <= i < |events| ==> Step(states[i], events[i], states[i + 1], spared)
  }

  /** Whatever a pass drops was on the record, not declared and not spared, and the policy said to drop. */
  lemma OnlyTheRecordedIsDropped(s: State, e: Event, t: State, spared: set<string>, x: string)
    requires Step(s, e, t, spared) && !e.Outside? && x in s.live && x !in t.live
    ensures x in s.recorded && x !in e.pass.declared && x !in spared && e.pass.policy == Drop
  {
  }

  predicate DeclaredIn(e: Event, x: string) {
    e.Completed? && x in e.pass.declared
  }

  /** What was never on the record, and in no completed pass's declaration, is never touched by a pass. */
  lemma {:induction false} NeverDeclaredIsSafe(
    states: seq<State>, events: seq<Event>, spared: set<string>, x: string)
    requires IsHistory(states, events, spared)
    requires x in states[0].live && x !in states[0].recorded
    requires forall e :: e in events ==> !DeclaredIn(e, x) && !(e.Outside? && x in e.dropped)
    ensures x in states[|events|].live && x !in states[|events|].recorded
  {
    if events != [] {
      var k := |events| - 1;
      NeverDeclaredIsSafe(states[..k + 1], events[..k], spared, x);
      assert Step(states[k], events[k], states[k + 1], spared);
      assert events[k] in events;
      assert !DeclaredIn(events[k], x);
    }
  }

  /** A baseline extension is never dropped, declared or not. */
  lemma {:induction false} SparedIsSafe(states: seq<State>, events: seq<Event>, spared: set<string>, x: string)
    requires IsHistory(states, events, spared)
    requires x in spared && x in states[0].live
    requires forall e :: e in events ==> !(e.Outside? && x in e.dropped)
    ensures x in states[|events|].live
  {
    if events != [] {
      var k := |events| - 1;
      SparedIsSafe(states[..k + 1], events[..k], spared, x);
      assert Step(states[k], events[k], states[k + 1], spared);
      assert events[k] in events;
    }
  }

  /** Such is plpgsql, which every database has. */
  lemma BaselineIsSafe(states: seq<State>, events: seq<Event>)
    requires IsHistory(states, events, BASELINE)
    requires "plpgsql" in states[0].live
    requires forall e :: e in events ==> !(e.Outside? && "plpgsql" in e.dropped)
    ensures "plpgsql" in states[|events|].live
  {
    SparedIsSafe(states, events, BASELINE, "plpgsql");
  }

  ghost predicate OfDeclaration(e: Event, d: Declaration) {
    !e.Outside? && e.pass == SchemaPass(d)
  }

  /** Nor is the public schema, since every pass manages it. */
  lemma {:induction false} PublicIsSafe(states: seq<State>, events: seq<Event>)
    requires IsHistory(states, events, {})
    requires "public" in states[0].live
    requires forall e :: e in events ==>
               (exists d :: OfDeclaration(e, d)) || (e.Outside? && "public" !in e.dropped)
    ensures "public" in states[|events|].live
  {
    if events != [] {
      var k := |events| - 1;
      PublicIsSafe(states[..k + 1], events[..k]);
      assert Step(states[k], events[k], states[k + 1], {});
      assert events[k] in events;
    }
  }

  /** Live names that are on no record, so that no later pass will drop them unless they are declared again. */
  function Unrecorded(first: State, events: seq<Event>): set<string> {
    if events == [] then first.live - first.recorded
    else
      var before := Unrecorded(first, events[..|events| - 1]);
      match events[|events| - 1]
      case Completed(p) => before - p.declared
      case Interrupted(p) => before + (p.declared * p.creatable)
      case Outside(created, _) => before + created
  }

  /**
   With failures and outside changes, what is live is on the record, or spared,
   or was there unrecorded: a name that came from outside, or from a pass that
   failed, and that no completed pass has declared since.
   */
  lemma {:induction false} LiveIsAccountedFor(states: seq<State>, events: seq<Event>, spared: set<string>)
    requires IsHistory(states, events, spared)
    ensures states[|events|].live <= states[|events|].recorded + spared + Unrecorded(states[0], events)
  {
    if events != [] {
      var k := |events| - 1;
      LiveIsAccountedFor(states[..k + 1], events[..k], spared);
      assert Step(states[k], events[k], states[k + 1], spared);
    }
  }

  /** Failed attempts with the declaration unchanged leave no mark: the pass that completes finishes them. */
  lemma {:induction false} RetriesFinish(states: seq<State>, p: Pass, spared: set<string>, attempts: nat)
    requires IsHistory(states, seq(attempts, i => Interrupted(p)), spared)
    ensures After(states[attempts], p, spared).live == After(states[0], p, spared).live
    ensures p.policy == Drop ==> After(states[attempts], p, spared) == After(states[0], p, spared)
    ensures states[attempts].recorded == states[0].recorded
    ensures CutShort(states[0], p, spared, states[attempts])
  {
    if attempts > 0 {
      var k := attempts - 1;
      var events, shorter := seq(attempts, i => Interrupted(p)), seq(k, i => Interrupted(p));
      forall i | 0 <= i < |shorter| ensures Step(states[..attempts][i], shorter[i], states[..attempts][i + 1], spared) {
        assert events[i] == Interrupted(p);
        assert Step(states[i], events[i], states[i + 1], spared);
      }
      RetriesFinish(states[..attempts], p, spared, k);
      assert events[k] == Interrupted(p);
      assert Step(states[k], events[k], states[attempts], spared);
    }
  }

  /** Whether a completed pass leaves a name as it would have, live before or not: it makes it or drops it. */
  predicate Settles(p: Pass, recorded: set<string>, spared: set<string>, x: string) {
    x in p.declared * p.creatable || (p.policy == Drop && x in recorded && x !in p.declared && x !in spared)
  }

  /**
   Exactly when failed passes leave a mark that a completed one does not
   remove, however many they were and whatever they declared: when one of the
   names they made or dropped is neither made nor dropped by it.
   */
  lemma FailedLeavesNoMarkIff(s: State, t: State, p: Pass, spared: set<string>)
    requires t.recorded == s.recorded
    ensures After(t, p, spared).live <= After(s, p, spared).live
       <==> forall x :: x in t.live - s.live ==> Settles(p, s.recorded, spared, x)
    ensures After(t, p, spared).live == After(s, p, spared).live
       <==> forall x :: x in (t.live - s.live) + (s.live - t.live) ==> Settles(p, s.recorded, spared, x)
  {
    var after, before := After(t, p, spared).live, After(s, p, spared).live;
    forall x ensures (x in after <==> x in before) <==> (x in t.live <==> x in s.live) || Settles(p, s.recorded, spared, x)
    {
    }
  }

  /** A schema made in a failed pass, and then no longer declared, is left by a completed one that drops. */
  lemma AbandonedAttemptLeaks()
    ensures var s, tried := State({ALWAYS}, {ALWAYS}), Pass({ALWAYS, "new"}, {ALWAYS, "new"}, Drop);
            var t, next := State({ALWAYS, "new"}, {ALWAYS}), Pass({ALWAYS}, {ALWAYS}, Drop);
      && CutShort(s, tried, {}, t)
      && "new" !in s.live && "new" !in next.declared && !Settles(next, s.recorded, {}, "new")
      && After(t, next, {}) == t && "new" in t.live && "new" !in t.recorded
  {
    var t, next := State({ALWAYS, "new"}, {ALWAYS}), Pass({ALWAYS}, {ALWAYS}, Drop);
    assert Orphans(t.live, t.recorded, next.declared, {}) == {};
  }

  /**
   And a name a failed pass has made and no completed pass declares stays, on
   no record, whatever passes follow.
   */
  lemma AbandonedStays(
    s: State, p: Pass, states: seq<State>, events: seq<Event>, spared: set<string>, x: string)
    requires IsHistory(states, events, spared) && CutShort(s, p, spared, states[0])
    requires x !in s.live && x in states[0].live && x !in s.recorded
    requires forall e :: e in events ==> !DeclaredIn(e, x) && !(e.Outside? && x in e.dropped)
    ensures x in states[|events|].live && x !in states[|events|].recorded
  {
    NeverDeclaredIsSafe(states, events, spared, x);
  }
}
