/**
 A published table without a row filter whose key is the same on both sides:
 starting from a copy, the target holds the projection of the source after
 every sequence of writes, and no change ever conflicts.
 */
module Mirror {
  import opened Wrappers
  import opened Catalog
  import opened Eligibility
  import opened Apply
  import opened NoStarvation

  const ALL_OPERATIONS: set<Operation> := {Inserting, Updating, Deleting, Truncating}

  /** The source's rows after a sequence of writes. */
  function Written(rel: SourceTable, source: Table, changes: seq<Change>): Table {
    if changes == [] then source
    else Write(rel, Written(rel, source, changes[..|changes| - 1]), changes[|changes| - 1])
  }

  /** Each write is possible where it happens. */
  ghost predicate AllPossible(rel: SourceTable, source: Table, changes: seq<Change>) {
    forall k :: 0 <= k < |changes| ==> Possible(rel, Written(rel, source, changes[..k]), changes[k])
  }

  /**
   The target's rows after the same writes have been published and applied;
   `fills` are the values the target supplies for its own columns. An error
   stands for a refused write, a stalled worker or a key conflict.
   */
  function Applied(
    rel: SourceTable, shape: Shape, major: nat, targets: map<Name, TargetTable>, target: Table, changes: seq<Change>,
    fills: nat -> Row)
    : Result<Table, ()>
    requires rel.name in targets && targets[rel.name].IdentityColumns().Some?
  {
    if changes == [] then Ok(target)
    else
      var last := |changes| - 1;
      var so := Applied(rel, shape, major, targets, target, changes[..last], fills);
      var sent := Publish(rel, shape, ALL_OPERATIONS, major, changes[last]);
      if so.Err? || sent.Err? then Err(())
      else TakeAll(targets, rel.name, so.value, sent.value, fills(last))
  }

  function TakeAll(targets: map<Name, TargetTable>, name: Name, table: Table, ms: seq<Message>, fill: Row)
    : Result<Table, ()>
    requires name in targets && targets[name].IdentityColumns().Some?
    decreases |ms|
  {
    if ms == [] then Ok(table)
    else if Stalls(targets, name, ms[0]).Some? then Err(())
    else
      var first := Take(targets[name], table, ms[0], fill);
      if first.Err? then first else TakeAll(targets, name, first.value, ms[1..], fill)
  }

  /** The same keys, and the same values in every column carried. */
  ghost predicate Mirrors(source: Table, target: Table, carried: set<Column>) {
    && source.Keys == target.Keys
    && forall k :: k in source ==> AgreeOn(source[k], target[k], carried)
  }

  predicate AgreeOn(r: Row, r': Row, carried: set<Column>) {
    && carried <= r.Keys && carried <= r'.Keys
    && forall col :: col in carried ==> r[col] == r'[col]
  }

  /** Both keys are the same columns, and they are among those carried. */
  predicate SameKey(rel: SourceTable, shape: Shape, t: TargetTable) {
    && rel.replicaIdentity != Full
    && t.IdentityColumns() == Some(rel.identityIndex)
    && rel.identityIndex <= Carried(rel, shape)
  }

  /** Restricting further loses nothing more. */
  lemma RestrictTwice(row: Row, outer: set<Column>, inner: set<Column>)
    requires inner <= outer
    ensures Restrict(Restrict(row, outer), inner) == Restrict(row, inner)
  {
  }

  /** The key sent with an old row is the old row's key. */
  lemma SentKeyIsKey(rel: SourceTable, shape: Shape, row: Row)
    requires rel.replicaIdentity != Full && rel.replicaIdentity != Nothing
    requires rel.identityIndex <= Carried(rel, shape)
    ensures Restrict(SentKey(rel, shape, row), rel.identityIndex) == KeyOf(rel, row)
  {
    RestrictTwice(row, rel.identityIndex, rel.identityIndex * Carried(rel, shape));
  }

  /** The one message a write sends when every operation is published unfiltered. */
  function MessageOf(rel: SourceTable, shape: Shape, change: Change): Message {
    match change
    case Truncate => TruncateMsg
    case Insert(after) => InsertMsg(Restrict(after, Carried(rel, shape)))
    case Delete(before) => DeleteMsg(SentKey(rel, shape, before), false)
    case Update(before, after) =>
      UpdateMsg(SentKey(rel, shape, before), Restrict(after, Carried(rel, shape)), false)
  }

  /** Every write is published as its message, and the worker can take it. */
  ghost predicate Flows(rel: SourceTable, shape: Shape, major: nat, targets: map<Name, TargetTable>) {
    forall change :: WritesRows(rel, change) ==>
      && Publish(rel, shape, ALL_OPERATIONS, major, change) == Ok([MessageOf(rel, shape, change)])
      && Stalls(targets, rel.name, MessageOf(rel, shape, change)).None?
  }

  lemma UpdateMirrors(
    rel: SourceTable, shape: Shape, t: TargetTable, source: Table, target: Table, before: Row, after: Row, fill: Row)
    requires SameKey(rel, shape, t) && rel.replicaIdentity != Nothing
    requires Mirrors(source, target, Carried(rel, shape))
    requires Possible(rel, source, Update(before, after))
    ensures var taken := Take(t, target, MessageOf(rel, shape, Update(before, after)), fill);
      && taken.Ok?
      && Mirrors(Write(rel, source, Update(before, after)), taken.value, Carried(rel, shape))
  {
    var carried, k := Carried(rel, shape), KeyOf(rel, before);
    UpdateTaken(rel, shape, t, target, before, after, fill);
    assert AgreeOn(source[k], target[k], carried);
    MovedMirrors(source, target, carried, k, KeyOf(rel, after), after, target[k] + Restrict(after, carried));
  }

  lemma UpdateTaken(
    rel: SourceTable, shape: Shape, t: TargetTable, target: Table, before: Row, after: Row, fill: Row)
    requires SameKey(rel, shape, t) && rel.replicaIdentity != Nothing
    requires KeyOf(rel, before) in target && (KeyOf(rel, after) == KeyOf(rel, before) || KeyOf(rel, after) !in target)
    ensures var k := KeyOf(rel, before);
      Take(t, target, MessageOf(rel, shape, Update(before, after)), fill)
        == Ok((target - {k})[KeyOf(rel, after) := target[k] + Restrict(after, Carried(rel, shape))])
  {
    SentKeyIsKey(rel, shape, before);
    RestrictTwice(after, Carried(rel, shape), rel.identityIndex);
  }

  /** A row that moves to another key on both sides leaves the mirror as it is. */
  lemma MovedMirrors(source: Table, target: Table, carried: set<Column>, k: Row, k': Row, row: Row, row': Row)
    requires Mirrors(source, target, carried) && AgreeOn(row, row', carried)
    ensures Mirrors((source - {k})[k' := row], (target - {k})[k' := row'], carried)
  {
  }

  lemma InsertMirrors(
    rel: SourceTable, shape: Shape, t: TargetTable, source: Table, target: Table, after: Row, fill: Row)
    requires SameKey(rel, shape, t)
    requires Mirrors(source, target, Carried(rel, shape))
    requires Possible(rel, source, Insert(after))
    ensures var taken := Take(t, target, MessageOf(rel, shape, Insert(after)), fill);
      && taken.Ok?
      && Mirrors(Write(rel, source, Insert(after)), taken.value, Carried(rel, shape))
  {
    RestrictTwice(after, Carried(rel, shape), rel.identityIndex);
    assert AgreeOn(after, fill + Restrict(after, Carried(rel, shape)), Carried(rel, shape));
  }

  /** One write keeps the mirror. */
  lemma StepMirrors(
    rel: SourceTable, shape: Shape, t: TargetTable, source: Table, target: Table, change: Change, fill: Row)
    requires SameKey(rel, shape, t) && rel.replicaIdentity != Nothing
    requires Mirrors(source, target, Carried(rel, shape))
    requires Possible(rel, source, change)
    ensures var taken := Take(t, target, MessageOf(rel, shape, change), fill);
      && taken.Ok?
      && Mirrors(Write(rel, source, change), taken.value, Carried(rel, shape))
  {
    match change
    case Truncate =>
    case Insert(after) => InsertMirrors(rel, shape, t, source, target, after, fill);
    case Delete(before) => SentKeyIsKey(rel, shape, before);
    case Update(before, after) => UpdateMirrors(rel, shape, t, source, target, before, after, fill);
  }

  lemma {:induction false} MirrorsThroughout(
    rel: SourceTable, shape: Shape, major: nat, targets: map<Name, TargetTable>, source: Table, target: Table,
    changes: seq<Change>, fills: nat -> Row)
    requires rel.name in targets && SameKey(rel, shape, targets[rel.name]) && rel.replicaIdentity != Nothing
    requires Flows(rel, shape, major, targets)
    requires Mirrors(source, target, Carried(rel, shape))
    requires AllPossible(rel, source, changes)
    ensures var after := Applied(rel, shape, major, targets, target, changes, fills);
      after.Ok? && Mirrors(Written(rel, source, changes), after.value, Carried(rel, shape))
  {
    if changes != [] {
      var last := |changes| - 1;
      PossibleBefore(rel, source, changes);
      MirrorsThroughout(rel, shape, major, targets, source, target, changes[..last], fills);
      var so := Applied(rel, shape, major, targets, target, changes[..last], fills).value;
      StepMirrors(rel, shape, targets[rel.name], Written(rel, source, changes[..last]), so, changes[last], fills(last));
      AppliedLast(rel, shape, major, targets, target, changes, fills);
    }
  }

  lemma PossibleBefore(rel: SourceTable, source: Table, changes: seq<Change>)
    requires AllPossible(rel, source, changes) && changes != []
    ensures AllPossible(rel, source, changes[..|changes| - 1])
    ensures var last := |changes| - 1;
      Possible(rel, Written(rel, source, changes[..last]), changes[last]) && WritesRows(rel, changes[last])
  {
    var before := changes[..|changes| - 1];
    forall k | 0 <= k < |before| ensures Possible(rel, Written(rel, source, before[..k]), before[k]) {
      assert before[..k] == changes[..k];
    }
  }

  /** Where every write is published as its message, the last one is taken on what the others left. */
  lemma AppliedLast(
    rel: SourceTable, shape: Shape, major: nat, targets: map<Name, TargetTable>, target: Table, changes: seq<Change>,
    fills: nat -> Row)
    requires rel.name in targets && targets[rel.name].IdentityColumns().Some?
    requires changes != [] && Flows(rel, shape, major, targets) && WritesRows(rel, changes[|changes| - 1])
    requires Applied(rel, shape, major, targets, target, changes[..|changes| - 1], fills).Ok?
    ensures var last := |changes| - 1;
      var so := Applied(rel, shape, major, targets, target, changes[..last], fills).value;
      Applied(rel, shape, major, targets, target, changes, fills)
        == Take(targets[rel.name], so, MessageOf(rel, shape, changes[last]), fills(last))
  {
    var last := |changes| - 1;
    var so := Applied(rel, shape, major, targets, target, changes[..last], fills).value;
    var m := MessageOf(rel, shape, changes[last]);
    assert [m][1..] == [];
    assert TakeAll(targets, rel.name, so, [m], fills(last)) == Take(targets[rel.name], so, m, fills(last));
  }

  /**
   The mirror holds after every sequence of possible writes - and so after
   every prefix of one - with nothing refused, stalled or in conflict.
   */
  lemma TargetMirrorsSource(
    v: Verdict, c: Candidate, s: SourceTable, targets: map<Name, TargetTable>, setting: Setting, rel: SourceTable,
    source: Table, target: Table, changes: seq<Change>, fills: nat -> Row)
    requires Passed(v, c, s, targets, setting, ALL_OPERATIONS)
    requires rel in TargetRelations(s, setting.viaRoot) && c.rowFilter.None?
    requires rel.name in targets && SameKey(rel, ShapeOf(c, s, setting.viaRoot), targets[rel.name])
    requires Mirrors(source, target, Carried(rel, ShapeOf(c, s, setting.viaRoot)))
    requires AllPossible(rel, source, changes)
    ensures var shape := ShapeOf(c, s, setting.viaRoot);
      var after := Applied(rel, shape, setting.sourceMajor, targets, target, changes, fills);
      after.Ok? && Mirrors(Written(rel, source, changes), after.value, Carried(rel, shape))
  {
    var shape := ShapeOf(c, s, setting.viaRoot);
    RelationFacts(v, c, s, targets, setting, ALL_OPERATIONS, rel);
    forall change | WritesRows(rel, change)
      ensures Publish(rel, shape, ALL_OPERATIONS, setting.sourceMajor, change) == Ok([MessageOf(rel, shape, change)])
      ensures Stalls(targets, rel.name, MessageOf(rel, shape, change)).None?
    {
      ChangesTaken(v, c, s, targets, setting, ALL_OPERATIONS, rel, change);
      assert MessageOf(rel, shape, change)
          in Publish(rel, shape, ALL_OPERATIONS, setting.sourceMajor, change).value;
    }
    MirrorsThroughout(rel, shape, setting.sourceMajor, targets, source, target, changes, fills);
  }
}
