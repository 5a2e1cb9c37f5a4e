/**
 The point of the gate: a table judged publishable never makes the source
 refuse a write, and every change it sends can be taken by the target - up to
 one condition the gate does not check, which is stated exactly.
 */
module NoStarvation {
  import opened Wrappers
  import opened Catalog
  import opened Eligibility
  import opened Apply

  /** What a catalog read from a real server looks like. */
  ghost predicate WellFormed(s: SourceTable) {
    && RelationWellFormed(s)
    && (s.kind == Ordinary ==> s.leaves == [])
    && (forall leaf :: leaf in s.leaves ==>
          RelationWellFormed(leaf) && leaf.columns.Keys == s.columns.Keys && leaf.generated == s.generated)
  }

  predicate RelationWellFormed(rel: SourceTable) {
    && rel.columns.Keys !! rel.generated
    && rel.identityIndex <= rel.columns.Keys + rel.generated
  }

  /** How the publication carries each relation: a leaf published under its own name has no filter or list. */
  function ShapeOf(c: Candidate, s: SourceTable, viaRoot: bool): Shape {
    if s.kind == Partitioned && !viaRoot then Shape({}, None) else Shape(c.columns, c.rowFilter)
  }

  /**
   A candidate the gate passes. A partitioned table published through its root
   is left out: its identity is judged on the root, not on the leaves.
   */
  ghost predicate Passed(
    v: Verdict, c: Candidate, s: SourceTable, targets: map<Name, TargetTable>, setting: Setting, ops: set<Operation>)
  {
    && IsVerdict(v, c, Some(s), targets, setting)
    && v.Publishable()
    && WellFormed(s)
    && (s.kind == Partitioned ==> !setting.viaRoot)
    && (setting.keyed <==> Updating in ops || Deleting in ops)
  }

  /**
   The condition the gate leaves open: every column the target looks rows up
   by is among the columns sent.
   */
  predicate LookupSent(rel: SourceTable, shape: Shape, t: TargetTable) {
    LookupColumns(t).Some? ==> LookupColumns(t).value <= Carried(rel, shape)
  }

  /** Writes of whole rows. */
  predicate WritesRows(rel: SourceTable, change: Change) {
    match change
    case Truncate => true
    case Insert(after) => IsRow(rel, after)
    case Delete(before) => IsRow(rel, before)
    case Update(before, after) => IsRow(rel, before) && IsRow(rel, after)
  }

  // -------------------------------------------------- what the gate provides

  /** A publishable candidate passes the early returns and has no issue of any kind. */
  lemma NothingRaised(
    v: Verdict, c: Candidate, s: SourceTable, targets: map<Name, TargetTable>, setting: Setting, ops: set<Operation>)
    requires Passed(v, c, s, targets, setting, ops)
    ensures !s.isPartition && s.Publishable()
    ensures forall r :: !SourceRaises(r, c, s, setting)
    ensures setting.keyed ==> forall r, m :: m in Members(s) ==>
      !MemberRaises(r, c, m, setting.GeneratedChecked())
    ensures forall r, rel :: rel in TargetRelations(s, setting.viaRoot) ==>
      !TargetRaises(r, rel, PublishedColumns(c, s), targets, setting)
  {
    assert forall i :: !Raised(i, c, Some(s), targets, setting);
    assert !s.isPartition && s.Publishable() by {
      assert !Raised(Issue(NotPublishable, c.name), c, Some(s), targets, setting);
    }
    forall r ensures !SourceRaises(r, c, s, setting) {
      assert !Raised(Issue(r, c.name), c, Some(s), targets, setting);
    }
    var checked := setting.GeneratedChecked();
    forall r, m | setting.keyed && m in Members(s) ensures !MemberRaises(r, c, m, checked) {
      assert !Raised(Issue(r, m.name), c, Some(s), targets, setting);
      assert !RaisedByMember(Issue(r, m.name), c, Members(s), checked);
    }
    forall r, rel | rel in TargetRelations(s, setting.viaRoot)
      ensures !TargetRaises(r, rel, PublishedColumns(c, s), targets, setting)
    {
      assert !Raised(Issue(r, rel.name), c, Some(s), targets, setting);
      assert !RaisedByRelation(Issue(r, rel.name), TargetRelations(s, setting.viaRoot), PublishedColumns(c, s), targets, setting);
    }
  }

  /** The facts about one published relation that the apply theorem needs, on its own side. */
  lemma SourceFacts(
    v: Verdict, c: Candidate, s: SourceTable, targets: map<Name, TargetTable>, setting: Setting, ops: set<Operation>,
    rel: SourceTable)
    requires Passed(v, c, s, targets, setting, ops)
    requires rel in TargetRelations(s, setting.viaRoot)
    ensures var shape := ShapeOf(c, s, setting.viaRoot);
      && RelationWellFormed(rel)
      && shape.FilterColumns() <= rel.columns.Keys
      && Carried(rel, shape) == PublishedColumns(c, s)
      && shape.columns <= rel.columns.Keys
      && (setting.keyed ==> IdentityRefusal(rel, shape, setting.sourceMajor).None?)
      && (setting.keyed && rel.replicaIdentity != Full ==> rel.IdentityColumns() == Some(rel.identityIndex))
  {
    NothingRaised(v, c, s, targets, setting, ops);
    assert !SourceRaises(UnknownColumn, c, s, setting);
    assert !SourceRaises(FilterIgnoredWithoutRoot, c, s, setting);
    assert rel in Members(s) by {
      if s.kind == Partitioned {
        assert !SourceRaises(NotPublishable, c, s, setting);
        assert rel.kind == Ordinary && rel.persistent;
      }
    }
    if setting.keyed {
      var checked := setting.GeneratedChecked();
      assert !MemberRaises(NoReplicaIdentity, c, rel, checked);
      assert !MemberRaises(RowFilterNotCovered, c, rel, checked);
      assert !MemberRaises(GeneratedColumnInIdentity, c, rel, checked);
      assert !MemberRaises(ColumnListMissesIdentity, c, rel, checked);
    }
  }

  ghost predicate AnyRaised(c: Candidate, rel: SourceTable, generatedChecked: bool) {
    exists r :: MemberRaises(r, c, rel, generatedChecked)
  }

  /**
   And no identity check of the gate is idle: one is raised for a relation
   exactly when the publisher would refuse its updates and deletes.
   */
  lemma IdentityRaisedIff(c: Candidate, rel: SourceTable, major: nat)
    requires RelationWellFormed(rel) && c.columns + c.FilterColumns() <= rel.columns.Keys
    ensures AnyRaised(c, rel, major >= GENERATED_IDENTITY_CHECK_VERSION)
       <==> IdentityRefusal(rel, Shape(c.columns, c.rowFilter), major).Some?
  {
    var checked := major >= GENERATED_IDENTITY_CHECK_VERSION;
    if IdentityRefusal(rel, Shape(c.columns, c.rowFilter), major).Some? {
      assert MemberRaises(NoReplicaIdentity, c, rel, checked) || MemberRaises(RowFilterNotCovered, c, rel, checked)
          || MemberRaises(GeneratedColumnInIdentity, c, rel, checked)
          || MemberRaises(ColumnListMissesIdentity, c, rel, checked);
    }
  }

  /** And on the target's. */
  lemma TargetFacts(
    v: Verdict, c: Candidate, s: SourceTable, targets: map<Name, TargetTable>, setting: Setting, ops: set<Operation>,
    rel: SourceTable)
    requires Passed(v, c, s, targets, setting, ops)
    requires rel in TargetRelations(s, setting.viaRoot)
    requires setting.keyed && rel.replicaIdentity != Full ==> rel.IdentityColumns() == Some(rel.identityIndex)
    ensures var published := PublishedColumns(c, s);
      && rel.name in targets && targets[rel.name].Receivable() && targets[rel.name].ownerSettable
      && published <= targets[rel.name].columns.Keys
      && targets[rel.name].required <= published
      && (setting.keyed && rel.replicaIdentity != Full ==>
            && targets[rel.name].IdentityColumns().Some?
            && targets[rel.name].IdentityColumns().value <= rel.identityIndex)
  {
    NothingRaised(v, c, s, targets, setting, ops);
    var published := PublishedColumns(c, s);
    assert !TargetRaises(TargetTableMissing, rel, published, targets, setting);
    assert !TargetRaises(TargetOwnerNotSettable, rel, published, targets, setting);
    assert !TargetRaises(TargetColumnsMissing, rel, published, targets, setting);
    assert !TargetRaises(TargetColumnRequired, rel, published, targets, setting);
    assert !TargetRaises(TargetNoReplicaIdentity, rel, published, targets, setting);
    assert !TargetRaises(TargetIdentityNotSent, rel, published, targets, setting);
  }

  lemma RelationFacts(
    v: Verdict, c: Candidate, s: SourceTable, targets: map<Name, TargetTable>, setting: Setting, ops: set<Operation>,
    rel: SourceTable)
    requires Passed(v, c, s, targets, setting, ops)
    requires rel in TargetRelations(s, setting.viaRoot)
    ensures var shape := ShapeOf(c, s, setting.viaRoot);
      && RelationWellFormed(rel)
      && shape.FilterColumns() <= rel.columns.Keys
      && Carried(rel, shape) == PublishedColumns(c, s)
      && shape.columns <= rel.columns.Keys
      && (setting.keyed ==> IdentityRefusal(rel, shape, setting.sourceMajor).None?)
      && rel.name in targets && targets[rel.name].Receivable() && targets[rel.name].ownerSettable
      && Carried(rel, shape) <= targets[rel.name].columns.Keys
      && targets[rel.name].required <= Carried(rel, shape)
      && (setting.keyed && rel.replicaIdentity != Full ==>
            && targets[rel.name].IdentityColumns().Some?
            && targets[rel.name].IdentityColumns().value <= rel.identityIndex)
  {
    SourceFacts(v, c, s, targets, setting, ops, rel);
    TargetFacts(v, c, s, targets, setting, ops, rel);
  }

  // ------------------------------------------------------------ main results

  /** The source accepts every write to a published relation. */
  lemma WritesAccepted(
    v: Verdict, c: Candidate, s: SourceTable, targets: map<Name, TargetTable>, setting: Setting, ops: set<Operation>,
    rel: SourceTable, change: Change)
    requires Passed(v, c, s, targets, setting, ops)
    requires rel in TargetRelations(s, setting.viaRoot)
    requires WritesRows(rel, change)
    ensures Publish(rel, ShapeOf(c, s, setting.viaRoot), ops, setting.sourceMajor, change).Ok?
  {
    RelationFacts(v, c, s, targets, setting, ops, rel);
  }

  /**
   The target can take a change exactly when it need not look a row up, or
   looks it up by columns that are sent.
   */
  lemma ChangesTaken(
    v: Verdict, c: Candidate, s: SourceTable, targets: map<Name, TargetTable>, setting: Setting, ops: set<Operation>,
    rel: SourceTable, change: Change)
    requires Passed(v, c, s, targets, setting, ops)
    requires rel in TargetRelations(s, setting.viaRoot)
    requires WritesRows(rel, change)
    ensures var shape := ShapeOf(c, s, setting.viaRoot);
      var sent := Publish(rel, shape, ops, setting.sourceMajor, change);
      && rel.name in targets && sent.Ok?
      && forall m :: m in sent.value ==>
           (Stalls(targets, rel.name, m).None?
            <==> (m.UpdateMsg? || m.DeleteMsg? ==> LookupSent(rel, shape, targets[rel.name])))
  {
    RelationFacts(v, c, s, targets, setting, ops, rel);
    WritesAccepted(v, c, s, targets, setting, ops, rel, change);
    MessagesTaken(rel, ShapeOf(c, s, setting.viaRoot), targets, ops, setting.sourceMajor, change);
  }

  /** What a relation's target has to be for its changes to be taken. */
  ghost predicate Suits(rel: SourceTable, shape: Shape, targets: map<Name, TargetTable>, keyed: bool) {
    && rel.name in targets && targets[rel.name].Receivable() && targets[rel.name].ownerSettable
    && Carried(rel, shape) <= targets[rel.name].columns.Keys
    && targets[rel.name].required <= Carried(rel, shape)
    && shape.FilterColumns() <= rel.columns.Keys
    && (keyed && rel.replicaIdentity != Full ==> LookedUpByKey(rel, targets[rel.name]))
  }

  predicate LookedUpByKey(rel: SourceTable, t: TargetTable) {
    t.IdentityColumns().Some? && t.IdentityColumns().value <= rel.identityIndex
  }

  /** The lookup of a row sends what it is told to. */
  lemma LookupTaken(rel: SourceTable, shape: Shape, t: TargetTable, before: Row)
    requires IsRow(rel, before) && rel.replicaIdentity != Nothing
    requires rel.replicaIdentity != Full ==> LookedUpByKey(rel, t)
    ensures LookupStall(t, SentKey(rel, shape, before), rel.replicaIdentity == Full).None? <==> LookupSent(rel, shape, t)
  {
  }

  lemma MessagesTaken(
    rel: SourceTable, shape: Shape, targets: map<Name, TargetTable>, ops: set<Operation>, major: nat, change: Change)
    requires Suits(rel, shape, targets, Updating in ops || Deleting in ops) && WritesRows(rel, change)
    requires Publish(rel, shape, ops, major, change).Ok?
    ensures forall m :: m in Publish(rel, shape, ops, major, change).value ==>
      (Stalls(targets, rel.name, m).None?
       <==> (m.UpdateMsg? || m.DeleteMsg? ==> LookupSent(rel, shape, targets[rel.name])))
  {
    match change
    case Delete(before) =>
      if Deleting in ops {
        LookupTaken(rel, shape, targets[rel.name], before);
      }
    case Update(before, after) =>
      if Updating in ops {
        LookupTaken(rel, shape, targets[rel.name], before);
      }
    case _ =>
  }

  /** The stream's messages in order, as far as the source accepts the writes. */
  function Stream(rel: SourceTable, shape: Shape, ops: set<Operation>, major: nat, changes: seq<Change>)
    : Result<seq<Message>, Refusal>
  {
    if changes == [] then Ok([])
    else
      var rest := Stream(rel, shape, ops, major, changes[..|changes| - 1]);
      var last := Publish(rel, shape, ops, major, changes[|changes| - 1]);
      if rest.Err? then rest else if last.Err? then last else Ok(rest.value + last.value)
  }

  /** No stream of writes is refused or stops apply, given that the lookup columns are sent. */
  lemma {:induction false} NeverStarves(
    v: Verdict, c: Candidate, s: SourceTable, targets: map<Name, TargetTable>, setting: Setting, ops: set<Operation>,
    rel: SourceTable, changes: seq<Change>)
    requires Passed(v, c, s, targets, setting, ops)
    requires rel in TargetRelations(s, setting.viaRoot)
    requires forall change :: change in changes ==> WritesRows(rel, change)
    ensures var shape := ShapeOf(c, s, setting.viaRoot);
      var sent := Stream(rel, shape, ops, setting.sourceMajor, changes);
      && sent.Ok? && rel.name in targets
      && (!setting.keyed || LookupSent(rel, shape, targets[rel.name]) ==>
            forall m :: m in sent.value ==> Stalls(targets, rel.name, m).None?)
  {
    RelationFacts(v, c, s, targets, setting, ops, rel);
    if changes != [] {
      NeverStarves(v, c, s, targets, setting, ops, rel, changes[..|changes| - 1]);
      ChangesTaken(v, c, s, targets, setting, ops, rel, changes[|changes| - 1]);
    }
  }

  /**
   When the gate's own checks already settle it: a publisher that sends a key
   free of generated columns, which PostgreSQL 18 enforces and a column list implies.
   */
  lemma LookupSentByKey(
    v: Verdict, c: Candidate, s: SourceTable, targets: map<Name, TargetTable>, setting: Setting, ops: set<Operation>,
    rel: SourceTable)
    requires Passed(v, c, s, targets, setting, ops)
    requires rel in TargetRelations(s, setting.viaRoot)
    requires setting.keyed && rel.replicaIdentity != Full
    requires setting.sourceMajor >= 18 || c.columns != {} || rel.identityIndex !! rel.generated
    ensures rel.name in targets && LookupSent(rel, ShapeOf(c, s, setting.viaRoot), targets[rel.name])
  {
    RelationFacts(v, c, s, targets, setting, ops, rel);
    var shape := ShapeOf(c, s, setting.viaRoot);
    if s.kind == Partitioned {
      NothingRaised(v, c, s, targets, setting, ops);
      assert !SourceRaises(FilterIgnoredWithoutRoot, c, s, setting);
    }
    assert IdentityRefusal(rel, shape, setting.sourceMajor).None?;
    if shape.columns != {} {
      assert rel.identityIndex <= shape.columns;
    }
  }

  // ------------------------------------------------ where the gate falls short

  const T := Name("public", "t")

  /** A table with columns `columns`, one of which may be generated. */
  function Sample(identity: ReplicaIdentity, key: set<Column>, columns: map<Column, ColumnType>, generated: set<Column>)
    : SourceTable
  {
    SourceTable(T, Ordinary, true, false, true, false, identity, key, columns, generated, true, [])
  }

  function SampleTarget(key: set<Column>, columns: map<Column, ColumnType>): TargetTable {
    TargetTable(T, Ordinary, true, Default, {}, key, columns, {})
  }

  function SampleSetting(major: nat): Setting {
    Setting(true, false, false, {}, {}, false, major)
  }

  /**
   With REPLICA IDENTITY FULL nothing is asked of the target, but a target
   with a primary key looks rows up by it all the same. One keyed on a column
   of its own passes the gate and stops on the first delete.
   */
  lemma FullIdentityCanStall(v: Verdict)
    requires IsVerdict(v, Candidate(T, {}, None), Some(Sample(Full, {}, map["a" := "int"], {})),
                       map[T := SampleTarget({"id"}, map["a" := "int", "id" := "int"])], SampleSetting(18))
    ensures v.Publishable()
    ensures var s := Sample(Full, {}, map["a" := "int"], {});
      var targets := map[T := SampleTarget({"id"}, map["a" := "int", "id" := "int"])];
      var sent := Publish(s, Shape({}, None), {Deleting}, 18, Delete(map["a" := Int(1)]));
      && !LookupSent(s, Shape({}, None), targets[T])
      && sent.Ok? && |sent.value| == 1
      && Stalls(targets, T, sent.value[0]) == Some(LookupColumnNotSent)
  {
    var c, s := Candidate(T, {}, None), Sample(Full, {}, map["a" := "int"], {});
    var target := SampleTarget({"id"}, map["a" := "int", "id" := "int"]);
    NoIssues(v, c, s, map[T := target], SampleSetting(18));
    assert "id" !in Carried(s, Shape({}, None));
    assert "id" in target.IdentityColumns().value;
  }

  /**
   Before PostgreSQL 18 a key holding a generated column is accepted but
   never sent, so a target keyed on that column stops as well.
   */
  lemma GeneratedKeyCanStall(v: Verdict)
    requires IsVerdict(v, Candidate(T, {}, None), Some(Sample(Default, {"g"}, map["a" := "int"], {"g"})),
                       map[T := SampleTarget({"g"}, map["a" := "int", "g" := "int"])], SampleSetting(17))
    ensures v.Publishable()
    ensures var s := Sample(Default, {"g"}, map["a" := "int"], {"g"});
      var targets := map[T := SampleTarget({"g"}, map["a" := "int", "g" := "int"])];
      var sent := Publish(s, Shape({}, None), {Deleting}, 17, Delete(map["a" := Int(1), "g" := Int(2)]));
      && !LookupSent(s, Shape({}, None), targets[T])
      && sent.Ok? && |sent.value| == 1
      && Stalls(targets, T, sent.value[0]) == Some(LookupColumnNotSent)
  {
    var c, s := Candidate(T, {}, None), Sample(Default, {"g"}, map["a" := "int"], {"g"});
    var target := SampleTarget({"g"}, map["a" := "int", "g" := "int"]);
    NoIssues(v, c, s, map[T := target], SampleSetting(17));
    assert "g" !in Carried(s, Shape({}, None));
    assert "g" in target.IdentityColumns().value;
  }

  /** None of an ordinary table's checks fails. */
  ghost predicate Clean(c: Candidate, s: SourceTable, targets: map<Name, TargetTable>, setting: Setting) {
    && s.kind == Ordinary && !s.isPartition && s.Publishable() && !setting.claimed
    && (forall r :: !SourceRaises(r, c, s, setting))
    && (setting.keyed ==> forall r :: !MemberRaises(r, c, s, setting.GeneratedChecked()))
    && (forall r :: !TargetRaises(r, s, PublishedColumns(c, s), targets, setting))
  }

  lemma CleanRaisesNothing(i: Issue, c: Candidate, s: SourceTable, targets: map<Name, TargetTable>, setting: Setting)
    requires Clean(c, s, targets, setting)
    ensures !Raised(i, c, Some(s), targets, setting)
  {
  }

  lemma NoIssues(v: Verdict, c: Candidate, s: SourceTable, targets: map<Name, TargetTable>, setting: Setting)
    requires IsVerdict(v, c, Some(s), targets, setting)
    requires Clean(c, s, targets, setting)
    ensures v.Publishable()
  {
    if v.issues != [] {
      var first := v.issues[0];
      CleanRaisesNothing(first, c, s, targets, setting);
    }
  }
}
