/**
 The gate over what the catalogs hold: exactly which tables are published, kept
 and dropped, with what the publisher and the worker themselves would refuse in
 place of the checks.
 */
module Gate {
  import opened Wrappers
  import opened Catalog
  import opened Eligibility
  import opened Apply
  import opened NoStarvation
  import Publication

  // ------------------------------------------------------- what fits, and how

  /** The table and its leaves can be carried, belong to the right role and can be read in full. */
  predicate SourceFit(c: Candidate, s: SourceTable, viaRoot: bool) {
    && (s.kind == Ordinary || s.kind == Partitioned) && s.persistent && !s.isPartition
    && s.ownerUsable && s.readable && !s.rowSecurity
    && (forall leaf :: leaf in s.leaves ==>
          leaf.kind == Ordinary && leaf.persistent && leaf.readable && !leaf.rowSecurity)
    && (forall column :: column in c.columns ==> column in s.columns)
    && (c.rowFilter.Some? ==> forall p :: p in c.rowFilter.value.predicates ==> p.column in s.columns)
    && (s.kind == Partitioned && !viaRoot ==> c.columns == {} && c.rowFilter.None?)
  }

  /** The publisher refuses no update and no delete of any relation that holds rows. */
  predicate SourceKeyed(c: Candidate, s: SourceTable, major: nat) {
    forall m :: m in (if s.kind == Partitioned then s.leaves else [s]) ==>
      IdentityRefusal(m, Shape(c.columns, c.rowFilter), major).None?
  }

  /** What is sent of each row. */
  function Sent(c: Candidate, s: SourceTable): set<Column> {
    if c.columns == {} then s.columns.Keys else c.columns * s.columns.Keys
  }

  /** The worker can take what is sent of the relation, and its initial copy finds no rows. */
  predicate TargetFit(rel: SourceTable, sent: set<Column>, targets: map<Name, TargetTable>, setting: Setting) {
    && rel.name in targets
    && var t := targets[rel.name];
      && (t.kind == Ordinary || t.kind == Partitioned) && t.ownerSettable
      && (forall column :: column in sent ==> column in t.columns)
      && (forall column :: column in t.required ==> column in sent)
      && (setting.copyData ==> rel.name in setting.subscribed || rel.name !in setting.nonempty)
      && (setting.keyed && SendsKey(rel) ==>
            LookupColumns(t).Some? && forall column :: column in LookupColumns(t).value ==> column in rel.identityIndex)
  }

  predicate SendsKey(rel: SourceTable) {
    (rel.replicaIdentity == Default || rel.replicaIdentity == UsingIndex) && rel.identityIndex != {}
  }

  predicate TargetsFit(c: Candidate, s: SourceTable, targets: map<Name, TargetTable>, setting: Setting) {
    forall rel :: rel in (if s.kind == Partitioned && !setting.viaRoot then s.leaves else [s]) ==>
      TargetFit(rel, Sent(c, s), targets, setting)
  }

  // ------------------------------------------------------------ check by check

  lemma SourceFitIff(c: Candidate, s: SourceTable, setting: Setting)
    ensures SourceFit(c, s, setting.viaRoot) <==>
      !s.isPartition && s.Publishable() && forall r :: !SourceRaises(r, c, s, setting)
  {
    if !s.isPartition && s.Publishable() && forall r :: !SourceRaises(r, c, s, setting) {
      assert !SourceRaises(NotPublishable, c, s, setting) && !SourceRaises(UnknownColumn, c, s, setting);
      assert !SourceRaises(FilterIgnoredWithoutRoot, c, s, setting);
      assert !SourceRaises(SourceTableNotOwned, c, s, setting);
      assert !SourceRaises(SourceTableNotReadable, c, s, setting) && !SourceRaises(RowSecurityEnabled, c, s, setting);
      assert s in [s] + s.leaves && forall leaf :: leaf in s.leaves ==> leaf in [s] + s.leaves;
      ColumnsKnown(c, s);
    }
    if SourceFit(c, s, setting.viaRoot) {
      ColumnsKnown(c, s);
    }
  }

  lemma ColumnsKnown(c: Candidate, s: SourceTable)
    ensures c.columns + c.FilterColumns() <= s.columns.Keys <==>
      && (forall column :: column in c.columns ==> column in s.columns)
      && (c.rowFilter.Some? ==> forall p :: p in c.rowFilter.value.predicates ==> p.column in s.columns)
  {
    if c.rowFilter.Some? {
      assert forall p :: p in c.rowFilter.value.predicates ==> p.column in c.FilterColumns();
    }
  }

  lemma SourceKeyedIff(c: Candidate, s: SourceTable, setting: Setting)
    requires WellFormed(s) && SourceFit(c, s, setting.viaRoot)
    ensures SourceKeyed(c, s, setting.sourceMajor) <==>
      forall r, m :: m in Members(s) ==> !MemberRaises(r, c, m, setting.GeneratedChecked())
  {
    var checked := setting.GeneratedChecked();
    ColumnsKnown(c, s);
    forall m | m in (if s.kind == Partitioned then s.leaves else [s])
      ensures m in Members(s)
      ensures IdentityRefusal(m, Shape(c.columns, c.rowFilter), setting.sourceMajor).None?
         <==> forall r :: !MemberRaises(r, c, m, checked)
    {
      IdentityRaisedIff(c, m, setting.sourceMajor);
      assert AnyRaised(c, m, checked) <==> exists r :: MemberRaises(r, c, m, checked);
    }
  }

  lemma TargetFitIff(
    rel: SourceTable, c: Candidate, s: SourceTable, targets: map<Name, TargetTable>, setting: Setting)
    ensures TargetFit(rel, Sent(c, s), targets, setting)
       <==> forall r :: !TargetRaises(r, rel, PublishedColumns(c, s), targets, setting)
  {
    var sent := PublishedColumns(c, s);
    assert sent == Sent(c, s);
    if forall r :: !TargetRaises(r, rel, sent, targets, setting) {
      assert !TargetRaises(TargetTableMissing, rel, sent, targets, setting);
      assert !TargetRaises(TargetOwnerNotSettable, rel, sent, targets, setting);
      assert !TargetRaises(TargetColumnsMissing, rel, sent, targets, setting);
      assert !TargetRaises(TargetColumnRequired, rel, sent, targets, setting);
      assert !TargetRaises(TargetTableNotEmpty, rel, sent, targets, setting);
      assert !TargetRaises(TargetNoReplicaIdentity, rel, sent, targets, setting);
      assert !TargetRaises(TargetIdentityNotSent, rel, sent, targets, setting);
    }
  }

  lemma TargetsFitIff(c: Candidate, s: SourceTable, targets: map<Name, TargetTable>, setting: Setting)
    ensures TargetsFit(c, s, targets, setting) <==> forall r, rel :: rel in TargetRelations(s, setting.viaRoot) ==>
      !TargetRaises(r, rel, PublishedColumns(c, s), targets, setting)
  {
    forall rel | rel in TargetRelations(s, setting.viaRoot)
      ensures TargetFit(rel, Sent(c, s), targets, setting)
        <==> forall r :: !TargetRaises(r, rel, PublishedColumns(c, s), targets, setting)
    {
      TargetFitIff(rel, c, s, targets, setting);
    }
  }

  // ------------------------------------------------------------ main results

  /** All that is asked of the source, and that no older replication has the table. */
  ghost predicate MayStay(c: Candidate, source: Option<SourceTable>, setting: Setting) {
    && source.Some? && SourceFit(c, source.value, setting.viaRoot) && !setting.claimed
    && (setting.keyed ==> SourceKeyed(c, source.value, setting.sourceMajor))
  }

  /** A table once published stays published exactly if it may stay: nothing on the target makes it go. */
  lemma KeepsIff(
    v: Verdict, c: Candidate, source: Option<SourceTable>, targets: map<Name, TargetTable>, setting: Setting)
    requires IsVerdict(v, c, source, targets, setting) && (source.Some? ==> WellFormed(source.value))
    ensures v.KeepsMembership() <==> MayStay(c, source, setting)
  {
    if source.None? || source.value.isPartition || !source.value.Publishable() {
      var reason := if source.None? then SourceTableMissing else NotPublishable;
      assert Raised(Issue(reason, c.name), c, source, targets, setting);
      assert Issue(reason, c.name) in v.issues;
    } else {
      var s := source.value;
      SourceFitIff(c, s, setting);
      if SourceFit(c, s, setting.viaRoot) {
        SourceKeyedIff(c, s, setting);
      }
      KeepsByChecks(v, c, s, targets, setting);
    }
  }

  lemma KeepsByChecks(v: Verdict, c: Candidate, s: SourceTable, targets: map<Name, TargetTable>, setting: Setting)
    requires IsVerdict(v, c, Some(s), targets, setting) && !s.isPartition && s.Publishable()
    ensures v.KeepsMembership() <==>
      && (forall r :: !SourceRaises(r, c, s, setting)) && !setting.claimed
      && (setting.keyed ==> forall r, m :: m in Members(s) ==> !MemberRaises(r, c, m, setting.GeneratedChecked()))
  {
    var checked := setting.GeneratedChecked();
    forall r ensures SourceRaises(r, c, s, setting) ==> Issue(r, c.name) in v.issues {
    }
    forall r, m | setting.keyed && m in Members(s)
      ensures MemberRaises(r, c, m, checked) ==> Issue(r, m.name) in v.issues
    {
      assert MemberRaises(r, c, m, checked) ==> RaisedByMember(Issue(r, m.name), c, Members(s), checked);
    }
    assert setting.claimed ==> Issue(TableTargetedTwice, c.name) in v.issues;
  }

  /** And it is publishable exactly if the target also fits, for each relation that is applied. */
  lemma PublishableIff(
    v: Verdict, c: Candidate, source: Option<SourceTable>, targets: map<Name, TargetTable>, setting: Setting)
    requires IsVerdict(v, c, source, targets, setting) && (source.Some? ==> WellFormed(source.value))
    ensures v.Publishable() <==> MayStay(c, source, setting) && TargetsFit(c, source.value, targets, setting)
  {
    KeepsIff(v, c, source, targets, setting);
    if v.KeepsMembership() {
      PublishableByTargets(v, c, source.value, targets, setting);
      TargetsFitIff(c, source.value, targets, setting);
    }
  }

  lemma PublishableByTargets(
    v: Verdict, c: Candidate, s: SourceTable, targets: map<Name, TargetTable>, setting: Setting)
    requires IsVerdict(v, c, Some(s), targets, setting) && v.KeepsMembership()
    requires !s.isPartition && s.Publishable()
    ensures v.Publishable() <==> forall r, rel :: rel in TargetRelations(s, setting.viaRoot) ==>
      !TargetRaises(r, rel, PublishedColumns(c, s), targets, setting)
  {
    var rels, published := TargetRelations(s, setting.viaRoot), PublishedColumns(c, s);
    forall r, rel | rel in rels
      ensures TargetRaises(r, rel, published, targets, setting) ==> Issue(r, rel.name) in v.issues
    {
      var i := Issue(r, rel.name);
      assert TargetRaises(r, rel, published, targets, setting) ==>
        RaisedByRelation(i, rels, published, targets, setting);
    }
    if !v.Publishable() && forall r, rel :: rel in rels ==> !TargetRaises(r, rel, published, targets, setting) {
      var i := v.issues[0];
      assert Raised(i, c, Some(s), targets, setting);
      KeepsByChecks(v, c, s, targets, setting);
    }
  }

  /**
   What a pass leaves published, over the catalogs: a table already published
   if it may stay, and a new one if the target fits too and the server adds it.
   */
  lemma PublishedIff(
    members: Publication.Members, vs: Publication.Verdicts, recs: Publication.Records, refusals: Publication.Refusals,
    n: Name, source: Option<SourceTable>, targets: map<Name, TargetTable>, setting: Setting)
    requires n in vs && IsVerdict(vs[n], vs[n].candidate, source, targets, setting)
    requires source.Some? ==> WellFormed(source.value)
    ensures var c := vs[n].candidate;
      n in Publication.After(members, vs, recs, refusals) <==>
        && MayStay(c, source, setting)
        && (n in members || (TargetsFit(c, source.value, targets, setting) && n !in refusals.adds))
    ensures var c := vs[n].candidate;
      n in Publication.KeptAmong(vs.Keys, members, vs) <==>
        n in members && MayStay(c, source, setting) && !TargetsFit(c, source.value, targets, setting)
  {
    KeepsIff(vs[n], vs[n].candidate, source, targets, setting);
    PublishableIff(vs[n], vs[n].candidate, source, targets, setting);
  }

  /** While a table stays published, for whatever its target lacks, the source accepts every write to its rows. */
  lemma KeptAcceptsWrites(
    v: Verdict, c: Candidate, s: SourceTable, targets: map<Name, TargetTable>, setting: Setting, ops: set<Operation>,
    rel: SourceTable, change: Change)
    requires IsVerdict(v, c, Some(s), targets, setting) && WellFormed(s) && v.KeepsMembership()
    requires setting.keyed <==> Updating in ops || Deleting in ops
    requires rel in (if s.kind == Partitioned then s.leaves else [s]) && WritesRows(rel, change)
    ensures Publish(rel, Shape(c.columns, c.rowFilter), ops, setting.sourceMajor, change).Ok?
  {
    KeepsIff(v, c, Some(s), targets, setting);
    ColumnsKnown(c, s);
    FilterIsRead(c, rel, setting.sourceMajor, ops, change);
  }

  lemma FilterIsRead(c: Candidate, rel: SourceTable, major: nat, ops: set<Operation>, change: Change)
    requires RelationWellFormed(rel) && WritesRows(rel, change) && c.FilterColumns() <= rel.columns.Keys
    requires Updating in ops || Deleting in ops ==> IdentityRefusal(rel, Shape(c.columns, c.rowFilter), major).None?
    ensures Publish(rel, Shape(c.columns, c.rowFilter), ops, major, change).Ok?
  {
    assert Shape(c.columns, c.rowFilter).FilterColumns() == c.FilterColumns();
  }

  // ------------------------------------------------------ what a reason names

  /** An identity issue names what the publisher would say of an update or a delete. */
  lemma IdentityReasons(c: Candidate, rel: SourceTable, major: nat)
    requires RelationWellFormed(rel) && c.columns + c.FilterColumns() <= rel.columns.Keys
    ensures var refusal, checked := IdentityRefusal(rel, Shape(c.columns, c.rowFilter), major), major >= 18;
      && (MemberRaises(NoReplicaIdentity, c, rel, checked) <==> refusal == Some(NoIdentity))
      && (MemberRaises(RowFilterNotCovered, c, rel, checked) <==> refusal == Some(FilterOutsideIdentity))
      && (!MemberRaises(RowFilterNotCovered, c, rel, checked) ==>
            && (MemberRaises(ColumnListMissesIdentity, c, rel, checked)
                <==> refusal == Some(ListOnFullIdentity) || refusal == Some(ListMissesIdentity))
            && (MemberRaises(GeneratedColumnInIdentity, c, rel, checked)
                <==> refusal == Some(UnpublishedGeneratedIdentity)))
  {
    assert Shape(c.columns, c.rowFilter).FilterColumns() == c.FilterColumns();
  }

  /** An issue on the target names why the worker would stop at an insert, or the copy at rows. */
  lemma RowReasons(
    rel: SourceTable, sent: set<Column>, targets: map<Name, TargetTable>, setting: Setting, row: Row)
    requires row.Keys == sent
    ensures var stall := Stalls(targets, rel.name, InsertMsg(row));
      && (TargetRaises(TargetTableMissing, rel, sent, targets, setting) <==> stall == Some(RelationMissing))
      && (TargetRaises(TargetOwnerNotSettable, rel, sent, targets, setting) <==> stall == Some(OwnerNotSettable))
      && (stall != Some(RelationMissing) && stall != Some(OwnerNotSettable) ==>
            (TargetRaises(TargetColumnsMissing, rel, sent, targets, setting) <==> stall == Some(ColumnMissing)))
      && (stall.None? || stall == Some(RequiredColumnAbsent) ==>
            (TargetRaises(TargetColumnRequired, rel, sent, targets, setting) <==> stall == Some(RequiredColumnAbsent)))
      && (TargetRaises(TargetTableNotEmpty, rel, sent, targets, setting) <==>
            && stall != Some(RelationMissing) && setting.copyData
            && rel.name !in setting.subscribed && rel.name in setting.nonempty)
  {
  }

  /** Or at a delete, when the key is sent in whole. */
  lemma KeyReasons(
    rel: SourceTable, sent: set<Column>, targets: map<Name, TargetTable>, setting: Setting, key: Row)
    requires key.Keys == rel.identityIndex && setting.keyed && SendsKey(rel)
    ensures var stall := Stalls(targets, rel.name, DeleteMsg(key, false));
      stall != Some(RelationMissing) && stall != Some(OwnerNotSettable) ==>
        && (TargetRaises(TargetNoReplicaIdentity, rel, sent, targets, setting) <==> stall == Some(NoLookupIndex))
        && (TargetRaises(TargetIdentityNotSent, rel, sent, targets, setting) <==> stall == Some(LookupColumnNotSent))
  {
  }

  /** The reasons on the source's side, by what its catalog holds: what cannot be carried as it is asked for. */
  lemma ShapeReasons(v: Verdict, c: Candidate, s: SourceTable, targets: map<Name, TargetTable>, setting: Setting)
    requires IsVerdict(v, c, Some(s), targets, setting)
    requires (s.kind == Ordinary || s.kind == Partitioned) && s.persistent && !s.isPartition
    ensures Issue(NotPublishable, c.name) in v.issues <==>
      exists leaf :: leaf in s.leaves && (leaf.kind != Ordinary || !leaf.persistent)
    ensures Issue(UnknownColumn, c.name) in v.issues <==>
      || (exists column :: column in c.columns && column !in s.columns)
      || (c.rowFilter.Some? && exists p :: p in c.rowFilter.value.predicates && p.column !in s.columns)
    ensures Issue(FilterIgnoredWithoutRoot, c.name) in v.issues <==>
      s.kind == Partitioned && !setting.viaRoot && (c.columns != {} || c.rowFilter.Some?)
    ensures Issue(TableTargetedTwice, c.name) in v.issues <==> setting.claimed
  {
    ColumnsKnown(c, s);
    TableReason(v, c, s, targets, setting, NotPublishable);
    TableReason(v, c, s, targets, setting, UnknownColumn);
    TableReason(v, c, s, targets, setting, FilterIgnoredWithoutRoot);
    TableReason(v, c, s, targets, setting, TableTargetedTwice);
  }

  /** And what the managing role and the login may not do. */
  lemma AccessReasons(v: Verdict, c: Candidate, s: SourceTable, targets: map<Name, TargetTable>, setting: Setting)
    requires IsVerdict(v, c, Some(s), targets, setting)
    requires (s.kind == Ordinary || s.kind == Partitioned) && s.persistent && !s.isPartition
    ensures Issue(SourceTableNotOwned, c.name) in v.issues <==> !s.ownerUsable
    ensures Issue(SourceTableNotReadable, c.name) in v.issues <==>
      !s.readable || exists leaf :: leaf in s.leaves && !leaf.readable
    ensures Issue(RowSecurityEnabled, c.name) in v.issues <==>
      s.rowSecurity || exists leaf :: leaf in s.leaves && leaf.rowSecurity
  {
    assert s in [s] + s.leaves && forall leaf :: leaf in s.leaves ==> leaf in [s] + s.leaves;
    TableReason(v, c, s, targets, setting, SourceTableNotOwned);
    TableReason(v, c, s, targets, setting, SourceTableNotReadable);
    TableReason(v, c, s, targets, setting, RowSecurityEnabled);
  }

  /** A reason that no member and no relation gives is the table's own. */
  lemma TableReason(
    v: Verdict, c: Candidate, s: SourceTable, targets: map<Name, TargetTable>, setting: Setting, r: Reason)
    requires IsVerdict(v, c, Some(s), targets, setting) && !s.isPartition && s.Publishable()
    requires forall m, checked :: !MemberRaises(r, c, m, checked)
    requires forall rel :: !TargetRaises(r, rel, PublishedColumns(c, s), targets, setting)
    ensures Issue(r, c.name) in v.issues <==>
      SourceRaises(r, c, s, setting) || (setting.claimed && r == TableTargetedTwice)
  {
  }
}
