/**
 The gate in front of a publication: what has to hold of a table on both servers.
 `Raised` says, reason by reason, when a table has an issue; the methods build
 the list of issues the way the operator does and are proved to contain
 exactly those.
 */
module Eligibility {
  import opened Wrappers
  import opened Catalog

  datatype Reason =
    | SourceTableMissing | NotPublishable | UnknownColumn | FilterIgnoredWithoutRoot
    | NoReplicaIdentity | RowFilterNotCovered | GeneratedColumnInIdentity | ColumnListMissesIdentity
    | SourceTableNotOwned | SourceTableNotReadable | RowSecurityEnabled
    | TargetTableMissing | TargetColumnsMissing | TargetTableNotEmpty | TargetOwnerNotSettable
    | TargetColumnRequired | TargetNoReplicaIdentity | TargetIdentityNotSent | TableTargetedTwice

  datatype Side = SourceSide | TargetSide

  function SideOf(r: Reason): Side {
    match r
    case TargetTableMissing | TargetColumnsMissing | TargetTableNotEmpty | TargetOwnerNotSettable
       | TargetColumnRequired | TargetNoReplicaIdentity | TargetIdentityNotSent | TableTargetedTwice => TargetSide
    case _ => SourceSide
  }

  /** An issue, and the relation it was found on. */
  datatype Issue = Issue(reason: Reason, at: Name)

  datatype Verdict = Verdict(candidate: Candidate, issues: seq<Issue>) {
    predicate Publishable() {
      issues == []
    }

    /** Whether a table already published stays published despite its issues. */
    predicate KeepsMembership() {
      forall i :: i in issues ==> SideOf(i.reason) == TargetSide && i.reason != TableTargetedTwice
    }
  }

  /** What a verdict depends on besides the two catalogs. */
  datatype Setting = Setting(
    keyed: bool,               // UPDATE or DELETE is published
    viaRoot: bool,
    copyData: bool,
    subscribed: set<Name>,
    nonempty: set<Name>,
    claimed: bool,             // by an older replication into the same target
    sourceMajor: nat
  ) {
    /** PostgreSQL 18 and later also refuse an identity that holds a generated column. */
    predicate GeneratedChecked() {
      sourceMajor >= GENERATED_IDENTITY_CHECK_VERSION
    }
  }

  const GENERATED_IDENTITY_CHECK_VERSION := 18

  // ------------------------------------------------------------- candidates

  /** Whether a schema's selection takes the table in whole. */
  predicate Selects(selection: Selection, t: SourceTable) {
    && (exists s :: s in selection.schemas && s.schema == t.name.schema && t.name.relation !in s.exclude)
    && !t.isPartition
    && t.Publishable()
  }

  predicate Explicit(selection: Selection, n: Name) {
    exists c :: c in selection.tables && c.name == n
  }

  /** Every table the schemas take in, and every one listed, the latter as they are listed. */
  method Candidates(selection: Selection, catalog: map<Name, SourceTable>) returns (found: map<Name, Candidate>)
    requires selection.Valid()
    requires forall n :: n in catalog ==> catalog[n].name == n
    ensures forall c :: c in selection.tables ==> c.name in found && found[c.name] == c
    ensures forall n :: n in found <==>
      Explicit(selection, n) || (n in catalog && Selects(selection, catalog[n]))
    ensures forall n :: n in found && !Explicit(selection, n) ==> found[n] == Candidate(n, {}, None)
    // Unless it is listed, a table is taken with its schema, if it is a whole and permanent one that is not excluded.
    ensures forall n :: (forall c :: c in selection.tables ==> c.name != n) ==>
      (n in found <==>
        && n in catalog && (catalog[n].kind == Ordinary || catalog[n].kind == Partitioned)
        && catalog[n].persistent && !catalog[n].isPartition
        && exists s :: s in selection.schemas && s.schema == n.schema && n.relation !in s.exclude)
  {
    found := map[];
    for k := 0 to |selection.schemas|
      invariant forall n :: n in found <==>
        !Explicit(selection, n) && n in catalog && Selects(Selection(selection.schemas[..k], []), catalog[n])
      invariant forall n :: n in found ==> found[n] == Candidate(n, {}, None)
    {
      found := ExpandSchema(selection, selection.schemas[k], catalog, found);
      assert selection.schemas[..k + 1] == selection.schemas[..k] + [selection.schemas[k]];
    }
    assert selection.schemas[..|selection.schemas|] == selection.schemas;
    found := OverlayTables(selection, found);
  }

  /** Adds the tables one schema takes in whole. */
  method ExpandSchema(selection: Selection, chosen: SchemaSelection, catalog: map<Name, SourceTable>,
      before: map<Name, Candidate>) returns (found: map<Name, Candidate>)
    requires forall n :: n in catalog ==> catalog[n].name == n
    requires forall n :: n in before ==> before[n] == Candidate(n, {}, None)
    ensures forall n :: n in found <==>
      n in before || (n in catalog && !Explicit(selection, n) && Selects(Selection([chosen], []), catalog[n]))
    ensures forall n :: n in found ==> found[n] == Candidate(n, {}, None)
  {
    found := before;
    var rest := catalog.Keys;
    while rest != {}
      invariant rest <= catalog.Keys
      invariant forall n :: n in found <==>
        || n in before
        || (n in catalog && n !in rest && !Explicit(selection, n) && Selects(Selection([chosen], []), catalog[n]))
      invariant forall n :: n in found ==> found[n] == Candidate(n, {}, None)
      decreases rest
    {
      var n :| n in rest;
      rest := rest - {n};
      var t := catalog[n];
      var skip := n.schema != chosen.schema || n.relation in chosen.exclude || Explicit(selection, n)
        || t.isPartition || !t.Publishable();
      assert !skip <==> !Explicit(selection, n) && Selects(Selection([chosen], []), t) by {
        assert chosen in [chosen];
      }
      if !skip {
        found := found[n := Candidate(n, {}, None)];
      }
    }
  }

  /** Lays the tables listed one by one over those found. */
  method OverlayTables(selection: Selection, before: map<Name, Candidate>) returns (found: map<Name, Candidate>)
    requires selection.Valid()
    requires forall n :: n in before ==> !Explicit(selection, n)
    ensures forall c :: c in selection.tables ==> c.name in found && found[c.name] == c
    ensures forall n :: n in found <==> n in before || Explicit(selection, n)
    ensures forall n :: n in before ==> n in found && found[n] == before[n]
  {
    found := before;
    for k := 0 to |selection.tables|
      invariant forall n :: n in found <==> n in before || exists c :: c in selection.tables[..k] && c.name == n
      invariant forall j :: 0 <= j < k ==>
        selection.tables[j].name in found && found[selection.tables[j].name] == selection.tables[j]
      invariant forall n :: n in before ==> n in found && found[n] == before[n]
    {
      assert selection.tables[k] in selection.tables;
      found := found[selection.tables[k].name := selection.tables[k]];
    }
  }

  // ------------------------------------------------------- when issues arise

  /** The relations changes arrive under on the target: one, unless leaves go by their own names. */
  function TargetRelations(s: SourceTable, viaRoot: bool): seq<SourceTable> {
    if s.kind == Partitioned && !viaRoot then s.leaves else [s]
  }

  /** The relations whose replica identity the publisher enforces. */
  function Members(s: SourceTable): seq<SourceTable> {
    if s.kind == Partitioned then PublishableOf(s.leaves) else [s]
  }

  function PublishableOf(ts: seq<SourceTable>): (r: seq<SourceTable>)
    ensures forall t :: t in r <==> t in ts && t.Publishable()
  {
    if ts == [] then [] else (if ts[0].Publishable() then [ts[0]] else []) + PublishableOf(ts[1..])
  }

  /** The columns a change to the table carries. */
  function PublishedColumns(c: Candidate, s: SourceTable): set<Column> {
    if c.columns != {} then c.columns * s.columns.Keys else s.columns.Keys
  }

  /** A replica identity holding a generated column, which the operator never publishes. */
  predicate GeneratedInIdentity(m: SourceTable) {
    if m.replicaIdentity == Full then m.generated != {} else m.identityIndex * m.generated != {}
  }

  predicate MemberRaises(r: Reason, c: Candidate, m: SourceTable, generatedChecked: bool) {
    var identity := m.IdentityColumns();
    match r
    case NoReplicaIdentity => identity.None?
    case RowFilterNotCovered => identity.Some? && !(c.FilterColumns() <= identity.value)
    case GeneratedColumnInIdentity =>
      identity.Some? && generatedChecked && c.columns == {} && GeneratedInIdentity(m)
    case ColumnListMissesIdentity =>
      identity.Some? && c.columns != {} && (m.replicaIdentity == Full || !(identity.value <= c.columns))
    case _ => false
  }

  predicate SourceRaises(r: Reason, c: Candidate, s: SourceTable, setting: Setting) {
    match r
    case NotPublishable => exists leaf :: leaf in s.leaves && (leaf.kind != Ordinary || !leaf.persistent)
    case UnknownColumn => !(c.columns + c.FilterColumns() <= s.columns.Keys)
    case FilterIgnoredWithoutRoot =>
      s.kind == Partitioned && !setting.viaRoot && (c.columns != {} || c.rowFilter.Some?)
    case _ => AccessRaises(r, s)
  }

  predicate AccessRaises(r: Reason, s: SourceTable) {
    match r
    case SourceTableNotOwned => !s.ownerUsable
    case SourceTableNotReadable => exists t :: t in [s] + s.leaves && !t.readable
    case RowSecurityEnabled => exists t :: t in [s] + s.leaves && t.rowSecurity
    case _ => false
  }

  predicate TargetRaises(
    r: Reason, rel: SourceTable, published: set<Column>, targets: map<Name, TargetTable>, setting: Setting)
  {
    if rel.name !in targets || !targets[rel.name].Receivable() then
      r == TargetTableMissing
    else
      var t := targets[rel.name];
      match r
      case TargetColumnsMissing => !(published <= t.columns.Keys)
      case TargetTableNotEmpty => setting.copyData && rel.name !in setting.subscribed && rel.name in setting.nonempty
      case TargetOwnerNotSettable => !t.ownerSettable
      case TargetColumnRequired => !(t.required <= published)
      case TargetNoReplicaIdentity => setting.keyed && AsksForKey(rel) && t.IdentityColumns().None?
      case TargetIdentityNotSent =>
        && setting.keyed && AsksForKey(rel) && t.IdentityColumns().Some?
        && !(t.IdentityColumns().value <= rel.IdentityColumns().value)
      case _ => false
  }

  /** Whether the publisher sends a key rather than whole rows. */
  predicate AsksForKey(rel: SourceTable) {
    rel.replicaIdentity != Full && rel.IdentityColumns().Some?
  }

  /** Exactly the issues a candidate has. */
  ghost predicate Raised(
    i: Issue, c: Candidate, source: Option<SourceTable>, targets: map<Name, TargetTable>, setting: Setting)
  {
    match source
    case None => i == Issue(SourceTableMissing, c.name)
    case Some(s) =>
      if s.isPartition || !s.Publishable() then
        i == Issue(NotPublishable, c.name)
      else
        || (i.at == c.name && SourceRaises(i.reason, c, s, setting))
        || (setting.keyed && RaisedByMember(i, c, Members(s), setting.GeneratedChecked()))
        || RaisedByRelation(i, TargetRelations(s, setting.viaRoot), PublishedColumns(c, s), targets, setting)
        || (setting.claimed && i == Issue(TableTargetedTwice, c.name))
  }

  ghost predicate RaisedByMember(i: Issue, c: Candidate, members: seq<SourceTable>, generatedChecked: bool) {
    exists m :: m in members && m.name == i.at && MemberRaises(i.reason, c, m, generatedChecked)
  }

  ghost predicate RaisedByRelation(
    i: Issue, rels: seq<SourceTable>, published: set<Column>, targets: map<Name, TargetTable>, setting: Setting)
  {
    exists rel :: rel in rels && rel.name == i.at && TargetRaises(i.reason, rel, published, targets, setting)
  }

  // --------------------------------------------------------------- the judge

  /** The verdict a candidate gets. */
  method Judge(c: Candidate, source: Option<SourceTable>, targets: map<Name, TargetTable>, setting: Setting)
    returns (v: Verdict)
    ensures v.candidate == c
    ensures forall i :: i in v.issues <==> Raised(i, c, source, targets, setting)
  {
    if source.None? {
      return Verdict(c, [Issue(SourceTableMissing, c.name)]);
    }
    var s := source.value;
    if s.isPartition || !s.Publishable() {
      return Verdict(c, [Issue(NotPublishable, c.name)]);
    }
    var issues := SourceIssues(c, s, setting);
    if setting.keyed {
      var more := IdentityIssues(c, Members(s), setting.GeneratedChecked());
      issues := issues + more;
    }
    var onTarget := TargetIssues(TargetRelations(s, setting.viaRoot), PublishedColumns(c, s), targets, setting);
    issues := issues + onTarget;
    if setting.claimed {
      issues := issues + [Issue(TableTargetedTwice, c.name)];
    }
    v := Verdict(c, issues);
  }

  /** The checks on the source table as a whole. */
  method SourceIssues(c: Candidate, s: SourceTable, setting: Setting) returns (issues: seq<Issue>)
    ensures forall i :: i in issues <==> i.at == c.name && SourceRaises(i.reason, c, s, setting)
  {
    var shape := ShapeIssues(c, s, setting);
    var access := AccessIssues(c, s);
    issues := shape + access;
  }

  /** Leaves, columns and filters the publication could not carry. */
  method ShapeIssues(c: Candidate, s: SourceTable, setting: Setting) returns (issues: seq<Issue>)
    ensures forall i :: i in issues <==>
      i.at == c.name && SourceRaises(i.reason, c, s, setting) && !AccessRaises(i.reason, s)
  {
    issues := [];
    // Neither kind of leaf would ever be decoded.
    if exists leaf :: leaf in s.leaves && leaf.kind == Ordinary && !leaf.persistent {
      issues := issues + [Issue(NotPublishable, c.name)];
    }
    if exists leaf :: leaf in s.leaves && leaf.kind != Ordinary {
      issues := issues + [Issue(NotPublishable, c.name)];
    }
    if !(c.columns + c.FilterColumns() <= s.columns.Keys) {
      issues := issues + [Issue(UnknownColumn, c.name)];
    }
    if s.kind == Partitioned && !setting.viaRoot && (c.columns != {} || c.rowFilter.Some?) {
      issues := issues + [Issue(FilterIgnoredWithoutRoot, c.name)];
    }
  }

  /** What the managing role and the replication login may do with the table. */
  method AccessIssues(c: Candidate, s: SourceTable) returns (issues: seq<Issue>)
    ensures forall i :: i in issues <==> i.at == c.name && AccessRaises(i.reason, s)
  {
    issues := [];
    if !s.ownerUsable {
      issues := issues + [Issue(SourceTableNotOwned, c.name)];
    }
    if exists t :: t in [s] + s.leaves && !t.readable {
      issues := issues + [Issue(SourceTableNotReadable, c.name)];
    }
    if exists t :: t in [s] + s.leaves && t.rowSecurity {
      issues := issues + [Issue(RowSecurityEnabled, c.name)];
    }
  }

  /** The replica-identity checks, which the source enforces on every UPDATE and DELETE. */
  method IdentityIssues(c: Candidate, members: seq<SourceTable>, generatedChecked: bool) returns (issues: seq<Issue>)
    ensures forall i :: i in issues <==> RaisedByMember(i, c, members, generatedChecked)
  {
    issues := [];
    for k := 0 to |members|
      invariant forall i :: i in issues <==> RaisedByMember(i, c, members[..k], generatedChecked)
    {
      var m := members[k];
      var found: seq<Issue> := [];
      var identity := m.IdentityColumns();
      if identity.None? {
        found := [Issue(NoReplicaIdentity, m.name)];
      } else {
        if !(c.FilterColumns() <= identity.value) {
          found := found + [Issue(RowFilterNotCovered, m.name)];
        }
        if generatedChecked && c.columns == {} && GeneratedInIdentity(m) {
          found := found + [Issue(GeneratedColumnInIdentity, m.name)];
        }
        if c.columns != {} && m.replicaIdentity == Full {
          found := found + [Issue(ColumnListMissesIdentity, m.name)];
        } else if c.columns != {} && !(identity.value <= c.columns) {
          found := found + [Issue(ColumnListMissesIdentity, m.name)];
        }
      }
      assert forall i :: i in found <==> i.at == m.name && MemberRaises(i.reason, c, m, generatedChecked);
      assert members[..k + 1] == members[..k] + [m];
      issues := issues + found;
    }
    assert members[..|members|] == members;
  }

  /** The checks on each relation the subscription would apply into. */
  method TargetIssues(
    rels: seq<SourceTable>, published: set<Column>, targets: map<Name, TargetTable>, setting: Setting)
    returns (issues: seq<Issue>)
    ensures forall i :: i in issues <==> RaisedByRelation(i, rels, published, targets, setting)
  {
    issues := [];
    for k := 0 to |rels|
      invariant forall i :: i in issues <==> RaisedByRelation(i, rels[..k], published, targets, setting)
    {
      var rel := rels[k];
      var found: seq<Issue> := RelationIssues(rel, published, targets, setting);
      assert rels[..k + 1] == rels[..k] + [rel];
      issues := issues + found;
    }
    assert rels[..|rels|] == rels;
  }

  method RelationIssues(
    rel: SourceTable, published: set<Column>, targets: map<Name, TargetTable>, setting: Setting)
    returns (found: seq<Issue>)
    ensures forall i :: i in found <==>
      i.at == rel.name && TargetRaises(i.reason, rel, published, targets, setting)
  {
    if rel.name !in targets || !targets[rel.name].Receivable() {
      return [Issue(TargetTableMissing, rel.name)];
    }
    found := [];
    var t := targets[rel.name];
    if !(published <= t.columns.Keys) {
      found := found + [Issue(TargetColumnsMissing, rel.name)];
    }
    if setting.copyData && rel.name !in setting.subscribed && rel.name in setting.nonempty {
      found := found + [Issue(TargetTableNotEmpty, rel.name)];
    }
    if !t.ownerSettable {
      found := found + [Issue(TargetOwnerNotSettable, rel.name)];
    }
    if !(t.required <= published) {
      found := found + [Issue(TargetColumnRequired, rel.name)];
    }
    if setting.keyed && AsksForKey(rel) {
      if t.IdentityColumns().None? {
        found := found + [Issue(TargetNoReplicaIdentity, rel.name)];
      } else if !(t.IdentityColumns().value <= rel.IdentityColumns().value) {
        found := found + [Issue(TargetIdentityNotSent, rel.name)];
      }
    }
  }

  // -------------------------------------------------- what the verdict means

  /** A verdict with exactly the issues raised, as `Judge` returns. */
  ghost predicate IsVerdict(
    v: Verdict, c: Candidate, source: Option<SourceTable>, targets: map<Name, TargetTable>, setting: Setting)
  {
    v.candidate == c && forall i :: i in v.issues <==> Raised(i, c, source, targets, setting)
  }
}
