/**
 Catalog facts about relations on the two servers, and the selections a spec
 makes from them: the inputs on which a table is judged.
 */
module Catalog {
  import opened Wrappers

  type Column = string
  type ColumnType = string

  /** A schema-qualified relation name. */
  datatype Name = Name(schema: string, relation: string)

  /** A physical database: the server's host and port, and the database's name. */
  datatype Identity = Identity(host: string, port: int, database: string)

  /** A replication's own name. */
  datatype Label = Label(namespace: string, name: string)

  /** `pg_class.relkind`. */
  datatype Kind = Ordinary | Partitioned | View | MaterialisedView | Foreign

  /** `pg_class.relreplident`. */
  datatype ReplicaIdentity = Default | UsingIndex | Full | Nothing

  datatype SourceTable = SourceTable(
    name: Name,
    kind: Kind,
    persistent: bool,
    isPartition: bool,
    ownerUsable: bool,
    rowSecurity: bool,
    replicaIdentity: ReplicaIdentity,
    identityIndex: set<Column>,      // key columns of the index the identity uses; {} if there is none
    columns: map<Column, ColumnType>, // publishable: neither dropped nor generated
    generated: set<Column>,
    readable: bool,
    leaves: seq<SourceTable>
  ) {
    /** The columns that identify a row to the publisher, if any do. */
    function IdentityColumns(): (identity: Option<set<Column>>)
    {
      match replicaIdentity
      case Full => Some(columns.Keys)
      case Default => if identityIndex != {} then Some(identityIndex) else None
      case UsingIndex => if identityIndex != {} then Some(identityIndex) else None
      case Nothing => None
    }

    /** Whether a publication can carry the relation at all. */
    predicate Publishable() {
      (kind == Ordinary || kind == Partitioned) && persistent
    }
  }

  datatype TargetTable = TargetTable(
    name: Name,
    kind: Kind,
    ownerSettable: bool,
    replicaIdentity: ReplicaIdentity,
    identityIndex: set<Column>,      // key columns of the replica-identity index; {} if there is none
    primaryKey: set<Column>,         // key columns of a primary key that is not deferrable; {} if none
    columns: map<Column, ColumnType>,
    required: set<Column>            // NOT NULL, and the server cannot fill it in
  ) {
    /** The columns the apply worker looks a row up by, if it has an index to look in. */
    function IdentityColumns(): (identity: Option<set<Column>>)
    {
      if replicaIdentity == UsingIndex && identityIndex != {} then Some(identityIndex)
      else if primaryKey != {} then Some(primaryKey)
      else None
    }

    predicate Receivable() {
      kind == Ordinary || kind == Partitioned
    }
  }

  /** A comparison of a row filter; `IsNull` and `IsNotNull` take no operand. */
  datatype Test = Eq(n: int) | Ne(n: int) | Lt(n: int) | Le(n: int) | Gt(n: int) | Ge(n: int)
                | In(ns: seq<int>) | IsNull | IsNotNull

  datatype Predicate = Predicate(column: Column, test: Test)

  /** Predicates joined by AND (`all`) or by OR, one level deep. */
  datatype RowFilter = RowFilter(all: bool, predicates: seq<Predicate>) {
    function Columns(): set<Column> {
      set p <- predicates :: p.column
    }
  }

  /** A table the spec selects. No columns means every column. */
  datatype Candidate = Candidate(name: Name, columns: set<Column>, rowFilter: Option<RowFilter>) {
    function FilterColumns(): set<Column> {
      if rowFilter.Some? then rowFilter.value.Columns() else {}
    }
  }

  datatype SchemaSelection = SchemaSelection(schema: string, exclude: set<string>)

  /** The part of a spec that selects tables. */
  datatype Selection = Selection(schemas: seq<SchemaSelection>, tables: seq<Candidate>) {
    /** What the spec's own validation promises: no contradictory or repeated entry. */
    predicate Valid() {
      && (forall i, j :: 0 <= i < j < |tables| ==> tables[i].name != tables[j].name)
      && (forall i, j :: 0 <= i < j < |schemas| ==> schemas[i].schema != schemas[j].schema)
      && (forall s, t :: s in schemas && t in tables && t.name.schema == s.schema ==> t.name.relation !in s.exclude)
    }
  }
}
