/**
 What publishing a table means: the change stream the source's publisher
 produces from writes to it, and the apply worker that receives it. Stated
 without reference to the verdicts, so that the verdicts can be proved against it.
 */
module Apply {
  import opened Wrappers
  import opened Catalog

  datatype Value = Null | Int(n: int)
  type Row = map<Column, Value>

  datatype Operation = Inserting | Updating | Deleting | Truncating

  /** A write to the source table. */
  datatype Change = Insert(after: Row) | Update(before: Row, after: Row) | Delete(before: Row) | Truncate

  /** A change as the publisher sends it; `key` is the part of the old row it sends. */
  datatype Message = InsertMsg(row: Row) | UpdateMsg(key: Row, row: Row, whole: bool)
                   | DeleteMsg(key: Row, whole: bool) | TruncateMsg

  /** How the publication carries one relation. No columns means every publishable one. */
  datatype Shape = Shape(columns: set<Column>, rowFilter: Option<RowFilter>) {
    function FilterColumns(): set<Column> {
      if rowFilter.Some? then rowFilter.value.Columns() else {}
    }
  }

  function Restrict(row: Row, columns: set<Column>): (r: Row)
    ensures r.Keys == row.Keys * columns
  {
    map c | c in row && c in columns :: row[c]
  }

  // --------------------------------------------------------------- publisher

  /**
   A row filter's verdict on a row. A comparison with NULL is unknown, and a
   predicate that is unknown keeps a row out whether it stands in an AND or
   an OR, so unknown and false need not be told apart.
   */
  predicate Passes(shape: Shape, row: Row)
    requires shape.FilterColumns() <= row.Keys
  {
    shape.rowFilter.Some? ==>
      var f := shape.rowFilter.value;
      if f.all then forall p :: p in f.predicates ==> Satisfies(row[p.column], p.test)
      else exists p :: p in f.predicates && Satisfies(row[p.column], p.test)
  }

  predicate Satisfies(v: Value, test: Test) {
    match test
    case IsNull => v.Null?
    case IsNotNull => v.Int?
    case Eq(n) => v.Int? && v.n == n
    case Ne(n) => v.Int? && v.n != n
    case Lt(n) => v.Int? && v.n < n
    case Le(n) => v.Int? && v.n <= n
    case Gt(n) => v.Int? && v.n > n
    case Ge(n) => v.Int? && v.n >= n
    case In(ns) => v.Int? && v.n in ns
  }

  /** The columns of the relation that the publication sends. */
  function Carried(rel: SourceTable, shape: Shape): set<Column> {
    if shape.columns != {} then shape.columns * rel.columns.Keys else rel.columns.Keys
  }

  /** What the write-ahead log keeps of a row that is updated or deleted. */
  function OldTuple(rel: SourceTable, row: Row): Row {
    match rel.replicaIdentity
    case Full => row
    case Nothing => map[]
    case _ => Restrict(row, rel.identityIndex)
  }

  /**
   The part of the old row sent with an update or a delete. (The protocol omits
   it when an update leaves the key as it was, and the new row then supplies it.)
   */
  function SentKey(rel: SourceTable, shape: Shape, row: Row): (key: Row)
  {
    Restrict(OldTuple(rel, row), Carried(rel, shape))
  }

  /** Why the source refuses a write to a published table. */
  datatype Refusal = NoIdentity | FilterOutsideIdentity | ListMissesIdentity | ListOnFullIdentity
                   | UnpublishedGeneratedIdentity | FilterUnreadable

  /** The publisher's own check, made on every UPDATE or DELETE it would publish. */
  function IdentityRefusal(rel: SourceTable, shape: Shape, major: nat): Option<Refusal> {
    if rel.replicaIdentity == Nothing || (rel.replicaIdentity != Full && rel.identityIndex == {}) then
      Some(NoIdentity)
    else if rel.replicaIdentity == Full then
      if shape.columns != {} then Some(ListOnFullIdentity)
      else if major >= 18 && rel.generated != {} then Some(UnpublishedGeneratedIdentity)
      else None
    else
      if !(shape.FilterColumns() <= rel.identityIndex) then Some(FilterOutsideIdentity)
      else if shape.columns != {} && !(rel.identityIndex <= shape.columns) then Some(ListMissesIdentity)
      else if major >= 18 && shape.columns == {} && rel.identityIndex * rel.generated != {} then
        Some(UnpublishedGeneratedIdentity)
      else None
  }

  /** What one write puts on the stream, or why the source refuses it. */
  function Publish(rel: SourceTable, shape: Shape, ops: set<Operation>, major: nat, change: Change)
    : Result<seq<Message>, Refusal>
  {
    match change
    case Truncate => Ok(if Truncating in ops then [TruncateMsg] else [])
    case Insert(after) =>
      if Inserting !in ops then Ok([])
      else if !(shape.FilterColumns() <= after.Keys) then Err(FilterUnreadable)
      else Ok(if Passes(shape, after) then [InsertMsg(Restrict(after, Carried(rel, shape)))] else [])
    case Delete(before) =>
      if Deleting !in ops then Ok([])
      else if IdentityRefusal(rel, shape, major).Some? then Err(IdentityRefusal(rel, shape, major).value)
      else if !(shape.FilterColumns() <= OldTuple(rel, before).Keys) then Err(FilterUnreadable)
      else Ok(if Passes(shape, OldTuple(rel, before))
              then [DeleteMsg(SentKey(rel, shape, before), rel.replicaIdentity == Full)] else [])
    case Update(before, after) =>
      if Updating !in ops then Ok([])
      else if IdentityRefusal(rel, shape, major).Some? then Err(IdentityRefusal(rel, shape, major).value)
      else if !(shape.FilterColumns() <= OldTuple(rel, before).Keys * after.Keys) then Err(FilterUnreadable)
      else
        // A row that enters the filter is sent as an insert, one that leaves it as a delete.
        var was, now := Passes(shape, OldTuple(rel, before)), Passes(shape, after);
        var key, row, whole :=
          SentKey(rel, shape, before), Restrict(after, Carried(rel, shape)), rel.replicaIdentity == Full;
        Ok(if was && now then [UpdateMsg(key, row, whole)]
           else if now then [InsertMsg(row)]
           else if was then [DeleteMsg(key, whole)]
           else [])
  }

  // -------------------------------------------------------------- subscriber

  /** Why the apply worker stops. It is sequential, so it stops for every table. */
  datatype Stall = RelationMissing | OwnerNotSettable | ColumnMissing | RequiredColumnAbsent
                 | NoLookupIndex | LookupColumnNotSent

  /** Whether the worker can take a message at all, whatever rows the table holds. */
  function Stalls(targets: map<Name, TargetTable>, name: Name, m: Message): Option<Stall> {
    if name !in targets || !targets[name].Receivable() then Some(RelationMissing)
    else if !targets[name].ownerSettable then Some(OwnerNotSettable)
    else
      var t := targets[name];
      match m
      case TruncateMsg => None
      case InsertMsg(row) =>
        if !(row.Keys <= t.columns.Keys) then Some(ColumnMissing)
        else if !(t.required <= row.Keys) then Some(RequiredColumnAbsent)
        else None
      case UpdateMsg(key, row, whole) =>
        if !(row.Keys <= t.columns.Keys) then Some(ColumnMissing) else LookupStall(t, key, whole)
      case DeleteMsg(key, whole) => LookupStall(t, key, whole)
  }

  /** The worker looks rows up by the index chosen as replica identity, and by the primary key only without one. */
  function LookupColumns(t: TargetTable): Option<set<Column>> {
    if t.replicaIdentity == UsingIndex && t.identityIndex != {} then Some(t.identityIndex)
    else if t.primaryKey == {} then None
    else Some(t.primaryKey)
  }

  /** The row is looked up by the target's own key columns, all of which must have been sent. */
  function LookupStall(t: TargetTable, key: Row, whole: bool): Option<Stall> {
    match LookupColumns(t)
    case None => if whole then None else Some(NoLookupIndex)
    case Some(columns) => if columns <= key.Keys then None else Some(LookupColumnNotSent)
  }

  // ---------------------------------------------------------------- contents

  /** A table's rows by their key. */
  type Table = map<Row, Row>

  /** A write the source can make: a row it holds changes, and no key is taken twice. */
  ghost predicate Possible(rel: SourceTable, table: Table, change: Change) {
    match change
    case Truncate => true
    case Insert(after) => IsRow(rel, after) && KeyOf(rel, after) !in table
    case Delete(before) => IsRow(rel, before) && Holds(rel, table, before)
    case Update(before, after) =>
      && IsRow(rel, before) && IsRow(rel, after) && Holds(rel, table, before)
      && (KeyOf(rel, after) == KeyOf(rel, before) || KeyOf(rel, after) !in table)
  }

  function KeyOf(rel: SourceTable, row: Row): Row {
    Restrict(row, rel.identityIndex)
  }

  predicate IsRow(rel: SourceTable, row: Row) {
    row.Keys == rel.columns.Keys + rel.generated
  }

  predicate Holds(rel: SourceTable, table: Table, row: Row) {
    KeyOf(rel, row) in table && table[KeyOf(rel, row)] == row
  }

  function Write(rel: SourceTable, table: Table, change: Change): Table {
    match change
    case Truncate => map[]
    case Insert(after) => table[KeyOf(rel, after) := after]
    case Delete(before) => table - {KeyOf(rel, before)}
    case Update(before, after) => (table - {KeyOf(rel, before)})[KeyOf(rel, after) := after]
  }

  /** The worker's effect on the target's rows. `fill` is what the target puts in columns not sent. */
  function Take(t: TargetTable, table: Table, m: Message, fill: Row): Result<Table, ()>
    requires LookupColumns(t).Some?
  {
    var key := LookupColumns(t).value;
    match m
    case TruncateMsg => Ok(map[])
    case InsertMsg(row) =>
      if Restrict(row, key) in table then Err(()) else Ok(table[Restrict(row, key) := fill + row])
    case DeleteMsg(was, _) => Ok(table - {Restrict(was, key)})
    case UpdateMsg(was, row, _) =>
      var k, k' := Restrict(was, key), Restrict(row, key);
      if k !in table then Ok(table)
      else if k' != k && k' in table then Err(())
      else Ok((table - {k})[k' := table[k] + row])
  }
}
