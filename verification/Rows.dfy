/**
 Replicated tables, replication events, and the effect on one row of the three statements
 the receiver issues (internal/repository/postgres/events.go, snapshot.go).

 A row is its non-key columns; the key columns of a payload are held once, as the key.
 */
module Rows {
  import opened PrimaryKeys
  import opened Positions

  datatype Result<+T> = Success(value: T) | Failure

  datatype Value = Null | Val(text: string)

  type Row = map<string, Value>
  type Table = map<Key, Row>

  /** The non-key columns of a table, the one that names the owner, and the column defaults other than NULL. */
  datatype TableSpec = TableSpec(columns: set<string>, regionField: Option<string>, defaults: Row)

  datatype Operation = Insert | Update | Upsert | Delete
  datatype ApplyMode = InsertOnlyMode | UpsertMode | FullSyncMode

  datatype Event = Event(
    peer: string, table: string, id: string, key: Key, op: Operation, version: int, fields: Row)

  function PositionOf(e: Event): Position {
    Position(e.version, e.key)
  }

  predicate ValidSpec(spec: TableSpec) {
    spec.regionField.Some? ==> spec.regionField.value in spec.columns
  }

  /** Every row of a table carries exactly the columns of its schema. */
  predicate ValidTable(spec: TableSpec, t: Table) {
    forall k :: k in t ==> t[k].Keys == spec.columns
  }

  predicate ValidCell(spec: TableSpec, cell: Option<Row>) {
    cell.Some? ==> cell.value.Keys == spec.columns
  }

  function CellAt(t: Table, k: Key): Option<Row> {
    if k in t then Some(t[k]) else None
  }

  function WithCell(t: Table, k: Key, cell: Option<Row>): Table {
    if cell.Some? then t[k := cell.value] else t - {k}
  }

  lemma TablesEqual(t: Table, u: Table)
    requires forall k :: CellAt(t, k) == CellAt(u, k)
    ensures t == u
  {
    assert forall k :: CellAt(t, k) == CellAt(u, k) ==> (k in t <==> k in u);
    assert t.Keys == u.Keys;
    forall k | k in t
      ensures t[k] == u[k]
    {
      assert CellAt(t, k) == CellAt(u, k);
    }
  }

  // ---- one row under INSERT ... ON CONFLICT, UPDATE and DELETE ----

  /** buildUpsertPayload with provenanceValues: the region column is overwritten with the sender. */
  function WithProvenance(spec: TableSpec, peer: string, fields: Row): Row {
    if spec.regionField.Some? && peer != "" then fields[spec.regionField.value := Val(peer)] else fields
  }

  /** json_populate_recordset yields NULL for a column a payload does not mention. */
  function Populated(payload: Row, column: string): Value {
    if column in payload then payload[column] else Null
  }

  function Owner(spec: TableSpec, row: Row): Value {
    if spec.regionField.Some? && spec.regionField.value in row then row[spec.regionField.value] else Null
  }

  function Overwritten(row: Row, cols: set<string>, payload: Row): Row {
    map c | c in row :: if c in cols then Populated(payload, c) else row[c]
  }

  /** The ON CONFLICT guard: the row has no owner, or the owner of the proposed row. */
  predicate ConflictAllowed(spec: TableSpec, cols: set<string>, payload: Row, row: Row) {
    spec.regionField.None?
    || Owner(spec, row) == Null
    || (spec.regionField.value in cols && Owner(spec, row) == Populated(payload, spec.regionField.value))
  }

  function UpsertCell(
    spec: TableSpec, allowUpdate: bool, cols: set<string>, payload: Row, cell: Option<Row>): Option<Row>
  {
    match cell
    case None =>
      Some(map c | c in spec.columns :: if c in cols then Populated(payload, c) else Populated(spec.defaults, c))
    case Some(row) =>
      if allowUpdate && cols != {} && ConflictAllowed(spec, cols, payload, row)
      then Some(Overwritten(row, cols, payload))
      else cell
  }

  function UpdateCell(spec: TableSpec, peer: string, fields: Row, cell: Option<Row>): Option<Row> {
    match cell
    case None => None
    case Some(row) =>
      if fields != map[] && (spec.regionField.None? || Owner(spec, row) == Val(peer))
      then Some(Overwritten(row, fields.Keys, fields))
      else cell
  }

  function DeleteCell(spec: TableSpec, peer: string, cell: Option<Row>): Option<Row> {
    match cell
    case None => None
    case Some(row) =>
      if spec.regionField.None? || Owner(spec, row) == Null || Owner(spec, row) == Val(peer) then None else cell
  }

  /** The effect of one event on the row of its key, given the column list of its upsert statement. */
  function EventCell(
    spec: TableSpec, mode: ApplyMode, upsertCols: set<string>, e: Event, cell: Option<Row>): Option<Row>
  {
    match e.op
    case Delete => DeleteCell(spec, e.peer, cell)
    case Update => if mode.InsertOnlyMode? then cell else UpdateCell(spec, e.peer, e.fields, cell)
    case _ =>
      UpsertCell(spec, !mode.InsertOnlyMode?, upsertCols, WithProvenance(spec, e.peer, e.fields), cell)
  }

  function UpsertColumns(spec: TableSpec, e: Event): set<string> {
    WithProvenance(spec, e.peer, e.fields).Keys
  }

  /** The reference semantics: one event applied on its own. */
  function ApplyOne(spec: TableSpec, mode: ApplyMode, t: Table, e: Event): Table {
    WithCell(t, e.key, EventCell(spec, mode, UpsertColumns(spec, e), e, CellAt(t, e.key)))
  }

  /** Events applied one by one, in order. */
  function ApplySequentially(spec: TableSpec, mode: ApplyMode, t: Table, es: seq<Event>): Table {
    if es == [] then t else ApplyOne(spec, mode, ApplySequentially(spec, mode, t, es[..|es| - 1]), es[|es| - 1])
  }

  lemma EventCellValid(spec: TableSpec, mode: ApplyMode, cols: set<string>, e: Event, cell: Option<Row>)
    requires ValidCell(spec, cell)
    ensures ValidCell(spec, EventCell(spec, mode, cols, e, cell))
  {
  }

  /** The state of one key under a sequence of events. */
  function CellSequentially(
    spec: TableSpec, mode: ApplyMode, k: Key, cell: Option<Row>, es: seq<Event>): Option<Row>
  {
    if es == [] then cell
    else
      var before := CellSequentially(spec, mode, k, cell, es[..|es| - 1]);
      var e := es[|es| - 1];
      if e.key == k then EventCell(spec, mode, UpsertColumns(spec, e), e, before) else before
  }

  /** Sequential application acts on every key on its own. */
  lemma {:induction false} SequentialCell(spec: TableSpec, mode: ApplyMode, t: Table, es: seq<Event>, k: Key)
    ensures CellAt(ApplySequentially(spec, mode, t, es), k) == CellSequentially(spec, mode, k, CellAt(t, k), es)
  {
    if es != [] {
      SequentialCell(spec, mode, t, es[..|es| - 1], k);
    }
  }

  lemma {:induction false} SequentialValid(spec: TableSpec, mode: ApplyMode, t: Table, es: seq<Event>)
    requires ValidTable(spec, t)
    ensures ValidTable(spec, ApplySequentially(spec, mode, t, es))
  {
    if es != [] {
      SequentialValid(spec, mode, t, es[..|es| - 1]);
      var e := es[|es| - 1];
      var u := ApplySequentially(spec, mode, t, es[..|es| - 1]);
      EventCellValid(spec, mode, UpsertColumns(spec, e), e, CellAt(u, e.key));
    }
  }
}
