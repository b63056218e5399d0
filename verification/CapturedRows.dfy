/**
 Captured changes carry the source's rows: the tables that the messages of a stream describe, and what
 a receiver makes of the batches captured from it.
 Sources: internal/service/changefeed/adapter/capture.go:129-239, 259-480,
 internal/repository/postgres/events.go:84-323.
 */
module CapturedRows {
  import opened PrimaryKeys
  import opened Rows
  import opened BatchApply
  import opened Commit
  import opened Transactions
  import opened FuzzySnapshot
  import opened Producers
  import opened Capture
  import opened UpdateDiff
  import opened Composition

  // ---- the source's tables, from the messages ----

  /** The relations of the captured tables, which do not change, and the receiver's column defaults. */
  datatype Schema = Schema(relations: map<string, Relation>, defaults: map<string, Row>)

  /** A whole tuple's row; a value that was not sent stays as it was. */
  function TupleRow(r: Relation, was: Option<Row>, tuple: Tuple): Row
    requires Whole(r, tuple)
  {
    map c | c in r.columns && c !in r.primaryKey ::
      match ColumnOf(r, tuple, c)
      case NullColumn => Null
      case TextColumn(text) => Val(text)
      case ToastColumn => if was.Some? && c in was.value then was.value[c] else Null
  }

  function WithRow(tables: Tables, name: string, k: Key, row: Option<Row>): Tables {
    if name in tables then tables[name := WithCell(tables[name], k, row)] else tables
  }

  /** The key of the row before an update: that of the old tuple, if it was sent. */
  function OldKey(keyOf: KeyOf, r: Relation, was: Option<Tuple>, k: Key): Key {
    if was.Some? && keyOf(r, was.value).Success? then keyOf(r, was.value).value else k
  }

  /** An insert adds the tuple's row, an update replaces the row, a delete removes it. */
  function SourceStep(keyOf: KeyOf, known: Known, tables: Tables, m: Logical): Tables {
    if !ShapedMessage(keyOf, known, m) then tables
    else
      match m
      case InsertMessage(id, tuple) =>
        if id !in known.relations then tables
        else
          var r := known.relations[id];
          WithRow(tables, r.table, keyOf(r, tuple).value, Some(TupleRow(r, None, tuple)))
      case UpdateMessage(id, was, tuple) =>
        if id !in known.relations then tables
        else
          var r := known.relations[id];
          var k := keyOf(r, tuple).value;
          var from := OldKey(keyOf, r, was, k);
          var row := TupleRow(r, RowIn(tables, r.table, from), tuple);
          WithRow(WithRow(tables, r.table, from, None), r.table, k, Some(row))
      case DeleteMessage(id, was) =>
        if id !in known.relations || was.None? then tables
        else
          var r := known.relations[id];
          WithRow(tables, r.table, keyOf(r, was.value).value, None)
      case _ => tables
  }

  predicate ShapedTuple(keyOf: KeyOf, r: Relation, tuple: Tuple) {
    && Whole(r, tuple) && keyOf(r, tuple).Success?
    && r.regionField in r.columns && r.regionField !in r.primaryKey && !ColumnOf(r, tuple, r.regionField).ToastColumn?
  }

  /** Tuples have all columns, a key, and the region column as it is. */
  predicate ShapedMessage(keyOf: KeyOf, known: Known, m: Logical) {
    match m
    case InsertMessage(id, tuple) => id in known.relations ==> ShapedTuple(keyOf, known.relations[id], tuple)
    case UpdateMessage(id, was, tuple) =>
      id in known.relations ==>
        && ShapedTuple(keyOf, known.relations[id], tuple)
        && (was.Some? ==> ShapedTuple(keyOf, known.relations[id], was.value))
    case DeleteMessage(id, was) =>
      id in known.relations && was.Some? ==> ShapedTuple(keyOf, known.relations[id], was.value)
    case _ => true
  }

  /** An old tuple is the row that is there, sent in full. */
  predicate IsOldRow(keyOf: KeyOf, r: Relation, tables: Tables, was: Tuple)
    requires ShapedTuple(keyOf, r, was)
  {
    && !HasToast(r, was)
    && RowIn(tables, r.table, keyOf(r, was).value) == Some(TupleRow(r, None, was))
  }

  /** A message that the source's tables allow: new keys are free, old rows are there. */
  predicate ValidMessage(keyOf: KeyOf, known: Known, tables: Tables, m: Logical) {
    && ShapedMessage(keyOf, known, m)
    && match m
       case InsertMessage(id, tuple) =>
         id in known.relations ==>
           var r := known.relations[id]; RowIn(tables, r.table, keyOf(r, tuple).value) == None
       case UpdateMessage(id, was, tuple) =>
         id in known.relations ==>
           var r := known.relations[id];
           var k := keyOf(r, tuple).value;
           && (was.Some? ==> IsOldRow(keyOf, r, tables, was.value))
           && RowIn(tables, r.table, OldKey(keyOf, r, was, k)).Some?
           && (k != OldKey(keyOf, r, was, k) ==> RowIn(tables, r.table, k) == None)
       case DeleteMessage(id, was) =>
         id in known.relations && was.Some? ==> IsOldRow(keyOf, known.relations[id], tables, was.value)
       case _ => true
  }

  // ---- the local rows, and the receiver ----

  predicate IsLocal(r: Relation, region: string, row: Option<Row>) {
    row.Some? && r.regionField in row.value && row.value[r.regionField] == Val(region)
  }

  function LocalRow(r: Relation, region: string, row: Option<Row>): Option<Row> {
    if IsLocal(r, region, row) then row else None
  }

  /** The receiver has exactly the source's local rows. */
  ghost predicate AgreeAlone(schema: Schema, region: string, source: Tables, receiver: Tables) {
    forall name, k: Key :: name in schema.relations ==>
      RowIn(receiver, name, k) == LocalRow(schema.relations[name], region, RowIn(source, name, k))
  }

  function OwnRow(schema: Schema, region: string, name: string, row: Option<Row>): Option<Row>
    requires name in schema.relations
  {
    if Foreign(SpecsOf(schema)[name], region, row) then None else row
  }

  /** Beside rows of other regions, the receiver has exactly the source's local rows. */
  ghost predicate Agree(schema: Schema, region: string, source: Tables, receiver: Tables) {
    forall name, k: Key :: name in schema.relations ==>
      OwnRow(schema, region, name, RowIn(receiver, name, k))
      == LocalRow(schema.relations[name], region, RowIn(source, name, k))
  }

  predicate StaysForeign(schema: Schema, region: string, name: string, before: Option<Row>, after: Option<Row>)
    requires name in schema.relations
  {
    var spec := SpecsOf(schema)[name];
    Foreign(spec, region, before) || Foreign(spec, region, after) ==> before == after
  }

  /** The rows of other regions are the same. */
  ghost predicate OthersStay(schema: Schema, region: string, before: Tables, after: Tables) {
    forall name, k: Key :: name in schema.relations ==>
      StaysForeign(schema, region, name, RowIn(before, name, k), RowIn(after, name, k))
  }

  function DefaultsOf(schema: Schema, name: string): Row {
    if name in schema.defaults then schema.defaults[name] else map[]
  }

  function SpecsOf(schema: Schema): Specs {
    map name | name in schema.relations :: SpecOf(schema.relations[name], DefaultsOf(schema, name))
  }

  predicate ValidSchema(schema: Schema) {
    forall name :: name in schema.relations ==>
      var r := schema.relations[name];
      r.table == name && r.regionField in r.columns && r.regionField !in r.primaryKey && r.regionField != ""
  }

  predicate Shaped(schema: Schema, tables: Tables) {
    forall name :: name in schema.relations ==>
      && name in tables
      && forall k :: k in tables[name] ==> tables[name][k].Keys == SpecsOf(schema)[name].columns
  }

  predicate HasTables(schema: Schema, tables: Tables) {
    forall name :: name in schema.relations ==> name in tables
  }

  predicate KnownFits(schema: Schema, known: Known) {
    forall id :: id in known.relations ==>
      && known.relations[id].table in schema.relations
      && schema.relations[known.relations[id].table] == known.relations[id]
  }

  /** The relation of a change. */
  predicate HasChange(known: Known, m: Logical) {
    (m.InsertMessage? || m.UpdateMessage? || m.DeleteMessage?) && m.id in known.relations
  }

  /** An update between regions, or of the key of a row that is local before or after. */
  predicate MovesRow(keyOf: KeyOf, region: string, known: Known, tables: Tables, m: Logical) {
    m.UpdateMessage? && m.id in known.relations && ShapedMessage(keyOf, known, m) &&
    var r := known.relations[m.id];
    var k := keyOf(r, m.tuple).value;
    var from := OldKey(keyOf, r, m.was, k);
    var before := RowIn(tables, r.table, from);
    var was, next := IsLocal(r, region, before), IsLocal(r, region, Some(TupleRow(r, before, m.tuple)));
    was != next || (k != from && (was || next))
  }

  /** An insert of a local row at a key where the receiver has a row of another region. */
  predicate MeetsRow(keyOf: KeyOf, schema: Schema, region: string, known: Known, receiver: Tables, m: Logical) {
    m.InsertMessage? && m.id in known.relations && ShapedMessage(keyOf, known, m) &&
    var r := known.relations[m.id];
    && r.table in schema.relations && RegionIsLocal(r, m.tuple, region)
    && Foreign(SpecsOf(schema)[r.table], region, RowIn(receiver, r.table, keyOf(r, m.tuple).value))
  }

  // ---- rows and events ----

  lemma WithRowAt(tables: Tables, name: string, k: Key, row: Option<Row>, other: string, j: Key)
    requires name in tables
    ensures RowIn(WithRow(tables, name, k, row), other, j)
         == if other == name && j == k then row else RowIn(tables, other, j)
  {
  }

  lemma LocalTuple(keyOf: KeyOf, r: Relation, was: Option<Row>, tuple: Tuple, region: string)
    requires ShapedTuple(keyOf, r, tuple) && region != "" && r.regionField != ""
    ensures RegionIsLocal(r, tuple, region) <==> IsLocal(r, region, Some(TupleRow(r, was, tuple)))
  {
    assert r.regionField in TupleRow(r, was, tuple);
  }

  lemma PayloadIsRow(r: Relation, was: Option<Row>, tuple: Tuple)
    requires Whole(r, tuple) && !HasToast(r, tuple)
    ensures TuplePayload(r, tuple) == TupleRow(r, was, tuple)
  {
    var payload, row := TuplePayload(r, tuple), TupleRow(r, was, tuple);
    assert payload.Keys == row.Keys;
    forall c | c in row
      ensures payload[c] == row[c]
    {
      assert Sent(r, tuple, c) && !ColumnOf(r, tuple, c).ToastColumn?;
    }
  }

  lemma MergedIsRow(r: Relation, was: Tuple, next: Tuple)
    requires Whole(r, was) && Whole(r, next) && !HasToast(r, was)
    ensures Merged(r, was, next) == TupleRow(r, Some(TupleRow(r, None, was)), next)
  {
    var merged, row := Merged(r, was, next), TupleRow(r, Some(TupleRow(r, None, was)), next);
    assert merged.Keys == row.Keys;
    forall c | c in row
      ensures merged[c] == row[c]
    {
      assert Sent(r, was, c) && !ColumnOf(r, was, c).ToastColumn?;
    }
  }

  /** The receiver after the event of a captured change. */
  function Received(schema: Schema, region: string, receiver: Tables, kept: seq<Change>): Tables {
    OneByOne(SpecsOf(schema), FullSyncMode, receiver, Events(region, kept))
  }

  lemma ReceivedOne(schema: Schema, region: string, receiver: Tables, change: Change, name: string, k: Key)
    requires HasTables(schema, receiver) && name in schema.relations && change.table in schema.relations
    ensures RowIn(Received(schema, region, receiver, [change]), name, k)
         == RowAfter(SpecsOf(schema)[name], ToEvent(region, change), name, k, RowIn(receiver, name, k))
  {
    var e := ToEvent(region, change);
    assert Events(region, [change]) == [] + [e];
    OneByOneStep(SpecsOf(schema), receiver, [], e, name, k);
  }

  lemma ReceivedNone(schema: Schema, region: string, receiver: Tables)
    ensures Received(schema, region, receiver, []) == receiver
  {
    assert Events(region, []) == [];
  }

  /** A whole local row on the receiver: inserted where absent, replacing a local row, removed. */
  lemma WholeRowLands(schema: Schema, region: string, e: Event, row: Option<Row>)
    requires ValidSchema(schema) && e.table in schema.relations && e.peer == region && region != ""
    requires !e.op.Delete? ==>
               && e.fields.Keys == SpecsOf(schema)[e.table].columns
               && IsLocal(schema.relations[e.table], region, Some(e.fields))
    requires row.Some? ==>
               row.value.Keys == SpecsOf(schema)[e.table].columns && IsLocal(schema.relations[e.table], region, row)
    ensures var spec := SpecsOf(schema)[e.table];
            var next := EventCell(spec, FullSyncMode, UpsertColumns(spec, e), e, row);
            next == if e.op.Delete? || (e.op.Update? && row.None?) then None else Some(e.fields)
  {
    var spec := SpecsOf(schema)[e.table];
    assert ValidSpec(spec);
    if !e.op.Delete? {
      OwnedImage(spec, region, e);
    }
    CellStepHome(spec, FullSyncMode, region, e, row);
  }

  // ---- one message ----

  /** The setting of one message, with rows of other regions on the receiver. */
  ghost predicate SharedSetting(
    cfg: Config, keyOf: KeyOf, schema: Schema, known: Known, source: Tables, receiver: Tables, m: Logical)
  {
    && ValidSchema(schema) && KnownFits(schema, known) && cfg.localRegion != "" && Shaped(schema, source)
    && HasTables(schema, receiver) && Agree(schema, cfg.localRegion, source, receiver)
    && ValidMessage(keyOf, known, source, m)
  }

  /** The same without such rows. */
  ghost predicate Setting(
    cfg: Config, keyOf: KeyOf, schema: Schema, known: Known, source: Tables, receiver: Tables, m: Logical)
  {
    && ValidSchema(schema) && KnownFits(schema, known) && cfg.localRegion != "" && Shaped(schema, source)
    && HasTables(schema, receiver) && AgreeAlone(schema, cfg.localRegion, source, receiver)
    && ValidMessage(keyOf, known, source, m)
  }

  function KeptOf(c: Result<Option<Change>>): seq<Change> {
    match c
    case Success(Some(change)) => [change]
    case _ => []
  }

  /** What the receiver has at a key after the message. */
  function ReceiverRow(
    cfg: Config, keyOf: KeyOf, schema: Schema, known: Known, receiver: Tables, m: Logical, lsn: nat, name: string,
    k: Key)
    : Option<Row>
  {
    RowIn(Received(schema, cfg.localRegion, receiver, KeptOf(Captured(cfg, keyOf, known, m, lsn))), name, k)
  }

  lemma InsertIs(cfg: Config, keyOf: KeyOf, known: Known, m: Logical, lsn: nat)
    requires m.InsertMessage? && m.id in known.relations && ShapedMessage(keyOf, known, m)
    requires Captured(cfg, keyOf, known, m, lsn).Success?
    ensures var r := known.relations[m.id];
            KeptOf(Captured(cfg, keyOf, known, m, lsn))
            == if RegionIsLocal(r, m.tuple, cfg.localRegion)
               then [Change(r.table, keyOf(r, m.tuple).value, Insert, lsn, TupleRow(r, None, m.tuple))] else []
  {
    var r := known.relations[m.id];
    if RegionIsLocal(r, m.tuple, cfg.localRegion) {
      PayloadIsRow(r, None, m.tuple);
    }
  }

  lemma InsertAgrees(
    cfg: Config, keyOf: KeyOf, schema: Schema, known: Known, source: Tables, receiver: Tables, m: Logical, lsn: nat,
    name: string, k: Key)
    requires Setting(cfg, keyOf, schema, known, source, receiver, m) && Captured(cfg, keyOf, known, m, lsn).Success?
    requires m.InsertMessage? && m.id in known.relations && name in schema.relations
    ensures ReceiverRow(cfg, keyOf, schema, known, receiver, m, lsn, name, k)
         == LocalRow(schema.relations[name], cfg.localRegion, RowIn(SourceStep(keyOf, known, source, m), name, k))
  {
    var r, region := known.relations[m.id], cfg.localRegion;
    var key, row := keyOf(r, m.tuple).value, TupleRow(r, None, m.tuple);
    InsertIs(cfg, keyOf, known, m, lsn);
    WithRowAt(source, r.table, key, Some(row), name, k);
    LocalTuple(keyOf, r, None, m.tuple, region);
    assert RowIn(receiver, name, k) == LocalRow(schema.relations[name], region, RowIn(source, name, k));
    if RegionIsLocal(r, m.tuple, region) {
      assert RowIn(receiver, r.table, key) == None;
      InsertLands(schema, region, receiver, r, key, lsn, row, name, k);
    } else {
      ReceivedNone(schema, region, receiver);
    }
  }

  lemma InsertLands(
    schema: Schema, region: string, receiver: Tables, r: Relation, key: Key, lsn: nat, row: Row, name: string, k: Key)
    requires ValidSchema(schema) && HasTables(schema, receiver) && region != "" && name in schema.relations
    requires r.table in schema.relations && schema.relations[r.table] == r
    requires row.Keys == SpecsOf(schema)[r.table].columns && IsLocal(r, region, Some(row))
    requires RowIn(receiver, r.table, key) == None
    ensures RowIn(Received(schema, region, receiver, [Change(r.table, key, Insert, lsn, row)]), name, k)
         == if name == r.table && k == key then Some(row) else RowIn(receiver, name, k)
  {
    var change := Change(r.table, key, Insert, lsn, row);
    ReceivedOne(schema, region, receiver, change, name, k);
    if name == r.table && k == key {
      WholeRowLands(schema, region, ToEvent(region, change), None);
    }
  }

  lemma DeleteIs(cfg: Config, keyOf: KeyOf, known: Known, m: Logical, lsn: nat)
    requires m.DeleteMessage? && m.id in known.relations && ShapedMessage(keyOf, known, m)
    requires Captured(cfg, keyOf, known, m, lsn).Success?
    ensures m.was.Some?
    ensures var r := known.relations[m.id];
            KeptOf(Captured(cfg, keyOf, known, m, lsn))
            == if RegionIsLocal(r, m.was.value, cfg.localRegion)
               then [Change(r.table, keyOf(r, m.was.value).value, Delete, lsn, map[])] else []
  {
  }

  lemma DeleteAgrees(
    cfg: Config, keyOf: KeyOf, schema: Schema, known: Known, source: Tables, receiver: Tables, m: Logical, lsn: nat,
    name: string, k: Key)
    requires Setting(cfg, keyOf, schema, known, source, receiver, m) && Captured(cfg, keyOf, known, m, lsn).Success?
    requires m.DeleteMessage? && m.id in known.relations && name in schema.relations
    ensures ReceiverRow(cfg, keyOf, schema, known, receiver, m, lsn, name, k)
         == LocalRow(schema.relations[name], cfg.localRegion, RowIn(SourceStep(keyOf, known, source, m), name, k))
  {
    DeleteIs(cfg, keyOf, known, m, lsn);
    var r, region, was := known.relations[m.id], cfg.localRegion, m.was.value;
    var key := keyOf(r, was).value;
    WithRowAt(source, r.table, key, None, name, k);
    LocalTuple(keyOf, r, None, was, region);
    assert RowIn(receiver, name, k) == LocalRow(schema.relations[name], region, RowIn(source, name, k));
    if RegionIsLocal(r, was, region) {
      DeleteLands(schema, region, receiver, r, key, lsn, name, k);
    } else {
      ReceivedNone(schema, region, receiver);
    }
  }

  lemma DeleteLands(
    schema: Schema, region: string, receiver: Tables, r: Relation, key: Key, lsn: nat, name: string, k: Key)
    requires ValidSchema(schema) && HasTables(schema, receiver) && region != "" && name in schema.relations
    requires r.table in schema.relations && schema.relations[r.table] == r
    requires name == r.table && k == key ==>
               RowIn(receiver, name, k).Some? ==>
                 IsLocal(r, region, RowIn(receiver, name, k))
                 && RowIn(receiver, name, k).value.Keys == SpecsOf(schema)[name].columns
    ensures RowIn(Received(schema, region, receiver, [Change(r.table, key, Delete, lsn, map[])]), name, k)
         == if name == r.table && k == key then None else RowIn(receiver, name, k)
  {
    var change := Change(r.table, key, Delete, lsn, map[]);
    ReceivedOne(schema, region, receiver, change, name, k);
    if name == r.table && k == key {
      WholeRowLands(schema, region, ToEvent(region, change), RowIn(receiver, name, k));
    }
  }

  /** The captured update of a message: the whole new row, or the diff. */
  lemma UpdateIs(cfg: Config, keyOf: KeyOf, known: Known, m: Logical, lsn: nat)
    requires m.UpdateMessage? && m.id in known.relations && ShapedMessage(keyOf, known, m)
    requires Captured(cfg, keyOf, known, m, lsn).Success?
    ensures var r := known.relations[m.id];
            var fields := if cfg.updateDiff && m.was.Some? then DiffPayload(r, m.was.value, m.tuple)
                          else TuplePayload(r, m.tuple);
            && KeptOf(Captured(cfg, keyOf, known, m, lsn))
               == (if RegionIsLocal(r, m.tuple, cfg.localRegion)
                   then [Change(r.table, keyOf(r, m.tuple).value, Update, lsn, fields)] else [])
            && (RegionIsLocal(r, m.tuple, cfg.localRegion) ==>
                  if cfg.updateDiff then m.was.Some? else !HasToast(r, m.tuple))
  {
  }

  /** An update of a local row makes it the new one, whole or by its diff; an absent row stays absent. */
  lemma UpdateLands(
    cfg: Config, keyOf: KeyOf, schema: Schema, known: Known, source: Tables, receiver: Tables, m: Logical, lsn: nat)
    requires Setting(cfg, keyOf, schema, known, source, receiver, m) && Captured(cfg, keyOf, known, m, lsn).Success?
    requires m.UpdateMessage? && m.id in known.relations
    requires RegionIsLocal(known.relations[m.id], m.tuple, cfg.localRegion)
    ensures var r := known.relations[m.id];
            var k := keyOf(r, m.tuple).value;
            var from := OldKey(keyOf, r, m.was, k);
            var before := RowIn(source, r.table, from);
            ReceiverRow(cfg, keyOf, schema, known, receiver, m, lsn, r.table, k)
            == if k == from && IsLocal(r, cfg.localRegion, before) then Some(TupleRow(r, before, m.tuple)) else None
  {
    var r, region := known.relations[m.id], cfg.localRegion;
    var k := keyOf(r, m.tuple).value;
    var from := OldKey(keyOf, r, m.was, k);
    var before := RowIn(source, r.table, from);
    UpdateIs(cfg, keyOf, known, m, lsn);
    LocalTuple(keyOf, r, before, m.tuple, region);
    var cell := RowIn(receiver, r.table, k);
    assert cell == LocalRow(r, region, RowIn(source, r.table, k));
    var change := KeptOf(Captured(cfg, keyOf, known, m, lsn))[0];
    ReceivedOne(schema, region, receiver, change, r.table, k);
    if !cfg.updateDiff {
      PayloadIsRow(r, before, m.tuple);
      WholeRowLands(schema, region, ToEvent(region, change), cell);
    } else if cell.Some? {
      DiffLands(schema, region, r, keyOf, source, m.was.value, m.tuple);
    }
  }

  lemma DiffLands(
    schema: Schema, region: string, r: Relation, keyOf: KeyOf, source: Tables, was: Tuple, tuple: Tuple)
    requires ValidSchema(schema) && r.table in schema.relations && schema.relations[r.table] == r
    requires ShapedTuple(keyOf, r, was) && Whole(r, tuple) && IsOldRow(keyOf, r, source, was)
    requires IsLocal(r, region, Some(TupleRow(r, None, was)))
    ensures var before := Some(TupleRow(r, None, was));
            UpdateCell(SpecsOf(schema)[r.table], region, DiffPayload(r, was, tuple), before)
            == Some(TupleRow(r, before, tuple))
  {
    PayloadIsRow(r, None, was);
    MergedIsRow(r, was, tuple);
    PatchInvertsDiff(SpecsOf(schema)[r.table], region, r, was, tuple);
  }

  lemma SourceUpdate(keyOf: KeyOf, known: Known, source: Tables, m: Logical, name: string, j: Key)
    requires ShapedMessage(keyOf, known, m) && m.UpdateMessage? && m.id in known.relations
    requires known.relations[m.id].table in source
    ensures var r := known.relations[m.id];
            var k := keyOf(r, m.tuple).value;
            var from := OldKey(keyOf, r, m.was, k);
            RowIn(SourceStep(keyOf, known, source, m), name, j)
            == if name != r.table || (j != k && j != from) then RowIn(source, name, j)
               else if j == k then Some(TupleRow(r, RowIn(source, r.table, from), m.tuple))
               else None
  {
  }

  lemma OtherKeysStay(
    cfg: Config, keyOf: KeyOf, schema: Schema, known: Known, source: Tables, receiver: Tables, m: Logical, lsn: nat,
    name: string, j: Key)
    requires Setting(cfg, keyOf, schema, known, source, receiver, m) && Captured(cfg, keyOf, known, m, lsn).Success?
    requires m.UpdateMessage? && m.id in known.relations && name in schema.relations
    requires !RegionIsLocal(known.relations[m.id], m.tuple, cfg.localRegion)
             || name != known.relations[m.id].table || j != keyOf(known.relations[m.id], m.tuple).value
    ensures ReceiverRow(cfg, keyOf, schema, known, receiver, m, lsn, name, j) == RowIn(receiver, name, j)
  {
    UpdateIs(cfg, keyOf, known, m, lsn);
    var kept := KeptOf(Captured(cfg, keyOf, known, m, lsn));
    if kept == [] {
      ReceivedNone(schema, cfg.localRegion, receiver);
    } else {
      ReceivedOne(schema, cfg.localRegion, receiver, kept[0], name, j);
    }
  }

  /** At every key, an update that does not move a row leaves the receiver right. */
  lemma UpdateAgrees(
    cfg: Config, keyOf: KeyOf, schema: Schema, known: Known, source: Tables, receiver: Tables, m: Logical, lsn: nat,
    name: string, j: Key)
    requires Setting(cfg, keyOf, schema, known, source, receiver, m) && Captured(cfg, keyOf, known, m, lsn).Success?
    requires m.UpdateMessage? && m.id in known.relations && name in schema.relations
    requires !MovesRow(keyOf, cfg.localRegion, known, source, m)
    ensures ReceiverRow(cfg, keyOf, schema, known, receiver, m, lsn, name, j)
         == LocalRow(schema.relations[name], cfg.localRegion, RowIn(SourceStep(keyOf, known, source, m), name, j))
  {
    var r, region := known.relations[m.id], cfg.localRegion;
    var k := keyOf(r, m.tuple).value;
    var from := OldKey(keyOf, r, m.was, k);
    var before := RowIn(source, r.table, from);
    SourceUpdate(keyOf, known, source, m, name, j);
    LocalTuple(keyOf, r, before, m.tuple, region);
    assert RowIn(receiver, name, j) == LocalRow(schema.relations[name], region, RowIn(source, name, j));
    if RegionIsLocal(r, m.tuple, region) && name == r.table && j == k {
      UpdateLands(cfg, keyOf, schema, known, source, receiver, m, lsn);
    } else {
      OtherKeysStay(cfg, keyOf, schema, known, source, receiver, m, lsn, name, j);
    }
  }

  /** One that does leaves the receiver with a row too many or too few. */
  lemma MovedRowDisagrees(
    cfg: Config, keyOf: KeyOf, schema: Schema, known: Known, source: Tables, receiver: Tables, m: Logical, lsn: nat)
    returns (j: Key)
    requires Setting(cfg, keyOf, schema, known, source, receiver, m) && Captured(cfg, keyOf, known, m, lsn).Success?
    requires MovesRow(keyOf, cfg.localRegion, known, source, m)
    ensures var name := known.relations[m.id].table;
            var row := ReceiverRow(cfg, keyOf, schema, known, receiver, m, lsn, name, j);
            && !Foreign(SpecsOf(schema)[name], cfg.localRegion, row)
            && row
               != LocalRow(schema.relations[name], cfg.localRegion, RowIn(SourceStep(keyOf, known, source, m), name, j))
  {
    var r, region := known.relations[m.id], cfg.localRegion;
    var k := keyOf(r, m.tuple).value;
    var from := OldKey(keyOf, r, m.was, k);
    var before := RowIn(source, r.table, from);
    LocalTuple(keyOf, r, before, m.tuple, region);
    j := if RegionIsLocal(r, m.tuple, region) then k else from;
    SourceUpdate(keyOf, known, source, m, r.table, j);
    assert RowIn(receiver, r.table, j) == LocalRow(r, region, RowIn(source, r.table, j));
    if RegionIsLocal(r, m.tuple, region) {
      UpdateLands(cfg, keyOf, schema, known, source, receiver, m, lsn);
    } else {
      OtherKeysStay(cfg, keyOf, schema, known, source, receiver, m, lsn, r.table, j);
    }
  }

  /** A captured message, at every key. */
  lemma MessageAgrees(
    cfg: Config, keyOf: KeyOf, schema: Schema, known: Known, source: Tables, receiver: Tables, m: Logical, lsn: nat,
    name: string, k: Key)
    requires Setting(cfg, keyOf, schema, known, source, receiver, m) && Captured(cfg, keyOf, known, m, lsn).Success?
    requires name in schema.relations && !MovesRow(keyOf, cfg.localRegion, known, source, m)
    ensures ReceiverRow(cfg, keyOf, schema, known, receiver, m, lsn, name, k)
         == LocalRow(schema.relations[name], cfg.localRegion, RowIn(SourceStep(keyOf, known, source, m), name, k))
  {
    if !HasChange(known, m) {
      ReceivedNone(schema, cfg.localRegion, receiver);
      assert RowIn(receiver, name, k) == LocalRow(schema.relations[name], cfg.localRegion, RowIn(source, name, k));
    } else if m.InsertMessage? {
      InsertAgrees(cfg, keyOf, schema, known, source, receiver, m, lsn, name, k);
    } else if m.UpdateMessage? {
      UpdateAgrees(cfg, keyOf, schema, known, source, receiver, m, lsn, name, k);
    } else {
      DeleteAgrees(cfg, keyOf, schema, known, source, receiver, m, lsn, name, k);
    }
  }

  // ---- receivers with rows of other regions ----

  function OwnTable(spec: TableSpec, region: string, t: Table): Table {
    map k | k in t && !Foreign(spec, region, Some(t[k])) :: t[k]
  }

  /** The receiver without the rows of other regions. */
  function OwnTables(schema: Schema, region: string, receiver: Tables): Tables {
    map name | name in receiver ::
      if name in schema.relations then OwnTable(SpecsOf(schema)[name], region, receiver[name]) else receiver[name]
  }

  lemma OwnTablesAt(schema: Schema, region: string, receiver: Tables, name: string, k: Key)
    requires name in schema.relations
    ensures RowIn(OwnTables(schema, region, receiver), name, k)
         == OwnRow(schema, region, name, RowIn(receiver, name, k))
  {
  }

  /** A row of another region stays; any other row changes as it would without those. */
  lemma OwnChanges(schema: Schema, region: string, receiver: Tables, kept: seq<Change>, name: string, k: Key)
    requires HasTables(schema, receiver) && name in schema.relations && region != ""
    requires |kept| <= 1 && forall c :: c in kept ==> c.table in schema.relations
    ensures RowIn(Received(schema, region, receiver, kept), name, k)
         == if Foreign(SpecsOf(schema)[name], region, RowIn(receiver, name, k)) then RowIn(receiver, name, k)
            else RowIn(Received(schema, region, OwnTables(schema, region, receiver), kept), name, k)
  {
    var own, spec, row := OwnTables(schema, region, receiver), SpecsOf(schema)[name], RowIn(receiver, name, k);
    OwnTablesAt(schema, region, receiver, name, k);
    if kept == [] {
      ReceivedNone(schema, region, receiver);
      ReceivedNone(schema, region, own);
    } else {
      assert kept == [kept[0]];
      ReceivedOne(schema, region, receiver, kept[0], name, k);
      ReceivedOne(schema, region, own, kept[0], name, k);
      if Foreign(spec, region, row) {
        var e := ToEvent(region, kept[0]);
        CellStepForeign(spec, FullSyncMode, UpsertColumns(spec, e), region, e, row);
      }
    }
  }

  /** Only an insert brings a row to a key without one. */
  lemma AbsentStays(schema: Schema, region: string, receiver: Tables, kept: seq<Change>, name: string, k: Key)
    requires HasTables(schema, receiver) && name in schema.relations && RowIn(receiver, name, k) == None
    requires |kept| <= 1 && forall c :: c in kept ==> c.table in schema.relations
    requires forall c :: c in kept && c.table == name && c.key == k ==> c.op.Update? || c.op.Delete?
    ensures RowIn(Received(schema, region, receiver, kept), name, k) == None
  {
    if kept == [] {
      ReceivedNone(schema, region, receiver);
    } else {
      assert kept == [kept[0]];
      ReceivedOne(schema, region, receiver, kept[0], name, k);
    }
  }

  /** The captured change of a message is of a captured table, and inserts at a new key only. */
  lemma KeptIs(cfg: Config, keyOf: KeyOf, schema: Schema, known: Known, m: Logical, lsn: nat)
    requires KnownFits(schema, known) && ShapedMessage(keyOf, known, m) && Captured(cfg, keyOf, known, m, lsn).Success?
    ensures var kept := KeptOf(Captured(cfg, keyOf, known, m, lsn));
            && |kept| <= 1
            && forall c :: c in kept ==>
                 && c.table in schema.relations
                 && (c.op.Update? || c.op.Delete?
                     || (m.InsertMessage? && m.id in known.relations
                         && RegionIsLocal(known.relations[m.id], m.tuple, cfg.localRegion)
                         && c.table == known.relations[m.id].table
                         && c.key == keyOf(known.relations[m.id], m.tuple).value))
  {
    if HasChange(known, m) {
      if m.InsertMessage? {
        InsertIs(cfg, keyOf, known, m, lsn);
      } else if m.UpdateMessage? {
        UpdateIs(cfg, keyOf, known, m, lsn);
      } else {
        DeleteIs(cfg, keyOf, known, m, lsn);
      }
    }
  }

  lemma OwnSetting(
    cfg: Config, keyOf: KeyOf, schema: Schema, known: Known, source: Tables, receiver: Tables, m: Logical)
    requires SharedSetting(cfg, keyOf, schema, known, source, receiver, m)
    ensures Setting(cfg, keyOf, schema, known, source, OwnTables(schema, cfg.localRegion, receiver), m)
  {
    var region := cfg.localRegion;
    forall name, k: Key | name in schema.relations
      ensures RowIn(OwnTables(schema, region, receiver), name, k)
           == LocalRow(schema.relations[name], region, RowIn(source, name, k))
    {
      OwnTablesAt(schema, region, receiver, name, k);
      assert OwnRow(schema, region, name, RowIn(receiver, name, k))
          == LocalRow(schema.relations[name], region, RowIn(source, name, k));
    }
  }

  /** Where no row is moved and no key is taken, every key stays right, and other regions' rows stay. */
  lemma SharedAgrees(
    cfg: Config, keyOf: KeyOf, schema: Schema, known: Known, source: Tables, receiver: Tables, m: Logical, lsn: nat,
    name: string, k: Key)
    requires SharedSetting(cfg, keyOf, schema, known, source, receiver, m)
    requires Captured(cfg, keyOf, known, m, lsn).Success? && name in schema.relations
    requires !MovesRow(keyOf, cfg.localRegion, known, source, m)
    requires !MeetsRow(keyOf, schema, cfg.localRegion, known, receiver, m)
    ensures var row := ReceiverRow(cfg, keyOf, schema, known, receiver, m, lsn, name, k);
            && OwnRow(schema, cfg.localRegion, name, row)
               == LocalRow(schema.relations[name], cfg.localRegion, RowIn(SourceStep(keyOf, known, source, m), name, k))
            && StaysForeign(schema, cfg.localRegion, name, RowIn(receiver, name, k), row)
  {
    var region, kept := cfg.localRegion, KeptOf(Captured(cfg, keyOf, known, m, lsn));
    var own := OwnTables(schema, region, receiver);
    OwnSetting(cfg, keyOf, schema, known, source, receiver, m);
    KeptIs(cfg, keyOf, schema, known, m, lsn);
    OwnChanges(schema, region, receiver, kept, name, k);
    MessageAgrees(cfg, keyOf, schema, known, source, own, m, lsn, name, k);
    if Foreign(SpecsOf(schema)[name], region, RowIn(receiver, name, k)) {
      OwnTablesAt(schema, region, receiver, name, k);
      AbsentStays(schema, region, own, kept, name, k);
    }
  }

  /** At the key of a moved row, or of an insert that meets a row, the receiver is wrong. */
  lemma SharedDisagrees(
    cfg: Config, keyOf: KeyOf, schema: Schema, known: Known, source: Tables, receiver: Tables, m: Logical, lsn: nat)
    returns (k: Key)
    requires SharedSetting(cfg, keyOf, schema, known, source, receiver, m)
    requires Captured(cfg, keyOf, known, m, lsn).Success?
    requires MovesRow(keyOf, cfg.localRegion, known, source, m)
          || MeetsRow(keyOf, schema, cfg.localRegion, known, receiver, m)
    ensures var name := known.relations[m.id].table;
            var row := ReceiverRow(cfg, keyOf, schema, known, receiver, m, lsn, name, k);
            OwnRow(schema, cfg.localRegion, name, row)
            != LocalRow(schema.relations[name], cfg.localRegion, RowIn(SourceStep(keyOf, known, source, m), name, k))
  {
    var region, kept := cfg.localRegion, KeptOf(Captured(cfg, keyOf, known, m, lsn));
    var own, r := OwnTables(schema, region, receiver), known.relations[m.id];
    OwnSetting(cfg, keyOf, schema, known, source, receiver, m);
    KeptIs(cfg, keyOf, schema, known, m, lsn);
    if MovesRow(keyOf, region, known, source, m) {
      k := MovedRowDisagrees(cfg, keyOf, schema, known, source, own, m, lsn);
      OwnChanges(schema, region, receiver, kept, r.table, k);
      if Foreign(SpecsOf(schema)[r.table], region, RowIn(receiver, r.table, k)) {
        OwnTablesAt(schema, region, receiver, r.table, k);
        AbsentStays(schema, region, own, kept, r.table, k);
      }
    } else {
      k := keyOf(r, m.tuple).value;
      OwnChanges(schema, region, receiver, kept, r.table, k);
      LocalTuple(keyOf, r, None, m.tuple, region);
      WithRowAt(source, r.table, k, Some(TupleRow(r, None, m.tuple)), r.table, k);
    }
  }

  /**
   A receiver that had the source's local rows, beside rows of other regions, still has them if and only
   if the message moves no row and inserts none where another region has one.
   */
  lemma MessageCarriedIff(
    cfg: Config, keyOf: KeyOf, schema: Schema, known: Known, source: Tables, receiver: Tables, m: Logical, lsn: nat)
    requires SharedSetting(cfg, keyOf, schema, known, source, receiver, m)
    requires Captured(cfg, keyOf, known, m, lsn).Success?
    ensures var after := Received(schema, cfg.localRegion, receiver, KeptOf(Captured(cfg, keyOf, known, m, lsn)));
            var good := !MovesRow(keyOf, cfg.localRegion, known, source, m)
                        && !MeetsRow(keyOf, schema, cfg.localRegion, known, receiver, m);
            && (Agree(schema, cfg.localRegion, SourceStep(keyOf, known, source, m), after) <==> good)
            && (good ==> OthersStay(schema, cfg.localRegion, receiver, after))
  {
    if MovesRow(keyOf, cfg.localRegion, known, source, m)
       || MeetsRow(keyOf, schema, cfg.localRegion, known, receiver, m) {
      var k := SharedDisagrees(cfg, keyOf, schema, known, source, receiver, m, lsn);
    } else {
      forall name, k: Key | name in schema.relations
        ensures var row := ReceiverRow(cfg, keyOf, schema, known, receiver, m, lsn, name, k);
                && OwnRow(schema, cfg.localRegion, name, row)
                   == LocalRow(schema.relations[name], cfg.localRegion,
                               RowIn(SourceStep(keyOf, known, source, m), name, k))
                && StaysForeign(schema, cfg.localRegion, name, RowIn(receiver, name, k), row)
      {
        SharedAgrees(cfg, keyOf, schema, known, source, receiver, m, lsn, name, k);
      }
    }
  }

  lemma StepKeepsShape(keyOf: KeyOf, schema: Schema, known: Known, source: Tables, m: Logical)
    requires ValidSchema(schema) && KnownFits(schema, known) && Shaped(schema, source)
    requires ShapedMessage(keyOf, known, m)
    ensures Shaped(schema, SourceStep(keyOf, known, source, m))
  {
    if HasChange(known, m) {
      var r := known.relations[m.id];
      match m {
        case InsertMessage(_, tuple) =>
          WithRowShape(schema, source, r, keyOf(r, tuple).value, Some(TupleRow(r, None, tuple)));
        case UpdateMessage(_, was, tuple) =>
          var k := keyOf(r, tuple).value;
          var from := OldKey(keyOf, r, was, k);
          WithRowShape(schema, source, r, from, None);
          WithRowShape(schema, WithRow(source, r.table, from, None), r, k,
                       Some(TupleRow(r, RowIn(source, r.table, from), tuple)));
        case DeleteMessage(_, was) =>
          if was.Some? {
            WithRowShape(schema, source, r, keyOf(r, was.value).value, None);
          }
      }
    }
  }

  lemma WithRowShape(schema: Schema, tables: Tables, r: Relation, k: Key, row: Option<Row>)
    requires Shaped(schema, tables) && r.table in schema.relations && schema.relations[r.table] == r
    requires row.Some? ==> row.value.Keys == set c | c in r.columns && c !in r.primaryKey
    ensures Shaped(schema, WithRow(tables, r.table, k, row))
  {
  }

  // ---- the stream ----

  /** Every relation message describes a captured table as the schema does. */
  predicate StableSchema(schema: Schema, turns: seq<Turn>) {
    forall i :: 0 <= i < |turns| ==>
      var m := LogicalOf(turns[i]);
      m.RelationMessage? && m.relation.Success? && m.relation.value.Some? ==>
        var r := m.relation.value.value; r.table in schema.relations && schema.relations[r.table] == r
  }

  lemma {:induction false} KnownFitsAfter(schema: Schema, turns: seq<Turn>)
    requires StableSchema(schema, turns)
    ensures KnownFits(schema, Capture.KnownAfter(turns))
  {
    if turns != [] {
      var init := turns[..|turns| - 1];
      assert forall i :: 0 <= i < |init| ==> init[i] == turns[i];
      KnownFitsAfter(schema, init);
    }
  }

  /** The source's tables after a stretch of messages. */
  function SourceAfter(keyOf: KeyOf, turns: seq<Turn>, source: Tables, from: nat, to: nat): Tables
    requires from <= to <= |turns|
  {
    if from == to then source
    else
      SourceStep(keyOf, Capture.KnownAfter(turns[..to - 1]), SourceAfter(keyOf, turns, source, from, to - 1),
                 LogicalOf(turns[to - 1]))
  }

  /** The source's tables after the commits among the first n messages. */
  function SourceUpTo(keyOf: KeyOf, turns: seq<Turn>, source: Tables, n: nat): Tables
    requires n <= |turns|
  {
    if n == 0 then source
    else
      var before := SourceUpTo(keyOf, turns, source, n - 1);
      if LogicalOf(turns[n - 1]).CommitMessage?
      then SourceAfter(keyOf, turns, before, SegmentStart(turns, n - 1), n - 1)
      else before
  }

  /** A message that the tables before it allow, that moves no row and meets none of another region. */
  predicate GoodMessage(
    keyOf: KeyOf, schema: Schema, region: string, turns: seq<Turn>, first: Tables, source: Tables, from: nat, i: nat)
    requires from <= i < |turns|
  {
    var known, tables := Capture.KnownAfter(turns[..i]), SourceAfter(keyOf, turns, source, from, i);
    && ValidMessage(keyOf, known, tables, LogicalOf(turns[i]))
    && !MovesRow(keyOf, region, known, tables, LogicalOf(turns[i]))
    && !MeetsRow(keyOf, schema, region, known, first, LogicalOf(turns[i]))
  }

  /** So are all messages of the segment of each commit. */
  predicate GoodStream(
    keyOf: KeyOf, schema: Schema, region: string, turns: seq<Turn>, first: Tables, source: Tables, n: nat)
    requires n <= |turns|
  {
    forall c, i :: 0 <= c < n && LogicalOf(turns[c]).CommitMessage? && SegmentStart(turns, c) <= i < c ==>
      GoodMessage(keyOf, schema, region, turns, first, SourceUpTo(keyOf, turns, source, c), SegmentStart(turns, c), i)
  }

  lemma EventsJoin(region: string, a: seq<Change>, b: seq<Change>)
    ensures Events(region, a + b) == Events(region, a) + Events(region, b)
  {
    assert forall i :: 0 <= i < |b| ==> (a + b)[|a| + i] == b[i];
  }

  lemma ReceivedJoins(schema: Schema, region: string, receiver: Tables, a: seq<Change>, b: seq<Change>)
    ensures Received(schema, region, receiver, a + b)
         == Received(schema, region, Received(schema, region, receiver, a), b)
  {
    EventsJoin(region, a, b);
    OneByOneJoins(SpecsOf(schema), FullSyncMode, receiver, Events(region, a), Events(region, b));
  }

  lemma {:induction false} OneByOneJoins(specs: Specs, mode: ApplyMode, tables: Tables, a: seq<Event>, b: seq<Event>)
    ensures OneByOne(specs, mode, tables, a + b) == OneByOne(specs, mode, OneByOne(specs, mode, tables, a), b)
    decreases |b|
  {
    var all := a + b;
    if b == [] {
      assert all == a;
    } else {
      assert all[..|all| - 1] == a + b[..|b| - 1];
      OneByOneJoins(specs, mode, tables, a, b[..|b| - 1]);
    }
  }

  lemma ReceivedHasTables(schema: Schema, region: string, receiver: Tables, kept: seq<Change>)
    requires HasTables(schema, receiver)
    ensures HasTables(schema, Received(schema, region, receiver, kept))
  {
    OneByOneKeepsTables(SpecsOf(schema), FullSyncMode, receiver, Events(region, kept));
  }

  /** What holds between source and receiver, as it was first and as it is, at a point of the stream. */
  ghost predicate InStep(schema: Schema, region: string, source: Tables, first: Tables, receiver: Tables) {
    && Shaped(schema, source) && HasTables(schema, receiver) && Agree(schema, region, source, receiver)
    && OthersStay(schema, region, first, receiver)
  }

  lemma OthersStayOn(schema: Schema, region: string, a: Tables, b: Tables, c: Tables)
    requires OthersStay(schema, region, a, b) && OthersStay(schema, region, b, c)
    ensures OthersStay(schema, region, a, c)
  {
    forall name, k: Key | name in schema.relations
      ensures StaysForeign(schema, region, name, RowIn(a, name, k), RowIn(c, name, k))
    {
      assert StaysForeign(schema, region, name, RowIn(a, name, k), RowIn(b, name, k));
      assert StaysForeign(schema, region, name, RowIn(b, name, k), RowIn(c, name, k));
    }
  }

  lemma MeetsAtFirst(
    keyOf: KeyOf, schema: Schema, region: string, known: Known, first: Tables, receiver: Tables, m: Logical)
    requires OthersStay(schema, region, first, receiver)
    ensures MeetsRow(keyOf, schema, region, known, receiver, m) ==> MeetsRow(keyOf, schema, region, known, first, m)
  {
    if MeetsRow(keyOf, schema, region, known, receiver, m) {
      var r := known.relations[m.id];
      var k := keyOf(r, m.tuple).value;
      assert StaysForeign(schema, region, r.table, RowIn(first, r.table, k), RowIn(receiver, r.table, k));
    }
  }

  lemma {:induction false} StretchAgrees(
    cfg: Config, keyOf: KeyOf, schema: Schema, turns: seq<Turn>, source: Tables, first: Tables, receiver: Tables,
    from: nat, to: nat)
    requires from <= to <= |turns| && ValidSchema(schema) && StableSchema(schema, turns) && cfg.localRegion != ""
    requires InStep(schema, cfg.localRegion, source, first, receiver)
    requires forall i :: from <= i < to ==>
               GoodMessage(keyOf, schema, cfg.localRegion, turns, first, source, from, i)
    requires forall i :: from <= i < to ==> CapturedAt(cfg, keyOf, turns, i).Success?
    ensures InStep(schema, cfg.localRegion, SourceAfter(keyOf, turns, source, from, to), first,
                   Received(schema, cfg.localRegion, receiver, KeptBetween(cfg, keyOf, turns, from, to)))
    decreases (to)
  {
    if from == to {
      ReceivedNone(schema, cfg.localRegion, receiver);
    } else {
      StretchAgrees(cfg, keyOf, schema, turns, source, first, receiver, from, to - 1);
      StretchStep(cfg, keyOf, schema, turns, source, first, receiver, from, to - 1);
    }
  }

  lemma StretchStep(
    cfg: Config, keyOf: KeyOf, schema: Schema, turns: seq<Turn>, source: Tables, first: Tables, receiver: Tables,
    from: nat, i: nat)
    requires from <= i < |turns| && ValidSchema(schema) && StableSchema(schema, turns) && cfg.localRegion != ""
    requires InStep(schema, cfg.localRegion, SourceAfter(keyOf, turns, source, from, i), first,
                    Received(schema, cfg.localRegion, receiver, KeptBetween(cfg, keyOf, turns, from, i)))
    requires GoodMessage(keyOf, schema, cfg.localRegion, turns, first, source, from, i)
    requires CapturedAt(cfg, keyOf, turns, i).Success?
    ensures InStep(schema, cfg.localRegion, SourceAfter(keyOf, turns, source, from, i + 1), first,
                   Received(schema, cfg.localRegion, receiver, KeptBetween(cfg, keyOf, turns, from, i + 1)))
  {
    var known, m := Capture.KnownAfter(turns[..i]), LogicalOf(turns[i]);
    var kept, more := KeptBetween(cfg, keyOf, turns, from, i), KeptOf(CapturedAt(cfg, keyOf, turns, i));
    var tables, mid := SourceAfter(keyOf, turns, source, from, i), Received(schema, cfg.localRegion, receiver, kept);
    assert StableSchema(schema, turns[..i]);
    KnownFitsAfter(schema, turns[..i]);
    MeetsAtFirst(keyOf, schema, cfg.localRegion, known, first, mid, m);
    MessageCarriedIff(cfg, keyOf, schema, known, tables, mid, m, EndOf(turns[i]));
    StepKeepsShape(keyOf, schema, known, tables, m);
    ReceivedJoins(schema, cfg.localRegion, receiver, kept, more);
    ReceivedHasTables(schema, cfg.localRegion, mid, more);
    OthersStayOn(schema, cfg.localRegion, first, mid, Received(schema, cfg.localRegion, mid, more));
  }

  predicate AllCaptured(cfg: Config, keyOf: KeyOf, turns: seq<Turn>, n: nat)
    requires n <= |turns|
  {
    forall i :: 0 <= i < n ==> CapturedAt(cfg, keyOf, turns, i).Success?
  }

  lemma GoodPrefix(
    cfg: Config, keyOf: KeyOf, schema: Schema, turns: seq<Turn>, first: Tables, source: Tables, m: nat, n: nat)
    requires m <= n <= |turns|
    ensures GoodStream(keyOf, schema, cfg.localRegion, turns, first, source, n) ==>
              GoodStream(keyOf, schema, cfg.localRegion, turns, first, source, m)
    ensures AllCaptured(cfg, keyOf, turns, n) ==> AllCaptured(cfg, keyOf, turns, m)
  {
  }

  function ChangesOf(batches: seq<ChangeBatch>): seq<Change> {
    if batches == [] then [] else ChangesOf(batches[..|batches| - 1]) + batches[|batches| - 1].changes
  }

  lemma ChangesOfMore(cfg: Config, keyOf: KeyOf, turns: seq<Turn>, n: nat)
    requires n < |turns| && LogicalOf(turns[n]).CommitMessage?
    ensures ChangesOf(BatchesUpTo(cfg, keyOf, turns, n + 1))
         == ChangesOf(BatchesUpTo(cfg, keyOf, turns, n)) + KeptBetween(cfg, keyOf, turns, SegmentStart(turns, n), n)
  {
    var before, b := BatchesUpTo(cfg, keyOf, turns, n), BatchAt(cfg, keyOf, turns, n);
    assert (before + [b])[..|before|] == before && before + [] == before;
    assert b.changes == [] ==> ChangesOf(before) + b.changes == ChangesOf(before);
  }

  /** After n turns the receiver has, from the batches handed over, the local rows committed. */
  ghost predicate Carried(
    cfg: Config, keyOf: KeyOf, schema: Schema, turns: seq<Turn>, source: Tables, receiver: Tables, n: nat)
    requires n <= |turns|
  {
    InStep(schema, cfg.localRegion, SourceUpTo(keyOf, turns, source, n), receiver,
           Received(schema, cfg.localRegion, receiver, ChangesOf(BatchesUpTo(cfg, keyOf, turns, n))))
  }

  lemma CarriedAtStart(
    cfg: Config, keyOf: KeyOf, schema: Schema, turns: seq<Turn>, source: Tables, receiver: Tables)
    requires InStep(schema, cfg.localRegion, source, receiver, receiver)
    ensures Carried(cfg, keyOf, schema, turns, source, receiver, 0)
  {
    ReceivedNone(schema, cfg.localRegion, receiver);
  }

  lemma NothingCommitted(cfg: Config, keyOf: KeyOf, turns: seq<Turn>, source: Tables, n: nat)
    requires n < |turns| && !LogicalOf(turns[n]).CommitMessage?
    ensures SourceUpTo(keyOf, turns, source, n + 1) == SourceUpTo(keyOf, turns, source, n)
    ensures BatchesUpTo(cfg, keyOf, turns, n + 1) == BatchesUpTo(cfg, keyOf, turns, n)
  {
  }

  lemma CarriedAlong(
    cfg: Config, keyOf: KeyOf, schema: Schema, turns: seq<Turn>, source: Tables, receiver: Tables, n: nat)
    requires n < |turns| && !LogicalOf(turns[n]).CommitMessage?
    requires Carried(cfg, keyOf, schema, turns, source, receiver, n)
    ensures Carried(cfg, keyOf, schema, turns, source, receiver, n + 1)
  {
    NothingCommitted(cfg, keyOf, turns, source, n);
  }

  /**
   The batches captured from a stream, applied one by one, leave a receiver that had the source's local
   rows with the local rows of the tables that the committed messages describe, and other regions' rows
   as they were.
   */
  lemma {:induction false} CapturedBatchesCarryRows(
    cfg: Config, keyOf: KeyOf, schema: Schema, turns: seq<Turn>, source: Tables, receiver: Tables, n: nat)
    requires n <= |turns| && ValidSchema(schema) && StableSchema(schema, turns) && cfg.localRegion != ""
    requires InStep(schema, cfg.localRegion, source, receiver, receiver)
    requires GoodStream(keyOf, schema, cfg.localRegion, turns, receiver, source, n)
    requires AllCaptured(cfg, keyOf, turns, n)
    ensures Carried(cfg, keyOf, schema, turns, source, receiver, n)
  {
    if n == 0 {
      CarriedAtStart(cfg, keyOf, schema, turns, source, receiver);
    } else {
      GoodPrefix(cfg, keyOf, schema, turns, receiver, source, n - 1, n);
      CapturedBatchesCarryRows(cfg, keyOf, schema, turns, source, receiver, n - 1);
      CarriedOn(cfg, keyOf, schema, turns, source, receiver, n - 1);
    }
  }

  lemma CarriedOn(
    cfg: Config, keyOf: KeyOf, schema: Schema, turns: seq<Turn>, source: Tables, receiver: Tables, n: nat)
    requires n < |turns| && ValidSchema(schema) && StableSchema(schema, turns) && cfg.localRegion != ""
    requires GoodStream(keyOf, schema, cfg.localRegion, turns, receiver, source, n + 1)
    requires AllCaptured(cfg, keyOf, turns, n)
    requires Carried(cfg, keyOf, schema, turns, source, receiver, n)
    ensures Carried(cfg, keyOf, schema, turns, source, receiver, n + 1)
  {
    if LogicalOf(turns[n]).CommitMessage? {
      CommitCarriesRows(cfg, keyOf, schema, turns, source, receiver, n);
    } else {
      CarriedAlong(cfg, keyOf, schema, turns, source, receiver, n);
    }
  }

  lemma CommitCarriesRows(
    cfg: Config, keyOf: KeyOf, schema: Schema, turns: seq<Turn>, source: Tables, receiver: Tables, n: nat)
    requires n < |turns| && ValidSchema(schema) && StableSchema(schema, turns) && cfg.localRegion != ""
    requires LogicalOf(turns[n]).CommitMessage?
    requires GoodStream(keyOf, schema, cfg.localRegion, turns, receiver, source, n + 1)
    requires AllCaptured(cfg, keyOf, turns, n)
    requires Carried(cfg, keyOf, schema, turns, source, receiver, n)
    ensures Carried(cfg, keyOf, schema, turns, source, receiver, n + 1)
  {
    var from, sofar := SegmentStart(turns, n), ChangesOf(BatchesUpTo(cfg, keyOf, turns, n));
    var tables, mid := SourceUpTo(keyOf, turns, source, n), Received(schema, cfg.localRegion, receiver, sofar);
    ChangesOfMore(cfg, keyOf, turns, n);
    ReceivedJoins(schema, cfg.localRegion, receiver, sofar, KeptBetween(cfg, keyOf, turns, from, n));
    StretchAgrees(cfg, keyOf, schema, turns, tables, receiver, mid, from, n);
  }

  /** What the loop hands over, wherever it ends, therefore carries the rows committed before. */
  lemma AcceptedBatchesCarryRows(
    cfg: Config, keyOf: KeyOf, schema: Schema, turns: seq<Turn>, source: Tables, receiver: Tables, accepts: nat,
    ended: nat, accepted: seq<ChangeBatch>)
    requires ended <= |turns| && forall i :: 0 <= i < ended ==> !Stops(cfg, keyOf, turns, accepts, i)
    requires accepted == BatchesUpTo(cfg, keyOf, turns, ended)
    requires ValidSchema(schema) && StableSchema(schema, turns) && cfg.localRegion != ""
    requires InStep(schema, cfg.localRegion, source, receiver, receiver)
    requires GoodStream(keyOf, schema, cfg.localRegion, turns, receiver, source, ended)
    ensures var after := Received(schema, cfg.localRegion, receiver, ChangesOf(accepted));
            && Agree(schema, cfg.localRegion, SourceUpTo(keyOf, turns, source, ended), after)
            && OthersStay(schema, cfg.localRegion, receiver, after)
  {
    forall i | 0 <= i < ended
      ensures CapturedAt(cfg, keyOf, turns, i).Success?
    {
      assert !Stops(cfg, keyOf, turns, accepts, i);
    }
    CapturedBatchesCarryRows(cfg, keyOf, schema, turns, source, receiver, ended);
  }
}
