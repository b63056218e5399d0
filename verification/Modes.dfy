/**
 What a delivered batch does to the receiver's rows, by apply mode, operation and owner, said of tables
 alone (internal/service/replication/service.go:289-335, 393-405, internal/repository/postgres/events.go:84-323,
 internal/repository/postgres/snapshot.go:182-315).
 */
module Modes {
  import opened PrimaryKeys
  import opened Positions
  import opened Rows
  import opened BatchApply
  import opened Commit
  import opened Transactions
  import opened ApplyService
  import opened FeedProtocol
  import opened FeedSafety

  /** The operations a mode lets through. */
  function OperationsOf(mode: ApplyMode): set<Operation> {
    match mode
    case InsertOnlyMode => {Insert}
    case UpsertMode => {Insert, Update, Upsert}
    case FullSyncMode => {Insert, Update, Upsert, Delete}
  }

  predicate IsOwner(spec: TableSpec, row: Row, owner: Value) {
    spec.regionField.Some? && spec.regionField.value in row && row[spec.regionField.value] == owner
  }

  /** The sender may overwrite or delete a row that it owns, or that nobody owns. */
  predicate OpenTo(spec: TableSpec, peer: string, row: Row) {
    spec.regionField.None? || IsOwner(spec, row, Null) || IsOwner(spec, row, Val(peer))
  }

  function ValueIn(fields: Row, column: string): Value {
    if column in fields then fields[column] else Null
  }

  /** One column of a written row: the owner, a column of the statement, or one left as it is. */
  function Written(spec: TableSpec, peer: string, listed: set<string>, fields: Row, column: string, left: Value): Value
  {
    if spec.regionField == Some(column) then Val(peer) else if column in listed then ValueIn(fields, column) else left
  }

  /** A new row: the sender's, with defaults for the columns the statement does not list. */
  predicate IsInserted(spec: TableSpec, peer: string, listed: set<string>, fields: Row, row: Row) {
    && row.Keys == spec.columns
    && forall c :: c in row ==> row[c] == Written(spec, peer, listed, fields, c, ValueIn(spec.defaults, c))
  }

  predicate IsOverwritten(spec: TableSpec, peer: string, listed: set<string>, fields: Row, was: Row, row: Row) {
    row.Keys == was.Keys && forall c :: c in row ==> row[c] == Written(spec, peer, listed, fields, c, was[c])
  }

  predicate IsPatched(fields: Row, was: Row, row: Row) {
    row.Keys == was.Keys && forall c :: c in row ==> row[c] == if c in fields then fields[c] else was[c]
  }

  /** The effect of the newest event of a key on its row. */
  predicate Effect(
    spec: TableSpec, mode: ApplyMode, listed: set<string>, e: Event, before: Option<Row>, after: Option<Row>)
  {
    match e.op
    case Delete => after == if before.Some? && !OpenTo(spec, e.peer, before.value) then before else None
    case Update =>
      if before.Some? && (spec.regionField.None? || IsOwner(spec, before.value, Val(e.peer)))
      then after.Some? && IsPatched(e.fields, before.value, after.value)
      else after == before
    case _ =>
      if before.None? then after.Some? && IsInserted(spec, e.peer, listed, e.fields, after.value)
      else if mode.InsertOnlyMode? || !OpenTo(spec, e.peer, before.value) then after == before
      else after.Some? && IsOverwritten(spec, e.peer, listed, e.fields, before.value, after.value)
  }

  // ---- one row ----

  lemma AbsentIsInserted(spec: TableSpec, allowUpdate: bool, first: Event, e: Event)
    requires ValidSpec(spec) && e.peer != "" && first.peer == e.peer
    ensures var cols, payload := UpsertColumns(spec, first), WithProvenance(spec, e.peer, e.fields);
            var row := UpsertCell(spec, allowUpdate, cols, payload, None);
            row.Some? && IsInserted(spec, e.peer, first.fields.Keys, e.fields, row.value)
  {
  }

  lemma PresentIsOverwritten(spec: TableSpec, first: Event, e: Event, was: Row)
    requires ValidSpec(spec) && e.peer != "" && first.peer == e.peer && was.Keys == spec.columns
    ensures var cols, payload := UpsertColumns(spec, first), WithProvenance(spec, e.peer, e.fields);
            var row := UpsertCell(spec, true, cols, payload, Some(was));
            && row.Some?
            && (if OpenTo(spec, e.peer, was)
                then IsOverwritten(spec, e.peer, first.fields.Keys, e.fields, was, row.value)
                else row.value == was)
  {
    var cols := UpsertColumns(spec, first);
    if spec.regionField.Some? {
      assert spec.regionField.value in cols;
    } else if cols == {} {
      assert first.fields.Keys == {};
    }
  }

  lemma EventHasEffect(spec: TableSpec, mode: ApplyMode, first: Event, e: Event, before: Option<Row>)
    requires ValidSpec(spec) && e.peer != "" && first.peer == e.peer && (e.op.Insert? || e.op.Upsert?)
    requires ValidCell(spec, before)
    ensures Effect(spec, mode, first.fields.Keys, e, before,
                   EventCell(spec, mode, UpsertColumns(spec, first), e, before))
  {
    if before.None? {
      AbsentIsInserted(spec, !mode.InsertOnlyMode?, first, e);
    } else {
      PresentIsOverwritten(spec, first, e, before.value);
    }
  }

  /** Without inserts in the group the listed columns do not matter. */
  lemma OtherHasEffect(spec: TableSpec, mode: ApplyMode, cols: set<string>, e: Event, before: Option<Row>)
    requires ValidSpec(spec) && e.peer != "" && e.op in OperationsOf(mode) && ValidCell(spec, before)
    requires e.op.Update? || e.op.Delete?
    ensures Effect(spec, mode, {}, e, before, EventCell(spec, mode, cols, e, before))
  {
  }

  // ---- a group of events ----

  /** The columns of the one insert of a group are those of an event in it. */
  predicate Lists(mode: ApplyMode, es: seq<Event>, name: string, listed: set<string>) {
    exists first :: first in es && first.table == name && first.op in OperationsOf(mode) * {Insert, Upsert}
                 && listed == first.fields.Keys
  }

  lemma ColumnsFrom(spec: TableSpec, es: seq<Event>, e: Event) returns (first: Event)
    requires e in Dedup(es) && (e.op.Insert? || e.op.Upsert?)
    ensures first in es && (first.op.Insert? || first.op.Upsert?)
    ensures GroupColumns(spec, es) == UpsertColumns(spec, first)
  {
    UpsertsAre(Dedup(es));
    assert e in Upserts(Dedup(es));
    first := Upserts(Dedup(es))[0];
    assert first in Upserts(Dedup(es));
    DedupKeepsLast(es);
    LastForIsIn(es, first.key);
  }

  lemma GroupHasEffect(spec: TableSpec, mode: ApplyMode, peer: string, name: string, es: seq<Event>, t: Table, k: Key)
    returns (listed: set<string>)
    requires ValidSpec(spec) && peer != "" && ValidTable(spec, t) && LastFor(es, k).Some?
    requires forall e :: e in es ==> e.peer == peer && e.table == name && e.op in OperationsOf(mode)
    ensures var e := LastFor(es, k).value;
            && Effect(spec, mode, listed, e, CellAt(t, k), CellAt(GroupTable(spec, mode, es, t), k))
            && (e.op.Insert? || e.op.Upsert? ==> Lists(mode, es, name, listed))
  {
    var e := LastFor(es, k).value;
    LastForIsIn(es, k);
    GroupTableCell(spec, mode, es, t, k);
    DedupKeepsLast(es);
    if e.op.Insert? || e.op.Upsert? {
      var first := ColumnsFrom(spec, es, e);
      listed := first.fields.Keys;
      EventHasEffect(spec, mode, first, e, CellAt(t, k));
    } else {
      listed := {};
      OtherHasEffect(spec, mode, GroupColumns(spec, es), e, CellAt(t, k));
    }
  }

  // ---- what survives the filter ----

  /** Whatever the order of a batch, what the filter keeps is beyond the cursors and rises. */
  lemma {:induction false} KeptRises(cursors: Cursors, es: seq<Event>)
    ensures Rising(Kept(cursors, es)) && Beyond(cursors, Kept(cursors, es))
    decreases |es|
  {
    if es != [] {
      var e, next := es[0], Moved(cursors, es[0]);
      StaleIffNotAfter(e, CursorOf(cursors, FeedOf(e)));
      KeptRises(cursors, es[1..]);
      KeptRises(next, es[1..]);
      if !StaleAt(cursors, e) {
        FirstRises(cursors, e, Kept(next, es[1..]));
      }
    }
  }

  lemma FirstRises(cursors: Cursors, e: Event, rest: seq<Event>)
    requires Rising(rest) && Beyond(Moved(cursors, e), rest) && IsBeyond(cursors, e)
    ensures Rising([e] + rest) && Beyond(cursors, [e] + rest)
  {
    var all := [e] + rest;
    forall d | d in rest
      ensures FeedOf(d) == FeedOf(e) ==> Before(PositionOf(e), PositionOf(d))
      ensures Before(CursorOf(cursors, FeedOf(d)).last, PositionOf(d))
    {
      if FeedOf(d) == FeedOf(e) {
        BeforeTransitive(CursorOf(cursors, FeedOf(e)).last, PositionOf(e), PositionOf(d));
      }
    }
    forall i, j | 0 <= i < j < |all| && FeedOf(all[i]) == FeedOf(all[j])
      ensures Before(PositionOf(all[i]), PositionOf(all[j]))
    {
      assert all[j] == rest[j - 1] && all[j] in rest;
      if i > 0 {
        assert all[i] == rest[i - 1];
      }
    }
  }

  /** An event of the key that the mode lets through. */
  predicate Touching(mode: ApplyMode, name: string, k: Key, e: Event) {
    e.table == name && e.key == k && e.op in OperationsOf(mode)
  }

  /** None of the others comes after it. */
  predicate Newest(mode: ApplyMode, es: seq<Event>, e: Event) {
    forall d :: d in es && Touching(mode, e.table, e.key, d) ==> d == e || Before(PositionOf(d), PositionOf(e))
  }

  lemma ModeLets(mode: ApplyMode, op: Operation)
    ensures ApplyAllowed(mode, op) <==> op in OperationsOf(mode)
  {
  }

  lemma KeptOfBatch(cursors: Cursors, mode: ApplyMode, polling: bool, es: seq<Event>, e: Event)
    requires Rising(es)
    ensures var prepared := Prepared(mode, polling, es);
            e in Kept(Locked(cursors, prepared), prepared)
            <==> e in es && e.op in OperationsOf(mode) && IsBeyond(cursors, e)
  {
    var allowed := Allowed(mode, es);
    AllowedRises(mode, es);
    ModeLets(mode, e.op);
    var locked := Locked(cursors, Prepared(mode, polling, es));
    assert CursorOf(locked, FeedOf(e)) == CursorOf(cursors, FeedOf(e));
    if polling {
      SortedKeptIffBeyond(locked, allowed, e);
    } else {
      KeptIffBeyond(locked, allowed, e);
    }
  }

  lemma {:induction false} SubRises(es: seq<Event>, f: Feed)
    requires Rising(es)
    ensures Rising(EventsOf(es, f))
  {
    if es != [] {
      var init, last := es[..|es| - 1], es[|es| - 1];
      assert forall i :: 0 <= i < |init| ==> init[i] == es[i];
      SubRises(init, f);
      EventsOfMembers(init, f);
      var sub := EventsOf(init, f);
      forall e | e in sub && FeedOf(e) == FeedOf(last)
        ensures Before(PositionOf(e), PositionOf(last))
      {
        var i :| 0 <= i < |init| && init[i] == e;
        assert es[i] == e;
      }
    }
  }

  /** In a rising list the last event of a key is its newest. */
  lemma {:induction false} LastIsNewest(es: seq<Event>, k: Key, d: Event)
    requires Rising(es) && d in es && d.key == k && forall e :: e in es ==> FeedOf(e) == FeedOf(d)
    ensures LastFor(es, k).Some?
    ensures d == LastFor(es, k).value || Before(PositionOf(d), PositionOf(LastFor(es, k).value))
  {
    var init, last := es[..|es| - 1], es[|es| - 1];
    assert last in es && forall i :: 0 <= i < |init| ==> init[i] == es[i];
    if last.key == k {
      var i :| 0 <= i < |es| && es[i] == d;
    } else {
      assert d in init && forall e :: e in init ==> e in es;
      LastIsNewest(init, k, d);
    }
  }

  // ---- a batch ----

  function RowAt(tables: Tables, name: string, k: Key): Option<Row> {
    if name in tables then CellAt(tables[name], k) else None
  }

  /** The kept events of one table of a batch of one region. */
  lemma TableAfter(specs: Specs, mode: ApplyMode, tables: Tables, peer: string, kept: seq<Event>, name: string)
    requires name in specs && name in tables && forall e :: e in kept ==> e.peer == peer
    ensures var after, sub := Commit.ApplyBatch(specs, mode, tables, kept), EventsOf(kept, Feed(peer, name));
            && name in after
            && after[name] == if sub == [] then tables[name] else GroupTable(specs[name], mode, sub, tables[name])
  {
    var f := Feed(peer, name);
    GroupOrderLists(kept);
    EventsOfMembers(kept, f);
    forall g | g in GroupOrder(kept)
      ensures g.peer == peer
    {
      var e :| e in kept && FeedOf(e) == g;
    }
    GroupsAreIndependent(specs, mode, peer, tables, kept, GroupOrder(kept), name);
    if EventsOf(kept, f) != [] {
      assert EventsOf(kept, f)[0] in EventsOf(kept, f);
    } else {
      assert forall e :: e in kept ==> FeedOf(e) != f;
    }
  }

  /** A delivered batch of one region, its events in any order between feeds. */
  ghost predicate Delivery(
    specs: Specs, mode: ApplyMode, polling: bool, st: Store, es: seq<Event>, peer: string, after: Store)
  {
    && Rising(es) && (forall e :: e in es ==> e.peer == peer) && ValidTables(specs, st.tables)
    && Applied(specs, mode, polling, st, es) == Success(after)
  }

  function Survivors(mode: ApplyMode, polling: bool, st: Store, es: seq<Event>): seq<Event> {
    var prepared := Prepared(mode, polling, es);
    Kept(Locked(st.cursors, prepared), prepared)
  }

  lemma KeptAre(mode: ApplyMode, polling: bool, st: Store, es: seq<Event>, peer: string, name: string)
    requires Rising(es) && forall e :: e in es ==> e.peer == peer
    ensures var sub := EventsOf(Survivors(mode, polling, st, es), Feed(peer, name));
            && Rising(sub)
            && forall e :: e in sub
                      <==> e in es && e.table == name && e.op in OperationsOf(mode) && IsBeyond(st.cursors, e)
    ensures forall e :: e in Survivors(mode, polling, st, es) ==> e in es
  {
    var kept, f := Survivors(mode, polling, st, es), Feed(peer, name);
    forall e
      ensures e in kept <==> e in es && e.op in OperationsOf(mode) && IsBeyond(st.cursors, e)
    {
      KeptOfBatch(st.cursors, mode, polling, es, e);
    }
    EventsOfMembers(kept, f);
    KeptRises(Locked(st.cursors, Prepared(mode, polling, es)), Prepared(mode, polling, es));
    SubRises(kept, f);
  }

  /** A row with no new event that the mode lets through stays as it is. */
  lemma UntouchedStays(
    specs: Specs, mode: ApplyMode, polling: bool, st: Store, es: seq<Event>, peer: string, after: Store, name: string,
    k: Key)
    requires Delivery(specs, mode, polling, st, es, peer, after) && name in specs
    requires forall e :: e in es && Touching(mode, name, k, e) ==> !IsBeyond(st.cursors, e)
    ensures RowAt(after.tables, name, k) == RowAt(st.tables, name, k)
  {
    var kept := Survivors(mode, polling, st, es);
    var sub := EventsOf(kept, Feed(peer, name));
    KeptAre(mode, polling, st, es, peer, name);
    TableAfter(specs, mode, st.tables, peer, kept, name);
    LastForIsIn(sub, k);
    GroupTableCell(specs[name], mode, sub, st.tables[name], k);
  }

  /**
   What a batch does: the newest event of a key that the mode lets through, if it is beyond the cursor,
   has its effect on the row.
   */
  lemma NewestHasEffect(
    specs: Specs, mode: ApplyMode, polling: bool, st: Store, es: seq<Event>, peer: string, after: Store, e: Event)
    returns (listed: set<string>)
    requires Delivery(specs, mode, polling, st, es, peer, after) && e.table in specs
    requires e in es && e.op in OperationsOf(mode) && Newest(mode, es, e) && IsBeyond(st.cursors, e)
    ensures Effect(specs[e.table], mode, listed, e,
                   RowAt(st.tables, e.table, e.key), RowAt(after.tables, e.table, e.key))
    ensures e.op.Insert? || e.op.Upsert? ==> Lists(mode, es, e.table, listed)
  {
    var kept, name, k := Survivors(mode, polling, st, es), e.table, e.key;
    var sub := EventsOf(kept, Feed(peer, name));
    KeptAre(mode, polling, st, es, peer, name);
    TableAfter(specs, mode, st.tables, peer, kept, name);
    assert e in sub;
    LastIsNewest(sub, k, e);
    LastForIsIn(sub, k);
    assert LastFor(sub, k).value == e by {
      BeforeTrichotomy(PositionOf(e), PositionOf(LastFor(sub, k).value));
    }
    listed := GroupHasEffect(specs[name], mode, peer, name, sub, st.tables[name], k);
  }

  // ---- insert_only ----

  predicate AllInserts(es: seq<Event>) {
    forall e :: e in es ==> e.op.Insert?
  }

  lemma {:induction false} GroupsKeepRows(
    specs: Specs, tables: Tables, es: seq<Event>, groups: seq<Feed>, name: string, k: Key)
    requires AllInserts(es) && RowAt(tables, name, k).Some?
    ensures RowAt(ApplyGroups(specs, InsertOnlyMode, tables, es, groups), name, k) == RowAt(tables, name, k)
  {
    if groups != [] {
      var init, f := groups[..|groups| - 1], groups[|groups| - 1];
      GroupsKeepRows(specs, tables, es, init, name, k);
      var before, sub := ApplyGroups(specs, InsertOnlyMode, tables, es, init), EventsOf(es, f);
      EventsOfMembers(es, f);
      LastForIsIn(sub, k);
      if f.table == name && name in specs {
        GroupTableCell(specs[name], InsertOnlyMode, sub, before[name], k);
      }
    }
  }

  lemma InsertsPass(polling: bool, es: seq<Event>)
    ensures forall e :: e in Prepared(InsertOnlyMode, polling, es) <==> e in es && e.op.Insert?
  {
    AllowedMembers(InsertOnlyMode, es);
    SortedMembers(Allowed(InsertOnlyMode, es));
  }

  lemma {:induction false} AllowedMembers(mode: ApplyMode, es: seq<Event>)
    ensures forall e :: e in Allowed(mode, es) <==> e in es && e.op in OperationsOf(mode)
  {
    if es != [] {
      AllowedMembers(mode, es[..|es| - 1]);
      ModeLets(mode, es[|es| - 1].op);
      assert es == es[..|es| - 1] + [es[|es| - 1]];
    }
  }

  /** insert_only never changes a row that is there: any store, any batch, any regions in it. */
  lemma InsertOnlyKeepsRows(specs: Specs, polling: bool, st: Store, es: seq<Event>, after: Store, name: string, k: Key)
    requires Applied(specs, InsertOnlyMode, polling, st, es) == Success(after) && RowAt(st.tables, name, k).Some?
    ensures RowAt(after.tables, name, k) == RowAt(st.tables, name, k)
  {
    var prepared := Prepared(InsertOnlyMode, polling, es);
    var kept := Kept(Locked(st.cursors, prepared), prepared);
    InsertsPass(polling, es);
    ApplyService.KeptIn(Locked(st.cursors, prepared), prepared);
    GroupsKeepRows(specs, st.tables, kept, GroupOrder(kept), name, k);
  }

  /** A delivery: a polling batch or a transaction. */
  datatype Batch = Batch(polling: bool, events: seq<Event>)

  function DeliveredAll(specs: Specs, mode: ApplyMode, st: Store, batches: seq<Batch>): Store {
    if batches == [] then st
    else
      var before, b := DeliveredAll(specs, mode, st, batches[..|batches| - 1]), batches[|batches| - 1];
      match Applied(specs, mode, b.polling, before, b.events)
      case Success(next) => next
      case Failure => before
  }

  /** Nor does any run of deliveries, some of which may fail. */
  lemma {:induction false} InsertOnlyRunKeepsRows(specs: Specs, st: Store, batches: seq<Batch>, name: string, k: Key)
    requires RowAt(st.tables, name, k).Some?
    ensures RowAt(DeliveredAll(specs, InsertOnlyMode, st, batches).tables, name, k) == RowAt(st.tables, name, k)
  {
    if batches != [] {
      var init, b := batches[..|batches| - 1], batches[|batches| - 1];
      InsertOnlyRunKeepsRows(specs, st, init, name, k);
      var before := DeliveredAll(specs, InsertOnlyMode, st, init);
      var r := Applied(specs, InsertOnlyMode, b.polling, before, b.events);
      if r.Success? {
        InsertOnlyKeepsRows(specs, b.polling, before, b.events, r.value, name, k);
      }
    }
  }

  /** The row of a whole payload, owned by the sender. */
  predicate IsWholeRow(spec: TableSpec, peer: string, fields: Row, row: Row) {
    && row.Keys == spec.columns
    && forall c :: c in row ==> row[c] == if spec.regionField == Some(c) then Val(peer) else ValueIn(fields, c)
  }

  lemma WholeRowInserted(spec: TableSpec, peer: string, listed: set<string>, fields: Row, row: Row)
    requires IsInserted(spec, peer, listed, fields, row) && listed == spec.columns
    ensures IsWholeRow(spec, peer, fields, row)
  {
  }

  /** A key that insert_only finds absent ends with the payload of its newest insert, owned by the sender. */
  lemma InsertOnlyAddsRow(
    specs: Specs, polling: bool, st: Store, es: seq<Event>, peer: string, after: Store, e: Event)
    requires Delivery(specs, InsertOnlyMode, polling, st, es, peer, after) && e.table in specs
    requires forall d :: d in es && d.table == e.table && d.op.Insert? ==> d.fields.Keys == specs[e.table].columns
    requires e in es && e.op.Insert? && Newest(InsertOnlyMode, es, e) && IsBeyond(st.cursors, e)
    requires RowAt(st.tables, e.table, e.key) == None
    ensures var row := RowAt(after.tables, e.table, e.key);
            row.Some? && IsWholeRow(specs[e.table], peer, e.fields, row.value)
  {
    var listed := NewestHasEffect(specs, InsertOnlyMode, polling, st, es, peer, after, e);
    WholeRowInserted(specs[e.table], peer, listed, e.fields, RowAt(after.tables, e.table, e.key).value);
  }

  // ---- upsert ----

  function WithoutDeletes(es: seq<Event>): seq<Event> {
    if es == [] then []
    else
      var last := es[|es| - 1];
      if last.op.Delete? then WithoutDeletes(es[..|es| - 1]) else WithoutDeletes(es[..|es| - 1]) + [last]
  }

  lemma {:induction false} UpsertDropsDeletes(es: seq<Event>)
    ensures Allowed(UpsertMode, es) == WithoutDeletes(es)
    ensures Allowed(FullSyncMode, es) == es
    ensures forall e :: e in WithoutDeletes(es) ==> e in es
  {
    if es != [] {
      UpsertDropsDeletes(es[..|es| - 1]);
      assert es == es[..|es| - 1] + [es[|es| - 1]];
    }
  }

  lemma SameGroupTable(spec: TableSpec, es: seq<Event>, t: Table)
    ensures GroupTable(spec, UpsertMode, es, t) == GroupTable(spec, FullSyncMode, es, t)
  {
    forall k: Key
      ensures CellAt(GroupTable(spec, UpsertMode, es, t), k) == CellAt(GroupTable(spec, FullSyncMode, es, t), k)
    {
      GroupTableCell(spec, UpsertMode, es, t, k);
      GroupTableCell(spec, FullSyncMode, es, t, k);
    }
    TablesEqual(GroupTable(spec, UpsertMode, es, t), GroupTable(spec, FullSyncMode, es, t));
  }

  lemma {:induction false} SameGroups(specs: Specs, tables: Tables, es: seq<Event>, groups: seq<Feed>)
    ensures ApplyGroups(specs, UpsertMode, tables, es, groups) == ApplyGroups(specs, FullSyncMode, tables, es, groups)
  {
    if groups != [] {
      var f := groups[|groups| - 1];
      SameGroups(specs, tables, es, groups[..|groups| - 1]);
      var before := ApplyGroups(specs, FullSyncMode, tables, es, groups[..|groups| - 1]);
      if f.table in specs && f.table in before {
        SameGroupTable(specs[f.table], EventsOf(es, f), before[f.table]);
      }
    }
  }

  lemma SameCommit(specs: Specs, st: Store, es: seq<Event>)
    ensures Committed(specs, UpsertMode, st, es) == Committed(specs, FullSyncMode, st, es)
  {
    var locked := Locked(st.cursors, es);
    var kept := Kept(locked, es);
    SameGroups(specs, st.tables, kept, GroupOrder(kept));
    assert BatchApplicable(specs, UpsertMode, kept) <==> BatchApplicable(specs, FullSyncMode, kept);
  }

  /** Upsert mode is full sync without the deletes: any store, any batch. */
  lemma UpsertIsFullSyncWithoutDeletes(specs: Specs, polling: bool, st: Store, es: seq<Event>)
    requires WellFormedBatch(es)
    ensures Applied(specs, UpsertMode, polling, st, es) == Applied(specs, FullSyncMode, polling, st, WithoutDeletes(es))
  {
    UpsertDropsDeletes(es);
    UpsertDropsDeletes(WithoutDeletes(es));
    SameCommit(specs, st, Prepared(UpsertMode, polling, es));
  }
}
