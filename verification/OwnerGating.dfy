/**
 Row ownership over whole runs: what a sending region can and cannot do to the receiver's rows
 by event batches and snapshot chunks (internal/repository/postgres/events.go, snapshot.go).
 */
module OwnerGating {
  import opened PrimaryKeys
  import opened Rows
  import opened BatchApply
  import opened Commit
  import opened Transactions
  import opened Repositories
  import opened ApplyService

  datatype SnapshotRow = SnapshotRow(key: Key, payload: Row)

  /** A snapshot row acts like an upsert that may overwrite, whatever the apply mode. */
  function RowUpsert(peer: string, name: string, row: SnapshotRow): Event {
    Event(peer, name, "", row.key, Upsert, 0, row.payload)
  }

  function ChunkUpserts(peer: string, name: string, rows: seq<SnapshotRow>): seq<Event> {
    seq(|rows|, i requires 0 <= i < |rows| => RowUpsert(peer, name, rows[i]))
  }

  /** ApplySnapshotChunk: one upsert statement whose column list is that of the first row. */
  function ChunkApplied(specs: Specs, peer: string, tables: Tables, name: string, rows: seq<SnapshotRow>): Tables {
    if rows == [] || name !in specs then tables
    else
      var upserts := ChunkUpserts(peer, name, rows);
      var cols := UpsertColumns(specs[name], upserts[0]);
      if cols <= specs[name].columns
      then Rewritten(specs, FullSyncMode, tables, name, cols, upserts)
      else tables
  }

  predicate DistinctRows(rows: seq<SnapshotRow>) {
    forall i, j :: 0 <= i < j < |rows| ==> rows[i].key != rows[j].key
  }

  /** Applies a chunk in one transaction; an unknown table or column fails it and changes nothing. */
  method ApplySnapshotChunk(repo: Repository, peer: string, name: string, rows: seq<SnapshotRow>) returns (ok: bool)
    requires repo.Valid() && DistinctRows(rows)
    modifies repo`tables
    ensures repo.Valid() && repo.tables == ChunkApplied(repo.specs, peer, old(repo.tables), name, rows)
    ensures ok <==>
              (rows == []
               || (name in repo.specs
                   && UpsertColumns(repo.specs[name], RowUpsert(peer, name, rows[0])) <= repo.specs[name].columns))
  {
    if |rows| == 0 {
      return true;
    }
    var upserts: seq<Event> := [];
    for i := 0 to |rows|
      invariant |upserts| == i && forall j :: 0 <= j < i ==> upserts[j] == RowUpsert(peer, name, rows[j])
    {
      upserts := upserts + [RowUpsert(peer, name, rows[i])];
    }
    assert upserts == ChunkUpserts(peer, name, rows);
    ok := repo.ApplyUpsertBatch(upserts, FullSyncMode);
  }

  datatype Inbound =
    | InboundBatch(mode: ApplyMode, es: seq<Event>)
    | InboundChunk(name: string, rows: seq<SnapshotRow>)

  predicate FromPeer(peer: string, msg: Inbound) {
    msg.InboundBatch? ==> forall e :: e in msg.es ==> e.peer == peer
  }

  function Received(specs: Specs, peer: string, st: Store, msg: Inbound): Store {
    match msg
    case InboundBatch(mode, es) => CommittedOr(specs, mode, st, es)
    case InboundChunk(name, rows) => st.(tables := ChunkApplied(specs, peer, st.tables, name, rows))
  }

  function ReceivedAll(specs: Specs, peer: string, st: Store, run: seq<Inbound>): Store {
    if run == [] then st else Received(specs, peer, ReceivedAll(specs, peer, st, run[..|run| - 1]), run[|run| - 1])
  }

  /** One row before and after a message, in terms of the one event that touched it, if any. */
  ghost predicate TouchedOnce(
    spec: TableSpec, peer: string, events: set<Event>, before: Option<Row>, after: Option<Row>)
  {
    || after == before
    || exists mode, cols, e :: e in events && e.peer == peer && after == EventCell(spec, mode, cols, e, before)
  }

  /** The events a message carries; the rows of a chunk count as upserts. */
  function EventsIn(peer: string, msg: Inbound): set<Event> {
    match msg
    case InboundBatch(mode, es) => set e | e in es
    case InboundChunk(name, rows) => set e | e in ChunkUpserts(peer, name, rows)
  }

  lemma GroupTouches(
    spec: TableSpec, mode: ApplyMode, peer: string, es: seq<Event>, t: Table, k: Key, events: set<Event>)
    requires forall e :: e in es ==> e in events && e.peer == peer
    ensures TouchedOnce(spec, peer, events, CellAt(t, k), CellAt(GroupTable(spec, mode, es, t), k))
  {
    GroupTableCell(spec, mode, es, t, k);
    LastForIsIn(es, k);
    if LastFor(es, k).Some? {
      var e := LastFor(es, k).value;
      assert e in events && CellAt(GroupTable(spec, mode, es, t), k)
          == EventCell(spec, mode, GroupColumns(spec, es), e, CellAt(t, k));
    }
  }

  lemma BatchTouches(
    specs: Specs, mode: ApplyMode, peer: string, st: Store, es: seq<Event>, name: string, k: Key)
    requires forall e :: e in es ==> e.peer == peer
    requires name in specs && name in st.tables
    ensures name in CommittedOr(specs, mode, st, es).tables
    ensures TouchedOnce(specs[name], peer, (set e | e in es),
                        CellAt(st.tables[name], k), CellAt(CommittedOr(specs, mode, st, es).tables[name], k))
  {
    var kept := Kept(Locked(st.cursors, es), es);
    var f := Feed(peer, name);
    KeptIn(Locked(st.cursors, es), es);
    GroupOrderLists(kept);
    GroupsAreIndependent(specs, mode, peer, st.tables, kept, GroupOrder(kept), name);
    EventsOfMembers(kept, f);
    GroupTouches(specs[name], mode, peer, EventsOf(kept, f), st.tables[name], k, set e | e in es);
  }

  lemma ChunkTouches(
    specs: Specs, peer: string, tables: Tables, target: string, rows: seq<SnapshotRow>, name: string, k: Key)
    requires name in specs && name in tables
    ensures var after := ChunkApplied(specs, peer, tables, target, rows);
            && name in after
            && TouchedOnce(specs[name], peer, (set e | e in ChunkUpserts(peer, target, rows)),
                           CellAt(tables[name], k), CellAt(after[name], k))
  {
    var upserts := ChunkUpserts(peer, target, rows);
    if rows != [] && name == target {
      var spec, t := specs[name], tables[name];
      var cols := UpsertColumns(spec, upserts[0]);
      StatementAt(spec, FullSyncMode, cols, upserts, t, k);
      LastForIsIn(upserts, k);
      if LastFor(upserts, k).Some? {
        var e := LastFor(upserts, k).value;
        assert e in upserts && e.peer == peer;
        assert StatementCell(spec, FullSyncMode, cols, upserts, t, k)
            == EventCell(spec, FullSyncMode, cols, e, CellAt(t, k));
      }
    }
  }

  lemma MessageTouches(specs: Specs, peer: string, st: Store, msg: Inbound, name: string, k: Key)
    requires FromPeer(peer, msg) && name in specs && name in st.tables
    ensures name in Received(specs, peer, st, msg).tables
    ensures TouchedOnce(specs[name], peer, EventsIn(peer, msg),
                        CellAt(st.tables[name], k), CellAt(Received(specs, peer, st, msg).tables[name], k))
  {
    match msg
    case InboundBatch(mode, es) => BatchTouches(specs, mode, peer, st, es, name, k);
    case InboundChunk(target, rows) => ChunkTouches(specs, peer, st.tables, target, rows, name, k);
  }

  /** No run of messages from one region changes or removes a row that another region owns. */
  lemma {:induction false} ForeignRowsUntouched(
    specs: Specs, peer: string, st: Store, run: seq<Inbound>, name: string, k: Key)
    requires peer != "" && name in specs && name in st.tables
    requires forall i :: 0 <= i < |run| ==> FromPeer(peer, run[i])
    requires Foreign(specs[name], peer, CellAt(st.tables[name], k))
    ensures name in ReceivedAll(specs, peer, st, run).tables
    ensures CellAt(ReceivedAll(specs, peer, st, run).tables[name], k) == CellAt(st.tables[name], k)
  {
    if run != [] {
      var init, msg := run[..|run| - 1], run[|run| - 1];
      ForeignRowsUntouched(specs, peer, st, init, name, k);
      var before := ReceivedAll(specs, peer, st, init);
      var cell := CellAt(before.tables[name], k);
      MessageTouches(specs, peer, before, msg, name, k);
      forall mode, cols, e: Event | e.peer == peer
        ensures EventCell(specs[name], mode, cols, e, cell) == cell
      {
        CellStepForeign(specs[name], mode, cols, peer, e, cell);
      }
    }
  }

  // ---- ownership is only ever claimed from nobody ----

  /** The owner of a row stays, or an unowned row becomes the sender's. */
  predicate OwnerKeptOrClaimed(spec: TableSpec, peer: string, before: Row, after: Row) {
    || Owner(spec, after) == Owner(spec, before)
    || (Owner(spec, before) == Null && Owner(spec, after) == Val(peer))
  }

  /** An update that mentions the region column names the sender there. */
  predicate CarriesRegion(spec: TableSpec, peer: string, e: Event) {
    e.op.Update? && spec.regionField.Some? && spec.regionField.value in e.fields
    ==> e.fields[spec.regionField.value] == Val(peer)
  }

  ghost predicate NeverReassigns(spec: TableSpec, mode: ApplyMode, peer: string, e: Event) {
    forall row: Row, cols {:trigger EventCell(spec, mode, cols, e, Some(row))} ::
      row.Keys == spec.columns && EventCell(spec, mode, cols, e, Some(row)).Some? ==>
        OwnerKeptOrClaimed(spec, peer, row, EventCell(spec, mode, cols, e, Some(row)).value)
  }

  lemma EventClaims(spec: TableSpec, mode: ApplyMode, cols: set<string>, peer: string, e: Event, row: Row)
    requires ValidSpec(spec) && e.peer == peer && peer != "" && row.Keys == spec.columns
    requires CarriesRegion(spec, peer, e)
    requires EventCell(spec, mode, cols, e, Some(row)).Some?
    ensures OwnerKeptOrClaimed(spec, peer, row, EventCell(spec, mode, cols, e, Some(row)).value)
  {
    if spec.regionField.Some? {
      var payload := WithProvenance(spec, peer, e.fields);
      assert Populated(payload, spec.regionField.value) == Val(peer);
    }
  }

  /**
   An event of one region leaves every row it does not delete with its owner, or claims an
   unowned row, exactly when its payload, being an update, names no other region.
   */
  lemma OwnerOnlyClaimedIff(spec: TableSpec, mode: ApplyMode, peer: string, e: Event)
    requires ValidSpec(spec) && e.peer == peer && peer != "" && !mode.InsertOnlyMode?
    ensures NeverReassigns(spec, mode, peer, e) <==> CarriesRegion(spec, peer, e)
  {
    if CarriesRegion(spec, peer, e) {
      forall row: Row, cols | row.Keys == spec.columns && EventCell(spec, mode, cols, e, Some(row)).Some?
        ensures OwnerKeptOrClaimed(spec, peer, row, EventCell(spec, mode, cols, e, Some(row)).value)
      {
        EventClaims(spec, mode, cols, peer, e, row);
      }
    } else {
      var region := spec.regionField.value;
      var row: Row := map c | c in spec.columns :: if c == region then Val(peer) else Null;
      var after := EventCell(spec, mode, {}, e, Some(row));
      assert after.value == Overwritten(row, e.fields.Keys, e.fields);
      assert after.value[region] == e.fields[region];
    }
  }

  /** The states of one row along a run, the initial one first. */
  function RowAlong(specs: Specs, peer: string, st: Store, run: seq<Inbound>, name: string, k: Key, i: nat): Option<Row>
    requires i <= |run|
  {
    var tables := ReceivedAll(specs, peer, st, run[..i]).tables;
    if name in tables then CellAt(tables[name], k) else None
  }

  /** One message: the row stays, or becomes what one of its events makes of it. */
  lemma MessageClaims(spec: TableSpec, peer: string, m: Inbound, cell: Option<Row>, next: Option<Row>)
    requires ValidSpec(spec) && peer != "" && ValidCell(spec, cell) && cell.Some? && next.Some?
    requires forall e :: e in EventsIn(peer, m) ==> CarriesRegion(spec, peer, e)
    requires || next == cell
             || exists mode, cols, e ::
                  e in EventsIn(peer, m) && e.peer == peer && next == EventCell(spec, mode, cols, e, cell)
    ensures ValidCell(spec, next) && OwnerKeptOrClaimed(spec, peer, cell.value, next.value)
  {
    if next != cell {
      var mode, cols, e :| e in EventsIn(peer, m) && e.peer == peer && next == EventCell(spec, mode, cols, e, cell);
      EventClaims(spec, mode, cols, peer, e, cell.value);
      EventCellValid(spec, mode, cols, e, cell);
    }
  }

  /** While a row exists, messages of one region change its owner at most from nobody to themselves. */
  lemma {:induction false} OwnersOnlyClaimed(
    specs: Specs, peer: string, st: Store, run: seq<Inbound>, name: string, k: Key, n: nat)
    requires peer != "" && name in specs && ValidSpec(specs[name])
    requires name in st.tables && ValidTable(specs[name], st.tables[name])
    requires n <= |run|
    requires forall i :: 0 <= i < n ==> FromPeer(peer, run[i])
    requires forall i, e :: 0 <= i < n && e in EventsIn(peer, run[i]) ==> CarriesRegion(specs[name], peer, e)
    requires forall i :: 0 <= i <= n ==> RowAlong(specs, peer, st, run, name, k, i).Some?
    ensures name in ReceivedAll(specs, peer, st, run[..n]).tables
    ensures ValidCell(specs[name], RowAlong(specs, peer, st, run, name, k, n))
    ensures OwnerKeptOrClaimed(specs[name], peer,
                               RowAlong(specs, peer, st, run, name, k, 0).value,
                               RowAlong(specs, peer, st, run, name, k, n).value)
  {
    var spec := specs[name];
    if n > 0 {
      OwnersOnlyClaimed(specs, peer, st, run, name, k, n - 1);
      assert run[..n][..n - 1] == run[..n - 1] && run[..n][n - 1] == run[n - 1];
      var before := ReceivedAll(specs, peer, st, run[..n - 1]);
      var cell, next := RowAlong(specs, peer, st, run, name, k, n - 1), RowAlong(specs, peer, st, run, name, k, n);
      MessageTouches(specs, peer, before, run[n - 1], name, k);
      MessageClaims(spec, peer, run[n - 1], cell, next);
    }
  }
}
