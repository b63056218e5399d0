/**
 A fuzzy snapshot converges: chunks read at different moments of a changing source, then the log
 since capture began, leave the receiver with the source's owned rows at the end of the log.
 Sources: internal/service/snapshot/service.go:183-213, internal/repository/postgres/snapshot.go:17-94,
 internal/transport/grpc/server/handlers.go:101-148, internal/repository/postgres/events.go:16-82.
 */
module FuzzySnapshot {
  import opened PrimaryKeys
  import opened Positions
  import opened Rows
  import opened BatchApply
  import opened Commit
  import opened Transactions
  import opened Repositories
  import opened OwnerGating
  import Send = SnapshotSend

  // ---- the source ----

  /** The owned rows at the start of the log, and the log of captured changes to them. */
  datatype Source = Source(specs: Specs, peer: string, start: Tables, log: seq<Event>)

  predicate OwnedRow(spec: TableSpec, peer: string, row: Row) {
    row.Keys == spec.columns && (spec.regionField.Some? ==> Owner(spec, row) == Val(peer))
  }

  predicate OwnedCell(spec: TableSpec, peer: string, cell: Option<Row>) {
    cell.Some? ==> OwnedRow(spec, peer, cell.value)
  }

  function Changed(cell: Option<Row>, e: Event): Option<Row> {
    if e.op.Delete? then None else Some(e.fields)
  }

  predicate Touches(e: Event, name: string, k: Key) {
    e.table == name && e.key == k
  }

  /** The source's row at a key after the first n changes. */
  function SourceCell(src: Source, n: nat, name: string, k: Key): Option<Row>
    requires n <= |src.log|
  {
    if n == 0 then (if name in src.start then CellAt(src.start[name], k) else None)
    else
      var before := SourceCell(src, n - 1, name, k);
      if Touches(src.log[n - 1], name, k) then Changed(before, src.log[n - 1]) else before
  }

  /** Updates and deletes are of rows that exist; images are whole rows owned by the region. */
  predicate ValidChange(src: Source, i: nat)
    requires i < |src.log|
  {
    var e := src.log[i];
    && e.peer == src.peer && e.table in src.specs
    && (!e.op.Delete? ==> OwnedRow(src.specs[e.table], src.peer, e.fields))
    && (e.op.Update? ==> SourceCell(src, i, e.table, e.key).Some?)
  }

  predicate ValidSource(src: Source) {
    && src.peer != ""
    && (forall name :: name in src.specs ==> ValidSpec(src.specs[name]))
    && (forall name, k :: name in src.specs && name in src.start && k in src.start[name] ==>
          OwnedRow(src.specs[name], src.peer, src.start[name][k]))
    && (forall i :: 0 <= i < |src.log| ==> ValidChange(src, i))
  }

  lemma {:induction false} SourceOwned(src: Source, n: nat, name: string, k: Key)
    requires ValidSource(src) && n <= |src.log| && name in src.specs
    ensures OwnedCell(src.specs[name], src.peer, SourceCell(src, n, name, k))
  {
    if n > 0 {
      SourceOwned(src, n - 1, name, k);
      assert ValidChange(src, n - 1);
    }
  }

  // ---- replay over a row that may come from the future ----

  /** The receiver's row is the source's at some moment between two log points. */
  predicate Between(src: Source, from: nat, to: nat, name: string, k: Key, cell: Option<Row>)
    requires to <= |src.log|
  {
    exists m :: from <= m <= to && cell == SourceCell(src, m, name, k)
  }

  /** One replayed change: exact, unless it updates a row that the source has deleted since. */
  lemma ReplayChange(src: Source, n: nat, name: string, k: Key, cell: Option<Row>)
    requires ValidSource(src) && n < |src.log| && name in src.specs && Touches(src.log[n], name, k)
    requires OwnedCell(src.specs[name], src.peer, cell)
    ensures var e, spec := src.log[n], src.specs[name];
            var next := EventCell(spec, FullSyncMode, UpsertColumns(spec, e), e, cell);
            next == (if e.op.Update? && cell.None? then None else SourceCell(src, n + 1, name, k))
  {
    var e, spec := src.log[n], src.specs[name];
    assert ValidChange(src, n);
    if !e.op.Delete? {
      OwnedImage(spec, src.peer, e);
    }
    CellStepHome(spec, FullSyncMode, src.peer, e, cell);
  }

  lemma OwnedImage(spec: TableSpec, peer: string, e: Event)
    requires ValidSpec(spec) && peer != "" && e.peer == peer && OwnedRow(spec, peer, e.fields)
    ensures WithProvenance(spec, peer, e.fields) == e.fields && UpsertColumns(spec, e) == spec.columns
    ensures FullImage(spec, peer, e)
  {
  }

  function RowIn(tables: Tables, name: string, k: Key): Option<Row> {
    if name in tables then CellAt(tables[name], k) else None
  }

  function RowAfter(spec: TableSpec, e: Event, name: string, k: Key, row: Option<Row>): Option<Row> {
    if Touches(e, name, k) then EventCell(spec, FullSyncMode, UpsertColumns(spec, e), e, row) else row
  }

  /** One more event, seen at one key. */
  lemma OneByOneStep(specs: Specs, tables: Tables, es: seq<Event>, e: Event, name: string, k: Key)
    requires name in specs && name in tables && e.table in specs
    ensures RowIn(OneByOne(specs, FullSyncMode, tables, es + [e]), name, k)
         == RowAfter(specs[name], e, name, k, RowIn(OneByOne(specs, FullSyncMode, tables, es), name, k))
  {
    var all := es + [e];
    assert all[..|all| - 1] == es && all[|all| - 1] == e;
    OneByOneKeepsTables(specs, FullSyncMode, tables, es);
  }

  /** A receiver's row at a key under the changes from one log point to another, one by one. */
  function Evolved(src: Source, name: string, k: Key, row: Option<Row>, a: nat, b: nat): Option<Row>
    requires name in src.specs && a <= b <= |src.log|
  {
    if a == b then row
    else RowAfter(src.specs[name], src.log[b - 1], name, k, Evolved(src, name, k, row, a, b - 1))
  }

  lemma {:induction false} OneByOneEvolves(src: Source, tables: Tables, a: nat, b: nat, name: string, k: Key)
    requires ValidSource(src) && a <= b <= |src.log| && name in src.specs && name in tables
    ensures RowIn(OneByOne(src.specs, FullSyncMode, tables, src.log[a..b]), name, k)
         == Evolved(src, name, k, RowIn(tables, name, k), a, b)
    decreases b
  {
    if a < b {
      var init, e := src.log[a..b - 1], src.log[b - 1];
      OneByOneEvolves(src, tables, a, b - 1, name, k);
      assert src.log[a..b] == init + [e];
      assert ValidChange(src, b - 1);
      OneByOneStep(src.specs, tables, init, e, name, k);
    }
  }

  lemma {:induction false} EvolvedJoins(src: Source, name: string, k: Key, row: Option<Row>, a: nat, b: nat, c: nat)
    requires name in src.specs && a <= b <= c <= |src.log|
    ensures Evolved(src, name, k, Evolved(src, name, k, row, a, b), b, c) == Evolved(src, name, k, row, a, c)
    decreases c
  {
    if b < c {
      EvolvedJoins(src, name, k, row, a, b, c - 1);
    }
  }

  lemma {:induction false} EvolvedOwned(src: Source, name: string, k: Key, row: Option<Row>, a: nat, b: nat)
    requires ValidSource(src) && name in src.specs && a <= b <= |src.log|
    requires OwnedCell(src.specs[name], src.peer, row)
    ensures OwnedCell(src.specs[name], src.peer, Evolved(src, name, k, row, a, b))
    decreases b
  {
    if a < b {
      EvolvedOwned(src, name, k, row, a, b - 1);
      if Touches(src.log[b - 1], name, k) {
        ReplayChange(src, b - 1, name, k, Evolved(src, name, k, row, a, b - 1));
        SourceOwned(src, b, name, k);
      }
    }
  }

  lemma {:induction false} EvolvedForeign(src: Source, name: string, k: Key, row: Option<Row>, a: nat, b: nat)
    requires ValidSource(src) && name in src.specs && a <= b <= |src.log|
    requires Foreign(src.specs[name], src.peer, row)
    ensures Evolved(src, name, k, row, a, b) == row
    decreases b
  {
    if a < b {
      EvolvedForeign(src, name, k, row, a, b - 1);
      var e, spec := src.log[b - 1], src.specs[name];
      assert ValidChange(src, b - 1);
      CellStepForeign(spec, FullSyncMode, UpsertColumns(spec, e), src.peer, e, row);
    }
  }

  /** A row read at moment m is that of the replayed point, or, up to m, still the one read. */
  lemma {:induction false} EvolvedCatchesUp(src: Source, name: string, k: Key, m: nat, a: nat, n: nat)
    requires ValidSource(src) && name in src.specs && a <= m <= |src.log| && a <= n <= |src.log|
    ensures var row := Evolved(src, name, k, SourceCell(src, m, name, k), a, n);
            row == SourceCell(src, n, name, k) || (n < m && row == SourceCell(src, m, name, k))
    decreases n
  {
    if a < n {
      EvolvedCatchesUp(src, name, k, m, a, n - 1);
      if Touches(src.log[n - 1], name, k) {
        assert ValidChange(src, n - 1);
        SourceOwned(src, n - 1, name, k);
        SourceOwned(src, m, name, k);
        ReplayChange(src, n - 1, name, k, Evolved(src, name, k, SourceCell(src, m, name, k), a, n - 1));
      }
    }
  }

  predicate TouchedWithin(src: Source, name: string, k: Key, a: nat, b: nat)
    requires a <= b <= |src.log|
  {
    exists i :: a <= i < b && Touches(src.log[i], name, k)
  }

  /** A row the receiver has, however old: the first change of its key makes it right. */
  lemma {:induction false} EvolvedFromPresent(src: Source, name: string, k: Key, row: Option<Row>, a: nat, n: nat)
    requires ValidSource(src) && name in src.specs && a <= n <= |src.log|
    requires row.Some? && OwnedCell(src.specs[name], src.peer, row)
    ensures Evolved(src, name, k, row, a, n)
         == if TouchedWithin(src, name, k, a, n) then SourceCell(src, n, name, k) else row
    decreases n
  {
    if a < n {
      EvolvedFromPresent(src, name, k, row, a, n - 1);
      var before := Evolved(src, name, k, row, a, n - 1);
      if Touches(src.log[n - 1], name, k) {
        assert ValidChange(src, n - 1);
        SourceOwned(src, n - 1, name, k);
        ReplayChange(src, n - 1, name, k, before);
      } else {
        assert TouchedWithin(src, name, k, a, n) ==> TouchedWithin(src, name, k, a, n - 1);
      }
    }
  }

  lemma {:induction false} SourceUntouched(src: Source, name: string, k: Key, a: nat, b: nat)
    requires a <= b <= |src.log| && !TouchedWithin(src, name, k, a, b)
    ensures SourceCell(src, a, name, k) == SourceCell(src, b, name, k)
    decreases b
  {
    if a < b {
      assert !Touches(src.log[b - 1], name, k);
      SourceUntouched(src, name, k, a, b - 1);
    }
  }

  /** Replaying the log over tables read at a later moment. */
  lemma ReplayCatchesUp(src: Source, tables: Tables, from: nat, m: nat, n: nat, name: string, k: Key)
    requires ValidSource(src) && from <= m <= |src.log| && from <= n <= |src.log|
    requires name in src.specs && name in tables && RowIn(tables, name, k) == SourceCell(src, m, name, k)
    ensures var row := RowIn(OneByOne(src.specs, FullSyncMode, tables, src.log[from..n]), name, k);
            row == SourceCell(src, n, name, k) || (n < m && row == SourceCell(src, m, name, k))
  {
    OneByOneEvolves(src, tables, from, n, name, k);
    EvolvedCatchesUp(src, name, k, m, from, n);
  }

  // ---- the chunks ----

  /** A chunk read: the table, the moment, what the table held then, and the key to read after. */
  datatype Read = Read(name: string, time: nat, view: Table, after: Key)

  function QueryOf(src: Source, name: string, limit: nat): Send.Query {
    Send.Query(if name in src.specs then src.specs[name].regionField else None, src.peer, limit)
  }

  function Shown(q: Send.Query, view: Table, k: Key): Option<Row> {
    if Send.Shows(q, view, k) then Some(view[k]) else None
  }

  /** What a read sees of the owned rows is the source at that moment; other rows may be anything. */
  ghost predicate ValidRead(src: Source, from: nat, to: nat, limit: nat, r: Read) {
    && r.name in src.specs && from <= r.time <= to <= |src.log| && Send.NoEmptyKey(r.view)
    && forall k: Key :: Shown(QueryOf(src, r.name, limit), r.view, k) == SourceCell(src, r.time, r.name, k)
  }

  function ChunkRead(src: Source, limit: nat, r: Read): Send.Chunk {
    Send.ChunkOf(QueryOf(src, r.name, limit), r.view, r.after)
  }

  predicate Answers(src: Source, limit: nat, r: Read, name: string, k: Key) {
    r.name == name && Send.InRange(r.after, ChunkRead(src, limit, r), k)
  }

  function ChunksApplied(src: Source, limit: nat, tables: Tables, chunks: seq<Read>): Tables {
    if chunks == [] then tables
    else
      var before := ChunksApplied(src, limit, tables, chunks[..|chunks| - 1]);
      var r := chunks[|chunks| - 1];
      ChunkApplied(src.specs, src.peer, before, r.name, ChunkRead(src, limit, r).rows)
  }

  lemma UpsertsLast(peer: string, name: string, rows: seq<SnapshotRow>, k: Key)
    ensures var e := LastFor(ChunkUpserts(peer, name, rows), k);
            && (e.Some? <==> Send.HasKey(rows, k))
            && (e.Some? ==> exists r :: r in rows && r.key == k && e.value == RowUpsert(peer, name, r))
  {
    var upserts := ChunkUpserts(peer, name, rows);
    LastForIsIn(upserts, k);
    if LastFor(upserts, k).Some? {
      var i :| 0 <= i < |upserts| && upserts[i] == LastFor(upserts, k).value;
      assert rows[i].key == k && rows[i] in rows;
    }
    if Send.HasKey(rows, k) {
      var i :| 0 <= i < |rows| && rows[i].key == k;
      assert upserts[i] in upserts && upserts[i].key == k;
    }
  }

  /** A chunk row is a whole owned row, so it replaces the receiver's row outright. */
  lemma RowLands(spec: TableSpec, peer: string, name: string, r: SnapshotRow, cell: Option<Row>)
    requires ValidSpec(spec) && peer != "" && OwnedRow(spec, peer, r.payload) && OwnedCell(spec, peer, cell)
    ensures EventCell(spec, FullSyncMode, spec.columns, RowUpsert(peer, name, r), cell) == Some(r.payload)
    ensures UpsertColumns(spec, RowUpsert(peer, name, r)) == spec.columns
  {
    OwnedImage(spec, peer, RowUpsert(peer, name, r));
    CellStepHome(spec, FullSyncMode, peer, RowUpsert(peer, name, r), cell);
  }

  lemma RowsAreOwned(src: Source, from: nat, to: nat, limit: nat, r: Read, row: SnapshotRow)
    requires ValidSource(src) && limit > 0 && ValidRead(src, from, to, limit, r) && row in ChunkRead(src, limit, r).rows
    ensures OwnedRow(src.specs[r.name], src.peer, row.payload)
    ensures SourceCell(src, r.time, r.name, row.key) == Some(row.payload)
  {
    var q, rows := QueryOf(src, r.name, limit), ChunkRead(src, limit, r).rows;
    Send.ChunkIsExact(q, r.view, r.after);
    var i :| 0 <= i < |rows| && rows[i] == row;
    assert Send.HasKey(rows, row.key);
    assert Shown(q, r.view, row.key) == SourceCell(src, r.time, r.name, row.key);
    SourceOwned(src, r.time, r.name, row.key);
  }

  /** A chunk sets the rows it shows to what the source held when it was read, and no others. */
  lemma ChunkLands(src: Source, from: nat, to: nat, limit: nat, tables: Tables, r: Read, name: string, k: Key)
    requires ValidSource(src) && limit > 0 && ValidRead(src, from, to, limit, r)
    requires name in src.specs && name in tables && OwnedCell(src.specs[name], src.peer, RowIn(tables, name, k))
    ensures var rows := ChunkRead(src, limit, r).rows;
            var after := RowIn(ChunkApplied(src.specs, src.peer, tables, r.name, rows), name, k);
            after == if r.name == name && Send.HasKey(rows, k) then SourceCell(src, r.time, name, k)
                     else RowIn(tables, name, k)
  {
    var spec, rows := src.specs[r.name], ChunkRead(src, limit, r).rows;
    if rows != [] && r.name == name {
      var upserts := ChunkUpserts(src.peer, name, rows);
      RowsAreOwned(src, from, to, limit, r, rows[0]);
      RowLands(spec, src.peer, name, rows[0], None);
      assert upserts[0] == RowUpsert(src.peer, name, rows[0]);
      StatementAt(spec, FullSyncMode, spec.columns, upserts, tables[name], k);
      UpsertsLast(src.peer, name, rows, k);
      if Send.HasKey(rows, k) {
        var row :| row in rows && row.key == k && LastFor(upserts, k).value == RowUpsert(src.peer, name, row);
        RowsAreOwned(src, from, to, limit, r, row);
        RowLands(spec, src.peer, name, row, RowIn(tables, name, k));
      }
    }
  }

  predicate Answered(src: Source, limit: nat, chunks: seq<Read>, name: string, k: Key) {
    exists r :: r in chunks && Answers(src, limit, r, name, k)
  }

  lemma OneChunkLands(
    src: Source, from: nat, to: nat, limit: nat, before: Tables, answered: bool, r: Read, name: string, k: Key)
    requires ValidSource(src) && limit > 0 && to <= |src.log| && name in src.specs && name in before
    requires ValidRead(src, from, to, limit, r)
    requires var row := RowIn(before, name, k); Between(src, from, to, name, k, row) || (row == None && !answered)
    ensures var after := ChunkApplied(src.specs, src.peer, before, r.name, ChunkRead(src, limit, r).rows);
            && name in after
            && (Between(src, from, to, name, k, RowIn(after, name, k))
                || (RowIn(after, name, k) == None && !answered && !Answers(src, limit, r, name, k)))
  {
    if RowIn(before, name, k).Some? {
      var m :| from <= m <= to && RowIn(before, name, k) == SourceCell(src, m, name, k);
      SourceOwned(src, m, name, k);
    }
    ChunkLands(src, from, to, limit, before, r, name, k);
    ChunkAnswers(src, from, to, limit, r, name, k);
  }

  /** After the chunks, a row the receiver lacked is one the source held meanwhile, or not read yet. */
  lemma {:induction false} ChunksLand(
    src: Source, from: nat, to: nat, limit: nat, tables: Tables, chunks: seq<Read>, name: string, k: Key)
    requires ValidSource(src) && limit > 0 && to <= |src.log| && name in src.specs && name in tables
    requires forall r :: r in chunks ==> ValidRead(src, from, to, limit, r)
    requires RowIn(tables, name, k) == None
    ensures name in ChunksApplied(src, limit, tables, chunks)
    ensures var row := RowIn(ChunksApplied(src, limit, tables, chunks), name, k);
            Between(src, from, to, name, k, row) || (row == None && !Answered(src, limit, chunks, name, k))
  {
    if chunks != [] {
      var init, r := chunks[..|chunks| - 1], chunks[|chunks| - 1];
      assert r in chunks && forall x :: x in init ==> x in chunks;
      assert chunks == init + [r];
      ChunksLand(src, from, to, limit, tables, init, name, k);
      var before := ChunksApplied(src, limit, tables, init);
      OneChunkLands(src, from, to, limit, before, Answered(src, limit, init, name, k), r, name, k);
      if Answered(src, limit, chunks, name, k) {
        var x :| x in chunks && Answers(src, limit, x, name, k);
        assert x == r || x in init;
      }
    }
  }

  /** A chunk that answers for a key without showing it says that the source had no such row. */
  lemma ChunkAnswers(src: Source, from: nat, to: nat, limit: nat, r: Read, name: string, k: Key)
    requires limit > 0 && ValidRead(src, from, to, limit, r)
    ensures Answers(src, limit, r, name, k) && !Send.HasKey(ChunkRead(src, limit, r).rows, k) ==>
              SourceCell(src, r.time, name, k) == None
  {
    Send.ChunkHolds(QueryOf(src, r.name, limit), r.view, r.after, k);
    assert Shown(QueryOf(src, r.name, limit), r.view, k) == SourceCell(src, r.time, r.name, k);
  }

  // ---- the replay, in committed batches ----

  function Replayed(specs: Specs, st: Store, batches: seq<seq<Event>>): Store {
    if batches == [] then st
    else CommittedOr(specs, FullSyncMode, Replayed(specs, st, batches[..|batches| - 1]), batches[|batches| - 1])
  }

  function Joined(batches: seq<seq<Event>>): seq<Event> {
    if batches == [] then [] else Joined(batches[..|batches| - 1]) + batches[|batches| - 1]
  }

  lemma {:induction false} OneByOneJoins(specs: Specs, tables: Tables, a: seq<Event>, b: seq<Event>)
    ensures OneByOne(specs, FullSyncMode, tables, a + b)
         == OneByOne(specs, FullSyncMode, OneByOne(specs, FullSyncMode, tables, a), b)
    decreases |b|
  {
    if b == [] {
      assert a + b == a;
    } else {
      OneByOneJoins(specs, tables, a, b[..|b| - 1]);
      assert (a + b)[..|a + b| - 1] == a + b[..|b| - 1];
    }
  }

  lemma {:induction false} OneByOneValid(specs: Specs, tables: Tables, es: seq<Event>)
    requires ValidTables(specs, tables)
    ensures ValidTables(specs, OneByOne(specs, FullSyncMode, tables, es))
  {
    if es != [] {
      var init, e := es[..|es| - 1], es[|es| - 1];
      OneByOneValid(specs, tables, init);
      var before := OneByOne(specs, FullSyncMode, tables, init);
      if e.table in specs && e.table in before {
        var spec := specs[e.table];
        EventCellValid(spec, FullSyncMode, UpsertColumns(spec, e), e, CellAt(before[e.table], e.key));
      }
    }
  }

  /** The cursor is where it was or at a replayed event. */
  predicate CursorWithin(before: Cursors, es: seq<Event>, after: Cursors, f: Feed) {
    || CursorOf(after, f).last == CursorOf(before, f).last
    || exists e :: e in es && FeedOf(e) == f && CursorOf(after, f).last == PositionOf(e)
  }

  lemma InOrderSplit(before: Cursors, a: seq<Event>, b: seq<Event>, after: Cursors)
    requires InOrder(before, a + b) && forall f :: CursorWithin(before, a, after, f)
    ensures InOrder(after, b)
  {
    var all := a + b;
    forall j | 0 <= j < |b|
      ensures Before(CursorOf(after, FeedOf(b[j])).last, PositionOf(b[j]))
    {
      assert all[|a| + j] == b[j];
      assert CursorWithin(before, a, after, FeedOf(b[j]));
      if CursorOf(after, FeedOf(b[j])).last != CursorOf(before, FeedOf(b[j])).last {
        var d :| d in a && FeedOf(d) == FeedOf(b[j]) && CursorOf(after, FeedOf(b[j])).last == PositionOf(d);
        var i :| 0 <= i < |a| && a[i] == d;
        assert all[i] == d;
      }
    }
    forall i, j | 0 <= i < j < |b| && FeedOf(b[i]) == FeedOf(b[j])
      ensures Before(PositionOf(b[i]), PositionOf(b[j]))
    {
      assert all[|a| + i] == b[i] && all[|a| + j] == b[j];
    }
  }

  lemma InOrderPrefix(before: Cursors, a: seq<Event>, b: seq<Event>)
    requires InOrder(before, a + b)
    ensures InOrder(before, a)
  {
    var all := a + b;
    assert forall i :: 0 <= i < |a| ==> all[i] == a[i];
  }

  lemma CursorsStayWithin(before: Cursors, a: seq<Event>, mid: Cursors, b: seq<Event>, after: Cursors, f: Feed)
    requires CursorWithin(before, a, mid, f)
    requires CursorOf(after, f) == CursorAfter(mid, b, f)
    ensures CursorWithin(before, a + b, after, f)
  {
    EventsOfMembers(b, f);
    var sub := EventsOf(b, f);
    if sub == [] {
      if CursorOf(mid, f).last != CursorOf(before, f).last {
        var e :| e in a && FeedOf(e) == f && CursorOf(mid, f).last == PositionOf(e);
        assert e in a + b;
      }
    } else {
      var e := sub[|sub| - 1];
      assert e in sub && e in a + b;
    }
  }

  /** Safe whole-row batches in order replay exactly like their events one by one. */
  lemma {:induction false} ReplayIsOneByOne(specs: Specs, peer: string, st: Store, batches: seq<seq<Event>>)
    requires ValidTables(specs, st.tables) && InOrder(st.cursors, Joined(batches))
    requires forall b :: b in batches ==> FullTransaction(specs, peer, b) && SafeTransaction(peer, b)
    ensures Replayed(specs, st, batches).tables == OneByOne(specs, FullSyncMode, st.tables, Joined(batches))
    ensures forall f :: CursorWithin(st.cursors, Joined(batches), Replayed(specs, st, batches).cursors, f)
  {
    if batches != [] {
      var init, b := batches[..|batches| - 1], batches[|batches| - 1];
      assert b in batches && forall x :: x in init ==> x in batches;
      var done := Joined(init);
      InOrderPrefix(st.cursors, done, b);
      ReplayIsOneByOne(specs, peer, st, init);
      var mid := Replayed(specs, st, init);
      OneByOneValid(specs, st.tables, done);
      InOrderSplit(st.cursors, done, b, mid.cursors);
      CommitIsOneByOne(specs, FullSyncMode, peer, mid, b);
      OneByOneJoins(specs, st.tables, done, b);
      var after := Replayed(specs, st, batches);
      forall f
        ensures CursorWithin(st.cursors, Joined(batches), after.cursors, f)
      {
        CursorsStayWithin(st.cursors, done, mid.cursors, b, after.cursors, f);
      }
    }
  }

  lemma {:induction false} JoinedMembers(batches: seq<seq<Event>>, b: seq<Event>, e: Event)
    requires b in batches && e in b
    ensures e in Joined(batches)
  {
    var init, last := batches[..|batches| - 1], batches[|batches| - 1];
    if b != last {
      var i :| 0 <= i < |batches| && batches[i] == b;
      assert init[i] == b;
      JoinedMembers(init, b, e);
    }
  }

  /** The captured changes are whole-row events of one region. */
  lemma BatchIsFull(src: Source, from: nat, n: nat, batches: seq<seq<Event>>, b: seq<Event>)
    requires ValidSource(src) && from <= n <= |src.log| && Joined(batches) == src.log[from..n] && b in batches
    ensures FullTransaction(src.specs, src.peer, b)
  {
    forall e | e in b
      ensures e.table in src.specs && FullImage(src.specs[e.table], src.peer, e)
    {
      JoinedMembers(batches, b, e);
      var i :| from <= i < n && src.log[i] == e;
      assert ValidChange(src, i);
    }
  }

  // ---- the theorem ----

  /** The receiver has no rows of the source's region yet: a row is missing or another region's. */
  ghost predicate OnlyForeign(src: Source, tables: Tables) {
    forall name, k: Key :: name in src.specs ==>
      RowIn(tables, name, k) == None || Foreign(src.specs[name], src.peer, RowIn(tables, name, k))
  }

  lemma {:induction false} ForeignChunks(
    src: Source, limit: nat, tables: Tables, chunks: seq<Read>, name: string, k: Key)
    requires ValidSource(src) && name in src.specs && name in tables
    requires Foreign(src.specs[name], src.peer, RowIn(tables, name, k))
    ensures name in ChunksApplied(src, limit, tables, chunks)
    ensures RowIn(ChunksApplied(src, limit, tables, chunks), name, k) == RowIn(tables, name, k)
  {
    if chunks != [] {
      var init, r := chunks[..|chunks| - 1], chunks[|chunks| - 1];
      ForeignChunks(src, limit, tables, init, name, k);
      var before := ChunksApplied(src, limit, tables, init);
      ForeignChunk(src, before, r.name, ChunkRead(src, limit, r).rows, name, k);
    }
  }

  lemma ForeignChunk(src: Source, tables: Tables, target: string, rows: seq<SnapshotRow>, name: string, k: Key)
    requires src.peer != "" && name in src.specs && name in tables
    requires Foreign(src.specs[name], src.peer, RowIn(tables, name, k))
    ensures var after := ChunkApplied(src.specs, src.peer, tables, target, rows);
            name in after && RowIn(after, name, k) == RowIn(tables, name, k)
  {
    var run := [InboundChunk(target, rows)];
    ForeignRowsUntouched(src.specs, src.peer, Store(tables, map[]), run, name, k);
    assert run[..0] == [];
    assert ReceivedAll(src.specs, src.peer, Store(tables, map[]), run[..0]) == Store(tables, map[]);
  }

  lemma ForeignReplay(src: Source, tables: Tables, from: nat, n: nat, name: string, k: Key)
    requires ValidSource(src) && from <= n <= |src.log| && name in src.specs && name in tables
    requires Foreign(src.specs[name], src.peer, RowIn(tables, name, k))
    ensures RowIn(OneByOne(src.specs, FullSyncMode, tables, src.log[from..n]), name, k) == RowIn(tables, name, k)
  {
    OneByOneEvolves(src, tables, from, n, name, k);
    EvolvedForeign(src, name, k, RowIn(tables, name, k), from, n);
  }

  /** Chunks keep the schema. */
  lemma {:induction false} ChunksValid(src: Source, limit: nat, tables: Tables, chunks: seq<Read>)
    requires ValidTables(src.specs, tables)
    ensures ValidTables(src.specs, ChunksApplied(src, limit, tables, chunks))
  {
    if chunks != [] {
      var init, r := chunks[..|chunks| - 1], chunks[|chunks| - 1];
      ChunksValid(src, limit, tables, init);
      ChunkValid(src.specs, src.peer, ChunksApplied(src, limit, tables, init), r.name, ChunkRead(src, limit, r).rows);
    }
  }

  lemma ChunkValid(specs: Specs, peer: string, tables: Tables, name: string, rows: seq<SnapshotRow>)
    requires ValidTables(specs, tables)
    ensures ValidTables(specs, ChunkApplied(specs, peer, tables, name, rows))
  {
    if rows != [] && name in specs {
      var spec, upserts, t := specs[name], ChunkUpserts(peer, name, rows), tables[name];
      var cols := UpsertColumns(spec, upserts[0]);
      var u := Statement(spec, FullSyncMode, cols, upserts, t);
      forall k | k in u
        ensures u[k].Keys == spec.columns
      {
        StatementAt(spec, FullSyncMode, cols, upserts, t, k);
        if LastFor(upserts, k).Some? {
          EventCellValid(spec, FullSyncMode, cols, LastFor(upserts, k).value, CellAt(t, k));
        }
      }
    }
  }

  /** What the theorem promises of one key: foreign rows as before, all others as in the source. */
  predicate Converged(src: Source, n: nat, before: Tables, after: Tables, name: string, k: Key)
    requires n <= |src.log| && name in src.specs
  {
    RowIn(after, name, k)
    == if Foreign(src.specs[name], src.peer, RowIn(before, name, k)) then RowIn(before, name, k)
       else SourceCell(src, n, name, k)
  }

  /**
   Chunks read between two log points, in any order and any number, that answer for every key, then
   the log from the first point on, in safe batches up to any later point.
   */
  lemma FuzzySnapshotConverges(
    src: Source, st: Store, from: nat, to: nat, n: nat, limit: nat, chunks: seq<Read>, batches: seq<seq<Event>>)
    requires ValidSource(src) && from <= to <= n <= |src.log| && limit > 0
    requires ValidTables(src.specs, st.tables) && OnlyForeign(src, st.tables)
    requires forall r :: r in chunks ==> ValidRead(src, from, to, limit, r)
    requires forall name, k: Key :: name in src.specs && k != [] ==> Answered(src, limit, chunks, name, k)
    requires Joined(batches) == src.log[from..n] && InOrder(st.cursors, src.log[from..n])
    requires forall b :: b in batches ==> SafeTransaction(src.peer, b)
    ensures var bootstrapped := ChunksApplied(src, limit, st.tables, chunks);
            var after := Replayed(src.specs, Store(bootstrapped, st.cursors), batches).tables;
            forall name, k: Key :: name in src.specs && k != [] ==> Converged(src, n, st.tables, after, name, k)
  {
    var bootstrapped := ChunksApplied(src, limit, st.tables, chunks);
    var start := Store(bootstrapped, st.cursors);
    ChunksValid(src, limit, st.tables, chunks);
    forall b | b in batches
      ensures FullTransaction(src.specs, src.peer, b)
    {
      BatchIsFull(src, from, n, batches, b);
    }
    ReplayIsOneByOne(src.specs, src.peer, start, batches);
    var after := Replayed(src.specs, start, batches).tables;
    forall name, k: Key | name in src.specs && k != []
      ensures Converged(src, n, st.tables, after, name, k)
    {
      KeyConverges(src, st.tables, from, to, n, limit, chunks, name, k);
    }
  }

  lemma KeyConverges(
    src: Source, tables: Tables, from: nat, to: nat, n: nat, limit: nat, chunks: seq<Read>, name: string, k: Key)
    requires ValidSource(src) && from <= to <= n <= |src.log| && limit > 0 && name in src.specs && name in tables
    requires RowIn(tables, name, k) == None || Foreign(src.specs[name], src.peer, RowIn(tables, name, k))
    requires forall r :: r in chunks ==> ValidRead(src, from, to, limit, r)
    requires Answered(src, limit, chunks, name, k)
    ensures var bootstrapped := ChunksApplied(src, limit, tables, chunks);
            Converged(src, n, tables, OneByOne(src.specs, FullSyncMode, bootstrapped, src.log[from..n]), name, k)
  {
    var bootstrapped := ChunksApplied(src, limit, tables, chunks);
    if RowIn(tables, name, k) == None {
      ChunksLand(src, from, to, limit, tables, chunks, name, k);
      var m :| from <= m <= to && RowIn(bootstrapped, name, k) == SourceCell(src, m, name, k);
      ReplayCatchesUp(src, bootstrapped, from, m, n, name, k);
    } else {
      ForeignChunks(src, limit, tables, chunks, name, k);
      ForeignReplay(src, bootstrapped, from, n, name, k);
    }
  }
}
