/**
 Batched application of events (applyEventsBatch in internal/repository/postgres/events.go):
 the last event of every key, regrouped into upserts, updates and deletes.
 The main results say exactly when that agrees with applying the events one by one.
 */
module BatchApply {
  import opened PrimaryKeys
  import opened Rows

  // ---- deduplication ----

  /** byPK[pk] = event, with a new key appended to pkOrder. */
  function Replace(d: seq<Event>, e: Event): seq<Event> {
    if d == [] then [e] else if d[0].key == e.key then [e] + d[1..] else [d[0]] + Replace(d[1..], e)
  }

  /** The surviving events, in the order in which their keys first occur. */
  function Dedup(es: seq<Event>): seq<Event> {
    if es == [] then [] else Replace(Dedup(es[..|es| - 1]), es[|es| - 1])
  }

  /** The last event of a key. */
  function LastFor(es: seq<Event>, k: Key): Option<Event> {
    if es == [] then None
    else if es[|es| - 1].key == k then Some(es[|es| - 1])
    else LastFor(es[..|es| - 1], k)
  }

  predicate DistinctKeys(d: seq<Event>) {
    forall i, j :: 0 <= i < j < |d| ==> d[i].key != d[j].key
  }

  lemma {:induction false} LastForIsIn(es: seq<Event>, k: Key)
    ensures LastFor(es, k).Some? ==> LastFor(es, k).value in es && LastFor(es, k).value.key == k
    ensures LastFor(es, k).None? <==> forall e :: e in es ==> e.key != k
  {
    if es != [] {
      LastForIsIn(es[..|es| - 1], k);
      assert es == es[..|es| - 1] + [es[|es| - 1]];
    }
  }

  lemma {:induction false} LastForDistinct(d: seq<Event>, e: Event)
    requires DistinctKeys(d) && e in d
    ensures LastFor(d, e.key) == Some(e)
  {
    var last := d[|d| - 1];
    assert d == d[..|d| - 1] + [last];
    if last != e {
      LastForDistinct(d[..|d| - 1], e);
    }
  }

  lemma {:induction false} ReplaceDistinct(d: seq<Event>, e: Event)
    requires DistinctKeys(d)
    ensures DistinctKeys(Replace(d, e)) && e in Replace(d, e)
    ensures forall x :: x in Replace(d, e) <==> x == e || (x in d && x.key != e.key)
  {
    if d != [] {
      assert d == [d[0]] + d[1..];
      if d[0].key != e.key {
        ReplaceDistinct(d[1..], e);
      }
    }
  }

  /** Deduplication keeps, for every key of the batch, its last event and nothing else. */
  lemma {:induction false} DedupKeepsLast(es: seq<Event>)
    ensures DistinctKeys(Dedup(es))
    ensures forall x :: x in Dedup(es) <==> LastFor(es, x.key) == Some(x)
  {
    if es != [] {
      DedupKeepsLast(es[..|es| - 1]);
      ReplaceDistinct(Dedup(es[..|es| - 1]), es[|es| - 1]);
    }
  }

  // ---- regrouping ----

  function Upserts(d: seq<Event>): seq<Event> {
    if d == [] then []
    else Upserts(d[..|d| - 1]) + (if d[|d| - 1].op.Insert? || d[|d| - 1].op.Upsert? then [d[|d| - 1]] else [])
  }

  function Updates(d: seq<Event>): seq<Event> {
    if d == [] then []
    else Updates(d[..|d| - 1]) + (if d[|d| - 1].op.Update? then [d[|d| - 1]] else [])
  }

  function Deletes(d: seq<Event>): seq<Event> {
    if d == [] then []
    else Deletes(d[..|d| - 1]) + (if d[|d| - 1].op.Delete? then [d[|d| - 1]] else [])
  }

  /** The column list of the one upsert statement of a group: that of its first payload. */
  function GroupColumns(spec: TableSpec, es: seq<Event>): set<string> {
    var upserts := Upserts(Dedup(es));
    if upserts == [] then {} else UpsertColumns(spec, upserts[0])
  }

  function GroupCell(spec: TableSpec, mode: ApplyMode, es: seq<Event>, t: Table, k: Key): Option<Row> {
    match LastFor(es, k)
    case None => CellAt(t, k)
    case Some(e) => EventCell(spec, mode, GroupColumns(spec, es), e, CellAt(t, k))
  }

  function KeysOf(es: seq<Event>): set<Key> {
    set e | e in es :: e.key
  }

  /** A table after the batched application of the events of one (peer, table) group. */
  function GroupTable(spec: TableSpec, mode: ApplyMode, es: seq<Event>, t: Table): Table {
    map k | k in t.Keys + KeysOf(es) && GroupCell(spec, mode, es, t, k).Some? ::
      GroupCell(spec, mode, es, t, k).value
  }

  lemma GroupTableCell(spec: TableSpec, mode: ApplyMode, es: seq<Event>, t: Table, k: Key)
    ensures CellAt(GroupTable(spec, mode, es, t), k) == GroupCell(spec, mode, es, t, k)
  {
    LastForIsIn(es, k);
    if LastFor(es, k).Some? {
      assert k in KeysOf(es);
    }
  }

  // ---- batched against sequential ----

  /** Events of one sending region that carry whole rows, owned by the sender. */
  predicate FullImages(spec: TableSpec, peer: string, es: seq<Event>) {
    peer != "" && forall e :: e in es ==> FullImage(spec, peer, e)
  }

  predicate FullImage(spec: TableSpec, peer: string, e: Event) {
    && e.peer == peer
    && (!e.op.Delete? ==> e.fields.Keys == spec.columns)
    && (e.op.Update? && spec.regionField.Some? && spec.regionField.value in e.fields
        ==> e.fields[spec.regionField.value] == Val(peer))
  }

  /** Event i is an update, the last event of its key, and not all earlier ones of that key are updates. */
  predicate LostUpdate(es: seq<Event>, i: int)
    requires 0 <= i < |es|
  {
    && es[i].op.Update?
    && (forall m :: i < m < |es| ==> es[m].key != es[i].key)
    && exists j :: 0 <= j < i && es[j].key == es[i].key && !es[j].op.Update?
  }

  predicate BatchSafe(es: seq<Event>) {
    forall i :: 0 <= i < |es| ==> !LostUpdate(es, i)
  }

  /** A row that belongs to some other region. */
  predicate Foreign(spec: TableSpec, peer: string, cell: Option<Row>) {
    cell.Some? && spec.regionField.Some? && Owner(spec, cell.value) != Null && Owner(spec, cell.value) != Val(peer)
  }

  lemma CellStepForeign(spec: TableSpec, mode: ApplyMode, cols: set<string>, peer: string, e: Event, cell: Option<Row>)
    requires e.peer == peer && peer != "" && Foreign(spec, peer, cell)
    ensures EventCell(spec, mode, cols, e, cell) == cell
  {
    var payload := WithProvenance(spec, peer, e.fields);
    assert Populated(payload, spec.regionField.value) == Val(peer);
  }

  lemma CellStepHome(spec: TableSpec, mode: ApplyMode, peer: string, e: Event, cell: Option<Row>)
    requires ValidSpec(spec) && FullImage(spec, peer, e) && peer != "" && ValidCell(spec, cell)
    requires !mode.InsertOnlyMode? && !Foreign(spec, peer, cell)
    ensures var next := EventCell(spec, mode, spec.columns, e, cell);
            && !Foreign(spec, peer, next)
            && (e.op.Delete? ==> next == None)
            && (e.op.Insert? || e.op.Upsert? ==> next == Some(WithProvenance(spec, peer, e.fields)))
            && (e.op.Update? && cell.Some? && (spec.regionField.None? || Owner(spec, cell.value) == Val(peer))
                ==> next == Some(e.fields))
            && (e.op.Update? && cell.None? ==> next == None)
            && (e.op.Update? && cell.Some? ==>
                  next.Some? && (spec.regionField.Some? ==> Owner(spec, next.value) == Owner(spec, cell.value)))
            && (e.op.Update? && cell.Some? && spec.regionField.Some? && Owner(spec, cell.value) != Val(peer)
                ==> next == cell)
  {
    var payload := WithProvenance(spec, peer, e.fields);
    if !e.op.Delete? {
      assert payload.Keys == spec.columns;
      if cell.Some? {
        assert Overwritten(cell.value, spec.columns, payload) == payload;
        assert Overwritten(cell.value, spec.columns, e.fields) == e.fields;
        if spec.columns == {} {
          assert cell.value == map[] && payload == map[] && e.fields == map[];
        }
      } else {
        assert UpsertCell(spec, true, spec.columns, payload, None).value == payload;
      }
    }
  }

  lemma ColumnsOfFullImages(spec: TableSpec, peer: string, es: seq<Event>)
    requires ValidSpec(spec) && FullImages(spec, peer, es)
    ensures forall e :: e in es && (e.op.Insert? || e.op.Upsert?) ==> UpsertColumns(spec, e) == spec.columns
    ensures (exists e :: e in Dedup(es) && (e.op.Insert? || e.op.Upsert?)) ==> GroupColumns(spec, es) == spec.columns
  {
    UpsertsAre(Dedup(es));
    DedupKeepsLast(es);
    forall e | e in Dedup(es)
      ensures e in es
    {
      LastForIsIn(es, e.key);
    }
  }

  lemma {:induction false} UpsertsAre(d: seq<Event>)
    ensures forall e :: e in Upserts(d) <==> e in d && (e.op.Insert? || e.op.Upsert?)
  {
    if d != [] {
      UpsertsAre(d[..|d| - 1]);
      assert d == d[..|d| - 1] + [d[|d| - 1]];
    }
  }

  /** Sequential application never moves a row between the sender's rows and foreign ones. */
  lemma {:induction false} SequentialStaysHome(
    spec: TableSpec, mode: ApplyMode, peer: string, k: Key, cell: Option<Row>, es: seq<Event>)
    requires ValidSpec(spec) && FullImages(spec, peer, es) && ValidCell(spec, cell) && !mode.InsertOnlyMode?
    ensures var after := CellSequentially(spec, mode, k, cell, es);
            && ValidCell(spec, after)
            && (Foreign(spec, peer, cell) ==> after == cell)
            && (!Foreign(spec, peer, cell) ==> !Foreign(spec, peer, after))
  {
    if es != [] {
      var init, e := es[..|es| - 1], es[|es| - 1];
      assert e in es;
      assert FullImages(spec, peer, init) by {
        assert forall x :: x in init ==> x in es;
      }
      SequentialStaysHome(spec, mode, peer, k, cell, init);
      var before := CellSequentially(spec, mode, k, cell, init);
      EventCellValid(spec, mode, UpsertColumns(spec, e), e, before);
      if Foreign(spec, peer, cell) {
        CellStepForeign(spec, mode, UpsertColumns(spec, e), peer, e, before);
      } else {
        CellStepHome(spec, mode, peer, e, before);
      }
    }
  }

  /** Under updates alone a row exists or not, and is owned or not, as before. */
  lemma {:induction false} UpdatesKeepPresence(
    spec: TableSpec, mode: ApplyMode, peer: string, k: Key, cell: Option<Row>, es: seq<Event>)
    requires ValidSpec(spec) && FullImages(spec, peer, es) && ValidCell(spec, cell) && !mode.InsertOnlyMode?
    requires !Foreign(spec, peer, cell)
    requires forall e :: e in es && e.key == k ==> e.op.Update?
    ensures var after := CellSequentially(spec, mode, k, cell, es);
            && !Foreign(spec, peer, after) && ValidCell(spec, after)
            && (after.Some? <==> cell.Some?)
            && (cell.Some? && spec.regionField.Some? ==> Owner(spec, after.value) == Owner(spec, cell.value))
            && (cell.Some? && spec.regionField.Some? && Owner(spec, cell.value) == Null ==> after == cell)
  {
    if es != [] {
      var init, e := es[..|es| - 1], es[|es| - 1];
      assert e in es;
      assert forall x :: x in init ==> x in es;
      UpdatesKeepPresence(spec, mode, peer, k, cell, init);
      var before := CellSequentially(spec, mode, k, cell, init);
      EventCellValid(spec, mode, UpsertColumns(spec, e), e, before);
      if e.key == k {
        CellStepHome(spec, mode, peer, e, before);
      }
    }
  }

  lemma {:induction false} CellSkips(
    spec: TableSpec, mode: ApplyMode, k: Key, cell: Option<Row>, es: seq<Event>, n: int)
    requires 0 <= n <= |es|
    requires forall i :: n <= i < |es| ==> es[i].key != k
    ensures CellSequentially(spec, mode, k, cell, es) == CellSequentially(spec, mode, k, cell, es[..n])
    decreases |es|
  {
    if n < |es| {
      CellSkips(spec, mode, k, cell, es[..|es| - 1], n);
      assert es[..|es| - 1][..n] == es[..n];
    } else {
      assert es[..n] == es;
    }
  }

  lemma {:induction false} CellSplits(
    spec: TableSpec, mode: ApplyMode, k: Key, cell: Option<Row>, es: seq<Event>, n: int)
    requires 0 <= n <= |es|
    ensures CellSequentially(spec, mode, k, cell, es)
         == CellSequentially(spec, mode, k, CellSequentially(spec, mode, k, cell, es[..n]), es[n..])
    decreases |es|
  {
    if n < |es| {
      CellSplits(spec, mode, k, cell, es[..|es| - 1], n);
      assert es[..|es| - 1][..n] == es[..n];
      assert es[n..][..|es[n..]| - 1] == es[..|es| - 1][n..];
    } else {
      assert es[..n] == es && es[n..] == [];
    }
  }

  /** The position of the last event of a key. */
  lemma {:induction false} LastIndex(es: seq<Event>, k: Key) returns (i: int)
    requires LastFor(es, k).Some?
    ensures 0 <= i < |es| && es[i] == LastFor(es, k).value && es[i].key == k
    ensures forall j :: i < j < |es| ==> es[j].key != k
  {
    if es[|es| - 1].key == k {
      i := |es| - 1;
    } else {
      i := LastIndex(es[..|es| - 1], k);
    }
  }

  lemma SafeBatchCell(
    spec: TableSpec, mode: ApplyMode, peer: string, es: seq<Event>, cell: Option<Row>, k: Key)
    requires ValidSpec(spec) && FullImages(spec, peer, es) && !mode.InsertOnlyMode? && ValidCell(spec, cell)
    requires BatchSafe(es) && LastFor(es, k).Some?
    ensures CellSequentially(spec, mode, k, cell, es)
         == EventCell(spec, mode, GroupColumns(spec, es), LastFor(es, k).value, cell)
  {
    var i := LastIndex(es, k);
    var e := es[i];
    var before := CellSequentially(spec, mode, k, cell, es[..i]);
    CellSkips(spec, mode, k, cell, es, i + 1);
    assert es[..i + 1][..i] == es[..i];
    assert forall x :: x in es[..i] ==> x in es;
    SequentialStaysHome(spec, mode, peer, k, cell, es[..i]);
    ColumnsOfFullImages(spec, peer, es);
    DedupKeepsLast(es);
    if Foreign(spec, peer, cell) {
      CellStepForeign(spec, mode, UpsertColumns(spec, e), peer, e, cell);
      CellStepForeign(spec, mode, GroupColumns(spec, es), peer, e, cell);
    } else {
      CellStepHome(spec, mode, peer, e, before);
      CellStepHome(spec, mode, peer, e, cell);
      if e.op.Update? {
        assert !LostUpdate(es, i);
        UpdatesKeepPresence(spec, mode, peer, k, cell, es[..i]);
      }
    }
  }

  /** A safe batch gives the table that one-by-one application gives. */
  lemma SafeBatchRefinesSequential(spec: TableSpec, mode: ApplyMode, peer: string, es: seq<Event>, t: Table)
    requires ValidSpec(spec) && FullImages(spec, peer, es) && !mode.InsertOnlyMode? && ValidTable(spec, t)
    requires BatchSafe(es)
    ensures GroupTable(spec, mode, es, t) == ApplySequentially(spec, mode, t, es)
  {
    forall k
      ensures CellAt(GroupTable(spec, mode, es, t), k) == CellAt(ApplySequentially(spec, mode, t, es), k)
    {
      GroupTableCell(spec, mode, es, t, k);
      SequentialCell(spec, mode, t, es, k);
      LastForIsIn(es, k);
      if LastFor(es, k).Some? {
        SafeBatchCell(spec, mode, peer, es, CellAt(t, k), k);
      } else {
        CellSkips(spec, mode, k, CellAt(t, k), es, 0);
      }
    }
    TablesEqual(GroupTable(spec, mode, es, t), ApplySequentially(spec, mode, t, es));
  }

  /** The latest event before i that has the key and is no update. */
  lemma {:induction false} LatestWrite(es: seq<Event>, k: Key, n: int) returns (j: int)
    requires 0 <= n <= |es|
    requires exists j :: 0 <= j < n && es[j].key == k && !es[j].op.Update?
    ensures 0 <= j < n && es[j].key == k && !es[j].op.Update?
    ensures forall m :: j < m < n && es[m].key == k ==> es[m].op.Update?
    decreases n
  {
    if es[n - 1].key == k && !es[n - 1].op.Update? {
      j := n - 1;
    } else {
      j := LatestWrite(es, k, n - 1);
    }
  }

  /** Whether a row exists in the end is decided by the latest event of its key that is no update. */
  lemma PresenceAfterLatestWrite(
    spec: TableSpec, mode: ApplyMode, peer: string, k: Key, cell: Option<Row>, es: seq<Event>, j: int)
    requires ValidSpec(spec) && FullImages(spec, peer, es) && !mode.InsertOnlyMode?
    requires ValidCell(spec, cell) && !Foreign(spec, peer, cell)
    requires 0 <= j < |es| && es[j].key == k && !es[j].op.Update?
    requires forall m :: j < m < |es| && es[m].key == k ==> es[m].op.Update?
    ensures CellSequentially(spec, mode, k, cell, es).Some? <==> !es[j].op.Delete?
  {
    var before := CellSequentially(spec, mode, k, cell, es[..j]);
    var mid := CellSequentially(spec, mode, k, cell, es[..j + 1]);
    assert es[j] in es && forall x :: x in es[..j] ==> x in es;
    SequentialStaysHome(spec, mode, peer, k, cell, es[..j]);
    CellStepHome(spec, mode, peer, es[j], before);
    EventCellValid(spec, mode, UpsertColumns(spec, es[j]), es[j], before);
    assert es[..j + 1][..j] == es[..j];
    ColumnsOfFullImages(spec, peer, es);
    assert forall x :: x in es[j + 1..] ==> x in es;
    UpdatesKeepPresence(spec, mode, peer, k, mid, es[j + 1..]);
    CellSplits(spec, mode, k, cell, es, j + 1);
  }

  /** A batch with a lost update differs from one-by-one application on some table. */
  lemma LostUpdateDiverges(spec: TableSpec, mode: ApplyMode, peer: string, es: seq<Event>, i: int)
    returns (t: Table)
    requires ValidSpec(spec) && FullImages(spec, peer, es) && !mode.InsertOnlyMode?
    requires 0 <= i < |es| && LostUpdate(es, i)
    ensures ValidTable(spec, t)
    ensures GroupTable(spec, mode, es, t) != ApplySequentially(spec, mode, t, es)
  {
    var k := es[i].key;
    var j := LatestWrite(es, k, i);
    assert es[i] in es;
    t := if es[j].op.Delete? then map[k := es[i].fields] else map[];
    PresenceAfterLatestWrite(spec, mode, peer, k, CellAt(t, k), es, j);
    SequentialCell(spec, mode, t, es, k);
    GroupTableCell(spec, mode, es, t, k);
    LastAt(es, i);
    CellStepHome(spec, mode, peer, es[i], CellAt(t, k));
  }

  lemma {:induction false} LastAt(es: seq<Event>, i: int)
    requires 0 <= i < |es| && forall m :: i < m < |es| ==> es[m].key != es[i].key
    ensures LastFor(es, es[i].key) == Some(es[i])
    decreases |es|
  {
    if i < |es| - 1 {
      LastAt(es[..|es| - 1], i);
    }
  }

  predicate BatchAgrees(spec: TableSpec, mode: ApplyMode, es: seq<Event>, t: Table) {
    GroupTable(spec, mode, es, t) == ApplySequentially(spec, mode, t, es)
  }

  /**
   For whole-row events of one region, batched application agrees with one-by-one application
   on every table exactly when no key ends in an update that follows an insert, upsert or
   delete of that key in the same batch.
   */
  lemma BatchRefinesSequentialIff(spec: TableSpec, mode: ApplyMode, peer: string, es: seq<Event>)
    requires ValidSpec(spec) && FullImages(spec, peer, es) && !mode.InsertOnlyMode?
    ensures BatchSafe(es) <==> forall t :: ValidTable(spec, t) ==> BatchAgrees(spec, mode, es, t)
  {
    if BatchSafe(es) {
      forall t | ValidTable(spec, t)
        ensures BatchAgrees(spec, mode, es, t)
      {
        SafeBatchRefinesSequential(spec, mode, peer, es, t);
      }
    } else {
      var i :| 0 <= i < |es| && LostUpdate(es, i);
      var t := LostUpdateDiverges(spec, mode, peer, es, i);
      assert !BatchAgrees(spec, mode, es, t);
    }
  }
}
