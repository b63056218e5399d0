/**
 The receiver's repository as the source writes it: group maps filled in place, one statement per
 group, cursors locked, advanced and saved (internal/repository/postgres/events.go, state_events.go).
 */
module Repositories {
  import opened PrimaryKeys
  import opened Rows
  import opened BatchApply
  import opened Commit

  // ---- statements over several rows ----

  function StatementCell(
    spec: TableSpec, mode: ApplyMode, cols: set<string>, d: seq<Event>, t: Table, k: Key): Option<Row>
  {
    match LastFor(d, k)
    case None => CellAt(t, k)
    case Some(e) => EventCell(spec, mode, cols, e, CellAt(t, k))
  }

  /** One statement applied to the rows of events with distinct keys. */
  function Statement(spec: TableSpec, mode: ApplyMode, cols: set<string>, d: seq<Event>, t: Table): Table {
    map k | k in t.Keys + KeysOf(d) && StatementCell(spec, mode, cols, d, t, k).Some? ::
      StatementCell(spec, mode, cols, d, t, k).value
  }

  lemma StatementAt(spec: TableSpec, mode: ApplyMode, cols: set<string>, d: seq<Event>, t: Table, k: Key)
    ensures CellAt(Statement(spec, mode, cols, d, t), k) == StatementCell(spec, mode, cols, d, t, k)
  {
    LastForIsIn(d, k);
    if LastFor(d, k).Some? {
      assert k in KeysOf(d);
    }
  }

  lemma {:induction false} UpsertsDistinct(d: seq<Event>)
    requires DistinctKeys(d)
    ensures DistinctKeys(Upserts(d))
  {
    if d != [] {
      UpsertsDistinct(d[..|d| - 1]);
      UpsertsAre(d[..|d| - 1]);
    }
  }

  lemma {:induction false} UpdatesAre(d: seq<Event>)
    requires DistinctKeys(d)
    ensures DistinctKeys(Updates(d))
    ensures forall e :: e in Updates(d) <==> e in d && e.op.Update?
  {
    if d != [] {
      UpdatesAre(d[..|d| - 1]);
      assert d == d[..|d| - 1] + [d[|d| - 1]];
    }
  }

  lemma {:induction false} DeletesAre(d: seq<Event>)
    requires DistinctKeys(d)
    ensures DistinctKeys(Deletes(d))
    ensures forall e :: e in Deletes(d) <==> e in d && e.op.Delete?
  {
    if d != [] {
      DeletesAre(d[..|d| - 1]);
      assert d == d[..|d| - 1] + [d[|d| - 1]];
    }
  }

  lemma Selections(d: seq<Event>)
    requires DistinctKeys(d)
    ensures DistinctKeys(Upserts(d)) && DistinctKeys(Updates(d)) && DistinctKeys(Deletes(d))
    ensures forall e :: e in Upserts(d) <==> e in d && (e.op.Insert? || e.op.Upsert?)
    ensures forall e :: e in Updates(d) <==> e in d && e.op.Update?
    ensures forall e :: e in Deletes(d) <==> e in d && e.op.Delete?
  {
    UpsertsDistinct(d);
    UpsertsAre(d);
    UpdatesAre(d);
    DeletesAre(d);
  }

  lemma SelectedLast(d: seq<Event>, sub: seq<Event>, k: Key)
    requires DistinctKeys(d) && DistinctKeys(sub) && forall e :: e in sub ==> e in d
    ensures LastFor(sub, k) == if LastFor(d, k).Some? && LastFor(d, k).value in sub then LastFor(d, k) else None
  {
    LastForIsIn(d, k);
    LastForIsIn(sub, k);
    if LastFor(sub, k).Some? {
      LastForDistinct(d, LastFor(sub, k).value);
    }
  }

  /** Three statements over disjoint sets of keys act on every key at most once. */
  lemma ThreeStatementsAt(
    spec: TableSpec, mode: ApplyMode, cols: set<string>, d: seq<Event>,
    ups: seq<Event>, upd: seq<Event>, del: seq<Event>, t: Table, k: Key)
    requires DistinctKeys(d) && DistinctKeys(ups) && DistinctKeys(upd) && DistinctKeys(del)
    requires forall e :: e in ups <==> e in d && (e.op.Insert? || e.op.Upsert?)
    requires forall e :: e in upd <==> e in d && e.op.Update?
    requires forall e :: e in del <==> e in d && e.op.Delete?
    ensures CellAt(Statement(spec, mode, {}, del,
                     Statement(spec, mode, {}, upd, Statement(spec, mode, cols, ups, t))), k)
         == StatementCell(spec, mode, cols, d, t, k)
  {
    var t1 := Statement(spec, mode, cols, ups, t);
    var t2 := Statement(spec, mode, {}, upd, t1);
    StatementAt(spec, mode, cols, ups, t, k);
    StatementAt(spec, mode, {}, upd, t1, k);
    StatementAt(spec, mode, {}, del, t2, k);
    SelectedLast(d, ups, k);
    SelectedLast(d, upd, k);
    SelectedLast(d, del, k);
    LastForIsIn(d, k);
  }

  /** Upserts, then updates, then deletes of the surviving events make the group's table. */
  lemma ThreeStatements(spec: TableSpec, mode: ApplyMode, es: seq<Event>, t: Table)
    ensures var d := Dedup(es);
            GroupTable(spec, mode, es, t) ==
              Statement(spec, mode, {}, Deletes(d),
                Statement(spec, mode, {}, Updates(d), Statement(spec, mode, GroupColumns(spec, es), Upserts(d), t)))
  {
    var d, cols := Dedup(es), GroupColumns(spec, es);
    var t3 := Statement(spec, mode, {}, Deletes(d),
                Statement(spec, mode, {}, Updates(d), Statement(spec, mode, cols, Upserts(d), t)));
    DedupKeepsLast(es);
    Selections(d);
    forall k
      ensures CellAt(GroupTable(spec, mode, es, t), k) == CellAt(t3, k)
    {
      GroupTableCell(spec, mode, es, t, k);
      ThreeStatementsAt(spec, mode, cols, d, Upserts(d), Updates(d), Deletes(d), t, k);
      LastForIsIn(es, k);
      LastForIsIn(d, k);
      if LastFor(es, k).Some? {
        LastForDistinct(d, LastFor(es, k).value);
      }
    }
    TablesEqual(GroupTable(spec, mode, es, t), t3);
  }

  lemma {:induction false} ReplaceAt(d: seq<Event>, e: Event)
    requires DistinctKeys(d)
    ensures forall i :: 0 <= i < |d| && d[i].key == e.key ==> Replace(d, e) == d[i := e]
    ensures (forall x :: x in d ==> x.key != e.key) ==> Replace(d, e) == d + [e]
  {
    if d != [] && d[0].key != e.key {
      ReplaceAt(d[1..], e);
    }
  }

  lemma SplitUpdates(
    spec: TableSpec, mode: ApplyMode, done: seq<Event>, group: seq<Event>, t: Table, cols: set<string>)
    requires DistinctKeys(done + group)
    ensures Statement(spec, mode, cols, group, Statement(spec, mode, cols, done, t))
         == Statement(spec, mode, cols, done + group, t)
  {
    var all := done + group;
    var t1 := Statement(spec, mode, cols, done, t);
    assert forall i :: 0 <= i < |done| ==> all[i] == done[i];
    assert forall i :: 0 <= i < |group| ==> all[|done| + i] == group[i];
    assert DistinctKeys(done) && DistinctKeys(group);
    forall k
      ensures CellAt(Statement(spec, mode, cols, group, t1), k) == CellAt(Statement(spec, mode, cols, all, t), k)
    {
      StatementAt(spec, mode, cols, done, t, k);
      StatementAt(spec, mode, cols, group, t1, k);
      StatementAt(spec, mode, cols, all, t, k);
      SelectedLast(all, done, k);
      SelectedLast(all, group, k);
      LastForIsIn(all, k);
    }
    TablesEqual(Statement(spec, mode, cols, group, t1), Statement(spec, mode, cols, all, t));
  }

  lemma SameRowAt(
    spec: TableSpec, mode: ApplyMode, a: seq<Event>, b: seq<Event>, t: Table, colsA: set<string>, colsB: set<string>,
    k: Key)
    requires DistinctKeys(a) && DistinctKeys(b) && forall e :: e in a <==> e in b
    requires forall e :: e in a ==> e.op.Update? || e.op.Delete?
    ensures CellAt(Statement(spec, mode, colsA, a, t), k) == CellAt(Statement(spec, mode, colsB, b, t), k)
  {
    StatementAt(spec, mode, colsA, a, t, k);
    StatementAt(spec, mode, colsB, b, t, k);
    SameLast(a, b, k);
    LastForIsIn(a, k);
  }

  lemma SameLast(a: seq<Event>, b: seq<Event>, k: Key)
    requires DistinctKeys(a) && DistinctKeys(b) && forall e :: e in a <==> e in b
    ensures LastFor(a, k) == LastFor(b, k)
  {
    SelectedLast(a, b, k);
    LastForIsIn(a, k);
  }

  /** The order of rows in a statement does not matter, nor does the column list of updates. */
  lemma SameRows(
    spec: TableSpec, mode: ApplyMode, a: seq<Event>, b: seq<Event>, t: Table, colsA: set<string>, colsB: set<string>)
    requires DistinctKeys(a) && DistinctKeys(b) && forall e :: e in a <==> e in b
    requires forall e :: e in a ==> e.op.Update? || e.op.Delete?
    ensures Statement(spec, mode, colsA, a, t) == Statement(spec, mode, colsB, b, t)
  {
    forall k
      ensures CellAt(Statement(spec, mode, colsA, a, t), k) == CellAt(Statement(spec, mode, colsB, b, t), k)
    {
      SameRowAt(spec, mode, a, b, t, colsA, colsB, k);
    }
    TablesEqual(Statement(spec, mode, colsA, a, t), Statement(spec, mode, colsB, b, t));
  }

  // ---- the repository ----

  /** The tables after one statement on one of them. */
  function Rewritten(
    specs: Specs, mode: ApplyMode, tables: Tables, name: string, cols: set<string>, d: seq<Event>): Tables
  {
    if name in specs && name in tables
    then tables[name := Statement(specs[name], mode, cols, d, tables[name])]
    else tables
  }

  lemma RewrittenNothing(
    specs: Specs, mode: ApplyMode, tables: Tables, name: string, cols: set<string>, d: seq<Event>)
    requires d == [] || (mode.InsertOnlyMode? && forall e :: e in d ==> e.op.Update?)
    ensures Rewritten(specs, mode, tables, name, cols, d) == tables
  {
    if name in specs && name in tables {
      var t := tables[name];
      forall k
        ensures CellAt(Statement(specs[name], mode, cols, d, t), k) == CellAt(t, k)
      {
        StatementAt(specs[name], mode, cols, d, t, k);
        LastForIsIn(d, k);
      }
      TablesEqual(Statement(specs[name], mode, cols, d, t), t);
    }
  }

  lemma RewrittenTwice(
    specs: Specs, mode: ApplyMode, tables: Tables, name: string, done: seq<Event>, group: seq<Event>)
    requires DistinctKeys(done + group)
    ensures Rewritten(specs, mode, Rewritten(specs, mode, tables, name, {}, done), name, {}, group)
         == Rewritten(specs, mode, tables, name, {}, done + group)
  {
    if name in specs && name in tables {
      SplitUpdates(specs[name], mode, done, group, tables[name], {});
    }
  }

  lemma RewrittenSame(specs: Specs, mode: ApplyMode, tables: Tables, name: string, a: seq<Event>, b: seq<Event>)
    requires DistinctKeys(a) && DistinctKeys(b) && forall e :: e in a <==> e in b
    requires forall e :: e in a ==> e.op.Update?
    ensures Rewritten(specs, mode, tables, name, {}, a) == Rewritten(specs, mode, tables, name, {}, b)
  {
    if name in specs && name in tables {
      SameRows(specs[name], mode, a, b, tables[name], {}, {});
    }
  }

  /** The groups of a partial update: every event in the group of its column set, in order. */
  ghost predicate ColumnGroups(events: seq<Event>, order: seq<set<string>>, groups: map<set<string>, seq<Event>>) {
    && (forall c :: c in order <==> c in groups)
    && (forall a, b :: 0 <= a < b < |order| ==> order[a] != order[b])
    && (forall c :: c in groups ==> groups[c] != [] && DistinctKeys(groups[c]))
    && (forall c, e :: c in groups && e in groups[c] ==> e in events && e.fields.Keys == c)
    && (forall e :: e in events ==> e.fields.Keys in groups && e in groups[e.fields.Keys])
  }

  method GroupByColumns(events: seq<Event>)
    returns (groupOrder: seq<set<string>>, groups: map<set<string>, seq<Event>>)
    requires DistinctKeys(events)
    ensures ColumnGroups(events, groupOrder, groups)
  {
    groupOrder := [];
    groups := map[];
    for i := 0 to |events|
      invariant ColumnGroups(events[..i], groupOrder, groups)
    {
      var e := events[i];
      var key := e.fields.Keys;
      assert events[..i + 1] == events[..i] + [e];
      ColumnGroupsGrow(events[..i], e, groupOrder, groups);
      if key !in groups {
        groupOrder := groupOrder + [key];
        groups := groups[key := [e]];
      } else {
        groups := groups[key := groups[key] + [e]];
      }
    }
    assert events[..|events|] == events;
  }

  lemma ColumnGroupsGrow(
    done: seq<Event>, e: Event, order: seq<set<string>>, groups: map<set<string>, seq<Event>>)
    requires ColumnGroups(done, order, groups) && forall x :: x in done ==> x.key != e.key
    ensures var key := e.fields.Keys;
            if key !in groups then ColumnGroups(done + [e], order + [key], groups[key := [e]])
            else ColumnGroups(done + [e], order, groups[key := groups[key] + [e]])
  {
    var key, all := e.fields.Keys, done + [e];
    if key in groups {
      var group, next := groups[key] + [e], groups[key := groups[key] + [e]];
      assert forall x :: x in groups[key] ==> x.key != e.key;
      assert DistinctKeys(group);
      forall c, x | c in next && x in next[c]
        ensures x in all && x.fields.Keys == c
      {
        assert x == e || (c in groups && x in groups[c]);
      }
      forall x | x in all
        ensures x.fields.Keys in next && x in next[x.fields.Keys]
      {
        assert x == e || x in done;
      }
    }
  }

  /** One (peer, table) group while it is filled: pkOrder and byPK. */
  datatype Group = Group(pkOrder: seq<Key>, byPK: map<Key, Event>)

  predicate GroupHolds(g: Group, d: seq<Event>) {
    && |g.pkOrder| == |d|
    && (forall i :: 0 <= i < |d| ==> g.pkOrder[i] == d[i].key)
    && (forall i :: 0 <= i < |d| ==> d[i].key in g.byPK && g.byPK[d[i].key] == d[i])
    && (forall k :: k in g.byPK ==> k in g.pkOrder)
  }

  class Repository {
    const specs: Specs
    var tables: Tables
    var cursors: Cursors

    constructor (specs: Specs, tables: Tables)
      requires specs.Keys <= tables.Keys
      ensures Valid() && this.specs == specs && this.tables == tables && this.cursors == map[]
    {
      this.specs := specs;
      this.tables := tables;
      this.cursors := map[];
    }

    predicate Valid()
      reads this
    {
      specs.Keys <= tables.Keys
    }

    function Contents(): Store
      reads this
    {
      Store(tables, cursors)
    }

    /** One INSERT ... ON CONFLICT statement; its column list is that of the first payload. */
    method ApplyUpsertBatch(events: seq<Event>, mode: ApplyMode) returns (ok: bool)
      requires Valid() && events != [] && DistinctKeys(events)
      modifies this`tables
      ensures Valid()
      ensures ok <==> var name := events[0].table;
                      name in specs && UpsertColumns(specs[name], events[0]) <= specs[name].columns
      ensures ok ==> var name := events[0].table;
                     tables == Rewritten(specs, mode, old(tables), name, UpsertColumns(specs[name], events[0]), events)
      ensures !ok ==> tables == old(tables)
    {
      var name := events[0].table;
      if name !in specs {
        return false;
      }
      var spec := specs[name];
      var cols := UpsertColumns(spec, events[0]);
      if !(cols <= spec.columns) {
        return false;
      }
      tables := tables[name := Statement(spec, mode, cols, events, tables[name])];
      return true;
    }

    /** One UPDATE statement for the events of one column set. */
    method ApplyPartialUpdateGroup(events: seq<Event>, mode: ApplyMode) returns (ok: bool)
      requires Valid() && events != [] && DistinctKeys(events)
      requires forall e :: e in events ==> e.op.Update? && e.fields.Keys == events[0].fields.Keys
      modifies this`tables
      ensures Valid()
      ensures ok <==> var name := events[0].table; name in specs && events[0].fields.Keys <= specs[name].columns
      ensures ok ==> tables == Rewritten(specs, mode, old(tables), events[0].table, {}, events)
    {
      var name := events[0].table;
      if name !in specs || !(events[0].fields.Keys <= specs[name].columns) {
        return false;
      }
      tables := tables[name := Statement(specs[name], mode, {}, events, tables[name])];
      return true;
    }

    /** Partial updates grouped by their column set, one statement a group. */
    method ApplyPartialUpdateBatch(events: seq<Event>, mode: ApplyMode) returns (ok: bool)
      requires Valid() && events != [] && DistinctKeys(events)
      requires forall e :: e in events ==> e.op.Update? && e.table == events[0].table
      modifies this`tables
      ensures Valid()
      ensures ok <==> mode.InsertOnlyMode? || UpdatesListed(specs, events)
      ensures ok ==> tables == Rewritten(specs, mode, old(tables), events[0].table, {}, events)
    {
      if mode.InsertOnlyMode? {
        RewrittenNothing(specs, mode, tables, events[0].table, {}, events);
        return true;
      }
      var groupOrder, groups := GroupByColumns(events);
      ghost var name, before, done := events[0].table, tables, [];
      RewrittenNothing(specs, mode, tables, name, {}, []);
      for j := 0 to |groupOrder|
        invariant Valid()
        invariant GroupsDone(events, groupOrder, j, done)
        invariant UpdatesListed(specs, done)
        invariant tables == Rewritten(specs, mode, before, name, {}, done)
      {
        var group := groups[groupOrder[j]];
        assert group[0] in group && group[0] in events;
        ok := ApplyPartialUpdateGroup(group, mode);
        if !ok {
          return;
        }
        NextGroupDone(events, groupOrder, groups, j, done);
        RewrittenTwice(specs, mode, before, name, done, group);
        done := done + group;
      }
      AllGroupsDone(events, groupOrder, groups, done);
      RewrittenSame(specs, mode, before, name, done, events);
      return true;
    }

    /** One DELETE statement. */
    method ApplyDeleteBatch(events: seq<Event>, mode: ApplyMode) returns (ok: bool)
      requires Valid() && events != [] && DistinctKeys(events)
      modifies this`tables
      ensures Valid()
      ensures ok <==> events[0].table in specs
      ensures ok ==> tables == Rewritten(specs, mode, old(tables), events[0].table, {}, events)
    {
      var name := events[0].table;
      if name !in specs {
        return false;
      }
      tables := tables[name := Statement(specs[name], mode, {}, events, tables[name])];
      return true;
    }

    /** The statement of one kind of operation, issued only if there are such events. */
    method ApplyUpserts(f: Feed, events: seq<Event>, mode: ApplyMode) returns (ok: bool)
      requires Valid() && DistinctKeys(events) && OfFeed(events, f)
      modifies this`tables
      ensures Valid()
      ensures ok <==> (events != [] ==>
                         f.table in specs && FirstColumns(specs, f, events) <= specs[f.table].columns)
      ensures ok ==> tables == Rewritten(specs, mode, old(tables), f.table, FirstColumns(specs, f, events), events)
    {
      if |events| == 0 {
        RewrittenNothing(specs, mode, tables, f.table, FirstColumns(specs, f, events), events);
        return true;
      }
      assert events[0] in events;
      ok := ApplyUpsertBatch(events, mode);
    }

    method ApplyUpdates(f: Feed, events: seq<Event>, mode: ApplyMode) returns (ok: bool)
      requires Valid() && DistinctKeys(events) && OfFeed(events, f) && forall e :: e in events ==> e.op.Update?
      modifies this`tables
      ensures Valid()
      ensures ok <==> mode.InsertOnlyMode? || UpdatesListed(specs, events)
      ensures ok ==> tables == Rewritten(specs, mode, old(tables), f.table, {}, events)
    {
      if |events| == 0 {
        RewrittenNothing(specs, mode, tables, f.table, {}, events);
        return true;
      }
      assert events[0] in events;
      ok := ApplyPartialUpdateBatch(events, mode);
    }

    method ApplyDeletes(f: Feed, events: seq<Event>, mode: ApplyMode) returns (ok: bool)
      requires Valid() && DistinctKeys(events) && OfFeed(events, f)
      modifies this`tables
      ensures Valid()
      ensures ok <==> (events != [] ==> f.table in specs)
      ensures ok ==> tables == Rewritten(specs, mode, old(tables), f.table, {}, events)
    {
      if |events| == 0 {
        RewrittenNothing(specs, mode, tables, f.table, {}, events);
        return true;
      }
      assert events[0] in events;
      ok := ApplyDeleteBatch(events, mode);
    }

    /** The upserts, then the updates, then the deletes of one group. */
    method ApplyGroup(g: Group, f: Feed, ghost es: seq<Event>, mode: ApplyMode) returns (ok: bool)
      requires Valid() && GroupHolds(g, Dedup(es)) && OfFeed(es, f)
      modifies this`tables
      ensures Valid()
      ensures ok <==> GroupApplicable(specs, mode, f, es)
      ensures ok ==> tables == GroupApplied(specs, mode, old(tables), f, es)
    {
      var upserts, updates, deletes := Partition(g, Dedup(es));
      SurvivorsOfFeed(es, f);
      GroupInStatements(specs, mode, tables, f, es);
      ok := ApplyUpserts(f, upserts, mode);
      if !ok {
        return;
      }
      ok := ApplyUpdates(f, updates, mode);
      if !ok {
        return;
      }
      ok := ApplyDeletes(f, deletes, mode);
    }

    /** All groups of a batch, in the order in which their feeds first occur. */
    method ApplyEventsBatch(events: seq<Event>, mode: ApplyMode) returns (ok: bool)
      requires Valid()
      modifies this`tables
      ensures Valid()
      ensures ok <==> BatchApplicable(specs, mode, events)
      ensures ok ==> tables == ApplyBatch(specs, mode, old(tables), events)
    {
      var groupOrder, groups := FillGroups(events);
      for i := 0 to |groupOrder|
        invariant Valid()
        invariant tables == ApplyGroups(specs, mode, old(tables), events, groupOrder[..i])
        invariant GroupsApplicable(specs, mode, events, groupOrder[..i])
      {
        var f := groupOrder[i];
        FeedMembers(events, f);
        assert f in groupOrder && FeedHolds(groups[f], events, f);
        ok := ApplyGroup(groups[f], f, EventsOf(events, f), mode);
        if !ok {
          return;
        }
        NextGroup(specs, mode, old(tables), events, groupOrder, i);
      }
      assert groupOrder[..|groupOrder|] == groupOrder;
      return true;
    }

    /** Creates the cursor row if it is missing, and reads it under lock. */
    method GetStateCursorForUpdate(f: Feed) returns (cursor: Cursor)
      modifies this`cursors
      ensures cursor == CursorOf(old(cursors), f)
      ensures cursors == old(cursors)[f := cursor]
    {
      if f !in cursors {
        cursors := cursors[f := INITIAL_CURSOR];
      }
      cursor := cursors[f];
      assert cursors == cursors[f := cursor];
    }

    method LockCursors(events: seq<Event>) returns (lockedCursors: Cursors)
      modifies this`cursors
      ensures cursors == Locked(old(cursors), events)
      ensures lockedCursors.Keys == FeedsOf(events) && forall f :: f in lockedCursors ==> lockedCursors[f] == cursors[f]
    {
      lockedCursors := map[];
      for i := 0 to |events|
        invariant cursors == Locked(old(cursors), events[..i])
        invariant lockedCursors.Keys == FeedsOf(events[..i])
        invariant forall f :: f in lockedCursors ==> lockedCursors[f] == cursors[f]
      {
        var f := FeedOf(events[i]);
        assert events[..i + 1] == events[..i] + [events[i]];
        LockOne(old(cursors), events[..i], events[i]);
        if f !in lockedCursors {
          var cursor := GetStateCursorForUpdate(f);
          lockedCursors := lockedCursors[f := cursor];
        }
      }
      assert events[..|events|] == events;
    }

    method SaveStateCursors(finalCursors: Cursors)
      modifies this`cursors
      ensures cursors == old(cursors) + finalCursors
    {
      var pending := finalCursors.Keys;
      while pending != {}
        invariant pending <= finalCursors.Keys
        invariant cursors == old(cursors) + (map f | f in finalCursors && f !in pending :: finalCursors[f])
        decreases pending
      {
        var f :| f in pending;
        cursors := cursors[f := finalCursors[f]];
        pending := pending - {f};
      }
      assert (map f | f in finalCursors && f !in pending :: finalCursors[f]) == finalCursors;
    }

    /** Filters, applies and saves in one transaction; a failing statement rolls everything back. */
    method CommitStateAppliedTransaction(events: seq<Event>, mode: ApplyMode) returns (ok: bool)
      requires Valid()
      modifies this
      ensures Valid()
      ensures ok <==> Committed(specs, mode, old(Contents()), events).Success?
      ensures Contents() == CommittedOr(specs, mode, old(Contents()), events)
    {
      var tablesAtBegin, cursorsAtBegin := tables, cursors;
      var lockedCursors := LockCursors(events);
      var toApply, finalCursors := FilterStale(cursors, lockedCursors, events);
      ok := ApplyEventsBatch(toApply, mode);
      if !ok {
        tables, cursors := tablesAtBegin, cursorsAtBegin;
        return;
      }
      SaveStateCursors(finalCursors);
    }
  }

  lemma LockOne(cursors: Cursors, es: seq<Event>, e: Event)
    ensures FeedsOf(es + [e]) == FeedsOf(es) + {FeedOf(e)}
    ensures var locked := Locked(cursors, es);
            Locked(cursors, es + [e]) == locked[FeedOf(e) := CursorOf(locked, FeedOf(e))]
    ensures FeedOf(e) in FeedsOf(es) ==> Locked(cursors, es + [e]) == Locked(cursors, es)
  {
    assert FeedsOf(es + [e]) == FeedsOf(es) + {FeedOf(e)};
  }

  lemma OverlayMoved(base: Cursors, overlay: Cursors, e: Event)
    ensures base + overlay[FeedOf(e) := Cursor(e.id, PositionOf(e))] == Moved(base + overlay, e)
  {
  }

  /** The running-cursor filter over the locked cursors. */
  method FilterStale(ghost base: Cursors, lockedCursors: Cursors, events: seq<Event>)
    returns (toApply: seq<Event>, finalCursors: Cursors)
    requires FeedsOf(events) == lockedCursors.Keys <= base.Keys
    requires forall f :: f in lockedCursors ==> lockedCursors[f] == base[f]
    ensures toApply == Kept(base, events)
    ensures base + finalCursors == Advanced(base, events)
  {
    var runningCursors := lockedCursors;
    finalCursors, toApply := map[], [];
    ghost var current := base;
    assert base + runningCursors == base;
    for i := 0 to |events|
      invariant runningCursors.Keys == lockedCursors.Keys
      invariant base + finalCursors == current == base + runningCursors
      invariant Filtered(base, events, i, current, toApply)
    {
      var e := events[i];
      var key := FeedOf(e);
      assert key in FeedsOf(events);
      assert CursorOf(current, key) == runningCursors[key];
      FilterStep(base, events, i, current, toApply);
      if !IsStale(e.version, e.key, runningCursors[key]) {
        var newCursor := Cursor(e.id, PositionOf(e));
        OverlayMoved(base, runningCursors, e);
        OverlayMoved(base, finalCursors, e);
        toApply := toApply + [e];
        runningCursors := runningCursors[key := newCursor];
        finalCursors := finalCursors[key := newCursor];
        current := Moved(current, e);
      }
    }
  }

  /** What the filter has kept of the first events, and the cursors it goes on with. */
  predicate Filtered(base: Cursors, events: seq<Event>, i: nat, current: Cursors, kept: seq<Event>) {
    && i <= |events|
    && Kept(base, events) == kept + Kept(current, events[i..])
    && Advanced(base, events) == Advanced(current, events[i..])
  }

  lemma FilterStep(base: Cursors, events: seq<Event>, i: nat, current: Cursors, kept: seq<Event>)
    requires i < |events| && Filtered(base, events, i, current, kept)
    ensures StaleAt(current, events[i]) ==> Filtered(base, events, i + 1, current, kept)
    ensures !StaleAt(current, events[i]) ==>
              Filtered(base, events, i + 1, Moved(current, events[i]), kept + [events[i]])
  {
    assert events[i..][0] == events[i] && events[i..][1..] == events[i + 1..];
  }

  lemma NextGroup(specs: Specs, mode: ApplyMode, tables: Tables, es: seq<Event>, groups: seq<Feed>, i: int)
    requires 0 <= i < |groups|
    ensures ApplyGroups(specs, mode, tables, es, groups[..i + 1])
         == GroupApplied(specs, mode, ApplyGroups(specs, mode, tables, es, groups[..i]), groups[i],
                         EventsOf(es, groups[i]))
    ensures GroupsApplicable(specs, mode, es, groups[..i + 1])
       <==> GroupsApplicable(specs, mode, es, groups[..i])
            && GroupApplicable(specs, mode, groups[i], EventsOf(es, groups[i]))
  {
    assert groups[..i + 1][..i] == groups[..i];
    assert groups[..i + 1] == groups[..i] + [groups[i]];
  }

  lemma {:induction false} FeedMembers(es: seq<Event>, f: Feed)
    ensures OfFeed(EventsOf(es, f), f)
  {
    if es != [] {
      FeedMembers(es[..|es| - 1], f);
    }
  }

  lemma SurvivorsOfFeed(es: seq<Event>, f: Feed)
    requires OfFeed(es, f)
    ensures var d := Dedup(es);
            && DistinctKeys(Upserts(d)) && DistinctKeys(Updates(d)) && DistinctKeys(Deletes(d))
            && OfFeed(Upserts(d), f) && OfFeed(Updates(d), f) && OfFeed(Deletes(d), f)
            && (forall e :: e in Updates(d) ==> e.op.Update?)
  {
    DedupKeepsLast(es);
    Selections(Dedup(es));
    forall e | e in Dedup(es)
      ensures FeedOf(e) == f
    {
      LastForIsIn(es, e.key);
    }
  }

  predicate OfFeed(es: seq<Event>, f: Feed) {
    forall e :: e in es ==> FeedOf(e) == f
  }

  /** The columns of the upsert statement of a group, if there is one. */
  function FirstColumns(specs: Specs, f: Feed, upserts: seq<Event>): set<string> {
    if f.table in specs && upserts != [] then UpsertColumns(specs[f.table], upserts[0]) else {}
  }

  lemma GroupInStatements(specs: Specs, mode: ApplyMode, tables: Tables, f: Feed, es: seq<Event>)
    ensures var d := Dedup(es);
            var inserted := Rewritten(specs, mode, tables, f.table, FirstColumns(specs, f, Upserts(d)), Upserts(d));
            var updated := Rewritten(specs, mode, inserted, f.table, {}, Updates(d));
            Rewritten(specs, mode, updated, f.table, {}, Deletes(d)) == GroupApplied(specs, mode, tables, f, es)
  {
    if f.table in specs && f.table in tables {
      ThreeStatements(specs[f.table], mode, es, tables[f.table]);
    }
  }

  method Partition(g: Group, ghost d: seq<Event>)
    returns (upserts: seq<Event>, updates: seq<Event>, deletes: seq<Event>)
    requires GroupHolds(g, d)
    ensures upserts == Upserts(d) && updates == Updates(d) && deletes == Deletes(d)
  {
    upserts, updates, deletes := [], [], [];
    for i := 0 to |g.pkOrder|
      invariant upserts == Upserts(d[..i]) && updates == Updates(d[..i]) && deletes == Deletes(d[..i])
    {
      var e := g.byPK[g.pkOrder[i]];
      assert d[..i + 1][..i] == d[..i];
      match e.op {
        case Delete => deletes := deletes + [e];
        case Update => updates := updates + [e];
        case _ => upserts := upserts + [e];
      }
    }
    assert d[..|d|] == d;
  }

  /** A group holds the surviving events of its feed. */
  predicate FeedHolds(g: Group, events: seq<Event>, f: Feed) {
    GroupHolds(g, Dedup(EventsOf(events, f)))
  }

  ghost predicate GroupsHold(events: seq<Event>, groupOrder: seq<Feed>, groups: map<Feed, Group>) {
    && groupOrder == GroupOrder(events)
    && (forall f :: f in groupOrder <==> f in groups)
    && (forall f :: f in groups ==> FeedHolds(groups[f], events, f))
  }

  function Stored(g: Group, e: Event): Group {
    Group(if e.key in g.byPK then g.pkOrder else g.pkOrder + [e.key], g.byPK[e.key := e])
  }

  /** The group maps hold, for every feed of the batch, its surviving events. */
  method FillGroups(events: seq<Event>) returns (groupOrder: seq<Feed>, groups: map<Feed, Group>)
    ensures GroupsHold(events, groupOrder, groups)
  {
    groupOrder, groups := [], map[];
    for i := 0 to |events|
      invariant GroupsHold(events[..i], groupOrder, groups)
    {
      var e := events[i];
      var f := FeedOf(e);
      assert events[..i + 1] == events[..i] + [e];
      GroupsGrow(events[..i], e, groupOrder, groups);
      if f !in groups {
        groups := groups[f := Group([], map[])];
        groupOrder := groupOrder + [f];
      }
      groups := groups[f := Stored(groups[f], e)];
    }
    assert events[..|events|] == events;
  }

  lemma GroupsGrow(done: seq<Event>, e: Event, groupOrder: seq<Feed>, groups: map<Feed, Group>)
    requires GroupsHold(done, groupOrder, groups)
    ensures var f := FeedOf(e);
            if f in groups then GroupsHold(done + [e], groupOrder, groups[f := Stored(groups[f], e)])
            else GroupsHold(done + [e], groupOrder + [f], groups[f := Stored(Group([], map[]), e)])
  {
    var f, all := FeedOf(e), done + [e];
    var g := if f in groups then groups[f] else Group([], map[]);
    if f !in groups {
      FeedAbsent(done, f);
    }
    FeedGrows(done, e, g);
    var order := if f in groups then groupOrder else groupOrder + [f];
    var next := groups[f := Stored(g, e)];
    GroupOrderNext(done, e);
    forall x | x in next
      ensures FeedHolds(next[x], all, x)
    {
      if x != f {
        EventsOfNext(done, e, x);
        assert FeedHolds(groups[x], done, x);
      }
    }
  }

  lemma FeedGrows(done: seq<Event>, e: Event, g: Group)
    requires FeedHolds(g, done, FeedOf(e))
    ensures FeedHolds(Stored(g, e), done + [e], FeedOf(e))
  {
    EventsOfNext(done, e, FeedOf(e));
    GroupGrows(g, EventsOf(done, FeedOf(e)), e);
  }

  lemma GroupOrderNext(done: seq<Event>, e: Event)
    ensures GroupOrder(done + [e])
         == if FeedOf(e) in GroupOrder(done) then GroupOrder(done) else GroupOrder(done) + [FeedOf(e)]
  {
    assert (done + [e])[..|done|] == done;
  }

  lemma EventsOfNext(done: seq<Event>, e: Event, f: Feed)
    ensures EventsOf(done + [e], f) == if FeedOf(e) == f then EventsOf(done, f) + [e] else EventsOf(done, f)
  {
    assert (done + [e])[..|done|] == done;
  }

  lemma {:induction false} FeedAbsent(es: seq<Event>, f: Feed)
    requires f !in GroupOrder(es)
    ensures EventsOf(es, f) == []
  {
    if es != [] {
      FeedAbsent(es[..|es| - 1], f);
    }
  }

  lemma GroupGrows(g: Group, sub: seq<Event>, e: Event)
    requires GroupHolds(g, Dedup(sub))
    ensures GroupHolds(Stored(g, e), Dedup(sub + [e]))
  {
    assert (sub + [e])[..|sub|] == sub;
    DedupKeepsLast(sub);
    GroupStores(g, Dedup(sub), e);
  }

  lemma GroupStores(g: Group, d: seq<Event>, e: Event)
    requires GroupHolds(g, d) && DistinctKeys(d)
    ensures GroupHolds(Stored(g, e), Replace(d, e))
  {
    ReplaceAt(d, e);
    if e.key in g.byPK {
      var i :| 0 <= i < |g.pkOrder| && g.pkOrder[i] == e.key;
      GroupOverwrites(g, d, e, i);
    } else {
      GroupAppends(g, d, e);
    }
  }

  lemma GroupOverwrites(g: Group, d: seq<Event>, e: Event, i: int)
    requires GroupHolds(g, d) && DistinctKeys(d) && 0 <= i < |d| && d[i].key == e.key
    ensures GroupHolds(Stored(g, e), d[i := e])
  {
    var next := d[i := e];
    forall j | 0 <= j < |next|
      ensures next[j].key in Stored(g, e).byPK && Stored(g, e).byPK[next[j].key] == next[j]
    {
      assert j != i ==> d[j].key != e.key;
    }
  }

  lemma GroupAppends(g: Group, d: seq<Event>, e: Event)
    requires GroupHolds(g, d) && e.key !in g.byPK
    ensures GroupHolds(Stored(g, e), d + [e])
    ensures forall x :: x in d ==> x.key != e.key
  {
    var all := d + [e];
    forall j | 0 <= j < |all|
      ensures all[j].key in Stored(g, e).byPK && Stored(g, e).byPK[all[j].key] == all[j]
    {
      assert j < |d| ==> all[j] == d[j];
    }
  }

  /** The events of the first j groups. */
  ghost predicate GroupsDone(events: seq<Event>, order: seq<set<string>>, j: int, done: seq<Event>)
    requires 0 <= j <= |order|
  {
    DistinctKeys(done) && forall e :: e in done <==> e in events && e.fields.Keys in order[..j]
  }

  lemma NextGroupDone(
    events: seq<Event>, order: seq<set<string>>, groups: map<set<string>, seq<Event>>, j: int, done: seq<Event>)
    requires DistinctKeys(events) && ColumnGroups(events, order, groups)
    requires 0 <= j < |order| && GroupsDone(events, order, j, done)
    ensures GroupsDone(events, order, j + 1, done + groups[order[j]])
  {
    var group := groups[order[j]];
    assert order[..j + 1] == order[..j] + [order[j]];
    assert order[j] !in order[..j];
    DisjointGroups(events, done, group);
  }

  lemma AllGroupsDone(
    events: seq<Event>, order: seq<set<string>>, groups: map<set<string>, seq<Event>>, done: seq<Event>)
    requires ColumnGroups(events, order, groups) && GroupsDone(events, order, |order|, done)
    ensures forall e :: e in done <==> e in events
  {
    assert order[..|order|] == order;
  }

  lemma DisjointGroups(events: seq<Event>, done: seq<Event>, group: seq<Event>)
    requires DistinctKeys(events) && DistinctKeys(done) && DistinctKeys(group)
    requires forall e :: e in done || e in group ==> e in events
    requires forall e :: e in group ==> e !in done
    ensures DistinctKeys(done + group)
  {
    var all := done + group;
    forall i, j | 0 <= i < j < |all|
      ensures all[i].key != all[j].key
    {
      if i < |done| <= j {
        assert all[i] in done && all[j] in group;
        var a :| 0 <= a < |events| && events[a] == all[i];
        var b :| 0 <= b < |events| && events[b] == all[j];
      }
    }
  }
}
