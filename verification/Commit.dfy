/**
 The atomic commit of a delivered batch: the stale-cursor filter, the batched application and
 the cursor update (internal/repository/postgres/state_events.go).
 */
module Commit {
  import opened PrimaryKeys
  import opened Positions
  import opened Rows
  import opened BatchApply

  type Specs = map<string, TableSpec>
  type Tables = map<string, Table>

  /** The scope of a cursor: a sending region and a table. */
  datatype Feed = Feed(peer: string, table: string)

  datatype Cursor = Cursor(lastEventId: string, last: Position)

  type Cursors = map<Feed, Cursor>

  datatype Store = Store(tables: Tables, cursors: Cursors)

  const INITIAL_CURSOR: Cursor := Cursor("", Position(0, []))

  function FeedOf(e: Event): Feed {
    Feed(e.peer, e.table)
  }

  function CursorOf(cursors: Cursors, f: Feed): Cursor {
    if f in cursors then cursors[f] else INITIAL_CURSOR
  }

  /** isStaleCursorPosition. */
  predicate IsStale(version: int, key: Key, cursor: Cursor) {
    if version < cursor.last.version then true
    else if version > cursor.last.version then false
    else KeyOrder(key, cursor.last.key) <= 0
  }

  lemma StaleIffNotAfter(e: Event, cursor: Cursor)
    ensures IsStale(e.version, e.key, cursor) <==> AtOrBefore(PositionOf(e), cursor.last)
    ensures IsStale(e.version, e.key, cursor) <==> !Before(cursor.last, PositionOf(e))
  {
    KeyTrichotomy(e.key, cursor.last.key);
    KeyOrderIsTotalPreorder(e.key, cursor.last.key, e.key);
    BeforeTrichotomy(PositionOf(e), cursor.last);
    if KeyOrder(e.key, cursor.last.key) == 0 {
      KeyOrderZero(e.key, cursor.last.key);
    }
  }

  function Moved(cursors: Cursors, e: Event): Cursors {
    cursors[FeedOf(e) := Cursor(e.id, PositionOf(e))]
  }

  predicate StaleAt(cursors: Cursors, e: Event) {
    IsStale(e.version, e.key, CursorOf(cursors, FeedOf(e)))
  }

  /** The events that survive the running-cursor filter. */
  function Kept(cursors: Cursors, es: seq<Event>): seq<Event>
    decreases |es|
  {
    if es == [] then []
    else if StaleAt(cursors, es[0]) then Kept(cursors, es[1..])
    else [es[0]] + Kept(Moved(cursors, es[0]), es[1..])
  }

  /** The cursors after the filter. */
  function Advanced(cursors: Cursors, es: seq<Event>): Cursors
    decreases |es|
  {
    if es == [] then cursors
    else Advanced(if StaleAt(cursors, es[0]) then cursors else Moved(cursors, es[0]), es[1..])
  }

  function FeedsOf(es: seq<Event>): set<Feed> {
    set e | e in es :: FeedOf(e)
  }

  /** getStateCursorForUpdate for every feed of the batch: missing cursor rows are created. */
  function Locked(cursors: Cursors, es: seq<Event>): Cursors {
    map f | f in cursors.Keys + FeedsOf(es) :: CursorOf(cursors, f)
  }

  // ---- all groups of a batch ----

  function EventsOf(es: seq<Event>, f: Feed): seq<Event> {
    if es == [] then []
    else EventsOf(es[..|es| - 1], f) + (if FeedOf(es[|es| - 1]) == f then [es[|es| - 1]] else [])
  }

  /** The feeds of a batch in the order in which they first occur. */
  function GroupOrder(es: seq<Event>): seq<Feed> {
    if es == [] then []
    else
      var groups := GroupOrder(es[..|es| - 1]);
      if FeedOf(es[|es| - 1]) in groups then groups else groups + [FeedOf(es[|es| - 1])]
  }

  /** The updates name a configured table and existing columns. */
  predicate UpdatesListed(specs: Specs, d: seq<Event>) {
    forall e :: e in d ==> e.table in specs && e.fields.Keys <= specs[e.table].columns
  }

  /** Whether the statements of one group name a configured table and existing columns only. */
  predicate GroupApplicable(specs: Specs, mode: ApplyMode, f: Feed, es: seq<Event>) {
    var d := Dedup(es);
    && (Upserts(d) != [] ==> f.table in specs && GroupColumns(specs[f.table], es) <= specs[f.table].columns)
    && (mode.InsertOnlyMode? || UpdatesListed(specs, Updates(d)))
    && (Deletes(d) != [] ==> f.table in specs)
  }

  predicate GroupsApplicable(specs: Specs, mode: ApplyMode, es: seq<Event>, groups: seq<Feed>) {
    forall f :: f in groups ==> GroupApplicable(specs, mode, f, EventsOf(es, f))
  }

  predicate BatchApplicable(specs: Specs, mode: ApplyMode, es: seq<Event>) {
    GroupsApplicable(specs, mode, es, GroupOrder(es))
  }

  /** The tables after one group. */
  function GroupApplied(specs: Specs, mode: ApplyMode, tables: Tables, f: Feed, es: seq<Event>): Tables {
    if f.table in specs && f.table in tables
    then tables[f.table := GroupTable(specs[f.table], mode, es, tables[f.table])]
    else tables
  }

  function ApplyGroups(specs: Specs, mode: ApplyMode, tables: Tables, es: seq<Event>, groups: seq<Feed>): Tables {
    if groups == [] then tables
    else
      var before := ApplyGroups(specs, mode, tables, es, groups[..|groups| - 1]);
      GroupApplied(specs, mode, before, groups[|groups| - 1], EventsOf(es, groups[|groups| - 1]))
  }

  function ApplyBatch(specs: Specs, mode: ApplyMode, tables: Tables, es: seq<Event>): Tables {
    ApplyGroups(specs, mode, tables, es, GroupOrder(es))
  }

  /** CommitStateAppliedTransaction; a failing statement rolls everything back. */
  function Committed(specs: Specs, mode: ApplyMode, st: Store, es: seq<Event>): Result<Store> {
    var locked := Locked(st.cursors, es);
    var kept := Kept(locked, es);
    if BatchApplicable(specs, mode, kept)
    then Success(Store(ApplyBatch(specs, mode, st.tables, kept), Advanced(locked, es)))
    else Failure
  }

  function CommittedOr(specs: Specs, mode: ApplyMode, st: Store, es: seq<Event>): Store {
    match Committed(specs, mode, st, es)
    case Success(next) => next
    case Failure => st
  }

  // ---- cursors only move forward ----

  predicate NotBehind(before: Cursors, after: Cursors) {
    && before.Keys <= after.Keys
    && forall f :: f in before ==> AtOrBefore(before[f].last, after[f].last)
  }

  lemma NotBehindTransitive(a: Cursors, b: Cursors, c: Cursors)
    requires NotBehind(a, b) && NotBehind(b, c)
    ensures NotBehind(a, c)
  {
    forall f | f in a
      ensures f in c && AtOrBefore(a[f].last, c[f].last)
    {
      BeforeTransitive(a[f].last, b[f].last, c[f].last);
    }
  }

  /** Every processed event ends at or before the cursor of its feed, and no cursor moves back. */
  lemma {:induction false} FilterMovesForward(cursors: Cursors, es: seq<Event>)
    requires FeedsOf(es) <= cursors.Keys
    ensures NotBehind(cursors, Advanced(cursors, es))
    ensures Advanced(cursors, es).Keys == cursors.Keys
    ensures forall e :: e in es ==> FeedOf(e) in Advanced(cursors, es) && StaleAt(Advanced(cursors, es), e)
    decreases |es|
  {
    if es != [] {
      var e := es[0];
      var next := if StaleAt(cursors, e) then cursors else Moved(cursors, e);
      assert es == [e] + es[1..] && FeedOf(e) in FeedsOf(es);
      assert FeedsOf(es[1..]) <= FeedsOf(es);
      StaleIffNotAfter(e, CursorOf(cursors, FeedOf(e)));
      StaleIffNotAfter(e, CursorOf(next, FeedOf(e)));
      FilterMovesForward(next, es[1..]);
      NotBehindTransitive(cursors, next, Advanced(next, es[1..]));
      var after := Advanced(cursors, es);
      StaleIffNotAfter(e, after[FeedOf(e)]);
      BeforeTransitive(PositionOf(e), next[FeedOf(e)].last, after[FeedOf(e)].last);
    }
  }

  lemma CommitMovesForward(specs: Specs, mode: ApplyMode, st: Store, es: seq<Event>)
    ensures NotBehind(st.cursors, CommittedOr(specs, mode, st, es).cursors)
    ensures Committed(specs, mode, st, es).Success? ==>
              forall e :: e in es ==>
                var cursors := Committed(specs, mode, st, es).value.cursors;
                FeedOf(e) in cursors && StaleAt(cursors, e)
  {
    var locked := Locked(st.cursors, es);
    FilterMovesForward(locked, es);
    assert NotBehind(st.cursors, locked);
    NotBehindTransitive(st.cursors, locked, Advanced(locked, es));
  }

  // ---- redelivery is absorbed ----

  /**
   A delivered batch that interleaves new events, in order, with events that were committed
   before or that already occurred in this batch.
   */
  ghost predicate Weaves(delivered: seq<Event>, novel: seq<Event>, known: set<Event>)
    decreases |delivered|
  {
    if delivered == [] then novel == []
    else
      || (delivered[0] in known && Weaves(delivered[1..], novel, known))
      || (novel != [] && delivered[0] == novel[0] && Weaves(delivered[1..], novel[1..], known + {novel[0]}))
  }

  predicate Covers(cursors: Cursors, known: set<Event>) {
    forall e :: e in known ==> FeedOf(e) in cursors && StaleAt(cursors, e)
  }

  lemma CoversLater(before: Cursors, after: Cursors, known: set<Event>)
    requires Covers(before, known) && NotBehind(before, after)
    ensures Covers(after, known)
  {
    forall e | e in known
      ensures FeedOf(e) in after && StaleAt(after, e)
    {
      StaleIffNotAfter(e, before[FeedOf(e)]);
      StaleIffNotAfter(e, after[FeedOf(e)]);
      BeforeTransitive(PositionOf(e), before[FeedOf(e)].last, after[FeedOf(e)].last);
    }
  }

  /** The filter treats a weave exactly as the new events in it. */
  lemma {:induction false} FilterAbsorbs(cursors: Cursors, delivered: seq<Event>, novel: seq<Event>, known: set<Event>)
    requires Weaves(delivered, novel, known) && Covers(cursors, known) && FeedsOf(novel) <= cursors.Keys
    ensures Kept(cursors, delivered) == Kept(cursors, novel)
    ensures Advanced(cursors, delivered) == Advanced(cursors, novel)
    decreases |delivered|
  {
    if delivered != [] {
      if delivered[0] in known && Weaves(delivered[1..], novel, known) {
        FilterAbsorbs(cursors, delivered[1..], novel, known);
      } else {
        var e := novel[0];
        assert FeedsOf(novel[1..]) <= FeedsOf(novel) && FeedOf(e) in FeedsOf(novel);
        var next := if StaleAt(cursors, e) then cursors else Moved(cursors, e);
        FilterMovesForward(cursors, [e]);
        assert [e][1..] == [];
        assert Advanced(cursors, [e]) == next;
        CoversLater(cursors, next, known);
        assert e in [e];
        FilterAbsorbs(next, delivered[1..], novel[1..], known + {e});
      }
    }
  }

  lemma {:induction false} WeaveMembers(delivered: seq<Event>, novel: seq<Event>, known: set<Event>)
    requires Weaves(delivered, novel, known)
    ensures forall e :: e in delivered ==> e in known || e in novel
    ensures forall e :: e in novel ==> e in delivered
    decreases |delivered|
  {
    if delivered != [] {
      assert delivered == [delivered[0]] + delivered[1..];
      if delivered[0] in known && Weaves(delivered[1..], novel, known) {
        WeaveMembers(delivered[1..], novel, known);
      } else {
        WeaveMembers(delivered[1..], novel[1..], known + {novel[0]});
        assert novel == [novel[0]] + novel[1..];
      }
    }
  }

  /** Committing a weave is committing the new events in it. */
  lemma CommitAbsorbs(
    specs: Specs, mode: ApplyMode, st: Store, delivered: seq<Event>, novel: seq<Event>, known: set<Event>)
    requires Weaves(delivered, novel, known) && Covers(st.cursors, known)
    ensures Committed(specs, mode, st, delivered) == Committed(specs, mode, st, novel)
  {
    WeaveMembers(delivered, novel, known);
    assert Locked(st.cursors, delivered) == Locked(st.cursors, novel) by {
      assert forall f :: f in FeedsOf(delivered) ==> f in FeedsOf(novel) || f in st.cursors;
      assert forall f :: f in FeedsOf(novel) ==> f in FeedsOf(delivered);
      assert st.cursors.Keys + FeedsOf(delivered) == st.cursors.Keys + FeedsOf(novel);
    }
    var locked := Locked(st.cursors, novel);
    CoversLater(st.cursors, locked, known);
    FilterAbsorbs(locked, delivered, novel, known);
  }

  datatype Delivery = Delivery(batch: seq<Event>, novel: seq<Event>)

  /** The store after a run of deliveries; a failed commit leaves it as it was. */
  function AfterDeliveries(specs: Specs, mode: ApplyMode, st: Store, run: seq<Delivery>): Store {
    if run == [] then st
    else CommittedOr(specs, mode, AfterDeliveries(specs, mode, st, run[..|run| - 1]), run[|run| - 1].batch)
  }

  /** The store when every new batch is delivered exactly once. */
  function AfterOnce(specs: Specs, mode: ApplyMode, st: Store, run: seq<Delivery>): Store {
    if run == [] then st
    else CommittedOr(specs, mode, AfterOnce(specs, mode, st, run[..|run| - 1]), run[|run| - 1].novel)
  }

  /** The new events committed in the course of a run. */
  function KnownAfter(specs: Specs, mode: ApplyMode, st: Store, run: seq<Delivery>): set<Event> {
    if run == [] then {}
    else
      var init, last := run[..|run| - 1], run[|run| - 1];
      KnownAfter(specs, mode, st, init)
      + (if Committed(specs, mode, AfterOnce(specs, mode, st, init), last.novel).Success?
         then set e | e in last.novel
         else {})
  }

  /** Every delivery repeats committed events only, in any number and order. */
  ghost predicate Redelivers(specs: Specs, mode: ApplyMode, st: Store, run: seq<Delivery>) {
    forall i :: 0 <= i < |run| ==> Weaves(run[i].batch, run[i].novel, KnownAfter(specs, mode, st, run[..i]))
  }

  /** One delivery: the same commit as without the repeated events, which stay covered. */
  lemma DeliveryStep(specs: Specs, mode: ApplyMode, before: Store, delivery: Delivery, known: set<Event>)
    requires Weaves(delivery.batch, delivery.novel, known) && Covers(before.cursors, known)
    ensures CommittedOr(specs, mode, before, delivery.batch) == CommittedOr(specs, mode, before, delivery.novel)
    ensures var after := CommittedOr(specs, mode, before, delivery.novel);
            && NotBehind(before.cursors, after.cursors)
            && Covers(after.cursors, known)
            && (Committed(specs, mode, before, delivery.novel).Success?
                ==> Covers(after.cursors, set e | e in delivery.novel))
  {
    CommitAbsorbs(specs, mode, before, delivery.batch, delivery.novel, known);
    CommitMovesForward(specs, mode, before, delivery.novel);
    CoversLater(before.cursors, CommittedOr(specs, mode, before, delivery.novel).cursors, known);
  }

  /**
   Exactly-once effect: any run of deliveries that repeats committed events, in any order and
   number and mixed with new ones, ends with the same tables and cursors as delivering every new
   batch once; and no cursor ever moves backwards.
   */
  lemma {:induction false} ExactlyOnceEffect(specs: Specs, mode: ApplyMode, st: Store, run: seq<Delivery>)
    requires Redelivers(specs, mode, st, run)
    ensures AfterDeliveries(specs, mode, st, run) == AfterOnce(specs, mode, st, run)
    ensures NotBehind(st.cursors, AfterDeliveries(specs, mode, st, run).cursors)
    ensures Covers(AfterOnce(specs, mode, st, run).cursors, KnownAfter(specs, mode, st, run))
  {
    if run == [] {
      assert NotBehind(st.cursors, st.cursors);
    } else {
      var n := |run| - 1;
      var init, last := run[..n], run[n];
      assert Redelivers(specs, mode, st, init) by {
        assert forall i :: 0 <= i < n ==> init[..i] == run[..i];
      }
      ExactlyOnceEffect(specs, mode, st, init);
      var before := AfterOnce(specs, mode, st, init);
      var known := KnownAfter(specs, mode, st, init);
      DeliveryStep(specs, mode, before, last, known);
      NotBehindTransitive(st.cursors, before.cursors, CommittedOr(specs, mode, before, last.novel).cursors);
    }
  }

  // ---- when nothing is filtered ----

  /** Positions lie beyond the cursors and strictly increase within every feed. */
  predicate InOrder(cursors: Cursors, es: seq<Event>) {
    && (forall i :: 0 <= i < |es| ==> Before(CursorOf(cursors, FeedOf(es[i])).last, PositionOf(es[i])))
    && (forall i, j :: 0 <= i < j < |es| && FeedOf(es[i]) == FeedOf(es[j])
          ==> Before(PositionOf(es[i]), PositionOf(es[j])))
  }

  lemma {:induction false} KeptLength(cursors: Cursors, es: seq<Event>)
    ensures |Kept(cursors, es)| <= |es|
    decreases |es|
  {
    if es != [] {
      KeptLength(cursors, es[1..]);
      KeptLength(Moved(cursors, es[0]), es[1..]);
    }
  }

  /** The filter keeps every event exactly when the batch is in order. */
  lemma {:induction false} NothingFilteredIff(cursors: Cursors, es: seq<Event>)
    ensures Kept(cursors, es) == es <==> InOrder(cursors, es)
    decreases |es|
  {
    if es != [] {
      var e, rest := es[0], es[1..];
      StaleIffNotAfter(e, CursorOf(cursors, FeedOf(e)));
      if StaleAt(cursors, e) {
        KeptLength(cursors, rest);
      } else {
        var next := Moved(cursors, e);
        NothingFilteredIff(next, rest);
        if Kept(cursors, es) == es {
          assert Kept(next, rest) == Kept(cursors, es)[1..] == rest;
          InOrderExtends(cursors, e, rest);
        }
        if InOrder(cursors, es) {
          InOrderRest(cursors, es);
        }
      }
    }
  }

  lemma InOrderRest(cursors: Cursors, es: seq<Event>)
    requires es != [] && InOrder(cursors, es)
    ensures !StaleAt(cursors, es[0]) && InOrder(Moved(cursors, es[0]), es[1..])
  {
    var next, rest := Moved(cursors, es[0]), es[1..];
    StaleIffNotAfter(es[0], CursorOf(cursors, FeedOf(es[0])));
    forall i | 0 <= i < |rest|
      ensures Before(CursorOf(next, FeedOf(rest[i])).last, PositionOf(rest[i]))
    {
      assert rest[i] == es[i + 1];
    }
  }

  lemma InOrderExtends(cursors: Cursors, e: Event, rest: seq<Event>)
    requires Before(CursorOf(cursors, FeedOf(e)).last, PositionOf(e)) && InOrder(Moved(cursors, e), rest)
    ensures InOrder(cursors, [e] + rest)
  {
    var es, next := [e] + rest, Moved(cursors, e);
    forall i | 0 <= i < |es|
      ensures Before(CursorOf(cursors, FeedOf(es[i])).last, PositionOf(es[i]))
    {
      if i > 0 {
        assert Before(CursorOf(next, FeedOf(rest[i - 1])).last, PositionOf(rest[i - 1]));
        if FeedOf(es[i]) == FeedOf(e) {
          BeforeTransitive(CursorOf(cursors, FeedOf(e)).last, PositionOf(e), PositionOf(es[i]));
        }
      }
    }
    forall i, j | 0 <= i < j < |es| && FeedOf(es[i]) == FeedOf(es[j])
      ensures Before(PositionOf(es[i]), PositionOf(es[j]))
    {
      assert es[j] == rest[j - 1];
      if i == 0 {
        assert CursorOf(next, FeedOf(rest[j - 1])).last == PositionOf(e);
      }
    }
  }
}
