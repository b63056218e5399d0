/**
 A committed transaction over several tables, compared with applying its events one by one.
 */
module Transactions {
  import opened Rows
  import opened BatchApply
  import opened Commit

  /** The reference semantics: every event applied on its own to its table. */
  function OneByOne(specs: Specs, mode: ApplyMode, tables: Tables, es: seq<Event>): Tables {
    if es == [] then tables
    else
      var before := OneByOne(specs, mode, tables, es[..|es| - 1]);
      var e := es[|es| - 1];
      if e.table in specs && e.table in before
      then before[e.table := ApplyOne(specs[e.table], mode, before[e.table], e)]
      else before
  }

  predicate ValidTables(specs: Specs, tables: Tables) {
    forall name :: name in specs ==> ValidSpec(specs[name]) && name in tables && ValidTable(specs[name], tables[name])
  }

  /** Whole-row events of one region for configured tables. */
  predicate FullTransaction(specs: Specs, peer: string, es: seq<Event>) {
    peer != "" && forall e :: e in es ==> e.table in specs && FullImage(specs[e.table], peer, e)
  }

  ghost predicate SafeTransaction(peer: string, es: seq<Event>) {
    forall name: string :: BatchSafe(EventsOf(es, Feed(peer, name)))
  }

  lemma {:induction false} EventsOfMembers(es: seq<Event>, f: Feed)
    ensures forall e :: e in EventsOf(es, f) <==> e in es && FeedOf(e) == f
  {
    if es != [] {
      EventsOfMembers(es[..|es| - 1], f);
      assert es == es[..|es| - 1] + [es[|es| - 1]];
    }
  }

  lemma {:induction false} GroupOrderLists(es: seq<Event>)
    ensures forall f :: f in GroupOrder(es) <==> exists e :: e in es && FeedOf(e) == f
    ensures forall i, j :: 0 <= i < j < |GroupOrder(es)| ==> GroupOrder(es)[i] != GroupOrder(es)[j]
  {
    if es != [] {
      var init, e := es[..|es| - 1], es[|es| - 1];
      GroupOrderLists(init);
      assert es == init + [e];
      assert FeedOf(e) in GroupOrder(es);
      forall f | exists x :: x in es && FeedOf(x) == f
        ensures f in GroupOrder(es)
      {
        var x :| x in es && FeedOf(x) == f;
        assert x == e || x in init;
      }
    }
  }

  lemma {:induction false} GroupsKeepTables(
    specs: Specs, mode: ApplyMode, tables: Tables, es: seq<Event>, groups: seq<Feed>)
    ensures ApplyGroups(specs, mode, tables, es, groups).Keys == tables.Keys
  {
    if groups != [] {
      GroupsKeepTables(specs, mode, tables, es, groups[..|groups| - 1]);
    }
  }

  lemma {:induction false} OneByOneKeepsTables(specs: Specs, mode: ApplyMode, tables: Tables, es: seq<Event>)
    ensures OneByOne(specs, mode, tables, es).Keys == tables.Keys
  {
    if es != [] {
      OneByOneKeepsTables(specs, mode, tables, es[..|es| - 1]);
    }
  }

  /** Groups of one region touch different tables, so each table sees its own group only. */
  lemma LastGroup(groups: seq<Feed>, f: Feed)
    requires groups != [] && forall i, j :: 0 <= i < j < |groups| ==> groups[i] != groups[j]
    ensures f in groups <==> f in groups[..|groups| - 1] || f == groups[|groups| - 1]
    ensures !(f in groups[..|groups| - 1] && f == groups[|groups| - 1])
  {
    assert groups == groups[..|groups| - 1] + [groups[|groups| - 1]];
  }

  lemma {:induction false} GroupsAreIndependent(
    specs: Specs, mode: ApplyMode, peer: string, tables: Tables, es: seq<Event>, groups: seq<Feed>, name: string)
    requires forall f :: f in groups ==> f.peer == peer
    requires forall i, j :: 0 <= i < j < |groups| ==> groups[i] != groups[j]
    requires name in specs && name in tables
    ensures name in ApplyGroups(specs, mode, tables, es, groups)
    ensures ApplyGroups(specs, mode, tables, es, groups)[name]
         == if Feed(peer, name) in groups
            then GroupTable(specs[name], mode, EventsOf(es, Feed(peer, name)), tables[name])
            else tables[name]
    decreases |groups|
  {
    GroupsKeepTables(specs, mode, tables, es, groups);
    if groups != [] {
      var init, f := groups[..|groups| - 1], groups[|groups| - 1];
      GroupsAreIndependent(specs, mode, peer, tables, es, init, name);
      LastGroup(groups, Feed(peer, name));
      assert f in groups;
    }
  }

  lemma {:induction false} OneByOnePerTable(
    specs: Specs, mode: ApplyMode, peer: string, tables: Tables, es: seq<Event>, name: string)
    requires forall e :: e in es ==> e.peer == peer
    requires name in specs && name in tables
    ensures name in OneByOne(specs, mode, tables, es)
    ensures OneByOne(specs, mode, tables, es)[name]
         == ApplySequentially(specs[name], mode, tables[name], EventsOf(es, Feed(peer, name)))
  {
    OneByOneKeepsTables(specs, mode, tables, es);
    if es != [] {
      var init, e := es[..|es| - 1], es[|es| - 1];
      assert e in es && forall x :: x in init ==> x in es;
      OneByOneKeepsTables(specs, mode, tables, init);
      OneByOnePerTable(specs, mode, peer, tables, init, name);
      var sub, f := EventsOf(init, Feed(peer, name)), Feed(peer, name);
      if e.table == name {
        assert EventsOf(es, f) == sub + [e] && (sub + [e])[..|sub|] == sub;
      } else {
        assert EventsOf(es, f) == sub;
      }
    }
  }

  lemma FullGroupApplicable(specs: Specs, mode: ApplyMode, peer: string, f: Feed, sub: seq<Event>)
    requires f.table in specs && ValidSpec(specs[f.table]) && FullImages(specs[f.table], peer, sub)
    requires forall e :: e in sub ==> e.table == f.table
    ensures GroupApplicable(specs, mode, f, sub)
  {
    ColumnsOfFullImages(specs[f.table], peer, sub);
    DedupKeepsLast(sub);
    UpsertsAre(Dedup(sub));
    forall e | e in Dedup(sub)
      ensures e in sub
    {
      LastForIsIn(sub, e.key);
    }
    assert Upserts(Dedup(sub)) != [] ==> Upserts(Dedup(sub))[0] in Dedup(sub);
    UpdatesIn(Dedup(sub));
  }

  lemma {:induction false} UpdatesIn(d: seq<Event>)
    ensures forall e :: e in Updates(d) ==> e in d && e.op.Update?
  {
    if d != [] {
      UpdatesIn(d[..|d| - 1]);
    }
  }

  lemma TransactionApplicable(specs: Specs, mode: ApplyMode, peer: string, tables: Tables, es: seq<Event>)
    requires ValidTables(specs, tables) && FullTransaction(specs, peer, es)
    ensures BatchApplicable(specs, mode, es)
  {
    GroupOrderLists(es);
    forall f | f in GroupOrder(es)
      ensures GroupApplicable(specs, mode, f, EventsOf(es, f))
    {
      EventsOfMembers(es, f);
      var e :| e in es && FeedOf(e) == f;
      FullGroupApplicable(specs, mode, peer, f, EventsOf(es, f));
    }
  }

  lemma {:induction false} EventsOfNone(es: seq<Event>, f: Feed)
    requires forall e :: e in es ==> FeedOf(e) != f
    ensures EventsOf(es, f) == []
  {
    if es != [] {
      assert es[|es| - 1] in es && forall e :: e in es[..|es| - 1] ==> e in es;
      EventsOfNone(es[..|es| - 1], f);
    }
  }

  /** Batched application of a safe transaction is one-by-one application. */
  lemma BatchIsOneByOne(specs: Specs, mode: ApplyMode, peer: string, tables: Tables, es: seq<Event>)
    requires ValidTables(specs, tables) && FullTransaction(specs, peer, es) && SafeTransaction(peer, es)
    requires !mode.InsertOnlyMode?
    ensures ApplyBatch(specs, mode, tables, es) == OneByOne(specs, mode, tables, es)
  {
    var batched, single := ApplyBatch(specs, mode, tables, es), OneByOne(specs, mode, tables, es);
    GroupsKeepTables(specs, mode, tables, es, GroupOrder(es));
    OneByOneKeepsTables(specs, mode, tables, es);
    forall name | name in tables
      ensures batched[name] == single[name]
    {
      if name in specs {
        TableAgrees(specs, mode, peer, tables, es, name);
      } else {
        UnlistedTable(specs, mode, tables, es, GroupOrder(es), name);
      }
    }
  }

  lemma TableAgrees(specs: Specs, mode: ApplyMode, peer: string, tables: Tables, es: seq<Event>, name: string)
    requires ValidTables(specs, tables) && FullTransaction(specs, peer, es) && SafeTransaction(peer, es)
    requires !mode.InsertOnlyMode? && name in specs
    ensures name in ApplyBatch(specs, mode, tables, es) && name in OneByOne(specs, mode, tables, es)
    ensures ApplyBatch(specs, mode, tables, es)[name] == OneByOne(specs, mode, tables, es)[name]
  {
    var f := Feed(peer, name);
    GroupOrderLists(es);
    EventsOfMembers(es, f);
    GroupsAreIndependent(specs, mode, peer, tables, es, GroupOrder(es), name);
    OneByOnePerTable(specs, mode, peer, tables, es, name);
    SafeBatchRefinesSequential(specs[name], mode, peer, EventsOf(es, f), tables[name]);
    if f !in GroupOrder(es) {
      EventsOfNone(es, f);
    }
  }

  lemma {:induction false} UnlistedTable(
    specs: Specs, mode: ApplyMode, tables: Tables, es: seq<Event>, groups: seq<Feed>, name: string)
    requires name in tables && name !in specs
    ensures name in ApplyGroups(specs, mode, tables, es, groups)
    ensures ApplyGroups(specs, mode, tables, es, groups)[name] == tables[name]
    ensures name in OneByOne(specs, mode, tables, es) && OneByOne(specs, mode, tables, es)[name] == tables[name]
    decreases |groups| + |es|
  {
    if groups != [] {
      UnlistedTable(specs, mode, tables, es, groups[..|groups| - 1], name);
    }
    if es != [] {
      UnlistedTable(specs, mode, tables, es[..|es| - 1], [], name);
    }
  }

  lemma {:induction false} AdvancedToLast(cursors: Cursors, es: seq<Event>, f: Feed)
    requires InOrder(cursors, es)
    ensures CursorOf(Advanced(cursors, es), f) == CursorAfter(cursors, es, f)
    decreases |es|
  {
    if es != [] {
      var e, rest := es[0], es[1..];
      InOrderRest(cursors, es);
      AdvancedToLast(Moved(cursors, e), rest, f);
      assert es == [e] + rest;
      EventsOfCons(e, rest, f);
    }
  }

  lemma {:induction false} EventsOfCons(e: Event, rest: seq<Event>, f: Feed)
    ensures EventsOf([e] + rest, f) == (if FeedOf(e) == f then [e] else []) + EventsOf(rest, f)
    decreases |rest|
  {
    var es := [e] + rest;
    if rest == [] {
      assert es[..0] == [];
    } else {
      assert es[..|es| - 1] == [e] + rest[..|rest| - 1];
      EventsOfCons(e, rest[..|rest| - 1], f);
    }
  }

  /**
   A whole-row transaction of one region that is in order and safe commits, gives every table the
   contents that one-by-one application gives, and leaves every cursor at the last event of its feed.
   */
  lemma CommitIsOneByOne(specs: Specs, mode: ApplyMode, peer: string, st: Store, es: seq<Event>)
    requires ValidTables(specs, st.tables) && FullTransaction(specs, peer, es) && SafeTransaction(peer, es)
    requires !mode.InsertOnlyMode? && InOrder(st.cursors, es)
    ensures Committed(specs, mode, st, es).Success?
    ensures var after := Committed(specs, mode, st, es).value;
            && after.tables == OneByOne(specs, mode, st.tables, es)
            && forall f :: CursorOf(after.cursors, f) == CursorAfter(st.cursors, es, f)
  {
    var locked := Locked(st.cursors, es);
    KeptWhole(st.cursors, es, locked);
    TransactionApplicable(specs, mode, peer, st.tables, es);
    BatchIsOneByOne(specs, mode, peer, st.tables, es);
    forall f
      ensures CursorOf(Advanced(locked, es), f) == CursorAfter(st.cursors, es, f)
    {
      AdvancedToLast(locked, es, f);
      assert CursorOf(locked, f) == CursorOf(st.cursors, f);
    }
  }

  /** The last event of the feed, or the cursor there was. */
  function CursorAfter(cursors: Cursors, es: seq<Event>, f: Feed): Cursor {
    var sub := EventsOf(es, f);
    if sub == [] then CursorOf(cursors, f) else Cursor(sub[|sub| - 1].id, PositionOf(sub[|sub| - 1]))
  }

  lemma KeptWhole(cursors: Cursors, es: seq<Event>, locked: Cursors)
    requires InOrder(cursors, es) && locked == Locked(cursors, es)
    ensures InOrder(locked, es) && Kept(locked, es) == es
  {
    assert forall f :: CursorOf(locked, f) == CursorOf(cursors, f);
    NothingFilteredIff(locked, es);
  }
}
