/**
 The polling scan (internal/service/changefeed/adapter/polling.go:82-147,
 internal/repository/postgres/changefeed_polling.go): pages of rows beyond a version and key, in order.
 */
module Polling {
  import opened PrimaryKeys
  import opened Positions
  import Paging

  const PAGE_SIZE: nat := 1000

  /** The versions of a table's owned rows, by key. */
  type View = map<Key, int>

  function PositionsOf(view: View): set<Position> {
    set k | k in view :: Position(view[k], k)
  }

  lemma PositionsAre(view: View, p: Position)
    ensures p in PositionsOf(view) <==> p.key in view && p.version == view[p.key]
  {
    if p.key in view && p.version == view[p.key] {
      assert Position(view[p.key], p.key) == p;
    }
  }

  /** A cursor without a key stands for all rows of its version. */
  predicate Beyond(cursor: Position, p: Position) {
    if cursor.key == [] then p.version > cursor.version else Before(cursor, p)
  }

  function Rest(view: View, cursor: Position): set<Position> {
    set p | p in PositionsOf(view) && Beyond(cursor, p)
  }

  /** ChangefeedPollingListTableChanges. */
  function PageOf(view: View, cursor: Position): seq<Position> {
    Paging.Page(Rest(view, cursor), None, PAGE_SIZE)
  }

  predicate NoEmptyKey(view: View) {
    [] !in view
  }

  predicate IsMaxVersion(view: View, v: int) {
    && (forall k :: k in view ==> view[k] <= v)
    && (if view == map[] then v == 0 else exists k :: k in view && view[k] == v)
  }

  lemma {:induction false} MaxVersionExists(view: View)
    ensures exists v :: IsMaxVersion(view, v)
    decreases |view|
  {
    if view == map[] {
      assert IsMaxVersion(view, 0);
    } else {
      var x :| x in view;
      var rest := view - {x};
      MaxVersionExists(rest);
      var v :| IsMaxVersion(rest, v);
      assert forall k :: k in view ==> k == x || (k in rest && rest[k] == view[k]);
      if rest == map[] || view[x] > v {
        assert IsMaxVersion(view, view[x]);
      } else {
        var k :| k in rest && rest[k] == v;
        assert k in view && view[k] == v;
        assert IsMaxVersion(view, v);
      }
    }
  }

  lemma MaxVersionUnique(view: View)
    ensures forall v, w :: IsMaxVersion(view, v) && IsMaxVersion(view, w) ==> v == w
  {
  }

  /** ChangefeedPollingCurrentMaxVersion. */
  function MaxVersion(view: View): (v: int)
    ensures IsMaxVersion(view, v)
  {
    MaxVersionExists(view);
    MaxVersionUnique(view);
    var v :| IsMaxVersion(view, v);
    v
  }

  lemma BeyondTransitive(cursor: Position, p: Position, q: Position)
    requires Beyond(cursor, p) && Before(p, q)
    ensures Beyond(cursor, q)
  {
    if cursor.key != [] {
      BeforeTransitive(cursor, p, q);
    }
  }

  // ---- one table, not changing during the scan ----

  /** The rest after a page: what lies beyond the page's last row. */
  lemma PageThenRest(view: View, cursor: Position)
    requires NoEmptyKey(view)
    ensures var page := PageOf(view, cursor);
            var next := if page == [] then cursor else page[|page| - 1];
            && Paging.Ordered(Rest(view, cursor)) == page + Paging.Ordered(Rest(view, next))
            && (|page| < PAGE_SIZE ==> Rest(view, next) == {})
            && (page != [] ==> page[|page| - 1] in Rest(view, cursor) && Rest(view, next) < Rest(view, cursor))
  {
    var all, page := Rest(view, cursor), PageOf(view, cursor);
    PageOfAll(all, page);
    if page != [] {
      LastOfPage(view, cursor);
    }
  }

  lemma PageOfAll(all: set<Position>, page: seq<Position>)
    requires page == Paging.Page(all, None, PAGE_SIZE)
    ensures page == [] ==> all == {} && Paging.Ordered(all) == page + Paging.Ordered(all)
    ensures page != [] ==> Paging.Ordered(all) == page + Paging.Ordered(Paging.Rest(all, Some(page[|page| - 1])))
  {
    Paging.PageThenRest(all, None, PAGE_SIZE);
    Paging.OrderedIs(all);
    assert Paging.Rest(all, None) == all;
  }

  lemma LastOfPage(view: View, cursor: Position)
    requires NoEmptyKey(view) && PageOf(view, cursor) != []
    ensures var page := PageOf(view, cursor);
            var next := page[|page| - 1];
            && next in Rest(view, cursor) && Paging.Rest(Rest(view, cursor), Some(next)) == Rest(view, next)
            && (|page| < PAGE_SIZE ==> Rest(view, next) == {})
            && Rest(view, next) < Rest(view, cursor)
  {
    var all, page := Rest(view, cursor), PageOf(view, cursor);
    var next := page[|page| - 1];
    Paging.PageWithin(all, None, PAGE_SIZE);
    Paging.PageHolds(all, None, PAGE_SIZE);
    assert next in page;
    PositionsAre(view, next);
    forall p | p in Rest(view, next)
      ensures p in all
    {
      BeyondTransitive(cursor, next, p);
    }
    BeforeTrichotomy(next, next);
    if |page| < PAGE_SIZE {
      forall p | p in Rest(view, next)
        ensures false
      {
        assert p in all && p in page;
        BeforeTrichotomy(p, next);
      }
    }
  }

  function Joined(batches: seq<seq<Position>>): seq<Position> {
    if batches == [] then [] else Joined(batches[..|batches| - 1]) + batches[|batches| - 1]
  }

  class Poller {
    var cursors: map<string, Position>

    constructor ()
      ensures cursors == map[]
    {
      cursors := map[];
    }

    function Cursor(table: string): Position
      reads this
    {
      if table in cursors then cursors[table] else Position(0, [])
    }

    /** Restores a saved cursor, or starts at the newest version there is. */
    method RestoreCursor(table: string, saved: Position, view: View)
      modifies this
      ensures cursors == old(cursors)[table := if saved.version == 0 then Position(MaxVersion(view), []) else saved]
    {
      var version, key := saved.version, saved.key;
      if version == 0 {
        version, key := MaxVersion(view), [];
      }
      cursors := cursors[table := Position(version, key)];
    }

    /**
     Scans one table. The callback accepts the given number of batches and refuses the next. The
     accepted batches are the rows beyond the cursor in strictly increasing order, all of them if no
     batch is refused, and the cursor stops at the last accepted row.
     */
    method PollTable(table: string, view: View, accepts: nat) returns (ok: bool, batches: seq<seq<Position>>)
      requires NoEmptyKey(view)
      modifies this
      ensures Scanned(view, old(Cursor(table)), Joined(batches), Cursor(table))
      ensures ok <==> Rest(view, Cursor(table)) == {}
      ensures ok || |batches| == accepts
      ensures cursors == old(cursors) || cursors == old(cursors)[table := Cursor(table)]
    {
      batches := [];
      ghost var start := Cursor(table);
      ghost var joined: seq<Position> := [];
      var cursor, more := Cursor(table), true;
      NothingScanned(view, cursor);
      while more
        invariant cursor == Cursor(table) && joined == Joined(batches) && Scanned(view, start, joined, cursor)
        invariant cursors == old(cursors) || cursors == old(cursors)[table := cursor]
        invariant !more ==> Rest(view, cursor) == {}
        decreases more, |Rest(view, cursor)|
      {
        var page := PageOf(view, cursor);
        PageThenRest(view, cursor);
        if |page| > 0 {
          if |batches| == accepts {
            return false, batches;
          }
          ScanStep(view, start, joined, cursor, page);
          assert (batches + [page])[..|batches|] == batches;
          batches, joined := batches + [page], joined + page;
          cursor := page[|page| - 1];
        }
        cursors := cursors[table := cursor];
        more := |page| >= PAGE_SIZE;
      }
      ok := true;
    }
  }

  lemma {:induction false} SmallerSet(a: set<Position>, b: set<Position>)
    requires a < b
    ensures |a| < |b|
  {
    var x :| x in b && x !in a;
    var rest := b - {x};
    assert a <= rest;
    SmallerOrEqual(a, rest);
  }

  lemma {:induction false} SmallerOrEqual(a: set<Position>, b: set<Position>)
    requires a <= b
    ensures |a| <= |b|
    decreases |a|
  {
    if a != {} {
      var x :| x in a;
      SmallerOrEqual(a - {x}, b - {x});
    }
  }

  /** Some first rows beyond the start, in order; the cursor is at the last of them. */
  predicate Scanned(view: View, start: Position, joined: seq<Position>, cursor: Position) {
    && Increasing(joined)
    && Paging.Ordered(Rest(view, start)) == joined + Paging.Ordered(Rest(view, cursor))
    && cursor == if joined == [] then start else joined[|joined| - 1]
  }

  lemma NothingScanned(view: View, start: Position)
    ensures Scanned(view, start, [], start)
  {
    assert Paging.Ordered(Rest(view, start)) == [] + Paging.Ordered(Rest(view, start));
  }

  lemma ScanStep(view: View, start: Position, joined: seq<Position>, cursor: Position, page: seq<Position>)
    requires NoEmptyKey(view) && Scanned(view, start, joined, cursor) && page == PageOf(view, cursor) && page != []
    ensures Scanned(view, start, joined + page, page[|page| - 1])
    ensures |Rest(view, page[|page| - 1])| < |Rest(view, cursor)|
  {
    PageThenRest(view, cursor);
    Paging.OrderedIs(Rest(view, start));
    var all, rest, tail := Paging.Ordered(Rest(view, start)), Paging.Ordered(Rest(view, cursor)),
      Paging.Ordered(Rest(view, page[|page| - 1]));
    PrefixGrows(all, joined, rest, page, tail);
    SmallerSet(Rest(view, page[|page| - 1]), Rest(view, cursor));
  }

  lemma PrefixGrows(
    all: seq<Position>, joined: seq<Position>, rest: seq<Position>, page: seq<Position>, tail: seq<Position>)
    requires Increasing(all) && all == joined + rest && rest == page + tail
    ensures all == (joined + page) + tail && Increasing(joined + page)
  {
    assert joined + (page + tail) == (joined + page) + tail;
    assert all[..|joined + page|] == joined + page;
  }
}
