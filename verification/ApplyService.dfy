/**
 The apply path of the replication service (internal/service/replication/service.go): the mode
 filter, the stable sort of polling batches, and what the cursor filter then keeps.
 */
module ApplyService {
  import opened PrimaryKeys
  import opened Positions
  import opened Rows
  import opened Commit
  import opened Repositories

  // ---- the order of events ----

  /** What compareCursorOrderedEvents looks at. */
  datatype Place = Place(feed: Feed, pos: Position)

  function PlaceOf(e: Event): Place {
    Place(FeedOf(e), PositionOf(e))
  }

  function PlaceOrder(l: Place, r: Place): int {
    var byPeer := CompareText(l.feed.peer, r.feed.peer);
    if byPeer != 0 then byPeer
    else
      var byTable := CompareText(l.feed.table, r.feed.table);
      if byTable != 0 then byTable
      else
        var byVersion := CompareInts(l.pos.version, r.pos.version);
        if byVersion != 0 then byVersion else KeyOrder(l.pos.key, r.pos.key)
  }

  predicate PlaceLess(l: Place, r: Place) {
    PlaceOrder(l, r) < 0
  }

  lemma PlacesAreOrdered(a: Place, b: Place, c: Place)
    ensures !PlaceLess(a, a)
    ensures !(PlaceLess(a, b) && PlaceLess(b, a))
    ensures a == b || PlaceLess(a, b) || PlaceLess(b, a)
    ensures PlaceLess(a, b) && PlaceLess(b, c) ==> PlaceLess(a, c)
    ensures a.feed == b.feed ==> (PlaceLess(a, b) <==> Before(a.pos, b.pos))
  {
    TextOrder(a.feed.peer, b.feed.peer, c.feed.peer);
    TextOrder(b.feed.peer, c.feed.peer, a.feed.peer);
    TextOrder(a.feed.table, b.feed.table, c.feed.table);
    TextOrder(b.feed.table, c.feed.table, a.feed.table);
    TextOrder(a.feed.peer, a.feed.peer, a.feed.peer);
    TextOrder(a.feed.table, a.feed.table, a.feed.table);
    KeyOrderIsTotalPreorder(a.pos.key, b.pos.key, c.pos.key);
    KeyTrichotomy(a.pos.key, b.pos.key);
  }

  predicate Ordered(es: seq<Event>) {
    forall i, j :: 0 <= i < j < |es| ==> !PlaceLess(PlaceOf(es[j]), PlaceOf(es[i]))
  }

  /** The events at one place, in order. */
  function At(es: seq<Event>, q: Place): seq<Event> {
    if es == [] then [] else (if PlaceOf(es[0]) == q then [es[0]] else []) + At(es[1..], q)
  }

  /** A stable sort: ordered, and events at one place keep their order and number. */
  ghost predicate IsStableSort(es: seq<Event>, sorted: seq<Event>) {
    Ordered(sorted) && forall q :: At(sorted, q) == At(es, q)
  }

  function Placed(e: Event, s: seq<Event>): seq<Event> {
    if s == [] then [e]
    else if PlaceLess(PlaceOf(s[0]), PlaceOf(e)) then [s[0]] + Placed(e, s[1..])
    else [e] + s
  }

  function Sorted(es: seq<Event>): seq<Event> {
    if es == [] then [] else Placed(es[0], Sorted(es[1..]))
  }

  lemma {:induction false} AtMembers(es: seq<Event>, q: Place)
    ensures forall e :: e in At(es, q) <==> e in es && PlaceOf(e) == q
  {
    if es != [] {
      AtMembers(es[1..], q);
      assert es == [es[0]] + es[1..];
    }
  }

  lemma {:induction false} PlacedAt(e: Event, s: seq<Event>, q: Place)
    ensures At(Placed(e, s), q) == (if PlaceOf(e) == q then [e] else []) + At(s, q)
  {
    if s != [] && PlaceLess(PlaceOf(s[0]), PlaceOf(e)) {
      PlacedAt(e, s[1..], q);
      PlacesAreOrdered(PlaceOf(s[0]), PlaceOf(e), q);
      AtCons(s[0], Placed(e, s[1..]), q);
    } else {
      assert Placed(e, s) == [e] + s;
      AtCons(e, s, q);
    }
  }

  lemma AtCons(e: Event, rest: seq<Event>, q: Place)
    ensures At([e] + rest, q) == (if PlaceOf(e) == q then [e] else []) + At(rest, q)
  {
    assert ([e] + rest)[1..] == rest;
  }

  lemma {:induction false} PlacedOrdered(e: Event, s: seq<Event>)
    requires Ordered(s)
    ensures Ordered(Placed(e, s))
    ensures forall x :: x in Placed(e, s) <==> x == e || x in s
  {
    if s != [] {
      assert s == [s[0]] + s[1..];
      if PlaceLess(PlaceOf(s[0]), PlaceOf(e)) {
        PlacedOrdered(e, s[1..]);
        HeadOrdered(s[0], Placed(e, s[1..]), s, e);
      } else {
        forall x | x in s
          ensures !PlaceLess(PlaceOf(x), PlaceOf(e))
        {
          PlacesAreOrdered(PlaceOf(x), PlaceOf(e), PlaceOf(s[0]));
          PlacesAreOrdered(PlaceOf(e), PlaceOf(s[0]), PlaceOf(x));
          PlacesAreOrdered(PlaceOf(s[0]), PlaceOf(x), PlaceOf(e));
        }
      }
    }
  }

  lemma HeadOrdered(head: Event, tail: seq<Event>, s: seq<Event>, e: Event)
    requires Ordered(s) && s != [] && head == s[0] && Ordered(tail)
    requires forall x :: x in tail ==> x == e || x in s[1..]
    requires PlaceLess(PlaceOf(head), PlaceOf(e))
    ensures Ordered([head] + tail)
  {
    var all := [head] + tail;
    forall i, j | 0 <= i < j < |all|
      ensures !PlaceLess(PlaceOf(all[j]), PlaceOf(all[i]))
    {
      if i == 0 {
        assert all[j] in tail;
        PlacesAreOrdered(PlaceOf(head), PlaceOf(e), PlaceOf(head));
      }
    }
  }

  lemma {:induction false} SortedIsStableSort(es: seq<Event>)
    ensures IsStableSort(es, Sorted(es))
  {
    if es != [] {
      SortedIsStableSort(es[1..]);
      PlacedOrdered(es[0], Sorted(es[1..]));
      forall q
        ensures At(Sorted(es), q) == At(es, q)
      {
        PlacedAt(es[0], Sorted(es[1..]), q);
      }
    }
  }

  lemma HeadIsLeast(s: seq<Event>, x: Event)
    requires Ordered(s) && x in s
    ensures !PlaceLess(PlaceOf(x), PlaceOf(s[0]))
  {
    PlacesAreOrdered(PlaceOf(x), PlaceOf(x), PlaceOf(x));
    var i :| 0 <= i < |s| && s[i] == x;
  }

  lemma SameHead(a: seq<Event>, b: seq<Event>)
    requires Ordered(a) && Ordered(b) && forall q :: At(a, q) == At(b, q)
    requires a != []
    ensures b != [] && a[0] == b[0]
  {
    var p := PlaceOf(a[0]);
    assert At(a, p)[0] == a[0] && At(a, p) == At(b, p);
    AtMembers(b, p);
    HeadIsLeast(b, a[0]);
    var r := PlaceOf(b[0]);
    assert At(b, r)[0] == b[0] && At(a, r) == At(b, r);
    AtMembers(a, r);
    HeadIsLeast(a, b[0]);
    PlacesAreOrdered(p, r, p);
  }

  /** There is only one stable sort, so the model holds of any implementation of it. */
  lemma {:induction false} StableSortUnique(a: seq<Event>, b: seq<Event>)
    requires Ordered(a) && Ordered(b) && forall q :: At(a, q) == At(b, q)
    ensures a == b
    decreases |a|
  {
    if a == [] {
      if b != [] {
        SameHead(b, a);
      }
    } else {
      SameHead(a, b);
      forall q
        ensures At(a[1..], q) == At(b[1..], q)
      {
        var head := if PlaceOf(a[0]) == q then [a[0]] else [];
        assert At(a, q) == At(b, q);
        assert At(a, q) == head + At(a[1..], q) && At(b, q) == head + At(b[1..], q);
        assert (head + At(a[1..], q))[|head|..] == At(a[1..], q);
        assert (head + At(b[1..], q))[|head|..] == At(b[1..], q);
      }
      StableSortUnique(a[1..], b[1..]);
      assert a == [a[0]] + a[1..] && b == [b[0]] + b[1..];
    }
  }

  // ---- sort, then filter ----

  /** Of an ordered batch the filter keeps the first event of every place beyond the cursor. */
  lemma {:induction false} FilterOrdered(cursors: Cursors, s: seq<Event>, q: Place)
    requires Ordered(s)
    ensures At(Kept(cursors, s), q)
         == if Before(CursorOf(cursors, q.feed).last, q.pos) && At(s, q) != [] then [At(s, q)[0]] else []
    decreases |s|
  {
    if s != [] {
      var e, rest := s[0], s[1..];
      StaleIffNotAfter(e, CursorOf(cursors, FeedOf(e)));
      AtMembers(rest, q);
      if StaleAt(cursors, e) {
        FilterOrdered(cursors, rest, q);
      } else {
        var next := Moved(cursors, e);
        FilterOrdered(next, rest, q);
        assert ([e] + Kept(next, rest))[1..] == Kept(next, rest);
        BeforeTrichotomy(q.pos, PositionOf(e));
        PlacesAreOrdered(PlaceOf(e), q, q);
        if At(rest, q) != [] && q.feed == FeedOf(e) && q != PlaceOf(e) {
          assert At(rest, q)[0] in rest;
          BeforeTransitive(CursorOf(cursors, q.feed).last, PositionOf(e), q.pos);
        }
      }
    }
  }

  lemma {:induction false} KeptIn(cursors: Cursors, s: seq<Event>)
    ensures forall e :: e in Kept(cursors, s) ==> e in s
    decreases |s|
  {
    if s != [] {
      KeptIn(cursors, s[1..]);
      KeptIn(Moved(cursors, s[0]), s[1..]);
    }
  }

  lemma {:induction false} KeptOrdered(cursors: Cursors, s: seq<Event>)
    requires Ordered(s)
    ensures Ordered(Kept(cursors, s))
    decreases |s|
  {
    if s != [] {
      var next := Moved(cursors, s[0]);
      KeptOrdered(cursors, s[1..]);
      KeptOrdered(next, s[1..]);
      KeptIn(next, s[1..]);
      forall x | x in Kept(next, s[1..])
        ensures !PlaceLess(PlaceOf(x), PlaceOf(s[0]))
      {
        HeadIsLeast(s, x);
      }
    }
  }

  /** What survives at one place: its first event, if the place lies beyond the cursor. */
  function FirstBeyond(cursors: Cursors, es: seq<Event>, q: Place): seq<Event> {
    if Before(CursorOf(cursors, q.feed).last, q.pos) && At(es, q) != [] then [At(es, q)[0]] else []
  }

  /**
   Sort then filter is exact: of a polling batch, at every place beyond the stored cursor the first
   event in delivery order survives, and nothing else does; the survivors are in order.
   */
  lemma SortThenFilterIsExact(cursors: Cursors, es: seq<Event>, sorted: seq<Event>)
    requires IsStableSort(es, sorted)
    ensures Ordered(Kept(cursors, sorted))
    ensures forall q :: At(Kept(cursors, sorted), q) == FirstBeyond(cursors, es, q)
  {
    KeptOrdered(cursors, sorted);
    forall q
      ensures At(Kept(cursors, sorted), q) == FirstBeyond(cursors, es, q)
    {
      FilterOrdered(cursors, sorted, q);
    }
  }

  // ---- the service ----

  predicate ApplyAllowed(mode: ApplyMode, op: Operation) {
    match mode
    case InsertOnlyMode => op.Insert?
    case UpsertMode => !op.Delete?
    case FullSyncMode => true
  }

  function Allowed(mode: ApplyMode, es: seq<Event>): seq<Event> {
    if es == [] then []
    else Allowed(mode, es[..|es| - 1]) + (if ApplyAllowed(mode, es[|es| - 1].op) then [es[|es| - 1]] else [])
  }

  /** The batch handed to the repository: allowed operations, sorted for polling batches. */
  function Prepared(mode: ApplyMode, sortForCursor: bool, es: seq<Event>): seq<Event> {
    if sortForCursor then Sorted(Allowed(mode, es)) else Allowed(mode, es)
  }

  predicate WellFormedEvent(e: Event) {
    e.peer != "" && e.table != "" && e.id != "" && e.key != []
  }

  predicate WellFormedBatch(es: seq<Event>) {
    forall e :: e in es ==> WellFormedEvent(e)
  }

  /** What applyBatch does to the store; a malformed event rejects the whole batch. */
  function Applied(specs: Specs, mode: ApplyMode, sortForCursor: bool, st: Store, es: seq<Event>): Result<Store> {
    if WellFormedBatch(es) then Committed(specs, mode, st, Prepared(mode, sortForCursor, es)) else Failure
  }

  lemma CommitNothing(specs: Specs, mode: ApplyMode, st: Store)
    ensures Committed(specs, mode, st, []) == Success(st)
  {
    assert Locked(st.cursors, []) == st.cursors;
  }

  method ApplyBatch(repo: Repository, mode: ApplyMode, events: seq<Event>, sortForCursor: bool) returns (ok: bool)
    requires repo.Valid()
    modifies repo
    ensures repo.Valid()
    ensures ok <==> Applied(repo.specs, mode, sortForCursor, old(repo.Contents()), events).Success?
    ensures ok ==> Success(repo.Contents()) == Applied(repo.specs, mode, sortForCursor, old(repo.Contents()), events)
    ensures !ok ==> repo.Contents() == old(repo.Contents())
  {
    CommitNothing(repo.specs, mode, repo.Contents());
    if |events| == 0 {
      return true;
    }
    var prepared: seq<Event> := [];
    for i := 0 to |events|
      invariant WellFormedBatch(events[..i]) && prepared == Allowed(mode, events[..i])
    {
      var e := events[i];
      assert events[..i + 1] == events[..i] + [e];
      if !WellFormedEvent(e) {
        assert e in events;
        return false;
      }
      if ApplyAllowed(mode, e.op) {
        prepared := prepared + [e];
      }
    }
    assert events[..|events|] == events;
    if |prepared| == 0 {
      return true;
    }
    if sortForCursor {
      prepared := Sorted(prepared);
    }
    ok := repo.CommitStateAppliedTransaction(prepared, mode);
  }
}
