/**
 Reading and sending a snapshot: keyset-paged chunks over a table that may change between reads
 (internal/repository/postgres/snapshot.go, internal/service/snapshot/service.go).
 */
module SnapshotSend {
  import opened PrimaryKeys
  import opened Positions
  import opened Rows
  import opened OwnerGating
  import Paging

  datatype Chunk = Chunk(rows: seq<SnapshotRow>, last: bool)

  /** The owner column of the table, the local region (empty: no filter) and the chunk size. */
  datatype Query = Query(regionField: Option<string>, region: string, limit: nat)

  predicate IsOwned(q: Query, row: Row) {
    q.regionField.Some? && q.region != "" ==>
      q.regionField.value in row && row[q.regionField.value] == Val(q.region)
  }

  /** Snapshot rows carry version 0, so their order is the key order. */
  function At(k: Key): Position {
    Position(0, k)
  }

  /** An empty resume key reads from the start. */
  function Cursor(after: Key): Option<Position> {
    if after == [] then None else Some(At(after))
  }

  predicate After(after: Key, k: Key) {
    after != [] ==> KeyLess(after, k)
  }

  function OwnedKeys(q: Query, view: Table): set<Position> {
    set k | k in view && IsOwned(q, view[k]) :: At(k)
  }

  lemma OwnedKeysAre(q: Query, view: Table, p: Position)
    ensures p in OwnedKeys(q, view) <==> p.version == 0 && p.key in view && IsOwned(q, view[p.key])
  {
    if p.version == 0 && p.key in view && IsOwned(q, view[p.key]) {
      assert At(p.key) == p;
    }
  }

  /** The rows at given positions of the table. */
  function RowsAt(view: Table, ps: seq<Position>): seq<SnapshotRow>
    requires forall p :: p in ps ==> p.key in view
  {
    seq(|ps|, i requires 0 <= i < |ps| => SnapshotRow(ps[i].key, view[ps[i].key]))
  }

  function PageOf(q: Query, view: Table, after: Key): (ps: seq<Position>)
    ensures forall p :: p in ps ==> p in OwnedKeys(q, view) && p.key in view
  {
    Paging.PageWithin(OwnedKeys(q, view), Cursor(after), q.limit);
    Paging.Page(OwnedKeys(q, view), Cursor(after), q.limit)
  }

  /** The chunk a read returns. */
  function ChunkOf(q: Query, view: Table, after: Key): Chunk {
    var ps := PageOf(q, view, after);
    Chunk(RowsAt(view, ps), |ps| < q.limit)
  }

  /** All owned rows beyond a key, in key order. */
  function SortedRows(q: Query, view: Table, after: Key): seq<SnapshotRow> {
    Paging.OrderedIs(Paging.Rest(OwnedKeys(q, view), Cursor(after)));
    RowsAt(view, Paging.Ordered(Paging.Rest(OwnedKeys(q, view), Cursor(after))))
  }

  predicate HasKey(rows: seq<SnapshotRow>, k: Key) {
    exists i :: 0 <= i < |rows| && rows[i].key == k
  }

  predicate KeysIncrease(rows: seq<SnapshotRow>) {
    forall i, j :: 0 <= i < j < |rows| ==> KeyLess(rows[i].key, rows[j].key)
  }

  predicate NoEmptyKey(view: Table) {
    [] !in view
  }

  method ReadSnapshotChunk(q: Query, view: Table, after: Key) returns (chunk: Chunk)
    ensures chunk == ChunkOf(q, view, after)
  {
    var page := PageOf(q, view, after);
    var rows: seq<SnapshotRow> := [];
    for i := 0 to |page|
      invariant rows == RowsAt(view, page)[..i]
    {
      assert page[i] in page;
      rows := rows + [SnapshotRow(page[i].key, view[page[i].key])];
    }
    return Chunk(rows, |rows| < q.limit);
  }

  // ---- one chunk ----

  function LastKey(after: Key, rows: seq<SnapshotRow>): Key {
    if rows == [] then after else rows[|rows| - 1].key
  }

  /** The keys a chunk answers for: up to its last row, or all if it is the last chunk. */
  predicate InRange(after: Key, chunk: Chunk, k: Key) {
    After(after, k) && (chunk.last || UpTo(k, LastKey(after, chunk.rows)))
  }

  predicate UpTo(k: Key, bound: Key) {
    bound != [] && (k == bound || KeyLess(k, bound))
  }

  predicate Shows(q: Query, view: Table, k: Key) {
    k in view && IsOwned(q, view[k])
  }

  lemma ChunkRows(q: Query, view: Table, after: Key, i: nat)
    requires i < |ChunkOf(q, view, after).rows|
    ensures var r := ChunkOf(q, view, after).rows[i];
            Shows(q, view, r.key) && r.payload == view[r.key] && PageOf(q, view, after)[i] == At(r.key)
  {
    var ps := PageOf(q, view, after);
    OwnedKeysAre(q, view, ps[i]);
  }

  lemma ChunkKeys(q: Query, view: Table, after: Key, k: Key)
    ensures HasKey(ChunkOf(q, view, after).rows, k) <==> At(k) in PageOf(q, view, after)
  {
    var ps, rows := PageOf(q, view, after), ChunkOf(q, view, after).rows;
    if HasKey(rows, k) {
      var i :| 0 <= i < |rows| && rows[i].key == k;
      ChunkRows(q, view, after, i);
    }
    if At(k) in ps {
      var i :| 0 <= i < |ps| && ps[i] == At(k);
      assert rows[i].key == k;
    }
  }

  lemma ChunkIncreases(q: Query, view: Table, after: Key)
    ensures KeysIncrease(ChunkOf(q, view, after).rows)
  {
    var rows := ChunkOf(q, view, after).rows;
    Paging.PageHolds(OwnedKeys(q, view), Cursor(after), q.limit);
    forall i, j | 0 <= i < j < |rows|
      ensures KeyLess(rows[i].key, rows[j].key)
    {
      ChunkRows(q, view, after, i);
      ChunkRows(q, view, after, j);
    }
  }

  lemma ChunkHolds(q: Query, view: Table, after: Key, k: Key)
    requires q.limit > 0 && NoEmptyKey(view)
    ensures var chunk := ChunkOf(q, view, after);
            HasKey(chunk.rows, k) <==> Shows(q, view, k) && InRange(after, chunk, k)
  {
    var ps := PageOf(q, view, after);
    ChunkKeys(q, view, after, k);
    PageHoldsKey(q, view, after, k, ps);
    if ps != [] {
      ChunkRows(q, view, after, |ps| - 1);
    }
  }

  lemma PageHoldsKey(q: Query, view: Table, after: Key, k: Key, ps: seq<Position>)
    requires q.limit > 0 && NoEmptyKey(view) && ps == PageOf(q, view, after)
    ensures ps != [] ==> ps[|ps| - 1].version == 0 && ps[|ps| - 1].key != []
    ensures |ps| < q.limit ==> (At(k) in ps <==> Shows(q, view, k) && After(after, k))
    ensures ps != [] ==> (At(k) in ps <==> Shows(q, view, k) && After(after, k) && UpTo(k, ps[|ps| - 1].key))
  {
    Paging.PageHolds(OwnedKeys(q, view), Cursor(after), q.limit);
    OwnedKeysAre(q, view, At(k));
    if ps != [] {
      assert ps[|ps| - 1] in ps;
      OwnedKeysAre(q, view, ps[|ps| - 1]);
    }
  }

  /** A chunk sends exactly the owned rows of its range, in key order. */
  lemma ChunkIsExact(q: Query, view: Table, after: Key)
    requires q.limit > 0 && NoEmptyKey(view)
    ensures var chunk := ChunkOf(q, view, after);
            && KeysIncrease(chunk.rows)
            && (forall k :: HasKey(chunk.rows, k) <==> Shows(q, view, k) && InRange(after, chunk, k))
            && (forall r :: r in chunk.rows ==> r.key in view && r.payload == view[r.key])
            && (!chunk.last ==> |chunk.rows| == q.limit)
  {
    var chunk := ChunkOf(q, view, after);
    ChunkIncreases(q, view, after);
    forall k
      ensures HasKey(chunk.rows, k) <==> Shows(q, view, k) && InRange(after, chunk, k)
    {
      ChunkHolds(q, view, after, k);
    }
    forall r | r in chunk.rows
      ensures r.key in view && r.payload == view[r.key]
    {
      var i :| 0 <= i < |chunk.rows| && chunk.rows[i] == r;
      ChunkRows(q, view, after, i);
    }
    Paging.PageHolds(OwnedKeys(q, view), Cursor(after), q.limit);
  }

  /** A chunk that is not the last one moves the resume key forward. */
  lemma ChunkAdvances(q: Query, view: Table, after: Key)
    requires q.limit > 0 && NoEmptyKey(view)
    ensures var chunk := ChunkOf(q, view, after);
            !chunk.last ==>
              chunk.rows != [] && LastKey(after, chunk.rows) != [] && After(after, LastKey(after, chunk.rows))
  {
    var chunk := ChunkOf(q, view, after);
    ChunkIsExact(q, view, after);
    if !chunk.last {
      assert HasKey(chunk.rows, LastKey(after, chunk.rows));
    }
  }

  lemma AfterTransitive(a: Key, b: Key, c: Key)
    requires After(a, b) && b != [] && (After(b, c) || UpTo(b, c))
    ensures After(a, c)
  {
    if a != [] && b != c {
      KeyTransitive(a, b, c);
    }
  }

  // ---- a send ----

  /**
   The chunks of one send. The reads see the table at different moments, one view each; a send that
   runs out of views was cut there.
   */
  function Sent(q: Query, views: seq<Table>, after: Key): seq<Chunk>
    decreases |views|
  {
    if views == [] then []
    else
      var chunk := ChunkOf(q, views[0], after);
      if chunk.last || chunk.rows == [] then [chunk]
      else [chunk] + Sent(q, views[1..], LastKey(after, chunk.rows))
  }

  predicate Finished(q: Query, views: seq<Table>, after: Key)
    decreases |views|
  {
    views != [] &&
    var chunk := ChunkOf(q, views[0], after);
    chunk.last || chunk.rows == [] || Finished(q, views[1..], LastKey(after, chunk.rows))
  }

  /** The last key sent. */
  function Reached(q: Query, views: seq<Table>, after: Key): Key
    decreases |views|
  {
    if views == [] then after
    else
      var chunk := ChunkOf(q, views[0], after);
      if chunk.last || chunk.rows == [] then LastKey(after, chunk.rows)
      else Reached(q, views[1..], LastKey(after, chunk.rows))
  }

  method SendToPeer(q: Query, views: seq<Table>, after: Key) returns (chunks: seq<Chunk>, done: bool)
    ensures chunks == Sent(q, views, after) && done == Finished(q, views, after)
  {
    chunks := [];
    var cursor, turn := after, 0;
    while turn < |views|
      invariant 0 <= turn <= |views|
      invariant chunks + Sent(q, views[turn..], cursor) == Sent(q, views, after)
      invariant Finished(q, views[turn..], cursor) == Finished(q, views, after)
    {
      var chunk := ReadSnapshotChunk(q, views[turn], cursor);
      assert views[turn..][0] == views[turn] && views[turn..][1..] == views[turn + 1..];
      chunks := chunks + [chunk];
      if chunk.last || |chunk.rows| == 0 {
        return chunks, true;
      }
      cursor := chunk.rows[|chunk.rows| - 1].key;
      turn := turn + 1;
    }
    done := false;
  }

  predicate Sound(q: Query, views: seq<Table>) {
    q.limit > 0 && forall i :: 0 <= i < |views| ==> NoEmptyKey(views[i])
  }

  lemma SoundRest(q: Query, views: seq<Table>)
    requires Sound(q, views) && views != []
    ensures NoEmptyKey(views[0]) && Sound(q, views[1..])
  {
  }

  /** The part of the key space a send has answered for. */
  predicate Covered(q: Query, views: seq<Table>, after: Key, k: Key) {
    After(after, k) && (Finished(q, views, after) || UpTo(k, Reached(q, views, after)))
  }

  lemma {:induction false} ReachedAdvances(q: Query, views: seq<Table>, after: Key)
    requires Sound(q, views)
    ensures !Finished(q, views, after) ==>
              || Reached(q, views, after) == after
              || (Reached(q, views, after) != [] && After(after, Reached(q, views, after)))
    decreases |views|
  {
    if views != [] {
      var chunk := ChunkOf(q, views[0], after);
      var next := LastKey(after, chunk.rows);
      SoundRest(q, views);
      ChunkAdvances(q, views[0], after);
      ReachedAdvances(q, views[1..], next);
      if !chunk.last && !Finished(q, views[1..], next) && Reached(q, views[1..], next) != next {
        AfterTransitive(after, next, Reached(q, views[1..], next));
      }
    }
  }

  lemma AfterOrUpTo(bound: Key, k: Key)
    requires bound != []
    ensures After(bound, k) <==> !UpTo(k, bound)
  {
    KeyTrichotomy(bound, k);
  }

  /** Beyond the first chunk, the send covers what the rest of it covers. */
  lemma CoveredStep(q: Query, views: seq<Table>, after: Key, k: Key)
    requires Sound(q, views) && views != []
    ensures var chunk := ChunkOf(q, views[0], after);
            var next := LastKey(after, chunk.rows);
            && (chunk.last ==> (Covered(q, views, after, k) <==> After(after, k)))
            && (!chunk.last ==>
                  && (InRange(after, chunk, k) ==> !Covered(q, views[1..], next, k))
                  && (Covered(q, views, after, k) <==> InRange(after, chunk, k) || Covered(q, views[1..], next, k)))
  {
    var chunk := ChunkOf(q, views[0], after);
    SoundRest(q, views);
    if !chunk.last {
      var next := LastKey(after, chunk.rows);
      var reached := Reached(q, views[1..], next);
      ChunkAdvances(q, views[0], after);
      ReachedAdvances(q, views[1..], next);
      AfterOrUpTo(next, k);
      if After(next, k) {
        AfterTransitive(after, next, k);
      } else if reached != next && !Finished(q, views[1..], next) && k != next {
        KeyTransitive(k, next, reached);
      }
    }
  }

  /** How many chunks answer for a key. */
  function RangeCount(after: Key, chunks: seq<Chunk>, k: Key): nat
    decreases |chunks|
  {
    if chunks == [] then 0
    else (if InRange(after, chunks[0], k) then 1 else 0) + RangeCount(LastKey(after, chunks[0].rows), chunks[1..], k)
  }

  /** Every key falls in exactly one chunk range of a send, and in none beyond a cut. */
  lemma {:induction false} RangesPartition(q: Query, views: seq<Table>, after: Key, k: Key)
    requires Sound(q, views)
    ensures RangeCount(after, Sent(q, views, after), k) == if Covered(q, views, after, k) then 1 else 0
    decreases |views|
  {
    if views == [] {
      NothingCovered(q, after, k);
    } else {
      var chunk := ChunkOf(q, views[0], after);
      var next := LastKey(after, chunk.rows);
      SoundRest(q, views);
      CoveredStep(q, views, after, k);
      ChunkAdvances(q, views[0], after);
      if chunk.last {
        assert [chunk][1..] == [];
      } else {
        RangesPartition(q, views[1..], next, k);
        assert ([chunk] + Sent(q, views[1..], next))[1..] == Sent(q, views[1..], next);
      }
    }
  }

  /** A finished send from the start answers for every key in exactly one chunk. */
  lemma FinishedSendCoversAll(q: Query, views: seq<Table>, k: Key)
    requires Sound(q, views) && Finished(q, views, [])
    ensures RangeCount([], Sent(q, views, []), k) == 1
  {
    RangesPartition(q, views, [], k);
  }

  lemma NothingCovered(q: Query, after: Key, k: Key)
    ensures !Covered(q, [], after, k)
  {
    if after != [] {
      AfterOrUpTo(after, k);
    }
  }

  // ---- the rows of a send ----

  function AllRows(chunks: seq<Chunk>): seq<SnapshotRow> {
    if chunks == [] then [] else chunks[0].rows + AllRows(chunks[1..])
  }

  lemma AllRowsStep(chunk: Chunk, rest: seq<Chunk>)
    ensures AllRows([chunk] + rest) == chunk.rows + AllRows(rest)
  {
    assert ([chunk] + rest)[1..] == rest;
  }

  lemma HasKeyJoin(a: seq<SnapshotRow>, b: seq<SnapshotRow>, k: Key)
    ensures HasKey(a + b, k) <==> HasKey(a, k) || HasKey(b, k)
  {
    var all := a + b;
    if HasKey(a, k) {
      var i :| 0 <= i < |a| && a[i].key == k;
      assert all[i].key == k;
    }
    if HasKey(b, k) {
      var i :| 0 <= i < |b| && b[i].key == k;
      assert all[|a| + i].key == k;
    }
  }

  /** A row that is there throughout is sent if and only if its key is covered. */
  lemma {:induction false} SteadyRowIsSent(q: Query, views: seq<Table>, after: Key, k: Key)
    requires Sound(q, views) && forall i :: 0 <= i < |views| ==> Shows(q, views[i], k)
    ensures HasKey(AllRows(Sent(q, views, after)), k) <==> Covered(q, views, after, k)
    decreases |views|
  {
    if views == [] {
      NothingCovered(q, after, k);
    } else {
      var chunk := ChunkOf(q, views[0], after);
      SoundRest(q, views);
      CoveredStep(q, views, after, k);
      ChunkAdvances(q, views[0], after);
      ChunkHolds(q, views[0], after, k);
      if chunk.last {
        AllRowsStep(chunk, []);
        assert [chunk] + [] == [chunk] && chunk.rows + [] == chunk.rows;
      } else {
        var rest := Sent(q, views[1..], LastKey(after, chunk.rows));
        SteadyRowIsSent(q, views[1..], LastKey(after, chunk.rows), k);
        AllRowsStep(chunk, rest);
        HasKeyJoin(chunk.rows, AllRows(rest), k);
      }
    }
  }

  predicate AllAfter(after: Key, rows: seq<SnapshotRow>) {
    forall i :: 0 <= i < |rows| ==> After(after, rows[i].key)
  }

  lemma RowsJoin(after: Key, a: seq<SnapshotRow>, b: seq<SnapshotRow>)
    requires KeysIncrease(a) && KeysIncrease(b) && AllAfter(after, a) && a != [] && LastKey(after, a) != []
    requires AllAfter(LastKey(after, a), b)
    ensures KeysIncrease(a + b) && AllAfter(after, a + b)
  {
    var all, last := a + b, a[|a| - 1].key;
    forall i, j | 0 <= i < j < |all|
      ensures KeyLess(all[i].key, all[j].key)
    {
      if i < |a| - 1 && j >= |a| {
        KeyTransitive(all[i].key, last, all[j].key);
      }
    }
    forall i | 0 <= i < |all|
      ensures After(after, all[i].key)
    {
      if i >= |a| {
        AfterTransitive(after, last, all[i].key);
      }
    }
  }

  lemma ChunkAfter(q: Query, view: Table, after: Key)
    requires q.limit > 0 && NoEmptyKey(view)
    ensures AllAfter(after, ChunkOf(q, view, after).rows)
  {
    var rows := ChunkOf(q, view, after).rows;
    forall i | 0 <= i < |rows|
      ensures After(after, rows[i].key)
    {
      assert HasKey(rows, rows[i].key);
      ChunkHolds(q, view, after, rows[i].key);
    }
  }

  /** The rows of a send strictly increase in key: no key is sent twice. */
  lemma {:induction false} SentIncreases(q: Query, views: seq<Table>, after: Key)
    requires Sound(q, views)
    ensures KeysIncrease(AllRows(Sent(q, views, after))) && AllAfter(after, AllRows(Sent(q, views, after)))
    decreases |views|
  {
    if views != [] {
      var chunk := ChunkOf(q, views[0], after);
      SoundRest(q, views);
      ChunkIncreases(q, views[0], after);
      ChunkAfter(q, views[0], after);
      ChunkAdvances(q, views[0], after);
      if chunk.last {
        AllRowsStep(chunk, []);
        assert [chunk] + [] == [chunk] && chunk.rows + [] == chunk.rows;
      } else {
        var rest := Sent(q, views[1..], LastKey(after, chunk.rows));
        SentIncreases(q, views[1..], LastKey(after, chunk.rows));
        AllRowsStep(chunk, rest);
        RowsJoin(after, chunk.rows, AllRows(rest));
      }
    }
  }

  /** Only the final chunk is marked last, and it is exactly when the send finished. */
  lemma {:induction false} LastIsFinal(q: Query, views: seq<Table>, after: Key)
    requires Sound(q, views)
    ensures var chunks := Sent(q, views, after);
            && (forall i :: 0 <= i < |chunks| - 1 ==> !chunks[i].last)
            && (Finished(q, views, after) <==> chunks != [] && chunks[|chunks| - 1].last)
    decreases |views|
  {
    if views != [] {
      SoundRest(q, views);
      ChunkAdvances(q, views[0], after);
      LastIsFinal(q, views[1..], LastKey(after, ChunkOf(q, views[0], after).rows));
    }
  }

  // ---- resuming ----

  lemma {:induction false} ResumeEnds(q: Query, all: seq<Table>, first: seq<Table>, second: seq<Table>, after: Key)
    requires !Finished(q, first, after) && all == first + second
    ensures Finished(q, all, after) <==> Finished(q, second, Reached(q, first, after))
    ensures Reached(q, all, after) == Reached(q, second, Reached(q, first, after))
    decreases |first|
  {
    if first == [] {
      assert all == second;
    } else {
      assert all[1..] == first[1..] + second;
      ResumeEnds(q, all[1..], first[1..], second, LastKey(after, ChunkOf(q, first[0], after).rows));
    }
  }

  lemma ChunkFirst(chunk: Chunk, a: seq<Chunk>, b: seq<Chunk>)
    ensures [chunk] + (a + b) == [chunk] + a + b
  {
  }

  lemma ResumeStep(q: Query, all: seq<Table>, first: seq<Table>, second: seq<Table>, after: Key, next: Key)
    requires first != [] && !Finished(q, first, after) && all == first + second
    requires next == LastKey(after, ChunkOf(q, first[0], after).rows)
    requires Sent(q, all[1..], next) == Sent(q, first[1..], next) + Sent(q, second, Reached(q, first[1..], next))
    ensures Sent(q, all, after) == Sent(q, first, after) + Sent(q, second, Reached(q, first, after))
  {
    var chunk := ChunkOf(q, first[0], after);
    assert all[0] == first[0];
    ChunkFirst(chunk, Sent(q, first[1..], next), Sent(q, second, Reached(q, first[1..], next)));
  }

  /** A cut send and its resumption at the last key sent together are one send. */
  lemma {:induction false} ResumeContinues(q: Query, all: seq<Table>, first: seq<Table>, second: seq<Table>, after: Key)
    requires !Finished(q, first, after) && all == first + second
    ensures Sent(q, all, after) == Sent(q, first, after) + Sent(q, second, Reached(q, first, after))
    decreases |first|
  {
    if first == [] {
      assert all == second;
    } else {
      var next := LastKey(after, ChunkOf(q, first[0], after).rows);
      assert all[1..] == first[1..] + second;
      ResumeContinues(q, all[1..], first[1..], second, next);
      ResumeStep(q, all, first, second, after, next);
    }
  }

  // ---- a table that does not change ----

  predicate Unchanging(views: seq<Table>, view: Table) {
    forall i :: 0 <= i < |views| ==> views[i] == view
  }

  lemma RowsAtJoin(view: Table, a: seq<Position>, b: seq<Position>)
    requires forall p :: p in a + b ==> p.key in view
    requires (forall p :: p in a ==> p.key in view) && forall p :: p in b ==> p.key in view
    ensures RowsAt(view, a + b) == RowsAt(view, a) + RowsAt(view, b)
  {
  }

  lemma SortedRowsStep(q: Query, view: Table, after: Key)
    requires q.limit > 0 && NoEmptyKey(view)
    ensures var chunk := ChunkOf(q, view, after);
            && (chunk.last ==> SortedRows(q, view, after) == chunk.rows)
            && (!chunk.last ==>
                  SortedRows(q, view, after) == chunk.rows + SortedRows(q, view, LastKey(after, chunk.rows)))
  {
    var chunk, ps := ChunkOf(q, view, after), PageOf(q, view, after);
    var all := OwnedKeys(q, view);
    if !chunk.last {
      ChunkAdvances(q, view, after);
      ChunkRows(q, view, after, |ps| - 1);
      Paging.PageThenRest(all, Cursor(after), q.limit);
      var next := LastKey(after, chunk.rows);
      assert Paging.LastOf(ps, Cursor(after)) == Cursor(next);
      var rest := Paging.Ordered(Paging.Rest(all, Cursor(next)));
      Paging.OrderedIs(Paging.Rest(all, Cursor(next)));
      Paging.OrderedIs(Paging.Rest(all, Cursor(after)));
      RowsAtJoin(view, ps, rest);
    }
  }

  /** On an unchanging table the chunks concatenate to its owned rows beyond the key, sorted. */
  lemma {:induction false} UnchangingTableIsSentSorted(q: Query, views: seq<Table>, view: Table, after: Key)
    requires Sound(q, views) && Unchanging(views, view) && Finished(q, views, after)
    ensures AllRows(Sent(q, views, after)) == SortedRows(q, view, after)
    decreases |views|
  {
    var chunk := ChunkOf(q, view, after);
    SoundRest(q, views);
    SortedRowsStep(q, view, after);
    ChunkAdvances(q, view, after);
    if chunk.last {
      AllRowsStep(chunk, []);
      assert [chunk] + [] == [chunk] && chunk.rows + [] == chunk.rows;
    } else {
      UnchangingTableIsSentSorted(q, views[1..], view, LastKey(after, chunk.rows));
      AllRowsStep(chunk, Sent(q, views[1..], LastKey(after, chunk.rows)));
    }
  }

  /** And the send ends: every chunk but the last takes rows off the rest. */
  lemma {:induction false} UnchangingTableFinishes(q: Query, views: seq<Table>, view: Table, after: Key)
    requires Sound(q, views) && Unchanging(views, view) && |views| > |SortedRows(q, view, after)|
    ensures Finished(q, views, after)
    decreases |views|
  {
    var chunk := ChunkOf(q, view, after);
    SoundRest(q, views);
    SortedRowsStep(q, view, after);
    ChunkAdvances(q, view, after);
    if !chunk.last {
      UnchangingTableFinishes(q, views[1..], view, LastKey(after, chunk.rows));
    }
  }
}
