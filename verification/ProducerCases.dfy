/**
 Two cases of the producer, on an outbox that is empty at first: a retry after an acknowledgement stores
 the older event after the younger one, and a batch that ends like a pending one loses its first event.
 Sources: internal/service/changefeed/service.go:157-205, internal/repository/postgres/outbox.go:39-91, 165-185.
 */
module ProducerCases {
  import opened PrimaryKeys
  import opened Positions
  import opened Rows
  import opened Commit
  import opened Outboxes
  import opened Producers
  import opened StoredOrder
  import Convergence

  // ---- two changes of one row ----

  function ChangeAt(table: string, k: Key, version: int): Change {
    Change(table, k, Upsert, version, map[])
  }

  function EventAt(region: string, table: string, k: Key, version: int): Event {
    ToEvent(region, ChangeAt(table, k, version))
  }

  function BatchOf(table: string, k: Key, versions: seq<int>): ChangeBatch {
    ChangeBatch("", seq(|versions|, i requires 0 <= i < |versions| => ChangeAt(table, k, versions[i])))
  }

  lemma IdsDiffer(region: string, table: string, k: Key, v: int, w: int)
    requires v != w
    ensures EventAt(region, table, k, v).id != EventAt(region, table, k, w).id
    ensures EventAt(region, table, k, v).id != ""
  {
    var changes := [ChangeAt(table, k, v), ChangeAt(table, k, w)];
    IdsAreDistinct(region, changes);
    assert Events(region, changes)[0] == EventAt(region, table, k, v);
    assert Events(region, changes)[1] == EventAt(region, table, k, w);
  }

  lemma BroadcastOfTwo(region: string, table: string, k: Key, v: int, w: int)
    ensures Broadcast(FullSyncMode, region, BatchOf(table, k, [v, w]).changes)
         == [EventAt(region, table, k, v), EventAt(region, table, k, w)]
    ensures |LastPositions(BatchOf(table, k, [v, w]).changes).Keys| == 1
  {
    var changes := BatchOf(table, k, [v, w]).changes;
    var es := Events(region, changes);
    assert es == [EventAt(region, table, k, v), EventAt(region, table, k, w)];
    Convergence.FullSyncAllowsAll(es);
    assert changes == [ChangeAt(table, k, v), ChangeAt(table, k, w)];
    assert changes[..1] == [ChangeAt(table, k, v)] && [ChangeAt(table, k, v)][..0] == [];
    assert LastPositions([ChangeAt(table, k, v)]).Keys == {table};
    assert LastPositions(changes).Keys == {table};
  }

  lemma BroadcastOfOne(region: string, table: string, k: Key, v: int)
    ensures Broadcast(FullSyncMode, region, BatchOf(table, k, [v]).changes) == [EventAt(region, table, k, v)]
    ensures |LastPositions(BatchOf(table, k, [v]).changes).Keys| == 1
  {
    var changes := BatchOf(table, k, [v]).changes;
    var es := Events(region, changes);
    assert es == [EventAt(region, table, k, v)];
    Convergence.FullSyncAllowsAll(es);
    assert changes == [ChangeAt(table, k, v)] && changes[..0] == [];
    assert LastPositions(changes).Keys == {table};
  }

  lemma ChunksOfTwo(a: Event, b: Event)
    ensures Chunks([a, b], 1) == [[a], [b]] && Chunks([a, b], 2) == [[a, b]]
  {
    assert [a, b][..1] == [a] && [a, b][1..] == [b];
  }

  // ---- a retry after an acknowledgement ----

  lemma StoredFirst(a: Event, b: Event)
    requires a.id != b.id
    ensures [] + Stored(AsSet([]), [[a], [b]]) == [[a], [b]]
  {
    assert AsSet([]) == {};
    assert [[a], [b]][..1] == [[a]] && [[a]][..0] == [];
    assert Stored({}, [[a]]) == [[a]];
  }

  lemma StoredOnRetry(a: Event, b: Event)
    requires a.id != b.id
    ensures [[b]] + Stored(AsSet([[b]]), [[a], [b]]) == [[b], [a]]
  {
    assert AsSet([[b]]) == {[b]};
    assert [[a], [b]][..1] == [[a]] && [[a]][..0] == [];
    assert [b] in {[b]} && Taken({[b]}, [b]);
    assert Stored({[b]}, [[a]]) == [[a]];
  }

  /** The lists that do not end with an id. */
  function NotEnding(q: seq<seq<Event>>, id: string): seq<seq<Event>> {
    if q == [] then []
    else NotEnding(q[..|q| - 1], id) + (if LastId(q[|q| - 1]) == id then [] else [q[|q| - 1]])
  }

  lemma NotEndingMore(q: seq<seq<Event>>, x: seq<Event>, id: string)
    ensures NotEnding(q + [x], id) == NotEnding(q, id) + if LastId(x) == id then [] else [x]
  {
    assert (q + [x])[..|q|] == q;
  }

  /** A deletion of the batches of a scope that end with an id. */
  lemma {:induction false} DeletedFromQueue(rows: seq<Batch>, s: Scope, gone: set<nat>, id: string)
    requires forall b :: b in rows && InScope(b, s) ==> (b.id in gone <==> LastId(b.events) == id)
    ensures Queue(Without(rows, gone), s) == NotEnding(Queue(rows, s), id)
  {
    if rows != [] {
      var init, last := rows[..|rows| - 1], rows[|rows| - 1];
      DeletedFromQueue(init, s, gone, id);
      DeletedOneMore(init, last, s, gone, id);
      assert last in rows;
    }
  }

  lemma DeletedOneMore(init: seq<Batch>, last: Batch, s: Scope, gone: set<nat>, id: string)
    ensures var left := Without(init, gone);
            Queue(left + (if last.id in gone then [] else [last]), s)
            == Queue(left, s) + if last.id !in gone && InScope(last, s) then [last.events] else []
    ensures var q := Queue(init, s);
            NotEnding(q + (if InScope(last, s) then [last.events] else []), id)
            == NotEnding(q, id) + if InScope(last, s) && LastId(last.events) != id then [last.events] else []
  {
    var left, q := Without(init, gone), Queue(init, s);
    assert left + [] == left && q + [] == q;
    QueueMore(left, last, s);
    NotEndingMore(q, last.events, id);
  }

  /** An acknowledgement takes the batches of its key out of the queue and leaves the rest as it was. */
  lemma AckFromQueue(rows: seq<Batch>, s: Scope, id: string)
    requires IdsIncrease(rows)
    ensures Queue(Without(rows, AckedIds(rows, s.peer, s.tableKey, id)), s) == NotEnding(Queue(rows, s), id)
  {
    var gone := AckedIds(rows, s.peer, s.tableKey, id);
    forall b | b in rows && InScope(b, s)
      ensures b.id in gone <==> LastId(b.events) == id
    {
      if b.id in gone {
        var x :| x in rows && x.peer == s.peer && x.tableKey == s.tableKey && LastEventId(x) == id && x.id == b.id;
        var i :| 0 <= i < |rows| && rows[i] == b;
        var j :| 0 <= j < |rows| && rows[j] == x;
      }
    }
    DeletedFromQueue(rows, s, gone, id);
  }

  lemma SecondIsLeft(a: Event, b: Event)
    requires a.id != b.id
    ensures NotEnding([[a], [b]], a.id) == [[b]]
  {
    assert [[a], [b]][..1] == [[a]] && [[a]][..0] == [];
    assert NotEnding([[a]], a.id) == [];
  }

  /** What an attempt with enough writes leaves for the one peer. */
  lemma QueueAfter(before: seq<Batch>, after: seq<Batch>, peer: string, table: string, chunks: seq<seq<Event>>)
    requires PeersPut(before, after, [peer], table, chunks)
    ensures var s := Scope(peer, table);
            Queue(after, s) == Queue(before, s) + Stored(AsSet(Queue(before, s)), chunks)
  {
    assert peer in [peer] && chunks[..|chunks|] == chunks;
    QueueMembers(before, Scope(peer, table));
  }

  /** A polling batch of a producer with one peer, and what it is cut into. */
  ghost predicate Cut(producer: Producer, batch: ChangeBatch, peer: string, table: string, chunks: seq<seq<Event>>) {
    && peer != "" && producer.peers == [peer] && producer.max > 0 && producer.KeyOf(batch) == table
    && Chunks(producer.BroadcastOf(batch), producer.max) == chunks && chunks != []
    && (forall c :: c in chunks ==> LastId(c) != "") && |LastPositions(batch.changes).Keys| == 1
  }

  /** An attempt with enough writes for the peer takes its queue from one state to another. */
  method Attempt(
    producer: Producer, batch: ChangeBatch, writes: nat, saves: nat, now: int, ghost s: Scope,
    ghost chunks: seq<seq<Event>>, ghost before: seq<seq<Event>>, ghost after: seq<seq<Event>>)
    requires producer.Valid() && Cut(producer, batch, s.peer, s.tableKey, chunks) && writes >= 2 * |chunks|
    requires Queue(producer.outbox.rows, s) == before && after == before + Stored(AsSet(before), chunks)
    modifies producer`cursors, producer.outbox
    ensures producer.Valid() && Queue(producer.outbox.rows, s) == after
    ensures saves > 0 ==> producer.cursors == old(producer.cursors) + LastPositions(batch.changes)
  {
    ghost var rows := producer.outbox.rows;
    var ok; ghost var added;
    ok, added := producer.HandleBatch(batch, [writes], saves, now);
    QueueAfter(rows, producer.outbox.rows, s.peer, s.tableKey, chunks);
  }

  lemma TwoAreCut(producer: Producer, peer: string, table: string, k: Key, v: int, w: int)
    requires producer.mode == FullSyncMode && producer.peers == [peer] && peer != "" && v < w
    ensures var e, d := EventAt(producer.region, table, k, v), EventAt(producer.region, table, k, w);
            && e.id != d.id
            && (producer.max == 1 ==> Cut(producer, BatchOf(table, k, [v, w]), peer, table, [[e], [d]]))
            && (producer.max == 2 ==> Cut(producer, BatchOf(table, k, [v, w]), peer, table, [[e, d]]))
  {
    BroadcastOfTwo(producer.region, table, k, v, w);
    ChunksOfTwo(EventAt(producer.region, table, k, v), EventAt(producer.region, table, k, w));
    IdsDiffer(producer.region, table, k, v, w);
    IdsDiffer(producer.region, table, k, w, v);
  }

  lemma OneIsCut(producer: Producer, peer: string, table: string, k: Key, w: int)
    requires producer.mode == FullSyncMode && producer.peers == [peer] && peer != "" && producer.max == 2
    ensures Cut(producer, BatchOf(table, k, [w]), peer, table, [[EventAt(producer.region, table, k, w)]])
  {
    BroadcastOfOne(producer.region, table, k, w);
    IdsDiffer(producer.region, table, k, w, w + 1);
  }

  /**
   A retry can break the order. The first attempt stores both events and then fails to save its cursor;
   the older one is acknowledged; the retry stores it again, after the younger one.
   */
  method RetryAfterAckReorders(region: string, peer: string, table: string, k: Key, v: int, w: int, now: int)
    returns (producer: Producer)
    requires peer != "" && v < w
    ensures producer.Valid()
    ensures Queue(producer.outbox.rows, Scope(peer, table))
         == [[EventAt(region, table, k, w)], [EventAt(region, table, k, v)]]
    ensures !QueueRises(Queue(producer.outbox.rows, Scope(peer, table)))
  {
    var outbox := new Outbox();
    producer := new Producer(region, FullSyncMode, 1, [peer], outbox);
    var batch, e, d := BatchOf(table, k, [v, w]), EventAt(region, table, k, v), EventAt(region, table, k, w);
    TwoAreCut(producer, peer, table, k, v, w);
    TwoAttempts(producer, batch, Scope(peer, table), e, d, now);
    ReversedFalls(e, d);
  }

  method TwoAttempts(producer: Producer, batch: ChangeBatch, s: Scope, e: Event, ghost d: Event, now: int)
    requires producer.Valid() && Cut(producer, batch, s.peer, s.tableKey, [[e], [d]]) && e.id != d.id
    requires Queue(producer.outbox.rows, s) == []
    modifies producer`cursors, producer.outbox
    ensures producer.Valid() && Queue(producer.outbox.rows, s) == [[d], [e]]
  {
    StoredFirst(e, d);
    Attempt(producer, batch, 4, 0, now, s, [[e], [d]], [], [[e], [d]]);
    Acknowledge(producer.outbox, s, e, d);
    StoredOnRetry(e, d);
    Attempt(producer, batch, 4, 1, now, s, [[e], [d]], [[d]], [[d], [e]]);
  }

  method Acknowledge(outbox: Outbox, s: Scope, e: Event, ghost d: Event)
    requires outbox.Valid() && e.id != d.id && Queue(outbox.rows, s) == [[e], [d]]
    modifies outbox
    ensures outbox.Valid() && Queue(outbox.rows, s) == [[d]]
  {
    AckFromQueue(outbox.rows, s, e.id);
    SecondIsLeft(e, d);
    var deleted := outbox.Ack(s.peer, s.tableKey, e.id);
  }

  lemma ReversedFalls(e: Event, d: Event)
    requires FeedOf(e) == FeedOf(d) && e.version < d.version
    ensures !QueueRises([[d], [e]])
  {
    var q := [[d], [e]];
    assert d in q[0] && e in q[1];
    assert !ListsRise(q[0], q[1]);
  }

  // ---- a batch that ends like a pending one ----

  /**
   A batch can lose an event. The first batch stores the younger event; the second one holds both, ends
   with the same id and is skipped, and its cursor is saved.
   */
  method SecondBatchLosesAnEvent(region: string, peer: string, table: string, k: Key, v: int, w: int, now: int)
    returns (producer: Producer)
    requires peer != "" && v < w
    ensures producer.Valid() && table in producer.cursors && producer.cursors[table] == Position(w, k)
    ensures Queue(producer.outbox.rows, Scope(peer, table)) == [[EventAt(region, table, k, w)]]
    ensures !HasEvent(Pending(producer.outbox.rows, Scope(peer, table)), EventAt(region, table, k, v))
  {
    var outbox := new Outbox();
    producer := new Producer(region, FullSyncMode, 2, [peer], outbox);
    var e, d := EventAt(region, table, k, v), EventAt(region, table, k, w);
    OneIsCut(producer, peer, table, k, w);
    TwoAreCut(producer, peer, table, k, v, w);
    StoredAlone(d);
    Attempt(producer, BatchOf(table, k, [w]), 2, 1, now, Scope(peer, table), [[d]], [], [[d]]);
    StoredNothing(e, d);
    Attempt(producer, BatchOf(table, k, [v, w]), 2, 1, now, Scope(peer, table), [[e, d]], [[d]], [[d]]);
    LastOfTwo(table, k, v, w);
    QueueMembers(outbox.rows, Scope(peer, table));
  }

  lemma StoredAlone(d: Event)
    ensures [] + Stored(AsSet([]), [[d]]) == [[d]]
  {
    assert AsSet([]) == {};
    assert [[d]][..0] == [];
  }

  lemma StoredNothing(e: Event, d: Event)
    ensures [[d]] + Stored(AsSet([[d]]), [[e, d]]) == [[d]]
  {
    assert AsSet([[d]]) == {[d]};
    var chunks := [[e, d]];
    assert chunks[..0] == [];
    assert [d] in {[d]} && LastId([d]) == LastId(chunks[0]);
    assert Skipped({[d]}, chunks, 0);
  }

  lemma LastOfTwo(table: string, k: Key, v: int, w: int)
    ensures var latest := LastPositions(BatchOf(table, k, [v, w]).changes);
            table in latest && latest[table] == Position(w, k)
  {
  }
}
