/**
 In which order the chunks of a batch end up in the outbox: any one attempt adds them in the order of
 their events, and when a retry keeps the order of what is pending.
 Sources: internal/service/changefeed/service.go:157-205, 308-348, internal/repository/postgres/outbox.go:39-91.
 */
module StoredOrder {
  import opened Positions
  import opened Rows
  import opened Commit
  import opened Outboxes
  import opened FeedProtocol
  import opened Producers

  // ---- lists of events, one after the other ----

  /** In every feed the events of one list come before those of another. */
  predicate ListsRise(x: seq<Event>, y: seq<Event>) {
    forall e, d :: e in x && d in y && FeedOf(e) == FeedOf(d) ==> Before(PositionOf(e), PositionOf(d))
  }

  predicate QueueRises(q: seq<seq<Event>>) {
    forall i, j :: 0 <= i < j < |q| ==> ListsRise(q[i], q[j])
  }

  predicate SharesFeed(x: seq<Event>, y: seq<Event>) {
    exists e, d :: e in x && d in y && FeedOf(e) == FeedOf(d)
  }

  /** Lists that come one before the other also come the other way round only if they share no feed. */
  lemma RiseBothWaysIff(x: seq<Event>, y: seq<Event>)
    requires ListsRise(x, y)
    ensures ListsRise(y, x) <==> !SharesFeed(x, y)
  {
    if e, d :| e in x && d in y && FeedOf(e) == FeedOf(d) {
      BeforeTrichotomy(PositionOf(e), PositionOf(d));
    }
  }

  lemma SplitRises(events: seq<Event>, n: nat)
    requires Rising(events) && n <= |events|
    ensures Rising(events[..n]) && Rising(events[n..]) && ListsRise(events[..n], events[n..])
  {
    var first, rest := events[..n], events[n..];
    assert forall j :: 0 <= j < |rest| ==> rest[j] == events[n + j];
    forall e, d | e in first && d in rest && FeedOf(e) == FeedOf(d)
      ensures Before(PositionOf(e), PositionOf(d))
    {
      var i :| 0 <= i < |first| && first[i] == e;
      var j :| 0 <= j < |rest| && rest[j] == d;
      assert events[i] == e && events[n + j] == d;
    }
  }

  lemma {:induction false} ChunksWithin(events: seq<Event>, max: nat, c: seq<Event>)
    requires max > 0 && c in Chunks(events, max)
    ensures c != [] && forall e :: e in c ==> e in events
    decreases |events|
  {
    if |events| > max && c != events[..max] {
      ChunksWithin(events[max..], max, c);
    }
  }

  lemma QueueRisesCons(x: seq<Event>, q: seq<seq<Event>>)
    requires QueueRises(q) && forall y :: y in q ==> ListsRise(x, y)
    ensures QueueRises([x] + q)
  {
    var all := [x] + q;
    forall i, j | 0 <= i < j < |all|
      ensures ListsRise(all[i], all[j])
    {
      assert all[j] == q[j - 1] && q[j - 1] in q;
    }
  }

  /** The chunks of rising events rise, and so does each of them. */
  lemma {:induction false} ChunksRise(events: seq<Event>, max: nat)
    requires max > 0 && Rising(events)
    ensures QueueRises(Chunks(events, max)) && forall c :: c in Chunks(events, max) ==> Rising(c)
    decreases |events|
  {
    if |events| > max {
      var first, rest := events[..max], events[max..];
      SplitRises(events, max);
      ChunksRise(rest, max);
      forall c | c in Chunks(rest, max)
        ensures ListsRise(first, c)
      {
        ChunksWithin(rest, max, c);
      }
      QueueRisesCons(first, Chunks(rest, max));
    }
  }

  lemma QueueRisesAppend(q: seq<seq<Event>>, x: seq<Event>)
    requires QueueRises(q) && forall y :: y in q ==> ListsRise(y, x)
    ensures QueueRises(q + [x])
  {
    var all := q + [x];
    forall i, j | 0 <= i < j < |all|
      ensures ListsRise(all[i], all[j])
    {
      assert all[i] == q[i] && q[i] in q;
    }
  }

  /** What one attempt stores rises. */
  lemma {:induction false} StoredRises(pending: set<seq<Event>>, chunks: seq<seq<Event>>)
    requires QueueRises(chunks)
    ensures QueueRises(Stored(pending, chunks))
  {
    if chunks != [] {
      var init, last := chunks[..|chunks| - 1], chunks[|chunks| - 1];
      StoredRises(pending, init);
      forall y | y in Stored(pending, init)
        ensures ListsRise(y, last)
      {
        StoredMembers(pending, init, y);
        var i :| 0 <= i < |init| && init[i] == y && !Skipped(pending, init, i);
        assert chunks[i] == y;
      }
      QueueRisesAppend(Stored(pending, init), last);
    }
  }

  // ---- when an attempt keeps the order ----

  function AsSet(q: seq<seq<Event>>): set<seq<Event>> {
    set x | x in q
  }

  /** Whatever is pending is a chunk of the batch, or comes before all of them. */
  predicate ChunkOrOlder(q: seq<seq<Event>>, chunks: seq<seq<Event>>) {
    forall x, c :: x in q && c in chunks ==> x in chunks || ListsRise(x, c)
  }

  /** A chunk to be stored again precedes one with a feed in common that is still pending. */
  predicate StoredTooLate(q: seq<seq<Event>>, chunks: seq<seq<Event>>) {
    exists i, j :: 0 <= i < j < |chunks|
                && !Skipped(AsSet(q), chunks, i) && chunks[j] in q && SharesFeed(chunks[i], chunks[j])
  }

  lemma QueueRisesJoinIff(q: seq<seq<Event>>, r: seq<seq<Event>>)
    requires QueueRises(r)
    ensures QueueRises(q + r) <==> QueueRises(q) && forall x, y :: x in q && y in r ==> ListsRise(x, y)
  {
    var all := q + r;
    if QueueRises(all) {
      forall i, j | 0 <= i < j < |q|
        ensures ListsRise(q[i], q[j])
      {
        assert all[i] == q[i] && all[j] == q[j];
      }
      forall x, y | x in q && y in r
        ensures ListsRise(x, y)
      {
        var i :| 0 <= i < |q| && q[i] == x;
        var j :| 0 <= j < |r| && r[j] == y;
        assert all[i] == x && all[|q| + j] == y;
      }
    }
    if QueueRises(q) && forall x, y :: x in q && y in r ==> ListsRise(x, y) {
      forall i, j | 0 <= i < j < |all|
        ensures ListsRise(all[i], all[j])
      {
        if i < |q| && j >= |q| {
          assert q[i] in q && r[j - |q|] in r;
        } else if i >= |q| {
          assert all[i] == r[i - |q|] && all[j] == r[j - |q|];
        }
      }
    }
  }

  lemma AfterPendingUnlessTooLate(q: seq<seq<Event>>, chunks: seq<seq<Event>>, x: seq<Event>, i: nat)
    requires QueueRises(chunks) && ChunkOrOlder(q, chunks) && !StoredTooLate(q, chunks)
    requires x in q && i < |chunks| && !Skipped(AsSet(q), chunks, i)
    ensures ListsRise(x, chunks[i])
  {
    assert chunks[i] in chunks && x in AsSet(q) && Taken(AsSet(q), x);
    if x in chunks {
      var j :| 0 <= j < |chunks| && chunks[j] == x;
      if j > i {
        RiseBothWaysIff(chunks[i], chunks[j]);
      }
    }
  }

  /**
   An attempt keeps the order of what is pending if and only if no chunk that it stores again precedes
   one with a feed in common that is still pending.
   */
  lemma OrderKeptIff(q: seq<seq<Event>>, chunks: seq<seq<Event>>)
    requires QueueRises(chunks) && ChunkOrOlder(q, chunks)
    ensures QueueRises(q + Stored(AsSet(q), chunks)) <==> QueueRises(q) && !StoredTooLate(q, chunks)
  {
    var stored := Stored(AsSet(q), chunks);
    StoredRises(AsSet(q), chunks);
    QueueRisesJoinIff(q, stored);
    if i, j :| 0 <= i < j < |chunks| && !Skipped(AsSet(q), chunks, i) && chunks[j] in q
               && SharesFeed(chunks[i], chunks[j]) {
      StoredMembers(AsSet(q), chunks, chunks[i]);
      RiseBothWaysIff(chunks[i], chunks[j]);
    } else {
      forall x, y | x in q && y in stored
        ensures ListsRise(x, y)
      {
        StoredMembers(AsSet(q), chunks, y);
        var i :| 0 <= i < |chunks| && chunks[i] == y && !Skipped(AsSet(q), chunks, i);
        AfterPendingUnlessTooLate(q, chunks, x, i);
      }
    }
  }

  /** The same of a handled batch, for every peer. */
  lemma AttemptKeepsOrderIff(
    before: seq<Batch>, after: seq<Batch>, peers: seq<string>, tableKey: string, events: seq<Event>, max: nat,
    p: string)
    requires max > 0 && Rising(events) && p in peers && PeersPut(before, after, peers, tableKey, Chunks(events, max))
    requires ChunkOrOlder(Queue(before, Scope(p, tableKey)), Chunks(events, max))
    ensures var s, chunks := Scope(p, tableKey), Chunks(events, max);
            QueueRises(Queue(after, s)) <==> QueueRises(Queue(before, s)) && !StoredTooLate(Queue(before, s), chunks)
    ensures ChunkOrOlder(Queue(after, Scope(p, tableKey)), Chunks(events, max))
  {
    var s, chunks := Scope(p, tableKey), Chunks(events, max);
    ChunksRise(events, max);
    QueueMembers(before, s);
    assert chunks[..|chunks|] == chunks && PutFirst(before, after, s, chunks, |chunks|);
    OrderKeptIff(Queue(before, s), chunks);
    forall x | x in Stored(AsSet(Queue(before, s)), chunks)
      ensures x in chunks
    {
      StoredMembers(AsSet(Queue(before, s)), chunks, x);
    }
  }

  /** In particular a first attempt, which finds none of the chunks, keeps it. */
  lemma FirstAttemptKeepsOrder(
    before: seq<Batch>, after: seq<Batch>, peers: seq<string>, tableKey: string, events: seq<Event>, max: nat,
    p: string)
    requires max > 0 && Rising(events) && p in peers && PeersPut(before, after, peers, tableKey, Chunks(events, max))
    requires QueueRises(Queue(before, Scope(p, tableKey)))
    requires forall x :: x in Queue(before, Scope(p, tableKey)) ==> ListsRise(x, events) && x !in Chunks(events, max)
    ensures QueueRises(Queue(after, Scope(p, tableKey)))
  {
    var s, chunks := Scope(p, tableKey), Chunks(events, max);
    forall x, c | x in Queue(before, s) && c in chunks
      ensures ListsRise(x, c)
    {
      ChunksWithin(events, max, c);
    }
    AttemptKeepsOrderIff(before, after, peers, tableKey, events, max, p);
  }
}
