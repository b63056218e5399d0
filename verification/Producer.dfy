/**
 The producer (internal/service/changefeed/service.go:157-205, 284-348): a captured batch is filtered,
 cut into bounded chunks and enqueued for every peer; only then are the cursors saved. Every write may
 fail, and a failed batch is handed in again.
 */
module Producers {
  import opened PrimaryKeys
  import opened Positions
  import opened Rows
  import opened ApplyService
  import opened Outboxes
  import opened EventIds

  datatype Change = Change(table: string, key: Key, op: Operation, version: int, fields: Row)

  datatype ChangeBatch = ChangeBatch(txId: string, changes: seq<Change>)

  function ToEvent(region: string, c: Change): Event {
    Event(region, c.table, EventId(c.table, c.key, c.version, c.op), c.key, c.op, c.version, c.fields)
  }

  function Events(region: string, changes: seq<Change>): seq<Event> {
    seq(|changes|, i requires 0 <= i < |changes| => ToEvent(region, changes[i]))
  }

  /** The events of the allowed operations; the broadcast modes allow what the apply modes do. */
  function Broadcast(mode: ApplyMode, region: string, changes: seq<Change>): seq<Event> {
    Allowed(mode, Events(region, changes))
  }

  // ---- chunks ----

  function Chunks(events: seq<Event>, max: nat): seq<seq<Event>>
    requires max > 0
    decreases |events|
  {
    if events == [] then []
    else if |events| <= max then [events]
    else [events[..max]] + Chunks(events[max..], max)
  }

  function Joined(chunks: seq<seq<Event>>): seq<Event> {
    if chunks == [] then [] else chunks[0] + Joined(chunks[1..])
  }

  /** The chunks are the events in order, and each holds between 1 and max of them. */
  lemma {:induction false} ChunksPartition(events: seq<Event>, max: nat)
    requires max > 0
    ensures Joined(Chunks(events, max)) == events
    ensures forall c :: c in Chunks(events, max) ==> 1 <= |c| <= max
    decreases |events|
  {
    if events == [] {
    } else if |events| <= max {
      assert [events][1..] == [];
    } else {
      var rest := Chunks(events[max..], max);
      ChunksPartition(events[max..], max);
      assert ([events[..max]] + rest)[1..] == rest;
      assert events == events[..max] + events[max..];
    }
  }

  function TableKey(txId: string, events: seq<Event>): string {
    if txId == "" && events != [] then events[0].table else ""
  }

  function LastId(chunk: seq<Event>): string {
    if chunk == [] then "" else chunk[|chunk| - 1].id
  }

  // ---- what is pending for a peer ----

  /** The scope of the outbox key of a batch being enqueued. */
  datatype Scope = Scope(peer: string, tableKey: string)

  predicate InScope(b: Batch, s: Scope) {
    b.peer == s.peer && b.tableKey == s.tableKey
  }

  /** What is pending in a scope: the events of each batch. */
  function Pending(rows: seq<Batch>, s: Scope): set<seq<Event>> {
    set b | b in rows && InScope(b, s) :: b.events
  }

  /** The same in id order. */
  function Queue(rows: seq<Batch>, s: Scope): seq<seq<Event>> {
    if rows == [] then []
    else
      var last := rows[|rows| - 1];
      Queue(rows[..|rows| - 1], s) + (if InScope(last, s) then [last.events] else [])
  }

  lemma {:induction false} QueueMembers(rows: seq<Batch>, s: Scope)
    ensures Pending(rows, s) == set x | x in Queue(rows, s)
  {
    if rows != [] {
      var init, last := rows[..|rows| - 1], rows[|rows| - 1];
      QueueMembers(init, s);
      assert rows == init + [last];
      PendingGrows(init, [last], s);
      assert last in [last];
      assert Pending([last], s) == if InScope(last, s) then {last.events} else {};
    }
  }

  lemma QueueMore(rows: seq<Batch>, b: Batch, s: Scope)
    ensures Queue(rows + [b], s) == Queue(rows, s) + if InScope(b, s) then [b.events] else []
  {
    assert (rows + [b])[..|rows|] == rows;
  }

  lemma {:induction false} QueueJoins(rows: seq<Batch>, more: seq<Batch>, s: Scope)
    ensures Queue(rows + more, s) == Queue(rows, s) + Queue(more, s)
    decreases |more|
  {
    var all := rows + more;
    if more == [] {
      assert all == rows;
    } else {
      var init := more[..|more| - 1];
      assert all[..|all| - 1] == rows + init;
      QueueJoins(rows, init, s);
    }
  }

  lemma {:induction false} QueueOfScope(added: seq<Batch>, s: Scope)
    requires forall b :: b in added ==> InScope(b, s)
    ensures |Queue(added, s)| == |added| && forall i :: 0 <= i < |added| ==> Queue(added, s)[i] == added[i].events
  {
    if added != [] {
      QueueOfScope(added[..|added| - 1], s);
    }
  }

  lemma {:induction false} QueueElsewhere(added: seq<Batch>, s: Scope, other: Scope)
    requires other != s && forall b :: b in added ==> InScope(b, s)
    ensures Queue(added, other) == []
  {
    if added != [] {
      QueueElsewhere(added[..|added| - 1], s, other);
      assert added[|added| - 1] in added;
    }
  }

  lemma PendingGrows(rows: seq<Batch>, more: seq<Batch>, s: Scope)
    ensures Pending(rows + more, s) == Pending(rows, s) + Pending(more, s)
  {
  }

  predicate Taken(pending: set<seq<Event>>, chunk: seq<Event>) {
    exists x :: x in pending && LastId(x) == LastId(chunk)
  }

  /** Inserting a chunk: nothing happens when its last event id is taken. */
  function Put(pending: set<seq<Event>>, chunk: seq<Event>): set<seq<Event>> {
    if Taken(pending, chunk) then pending else pending + {chunk}
  }

  function PutAll(pending: set<seq<Event>>, chunks: seq<seq<Event>>): set<seq<Event>> {
    if chunks == [] then pending else Put(PutAll(pending, chunks[..|chunks| - 1]), chunks[|chunks| - 1])
  }

  /** A chunk whose last event id a pending batch or an earlier chunk has. */
  predicate Skipped(pending: set<seq<Event>>, chunks: seq<seq<Event>>, i: nat)
    requires i < |chunks|
  {
    Taken(pending, chunks[i]) || exists j :: 0 <= j < i && LastId(chunks[j]) == LastId(chunks[i])
  }

  lemma {:induction false} PutAllTakes(pending: set<seq<Event>>, chunks: seq<seq<Event>>, c: seq<Event>)
    ensures Taken(PutAll(pending, chunks), c)
       <==> Taken(pending, c) || exists j :: 0 <= j < |chunks| && LastId(chunks[j]) == LastId(c)
  {
    if chunks != [] {
      var init, last := chunks[..|chunks| - 1], chunks[|chunks| - 1];
      PutAllTakes(pending, init, c);
      PutTakes(PutAll(pending, init), last, c);
      assert forall j :: 0 <= j < |init| ==> chunks[j] == init[j];
    }
  }

  lemma PutTakes(pending: set<seq<Event>>, chunk: seq<Event>, c: seq<Event>)
    ensures Taken(Put(pending, chunk), c) <==> Taken(pending, c) || LastId(chunk) == LastId(c)
  {
    if Taken(pending, chunk) {
      var x :| x in pending && LastId(x) == LastId(chunk);
    } else {
      assert chunk in Put(pending, chunk);
      assert forall x :: x in pending ==> x in Put(pending, chunk);
    }
  }

  /** Enqueueing adds exactly the chunks that are not skipped. */
  lemma {:induction false} PutAllMembers(pending: set<seq<Event>>, chunks: seq<seq<Event>>, x: seq<Event>)
    ensures x in PutAll(pending, chunks)
       <==> x in pending || exists i :: 0 <= i < |chunks| && chunks[i] == x && !Skipped(pending, chunks, i)
  {
    if chunks != [] {
      var n := |chunks| - 1;
      var init := chunks[..n];
      PutAllMembers(pending, init, x);
      PutAllTakes(pending, init, chunks[n]);
      SkippedInit(pending, chunks);
      assert forall j :: 0 <= j < n ==> chunks[j] == init[j];
      assert Taken(PutAll(pending, init), chunks[n]) <==> Skipped(pending, chunks, n);
    }
  }

  lemma SkippedInit(pending: set<seq<Event>>, chunks: seq<seq<Event>>)
    requires chunks != []
    ensures forall i :: 0 <= i < |chunks| - 1 ==>
              (Skipped(pending, chunks, i) <==> Skipped(pending, chunks[..|chunks| - 1], i))
  {
    var init := chunks[..|chunks| - 1];
    assert forall j :: 0 <= j < |init| ==> chunks[j] == init[j];
  }

  /** The chunks that are not skipped, in order. */
  function Stored(pending: set<seq<Event>>, chunks: seq<seq<Event>>): seq<seq<Event>> {
    if chunks == [] then []
    else
      var n := |chunks| - 1;
      Stored(pending, chunks[..n]) + (if Skipped(pending, chunks, n) then [] else [chunks[n]])
  }

  lemma {:induction false} StoredMembers(pending: set<seq<Event>>, chunks: seq<seq<Event>>, x: seq<Event>)
    ensures x in Stored(pending, chunks)
       <==> exists i :: 0 <= i < |chunks| && chunks[i] == x && !Skipped(pending, chunks, i)
  {
    if chunks != [] {
      var init := chunks[..|chunks| - 1];
      StoredMembers(pending, init, x);
      SkippedInit(pending, chunks);
      assert forall j :: 0 <= j < |init| ==> chunks[j] == init[j];
    }
  }

  /** Inserting the chunks one by one stores just those. */
  lemma PutAllIsStored(pending: set<seq<Event>>, chunks: seq<seq<Event>>)
    ensures PutAll(pending, chunks) == pending + set x | x in Stored(pending, chunks)
  {
    forall x: seq<Event>
      ensures x in PutAll(pending, chunks) <==> x in pending || x in Stored(pending, chunks)
    {
      PutAllMembers(pending, chunks, x);
      StoredMembers(pending, chunks, x);
    }
  }

  lemma StoredOneMore(pending: set<seq<Event>>, done: seq<seq<Event>>, chunk: seq<Event>)
    ensures Stored(pending, done + [chunk])
         == Stored(pending, done) + if Taken(PutAll(pending, done), chunk) then [] else [chunk]
  {
    var all := done + [chunk];
    assert all[..|done|] == done && all[|done|] == chunk;
    PutAllTakes(pending, done, chunk);
    assert forall j :: 0 <= j < |done| ==> all[j] == done[j];
  }

  // ---- when every event is pending ----

  predicate HasEvent(pending: set<seq<Event>>, e: Event) {
    exists x :: x in pending && e in x
  }

  predicate HasEvents(pending: set<seq<Event>>, events: seq<Event>) {
    forall e :: e in events ==> HasEvent(pending, e)
  }

  /** The events of skipped chunks are in pending batches, or in chunks that are not skipped. */
  predicate SkippedAreHeld(pending: set<seq<Event>>, chunks: seq<seq<Event>>) {
    forall i, e :: 0 <= i < |chunks| && e in chunks[i] && Skipped(pending, chunks, i) ==>
      HasEvent(pending, e) || exists j :: 0 <= j < |chunks| && e in chunks[j] && !Skipped(pending, chunks, j)
  }

  lemma {:induction false} JoinedMembers(chunks: seq<seq<Event>>, e: Event)
    ensures e in Joined(chunks) <==> exists i :: 0 <= i < |chunks| && e in chunks[i]
  {
    if chunks != [] {
      JoinedMembers(chunks[1..], e);
      assert forall i :: 1 <= i < |chunks| ==> chunks[i] == chunks[1..][i - 1];
      assert forall i :: 0 <= i < |chunks| - 1 ==> chunks[1..][i] == chunks[i + 1];
    }
  }

  lemma HasEventAfter(pending: set<seq<Event>>, chunks: seq<seq<Event>>, e: Event)
    ensures HasEvent(PutAll(pending, chunks), e)
       <==> HasEvent(pending, e) || exists j :: 0 <= j < |chunks| && e in chunks[j] && !Skipped(pending, chunks, j)
  {
    forall x: seq<Event>
      ensures x in PutAll(pending, chunks)
         <==> x in pending || exists i :: 0 <= i < |chunks| && chunks[i] == x && !Skipped(pending, chunks, i)
    {
      PutAllMembers(pending, chunks, x);
    }
  }

  /**
   After enqueueing, every event is pending if and only if the events of skipped chunks are held
   elsewhere: the outbox insert compares last event ids only.
   */
  lemma EventsPendingIff(pending: set<seq<Event>>, chunks: seq<seq<Event>>)
    ensures HasEvents(PutAll(pending, chunks), Joined(chunks)) <==> SkippedAreHeld(pending, chunks)
  {
    forall e: Event
      ensures e in Joined(chunks) <==> exists i :: 0 <= i < |chunks| && e in chunks[i]
      ensures HasEvent(PutAll(pending, chunks), e)
         <==> HasEvent(pending, e) || exists j :: 0 <= j < |chunks| && e in chunks[j] && !Skipped(pending, chunks, j)
    {
      JoinedMembers(chunks, e);
      HasEventAfter(pending, chunks, e);
    }
  }

  // ---- retries ----

  /** Last event ids tell the chunks apart from each other and from what is already pending. */
  predicate Unambiguous(pending: set<seq<Event>>, chunks: seq<seq<Event>>) {
    && (forall x, c :: x in pending && c in chunks && LastId(x) == LastId(c) ==> x == c)
    && (forall c, d :: c in chunks && d in chunks && LastId(c) == LastId(d) ==> c == d)
  }

  /** Then no event is lost to a skipped chunk: the chunk itself is pending. */
  lemma UnambiguousIsHeld(pending: set<seq<Event>>, chunks: seq<seq<Event>>)
    requires Unambiguous(pending, chunks)
    ensures SkippedAreHeld(pending, chunks)
  {
    forall i, e | 0 <= i < |chunks| && e in chunks[i] && Skipped(pending, chunks, i)
      ensures HasEvent(pending, e) || exists j :: 0 <= j < |chunks| && e in chunks[j] && !Skipped(pending, chunks, j)
    {
      FirstIsHeld(pending, chunks, i);
    }
  }

  lemma {:induction false} FirstIsHeld(pending: set<seq<Event>>, chunks: seq<seq<Event>>, i: nat)
    requires Unambiguous(pending, chunks) && i < |chunks|
    ensures chunks[i] in pending
         || exists j :: 0 <= j < |chunks| && chunks[j] == chunks[i] && !Skipped(pending, chunks, j)
  {
    assert chunks[i] in chunks;
    if Taken(pending, chunks[i]) {
      var x :| x in pending && LastId(x) == LastId(chunks[i]);
    } else if Skipped(pending, chunks, i) {
      var j :| 0 <= j < i && LastId(chunks[j]) == LastId(chunks[i]);
      assert chunks[j] in chunks;
      FirstIsHeld(pending, chunks, j);
    }
  }

  /** Attempts that stored some of the chunks, and any deletions, leave ids unambiguous for the next one. */
  lemma RetryIsUnambiguous(pending: set<seq<Event>>, left: set<seq<Event>>, chunks: seq<seq<Event>>)
    requires Unambiguous(pending, chunks) && forall x :: x in left ==> x in pending || x in chunks
    ensures Unambiguous(left, chunks)
  {
  }

  /** What the first n chunks store, and then the first m. */
  function StoredTwice(pending: set<seq<Event>>, chunks: seq<seq<Event>>, n: nat, m: nat): seq<seq<Event>>
    requires n <= |chunks| && m <= |chunks|
  {
    Stored(pending, chunks[..n]) + Stored(PutAll(pending, chunks[..n]), chunks[..m])
  }

  lemma {:induction false} StoredWithin(pending: set<seq<Event>>, chunks: seq<seq<Event>>, n: nat, m: nat)
    requires m <= n <= |chunks|
    ensures StoredTwice(pending, chunks, n, m) == Stored(pending, chunks[..n])
    decreases m
  {
    if m == 0 {
      StoredNothingMore(pending, chunks, n);
    } else {
      StoredWithin(pending, chunks, n, m - 1);
      TakenAgain(pending, chunks, n, m - 1);
      StoredTwiceMore(pending, chunks, n, m - 1);
    }
  }

  lemma {:induction false} StoredBeyond(pending: set<seq<Event>>, chunks: seq<seq<Event>>, n: nat, m: nat)
    requires n <= m <= |chunks|
    ensures StoredTwice(pending, chunks, n, m) == Stored(pending, chunks[..m])
    decreases m
  {
    if m == n {
      StoredWithin(pending, chunks, n, m);
    } else {
      StoredBeyond(pending, chunks, n, m - 1);
      StoredBoth(pending, chunks, n, m - 1, Stored(pending, chunks[..m - 1]));
    }
  }

  lemma StoredBoth(pending: set<seq<Event>>, chunks: seq<seq<Event>>, n: nat, m: nat, so: seq<seq<Event>>)
    requires n <= m < |chunks| && StoredTwice(pending, chunks, n, m) == so && Stored(pending, chunks[..m]) == so
    ensures StoredTwice(pending, chunks, n, m + 1) == Stored(pending, chunks[..m + 1])
  {
    TakenAgain(pending, chunks, n, m);
    StoredTwiceMore(pending, chunks, n, m);
    StoredUpTo(pending, chunks, m);
    if TakenBy(pending, chunks, m) {
      assert StoredTwice(pending, chunks, n, m + 1) == so;
    } else {
      assert StoredTwice(pending, chunks, n, m + 1) == so + [chunks[m]];
    }
  }

  /** One part of the chunks and then another store what the longer part does. */
  lemma StoredAgain(pending: set<seq<Event>>, chunks: seq<seq<Event>>, n: nat, m: nat)
    requires n <= |chunks| && m <= |chunks|
    ensures Stored(pending, chunks[..n]) + Stored(PutAll(pending, chunks[..n]), chunks[..m])
         == Stored(pending, chunks[..if m > n then m else n])
  {
    if m > n {
      StoredBeyond(pending, chunks, n, m);
    } else {
      StoredWithin(pending, chunks, n, m);
    }
  }

  lemma StoredNothingMore(pending: set<seq<Event>>, chunks: seq<seq<Event>>, n: nat)
    requires n <= |chunks|
    ensures StoredTwice(pending, chunks, n, 0) == Stored(pending, chunks[..n])
  {
    assert chunks[..0] == [];
  }

  predicate TakenBy(pending: set<seq<Event>>, chunks: seq<seq<Event>>, m: nat)
    requires m < |chunks|
  {
    Taken(PutAll(pending, chunks[..m]), chunks[m])
  }

  lemma StoredTwiceMore(pending: set<seq<Event>>, chunks: seq<seq<Event>>, n: nat, m: nat)
    requires n <= |chunks| && m < |chunks|
    ensures var so := StoredTwice(pending, chunks, n, m);
            StoredTwice(pending, chunks, n, m + 1)
            == if TakenBy(PutAll(pending, chunks[..n]), chunks, m) then so else so + [chunks[m]]
  {
    StoredUpTo(PutAll(pending, chunks[..n]), chunks, m);
  }

  lemma StoredUpTo(pending: set<seq<Event>>, chunks: seq<seq<Event>>, m: nat)
    requires m < |chunks|
    ensures var so := Stored(pending, chunks[..m]);
            Stored(pending, chunks[..m + 1]) == if TakenBy(pending, chunks, m) then so else so + [chunks[m]]
  {
    assert chunks[..m + 1] == chunks[..m] + [chunks[m]];
    StoredOneMore(pending, chunks[..m], chunks[m]);
  }

  lemma TakenAgain(pending: set<seq<Event>>, chunks: seq<seq<Event>>, n: nat, m: nat)
    requires n <= |chunks| && m < |chunks|
    ensures m < n ==> TakenBy(PutAll(pending, chunks[..n]), chunks, m)
    ensures m >= n ==> (TakenBy(PutAll(pending, chunks[..n]), chunks, m) <==> TakenBy(pending, chunks, m))
  {
    PutAllTakes(PutAll(pending, chunks[..n]), chunks[..m], chunks[m]);
    PutAllTakes(pending, chunks[..n], chunks[m]);
    PutAllTakes(pending, chunks[..m], chunks[m]);
    if m < n {
      assert chunks[..n][m] == chunks[m];
    } else {
      assert forall j :: 0 <= j < n ==> chunks[..n][j] == chunks[..m][j];
    }
  }

  /** Batches of one enqueue: chunks, under rising sequences. */
  predicate FromChunks(added: seq<Batch>, chunks: seq<seq<Event>>) {
    forall b :: b in added ==> b.events in chunks
  }

  predicate SequencesRise(added: seq<Batch>, floor: nat) {
    && (forall i :: 0 <= i < |added| ==> added[i].sequence > floor)
    && (forall i, j :: 0 <= i < j < |added| ==> added[i].sequence < added[j].sequence)
  }

  // ---- when ids are unambiguous ----

  predicate DistinctIds(events: seq<Event>) {
    forall i, j :: 0 <= i < j < |events| ==> events[i].id != events[j].id
  }

  predicate Distinct(changes: seq<Change>) {
    forall i, j :: 0 <= i < j < |changes| ==>
      !(changes[i].table == changes[j].table && changes[i].key == changes[j].key
        && changes[i].version == changes[j].version && changes[i].op == changes[j].op)
  }

  /** Changes that differ in table, key, version or operation have different ids. */
  lemma IdsAreDistinct(region: string, changes: seq<Change>)
    requires Distinct(changes)
    ensures DistinctIds(Events(region, changes))
  {
    forall i, j | 0 <= i < j < |changes|
      ensures ToEvent(region, changes[i]).id != ToEvent(region, changes[j]).id
    {
      var c, d := changes[i], changes[j];
      if ToEvent(region, c).id == ToEvent(region, d).id {
        PreimageSplits(c.table, c.key, c.version, c.op, "", d.table, d.key, d.version, d.op, "");
      }
    }
  }

  lemma {:induction false} AllowedDistinct(mode: ApplyMode, events: seq<Event>)
    requires DistinctIds(events)
    ensures DistinctIds(Allowed(mode, events)) && forall e :: e in Allowed(mode, events) ==> e in events
  {
    if events != [] {
      var init, last := events[..|events| - 1], events[|events| - 1];
      AllowedDistinct(mode, init);
      assert forall e :: e in init ==> e.id != last.id;
    }
  }

  lemma {:induction false} ChunkEnds(events: seq<Event>, max: nat, c: seq<Event>)
    requires max > 0 && c in Chunks(events, max)
    ensures c != [] && c[|c| - 1] in events
    decreases |events|
  {
    if |events| > max && c != events[..max] {
      ChunkEnds(events[max..], max, c);
    }
  }

  lemma LaterIdsDiffer(events: seq<Event>, n: nat)
    requires DistinctIds(events) && 0 < n <= |events|
    ensures forall e :: e in events[n..] ==> e.id != LastId(events[..n])
  {
  }

  lemma {:induction false} ChunkEndsDistinct(events: seq<Event>, max: nat, c: seq<Event>, d: seq<Event>)
    requires max > 0 && DistinctIds(events)
    requires c in Chunks(events, max) && d in Chunks(events, max) && LastId(c) == LastId(d)
    ensures c == d
    decreases |events|
  {
    if |events| > max {
      var first, rest := events[..max], events[max..];
      if c != first && d != first {
        ChunkEndsDistinct(rest, max, c, d);
      } else if c != d {
        var other := if c == first then d else c;
        LaterIdsDiffer(events, max);
        ChunkEnds(rest, max, other);
      }
    }
  }

  /** No change has the id that ends a pending batch. */
  predicate NewIds(region: string, changes: seq<Change>, pending: set<seq<Event>>) {
    forall x, c :: x in pending && c in changes ==> LastId(x) != ToEvent(region, c).id
  }

  /** Then ids are unambiguous for distinct changes. */
  lemma FirstAttemptIsUnambiguous(
    mode: ApplyMode, region: string, changes: seq<Change>, max: nat, pending: set<seq<Event>>)
    requires max > 0 && Distinct(changes) && NewIds(region, changes, pending)
    ensures Unambiguous(pending, Chunks(Broadcast(mode, region, changes), max))
  {
    var all := Events(region, changes);
    var events := Broadcast(mode, region, changes);
    IdsAreDistinct(region, changes);
    AllowedDistinct(mode, all);
    forall c, d | c in Chunks(events, max) && d in Chunks(events, max) && LastId(c) == LastId(d)
      ensures c == d
    {
      ChunkEndsDistinct(events, max, c, d);
    }
    forall x, c | x in pending && c in Chunks(events, max)
      ensures LastId(x) != LastId(c)
    {
      ChunkEnds(events, max, c);
      var i :| 0 <= i < |all| && all[i] == c[|c| - 1];
      assert changes[i] in changes;
    }
  }

  // ---- enqueueing for one peer ----

  function SequenceOf(sequences: map<(string, string), nat>, s: Scope): nat {
    if (s.peer, s.tableKey) in sequences then sequences[(s.peer, s.tableKey)] else 0
  }

  predicate AddedFor(
    added: seq<Batch>, s: Scope, txId: string, chunks: seq<seq<Event>>, floor: nat, ceiling: nat, now: int)
  {
    && FromChunks(added, chunks) && SequencesRise(added, floor)
    && forall b :: b in added ==> InScope(b, s) && b.txId == txId && b.sequence <= ceiling && b.createdAt == now
  }

  /** What is stored of one chunk: a batch of it, or nothing. */
  predicate StoredAs(stored: seq<Batch>, s: Scope, txId: string, chunk: seq<Event>, sequence: nat, now: int) {
    stored != [] ==>
      && |stored| == 1 && InScope(stored[0], s) && stored[0].txId == txId && stored[0].events == chunk
      && stored[0].sequence == sequence && stored[0].createdAt == now
  }

  /** Stages one chunk under the next sequence; fails when the writes allowed run out between the two. */
  method EnqueueChunk(outbox: Outbox, s: Scope, txId: string, chunk: seq<Event>, writes: nat, now: int)
    returns (ok: bool, ghost stored: seq<Batch>)
    requires outbox.Valid() && writes > 0
    modifies outbox
    ensures outbox.Valid() && outbox.rows == old(outbox.rows) + stored
    ensures SequenceOf(outbox.sequences, s) == SequenceOf(old(outbox.sequences), s) + 1
    ensures StoredAs(stored, s, txId, chunk, SequenceOf(outbox.sequences, s), now)
    ensures stored == [] <==> !ok || Taken(Pending(old(outbox.rows), s), chunk)
    ensures writes >= 2 && s.peer != "" && LastId(chunk) != "" ==> ok
  {
    stored := [];
    var sequence := outbox.NextSequence(s.peer, s.tableKey);
    if writes == 1 {
      return false, [];
    }
    var batch := Batch(0, s.peer, s.tableKey, sequence, chunk, now, txId);
    ghost var before := outbox.rows;
    ok := outbox.Enqueue(batch, now);
    TakenIff(before, s, batch);
    if ok && forall b :: b in before ==> !SameBatchKey(b, batch) {
      stored := [batch.(id := outbox.lastId)];
    }
  }

  lemma TakenIff(rows: seq<Batch>, s: Scope, batch: Batch)
    requires InScope(batch, s)
    ensures Taken(Pending(rows, s), batch.events) <==> exists b :: b in rows && SameBatchKey(b, batch)
  {
    if b :| b in rows && SameBatchKey(b, batch) {
      assert b.events in Pending(rows, s) && LastId(b.events) == LastId(batch.events);
    }
    if x :| x in Pending(rows, s) && LastId(x) == LastId(batch.events) {
      var b :| b in rows && InScope(b, s) && b.events == x;
      assert SameBatchKey(b, batch);
    }
  }

  lemma AddedStep(
    added: seq<Batch>, s: Scope, txId: string, chunks: seq<seq<Event>>, floor: nat, ceiling: nat, now: int,
    chunk: seq<Event>, stored: seq<Batch>)
    requires AddedFor(added, s, txId, chunks, floor, ceiling, now) && floor <= ceiling && chunk in chunks
    requires StoredAs(stored, s, txId, chunk, ceiling + 1, now)
    ensures AddedFor(added + stored, s, txId, chunks, floor, ceiling + 1, now)
  {
    if stored == [] {
      assert added + stored == added;
    } else {
      assert stored == [stored[0]];
      SequencesStep(added, floor, ceiling, stored[0]);
    }
  }

  lemma SequencesStep(added: seq<Batch>, floor: nat, ceiling: nat, b: Batch)
    requires SequencesRise(added, floor) && floor <= ceiling && b.sequence == ceiling + 1
    requires forall a :: a in added ==> a.sequence <= ceiling
    ensures SequencesRise(added + [b], floor)
  {
  }

  lemma Appended(a: seq<Batch>, b: seq<Batch>, c: seq<Batch>)
    ensures (a + b) + c == a + (b + c)
  {
  }

  /** Part of the chunks handled: each of them stored after the others, or skipped. */
  predicate Enqueued(
    before: seq<Batch>, after: seq<Batch>, added: seq<Batch>, s: Scope, txId: string, chunks: seq<seq<Event>>,
    handled: seq<seq<Event>>, floor: nat, ceiling: nat, now: int)
  {
    && after == before + added && handled <= chunks && floor <= ceiling
    && Queue(added, s) == Stored(Pending(before, s), handled)
    && AddedFor(added, s, txId, chunks, floor, ceiling, now)
  }

  /** What is pending in between decides whether the next chunk is skipped. */
  lemma PendingSoFar(before: seq<Batch>, added: seq<Batch>, s: Scope, handled: seq<seq<Event>>)
    requires Queue(added, s) == Stored(Pending(before, s), handled)
    ensures Pending(before + added, s) == PutAll(Pending(before, s), handled)
  {
    PendingGrows(before, added, s);
    QueueMembers(added, s);
    PutAllIsStored(Pending(before, s), handled);
  }

  lemma QueueStep(
    pending: set<seq<Event>>, added: seq<Batch>, s: Scope, handled: seq<seq<Event>>, chunk: seq<Event>,
    stored: seq<Batch>)
    requires Queue(added, s) == Stored(pending, handled)
    requires if Taken(PutAll(pending, handled), chunk) then stored == []
             else |stored| == 1 && InScope(stored[0], s) && stored[0].events == chunk
    ensures Queue(added + stored, s) == Stored(pending, handled + [chunk])
  {
    StoredOneMore(pending, handled, chunk);
    if stored == [] {
      assert added + stored == added;
    } else {
      assert stored == [stored[0]];
      QueueMore(added, stored[0], s);
    }
  }

  lemma EnqueuedStep(
    before: seq<Batch>, rows: seq<Batch>, added: seq<Batch>, s: Scope, txId: string, chunks: seq<seq<Event>>,
    handled: seq<seq<Event>>, floor: nat, ceiling: nat, now: int, chunk: seq<Event>, stored: seq<Batch>, ok: bool)
    requires Enqueued(before, rows, added, s, txId, chunks, handled, floor, ceiling, now)
    requires handled + [chunk] <= chunks && StoredAs(stored, s, txId, chunk, ceiling + 1, now)
    requires stored == [] <==> !ok || Taken(Pending(rows, s), chunk)
    ensures Enqueued(before, rows + stored, added + stored, s, txId, chunks,
                     if ok then handled + [chunk] else handled, floor, ceiling + 1, now)
  {
    assert chunks[|handled|] == (handled + [chunk])[|handled|];
    Appended(before, added, stored);
    AddedStep(added, s, txId, chunks, floor, ceiling, now, chunk, stored);
    if ok {
      PendingSoFar(before, added, s, handled);
      QueueStep(Pending(before, s), added, s, handled, chunk, stored);
    } else {
      assert added + stored == added;
    }
  }

  function FirstChunk(events: seq<Event>, max: nat): seq<Event> {
    if |events| > max then events[..max] else events
  }

  lemma ChunksStep(events: seq<Event>, max: nat)
    requires max > 0 && events != []
    ensures var chunk := FirstChunk(events, max);
            |chunk| <= |events| && Chunks(events, max) == [chunk] + Chunks(events[|chunk|..], max)
  {
  }

  lemma NextChunk(all: seq<seq<Event>>, handled: seq<seq<Event>>, chunk: seq<Event>, tail: seq<seq<Event>>)
    requires all == handled + ([chunk] + tail)
    ensures all == handled + [chunk] + tail && handled + [chunk] <= all
  {
  }

  /** Two writes for each chunk, and nothing that the outbox refuses. */
  predicate Enough(peer: string, writes: nat, chunks: seq<seq<Event>>) {
    peer != "" && writes >= 2 * |chunks| && forall c :: c in chunks ==> LastId(c) != ""
  }

  /**
   Enqueues the chunks of a batch for one peer in order, until done or until the allowed writes run
   out. Pending batches stay; of the chunks handled before it stopped, those whose last event id is not
   taken are added after them, in order, under rising sequences.
   */
  method EnqueueBatch(outbox: Outbox, peer: string, txId: string, events: seq<Event>, max: nat, writes: nat, now: int)
    returns (ok: bool, ghost added: seq<Batch>, ghost handled: seq<seq<Event>>)
    requires outbox.Valid() && max > 0
    modifies outbox
    ensures outbox.Valid() && (ok ==> handled == Chunks(events, max))
    ensures Enough(peer, writes, Chunks(events, max)) ==> ok
    ensures var s := Scope(peer, TableKey(txId, events));
            Enqueued(old(outbox.rows), outbox.rows, added, s, txId, Chunks(events, max), handled,
                     SequenceOf(old(outbox.sequences), s), SequenceOf(outbox.sequences, s), now)
  {
    added, handled, ok := [], [], true;
    var tableKey := if txId == "" && |events| > 0 then events[0].table else "";
    var s := Scope(peer, tableKey);
    var rest, left := events, writes;
    ghost var all, before, floor := Chunks(events, max), outbox.rows, SequenceOf(outbox.sequences, s);
    ghost var enough := Enough(peer, writes, all);
    while ok && |rest| > 0
      invariant outbox.Valid() && (ok ==> all == handled + Chunks(rest, max))
      invariant Enqueued(before, outbox.rows, added, s, txId, all, handled, floor, SequenceOf(outbox.sequences, s), now)
      invariant enough ==> ok && Enough(peer, left, Chunks(rest, max))
      decreases |rest|
    {
      var chunk := if |rest| > max then rest[..max] else rest;
      ChunksStep(rest, max);
      NextChunk(all, handled, chunk, Chunks(rest[|chunk|..], max));
      EnoughStep(peer, left, chunk, Chunks(rest[|chunk|..], max));
      rest := rest[|chunk|..];
      if left == 0 {
        ok := false;
      } else {
        ghost var ceiling, rows, stored := SequenceOf(outbox.sequences, s), outbox.rows, [];
        ok, stored := EnqueueChunk(outbox, s, txId, chunk, left, now);
        EnqueuedStep(before, rows, added, s, txId, all, handled, floor, ceiling, now, chunk, stored, ok);
        added, handled := added + stored, if ok then handled + [chunk] else handled;
        left := if left >= 2 then left - 2 else 0;
      }
    }
  }

  lemma EnoughStep(peer: string, writes: nat, chunk: seq<Event>, tail: seq<seq<Event>>)
    ensures Enough(peer, writes, [chunk] + tail) ==>
              writes >= 2 && LastId(chunk) != "" && Enough(peer, writes - 2, tail)
  {
    assert Enough(peer, writes, [chunk] + tail) ==> chunk in [chunk] + tail;
    assert forall c :: c in tail ==> c in [chunk] + tail;
  }

  // ---- all peers, then the cursors ----

  /** Where each table's cursor goes: to the last change of the table. */
  function LastPositions(changes: seq<Change>): map<string, Position> {
    if changes == [] then map[]
    else
      var c := changes[|changes| - 1];
      LastPositions(changes[..|changes| - 1])[c.table := Position(c.version, c.key)]
  }

  method LatestByTable(changes: seq<Change>) returns (latest: map<string, Position>)
    ensures latest == LastPositions(changes)
  {
    latest := map[];
    for i := 0 to |changes|
      invariant latest == LastPositions(changes[..i])
    {
      assert changes[..i + 1][..i] == changes[..i];
      latest := latest[changes[i].table := Position(changes[i].version, changes[i].key)];
    }
    assert changes[..|changes|] == changes;
  }

  /** The cursors after some of the tables were saved. */
  predicate Saved(
    before: map<string, Position>, latest: map<string, Position>, saved: set<string>, after: map<string, Position>)
  {
    && saved <= latest.Keys && after.Keys == before.Keys + saved
    && forall t :: t in after ==> after[t] == if t in saved then latest[t] else before[t]
  }

  lemma SavedStep(
    before: map<string, Position>, latest: map<string, Position>, todo: set<string>, after: map<string, Position>,
    t: string)
    requires Saved(before, latest, latest.Keys - todo, after) && t in todo && todo <= latest.Keys
    ensures Saved(before, latest, latest.Keys - (todo - {t}), after[t := latest[t]])
  {
    assert latest.Keys - (todo - {t}) == latest.Keys - todo + {t};
  }

  lemma SavedNothing(before: map<string, Position>, latest: map<string, Position>)
    ensures Saved(before, latest, latest.Keys - latest.Keys, before)
  {
  }

  lemma SavedAll(
    before: map<string, Position>, latest: map<string, Position>, saved: set<string>, after: map<string, Position>)
    requires Saved(before, latest, saved, after)
    ensures after + latest == before + latest
  {
  }

  lemma SavedMore(
    before: map<string, Position>, latest: map<string, Position>, saved: set<string>, mid: map<string, Position>,
    more: set<string>, after: map<string, Position>)
    requires Saved(before, latest, saved, mid) && Saved(mid, latest, more, after)
    ensures Saved(before, latest, saved + more, after)
  {
  }

  /** The first chunks were stored after what was pending, in order, or skipped. */
  predicate PutFirst(before: seq<Batch>, after: seq<Batch>, s: Scope, chunks: seq<seq<Event>>, n: nat) {
    n <= |chunks| && Queue(after, s) == Queue(before, s) + Stored(Pending(before, s), chunks[..n])
  }

  /** So were some first chunks for every peer. */
  predicate PeersPart(
    before: seq<Batch>, after: seq<Batch>, peers: seq<string>, tableKey: string, chunks: seq<seq<Event>>)
  {
    forall p :: p in peers ==> exists n :: 0 <= n <= |chunks| && PutFirst(before, after, Scope(p, tableKey), chunks, n)
  }

  /** So were all chunks for every peer. */
  predicate PeersPut(
    before: seq<Batch>, after: seq<Batch>, peers: seq<string>, tableKey: string, chunks: seq<seq<Event>>)
  {
    forall p :: p in peers ==> PutFirst(before, after, Scope(p, tableKey), chunks, |chunks|)
  }

  lemma PutFirstPending(before: seq<Batch>, after: seq<Batch>, s: Scope, chunks: seq<seq<Event>>, n: nat)
    requires PutFirst(before, after, s, chunks, n)
    ensures Pending(after, s) == PutAll(Pending(before, s), chunks[..n])
  {
    QueueMembers(before, s);
    QueueMembers(after, s);
    PutAllIsStored(Pending(before, s), chunks[..n]);
  }

  /** Two attempts one after the other store what the longer one does. */
  lemma PutFirstAgain(
    before: seq<Batch>, mid: seq<Batch>, after: seq<Batch>, s: Scope, chunks: seq<seq<Event>>, n: nat, m: nat)
    requires PutFirst(before, mid, s, chunks, n) && PutFirst(mid, after, s, chunks, m)
    ensures PutFirst(before, after, s, chunks, if m > n then m else n)
  {
    PutFirstPending(before, mid, s, chunks, n);
    StoredAgain(Pending(before, s), chunks, n, m);
  }

  lemma PutNothing(rows: seq<Batch>, s: Scope, chunks: seq<seq<Event>>)
    ensures PutFirst(rows, rows, s, chunks, 0)
  {
    assert chunks[..0] == [];
  }

  ghost predicate OthersSame(before: seq<Batch>, after: seq<Batch>, peers: seq<string>, tableKey: string) {
    forall p: string :: p !in peers ==> Queue(after, Scope(p, tableKey)) == Queue(before, Scope(p, tableKey))
  }

  /** One more peer; for one that was served before, the longer part counts. */
  lemma PutForPeer(
    before: seq<Batch>, rows: seq<Batch>, more: seq<Batch>, peers: seq<string>, p: string, tableKey: string,
    chunks: seq<seq<Event>>, m: nat, q: string, n: nat)
    requires OthersSame(before, rows, peers, tableKey) && forall b :: b in more ==> InScope(b, Scope(p, tableKey))
    requires PutFirst(rows, rows + more, Scope(p, tableKey), chunks, m)
    requires if q in peers then PutFirst(before, rows, Scope(q, tableKey), chunks, n) else q == p && n == m
    ensures PutFirst(before, rows + more, Scope(q, tableKey), chunks, if q == p && m > n then m else n)
  {
    var s, other := Scope(p, tableKey), Scope(q, tableKey);
    if q != p {
      QueueJoins(rows, more, other);
      QueueElsewhere(more, s, other);
    } else if p in peers {
      PutFirstAgain(before, rows, rows + more, s, chunks, n, m);
    } else {
      QueueMembers(rows, s);
      QueueMembers(before, s);
    }
  }

  lemma PeersPutStep(
    before: seq<Batch>, rows: seq<Batch>, more: seq<Batch>, peers: seq<string>, p: string, tableKey: string,
    chunks: seq<seq<Event>>)
    requires PeersPut(before, rows, peers, tableKey, chunks) && OthersSame(before, rows, peers, tableKey)
    requires forall b :: b in more ==> InScope(b, Scope(p, tableKey))
    requires PutFirst(rows, rows + more, Scope(p, tableKey), chunks, |chunks|)
    ensures PeersPut(before, rows + more, peers + [p], tableKey, chunks)
  {
    forall q | q in peers + [p]
      ensures PutFirst(before, rows + more, Scope(q, tableKey), chunks, |chunks|)
    {
      PutForPeer(before, rows, more, peers, p, tableKey, chunks, |chunks|, q, |chunks|);
    }
  }

  lemma PeersPartStep(
    before: seq<Batch>, rows: seq<Batch>, more: seq<Batch>, peers: seq<string>, p: string, tableKey: string,
    chunks: seq<seq<Event>>, m: nat)
    requires PeersPart(before, rows, peers, tableKey, chunks) && OthersSame(before, rows, peers, tableKey)
    requires forall b :: b in more ==> InScope(b, Scope(p, tableKey))
    requires PutFirst(rows, rows + more, Scope(p, tableKey), chunks, m)
    ensures PeersPart(before, rows + more, peers + [p], tableKey, chunks)
  {
    forall q | q in peers + [p]
      ensures exists n :: 0 <= n <= |chunks| && PutFirst(before, rows + more, Scope(q, tableKey), chunks, n)
    {
      var n := m;
      if q in peers {
        n :| 0 <= n <= |chunks| && PutFirst(before, rows, Scope(q, tableKey), chunks, n);
      }
      PutForPeer(before, rows, more, peers, p, tableKey, chunks, m, q, n);
    }
  }

  lemma OthersSameStep(
    before: seq<Batch>, rows: seq<Batch>, more: seq<Batch>, peers: seq<string>, p: string, tableKey: string)
    requires OthersSame(before, rows, peers, tableKey) && forall b :: b in more ==> InScope(b, Scope(p, tableKey))
    ensures OthersSame(before, rows + more, peers + [p], tableKey)
  {
    forall q: string | q !in peers + [p]
      ensures Queue(rows + more, Scope(q, tableKey)) == Queue(before, Scope(q, tableKey))
    {
      assert p in peers + [p];
      assert q !in peers;
      QueueJoins(rows, more, Scope(q, tableKey));
      QueueElsewhere(more, Scope(p, tableKey), Scope(q, tableKey));
    }
  }

  /** What one enqueue for a peer contributes. */
  lemma EnqueuedPuts(
    before: seq<Batch>, after: seq<Batch>, added: seq<Batch>, s: Scope, txId: string, chunks: seq<seq<Event>>,
    handled: seq<seq<Event>>, floor: nat, ceiling: nat, now: int)
    requires Enqueued(before, after, added, s, txId, chunks, handled, floor, ceiling, now)
    ensures PutFirst(before, after, s, chunks, |handled|)
  {
    QueueJoins(before, added, s);
    assert handled == chunks[..|handled|];
  }

  /** Some peers served, the last one perhaps in part. */
  ghost predicate PeersServed(
    before: seq<Batch>, after: seq<Batch>, added: seq<Batch>, peers: seq<string>, tableKey: string,
    chunks: seq<seq<Event>>, ok: bool)
  {
    && after == before + added && FromChunks(added, chunks) && OthersSame(before, after, peers, tableKey)
    && PeersPart(before, after, peers, tableKey, chunks)
    && (ok ==> PeersPut(before, after, peers, tableKey, chunks))
  }

  lemma PeersServedStep(
    before: seq<Batch>, rows: seq<Batch>, added: seq<Batch>, peers: seq<string>, tableKey: string,
    chunks: seq<seq<Event>>, ok: bool, p: string, txId: string, after: seq<Batch>, more: seq<Batch>,
    handled: seq<seq<Event>>, floor: nat, ceiling: nat, now: int, done: bool)
    requires PeersServed(before, rows, added, peers, tableKey, chunks, ok)
    requires Enqueued(rows, after, more, Scope(p, tableKey), txId, chunks, handled, floor, ceiling, now)
    requires done ==> handled == chunks
    ensures PeersServed(before, after, added + more, peers + [p], tableKey, chunks, ok && done)
  {
    EnqueuedPuts(rows, after, more, Scope(p, tableKey), txId, chunks, handled, floor, ceiling, now);
    Appended(before, added, more);
    OthersSameStep(before, rows, more, peers, p, tableKey);
    PeersPartStep(before, rows, more, peers, p, tableKey, chunks, |handled|);
    if ok && done {
      PeersPutStep(before, rows, more, peers, p, tableKey, chunks);
    }
  }

  /** Attempts one after the other, nothing deleted in between. */
  lemma PeersPartAgain(
    before: seq<Batch>, mid: seq<Batch>, after: seq<Batch>, peers: seq<string>, tableKey: string,
    chunks: seq<seq<Event>>)
    requires PeersPart(before, mid, peers, tableKey, chunks) && PeersPart(mid, after, peers, tableKey, chunks)
    ensures PeersPart(before, after, peers, tableKey, chunks)
    ensures PeersPut(mid, after, peers, tableKey, chunks) ==> PeersPut(before, after, peers, tableKey, chunks)
  {
    forall p | p in peers
      ensures exists k :: 0 <= k <= |chunks| && PutFirst(before, after, Scope(p, tableKey), chunks, k)
      ensures PutFirst(mid, after, Scope(p, tableKey), chunks, |chunks|) ==>
                PutFirst(before, after, Scope(p, tableKey), chunks, |chunks|)
    {
      var s := Scope(p, tableKey);
      var n :| 0 <= n <= |chunks| && PutFirst(before, mid, s, chunks, n);
      var m :| 0 <= m <= |chunks| && PutFirst(mid, after, s, chunks, m);
      PutFirstAgain(before, mid, after, s, chunks, n, m);
      if PutFirst(mid, after, s, chunks, |chunks|) {
        PutFirstAgain(before, mid, after, s, chunks, n, |chunks|);
      }
    }
  }

  /** Writes enough for every peer. */
  predicate PeersEnough(peers: seq<string>, writes: seq<nat>, chunks: seq<seq<Event>>)
    requires |writes| == |peers|
  {
    forall i :: 0 <= i < |peers| ==> Enough(peers[i], writes[i], chunks)
  }

  /** Every event is in a pending batch of every peer. */
  predicate PeersHave(rows: seq<Batch>, peers: seq<string>, tableKey: string, events: seq<Event>) {
    forall p :: p in peers ==> HasEvents(Pending(rows, Scope(p, tableKey)), events)
  }

  predicate PeersHold(rows: seq<Batch>, peers: seq<string>, tableKey: string, chunks: seq<seq<Event>>) {
    forall p :: p in peers ==> SkippedAreHeld(Pending(rows, Scope(p, tableKey)), chunks)
  }

  lemma PeersHaveIff(
    before: seq<Batch>, after: seq<Batch>, peers: seq<string>, tableKey: string, events: seq<Event>, max: nat)
    requires max > 0 && PeersPut(before, after, peers, tableKey, Chunks(events, max))
    ensures PeersHave(after, peers, tableKey, events) <==> PeersHold(before, peers, tableKey, Chunks(events, max))
  {
    ChunksPartition(events, max);
    forall p | p in peers
      ensures HasEvents(Pending(after, Scope(p, tableKey)), events)
         <==> SkippedAreHeld(Pending(before, Scope(p, tableKey)), Chunks(events, max))
    {
      var chunks := Chunks(events, max);
      PutFirstPending(before, after, Scope(p, tableKey), chunks, |chunks|);
      assert chunks[..|chunks|] == chunks;
      EventsPendingIff(Pending(before, Scope(p, tableKey)), chunks);
    }
  }

  // ---- attempts ----

  predicate PeersUnambiguous(rows: seq<Batch>, peers: seq<string>, tableKey: string, chunks: seq<seq<Event>>) {
    forall p :: p in peers ==> Unambiguous(Pending(rows, Scope(p, tableKey)), chunks)
  }

  predicate PeersNewIds(region: string, changes: seq<Change>, rows: seq<Batch>, peers: seq<string>, tableKey: string) {
    forall p :: p in peers ==> NewIds(region, changes, Pending(rows, Scope(p, tableKey)))
  }

  lemma FirstAttempt(
    mode: ApplyMode, region: string, changes: seq<Change>, max: nat, rows: seq<Batch>, peers: seq<string>,
    tableKey: string)
    requires max > 0 && Distinct(changes) && PeersNewIds(region, changes, rows, peers, tableKey)
    ensures PeersUnambiguous(rows, peers, tableKey, Chunks(Broadcast(mode, region, changes), max))
  {
    forall p | p in peers
      ensures Unambiguous(Pending(rows, Scope(p, tableKey)), Chunks(Broadcast(mode, region, changes), max))
    {
      FirstAttemptIsUnambiguous(mode, region, changes, max, Pending(rows, Scope(p, tableKey)));
    }
  }

  lemma NextAttempt(
    rows: seq<Batch>, added: seq<Batch>, left: seq<Batch>, peers: seq<string>, tableKey: string,
    chunks: seq<seq<Event>>)
    requires PeersUnambiguous(rows, peers, tableKey, chunks) && FromChunks(added, chunks)
    requires forall b :: b in left ==> b in rows || b in added
    ensures PeersUnambiguous(left, peers, tableKey, chunks)
  {
    forall p | p in peers
      ensures Unambiguous(Pending(left, Scope(p, tableKey)), chunks)
    {
      RetryIsUnambiguous(Pending(rows, Scope(p, tableKey)), Pending(left, Scope(p, tableKey)), chunks);
    }
  }

  lemma UnambiguousHolds(rows: seq<Batch>, peers: seq<string>, tableKey: string, chunks: seq<seq<Event>>)
    requires PeersUnambiguous(rows, peers, tableKey, chunks)
    ensures PeersHold(rows, peers, tableKey, chunks)
  {
    forall p | p in peers
      ensures SkippedAreHeld(Pending(rows, Scope(p, tableKey)), chunks)
    {
      UnambiguousIsHeld(Pending(rows, Scope(p, tableKey)), chunks);
    }
  }

  lemma {:induction false} WithoutNothing(rows: seq<Batch>)
    ensures Without(rows, {}) == rows
  {
    if rows != [] {
      WithoutNothing(rows[..|rows| - 1]);
    }
  }

  /** Acknowledgements and cleanup between two attempts. */
  method Forget(outbox: Outbox, gone: set<nat>)
    requires outbox.Valid()
    modifies outbox`rows
    ensures outbox.Valid() && outbox.rows == Without(old(outbox.rows), gone)
    ensures forall b :: b in outbox.rows ==> b in old(outbox.rows)
    ensures gone == {} ==> outbox.rows == old(outbox.rows)
  {
    WithoutNothing(outbox.rows);
    WithoutMembers(outbox.rows, gone);
    WithoutKeysUnique(outbox.rows, gone);
    outbox.rows := Without(outbox.rows, gone);
  }

  /** What one attempt may write for each peer and for the cursors, and the batches deleted after it fails. */
  datatype Attempt = Attempt(writes: seq<nat>, saves: nat, gone: set<nat>)

  class Producer {
    const region: string
    const mode: ApplyMode
    const max: nat
    const peers: seq<string>
    const outbox: Outbox
    var cursors: map<string, Position>

    constructor (region: string, mode: ApplyMode, max: nat, peers: seq<string>, outbox: Outbox)
      requires max > 0 && outbox.Valid()
      ensures Valid() && this.outbox == outbox && cursors == map[]
      ensures this.region == region && this.mode == mode && this.max == max && this.peers == peers
    {
      this.region, this.mode, this.max, this.peers, this.outbox := region, mode, max, peers, outbox;
      cursors := map[];
    }

    predicate Valid()
      reads this, outbox
    {
      max > 0 && outbox.Valid()
    }

    /** Saves the cursors table by table, until the allowed writes run out. */
    method SaveCursors(latest: map<string, Position>, writes: nat) returns (ok: bool, ghost saved: set<string>)
      modifies this`cursors
      ensures Saved(old(cursors), latest, saved, cursors) && (ok ==> saved == latest.Keys)
      ensures writes >= |latest.Keys| ==> ok
    {
      var left, todo := writes, latest.Keys;
      ghost var before := cursors;
      SavedNothing(before, latest);
      while todo != {} && left > 0
        invariant todo <= latest.Keys && Saved(before, latest, latest.Keys - todo, cursors)
        invariant writes >= |latest.Keys| ==> left >= |todo|
        decreases |todo|
      {
        var t :| t in todo;
        SavedStep(before, latest, todo, cursors, t);
        cursors := cursors[t := latest[t]];
        todo, left := todo - {t}, left - 1;
      }
      saved, ok := latest.Keys - todo, todo == {};
    }

    method SaveCursor(changes: seq<Change>, writes: nat) returns (ok: bool, ghost saved: set<string>)
      modifies this`cursors
      ensures Saved(old(cursors), LastPositions(changes), saved, cursors)
      ensures ok ==> cursors == old(cursors) + LastPositions(changes)
      ensures writes >= |LastPositions(changes).Keys| ==> ok
    {
      var latest := LatestByTable(changes);
      ok, saved := SaveCursors(latest, writes);
      if ok {
        assert cursors == old(cursors) + latest;
      }
    }

    /** Enqueues the events for every peer; a peer that fails does not stop the others. */
    method EnqueueForPeers(txId: string, events: seq<Event>, writes: seq<nat>, now: int)
      returns (ok: bool, ghost added: seq<Batch>)
      requires Valid() && |writes| == |peers|
      modifies outbox
      ensures Valid() && outbox.rows == old(outbox.rows) + added && FromChunks(added, Chunks(events, max))
      ensures PeersPart(old(outbox.rows), outbox.rows, peers, TableKey(txId, events), Chunks(events, max))
      ensures ok ==> PeersPut(old(outbox.rows), outbox.rows, peers, TableKey(txId, events), Chunks(events, max))
      ensures PeersEnough(peers, writes, Chunks(events, max)) ==> ok
    {
      added, ok := [], true;
      ghost var chunks, key, before := Chunks(events, max), TableKey(txId, events), outbox.rows;
      for i := 0 to |peers|
        invariant Valid() && PeersServed(before, outbox.rows, added, peers[..i], key, chunks, ok)
        invariant PeersEnough(peers, writes, chunks) ==> ok
      {
        ghost var s, rows := Scope(peers[i], key), outbox.rows;
        ghost var floor := SequenceOf(outbox.sequences, s);
        var done; ghost var more, handled;
        done, more, handled := EnqueueBatch(outbox, peers[i], txId, events, max, writes[i], now);
        ghost var ceiling := SequenceOf(outbox.sequences, s);
        assert peers[..i + 1] == peers[..i] + [peers[i]];
        PeersServedStep(before, rows, added, peers[..i], key, chunks, ok, peers[i], txId, outbox.rows, more, handled,
                        floor, ceiling, now, done);
        added, ok := added + more, ok && done;
      }
      assert peers[..|peers|] == peers;
    }

    function BroadcastOf(batch: ChangeBatch): seq<Event> {
      Broadcast(mode, region, batch.changes)
    }

    function KeyOf(batch: ChangeBatch): string {
      TableKey(batch.txId, BroadcastOf(batch))
    }

    /**
     Handles one captured batch, with any number of allowed writes for each peer and for the cursors.
     Nothing pending is lost. For every peer some first chunks, and with enough writes all of them, are
     added after what was pending, in order, or skipped. Cursors move only once all are, and then every
     event is pending for every peer if and only if the events of skipped chunks were held elsewhere.
     */
    method HandleBatch(batch: ChangeBatch, writes: seq<nat>, saves: nat, now: int)
      returns (ok: bool, ghost added: seq<Batch>)
      requires Valid() && |writes| == |peers|
      modifies this`cursors, outbox
      ensures Valid() && outbox.rows == old(outbox.rows) + added && FromChunks(added, Chunks(BroadcastOf(batch), max))
      ensures PeersPart(old(outbox.rows), outbox.rows, peers, KeyOf(batch), Chunks(BroadcastOf(batch), max))
      ensures ok || cursors != old(cursors) || PeersEnough(peers, writes, Chunks(BroadcastOf(batch), max)) ==>
                && PeersPut(old(outbox.rows), outbox.rows, peers, KeyOf(batch), Chunks(BroadcastOf(batch), max))
                && (PeersHave(outbox.rows, peers, KeyOf(batch), BroadcastOf(batch))
                    <==> PeersHold(old(outbox.rows), peers, KeyOf(batch), Chunks(BroadcastOf(batch), max)))
      ensures PeersEnough(peers, writes, Chunks(BroadcastOf(batch), max)) ==>
                (saves >= |LastPositions(batch.changes).Keys| ==> ok)
      ensures ok ==>
                cursors == if BroadcastOf(batch) == [] then old(cursors)
                           else old(cursors) + LastPositions(batch.changes)
      ensures exists saved :: Saved(old(cursors), LastPositions(batch.changes), saved, cursors)
    {
      var events := FilteredEvents(batch.changes);
      ghost var chunks, key := Chunks(events, max), TableKey(batch.txId, events);
      assert Saved(cursors, LastPositions(batch.changes), {}, cursors);
      if |events| == 0 {
        assert outbox.rows == outbox.rows + [];
        forall p | p in peers
          ensures PutFirst(outbox.rows, outbox.rows, Scope(p, key), chunks, 0)
        {
          PutNothing(outbox.rows, Scope(p, key), chunks);
        }
        PeersHaveIff(outbox.rows, outbox.rows, peers, key, events, max);
        return true, [];
      }
      ok, added := EnqueueForPeers(batch.txId, events, writes, now);
      if ok {
        PeersHaveIff(old(outbox.rows), outbox.rows, peers, key, events, max);
        ghost var saved;
        ok, saved := SaveCursor(batch.changes, saves);
      }
    }

    /** One attempt; after a failure some batches are deleted before the next one. */
    method HandleOnce(batch: ChangeBatch, a: Attempt, now: int) returns (ok: bool)
      requires Valid() && |a.writes| == |peers|
      modifies this`cursors, outbox
      ensures Valid()
      ensures PeersUnambiguous(old(outbox.rows), peers, KeyOf(batch), Chunks(BroadcastOf(batch), max)) ==>
                if ok then PeersHave(outbox.rows, peers, KeyOf(batch), BroadcastOf(batch))
                else PeersUnambiguous(outbox.rows, peers, KeyOf(batch), Chunks(BroadcastOf(batch), max))
      ensures ok && BroadcastOf(batch) != [] ==> cursors == old(cursors) + LastPositions(batch.changes)
      ensures exists saved :: Saved(old(cursors), LastPositions(batch.changes), saved, cursors)
      ensures ok || a.gone == {} ==>
                PeersPart(old(outbox.rows), outbox.rows, peers, KeyOf(batch), Chunks(BroadcastOf(batch), max))
      ensures ok ==> PeersPut(old(outbox.rows), outbox.rows, peers, KeyOf(batch), Chunks(BroadcastOf(batch), max))
    {
      ghost var chunks, key, rows := Chunks(BroadcastOf(batch), max), KeyOf(batch), outbox.rows;
      ghost var clear, added := PeersUnambiguous(outbox.rows, peers, key, chunks), [];
      ok, added := HandleBatch(batch, a.writes, a.saves, now);
      if clear {
        UnambiguousHolds(rows, peers, key, chunks);
      }
      if !ok {
        Forget(outbox, a.gone);
        if clear {
          NextAttempt(rows, added, outbox.rows, peers, key, chunks);
        }
      }
    }

    /**
     A batch is handed in until it is handled, each time after a failure anywhere and any deletions.
     For distinct changes none of whose ids ended a pending batch, every allowed event is in the end
     pending for every peer, under unique keys, and the cursors are at the last changes. If nothing is
     deleted in between, the attempts leave, in the same order, what one attempt without a failure would.
     */
    method HandleUntilStored(batch: ChangeBatch, attempts: seq<Attempt>, now: int) returns (ok: bool)
      requires Valid() && forall a :: a in attempts ==> |a.writes| == |peers|
      modifies this`cursors, outbox
      ensures Valid()
      ensures ok && Distinct(batch.changes)
              && PeersNewIds(region, batch.changes, old(outbox.rows), peers, KeyOf(batch)) ==>
                PeersHave(outbox.rows, peers, KeyOf(batch), BroadcastOf(batch)) && KeysUnique(outbox.rows)
      ensures ok && BroadcastOf(batch) != [] ==> cursors == old(cursors) + LastPositions(batch.changes)
      ensures ok && (forall a :: a in attempts ==> a.gone == {}) ==>
                PeersPut(old(outbox.rows), outbox.rows, peers, KeyOf(batch), Chunks(BroadcastOf(batch), max))
    {
      ghost var chunks, key, saved := Chunks(BroadcastOf(batch), max), KeyOf(batch), {};
      ghost var clear := Distinct(batch.changes) && PeersNewIds(region, batch.changes, outbox.rows, peers, key);
      if clear {
        FirstAttempt(mode, region, batch.changes, max, outbox.rows, peers, key);
      }
      ghost var before, kept := outbox.rows, forall a :: a in attempts ==> a.gone == {};
      forall p | p in peers
        ensures PutFirst(before, before, Scope(p, key), chunks, 0)
      {
        PutNothing(before, Scope(p, key), chunks);
      }
      ok := false;
      for i := 0 to |attempts|
        invariant Valid() && !ok
        invariant clear ==> PeersUnambiguous(outbox.rows, peers, key, chunks)
        invariant Saved(old(cursors), LastPositions(batch.changes), saved, cursors)
        invariant kept ==> PeersPart(before, outbox.rows, peers, key, chunks)
      {
        ghost var reached, rows := cursors, outbox.rows;
        assert attempts[i] in attempts;
        ok := HandleOnce(batch, attempts[i], now);
        if kept {
          PeersPartAgain(before, rows, outbox.rows, peers, key, chunks);
        }
        SavedAll(old(cursors), LastPositions(batch.changes), saved, reached);
        if ok {
          return;
        }
        ghost var more :| Saved(reached, LastPositions(batch.changes), more, cursors);
        SavedMore(old(cursors), LastPositions(batch.changes), saved, reached, more, cursors);
        saved := saved + more;
      }
    }

    method FilteredEvents(changes: seq<Change>) returns (events: seq<Event>)
      ensures events == Broadcast(mode, region, changes)
    {
      events := [];
      ghost var all := Events(region, changes);
      for i := 0 to |changes|
        invariant events == Allowed(mode, all[..i])
      {
        assert all[..i + 1][..i] == all[..i];
        var e := ToEvent(region, changes[i]);
        if ApplyAllowed(mode, e.op) {
          events := events + [e];
        }
      }
      assert all[..|changes|] == all;
    }
  }
}
