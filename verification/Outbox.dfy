/**
 The sender's outbox: durable batches per peer, sequences, acknowledgement, pruning, and the
 in-memory live channels (internal/repository/postgres/outbox.go, internal/service/outbox/service.go).
 */
module Outboxes {
  import opened PrimaryKeys
  import opened Rows

  const LIVE_BUFFER_SIZE: nat := 128
  const REPLAY_PAGE_SIZE: nat := 256

  /** One outbound batch; tableKey is empty for change-data-capture transactions. */
  datatype Batch = Batch(
    id: nat, peer: string, tableKey: string, sequence: nat, events: seq<Event>, createdAt: int, txId: string)

  function LastEventId(b: Batch): string {
    if b.events == [] then "" else b.events[|b.events| - 1].id
  }

  predicate Stageable(b: Batch) {
    b.peer != "" && b.sequence > 0 && b.events != [] && LastEventId(b) != ""
  }

  /** The unique key of a pending batch. */
  predicate SameBatchKey(a: Batch, b: Batch) {
    a.peer == b.peer && a.tableKey == b.tableKey && LastEventId(a) == LastEventId(b)
  }

  // ---- windows and pages ----

  /** A replay window; an absent bound is the zero time of the source. */
  datatype Window = Window(peer: string, lower: Option<int>, upper: Option<int>)

  predicate InWindow(b: Batch, w: Window) {
    && b.peer == w.peer
    && (w.lower.Some? ==> b.createdAt > w.lower.value)
    && (w.upper.Some? ==> b.createdAt <= w.upper.value)
  }

  /** The batches of a window beyond an id, in id order. */
  function Listed(rows: seq<Batch>, w: Window, afterId: nat): seq<Batch> {
    if rows == [] then []
    else
      Listed(rows[..|rows| - 1], w, afterId)
      + (if rows[|rows| - 1].id > afterId && InWindow(rows[|rows| - 1], w) then [rows[|rows| - 1]] else [])
  }

  /** OutboxListPendingWindow. */
  function Page(rows: seq<Batch>, w: Window, afterId: nat, limit: nat): seq<Batch> {
    var all := Listed(rows, w, afterId);
    if |all| <= limit then all else all[..limit]
  }

  predicate IdsIncrease(rows: seq<Batch>) {
    forall i, j :: 0 <= i < j < |rows| ==> rows[i].id < rows[j].id
  }

  predicate KeysUnique(rows: seq<Batch>) {
    forall i, j :: 0 <= i < j < |rows| ==> !SameBatchKey(rows[i], rows[j])
  }

  lemma {:induction false} ListedMembers(rows: seq<Batch>, w: Window, afterId: nat)
    ensures forall b :: b in Listed(rows, w, afterId) <==> b in rows && b.id > afterId && InWindow(b, w)
    ensures IdsIncrease(rows) ==> IdsIncrease(Listed(rows, w, afterId))
  {
    if rows != [] {
      var init, last := rows[..|rows| - 1], rows[|rows| - 1];
      ListedMembers(init, w, afterId);
      assert rows == init + [last];
      if IdsIncrease(rows) {
        assert forall b :: b in init ==> b.id < last.id;
      }
    }
  }

  // ---- removal of batches ----

  function Without(rows: seq<Batch>, gone: set<nat>): seq<Batch> {
    if rows == [] then []
    else Without(rows[..|rows| - 1], gone) + (if rows[|rows| - 1].id in gone then [] else [rows[|rows| - 1]])
  }

  lemma {:induction false} WithoutMembers(rows: seq<Batch>, gone: set<nat>)
    ensures forall b :: b in Without(rows, gone) <==> b in rows && b.id !in gone
    ensures IdsIncrease(rows) ==> IdsIncrease(Without(rows, gone))
  {
    if rows != [] {
      WithoutMembers(rows[..|rows| - 1], gone);
      assert rows == rows[..|rows| - 1] + [rows[|rows| - 1]];
    }
  }

  lemma KeysUniqueAppend(rows: seq<Batch>, b: Batch)
    requires KeysUnique(rows) && forall x :: x in rows ==> !SameBatchKey(x, b)
    ensures KeysUnique(rows + [b])
  {
    var all := rows + [b];
    forall i, j | 0 <= i < j < |all|
      ensures !SameBatchKey(all[i], all[j])
    {
      assert all[i] == rows[i] && rows[i] in rows;
    }
  }

  lemma {:induction false} WithoutKeysUnique(rows: seq<Batch>, gone: set<nat>)
    requires KeysUnique(rows)
    ensures KeysUnique(Without(rows, gone))
  {
    if rows != [] {
      var init, last := rows[..|rows| - 1], rows[|rows| - 1];
      WithoutKeysUnique(init, gone);
      WithoutMembers(init, gone);
      forall x | x in init
        ensures !SameBatchKey(x, last)
      {
        var i :| 0 <= i < |init| && init[i] == x;
        assert !SameBatchKey(rows[i], rows[|rows| - 1]);
      }
      KeysUniqueAppend(Without(init, gone), last);
    }
  }

  /** The ids deleted by an acknowledgement. */
  function AckedIds(rows: seq<Batch>, peer: string, tableKey: string, lastEventId: string): set<nat> {
    set b | b in rows && b.peer == peer && b.tableKey == tableKey && LastEventId(b) == lastEventId :: b.id
  }

  function RankFromNewest(rows: seq<Batch>, b: Batch): nat {
    |set x | x in rows && x.peer == b.peer && x.id >= b.id :: x.id|
  }

  /** The ids a cleanup deletes: too old, or beyond the newest maxPending of their peer. */
  function CleanedByAge(rows: seq<Batch>, now: int, maxAge: int): set<nat> {
    if maxAge <= 0 then {} else set b | b in rows && b.createdAt < now - maxAge :: b.id
  }

  function CleanedByCount(rows: seq<Batch>, maxPending: int): set<nat> {
    if maxPending <= 0 then {} else set b | b in rows && RankFromNewest(rows, b) > maxPending :: b.id
  }

  /** An acknowledgement deletes at most one batch: keys are unique. */
  lemma AckDeletesOne(rows: seq<Batch>, peer: string, tableKey: string, lastEventId: string, a: nat, b: nat)
    requires KeysUnique(rows)
    requires a in AckedIds(rows, peer, tableKey, lastEventId) && b in AckedIds(rows, peer, tableKey, lastEventId)
    ensures a == b
  {
    var x :| x in rows && x.peer == peer && x.tableKey == tableKey && LastEventId(x) == lastEventId && x.id == a;
    var y :| y in rows && y.peer == peer && y.tableKey == tableKey && LastEventId(y) == lastEventId && y.id == b;
    var i :| 0 <= i < |rows| && rows[i] == x;
    var j :| 0 <= j < |rows| && rows[j] == y;
    if i < j {
      assert SameBatchKey(rows[i], rows[j]);
    } else if j < i {
      assert SameBatchKey(rows[j], rows[i]);
    }
  }

  // ---- which batches a cleanup keeps ----

  function OfPeer(rows: seq<Batch>, peer: string): seq<Batch> {
    if rows == [] then []
    else
      var last := rows[|rows| - 1];
      OfPeer(rows[..|rows| - 1], peer) + (if last.peer == peer then [last] else [])
  }

  lemma {:induction false} OfPeerMembers(rows: seq<Batch>, peer: string)
    ensures forall b :: b in OfPeer(rows, peer) <==> b in rows && b.peer == peer
    ensures IdsIncrease(rows) ==> IdsIncrease(OfPeer(rows, peer))
  {
    if rows != [] {
      OfPeerMembers(rows[..|rows| - 1], peer);
      assert rows == rows[..|rows| - 1] + [rows[|rows| - 1]];
    }
  }

  lemma OfPeerMore(rows: seq<Batch>, b: Batch, peer: string)
    ensures OfPeer(rows + [b], peer) == OfPeer(rows, peer) + if b.peer == peer then [b] else []
  {
    assert (rows + [b])[..|rows|] == rows;
  }

  lemma WithoutMore(rows: seq<Batch>, b: Batch, gone: set<nat>)
    ensures Without(rows + [b], gone) == Without(rows, gone) + if b.id in gone then [] else [b]
  {
    assert (rows + [b])[..|rows|] == rows;
  }

  lemma {:induction false} OfPeerWithout(rows: seq<Batch>, gone: set<nat>, peer: string)
    ensures OfPeer(Without(rows, gone), peer) == Without(OfPeer(rows, peer), gone)
  {
    if rows != [] {
      var init, last := rows[..|rows| - 1], rows[|rows| - 1];
      OfPeerWithout(init, gone, peer);
      OfPeerMore(Without(init, gone), last, peer);
      WithoutMore(OfPeer(init, peer), last, gone);
      assert Without(init, gone) + [] == Without(init, gone) && OfPeer(init, peer) + [] == OfPeer(init, peer);
    }
  }

  function IdsFrom(rows: seq<Batch>, i: nat): set<nat>
    requires i <= |rows|
  {
    set j | i <= j < |rows| :: rows[j].id
  }

  lemma {:induction false} IdsFromCount(rows: seq<Batch>, i: nat)
    requires i <= |rows| && IdsIncrease(rows)
    ensures |IdsFrom(rows, i)| == |rows| - i
    decreases |rows| - i
  {
    if i == |rows| {
      assert IdsFrom(rows, i) == {};
    } else {
      IdsFromCount(rows, i + 1);
      assert IdsFrom(rows, i) == IdsFrom(rows, i + 1) + {rows[i].id};
    }
  }

  lemma YoungerIds(rows: seq<Batch>, mine: seq<Batch>, peer: string, i: nat, id: nat)
    requires IdsIncrease(mine) && i < |mine| && forall b :: b in mine <==> b in rows && b.peer == peer
    ensures id in IdsFrom(mine, i) <==> exists x :: x in rows && x.peer == peer && x.id >= mine[i].id && x.id == id
  {
    if x :| x in rows && x.peer == peer && x.id >= mine[i].id && x.id == id {
      var j :| 0 <= j < |mine| && mine[j] == x;
    }
    if id in IdsFrom(mine, i) {
      var j :| i <= j < |mine| && mine[j].id == id;
      assert mine[j] in mine;
    }
  }

  /** The rank of a batch counts from the newest of its peer. */
  lemma RankIs(rows: seq<Batch>, peer: string, i: nat)
    requires IdsIncrease(rows) && i < |OfPeer(rows, peer)|
    ensures RankFromNewest(rows, OfPeer(rows, peer)[i]) == |OfPeer(rows, peer)| - i
  {
    var mine := OfPeer(rows, peer);
    OfPeerMembers(rows, peer);
    RankIn(rows, mine, peer, i);
  }

  lemma RankIn(rows: seq<Batch>, mine: seq<Batch>, peer: string, i: nat)
    requires IdsIncrease(mine) && i < |mine| && forall b :: b in mine <==> b in rows && b.peer == peer
    ensures RankFromNewest(rows, mine[i]) == |mine| - i
  {
    IdsFromCount(mine, i);
    assert mine[i] in mine;
    var ids := set x | x in rows && x.peer == mine[i].peer && x.id >= mine[i].id :: x.id;
    forall id
      ensures id in ids <==> id in IdsFrom(mine, i)
    {
      YoungerIds(rows, mine, peer, i, id);
    }
    assert ids == IdsFrom(mine, i);
  }

  lemma {:induction false} WithoutPrefix(rows: seq<Batch>, gone: set<nat>, cut: nat)
    requires cut <= |rows| && forall i :: 0 <= i < |rows| ==> (rows[i].id in gone <==> i < cut)
    ensures Without(rows, gone) == rows[cut..]
  {
    if rows != [] {
      var init := rows[..|rows| - 1];
      assert forall i :: 0 <= i < |init| ==> init[i] == rows[i];
      WithoutPrefix(init, gone, if cut < |rows| then cut else |init|);
    }
  }

  lemma CleanedIff(rows: seq<Batch>, maxPending: nat, b: Batch)
    requires IdsIncrease(rows) && maxPending > 0 && b in rows
    ensures b.id in CleanedByCount(rows, maxPending) <==> RankFromNewest(rows, b) > maxPending
  {
    if b.id in CleanedByCount(rows, maxPending) {
      var x :| x in rows && RankFromNewest(rows, x) > maxPending && x.id == b.id;
      OneId(rows, x, b);
    }
  }

  /** A cleanup by count keeps, of every peer, exactly the newest batches up to the bound. */
  lemma NewestAreKept(rows: seq<Batch>, maxPending: nat, peer: string)
    requires IdsIncrease(rows) && maxPending > 0
    ensures var mine := OfPeer(rows, peer);
            OfPeer(Without(rows, CleanedByCount(rows, maxPending)), peer)
            == if |mine| <= maxPending then mine else mine[|mine| - maxPending..]
  {
    var mine, gone := OfPeer(rows, peer), CleanedByCount(rows, maxPending);
    var cut := if |mine| <= maxPending then 0 else |mine| - maxPending;
    OfPeerMembers(rows, peer);
    OfPeerWithout(rows, gone, peer);
    forall i | 0 <= i < |mine|
      ensures mine[i].id in gone <==> i < cut
    {
      RankIs(rows, peer, i);
      assert mine[i] in mine;
      CleanedIff(rows, maxPending, mine[i]);
    }
    WithoutPrefix(mine, gone, cut);
  }

  lemma OneId(rows: seq<Batch>, a: Batch, b: Batch)
    requires IdsIncrease(rows) && a in rows && b in rows && a.id == b.id
    ensures a == b
  {
    var i :| 0 <= i < |rows| && rows[i] == a;
    var j :| 0 <= j < |rows| && rows[j] == b;
  }

  // ---- live channels ----

  /** Bounded channels, by subscription id. */
  type Channels = map<nat, seq<Batch>>

  /** publishLive: every channel with room gets the batch, a full one drops it. */
  function Published(channels: Channels, b: Batch): Channels {
    map id | id in channels :: if |channels[id]| < LIVE_BUFFER_SIZE then channels[id] + [b] else channels[id]
  }

  class Outbox {
    var rows: seq<Batch>
    var lastId: nat
    var sequences: map<(string, string), nat>
    var nextSubscription: nat
    var subs: map<string, Channels>

    predicate Valid()
      reads this
    {
      && IdsIncrease(rows) && KeysUnique(rows)
      && (forall b :: b in rows ==> 0 < b.id <= lastId && Stageable(b))
      && (forall p :: p in subs ==>
            forall s :: s in subs[p] ==> s <= nextSubscription && |subs[p][s]| <= LIVE_BUFFER_SIZE)
    }

    constructor ()
      ensures Valid() && rows == [] && sequences == map[] && subs == map[]
    {
      rows, lastId, sequences, nextSubscription, subs := [], 0, map[], 0, map[];
    }

    /** Sequences of one peer and table count up from one. */
    method NextSequence(peer: string, table: string) returns (sequence: nat)
      requires Valid()
      modifies this`sequences
      ensures Valid()
      ensures sequence == (if (peer, table) in old(sequences) then old(sequences)[(peer, table)] else 0) + 1
      ensures sequences == old(sequences)[(peer, table) := sequence]
    {
      sequence := if (peer, table) in sequences then sequences[(peer, table)] + 1 else 1;
      sequences := sequences[(peer, table) := sequence];
    }

    /** Inserts unless a pending batch has the same key; an inserted batch gets a new id. */
    method Insert(batch: Batch, now: int) returns (ok: bool, inserted: Option<Batch>)
      requires Valid()
      modifies this`rows, this`lastId
      ensures Valid()
      ensures ok <==> Stageable(batch)
      ensures inserted.Some? <==> ok && forall b :: b in old(rows) ==> !SameBatchKey(b, batch)
      ensures inserted.Some? ==>
                && inserted.value == batch.(id := lastId, createdAt := now) && lastId > old(lastId)
                && rows == old(rows) + [inserted.value]
      ensures inserted.None? ==> rows == old(rows)
    {
      if !Stageable(batch) {
        return false, None;
      }
      lastId := lastId + 1;
      if exists b :: b in rows && SameBatchKey(b, batch) {
        return true, None;
      }
      var stored := batch.(id := lastId, createdAt := now);
      assert forall b :: b in rows ==> !SameBatchKey(b, stored);
      KeysUniqueAppend(rows, stored);
      rows := rows + [stored];
      return true, Some(stored);
    }

    /** Persists a batch and offers it to the live channels of its peer. */
    method Enqueue(batch: Batch, now: int) returns (ok: bool)
      requires Valid()
      modifies this`rows, this`lastId, this`subs
      ensures Valid()
      ensures ok <==> Stageable(batch)
      ensures ok && (forall b :: b in old(rows) ==> !SameBatchKey(b, batch)) ==>
                var stored := batch.(id := lastId, createdAt := now);
                && rows == old(rows) + [stored]
                && subs == if batch.peer in old(subs)
                           then old(subs)[batch.peer := Published(old(subs)[batch.peer], stored)]
                           else old(subs)
      ensures !ok || (exists b :: b in old(rows) && SameBatchKey(b, batch)) ==> rows == old(rows) && subs == old(subs)
    {
      var inserted;
      ok, inserted := Insert(batch, now);
      if inserted.Some? && batch.peer in subs {
        subs := subs[batch.peer := Published(subs[batch.peer], inserted.value)];
      }
    }

    method ListPendingWindow(w: Window, afterId: nat, limit: int) returns (page: seq<Batch>)
      requires Valid()
      ensures page == Page(rows, w, afterId, if limit <= 0 then REPLAY_PAGE_SIZE else limit)
    {
      var bound := if limit <= 0 then REPLAY_PAGE_SIZE else limit;
      page := [];
      var i := 0;
      while i < |rows| && |page| < bound
        invariant 0 <= i <= |rows| && |page| <= bound
        invariant page == Listed(rows[..i], w, afterId)
      {
        assert rows[..i + 1][..i] == rows[..i];
        if rows[i].id > afterId && InWindow(rows[i], w) {
          page := page + [rows[i]];
        }
        i := i + 1;
      }
      FilledPage(rows, w, afterId, bound, i);
    }

    method Ack(peer: string, tableKey: string, lastEventId: string) returns (deleted: bool)
      requires Valid()
      modifies this`rows
      ensures Valid()
      ensures rows == Without(old(rows), AckedIds(old(rows), peer, tableKey, lastEventId))
      ensures deleted <==>
                exists b :: b in old(rows) && b.peer == peer && b.tableKey == tableKey && LastEventId(b) == lastEventId
    {
      var gone := AckedIds(rows, peer, tableKey, lastEventId);
      deleted := exists b :: b in rows && b.peer == peer && b.tableKey == tableKey && LastEventId(b) == lastEventId;
      WithoutMembers(rows, gone);
      WithoutKeysUnique(rows, gone);
      rows := Without(rows, gone);
    }

    method Cleanup(now: int, maxAge: int, maxPending: int)
      requires Valid()
      modifies this`rows
      ensures Valid()
      ensures var young := Without(old(rows), CleanedByAge(old(rows), now, maxAge));
              rows == Without(young, CleanedByCount(young, maxPending))
    {
      WithoutMembers(rows, CleanedByAge(rows, now, maxAge));
      WithoutKeysUnique(rows, CleanedByAge(rows, now, maxAge));
      rows := Without(rows, CleanedByAge(rows, now, maxAge));
      WithoutMembers(rows, CleanedByCount(rows, maxPending));
      WithoutKeysUnique(rows, CleanedByCount(rows, maxPending));
      rows := Without(rows, CleanedByCount(rows, maxPending));
    }

    method Subscribe(peer: string) returns (id: nat)
      requires Valid()
      modifies this`nextSubscription, this`subs
      ensures Valid()
      ensures id == old(nextSubscription) + 1 == nextSubscription
      ensures var mine := if peer in old(subs) then old(subs)[peer] else map[];
              subs == old(subs)[peer := mine[id := []]] && id !in mine
    {
      nextSubscription := nextSubscription + 1;
      id := nextSubscription;
      var mine := if peer in subs then subs[peer] else map[];
      subs := subs[peer := mine[id := []]];
    }

    method Unsubscribe(peer: string, id: nat)
      requires Valid()
      modifies this`subs
      ensures Valid()
      ensures forall p :: p in subs ==>
                p in old(subs) && subs[p] == if p == peer then old(subs)[p] - {id} else old(subs)[p]
      ensures forall p :: p in old(subs) && p !in subs ==> p == peer && old(subs)[p] - {id} == map[]
    {
      if peer in subs {
        var rest := subs[peer] - {id};
        subs := if rest == map[] then subs - {peer} else subs[peer := rest];
      }
    }
  }

  lemma {:induction false} ListedPrefix(rows: seq<Batch>, w: Window, afterId: nat, n: int)
    requires 0 <= n <= |rows|
    ensures Listed(rows[..n], w, afterId) <= Listed(rows, w, afterId)
    decreases |rows|
  {
    if n < |rows| {
      ListedPrefix(rows[..|rows| - 1], w, afterId, n);
      assert rows[..|rows| - 1][..n] == rows[..n];
    } else {
      assert rows[..n] == rows;
    }
  }

  lemma FilledPage(rows: seq<Batch>, w: Window, afterId: nat, limit: nat, n: int)
    requires 0 <= n <= |rows| && |Listed(rows[..n], w, afterId)| <= limit
    requires n == |rows| || |Listed(rows[..n], w, afterId)| == limit
    ensures Listed(rows[..n], w, afterId) == Page(rows, w, afterId, limit)
  {
    ListedPrefix(rows, w, afterId, n);
    if n == |rows| {
      assert rows[..n] == rows;
    }
  }
}
