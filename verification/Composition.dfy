/**
 How the parts fit: what one part guarantees is what another one relies on.
 */
module Composition {
  import opened PrimaryKeys
  import opened Rows
  import opened BatchApply
  import opened OwnerGating
  import opened Outboxes
  import opened Capture
  import opened UpdateDiff
  import Producers
  import Feeds = FeedProtocol
  import Convergence
  import Modes
  import StoredOrder

  // ---- captured changes are what the receiver relies on ----

  /** The table of a relation, as the receiver sees it, with its own column defaults. */
  function SpecOf(r: Relation, defaults: Row): TableSpec {
    TableSpec((set c | c in r.columns && c !in r.primaryKey), Some(r.regionField), defaults)
  }

  predicate MessageWhole(r: Relation, m: Logical) {
    (m.InsertMessage? || m.UpdateMessage?) ==> Whole(r, m.tuple)
  }

  predicate IsChangeOf(m: Logical, known: Known) {
    (m.InsertMessage? || m.UpdateMessage? || m.DeleteMessage?) && m.id in known.relations
  }

  /** Every captured change, whole row or diff, leaves the owner to the sender's own region. */
  lemma CapturedChangesCarryRegion(cfg: Config, keyOf: KeyOf, known: Known, m: Logical, lsn: nat, defaults: Row)
    requires IsChangeOf(m, known)
    ensures var c := Captured(cfg, keyOf, known, m, lsn);
            c.Success? && c.value.Some? ==>
              CarriesRegion(SpecOf(known.relations[m.id], defaults), cfg.localRegion,
                            Producers.ToEvent(cfg.localRegion, c.value.value))
  {
  }

  /** Without update diffs, a captured change is a whole row of the local region. */
  lemma CapturedChangesAreFullImages(cfg: Config, keyOf: KeyOf, known: Known, m: Logical, lsn: nat, defaults: Row)
    requires IsChangeOf(m, known) && !cfg.updateDiff && MessageWhole(known.relations[m.id], m)
    ensures var c := Captured(cfg, keyOf, known, m, lsn);
            c.Success? && c.value.Some? ==>
              FullImage(SpecOf(known.relations[m.id], defaults), cfg.localRegion,
                        Producers.ToEvent(cfg.localRegion, c.value.value))
  {
    var c := Captured(cfg, keyOf, known, m, lsn);
    if c.Success? && c.value.Some? && !m.DeleteMessage? {
      var r, fields := known.relations[m.id], c.value.value.fields;
      assert fields == TuplePayload(r, m.tuple);
      assert fields.Keys == SpecOf(r, defaults).columns;
    }
  }

  // ---- the feed's channels are the outbox's ----

  function OpenChannels(sessions: map<nat, Feeds.Session>): Channels {
    map sid | sid in sessions && Feeds.HasChannel(sessions[sid]) :: sessions[sid].channel
  }

  /** The outbox offers a batch to a session's channel as the feed does: it comes last, or a full channel drops it. */
  lemma PublishedAsOffered(sessions: map<nat, Feeds.Session>, b: Batch, sid: nat)
    requires sid in sessions && Feeds.HasChannel(sessions[sid])
    ensures var x, channels := sessions[sid], Published(OpenChannels(sessions), b);
            && sid in channels && channels[sid] == Feeds.Offered(x, b).channel
            && channels[sid] == if Feeds.Drops(x) then x.channel else x.channel + [b]
  {
  }

  // ---- produced batches are acknowledged under the key they are stored under ----

  /** The key a consumer acknowledges is the one the producer stored, for transactions and polling batches. */
  lemma ProducedBatchesAreWellMade(
    c: Feeds.Config, added: seq<Batch>, txId: string, events: seq<Event>, max: nat, floor: nat, ceiling: nat, now: int,
    b: Batch)
    requires max > 0 && b in added && (txId != "" || Convergence.OneTable(events))
    requires Producers.AddedFor(added, Producers.Scope(c.peer, Producers.TableKey(txId, events)), txId,
                                Producers.Chunks(events, max), floor, ceiling, now)
    ensures Feeds.WellMade(c, b)
  {
    assert b.events in Producers.Chunks(events, max);
    StoredOrder.ChunksWithin(events, max, b.events);
    assert b.events[0] in events;
  }

  lemma AddedRise(
    added: seq<Batch>, s: Producers.Scope, pending: set<seq<Event>>, chunks: seq<seq<Event>>, handled: seq<seq<Event>>)
    requires StoredOrder.QueueRises(chunks) && handled <= chunks
    requires Producers.Queue(added, s) == Producers.Stored(pending, handled)
    requires forall b :: b in added ==> Producers.InScope(b, s)
    ensures forall i, j :: 0 <= i < j < |added| ==> StoredOrder.ListsRise(added[i].events, added[j].events)
  {
    assert forall i :: 0 <= i < |handled| ==> handled[i] == chunks[i];
    StoredOrder.StoredRises(pending, handled);
    Producers.QueueOfScope(added, s);
  }

  /** What the feed relies on of the log holds of all that one attempt, the first or a retry, adds for a peer. */
  lemma ProducedBatchesAreOrdered(
    c: Feeds.Config, before: seq<Batch>, after: seq<Batch>, added: seq<Batch>, txId: string, events: seq<Event>,
    max: nat, handled: seq<seq<Event>>, floor: nat, ceiling: nat, now: int)
    requires max > 0 && Feeds.Rising(events) && Feeds.Beyond(map[], events)
    requires txId != "" || Convergence.OneTable(events)
    requires IdsIncrease(after) && KeysUnique(after) && forall b :: b in after ==> b.id > 0
    requires Producers.Enqueued(before, after, added, Producers.Scope(c.peer, Producers.TableKey(txId, events)), txId,
                                Producers.Chunks(events, max), handled, floor, ceiling, now)
    ensures Feeds.LogOrdered(c, added)
  {
    var s, chunks := Producers.Scope(c.peer, Producers.TableKey(txId, events)), Producers.Chunks(events, max);
    StoredOrder.ChunksRise(events, max);
    AddedRise(added, s, Producers.Pending(before, s), chunks, handled);
    assert forall i :: 0 <= i < |added| ==> after[|before| + i] == added[i];
    forall i | 0 <= i < |added|
      ensures Feeds.WellMade(c, added[i]) && added[i].id > 0
      ensures Feeds.Rising(added[i].events) && Feeds.Beyond(map[], added[i].events)
    {
      ProducedBatchesAreWellMade(c, added, txId, events, max, floor, ceiling, now, added[i]);
      assert added[i] in added && added[i] in after;
      StoredOrder.ChunksWithin(events, max, added[i].events);
    }
    forall i, j | 0 <= i < j < |added|
      ensures added[i].id < added[j].id && added[i].createdAt <= added[j].createdAt
      ensures !SameBatchKey(added[i], added[j]) && Feeds.EventsBefore(added[i], added[j])
    {
      assert added[i] in added && added[j] in added;
      assert StoredOrder.ListsRise(added[i].events, added[j].events);
    }
  }

  /** A producer broadcasts exactly the changes whose operation its mode lets through. */
  lemma BroadcastByOperation(mode: ApplyMode, region: string, changes: seq<Producers.Change>, e: Event)
    ensures e in Producers.Broadcast(mode, region, changes)
       <==> exists i :: 0 <= i < |changes| && changes[i].op in Modes.OperationsOf(mode)
                     && e == Producers.ToEvent(region, changes[i])
  {
    var all := Producers.Events(region, changes);
    Modes.AllowedMembers(mode, all);
    if e in all && e.op in Modes.OperationsOf(mode) {
      var i :| 0 <= i < |all| && all[i] == e;
      assert e == Producers.ToEvent(region, changes[i]);
    }
    if i :| 0 <= i < |changes| && changes[i].op in Modes.OperationsOf(mode)
            && e == Producers.ToEvent(region, changes[i]) {
      assert all[i] == e;
    }
  }
}
