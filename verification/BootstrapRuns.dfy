/**
 When bootstrap and catch-up converge: exactly when no row was last brought by an outdated chunk, hence
 in every run whose sessions follow one another.
 Sources: internal/service/replication/service.go:182-215, internal/transport/grpc/client/recv.go:43-158,
 internal/repository/postgres/snapshot.go:97-164, internal/repository/postgres/state_events.go:25-90.
 */
module BootstrapRuns {
  import opened PrimaryKeys
  import opened Rows
  import opened Commit
  import opened Transactions
  import opened ApplyService
  import opened FuzzySnapshot
  import opened Convergence
  import opened Bootstrap
  import Modes

  /** All changes reach the receiver: full sync, or upsert mode and a log without deletes. */
  predicate FullySynced(c: Config) {
    c.mode == FullSyncMode || (c.mode == UpsertMode && forall e :: e in c.src.log ==> !e.op.Delete?)
  }

  lemma {:induction false} NothingDropped(es: seq<Event>)
    requires forall e :: e in es ==> !e.op.Delete?
    ensures Modes.WithoutDeletes(es) == es
  {
    if es != [] {
      NothingDropped(es[..|es| - 1]);
      assert es == es[..|es| - 1] + [es[|es| - 1]];
    }
  }

  lemma SameGot(c: Config, st: Store, r: Receipt)
    requires FullySynced(c)
    ensures Got(c.src, c.limit, c.mode, st, r) == Got(c.src, c.limit, FullSyncMode, st, r)
  {
    if c.mode == UpsertMode && r.GotBatch? {
      var es := Slice(c.src, r.lo, r.hi);
      NothingDropped(es);
      if WellFormedBatch(es) {
        Modes.UpsertIsFullSyncWithoutDeletes(c.src.specs, r.polling, st, es);
      }
    }
  }

  /** In upsert mode such a log has the effect it has in full sync. */
  lemma {:induction false} SameGotAll(c: Config, st: Store, receipts: seq<Receipt>)
    requires FullySynced(c)
    ensures GotAll(c.src, c.limit, c.mode, st, receipts) == GotAll(c.src, c.limit, FullSyncMode, st, receipts)
  {
    if receipts != [] {
      var init := receipts[..|receipts| - 1];
      SameGotAll(c, st, init);
      SameGot(c, GotAll(c.src, c.limit, c.mode, st, init), receipts[|receipts| - 1]);
    }
  }

  lemma AnsweredWhenSkipped(c: Config, st: Store, run: seq<Action>)
    requires c.limit > 0 && NoEventIds(c, st) && IsRun(c, Initial(st), run)
    requires var s := After(c, Initial(st), run);
             forall name :: name in c.src.specs ==> name in c.tables && Skips(c, s, name)
    ensures AllAnswered(c.src, c.limit, After(c, Initial(st), run).receipts)
  {
    var s := After(c, Initial(st), run);
    forall name, k: Key | name in c.src.specs && k != []
      ensures AnsweredIn(c.src, c.limit, s.receipts, name, k)
    {
      SkippingIsSafe(c, st, run, name);
    }
  }

  /**
   After every run that leaves all tables skippable, the receiver has the source's owned rows at the
   last point received if and only if no row was last brought out of date.
   */
  lemma BootstrapConvergesIff(c: Config, st: Store, from: nat, to: nat, run: seq<Action>)
    requires c.limit > 0 && FullySynced(c) && NoEventIds(c, st) && Ready(c.src, st, from)
    requires IsRun(c, Initial(st), run)
    requires var s := After(c, Initial(st), run);
             && AllOrderly(c.src, from, to, c.limit, s.receipts) && from <= to <= Reached(from, s.receipts)
             && forall name :: name in c.src.specs ==> name in c.tables && Skips(c, s, name)
    ensures var s := After(c, Initial(st), run);
            var n := Reached(from, s.receipts);
            && n <= |c.src.log|
            && (AllConverged(c.src, n, st.tables, s.store.tables)
                <==> NothingStale(c.src, st, c.limit, from, n, s.receipts))
  {
    var s := After(c, Initial(st), run);
    AnsweredWhenSkipped(c, st, run);
    StoreFollowsReceipts(c, st, Initial(st), run);
    SameGotAll(c, st, s.receipts);
    ConvergesIff(c.src, st, from, to, c.limit, s.receipts);
  }

  // ---- sessions one after the other ----

  /** A session opens only when no other is there. */
  predicate Serial(c: Config, s: State, run: seq<Action>)
    requires IsRun(c, s, run)
    decreases |run|
  {
    run == [] || ((run[0].Open? ==> s.sessions == map[]) && Serial(c, Step(c, s, run[0]), run[1..]))
  }

  predicate FreshIn(c: Config, from: nat, s: State, table: string) {
    Fresh(c.src, from, Reached(from, s.receipts), table)
  }

  /** The tables for which chunks are still to come have had no change yet. */
  predicate Expects(c: Config, from: nat, s: State, x: Session) {
    && (!x.connected || x.received.index < |x.requests| ==>
          forall r :: r in x.requests ==> FreshIn(c, from, s, r.table))
    && (!x.connected && x.cursorRead ==> x.asked < |c.tables| && FreshIn(c, from, s, c.tables[x.asked]))
  }

  predicate SerialInv(c: Config, from: nat, s: State) {
    && (forall a, b :: a in s.sessions && b in s.sessions ==> a == b)
    && (forall sid :: sid in s.sessions ==> Expects(c, from, s, s.sessions[sid]))
    && NoLateChunk(c.src, from, s.receipts)
  }

  /** A table without an event id in its cursor has had no change. */
  lemma NoIdIsFresh(c: Config, start: Store, from: nat, s: State, table: string)
    requires Ready(c.src, start, from) && CaughtUp(c.src, start, from, Reached(from, s.receipts), s.store)
    requires !HasEventId(c, s.store, table)
    ensures FreshIn(c, from, s, table)
  {
    var done, f := Reached(from, s.receipts), Feed(c.src.peer, table);
    var es := c.src.log[from..done];
    assert forall e :: e in es ==> e in c.src.log;
    FeedHasId(start.cursors, es, f);
    EventsOfMembers(es, f);
    forall i | from <= i < done
      ensures c.src.log[i].table != table
    {
      assert ValidChange(c.src, i) && es[i - from] == c.src.log[i];
      assert c.src.log[i] in es;
    }
  }

  lemma FeedHasId(cursors: Cursors, es: seq<Event>, f: Feed)
    requires WellFormedBatch(es)
    ensures EventsOf(es, f) != [] ==> CursorAfter(cursors, es, f).lastEventId != ""
  {
    EventsOfMembers(es, f);
    var sub := EventsOf(es, f);
    if sub != [] {
      assert sub[|sub| - 1] in sub;
    }
  }

  lemma NoLateGrows(src: Source, from: nat, receipts: seq<Receipt>, more: Receipt)
    requires NoLateChunk(src, from, receipts)
    requires more.GotChunk? ==> Fresh(src, from, Reached(from, receipts), more.read.name)
    ensures NoLateChunk(src, from, receipts + [more])
  {
    var all := receipts + [more];
    forall j | 0 <= j < |all| && all[j].GotChunk?
      ensures Fresh(src, from, Reached(from, all[..j]), all[j].read.name)
    {
      if j < |receipts| {
        assert all[..j] == receipts[..j];
      } else {
        assert all[..j] == receipts;
      }
    }
  }

  lemma DoneAfterChunk(from: nat, receipts: seq<Receipt>, read: Read)
    ensures Reached(from, receipts + [GotChunk(read)]) == Reached(from, receipts)
  {
    assert (receipts + [GotChunk(read)])[..|receipts|] == receipts;
  }

  lemma SerialReceive(c: Config, from: nat, s: State, sid: nat)
    requires Inv(c, s) && SerialInv(c, from, s) && Enabled(c, s, Receive(sid))
    ensures SerialInv(c, from, Step(c, s, Receive(sid)))
  {
    var x, t := s.sessions[sid], Step(c, s, Receive(sid));
    assert SessionInv(c, s.receipts, x) && Expects(c, from, s, x);
    match x.stream[0] {
      case ChunkMessage(read) =>
        if Got(c.src, c.limit, c.mode, s.store, GotChunk(read)).Success? {
          assert x.requests[x.received.index] in x.requests;
          NoLateGrows(c.src, from, s.receipts, GotChunk(read));
          DoneAfterChunk(from, s.receipts, read);
          assert Expects(c, from, t, t.sessions[sid]);
        }
      case EventsMessage(lo, hi, polling) =>
        if Got(c.src, c.limit, c.mode, s.store, GotBatch(lo, hi, polling)).Success? {
          NoLateGrows(c.src, from, s.receipts, GotBatch(lo, hi, polling));
          assert Expects(c, from, t, t.sessions[sid]);
        }
      case CompleteMessage(table) =>
        assert Expects(c, from, t, t.sessions[sid]);
    }
  }

  lemma SerialOther(c: Config, start: Store, from: nat, s: State, a: Action)
    requires Inv(c, s) && SerialInv(c, from, s) && Enabled(c, s, a) && !a.Receive?
    requires Ready(c.src, start, from) && CaughtUp(c.src, start, from, Reached(from, s.receipts), s.store)
    requires a.Open? ==> s.sessions == map[]
    ensures SerialInv(c, from, Step(c, s, a))
  {
    var t := Step(c, s, a);
    assert t.receipts == s.receipts;
    forall sid | sid in t.sessions
      ensures Expects(c, from, t, t.sessions[sid])
    {
      if sid in s.sessions {
        assert Expects(c, from, s, s.sessions[sid]);
        if a == ReadCursor(sid) && !HasEventId(c, s.store, c.tables[s.sessions[sid].asked]) {
          NoIdIsFresh(c, start, from, s, c.tables[s.sessions[sid].asked]);
        }
      }
    }
  }

  lemma OrderlyPrefix(src: Source, from: nat, to: nat, limit: nat, receipts: seq<Receipt>, all: seq<Receipt>)
    requires receipts <= all && AllOrderly(src, from, to, limit, all)
    ensures AllOrderly(src, from, to, limit, receipts)
  {
    forall i | 0 <= i < |receipts|
      ensures Orderly(src, from, to, limit, Reached(from, receipts[..i]), receipts[i])
    {
      assert receipts[..i] == all[..i] && receipts[i] == all[i];
    }
  }

  lemma {:induction false} SerialKeeps(c: Config, st: Store, from: nat, to: nat, s: State, run: seq<Action>)
    requires c.limit > 0 && FullySynced(c) && Ready(c.src, st, from)
    requires Inv(c, s) && SerialInv(c, from, s) && s.store == GotAll(c.src, c.limit, c.mode, st, s.receipts)
    requires IsRun(c, s, run) && Serial(c, s, run)
    requires AllOrderly(c.src, from, to, c.limit, After(c, s, run).receipts)
    ensures SerialInv(c, from, After(c, s, run))
    decreases |run|
  {
    if run != [] {
      var t := Step(c, s, run[0]);
      StoreFollowsReceipts(c, st, s, run);
      OrderlyPrefix(c.src, from, to, c.limit, s.receipts, After(c, s, run).receipts);
      SameGotAll(c, st, s.receipts);
      ReceiptsLand(c.src, st, from, to, c.limit, s.receipts);
      StepKeeps(c, s, run[0]);
      StoreStep(c, st, s, run[0]);
      if run[0].Receive? {
        SerialReceive(c, from, s, run[0].sid);
      } else {
        SerialOther(c, st, from, s, run[0]);
      }
      SerialKeeps(c, st, from, to, t, run[1..]);
    }
  }

  /**
   Sessions that follow one another, with crashes anywhere: no chunk of a table comes after a change of
   it, and once all tables are skippable the receiver has the source's owned rows.
   */
  lemma SerialBootstrapConverges(c: Config, st: Store, from: nat, to: nat, run: seq<Action>)
    requires c.limit > 0 && FullySynced(c) && NoEventIds(c, st) && Ready(c.src, st, from)
    requires IsRun(c, Initial(st), run) && Serial(c, Initial(st), run)
    requires var s := After(c, Initial(st), run);
             && AllOrderly(c.src, from, to, c.limit, s.receipts) && from <= to <= Reached(from, s.receipts)
             && forall name :: name in c.src.specs ==> name in c.tables && Skips(c, s, name)
    ensures var s := After(c, Initial(st), run);
            && NoLateChunk(c.src, from, s.receipts)
            && Reached(from, s.receipts) <= |c.src.log|
            && AllConverged(c.src, Reached(from, s.receipts), st.tables, s.store.tables)
  {
    var s := After(c, Initial(st), run);
    InitialInv(c, st);
    SerialKeeps(c, st, from, to, Initial(st), run);
    AnsweredWhenSkipped(c, st, run);
    StoreFollowsReceipts(c, st, Initial(st), run);
    SameGotAll(c, st, s.receipts);
    WithoutLateChunksConverges(c.src, st, from, to, c.limit, s.receipts);
  }
}
