/**
 The feed served to one consumer: paged replay of pending batches up to a watermark, then live
 batches after it (Consume, replayPendingBatches and forwardLiveBatches in
 internal/transport/grpc/server/handlers.go).
 */
module Served {
  import opened PrimaryKeys
  import opened Outboxes

  lemma HeadIsMember(bs: seq<Batch>)
    ensures bs != [] ==> exists b :: b in bs
  {
    if bs != [] {
      assert bs[0] in bs;
    }
  }

  lemma LastIsGreatest(a: seq<Batch>, x: Batch)
    requires IdsIncrease(a) && x in a
    ensures x.id <= a[|a| - 1].id
    ensures x.id == a[|a| - 1].id ==> x == a[|a| - 1]
    ensures x in a[..|a| - 1] <==> x != a[|a| - 1]
  {
    var i :| 0 <= i < |a| && a[i] == x;
    assert i < |a| - 1 ==> a[..|a| - 1][i] == x;
  }

  lemma InitMembers(a: seq<Batch>)
    requires IdsIncrease(a) && a != []
    ensures forall x :: x in a[..|a| - 1] <==> x in a && x != a[|a| - 1]
  {
    assert a == a[..|a| - 1] + [a[|a| - 1]];
    forall x | x in a
      ensures x in a[..|a| - 1] <==> x != a[|a| - 1]
    {
      LastIsGreatest(a, x);
    }
  }

  /** Increasing sequences with the same members are equal. */
  lemma SameLast(a: seq<Batch>, b: seq<Batch>)
    requires IdsIncrease(a) && IdsIncrease(b) && (forall x :: x in a <==> x in b) && a != []
    ensures b != [] && a[|a| - 1] == b[|b| - 1]
  {
    var la := a[|a| - 1];
    assert la in a;
    LastIsGreatest(b, la);
    var lb := b[|b| - 1];
    assert lb in b;
    LastIsGreatest(a, lb);
  }

  lemma {:induction false} SameIncreasing(a: seq<Batch>, b: seq<Batch>)
    requires IdsIncrease(a) && IdsIncrease(b) && forall x :: x in a <==> x in b
    ensures a == b
    decreases |a|
  {
    HeadIsMember(b);
    if a != [] {
      SameLast(a, b);
      InitMembers(a);
      InitMembers(b);
      var la, ia, ib := a[|a| - 1], a[..|a| - 1], b[..|b| - 1];
      forall x
        ensures x in ia <==> x in ib
      {
        assert x in a <==> x in b;
      }
      SameIncreasing(ia, ib);
      assert a == ia + [la] && b == ib + [la];
    }
  }

  /** The tail of an increasing sequence is what lies beyond an element of it. */
  lemma IncreasingSuffix(all: seq<Batch>, m: nat, rest: seq<Batch>)
    requires IdsIncrease(all) && IdsIncrease(rest) && 0 < m <= |all|
    requires forall b :: b in rest <==> b in all && b.id > all[m - 1].id
    ensures all == all[..m] + rest
  {
    var tail := all[m..];
    forall b
      ensures b in tail <==> b in rest
    {
      if b in tail {
        var i :| 0 <= i < |tail| && tail[i] == b;
        assert all[m + i] == b;
      }
      if b in rest {
        var i :| 0 <= i < |all| && all[i] == b;
        assert i >= m && tail[i - m] == b;
      }
    }
    SameIncreasing(tail, rest);
  }

  lemma ListedBeyond(rows: seq<Batch>, w: Window, afterId: nat, id: nat)
    requires IdsIncrease(rows) && afterId <= id
    ensures IdsIncrease(Listed(rows, w, afterId)) && IdsIncrease(Listed(rows, w, id))
    ensures forall b :: b in Listed(rows, w, id) <==> b in Listed(rows, w, afterId) && b.id > id
    ensures forall b :: b in Listed(rows, w, afterId) ==> b.id > afterId && InWindow(b, w)
  {
    ListedMembers(rows, w, afterId);
    ListedMembers(rows, w, id);
  }

  /** A non-empty page and what lies beyond its last id make up the rest of the window. */
  lemma PageSplits(rows: seq<Batch>, w: Window, afterId: nat, limit: nat)
    requires IdsIncrease(rows) && limit > 0
    ensures var page := Page(rows, w, afterId, limit);
            && (page == [] <==> Listed(rows, w, afterId) == [])
            && (page != [] ==> Listed(rows, w, afterId) == page + Listed(rows, w, page[|page| - 1].id))
  {
    var all, page := Listed(rows, w, afterId), Page(rows, w, afterId, limit);
    if page != [] {
      var m := |page|;
      ListedBeyond(rows, w, afterId, afterId);
      assert all[m - 1] in all;
      ListedBeyond(rows, w, afterId, all[m - 1].id);
      IncreasingSuffix(all, m, Listed(rows, w, all[m - 1].id));
    }
  }

  /**
   The rest of the system between two queries of a session: it sees the outbox and what the session
   has sent so far, and answers with the outbox at the next query.
   */
  type Environment = (nat, seq<Batch>, seq<Batch>) -> seq<Batch>

  /** Acks delete sent batches only, and what is enqueued meanwhile is younger than the watermark. */
  ghost predicate Fair(env: Environment, watermark: int) {
    forall n, rows, sent {:trigger env(n, rows, sent)} :: IdsIncrease(rows) ==>
      FairStep(rows, env(n, rows, sent), sent, watermark)
  }

  predicate FairStep(rows: seq<Batch>, next: seq<Batch>, sent: seq<Batch>, watermark: int) {
    && IdsIncrease(next)
    && (forall b :: b in rows ==> b in next || b in sent)
    && (forall b :: b in next ==> b in rows || b.createdAt > watermark)
  }

  predicate Unsent(bs: seq<Batch>, sent: seq<Batch>) {
    forall b :: b in bs ==> b !in sent
  }

  /** A step of the environment leaves the unsent part of a window alone. */
  lemma WindowUndisturbed(rows: seq<Batch>, next: seq<Batch>, sent: seq<Batch>, watermark: int, w: Window, afterId: nat)
    requires IdsIncrease(rows) && FairStep(rows, next, sent, watermark)
    requires w.upper.Some? && w.upper.value <= watermark && Unsent(Listed(rows, w, afterId), sent)
    ensures Listed(next, w, afterId) == Listed(rows, w, afterId)
  {
    ListedMembers(rows, w, afterId);
    ListedMembers(next, w, afterId);
    SameIncreasing(Listed(next, w, afterId), Listed(rows, w, afterId));
  }

  /** A replay under way: sent and still listed batches make up the goal; the other window is untouched. */
  ghost predicate Replaying(
    rows: seq<Batch>, w: Window, afterId: nat, sent: seq<Batch>, goal: seq<Batch>, other: Window, otherGoal: seq<Batch>)
  {
    && IdsIncrease(rows)
    && sent + Listed(rows, w, afterId) == goal && Unsent(Listed(rows, w, afterId), sent)
    && Listed(rows, other, 0) == otherGoal && Unsent(otherGoal, sent)
  }

  predicate Apart(w: Window, other: Window, watermark: int) {
    && w.upper.Some? && w.upper.value <= watermark
    && other.upper.Some? && other.upper.value <= watermark
    && other.lower.Some? && w.upper.value <= other.lower.value
  }

  /** Sending the front of an increasing list leaves its tail unsent. */
  lemma SentFront(listed: seq<Batch>, page: seq<Batch>, rest: seq<Batch>, sent: seq<Batch>)
    requires IdsIncrease(listed) && listed == page + rest && Unsent(listed, sent)
    ensures Unsent(rest, sent + page)
    ensures (sent + page) + rest == sent + listed
  {
    forall b | b in rest
      ensures b !in page && b !in sent
    {
      var j :| 0 <= j < |rest| && rest[j] == b;
      assert listed[|page| + j] == b;
      assert forall i :: 0 <= i < |page| ==> listed[i] == page[i];
    }
  }

  lemma OtherUnsent(rows: seq<Batch>, w: Window, other: Window, afterId: nat, page: seq<Batch>, sent: seq<Batch>)
    requires forall b :: b in page ==> InWindow(b, w)
    requires w.upper.Some? && other.lower.Some? && w.upper.value <= other.lower.value
    requires Unsent(Listed(rows, other, 0), sent)
    ensures Unsent(Listed(rows, other, 0), sent + page)
  {
    ListedMembers(rows, other, 0);
  }

  lemma PageSent(
    rows: seq<Batch>, w: Window, afterId: nat, sent: seq<Batch>, goal: seq<Batch>, other: Window, otherGoal: seq<Batch>,
    watermark: int, next: seq<Batch>)
    requires Replaying(rows, w, afterId, sent, goal, other, otherGoal) && Apart(w, other, watermark)
    requires Page(rows, w, afterId, REPLAY_PAGE_SIZE) != []
    requires FairStep(rows, next, sent + Page(rows, w, afterId, REPLAY_PAGE_SIZE), watermark)
    ensures var page := Page(rows, w, afterId, REPLAY_PAGE_SIZE);
            && Replaying(next, w, page[|page| - 1].id, sent + page, goal, other, otherGoal)
            && |Listed(next, w, page[|page| - 1].id)| < |Listed(rows, w, afterId)|
  {
    var page := Page(rows, w, afterId, REPLAY_PAGE_SIZE);
    var last := page[|page| - 1].id;
    PageSplits(rows, w, afterId, REPLAY_PAGE_SIZE);
    ListedBeyond(rows, w, afterId, afterId);
    SentFront(Listed(rows, w, afterId), page, Listed(rows, w, last), sent);
    OtherUnsent(rows, w, other, afterId, page, sent);
    WindowUndisturbed(rows, next, sent + page, watermark, w, last);
    WindowUndisturbed(rows, next, sent + page, watermark, other, 0);
  }

  /**
   Paged replay sends exactly the window as it was at the first query, in id order, whatever the
   environment does between the pages; a later window below the watermark is left as it was.
   */
  method ReplayPendingBatches(
    env: Environment, ghost watermark: int, w: Window, rows0: seq<Batch>, n0: nat, sent0: seq<Batch>,
    ghost other: Window)
    returns (rows: seq<Batch>, n: nat, sent: seq<Batch>)
    requires Fair(env, watermark) && IdsIncrease(rows0) && Apart(w, other, watermark)
    requires Unsent(Listed(rows0, w, 0), sent0) && Unsent(Listed(rows0, other, 0), sent0)
    ensures sent == sent0 + Listed(rows0, w, 0)
    ensures IdsIncrease(rows) && Listed(rows, other, 0) == Listed(rows0, other, 0)
    ensures Unsent(Listed(rows, other, 0), sent)
  {
    rows, n, sent := rows0, n0, sent0;
    var afterID := 0;
    ghost var goal, otherGoal := sent0 + Listed(rows0, w, 0), Listed(rows0, other, 0);
    while true
      invariant Replaying(rows, w, afterID, sent, goal, other, otherGoal)
      decreases |Listed(rows, w, afterID)|
    {
      var pending := Page(rows, w, afterID, REPLAY_PAGE_SIZE);
      if |pending| == 0 {
        PageSplits(rows, w, afterID, REPLAY_PAGE_SIZE);
        assert sent + [] == sent;
        return;
      }
      var next := env(n, rows, sent + pending);
      PageSent(rows, w, afterID, sent, goal, other, otherGoal, watermark, next);
      sent, afterID := SendPage(pending, sent);
      rows, n := next, n + 1;
    }
  }

  /** Pushes one page and remembers the id of its last batch. */
  method SendPage(pending: seq<Batch>, sent0: seq<Batch>) returns (sent: seq<Batch>, afterID: nat)
    requires pending != []
    ensures sent == sent0 + pending && afterID == pending[|pending| - 1].id
  {
    sent, afterID := sent0, 0;
    for i := 0 to |pending|
      invariant sent == sent0 + pending[..i]
      invariant i > 0 ==> afterID == pending[i - 1].id
    {
      sent := sent + [pending[i]];
      afterID := pending[i].id;
    }
  }

  // ---- live forwarding ----

  /** The batches younger than a watermark. */
  function YoungerThan(bs: seq<Batch>, watermark: int): seq<Batch> {
    if bs == [] then []
    else YoungerThan(bs[..|bs| - 1], watermark) + (if bs[|bs| - 1].createdAt > watermark then [bs[|bs| - 1]] else [])
  }

  method ForwardLiveBatches(live: seq<Batch>, watermark: int, sent0: seq<Batch>) returns (sent: seq<Batch>)
    ensures sent == sent0 + YoungerThan(live, watermark)
  {
    sent := sent0;
    for i := 0 to |live|
      invariant sent == sent0 + YoungerThan(live[..i], watermark)
    {
      assert live[..i + 1][..i] == live[..i];
      if live[i].createdAt <= watermark {
        continue;
      }
      sent := sent + [live[i]];
    }
    assert live[..|live|] == live;
  }

  // ---- a whole session ----

  /** All batches ever enqueued for a peer: ids increase and creation times do not decrease. */
  predicate Chronicle(log: seq<Batch>, peer: string) {
    && IdsIncrease(log)
    && (forall b :: b in log ==> b.peer == peer && b.id > 0)
    && (forall i, j :: 0 <= i < j < |log| ==> log[i].createdAt <= log[j].createdAt)
  }

  /** Two adjacent windows make one. */
  lemma WindowsJoin(rows: seq<Batch>, log: seq<Batch>, peer: string, middle: int, upper: int)
    requires IdsIncrease(rows) && Chronicle(log, peer) && middle <= upper
    requires forall b :: b in rows && b.peer == peer ==> b in log
    ensures Listed(rows, Window(peer, None, Some(middle)), 0) + Listed(rows, Window(peer, Some(middle), Some(upper)), 0)
         == Listed(rows, Window(peer, None, Some(upper)), 0)
  {
    var a := Listed(rows, Window(peer, None, Some(middle)), 0);
    var b := Listed(rows, Window(peer, Some(middle), Some(upper)), 0);
    var c := Listed(rows, Window(peer, None, Some(upper)), 0);
    ListedMembers(rows, Window(peer, None, Some(middle)), 0);
    ListedMembers(rows, Window(peer, Some(middle), Some(upper)), 0);
    ListedMembers(rows, Window(peer, None, Some(upper)), 0);
    JoinIncreases(a, b, log, peer, middle);
    SameIncreasing(a + b, c);
  }

  lemma JoinIncreases(a: seq<Batch>, b: seq<Batch>, log: seq<Batch>, peer: string, middle: int)
    requires IdsIncrease(a) && IdsIncrease(b) && Chronicle(log, peer)
    requires forall x :: x in a ==> x in log && x.createdAt <= middle
    requires forall x :: x in b ==> x in log && x.createdAt > middle
    ensures IdsIncrease(a + b)
  {
    var all := a + b;
    forall i, j | 0 <= i < j < |all|
      ensures all[i].id < all[j].id
    {
      if i < |a| <= j {
        assert all[i] in a && all[j] in b;
        var m :| 0 <= m < |log| && log[m] == all[i];
        var n :| 0 <= n < |log| && log[n] == all[j];
      }
    }
  }

  lemma {:induction false} YoungerMembers(bs: seq<Batch>, watermark: int)
    ensures forall b :: b in YoungerThan(bs, watermark) <==> b in bs && b.createdAt > watermark
    ensures IdsIncrease(bs) ==> IdsIncrease(YoungerThan(bs, watermark))
  {
    if bs != [] {
      YoungerMembers(bs[..|bs| - 1], watermark);
      assert bs == bs[..|bs| - 1] + [bs[|bs| - 1]];
    }
  }

  /** The two replay windows of a session that served snapshots. */
  method ReplayTwoWindows(
    env: Environment, peer: string, snapshotWatermark: int, liveWatermark: int, rows0: seq<Batch>)
    returns (sent: seq<Batch>)
    requires Fair(env, liveWatermark) && IdsIncrease(rows0) && snapshotWatermark <= liveWatermark
    ensures sent == Listed(rows0, Window(peer, None, Some(snapshotWatermark)), 0)
                  + Listed(rows0, Window(peer, Some(snapshotWatermark), Some(liveWatermark)), 0)
  {
    var early := Window(peer, None, Some(snapshotWatermark));
    var late := Window(peer, Some(snapshotWatermark), Some(liveWatermark));
    ghost var none := Window(peer, Some(liveWatermark), Some(liveWatermark));
    ghost var first, second := Listed(rows0, early, 0), Listed(rows0, late, 0);
    var rows, n, sentFirst := ReplayPendingBatches(env, liveWatermark, early, rows0, 0, [], late);
    assert sentFirst == first && Listed(rows, late, 0) == second;
    NothingListed(rows, none);
    assert Unsent(Listed(rows, none, 0), sentFirst);
    var rowsAfter, nAfter;
    rowsAfter, nAfter, sent := ReplayPendingBatches(env, liveWatermark, late, rows, n, sentFirst, none);
    assert sent == first + second;
  }

  method ReplaySession(
    env: Environment, peer: string, snapshotWatermark: Option<int>, liveWatermark: int, rows0: seq<Batch>,
    ghost log: seq<Batch>)
    returns (sent: seq<Batch>)
    requires Fair(env, liveWatermark) && IdsIncrease(rows0) && Chronicle(log, peer)
    requires snapshotWatermark.Some? ==> snapshotWatermark.value <= liveWatermark
    requires forall b :: b in rows0 && b.peer == peer ==> b in log
    ensures sent == Listed(rows0, Window(peer, None, Some(liveWatermark)), 0)
  {
    if snapshotWatermark.Some? {
      sent := ReplayTwoWindows(env, peer, snapshotWatermark.value, liveWatermark, rows0);
      WindowsJoin(rows0, log, peer, snapshotWatermark.value, liveWatermark);
    } else {
      ghost var none := Window(peer, Some(liveWatermark), Some(liveWatermark));
      NothingListed(rows0, none);
      var rows, n;
      rows, n, sent := ReplayPendingBatches(
        env, liveWatermark, Window(peer, None, Some(liveWatermark)), rows0, 0, [], none);
    }
  }

  lemma NothingListed(rows: seq<Batch>, w: Window)
    requires w.lower.Some? && w.upper.Some? && w.upper.value <= w.lower.value
    ensures Listed(rows, w, 0) == []
  {
    ListedMembers(rows, w, 0);
    HeadIsMember(Listed(rows, w, 0));
  }

  /**
   One session after the live subscription and the live watermark: nothing having been dropped, it
   sends every batch that is pending then, or enqueued later, exactly once and in id order.
   */
  method Consume(
    env: Environment, peer: string, snapshotWatermark: Option<int>, liveWatermark: int, rows0: seq<Batch>,
    live: seq<Batch>, ghost log: seq<Batch>, ghost subscribedAt: nat)
    returns (sent: seq<Batch>)
    requires Fair(env, liveWatermark) && IdsIncrease(rows0) && Chronicle(log, peer)
    requires snapshotWatermark.Some? ==> snapshotWatermark.value <= liveWatermark
    requires forall b :: b in rows0 && b.peer == peer ==> b in log
    requires subscribedAt <= |log| && live == log[subscribedAt..]
    requires forall i :: 0 <= i < subscribedAt ==> log[i].createdAt <= liveWatermark
    ensures IdsIncrease(sent)
    ensures forall b :: b in sent <==> b in log && (b.createdAt > liveWatermark || b in rows0)
  {
    var replayed := ReplaySession(env, peer, snapshotWatermark, liveWatermark, rows0, log);
    sent := ForwardLiveBatches(live, liveWatermark, replayed);
    SessionSends(replayed, sent, rows0, live, log, peer, liveWatermark, subscribedAt);
  }

  lemma SessionSends(
    replayed: seq<Batch>, sent: seq<Batch>, rows: seq<Batch>, live: seq<Batch>, log: seq<Batch>, peer: string,
    watermark: int, subscribedAt: nat)
    requires IdsIncrease(rows) && Chronicle(log, peer)
    requires forall b :: b in rows && b.peer == peer ==> b in log
    requires subscribedAt <= |log| && live == log[subscribedAt..]
    requires forall i :: 0 <= i < subscribedAt ==> log[i].createdAt <= watermark
    requires replayed == Listed(rows, Window(peer, None, Some(watermark)), 0)
    requires sent == replayed + YoungerThan(live, watermark)
    ensures IdsIncrease(sent)
    ensures forall b :: b in sent <==> b in log && (b.createdAt > watermark || b in rows)
  {
    ListedMembers(rows, Window(peer, None, Some(watermark)), 0);
    YoungerMembers(live, watermark);
    forall b | b in log && b.createdAt > watermark
      ensures b in live
    {
      var i :| 0 <= i < |log| && log[i] == b;
      assert live[i - subscribedAt] == b;
    }
    JoinIncreases(replayed, YoungerThan(live, watermark), log, peer, watermark);
  }
}
