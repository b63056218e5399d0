/**
 No loss end to end: an invariant of the feed protocol, and what it says about every
 acknowledged batch of every run.
 */
module FeedSafety {
  import opened PrimaryKeys
  import opened Positions
  import opened Rows
  import opened Commit
  import opened ApplyService
  import opened Outboxes
  import opened FeedProtocol

  // ---- the invariant ----

  predicate Lost(s: State, id: nat) {
    id in s.dropped || id in s.cleaned
  }

  predicate Settled(s: State, id: nat) {
    id in s.processed || Lost(s, id)
  }

  predicate StoredOrGone(s: State, b: Batch) {
    b in s.pending || b.id in s.acked || b.id in s.cleaned
  }

  predicate LogInv(c: Config, s: State) {
    && LogOrdered(c, s.log)
    && IdsIncrease(s.pending)
    && (forall b :: b in s.pending ==> b in s.log)
    && (forall b :: b in s.log ==> StoredOrGone(s, b))
    && s.acked <= s.processed <= Ids(s.log) && s.cleaned <= Ids(s.log) && s.acked !! s.cleaned
    && (forall b :: b in s.pending ==> b.id !in s.acked && b.id !in s.cleaned)
    && (s.unpublished.Some? ==> s.log != [] && s.log[|s.log| - 1] == s.unpublished.value)
  }

  /** A cursor is where it started, or at an event of a processed batch. */
  predicate CursorFrom(s: State, f: Feed) {
    || CursorOf(s.store.cursors, f).last == INITIAL_CURSOR.last
    || exists b, e :: b in s.log && b.id in s.processed && e in b.events && FeedOf(e) == f
                   && CursorOf(s.store.cursors, f).last == PositionOf(e)
  }

  predicate AllApplied(c: Config, s: State, b: Batch) {
    forall e :: e in b.events && ApplyAllowed(c.mode, e.op) ==> e in s.applied
  }

  ghost predicate ProcessedInv(c: Config, s: State) {
    && (forall x, y :: x in s.log && y in s.log && x.id < y.id && y.id in s.processed ==> Settled(s, x.id))
    && (forall f :: CursorFrom(s, f))
    && (forall b :: b in s.log && b.id in s.processed ==> Lost(s, b.id) || AllApplied(c, s, b))
  }

  /** Every log entry below the frontier is settled or still to be received. */
  predicate InflightInv(s: State, x: Session) {
    && x.frontier <= |s.log|
    && IdsIncrease(x.inflight)
    && (forall b :: b in x.inflight ==> b in s.log[..x.frontier])
    && (forall b :: b in s.log[..x.frontier] ==> Settled(s, b.id) || b in x.inflight)
    && (x.toAck.Some? ==> x.toAck.value in s.log && x.toAck.value.id in s.processed)
    && (x.afterId == 0 || x.afterId in Ids(s.log))
  }

  /** A batch enqueued since the subscription is in the channel, or need not be. */
  predicate Channeled(s: State, x: Session, i: nat)
    requires i < |s.log|
  {
    || s.log[i] in x.channel || s.log[i].id in s.dropped || s.unpublished == Some(s.log[i])
    || (x.phase.Live? && i < x.frontier)
  }

  predicate ChannelInv(s: State, x: Session) {
    && IdsIncrease(x.channel)
    && (forall b :: b in x.channel ==> b in s.log && s.unpublished != Some(b))
    && (HasChannel(x) ==> x.subscribedAt <= |s.log| && forall i :: x.subscribedAt <= i < |s.log| ==> Channeled(s, x, i))
    && (!HasChannel(x) ==> x.channel == [])
  }

  predicate Sampled(x: Session) {
    x.phase.ReplayEarly? || x.phase.ReplayLate? || x.phase.Live?
  }

  predicate WatermarkInv(s: State, x: Session) {
    && (x.snapshotWatermark.Some? ==> x.snapshotWatermark.value <= s.watermark)
    && (Sampled(x) ==>
          && x.liveWatermark <= s.watermark
          && (x.snapshotWatermark.Some? ==> x.snapshotWatermark.value <= x.liveWatermark)
          && (forall i :: 0 <= i < x.subscribedAt && i < |s.log| ==> s.log[i].createdAt <= x.liveWatermark))
  }

  predicate UpTo(b: Batch, time: Option<int>) {
    time.Some? && b.createdAt <= time.value
  }

  /** Neither in the channel nor about to be published. */
  predicate Forwarded(s: State, x: Session, b: Batch) {
    b !in x.channel && s.unpublished != Some(b)
  }

  /** Where the frontier stands in each phase. */
  predicate FrontierInv(s: State, x: Session) {
    match x.phase
    case Connected => x.frontier == 0 && x.afterId == 0
    case Subscribed => x.frontier == 0 && x.afterId == 0
    case ReplayEarly =>
      && x.snapshotWatermark.Some?
      && (forall i :: 0 <= i < |s.log| ==> (i < x.frontier <==> s.log[i].id <= x.afterId))
      && (forall i :: 0 <= i < x.frontier && i < |s.log| ==> UpTo(s.log[i], x.snapshotWatermark))
    case ReplayLate =>
      && (forall i :: 0 <= i < |s.log| ==>
            (i < x.frontier <==> s.log[i].id <= x.afterId || UpTo(s.log[i], x.snapshotWatermark)))
      && (forall i :: 0 <= i < x.frontier && i < |s.log| ==> s.log[i].createdAt <= x.liveWatermark)
    case Live =>
      && (forall i :: 0 <= i < |s.log| && s.log[i].createdAt <= x.liveWatermark ==> i < x.frontier)
      && (forall i :: 0 <= i < x.frontier && i < |s.log| ==>
            s.log[i].createdAt <= x.liveWatermark || Forwarded(s, x, s.log[i]))
    case Closed => true
  }

  predicate SessionInv(s: State, x: Session) {
    InflightInv(s, x) && ChannelInv(s, x) && WatermarkInv(s, x) && FrontierInv(s, x)
  }

  predicate SessionsInv(s: State) {
    forall sid :: sid in s.sessions ==> SessionInv(s, s.sessions[sid])
  }

  ghost predicate Inv(c: Config, s: State) {
    LogInv(c, s) && ProcessedInv(c, s) && SessionsInv(s)
  }

  // ---- the log ----

  predicate TimesRise(log: seq<Batch>) {
    forall i, j :: 0 <= i < j < |log| ==> log[i].createdAt <= log[j].createdAt
  }

  lemma LogRises(c: Config, log: seq<Batch>)
    requires LogOrdered(c, log)
    ensures IdsIncrease(log) && TimesRise(log) && KeysUnique(log)
  {
  }

  lemma {:induction false} CountUpToIs(log: seq<Batch>, time: int)
    requires TimesRise(log)
    ensures CountUpTo(log, time) <= |log|
    ensures forall i :: 0 <= i < |log| ==> (i < CountUpTo(log, time) <==> log[i].createdAt <= time)
  {
    if log != [] {
      var init := log[..|log| - 1];
      CountUpToIs(init, time);
      forall i | 0 <= i < |log|
        ensures i < CountUpTo(log, time) <==> log[i].createdAt <= time
      {
        if i < |log| - 1 {
          assert init[i] == log[i];
        }
        if CountUpTo(init, time) < |log| - 1 {
          assert init[|log| - 2] == log[|log| - 2];
        }
      }
    }
  }

  lemma IndexOfIs(log: seq<Batch>, b: Batch)
    requires IdsIncrease(log) && b in log
    ensures IndexOf(log, b.id) < |log| && log[IndexOf(log, b.id)] == b
  {
    var i :| 0 <= i < |log| && log[i] == b;
    var j := IndexOf(log, b.id);
    assert !(i < j);
  }

  lemma SameId(log: seq<Batch>, x: Batch, y: Batch)
    requires IdsIncrease(log) && x in log && y in log && x.id == y.id
    ensures x == y
  {
    var i :| 0 <= i < |log| && log[i] == x;
    var j :| 0 <= j < |log| && log[j] == y;
  }

  // ---- steps that leave the log alone ----

  predicate Grown(s: State, t: State) {
    && t.log == s.log && t.unpublished == s.unpublished && s.watermark <= t.watermark
    && s.processed <= t.processed && s.dropped <= t.dropped && s.cleaned <= t.cleaned
  }

  lemma SessionGrows(s: State, t: State, x: Session)
    requires SessionInv(s, x) && Grown(s, t)
    ensures SessionInv(t, x)
  {
    assert ChannelInv(t, x) by {
      if HasChannel(x) {
        forall i | x.subscribedAt <= i < |t.log|
          ensures Channeled(t, x, i)
        {
          assert Channeled(s, x, i);
        }
      }
    }
  }

  /** Replacing one session by a good one keeps all sessions good. */
  lemma SessionsGrow(s: State, t: State, sid: nat, x: Session)
    requires SessionsInv(s) && Grown(s, t) && SessionInv(t, x) && t.sessions == s.sessions[sid := x]
    ensures SessionsInv(t)
  {
    forall other | other in t.sessions
      ensures SessionInv(t, t.sessions[other])
    {
      if other != sid {
        SessionGrows(s, t, s.sessions[other]);
      }
    }
  }

  lemma SessionsShrink(s: State, t: State)
    requires SessionsInv(s) && Grown(s, t)
    requires forall sid :: sid in t.sessions ==> sid in s.sessions && t.sessions[sid] == s.sessions[sid]
    ensures SessionsInv(t)
  {
    forall sid | sid in t.sessions
      ensures SessionInv(t, t.sessions[sid])
    {
      SessionGrows(s, t, s.sessions[sid]);
    }
  }

  predicate SameHistory(s: State, t: State) {
    && t.log == s.log && t.pending == s.pending && t.unpublished == s.unpublished && t.acked == s.acked
    && t.cleaned == s.cleaned && t.dropped == s.dropped && t.processed == s.processed
    && t.store == s.store && t.applied == s.applied
  }

  lemma SameHistoryKeeps(c: Config, s: State, t: State)
    requires LogInv(c, s) && ProcessedInv(c, s) && SameHistory(s, t)
    ensures LogInv(c, t) && ProcessedInv(c, t)
  {
    forall b | b in t.log
      ensures StoredOrGone(t, b)
    {
      assert StoredOrGone(s, b);
    }
    HistoryGrows(c, s, t);
  }

  // ---- enqueue and publish ----

  predicate Enqueued(s: State, b: Batch, t: State) {
    && t.log == s.log + [b] && s.unpublished.None? && t.unpublished == Some(b) && t.watermark == s.watermark
    && t.processed == s.processed && t.dropped == s.dropped && t.cleaned == s.cleaned
    && b.createdAt > s.watermark && b.id > 0
    && forall y :: y in s.log ==> y.id < b.id
  }

  lemma EnqueueInflight(s: State, b: Batch, t: State, x: Session)
    requires Enqueued(s, b, t) && InflightInv(s, x)
    ensures InflightInv(t, x)
  {
    assert t.log[..x.frontier] == s.log[..x.frontier];
    assert Ids(s.log) <= Ids(t.log);
  }

  lemma EnqueueChannel(s: State, b: Batch, t: State, x: Session)
    requires Enqueued(s, b, t) && ChannelInv(s, x)
    ensures ChannelInv(t, x)
  {
    if HasChannel(x) {
      forall i | x.subscribedAt <= i < |t.log|
        ensures Channeled(t, x, i)
      {
        if i < |s.log| {
          assert Channeled(s, x, i);
        }
      }
    }
  }

  lemma EnqueueFrontier(s: State, b: Batch, t: State, x: Session)
    requires Enqueued(s, b, t) && FrontierInv(s, x) && InflightInv(s, x) && WatermarkInv(s, x)
    ensures FrontierInv(t, x)
  {
    assert x.afterId < b.id;
    assert forall i :: 0 <= i < |s.log| ==> t.log[i] == s.log[i] && s.log[i] in s.log;
  }

  lemma EnqueueSession(s: State, b: Batch, t: State, x: Session)
    requires Enqueued(s, b, t) && SessionInv(s, x)
    ensures SessionInv(t, x)
  {
    EnqueueInflight(s, b, t, x);
    EnqueueChannel(s, b, t, x);
    EnqueueFrontier(s, b, t, x);
    if HasChannel(x) {
      assert forall i :: 0 <= i < x.subscribedAt && i < |t.log| ==> i < |s.log| && t.log[i] == s.log[i];
    }
  }

  lemma EnqueueIsNew(c: Config, s: State, b: Batch)
    requires LogOrdered(c, s.log + [b])
    ensures b.id > 0 && forall y :: y in s.log ==> y.id < b.id
  {
    var log := s.log + [b];
    assert log[|s.log|] == b;
    forall y | y in s.log
      ensures y.id < b.id
    {
      var i :| 0 <= i < |s.log| && s.log[i] == y;
      assert log[i] == y;
    }
  }

  lemma EnqueueLog(c: Config, s: State, b: Batch, t: State)
    requires LogInv(c, s) && LogOrdered(c, s.log + [b]) && forall y :: y in s.log ==> y.id < b.id
    requires t.log == s.log + [b] && t.pending == s.pending + [b] && t.unpublished == Some(b)
    requires t.acked == s.acked && t.cleaned == s.cleaned && t.processed == s.processed
    ensures LogInv(c, t)
  {
    forall y | y in t.log
      ensures StoredOrGone(t, y)
    {
      assert y in s.log ==> StoredOrGone(s, y);
    }
    assert Ids(s.log) <= Ids(t.log) && b.id !in Ids(s.log);
    JoinIds(s.pending, [b]);
  }

  lemma EnqueueKeeps(c: Config, s: State, b: Batch, t: State)
    requires Inv(c, s) && Enabled(c, s, Enqueue(b)) && t == Step(c, s, Enqueue(b))
    ensures Inv(c, t)
  {
    EnqueueIsNew(c, s, b);
    EnqueueLog(c, s, b, t);
    forall sid | sid in t.sessions
      ensures SessionInv(t, t.sessions[sid])
    {
      EnqueueSession(s, b, t, s.sessions[sid]);
    }
    EnqueueProcessed(c, s, b, t);
  }

  lemma EnqueueProcessed(c: Config, s: State, b: Batch, t: State)
    requires LogInv(c, s) && ProcessedInv(c, s) && Enabled(c, s, Enqueue(b)) && t == Step(c, s, Enqueue(b))
    requires forall y :: y in s.log ==> y.id < b.id
    ensures ProcessedInv(c, t)
  {
    assert b.id !in Ids(s.log);
    forall x, y | x in t.log && y in t.log && x.id < y.id && y.id in t.processed
      ensures Settled(t, x.id)
    {
      assert y in s.log && x in s.log;
      assert Settled(s, x.id);
    }
    forall f
      ensures CursorFrom(t, f)
    {
      assert CursorFrom(s, f);
    }
    forall y | y in t.log && y.id in t.processed
      ensures Lost(t, y.id) || AllApplied(c, t, y)
    {
      assert y in s.log;
      assert Lost(s, y.id) || AllApplied(c, s, y);
    }
  }

  predicate PublishedTo(s: State, t: State) {
    && t.log == s.log && t.unpublished == None && t.watermark == s.watermark && t.processed == s.processed
    && t.cleaned == s.cleaned && s.dropped <= t.dropped
    && s.unpublished.Some? && s.log != [] && s.unpublished.value == s.log[|s.log| - 1]
    && IdsIncrease(s.log)
  }

  lemma OfferChannel(s: State, t: State, x: Session)
    requires PublishedTo(s, t) && ChannelInv(s, x)
    requires Drops(x) ==> s.unpublished.value.id in t.dropped
    ensures ChannelInv(t, Offered(x, s.unpublished.value))
  {
    var b := s.unpublished.value;
    var y := Offered(x, b);
    forall z | z in x.channel
      ensures z.id < b.id
    {
      var i :| 0 <= i < |s.log| && s.log[i] == z;
    }
    if HasChannel(x) {
      forall i | y.subscribedAt <= i < |t.log|
        ensures Channeled(t, y, i)
      {
        assert Channeled(s, x, i);
      }
    }
  }

  lemma OfferFrontier(s: State, t: State, x: Session)
    requires PublishedTo(s, t) && FrontierInv(s, x)
    ensures FrontierInv(t, Offered(x, s.unpublished.value))
  {
  }

  lemma OfferKeeps(s: State, t: State, x: Session)
    requires PublishedTo(s, t) && SessionInv(s, x)
    requires Drops(x) ==> s.unpublished.value.id in t.dropped
    ensures SessionInv(t, Offered(x, s.unpublished.value))
  {
    OfferChannel(s, t, x);
    OfferFrontier(s, t, x);
    assert InflightInv(t, Offered(x, s.unpublished.value));
  }

  lemma PublishKeeps(c: Config, s: State, t: State)
    requires Inv(c, s) && Enabled(c, s, Publish) && t == Step(c, s, Publish)
    ensures Inv(c, t)
  {
    assert PublishedTo(s, t);
    forall sid | sid in t.sessions
      ensures SessionInv(t, t.sessions[sid])
    {
      OfferKeeps(s, t, s.sessions[sid]);
    }
    HistoryGrows(c, s, t);
  }

  /** What processing guarantees survives more losses. */
  lemma HistoryGrows(c: Config, s: State, t: State)
    requires ProcessedInv(c, s)
    requires t.log == s.log && t.processed == s.processed && t.store == s.store && t.applied == s.applied
    requires s.dropped <= t.dropped && s.cleaned <= t.cleaned
    ensures ProcessedInv(c, t)
  {
    forall f
      ensures CursorFrom(t, f)
    {
      assert CursorFrom(s, f);
    }
    forall b | b in t.log && b.id in t.processed
      ensures Lost(t, b.id) || AllApplied(c, t, b)
    {
      assert Lost(s, b.id) || AllApplied(c, s, b);
    }
    forall x, y | x in t.log && y in t.log && x.id < y.id && y.id in t.processed
      ensures Settled(t, x.id)
    {
      assert Settled(s, x.id);
    }
  }

  // ---- connecting and sampling ----

  lemma CreatedBy(log: seq<Batch>, now: int)
    requires TimesRise(log) && now >= LastCreated(log, now)
    ensures forall i :: 0 <= i < |log| ==> log[i].createdAt <= now
  {
  }

  lemma ConnectKeeps(c: Config, s: State, sid: nat, snapshot: Option<int>, t: State)
    requires Inv(c, s) && Enabled(c, s, Connect(sid, snapshot)) && t == Step(c, s, Connect(sid, snapshot))
    ensures Inv(c, t)
  {
    var x := t.sessions[sid];
    assert SessionInv(t, x);
    SessionsGrow(s, t, sid, x);
    SameHistoryKeeps(c, s, t);
  }

  lemma SubscribeKeeps(c: Config, s: State, sid: nat, t: State)
    requires Inv(c, s) && Enabled(c, s, Subscribe(sid)) && t == Step(c, s, Subscribe(sid))
    ensures Inv(c, t)
  {
    var x := t.sessions[sid];
    assert SessionInv(s, s.sessions[sid]);
    assert SessionInv(t, x);
    SessionsGrow(s, t, sid, x);
    SameHistoryKeeps(c, s, t);
  }

  lemma SampledSession(s: State, x: Session, now: int, t: State)
    requires SessionInv(s, x) && x.phase.Subscribed? && Grown(s, t) && t.watermark == now
    requires TimesRise(s.log) && now >= LastCreated(s.log, now) && forall b :: b in s.log ==> b.id > 0
    ensures SessionInv(t, x.(phase := if x.snapshotWatermark.Some? then ReplayEarly else ReplayLate,
                             liveWatermark := now))
  {
    SessionGrows(s, t, x);
    CreatedBy(s.log, now);
    var y := x.(phase := if x.snapshotWatermark.Some? then ReplayEarly else ReplayLate, liveWatermark := now);
    assert InflightInv(t, y);
    forall i | y.subscribedAt <= i < |t.log|
      ensures Channeled(t, y, i)
    {
      assert Channeled(t, x, i);
    }
  }

  lemma SampleLiveKeeps(c: Config, s: State, sid: nat, now: int, t: State)
    requires Inv(c, s) && Enabled(c, s, SampleLive(sid, now)) && t == Step(c, s, SampleLive(sid, now))
    ensures Inv(c, t)
  {
    LogRises(c, s.log);
    SampledSession(s, s.sessions[sid], now, t);
    SessionsGrow(s, t, sid, t.sessions[sid]);
    SameHistoryKeeps(c, s, t);
  }

  // ---- replay ----

  /** What a replay page reads, below its window's upper bound. */
  function UpperBound(x: Session): Option<int> {
    if x.phase.ReplayEarly? then x.snapshotWatermark else Some(x.liveWatermark)
  }

  predicate Replays(x: Session) {
    x.phase.ReplayEarly? || x.phase.ReplayLate?
  }

  /** Beyond the frontier lie exactly the entries the next page looks at or that are too young. */
  lemma BeyondFrontier(c: Config, s: State, x: Session, i: nat)
    requires FrontierInv(s, x) && Replays(x) && i < |s.log|
    requires s.log[i].peer == c.peer && UpTo(s.log[i], UpperBound(x))
    ensures i >= x.frontier <==> s.log[i].id > x.afterId && InWindow(s.log[i], ReplayWindow(c, x))
  {
  }

  predicate ReplayState(c: Config, s: State) {
    && IdsIncrease(s.log) && TimesRise(s.log) && IdsIncrease(s.pending)
    && (forall b :: b in s.pending ==> b in s.log)
    && (forall b :: b in s.log ==> b.peer == c.peer && StoredOrGone(s, b))
    && s.acked <= s.processed
  }

  /** An entry up to the window's bound that the listing does not show is settled or already sent. */
  lemma ListedOrSettled(c: Config, s: State, x: Session, i: nat)
    requires ReplayState(c, s) && SessionInv(s, x) && Replays(x) && i < |s.log| && UpTo(s.log[i], UpperBound(x))
    ensures s.log[i] in Listed(s.pending, ReplayWindow(c, x), x.afterId)
         || Settled(s, s.log[i].id) || s.log[i] in x.inflight
  {
    var b := s.log[i];
    assert b in s.log && StoredOrGone(s, b);
    BeyondFrontier(c, s, x, i);
    ListedMembers(s.pending, ReplayWindow(c, x), x.afterId);
    if i < x.frontier {
      assert s.log[..x.frontier][i] == b;
    }
  }

  lemma FrontierUpTo(s: State, x: Session)
    requires FrontierInv(s, x) && Replays(x) && x.frontier <= |s.log|
    ensures x.frontier > 0 ==> UpTo(s.log[x.frontier - 1], UpperBound(x))
  {
  }

  /** The window is exhausted: everything up to its bound is covered. */
  lemma ExhaustedKeeps(c: Config, s: State, x: Session, y: Session)
    requires ReplayState(c, s) && SessionInv(s, x) && Replays(x) && UpperBound(x).Some?
    requires Listed(s.pending, ReplayWindow(c, x), x.afterId) == []
    requires y.frontier == CountUpTo(s.log, UpperBound(x).value) && y.inflight == x.inflight && y.toAck == x.toAck
    requires y.afterId == 0 || y.afterId == x.afterId
    ensures InflightInv(s, y)
    ensures forall i :: 0 <= i < |s.log| ==> (i < y.frontier <==> UpTo(s.log[i], UpperBound(x)))
  {
    CountUpToIs(s.log, UpperBound(x).value);
    FrontierUpTo(s, x);
    assert forall b :: b in s.log[..x.frontier] ==> b in s.log[..y.frontier];
    assert y.frontier > 0 ==> UpTo(s.log[y.frontier - 1], UpperBound(x));
    forall b | b in s.log[..y.frontier]
      ensures Settled(s, b.id) || b in y.inflight
    {
      var i := NoLaterThan(s.log, y.frontier - 1, b);
      ListedOrSettled(c, s, x, i);
    }
  }

  lemma EmptyPage(c: Config, s: State, x: Session)
    requires ReplayState(c, s) && SessionInv(s, x) && Replays(x)
    requires Page(s.pending, ReplayWindow(c, x), x.afterId, REPLAY_PAGE_SIZE) == []
    ensures SessionInv(s, AfterPage(c, s, x))
  {
    var y := AfterPage(c, s, x);
    ExhaustedKeeps(c, s, x, y);
    ReplayKeepsChannel(s, x, y);
  }

  /** A page is a prefix of the listing: it misses nothing up to its last id. */
  lemma PageReaches(rows: seq<Batch>, w: Window, afterId: nat, limit: nat, b: Batch)
    requires IdsIncrease(rows) && b in Listed(rows, w, afterId)
    requires var page := Page(rows, w, afterId, limit); page != [] && b.id <= page[|page| - 1].id
    ensures b in Page(rows, w, afterId, limit)
  {
    ListedMembers(rows, w, afterId);
    var all := Listed(rows, w, afterId);
    var i :| 0 <= i < |all| && all[i] == b;
  }

  lemma PageMembers(c: Config, s: State, x: Session, page: seq<Batch>)
    requires ReplayState(c, s) && page == Page(s.pending, ReplayWindow(c, x), x.afterId, REPLAY_PAGE_SIZE)
    ensures IdsIncrease(page)
    ensures forall b :: b in page ==> b in s.log && b.id > x.afterId && InWindow(b, ReplayWindow(c, x))
  {
    var all := Listed(s.pending, ReplayWindow(c, x), x.afterId);
    ListedMembers(s.pending, ReplayWindow(c, x), x.afterId);
    assert forall b :: b in page ==> b in all;
  }

  lemma JoinIds(a: seq<Batch>, b: seq<Batch>)
    requires IdsIncrease(a) && IdsIncrease(b) && forall x, y :: x in a && y in b ==> x.id < y.id
    ensures IdsIncrease(a + b)
  {
    var all := a + b;
    forall i, j | 0 <= i < j < |all|
      ensures all[i].id < all[j].id
    {
      if i < |a| && j >= |a| {
        assert all[i] in a && all[j] in b;
      }
    }
  }

  lemma PageFrontier(c: Config, s: State, x: Session, page: seq<Batch>, n: nat)
    requires ReplayState(c, s) && SessionInv(s, x) && Replays(x)
    requires page == Page(s.pending, ReplayWindow(c, x), x.afterId, REPLAY_PAGE_SIZE) && page != []
    requires n < |s.log| && s.log[n] == page[|page| - 1]
    ensures x.frontier <= n
    ensures forall b :: b in page ==> b in s.log[..n + 1] && b !in s.log[..x.frontier]
  {
    PageMembers(c, s, x, page);
    forall b | b in page
      ensures b in s.log[..n + 1] && b !in s.log[..x.frontier]
    {
      var i :| 0 <= i < |s.log| && s.log[i] == b;
      BeyondFrontier(c, s, x, i);
      var k :| 0 <= k < |page| && page[k] == b;
      assert b.id <= page[|page| - 1].id;
      assert i <= n;
      assert s.log[..n + 1][i] == b;
    }
    BeyondFrontier(c, s, x, n);
  }

  /** What lies below the frontier is older than what does not. */
  lemma BelowFrontier(log: seq<Batch>, frontier: nat, a: Batch, b: Batch)
    requires IdsIncrease(log) && frontier <= |log| && a in log[..frontier] && b in log && b !in log[..frontier]
    ensures a.id < b.id
  {
    var i :| 0 <= i < frontier && log[i] == a;
    var j :| 0 <= j < |log| && log[j] == b;
    NotBelow(log, frontier, j);
  }

  lemma NotBelow(log: seq<Batch>, frontier: nat, j: nat)
    requires frontier <= |log| && j < |log|
    ensures j < frontier ==> log[j] in log[..frontier]
  {
    if j < frontier {
      assert log[..frontier][j] == log[j];
    }
  }

  lemma PageCovers(c: Config, s: State, x: Session, page: seq<Batch>, n: nat, b: Batch)
    requires ReplayState(c, s) && SessionInv(s, x) && Replays(x)
    requires page == Page(s.pending, ReplayWindow(c, x), x.afterId, REPLAY_PAGE_SIZE) && page != []
    requires n < |s.log| && s.log[n] == page[|page| - 1] && UpTo(s.log[n], UpperBound(x)) && b in s.log[..n + 1]
    ensures Settled(s, b.id) || b in x.inflight || b in page
  {
    var i := NoLaterThan(s.log, n, b);
    ListedOrSettled(c, s, x, i);
    if b in Listed(s.pending, ReplayWindow(c, x), x.afterId) {
      PageReaches(s.pending, ReplayWindow(c, x), x.afterId, REPLAY_PAGE_SIZE, b);
    }
  }

  lemma NoLaterThan(log: seq<Batch>, n: nat, b: Batch) returns (i: nat)
    requires IdsIncrease(log) && TimesRise(log) && n < |log| && b in log[..n + 1]
    ensures i <= n && log[i] == b && b.id <= log[n].id && b.createdAt <= log[n].createdAt
  {
    i :| 0 <= i <= n && log[i] == b;
  }

  lemma PageInflight(c: Config, s: State, x: Session, page: seq<Batch>, n: nat, y: Session)
    requires ReplayState(c, s) && SessionInv(s, x) && Replays(x)
    requires page == Page(s.pending, ReplayWindow(c, x), x.afterId, REPLAY_PAGE_SIZE) && page != []
    requires n < |s.log| && s.log[n] == page[|page| - 1]
    requires y == x.(inflight := x.inflight + page, afterId := page[|page| - 1].id, frontier := n + 1)
    ensures InflightInv(s, y)
  {
    PageMembers(c, s, x, page);
    PageFrontier(c, s, x, page, n);
    forall a, b | a in x.inflight && b in page
      ensures a.id < b.id
    {
      BelowFrontier(s.log, x.frontier, a, b);
    }
    JoinIds(x.inflight, page);
    assert s.log[..x.frontier] <= s.log[..n + 1];
    forall b | b in s.log[..n + 1]
      ensures Settled(s, b.id) || b in y.inflight
    {
      assert page[|page| - 1] in page;
      PageCovers(c, s, x, page, n, b);
    }
    assert s.log[n].id in Ids(s.log);
  }

  lemma PageKeepsFrontier(c: Config, s: State, x: Session, page: seq<Batch>, n: nat, y: Session)
    requires IdsIncrease(s.log) && TimesRise(s.log) && FrontierInv(s, x) && Replays(x) && WatermarkInv(s, x)
    requires n < |s.log| && x.frontier <= n && UpTo(s.log[n], UpperBound(x))
    requires y == x.(inflight := x.inflight + page, afterId := s.log[n].id, frontier := n + 1)
    ensures FrontierInv(s, y)
  {
    forall i | 0 <= i < |s.log|
      ensures i <= n <==> s.log[i].id <= s.log[n].id
      ensures i <= n ==> s.log[i].createdAt <= s.log[n].createdAt
    {
    }
  }

  lemma FullPage(c: Config, s: State, x: Session)
    requires ReplayState(c, s) && SessionInv(s, x) && Replays(x)
    requires Page(s.pending, ReplayWindow(c, x), x.afterId, REPLAY_PAGE_SIZE) != []
    ensures SessionInv(s, AfterPage(c, s, x))
  {
    var page := Page(s.pending, ReplayWindow(c, x), x.afterId, REPLAY_PAGE_SIZE);
    var last := page[|page| - 1];
    PageMembers(c, s, x, page);
    assert last in page;
    IndexOfIs(s.log, last);
    var n := IndexOf(s.log, last.id);
    var y := AfterPage(c, s, x);
    PageFrontier(c, s, x, page, n);
    PageInflight(c, s, x, page, n, y);
    PageKeepsFrontier(c, s, x, page, n, y);
    ReplayKeepsChannel(s, x, y);
  }

  lemma ReplayKeepsChannel(s: State, x: Session, y: Session)
    requires ChannelInv(s, x) && Replays(x) && HasChannel(y)
    requires y.channel == x.channel && y.subscribedAt == x.subscribedAt
    ensures ChannelInv(s, y)
  {
    forall i | y.subscribedAt <= i < |s.log|
      ensures Channeled(s, y, i)
    {
      assert Channeled(s, x, i);
    }
  }

  lemma ReplayReady(c: Config, s: State)
    requires LogInv(c, s)
    ensures ReplayState(c, s)
  {
    LogRises(c, s.log);
  }

  lemma ReplayPageKeeps(c: Config, s: State, sid: nat, t: State)
    requires Inv(c, s) && Enabled(c, s, ReplayPage(sid)) && t == Step(c, s, ReplayPage(sid))
    ensures Inv(c, t)
  {
    var x := s.sessions[sid];
    ReplayReady(c, s);
    if Page(s.pending, ReplayWindow(c, x), x.afterId, REPLAY_PAGE_SIZE) == [] {
      EmptyPage(c, s, x);
    } else {
      FullPage(c, s, x);
    }
    SessionGrows(s, t, t.sessions[sid]);
    SessionsGrow(s, t, sid, t.sessions[sid]);
    SameHistoryKeeps(c, s, t);
  }

  // ---- live forwarding ----

  lemma HeadIsOldest(bs: seq<Batch>, b: Batch)
    requires IdsIncrease(bs) && bs != []
    ensures b in bs ==> bs[0].id <= b.id
  {
  }

  /** Between the frontier and the head of the channel everything was dropped. */
  lemma SkippedWereDropped(s: State, x: Session, n: nat, i: nat)
    requires IdsIncrease(s.log) && SessionInv(s, x) && x.phase.Live? && x.channel != []
    requires s.unpublished.Some? ==> s.log != [] && s.unpublished.value == s.log[|s.log| - 1]
    requires n < |s.log| && s.log[n] == x.channel[0] && s.log[n].createdAt > x.liveWatermark
    requires x.frontier <= i < n
    ensures s.log[i].id in s.dropped
  {
    assert Channeled(s, x, i);
    HeadIsOldest(x.channel, s.log[i]);
  }

  predicate HeadIsLive(s: State, x: Session, n: nat) {
    && IdsIncrease(s.log) && SessionInv(s, x) && x.phase.Live? && x.channel != []
    && (s.unpublished.Some? ==> s.log != [] && s.unpublished.value == s.log[|s.log| - 1])
    && n < |s.log| && s.log[n] == x.channel[0] && s.log[n].createdAt > x.liveWatermark
  }

  lemma HeadIsBeyond(s: State, x: Session, n: nat)
    requires HeadIsLive(s, x, n)
    ensures x.frontier <= n && x.channel[0] in s.log && x.channel[0] !in s.log[..x.frontier]
  {
    assert x.channel[0] in x.channel;
  }

  lemma ForwardCovers(s: State, x: Session, n: nat, a: Batch)
    requires HeadIsLive(s, x, n) && a in s.log[..n + 1]
    ensures Settled(s, a.id) || a in x.inflight || a == x.channel[0]
  {
    var i :| 0 <= i <= n && s.log[i] == a;
    if i < x.frontier {
      assert s.log[..x.frontier][i] == a;
    } else if i < n {
      SkippedWereDropped(s, x, n, i);
    }
  }

  lemma ForwardInflight(s: State, x: Session, n: nat, y: Session)
    requires HeadIsLive(s, x, n)
    requires y == x.(channel := x.channel[1..], inflight := x.inflight + [x.channel[0]], frontier := n + 1)
    ensures x.frontier <= n && InflightInv(s, y)
  {
    var b := x.channel[0];
    HeadIsBeyond(s, x, n);
    forall a | a in x.inflight
      ensures a.id < b.id
    {
      BelowFrontier(s.log, x.frontier, a, b);
    }
    JoinIds(x.inflight, [b]);
    assert s.log[..x.frontier] <= s.log[..n + 1];
    assert s.log[..n + 1][n] == b;
    forall a | a in s.log[..n + 1]
      ensures Settled(s, a.id) || a in y.inflight
    {
      ForwardCovers(s, x, n, a);
    }
  }

  lemma ForwardChannel(s: State, x: Session, n: nat, y: Session)
    requires IdsIncrease(s.log) && ChannelInv(s, x) && FrontierInv(s, x) && x.phase.Live? && x.channel != []
    requires n < |s.log| && s.log[n] == x.channel[0]
    requires y.channel == x.channel[1..] && y.phase == x.phase && y.subscribedAt == x.subscribedAt
    requires y.frontier == if s.log[n].createdAt > x.liveWatermark then n + 1 else x.frontier
    requires x.frontier <= y.frontier <= |s.log|
    ensures ChannelInv(s, y)
  {
    assert forall b :: b in x.channel <==> b == x.channel[0] || b in y.channel by {
      assert x.channel == [x.channel[0]] + y.channel;
    }
    forall i | y.subscribedAt <= i < |s.log|
      ensures Channeled(s, y, i)
    {
      assert Channeled(s, x, i);
      if s.log[i] == x.channel[0] {
        assert i == n;
      }
    }
  }

  lemma ForwardFrontier(s: State, x: Session, n: nat, y: Session)
    requires IdsIncrease(s.log) && TimesRise(s.log) && ChannelInv(s, x) && FrontierInv(s, x)
    requires x.phase.Live? && x.channel != []
    requires s.unpublished.Some? ==> s.log != [] && s.unpublished.value == s.log[|s.log| - 1]
    requires n < |s.log| && s.log[n] == x.channel[0]
    requires y.channel == x.channel[1..] && y.phase == x.phase && y.liveWatermark == x.liveWatermark
    requires y.frontier == if s.log[n].createdAt > x.liveWatermark then n + 1 else x.frontier
    requires x.frontier <= y.frontier <= |s.log|
    ensures FrontierInv(s, y)
  {
    assert x.channel[0] in x.channel;
    forall i | 0 <= i < y.frontier
      ensures s.log[i].createdAt <= y.liveWatermark || Forwarded(s, y, s.log[i])
    {
      if s.log[i] in y.channel {
        var k :| 0 <= k < |y.channel| && y.channel[k] == s.log[i];
        assert x.channel[k + 1] == s.log[i] && s.log[n].id < s.log[i].id;
        assert s.log[i] in x.channel;
      }
    }
  }

  lemma ForwardKeeps(s: State, x: Session)
    requires IdsIncrease(s.log) && TimesRise(s.log) && SessionInv(s, x) && x.phase.Live? && x.channel != []
    requires s.unpublished.Some? ==> s.log != [] && s.unpublished.value == s.log[|s.log| - 1]
    ensures SessionInv(s, AfterForward(s, x))
  {
    var b, y := x.channel[0], AfterForward(s, x);
    assert b in x.channel;
    IndexOfIs(s.log, b);
    var n := IndexOf(s.log, b.id);
    if b.createdAt > x.liveWatermark {
      ForwardInflight(s, x, n, y);
    }
    ForwardChannel(s, x, n, y);
    ForwardFrontier(s, x, n, y);
    assert InflightInv(s, y);
  }

  lemma ForwardLiveKeeps(c: Config, s: State, sid: nat, t: State)
    requires Inv(c, s) && Enabled(c, s, ForwardLive(sid)) && t == Step(c, s, ForwardLive(sid))
    ensures Inv(c, t)
  {
    LogRises(c, s.log);
    ForwardKeeps(s, s.sessions[sid]);
    SessionGrows(s, t, t.sessions[sid]);
    SessionsGrow(s, t, sid, t.sessions[sid]);
    SameHistoryKeeps(c, s, t);
  }

  lemma UnsubscribeKeeps(c: Config, s: State, sid: nat, t: State)
    requires Inv(c, s) && Enabled(c, s, Unsubscribe(sid)) && t == Step(c, s, Unsubscribe(sid))
    ensures Inv(c, t)
  {
    ClosedKeeps(s, s.sessions[sid]);
    SessionGrows(s, t, t.sessions[sid]);
    SessionsGrow(s, t, sid, t.sessions[sid]);
    SameHistoryKeeps(c, s, t);
  }

  lemma ClosedKeeps(s: State, x: Session)
    requires SessionInv(s, x)
    ensures SessionInv(s, x.(phase := Closed, channel := []))
  {
    assert InflightInv(s, x.(phase := Closed, channel := []));
  }

  // ---- what the receiver's filter keeps ----

  lemma RisingTail(es: seq<Event>)
    requires Rising(es) && es != []
    ensures Rising(es[1..])
    ensures forall e :: e in es[1..] && FeedOf(e) == FeedOf(es[0]) ==> Before(PositionOf(es[0]), PositionOf(e))
  {
    var rest := es[1..];
    forall i, j | 0 <= i < j < |rest| && FeedOf(rest[i]) == FeedOf(rest[j])
      ensures Before(PositionOf(rest[i]), PositionOf(rest[j]))
    {
      assert rest[i] == es[i + 1] && rest[j] == es[j + 1];
    }
    forall e | e in rest && FeedOf(e) == FeedOf(es[0])
      ensures Before(PositionOf(es[0]), PositionOf(e))
    {
      var i :| 0 <= i < |rest| && rest[i] == e;
      assert es[i + 1] == e;
    }
  }

  lemma {:induction false} AllowedRises(mode: ApplyMode, es: seq<Event>)
    requires Rising(es)
    ensures Rising(Allowed(mode, es))
    ensures forall e :: e in Allowed(mode, es) <==> e in es && ApplyAllowed(mode, e.op)
  {
    if es != [] {
      var init, last := es[..|es| - 1], es[|es| - 1];
      assert es == init + [last];
      AllowedRises(mode, init);
      var kept := Allowed(mode, init);
      forall e | e in kept && FeedOf(e) == FeedOf(last)
        ensures Before(PositionOf(e), PositionOf(last))
      {
        var i :| 0 <= i < |init| && init[i] == e;
        assert es[i] == e;
      }
    }
  }

  /** Rising events have places of their own. */
  lemma OneAtPlace(es: seq<Event>, e: Event)
    requires Rising(es) && e in es
    ensures At(es, PlaceOf(e)) != [] && At(es, PlaceOf(e))[0] == e
  {
    AtMembers(es, PlaceOf(e));
    var d := At(es, PlaceOf(e))[0];
    assert d in At(es, PlaceOf(e));
    var i :| 0 <= i < |es| && es[i] == d;
    var j :| 0 <= j < |es| && es[j] == e;
    BeforeTrichotomy(PositionOf(d), PositionOf(e));
  }

  /** A cursor moves to an event of the batch or stays. */
  lemma {:induction false} AdvancedFrom(cursors: Cursors, es: seq<Event>, f: Feed)
    ensures || CursorOf(Advanced(cursors, es), f) == CursorOf(cursors, f)
            || exists e :: e in es && FeedOf(e) == f && CursorOf(Advanced(cursors, es), f).last == PositionOf(e)
    decreases |es|
  {
    if es != [] {
      var next := if StaleAt(cursors, es[0]) then cursors else Moved(cursors, es[0]);
      AdvancedFrom(next, es[1..], f);
      assert es == [es[0]] + es[1..];
    }
  }

  lemma {:induction false} SortedMembers(es: seq<Event>)
    ensures forall e :: e in Sorted(es) <==> e in es
  {
    if es != [] {
      SortedMembers(es[1..]);
      SortedIsStableSort(es[1..]);
      PlacedOrdered(es[0], Sorted(es[1..]));
      assert es == [es[0]] + es[1..];
    }
  }

  predicate IsBeyond(cursors: Cursors, e: Event) {
    Before(CursorOf(cursors, FeedOf(e)).last, PositionOf(e))
  }

  /** An event later than the first one of a rising batch is beyond the moved cursors if it was beyond. */
  lemma BeyondMoved(cursors: Cursors, first: Event, e: Event)
    requires FeedOf(e) == FeedOf(first) ==> Before(PositionOf(first), PositionOf(e))
    ensures var next := if StaleAt(cursors, first) then cursors else Moved(cursors, first);
            IsBeyond(next, e) <==> IsBeyond(cursors, e)
  {
    StaleIffNotAfter(first, CursorOf(cursors, FeedOf(first)));
    if FeedOf(e) == FeedOf(first) && !StaleAt(cursors, first) {
      BeforeTransitive(CursorOf(cursors, FeedOf(e)).last, PositionOf(first), PositionOf(e));
    }
  }

  lemma {:induction false} KeptIffBeyond(cursors: Cursors, es: seq<Event>, e: Event)
    requires Rising(es)
    ensures e in Kept(cursors, es) <==> e in es && IsBeyond(cursors, e)
    decreases |es|
  {
    if es != [] {
      var first, rest := es[0], es[1..];
      var next := if StaleAt(cursors, first) then cursors else Moved(cursors, first);
      RisingTail(es);
      KeptIffBeyond(next, rest, e);
      StaleIffNotAfter(first, CursorOf(cursors, FeedOf(first)));
      assert es == [first] + rest;
      if e in rest {
        BeyondMoved(cursors, first, e);
      }
    }
  }

  lemma SortedKeptIffBeyond(cursors: Cursors, es: seq<Event>, e: Event)
    requires Rising(es)
    ensures e in Kept(cursors, Sorted(es)) <==> e in es && IsBeyond(cursors, e)
  {
    var q, kept := PlaceOf(e), Kept(cursors, Sorted(es));
    SortedIsStableSort(es);
    SortThenFilterIsExact(cursors, es, Sorted(es));
    assert At(kept, q) == FirstBeyond(cursors, es, q);
    AtMembers(kept, q);
    KeptIn(cursors, Sorted(es));
    SortedMembers(es);
    if e in es {
      OneAtPlace(es, e);
    }
  }

  /** The events of a batch that a delivery applies: allowed, and beyond the cursors. */
  lemma SurvivingIff(c: Config, s: State, b: Batch, e: Event)
    requires Rising(b.events)
    ensures e in Surviving(c, s, b) <==> e in b.events && ApplyAllowed(c.mode, e.op) && IsBeyond(s.store.cursors, e)
  {
    var allowed := Allowed(c.mode, b.events);
    AllowedRises(c.mode, b.events);
    var locked := Locked(s.store.cursors, Prepared(c.mode, b.txId == "", b.events));
    assert CursorOf(locked, FeedOf(e)) == CursorOf(s.store.cursors, FeedOf(e));
    if b.txId == "" {
      SortedKeptIffBeyond(locked, allowed, e);
    } else {
      KeptIffBeyond(locked, allowed, e);
    }
  }

  lemma CursorAfterCommit(c: Config, s: State, b: Batch, store: Store, f: Feed)
    requires Rising(b.events) && Outcome(c, s, b) == Success(store)
    ensures || CursorOf(store.cursors, f).last == CursorOf(s.store.cursors, f).last
            || exists e :: e in b.events && FeedOf(e) == f && CursorOf(store.cursors, f).last == PositionOf(e)
  {
    var prepared := Prepared(c.mode, b.txId == "", b.events);
    var locked := Locked(s.store.cursors, prepared);
    AllowedRises(c.mode, b.events);
    SortedMembers(Allowed(c.mode, b.events));
    AdvancedFrom(locked, prepared, f);
    assert store.cursors == Advanced(locked, prepared);
  }

  // ---- delivery ----

  /** The head of a session is received in order: everything older is settled. */
  lemma OlderSettled(s: State, x: Session, a: Batch)
    requires IdsIncrease(s.log) && InflightInv(s, x) && x.inflight != [] && a in s.log && a.id < x.inflight[0].id
    ensures Settled(s, a.id)
  {
    var b := x.inflight[0];
    assert b in x.inflight;
    HeadIsOldest(x.inflight, a);
    if a !in s.log[..x.frontier] {
      BelowFrontier(s.log, x.frontier, b, a);
    }
  }

  lemma IdsOrder(c: Config, log: seq<Batch>, i: nat, j: nat)
    requires LogOrdered(c, log) && i < |log| && j < |log|
    ensures log[i].id < log[j].id <==> i < j
  {
  }

  lemma EventsRise(c: Config, log: seq<Batch>, x: Batch, y: Batch, d: Event, e: Event)
    requires LogOrdered(c, log) && x in log && y in log && x.id < y.id
    requires d in x.events && e in y.events && FeedOf(d) == FeedOf(e)
    ensures Before(PositionOf(d), PositionOf(e))
  {
    var i :| 0 <= i < |log| && log[i] == x;
    var j :| 0 <= j < |log| && log[j] == y;
    IdsOrder(c, log, i, j);
    assert EventsBefore(log[i], log[j]);
    var k :| 0 <= k < |x.events| && x.events[k] == d;
    var m :| 0 <= m < |y.events| && y.events[m] == e;
  }

  lemma InLog(c: Config, log: seq<Batch>, b: Batch)
    requires LogOrdered(c, log) && b in log
    ensures WellMade(c, b) && b.id > 0 && Rising(b.events) && Beyond(map[], b.events)
  {
    var i :| 0 <= i < |log| && log[i] == b;
  }

  /** A batch that is new to the receiver and not lost lies beyond every cursor. */
  lemma NewIsBeyond(c: Config, s: State, b: Batch)
    requires LogInv(c, s) && ProcessedInv(c, s) && b in s.log && !Settled(s, b.id)
    ensures Beyond(s.store.cursors, b.events)
  {
    InLog(c, s.log, b);
    forall e | e in b.events
      ensures Before(CursorOf(s.store.cursors, FeedOf(e)).last, PositionOf(e))
    {
      var f := FeedOf(e);
      assert CursorFrom(s, f);
      if CursorOf(s.store.cursors, f).last != INITIAL_CURSOR.last {
        var y, d :| y in s.log && y.id in s.processed && d in y.events && FeedOf(d) == f
                 && CursorOf(s.store.cursors, f).last == PositionOf(d);
        assert y.id != b.id && !(b.id < y.id);
        EventsRise(c, s.log, y, b, d, e);
      } else {
        assert CursorOf(map[], f) == INITIAL_CURSOR;
      }
    }
  }

  predicate Delivers(c: Config, s: State, b: Batch, store: Store, t: State) {
    && Outcome(c, s, b) == Success(store) && t.store == store
    && t.log == s.log && t.pending == s.pending && t.unpublished == s.unpublished && t.watermark == s.watermark
    && t.acked == s.acked && t.cleaned == s.cleaned && t.dropped == s.dropped
    && t.processed == s.processed + {b.id}
    && t.applied == s.applied + (set e | e in Surviving(c, s, b))
  }

  lemma DeliverCursors(c: Config, s: State, b: Batch, store: Store, t: State, f: Feed)
    requires LogInv(c, s) && ProcessedInv(c, s) && b in s.log && Delivers(c, s, b, store, t)
    ensures CursorFrom(t, f)
  {
    InLog(c, s.log, b);
    CursorAfterCommit(c, s, b, store, f);
    assert CursorFrom(s, f);
  }

  lemma DeliverApplies(c: Config, s: State, b: Batch, store: Store, t: State)
    requires LogInv(c, s) && ProcessedInv(c, s) && b in s.log && Delivers(c, s, b, store, t)
    ensures Lost(t, b.id) || AllApplied(c, t, b)
  {
    if b.id in s.processed {
      assert Lost(s, b.id) || AllApplied(c, s, b);
    } else if !Lost(s, b.id) {
      InLog(c, s.log, b);
      NewIsBeyond(c, s, b);
      forall e | e in b.events && ApplyAllowed(c.mode, e.op)
        ensures e in t.applied
      {
        SurvivingIff(c, s, b, e);
      }
    }
  }

  lemma DeliverProcessed(c: Config, s: State, b: Batch, store: Store, t: State)
    requires LogInv(c, s) && ProcessedInv(c, s) && b in s.log && Delivers(c, s, b, store, t)
    requires forall a :: a in s.log && a.id < b.id ==> Settled(s, a.id)
    ensures ProcessedInv(c, t)
  {
    LogRises(c, s.log);
    forall f
      ensures CursorFrom(t, f)
    {
      DeliverCursors(c, s, b, store, t, f);
    }
    DeliverApplies(c, s, b, store, t);
    forall y | y in t.log && y.id in t.processed
      ensures Lost(t, y.id) || AllApplied(c, t, y)
    {
      if y.id == b.id {
        SameId(s.log, y, b);
      } else {
        assert Lost(s, y.id) || AllApplied(c, s, y);
      }
    }
    forall x, y | x in t.log && y in t.log && x.id < y.id && y.id in t.processed
      ensures Settled(t, x.id)
    {
      assert Settled(s, x.id);
    }
  }

  lemma DeliverLog(c: Config, s: State, b: Batch, t: State)
    requires LogInv(c, s) && b in s.log
    requires t.log == s.log && t.pending == s.pending && t.unpublished == s.unpublished
    requires t.acked == s.acked && t.cleaned == s.cleaned && t.processed == s.processed + {b.id}
    ensures LogInv(c, t)
  {
    forall y | y in t.log
      ensures StoredOrGone(t, y)
    {
      assert StoredOrGone(s, y);
    }
  }

  lemma DeliverSession(s: State, t: State, x: Session)
    requires SessionInv(s, x) && x.inflight != [] && Grown(s, t) && x.inflight[0].id in t.processed
    ensures SessionInv(t, x.(inflight := x.inflight[1..], toAck := Some(x.inflight[0])))
  {
    SessionGrows(s, t, x);
    var y := x.(inflight := x.inflight[1..], toAck := Some(x.inflight[0]));
    DeliverInflight(t, x, y);
    SameChannel(t, x, y);
  }

  lemma DeliverInflight(t: State, x: Session, y: Session)
    requires InflightInv(t, x) && x.inflight != [] && x.inflight[0].id in t.processed
    requires y == x.(inflight := x.inflight[1..], toAck := Some(x.inflight[0]))
    ensures InflightInv(t, y)
  {
    assert x.inflight == [x.inflight[0]] + y.inflight;
    assert x.inflight[0] in x.inflight;
  }

  lemma SameChannel(t: State, x: Session, y: Session)
    requires ChannelInv(t, x)
    requires y.phase == x.phase && y.channel == x.channel
    requires y.subscribedAt == x.subscribedAt && y.frontier == x.frontier
    ensures ChannelInv(t, y)
  {
    if HasChannel(x) {
      forall i | y.subscribedAt <= i < |t.log|
        ensures Channeled(t, y, i)
      {
        assert Channeled(t, x, i);
      }
    }
  }

  lemma AcceptedKeeps(c: Config, s: State, sid: nat, x: Session, store: Store, t: State)
    requires Inv(c, s) && sid in s.sessions && s.sessions[sid] == x && x.inflight != []
    requires Delivers(c, s, x.inflight[0], store, t)
    requires t.sessions == s.sessions[sid := x.(inflight := x.inflight[1..], toAck := Some(x.inflight[0]))]
    ensures Inv(c, t)
  {
    var b := x.inflight[0];
    LogRises(c, s.log);
    assert b in x.inflight && b in s.log[..x.frontier];
    forall a | a in s.log && a.id < b.id
      ensures Settled(s, a.id)
    {
      OlderSettled(s, x, a);
    }
    DeliverLog(c, s, b, t);
    DeliverProcessed(c, s, b, store, t);
    DeliverSession(s, t, x);
    SessionsGrow(s, t, sid, t.sessions[sid]);
  }

  lemma DeliverKeeps(c: Config, s: State, sid: nat, t: State)
    requires Inv(c, s) && Enabled(c, s, Deliver(sid)) && t == Step(c, s, Deliver(sid))
    ensures Inv(c, t)
  {
    match Outcome(c, s, s.sessions[sid].inflight[0]) {
      case Failure =>
        SessionsShrink(s, t);
        SameHistoryKeeps(c, s, t);
      case Success(store) =>
        AcceptedKeeps(c, s, sid, s.sessions[sid], store, t);
    }
  }

  // ---- acknowledgement, disconnects, pruning ----

  /** An acknowledgement deletes the batch that was processed and no other. */
  lemma AckIsExact(c: Config, s: State, b: Batch, id: nat)
    requires LogInv(c, s) && b in s.log && id in AckedIds(s.pending, c.peer, AckTable(b), LastEventId(b))
    ensures id == b.id
  {
    LogRises(c, s.log);
    InLog(c, s.log, b);
    var y :| y in s.pending && y.id == id
          && y.peer == c.peer && y.tableKey == AckTable(b) && LastEventId(y) == LastEventId(b);
    var i :| 0 <= i < |s.log| && s.log[i] == y;
    var j :| 0 <= j < |s.log| && s.log[j] == b;
  }

  lemma DeletedKeeps(c: Config, s: State, gone: set<nat>, t: State)
    requires LogInv(c, s) && ProcessedInv(c, s)
    requires t.log == s.log && t.pending == Without(s.pending, gone) && t.unpublished == s.unpublished
    requires t.processed == s.processed && t.store == s.store && t.applied == s.applied && t.dropped == s.dropped
    requires s.acked <= t.acked <= t.processed && s.cleaned <= t.cleaned
    requires t.acked == s.acked || t.cleaned == s.cleaned
    requires forall b :: b in s.pending && b.id in gone ==> b.id in t.acked || b.id in t.cleaned
    requires forall id :: id in t.acked && id !in s.acked ==> id in gone && id in Ids(s.pending)
    requires forall id :: id in t.cleaned && id !in s.cleaned ==> id in gone && id in Ids(s.pending)
    ensures LogInv(c, t) && ProcessedInv(c, t)
  {
    WithoutMembers(s.pending, gone);
    assert Ids(s.pending) <= Ids(s.log);
    forall id | id in Ids(s.pending)
      ensures id !in s.acked && id !in s.cleaned
    {
      var b :| b in s.pending && b.id == id;
    }
    forall b | b in t.log
      ensures StoredOrGone(t, b)
    {
      assert StoredOrGone(s, b);
    }
    HistoryGrows(c, s, t);
  }

  lemma SendAckKeeps(c: Config, s: State, sid: nat, t: State)
    requires Inv(c, s) && Enabled(c, s, SendAck(sid)) && t == Step(c, s, SendAck(sid))
    ensures Inv(c, t)
  {
    var x := s.sessions[sid];
    var b := x.toAck.value;
    var gone := AckedIds(s.pending, c.peer, AckTable(b), LastEventId(b));
    forall id | id in gone
      ensures id == b.id
    {
      AckIsExact(c, s, b, id);
    }
    DeletedKeeps(c, s, gone, t);
    AckedSession(s, t, x);
    SessionsGrow(s, t, sid, t.sessions[sid]);
  }

  lemma AckedSession(s: State, t: State, x: Session)
    requires SessionInv(s, x) && Grown(s, t)
    ensures SessionInv(t, x.(toAck := None))
  {
    SessionGrows(s, t, x);
    SameChannel(t, x, x.(toAck := None));
    assert InflightInv(t, x.(toAck := None));
  }

  lemma DisconnectKeeps(c: Config, s: State, sid: nat, t: State)
    requires Inv(c, s) && Enabled(c, s, Disconnect(sid)) && t == Step(c, s, Disconnect(sid))
    ensures Inv(c, t)
  {
    SessionsShrink(s, t);
    SameHistoryKeeps(c, s, t);
  }

  lemma PruneKeeps(c: Config, s: State, gone: set<nat>, t: State)
    requires Inv(c, s) && Enabled(c, s, Prune(gone)) && t == Step(c, s, Prune(gone))
    ensures Inv(c, t)
  {
    DeletedKeeps(c, s, gone, t);
    SessionsShrink(s, t);
  }

  // ---- every run ----

  lemma StepKeeps(c: Config, s: State, a: Action)
    requires Inv(c, s) && Enabled(c, s, a)
    ensures Inv(c, Step(c, s, a))
  {
    var t := Step(c, s, a);
    match a {
      case Enqueue(b) => EnqueueKeeps(c, s, b, t);
      case Publish => PublishKeeps(c, s, t);
      case Connect(sid, snapshot) => ConnectKeeps(c, s, sid, snapshot, t);
      case Subscribe(sid) => SubscribeKeeps(c, s, sid, t);
      case SampleLive(sid, now) => SampleLiveKeeps(c, s, sid, now, t);
      case ReplayPage(sid) => ReplayPageKeeps(c, s, sid, t);
      case ForwardLive(sid) => ForwardLiveKeeps(c, s, sid, t);
      case Unsubscribe(sid) => UnsubscribeKeeps(c, s, sid, t);
      case Deliver(sid) => DeliverKeeps(c, s, sid, t);
      case SendAck(sid) => SendAckKeeps(c, s, sid, t);
      case Disconnect(sid) => DisconnectKeeps(c, s, sid, t);
      case Prune(gone) => PruneKeeps(c, s, gone, t);
    }
  }

  lemma {:induction false} RunKeeps(c: Config, s: State, run: seq<Action>)
    requires Inv(c, s) && IsRun(c, s, run)
    ensures Inv(c, After(c, s, run))
    decreases |run|
  {
    if run != [] {
      StepKeeps(c, s, run[0]);
      RunKeeps(c, Step(c, s, run[0]), run[1..]);
    }
  }

  /**
   No loss: after every run, each event of an acknowledged batch was committed by the receiver or is
   excluded by its mode, unless a full live channel dropped the batch.
   */
  lemma NoLoss(c: Config, tables: Tables, run: seq<Action>, b: Batch, e: Event)
    requires IsRun(c, Initial(tables), run)
    requires var s := After(c, Initial(tables), run); b in s.log && b.id in s.acked && e in b.events
    ensures var s := After(c, Initial(tables), run);
            e in s.applied || !ApplyAllowed(c.mode, e.op) || b.id in s.dropped
  {
    assert Inv(c, Initial(tables));
    RunKeeps(c, Initial(tables), run);
  }

  // ---- a batch that the cursors have passed ----

  lemma {:induction false} StaleKept(cursors: Cursors, es: seq<Event>)
    requires forall e :: e in es ==> StaleAt(cursors, e)
    ensures Kept(cursors, es) == []
    decreases |es|
  {
    if es != [] {
      StaleKept(cursors, es[1..]);
    }
  }

  /**
   Why the dropped batches are an exception: once later batches have moved the cursors past a batch,
   its delivery succeeds, and so is acknowledged, without committing any of its events.
   */
  lemma PassedBatchIsAcceptedUnapplied(c: Config, s: State, b: Batch)
    requires WellFormedBatch(b.events) && Rising(b.events)
    requires forall e :: e in b.events ==> AtOrBefore(PositionOf(e), CursorOf(s.store.cursors, FeedOf(e)).last)
    ensures Surviving(c, s, b) == []
    ensures Outcome(c, s, b).Success? && Outcome(c, s, b).value.tables == s.store.tables
  {
    var prepared := Prepared(c.mode, b.txId == "", b.events);
    AllowedRises(c.mode, b.events);
    SortedMembers(Allowed(c.mode, b.events));
    StaleCommit(c.specs, c.mode, s.store, prepared);
  }

  /** A batch of stale events only commits, and changes no table. */
  lemma StaleCommit(specs: Specs, mode: ApplyMode, st: Store, es: seq<Event>)
    requires forall e :: e in es ==> AtOrBefore(PositionOf(e), CursorOf(st.cursors, FeedOf(e)).last)
    ensures Kept(Locked(st.cursors, es), es) == []
    ensures Committed(specs, mode, st, es).Success? && Committed(specs, mode, st, es).value.tables == st.tables
  {
    var locked := Locked(st.cursors, es);
    forall e | e in es
      ensures StaleAt(locked, e)
    {
      StaleIffNotAfter(e, CursorOf(locked, FeedOf(e)));
    }
    StaleKept(locked, es);
  }
}
