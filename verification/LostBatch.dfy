/**
 Why dropped batches are the exception to no loss: a run in which a full live channel drops a batch,
 a later batch is applied, and a new session replays the dropped one, which is acknowledged although
 none of its events was ever applied.
 Sources: internal/service/outbox/service.go:261-276, internal/transport/grpc/server/handlers.go:184-244,
 internal/transport/grpc/client/recv.go:105-147, internal/repository/postgres/state_events.go:81-90.
 */
module LostBatch {
  import opened PrimaryKeys
  import opened Positions
  import opened Rows
  import opened BatchApply
  import opened Commit
  import opened Transactions
  import opened ApplyService
  import opened Outboxes
  import opened FeedProtocol
  import opened FeedSafety

  // ---- the batches: deletes, which the receiver does not allow, then two upserts ----

  const CONFIG: Config := Config(map["t" := TableSpec({}, None, map[])], UpsertMode, "c")
  const START: Store := Store(map["t" := map[]], map[])

  function Mark(n: nat): (id: string)
    ensures |id| == n
  {
    seq(n, i => 'x')
  }

  function EventAt(k: Key, i: nat): Event {
    Event("s", "t", Mark(i), k, if i <= LIVE_BUFFER_SIZE then Delete else Upsert, i, map[])
  }

  function BatchAt(k: Key, i: nat): Batch {
    Batch(i, "c", "t", i, [EventAt(k, i)], i, "")
  }

  /** The batches after one number, up to another. */
  function Batches(k: Key, lo: nat, hi: nat): (bs: seq<Batch>)
    requires lo <= hi
    ensures |bs| == hi - lo && forall j :: 0 <= j < hi - lo ==> bs[j] == BatchAt(k, lo + j + 1)
  {
    seq(hi - lo, j requires 0 <= j < hi - lo => BatchAt(k, lo + j + 1))
  }

  lemma BatchesGrow(k: Key, lo: nat, hi: nat)
    requires lo <= hi
    ensures Batches(k, lo, hi) + [BatchAt(k, hi + 1)] == Batches(k, lo, hi + 1)
  {
  }

  lemma LogIsOrdered(k: Key, n: nat)
    requires k != []
    ensures LogOrdered(CONFIG, Batches(k, 0, n))
  {
    var log := Batches(k, 0, n);
    forall i, j | 0 <= i < j < |log|
      ensures !SameBatchKey(log[i], log[j]) && EventsBefore(log[i], log[j])
    {
      assert |LastEventId(log[i])| == i + 1 && |LastEventId(log[j])| == j + 1;
    }
  }

  lemma IndexAt(k: Key, n: nat, i: nat)
    requires 1 <= i <= n
    ensures IndexOf(Batches(k, 0, n), i) == i - 1
  {
    var log := Batches(k, 0, n);
    assert log[i - 1].id == i;
  }

  // ---- runs ----

  predicate Runs(s: State, run: seq<Action>, t: State) {
    IsRun(CONFIG, s, run) && After(CONFIG, s, run) == t
  }

  lemma {:induction false} RunsJoin(s: State, a: seq<Action>, mid: State, b: seq<Action>, t: State)
    requires Runs(s, a, mid) && Runs(mid, b, t)
    ensures Runs(s, a + b, t)
    decreases |a|
  {
    if a == [] {
      assert a + b == b;
    } else {
      var next, rest := Step(CONFIG, s, a[0]), a[1..];
      assert (a + b)[1..] == rest + b && (a + b)[0] == a[0];
      RunsJoin(next, rest, mid, b, t);
    }
  }

  lemma RunsOne(s: State, a: Action)
    requires Enabled(CONFIG, s, a)
    ensures Runs(s, [a], Step(CONFIG, s, a))
  {
    assert [a][1..] == [];
  }

  lemma RunsTwo(s: State, a: Action, b: Action)
    requires Enabled(CONFIG, s, a) && Enabled(CONFIG, Step(CONFIG, s, a), b)
    ensures Runs(s, [a, b], Step(CONFIG, Step(CONFIG, s, a), b))
  {
    RunsOne(s, a);
    RunsOne(Step(CONFIG, s, a), b);
    RunsJoin(s, [a], Step(CONFIG, s, a), [b], Step(CONFIG, Step(CONFIG, s, a), b));
    assert [a] + [b] == [a, b];
  }

  /** A session that has replayed nothing and is live. */
  function LiveSession(channel: seq<Batch>, inflight: seq<Batch>, frontier: nat): Session {
    Session(Live, None, 0, 0, channel, 0, inflight, None, frontier)
  }

  /** With one live session, one more batch is stored and offered. */
  lemma Enqueuing(s: State, b: Batch, x: Session)
    requires s.unpublished.None? && LogOrdered(CONFIG, s.log + [b]) && b.createdAt > s.watermark
    requires s.sessions == map[1 := x] && HasChannel(x)
    ensures Runs(s, [Enqueue(b), Publish],
                 s.(log := s.log + [b], pending := s.pending + [b], sessions := map[1 := Offered(x, b)],
                    dropped := s.dropped + if Drops(x) then {b.id} else {}))
  {
    var mid := Step(CONFIG, s, Enqueue(b));
    var t := Step(CONFIG, mid, Publish);
    RunsTwo(s, Enqueue(b), Publish);
    assert t.sessions == map[1 := Offered(x, b)];
    assert (exists sid :: sid in mid.sessions && Drops(mid.sessions[sid])) <==> Drops(x) by {
      assert 1 in mid.sessions;
    }
  }

  /** A delivery that commits, and its acknowledgement. */
  lemma Delivering(s: State, sid: nat, x: Session, b: Batch, rest: seq<Batch>, store: Store, gone: set<nat>)
    requires sid in s.sessions && s.sessions[sid] == x && x.inflight == [b] + rest && x.toAck.None?
    requires Outcome(CONFIG, s, b) == Success(store)
    requires gone == AckedIds(s.pending, "c", AckTable(b), LastEventId(b))
    ensures Runs(s, [Deliver(sid), SendAck(sid)],
                 s.(store := store, processed := s.processed + {b.id},
                    applied := s.applied + (set e | e in Surviving(CONFIG, s, b)),
                    pending := Without(s.pending, gone), acked := s.acked + gone,
                    sessions := s.sessions[sid := x.(inflight := rest)]))
  {
    var t := Step(CONFIG, Step(CONFIG, s, Deliver(sid)), SendAck(sid));
    RunsTwo(s, Deliver(sid), SendAck(sid));
    assert x.inflight[1..] == rest;
    assert t.sessions == s.sessions[sid := x.(inflight := rest)];
  }

  // ---- filling the channel ----

  function Filled(k: Key, n: nat): State {
    State(Batches(k, 0, n), Batches(k, 0, n), None, 0, {}, {}, {}, {}, START, {},
          map[1 := LiveSession(Batches(k, 0, n), [], 0)])
  }

  const OPENING: seq<Action> := [Connect(1, None), Subscribe(1)] + [SampleLive(1, 0), ReplayPage(1)]

  lemma Opening(k: Key)
    ensures Runs(Initial(START.tables), OPENING, Filled(k, 0))
  {
    var s := Initial(START.tables);
    var s1 := Step(CONFIG, s, Connect(1, None));
    var s2 := Step(CONFIG, s1, Subscribe(1));
    var s3 := Step(CONFIG, s2, SampleLive(1, 0));
    var s4 := Step(CONFIG, s3, ReplayPage(1));
    RunsTwo(s, Connect(1, None), Subscribe(1));
    RunsTwo(s2, SampleLive(1, 0), ReplayPage(1));
    RunsJoin(s, [Connect(1, None), Subscribe(1)], s2, [SampleLive(1, 0), ReplayPage(1)], s4);
    assert s4.sessions[1] == LiveSession([], [], 0);
    assert s4.sessions == map[1 := LiveSession([], [], 0)];
  }

  lemma {:induction false} Filling(k: Key, n: nat) returns (run: seq<Action>)
    requires k != [] && n <= LIVE_BUFFER_SIZE
    ensures Runs(Filled(k, 0), run, Filled(k, n))
  {
    if n == 0 {
      run := [];
    } else {
      var before := Filling(k, n - 1);
      BatchesGrow(k, 0, n - 1);
      LogIsOrdered(k, n);
      Enqueuing(Filled(k, n - 1), BatchAt(k, n), LiveSession(Batches(k, 0, n - 1), [], 0));
      run := before + [Enqueue(BatchAt(k, n)), Publish];
      RunsJoin(Filled(k, 0), before, Filled(k, n - 1), [Enqueue(BatchAt(k, n)), Publish], Filled(k, n));
    }
  }

  // ---- one batch dropped, the others forwarded ----

  function Forwarded(k: Key, n: nat): State
    requires n <= LIVE_BUFFER_SIZE
  {
    var log := Batches(k, 0, LIVE_BUFFER_SIZE + 1);
    State(log, log, None, 0, {}, {}, {LIVE_BUFFER_SIZE + 1}, {}, START, {},
          map[1 := LiveSession(Batches(k, n, LIVE_BUFFER_SIZE), Batches(k, 0, n), n)])
  }

  lemma Dropping(k: Key)
    requires k != []
    ensures Runs(Filled(k, LIVE_BUFFER_SIZE), [Enqueue(BatchAt(k, LIVE_BUFFER_SIZE + 1)), Publish], Forwarded(k, 0))
  {
    var n := LIVE_BUFFER_SIZE;
    BatchesGrow(k, 0, n);
    LogIsOrdered(k, n + 1);
    assert Batches(k, 0, 0) == [];
    Enqueuing(Filled(k, n), BatchAt(k, n + 1), LiveSession(Batches(k, 0, n), [], 0));
  }

  lemma ForwardingOne(k: Key, n: nat)
    requires n < LIVE_BUFFER_SIZE
    ensures Runs(Forwarded(k, n), [ForwardLive(1)], Forwarded(k, n + 1))
  {
    var s := Forwarded(k, n);
    var x := s.sessions[1];
    RunsOne(s, ForwardLive(1));
    IndexAt(k, LIVE_BUFFER_SIZE + 1, n + 1);
    BatchesGrow(k, 0, n);
    assert x.channel[0] == BatchAt(k, n + 1) && x.channel[1..] == Batches(k, n + 1, LIVE_BUFFER_SIZE);
    assert Step(CONFIG, s, ForwardLive(1)).sessions[1] == Forwarded(k, n + 1).sessions[1];
    assert Step(CONFIG, s, ForwardLive(1)).sessions == Forwarded(k, n + 1).sessions;
  }

  lemma {:induction false} Forwarding(k: Key, n: nat) returns (run: seq<Action>)
    requires n <= LIVE_BUFFER_SIZE
    ensures Runs(Forwarded(k, 0), run, Forwarded(k, n))
  {
    if n == 0 {
      run := [];
    } else {
      var before := Forwarding(k, n - 1);
      ForwardingOne(k, n - 1);
      run := before + [ForwardLive(1)];
      RunsJoin(Forwarded(k, 0), before, Forwarded(k, n - 1), [ForwardLive(1)], Forwarded(k, n));
    }
  }

  // ---- a later batch, and the deliveries ----

  function FirstIds(k: Key, n: nat): set<nat> {
    Ids(Batches(k, 0, n))
  }

  lemma OneMoreId(k: Key, n: nat)
    ensures FirstIds(k, n + 1) == FirstIds(k, n) + {n + 1}
  {
    BatchesGrow(k, 0, n);
  }

  /** What is still to be delivered. */
  function Remaining(k: Key, n: nat): seq<Batch>
    requires n <= LIVE_BUFFER_SIZE
  {
    Batches(k, n, LIVE_BUFFER_SIZE) + [BatchAt(k, LIVE_BUFFER_SIZE + 2)]
  }

  function Delivered(k: Key, n: nat): State
    requires n <= LIVE_BUFFER_SIZE
  {
    var last := LIVE_BUFFER_SIZE + 2;
    State(Batches(k, 0, last), Batches(k, n, last), None, 0, FirstIds(k, n), {}, {LIVE_BUFFER_SIZE + 1},
          FirstIds(k, n), START, {},
          map[1 := LiveSession([], Remaining(k, n), last)])
  }

  /** The later batch is offered: there is room again. */
  function LaterOffered(k: Key): State {
    var n, last := LIVE_BUFFER_SIZE, LIVE_BUFFER_SIZE + 2;
    State(Batches(k, 0, last), Batches(k, 0, last), None, 0, {}, {}, {n + 1}, {}, START, {},
          map[1 := LiveSession([BatchAt(k, last)], Batches(k, 0, n), n)])
  }

  lemma LaterEnqueued(k: Key)
    requires k != []
    ensures Runs(Forwarded(k, LIVE_BUFFER_SIZE), [Enqueue(BatchAt(k, LIVE_BUFFER_SIZE + 2)), Publish], LaterOffered(k))
  {
    var n, s := LIVE_BUFFER_SIZE, Forwarded(k, LIVE_BUFFER_SIZE);
    var b := BatchAt(k, n + 2);
    BatchesGrow(k, 0, n + 1);
    LogIsOrdered(k, n + 2);
    Enqueuing(s, b, LiveSession(Batches(k, n, n), Batches(k, 0, n), n));
    assert Batches(k, n, n) + [b] == [b] && s.dropped + {} == s.dropped;
  }

  lemma LaterForwarded(k: Key)
    ensures Runs(LaterOffered(k), [ForwardLive(1)], Delivered(k, 0))
  {
    var n, s := LIVE_BUFFER_SIZE, LaterOffered(k);
    RunsOne(s, ForwardLive(1));
    IndexAt(k, n + 2, n + 2);
    assert FirstIds(k, 0) == {} && [BatchAt(k, n + 2)][1..] == [];
    assert Step(CONFIG, s, ForwardLive(1)).sessions == Delivered(k, 0).sessions;
  }

  /** A delete is accepted without effect. */
  lemma DeleteDoesNothing(k: Key, s: State, i: nat)
    requires k != [] && 1 <= i <= LIVE_BUFFER_SIZE
    ensures Outcome(CONFIG, s, BatchAt(k, i)) == Success(s.store)
    ensures Surviving(CONFIG, s, BatchAt(k, i)) == []
  {
    var es := [EventAt(k, i)];
    assert es[..0] == [];
    assert Allowed(UpsertMode, es) == [];
    SortedMembers([]);
    assert Sorted([]) == [];
    CommitNothing(CONFIG.specs, CONFIG.mode, s.store);
  }

  lemma {:induction false} WithoutFirst(k: Key, lo: nat, hi: nat)
    requires lo < hi
    ensures Without(Batches(k, lo, hi), {lo + 1}) == Batches(k, lo + 1, hi)
    decreases hi
  {
    BatchesGrow(k, lo, hi - 1);
    assert Batches(k, lo, hi)[..hi - lo - 1] == Batches(k, lo, hi - 1);
    if lo == hi - 1 {
      assert Batches(k, lo, lo) == [];
    } else {
      WithoutFirst(k, lo, hi - 1);
      BatchesGrow(k, lo + 1, hi - 1);
    }
  }

  lemma AcksOne(k: Key, rows: seq<Batch>, i: nat)
    requires forall b :: b in rows ==> b == BatchAt(k, b.id)
    requires BatchAt(k, i) in rows
    ensures AckedIds(rows, "c", AckTable(BatchAt(k, i)), LastEventId(BatchAt(k, i))) == {i}
  {
    forall b | b in rows
      ensures LastEventId(b) == LastEventId(BatchAt(k, i)) <==> b.id == i
    {
      assert b == BatchAt(k, b.id);
      assert |LastEventId(b)| == b.id;
    }
  }

  lemma RemainingNext(k: Key, n: nat)
    requires n < LIVE_BUFFER_SIZE
    ensures Remaining(k, n) == [BatchAt(k, n + 1)] + Remaining(k, n + 1)
  {
  }

  lemma AcksFirst(k: Key, n: nat, hi: nat)
    requires n < hi
    ensures AckedIds(Batches(k, n, hi), "c", AckTable(BatchAt(k, n + 1)), LastEventId(BatchAt(k, n + 1))) == {n + 1}
    ensures Without(Batches(k, n, hi), {n + 1}) == Batches(k, n + 1, hi)
  {
    assert Batches(k, n, hi)[0] == BatchAt(k, n + 1);
    AcksOne(k, Batches(k, n, hi), n + 1);
    WithoutFirst(k, n, hi);
  }

  lemma DeliveringOne(k: Key, n: nat)
    requires k != [] && n < LIVE_BUFFER_SIZE
    ensures Runs(Delivered(k, n), [Deliver(1), SendAck(1)], Delivered(k, n + 1))
  {
    var s, b, rest := Delivered(k, n), BatchAt(k, n + 1), Remaining(k, n + 1);
    RemainingNext(k, n);
    AcksFirst(k, n, LIVE_BUFFER_SIZE + 2);
    DeleteDoesNothing(k, s, n + 1);
    Delivering(s, 1, s.sessions[1], b, rest, START, {n + 1});
    DeliveredNext(k, n, set e | e in Surviving(CONFIG, s, b));
  }

  lemma DeliveredNext(k: Key, n: nat, surviving: set<Event>)
    requires n < LIVE_BUFFER_SIZE && surviving == {}
    ensures var s := Delivered(k, n);
            s.(store := START, processed := s.processed + {n + 1}, applied := s.applied + surviving,
               pending := Batches(k, n + 1, LIVE_BUFFER_SIZE + 2), acked := s.acked + {n + 1},
               sessions := s.sessions[1 := s.sessions[1].(inflight := Remaining(k, n + 1))])
            == Delivered(k, n + 1)
  {
    OneMoreId(k, n);
    assert Delivered(k, n).sessions[1].(inflight := Remaining(k, n + 1)) == Delivered(k, n + 1).sessions[1];
  }

  lemma {:induction false} Deliveries(k: Key, n: nat) returns (run: seq<Action>)
    requires k != [] && n <= LIVE_BUFFER_SIZE
    ensures Runs(Delivered(k, 0), run, Delivered(k, n))
  {
    if n == 0 {
      run := [];
    } else {
      var before := Deliveries(k, n - 1);
      DeliveringOne(k, n - 1);
      run := before + [Deliver(1), SendAck(1)];
      RunsJoin(Delivered(k, 0), before, Delivered(k, n - 1), [Deliver(1), SendAck(1)], Delivered(k, n));
    }
  }

  // ---- the later batch is applied ----

  /** An upsert commits, and the cursor is then at or beyond it. */
  lemma UpsertCommits(k: Key, i: nat) returns (store: Store)
    requires k != [] && i > LIVE_BUFFER_SIZE
    ensures Applied(CONFIG.specs, CONFIG.mode, true, START, [EventAt(k, i)]) == Success(store)
    ensures AtOrBefore(Position(i, k), CursorOf(store.cursors, Feed("s", "t")).last)
  {
    var e := EventAt(k, i);
    var es := [e];
    PreparedIsUpsert(k, i);
    SingleIsSafe(e);
    CommitIsOneByOne(CONFIG.specs, CONFIG.mode, "s", START, es);
    CommitMovesForward(CONFIG.specs, CONFIG.mode, START, es);
    store := Committed(CONFIG.specs, CONFIG.mode, START, es).value;
    assert e in es;
    StaleIffNotAfter(e, CursorOf(store.cursors, FeedOf(e)));
  }

  lemma PreparedIsUpsert(k: Key, i: nat)
    requires i > LIVE_BUFFER_SIZE
    ensures Prepared(UpsertMode, true, [EventAt(k, i)]) == [EventAt(k, i)]
  {
    var es := [EventAt(k, i)];
    assert es[..0] == [];
    assert Allowed(UpsertMode, es) == es;
    SortedIsStableSort(es);
    StableSortUnique(Sorted(es), es);
  }

  lemma SingleIsSafe(e: Event)
    ensures SafeTransaction(e.peer, [e])
  {
    forall name: string
      ensures BatchSafe(EventsOf([e], Feed(e.peer, name)))
    {
      assert [e][..0] == [];
      assert EventsOf([e], Feed(e.peer, name)) == [e] || EventsOf([e], Feed(e.peer, name)) == [];
    }
  }

  /** All but the dropped batch delivered and acknowledged, the first session gone quiet. */
  predicate Passed(k: Key, s: State) {
    var n := LIVE_BUFFER_SIZE;
    && s.log == Batches(k, 0, n + 2) && s.pending == [BatchAt(k, n + 1)] && s.unpublished.None? && s.watermark == 0
    && s.dropped == {n + 1} && s.cleaned == {} && s.sessions.Keys == {1} && EventAt(k, n + 1) !in s.applied
    && AtOrBefore(Position(n + 2, k), CursorOf(s.store.cursors, Feed("s", "t")).last)
  }

  lemma AcksSecond(k: Key, n: nat)
    ensures AckedIds(Batches(k, n, n + 2), "c", AckTable(BatchAt(k, n + 2)), LastEventId(BatchAt(k, n + 2))) == {n + 2}
    ensures Without(Batches(k, n, n + 2), {n + 2}) == [BatchAt(k, n + 1)]
  {
    var rows := Batches(k, n, n + 2);
    assert rows[1] == BatchAt(k, n + 2);
    AcksOne(k, rows, n + 2);
    assert rows[..1] == [BatchAt(k, n + 1)] && [BatchAt(k, n + 1)][..0] == [];
    assert Without([BatchAt(k, n + 1)], {n + 2}) == [BatchAt(k, n + 1)];
  }

  lemma DeliveringLater(k: Key) returns (t: State)
    requires k != []
    ensures Runs(Delivered(k, LIVE_BUFFER_SIZE), [Deliver(1), SendAck(1)], t) && Passed(k, t)
  {
    var n := LIVE_BUFFER_SIZE;
    var s, b := Delivered(k, n), BatchAt(k, n + 2);
    assert Remaining(k, n) == [b] + [];
    var store := UpsertCommits(k, n + 2);
    AcksSecond(k, n);
    Delivering(s, 1, s.sessions[1], b, [], store, {n + 2});
    OnlyLaterSurvives(k, s);
    t := After(CONFIG, s, [Deliver(1), SendAck(1)]);
  }

  lemma OnlyLaterSurvives(k: Key, s: State)
    requires s.store == START
    ensures EventAt(k, LIVE_BUFFER_SIZE + 1) !in Surviving(CONFIG, s, BatchAt(k, LIVE_BUFFER_SIZE + 2))
  {
    var e := EventAt(k, LIVE_BUFFER_SIZE + 2);
    PreparedIsUpsert(k, LIVE_BUFFER_SIZE + 2);
    KeptIn(Locked(START.cursors, [e]), [e]);
    assert EventAt(k, LIVE_BUFFER_SIZE + 1).version != e.version;
  }

  // ---- a new session replays the dropped batch ----

  const REOPENING: seq<Action> :=
    [Connect(2, None), Subscribe(2)] + [SampleLive(2, LIVE_BUFFER_SIZE + 2), ReplayPage(2)]

  lemma ReplayedPage(k: Key, i: nat, time: int)
    requires 0 < i <= time
    ensures Page([BatchAt(k, i)], Window("c", None, Some(time)), 0, REPLAY_PAGE_SIZE) == [BatchAt(k, i)]
  {
    assert [BatchAt(k, i)][..0] == [];
    assert Listed([BatchAt(k, i)], Window("c", None, Some(time)), 0) == [BatchAt(k, i)];
  }

  lemma Reopening(k: Key, s: State) returns (t: State)
    requires Passed(k, s)
    ensures Runs(s, REOPENING, t)
    ensures 2 in t.sessions && t.sessions[2].inflight == [BatchAt(k, LIVE_BUFFER_SIZE + 1)] && t.sessions[2].toAck.None?
    ensures t.store == s.store && t.applied == s.applied && t.pending == s.pending && t.dropped == s.dropped
    ensures t.cleaned == s.cleaned
  {
    var now := LIVE_BUFFER_SIZE + 2;
    var s1 := Step(CONFIG, s, Connect(2, None));
    var s2 := Step(CONFIG, s1, Subscribe(2));
    var s3 := Step(CONFIG, s2, SampleLive(2, now));
    t := Step(CONFIG, s3, ReplayPage(2));
    RunsTwo(s, Connect(2, None), Subscribe(2));
    RunsTwo(s2, SampleLive(2, now), ReplayPage(2));
    RunsJoin(s, [Connect(2, None), Subscribe(2)], s2, [SampleLive(2, now), ReplayPage(2)], t);
    ReplayedPage(k, LIVE_BUFFER_SIZE + 1, now);
  }

  lemma DeliveringDropped(k: Key, s: State) returns (t: State)
    requires k != [] && 2 in s.sessions && s.sessions[2].toAck.None? && s.pending == [BatchAt(k, LIVE_BUFFER_SIZE + 1)]
    requires s.sessions[2].inflight == [BatchAt(k, LIVE_BUFFER_SIZE + 1)]
    requires AtOrBefore(Position(LIVE_BUFFER_SIZE + 2, k), CursorOf(s.store.cursors, Feed("s", "t")).last)
    ensures Runs(s, [Deliver(2), SendAck(2)], t)
    ensures t.applied == s.applied && t.dropped == s.dropped && LIVE_BUFFER_SIZE + 1 in t.acked
    ensures t.store.tables == s.store.tables && t.cleaned == s.cleaned
  {
    var n := LIVE_BUFFER_SIZE;
    var b, e := BatchAt(k, n + 1), EventAt(k, n + 1);
    assert AtOrBefore(PositionOf(e), CursorOf(s.store.cursors, FeedOf(e)).last);
    PassedBatchIsAcceptedUnapplied(CONFIG, s, b);
    AcksOne(k, s.pending, n + 1);
    assert s.sessions[2].inflight == [b] + [];
    Delivering(s, 2, s.sessions[2], b, [], Outcome(CONFIG, s, b).value, {n + 1});
    assert (set d | d in Surviving(CONFIG, s, b)) == {};
    t := After(CONFIG, s, [Deliver(2), SendAck(2)]);
  }

  // ---- the whole run ----

  lemma UpToDelivered(k: Key) returns (run: seq<Action>)
    requires k != []
    ensures Runs(Initial(START.tables), run, Delivered(k, LIVE_BUFFER_SIZE))
  {
    var n, s := LIVE_BUFFER_SIZE, Initial(START.tables);
    Opening(k);
    var fill := Filling(k, n);
    RunsJoin(s, OPENING, Filled(k, 0), fill, Filled(k, n));
    run := OPENING + fill;
    Dropping(k);
    var drop := [Enqueue(BatchAt(k, n + 1)), Publish];
    RunsJoin(s, run, Filled(k, n), drop, Forwarded(k, 0));
    run := run + drop;
    var forward := Forwarding(k, n);
    RunsJoin(s, run, Forwarded(k, 0), forward, Forwarded(k, n));
    run := run + forward;
    LaterEnqueued(k);
    LaterForwarded(k);
    var later := [Enqueue(BatchAt(k, n + 2)), Publish];
    RunsJoin(s, run, Forwarded(k, n), later, LaterOffered(k));
    RunsJoin(s, run + later, LaterOffered(k), [ForwardLive(1)], Delivered(k, 0));
    run := run + later + [ForwardLive(1)];
    var deliver := Deliveries(k, n);
    RunsJoin(s, run, Delivered(k, 0), deliver, Delivered(k, n));
    run := run + deliver;
  }

  /** Acknowledged, dropped and not pruned, with an allowed event that was not applied. */
  predicate AckedUnapplied(s: State, b: Batch) {
    b.id in s.acked && b.id in s.dropped && b.id !in s.cleaned && !AllApplied(CONFIG, s, b)
  }

  lemma FromPassed(k: Key, s: State) returns (run: seq<Action>, t: State)
    requires k != [] && Passed(k, s)
    ensures Runs(s, run, t) && AckedUnapplied(t, BatchAt(k, LIVE_BUFFER_SIZE + 1))
  {
    var mid := Reopening(k, s);
    t := DeliveringDropped(k, mid);
    RunsJoin(s, REOPENING, mid, [Deliver(2), SendAck(2)], t);
    run := REOPENING + [Deliver(2), SendAck(2)];
    assert EventAt(k, LIVE_BUFFER_SIZE + 1) in BatchAt(k, LIVE_BUFFER_SIZE + 1).events;
  }

  /**
   No loss does not hold for dropped batches: a run from the start that ends with a batch dropped by a
   full live channel, acknowledged and never pruned, whose one event the receiver allows and has never
   applied.
   */
  lemma DroppedBatchIsLost(k: Key) returns (run: seq<Action>, b: Batch)
    requires k != []
    ensures IsRun(CONFIG, Initial(START.tables), run)
    ensures AckedUnapplied(After(CONFIG, Initial(START.tables), run), b)
  {
    var s, full := Initial(START.tables), Delivered(k, LIVE_BUFFER_SIZE);
    var before := UpToDelivered(k);
    var mid := DeliveringLater(k);
    var after, t := FromPassed(k, mid);
    RunsJoin(s, before, full, [Deliver(1), SendAck(1)], mid);
    RunsJoin(s, before + [Deliver(1), SendAck(1)], mid, after, t);
    run, b := before + [Deliver(1), SendAck(1)] + after, BatchAt(k, LIVE_BUFFER_SIZE + 1);
  }
}
