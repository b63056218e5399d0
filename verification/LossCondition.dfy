/**
 When exactly an event is lost. A batch is received once for the first time; an event of it that the
 receiver allows is applied then, or never, and it is applied if and only if no later batch with an
 event of its feed was processed before.
 Sources: internal/transport/grpc/client/recv.go:105-147, internal/repository/postgres/state_events.go:25-90,
 internal/service/outbox/service.go:261-276.
 */
module LossCondition {
  import opened Positions
  import opened Rows
  import opened Commit
  import opened ApplyService
  import opened Outboxes
  import opened FeedProtocol
  import opened FeedSafety

  // ---- exact cursors ----

  /** An allowed event of a processed batch. */
  predicate Received(c: Config, s: State, b: Batch, e: Event) {
    b in s.log && b.id in s.processed && e in b.events && ApplyAllowed(c.mode, e.op)
  }

  /** A cursor is where it started, or at an allowed event of a processed batch. */
  ghost predicate CursorAt(c: Config, s: State, f: Feed) {
    || CursorOf(s.store.cursors, f).last == INITIAL_CURSOR.last
    || exists b, e :: Received(c, s, b, e) && FeedOf(e) == f && CursorOf(s.store.cursors, f).last == PositionOf(e)
  }

  ghost predicate Exact(c: Config, s: State) {
    && (forall f :: CursorAt(c, s, f))
    && (forall b, e :: Received(c, s, b, e) ==> !IsBeyond(s.store.cursors, e))
    && (forall e :: e in s.applied ==> exists b :: Received(c, s, b, e))
  }

  /** Nothing that the exact cursors speak of has changed. */
  ghost predicate SameReceiver(c: Config, s: State, t: State) {
    && t.store == s.store && t.applied == s.applied
    && forall b, e :: Received(c, t, b, e) <==> Received(c, s, b, e)
  }

  lemma SameReceiverKeeps(c: Config, s: State, t: State)
    requires Exact(c, s) && SameReceiver(c, s, t)
    ensures Exact(c, t)
  {
    forall f
      ensures CursorAt(c, t, f)
    {
      assert CursorAt(c, s, f);
    }
    forall e | e in t.applied
      ensures exists b :: Received(c, t, b, e)
    {
      var b :| Received(c, s, b, e);
      assert Received(c, t, b, e);
    }
  }

  lemma EnqueueKeepsReceiver(c: Config, s: State, b: Batch)
    requires LogInv(c, s) && Enabled(c, s, Enqueue(b))
    ensures SameReceiver(c, s, Step(c, s, Enqueue(b)))
  {
    EnqueueIsNew(c, s, b);
    assert b.id !in Ids(s.log);
  }

  /** A batch's events are behind the cursors once it is delivered, and what was behind stays. */
  lemma CommitPasses(c: Config, s: State, b: Batch, store: Store, e: Event)
    requires Rising(b.events) && Outcome(c, s, b) == Success(store) && Beyond(map[], [e])
    requires !IsBeyond(s.store.cursors, e) || (e in b.events && ApplyAllowed(c.mode, e.op))
    ensures !IsBeyond(store.cursors, e)
  {
    var prepared, f := Prepared(c.mode, b.txId == "", b.events), FeedOf(e);
    AllowedRises(c.mode, b.events);
    SortedMembers(Allowed(c.mode, b.events));
    CommitMovesForward(c.specs, c.mode, s.store, prepared);
    var was, now := CursorOf(s.store.cursors, f), CursorOf(store.cursors, f);
    StaleIffNotAfter(e, was);
    StaleIffNotAfter(e, now);
    assert e in [e] && CursorOf(map[], f) == INITIAL_CURSOR;
    if !IsBeyond(s.store.cursors, e) {
      assert f in s.store.cursors;
      BeforeTransitive(PositionOf(e), was.last, now.last);
    }
  }

  lemma CommitMovesTo(c: Config, s: State, b: Batch, store: Store, f: Feed)
    requires Rising(b.events) && Outcome(c, s, b) == Success(store)
    ensures || CursorOf(store.cursors, f).last == CursorOf(s.store.cursors, f).last
            || exists e :: e in b.events && ApplyAllowed(c.mode, e.op) && FeedOf(e) == f
                        && CursorOf(store.cursors, f).last == PositionOf(e)
  {
    var prepared := Prepared(c.mode, b.txId == "", b.events);
    var locked := Locked(s.store.cursors, prepared);
    AllowedRises(c.mode, b.events);
    SortedMembers(Allowed(c.mode, b.events));
    AdvancedFrom(locked, prepared, f);
    assert store.cursors == Advanced(locked, prepared);
  }

  lemma ReceivedAfter(c: Config, s: State, b: Batch, store: Store, t: State, y: Batch, e: Event)
    requires LogInv(c, s) && b in s.log && Delivers(c, s, b, store, t)
    ensures Received(c, t, y, e) <==> Received(c, s, y, e) || (y == b && e in b.events && ApplyAllowed(c.mode, e.op))
  {
    LogRises(c, s.log);
    if y in s.log && y.id == b.id {
      SameId(s.log, y, b);
    }
  }

  lemma DeliverCursorAt(c: Config, s: State, b: Batch, store: Store, t: State, f: Feed)
    requires LogInv(c, s) && Exact(c, s) && b in s.log && Delivers(c, s, b, store, t)
    ensures CursorAt(c, t, f)
  {
    InLog(c, s.log, b);
    CommitMovesTo(c, s, b, store, f);
    assert CursorAt(c, s, f);
    if CursorOf(store.cursors, f).last == CursorOf(s.store.cursors, f).last {
      if y, e :| Received(c, s, y, e) && FeedOf(e) == f && CursorOf(s.store.cursors, f).last == PositionOf(e) {
        assert Received(c, t, y, e);
      }
    } else {
      var e :| e in b.events && ApplyAllowed(c.mode, e.op) && FeedOf(e) == f
            && CursorOf(store.cursors, f).last == PositionOf(e);
      assert Received(c, t, b, e);
    }
  }

  lemma DeliverPasses(c: Config, s: State, b: Batch, store: Store, t: State, y: Batch, e: Event)
    requires LogInv(c, s) && Exact(c, s) && b in s.log && Delivers(c, s, b, store, t) && Received(c, t, y, e)
    ensures !IsBeyond(t.store.cursors, e)
  {
    InLog(c, s.log, b);
    InLog(c, s.log, y);
    ReceivedAfter(c, s, b, store, t, y, e);
    CommitPasses(c, s, b, store, e);
  }

  lemma DeliverAppliedFrom(c: Config, s: State, b: Batch, store: Store, t: State, e: Event)
    requires LogInv(c, s) && Exact(c, s) && b in s.log && Delivers(c, s, b, store, t) && e in t.applied
    ensures exists y :: Received(c, t, y, e)
  {
    InLog(c, s.log, b);
    if e in s.applied {
      var y :| Received(c, s, y, e);
      assert Received(c, t, y, e);
    } else {
      SurvivingIff(c, s, b, e);
      assert Received(c, t, b, e);
    }
  }

  lemma DeliverKeepsExact(c: Config, s: State, b: Batch, store: Store, t: State)
    requires LogInv(c, s) && Exact(c, s) && b in s.log && Delivers(c, s, b, store, t)
    ensures Exact(c, t)
  {
    forall f
      ensures CursorAt(c, t, f)
    {
      DeliverCursorAt(c, s, b, store, t, f);
    }
    forall y, e | Received(c, t, y, e)
      ensures !IsBeyond(t.store.cursors, e)
    {
      DeliverPasses(c, s, b, store, t, y, e);
    }
    forall e | e in t.applied
      ensures exists y :: Received(c, t, y, e)
    {
      DeliverAppliedFrom(c, s, b, store, t, e);
    }
  }

  /** What a session is to receive next is in the log. */
  lemma NextInLog(c: Config, s: State, sid: nat)
    requires Inv(c, s) && Enabled(c, s, Deliver(sid))
    ensures s.sessions[sid].inflight[0] in s.log
  {
    var x := s.sessions[sid];
    assert SessionInv(s, x) && x.inflight[0] in x.inflight;
  }

  lemma OtherKeepsReceiver(c: Config, s: State, a: Action)
    requires Enabled(c, s, a) && !a.Enqueue?
    requires a.Deliver? ==> Outcome(c, s, s.sessions[a.sid].inflight[0]).Failure?
    ensures SameReceiver(c, s, Step(c, s, a))
  {
    var t := Step(c, s, a);
    assert t.log == s.log && t.processed == s.processed && t.store == s.store && t.applied == s.applied;
  }

  lemma ExactStep(c: Config, s: State, a: Action)
    requires Inv(c, s) && Exact(c, s) && Enabled(c, s, a)
    ensures Exact(c, Step(c, s, a))
  {
    var t := Step(c, s, a);
    if a.Enqueue? {
      EnqueueKeepsReceiver(c, s, a.batch);
      SameReceiverKeeps(c, s, t);
    } else if a.Deliver? && Outcome(c, s, s.sessions[a.sid].inflight[0]).Success? {
      var b := s.sessions[a.sid].inflight[0];
      NextInLog(c, s, a.sid);
      DeliverKeepsExact(c, s, b, Outcome(c, s, b).value, t);
    } else {
      OtherKeepsReceiver(c, s, a);
      SameReceiverKeeps(c, s, t);
    }
  }

  // ---- the condition ----

  /** A later batch with an allowed event of the same feed was processed. */
  ghost predicate Overtaken(c: Config, s: State, b: Batch, e: Event) {
    exists y, d :: Received(c, s, y, d) && y.id > b.id && FeedOf(d) == FeedOf(e)
  }

  /** An event of an unprocessed batch is beyond its cursor unless it was overtaken. */
  lemma BeyondIffNotOvertaken(c: Config, s: State, b: Batch, e: Event)
    requires LogInv(c, s) && Exact(c, s) && b in s.log && b.id !in s.processed && e in b.events
    ensures IsBeyond(s.store.cursors, e) <==> !Overtaken(c, s, b, e)
  {
    var f := FeedOf(e);
    var last := CursorOf(s.store.cursors, f).last;
    InLog(c, s.log, b);
    if y, d :| Received(c, s, y, d) && y.id > b.id && FeedOf(d) == f {
      EventsRise(c, s.log, b, y, e, d);
      BeforeTrichotomy(last, PositionOf(d));
      BeforeTrichotomy(last, PositionOf(e));
      BeforeTransitive(PositionOf(e), PositionOf(d), last);
    }
    assert CursorAt(c, s, f);
    if last == INITIAL_CURSOR.last {
      assert CursorOf(map[], f) == INITIAL_CURSOR;
    } else {
      var y, d :| Received(c, s, y, d) && FeedOf(d) == f && last == PositionOf(d);
      if y.id < b.id {
        EventsRise(c, s.log, y, b, d, e);
      } else {
        assert y.id > b.id;
      }
    }
  }

  /** An event of an unprocessed batch was not applied before. */
  lemma NotAppliedBefore(c: Config, s: State, b: Batch, e: Event)
    requires LogInv(c, s) && Exact(c, s) && b in s.log && b.id !in s.processed && e in b.events
    ensures e !in s.applied
  {
    if e in s.applied {
      var y :| Received(c, s, y, e);
      BeforeTrichotomy(PositionOf(e), PositionOf(e));
      if y.id < b.id {
        EventsRise(c, s.log, y, b, e, e);
      } else {
        EventsRise(c, s.log, b, y, e, e);
      }
    }
  }

  /** Once its batch is processed, an event is applied or stays unapplied for good. */
  lemma DecidedStep(c: Config, s: State, a: Action, b: Batch, e: Event)
    requires Inv(c, s) && Exact(c, s) && Enabled(c, s, a) && Received(c, s, b, e)
    ensures var t := Step(c, s, a); Received(c, t, b, e) && (e in t.applied <==> e in s.applied)
  {
    if a.Deliver? && Outcome(c, s, s.sessions[a.sid].inflight[0]).Success? {
      var y := s.sessions[a.sid].inflight[0];
      NextInLog(c, s, a.sid);
      InLog(c, s.log, y);
      SurvivingIff(c, s, y, e);
    }
  }

  lemma {:induction false} DecidedForGood(c: Config, s: State, run: seq<Action>, b: Batch, e: Event)
    requires Inv(c, s) && Exact(c, s) && IsRun(c, s, run) && Received(c, s, b, e)
    ensures e in After(c, s, run).applied <==> e in s.applied
    decreases |run|
  {
    if run != [] {
      DecidedStep(c, s, run[0], b, e);
      StepKeeps(c, s, run[0]);
      ExactStep(c, s, run[0]);
      DecidedForGood(c, Step(c, s, run[0]), run[1..], b, e);
    }
  }

  // ---- every run ----

  lemma {:induction false} RunKeepsExact(c: Config, s: State, run: seq<Action>)
    requires Inv(c, s) && Exact(c, s) && IsRun(c, s, run)
    ensures Inv(c, After(c, s, run)) && Exact(c, After(c, s, run))
    decreases |run|
  {
    if run != [] {
      StepKeeps(c, s, run[0]);
      ExactStep(c, s, run[0]);
      RunKeepsExact(c, Step(c, s, run[0]), run[1..]);
    }
  }

  lemma InitialExact(c: Config, tables: Tables)
    ensures Inv(c, Initial(tables)) && Exact(c, Initial(tables))
  {
    assert forall f :: CursorAt(c, Initial(tables), f);
  }

  /** A session delivers a batch that was never processed, and the receiver accepts it. */
  predicate FirstDelivery(c: Config, s: State, sid: nat, b: Batch) {
    && Enabled(c, s, Deliver(sid)) && s.sessions[sid].inflight[0] == b
    && b.id !in s.processed && Outcome(c, s, b).Success?
  }

  /**
   When an event is lost: of a batch first accepted after one run and followed by any other, an allowed
   event is applied in the end if and only if it was not overtaken when the batch was accepted.
   */
  lemma AppliedIffNotOvertaken(
    c: Config, tables: Tables, before: seq<Action>, sid: nat, b: Batch, after: seq<Action>, e: Event)
    requires IsRun(c, Initial(tables), before) && FirstDelivery(c, After(c, Initial(tables), before), sid, b)
    requires IsRun(c, Step(c, After(c, Initial(tables), before), Deliver(sid)), after)
    requires e in b.events && ApplyAllowed(c.mode, e.op)
    ensures var s := After(c, Initial(tables), before);
            e in After(c, Step(c, s, Deliver(sid)), after).applied <==> !Overtaken(c, s, b, e)
  {
    var s := After(c, Initial(tables), before);
    var t := Step(c, s, Deliver(sid));
    InitialExact(c, tables);
    RunKeepsExact(c, Initial(tables), before);
    StepKeeps(c, s, Deliver(sid));
    ExactStep(c, s, Deliver(sid));
    NextInLog(c, s, sid);
    InLog(c, s.log, b);
    NotAppliedBefore(c, s, b, e);
    SurvivingIff(c, s, b, e);
    BeyondIffNotOvertaken(c, s, b, e);
    DecidedForGood(c, t, after, b, e);
  }

  /** A run with a first delivery at one place. */
  predicate Splits(
    c: Config, s: State, run: seq<Action>, before: seq<Action>, sid: nat, b: Batch, after: seq<Action>)
  {
    && run == before + [Deliver(sid)] + after && IsRun(c, s, before) && FirstDelivery(c, After(c, s, before), sid, b)
    && IsRun(c, Step(c, After(c, s, before), Deliver(sid)), after)
    && IsRun(c, s, run) && After(c, Step(c, After(c, s, before), Deliver(sid)), after) == After(c, s, run)
  }

  lemma OneStepMore(c: Config, s: State, a: Action, run: seq<Action>)
    requires Enabled(c, s, a) && IsRun(c, Step(c, s, a), run)
    ensures IsRun(c, s, [a] + run) && After(c, s, [a] + run) == After(c, Step(c, s, a), run)
  {
    assert ([a] + run)[1..] == run;
  }

  lemma FirstAction(run: seq<Action>, before: seq<Action>, a: Action, after: seq<Action>)
    requires run != [] && run[1..] == before + [a] + after
    ensures run == [run[0]] + before + [a] + after
  {
  }

  lemma SplitsLater(
    c: Config, s: State, run: seq<Action>, before: seq<Action>, sid: nat, b: Batch, after: seq<Action>)
    requires run != [] && IsRun(c, s, run) && Splits(c, Step(c, s, run[0]), run[1..], before, sid, b, after)
    ensures Splits(c, s, run, [run[0]] + before, sid, b, after)
  {
    OneStepMore(c, s, run[0], before);
    FirstAction(run, before, Deliver(sid), after);
  }

  /** A batch that is processed in the end was accepted for the first time somewhere. */
  lemma {:induction false} HasFirstDelivery(c: Config, s: State, run: seq<Action>, id: nat)
    returns (before: seq<Action>, sid: nat, b: Batch, after: seq<Action>)
    requires IsRun(c, s, run) && id !in s.processed && id in After(c, s, run).processed
    ensures Splits(c, s, run, before, sid, b, after) && b.id == id
    decreases |run|
  {
    var t := Step(c, s, run[0]);
    if id in t.processed {
      before, sid, after := [], run[0].sid, run[1..];
      b := s.sessions[sid].inflight[0];
      assert run == [] + [Deliver(sid)] + after;
    } else {
      before, sid, b, after := HasFirstDelivery(c, t, run[1..], id);
      SplitsLater(c, s, run, before, sid, b, after);
      before := [run[0]] + before;
    }
  }

  lemma {:induction false} LogGrows(c: Config, s: State, run: seq<Action>)
    requires IsRun(c, s, run)
    ensures s.log <= After(c, s, run).log
    decreases |run|
  {
    if run != [] {
      LogGrows(c, Step(c, s, run[0]), run[1..]);
    }
  }

  lemma FirstIsTheBatch(
    c: Config, s: State, run: seq<Action>, before: seq<Action>, sid: nat, first: Batch, after: seq<Action>, b: Batch)
    requires Inv(c, s) && Splits(c, s, run, before, sid, first, after) && b in After(c, s, run).log && b.id == first.id
    ensures first == b
  {
    var mid, end := After(c, s, before), After(c, s, run);
    RunKeeps(c, s, before);
    RunKeeps(c, s, run);
    NextInLog(c, mid, sid);
    LogGrows(c, Step(c, mid, Deliver(sid)), after);
    LogRises(c, end.log);
    SameId(end.log, first, b);
  }

  /**
   The same for whole runs: every batch that is processed, or acknowledged, in the end was accepted for
   the first time at one step, and its allowed event was applied if and only if it was not overtaken there.
   */
  lemma LostIffOvertaken(c: Config, tables: Tables, run: seq<Action>, b: Batch, e: Event)
    returns (before: seq<Action>, sid: nat, after: seq<Action>)
    requires IsRun(c, Initial(tables), run)
    requires var s := After(c, Initial(tables), run);
             b in s.log && (b.id in s.processed || b.id in s.acked) && e in b.events && ApplyAllowed(c.mode, e.op)
    ensures Splits(c, Initial(tables), run, before, sid, b, after)
    ensures e in After(c, Initial(tables), run).applied
       <==> !Overtaken(c, After(c, Initial(tables), before), b, e)
  {
    var start := Initial(tables);
    InitialExact(c, tables);
    RunKeepsExact(c, start, run);
    var first;
    before, sid, first, after := HasFirstDelivery(c, start, run, b.id);
    FirstIsTheBatch(c, start, run, before, sid, first, after, b);
    AppliedIffNotOvertaken(c, tables, before, sid, b, after, e);
  }

  /** Only dropped or pruned batches are overtaken. */
  lemma OvertakenWasLost(c: Config, tables: Tables, run: seq<Action>, b: Batch, e: Event)
    requires IsRun(c, Initial(tables), run)
    requires var s := After(c, Initial(tables), run); b in s.log && b.id !in s.processed && Overtaken(c, s, b, e)
    ensures Lost(After(c, Initial(tables), run), b.id)
  {
    var s := After(c, Initial(tables), run);
    assert Inv(c, Initial(tables));
    RunKeeps(c, Initial(tables), run);
    var y, d :| Received(c, s, y, d) && y.id > b.id && FeedOf(d) == FeedOf(e);
    assert Settled(s, b.id);
  }
}
