/**
 The replication feed from one sending region to one receiving region, as a state machine over its
 atomic steps: enqueue and live publication, sessions with replay and live forwarding, delivery with
 apply before ack, disconnects, overlapping sessions, and pruning.
 Sources: internal/transport/grpc/server/handlers.go, internal/service/outbox/service.go,
 internal/transport/grpc/client/recv.go, internal/repository/postgres/outbox.go.
 */
module FeedProtocol {
  import opened PrimaryKeys
  import opened Positions
  import opened Rows
  import opened Commit
  import opened ApplyService
  import opened Outboxes

  /** The receiver's tables and apply mode, and the consumer region the outbox rows are for. */
  datatype Config = Config(specs: Specs, mode: ApplyMode, peer: string)

  datatype Phase = Connected | Subscribed | ReplayEarly | ReplayLate | Live | Closed

  /**
   One consume session, seen from both ends. The frontier counts the log entries that need no
   further sending; it is a history variable.
   */
  datatype Session = Session(
    phase: Phase,
    snapshotWatermark: Option<int>,
    liveWatermark: int,
    afterId: nat,
    channel: seq<Batch>,
    subscribedAt: nat,
    inflight: seq<Batch>,
    toAck: Option<Batch>,
    frontier: nat)

  /** The log, the sets of ids and the applied events are history variables. */
  datatype State = State(
    log: seq<Batch>,
    pending: seq<Batch>,
    unpublished: Option<Batch>,
    watermark: int,
    acked: set<nat>,
    cleaned: set<nat>,
    dropped: set<nat>,
    processed: set<nat>,
    store: Store,
    applied: set<Event>,
    sessions: map<nat, Session>)

  datatype Action =
    | Enqueue(batch: Batch)
    | Publish
    | Connect(sid: nat, snapshot: Option<int>)
    | Subscribe(sid: nat)
    | SampleLive(sid: nat, now: int)
    | ReplayPage(sid: nat)
    | ForwardLive(sid: nat)
    | Unsubscribe(sid: nat)
    | Deliver(sid: nat)
    | SendAck(sid: nat)
    | Disconnect(sid: nat)
    | Prune(gone: set<nat>)

  // ---- batches ----

  function Ids(bs: seq<Batch>): set<nat> {
    set b | b in bs :: b.id
  }

  /** The table named in an acknowledgement: that of the first event, or none for a transaction. */
  function AckTable(b: Batch): string {
    if b.txId == "" && b.events != [] then b.events[0].table else ""
  }

  /** What the producer stages: the outbox table key is the one the consumer will acknowledge. */
  predicate WellMade(c: Config, b: Batch) {
    b.peer == c.peer && b.tableKey == AckTable(b) && b.events != []
  }

  /** All of a feed's events in one batch come before those in another. */
  predicate EventsBefore(a: Batch, b: Batch) {
    forall i, j :: 0 <= i < |a.events| && 0 <= j < |b.events| && FeedOf(a.events[i]) == FeedOf(b.events[j]) ==>
      Before(PositionOf(a.events[i]), PositionOf(b.events[j]))
  }

  /** The events of each feed come in increasing positions. */
  predicate Rising(es: seq<Event>) {
    forall i, j :: 0 <= i < j < |es| && FeedOf(es[i]) == FeedOf(es[j]) ==> Before(PositionOf(es[i]), PositionOf(es[j]))
  }

  predicate Beyond(cursors: Cursors, es: seq<Event>) {
    forall e :: e in es ==> Before(CursorOf(cursors, FeedOf(e)).last, PositionOf(e))
  }

  /** Ids, creation times and event positions rise along the log, and batch keys are unique. */
  predicate LogOrdered(c: Config, log: seq<Batch>) {
    && (forall i :: 0 <= i < |log| ==>
          WellMade(c, log[i]) && log[i].id > 0 && Rising(log[i].events) && Beyond(map[], log[i].events))
    && (forall i, j :: 0 <= i < j < |log| ==>
          log[i].id < log[j].id && log[i].createdAt <= log[j].createdAt
          && !SameBatchKey(log[i], log[j]) && EventsBefore(log[i], log[j]))
  }

  function LastCreated(log: seq<Batch>, default: int): int {
    if log == [] then default else log[|log| - 1].createdAt
  }

  // ---- steps ----

  /** The replay window of a session in its current phase. */
  function ReplayWindow(c: Config, x: Session): Window {
    if x.phase.ReplayEarly? then Window(c.peer, None, x.snapshotWatermark)
    else Window(c.peer, x.snapshotWatermark, Some(x.liveWatermark))
  }

  predicate HasChannel(x: Session) {
    !x.phase.Connected? && !x.phase.Closed?
  }

  function Offered(x: Session, b: Batch): Session {
    if HasChannel(x) && |x.channel| < LIVE_BUFFER_SIZE then x.(channel := x.channel + [b]) else x
  }

  predicate Drops(x: Session) {
    HasChannel(x) && |x.channel| >= LIVE_BUFFER_SIZE
  }

  /** How many entries of the log are at most as young as a time. */
  function CountUpTo(log: seq<Batch>, time: int): nat {
    if log == [] then 0
    else CountUpTo(log[..|log| - 1], time) + (if log[|log| - 1].createdAt <= time then 1 else 0)
  }

  function IndexOf(log: seq<Batch>, id: nat): (i: nat)
    ensures i <= |log| && (i < |log| ==> log[i].id == id)
    ensures forall j :: 0 <= j < |log| && j < i ==> log[j].id != id
  {
    if log == [] then 0
    else
      var i := IndexOf(log[..|log| - 1], id);
      if i < |log| - 1 then i else if log[|log| - 1].id == id then |log| - 1 else |log|
  }

  function AfterPage(c: Config, s: State, x: Session): Session {
    var page := Page(s.pending, ReplayWindow(c, x), x.afterId, REPLAY_PAGE_SIZE);
    if page != [] then
      var last := page[|page| - 1].id;
      x.(inflight := x.inflight + page, afterId := last, frontier := IndexOf(s.log, last) + 1)
    else if x.phase.ReplayEarly? && x.snapshotWatermark.Some? then
      x.(phase := ReplayLate, afterId := 0, frontier := CountUpTo(s.log, x.snapshotWatermark.value))
    else
      x.(phase := Live, frontier := CountUpTo(s.log, x.liveWatermark))
  }

  function AfterForward(s: State, x: Session): Session
    requires x.channel != []
  {
    var b := x.channel[0];
    if b.createdAt <= x.liveWatermark then x.(channel := x.channel[1..])
    else x.(channel := x.channel[1..], inflight := x.inflight + [b], frontier := IndexOf(s.log, b.id) + 1)
  }

  function Outcome(c: Config, s: State, b: Batch): Result<Store> {
    Applied(c.specs, c.mode, b.txId == "", s.store, b.events)
  }

  /** The events that go through the receiver's filter when a batch is applied. */
  function Surviving(c: Config, s: State, b: Batch): seq<Event> {
    var prepared := Prepared(c.mode, b.txId == "", b.events);
    Kept(Locked(s.store.cursors, prepared), prepared)
  }

  predicate Enabled(c: Config, s: State, a: Action) {
    match a
    case Enqueue(b) =>
      && s.unpublished.None? && LogOrdered(c, s.log + [b])
      && b.createdAt > s.watermark
    case Publish => s.unpublished.Some?
    case Connect(sid, snapshot) =>
      && sid !in s.sessions
      && (snapshot.Some? ==> snapshot.value >= s.watermark && snapshot.value >= LastCreated(s.log, snapshot.value))
    case Subscribe(sid) => sid in s.sessions && s.sessions[sid].phase.Connected?
    case SampleLive(sid, now) =>
      sid in s.sessions && s.sessions[sid].phase.Subscribed? && now >= s.watermark && now >= LastCreated(s.log, now)
    case ReplayPage(sid) =>
      sid in s.sessions && (s.sessions[sid].phase.ReplayEarly? || s.sessions[sid].phase.ReplayLate?)
    case ForwardLive(sid) => sid in s.sessions && s.sessions[sid].phase.Live? && s.sessions[sid].channel != []
    case Unsubscribe(sid) => sid in s.sessions
    case Deliver(sid) => sid in s.sessions && s.sessions[sid].inflight != [] && s.sessions[sid].toAck.None?
    case SendAck(sid) => sid in s.sessions && s.sessions[sid].toAck.Some?
    case Disconnect(sid) => sid in s.sessions
    case Prune(gone) => true
  }

  function Step(c: Config, s: State, a: Action): State
    requires Enabled(c, s, a)
  {
    match a
    case Enqueue(b) => s.(log := s.log + [b], pending := s.pending + [b], unpublished := Some(b))
    case Publish =>
      var b := s.unpublished.value;
      s.(unpublished := None,
         sessions := map sid | sid in s.sessions :: Offered(s.sessions[sid], b),
         dropped := s.dropped + (if exists sid :: sid in s.sessions && Drops(s.sessions[sid]) then {b.id} else {}))
    case Connect(sid, snapshot) =>
      s.(watermark := if snapshot.Some? then snapshot.value else s.watermark,
         sessions := s.sessions[sid := Session(Connected, snapshot, 0, 0, [], 0, [], None, 0)])
    case Subscribe(sid) =>
      s.(sessions := s.sessions[sid := s.sessions[sid].(phase := Subscribed, subscribedAt := |s.log|)])
    case SampleLive(sid, now) =>
      var x := s.sessions[sid];
      s.(watermark := now,
         sessions := s.sessions[sid := x.(phase := if x.snapshotWatermark.Some? then ReplayEarly else ReplayLate,
                                          liveWatermark := now)])
    case ReplayPage(sid) => s.(sessions := s.sessions[sid := AfterPage(c, s, s.sessions[sid])])
    case ForwardLive(sid) => s.(sessions := s.sessions[sid := AfterForward(s, s.sessions[sid])])
    case Unsubscribe(sid) => s.(sessions := s.sessions[sid := s.sessions[sid].(phase := Closed, channel := [])])
    case Deliver(sid) =>
      var x := s.sessions[sid];
      var b := x.inflight[0];
      (match Outcome(c, s, b)
       case Failure => s.(sessions := s.sessions - {sid})
       case Success(store) =>
         s.(store := store, processed := s.processed + {b.id},
            applied := s.applied + (set e | e in Surviving(c, s, b)),
            sessions := s.sessions[sid := x.(inflight := x.inflight[1..], toAck := Some(b))]))
    case SendAck(sid) =>
      var x := s.sessions[sid];
      var b := x.toAck.value;
      var gone := AckedIds(s.pending, c.peer, AckTable(b), LastEventId(b));
      s.(pending := Without(s.pending, gone), acked := s.acked + gone,
         sessions := s.sessions[sid := x.(toAck := None)])
    case Disconnect(sid) => s.(sessions := s.sessions - {sid})
    case Prune(gone) =>
      s.(pending := Without(s.pending, gone), cleaned := s.cleaned + (set b | b in s.pending && b.id in gone :: b.id))
  }

  function Initial(tables: Tables): State {
    State([], [], None, 0, {}, {}, {}, {}, Store(tables, map[]), {}, map[])
  }

  /** A run: every action is enabled where it happens. */
  predicate IsRun(c: Config, s: State, run: seq<Action>)
    decreases |run|
  {
    run == [] || (Enabled(c, s, run[0]) && IsRun(c, Step(c, s, run[0]), run[1..]))
  }

  function After(c: Config, s: State, run: seq<Action>): State
    requires IsRun(c, s, run)
    decreases |run|
  {
    if run == [] then s else After(c, Step(c, s, run[0]), run[1..])
  }
}
