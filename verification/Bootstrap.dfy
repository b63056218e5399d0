/**
 Bootstrap and catch-up over whole runs: sessions that ask for snapshots, serve chunks, then events and
 completions, all acting on one store. Every write of the receiver is a step of its own; sessions overlap
 and end anywhere.
 Sources: internal/service/replication/service.go:182-215, internal/transport/grpc/server/handlers.go:66-163,
 internal/transport/grpc/client/recv.go:43-158, internal/service/snapshot/service.go:183-297.
 */
module Bootstrap {
  import opened PrimaryKeys
  import opened Rows
  import opened Commit
  import opened SnapshotJobs
  import opened FuzzySnapshot
  import opened Convergence
  import Send = SnapshotSend

  /** The sender with its log, the tables of the receiver, the chunk size and the apply mode. */
  datatype Config = Config(src: Source, tables: seq<string>, limit: nat, mode: ApplyMode)

  datatype Request = Request(table: string, after: Key)

  datatype Message =
    | ChunkMessage(read: Read)
    | EventsMessage(lo: nat, hi: nat, polling: bool)
    | CompleteMessage(table: string)

  /** Where a session stands in its requests: which one, and the key the next chunk starts after. */
  datatype Place = Place(index: nat, cursor: Key)

  /** What the receiver has still to write for the chunk whose rows it applied. */
  datatype Work =
    | Idle
    | Save(table: string, key: Key, last: bool)
    | Restart(table: string, key: Key, last: bool)
    | SaveAgain(table: string, key: Key, last: bool)
    | Close(table: string, key: Key)
    | CloseRead(table: string)
    | CloseWrite(table: string, key: Key)

  datatype Session = Session(
    asked: nat,
    cursorRead: bool,
    connected: bool,
    requests: seq<Request>,
    served: Place,
    stream: seq<Message>,
    received: Place,
    work: Work)

  /** The receipts are history. */
  datatype State = State(jobs: Jobs, store: Store, receipts: seq<Receipt>, sessions: map<nat, Session>)

  datatype Action =
    | Open(sid: nat)
    | ReadCursor(sid: nat)
    | ReadJob(sid: nat)
    | Connect(sid: nat)
    | ServeChunk(sid: nat, time: nat, view: Table)
    | ServeEvents(sid: nat, lo: nat, hi: nat, polling: bool)
    | ServeComplete(sid: nat, table: string)
    | Receive(sid: nat)
    | Write(sid: nat)
    | Drop(sid: nat)

  function StartOf(requests: seq<Request>, n: nat): Key {
    if n < |requests| then requests[n].after else []
  }

  function NextPlace(requests: seq<Request>, p: Place, chunk: Send.Chunk): Place {
    if chunk.last then Place(p.index + 1, StartOf(requests, p.index + 1))
    else Place(p.index, Send.LastKey(p.cursor, chunk.rows))
  }

  function ChunkIn(c: Config, read: Read): Send.Chunk {
    ChunkRead(c.src, c.limit, read)
  }

  predicate HasEventId(c: Config, st: Store, table: string) {
    CursorOf(st.cursors, Feed(c.src.peer, table)).lastEventId != ""
  }

  /** QueueSnapshotRequests asks for a table unless its cursor has an event id or its job is finished. */
  predicate Skips(c: Config, s: State, table: string) {
    HasEventId(c, s.store, table) || IsFinished(s.jobs, table)
  }

  predicate Enabled(c: Config, s: State, a: Action) {
    if a.Open? then a.sid !in s.sessions
    else if a.sid !in s.sessions then false
    else
      var x := s.sessions[a.sid];
      match a
      case Open(_) => false
      case ReadCursor(_) => !x.connected && !x.cursorRead && x.asked < |c.tables|
      case ReadJob(_) => !x.connected && x.cursorRead && x.asked < |c.tables|
      case Connect(_) => !x.connected && x.asked == |c.tables|
      case ServeChunk(_, time, view) => x.connected && x.served.index < |x.requests| && Send.NoEmptyKey(view)
      case ServeEvents(_, lo, hi, polling) => x.connected && x.served.index >= |x.requests|
      case ServeComplete(_, table) =>
        x.connected && x.served.index >= |x.requests| && exists r :: r in x.requests && r.table == table
      case Receive(_) => x.connected && x.stream != [] && x.work.Idle?
      case Write(_) => !x.work.Idle?
      case Drop(_) => true
  }

  function AfterReadJob(s: State, x: Session, table: string): Session {
    var next := x.(asked := x.asked + 1, cursorRead := false);
    if IsFinished(s.jobs, table) then next
    else next.(requests := x.requests + [Request(table, CheckpointOf(s.jobs, table))])
  }

  function WorkFor(table: string, chunk: Send.Chunk): Work {
    if chunk.rows != [] then Save(table, Send.LastKey([], chunk.rows), chunk.last)
    else if chunk.last then CloseRead(table)
    else Idle
  }

  /** The client's loop on one message: a failing chunk or batch ends the session. */
  function AfterReceive(c: Config, s: State, sid: nat, x: Session): State
    requires x.stream != []
  {
    var rest := x.(stream := x.stream[1..]);
    match x.stream[0]
    case ChunkMessage(read) =>
      (match Got(c.src, c.limit, c.mode, s.store, GotChunk(read))
       case Failure => s.(sessions := s.sessions - {sid})
       case Success(next) =>
         var chunk := ChunkIn(c, read);
         s.(store := next, receipts := s.receipts + [GotChunk(read)],
            sessions := s.sessions[sid := rest.(received := NextPlace(x.requests, x.received, chunk),
                                                work := WorkFor(read.name, chunk))]))
    case EventsMessage(lo, hi, polling) =>
      (match Got(c.src, c.limit, c.mode, s.store, GotBatch(lo, hi, polling))
       case Failure => s.(sessions := s.sessions - {sid})
       case Success(next) =>
         s.(store := next, receipts := s.receipts + [GotBatch(lo, hi, polling)], sessions := s.sessions[sid := rest]))
    case CompleteMessage(table) => s.(jobs := MarkedFinished(s.jobs, table), sessions := s.sessions[sid := rest])
  }

  function Ending(table: string, key: Key, last: bool): Work {
    if last then Close(table, key) else Idle
  }

  /** The job rows and the remaining work after the next write; watermarks play no part in a run. */
  function Written(jobs: Jobs, w: Work): (Jobs, Work) {
    match w
    case Idle => (jobs, Idle)
    case Save(table, key, last) =>
      (Checkpointed(jobs, table, JobWrite(Snapshotting, key, None)),
       if IsFinished(jobs, table) then Restart(table, key, last) else Ending(table, key, last))
    case Restart(table, key, last) => (Upserted(jobs, table, JobWrite(Pending, [], None)), SaveAgain(table, key, last))
    case SaveAgain(table, key, last) =>
      (Checkpointed(jobs, table, JobWrite(Snapshotting, key, None)), Ending(table, key, last))
    case Close(table, key) => (Checkpointed(jobs, table, JobWrite(CatchingUp, key, None)), Idle)
    case CloseRead(table) => (jobs, CloseWrite(table, CheckpointOf(jobs, table)))
    case CloseWrite(table, key) => (Upserted(jobs, table, JobWrite(CatchingUp, key, None)), Idle)
  }

  function Step(c: Config, s: State, a: Action): State
    requires Enabled(c, s, a)
  {
    if a.Open? then
      s.(sessions := s.sessions[a.sid := Session(0, false, false, [], Place(0, []), [], Place(0, []), Idle)])
    else
      var x := s.sessions[a.sid];
      match a
      case Open(_) => s
      case ReadCursor(sid) =>
        var has := HasEventId(c, s.store, c.tables[x.asked]);
        var next := if has then x.(asked := x.asked + 1) else x.(cursorRead := true);
        s.(sessions := s.sessions[sid := next])
      case ReadJob(sid) => s.(sessions := s.sessions[sid := AfterReadJob(s, x, c.tables[x.asked])])
      case Connect(sid) =>
        var start := Place(0, StartOf(x.requests, 0));
        s.(sessions := s.sessions[sid := x.(connected := true, served := start, received := start)])
      case ServeChunk(sid, time, view) =>
        var read := Read(x.requests[x.served.index].table, time, view, x.served.cursor);
        s.(sessions := s.sessions[sid := x.(stream := x.stream + [ChunkMessage(read)],
                                            served := NextPlace(x.requests, x.served, ChunkIn(c, read)))])
      case ServeEvents(sid, lo, hi, polling) =>
        s.(sessions := s.sessions[sid := x.(stream := x.stream + [EventsMessage(lo, hi, polling)])])
      case ServeComplete(sid, table) =>
        s.(sessions := s.sessions[sid := x.(stream := x.stream + [CompleteMessage(table)])])
      case Receive(sid) => AfterReceive(c, s, sid, x)
      case Write(sid) =>
        var (jobs, work) := Written(s.jobs, x.work);
        s.(jobs := jobs, sessions := s.sessions[sid := x.(work := work)])
      case Drop(sid) => s.(sessions := s.sessions - {sid})
  }

  /** A receiver before its first session. */
  function Initial(st: Store): State {
    State(map[], st, [], map[])
  }

  predicate NoEventIds(c: Config, st: Store) {
    forall table :: table in c.tables ==> !HasEventId(c, st, table)
  }

  predicate IsRun(c: Config, s: State, run: seq<Action>)
    decreases |run|
  {
    run == [] || (Enabled(c, s, run[0]) && IsRun(c, Step(c, s, run[0]), run[1..]))
  }

  function After(c: Config, s: State, run: seq<Action>): State
    requires IsRun(c, s, run)
    decreases |run|
  {
    if run == [] then s else After(c, Step(c, s, run[0]), run[1..])
  }

  // ---- coverage ----

  ghost predicate CoveredUpTo(c: Config, receipts: seq<Receipt>, table: string, bound: Key) {
    forall k: Key :: k != [] && Send.UpTo(k, bound) ==> AnsweredIn(c.src, c.limit, receipts, table, k)
  }

  /** Every key of the table lies in the range of an applied chunk. */
  ghost predicate Whole(c: Config, receipts: seq<Receipt>, table: string) {
    forall k: Key :: k != [] ==> AnsweredIn(c.src, c.limit, receipts, table, k)
  }

  lemma CoverageGrows(c: Config, receipts: seq<Receipt>, more: Receipt, table: string, bound: Key)
    ensures CoveredUpTo(c, receipts, table, bound) ==> CoveredUpTo(c, receipts + [more], table, bound)
    ensures Whole(c, receipts, table) ==> Whole(c, receipts + [more], table)
  {
    var all := receipts + [more];
    forall k: Key | AnsweredIn(c.src, c.limit, receipts, table, k)
      ensures AnsweredIn(c.src, c.limit, all, table, k)
    {
      var r :| r in receipts && r.GotChunk? && Answers(c.src, c.limit, r.read, table, k);
      assert r in all;
    }
  }

  lemma CoverageGrowsEverywhere(c: Config, receipts: seq<Receipt>, more: Receipt)
    ensures forall table: string, bound: Key ::
              CoveredUpTo(c, receipts, table, bound) ==> CoveredUpTo(c, receipts + [more], table, bound)
    ensures forall table: string :: Whole(c, receipts, table) ==> Whole(c, receipts + [more], table)
  {
    forall table: string, bound: Key
      ensures CoveredUpTo(c, receipts, table, bound) ==> CoveredUpTo(c, receipts + [more], table, bound)
    {
      CoverageGrows(c, receipts, more, table, bound);
    }
    forall table: string
      ensures Whole(c, receipts, table) ==> Whole(c, receipts + [more], table)
    {
      CoverageGrows(c, receipts, more, table, []);
    }
  }

  /** A chunk that starts where coverage ends extends it to its last key, or to all keys. */
  lemma ChunkCovers(c: Config, receipts: seq<Receipt>, read: Read)
    requires CoveredUpTo(c, receipts, read.name, read.after)
    ensures var all, chunk := receipts + [GotChunk(read)], ChunkIn(c, read);
            && (chunk.last ==> Whole(c, all, read.name))
            && CoveredUpTo(c, all, read.name, Send.LastKey(read.after, chunk.rows))
  {
    var more, chunk := GotChunk(read), ChunkIn(c, read);
    var all := receipts + [more];
    CoverageGrows(c, receipts, more, read.name, read.after);
    forall k: Key | k != [] && (chunk.last || Send.UpTo(k, Send.LastKey(read.after, chunk.rows)))
      ensures AnsweredIn(c.src, c.limit, all, read.name, k)
    {
      if read.after != [] {
        Send.AfterOrUpTo(read.after, k);
      }
      if Send.After(read.after, k) {
        assert more in all && Answers(c.src, c.limit, read, read.name, k);
      }
    }
  }

  // ---- the invariant ----

  /** The messages on their way take the receiver from one place to another. */
  predicate StreamOk(c: Config, requests: seq<Request>, p: Place, stream: seq<Message>, end: Place)
    decreases |stream|
  {
    if stream == [] then p == end
    else
      match stream[0]
      case ChunkMessage(read) =>
        var chunk := ChunkIn(c, read);
        && p.index < |requests| && read.name == requests[p.index].table && read.after == p.cursor
        && (chunk.rows == [] ==> chunk.last)
        && StreamOk(c, requests, NextPlace(requests, p, chunk), stream[1..], end)
      case EventsMessage(_, _, _) => p.index >= |requests| && StreamOk(c, requests, p, stream[1..], end)
      case CompleteMessage(table) =>
        && p.index >= |requests| && (exists r :: r in requests && r.table == table)
        && StreamOk(c, requests, p, stream[1..], end)
  }

  lemma {:induction false} StreamGrows(
    c: Config, requests: seq<Request>, p: Place, stream: seq<Message>, mid: Place, m: Message, end: Place)
    requires StreamOk(c, requests, p, stream, mid) && StreamOk(c, requests, mid, [m], end)
    ensures StreamOk(c, requests, p, stream + [m], end)
    decreases |stream|
  {
    if stream == [] {
      assert stream + [m] == [m];
    } else {
      var next := if stream[0].ChunkMessage? then NextPlace(requests, p, ChunkIn(c, stream[0].read)) else p;
      var more := stream + [m];
      assert more[1..] == stream[1..] + [m] && more[0] == stream[0];
      StreamGrows(c, requests, next, stream[1..], mid, m, end);
    }
  }

  ghost predicate JobInv(c: Config, s: State, table: string) {
    && CoveredUpTo(c, s.receipts, table, CheckpointOf(s.jobs, table))
    && (IsFinished(s.jobs, table) ==> Whole(c, s.receipts, table))
  }

  ghost predicate JobsInv(c: Config, s: State) {
    forall table: string :: JobInv(c, s, table)
  }

  ghost predicate CursorsInv(c: Config, s: State) {
    forall table :: table in c.tables && HasEventId(c, s.store, table) ==> Whole(c, s.receipts, table)
  }

  predicate Requested(x: Session, table: string) {
    exists r :: r in x.requests && r.table == table
  }

  ghost predicate AskedInv(c: Config, receipts: seq<Receipt>, x: Session) {
    && x.asked <= |c.tables|
    && (forall i :: 0 <= i < x.asked ==> Requested(x, c.tables[i]) || Whole(c, receipts, c.tables[i]))
    && (forall r :: r in x.requests ==> CoveredUpTo(c, receipts, r.table, r.after))
  }

  ghost predicate ReceivedInv(c: Config, receipts: seq<Receipt>, x: Session) {
    && (forall i :: 0 <= i < |x.requests| && i < x.received.index ==> Whole(c, receipts, x.requests[i].table))
    && (x.received.index < |x.requests| ==>
          CoveredUpTo(c, receipts, x.requests[x.received.index].table, x.received.cursor))
  }

  ghost predicate WorkInv(c: Config, receipts: seq<Receipt>, w: Work) {
    match w
    case Idle => true
    case Save(table, key, last) => CoveredUpTo(c, receipts, table, key)
    case Restart(table, key, last) => CoveredUpTo(c, receipts, table, key)
    case SaveAgain(table, key, last) => CoveredUpTo(c, receipts, table, key)
    case Close(table, key) => CoveredUpTo(c, receipts, table, key)
    case CloseRead(table) => true
    case CloseWrite(table, key) => CoveredUpTo(c, receipts, table, key)
  }

  ghost predicate SessionInv(c: Config, receipts: seq<Receipt>, x: Session) {
    && AskedInv(c, receipts, x)
    && WorkInv(c, receipts, x.work)
    && (x.connected ==>
          && x.asked == |c.tables| && StreamOk(c, x.requests, x.received, x.stream, x.served)
          && ReceivedInv(c, receipts, x))
    && (!x.connected ==> x.stream == [])
  }

  ghost predicate SessionsInv(c: Config, s: State) {
    forall sid :: sid in s.sessions ==> SessionInv(c, s.receipts, s.sessions[sid])
  }

  ghost predicate Inv(c: Config, s: State) {
    JobsInv(c, s) && CursorsInv(c, s) && SessionsInv(c, s)
  }

  // ---- every step keeps it ----

  lemma SessionGrows(c: Config, receipts: seq<Receipt>, more: Receipt, x: Session)
    requires SessionInv(c, receipts, x)
    ensures SessionInv(c, receipts + [more], x)
  {
    CoverageGrowsEverywhere(c, receipts, more);
    forall i | 0 <= i < x.asked
      ensures Requested(x, c.tables[i]) || Whole(c, receipts + [more], c.tables[i])
    {
      assert Requested(x, c.tables[i]) || Whole(c, receipts, c.tables[i]);
    }
  }

  /** A step that changes one session only. */
  lemma SameStore(c: Config, s: State, t: State, sid: nat)
    requires Inv(c, s) && t.jobs == s.jobs && t.store == s.store && t.receipts == s.receipts
    requires sid in t.sessions && t.sessions == s.sessions[sid := t.sessions[sid]]
    requires SessionInv(c, t.receipts, t.sessions[sid])
    ensures Inv(c, t)
  {
    forall table: string
      ensures JobInv(c, t, table)
    {
      assert JobInv(c, s, table);
    }
  }

  lemma AskingKeeps(c: Config, s: State, sid: nat, a: Action)
    requires Inv(c, s) && (a == ReadCursor(sid) || a == ReadJob(sid)) && Enabled(c, s, a)
    ensures Inv(c, Step(c, s, a))
  {
    var x := s.sessions[sid];
    var table := c.tables[x.asked];
    var t := Step(c, s, a);
    var y := t.sessions[sid];
    assert SessionInv(c, s.receipts, x) && JobInv(c, s, table);
    assert table in c.tables;
    assert forall r :: r in x.requests ==> r in y.requests;
    forall i | 0 <= i < y.asked
      ensures Requested(y, c.tables[i]) || Whole(c, t.receipts, c.tables[i])
    {
      if i < x.asked {
        if Requested(x, c.tables[i]) {
          var r :| r in x.requests && r.table == c.tables[i];
          assert r in y.requests;
        }
      } else if a.ReadJob? && !IsFinished(s.jobs, table) {
        assert Request(table, CheckpointOf(s.jobs, table)) in y.requests;
      }
    }
    assert SessionInv(c, t.receipts, y);
    SameStore(c, s, t, sid);
  }

  /** Sessions whose requests and answers stay as they are. */
  lemma SameAsked(c: Config, receipts: seq<Receipt>, x: Session, y: Session)
    requires AskedInv(c, receipts, x) && y.asked == x.asked && y.requests == x.requests
    ensures AskedInv(c, receipts, y)
  {
    forall i | 0 <= i < y.asked
      ensures Requested(y, c.tables[i]) || Whole(c, receipts, c.tables[i])
    {
      assert Requested(x, c.tables[i]) || Whole(c, receipts, c.tables[i]);
    }
  }

  lemma ServingKeeps(c: Config, s: State, sid: nat, m: Message, end: Place, t: State)
    requires Inv(c, s) && sid in s.sessions && s.sessions[sid].connected
    requires StreamOk(c, s.sessions[sid].requests, s.sessions[sid].served, [m], end)
    requires var x := s.sessions[sid];
             t == s.(sessions := s.sessions[sid := x.(stream := x.stream + [m], served := end)])
    ensures Inv(c, t)
  {
    var x := s.sessions[sid];
    assert SessionInv(c, s.receipts, x);
    StreamGrows(c, x.requests, x.received, x.stream, x.served, m, end);
    SameAsked(c, s.receipts, x, t.sessions[sid]);
    SameStore(c, s, t, sid);
  }

  lemma ServeChunkKeeps(c: Config, s: State, sid: nat, time: nat, view: Table)
    requires c.limit > 0 && Inv(c, s) && Enabled(c, s, ServeChunk(sid, time, view))
    ensures Inv(c, Step(c, s, ServeChunk(sid, time, view)))
  {
    var x := s.sessions[sid];
    var read := Read(x.requests[x.served.index].table, time, view, x.served.cursor);
    var m := ChunkMessage(read);
    Send.ChunkAdvances(QueryOf(c.src, read.name, c.limit), view, x.served.cursor);
    assert [m][1..] == [];
    var end := NextPlace(x.requests, x.served, ChunkIn(c, read));
    ServingKeeps(c, s, sid, m, end, Step(c, s, ServeChunk(sid, time, view)));
  }

  lemma ServeOtherKeeps(c: Config, s: State, a: Action)
    requires Inv(c, s) && Enabled(c, s, a) && (a.ServeEvents? || a.ServeComplete?)
    ensures Inv(c, Step(c, s, a))
  {
    var m := if a.ServeEvents? then EventsMessage(a.lo, a.hi, a.polling) else CompleteMessage(a.table);
    assert [m][1..] == [];
    ServingKeeps(c, s, a.sid, m, s.sessions[a.sid].served, Step(c, s, a));
  }

  lemma ConnectKeeps(c: Config, s: State, sid: nat)
    requires Inv(c, s) && Enabled(c, s, Connect(sid))
    ensures Inv(c, Step(c, s, Connect(sid)))
  {
    var x, t := s.sessions[sid], Step(c, s, Connect(sid));
    assert SessionInv(c, s.receipts, x);
    SameAsked(c, s.receipts, x, t.sessions[sid]);
    SameStore(c, s, t, sid);
  }

  lemma ReceiveChunkSession(c: Config, receipts: seq<Receipt>, x: Session, read: Read, y: Session)
    requires SessionInv(c, receipts, x) && x.connected && x.stream != [] && x.stream[0] == ChunkMessage(read)
    requires y == x.(stream := x.stream[1..], received := NextPlace(x.requests, x.received, ChunkIn(c, read)),
                     work := WorkFor(read.name, ChunkIn(c, read)))
    ensures SessionInv(c, receipts + [GotChunk(read)], y)
  {
    var chunk := ChunkIn(c, read);
    SessionGrows(c, receipts, GotChunk(read), x);
    SameAsked(c, receipts + [GotChunk(read)], x, y);
    ChunkCovers(c, receipts, read);
    assert chunk.rows != [] ==> Send.LastKey([], chunk.rows) == Send.LastKey(read.after, chunk.rows);
  }

  /** One more receipt keeps jobs and the other sessions. */
  lemma ReceiptKeeps(c: Config, s: State, t: State, sid: nat, more: Receipt)
    requires JobsInv(c, s) && SessionsInv(c, s) && t.jobs == s.jobs && t.receipts == s.receipts + [more]
    requires sid in t.sessions && t.sessions == s.sessions[sid := t.sessions[sid]]
    requires SessionInv(c, t.receipts, t.sessions[sid])
    ensures JobsInv(c, t) && SessionsInv(c, t)
  {
    CoverageGrowsEverywhere(c, s.receipts, more);
    forall other | other in t.sessions
      ensures SessionInv(c, t.receipts, t.sessions[other])
    {
      if other != sid {
        SessionGrows(c, s.receipts, more, s.sessions[other]);
      }
    }
    forall table: string
      ensures JobInv(c, t, table)
    {
      assert JobInv(c, s, table);
    }
  }

  lemma ReceiveChunkKeeps(c: Config, s: State, sid: nat, read: Read)
    requires Inv(c, s) && Enabled(c, s, Receive(sid)) && s.sessions[sid].stream[0] == ChunkMessage(read)
    requires Got(c.src, c.limit, c.mode, s.store, GotChunk(read)).Success?
    ensures Inv(c, Step(c, s, Receive(sid)))
  {
    var x, t := s.sessions[sid], Step(c, s, Receive(sid));
    ReceiveChunkSession(c, s.receipts, x, read, t.sessions[sid]);
    ReceiptKeeps(c, s, t, sid, GotChunk(read));
    CoverageGrowsEverywhere(c, s.receipts, GotChunk(read));
  }

  /** Once events or completions arrive, every table asked for is whole. */
  lemma AllWhole(c: Config, receipts: seq<Receipt>, x: Session, table: string)
    requires AskedInv(c, receipts, x) && ReceivedInv(c, receipts, x) && x.received.index >= |x.requests|
    ensures Requested(x, table) ==> Whole(c, receipts, table)
    ensures x.asked == |c.tables| && table in c.tables ==> Whole(c, receipts, table)
  {
    if Requested(x, table) {
      var r :| r in x.requests && r.table == table;
      var i :| 0 <= i < |x.requests| && x.requests[i] == r;
    }
    if x.asked == |c.tables| && table in c.tables {
      var i :| 0 <= i < |c.tables| && c.tables[i] == table;
      assert Requested(x, c.tables[i]) || Whole(c, receipts, c.tables[i]);
    }
  }

  lemma ReceiveEventsKeeps(c: Config, s: State, sid: nat, more: Receipt)
    requires Inv(c, s) && Enabled(c, s, Receive(sid)) && more.GotBatch?
    requires s.sessions[sid].stream[0] == EventsMessage(more.lo, more.hi, more.polling)
    requires Got(c.src, c.limit, c.mode, s.store, more).Success?
    ensures Inv(c, Step(c, s, Receive(sid)))
  {
    var x, t := s.sessions[sid], Step(c, s, Receive(sid));
    assert SessionInv(c, s.receipts, x);
    SameAsked(c, s.receipts, x, t.sessions[sid]);
    SessionGrows(c, s.receipts, more, t.sessions[sid]);
    ReceiptKeeps(c, s, t, sid, more);
    CoverageGrowsEverywhere(c, s.receipts, more);
    forall table | table in c.tables
      ensures Whole(c, t.receipts, table)
    {
      AllWhole(c, s.receipts, x, table);
    }
  }

  lemma ReceiveCompleteKeeps(c: Config, s: State, sid: nat, table: string)
    requires Inv(c, s) && Enabled(c, s, Receive(sid)) && s.sessions[sid].stream[0] == CompleteMessage(table)
    ensures Inv(c, Step(c, s, Receive(sid)))
  {
    var x, t := s.sessions[sid], Step(c, s, Receive(sid));
    assert SessionInv(c, s.receipts, x);
    SameAsked(c, s.receipts, x, t.sessions[sid]);
    assert Requested(x, table);
    AllWhole(c, s.receipts, x, table);
    assert SessionInv(c, t.receipts, t.sessions[sid]);
    forall other: string
      ensures JobInv(c, t, other)
    {
      assert JobInv(c, s, other);
    }
  }

  lemma ReceiveKeeps(c: Config, s: State, sid: nat)
    requires Inv(c, s) && Enabled(c, s, Receive(sid))
    ensures Inv(c, Step(c, s, Receive(sid)))
  {
    match s.sessions[sid].stream[0] {
      case ChunkMessage(read) =>
        if Got(c.src, c.limit, c.mode, s.store, GotChunk(read)).Success? {
          ReceiveChunkKeeps(c, s, sid, read);
        } else {
          FewerSessions(c, s, Step(c, s, Receive(sid)));
        }
      case EventsMessage(lo, hi, polling) =>
        if Got(c.src, c.limit, c.mode, s.store, GotBatch(lo, hi, polling)).Success? {
          ReceiveEventsKeeps(c, s, sid, GotBatch(lo, hi, polling));
        } else {
          FewerSessions(c, s, Step(c, s, Receive(sid)));
        }
      case CompleteMessage(table) =>
        ReceiveCompleteKeeps(c, s, sid, table);
    }
  }

  lemma FewerSessions(c: Config, s: State, t: State)
    requires Inv(c, s) && t.jobs == s.jobs && t.store == s.store && t.receipts == s.receipts
    requires forall sid :: sid in t.sessions ==> sid in s.sessions && t.sessions[sid] == s.sessions[sid]
    ensures Inv(c, t)
  {
    forall table: string
      ensures JobInv(c, t, table)
    {
      assert JobInv(c, s, table);
    }
  }

  lemma WriteKeeps(c: Config, s: State, sid: nat)
    requires Inv(c, s) && Enabled(c, s, Write(sid))
    ensures Inv(c, Step(c, s, Write(sid)))
  {
    var x, t := s.sessions[sid], Step(c, s, Write(sid));
    var y := t.sessions[sid];
    assert SessionInv(c, s.receipts, x);
    if x.work.CloseRead? {
      assert JobInv(c, s, x.work.table);
    }
    SameAsked(c, s.receipts, x, y);
    assert WorkInv(c, t.receipts, y.work);
    assert ReceivedInv(c, s.receipts, x) ==> ReceivedInv(c, t.receipts, y);
    forall table: string
      ensures JobInv(c, t, table)
    {
      assert JobInv(c, s, table);
      NothingUpToEmpty(c, t.receipts, table);
    }
  }

  lemma NothingUpToEmpty(c: Config, receipts: seq<Receipt>, table: string)
    ensures CoveredUpTo(c, receipts, table, [])
  {
  }

  lemma StepKeeps(c: Config, s: State, a: Action)
    requires c.limit > 0 && Inv(c, s) && Enabled(c, s, a)
    ensures Inv(c, Step(c, s, a))
  {
    match a {
      case Open(sid) => SameStore(c, s, Step(c, s, a), sid);
      case ReadCursor(sid) => AskingKeeps(c, s, sid, a);
      case ReadJob(sid) => AskingKeeps(c, s, sid, a);
      case Connect(sid) => ConnectKeeps(c, s, sid);
      case ServeChunk(sid, time, view) => ServeChunkKeeps(c, s, sid, time, view);
      case ServeEvents(_, _, _, _) => ServeOtherKeeps(c, s, a);
      case ServeComplete(_, _) => ServeOtherKeeps(c, s, a);
      case Receive(sid) => ReceiveKeeps(c, s, sid);
      case Write(sid) => WriteKeeps(c, s, sid);
      case Drop(sid) => FewerSessions(c, s, Step(c, s, a));
    }
  }

  lemma {:induction false} RunKeeps(c: Config, s: State, run: seq<Action>)
    requires c.limit > 0 && Inv(c, s) && IsRun(c, s, run)
    ensures Inv(c, After(c, s, run))
    decreases |run|
  {
    if run != [] {
      StepKeeps(c, s, run[0]);
      RunKeeps(c, Step(c, s, run[0]), run[1..]);
    }
  }

  lemma InitialInv(c: Config, st: Store)
    requires NoEventIds(c, st)
    ensures Inv(c, Initial(st))
  {
    forall table: string
      ensures JobInv(c, Initial(st), table)
    {
      NothingUpToEmpty(c, [], table);
    }
  }

  /**
   Skipping bootstrap is safe: in every run, a table that QueueSnapshotRequests skips has had its
   whole key range applied by snapshot chunks, and no checkpoint lies beyond the applied keys.
   */
  lemma SkippingIsSafe(c: Config, st: Store, run: seq<Action>, table: string)
    requires c.limit > 0 && NoEventIds(c, st) && IsRun(c, Initial(st), run) && table in c.tables
    ensures var s := After(c, Initial(st), run);
            && (Skips(c, s, table) ==> Whole(c, s.receipts, table))
            && CoveredUpTo(c, s.receipts, table, CheckpointOf(s.jobs, table))
  {
    InitialInv(c, st);
    RunKeeps(c, Initial(st), run);
    assert JobInv(c, After(c, Initial(st), run), table);
  }

  // ---- the store of a run ----

  lemma GotAllGrows(c: Config, st: Store, receipts: seq<Receipt>, more: Receipt)
    ensures GotAll(c.src, c.limit, c.mode, st, receipts + [more])
         == GotOr(c.src, c.limit, c.mode, GotAll(c.src, c.limit, c.mode, st, receipts), more)
  {
    assert (receipts + [more])[..|receipts|] == receipts;
  }

  lemma StoreStep(c: Config, st: Store, s: State, a: Action)
    requires Enabled(c, s, a) && s.store == GotAll(c.src, c.limit, c.mode, st, s.receipts)
    ensures var t := Step(c, s, a);
            t.store == GotAll(c.src, c.limit, c.mode, st, t.receipts) && s.receipts <= t.receipts
  {
    if a.Receive? {
      match s.sessions[a.sid].stream[0]
      case ChunkMessage(read) => GotAllGrows(c, st, s.receipts, GotChunk(read));
      case EventsMessage(lo, hi, polling) => GotAllGrows(c, st, s.receipts, GotBatch(lo, hi, polling));
      case CompleteMessage(_) =>
    }
  }

  /** The store is what the receipts, in their order, make of it. */
  lemma {:induction false} StoreFollowsReceipts(c: Config, st: Store, s: State, run: seq<Action>)
    requires IsRun(c, s, run) && s.store == GotAll(c.src, c.limit, c.mode, st, s.receipts)
    ensures var t := After(c, s, run); t.store == GotAll(c.src, c.limit, c.mode, st, t.receipts)
    ensures s.receipts <= After(c, s, run).receipts
    decreases |run|
  {
    if run != [] {
      StoreStep(c, st, s, run[0]);
      StoreFollowsReceipts(c, st, Step(c, s, run[0]), run[1..]);
    }
  }
}
