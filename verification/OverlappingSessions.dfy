/**
 Two overlapping sessions: the second one's chunk was read before a change and comes after it. The row
 the chunk brings stays, even when the change is delivered again.
 */
module OverlappingSessions {
  import opened PrimaryKeys
  import opened Rows
  import opened BatchApply
  import opened Commit
  import opened Transactions
  import opened OwnerGating
  import opened SnapshotJobs
  import opened FuzzySnapshot
  import opened Convergence
  import opened Bootstrap
  import opened BootstrapRuns
  import Send = SnapshotSend

  // ---- one table with one row, changed once ----

  const SPEC: TableSpec := TableSpec({"v"}, None, map[])

  function RowOf(v: string): Row {
    map["v" := Val(v)]
  }

  function ChangeOf(k: Key): Event {
    Event("p", "t", "e", k, Upsert, 1, RowOf("new"))
  }

  function SourceOf(k: Key): Source {
    Source(map["t" := SPEC], "p", map["t" := map[k := RowOf("old")]], [ChangeOf(k)])
  }

  function ConfigOf(k: Key): Config {
    Config(SourceOf(k), ["t"], 2, FullSyncMode)
  }

  const EMPTY: Store := Store(map["t" := map[]], map[])

  function OldRead(k: Key): Read {
    Read("t", 0, map[k := RowOf("old")], [])
  }

  const CHANGE: Receipt := GotBatch(0, 1, false)

  lemma SourceIsValid(k: Key)
    requires k != []
    ensures Ready(SourceOf(k), EMPTY, 0) && NoEventIds(ConfigOf(k), EMPTY)
    ensures SourceCell(SourceOf(k), 0, "t", k) == Some(RowOf("old"))
    ensures SourceCell(SourceOf(k), 1, "t", k) == Some(RowOf("new"))
  {
    var src := SourceOf(k);
    assert SourceCell(src, 0, "t", k) == Some(RowOf("old"));
    assert ValidChange(src, 0);
    assert src.log[0..] == [ChangeOf(k)];
  }

  lemma OldReadIsValid(k: Key)
    requires k != []
    ensures ValidRead(SourceOf(k), 0, 1, 2, OldRead(k))
  {
    var src, r := SourceOf(k), OldRead(k);
    forall j: Key
      ensures Shown(QueryOf(src, r.name, 2), r.view, j) == SourceCell(src, 0, "t", j)
    {
      assert j in r.view <==> j == k;
    }
  }

  /** The chunk holds the one row, and is the last. */
  lemma OldChunk(k: Key)
    requires k != []
    ensures ChunkRead(SourceOf(k), 2, OldRead(k)) == Send.Chunk([SnapshotRow(k, RowOf("old"))], true)
  {
    var r := OldRead(k);
    var q, chunk := QueryOf(SourceOf(k), "t", 2), ChunkRead(SourceOf(k), 2, OldRead(k));
    Send.ChunkIsExact(q, r.view, r.after);
    forall i | 0 <= i < |chunk.rows|
      ensures chunk.rows[i] == SnapshotRow(k, RowOf("old"))
    {
      assert chunk.rows[i] in chunk.rows && chunk.rows[i].key in r.view;
    }
    KeyTrichotomy(k, k);
    assert |chunk.rows| <= 1;
    assert Send.HasKey(chunk.rows, k);
  }

  lemma ChangeIsSafe(k: Key)
    ensures SafeTransaction("p", [ChangeOf(k)])
  {
    forall name: string
      ensures BatchSafe(EventsOf([ChangeOf(k)], Feed("p", name)))
    {
      EventsOfMembers([ChangeOf(k)], Feed("p", name));
      var sub := EventsOf([ChangeOf(k)], Feed("p", name));
      assert forall i :: 0 <= i < |sub| ==> sub[i] in sub;
    }
  }

  // ---- the phases of a session ----

  predicate Runs(c: Config, s: State, run: seq<Action>, t: State) {
    IsRun(c, s, run) && After(c, s, run) == t
  }

  lemma {:induction false} RunsJoin(c: Config, s: State, a: seq<Action>, mid: State, b: seq<Action>, t: State)
    requires Runs(c, s, a, mid) && Runs(c, mid, b, t)
    ensures Runs(c, s, a + b, t)
    decreases |a|
  {
    if a == [] {
      assert a + b == b;
    } else {
      var next, rest := Step(c, s, a[0]), a[1..];
      assert (a + b)[1..] == rest + b && (a + b)[0] == a[0];
      RunsJoin(c, next, rest, mid, b, t);
    }
  }

  lemma RunsOne(c: Config, s: State, a: Action)
    requires Enabled(c, s, a)
    ensures Runs(c, s, [a], Step(c, s, a))
  {
    assert [a][1..] == [];
  }

  /** Asked for the table from the start, and connected. */
  function Asked(stream: seq<Message>, served: nat, received: nat): Session {
    Session(1, false, true, [Request("t", [])], Bootstrap.Place.Place(served, []), stream,
            Bootstrap.Place.Place(received, []), Idle)
  }

  lemma Asking(c: Config, s: State, sid: nat)
    requires c.tables == ["t"] && sid !in s.sessions && !HasEventId(c, s.store, "t") && s.jobs == map[]
    ensures Runs(c, s, [Open(sid), ReadCursor(sid), ReadJob(sid), Connect(sid)],
                 s.(sessions := s.sessions[sid := Asked([], 0, 0)]))
  {
    var s1 := Step(c, s, Open(sid));
    var s2 := Step(c, s1, ReadCursor(sid));
    var s3 := Step(c, s2, ReadJob(sid));
    var s4 := Step(c, s3, Connect(sid));
    RunsOne(c, s, Open(sid));
    RunsOne(c, s1, ReadCursor(sid));
    RunsOne(c, s2, ReadJob(sid));
    RunsOne(c, s3, Connect(sid));
    RunsJoin(c, s, [Open(sid)], s1, [ReadCursor(sid)], s2);
    RunsJoin(c, s, [Open(sid)] + [ReadCursor(sid)], s2, [ReadJob(sid)], s3);
    RunsJoin(c, s, [Open(sid)] + [ReadCursor(sid)] + [ReadJob(sid)], s3, [Connect(sid)], s4);
    assert [Open(sid)] + [ReadCursor(sid)] + [ReadJob(sid)] + [Connect(sid)]
        == [Open(sid), ReadCursor(sid), ReadJob(sid), Connect(sid)];
    assert s4.sessions[sid] == Asked([], 0, 0);
    assert s4.sessions == s.sessions[sid := Asked([], 0, 0)];
  }

  /** A read of the whole table, which shows some rows. */
  predicate WholeRead(c: Config, read: Read) {
    && read.name == "t" && read.time == 0 && read.after == [] && Send.NoEmptyKey(read.view)
    && ChunkIn(c, read).rows != [] && ChunkIn(c, read).last
  }

  lemma Serving(c: Config, read: Read, s: State, sid: nat)
    requires WholeRead(c, read) && sid in s.sessions && s.sessions[sid] == Asked([], 0, 0)
    ensures Runs(c, s, [ServeChunk(sid, 0, read.view)],
                 s.(sessions := s.sessions[sid := Asked([ChunkMessage(read)], 1, 0)]))
  {
    assert [] + [ChunkMessage(read)] == [ChunkMessage(read)];
    RunsOne(c, s, ServeChunk(sid, 0, read.view));
  }

  lemma ServingChange(c: Config, s: State, sid: nat, stream: seq<Message>, received: nat)
    requires sid in s.sessions && s.sessions[sid] == Asked(stream, 1, received)
    ensures Runs(c, s, [ServeEvents(sid, 0, 1, false)],
                 s.(sessions := s.sessions[sid := Asked(stream + [EventsMessage(0, 1, false)], 1, received)]))
  {
    RunsOne(c, s, ServeEvents(sid, 0, 1, false));
  }

  lemma TakingChunk(c: Config, read: Read, s: State, sid: nat, rest: seq<Message>)
    requires WholeRead(c, read) && sid in s.sessions && s.sessions[sid] == Asked([ChunkMessage(read)] + rest, 1, 0)
    requires Got(c.src, c.limit, c.mode, s.store, GotChunk(read)).Success?
    ensures Enabled(c, s, Receive(sid))
    ensures var x := Asked(rest, 1, 1).(work := WorkFor("t", ChunkIn(c, read)));
            Step(c, s, Receive(sid))
            == s.(store := Got(c.src, c.limit, c.mode, s.store, GotChunk(read)).value,
                  receipts := s.receipts + [GotChunk(read)], sessions := s.sessions[sid := x])
  {
    assert ([ChunkMessage(read)] + rest)[1..] == rest;
  }

  /** Recording the last chunk: the checkpoint, then the end of the rows. */
  lemma Recording(c: Config, s: State, sid: nat, x: Session, key: Key) returns (t: State)
    requires sid in s.sessions && s.sessions[sid] == x.(work := Save("t", key, true)) && x.work.Idle?
    requires !IsFinished(s.jobs, "t")
    ensures Runs(c, s, [Write(sid), Write(sid)], t)
    ensures t.receipts == s.receipts && t.store == s.store && !IsFinished(t.jobs, "t")
    ensures t.sessions == s.sessions[sid := x]
  {
    var mid := Step(c, s, Write(sid));
    t := Step(c, mid, Write(sid));
    RunsOne(c, s, Write(sid));
    RunsOne(c, mid, Write(sid));
    RunsJoin(c, s, [Write(sid)], mid, [Write(sid)], t);
    assert [Write(sid)] + [Write(sid)] == [Write(sid), Write(sid)];
    assert t.sessions[sid] == x;
  }

  /** The store is what the receipts made of it, and the job is open. */
  predicate Tracks(c: Config, s: State, receipts: seq<Receipt>) {
    && s.receipts == receipts && s.store == GotAll(c.src, c.limit, c.mode, EMPTY, receipts)
    && !IsFinished(s.jobs, "t")
  }

  /** Receiving the chunk and recording it. */
  lemma Bringing(c: Config, read: Read, receipts: seq<Receipt>, s: State, sid: nat, rest: seq<Message>)
    returns (t: State)
    requires WholeRead(c, read) && sid in s.sessions && s.sessions[sid] == Asked([ChunkMessage(read)] + rest, 1, 0)
    requires ChunkFits(c.src, "t", ChunkIn(c, read).rows) && Tracks(c, s, receipts)
    ensures Runs(c, s, [Receive(sid), Write(sid), Write(sid)], t)
    ensures Tracks(c, t, receipts + [GotChunk(read)]) && t.sessions == s.sessions[sid := Asked(rest, 1, 1)]
  {
    TakingChunk(c, read, s, sid, rest);
    GotAllGrows(c, EMPTY, receipts, GotChunk(read));
    var mid := Step(c, s, Receive(sid));
    RunsOne(c, s, Receive(sid));
    t := Recording(c, mid, sid, Asked(rest, 1, 1), Send.LastKey([], ChunkIn(c, read).rows));
    RunsJoin(c, s, [Receive(sid)], mid, [Write(sid), Write(sid)], t);
    assert [Receive(sid)] + [Write(sid), Write(sid)] == [Receive(sid), Write(sid), Write(sid)];
  }

  lemma Changing(c: Config, receipts: seq<Receipt>, s: State, sid: nat) returns (t: State)
    requires sid in s.sessions && s.sessions[sid] == Asked([EventsMessage(0, 1, false)], 1, 1)
    requires Tracks(c, s, receipts) && Got(c.src, c.limit, c.mode, s.store, CHANGE).Success?
    ensures Runs(c, s, [Receive(sid)], t)
    ensures Tracks(c, t, receipts + [CHANGE]) && t.sessions == s.sessions[sid := Asked([], 1, 1)]
  {
    assert [EventsMessage(0, 1, false)][1..] == [];
    GotAllGrows(c, EMPTY, receipts, CHANGE);
    t := Step(c, s, Receive(sid));
    RunsOne(c, s, Receive(sid));
  }

  // ---- the two sessions ----

  predicate ChangeSucceeds(c: Config, receipts: seq<Receipt>) {
    Got(c.src, c.limit, c.mode, GotAll(c.src, c.limit, c.mode, EMPTY, receipts), CHANGE).Success?
  }

  lemma BothAsk(c: Config, s: State, t: State)
    requires c.tables == ["t"] && !HasEventId(c, EMPTY, "t") && s == Initial(EMPTY)
    requires t == s.(sessions := map[1 := Asked([], 0, 0), 2 := Asked([], 0, 0)])
    ensures Runs(c, s, [Open(1), ReadCursor(1), ReadJob(1), Connect(1)]
                       + [Open(2), ReadCursor(2), ReadJob(2), Connect(2)], t)
  {
    var mid := s.(sessions := s.sessions[1 := Asked([], 0, 0)]);
    Asking(c, s, 1);
    Asking(c, mid, 2);
    assert mid.sessions[2 := Asked([], 0, 0)] == t.sessions;
    RunsJoin(c, s, [Open(1), ReadCursor(1), ReadJob(1), Connect(1)], mid,
             [Open(2), ReadCursor(2), ReadJob(2), Connect(2)], t);
  }

  /** Both sessions are served the old rows; the first also the change. */
  lemma BothServed(c: Config, read: Read, s: State, t: State) returns (run: seq<Action>)
    requires WholeRead(c, read) && s.sessions == map[1 := Asked([], 0, 0), 2 := Asked([], 0, 0)]
    requires t == s.(sessions := map[1 := Asked([ChunkMessage(read)] + [EventsMessage(0, 1, false)], 1, 0),
                                     2 := Asked([ChunkMessage(read)], 1, 0)])
    ensures Runs(c, s, run, t)
  {
    var message := [ChunkMessage(read)];
    var s1 := s.(sessions := s.sessions[1 := Asked(message, 1, 0)]);
    var s2 := s1.(sessions := s1.sessions[2 := Asked(message, 1, 0)]);
    Serving(c, read, s, 1);
    Serving(c, read, s1, 2);
    ServingChange(c, s2, 1, message, 0);
    assert t.sessions == s2.sessions[1 := Asked(message + [EventsMessage(0, 1, false)], 1, 0)];
    var a, b, d := ServeChunk(1, 0, read.view), ServeChunk(2, 0, read.view), ServeEvents(1, 0, 1, false);
    RunsJoin(c, s, [a], s1, [b], s2);
    RunsJoin(c, s, [a] + [b], s2, [d], t);
    run := [a] + [b] + [d];
  }

  /** A session that has the change on its way after the chunk brings both. */
  lemma BringsBoth(c: Config, read: Read, receipts: seq<Receipt>, s: State, sid: nat)
    returns (run: seq<Action>, t: State)
    requires WholeRead(c, read) && ChunkFits(c.src, "t", ChunkIn(c, read).rows) && Tracks(c, s, receipts)
    requires sid in s.sessions && s.sessions[sid] == Asked([ChunkMessage(read)] + [EventsMessage(0, 1, false)], 1, 0)
    requires ChangeSucceeds(c, receipts + [GotChunk(read)])
    ensures Runs(c, s, run, t) && Tracks(c, t, receipts + [GotChunk(read)] + [CHANGE])
    ensures t.sessions == s.sessions[sid := Asked([], 1, 1)]
  {
    var mid := Bringing(c, read, receipts, s, sid, [EventsMessage(0, 1, false)]);
    t := Changing(c, receipts + [GotChunk(read)], mid, sid);
    run := [Receive(sid), Write(sid), Write(sid)] + [Receive(sid)];
    RunsJoin(c, s, [Receive(sid), Write(sid), Write(sid)], mid, [Receive(sid)], t);
  }

  // ---- the run ----

  function Receipts(k: Key): seq<Receipt> {
    [GotChunk(OldRead(k)), CHANGE, GotChunk(OldRead(k)), CHANGE]
  }

  lemma ReceiptsAreOrderly(k: Key)
    requires k != []
    ensures Reached(0, Receipts(k)[..1]) == 0 && Reached(0, Receipts(k)[..2]) == 1
    ensures Reached(0, Receipts(k)[..3]) == 1 && Reached(0, Receipts(k)) == 1
    ensures AllOrderly(SourceOf(k), 0, 1, 2, Receipts(k))
  {
    var rs := Receipts(k);
    OldReadIsValid(k);
    ChangeIsSafe(k);
    assert SourceOf(k).log[0..1] == [ChangeOf(k)];
    assert rs[..1][..0] == [] && rs[..2][..1] == rs[..1] && rs[..3][..2] == rs[..2] && rs[..4][..3] == rs[..3];
    assert rs[..4] == rs;
  }

  /** The row came last with the second chunk, read before the change and received after it. */
  lemma LastRowIsOld(k: Key)
    requires k != []
    ensures LastLanding(SourceOf(k), 2, 0, Receipts(k), "t", k) == Some(Landing(0, 1))
    ensures LandedStale(SourceOf(k), 1, "t", k, Some(Landing(0, 1)))
  {
    var rs := Receipts(k);
    ReceiptsAreOrderly(k);
    SourceIsValid(k);
    OldChunk(k);
    assert rs[..4] == rs && rs[..4][..3] == rs[..3] && rs[..3][..2] == rs[..2];
    assert ChunkRead(SourceOf(k), 2, OldRead(k)).rows[0].key == k;
    assert Brings(SourceOf(k), 2, rs[2], "t", k);
  }

  lemma ChangeLands(k: Key, receipts: seq<Receipt>)
    requires k != [] && receipts <= Receipts(k)
    ensures ChangeSucceeds(ConfigOf(k), receipts)
  {
    var src := SourceOf(k);
    SourceIsValid(k);
    ReceiptsAreOrderly(k);
    ChangeIsSafe(k);
    assert src.log[0..1] == [ChangeOf(k)];
    OrderlyPrefix(src, 0, 1, 2, receipts, Receipts(k));
    ReceiptsLand(src, EMPTY, 0, 1, 2, receipts);
    BatchLands(src, EMPTY, 0, Reached(0, receipts), GotAll(src, 2, FullSyncMode, EMPTY, receipts), 0, 1, false);
  }

  lemma OldReadIsWhole(k: Key)
    requires k != []
    ensures WholeRead(ConfigOf(k), OldRead(k))
    ensures ChunkFits(SourceOf(k), "t", ChunkIn(ConfigOf(k), OldRead(k)).rows)
  {
    SourceIsValid(k);
    OldReadIsValid(k);
    OldChunk(k);
    ReadFits(SourceOf(k), 0, 1, 2, OldRead(k));
  }

  /** Both sessions are served the old row, and the change after it. */
  lemma Start(c: Config, read: Read) returns (run: seq<Action>, t: State)
    requires c.tables == ["t"] && !HasEventId(c, EMPTY, "t") && WholeRead(c, read)
    ensures Runs(c, Initial(EMPTY), run, t) && Tracks(c, t, [])
    ensures t.sessions == map[1 := Asked([ChunkMessage(read)] + [EventsMessage(0, 1, false)], 1, 0),
                              2 := Asked([ChunkMessage(read)] + [EventsMessage(0, 1, false)], 1, 0)]
  {
    var s := Initial(EMPTY);
    var s1 := s.(sessions := map[1 := Asked([], 0, 0), 2 := Asked([], 0, 0)]);
    var message, more := [ChunkMessage(read)], [EventsMessage(0, 1, false)];
    var s2 := s1.(sessions := map[1 := Asked(message + more, 1, 0), 2 := Asked(message, 1, 0)]);
    t := s2.(sessions := s2.sessions[2 := Asked(message + more, 1, 0)]);
    BothAsk(c, s, s1);
    var a := [Open(1), ReadCursor(1), ReadJob(1), Connect(1)] + [Open(2), ReadCursor(2), ReadJob(2), Connect(2)];
    var b := BothServed(c, read, s1, s2);
    ServingChange(c, s2, 2, message, 0);
    RunsJoin(c, s, a, s1, b, s2);
    RunsJoin(c, s, a + b, s2, [ServeEvents(2, 0, 1, false)], t);
    run := a + b + [ServeEvents(2, 0, 1, false)];
  }

  /** Both sessions bring the row and then the change: the second one overwrites the new row by the old. */
  lemma BothBring(c: Config, read: Read, s: State) returns (run: seq<Action>, t: State)
    requires WholeRead(c, read) && ChunkFits(c.src, "t", ChunkIn(c, read).rows) && Tracks(c, s, [])
    requires s.sessions == map[1 := Asked([ChunkMessage(read)] + [EventsMessage(0, 1, false)], 1, 0),
                               2 := Asked([ChunkMessage(read)] + [EventsMessage(0, 1, false)], 1, 0)]
    requires ChangeSucceeds(c, [] + [GotChunk(read)])
    requires ChangeSucceeds(c, [] + [GotChunk(read)] + [CHANGE] + [GotChunk(read)])
    ensures Runs(c, s, run, t) && Tracks(c, t, [] + [GotChunk(read)] + [CHANGE] + [GotChunk(read)] + [CHANGE])
  {
    var a, mid := BringsBoth(c, read, [], s, 1);
    var b, last := BringsBoth(c, read, [] + [GotChunk(read)] + [CHANGE], mid, 2);
    RunsJoin(c, s, a, mid, b, last);
    run, t := a + b, last;
  }

  /** What the run needs of the source and the read. */
  predicate Fit(c: Config, read: Read) {
    && c.tables == ["t"] && !HasEventId(c, EMPTY, "t") && WholeRead(c, read)
    && ChunkFits(c.src, "t", ChunkIn(c, read).rows)
    && ChangeSucceeds(c, [] + [GotChunk(read)])
    && ChangeSucceeds(c, [] + [GotChunk(read)] + [CHANGE] + [GotChunk(read)])
  }

  lemma OldReadIsFit(k: Key)
    requires k != []
    ensures Fit(ConfigOf(k), OldRead(k))
  {
    SourceIsValid(k);
    OldReadIsWhole(k);
    ChangeLands(k, [] + [GotChunk(OldRead(k))]);
    ChangeLands(k, [] + [GotChunk(OldRead(k))] + [CHANGE] + [GotChunk(OldRead(k))]);
  }

  lemma WholeRun(c: Config, read: Read) returns (run: seq<Action>, t: State)
    requires Fit(c, read)
    ensures Runs(c, Initial(EMPTY), run, t)
    ensures Tracks(c, t, [] + [GotChunk(read)] + [CHANGE] + [GotChunk(read)] + [CHANGE])
  {
    var a, mid := Start(c, read);
    var b, last := BothBring(c, read, mid);
    RunsJoin(c, Initial(EMPTY), a, mid, b, last);
    run, t := a + b, last;
  }

  /** The cursor names the change, so the table is never asked for again. */
  lemma TableIsSkipped(k: Key)
    requires k != []
    ensures HasEventId(ConfigOf(k), GotAll(SourceOf(k), 2, FullSyncMode, EMPTY, Receipts(k)), "t")
  {
    var src, f := SourceOf(k), Feed("p", "t");
    SourceIsValid(k);
    ReceiptsAreOrderly(k);
    ReceiptsLand(src, EMPTY, 0, 1, 2, Receipts(k));
    assert src.log[0..1] == [ChangeOf(k)];
    FeedHasId(EMPTY.cursors, [ChangeOf(k)], f);
    EventsOfMembers([ChangeOf(k)], f);
    assert ChangeOf(k) in [ChangeOf(k)];
    assert CursorOf(GotAll(src, 2, FullSyncMode, EMPTY, Receipts(k)).cursors, f)
        == CursorAfter(EMPTY.cursors, [ChangeOf(k)], f);
  }

  lemma OldRowStays(k: Key)
    requires k != []
    ensures var tables := GotAll(SourceOf(k), 2, FullSyncMode, EMPTY, Receipts(k)).tables;
            && RowIn(tables, "t", k) == Some(RowOf("old"))
            && !AllConverged(SourceOf(k), 1, EMPTY.tables, tables)
    ensures AllOrderly(SourceOf(k), 0, 1, 2, Receipts(k)) && Reached(0, Receipts(k)) == 1
  {
    var src := SourceOf(k);
    SourceIsValid(k);
    ReceiptsAreOrderly(k);
    LastRowIsOld(k);
    RowAfterReceipts(src, EMPTY, 0, 1, 2, Receipts(k), "t", k);
    assert src.log[1..1] == [];
    assert RowIn(EMPTY.tables, "t", k) == None;
    assert RowOf("old")["v"] != RowOf("new")["v"];
    assert !Converged(src, 1, EMPTY.tables, GotAll(src, 2, FullSyncMode, EMPTY, Receipts(k)).tables, "t", k);
  }

  /** All was received, the table is skipped from now on, and the row is still the one from before. */
  ghost predicate Diverged(k: Key, s: State) {
    var c := ConfigOf(k);
    && AllOrderly(c.src, 0, 1, c.limit, s.receipts) && Reached(0, s.receipts) == |c.src.log| && Skips(c, s, "t")
    && SourceCell(c.src, 1, "t", k) == Some(RowOf("new"))
    && RowIn(s.store.tables, "t", k) == Some(RowOf("old"))
    && !AllConverged(c.src, 1, EMPTY.tables, s.store.tables)
  }

  lemma ReceiptsDiverge(k: Key, s: State)
    requires k != [] && Tracks(ConfigOf(k), s, Receipts(k))
    ensures Diverged(k, s)
  {
    SourceIsValid(k);
    TableIsSkipped(k);
    OldRowStays(k);
  }

  /**
   Sessions that overlap may leave the receiver diverged: a run in which the whole log was received in
   order, every chunk was a true read of the source and the table is skipped from now on, while the row
   keeps the value from before the change.
   */
  lemma OverlappingSessionsDiverge(k: Key) returns (run: seq<Action>)
    requires k != []
    ensures Ready(SourceOf(k), EMPTY, 0) && NoEventIds(ConfigOf(k), EMPTY)
    ensures IsRun(ConfigOf(k), Initial(EMPTY), run) && Diverged(k, After(ConfigOf(k), Initial(EMPTY), run))
  {
    SourceIsValid(k);
    OldReadIsFit(k);
    var t: State;
    run, t := WholeRun(ConfigOf(k), OldRead(k));
    assert t.receipts == Receipts(k);
    ReceiptsDiverge(k, t);
  }
}
