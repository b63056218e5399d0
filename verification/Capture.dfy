/**
 Change data capture (internal/service/changefeed/adapter/capture.go): what is kept of a logical
 replication message, and the message loop with its confirmed position. Messages are those of
 sections 55.5 and 55.9 of the PostgreSQL 16 documentation.
 */
module Capture {
  import opened PrimaryKeys
  import opened Rows
  import opened Producers

  /** A column of a tuple: null, a text value, or an unchanged value that was not sent. */
  datatype Column = NullColumn | TextColumn(text: string) | ToastColumn

  type Tuple = seq<Column>

  datatype Relation = Relation(table: string, primaryKey: seq<string>, columns: map<string, nat>, regionField: string)

  datatype Logical =
    | RelationMessage(id: nat, relation: Result<Option<Relation>>)
    | InsertMessage(id: nat, tuple: Tuple)
    | UpdateMessage(id: nat, was: Option<Tuple>, tuple: Tuple)
    | DeleteMessage(id: nat, was: Option<Tuple>)
    | BeginMessage(finalLsn: string)
    | CommitMessage
    | OtherMessage

  datatype Incoming = Nothing | Keepalive(replyRequested: bool) | Data(walStart: nat, length: nat, logical: Logical)

  /** One turn of the loop: whether the status interval has passed, and what is received. */
  datatype Turn = Turn(due: bool, incoming: Incoming)

  datatype Config = Config(updateDiff: bool, localRegion: string)

  /** Key extraction, which may fail, is a parameter of the model. */
  type KeyOf = (Relation, Tuple) -> Result<Key>

  const MAX_VERSION: int := 0x7FFF_FFFF_FFFF_FFFF

  // ---- one message ----

  function ValueOf(c: Column): Value {
    match c
    case NullColumn => Null
    case TextColumn(text) => Val(text)
    case ToastColumn => Val("")
  }

  predicate Sent(r: Relation, tuple: Tuple, column: string) {
    column in r.columns && r.columns[column] < |tuple|
  }

  function ColumnOf(r: Relation, tuple: Tuple, column: string): Column
    requires Sent(r, tuple, column)
  {
    tuple[r.columns[column]]
  }

  /** The non-key columns of a whole tuple. */
  function TuplePayload(r: Relation, tuple: Tuple): Row {
    map c | c in r.columns && c !in r.primaryKey && Sent(r, tuple, c) :: ValueOf(ColumnOf(r, tuple, c))
  }

  predicate HasToast(r: Relation, tuple: Tuple) {
    exists c :: c in r.columns && Sent(r, tuple, c) && ColumnOf(r, tuple, c).ToastColumn?
  }

  predicate Differs(r: Relation, was: Tuple, next: Tuple, c: string) {
    && Sent(r, next, c) && !ColumnOf(r, next, c).ToastColumn?
    && !(Sent(r, was, c) && ColumnOf(r, was, c) == ColumnOf(r, next, c))
  }

  /** buildUpdateDiffPayload: the non-key columns that were sent and changed. */
  function DiffPayload(r: Relation, was: Tuple, next: Tuple): Row {
    map c | c in r.columns && c !in r.primaryKey && Differs(r, was, next, c) :: ValueOf(ColumnOf(r, next, c))
  }

  predicate RegionIsLocal(r: Relation, tuple: Tuple, region: string) {
    && r.regionField != "" && region != "" && Sent(r, tuple, r.regionField)
    && ColumnOf(r, tuple, r.regionField) == TextColumn(region)
  }

  /** The captured change of a message: an error, nothing to keep, or a change. */
  function ChangeAt(
    r: Relation, keyOf: KeyOf, tuple: Tuple, op: Operation, lsn: nat, fields: Row): Result<Option<Change>>
  {
    match keyOf(r, tuple)
    case Failure => Failure
    case Success(key) => if lsn > MAX_VERSION then Failure else Success(Some(Change(r.table, key, op, lsn, fields)))
  }

  function WriteChange(
    cfg: Config, keyOf: KeyOf, r: Relation, tuple: Tuple, op: Operation, lsn: nat): Result<Option<Change>>
  {
    if !RegionIsLocal(r, tuple, cfg.localRegion) then Success(None)
    else if HasToast(r, tuple) then Failure
    else ChangeAt(r, keyOf, tuple, op, lsn, TuplePayload(r, tuple))
  }

  function UpdateChange(
    cfg: Config, keyOf: KeyOf, r: Relation, was: Option<Tuple>, tuple: Tuple, lsn: nat): Result<Option<Change>>
  {
    if !cfg.updateDiff then WriteChange(cfg, keyOf, r, tuple, Update, lsn)
    else if !RegionIsLocal(r, tuple, cfg.localRegion) then Success(None)
    else if was.None? then Failure
    else ChangeAt(r, keyOf, tuple, Update, lsn, DiffPayload(r, was.value, tuple))
  }

  function DeleteChange(cfg: Config, keyOf: KeyOf, r: Relation, was: Option<Tuple>, lsn: nat): Result<Option<Change>> {
    if r.regionField == "" || cfg.localRegion == "" || was.None? || !Sent(r, was.value, r.regionField)
       || !ColumnOf(r, was.value, r.regionField).TextColumn? then Failure
    else if !RegionIsLocal(r, was.value, cfg.localRegion) then Success(None)
    else ChangeAt(r, keyOf, was.value, Delete, lsn, map[])
  }

  /** The relations known so far, and the id last seen for each table. */
  datatype Known = Known(relations: map<nat, Relation>, idByTable: map<string, nat>)

  const NOTHING_KNOWN: Known := Known(map[], map[])

  function Learned(known: Known, m: Logical): Known {
    if m.RelationMessage? && m.relation.Success? && m.relation.value.Some? then
      var table := m.relation.value.value.table;
      var kept := if table in known.idByTable && known.idByTable[table] != m.id
                  then known.relations - {known.idByTable[table]} else known.relations;
      Known(kept[m.id := m.relation.value.value], known.idByTable[table := m.id])
    else known
  }

  function Captured(cfg: Config, keyOf: KeyOf, known: Known, m: Logical, lsn: nat): Result<Option<Change>> {
    match m
    case RelationMessage(id, relation) => if relation.Failure? then Failure else Success(None)
    case InsertMessage(id, tuple) =>
      if id in known.relations then WriteChange(cfg, keyOf, known.relations[id], tuple, Insert, lsn) else Success(None)
    case UpdateMessage(id, was, tuple) =>
      if id in known.relations then UpdateChange(cfg, keyOf, known.relations[id], was, tuple, lsn) else Success(None)
    case DeleteMessage(id, was) =>
      if id in known.relations then DeleteChange(cfg, keyOf, known.relations[id], was, lsn) else Success(None)
    case _ => Success(None)
  }

  // ---- the stream ----

  function LogicalOf(t: Turn): Logical {
    if t.incoming.Data? then t.incoming.logical else OtherMessage
  }

  function EndOf(t: Turn): nat {
    if t.incoming.Data? then t.incoming.walStart + t.incoming.length else 0
  }

  function KnownAfter(turns: seq<Turn>): Known {
    if turns == [] then NOTHING_KNOWN else Learned(KnownAfter(turns[..|turns| - 1]), LogicalOf(turns[|turns| - 1]))
  }

  function CapturedAt(cfg: Config, keyOf: KeyOf, turns: seq<Turn>, i: nat): Result<Option<Change>>
    requires i < |turns|
  {
    Captured(cfg, keyOf, KnownAfter(turns[..i]), LogicalOf(turns[i]), EndOf(turns[i]))
  }

  /** The kept changes of the turns from one index up to another, in order. */
  function KeptBetween(cfg: Config, keyOf: KeyOf, turns: seq<Turn>, from: nat, to: nat): seq<Change>
    requires from <= to <= |turns|
  {
    if from == to then []
    else
      KeptBetween(cfg, keyOf, turns, from, to - 1)
      + (match CapturedAt(cfg, keyOf, turns, to - 1)
         case Success(Some(change)) => [change]
         case _ => [])
  }

  predicate IsBoundary(m: Logical) {
    m.BeginMessage? || m.CommitMessage?
  }

  /** The index after the last begin or commit. */
  function SegmentStart(turns: seq<Turn>, n: nat): (i: nat)
    requires n <= |turns|
    ensures i <= n
    ensures i > 0 ==> IsBoundary(LogicalOf(turns[i - 1]))
    ensures forall j :: i <= j < n ==> !IsBoundary(LogicalOf(turns[j]))
  {
    if n == 0 then 0 else if IsBoundary(LogicalOf(turns[n - 1])) then n else SegmentStart(turns, n - 1)
  }

  /** The transaction id at a point: that of the begin which opened the segment. */
  function TxIdAt(turns: seq<Turn>, n: nat): string
    requires n <= |turns|
  {
    var i := SegmentStart(turns, n);
    if i > 0 && LogicalOf(turns[i - 1]).BeginMessage? then LogicalOf(turns[i - 1]).finalLsn else ""
  }

  /** The batch a commit hands over: the kept changes of its segment. */
  function BatchAt(cfg: Config, keyOf: KeyOf, turns: seq<Turn>, n: nat): ChangeBatch
    requires n <= |turns|
  {
    ChangeBatch(TxIdAt(turns, n), KeptBetween(cfg, keyOf, turns, SegmentStart(turns, n), n))
  }

  /** The batches of the commits among the first n turns; a commit without changes has none. */
  function BatchesUpTo(cfg: Config, keyOf: KeyOf, turns: seq<Turn>, n: nat): seq<ChangeBatch>
    requires n <= |turns|
  {
    if n == 0 then []
    else
      BatchesUpTo(cfg, keyOf, turns, n - 1)
      + (if LogicalOf(turns[n - 1]).CommitMessage? && BatchAt(cfg, keyOf, turns, n - 1).changes != []
         then [BatchAt(cfg, keyOf, turns, n - 1)] else [])
  }

  /**
   A position that may be confirmed: the start, or the end of a commit such that the batches of it
   and of all earlier commits are among the accepted ones.
   */
  predicate Confirmable(cfg: Config, keyOf: KeyOf, start: nat, turns: seq<Turn>, accepted: seq<ChangeBatch>, lsn: nat) {
    || lsn == start
    || exists i :: 0 <= i < |turns| && CommitCovered(cfg, keyOf, turns, accepted, i) && lsn == EndOf(turns[i])
  }

  predicate CommitCovered(cfg: Config, keyOf: KeyOf, turns: seq<Turn>, accepted: seq<ChangeBatch>, i: nat)
    requires i < |turns|
  {
    LogicalOf(turns[i]).CommitMessage? && BatchesUpTo(cfg, keyOf, turns, i + 1) <= accepted
  }

  predicate AllConfirmable(
    cfg: Config, keyOf: KeyOf, start: nat, turns: seq<Turn>, accepted: seq<ChangeBatch>, statuses: seq<nat>)
  {
    forall s :: s in statuses ==> Confirmable(cfg, keyOf, start, turns, accepted, s)
  }

  lemma MoreAccepted(
    cfg: Config, keyOf: KeyOf, start: nat, turns: seq<Turn>, before: seq<ChangeBatch>, after: seq<ChangeBatch>,
    statuses: seq<nat>)
    requires AllConfirmable(cfg, keyOf, start, turns, before, statuses) && before <= after
    ensures AllConfirmable(cfg, keyOf, start, turns, after, statuses)
  {
    forall s | s in statuses
      ensures Confirmable(cfg, keyOf, start, turns, after, s)
    {
      assert Confirmable(cfg, keyOf, start, turns, before, s);
      if s != start {
        var i :| 0 <= i < |turns| && CommitCovered(cfg, keyOf, turns, before, i) && s == EndOf(turns[i]);
        assert CommitCovered(cfg, keyOf, turns, after, i);
      }
    }
  }

  /** The loop's variables after n turns. */
  predicate InStep(
    cfg: Config, keyOf: KeyOf, turns: seq<Turn>, n: nat, known: Known, changes: seq<Change>, txId: string,
    accepted: seq<ChangeBatch>)
  {
    && n <= |turns| && known == KnownAfter(turns[..n])
    && ChangeBatch(txId, changes) == BatchAt(cfg, keyOf, turns, n)
    && accepted == BatchesUpTo(cfg, keyOf, turns, n)
  }

  lemma KnownStep(turns: seq<Turn>, n: nat)
    requires n < |turns|
    ensures KnownAfter(turns[..n + 1]) == Learned(KnownAfter(turns[..n]), LogicalOf(turns[n]))
  {
    assert turns[..n + 1][..n] == turns[..n];
  }

  lemma KeepStep(
    cfg: Config, keyOf: KeyOf, turns: seq<Turn>, n: nat, known: Known, changes: seq<Change>, txId: string,
    accepted: seq<ChangeBatch>, kept: seq<Change>)
    requires n < |turns| && InStep(cfg, keyOf, turns, n, known, changes, txId, accepted)
    requires !IsBoundary(LogicalOf(turns[n]))
    requires var c := Captured(cfg, keyOf, known, LogicalOf(turns[n]), EndOf(turns[n]));
             c.Success? && kept == if c.value.Some? then [c.value.value] else []
    ensures InStep(cfg, keyOf, turns, n + 1, Learned(known, LogicalOf(turns[n])), changes + kept, txId, accepted)
  {
    KnownStep(turns, n);
    assert SegmentStart(turns, n + 1) == SegmentStart(turns, n);
  }

  lemma BoundaryStep(
    cfg: Config, keyOf: KeyOf, turns: seq<Turn>, n: nat, known: Known, changes: seq<Change>, txId: string,
    accepted: seq<ChangeBatch>)
    requires n < |turns| && InStep(cfg, keyOf, turns, n, known, changes, txId, accepted)
    requires IsBoundary(LogicalOf(turns[n]))
    ensures var m := LogicalOf(turns[n]);
            InStep(cfg, keyOf, turns, n + 1, known, [], if m.BeginMessage? then m.finalLsn else "",
                   if m.CommitMessage? && changes != [] then accepted + [ChangeBatch(txId, changes)] else accepted)
  {
    KnownStep(turns, n);
    assert SegmentStart(turns, n + 1) == n + 1;
  }

  /** The loop's variables, and that nothing confirmed or about to be confirmed runs ahead. */
  datatype Progress = Progress(
    known: Known, changes: seq<Change>, txId: string, accepted: seq<ChangeBatch>, durable: nat, statuses: seq<nat>)

  predicate Sound(cfg: Config, keyOf: KeyOf, start: nat, turns: seq<Turn>, n: nat, p: Progress) {
    && InStep(cfg, keyOf, turns, n, p.known, p.changes, p.txId, p.accepted)
    && Confirmable(cfg, keyOf, start, turns, p.accepted, p.durable)
    && AllConfirmable(cfg, keyOf, start, turns, p.accepted, p.statuses)
  }

  lemma SoundStatus(cfg: Config, keyOf: KeyOf, start: nat, turns: seq<Turn>, n: nat, p: Progress)
    requires Sound(cfg, keyOf, start, turns, n, p)
    ensures Sound(cfg, keyOf, start, turns, n, p.(statuses := p.statuses + [p.durable]))
  {
  }

  lemma SoundBegin(cfg: Config, keyOf: KeyOf, start: nat, turns: seq<Turn>, n: nat, p: Progress)
    requires Sound(cfg, keyOf, start, turns, n, p) && n < |turns| && LogicalOf(turns[n]).BeginMessage?
    ensures Sound(cfg, keyOf, start, turns, n + 1, p.(changes := [], txId := LogicalOf(turns[n]).finalLsn))
  {
    BoundaryStep(cfg, keyOf, turns, n, p.known, p.changes, p.txId, p.accepted);
  }

  lemma SoundCommit(
    cfg: Config, keyOf: KeyOf, start: nat, turns: seq<Turn>, n: nat, p: Progress, accepted: seq<ChangeBatch>)
    requires Sound(cfg, keyOf, start, turns, n, p) && n < |turns| && LogicalOf(turns[n]).CommitMessage?
    requires accepted == if p.changes != [] then p.accepted + [ChangeBatch(p.txId, p.changes)] else p.accepted
    ensures Sound(cfg, keyOf, start, turns, n + 1,
                  p.(changes := [], txId := "", accepted := accepted, durable := EndOf(turns[n])))
  {
    BoundaryStep(cfg, keyOf, turns, n, p.known, p.changes, p.txId, p.accepted);
    MoreAccepted(cfg, keyOf, start, turns, p.accepted, accepted, p.statuses);
    assert CommitCovered(cfg, keyOf, turns, accepted, n);
  }

  lemma SoundKeep(cfg: Config, keyOf: KeyOf, start: nat, turns: seq<Turn>, n: nat, p: Progress, kept: seq<Change>)
    requires Sound(cfg, keyOf, start, turns, n, p) && n < |turns| && !IsBoundary(LogicalOf(turns[n]))
    requires var c := Captured(cfg, keyOf, p.known, LogicalOf(turns[n]), EndOf(turns[n]));
             c.Success? && kept == if c.value.Some? then [c.value.value] else []
    ensures Sound(cfg, keyOf, start, turns, n + 1,
                  p.(changes := p.changes + kept, known := Learned(p.known, LogicalOf(turns[n]))))
  {
    KeepStep(cfg, keyOf, turns, n, p.known, p.changes, p.txId, p.accepted, kept);
  }

  // ---- when the loop stops, and what it confirms ----

  /** A turn that ends the loop: a change that cannot be captured, or a batch that is refused. */
  predicate Stops(cfg: Config, keyOf: KeyOf, turns: seq<Turn>, accepts: nat, n: nat)
    requires n < |turns|
  {
    || CapturedAt(cfg, keyOf, turns, n).Failure?
    || (LogicalOf(turns[n]).CommitMessage? && BatchAt(cfg, keyOf, turns, n).changes != []
        && |BatchesUpTo(cfg, keyOf, turns, n)| == accepts)
  }

  /** The end of the last commit, or the start. */
  function Durable(start: nat, turns: seq<Turn>, n: nat): nat
    requires n <= |turns|
  {
    if n == 0 then start
    else if LogicalOf(turns[n - 1]).CommitMessage? then EndOf(turns[n - 1])
    else Durable(start, turns, n - 1)
  }

  predicate AskedBefore(turns: seq<Turn>, n: nat)
    requires n <= |turns|
  {
    n > 0 && turns[n - 1].incoming == Keepalive(true)
  }

  /** A status is due when the interval has passed, or the sender has just asked for one. */
  predicate StatusDue(turns: seq<Turn>, n: nat)
    requires n < |turns|
  {
    turns[n].due || AskedBefore(turns, n)
  }

  /** The positions confirmed in the first n turns: at each status that of the newest durable commit. */
  function StatusesUpTo(start: nat, turns: seq<Turn>, n: nat): seq<nat>
    requires n <= |turns|
  {
    if n == 0 then []
    else
      StatusesUpTo(start, turns, n - 1) + (if StatusDue(turns, n - 1) then [Durable(start, turns, n - 1)] else [])
  }

  /** Before turn n: nothing has stopped the loop, and so many turns have had their status. */
  predicate Going(
    cfg: Config, keyOf: KeyOf, start: nat, turns: seq<Turn>, accepts: nat, n: nat, reported: nat, p: Progress)
  {
    && n <= |turns| && reported <= |turns| && Sound(cfg, keyOf, start, turns, n, p)
    && p.durable == Durable(start, turns, n) && p.statuses == StatusesUpTo(start, turns, reported)
    && NoneStops(cfg, keyOf, turns, accepts, n)
  }

  predicate NoneStops(cfg: Config, keyOf: KeyOf, turns: seq<Turn>, accepts: nat, n: nat)
    requires n <= |turns|
  {
    forall i :: 0 <= i < n ==> !Stops(cfg, keyOf, turns, accepts, i)
  }

  lemma CommitGoesOn(
    cfg: Config, keyOf: KeyOf, turns: seq<Turn>, accepts: nat, n: nat, p: Progress)
    requires n < |turns| && InStep(cfg, keyOf, turns, n, p.known, p.changes, p.txId, p.accepted)
    requires NoneStops(cfg, keyOf, turns, accepts, n) && LogicalOf(turns[n]).CommitMessage?
    requires p.changes != [] ==> |p.accepted| != accepts
    ensures NoneStops(cfg, keyOf, turns, accepts, n + 1)
  {
    assert !Stops(cfg, keyOf, turns, accepts, n);
  }

  lemma GoingStatus(cfg: Config, keyOf: KeyOf, start: nat, turns: seq<Turn>, accepts: nat, n: nat, p: Progress)
    requires n < |turns| && Going(cfg, keyOf, start, turns, accepts, n, n, p)
    ensures Going(cfg, keyOf, start, turns, accepts, n, n + 1,
                  if StatusDue(turns, n) then p.(statuses := p.statuses + [p.durable]) else p)
  {
    SoundStatus(cfg, keyOf, start, turns, n, p);
  }

  lemma GoingBegin(cfg: Config, keyOf: KeyOf, start: nat, turns: seq<Turn>, accepts: nat, n: nat, p: Progress)
    requires n < |turns| && Going(cfg, keyOf, start, turns, accepts, n, n + 1, p) && LogicalOf(turns[n]).BeginMessage?
    ensures Going(cfg, keyOf, start, turns, accepts, n + 1, n + 1,
                  p.(changes := [], txId := LogicalOf(turns[n]).finalLsn))
  {
    SoundBegin(cfg, keyOf, start, turns, n, p);
    assert !Stops(cfg, keyOf, turns, accepts, n);
  }

  lemma GoingCommit(
    cfg: Config, keyOf: KeyOf, start: nat, turns: seq<Turn>, accepts: nat, n: nat, p: Progress,
    accepted: seq<ChangeBatch>)
    requires n < |turns| && Going(cfg, keyOf, start, turns, accepts, n, n + 1, p) && LogicalOf(turns[n]).CommitMessage?
    requires p.changes != [] ==> |p.accepted| != accepts
    requires accepted == if p.changes != [] then p.accepted + [ChangeBatch(p.txId, p.changes)] else p.accepted
    ensures Going(cfg, keyOf, start, turns, accepts, n + 1, n + 1,
                  p.(changes := [], txId := "", accepted := accepted, durable := EndOf(turns[n])))
  {
    CommitGoesOn(cfg, keyOf, turns, accepts, n, p);
    SoundCommit(cfg, keyOf, start, turns, n, p, accepted);
  }

  lemma GoingKeep(
    cfg: Config, keyOf: KeyOf, start: nat, turns: seq<Turn>, accepts: nat, n: nat, p: Progress, kept: seq<Change>)
    requires n < |turns| && Going(cfg, keyOf, start, turns, accepts, n, n + 1, p) && !IsBoundary(LogicalOf(turns[n]))
    requires var c := Captured(cfg, keyOf, p.known, LogicalOf(turns[n]), EndOf(turns[n]));
             c.Success? && kept == if c.value.Some? then [c.value.value] else []
    ensures Going(cfg, keyOf, start, turns, accepts, n + 1, n + 1,
                  p.(changes := p.changes + kept, known := Learned(p.known, LogicalOf(turns[n]))))
  {
    SoundKeep(cfg, keyOf, start, turns, n, p, kept);
    assert !Stops(cfg, keyOf, turns, accepts, n);
  }

  /**
   The loop. The callback accepts the given number of batches and refuses the next. The loop ends at
   the first turn that stops it; the accepted batches are those of the commits before it, in order;
   each status carries the newest durable position, and no confirmed position runs ahead.
   */
  method Run(cfg: Config, keyOf: KeyOf, start: nat, turns: seq<Turn>, accepts: nat)
    returns (ok: bool, statuses: seq<nat>, accepted: seq<ChangeBatch>, ghost ended: nat)
    ensures ended <= |turns| && (ok <==> ended == |turns|)
    ensures forall i :: 0 <= i < ended ==> !Stops(cfg, keyOf, turns, accepts, i)
    ensures !ok ==> Stops(cfg, keyOf, turns, accepts, ended)
    ensures accepted == BatchesUpTo(cfg, keyOf, turns, ended)
    ensures statuses == StatusesUpTo(start, turns, if ok then ended else ended + 1)
    ensures AllConfirmable(cfg, keyOf, start, turns, accepted, statuses)
  {
    var p := Progress(NOTHING_KNOWN, [], "", [], start, []);
    var reply := false;
    for n := 0 to |turns|
      invariant Going(cfg, keyOf, start, turns, accepts, n, n, p) && reply == AskedBefore(turns, n)
    {
      GoingStatus(cfg, keyOf, start, turns, accepts, n, p);
      if turns[n].due || reply {
        p := p.(statuses := p.statuses + [p.durable]);
      }
      var incoming, m := turns[n].incoming, LogicalOf(turns[n]);
      reply := incoming.Keepalive? && incoming.replyRequested;
      if m.BeginMessage? {
        GoingBegin(cfg, keyOf, start, turns, accepts, n, p);
        p := p.(changes := [], txId := m.finalLsn);
      } else if m.CommitMessage? {
        var handed := p.accepted;
        if |p.changes| > 0 {
          if |handed| == accepts {
            return false, p.statuses, p.accepted, n;
          }
          handed := handed + [ChangeBatch(p.txId, p.changes)];
        }
        GoingCommit(cfg, keyOf, start, turns, accepts, n, p, handed);
        p := p.(changes := [], txId := "", accepted := handed, durable := EndOf(turns[n]));
      } else {
        var captured := Captured(cfg, keyOf, p.known, m, EndOf(turns[n]));
        if captured.Failure? {
          return false, p.statuses, p.accepted, n;
        }
        var kept := if captured.value.Some? then [captured.value.value] else [];
        GoingKeep(cfg, keyOf, start, turns, accepts, n, p, kept);
        p := p.(changes := p.changes + kept, known := Learned(p.known, m));
      }
    }
    return true, p.statuses, p.accepted, |turns|;
  }
}
