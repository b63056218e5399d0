/**
 Chunks and event batches on one store, in the order in which the receiver gets them: a chunk may
 arrive after events that are younger than it. When does the receiver still converge?
 Sources: internal/transport/grpc/client/recv.go:43-158, internal/repository/postgres/snapshot.go:97-164,
 internal/repository/postgres/state_events.go:10-90.
 */
module Convergence {
  import opened PrimaryKeys
  import opened Positions
  import opened Rows
  import opened BatchApply
  import opened Commit
  import opened Transactions
  import opened ApplyService
  import opened OwnerGating
  import opened FuzzySnapshot
  import Send = SnapshotSend

  /** A chunk, or the batch of the changes from one log point to another. */
  datatype Receipt = GotChunk(read: Read) | GotBatch(lo: nat, hi: nat, polling: bool)

  function Slice(src: Source, lo: nat, hi: nat): seq<Event> {
    if lo <= hi <= |src.log| then src.log[lo..hi] else []
  }

  predicate ChunkFits(src: Source, name: string, rows: seq<SnapshotRow>) {
    rows == []
    || (name in src.specs
        && UpsertColumns(src.specs[name], RowUpsert(src.peer, name, rows[0])) <= src.specs[name].columns)
  }

  /** The store after a receipt; a failing statement changes nothing. */
  function Got(src: Source, limit: nat, mode: ApplyMode, st: Store, r: Receipt): Result<Store> {
    match r
    case GotChunk(read) =>
      var rows := ChunkRead(src, limit, read).rows;
      if ChunkFits(src, read.name, rows)
      then Success(st.(tables := ChunkApplied(src.specs, src.peer, st.tables, read.name, rows)))
      else Failure
    case GotBatch(lo, hi, polling) => Applied(src.specs, mode, polling, st, Slice(src, lo, hi))
  }

  function GotOr(src: Source, limit: nat, mode: ApplyMode, st: Store, r: Receipt): Store {
    match Got(src, limit, mode, st, r)
    case Success(next) => next
    case Failure => st
  }

  function GotAll(src: Source, limit: nat, mode: ApplyMode, st: Store, receipts: seq<Receipt>): Store {
    if receipts == [] then st
    else GotOr(src, limit, mode, GotAll(src, limit, mode, st, receipts[..|receipts| - 1]), receipts[|receipts| - 1])
  }

  /** The log point up to which changes were received. */
  function Reached(from: nat, receipts: seq<Receipt>): nat {
    if receipts == [] then from
    else
      var before, r := Reached(from, receipts[..|receipts| - 1]), receipts[|receipts| - 1];
      if r.GotBatch? && r.hi > before then r.hi else before
  }

  predicate OneTable(es: seq<Event>) {
    forall e, d :: e in es && d in es ==> e.table == d.table
  }

  /** Reads of the source between two points, and batches of its log without a gap, repeats allowed. */
  ghost predicate Orderly(src: Source, from: nat, to: nat, limit: nat, done: nat, r: Receipt) {
    match r
    case GotChunk(read) => ValidRead(src, from, to, limit, read)
    case GotBatch(lo, hi, polling) =>
      && from <= lo <= done && lo <= hi <= |src.log| && SafeTransaction(src.peer, src.log[lo..hi])
      && (polling ==> OneTable(src.log[lo..hi]))
  }

  ghost predicate AllOrderly(src: Source, from: nat, to: nat, limit: nat, receipts: seq<Receipt>) {
    forall i :: 0 <= i < |receipts| ==> Orderly(src, from, to, limit, Reached(from, receipts[..i]), receipts[i])
  }

  /** The receiver before: none of the source's rows, and cursors before the log. */
  ghost predicate Ready(src: Source, st: Store, from: nat) {
    && ValidSource(src) && WellFormedBatch(src.log) && from <= |src.log|
    && ValidTables(src.specs, st.tables) && OnlyForeign(src, st.tables) && InOrder(st.cursors, src.log[from..])
  }

  // ---- a batch ----

  lemma {:induction false} FullSyncAllowsAll(es: seq<Event>)
    ensures Allowed(FullSyncMode, es) == es
  {
    if es != [] {
      FullSyncAllowsAll(es[..|es| - 1]);
      assert es == es[..|es| - 1] + [es[|es| - 1]];
    }
  }

  lemma OrderedIsSorted(es: seq<Event>)
    requires ApplyService.Ordered(es)
    ensures Sorted(es) == es
  {
    SortedIsStableSort(es);
    StableSortUnique(Sorted(es), es);
  }

  lemma OneTableIsOrdered(src: Source, from: nat, lo: nat, hi: nat, cursors: Cursors)
    requires ValidSource(src) && from <= lo <= hi <= |src.log| && InOrder(cursors, src.log[from..])
    requires OneTable(src.log[lo..hi])
    ensures ApplyService.Ordered(src.log[lo..hi])
  {
    var es, all := src.log[lo..hi], src.log[from..];
    forall i, j | 0 <= i < j < |es|
      ensures !PlaceLess(PlaceOf(es[j]), PlaceOf(es[i]))
    {
      assert es[i] == all[lo - from + i] && es[j] == all[lo - from + j];
      assert ValidChange(src, lo + i) && ValidChange(src, lo + j);
      assert es[i] in es && es[j] in es;
      assert Before(PositionOf(es[i]), PositionOf(es[j]));
      PlacesAreOrdered(PlaceOf(es[i]), PlaceOf(es[j]), PlaceOf(es[i]));
    }
  }

  /** A batch of the log reaches the repository as it is. */
  lemma PreparedIsBatch(src: Source, from: nat, lo: nat, hi: nat, polling: bool, cursors: Cursors)
    requires ValidSource(src) && from <= lo <= hi <= |src.log| && InOrder(cursors, src.log[from..])
    requires polling ==> OneTable(src.log[lo..hi])
    ensures Prepared(FullSyncMode, polling, src.log[lo..hi]) == src.log[lo..hi]
  {
    FullSyncAllowsAll(src.log[lo..hi]);
    if polling {
      OneTableIsOrdered(src, from, lo, hi, cursors);
      OrderedIsSorted(src.log[lo..hi]);
    }
  }

  lemma {:induction false} KnownWeaves(known: seq<Event>, novel: seq<Event>, all: set<Event>)
    requires forall e :: e in known ==> e in all
    ensures Weaves(known + novel, novel, all)
    decreases |known| + |novel|
  {
    var delivered := known + novel;
    if known != [] {
      assert delivered[0] == known[0] && delivered[1..] == known[1..] + novel;
      KnownWeaves(known[1..], novel, all);
    } else if novel != [] {
      assert delivered == novel;
      KnownWeaves([], novel[1..], all + {novel[0]});
      assert [] + novel[1..] == novel[1..];
    }
  }

  /** A part of a safe transaction is safe. */
  lemma SuffixIsSafe(peer: string, a: seq<Event>, b: seq<Event>)
    requires SafeTransaction(peer, a + b)
    ensures SafeTransaction(peer, b)
  {
    forall name: string
      ensures BatchSafe(EventsOf(b, Feed(peer, name)))
    {
      EventsOfJoins(a, b, Feed(peer, name));
      assert BatchSafe(EventsOf(a + b, Feed(peer, name)));
      SafeSuffix(EventsOf(a, Feed(peer, name)), EventsOf(b, Feed(peer, name)));
    }
  }

  lemma {:induction false} EventsOfJoins(a: seq<Event>, b: seq<Event>, f: Feed)
    ensures EventsOf(a + b, f) == EventsOf(a, f) + EventsOf(b, f)
    decreases |b|
  {
    var all := a + b;
    if b == [] {
      assert all == a;
    } else {
      assert all[..|all| - 1] == a + b[..|b| - 1];
      EventsOfJoins(a, b[..|b| - 1], f);
    }
  }

  lemma SafeSuffix(a: seq<Event>, b: seq<Event>)
    requires BatchSafe(a + b)
    ensures BatchSafe(b)
  {
    var all := a + b;
    forall i | 0 <= i < |b|
      ensures !LostUpdate(b, i)
    {
      assert all[|a| + i] == b[i] && !LostUpdate(all, |a| + i);
      assert forall m :: 0 <= m < |b| ==> all[|a| + m] == b[m];
      assert (forall m :: i < m < |b| ==> b[m].key != b[i].key) ==>
          forall m :: |a| + i < m < |all| ==> all[m].key != all[|a| + i].key by {
        assert forall m :: |a| + i < m < |all| ==> all[m] == b[m - |a|];
      }
    }
  }

  /** What the receiver has of the log: cursors at the last changes, all of them covered. */
  ghost predicate CaughtUp(src: Source, start: Store, from: nat, done: nat, st: Store) {
    && from <= done <= |src.log| && ValidTables(src.specs, st.tables)
    && (forall f :: CursorOf(st.cursors, f) == CursorAfter(start.cursors, src.log[from..done], f))
    && Covers(st.cursors, set e | e in src.log[from..done])
  }

  lemma CursorAfterJoins(cursors: Cursors, a: seq<Event>, mid: Cursors, b: seq<Event>, f: Feed)
    requires CursorOf(mid, f) == CursorAfter(cursors, a, f)
    ensures CursorAfter(mid, b, f) == CursorAfter(cursors, a + b, f)
  {
    EventsOfJoins(a, b, f);
  }

  lemma AfterIsWithin(cursors: Cursors, es: seq<Event>, after: Cursors, f: Feed)
    requires CursorOf(after, f) == CursorAfter(cursors, es, f)
    ensures CursorWithin(cursors, es, after, f)
  {
    EventsOfMembers(es, f);
    var sub := EventsOf(es, f);
    if sub != [] {
      assert sub[|sub| - 1] in sub;
    }
  }

  lemma SliceIsFull(src: Source, lo: nat, hi: nat)
    requires ValidSource(src) && lo <= hi <= |src.log|
    ensures FullTransaction(src.specs, src.peer, src.log[lo..hi])
  {
    forall e | e in src.log[lo..hi]
      ensures e.table in src.specs && FullImage(src.specs[e.table], src.peer, e)
    {
      var i :| lo <= i < hi && src.log[i] == e;
      assert ValidChange(src, i);
    }
  }

  lemma NovelInOrder(src: Source, start: Store, from: nat, done: nat, st: Store, hi: nat)
    requires Ready(src, start, from) && CaughtUp(src, start, from, done, st) && done <= hi <= |src.log|
    ensures InOrder(st.cursors, src.log[done..hi])
  {
    var a, b := src.log[from..done], src.log[done..hi];
    assert src.log[from..hi] == a + b;
    assert src.log[from..] == src.log[from..hi] + src.log[hi..];
    InOrderPrefix(start.cursors, src.log[from..hi], src.log[hi..]);
    forall f
      ensures CursorWithin(start.cursors, a, st.cursors, f)
    {
      AfterIsWithin(start.cursors, a, st.cursors, f);
    }
    InOrderSplit(start.cursors, a, b, st.cursors);
  }

  lemma CoversMore(before: Cursors, after: Cursors, a: seq<Event>, b: seq<Event>)
    requires Covers(before, set e | e in a) && NotBehind(before, after)
    requires forall e :: e in b ==> FeedOf(e) in after && StaleAt(after, e)
    ensures Covers(after, set e | e in a + b)
  {
    CoversLater(before, after, set e | e in a);
  }

  /** The new part of a batch commits, change by change. */
  lemma NovelCommits(src: Source, start: Store, from: nat, done: nat, st: Store, hi: nat)
    requires Ready(src, start, from) && CaughtUp(src, start, from, done, st) && done <= hi <= |src.log|
    requires SafeTransaction(src.peer, src.log[done..hi])
    ensures var r := Committed(src.specs, FullSyncMode, st, src.log[done..hi]);
            && r.Success? && r.value.tables == OneByOne(src.specs, FullSyncMode, st.tables, src.log[done..hi])
            && CaughtUp(src, start, from, hi, r.value)
  {
    var b := src.log[done..hi];
    NovelInOrder(src, start, from, done, st, hi);
    SliceIsFull(src, done, hi);
    CommitIsOneByOne(src.specs, FullSyncMode, src.peer, st, b);
    OneByOneValid(src.specs, st.tables, b);
    CommitMovesForward(src.specs, FullSyncMode, st, b);
    CaughtUpNext(src, start, from, done, st, hi, Committed(src.specs, FullSyncMode, st, b).value);
  }

  lemma CaughtUpNext(src: Source, start: Store, from: nat, done: nat, st: Store, hi: nat, next: Store)
    requires CaughtUp(src, start, from, done, st) && done <= hi <= |src.log|
    requires ValidTables(src.specs, next.tables) && NotBehind(st.cursors, next.cursors)
    requires forall e :: e in src.log[done..hi] ==> FeedOf(e) in next.cursors && StaleAt(next.cursors, e)
    requires forall f :: CursorOf(next.cursors, f) == CursorAfter(st.cursors, src.log[done..hi], f)
    ensures CaughtUp(src, start, from, hi, next)
  {
    var a, b := src.log[from..done], src.log[done..hi];
    assert src.log[from..hi] == a + b;
    CoversMore(st.cursors, next.cursors, a, b);
    forall f
      ensures CursorOf(next.cursors, f) == CursorAfter(start.cursors, a + b, f)
    {
      CursorAfterJoins(start.cursors, a, st.cursors, b, f);
    }
  }

  function Later(done: nat, hi: nat): nat {
    if hi > done then hi else done
  }

  /** The part of a batch that was received before makes no difference. */
  lemma KnownAbsorbed(src: Source, start: Store, from: nat, done: nat, st: Store, lo: nat, mid: nat, hi: nat)
    requires CaughtUp(src, start, from, done, st) && from <= lo <= mid <= done && mid <= hi <= |src.log|
    ensures Committed(src.specs, FullSyncMode, st, src.log[lo..hi])
         == Committed(src.specs, FullSyncMode, st, src.log[mid..hi])
  {
    var known, novel := src.log[lo..mid], src.log[mid..hi];
    var before := set e | e in src.log[from..done];
    assert src.log[lo..hi] == known + novel;
    forall e | e in known
      ensures e in before
    {
      var i :| lo <= i < mid && src.log[i] == e;
      assert src.log[from..done][i - from] == e;
    }
    KnownWeaves(known, novel, before);
    CommitAbsorbs(src.specs, FullSyncMode, st, known + novel, novel, before);
  }

  predicate CommitsTo(src: Source, st: Store, done: nat, hi: nat, r: Result<Store>)
    requires done <= hi <= |src.log|
  {
    r.Success? && r.value.tables == OneByOne(src.specs, FullSyncMode, st.tables, src.log[done..hi])
  }

  lemma NovelIsSafe(src: Source, lo: nat, done: nat, hi: nat)
    requires lo <= done <= hi <= |src.log| && SafeTransaction(src.peer, src.log[lo..hi])
    ensures SafeTransaction(src.peer, src.log[done..hi])
  {
    assert src.log[lo..hi] == src.log[lo..done] + src.log[done..hi];
    SuffixIsSafe(src.peer, src.log[lo..done], src.log[done..hi]);
  }

  lemma NewBatchCommits(src: Source, start: Store, from: nat, done: nat, st: Store, lo: nat, hi: nat)
    requires Ready(src, start, from) && CaughtUp(src, start, from, done, st) && from <= lo <= done <= hi <= |src.log|
    requires SafeTransaction(src.peer, src.log[lo..hi])
    ensures var r := Committed(src.specs, FullSyncMode, st, src.log[lo..hi]);
            CommitsTo(src, st, done, hi, r) && CaughtUp(src, start, from, hi, r.value)
  {
    KnownAbsorbed(src, start, from, done, st, lo, done, hi);
    NovelIsSafe(src, lo, done, hi);
    NovelCommits(src, start, from, done, st, hi);
  }

  lemma EmptySliceCommits(src: Source, st: Store, n: nat)
    requires n <= |src.log|
    ensures Committed(src.specs, FullSyncMode, st, src.log[n..n]) == Success(st)
  {
    assert src.log[n..n] == [];
    CommitNothing(src.specs, FullSyncMode, st);
  }

  lemma OldBatchCommits(src: Source, start: Store, from: nat, done: nat, st: Store, lo: nat, hi: nat)
    requires CaughtUp(src, start, from, done, st) && from <= lo <= hi <= done
    ensures Committed(src.specs, FullSyncMode, st, src.log[lo..hi]) == Success(st)
  {
    KnownAbsorbed(src, start, from, done, st, lo, hi, hi);
    EmptySliceCommits(src, st, hi);
  }

  lemma AppliedIsCommitted(src: Source, start: Store, from: nat, st: Store, lo: nat, hi: nat, polling: bool)
    requires Ready(src, start, from) && from <= lo <= hi <= |src.log| && (polling ==> OneTable(src.log[lo..hi]))
    ensures Applied(src.specs, FullSyncMode, polling, st, Slice(src, lo, hi))
         == Committed(src.specs, FullSyncMode, st, src.log[lo..hi])
  {
    PreparedIsBatch(src, from, lo, hi, polling, start.cursors);
    assert forall e :: e in src.log[lo..hi] ==> e in src.log;
  }

  /** A batch commits, and only what is new in it has an effect. */
  lemma BatchLands(src: Source, start: Store, from: nat, done: nat, st: Store, lo: nat, hi: nat, polling: bool)
    requires Ready(src, start, from) && CaughtUp(src, start, from, done, st)
    requires from <= lo <= done && lo <= hi <= |src.log| && SafeTransaction(src.peer, src.log[lo..hi])
    requires polling ==> OneTable(src.log[lo..hi])
    ensures var r := Applied(src.specs, FullSyncMode, polling, st, Slice(src, lo, hi));
            CommitsTo(src, st, done, Later(done, hi), r) && CaughtUp(src, start, from, Later(done, hi), r.value)
  {
    AppliedIsCommitted(src, start, from, st, lo, hi, polling);
    if hi > done {
      NewBatchCommits(src, start, from, done, st, lo, hi);
    } else {
      OldBatchCommits(src, start, from, done, st, lo, hi);
      assert src.log[done..done] == [];
    }
  }

  // ---- one key along the receipts ----

  /** A row that a chunk brought: when it was read, and up to where the receiver was when it came. */
  datatype Landing = Landing(time: nat, done: nat)

  predicate Brings(src: Source, limit: nat, r: Receipt, name: string, k: Key) {
    r.GotChunk? && r.read.name == name && Send.HasKey(ChunkRead(src, limit, r.read).rows, k)
  }

  /** The last chunk that brought the row of a key. */
  function LastLanding(
    src: Source, limit: nat, from: nat, receipts: seq<Receipt>, name: string, k: Key): Option<Landing>
  {
    if receipts == [] then None
    else
      var init, r := receipts[..|receipts| - 1], receipts[|receipts| - 1];
      if Brings(src, limit, r, name, k) then Some(Landing(r.read.time, Reached(from, init)))
      else LastLanding(src, limit, from, init, name, k)
  }

  predicate LandingWithin(src: Source, from: nat, done: nat, l: Option<Landing>) {
    l.Some? ==> from <= l.value.time <= |src.log| && from <= l.value.done <= done
  }

  /** The receiver's row: from nothing, or from the last row a chunk brought, by the changes since. */
  function RowFrom(src: Source, from: nat, done: nat, name: string, k: Key, l: Option<Landing>): Option<Row>
    requires name in src.specs && from <= done <= |src.log| && LandingWithin(src, from, done, l)
  {
    match l
    case None => Evolved(src, name, k, None, from, done)
    case Some(x) => Evolved(src, name, k, SourceCell(src, x.time, name, k), x.done, done)
  }

  lemma RowFromOwned(src: Source, from: nat, done: nat, name: string, k: Key, l: Option<Landing>)
    requires ValidSource(src) && name in src.specs && from <= done <= |src.log| && LandingWithin(src, from, done, l)
    ensures OwnedCell(src.specs[name], src.peer, RowFrom(src, from, done, name, k, l))
  {
    match l
    case None => EvolvedOwned(src, name, k, None, from, done);
    case Some(x) =>
      SourceOwned(src, x.time, name, k);
      EvolvedOwned(src, name, k, SourceCell(src, x.time, name, k), x.done, done);
  }

  lemma RowFromLater(src: Source, from: nat, done: nat, later: nat, name: string, k: Key, l: Option<Landing>)
    requires name in src.specs && from <= done <= later <= |src.log| && LandingWithin(src, from, done, l)
    ensures Evolved(src, name, k, RowFrom(src, from, done, name, k, l), done, later)
         == RowFrom(src, from, later, name, k, l)
  {
    match l
    case None => EvolvedJoins(src, name, k, None, from, done, later);
    case Some(x) => EvolvedJoins(src, name, k, SourceCell(src, x.time, name, k), x.done, done, later);
  }

  /** The row a key should have after some receipts, foreign rows staying as they were. */
  predicate RowRight(
    src: Source, start: Store, from: nat, done: nat, st: Store, name: string, k: Key, l: Option<Landing>)
    requires name in src.specs && from <= done <= |src.log| && LandingWithin(src, from, done, l)
  {
    RowIn(st.tables, name, k)
    == if Foreign(src.specs[name], src.peer, RowIn(start.tables, name, k)) then RowIn(start.tables, name, k)
       else RowFrom(src, from, done, name, k, l)
  }

  lemma ChunkStep(
    src: Source, start: Store, from: nat, to: nat, limit: nat, done: nat, st: Store, read: Read, name: string, k: Key,
    l: Option<Landing>)
    requires ValidSource(src) && limit > 0 && ValidRead(src, from, to, limit, read) && from <= done <= |src.log|
    requires name in src.specs && name in st.tables && LandingWithin(src, from, done, l)
    requires RowRight(src, start, from, done, st, name, k, l)
    ensures var next := Got(src, limit, FullSyncMode, st, GotChunk(read));
            && next.Success? && next.value.cursors == st.cursors && name in next.value.tables
            && RowRight(src, start, from, done, next.value, name, k,
                        if Brings(src, limit, GotChunk(read), name, k) then Some(Landing(read.time, done)) else l)
  {
    var rows := ChunkRead(src, limit, read).rows;
    ReadFits(src, from, to, limit, read);
    if Foreign(src.specs[name], src.peer, RowIn(start.tables, name, k)) {
      ForeignChunk(src, st.tables, read.name, rows, name, k);
    } else {
      RowFromOwned(src, from, done, name, k, l);
      ChunkLands(src, from, to, limit, st.tables, read, name, k);
    }
  }

  lemma ReadFits(src: Source, from: nat, to: nat, limit: nat, read: Read)
    requires ValidSource(src) && limit > 0 && ValidRead(src, from, to, limit, read)
    ensures ChunkFits(src, read.name, ChunkRead(src, limit, read).rows)
  {
    var rows := ChunkRead(src, limit, read).rows;
    if rows != [] {
      RowsAreOwned(src, from, to, limit, read, rows[0]);
      RowLands(src.specs[read.name], src.peer, read.name, rows[0], None);
    }
  }

  lemma BatchStep(
    src: Source, start: Store, from: nat, done: nat, later: nat, st: Store, next: Result<Store>, name: string, k: Key,
    l: Option<Landing>)
    requires ValidSource(src) && from <= done <= later <= |src.log| && CommitsTo(src, st, done, later, next)
    requires name in src.specs && name in st.tables && LandingWithin(src, from, done, l)
    requires RowRight(src, start, from, done, st, name, k, l)
    ensures RowRight(src, start, from, later, next.value, name, k, l)
  {
    OneByOneEvolves(src, st.tables, done, later, name, k);
    if Foreign(src.specs[name], src.peer, RowIn(start.tables, name, k)) {
      EvolvedForeign(src, name, k, RowIn(st.tables, name, k), done, later);
    } else {
      RowFromLater(src, from, done, later, name, k, l);
    }
  }

  lemma ChunkKeepsCaughtUp(src: Source, start: Store, from: nat, done: nat, st: Store, limit: nat, read: Read)
    requires CaughtUp(src, start, from, done, st)
    ensures CaughtUp(src, start, from, done, GotOr(src, limit, FullSyncMode, st, GotChunk(read)))
  {
    ChunkValid(src.specs, src.peer, st.tables, read.name, ChunkRead(src, limit, read).rows);
  }

  /** All receipts succeed, and the receiver is caught up with what it has received. */
  lemma {:induction false} ReceiptsLand(
    src: Source, start: Store, from: nat, to: nat, limit: nat, receipts: seq<Receipt>)
    requires Ready(src, start, from) && limit > 0 && AllOrderly(src, from, to, limit, receipts)
    ensures CaughtUp(src, start, from, Reached(from, receipts), GotAll(src, limit, FullSyncMode, start, receipts))
  {
    if receipts == [] {
      assert src.log[from..from] == [];
    } else {
      var init, r := receipts[..|receipts| - 1], receipts[|receipts| - 1];
      OrderlyInit(src, from, to, limit, receipts);
      ReceiptsLand(src, start, from, to, limit, init);
      var st, done := GotAll(src, limit, FullSyncMode, start, init), Reached(from, init);
      match r
      case GotChunk(read) => ChunkKeepsCaughtUp(src, start, from, done, st, limit, read);
      case GotBatch(lo, hi, polling) => BatchLands(src, start, from, done, st, lo, hi, polling);
    }
  }

  lemma OrderlyInit(src: Source, from: nat, to: nat, limit: nat, receipts: seq<Receipt>)
    requires AllOrderly(src, from, to, limit, receipts) && receipts != []
    ensures AllOrderly(src, from, to, limit, receipts[..|receipts| - 1])
    ensures Orderly(src, from, to, limit, Reached(from, receipts[..|receipts| - 1]), receipts[|receipts| - 1])
  {
    var init := receipts[..|receipts| - 1];
    forall i | 0 <= i < |init|
      ensures Orderly(src, from, to, limit, Reached(from, init[..i]), init[i])
    {
      assert init[..i] == receipts[..i];
    }
  }

  /** The row of every key, exactly, after any orderly receipts. */
  lemma {:induction false} RowAfterReceipts(
    src: Source, start: Store, from: nat, to: nat, limit: nat, receipts: seq<Receipt>, name: string, k: Key)
    requires Ready(src, start, from) && limit > 0 && AllOrderly(src, from, to, limit, receipts) && name in src.specs
    ensures var done, l := Reached(from, receipts), LastLanding(src, limit, from, receipts, name, k);
            && from <= done <= |src.log| && LandingWithin(src, from, done, l)
            && RowRight(src, start, from, done, GotAll(src, limit, FullSyncMode, start, receipts), name, k, l)
  {
    if receipts != [] {
      var init, r := receipts[..|receipts| - 1], receipts[|receipts| - 1];
      OrderlyInit(src, from, to, limit, receipts);
      RowAfterReceipts(src, start, from, to, limit, init, name, k);
      ReceiptsLand(src, start, from, to, limit, init);
      var st, done := GotAll(src, limit, FullSyncMode, start, init), Reached(from, init);
      var l := LastLanding(src, limit, from, init, name, k);
      match r
      case GotChunk(read) => ChunkStep(src, start, from, to, limit, done, st, read, name, k, l);
      case GotBatch(lo, hi, polling) =>
        BatchLands(src, start, from, done, st, lo, hi, polling);
        BatchStep(src, start, from, done, Later(done, hi), st, Got(src, limit, FullSyncMode, st, r), name, k, l);
    }
  }

  // ---- when the receiver converges ----

  /**
   The last row a chunk brought was out of date when it came, and no change of its key came after it:
   the receiver had already got a change of the key since the read.
   */
  predicate LandedStale(src: Source, n: nat, name: string, k: Key, l: Option<Landing>)
    requires n <= |src.log| && LandingWithin(src, 0, n, l)
  {
    && l.Some? && l.value.time < l.value.done
    && SourceCell(src, l.value.time, name, k) != SourceCell(src, l.value.done, name, k)
    && !TouchedWithin(src, name, k, l.value.done, n)
  }

  predicate AnsweredIn(src: Source, limit: nat, receipts: seq<Receipt>, name: string, k: Key) {
    exists r :: r in receipts && r.GotChunk? && Answers(src, limit, r.read, name, k)
  }

  lemma LandingConvergesIff(src: Source, from: nat, to: nat, n: nat, name: string, k: Key, x: Landing)
    requires ValidSource(src) && name in src.specs && from <= to <= n <= |src.log|
    requires from <= x.time <= to && from <= x.done <= n && SourceCell(src, x.time, name, k).Some?
    ensures RowFrom(src, from, n, name, k, Some(x)) == SourceCell(src, n, name, k)
       <==> !LandedStale(src, n, name, k, Some(x))
  {
    if x.time >= x.done {
      EvolvedCatchesUp(src, name, k, x.time, x.done, n);
    } else {
      SourceOwned(src, x.time, name, k);
      EvolvedFromPresent(src, name, k, SourceCell(src, x.time, name, k), x.done, n);
      if !TouchedWithin(src, name, k, x.done, n) {
        SourceUntouched(src, name, k, x.done, n);
      }
    }
  }

  lemma {:induction false} LandingIsShown(
    src: Source, from: nat, to: nat, limit: nat, receipts: seq<Receipt>, name: string, k: Key)
    requires ValidSource(src) && limit > 0 && AllOrderly(src, from, to, limit, receipts)
    ensures var l := LastLanding(src, limit, from, receipts, name, k);
            l.Some? ==> from <= l.value.time <= to <= |src.log| && SourceCell(src, l.value.time, name, k).Some?
  {
    if receipts != [] {
      var init, r := receipts[..|receipts| - 1], receipts[|receipts| - 1];
      OrderlyInit(src, from, to, limit, receipts);
      LandingIsShown(src, from, to, limit, init, name, k);
      if Brings(src, limit, r, name, k) {
        var rows := ChunkRead(src, limit, r.read).rows;
        var i :| 0 <= i < |rows| && rows[i].key == k;
        RowsAreOwned(src, from, to, limit, r.read, rows[i]);
      }
    }
  }

  lemma {:induction false} NoLandingNoneBrings(
    src: Source, limit: nat, from: nat, receipts: seq<Receipt>, name: string, k: Key, i: nat)
    requires LastLanding(src, limit, from, receipts, name, k) == None && i < |receipts|
    ensures !Brings(src, limit, receipts[i], name, k)
  {
    if i < |receipts| - 1 {
      NoLandingNoneBrings(src, limit, from, receipts[..|receipts| - 1], name, k, i);
    }
  }

  /** A key that no chunk brought, but one answered for, had no row when that chunk was read. */
  lemma NotBroughtWasAbsent(
    src: Source, from: nat, to: nat, limit: nat, receipts: seq<Receipt>, name: string, k: Key) returns (m: nat)
    requires limit > 0 && AllOrderly(src, from, to, limit, receipts) && AnsweredIn(src, limit, receipts, name, k)
    requires LastLanding(src, limit, from, receipts, name, k) == None
    ensures from <= m <= to <= |src.log| && SourceCell(src, m, name, k) == None
  {
    var r :| r in receipts && r.GotChunk? && Answers(src, limit, r.read, name, k);
    var i :| 0 <= i < |receipts| && receipts[i] == r;
    NoLandingNoneBrings(src, limit, from, receipts, name, k, i);
    assert Orderly(src, from, to, limit, Reached(from, receipts[..i]), receipts[i]);
    ChunkAnswers(src, from, to, limit, r.read, name, k);
    m := r.read.time;
  }

  /**
   Chunks and batches in any order: once the receiver has the log up to a point at or after the last
   read, the row of an answered key is the source's if and only if the last chunk that brought it was
   not out of date.
   */
  lemma KeyConvergesIff(
    src: Source, start: Store, from: nat, to: nat, limit: nat, receipts: seq<Receipt>, name: string, k: Key)
    requires Ready(src, start, from) && limit > 0 && AllOrderly(src, from, to, limit, receipts)
    requires from <= to <= Reached(from, receipts) && name in src.specs && AnsweredIn(src, limit, receipts, name, k)
    ensures var n, l := Reached(from, receipts), LastLanding(src, limit, from, receipts, name, k);
            && n <= |src.log| && LandingWithin(src, 0, n, l)
            && (Converged(src, n, start.tables, GotAll(src, limit, FullSyncMode, start, receipts).tables, name, k)
                <==> Foreign(src.specs[name], src.peer, RowIn(start.tables, name, k))
                     || !LandedStale(src, n, name, k, l))
  {
    var n, l := Reached(from, receipts), LastLanding(src, limit, from, receipts, name, k);
    RowAfterReceipts(src, start, from, to, limit, receipts, name, k);
    LandingIsShown(src, from, to, limit, receipts, name, k);
    if l.None? {
      var m := NotBroughtWasAbsent(src, from, to, limit, receipts, name, k);
      EvolvedCatchesUp(src, name, k, m, from, n);
    } else {
      LandingConvergesIff(src, from, to, n, name, k, l.value);
    }
  }

  ghost predicate AllConverged(src: Source, n: nat, before: Tables, after: Tables)
    requires n <= |src.log|
  {
    forall name, k: Key :: name in src.specs && k != [] ==> Converged(src, n, before, after, name, k)
  }

  /** No key of the receiver's own part was last brought out of date. */
  ghost predicate NothingStale(src: Source, start: Store, limit: nat, from: nat, n: nat, receipts: seq<Receipt>)
    requires n <= |src.log|
  {
    forall name, k: Key :: name in src.specs && k != [] ==>
      var l := LastLanding(src, limit, from, receipts, name, k);
      Foreign(src.specs[name], src.peer, RowIn(start.tables, name, k))
      || (LandingWithin(src, 0, n, l) && !LandedStale(src, n, name, k, l))
  }

  ghost predicate AllAnswered(src: Source, limit: nat, receipts: seq<Receipt>) {
    forall name, k: Key :: name in src.specs && k != [] ==> AnsweredIn(src, limit, receipts, name, k)
  }

  /** The whole receiver converges if and only if no row was last brought out of date. */
  lemma ConvergesIff(src: Source, start: Store, from: nat, to: nat, limit: nat, receipts: seq<Receipt>)
    requires Ready(src, start, from) && limit > 0 && AllOrderly(src, from, to, limit, receipts)
    requires from <= to <= Reached(from, receipts) && AllAnswered(src, limit, receipts)
    ensures var n := Reached(from, receipts);
            && n <= |src.log|
            && (AllConverged(src, n, start.tables, GotAll(src, limit, FullSyncMode, start, receipts).tables)
                <==> NothingStale(src, start, limit, from, n, receipts))
  {
    ReceiptsLand(src, start, from, to, limit, receipts);
    forall name, k: Key | name in src.specs && k != []
      ensures var n, l := Reached(from, receipts), LastLanding(src, limit, from, receipts, name, k);
              && LandingWithin(src, 0, n, l)
              && (Converged(src, n, start.tables, GotAll(src, limit, FullSyncMode, start, receipts).tables, name, k)
                  <==> Foreign(src.specs[name], src.peer, RowIn(start.tables, name, k))
                       || !LandedStale(src, n, name, k, l))
    {
      assert AnsweredIn(src, limit, receipts, name, k);
      KeyConvergesIff(src, start, from, to, limit, receipts, name, k);
    }
  }

  // ---- a condition on the order of receipts ----

  /** No change of a table was received up to a log point. */
  predicate Fresh(src: Source, from: nat, done: nat, name: string) {
    forall i :: from <= i < done && i < |src.log| ==> src.log[i].table != name
  }

  /** No chunk of a table comes after a change of the table. */
  predicate NoLateChunk(src: Source, from: nat, receipts: seq<Receipt>) {
    forall j :: 0 <= j < |receipts| && receipts[j].GotChunk? ==>
      Fresh(src, from, Reached(from, receipts[..j]), receipts[j].read.name)
  }

  lemma NoLateInit(src: Source, from: nat, receipts: seq<Receipt>)
    requires NoLateChunk(src, from, receipts) && receipts != []
    ensures NoLateChunk(src, from, receipts[..|receipts| - 1])
  {
    var init := receipts[..|receipts| - 1];
    forall j | 0 <= j < |init| && init[j].GotChunk?
      ensures Fresh(src, from, Reached(from, init[..j]), init[j].read.name)
    {
      assert init[..j] == receipts[..j] && receipts[j] == init[j];
    }
  }

  lemma {:induction false} LandingIsFresh(
    src: Source, limit: nat, from: nat, receipts: seq<Receipt>, name: string, k: Key)
    requires NoLateChunk(src, from, receipts)
    ensures var l := LastLanding(src, limit, from, receipts, name, k);
            l.Some? ==> Fresh(src, from, l.value.done, name)
  {
    if receipts != [] {
      NoLateInit(src, from, receipts);
      LandingIsFresh(src, limit, from, receipts[..|receipts| - 1], name, k);
    }
  }

  /** Then nothing is brought out of date, and the receiver converges. */
  lemma WithoutLateChunksConverges(src: Source, start: Store, from: nat, to: nat, limit: nat, receipts: seq<Receipt>)
    requires Ready(src, start, from) && limit > 0 && AllOrderly(src, from, to, limit, receipts)
    requires from <= to <= Reached(from, receipts) && AllAnswered(src, limit, receipts)
    requires NoLateChunk(src, from, receipts)
    ensures var n := Reached(from, receipts);
            && n <= |src.log|
            && AllConverged(src, n, start.tables, GotAll(src, limit, FullSyncMode, start, receipts).tables)
  {
    ConvergesIff(src, start, from, to, limit, receipts);
    var n := Reached(from, receipts);
    forall name, k: Key | name in src.specs && k != []
      ensures var l := LastLanding(src, limit, from, receipts, name, k);
              LandingWithin(src, 0, n, l) && !LandedStale(src, n, name, k, l)
    {
      RowAfterReceipts(src, start, from, to, limit, receipts, name, k);
      LandingIsFresh(src, limit, from, receipts, name, k);
      var l := LastLanding(src, limit, from, receipts, name, k);
      if l.Some? && l.value.time < l.value.done {
        SourceUntouched(src, name, k, l.value.time, l.value.done);
      }
    }
  }
}
